/**
 * Rect normalisation: the content rect of an element (getContentRect), the rect the classifier
 * sees for the `box` option, and the rect relative to an element container (getRelativeRect).
 */
module Rects {
  import opened Base
  import opened Dom

  predicate Within(inner: Rect, outer: Rect) {
    outer.top <= inner.top && inner.bottom <= outer.bottom && outer.left <= inner.left && inner.right <= outer.right
  }

  predicate NonNegativeEdges(css: Css) {
    && css.borderTopWidth >= 0.0 && css.borderRightWidth >= 0.0 && css.borderBottomWidth >= 0.0 && css.borderLeftWidth >= 0.0
    && css.paddingTop >= 0.0 && css.paddingRight >= 0.0 && css.paddingBottom >= 0.0 && css.paddingLeft >= 0.0
  }

  /** getContentRect: the border rect shrunk on every side by that side's padding and border. */
  function ContentRect(rect: Rect, css: Css): (r: Rect)
    ensures NonNegativeEdges(css) ==> Within(r, rect)
    ensures r.bottom - r.top == (rect.bottom - rect.top)
                                - (css.paddingTop + css.borderTopWidth + css.paddingBottom + css.borderBottomWidth)
    ensures r.right - r.left == (rect.right - rect.left)
                                - (css.paddingLeft + css.borderLeftWidth + css.paddingRight + css.borderRightWidth)
  {
    Rect(top := rect.top + css.paddingTop + css.borderTopWidth,
         right := rect.right - (css.paddingRight + css.borderRightWidth),
         bottom := rect.bottom - (css.paddingBottom + css.borderBottomWidth),
         left := rect.left + css.paddingLeft + css.borderLeftWidth)
  }

  /**
   * The element's rect for the `box` option: the bounding client rect for border-box, the content
   * rect for content-box. Only elements have a bounding client rect.
   */
  function ElementRect(dom: Snapshot, elem: NodeId, borderBox: bool): (r: Result<Rect>)
    requires elem in dom.nodes
    ensures dom.nodes[elem].kind != ElementNode ==> r == Err(HostTypeError)
    ensures dom.nodes[elem].kind == ElementNode ==> r.Ok?
    ensures r.Ok? && borderBox ==> r.value == dom.nodes[elem].box.rect
    ensures r.Ok? && NonNegativeEdges(dom.nodes[elem].css) ==> Within(r.value, dom.nodes[elem].box.rect)
  {
    var n := dom.nodes[elem];
    if n.kind != ElementNode then Err(HostTypeError)
    else if borderBox then Ok(n.box.rect)
    else Ok(ContentRect(n.box.rect, n.css))
  }

  /** What getRelativeRect subtracts from each edge; computed once per query and cached. */
  datatype Corrections = Corrections(top: real, bottom: real, left: real, right: real)

  /**
   * getRelativeRect's corrections: top and left are the container's edges less its top and left
   * borders, bottom and right its top and left edges plus its bottom and right borders.
   */
  function RectCorrections(containerRect: Rect, css: Css): (r: Corrections)
    // bottom and top corrections lie both borders apart, and so do right and left
    ensures r.bottom - r.top == css.borderTopWidth + css.borderBottomWidth
    ensures r.right - r.left == css.borderLeftWidth + css.borderRightWidth
    // every correction moves with the container's top-left corner
    ensures r.top + css.borderTopWidth == containerRect.top && r.left + css.borderLeftWidth == containerRect.left
  {
    Corrections(top := containerRect.top - css.borderTopWidth,
                bottom := containerRect.top + css.borderBottomWidth,
                left := containerRect.left - css.borderLeftWidth,
                right := containerRect.left + css.borderRightWidth)
  }

  /** The corrections for a container; only an element has the bounding client rect they start from. */
  function ContainerCorrections(dom: Snapshot, container: NodeId): (r: Result<Corrections>)
    requires container in dom.nodes
    ensures r.Ok? <==> dom.nodes[container].kind == ElementNode
    ensures r.Err? ==> r.error == HostTypeError
  {
    var c := dom.nodes[container];
    if c.kind != ElementNode then Err(HostTypeError)
    else Ok(RectCorrections(c.box.rect, c.css))
  }

  /** Each edge less its correction: height and width change by the spread of the corrections. */
  function RelativeRect(rect: Rect, c: Corrections): (r: Rect)
    ensures r.bottom - r.top == (rect.bottom - rect.top) - (c.bottom - c.top)
    ensures r.right - r.left == (rect.right - rect.left) - (c.right - c.left)
  {
    Rect(top := rect.top - c.top, right := rect.right - c.right, bottom := rect.bottom - c.bottom, left := rect.left - c.left)
  }

  /**
   * The relative rect against the container's padding box, whose top-left corner is at
   * (containerRect.top + borderTop, containerRect.left + borderLeft): the top and left edges come
   * out twice the top and left border further in, the bottom and right edges moved by the
   * difference of the opposite borders.
   */
  lemma RelativeRectAgainstPaddingBox(rect: Rect, containerRect: Rect, css: Css)
    ensures var r := RelativeRect(rect, RectCorrections(containerRect, css));
            var padTop := containerRect.top + css.borderTopWidth;
            var padLeft := containerRect.left + css.borderLeftWidth;
            && r.top == (rect.top - padTop) + 2.0 * css.borderTopWidth
            && r.bottom == (rect.bottom - padTop) + css.borderTopWidth - css.borderBottomWidth
            && r.left == (rect.left - padLeft) + 2.0 * css.borderLeftWidth
            && r.right == (rect.right - padLeft) + css.borderLeftWidth - css.borderRightWidth
  {
  }

  /** Scrolling the page moves element and container alike and leaves the relative rect unchanged. */
  lemma RelativeRectTranslationInvariant(rect: Rect, containerRect: Rect, css: Css, dx: real, dy: real)
    ensures var moved := Rect(rect.top + dy, rect.right + dx, rect.bottom + dy, rect.left + dx);
            var movedContainer := Rect(containerRect.top + dy, containerRect.right + dx, containerRect.bottom + dy, containerRect.left + dx);
            RelativeRect(moved, RectCorrections(movedContainer, css)) == RelativeRect(rect, RectCorrections(containerRect, css))
  {
  }
}
