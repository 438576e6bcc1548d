/**
 * The earlier, self-contained revision of the plugin: a single `isInView` with zero tolerance,
 * a container resolved through a module-level cache of the last container wrapper, and a rect
 * always made relative to that container. ownerWindow is the same as in the current revision
 * (Dom.OwnerWindow), and getScrollbarWidth is the memo of ScrollbarWidth.
 */
module Legacy {
  import opened Base
  import opened Dom
  import opened Options
  import opened Rects
  import opened Classifier
  import Query

  /**
   * `opts.container`: left out or falsy, a jQuery set, or a plain window or node. A falsy value
   * falls back to the owner window, so it is the same as leaving the option out.
   */
  datatype ContainerArg = Unspecified | JQuerySet(nodes: seq<NodeId>) | Raw(node: NodeId)

  datatype LegacyOptions = LegacyOptions(anyPart: bool, zeroSize: bool, direction: string, container: ContainerArg)

  /** What a call returns (None: `undefined`) and what the container cache holds after it. */
  datatype Outcome = Outcome(result: Result<Option<bool>>, cache: seq<NodeId>)

  predicate ArgInDom(dom: Snapshot, arg: ContainerArg) {
    && (arg.JQuerySet? ==> InDom(dom, arg.nodes))
    && (arg.Raw? ==> arg.node in dom.nodes)
  }

  /**
   * getRelativeRect, written as the earlier revision writes it. It is the current revision's
   * formula: the corrections the current revision caches are exactly what is subtracted here.
   */
  function LegacyRelativeRect(rect: Rect, containerRect: Rect, css: Css): (r: Rect)
    ensures r == RelativeRect(rect, RectCorrections(containerRect, css))
    // the height shrinks by both borders, the width by the left and right borders
    ensures r.bottom - r.top == (rect.bottom - rect.top) - css.borderTopWidth - css.borderBottomWidth
    ensures r.right - r.left == (rect.right - rect.left) - css.borderLeftWidth - css.borderRightWidth
  {
    Rect(top := rect.top - containerRect.top + css.borderTopWidth,
         right := rect.right - containerRect.left - css.borderRightWidth,
         bottom := rect.bottom - containerRect.top - css.borderBottomWidth,
         left := rect.left - containerRect.left + css.borderLeftWidth)
  }

  /**
   * The verdict of the earlier revision: `anyPart` asks for an overlap with the viewport, full mode
   * for containment, with no tolerance; it is the current classifier at tolerance 0.
   */
  function LegacyClassify(rect: Rect, width: real, height: real, anyPart: bool,
                          useHorizontal: bool, useVertical: bool): (r: bool)
    ensures r == Classify(rect, width, height, 0.0, 0.0, anyPart, useHorizontal, useVertical)
  {
    var isInView := true;
    if anyPart then
      var isInView := if useVertical then rect.top < height && rect.bottom > 0.0 else isInView;
      if useHorizontal then isInView && rect.left < width && rect.right > 0.0 else isInView
    else
      var isInView := if useVertical then rect.top >= 0.0 && rect.top < height && rect.bottom > 0.0 && rect.bottom <= height
                      else isInView;
      if useHorizontal then isInView && rect.left >= 0.0 && rect.left < width && rect.right > 0.0 && rect.right <= width
      else isInView
  }

  /** The container asked for when it is not a jQuery set: the given node, else the owner window of the set. */
  function RawContainer(dom: Snapshot, sel: seq<NodeId>, arg: ContainerArg): (r: Option<NodeId>)
    requires dom.WF() && InDom(dom, sel) && ArgInDom(dom, arg)
    ensures r.Some? ==> r.value in dom.nodes
    ensures arg.Unspecified? && r.Some? ==> IsWindow(dom, r.value)
  {
    if arg.Raw? then Some(arg.node) else OwnerWindow(dom, sel)
  }

  /**
   * The container step: a jQuery set replaces the cache (an empty one is rejected first, leaving
   * the cache alone); any other container keeps the cached wrapper when it wraps that same node
   * and is wrapped anew otherwise. The result is the new cache, whose first node is the container.
   */
  function ResolveContainer(dom: Snapshot, sel: seq<NodeId>, arg: ContainerArg, cached: seq<NodeId>)
    : (r: Result<seq<NodeId>>)
    requires dom.WF() && InDom(dom, sel) && ArgInDom(dom, arg)
    ensures r.Ok? ==> First(r.value).Some? ==> First(r.value).value in dom.nodes
    ensures arg.JQuerySet? ==> r == (if |arg.nodes| == 0 then Err(EmptyContainerOption) else Ok(arg.nodes))
    // the cache holds the container used
    ensures !arg.JQuerySet? ==> r.Ok? && First(r.value) == RawContainer(dom, sel, arg)
    // the cached wrapper is reused for the same node
    ensures !arg.JQuerySet? && First(cached) == RawContainer(dom, sel, arg) ==> r == Ok(cached)
  {
    if arg.JQuerySet? then
      if |arg.nodes| == 0 then Err(EmptyContainerOption) else Ok(arg.nodes)
    else
      var c := RawContainer(dom, sel, arg);
      var inCache := First(cached) == c;
      // `$root` for the root window wraps the same node as `$( root )`
      Ok(if inCache then cached else Wrap(c))
  }

  /**
   * Everything after the container step, for the element `elem` and the container `container`
   * (None: the wrapper is empty): the document check, the direction check, the container sizes
   * (jQuery width() and height()), the element's rect made relative to the container, the verdict.
   */
  function Verdict(dom: Snapshot, elem: NodeId, opts: LegacyOptions, container: Option<NodeId>): (r: Result<bool>)
    requires elem in dom.nodes && (container.Some? ==> container.value in dom.nodes)
    // reading nodeType of an undefined container
    ensures container.None? ==> r == Err(HostTypeError)
    ensures container.Some? && dom.nodes[container.value].kind == DocumentNode ==> r == Err(DocumentContainer)
    ensures container.Some? && dom.nodes[container.value].kind != DocumentNode && !ValidDirection(opts.direction) ==>
              r == Err(InvalidDirection)
    // only an element has a bounding client rect, the container included
    ensures r.Ok? ==> dom.nodes[elem].kind == ElementNode && dom.nodes[container.value].kind == ElementNode
    ensures container.Some? && ValidDirection(opts.direction) && dom.nodes[container.value].kind != DocumentNode ==>
              (r.Ok? <==> dom.nodes[elem].kind == ElementNode && dom.nodes[container.value].kind == ElementNode)
    ensures r.Err? ==> r.error in {HostTypeError, DocumentContainer, InvalidDirection}
    // the verdict: the element's rect relative to the container, inside the container's width and
    // height on each axis the direction asks for ("" is both), with no tolerance
    ensures r.Ok? ==>
              var c := dom.nodes[container.value];
              var rect := RelativeRect(dom.nodes[elem].box.rect, RectCorrections(c.box.rect, c.css));
              var both := opts.direction == "" || opts.direction == "both";
              (r.value <==>
                 && ((both || opts.direction == "vertical") ==>
                       AxisInView(rect.top, rect.bottom, c.box.height, 0.0, opts.anyPart))
                 && ((both || opts.direction == "horizontal") ==>
                       AxisInView(rect.left, rect.right, c.box.width, 0.0, opts.anyPart)))
  {
    if container.None? then Err(HostTypeError)
    else
      var c := dom.nodes[container.value];
      if c.kind == DocumentNode then Err(DocumentContainer)
      else if !ValidDirection(opts.direction) then Err(InvalidDirection)
      else
        var direction := if opts.direction == "" then "both" else opts.direction;
        var useVertical := direction == "both" || direction == "vertical";
        var useHorizontal := direction == "both" || direction == "horizontal";
        var n := dom.nodes[elem];
        if n.kind != ElementNode || c.kind != ElementNode then Err(HostTypeError)
        else
          var rect := LegacyRelativeRect(n.box.rect, c.box.rect, c.css);
          Ok(LegacyClassify(rect, c.box.width, c.box.height, opts.anyPart, useHorizontal, useVertical))
  }

  /** isInView of the earlier revision as a function of the cache before the call. */
  function LegacyStep(dom: Snapshot, sel: seq<NodeId>, opts: LegacyOptions, cached: seq<NodeId>): (o: Outcome)
    requires dom.WF() && InDom(dom, sel) && ArgInDom(dom, opts.container)
    // an empty set gives undefined, and only an empty set does
    ensures o.result == Ok(None) <==> |sel| == 0
    ensures |sel| == 0 ==> o.cache == cached
    // the size check comes before any container work
    ensures |sel| > 0 && !opts.zeroSize && !Query.TakesSpace(dom.nodes[sel[0]]) ==> o == Outcome(Ok(Some(false)), cached)
    // an empty jQuery container throws before the cache changes
    ensures |sel| > 0 && (opts.zeroSize || Query.TakesSpace(dom.nodes[sel[0]])) && opts.container == JQuerySet([]) ==>
              o == Outcome(Err(EmptyContainerOption), cached)
    // a container that got past the container step is what the cache holds, even if the call then throws
    ensures |sel| > 0 && (opts.zeroSize || Query.TakesSpace(dom.nodes[sel[0]])) && !opts.container.JQuerySet? ==>
              First(o.cache) == RawContainer(dom, sel, opts.container)
    ensures o.result == Ok(Some(true)) ==>
              dom.nodes[sel[0]].kind == ElementNode && First(o.cache).Some? && First(o.cache).value in dom.nodes &&
              dom.nodes[First(o.cache).value].kind == ElementNode
    ensures o.result.Err? ==> o.result.error in {EmptyContainerOption, HostTypeError, DocumentContainer, InvalidDirection}
    // past the size check and the container step, the answer is the verdict against the cached container
    ensures |sel| > 0 && (opts.zeroSize || Query.TakesSpace(dom.nodes[sel[0]])) &&
            ResolveContainer(dom, sel, opts.container, cached).Ok? ==>
              var cache := ResolveContainer(dom, sel, opts.container, cached).value;
              var v := Verdict(dom, sel[0], opts, First(cache));
              && o.cache == cache
              && (v.Ok? ==> o.result == Ok(Some(v.value)))
              && (v.Err? ==> o.result == Err(v.error))
  {
    if |sel| == 0 then Outcome(Ok(None), cached)
    else
      var elem := sel[0];
      var sizeOK := opts.zeroSize || Query.TakesSpace(dom.nodes[elem]);
      if !sizeOK then Outcome(Ok(Some(false)), cached)
      else
        match ResolveContainer(dom, sel, opts.container, cached)
        case Err(e) => Outcome(Err(e), cached)
        case Ok(cache) =>
          var v := Verdict(dom, elem, opts, First(cache));
          Outcome(if v.Ok? then Ok(Some(v.value)) else Err(v.error), cache)
  }

  /**
   * A window never has a bounding client rect, and the rect is made relative to the container
   * whatever the container is: every call that reaches the rect with a window container throws.
   * The default container is the owner window, so this includes every call without a container.
   */
  lemma WindowContainerThrows(dom: Snapshot, sel: seq<NodeId>, opts: LegacyOptions, cached: seq<NodeId>)
    requires dom.WF() && InDom(dom, sel) && ArgInDom(dom, opts.container)
    requires |sel| > 0 && (opts.zeroSize || Query.TakesSpace(dom.nodes[sel[0]])) && ValidDirection(opts.direction)
    requires var cache := ResolveContainer(dom, sel, opts.container, cached);
             cache.Ok? && First(cache.value).Some? && IsWindow(dom, First(cache.value).value)
    ensures LegacyStep(dom, sel, opts, cached).result == Err(HostTypeError)
  {
  }

  /** In particular, with no container option an element in a window is never reported in view. */
  lemma DefaultContainerThrows(dom: Snapshot, sel: seq<NodeId>, opts: LegacyOptions, cached: seq<NodeId>)
    requires dom.WF() && InDom(dom, sel) && opts.container == Unspecified
    requires |sel| > 0 && (opts.zeroSize || Query.TakesSpace(dom.nodes[sel[0]])) && ValidDirection(opts.direction)
    requires OwnerWindow(dom, sel).Some?
    ensures LegacyStep(dom, sel, opts, cached).result == Err(HostTypeError)
  {
    WindowContainerThrows(dom, sel, opts, cached);
  }

  /**
   * Passing the same node again keeps the wrapper the first call cached: the second call finds
   * it in the cache, whatever the sets and the other options.
   */
  lemma SameContainerReusesCache(dom: Snapshot, sel1: seq<NodeId>, sel2: seq<NodeId>,
                                 opts1: LegacyOptions, opts2: LegacyOptions, c: NodeId, cached: seq<NodeId>)
    requires dom.WF() && InDom(dom, sel1) && InDom(dom, sel2) && c in dom.nodes
    requires opts1.container == Raw(c) && opts2.container == Raw(c)
    requires |sel1| > 0 && (opts1.zeroSize || Query.TakesSpace(dom.nodes[sel1[0]]))
    ensures var first := LegacyStep(dom, sel1, opts1, cached);
            LegacyStep(dom, sel2, opts2, first.cache).cache == first.cache
  {
    var first := LegacyStep(dom, sel1, opts1, cached);
    assert First(first.cache) == Some(c);
  }

  /** Full containment implies anyPart, with the same container and the same cache afterwards. */
  lemma FullImpliesAnyPart(dom: Snapshot, sel: seq<NodeId>, opts: LegacyOptions, cached: seq<NodeId>)
    requires dom.WF() && InDom(dom, sel) && ArgInDom(dom, opts.container)
    requires LegacyStep(dom, sel, opts.(anyPart := false), cached).result == Ok(Some(true))
    ensures LegacyStep(dom, sel, opts.(anyPart := true), cached) == LegacyStep(dom, sel, opts.(anyPart := false), cached).(result := Ok(Some(true)))
  {
  }

  /** `$cachedContainer`: the wrapper of the last container, shared by every call on the page. */
  class ContainerCache {
    var cached: seq<NodeId>

    /** Initially the wrapper of the window the plugin was loaded into. */
    constructor (root: NodeId)
      ensures cached == [root]
    {
      cached := [root];
    }

    method IsInView(dom: Snapshot, sel: seq<NodeId>, opts: LegacyOptions) returns (r: Result<Option<bool>>)
      requires dom.WF() && InDom(dom, sel) && ArgInDom(dom, opts.container)
      modifies this
      ensures r == LegacyStep(dom, sel, opts, old(cached)).result
      ensures cached == LegacyStep(dom, sel, opts, old(cached)).cache
    {
      if |sel| == 0 {
        return Ok(None);
      }
      var elem := sel[0];
      var sizeOK := opts.zeroSize || Query.TakesSpace(dom.nodes[elem]);
      if !sizeOK {
        return Ok(Some(false));
      }
      if opts.container.JQuerySet? {
        if |opts.container.nodes| == 0 {
          return Err(EmptyContainerOption);
        }
        cached := opts.container.nodes;
      } else {
        var container := RawContainer(dom, sel, opts.container);
        var inCache := First(cached) == container;
        if !inCache {
          cached := Wrap(container);
        }
      }
      var v := Verdict(dom, elem, opts, First(cached));
      r := if v.Ok? then Ok(Some(v.value)) else Err(v.error);
    }
  }
}
