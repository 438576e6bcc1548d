/**
 * Scrollbar presence (hasScrollbar) and effective scrollbar width (effectiveScrollbarWith,
 * getNetContainerWidth/Height, getWindowDimension) as functions of the snapshot and of the
 * global scrollbar width `g` that the memo returns.
 */
module Scrollbars {
  import opened Base
  import opened Dom

  datatype Axis = Horizontal | Vertical | Both

  /** The axis argument; "" stands for a falsy argument, which defaults to "both". */
  function ParseAxis(arg: string): (r: Option<Axis>)
    ensures r.None? <==> arg != "" && arg != "horizontal" && arg != "vertical" && arg != "both"
    ensures r == Some(Both) <==> arg == "" || arg == "both"
    ensures arg == "horizontal" ==> r == Some(Horizontal)
    ensures arg == "vertical" ==> r == Some(Vertical)
  {
    if arg == "" || arg == "both" then Some(Both)
    else if arg == "horizontal" then Some(Horizontal)
    else if arg == "vertical" then Some(Vertical)
    else None
  }

  /** A per-axis answer: a scalar for one axis, a pair for "both". */
  datatype Answer<T> = One(only: T) | Two(horizontal: T, vertical: T)

  datatype Verdict = Verdict(horizontal: bool, vertical: bool)

  function Project<T>(h: T, v: T, axis: Axis): (r: Answer<T>)
    ensures r.Two? <==> axis == Both
    ensures axis == Both ==> r == Two(h, v)
    ensures axis == Horizontal ==> r == One(h)
    ensures axis == Vertical ==> r == One(v)
  {
    match axis
    case Both => Two(h, v)
    case Horizontal => One(h)
    case Vertical => One(v)
  }

  // ---------------------------------------------------------------------------------------------
  // Overflow resolution

  /** The overflow value that applies on one axis: an explicit per-axis value wins over `overflow`. */
  function EffectiveOverflow(overflow: string, axisValue: string): string {
    if axisValue != "" then axisValue else overflow
  }

  datatype OverflowProps = OverflowProps(overflow: string, overflowX: string, overflowY: string)

  /**
   * hasScrollbar tests each keyword as `axisValue === v || (!axisValue && overflow === v)`. For every
   * keyword that is exactly the resolved overflow of the axis, so the six flags it computes (scroll,
   * auto and visible on either axis) are read here as tests on EffectiveOverflow, at most one per axis.
   */
  lemma SourceFlagIsEffectiveOverflow(overflow: string, axisValue: string, v: string)
    requires v != ""
    ensures (axisValue == v || (axisValue == "" && overflow == v)) <==> EffectiveOverflow(overflow, axisValue) == v
  {
  }

  /**
   * The overflow properties hasScrollbar reads: `overflow` always, `overflowX`/`overflowY` only
   * for a queried axis. An unread per-axis value is undefined, so that axis falls back to `overflow`.
   */
  function QueriedProps(css: Css, axis: Axis): (p: OverflowProps)
    ensures p.overflow == css.overflow
    // a queried axis resolves its own value first
    ensures axis != Vertical ==> EffectiveOverflow(p.overflow, p.overflowX) == EffectiveOverflow(css.overflow, css.overflowX)
    ensures axis != Horizontal ==> EffectiveOverflow(p.overflow, p.overflowY) == EffectiveOverflow(css.overflow, css.overflowY)
    // the axis left out falls back to `overflow` whatever its own value
    ensures axis == Vertical ==> EffectiveOverflow(p.overflow, p.overflowX) == css.overflow
    ensures axis == Horizontal ==> EffectiveOverflow(p.overflow, p.overflowY) == css.overflow
  {
    OverflowProps(css.overflow,
                  if axis != Vertical then css.overflowX else "",
                  if axis != Horizontal then css.overflowY else "")
  }

  // ---------------------------------------------------------------------------------------------
  // Ordinary elements

  /** First pass: overflow scroll shows a bar, overflow auto shows one when the content is larger. */
  function FirstPass(ox: string, oy: string, sw: real, sh: real, iw: real, ih: real): Verdict {
    Verdict(sw > 0.0 && (ox == "scroll" || (ox == "auto" && iw < sw)),
            sh > 0.0 && (oy == "scroll" || (oy == "auto" && ih < sh)))
  }

  /**
   * The cross-axis test for one axis: the bar on the other axis takes `g` off the inner size. The
   * inner size was only read on an auto axis with content; otherwise it is undefined and the
   * comparison with NaN is false.
   */
  predicate CrossAxisFires(o: string, scrollSize: real, innerSize: real, g: real) {
    o == "auto" && scrollSize > 0.0 && innerSize - g < scrollSize
  }

  /** The correction as the source runs it: vertical first, then horizontal with the new vertical. */
  function Correct(v: Verdict, ox: string, oy: string, sw: real, sh: real, iw: real, ih: real, g: real): Verdict {
    var vertical := v.vertical || (v.horizontal && CrossAxisFires(oy, sh, ih, g));
    var horizontal := v.horizontal || (vertical && CrossAxisFires(ox, sw, iw, g));
    Verdict(horizontal, vertical)
  }

  /** The same correction run horizontal first. */
  function CorrectHorizontalFirst(v: Verdict, ox: string, oy: string, sw: real, sh: real, iw: real, ih: real, g: real): Verdict {
    var horizontal := v.horizontal || (v.vertical && CrossAxisFires(ox, sw, iw, g));
    var vertical := v.vertical || (horizontal && CrossAxisFires(oy, sh, ih, g));
    Verdict(horizontal, vertical)
  }

  /** Scrollbars of an ordinary element, from its resolved overflow per axis and its sizes. */
  function ElementVerdict(ox: string, oy: string, sw: real, sh: real, iw: real, ih: real, g: real): (r: Verdict)
    // overflow: scroll with content always shows a bar
    ensures ox == "scroll" && sw > 0.0 ==> r.horizontal
    ensures oy == "scroll" && sh > 0.0 ==> r.vertical
    // hidden and visible axes, and axes without content, never show one
    ensures (ox != "scroll" && ox != "auto") || sw <= 0.0 ==> !r.horizontal
    ensures (oy != "scroll" && oy != "auto") || sh <= 0.0 ==> !r.vertical
    // auto: the content overflows, or the other axis' bar squeezes it
    ensures ox == "auto" && sw > 0.0 ==> (r.horizontal <==> iw < sw || (r.vertical && iw - g < sw))
    ensures oy == "auto" && sh > 0.0 ==>
              (r.vertical <==> ih < sh || (FirstPass(ox, oy, sw, sh, iw, ih).horizontal && ih - g < sh))
    // bars that take no space never make another bar appear
    ensures g <= 0.0 ==> r == FirstPass(ox, oy, sw, sh, iw, ih)
  {
    Correct(FirstPass(ox, oy, sw, sh, iw, ih), ox, oy, sw, sh, iw, ih, g)
  }

  /** The order of the correction does not matter: running horizontal first gives the same verdict. */
  lemma CorrectionOrderIrrelevant(ox: string, oy: string, sw: real, sh: real, iw: real, ih: real, g: real)
    ensures var first := FirstPass(ox, oy, sw, sh, iw, ih);
            Correct(first, ox, oy, sw, sh, iw, ih, g) == CorrectHorizontalFirst(first, ox, oy, sw, sh, iw, ih, g)
  {
  }

  /** One correction round reaches a fixed point: correcting the verdict again changes nothing. */
  lemma CorrectionIsStable(ox: string, oy: string, sw: real, sh: real, iw: real, ih: real, g: real)
    ensures var r := ElementVerdict(ox, oy, sw, sh, iw, ih, g);
            Correct(r, ox, oy, sw, sh, iw, ih, g) == r
  {
  }

  /**
   * When the first pass found bars on both axes or on neither, the correction does not fire and
   * the global width plays no part: the verdict is the first pass for every global width.
   */
  lemma BalancedFirstPassIgnoresWidth(ox: string, oy: string, sw: real, sh: real, iw: real, ih: real, g: real)
    requires FirstPass(ox, oy, sw, sh, iw, ih).horizontal == FirstPass(ox, oy, sw, sh, iw, ih).vertical
    ensures ElementVerdict(ox, oy, sw, sh, iw, ih, g) == FirstPass(ox, oy, sw, sh, iw, ih)
  {
  }

  /**
   * The verdict of an ordinary element. Only a queried axis reads its own overflow value; the other
   * axis is resolved from `overflow` alone, and that resolution still feeds the cross-axis correction.
   */
  function ElementScrollbars(n: Node, axis: Axis, g: real): (r: Verdict)
    ensures axis == Both ==>
              r == ElementVerdict(EffectiveOverflow(n.css.overflow, n.css.overflowX),
                                  EffectiveOverflow(n.css.overflow, n.css.overflowY),
                                  n.box.scrollWidth, n.box.scrollHeight, n.box.innerWidth, n.box.innerHeight, g)
    ensures axis == Horizontal ==>
              r == ElementVerdict(EffectiveOverflow(n.css.overflow, n.css.overflowX), n.css.overflow,
                                  n.box.scrollWidth, n.box.scrollHeight, n.box.innerWidth, n.box.innerHeight, g)
    ensures axis == Vertical ==>
              r == ElementVerdict(n.css.overflow, EffectiveOverflow(n.css.overflow, n.css.overflowY),
                                  n.box.scrollWidth, n.box.scrollHeight, n.box.innerWidth, n.box.innerHeight, g)
  {
    var p := QueriedProps(n.css, axis);
    ElementVerdict(EffectiveOverflow(p.overflow, p.overflowX), EffectiveOverflow(p.overflow, p.overflowY),
                   n.box.scrollWidth, n.box.scrollHeight, n.box.innerWidth, n.box.innerHeight, g)
  }

  /**
   * Asking for one axis can miss a bar that asking for both reports: with overflow-x auto,
   * overflow-y scroll and an empty `overflow`, the vertical bar squeezes content that just fits,
   * but a horizontal-only query never reads overflow-y and so never corrects for it.
   */
  lemma SingleAxisQueryCanMissCrossBar(n: Node, g: real)
    requires n.css.overflow == "" && n.css.overflowX == "auto" && n.css.overflowY == "scroll"
    requires n.box.scrollWidth == n.box.innerWidth && n.box.scrollWidth > 0.0 && n.box.scrollHeight > 0.0 && g > 0.0
    ensures ElementScrollbars(n, Both, g).horizontal
    ensures !ElementScrollbars(n, Horizontal, g).horizontal
  {
  }

  // ---------------------------------------------------------------------------------------------
  // Windows

  /**
   * One axis of the window verdict. `o` is the root element's resolved overflow, `client` its
   * client size, `docSize` the document size; the body reads decide the override for a body
   * with overflow: hidden.
   */
  function WindowAxis(o: string, client: real, docSize: real,
                      bodyHidden: bool, bodyPositioned: bool,
                      bodyScroll: real, bodyBorder: real, bodyMargin: real, rootScroll: real): (r: bool)
    // overflow: scroll on the root always shows a bar
    ensures o == "scroll" ==> r
    // the body override only ever removes a bar
    ensures r ==> o == "scroll" || ((o == "auto" || o == "visible") && client < docSize)
    ensures !bodyHidden ==> (r <==> o == "scroll" || ((o == "auto" || o == "visible") && client < docSize))
    // a hidden, positioned body clips everything
    ensures bodyHidden && bodyPositioned ==> (r <==> o == "scroll")
    // a hidden, unpositioned body clips when the document is no larger than the body
    ensures bodyHidden && (bodyScroll == rootScroll || bodyScroll + bodyBorder + bodyMargin == rootScroll) ==>
              (r <==> o == "scroll")
    // otherwise a hidden, unpositioned body leaves the verdict of the root alone
    ensures bodyHidden && !bodyPositioned && bodyScroll != rootScroll && bodyScroll + bodyBorder + bodyMargin != rootScroll ==>
              (r <==> o == "scroll" || ((o == "auto" || o == "visible") && client < docSize))
  {
    var scroll := o == "scroll";
    var base := scroll || ((o == "auto" || o == "visible") && client < docSize);
    if !bodyHidden then base
    else if bodyPositioned then scroll
    else if bodyScroll == rootScroll || bodyScroll + bodyBorder + bodyMargin == rootScroll then scroll
    else base
  }

  predicate BodyHidden(body: Css, axisValue: string) {
    body.overflow == "hidden" || axisValue == "hidden"
  }

  predicate BodyPositioned(body: Css) {
    body.position == "absolute" || body.position == "relative"
  }

  /**
   * The window verdict from the document, its root element and its body. Each axis is WindowAxis
   * over the root's resolved overflow, the root's client size and the document size on that axis.
   */
  function WindowScrollbars(doc: Node, root: Node, body: Node, axis: Axis): (r: Verdict)
    ensures var p := QueriedProps(root.css, axis);
            var ox := EffectiveOverflow(p.overflow, p.overflowX);
            && (ox == "scroll" ==> r.horizontal)
            && (r.horizontal ==> ox == "scroll" || ((ox == "auto" || ox == "visible") && root.box.clientWidth < doc.box.width))
            && (!BodyHidden(body.css, body.css.overflowX) ==>
                  (r.horizontal <==> ox == "scroll" || ((ox == "auto" || ox == "visible") && root.box.clientWidth < doc.box.width)))
            && (BodyHidden(body.css, body.css.overflowX) && BodyPositioned(body.css) ==> (r.horizontal <==> ox == "scroll"))
    ensures var p := QueriedProps(root.css, axis);
            var oy := EffectiveOverflow(p.overflow, p.overflowY);
            && (oy == "scroll" ==> r.vertical)
            && (r.vertical ==> oy == "scroll" || ((oy == "auto" || oy == "visible") && root.box.clientHeight < doc.box.height))
            && (!BodyHidden(body.css, body.css.overflowY) ==>
                  (r.vertical <==> oy == "scroll" || ((oy == "auto" || oy == "visible") && root.box.clientHeight < doc.box.height)))
            && (BodyHidden(body.css, body.css.overflowY) && BodyPositioned(body.css) ==> (r.vertical <==> oy == "scroll"))
    // in full: each axis is the window test on that axis's sizes, the body's own overflow and its
    // leading border and margin
    ensures var p := QueriedProps(root.css, axis);
            && r.horizontal == WindowAxis(EffectiveOverflow(p.overflow, p.overflowX), root.box.clientWidth, doc.box.width,
                                          BodyHidden(body.css, body.css.overflowX), BodyPositioned(body.css),
                                          body.box.scrollWidth, body.css.borderLeftWidth, body.css.marginLeft,
                                          root.box.scrollWidth)
            && r.vertical == WindowAxis(EffectiveOverflow(p.overflow, p.overflowY), root.box.clientHeight, doc.box.height,
                                        BodyHidden(body.css, body.css.overflowY), BodyPositioned(body.css),
                                        body.box.scrollHeight, body.css.borderTopWidth, body.css.marginTop,
                                        root.box.scrollHeight)
  {
    var p := QueriedProps(root.css, axis);
    var positioned := BodyPositioned(body.css);
    Verdict(
      WindowAxis(EffectiveOverflow(p.overflow, p.overflowX), root.box.clientWidth, doc.box.width,
                 BodyHidden(body.css, body.css.overflowX), positioned,
                 body.box.scrollWidth, body.css.borderLeftWidth, body.css.marginLeft, root.box.scrollWidth),
      WindowAxis(EffectiveOverflow(p.overflow, p.overflowY), root.box.clientHeight, doc.box.height,
                 BodyHidden(body.css, body.css.overflowY), positioned,
                 body.box.scrollHeight, body.css.borderTopWidth, body.css.marginTop, root.box.scrollHeight))
  }

  // ---------------------------------------------------------------------------------------------
  // hasScrollbar

  /** What hasScrollbar inspects: the scrollbars of a window (given by its document) or of an element. */
  datatype Target = WindowTarget(doc: NodeId) | ElementTarget(elem: NodeId)

  /** `elem === elem.ownerDocument.documentElement`: the html element of its own document. */
  predicate IsRootElement(dom: Snapshot, n: NodeId)
    requires n in dom.nodes
  {
    var owner := dom.nodes[n].ownerDocument;
    owner.Some? && owner.value in dom.nodes && dom.nodes[owner.value].documentElement == Some(n)
  }

  /**
   * Windows, documents and the root element stand for the window; an iframe element for its
   * content window; everything else, the body included, is queried as an element.
   */
  function ScrollbarTarget(dom: Snapshot, n: NodeId): (r: Result<Target>)
    requires dom.WF() && n in dom.nodes
    ensures r.Ok? && r.value.WindowTarget? ==>
              r.value.doc in dom.nodes && dom.nodes[r.value.doc].kind == DocumentNode
    ensures r.Ok? && r.value.ElementTarget? ==> r.value.elem == n
    ensures r.Err? ==> IsIframe(dom, n) && r.error == HostTypeError
    // a window stands for itself through its document, a document for its own window
    ensures IsWindow(dom, n) ==> r.Ok? && r.value.WindowTarget? && Some(r.value.doc) == dom.nodes[n].document
    ensures dom.nodes[n].kind == DocumentNode ==> r == Ok(WindowTarget(n))
    // the root element stands for the window of its document
    ensures IsRootElement(dom, n) ==> r.Ok? && r.value.WindowTarget? && Some(r.value.doc) == dom.nodes[n].ownerDocument
    // an iframe stands for its content window, and throws when it has no document
    ensures IsIframe(dom, n) && !IsRootElement(dom, n) ==>
              (r.Ok? <==> dom.nodes[n].contentDocument.Some?) &&
              (r.Ok? ==> r.value.WindowTarget? && Some(r.value.doc) == dom.nodes[n].contentDocument)
    // everything else is itself
    ensures !IsWindow(dom, n) && dom.nodes[n].kind != DocumentNode && !IsRootElement(dom, n) && !IsIframe(dom, n) ==>
              r == Ok(ElementTarget(n))
  {
    var node := dom.nodes[n];
    assert NodeWF(dom.nodes, n, node);
    if node.kind == WindowNode then Ok(WindowTarget(node.document.value))
    else if node.kind == DocumentNode then Ok(WindowTarget(n))
    else if dom.nodes[node.ownerDocument.value].documentElement == Some(n) then Ok(WindowTarget(node.ownerDocument.value))
    else if IsIframe(dom, n) then
      (if node.contentDocument.Some? then Ok(WindowTarget(node.contentDocument.value)) else Err(HostTypeError))
    else Ok(ElementTarget(n))
  }

  /**
   * The verdict for both axes, given which axes the call queries (that decides which props are
   * read). getCss asks the view for the computed style of the body and the root element of a
   * window, or of the element itself; a missing one, or a node that is no element, is a TypeError.
   */
  function TargetScrollbars(dom: Snapshot, target: Target, axis: Axis, g: real): (r: Result<Verdict>)
    requires dom.WF()
    requires target.WindowTarget? ==> target.doc in dom.nodes && dom.nodes[target.doc].kind == DocumentNode
    requires target.ElementTarget? ==> target.elem in dom.nodes
    ensures r.Err? ==> r.error == HostTypeError
    ensures target.ElementTarget? ==>
              (r.Ok? <==> dom.nodes[target.elem].kind == ElementNode) &&
              (r.Ok? ==> r.value == ElementScrollbars(dom.nodes[target.elem], axis, g))
    ensures target.WindowTarget? ==>
              var doc := dom.nodes[target.doc];
              (r.Err? <==> doc.documentElement.None? || doc.body.None?) &&
              (r.Ok? ==> doc.documentElement.value in dom.nodes && doc.body.value in dom.nodes &&
                         r.value == WindowScrollbars(doc, dom.nodes[doc.documentElement.value], dom.nodes[doc.body.value], axis))
  {
    match target
    case ElementTarget(e) =>
      if dom.nodes[e].kind != ElementNode then Err(HostTypeError)
      else Ok(ElementScrollbars(dom.nodes[e], axis, g))
    case WindowTarget(d) =>
      var doc := dom.nodes[d];
      assert NodeWF(dom.nodes, d, doc);
      if doc.documentElement.None? || doc.body.None? then Err(HostTypeError)
      else Ok(WindowScrollbars(doc, dom.nodes[doc.documentElement.value], dom.nodes[doc.body.value], axis))
  }

  /** The global width only matters for elements: a window verdict is the same for every width. */
  lemma WindowIgnoresWidth(dom: Snapshot, target: Target, axis: Axis, g1: real, g2: real)
    requires dom.WF()
    requires target.WindowTarget? && target.doc in dom.nodes && dom.nodes[target.doc].kind == DocumentNode
    ensures TargetScrollbars(dom, target, axis, g1) == TargetScrollbars(dom, target, axis, g2)
  {
  }

  /**
   * hasScrollbar on a set: the axis is validated first, then an empty set gives undefined;
   * one axis gives a boolean, "both" a pair.
   */
  function HasScrollbarSpec(dom: Snapshot, sel: seq<NodeId>, axisArg: string, g: real): (r: Result<Option<Answer<bool>>>)
    requires dom.WF() && InDom(dom, sel)
    ensures ParseAxis(axisArg).None? ==> r == Err(InvalidAxis)
    ensures ParseAxis(axisArg).Some? && |sel| == 0 ==> r == Ok(None)
    ensures ParseAxis(axisArg).Some? && |sel| > 0 && r.Ok? ==>
              r.value.Some? && (r.value.value.Two? <==> ParseAxis(axisArg) == Some(Both))
    ensures r.Err? ==> r.error == InvalidAxis || r.error == HostTypeError
    // otherwise the answer is the verdict of the first node's target, read on the queried axes
    ensures ParseAxis(axisArg).Some? && |sel| > 0 ==>
              var axis := ParseAxis(axisArg).value;
              var t := ScrollbarTarget(dom, sel[0]);
              (r.Ok? <==> t.Ok? && TargetScrollbars(dom, t.value, axis, g).Ok?) &&
              (r.Ok? ==> var v := TargetScrollbars(dom, t.value, axis, g).value;
                         r.value == Some(Project(v.horizontal, v.vertical, axis)))
  {
    match ParseAxis(axisArg)
    case None => Err(InvalidAxis)
    case Some(axis) =>
      if |sel| == 0 then Ok(None)
      else
        var target :- ScrollbarTarget(dom, sel[0]);
        var v :- TargetScrollbars(dom, target, axis, g);
        Ok(Some(Project(v.horizontal, v.vertical, axis)))
  }

  /** Text nodes and fragments have no computed style: hasScrollbar on them is a TypeError. */
  lemma NonElementThrows(dom: Snapshot, sel: seq<NodeId>, axisArg: string, g: real)
    requires dom.WF() && InDom(dom, sel)
    requires ParseAxis(axisArg).Some? && |sel| > 0
    requires dom.nodes[sel[0]].kind == TextNode || dom.nodes[sel[0]].kind == FragmentNode
    ensures HasScrollbarSpec(dom, sel, axisArg, g) == Err(HostTypeError)
  {
    assert NodeWF(dom.nodes, sel[0], dom.nodes[sel[0]]);
  }

  /** A window, its document and the root element of that document all report the window's bars. */
  lemma WindowDocumentAndRootAgree(dom: Snapshot, window: NodeId, root: NodeId, axisArg: string, g: real)
    requires dom.WF() && window in dom.nodes && root in dom.nodes && IsWindow(dom, window)
    requires dom.nodes[window].document.Some?
    requires dom.nodes[root].ownerDocument == dom.nodes[window].document
    requires dom.nodes[dom.nodes[window].document.value].documentElement == Some(root)
    ensures HasScrollbarSpec(dom, [window], axisArg, g) == HasScrollbarSpec(dom, [dom.nodes[window].document.value], axisArg, g)
    ensures HasScrollbarSpec(dom, [root], axisArg, g) == HasScrollbarSpec(dom, [window], axisArg, g)
  {
    assert NodeWF(dom.nodes, window, dom.nodes[window]);
  }

  /** An iframe element reports the bars of its content window. */
  lemma IframeReportsContentWindow(dom: Snapshot, iframe: NodeId, axisArg: string, g: real)
    requires dom.WF() && iframe in dom.nodes && IsIframe(dom, iframe) && !IsRootElement(dom, iframe)
    requires dom.nodes[iframe].contentDocument.Some?
    ensures HasScrollbarSpec(dom, [iframe], axisArg, g) == HasScrollbarSpec(dom, [dom.nodes[iframe].contentDocument.value], axisArg, g)
  {
    assert NodeWF(dom.nodes, iframe, dom.nodes[iframe]);
  }

  /**
   * An ordinary element asked for both axes reports ElementVerdict of its resolved overflow values
   * and its sizes.
   */
  lemma ElementReportsVerdict(dom: Snapshot, sel: seq<NodeId>, g: real)
    requires dom.WF() && InDom(dom, sel) && |sel| > 0
    requires dom.nodes[sel[0]].kind == ElementNode && !IsRootElement(dom, sel[0]) && !IsIframe(dom, sel[0])
    ensures var n := dom.nodes[sel[0]];
            var v := ElementVerdict(EffectiveOverflow(n.css.overflow, n.css.overflowX),
                                    EffectiveOverflow(n.css.overflow, n.css.overflowY),
                                    n.box.scrollWidth, n.box.scrollHeight, n.box.innerWidth, n.box.innerHeight, g);
            HasScrollbarSpec(dom, sel, "", g) == Ok(Some(Two(v.horizontal, v.vertical)))
  {
  }

  /**
   * Whether hasScrollbar asks for the global scrollbar width: only for an element whose first pass
   * found a bar on exactly one axis (the lazy `&&` skips the call otherwise).
   */
  predicate NeedsGlobalWidth(dom: Snapshot, sel: seq<NodeId>, axisArg: string)
    requires dom.WF() && InDom(dom, sel)
  {
    && ParseAxis(axisArg).Some?
    && |sel| > 0
    && ScrollbarTarget(dom, sel[0]) == Ok(ElementTarget(sel[0]))
    && dom.nodes[sel[0]].kind == ElementNode
    && var n := dom.nodes[sel[0]];
       var p := QueriedProps(n.css, ParseAxis(axisArg).value);
       var first := FirstPass(EffectiveOverflow(p.overflow, p.overflowX), EffectiveOverflow(p.overflow, p.overflowY),
                              n.box.scrollWidth, n.box.scrollHeight, n.box.innerWidth, n.box.innerHeight);
       first.horizontal != first.vertical
  }

  // ---------------------------------------------------------------------------------------------
  // Effective scrollbar width and net container size

  predicate WidthsAre(a: Answer<real>, g: real) {
    match a
    case One(w) => w == 0.0 || w == g
    case Two(h, v) => (h == 0.0 || h == g) && (v == 0.0 || v == g)
  }

  predicate AllZero(a: Answer<real>) {
    match a
    case One(w) => w == 0.0
    case Two(h, v) => h == 0.0 && v == 0.0
  }

  /** Each width is the global width where the matching answer reports a bar, and 0 where it does not. */
  predicate WidthsFollow(w: Answer<real>, has: Answer<bool>, g: real) {
    match (w, has)
    case (One(x), One(b)) => (b ==> x == g) && (!b ==> x == 0.0)
    case (Two(x, y), Two(bh, bv)) => (bh ==> x == g) && (!bh ==> x == 0.0) && (bv ==> y == g) && (!bv ==> y == 0.0)
    case _ => false
  }

  function WidthOf(present: bool, g: real): real {
    if present then g else 0.0
  }

  function AxisArg(axis: Axis): string {
    match axis
    case Both => ""
    case Horizontal => "horizontal"
    case Vertical => "vertical"
  }

  /**
   * effectiveScrollbarWith: per queried axis, the global width if the element shows a bar there,
   * else 0; all zeros without asking hasScrollbar when the global width is 0.
   */
  function EffectiveWidthSpec(dom: Snapshot, sel: seq<NodeId>, axisArg: string, g: real): (r: Result<Option<Answer<real>>>)
    requires dom.WF() && InDom(dom, sel)
    ensures ParseAxis(axisArg).None? ==> r == Err(InvalidAxis)
    ensures ParseAxis(axisArg).Some? && |sel| == 0 ==> r == Ok(None)
    ensures r.Ok? && r.value.Some? ==> WidthsAre(r.value.value, g)
    ensures r.Ok? && r.value.Some? ==> (r.value.value.Two? <==> ParseAxis(axisArg) == Some(Both))
    ensures g == 0.0 && ParseAxis(axisArg).Some? && |sel| > 0 ==> r.Ok? && r.value.Some? && AllZero(r.value.value)
    ensures ParseAxis(axisArg).Some? && |sel| > 0 && r.Ok? ==> r.value.Some?
    // with a non-zero global width: hasScrollbar on the same axis decides, and its errors pass through
    ensures g != 0.0 && ParseAxis(axisArg).Some? && |sel| > 0 ==>
              var has := HasScrollbarSpec(dom, sel, axisArg, g);
              (r.Ok? <==> has.Ok?) && (r.Err? ==> r.error == has.error) &&
              (r.Ok? ==> has.value.Some? && r.value.Some? && WidthsFollow(r.value.value, has.value.value, g))
  {
    match ParseAxis(axisArg)
    case None => Err(InvalidAxis)
    case Some(axis) =>
      if |sel| == 0 then Ok(None)
      else if g == 0.0 then Ok(Some(Project(0.0, 0.0, axis)))
      else
        var has :- HasScrollbarSpec(dom, sel, AxisArg(axis), g);
        match has.value
        case One(b) => Ok(Some(One(WidthOf(b, g))))
        case Two(h, v) => Ok(Some(Two(WidthOf(h, g), WidthOf(v, g))))
  }

  datatype Dimension = Width | Height

  function ClientSize(box: Box, dim: Dimension): real {
    if dim == Width then box.clientWidth else box.clientHeight
  }

  function InnerSize(box: Box, dim: Dimension): real {
    if dim == Width then box.innerWidth else box.innerHeight
  }

  /** getWindowDimension: client size of the body in BackCompat mode, of the root element otherwise. */
  function WindowDimension(dom: Snapshot, window: NodeId, dim: Dimension): (r: Result<real>)
    requires dom.WF() && window in dom.nodes && IsWindow(dom, window)
    ensures r.Ok? ==> (exists source :: source in dom.nodes && dom.nodes[source].kind == ElementNode &&
                                        r.value == ClientSize(dom.nodes[source].box, dim))
    ensures r.Err? ==> r.error == HostTypeError
    // the element is the body of the window's document in BackCompat mode, its root element otherwise
    ensures var d := dom.nodes[window].document;
            && d.Some? && d.value in dom.nodes
            && var doc := dom.nodes[d.value];
               && (doc.backCompat ==> (r.Ok? <==> doc.body.Some?) &&
                                      (r.Ok? ==> doc.body.value in dom.nodes &&
                                                 r.value == ClientSize(dom.nodes[doc.body.value].box, dim)))
               && (!doc.backCompat ==> (r.Ok? <==> doc.documentElement.Some?) &&
                                       (r.Ok? ==> doc.documentElement.value in dom.nodes &&
                                                  r.value == ClientSize(dom.nodes[doc.documentElement.value].box, dim)))
  {
    assert NodeWF(dom.nodes, window, dom.nodes[window]);
    var d := dom.nodes[window].document.value;
    var doc := dom.nodes[d];
    assert NodeWF(dom.nodes, d, doc);
    var source := if doc.backCompat then doc.body else doc.documentElement;
    if source.None? then Err(HostTypeError)
    else Ok(ClientSize(dom.nodes[source.value].box, dim))
  }

  /**
   * getNetContainerWidth / getNetContainerHeight: the window's client size, or the element's
   * inner size less the effective width of the bar across the other axis.
   */
  function NetContainerSizeSpec(dom: Snapshot, container: NodeId, isWindow: bool, dim: Dimension, g: real): (r: Result<real>)
    requires dom.WF() && container in dom.nodes
    requires isWindow == IsWindow(dom, container)
    ensures !isWindow && r.Ok? ==>
              var inner := InnerSize(dom.nodes[container].box, dim);
              r.value == inner || r.value == inner - g
    ensures !isWindow && g == 0.0 ==> r == Ok(InnerSize(dom.nodes[container].box, dim))
    ensures r.Err? ==> r.error == HostTypeError
    ensures isWindow ==> r == WindowDimension(dom, container, dim)
    // the width loses the bar across it (the vertical one), the height the horizontal one
    ensures !isWindow && g != 0.0 ==>
              match HasScrollbarSpec(dom, [container], "", g)
              case Ok(Some(Two(h, v))) =>
                var inner := InnerSize(dom.nodes[container].box, dim);
                var bar := if dim == Width then v else h;
                r.Ok? && (bar ==> r.value == inner - g) && (!bar ==> r.value == inner)
              case Err(e) => r == Err(e)
              case _ => false
  {
    if isWindow then WindowDimension(dom, container, dim)
    else
      var widths :- EffectiveWidthSpec(dom, [container], "", g);
      var box := dom.nodes[container].box;
      var Two(h, v) := widths.value;
      Ok(if dim == Width then box.innerWidth - v else box.innerHeight - h)
  }
}
