/**
 * The in-view query of the current revision as functions: _prepareConfig, _isInView, the
 * filter over a set (inView) and the single test (isInView).
 */
module Query {
  import opened Base
  import opened Dom
  import opened Scrollbars
  import opened Options
  import opened Containers
  import opened Rects
  import opened Classifier

  /** The configuration _prepareConfig builds (without its cache, which lives in QueryConfig). */
  datatype Settings = Settings(
    container: NodeId,
    useVertical: bool, useHorizontal: bool,
    partially: bool, excludeHidden: bool, borderBox: bool,
    containerIsWindow: bool,
    tolerance: Tolerance)

  /** What _prepareConfig guarantees about the resolved container. */
  predicate SettingsWF(dom: Snapshot, s: Settings) {
    && s.container in dom.nodes
    && s.containerIsWindow == IsWindow(dom, s.container)
    && (s.containerIsWindow || dom.nodes[s.container].css.overflow != "visible")
  }

  /** `opts` left out. */
  const DefaultOptions := Options("", "", Unset, false, false)

  /**
   * The container set _prepareConfig resolves: the given container (None: a falsy argument) or
   * the owner window of the set.
   */
  function ContainerSet(dom: Snapshot, sel: seq<NodeId>, container: Option<seq<NodeId>>): (r: seq<NodeId>)
    requires dom.WF() && InDom(dom, sel)
    requires container.Some? ==> InDom(dom, container.value)
    ensures InDom(dom, r)
  {
    if container.Some? then container.value else Wrap(OwnerWindow(dom, sel))
  }

  /**
   * _prepareConfig: the container is resolved before the options are checked; direction "" means
   * both axes; every box other than content-box measures the border box.
   */
  function PrepareConfig(dom: Snapshot, sel: seq<NodeId>, container: Option<seq<NodeId>>, opts: Options): (r: Result<Settings>)
    requires dom.WF() && InDom(dom, sel)
    requires container.Some? ==> InDom(dom, container.value)
    ensures r.Ok? ==> SettingsWF(dom, r.value)
    ensures r.Ok? <==> WrapContainer(dom, ContainerSet(dom, sel, container)).Ok? && CheckOptions(opts).Ok?
    // container errors come first
    ensures WrapContainer(dom, ContainerSet(dom, sel, container)).Err? ==>
              r == Err(WrapContainer(dom, ContainerSet(dom, sel, container)).error)
    // the default container is the owner window of the set
    ensures r.Ok? && container.None? ==> OwnerWindow(dom, sel) == Some(r.value.container)
    ensures container.None? && OwnerWindow(dom, sel).None? ==> r == Err(EmptyContainer)
    ensures r.Ok? ==> (r.value.useVertical <==> opts.direction != "horizontal")
    ensures r.Ok? ==> (r.value.useHorizontal <==> opts.direction != "vertical")
    ensures r.Ok? ==> (r.value.borderBox <==> opts.box != "content-box")
    // the container is the wrapped set; the other options are carried over as given
    ensures r.Ok? ==> r.value.container == WrapContainer(dom, ContainerSet(dom, sel, container)).value
    ensures r.Ok? ==> r.value.tolerance == ToleranceSetting(opts.tolerance) && r.value.partially == opts.partially
                      && r.value.excludeHidden == opts.excludeHidden
    // the container is checked before the options
    ensures WrapContainer(dom, ContainerSet(dom, sel, container)).Ok? && CheckOptions(opts).Err? ==>
              r == Err(CheckOptions(opts).error)
  {
    var c :- WrapContainer(dom, ContainerSet(dom, sel, container));
    var _ :- CheckOptions(opts);
    var direction := if opts.direction == "" then "both" else opts.direction;
    Ok(Settings(
      container := c,
      useVertical := direction == "both" || direction == "vertical",
      useHorizontal := direction == "both" || direction == "horizontal",
      partially := opts.partially,
      excludeHidden := opts.excludeHidden,
      borderBox := opts.box != "content-box",
      containerIsWindow := IsWindow(dom, c),
      tolerance := ToleranceSetting(opts.tolerance)))
  }

  /** An explicit container makes the configuration independent of the set it is built for. */
  lemma PrepareConfigIgnoresSetWithContainer(dom: Snapshot, sel1: seq<NodeId>, sel2: seq<NodeId>,
                                             container: seq<NodeId>, opts: Options)
    requires dom.WF() && InDom(dom, sel1) && InDom(dom, sel2) && InDom(dom, container)
    ensures PrepareConfig(dom, sel1, Some(container), opts) == PrepareConfig(dom, sel2, Some(container), opts)
  {
  }

  /** offsetWidth and offsetHeight are positive; a node that is not an element has neither. */
  predicate TakesSpace(n: Node) {
    n.kind == ElementNode && n.box.offsetWidth > 0.0 && n.box.offsetHeight > 0.0
  }

  /** The net container size on an axis the query uses; 0 stands for the size of an unused axis, which is never read. */
  function AxisSize(dom: Snapshot, s: Settings, dim: Dimension, g: real): (r: Result<real>)
    requires dom.WF() && SettingsWF(dom, s)
    ensures (if dim == Width then !s.useHorizontal else !s.useVertical) ==> r == Ok(0.0)
    ensures (if dim == Width then s.useHorizontal else s.useVertical) ==>
              r == NetContainerSizeSpec(dom, s.container, s.containerIsWindow, dim, g)
  {
    var used := if dim == Width then s.useHorizontal else s.useVertical;
    if used then NetContainerSizeSpec(dom, s.container, s.containerIsWindow, dim, g) else Ok(0.0)
  }

  /** The rect the classifier sees: viewport coordinates for a window, relative to an element container otherwise. */
  function ClassifiedRect(dom: Snapshot, elem: NodeId, s: Settings): (r: Result<Rect>)
    requires dom.WF() && SettingsWF(dom, s) && elem in dom.nodes
    ensures dom.nodes[elem].kind != ElementNode ==> r == Err(HostTypeError)
    ensures s.containerIsWindow && r.Ok? ==> r.value == ElementRect(dom, elem, s.borderBox).value
    // an element container: the rect relative to it, which needs the container to be an element too
    ensures !s.containerIsWindow && dom.nodes[elem].kind == ElementNode ==>
              (r.Ok? <==> dom.nodes[s.container].kind == ElementNode)
    ensures !s.containerIsWindow && r.Ok? ==>
              r.value == RelativeRect(ElementRect(dom, elem, s.borderBox).value, ContainerCorrections(dom, s.container).value)
  {
    var rect :- ElementRect(dom, elem, s.borderBox);
    if s.containerIsWindow then Ok(rect)
    else
      var corrections :- ContainerCorrections(dom, s.container);
      Ok(RelativeRect(rect, corrections))
  }

  /**
   * _isInView for one element, with `g` the global scrollbar width. The steps run in the source's
   * order: the same-node check, the size check of excludeHidden, the container sizes, the element's
   * rect, the classification.
   */
  function InViewSpec(dom: Snapshot, elem: NodeId, s: Settings, g: real): (r: Result<bool>)
    requires dom.WF() && SettingsWF(dom, s) && elem in dom.nodes
    ensures elem == s.container ==> r == Err(SameAsElement)
    ensures elem != s.container && s.excludeHidden && !TakesSpace(dom.nodes[elem]) ==> r == Ok(false)
    // only elements can be in view
    ensures r == Ok(true) ==> dom.nodes[elem].kind == ElementNode && elem != s.container
    ensures r.Err? ==> r.error == SameAsElement || r.error == HostTypeError
    ensures r.Ok? && r.value ==> ClassifiedRect(dom, elem, s).Ok?
    // otherwise: the container width, then its height, then the rect, and each axis asked for is checked
    ensures elem != s.container && !(s.excludeHidden && !TakesSpace(dom.nodes[elem])) ==>
              var w := AxisSize(dom, s, Width, g);
              var h := AxisSize(dom, s, Height, g);
              var rect := ClassifiedRect(dom, elem, s);
              && (w.Err? ==> r == Err(w.error))
              && (w.Ok? && h.Err? ==> r == Err(h.error))
              && (w.Ok? && h.Ok? && rect.Err? ==> r == Err(rect.error))
              && (w.Ok? && h.Ok? && rect.Ok? ==>
                    && r.Ok?
                    && (r.value <==>
                          && (s.useVertical ==> AxisInView(rect.value.top, rect.value.bottom, h.value,
                                                           AxisTolerance(s.tolerance, h.value), s.partially))
                          && (s.useHorizontal ==> AxisInView(rect.value.left, rect.value.right, w.value,
                                                             AxisTolerance(s.tolerance, w.value), s.partially))))
  {
    if elem == s.container then Err(SameAsElement)
    else if s.excludeHidden && !TakesSpace(dom.nodes[elem]) then Ok(false)
    else
      var width :- AxisSize(dom, s, Width, g);
      var height :- AxisSize(dom, s, Height, g);
      var hTol := AxisTolerance(s.tolerance, width);
      var vTol := AxisTolerance(s.tolerance, height);
      var rect :- ClassifiedRect(dom, elem, s);
      Ok(Classify(rect, width, height, hTol, vTol, s.partially, s.useHorizontal, s.useVertical))
  }

  /** Full mode in view implies partial mode in view, for every element, container and tolerance. */
  lemma InViewFullImpliesPartial(dom: Snapshot, elem: NodeId, s: Settings, g: real)
    requires dom.WF() && SettingsWF(dom, s) && elem in dom.nodes
    requires InViewSpec(dom, elem, s.(partially := false), g) == Ok(true)
    ensures InViewSpec(dom, elem, s.(partially := true), g) == Ok(true)
  {
    var full := s.(partially := false);
    var width := AxisSize(dom, full, Width, g).value;
    var height := AxisSize(dom, full, Height, g).value;
    var rect := ClassifiedRect(dom, elem, full).value;
    FullImpliesPartial(rect, width, height, AxisTolerance(s.tolerance, width), AxisTolerance(s.tolerance, height),
                       s.useHorizontal, s.useVertical);
  }

  /** Raising an additive tolerance never turns an in-view element into an out-of-view one. */
  lemma InViewToleranceMonotone(dom: Snapshot, elem: NodeId, s: Settings, g: real, larger: real)
    requires dom.WF() && SettingsWF(dom, s) && elem in dom.nodes
    requires s.tolerance.mode == Add && s.tolerance.amount <= larger
    requires InViewSpec(dom, elem, s, g) == Ok(true)
    ensures InViewSpec(dom, elem, s.(tolerance := Tolerance(Add, larger)), g) == Ok(true)
  {
    var width := AxisSize(dom, s, Width, g).value;
    var height := AxisSize(dom, s, Height, g).value;
    var rect := ClassifiedRect(dom, elem, s).value;
    ToleranceMonotone(rect, width, height, s.tolerance.amount, s.tolerance.amount, larger, larger,
                      s.partially, s.useHorizontal, s.useVertical);
  }

  // ---------------------------------------------------------------------------------------------
  // Filtering a set

  /** `a` is `b` with some entries left out, the rest in their order. */
  predicate IsSubsequence(a: seq<NodeId>, b: seq<NodeId>)
    decreases |b|
  {
    if |a| == 0 then true
    else if |b| == 0 then false
    else if a[|a| - 1] == b[|b| - 1] then IsSubsequence(a[..|a| - 1], b[..|b| - 1])
    else IsSubsequence(a, b[..|b| - 1])
  }

  lemma {:induction false} SubsequenceDropLast(a: seq<NodeId>, b: seq<NodeId>)
    requires IsSubsequence(a, b) && |a| > 0
    ensures IsSubsequence(a[..|a| - 1], b)
    decreases |b|, 0
  {
    var a' := a[..|a| - 1];
    if |a'| == 0 {
    } else if a[|a| - 1] == b[|b| - 1] {
      // a' is a subsequence of b without its last entry, hence of b
      SubsequenceExtend(a', b[..|b| - 1], b[|b| - 1]);
      assert b[..|b| - 1] + [b[|b| - 1]] == b;
    } else {
      SubsequenceDropLast(a, b[..|b| - 1]);
      SubsequenceExtend(a', b[..|b| - 1], b[|b| - 1]);
      assert b[..|b| - 1] + [b[|b| - 1]] == b;
    }
  }

  lemma {:induction false} SubsequenceExtend(a: seq<NodeId>, b: seq<NodeId>, x: NodeId)
    requires IsSubsequence(a, b)
    ensures IsSubsequence(a, b + [x])
    decreases |b|, 1
  {
    var b' := b + [x];
    assert b'[..|b'| - 1] == b;
    if |a| == 0 {
    } else if a[|a| - 1] == x {
      SubsequenceDropLast(a, b);
    }
  }

  /**
   * inView's loop as a function of the prefix: each element is tested in order, the first error
   * ends the loop, the in-view elements are kept in their order.
   */
  function FilterInView(dom: Snapshot, elems: seq<NodeId>, s: Settings, g: real): (r: Result<seq<NodeId>>)
    requires dom.WF() && SettingsWF(dom, s) && InDom(dom, elems)
    ensures r.Ok? ==> IsSubsequence(r.value, elems)
    ensures r.Ok? ==> forall x :: x in r.value <==> x in elems && InViewSpec(dom, x, s, g) == Ok(true)
    ensures r.Ok? <==> forall i | 0 <= i < |elems| :: InViewSpec(dom, elems[i], s, g).Ok?
    decreases |elems|
  {
    if |elems| == 0 then Ok([])
    else
      var init := elems[..|elems| - 1];
      var last := elems[|elems| - 1];
      assert elems == init + [last];
      var kept :- FilterInView(dom, init, s, g);
      var inView :- InViewSpec(dom, last, s, g);
      if inView then
        assert IsSubsequence(kept + [last], elems) by {
          assert (kept + [last])[..|kept|] == kept;
        }
        Ok(kept + [last])
      else
        assert IsSubsequence(kept, elems) by {
          SubsequenceExtend(kept, init, last);
        }
        Ok(kept)
  }

  /** An error in a prefix is the error of the whole set: later elements are never reached. */
  lemma {:induction false} FilterErrorPersists(dom: Snapshot, elems: seq<NodeId>, k: nat, s: Settings, g: real)
    requires dom.WF() && SettingsWF(dom, s) && InDom(dom, elems)
    requires k <= |elems|
    requires FilterInView(dom, elems[..k], s, g).Err?
    ensures FilterInView(dom, elems, s, g) == FilterInView(dom, elems[..k], s, g)
    decreases |elems| - k
  {
    if k < |elems| {
      assert elems[..k + 1][..k] == elems[..k];
      FilterErrorPersists(dom, elems, k + 1, s, g);
    } else {
      assert elems[..k] == elems;
    }
  }

  /** The defined entries of `marks`, in order. */
  function Kept(marks: seq<Option<NodeId>>): (r: seq<NodeId>)
    ensures |r| <= |marks|
    ensures forall x :: x in r <==> Some(x) in marks
  {
    if |marks| == 0 then []
    else
      var init := Kept(marks[..|marks| - 1]);
      var last := marks[|marks| - 1];
      assert marks == marks[..|marks| - 1] + [last];
      if last.Some? then init + [last.value] else init
  }

  /**
   * The :inviewport loop as a function of the prefix: entry i is the element when it is in view
   * and undefined otherwise; the first error ends the loop.
   */
  function MarkInView(dom: Snapshot, elems: seq<NodeId>, s: Settings, g: real): (r: Result<seq<Option<NodeId>>>)
    requires dom.WF() && SettingsWF(dom, s) && InDom(dom, elems)
    ensures r.Ok? ==> |r.value| == |elems|
    decreases |elems|
  {
    if |elems| == 0 then Ok([])
    else
      var marks :- MarkInView(dom, elems[..|elems| - 1], s, g);
      var inView :- InViewSpec(dom, elems[|elems| - 1], s, g);
      Ok(marks + [if inView then Some(elems[|elems| - 1]) else None])
  }

  /** An error in a prefix of the :inviewport loop is the result of the whole loop. */
  lemma {:induction false} MarkErrorPersists(dom: Snapshot, elems: seq<NodeId>, k: nat, s: Settings, g: real)
    requires dom.WF() && SettingsWF(dom, s) && InDom(dom, elems)
    requires k <= |elems|
    requires MarkInView(dom, elems[..k], s, g).Err?
    ensures MarkInView(dom, elems, s, g) == MarkInView(dom, elems[..k], s, g)
    decreases |elems| - k
  {
    if k < |elems| {
      assert elems[..k + 1][..k] == elems[..k];
      MarkErrorPersists(dom, elems, k + 1, s, g);
    } else {
      assert elems[..k] == elems;
    }
  }

  /**
   * The :inviewport loop and inView's loop fail together with the same error, and the entries the
   * former defines are exactly what the latter keeps.
   */
  lemma {:induction false} MarksAgreeWithFilter(dom: Snapshot, elems: seq<NodeId>, s: Settings, g: real)
    requires dom.WF() && SettingsWF(dom, s) && InDom(dom, elems)
    ensures MarkInView(dom, elems, s, g).Ok? <==> FilterInView(dom, elems, s, g).Ok?
    ensures MarkInView(dom, elems, s, g).Err? ==> MarkInView(dom, elems, s, g).error == FilterInView(dom, elems, s, g).error
    ensures MarkInView(dom, elems, s, g).Ok? ==> Kept(MarkInView(dom, elems, s, g).value) == FilterInView(dom, elems, s, g).value
    decreases |elems|
  {
    if |elems| > 0 {
      var init := elems[..|elems| - 1];
      var last := elems[|elems| - 1];
      MarksAgreeWithFilter(dom, init, s, g);
      var m := MarkInView(dom, init, s, g);
      var f := FilterInView(dom, init, s, g);
      var v := InViewSpec(dom, last, s, g);
      if m.Ok? && v.Ok? {
        var marks := m.value + [if v.value then Some(last) else None];
        assert MarkInView(dom, elems, s, g) == Ok(marks);
        assert FilterInView(dom, elems, s, g) == Ok(if v.value then f.value + [last] else f.value);
        assert marks[..|marks| - 1] == m.value;
      }
    }
  }

  /** Entry i of the :inviewport loop's result is elems[i] exactly when that element is in view. */
  lemma {:induction false} MarkEntries(dom: Snapshot, elems: seq<NodeId>, s: Settings, g: real)
    requires dom.WF() && SettingsWF(dom, s) && InDom(dom, elems)
    requires MarkInView(dom, elems, s, g).Ok?
    ensures forall i | 0 <= i < |elems| ::
              MarkInView(dom, elems, s, g).value[i] ==
                if InViewSpec(dom, elems[i], s, g) == Ok(true) then Some(elems[i]) else None
    decreases |elems|
  {
    if |elems| > 0 {
      var init := elems[..|elems| - 1];
      var last := elems[|elems| - 1];
      var m := MarkInView(dom, init, s, g);
      var v := InViewSpec(dom, last, s, g);
      assert m.Ok? && v.Ok?;
      MarkEntries(dom, init, s, g);
      assert MarkInView(dom, elems, s, g) == Ok(m.value + [if v.value then Some(last) else None]);
      forall i | 0 <= i < |elems| - 1
        ensures elems[i] == init[i]
      {
      }
    }
  }

  /** inView: an empty set gives an empty set; the hierarchy is checked on the first element only. */
  function InViewQuery(dom: Snapshot, elems: seq<NodeId>, container: Option<seq<NodeId>>, opts: Options, g: real)
    : (r: Result<seq<NodeId>>)
    requires dom.WF() && InDom(dom, elems)
    requires container.Some? ==> InDom(dom, container.value)
    ensures |elems| == 0 ==> r == Ok([])
    ensures r.Ok? ==> IsSubsequence(r.value, elems)
    ensures |elems| > 0 && r.Ok? ==>
              PrepareConfig(dom, elems, container, opts).Ok? &&
              var s := PrepareConfig(dom, elems, container, opts).value;
              forall x :: x in r.value <==> x in elems && InViewSpec(dom, x, s, g) == Ok(true)
    // the configuration, then the hierarchy of the first element, then every element's test; the
    // first of these to fail gives the error
    ensures |elems| > 0 ==>
              var p := PrepareConfig(dom, elems, container, opts);
              && (p.Err? ==> r == Err(p.error))
              && (p.Ok? ==>
                    var h := CheckHierarchy(dom, elems[0], p.value.container);
                    && (h.Err? ==> r == Err(h.error))
                    && (h.Ok? ==> (r.Ok? <==> FilterInView(dom, elems, p.value, g).Ok?))
                    && (h.Ok? && r.Err? ==> r.error == FilterInView(dom, elems, p.value, g).error))
  {
    if |elems| == 0 then Ok([])
    else
      var s :- PrepareConfig(dom, elems, container, opts);
      var _ :- CheckHierarchy(dom, elems[0], s.container);
      FilterInView(dom, elems, s, g)
  }

  /** isInView: the first element of the set is tested; an empty set is not in view. */
  function IsInViewQuery(dom: Snapshot, sel: seq<NodeId>, container: Option<seq<NodeId>>, opts: Options, g: real)
    : (r: Result<bool>)
    requires dom.WF() && InDom(dom, sel)
    requires container.Some? ==> InDom(dom, container.value)
    ensures |sel| == 0 ==> r == Ok(false)
    ensures r == Ok(true) ==> dom.nodes[sel[0]].kind == ElementNode
    ensures r.Ok? && |sel| > 0 ==>
              PrepareConfig(dom, sel, container, opts).Ok? &&
              CheckHierarchy(dom, sel[0], PrepareConfig(dom, sel, container, opts).value.container).Ok?
    // past the configuration and the hierarchy check, the answer is the test of the first element
    ensures |sel| > 0 ==>
              var p := PrepareConfig(dom, sel, container, opts);
              && (p.Err? ==> r == Err(p.error))
              && (p.Ok? ==>
                    var h := CheckHierarchy(dom, sel[0], p.value.container);
                    && (h.Err? ==> r == Err(h.error))
                    && (h.Ok? ==> r == InViewSpec(dom, sel[0], p.value, g)))
  {
    if |sel| == 0 then Ok(false)
    else
      var s :- PrepareConfig(dom, sel, container, opts);
      var _ :- CheckHierarchy(dom, sel[0], s.container);
      InViewSpec(dom, sel[0], s, g)
  }

  /** Only the first element of the set matters to isInView: the rest of the set is ignored. */
  lemma IsInViewFirstOnly(dom: Snapshot, sel: seq<NodeId>, container: Option<seq<NodeId>>,
                          opts: Options, g: real)
    requires dom.WF() && InDom(dom, sel) && |sel| > 0
    requires container.Some? ==> InDom(dom, container.value)
    ensures IsInViewQuery(dom, sel, container, opts, g) == IsInViewQuery(dom, [sel[0]], container, opts, g)
  {
  }

  /**
   * Set and single queries agree: with an explicit container, an element of the set that passes
   * the hierarchy check is kept by inView exactly when isInView on it alone is true.
   */
  lemma SetSingleConsistency(dom: Snapshot, elems: seq<NodeId>, container: seq<NodeId>, opts: Options, g: real, x: NodeId)
    requires dom.WF() && InDom(dom, elems) && InDom(dom, container)
    requires InViewQuery(dom, elems, Some(container), opts, g).Ok?
    requires x in elems
    requires CheckHierarchy(dom, x, PrepareConfig(dom, elems, Some(container), opts).value.container).Ok?
    ensures x in InViewQuery(dom, elems, Some(container), opts, g).value
            <==> IsInViewQuery(dom, [x], Some(container), opts, g) == Ok(true)
  {
    PrepareConfigIgnoresSetWithContainer(dom, elems, [x], container, opts);
  }

  /** inViewport and isInViewport pass the owner window as container, which is what a missing container means. */
  lemma ViewportIsDefaultContainer(dom: Snapshot, elems: seq<NodeId>, opts: Options, g: real)
    requires dom.WF() && InDom(dom, elems)
    ensures InViewQuery(dom, elems, Some(Wrap(OwnerWindow(dom, elems))), opts, g) == InViewQuery(dom, elems, None, opts, g)
    ensures IsInViewQuery(dom, elems, Some(Wrap(OwnerWindow(dom, elems))), opts, g) == IsInViewQuery(dom, elems, None, opts, g)
  {
  }

  /**
   * The :inviewport set filter: nothing for an empty set; otherwise the config of the set with the
   * default options, the hierarchy check on the first element, then the marking loop.
   */
  function InViewportMarks(dom: Snapshot, elems: seq<NodeId>, g: real): (r: Result<seq<Option<NodeId>>>)
    requires dom.WF() && InDom(dom, elems)
    ensures r.Ok? ==> |r.value| == |elems|
  {
    if |elems| == 0 then Ok([])
    else
      var s :- PrepareConfig(dom, elems, None, DefaultOptions);
      var _ :- CheckHierarchy(dom, elems[0], s.container);
      MarkInView(dom, elems, s, g)
  }

  /**
   * The :inviewport filter and inView without a container fail together with the same error; the
   * entries the filter defines are exactly the elements inView keeps, each at its own index.
   */
  lemma InViewportIsInView(dom: Snapshot, elems: seq<NodeId>, g: real)
    requires dom.WF() && InDom(dom, elems)
    ensures InViewportMarks(dom, elems, g).Ok? <==> InViewQuery(dom, elems, None, DefaultOptions, g).Ok?
    ensures InViewportMarks(dom, elems, g).Err? ==>
              InViewportMarks(dom, elems, g).error == InViewQuery(dom, elems, None, DefaultOptions, g).error
    ensures InViewportMarks(dom, elems, g).Ok? ==>
              Kept(InViewportMarks(dom, elems, g).value) == InViewQuery(dom, elems, None, DefaultOptions, g).value
    ensures InViewportMarks(dom, elems, g).Ok? && |elems| > 0 ==>
              var s := PrepareConfig(dom, elems, None, DefaultOptions).value;
              forall i | 0 <= i < |elems| ::
                InViewportMarks(dom, elems, g).value[i] == if InViewSpec(dom, elems[i], s, g) == Ok(true) then Some(elems[i]) else None
  {
    if |elems| > 0 {
      var s := PrepareConfig(dom, elems, None, DefaultOptions);
      if s.Ok? && CheckHierarchy(dom, elems[0], s.value.container).Ok? {
        MarksAgreeWithFilter(dom, elems, s.value, g);
        if MarkInView(dom, elems, s.value, g).Ok? {
          MarkEntries(dom, elems, s.value, g);
        }
      }
    }
  }
}
