/**
 * The query as the source runs it: a configuration object whose cache of container sizes,
 * tolerances and border corrections is filled in place on first use, the `each` loop of inView,
 * isInView, and the loop of the :inviewport set filter that fills `matches`.
 */
module QueryRun {
  import opened Base
  import opened Dom
  import opened Scrollbars
  import opened ScrollbarWidth
  import opened ScrollbarQueries
  import opened Options
  import opened Containers
  import opened Rects
  import opened Classifier
  import opened Query

  /** The config object of one query call; its cache lives exactly as long as the call. */
  class QueryConfig {
    const dom: Snapshot
    const settings: Settings
    // cache.containerWidth, cache.containerHeight, cache.hTolerance, cache.vTolerance:
    // 0 means not cached, because the source reads them with `||`
    var containerWidth: real
    var containerHeight: real
    var hTolerance: real
    var vTolerance: real
    // cache.relativeRectCorrections
    var corrections: Option<Corrections>

    ghost predicate Valid()
    {
      dom.WF() && SettingsWF(dom, settings)
    }

    /** Every cached entry equals what a fresh computation would give, with global scrollbar width g. */
    ghost predicate CacheSound(g: real)
      reads this
      requires Valid()
    {
      SoundEntries(containerWidth, containerHeight, hTolerance, vTolerance, corrections, g)
    }

    /** CacheSound over given entry values; 0 is an entry not yet filled. */
    ghost predicate SoundEntries(width: real, height: real, hTol: real, vTol: real, corr: Option<Corrections>, g: real)
      requires Valid()
    {
      && (width != 0.0 ==> AxisSize(dom, settings, Width, g) == Ok(width))
      && (height != 0.0 ==> AxisSize(dom, settings, Height, g) == Ok(height))
      && (hTol != 0.0 ==>
            AxisSize(dom, settings, Width, g).Ok? && hTol == AxisTolerance(settings.tolerance, AxisSize(dom, settings, Width, g).value))
      && (vTol != 0.0 ==>
            AxisSize(dom, settings, Height, g).Ok? && vTol == AxisTolerance(settings.tolerance, AxisSize(dom, settings, Height, g).value))
      && (corr.Some? ==> ContainerCorrections(dom, settings.container) == Ok(corr.value))
    }

    constructor (dom: Snapshot, settings: Settings)
      requires dom.WF() && SettingsWF(dom, settings)
      ensures this.dom == dom && this.settings == settings
      ensures Valid() && forall g: real :: CacheSound(g)
    {
      this.dom := dom;
      this.settings := settings;
      containerWidth, containerHeight := 0.0, 0.0;
      hTolerance, vTolerance := 0.0, 0.0;
      corrections := None;
    }

    /**
     * `cache.containerWidth || (cache.containerWidth = getNetContainerWidth(...))` and its height
     * twin; an axis the query does not use is never measured.
     */
    method ContainerSize(dim: Dimension, memo: ScrollbarWidthMemo, probe: Probe) returns (r: Result<real>)
      requires Valid() && CacheSound(memo.Value(probe))
      modifies this, memo
      ensures r == AxisSize(dom, settings, dim, old(memo.Value(probe)))
      ensures memo.Value(probe) == old(memo.Value(probe))
      ensures CacheSound(memo.Value(probe))
      ensures hTolerance == old(hTolerance) && vTolerance == old(vTolerance) && corrections == old(corrections)
    {
      var used := if dim == Width then settings.useHorizontal else settings.useVertical;
      if !used {
        return Ok(0.0);
      }
      var cached := if dim == Width then containerWidth else containerHeight;
      if cached != 0.0 {
        return Ok(cached);
      }
      r := NetContainerSize(dom, settings.container, settings.containerIsWindow, dim, memo, probe);
      if r.Ok? {
        if dim == Width {
          containerWidth := r.value;
        } else {
          containerHeight := r.value;
        }
      }
    }

    /** `cache.hTolerance || (cache.hTolerance = ...)` and its vertical twin, for a measured axis size. */
    method AxisToleranceOf(dim: Dimension, size: real, ghost g: real) returns (t: real)
      requires Valid() && CacheSound(g)
      requires AxisSize(dom, settings, dim, g) == Ok(size)
      modifies this
      ensures t == AxisTolerance(settings.tolerance, size)
      ensures CacheSound(g)
      ensures containerWidth == old(containerWidth) && containerHeight == old(containerHeight)
      ensures corrections == old(corrections)
    {
      var cached := if dim == Width then hTolerance else vTolerance;
      if cached != 0.0 {
        return cached;
      }
      t := AxisTolerance(settings.tolerance, size);
      if dim == Width {
        hTolerance := t;
      } else {
        vTolerance := t;
      }
    }

    /** The element's rect, made relative to an element container with the cached corrections. */
    method RectOf(elem: NodeId, ghost g: real) returns (r: Result<Rect>)
      requires Valid() && elem in dom.nodes && CacheSound(g)
      modifies this
      ensures r == ClassifiedRect(dom, elem, settings)
      ensures CacheSound(g)
    {
      var rect := ElementRect(dom, elem, settings.borderBox);
      if rect.Err? {
        return Err(rect.error);
      }
      if settings.containerIsWindow {
        return Ok(rect.value);
      }
      if corrections.None? {
        var c := ContainerCorrections(dom, settings.container);
        if c.Err? {
          return Err(c.error);
        }
        corrections := Some(c.value);
      }
      r := Ok(RelativeRect(rect.value, corrections.value));
    }

    /** _isInView against this config, filling the cache on the way. */
    method IsInView(elem: NodeId, memo: ScrollbarWidthMemo, probe: Probe) returns (r: Result<bool>)
      requires Valid() && elem in dom.nodes && CacheSound(memo.Value(probe))
      modifies this, memo
      ensures r == InViewSpec(dom, elem, settings, old(memo.Value(probe)))
      ensures memo.Value(probe) == old(memo.Value(probe))
      ensures CacheSound(memo.Value(probe))
    {
      ghost var g := memo.Value(probe);
      if elem == settings.container {
        return Err(SameAsElement);
      }
      if settings.excludeHidden && !TakesSpace(dom.nodes[elem]) {
        return Ok(false);
      }
      var width := ContainerSize(Width, memo, probe);
      if width.Err? {
        return Err(width.error);
      }
      var height := ContainerSize(Height, memo, probe);
      if height.Err? {
        return Err(height.error);
      }
      var hTol := AxisToleranceOf(Width, width.value, g);
      var vTol := AxisToleranceOf(Height, height.value, g);
      var rect := RectOf(elem, g);
      if rect.Err? {
        return Err(rect.error);
      }
      r := Ok(Classify(rect.value, width.value, height.value, hTol, vTol,
                       settings.partially, settings.useHorizontal, settings.useVertical));
    }

    /** The `each` loop of inView over this config: the first error ends it. */
    method Filter(elems: seq<NodeId>, memo: ScrollbarWidthMemo, probe: Probe) returns (r: Result<seq<NodeId>>)
      requires Valid() && InDom(dom, elems) && CacheSound(memo.Value(probe))
      modifies this, memo
      ensures r == FilterInView(dom, elems, settings, old(memo.Value(probe)))
      ensures memo.Value(probe) == old(memo.Value(probe))
    {
      ghost var g := memo.Value(probe);
      var inView: seq<NodeId> := [];
      for i := 0 to |elems|
        invariant memo.Value(probe) == g
        invariant CacheSound(g)
        invariant FilterInView(dom, elems[..i], settings, g) == Ok(inView)
      {
        assert elems[..i + 1][..i] == elems[..i];
        var v := IsInView(elems[i], memo, probe);
        if v.Err? {
          FilterErrorPersists(dom, elems, i + 1, settings, g);
          return Err(v.error);
        }
        if v.value {
          inView := inView + [elems[i]];
        }
      }
      assert elems[..|elems|] == elems;
      r := Ok(inView);
    }

    /**
     * The loop of the :inviewport filter over this config: `matches[i]` becomes `elems[i]` when
     * that element is in view and undefined otherwise; the first error ends it.
     */
    method Mark(elems: seq<NodeId>, matches: array<Option<NodeId>>, memo: ScrollbarWidthMemo, probe: Probe)
      returns (r: Result<()>)
      requires Valid() && InDom(dom, elems) && CacheSound(memo.Value(probe))
      requires matches.Length == |elems|
      modifies this, memo, matches
      ensures var m := MarkInView(dom, elems, settings, old(memo.Value(probe)));
              && (r.Ok? <==> m.Ok?)
              && (r.Err? ==> r.error == m.error)
              && (r.Ok? ==> matches[..] == m.value)
      ensures memo.Value(probe) == old(memo.Value(probe))
    {
      ghost var g := memo.Value(probe);
      for i := 0 to |elems|
        invariant memo.Value(probe) == g
        invariant CacheSound(g)
        invariant MarkInView(dom, elems[..i], settings, g) == Ok(matches[..i])
      {
        assert elems[..i + 1][..i] == elems[..i];
        var v := IsInView(elems[i], memo, probe);
        if v.Err? {
          MarkErrorPersists(dom, elems, i + 1, settings, g);
          return Err(v.error);
        }
        matches[i] := if v.value then Some(elems[i]) else None;
        assert matches[..i + 1] == matches[..i] + [matches[i]];
      }
      assert elems[..|elems|] == elems;
      assert matches[..|elems|] == matches[..];
      r := Ok(());
    }
  }

  /** inView: a fresh config per call, the hierarchy checked on the first element, then the `each` loop. */
  method InView(dom: Snapshot, elems: seq<NodeId>, container: Option<seq<NodeId>>, opts: Options,
                memo: ScrollbarWidthMemo, probe: Probe) returns (r: Result<seq<NodeId>>)
    requires dom.WF() && InDom(dom, elems)
    requires container.Some? ==> InDom(dom, container.value)
    modifies memo
    ensures r == InViewQuery(dom, elems, container, opts, old(memo.Value(probe)))
    ensures memo.Value(probe) == old(memo.Value(probe))
  {
    ghost var g := memo.Value(probe);
    if |elems| == 0 {
      return Ok([]);
    }
    var settings := PrepareConfig(dom, elems, container, opts);
    if settings.Err? {
      return Err(settings.error);
    }
    var hierarchy := CheckHierarchy(dom, elems[0], settings.value.container);
    if hierarchy.Err? {
      return Err(hierarchy.error);
    }
    var config := new QueryConfig(dom, settings.value);
    r := config.Filter(elems, memo, probe);
  }

  /** isInView: an empty set is not in view; otherwise the first element is tested. */
  method IsInView(dom: Snapshot, sel: seq<NodeId>, container: Option<seq<NodeId>>, opts: Options,
                  memo: ScrollbarWidthMemo, probe: Probe) returns (r: Result<bool>)
    requires dom.WF() && InDom(dom, sel)
    requires container.Some? ==> InDom(dom, container.value)
    modifies memo
    ensures r == IsInViewQuery(dom, sel, container, opts, old(memo.Value(probe)))
    ensures memo.Value(probe) == old(memo.Value(probe))
  {
    if |sel| == 0 {
      return Ok(false);
    }
    var settings := PrepareConfig(dom, sel, container, opts);
    if settings.Err? {
      return Err(settings.error);
    }
    var hierarchy := CheckHierarchy(dom, sel[0], settings.value.container);
    if hierarchy.Err? {
      return Err(hierarchy.error);
    }
    var config := new QueryConfig(dom, settings.value);
    r := config.IsInView(sel[0], memo, probe);
  }

  /**
   * The :inviewport set filter: for a non-empty input, `matches[i]` becomes `elems[i]` when it is
   * in view of its owner window and undefined otherwise.
   */
  method InViewportFilter(dom: Snapshot, elems: seq<NodeId>, matches: array<Option<NodeId>>,
                          memo: ScrollbarWidthMemo, probe: Probe) returns (r: Result<()>)
    requires dom.WF() && InDom(dom, elems)
    requires matches.Length == |elems|
    modifies matches, memo
    ensures var m := InViewportMarks(dom, elems, old(memo.Value(probe)));
            && (r.Ok? <==> m.Ok?)
            && (r.Err? ==> r.error == m.error)
            && (r.Ok? ==> matches[..] == m.value)
    ensures memo.Value(probe) == old(memo.Value(probe))
  {
    if |elems| == 0 {
      return Ok(());
    }
    var settings := PrepareConfig(dom, elems, None, DefaultOptions);
    if settings.Err? {
      return Err(settings.error);
    }
    var hierarchy := CheckHierarchy(dom, elems[0], settings.value.container);
    if hierarchy.Err? {
      return Err(hierarchy.error);
    }
    var config := new QueryConfig(dom, settings.value);
    r := config.Mark(elems, matches, memo, probe);
  }
}
