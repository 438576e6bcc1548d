/**
 * hasScrollbar, effectiveScrollbarWith and getNetContainerWidth/Height as the source runs them:
 * flags reassigned in sequence, and the global width read from the memo only where the source
 * reads it. Each method is tied to its specification in the Scrollbars module.
 */
module ScrollbarQueries {
  import opened Base
  import opened Dom
  import opened Scrollbars
  import opened ScrollbarWidth

  method HasScrollbar(dom: Snapshot, sel: seq<NodeId>, axisArg: string, memo: ScrollbarWidthMemo, probe: Probe)
    returns (r: Result<Option<Answer<bool>>>)
    requires dom.WF() && InDom(dom, sel)
    modifies memo
    ensures r == HasScrollbarSpec(dom, sel, axisArg, old(memo.Value(probe)))
    ensures NeedsGlobalWidth(dom, sel, axisArg) ==> memo.scrollbarWidth == Some(old(memo.Value(probe)))
    ensures !NeedsGlobalWidth(dom, sel, axisArg) ==> memo.scrollbarWidth == old(memo.scrollbarWidth)
  {
    ghost var g := memo.Value(probe);
    var axis := ParseAxis(axisArg);
    if axis.None? {
      return Err(InvalidAxis);
    }
    if |sel| == 0 {
      return Ok(None);
    }
    var target := ScrollbarTarget(dom, sel[0]);
    if target.Err? {
      return Err(target.error);
    }
    var horizontal, vertical;
    match target.value {
      case WindowTarget(d) =>
        // the window branch never reads the global width
        var verdict := TargetScrollbars(dom, target.value, axis.value, 0.0);
        WindowIgnoresWidth(dom, target.value, axis.value, 0.0, g);
        if verdict.Err? {
          return Err(verdict.error);
        }
        horizontal, vertical := verdict.value.horizontal, verdict.value.vertical;
      case ElementTarget(e) =>
        var n := dom.nodes[e];
        // getCss throws for a text node or fragment before anything is measured
        if n.kind != ElementNode {
          return Err(HostTypeError);
        }
        var p := QueriedProps(n.css, axis.value);
        var ox, oy := EffectiveOverflow(p.overflow, p.overflowX), EffectiveOverflow(p.overflow, p.overflowY);
        var sw, sh := n.box.scrollWidth, n.box.scrollHeight;
        horizontal := sw > 0.0 && (ox == "scroll" || (ox == "auto" && n.box.innerWidth < sw));
        vertical := sh > 0.0 && (oy == "scroll" || (oy == "auto" && n.box.innerHeight < sh));
        // the global width is only asked for when the left operand of `&&` lets the call happen
        if !vertical && horizontal {
          var width := memo.BrowserScrollbarWidth(probe);
          vertical := CrossAxisFires(oy, sh, n.box.innerHeight, width);
        }
        if !horizontal && vertical {
          var width := memo.BrowserScrollbarWidth(probe);
          horizontal := CrossAxisFires(ox, sw, n.box.innerWidth, width);
        }
    }
    r := Ok(Some(Project(horizontal, vertical, axis.value)));
  }

  /** The global width is read first, before the axis is even checked. */
  method EffectiveScrollbarWidth(dom: Snapshot, sel: seq<NodeId>, axisArg: string, memo: ScrollbarWidthMemo, probe: Probe)
    returns (r: Result<Option<Answer<real>>>)
    requires dom.WF() && InDom(dom, sel)
    modifies memo
    ensures r == EffectiveWidthSpec(dom, sel, axisArg, old(memo.Value(probe)))
    ensures memo.scrollbarWidth == Some(old(memo.Value(probe)))
  {
    var globalWidth := memo.BrowserScrollbarWidth(probe);
    var axis := ParseAxis(axisArg);
    if axis.None? {
      return Err(InvalidAxis);
    }
    if |sel| == 0 {
      return Ok(None);
    }
    if globalWidth == 0.0 {
      return Ok(Some(Project(0.0, 0.0, axis.value)));
    }
    var has := HasScrollbar(dom, sel, AxisArg(axis.value), memo, probe);
    if has.Err? {
      return Err(has.error);
    }
    match has.value.value {
      case One(b) =>
        r := Ok(Some(One(WidthOf(b, globalWidth))));
      case Two(h, v) =>
        r := Ok(Some(Two(WidthOf(h, globalWidth), WidthOf(v, globalWidth))));
    }
  }

  /** getNetContainerWidth / getNetContainerHeight. A window never reads the global width. */
  method NetContainerSize(dom: Snapshot, container: NodeId, isWindow: bool, dim: Dimension,
                          memo: ScrollbarWidthMemo, probe: Probe) returns (r: Result<real>)
    requires dom.WF() && container in dom.nodes
    requires isWindow == IsWindow(dom, container)
    modifies memo
    ensures r == NetContainerSizeSpec(dom, container, isWindow, dim, old(memo.Value(probe)))
    ensures isWindow ==> memo.scrollbarWidth == old(memo.scrollbarWidth)
    ensures !isWindow ==> memo.scrollbarWidth == Some(old(memo.Value(probe)))
  {
    if isWindow {
      return WindowDimension(dom, container, dim);
    }
    var widths := EffectiveScrollbarWidth(dom, [container], "", memo, probe);
    if widths.Err? {
      return Err(widths.error);
    }
    var Two(h, v) := widths.value.value;
    var box := dom.nodes[container].box;
    r := Ok(if dim == Width then box.innerWidth - v else box.innerHeight - h);
  }
}
