/**
 * The global scrollbar width (browserScrollbarWidth, exposed as $.scrollbarWidth, and the earlier
 * getScrollbarWidth): measured once with a probe element and kept in a module-level variable for
 * the lifetime of the page.
 */
module ScrollbarWidth {
  import opened Base

  /**
   * What the probe measures: the inner width of a child in a box with overflow: auto, before and
   * after the child is made taller than the box (150px in a 100px box; 99px in a 50px box in the
   * earlier revision), which makes the box show a vertical bar.
   */
  datatype Probe = Probe(childInnerWidth: real, childInnerWidthScrolled: real)

  class ScrollbarWidthMemo {
    /** `_scrollbarWidth`; None while it is undefined. */
    var scrollbarWidth: Option<real>

    constructor ()
      ensures scrollbarWidth == None
    {
      scrollbarWidth := None;
    }

    /** The width a call returns now, if the probe would measure `probe`. */
    function Value(probe: Probe): real
      reads this
    {
      if scrollbarWidth.Some? then scrollbarWidth.value
      else probe.childInnerWidth - probe.childInnerWidthScrolled
    }

    /**
     * The first call measures and stores the width; every later call returns the stored width
     * whatever the probe would measure then.
     */
    method BrowserScrollbarWidth(probe: Probe) returns (w: real)
      modifies this
      ensures old(scrollbarWidth).None? ==> w == probe.childInnerWidth - probe.childInnerWidthScrolled
      ensures old(scrollbarWidth).Some? ==> w == old(scrollbarWidth).value
      ensures scrollbarWidth == Some(w)
      ensures forall later: Probe :: Value(later) == w
    {
      if scrollbarWidth.None? {
        scrollbarWidth := Some(probe.childInnerWidth - probe.childInnerWidthScrolled);
      }
      w := scrollbarWidth.value;
    }
  }

  /** Two calls on one memo agree, even if the page changed in between so that the probes differ. */
  method MeasureTwice(memo: ScrollbarWidthMemo, first: Probe, second: Probe) returns (a: real, b: real)
    modifies memo
    ensures a == b
    ensures a == old(memo.Value(first))
  {
    a := memo.BrowserScrollbarWidth(first);
    b := memo.BrowserScrollbarWidth(second);
  }
}
