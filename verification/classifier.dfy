/**
 * The visibility classifier of _isInView: per selected axis, partial or full containment of the
 * rect in the viewport widened by the tolerance, the selected axes taken together.
 */
module Classifier {
  import opened Dom
  import opened Options

  /** One axis: `near`/`far` are the top/bottom or left/right edges, `size` the viewport size. */
  predicate AxisInView(near: real, far: real, size: real, tol: real, partially: bool) {
    if partially then near < size + tol && far > -tol
    else near >= -tol && near < size + tol && far > -tol && far <= size + tol
  }

  /** The result, built as the source builds it: vertical first, then horizontal `&&` the result so far. */
  function Classify(rect: Rect, width: real, height: real, hTol: real, vTol: real,
                    partially: bool, useHorizontal: bool, useVertical: bool): (r: bool)
    ensures r <==> (useVertical ==> AxisInView(rect.top, rect.bottom, height, vTol, partially))
                   && (useHorizontal ==> AxisInView(rect.left, rect.right, width, hTol, partially))
  {
    var inView := true;
    var inView := if useVertical then
                    (if partially then rect.top < height + vTol && rect.bottom > -vTol
                     else rect.top >= -vTol && rect.top < height + vTol && rect.bottom > -vTol && rect.bottom <= height + vTol)
                  else inView;
    if useHorizontal then
      (if partially then inView && rect.left < width + hTol && rect.right > -hTol
       else inView && rect.left >= -hTol && rect.left < width + hTol && rect.right > -hTol && rect.right <= width + hTol)
    else inView
  }

  /** Full containment implies partial visibility. */
  lemma FullImpliesPartial(rect: Rect, width: real, height: real, hTol: real, vTol: real,
                           useHorizontal: bool, useVertical: bool)
    requires Classify(rect, width, height, hTol, vTol, false, useHorizontal, useVertical)
    ensures Classify(rect, width, height, hTol, vTol, true, useHorizontal, useVertical)
  {
  }

  /** A larger tolerance never turns an in-view verdict into out-of-view, in either mode. */
  lemma ToleranceMonotone(rect: Rect, width: real, height: real, hTol: real, vTol: real, hTol': real, vTol': real,
                          partially: bool, useHorizontal: bool, useVertical: bool)
    requires hTol <= hTol' && vTol <= vTol'
    requires Classify(rect, width, height, hTol, vTol, partially, useHorizontal, useVertical)
    ensures Classify(rect, width, height, hTol', vTol', partially, useHorizontal, useVertical)
  {
  }

  /** An axis the direction does not select plays no part: its edges, size and tolerance are ignored. */
  lemma UnselectedAxisIgnored(rect: Rect, rect': Rect, width: real, width': real, height: real, height': real,
                              hTol: real, hTol': real, vTol: real, vTol': real, partially: bool)
    ensures rect.top == rect'.top && rect.bottom == rect'.bottom && height == height' && vTol == vTol' ==>
              Classify(rect, width, height, hTol, vTol, partially, false, true)
              == Classify(rect', width', height', hTol', vTol', partially, false, true)
    ensures rect.left == rect'.left && rect.right == rect'.right && width == width' && hTol == hTol' ==>
              Classify(rect, width, height, hTol, vTol, partially, true, false)
              == Classify(rect', width', height', hTol', vTol', partially, true, false)
  {
  }

  /**
   * The tolerance of one axis in pixels: an `add` tolerance as given, a `multiply` tolerance as a
   * multiple of the container size on that axis.
   */
  function AxisTolerance(t: Tolerance, size: real): (r: real)
    ensures t.mode == Add ==> r == t.amount
    ensures t.mode == Multiply ==> r == size * t.amount
  {
    if t.mode == Add then t.amount else size * t.amount
  }

  /**
   * Every string tolerance the pattern accepts widens the viewport on each side by
   * size * (p / 100 + 1), where p is its number: "10px" as much as "10%".
   */
  lemma StringToleranceScalesSize(s: string, p: real, size: real)
    requires ParseTolerance(s).Some? && p == ParseFloat(s)
    ensures AxisTolerance(ToleranceSetting(Text(s)), size) == size * (p / 100.0 + 1.0)
  {
    var t := ToleranceSetting(Text(s));
    assert t.mode == Multiply && t.amount == p / 100.0 + 1.0;
    MultiplyScalesSize(t, size, p);
  }

  /** The same for a reading given by its parts: the factor comes from the number it denotes. */
  lemma ReadingToleranceScalesSize(u: ToleranceSyntax, p: real, size: real)
    requires WellFormed(u) && Canonical(u) && p == NumberValue(u)
    ensures ParseTolerance(Render(u)).Some?
    ensures AxisTolerance(ToleranceSetting(Text(Render(u))), size) == size * (p / 100.0 + 1.0)
  {
    CanonicalRoundTrip(u);
    assert ParseFloat(Render(u)) == p;
    StringToleranceScalesSize(Render(u), p, size);
  }

  lemma MultiplyScalesSize(t: Tolerance, size: real, p: real)
    requires t == Tolerance(Multiply, p / 100.0 + 1.0)
    ensures AxisTolerance(t, size) == size * (p / 100.0 + 1.0)
  {
  }

  /**
   * A string tolerance of p (any unit) widens the viewport on each side by size * (p / 100 + 1):
   * "0%" already adds a whole viewport size on each side.
   */
  lemma ZeroPercentAddsWholeSize(size: real)
    ensures ParseTolerance("0%").Some?
    ensures AxisTolerance(ToleranceSetting(Text("0%")), size) == size
  {
    ZeroPercentIsFactorOne();
    var t := ToleranceSetting(Text("0%"));
    assert t == Tolerance(Multiply, 1.0);
  }
}
