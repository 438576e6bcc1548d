# jquery.isinview in Dafny

A model of the jQuery plugin jquery.isinview, with proofs about it. The plugin decides whether
elements are visible inside a container, which is a window or an element that can clip its
content. A tolerance can widen the container, and partial or full visibility can be asked for. The
plugin also tells whether a window or element shows scroll bars, and how wide the browser's scroll
bars are.

Most of the model is the current revision (`dist/jquery.isinview.js`). The earlier, self-contained
revision (`src/jquery.isinview.js`) is modelled separately in module `Legacy`.

## How the model is built

- **The page.** The page is a value `Dom.Snapshot`: a map from node ids to node records. Each
  record holds:
  - the kind of node and the links the plugin follows (parent, owner document, view, iframe
    content);
  - the computed styles it reads;
  - the sizes it reads: bounding client rect, client, scroll, inner, offset and jQuery
    width/height.

  Node ids follow document order, so an ancestor always has a smaller id than its descendants.
- **Errors.** Thrown `Error`s become `Err` values of `Base.Error`. A TypeError from a missing
  object is `HostTypeError`. Examples: the bounding client rect of a window, a document without a
  body, an iframe without a document.
- **The scroll bar width.** `browserScrollbarWidth` and `getScrollbarWidth` keep the width in a
  module-level variable. This is `ScrollbarWidth.ScrollbarWidthMemo`. The probe's measurement is a
  parameter (`Probe`) of each call, so the memo's effect is visible: every call after the first
  ignores the page.
- **Pure code as functions.** `hasScrollbar`, `effectiveScrollbarWith`, `_prepareConfig`,
  `_isInView`, `inView` and `isInView` are specified as functions of the snapshot and the global
  width `g`: `Scrollbars.*Spec`, `Query.*`.
- **Code that changes state as methods.** These are methods that update objects and are proved
  against those functions:
  - the memo;
  - the per-query `config.cache` (`QueryRun.QueryConfig`, where 0 means not cached, as the
    source's `||` reads it);
  - the loops of `inView` and of the `:inviewport` filter, which writes into a `matches` array;
  - the module-level `$cachedContainer` of the earlier revision (`Legacy.ContainerCache`).

## Behaviour of the code that the model keeps

- **Tolerance.** A numeric tolerance is added in pixels. A string tolerance is always a factor:
  `slice(-3) === "px"` holds only for the string `"px"`, which the pattern refuses. So `"10px"`
  and `"10%"` both mean 1.1 times the container size, and `"0%"` widens the container by its whole
  size on each side. Proved in `Options.SliceLast3IsPx`, `Options.UnitIgnored`,
  `Options.TenPixelsIsAFactor`, `Classifier.StringToleranceScalesSize` and `Classifier.ZeroPercentAddsWholeSize`.
- **Relative rect.** `getRelativeRect` adds the container's top and left borders where the
  padding-box origin would subtract them. Relative top and left therefore come out twice the
  border further in than padding-box coordinates. Proved in `Rects.RelativeRectAgainstPaddingBox`.
- **Single-axis scroll bar queries.** `hasScrollbar(elem, "horizontal")` never reads `overflowY`, so the
  vertical axis is resolved from `overflow` alone. A horizontal bar that only appears because the
  vertical bar takes room can then be missed, though asking for both axes reports it
  (`Scrollbars.SingleAxisQueryCanMissCrossBar`).
- **Errors in `inView`.** An error thrown by `_isInView` for one element ends the whole `inView`
  call, because it is thrown out of `each`. Later elements are not examined
  (`Query.FilterErrorPersists`).
- **Earlier revision.** The rect is made relative to the container even when the container is a
  window (line 136 tests the element, not the container). A window has no bounding client rect, so
  every call that gets that far throws. That includes every call without a container option
  (`Legacy.WindowContainerThrows`, `Legacy.DefaultContainerThrows`).

## Model

| member | source | states |
|---|---|---|
| Dom.OwnerWindow | dist/jquery.isinview.js:424-429 | the owner window of the first node: a window is its own, a document gives its defaultView, any other node the view of its owner document; an empty set gives undefined; the result is always a window; the earlier revision's ownerWindow (src/jquery.isinview.js:18-23) is the same expression |
| Dom.DescendantComesFirst | dist/jquery.isinview.js:738-740 | an ancestor found by `$.contains` precedes its descendant in document order, so it is never the node itself |
| Scrollbars.ParseAxis | dist/jquery.isinview.js:234-240 | the axis argument is rejected exactly when it is none of horizontal, vertical, both; a missing axis or "both" means both; "horizontal" and "vertical" select that axis alone |
| Scrollbars.Project | dist/jquery.isinview.js:353 | "both" returns the pair (horizontal, vertical); "horizontal" returns the horizontal answer alone, "vertical" the vertical one |
| Scrollbars.SourceFlagIsEffectiveOverflow | dist/jquery.isinview.js:281-286 | the source's flag test for scroll, auto or visible (the axis' own value is v, or it is empty and `overflow` is v) holds exactly when the axis' resolved overflow (its own value, or `overflow` when that is empty) is v |
| Scrollbars.QueriedProps | dist/jquery.isinview.js:269-279 | `overflow` is always read; a queried axis resolves its own overflow value first; an axis the call does not query is never read and resolves to `overflow` |
| Scrollbars.ElementVerdict | dist/jquery.isinview.js:340-349 | an element with content shows a bar for overflow scroll; never for other values or an empty scroll size; for auto exactly when the content overflows or the other bar takes the space; with a zero bar width only the first pass counts |
| Scrollbars.CorrectionOrderIrrelevant | dist/jquery.isinview.js:348-349 | applying the cross-axis correction horizontal-first gives the same verdict as the source's vertical-first order |
| Scrollbars.CorrectionIsStable | dist/jquery.isinview.js:348-349 | a second round of the cross-axis correction changes nothing |
| Scrollbars.BalancedFirstPassIgnoresWidth | dist/jquery.isinview.js:348-349 | when the first pass finds both bars or none, the global width plays no part |
| Scrollbars.ElementScrollbars | dist/jquery.isinview.js:338-349 | an element queried on both axes gets ElementVerdict of both resolved overflow values and its scroll and inner sizes; a single-axis query resolves the other axis from `overflow` alone |
| Scrollbars.SingleAxisQueryCanMissCrossBar | dist/jquery.isinview.js:269-349 | with overflow-x auto, overflow-y scroll, an empty `overflow` and content that just fits, asking for both axes reports a horizontal bar and asking for the horizontal axis alone does not |
| Scrollbars.WindowAxis | dist/jquery.isinview.js:288-335 | a window axis with overflow scroll has a bar; without a hidden body it has one iff overflow is scroll, or auto/visible with the root's client size below the document size; the body-overflow override only ever removes bars; a positioned body with hidden overflow leaves only scroll; a hidden body as large as the document leaves only scroll; a hidden body smaller than the document changes nothing |
| Scrollbars.WindowScrollbars | dist/jquery.isinview.js:288-335 | per axis: the root's resolved overflow scroll always gives a bar; without hidden body overflow a bar is there iff overflow is scroll, or auto/visible with the root's client size below the document size; a hidden positioned body leaves only scroll; the override never adds a bar; in full, each axis is WindowAxis over that axis's root client size, document size, body overflow, body scroll size, leading body border and margin, and root scroll size |
| Scrollbars.ScrollbarTarget | dist/jquery.isinview.js:247-266 | a window stands for its document, a document for itself, the root element for its owner document, an iframe (not the root) for its content document, and throws a TypeError without one; every other node is queried as itself |
| Scrollbars.TargetScrollbars | dist/jquery.isinview.js:261-351 | getCss (845-846) only works on elements: an element target gives ElementScrollbars exactly when it is an element, and a TypeError for text nodes and fragments; a window target throws exactly when its document has no root element or no body, and otherwise gives WindowScrollbars of the document, root and body |
| Scrollbars.WindowIgnoresWidth | dist/jquery.isinview.js:288-335 | window scroll bars do not depend on the browser's bar width |
| Scrollbars.HasScrollbarSpec | dist/jquery.isinview.js:222-354 | an invalid axis throws even for an empty set; an empty set gives undefined; otherwise the call succeeds exactly when the first node's target and its verdict do, and answers that verdict projected on the queried axes; the only other error is a TypeError |
| Scrollbars.NonElementThrows | dist/jquery.isinview.js:279 | hasScrollbar on a text node or fragment is a TypeError (getCss, 845-846) |
| Scrollbars.WindowDocumentAndRootAgree | dist/jquery.isinview.js:243-262 | a window, its document and its root element give the same answer |
| Scrollbars.IframeReportsContentWindow | dist/jquery.isinview.js:257-259 | an iframe element gives the answer of its content document |
| Scrollbars.ElementReportsVerdict | dist/jquery.isinview.js:338-353 | an ordinary element asked for both axes answers the pair of ElementVerdict over its resolved overflow values and sizes |
| Scrollbars.EffectiveWidthSpec | dist/jquery.isinview.js:392-416 | an invalid axis throws; an empty set gives undefined; a zero global width gives zeros without asking hasScrollbar; otherwise it fails exactly when hasScrollbar on the same axis fails, with its error, and each width is the global width where hasScrollbar reports a bar and 0 where it does not |
| Scrollbars.WindowDimension | dist/jquery.isinview.js:814-819 | the window size is the client size of its document's body in BackCompat mode and of its root element otherwise; that element missing is a TypeError |
| Scrollbars.NetContainerSizeSpec | dist/jquery.isinview.js:779-801 | a window container gives the window dimension; an element container's width is its inner width less the global width exactly when hasScrollbar reports a vertical bar, its height its inner height less the global width exactly when it reports a horizontal bar; errors of hasScrollbar pass through; with a zero bar width it is the inner size |
| ScrollbarWidth.ScrollbarWidthMemo.BrowserScrollbarWidth | dist/jquery.isinview.js:361-382 | the first call measures the probe's width difference and stores it; every later call returns the stored width whatever the page does; the earlier revision's getScrollbarWidth (src/jquery.isinview.js:53-65) is the same measure-once memo |
| ScrollbarWidth.MeasureTwice | dist/jquery.isinview.js:364-381 | two calls agree even when the probe would measure differently |
| ScrollbarQueries.HasScrollbar | dist/jquery.isinview.js:222-354 | computes hasScrollbar with the width read lazily; the memo is filled exactly when the cross-axis correction needs the width |
| ScrollbarQueries.EffectiveScrollbarWidth | dist/jquery.isinview.js:392-416 | computes effectiveScrollbarWith; the global width is read first, so the memo is always filled |
| ScrollbarQueries.NetContainerSize | dist/jquery.isinview.js:779-801 | computes the net container size; a window container never touches the memo |
| Options.ParseTolerance | dist/jquery.isinview.js:765 | a string accepted by the recognizer is a well-formed sign/digits/dot/digits/unit string that renders back to itself |
| Options.FractionValueBounds | dist/jquery.isinview.js:533 | the digits after the decimal point denote a value in [0, 1) |
| Options.ParseFloatSign | dist/jquery.isinview.js:533 | parseFloat of a valid tolerance string is at most 0 after a leading minus and at least 0 otherwise |
| Options.ParseFloat | dist/jquery.isinview.js:533 | no contract: parseFloat of a valid tolerance string is the number its canonical reading denotes; its sign is `Options.ParseFloatSign` |
| Options.IsNumber | dist/jquery.isinview.js:879-885 | no contract: a tolerance is a number when it is one and not NaN (NaN is a separate case of the option value) |
| Options.IsString | dist/jquery.isinview.js:887-890 | no contract: a tolerance is a string when it is one |
| Options.ParseMatchesPattern | dist/jquery.isinview.js:765 | the recognizer accepts exactly the strings the tolerance pattern matches: optional sign, digits, optional dot, at least one digit, optional px or % unit |
| Options.CanonicalRoundTrip | dist/jquery.isinview.js:765 | parsing a rendered canonical tolerance gives it back |
| Options.ParseComplete | dist/jquery.isinview.js:765 | every string the pattern describes is accepted |
| Options.CheckOptions | dist/jquery.isinview.js:752-769 | options pass iff direction, box and tolerance are all valid; the errors come in the order direction, box, tolerance; a tolerance is a number or a matching string (isNumber, isString at 879-890) |
| Options.SliceLast3 | dist/jquery.isinview.js:532 | `slice(-3)` is the suffix of the string of length three, or the whole string when it is shorter |
| Options.SliceLast3IsPx | dist/jquery.isinview.js:532 | the last three characters equal "px" only for the string "px" itself |
| Options.ToleranceSetting | dist/jquery.isinview.js:531-537 | no tolerance adds 0; a number adds that many pixels; a string multiplies: its number / 100 + 1 |
| Options.SettingOfReading | dist/jquery.isinview.js:531-537 | the factor of a string tolerance is the value of its number / 100 + 1 |
| Options.UnitIgnored | dist/jquery.isinview.js:532-533 | replacing the unit of a well-formed reading by none, "px" or "%" leaves the parsed setting unchanged |
| Options.TenPixelsIsAFactor | dist/jquery.isinview.js:532-533 | "10px" gives the factor 1.1, not 10 pixels |
| Options.ZeroPercentIsFactorOne | dist/jquery.isinview.js:532-533 | "0%" gives the factor 1 |
| Containers.WrapContainer | dist/jquery.isinview.js:696-717 | the container is a window or a node whose overflow is not visible, never a document or iframe; documents and iframes stand for their windows; an empty set or missing view throws, and so does a visible-overflow element |
| Containers.CheckHierarchy | dist/jquery.isinview.js:728-745 | a non-element throws; for a window container the element must belong to its document; for an element container it must be a descendant; a passing element is never its container |
| Rects.ContentRect | dist/jquery.isinview.js:671-685 | the content rect lies within the border rect when borders and paddings are non-negative; its height and width shrink by exactly padding plus border |
| Rects.ElementRect | dist/jquery.isinview.js:604 | border-box is the bounding client rect; only an element has one |
| Rects.ContainerCorrections | dist/jquery.isinview.js:643-650 | the corrections exist exactly for an element container; otherwise a TypeError |
| Rects.RectCorrections | dist/jquery.isinview.js:645-650 | bottom and top corrections lie the two vertical borders apart, right and left the two horizontal borders apart; top and left are the container's corner less its top and left borders |
| Rects.RelativeRect | dist/jquery.isinview.js:656-661 | the relative rect's height and width are the rect's less the spread of the corrections (so less both borders) |
| Rects.RelativeRectAgainstPaddingBox | dist/jquery.isinview.js:624-662 | relative top/left are twice the border further in than padding-box coordinates; bottom/right differ by the opposite border difference |
| Rects.RelativeRectTranslationInvariant | dist/jquery.isinview.js:624-662 | moving element and container together leaves the relative rect unchanged |
| Classifier.Classify | dist/jquery.isinview.js:607-613 | in view iff every selected axis is in view: partially as overlap with the widened viewport, fully as containment in it |
| Classifier.FullImpliesPartial | dist/jquery.isinview.js:607-613 | fully in view implies partially in view |
| Classifier.ToleranceMonotone | dist/jquery.isinview.js:607-613 | a larger tolerance never removes an element from view |
| Classifier.UnselectedAxisIgnored | dist/jquery.isinview.js:607-613 | an axis the direction leaves out does not affect the verdict |
| Classifier.StringToleranceScalesSize | dist/jquery.isinview.js:591-592 | every string tolerance the pattern accepts widens each side of the viewport by size * (p / 100 + 1), p its parseFloat value, whatever its unit |
| Classifier.ReadingToleranceScalesSize | dist/jquery.isinview.js:531-537 | the same for a tolerance given by its sign, digits and unit: the factor is the number it denotes / 100 + 1 |
| Classifier.ZeroPercentAddsWholeSize | dist/jquery.isinview.js:591-592 | "0%" widens the viewport by its full size on each side |
| Query.PrepareConfig | dist/jquery.isinview.js:509-543 | succeeds iff the container wraps and the options pass; container errors come first, then the options error; the container is the wrapped container set, by default the owner window; direction and box set the axes and border box; tolerance, partially and excludeHidden are carried over |
| Query.PrepareConfigIgnoresSetWithContainer | dist/jquery.isinview.js:516-517 | an explicit container makes the configuration independent of the set |
| Query.AxisSize | dist/jquery.isinview.js:587-588 | an axis the direction uses is the net container size on that axis; an unused axis is never measured |
| Query.ClassifiedRect | dist/jquery.isinview.js:604-605 | for a window container the element's rect itself; for an element container the rect relative to it, which exists exactly when the container is an element too; a non-element throws |
| Query.InViewSpec | dist/jquery.isinview.js:566-617 | an element equal to its container throws; hidden elements are out of view under excludeHidden; only elements can be in view; the only errors are that one and TypeErrors; otherwise a container width error, then a height error, then a rect error passes through, and the answer is in view iff each axis asked for has the rect inside the container size widened by the tolerance for that size |
| Query.InViewFullImpliesPartial | dist/jquery.isinview.js:566-617 | for every container and tolerance, fully in view implies partially in view |
| Query.InViewToleranceMonotone | dist/jquery.isinview.js:566-617 | raising an additive tolerance keeps an in-view element in view |
| Query.FilterInView | dist/jquery.isinview.js:458-460 | the kept elements are a subsequence of the set in order, exactly the in-view ones; the loop succeeds iff every element can be tested |
| Query.FilterErrorPersists | dist/jquery.isinview.js:458-460 | an error in a prefix is the result of the whole loop |
| Query.MarkInView | dist/jquery.isinview.js:206-208 | the marking loop defines one entry per element of the set |
| Query.MarkErrorPersists | dist/jquery.isinview.js:206-208 | an error in a prefix of the marking loop is the result of the whole loop |
| Query.MarksAgreeWithFilter | dist/jquery.isinview.js:206-208 | the marking loop and inView's `each` loop (458-460) fail together with the same error, and the defined entries are exactly the kept elements, in order |
| Query.MarkEntries | dist/jquery.isinview.js:207 | entry i is `elems[i]` when that element is in view and undefined otherwise |
| Query.InViewportMarks | dist/jquery.isinview.js:197-209 | the :inviewport filter defines one entry per element of the set |
| Query.InViewportIsInView | dist/jquery.isinview.js:192-212 | the :inviewport filter is equivalent to inView without a container: same failures with the same error, defined entries equal to inView's result, each element at its own index |
| Query.InViewQuery | dist/jquery.isinview.js:445-464 | an empty set gives an empty set; the result is the in-view subsequence under the prepared configuration; for a non-empty set, the configuration error, then the hierarchy error of the first element, then the first failing element test is the error |
| Query.IsInViewQuery | dist/jquery.isinview.js:480-492 | an empty set is not in view; a true answer needs an element that passed configuration and hierarchy checks; otherwise the configuration error, then the hierarchy error passes through, and past both the answer is InViewSpec of the first element |
| Query.IsInViewFirstOnly | dist/jquery.isinview.js:485-490 | isInView on a set answers as isInView on its first element alone |
| Query.SetSingleConsistency | dist/jquery.isinview.js:445-492 | with an explicit container, inView keeps an element iff isInView on it alone is true |
| Query.ViewportIsDefaultContainer | dist/jquery.isinview.js:145-147 | inViewport and isInViewport (187-189), which pass the owner window, equal the calls without a container |
| QueryRun.QueryConfig.ContainerSize | dist/jquery.isinview.js:587-588 | the cached or freshly measured net container size equals the uncached one; the cache stays sound |
| QueryRun.QueryConfig.AxisToleranceOf | dist/jquery.isinview.js:591-592 | the cached or fresh tolerance equals the uncached one |
| QueryRun.QueryConfig.RectOf | dist/jquery.isinview.js:604-605 | the rect with cached border corrections equals the uncached relative rect |
| QueryRun.QueryConfig.IsInView | dist/jquery.isinview.js:566-617 | _isInView with the cache gives the uncached answer and keeps the cache sound |
| QueryRun.QueryConfig.Filter | dist/jquery.isinview.js:458-460 | the `each` loop computes the filter function |
| QueryRun.QueryConfig.Mark | dist/jquery.isinview.js:206-208 | the loop writes into `matches` exactly the entries of `Query.MarkInView`, and fails with its error when an element cannot be tested |
| QueryRun.InView | dist/jquery.isinview.js:445-464 | computes inView as specified |
| QueryRun.IsInView | dist/jquery.isinview.js:480-492 | computes isInView as specified |
| QueryRun.InViewportFilter | dist/jquery.isinview.js:196-212 | the :inviewport filter writes exactly the entries of `Query.InViewportMarks` into `matches`, and fails exactly when it fails, with the same error |
| Legacy.LegacyRelativeRect | src/jquery.isinview.js:30-48 | the earlier formula equals the current one; height and width shrink by the two borders |
| Legacy.LegacyClassify | src/jquery.isinview.js:138-146 | anyPart and full classification are the current classifier at tolerance 0 |
| Legacy.ResolveContainer | src/jquery.isinview.js:100-109 | an empty jQuery set throws; a jQuery set becomes the cache; otherwise the cache's first node is the container, and the cached wrapper is kept for the same node |
| Legacy.Verdict | src/jquery.isinview.js:109-146 | an undefined container is a TypeError; a document throws; a bad direction throws; the call succeeds iff element and container are both elements; the answer is true iff, on each axis the direction asks for ("" is both), the element's rect relative to the container lies inside the container's width or height, partly or fully as anyPart says, with no tolerance |
| Legacy.LegacyStep | src/jquery.isinview.js:79-148 | undefined exactly for an empty set; false without container work when the element takes no space; the cache holds the container used even when the call then throws; a true answer needs element container and element; past the size check and the container step, the cache is the resolved one and the answer or error is Verdict against its first node |
| Legacy.WindowContainerThrows | src/jquery.isinview.js:135-136 | a window container always ends in a TypeError |
| Legacy.DefaultContainerThrows | src/jquery.isinview.js:101-136 | with no container option every element in a window ends in a TypeError |
| Legacy.SameContainerReusesCache | src/jquery.isinview.js:106-107 | passing the same node twice keeps the wrapper of the first call |
| Legacy.FullImpliesAnyPart | src/jquery.isinview.js:138-144 | fully in view implies in view with anyPart, with the same cache afterwards |
| Legacy.ContainerCache.IsInView | src/jquery.isinview.js:67-70 | isInView updates the module-level cache as the step function says |

## Left out

- Selector strings, `$()` wrapping and the Sizzle registration of `:inviewport` are not modelled (`$.expr.match.inviewport` and the `createPseudo` wrappers, lines 194-197). The filter function itself is `QueryRun.InViewportFilter`. Sets are sequences of node ids. A container is a set or nothing.
- Numbers are unbounded reals. Infinity, NaN and IEEE rounding are not modelled.
- `parseFloat` is modelled only on strings the tolerance pattern accepts.
- The tolerance of an axis the direction leaves out is not modelled. For a multiply tolerance it is NaN in the source. The model computes it as 0, and it is never read.
- `getCss` reads computed styles. Text nodes and fragments have none, which is modelled as a TypeError. It would fail for a node whose document has no view; that failure is not modelled.
- The `overflow` read in `wrapContainer` for a node that is not an element is not modelled. The value stored in the snapshot is used.
- Cross-origin iframes and the IE-only `parentWindow` are not modelled.
- The probe element that `browserScrollbarWidth` and `getScrollbarWidth` create and remove is not modelled. Only its measurement is, as a parameter.
- The live DOM between calls is not modelled. Each call sees one snapshot. The memo and the earlier revision's container cache carry state from call to call.
- `$.fn.*` wrappers (lines 40-189) only forward to the functions above. They are modelled only through `Query.ViewportIsDefaultContainer`.
- QueryRun.QueryConfig.Mark: when an element cannot be tested, the contract gives the error but says nothing about `matches`. In the source the entries before that element stay written.
- QueryRun.InViewportFilter: the same; after an error the contents of `matches` are left unspecified.
