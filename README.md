# Target-finding vision pipeline, per-frame decision logic

This project models the decision logic that the FRC vision pipeline
`MyPipeline.process` runs on every camera frame, and proves properties of it.
The pipeline looks for a vision target made of two tilted retro-reflective
strips. Starting from the contours found in the thresholded image, it:

1. keeps the contours whose area, tilt and side ratio fit a strip
   (the candidate filter), after normalising each rotated rectangle so that
   `width <= height`;
2. pairs the candidates. A lone candidate gets a phantom partner 5.5 widths
   away. Otherwise a greedy O(n²) scan over an in-place `taken` flag array
   tests every combination against three reject tests (tilt sameness, width
   difference, spacing-to-width ratio) and assigns left/right roles by
   position and tilt;
3. maps each pair's midpoint to an angle off the camera axis, keeps the
   smallest signed angle, and adds it to the heading the robot reports,
   publishing `target_found` and `target_angle` outside debug mode.

Modules, one per file:

- `Wrappers`: `Option`.
- `Geometry`: the rotated rectangle the vision library hands back, the
  contour record, the normalised rectangle (`BetterRectangle`), `Pair`.
- `Thresholds`: the tuning record and its default values.
- `CandidateFilter`: the filter as a function and as the loop that runs it.
- `Pairing`: the lone-candidate phantom, the reject tests, the role
  assignment, and the greedy scan. The scan is a method over a `bool` array
  with loop invariants. It is tied to a functional reference `ScanPairs` and
  to a ghost trace of the matches it recorded.
- `Heading`: the angle mapping and the smallest-angle loop.
- `Pipeline`: the `VisionPipeline` class with its `robotHeading` field and
  `Process`.
- `Scenarios`: concrete frames worked through the model.

Numbers are `real`. The integer thresholds stay `int` and are compared after
conversion, as the source compares `int` fields with `double` values.

Four behaviours of the code are easy to miss. The model keeps them as they
are:

- A candidate can end up in more than one pair, although the comment at
  src/main/java/Main.java:372-374 speaks of pairing halves not used in a
  previous pair. The inner loop never looks at `taken[i]` again once it is
  set, so the outer candidate keeps pairing with later partners
  (`Scenarios.CandidateInTwoPairs`).
- Both indices are marked taken whenever the three reject tests pass, even
  when the role assignment emits no pair.
- In the lone case the real candidate is always `left`, because the role test
  compares the phantom's tilt (always -15 or 15) with -75. So for a candidate
  tilted -45 degrees or more, `left` lies to the right of `right`
  (`Pairing.LonePairOrientation`).
- The heading turns by the smallest signed angle, that is toward the leftmost
  target, not toward the target nearest the camera axis
  (`Scenarios.SignedSmallestAngle`, `Heading.MinOffsetIsLeftmost`).

## Model

| member | source | states |
|---|---|---|
| Geometry.Normalize | src/main/java/Main.java:649-672 | the normalised rectangle keeps the rotated rectangle and its angle, has `width <= height`, its two sides are the rectangle's two sides, and its area is their product |
| Geometry.NormalizeOrdered | src/main/java/Main.java:660-666 | a rectangle whose reported width is not above its height keeps its sides as they are |
| Geometry.PairCenterSymmetric | src/main/java/Main.java:444-449 | the midpoint of a pair does not depend on which member is left |
| CandidateFilter.AcceptsIff | src/main/java/Main.java:302-341 | a contour is kept iff its area is at least the minimum, its angle lies in one of the two inclusive tilt windows, and its width is positive with its height/width ratio in the inclusive ratio window (a zero width gives an infinite ratio, which is rejected) |
| CandidateFilter.Candidates | src/main/java/Main.java:302-341 | there are never more candidates than contours, and every candidate has `0 < width <= height` |
| CandidateFilter.FilterContours | src/main/java/Main.java:302-341 | the filtering loop returns exactly the candidate list of the specification function |
| CandidateFilter.CandidatesMembership | src/main/java/Main.java:302-341 | a rectangle is a candidate iff it is the normalised rectangle of some accepted contour |
| CandidateFilter.CandidatesKeepOrder | src/main/java/Main.java:302-341 | the candidates are a subsequence of the normalised contours, so contour order is kept |
| CandidateFilter.CandidatesMonotone | src/main/java/Main.java:308-336 | raising the area minimum or narrowing either tilt window or the ratio window yields a subsequence of the previous candidates, hence no more of them |
| Pairing.ChecksIff | src/main/java/Main.java:393-420 | a combination passes the reject tests iff the tilt magnitudes differ by at least 13, the widths by at most 50, and the centre distance lies within 4 to 6 average widths |
| Pairing.ChecksSymmetric | src/main/java/Main.java:393-420 | the reject tests give the same verdict in either order |
| Pairing.Orient | src/main/java/Main.java:422-433 | an emitted pair reads left to right in both position and tilt, consists of the two rectangles, and none is emitted exactly when neither ordering holds |
| Pairing.OrientSymmetric | src/main/java/Main.java:422-433 | the role assignment gives the same pair whichever rectangle is the outer one |
| Pairing.LonePair | src/main/java/Main.java:344-369 | the real candidate is left; the phantom has its height, width, y and area, lies exactly 5.5 widths away, to the right iff the tilt is below -45, and is tilted -15 or 15 accordingly |
| Pairing.LonePairOrientation | src/main/java/Main.java:353-368 | the lone pair reads left to right iff the candidate is tilted below -45 |
| Pairing.LonePairCenter | src/main/java/Main.java:344-369 | the lone pair's midpoint lies 2.75 widths to the side of the candidate its tilt points to |
| Pairing.LonePairRolesIrrelevant | src/main/java/Main.java:364-368 | whichever way the role test assigns the candidate and its phantom, the target centre is the same |
| Pairing.Emitted | src/main/java/Main.java:422-433 | the pairs emitted for a trace of matches are no more than the matches and all read left to right |
| Pairing.EmittedFromMatches | src/main/java/Main.java:422-433 | every emitted pair consists of the two candidates of one recorded match |
| Pairing.InnerScan | src/main/java/Main.java:381-437 | the inner loop keeps one flag per candidate, keeps the earlier pairs as a prefix of its result, and never clears a flag |
| Pairing.InnerScanSound | src/main/java/Main.java:381-437 | every pair the inner loop adds comes from the outer candidate and a different candidate that passes the reject tests |
| Pairing.OuterScanSound | src/main/java/Main.java:376-438 | every pair the outer loop adds comes from two different candidates that pass the reject tests |
| Pairing.ScanPairsSound | src/main/java/Main.java:375-438 | every pair of the greedy scan reads left to right and comes from two different candidates that pass the reject tests |
| Pairing.SameTiltNeverPaired | src/main/java/Main.java:393-400 | two candidates of equal tilt magnitude are never paired, whatever their position and width |
| Pairing.TestPartner | src/main/java/Main.java:383-436 | one inner iteration: a taken partner, the outer candidate itself or a failed test leaves flags and pairs unchanged; otherwise both flags are set and the oriented pair, if any, is appended; the scan state and the functional inner loop are kept |
| Pairing.ScanPartners | src/main/java/Main.java:381-437 | the inner loop computes what the functional inner loop computes, never clears a flag, and leaves the outer candidate covered: every other candidate that passes the tests with it is taken when the loop ends |
| Pairing.ScanOuter | src/main/java/Main.java:376-380 | one outer iteration leaves flags and pairs unchanged when the outer candidate is taken, and otherwise computes what the functional inner loop computes from the old flags and pairs; the scan state is kept |
| Pairing.GreedyPairs | src/main/java/Main.java:375-438 | the scan's trace holds only valid matches in scan order; a taken index is never a later partner or a later outer candidate; of any two candidates that pass the tests one ends up taken; there are fewer matches than candidates and none for no candidates; the pairs are those emitted for the trace and equal the functional scan |
| Pairing.ScanDone | src/main/java/Main.java:375-438 | the state at the end of the outer loop meets everything the greedy scan promises |
| Pairing.PairingSound | src/main/java/Main.java:343-439 | every pair of a frame is the lone candidate's pair, or reads left to right and comes from two different candidates that pass the tests |
| Pairing.PairCandidates | src/main/java/Main.java:343-439 | no candidates give no pairs, a lone candidate gives exactly its phantom pair, and two or more give fewer pairs than candidates |
| Heading.AngleOffsetSign | src/main/java/Main.java:452-460 | with a positive field of view the angle is negative exactly left of the centre column and zero exactly on it |
| Heading.AngleOffsetBounded | src/main/java/Main.java:452-460 | a point inside the frame is at most a quarter of the field of view off the axis |
| Heading.AngleOffsetMonotone | src/main/java/Main.java:452-460 | further right never gives a smaller angle |
| Heading.AngleOffsetReflects | src/main/java/Main.java:452-460 | with a positive field of view, a smaller or equal angle means a point no further right |
| Heading.DefaultAngles | src/main/java/Main.java:227-229 | with the default 432-pixel frame and 60-degree field of view, x = 216 maps to 0, x = 432 to 15 and x = 0 to -15 |
| Heading.Offsets | src/main/java/Main.java:442-460 | one angle per pair, each the angle of that pair's midpoint |
| Heading.Smallest | src/main/java/Main.java:441-465 | none exactly when there are no angles, otherwise one of the angles and no larger than any of them |
| Heading.MinOffsetIsLeast | src/main/java/Main.java:441-465 | the selected angle is the angle of one of the pairs and no pair has a smaller signed angle |
| Heading.MinOffsetIsLeftmost | src/main/java/Main.java:441-465 | with a positive field of view the selected angle is that of a pair whose midpoint no other pair's lies left of |
| Heading.SingleTarget | src/main/java/Main.java:441-465 | with one target the selected angle is that target's |
| Heading.Outlines | src/main/java/Main.java:467-468 | the outlines are each pair's left then right, two per pair in pair order |
| Heading.SmallestOffset | src/main/java/Main.java:441-469 | the loop over the pairs returns the smallest signed angle and the outline list |
| Pipeline.VisionPipeline.constructor | src/main/java/Main.java:223-253 | a new pipeline holds the given thresholds and run mode and a zero heading |
| Pipeline.VisionPipeline.Process | src/main/java/Main.java:256-483 | the pairs are those of the filtered candidates, the outlines are theirs; in debug mode the heading is untouched and nothing is published; otherwise the heading is the reported one moved by the selected angle, and the published record says whether a target was found and carries the new heading |
| Pipeline.TargetFoundIff | src/main/java/Main.java:343-474 | a target is found iff exactly one candidate survives or the scan pairs two candidates |
| Pipeline.NoCandidatesNoTarget | src/main/java/Main.java:343-477 | a frame with no candidates yields no pairs and keeps the heading |
| Pipeline.HeadingTurnsToLeftmost | src/main/java/Main.java:441-474 | when a target is found, the heading turns by the angle of one pair, and no pair has a smaller one; with a positive field of view that pair has the leftmost midpoint |
| Pipeline.LoneCandidateHeading | src/main/java/Main.java:344-474 | a lone candidate always yields a target: the frame's pairs are exactly its lone pair, an angle is selected, and the heading turns toward a point 2.75 widths to the side its tilt points to |
| Scenarios.WellSpacedStripsPair | src/main/java/Main.java:375-438 | strips tilted -70 and 20, 40 wide and 200 apart with the -70 one on the left, make exactly one pair with that one as left |
| Scenarios.CloseStripsDoNotPair | src/main/java/Main.java:411-420 | the same strips 120 apart make no pair |
| Scenarios.CandidateInTwoPairs | src/main/java/Main.java:381-437 | a frame in which the outer candidate is paired twice within its own outer iteration |
| Scenarios.LonePhantomSides | src/main/java/Main.java:344-362 | a lone strip tilted -50 gets its phantom 5.5 widths to the right; one tilted 10 gets it 5.5 widths to the left |
| Scenarios.DefaultFrameWithOneTiltRejected | src/main/java/Main.java:302-369 | under the default thresholds, of strips tilted -70 and 20 only the first survives, and the frame yields its lone pair |
| Scenarios.DegenerateContoursDropped | src/main/java/Main.java:302-341 | a frame holding a zero-area speck and a zero-width sliver is covered by the model, and both are dropped, the speck at the area test and the sliver at the ratio test |
| Scenarios.SignedSmallestAngle | src/main/java/Main.java:441-465 | with targets 10 degrees left and 2 degrees right of the axis, the selected angle is -10, not the one nearer the axis |

## Left out

- The vision library calls (colour conversion, colour threshold, morphological
  closing, contour search, contour area, minimum-area rectangle, rectangle
  corners, drawing circles and contours) are foreign code. Their results are
  the input: one `Contour` record per contour, with its area and rotated
  rectangle. The corner points and the annotated output frame are not
  modelled; `Process` returns the rectangles whose outlines are drawn.
- Telemetry reads and writes become parameters and results: the reported
  heading is a parameter of `Process`, and the published `target_found` and
  `target_angle` are its `published` result. The static `debugMode` flag is
  a field of the pipeline set at construction.
- Configuration file reading and parsing, camera start-up, the streaming
  servers, the vision thread, `main`'s argument scanning, the desktop display
  and the nanosecond timer are I/O, threading, UI and clock code.
- The build-and-launch script has no decision logic.
- Java `double` behaviour: rounding, NaN and infinities are not modelled,
  except that a zero width at the ratio test is an infinite ratio and is
  rejected. CandidateFilter.Candidates: a contour that passes the area and
  tilt tests with a rectangle of two zero sides is outside the model; its
  ratio `0/0` is NaN, which the source's comparisons let through, giving a
  zero-width candidate. Tested against a candidate of positive width its
  average width is positive and its spacing ratio is defined; only against
  another zero-width candidate is that ratio `0/0` again. Alone, its phantom
  partner sits at the candidate's own centre (5.5 times a zero width away),
  so the target centre is the candidate's centre.
  Contours with such a rectangle that fail the area or tilt test are
  covered.
- The `Double.MAX_VALUE` sentinel of the smallest-angle search is modelled as
  `None`. A pair whose angle is at least `Double.MAX_VALUE` cannot occur with
  finite frame sizes and is not modelled.
- Pairing.GreedyPairs: reference identity `possibleMatch == halfTarget` is
  modelled as equal indices, since every list entry is a distinct object.
- Pairing.GreedyPairs: full pairing exclusivity is not stated, because the
  code does not have it; the weaker ordering facts of the trace are stated
  instead.
