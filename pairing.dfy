/**
 * The target pairing engine: a lone candidate gets a synthesised partner;
 * otherwise every candidate is tested against every other in a greedy,
 * order-dependent scan that marks both members of an accepted combination as
 * taken in a boolean array.
 */
module Pairing {
  import opened Wrappers
  import opened Geometry

  function Abs(x: real): real { if x < 0.0 then -x else x }

  /** Every rectangle of the list has a positive width no larger than its height. */
  predicate Normalized(c: seq<Rect>) { forall k | 0 <= k < |c| :: 0.0 < c[k].width <= c[k].height }

  // ---------------------------------------------------------------------
  // The three reject tests and the role assignment

  /** The two tilts are too alike in magnitude to be the two halves of a target. */
  predicate SameTilt(a: Rect, b: Rect) { Abs(Abs(a.angle) - Abs(b.angle)) < 13.0 }

  /** The two widths differ by more than 50 pixels. */
  predicate WidthsDiffer(a: Rect, b: Rect) { Abs(a.width - b.width) > 50.0 }

  /** The horizontal distance between the centres in units of the mean width. */
  function SpacingRatio(a: Rect, b: Rect): real
    requires 0.0 < a.width && 0.0 < b.width
  {
    var avgWidth := (a.width + b.width) / 2.0;
    var distance := Abs(CenterX(a) - CenterX(b));
    distance / avgWidth
  }

  /** The spacing ratio falls outside [4, 6]. */
  predicate SpacingOff(a: Rect, b: Rect)
    requires 0.0 < a.width && 0.0 < b.width
  {
    SpacingRatio(a, b) > 6.0 || SpacingRatio(a, b) < 4.0
  }

  /** The two rectangles pass all three reject tests. */
  predicate Checks(a: Rect, b: Rect)
    requires 0.0 < a.width && 0.0 < b.width
  {
    !SameTilt(a, b) && !WidthsDiffer(a, b) && !SpacingOff(a, b)
  }

  /** The reject tests read as bounds: tilt magnitudes at least 13 degrees
      apart, widths at most 50 apart, and the spacing between 4 and 6 mean
      widths inclusive. */
  lemma ChecksIff(a: Rect, b: Rect)
    requires 0.0 < a.width && 0.0 < b.width
    ensures Checks(a, b) <==>
      && Abs(Abs(a.angle) - Abs(b.angle)) >= 13.0
      && Abs(a.width - b.width) <= 50.0
      && 4.0 * ((a.width + b.width) / 2.0) <= Abs(CenterX(a) - CenterX(b))
      && Abs(CenterX(a) - CenterX(b)) <= 6.0 * ((a.width + b.width) / 2.0)
  {
    DivideBound(Abs(CenterX(a) - CenterX(b)), (a.width + b.width) / 2.0, 4.0);
    DivideBound(Abs(CenterX(a) - CenterX(b)), (a.width + b.width) / 2.0, 6.0);
  }

  /** Comparing a quotient with a bound is comparing the dividend with the
      bound times a positive divisor. */
  lemma DivideBound(dist: real, avg: real, k: real)
    requires avg > 0.0
    ensures k <= dist / avg <==> k * avg <= dist
    ensures dist / avg <= k <==> dist <= k * avg
  {
    var ratio := dist / avg;
    assert ratio * avg == dist;
    assert (ratio - k) * avg == dist - k * avg;
    if ratio >= k { MulNonnegative(ratio - k, avg); }
    if dist >= k * avg && ratio < k { MulPositive(k - ratio, avg); }
    if ratio <= k { MulNonnegative(k - ratio, avg); }
    if dist <= k * avg && ratio > k { MulPositive(ratio - k, avg); }
  }

  lemma MulNonnegative(x: real, y: real)
    requires x >= 0.0 && y >= 0.0
    ensures x * y >= 0.0
  {
  }

  lemma MulPositive(x: real, y: real)
    requires x > 0.0 && y > 0.0
    ensures x * y > 0.0
  {
  }

  /** The reject tests do not depend on which rectangle is tested against which. */
  lemma ChecksSymmetric(a: Rect, b: Rect)
    requires 0.0 < a.width && 0.0 < b.width
    ensures Checks(a, b) == Checks(b, a)
  {
  }

  /** A pair reads left to right both in position and in tilt. */
  predicate Oriented(p: Pair)
  {
    CenterX(p.left) < CenterX(p.right) && p.left.angle < p.right.angle
  }

  /** The role assignment for a combination that passed the reject tests: the
      rectangle further left becomes `left` when it also has the smaller tilt;
      when position and tilt disagree no pair is formed. */
  function Orient(half: Rect, other: Rect): (o: Option<Pair>)
    ensures o.Some? ==> Oriented(o.value)
    ensures o.Some? ==> o.value == Pair(half, other) || o.value == Pair(other, half)
    ensures o.None? <==>
      && !(CenterX(half) < CenterX(other) && half.angle < other.angle)
      && !(CenterX(other) < CenterX(half) && other.angle < half.angle)
  {
    var posDif := CenterX(half) - CenterX(other);
    if posDif < 0.0 && half.angle < other.angle then Some(Pair(half, other))
    else if posDif > 0.0 && half.angle > other.angle then Some(Pair(other, half))
    else None
  }

  /** The role assignment gives the same pair whichever rectangle is tested
      against which. */
  lemma OrientSymmetric(a: Rect, b: Rect)
    ensures Orient(a, b) == Orient(b, a)
  {
  }

  // ---------------------------------------------------------------------
  // The lone candidate

  /** The imaginary partner of a lone candidate: same size and height in the
      frame, 5.5 widths to the right when the candidate tilts below -45
      degrees and to the left otherwise, with tilt -15 or 15. */
  function Phantom(lone: Rect): Rect
  {
    var expectedDistance := 5.5 * lone.width;
    var angle := if lone.angle < -45.0 then -15.0 else 15.0;
    var centerx := if lone.angle < -45.0 then CenterX(lone) + expectedDistance
                   else CenterX(lone) - expectedDistance;
    Normalize(RotatedRect(centerx, lone.rotated.cy, lone.width, lone.height, angle))
  }

  /** The one pair emitted for a lone candidate. The role test compares the
      phantom's tilt with -75, which it never has, so the real candidate is
      always `left`. */
  function LonePair(lone: Rect): (p: Pair)
    requires 0.0 < lone.width <= lone.height
    ensures p.left == lone
    ensures p.right.rotated.cy == lone.rotated.cy
    ensures p.right.width == lone.width && p.right.height == lone.height
    ensures p.right.area == lone.width * lone.height
    ensures Abs(CenterX(p.right) - CenterX(lone)) == 5.5 * lone.width
    ensures CenterX(lone) < CenterX(p.right) <==> lone.angle < -45.0
    ensures p.right.angle == (if lone.angle < -45.0 then -15.0 else 15.0)
  {
    var imaginary := Phantom(lone);
    if imaginary.angle == -75.0 then Pair(imaginary, lone) else Pair(lone, imaginary)
  }

  /** Because the real candidate is always `left`, a lone candidate tilted at
      -45 degrees or more yields a pair whose `left` lies to the right of its
      `right`, unlike every pair of the general case. */
  lemma LonePairOrientation(lone: Rect)
    requires 0.0 < lone.width <= lone.height
    ensures Oriented(LonePair(lone)) <==> lone.angle < -45.0
  {
  }

  /** The target centre of a lone candidate lies 2.75 widths to the side of
      its partner. */
  lemma LonePairCenter(lone: Rect)
    requires 0.0 < lone.width <= lone.height
    ensures PairCenterX(LonePair(lone)) ==
      if lone.angle < -45.0 then CenterX(lone) + 2.75 * lone.width
      else CenterX(lone) - 2.75 * lone.width
  {
  }

  /** Had the role test put the phantom `left`, the target centre, and so
      the heading, would be the same. */
  lemma LonePairRolesIrrelevant(lone: Rect)
    requires 0.0 < lone.width <= lone.height
    ensures PairCenterX(LonePair(lone)) == PairCenterX(Pair(Phantom(lone), lone))
  {
    PairCenterSymmetric(lone, Phantom(lone));
  }

  // ---------------------------------------------------------------------
  // The greedy scan

  /** Candidate indices `half` (outer loop) and `other` (inner loop) that
      passed the three reject tests and were both marked taken. */
  datatype Match = Match(half: nat, other: nat)

  /** A match names two different candidates that pass the reject tests. */
  predicate ValidMatch(c: seq<Rect>, m: Match)
    requires Normalized(c)
  {
    m.half < |c| && m.other < |c| && m.half != m.other && Checks(c[m.half], c[m.other])
  }

  predicate InRange(c: seq<Rect>, ms: seq<Match>)
  {
    forall m | m in ms :: m.half < |c| && m.other < |c|
  }

  /** The indices marked taken by a sequence of matches. */
  ghost function Used(ms: seq<Match>): set<nat>
  {
    (set m | m in ms :: m.half) + (set m | m in ms :: m.other)
  }

  /** The pairs emitted for a sequence of matches, in order: the role
      assignment of each match that produced one. */
  function Emitted(c: seq<Rect>, ms: seq<Match>): (ps: seq<Pair>)
    requires InRange(c, ms)
    ensures |ps| <= |ms|
    ensures forall p | p in ps :: Oriented(p)
  {
    if ms == [] then []
    else
      var m := ms[|ms| - 1];
      var o := Orient(c[m.half], c[m.other]);
      Emitted(c, ms[..|ms| - 1]) + (if o.Some? then [o.value] else [])
  }

  /** Every emitted pair consists of the two candidates of one of the matches. */
  lemma {:induction false} EmittedFromMatches(c: seq<Rect>, ms: seq<Match>, p: Pair)
    requires InRange(c, ms)
    requires p in Emitted(c, ms)
    ensures exists m | m in ms :: p == Pair(c[m.half], c[m.other]) || p == Pair(c[m.other], c[m.half])
  {
    var m := ms[|ms| - 1];
    var o := Orient(c[m.half], c[m.other]);
    if p !in Emitted(c, ms[..|ms| - 1]) {
      assert o.Some? && p == o.value;
    } else {
      EmittedFromMatches(c, ms[..|ms| - 1], p);
      var m' :| m' in ms[..|ms| - 1] && (p == Pair(c[m'.half], c[m'.other]) || p == Pair(c[m'.other], c[m'.half]));
      assert m' in ms;
    }
  }

  /** Number of `true` flags. */
  function TrueCount(s: seq<bool>): (t: nat)
    ensures t <= |s|
  {
    if s == [] then 0 else TrueCount(s[..|s| - 1]) + (if s[|s| - 1] then 1 else 0)
  }

  /** Setting a flag that was `false` adds one to the count. */
  lemma {:induction false} TrueCountSet(s: seq<bool>, k: nat)
    requires k < |s| && !s[k]
    ensures TrueCount(s[k := true]) == TrueCount(s) + 1
  {
    var last := |s| - 1;
    if k == last {
      assert s[k := true][..last] == s[..last];
    } else {
      assert s[k := true][..last] == s[..last][k := true];
      TrueCountSet(s[..last], k);
    }
  }

  /** The inner loop of the scan as a function: the flags and the pairs after
      testing the outer candidate `i` against candidates `j` onwards. */
  function InnerScan(c: seq<Rect>, i: nat, j: nat, t: seq<bool>, ps: seq<Pair>): (r: (seq<bool>, seq<Pair>))
    requires Normalized(c) && |t| == |c| && i < |c| && j <= |c|
    ensures |r.0| == |t| && ps <= r.1
    ensures forall k | 0 <= k < |t| && t[k] :: r.0[k]
    decreases |c| - j
  {
    if j == |c| then (t, ps)
    else if t[j] || j == i || !Checks(c[i], c[j]) then InnerScan(c, i, j + 1, t, ps)
    else
      var o := Orient(c[i], c[j]);
      InnerScan(c, i, j + 1, t[i := true][j := true], ps + (if o.Some? then [o.value] else []))
  }

  /** The outer loop of the scan as a function: the pairs after the outer
      candidates `i` onwards, each skipped when already taken. */
  function OuterScan(c: seq<Rect>, i: nat, t: seq<bool>, ps: seq<Pair>): seq<Pair>
    requires Normalized(c) && |t| == |c| && i <= |c|
    decreases |c| - i
  {
    if i == |c| then ps
    else if t[i] then OuterScan(c, i + 1, t, ps)
    else
      var (t', ps') := InnerScan(c, i, 0, t, ps);
      OuterScan(c, i + 1, t', ps')
  }

  /** One step of the inner scan past a candidate that is taken, is `i`
      itself or fails a test. */
  lemma ScanSkip(c: seq<Rect>, i: nat, j: nat, t: seq<bool>, ps: seq<Pair>)
    requires Normalized(c) && |t| == |c| && i < |c| && j < |c|
    requires t[j] || j == i || !Checks(c[i], c[j])
    ensures InnerScan(c, i, j, t, ps) == InnerScan(c, i, j + 1, t, ps)
  {
  }

  /** One step of the inner scan that records the combination `(i, j)`. */
  lemma ScanTake(c: seq<Rect>, i: nat, j: nat, t: seq<bool>, t': seq<bool>, ps: seq<Pair>, ps': seq<Pair>)
    requires Normalized(c) && |t| == |c| && i < |c| && j < |c|
    requires !t[j] && j != i && Checks(c[i], c[j])
    requires t' == t[i := true][j := true]
    requires var o := Orient(c[i], c[j]); ps' == ps + (if o.Some? then [o.value] else [])
    ensures InnerScan(c, i, j, t, ps) == InnerScan(c, i, j + 1, t', ps')
  {
  }

  /** One step of the outer scan. */
  lemma OuterStep(c: seq<Rect>, i: nat, t: seq<bool>, ps: seq<Pair>)
    requires Normalized(c) && |t| == |c| && i < |c|
    ensures t[i] ==> OuterScan(c, i, t, ps) == OuterScan(c, i + 1, t, ps)
    ensures !t[i] ==> OuterScan(c, i, t, ps)
                      == OuterScan(c, i + 1, InnerScan(c, i, 0, t, ps).0, InnerScan(c, i, 0, t, ps).1)
  {
  }

  /** The pairs of the greedy scan, starting with nothing taken. */
  function ScanPairs(c: seq<Rect>): seq<Pair>
    requires Normalized(c)
  {
    OuterScan(c, 0, seq(|c|, _ => false), [])
  }

  /** `p` is the pair the role assignment gives to two different candidates
      that pass the reject tests. */
  ghost predicate FromCandidates(c: seq<Rect>, p: Pair)
    requires Normalized(c)
  {
    exists h, k | 0 <= h < |c| && 0 <= k < |c| && h != k :: Checks(c[h], c[k]) && Orient(c[h], c[k]) == Some(p)
  }

  /** Every pair the inner scan adds comes from the outer candidate and a
      different candidate that passes the tests with it. */
  lemma {:induction false} InnerScanSound(c: seq<Rect>, i: nat, j: nat, t: seq<bool>, ps: seq<Pair>, p: Pair)
    requires Normalized(c) && |t| == |c| && i < |c| && j <= |c|
    requires p in InnerScan(c, i, j, t, ps).1
    ensures p in ps || FromCandidates(c, p)
    decreases |c| - j
  {
    if j < |c| {
      if t[j] || j == i || !Checks(c[i], c[j]) {
        InnerScanSound(c, i, j + 1, t, ps, p);
      } else {
        var o := Orient(c[i], c[j]);
        var ps' := ps + (if o.Some? then [o.value] else []);
        InnerScanSound(c, i, j + 1, t[i := true][j := true], ps', p);
        if p !in ps && p in ps' {
          assert Checks(c[i], c[j]) && Orient(c[i], c[j]) == Some(p);
        }
      }
    }
  }

  /** Every pair the outer scan adds comes from two different candidates
      that pass the tests. */
  lemma {:induction false} OuterScanSound(c: seq<Rect>, i: nat, t: seq<bool>, ps: seq<Pair>, p: Pair)
    requires Normalized(c) && |t| == |c| && i <= |c|
    requires p in OuterScan(c, i, t, ps)
    ensures p in ps || FromCandidates(c, p)
    decreases |c| - i
  {
    if i < |c| {
      if t[i] {
        OuterScanSound(c, i + 1, t, ps, p);
      } else {
        var r := InnerScan(c, i, 0, t, ps);
        OuterScanSound(c, i + 1, r.0, r.1, p);
        if p in r.1 {
          InnerScanSound(c, i, 0, t, ps, p);
        }
      }
    }
  }

  /** Every pair of the scan reads left to right and comes from two different
      candidates that pass the reject tests. */
  lemma ScanPairsSound(c: seq<Rect>, p: Pair)
    requires Normalized(c) && p in ScanPairs(c)
    ensures Oriented(p) && FromCandidates(c, p)
  {
    OuterScanSound(c, 0, seq(|c|, _ => false), [], p);
  }

  /** Two candidates of equal tilt magnitude are never paired with each
      other, wherever they lie and whatever their widths. */
  lemma SameTiltNeverPaired(c: seq<Rect>, p: Pair)
    requires Normalized(c) && p in ScanPairs(c)
    ensures Abs(p.left.angle) != Abs(p.right.angle)
  {
    ScanPairsSound(c, p);
  }

  /** The order in which the scan takes indices: the outer index never
      decreases; under one outer index the inner index only increases; an
      index already taken is never chosen as the inner candidate, nor as the
      outer candidate of a later outer iteration. */
  ghost predicate Disciplined(ms: seq<Match>)
  {
    && (forall a, b | 0 <= a < b < |ms| :: ms[a].half <= ms[b].half)
    && (forall a, b | 0 <= a < b < |ms| && ms[a].half == ms[b].half :: ms[a].other < ms[b].other)
    && (forall a, b | 0 <= a < b < |ms| :: ms[b].other != ms[a].half && ms[b].other != ms[a].other)
    && (forall a, b | 0 <= a < b < |ms| :: ms[b].half != ms[a].other)
  }

  /** The taken flags are exactly the indices of the matches so far. */
  ghost predicate Mirrors(taken: seq<bool>, ms: seq<Match>)
  {
    forall k | 0 <= k < |taken| :: taken[k] <==> k in Used(ms)
  }

  /** Each match takes at least one fresh index, and the first takes two. */
  ghost predicate Counted(taken: seq<bool>, ms: seq<Match>)
  {
    (ms == [] && TrueCount(taken) == 0) || |ms| < TrueCount(taken)
  }

  /** What holds of the scan state while the outer index is `i`. */
  ghost predicate ScanState(c: seq<Rect>, taken: seq<bool>, ms: seq<Match>, pairs: seq<Pair>, i: nat)
    requires Normalized(c)
  {
    && |taken| == |c|
    && (forall m | m in ms :: ValidMatch(c, m) && m.half <= i)
    && Mirrors(taken, ms)
    && Disciplined(ms)
    && Counted(taken, ms)
    && pairs == Emitted(c, ms)
  }

  /** Every candidate before `i` that passes the tests with some other
      candidate has been taken, or that other one has. */
  ghost predicate MaximalBefore(c: seq<Rect>, taken: seq<bool>, i: nat)
    requires Normalized(c) && |taken| == |c|
  {
    forall i', j | 0 <= i' < i && i' < |c| && 0 <= j < |c| && i' != j && Checks(c[i'], c[j]) ::
      taken[i'] || taken[j]
  }

  /** Recording the match `(i, j)` and marking both indices keeps the scan
      state. */
  lemma RecordMatch(c: seq<Rect>, taken: seq<bool>, ms: seq<Match>, pairs: seq<Pair>, i: nat, j: nat)
    requires Normalized(c) && ScanState(c, taken, ms, pairs, i)
    requires i < |c| && j < |c| && i != j && !taken[j] && Checks(c[i], c[j])
    requires forall m | m in ms :: m.other != i
    requires forall a | 0 <= a < |ms| && ms[a].half == i :: ms[a].other < j
    ensures var o := Orient(c[i], c[j]);
      ScanState(c, taken[i := true][j := true], ms + [Match(i, j)],
                pairs + (if o.Some? then [o.value] else []), i)
  {
    var ms' := ms + [Match(i, j)];
    EmittedSnoc(c, ms, i, j);
    CountedStep(taken, ms, i, j);
    DisciplineStep(ms, i, j);
    MirrorStep(taken, ms, i, j);
    ValidSnoc(c, ms, i, j);
  }

  /** Appending a valid match under the current outer index keeps every
      match valid and no later than that index. */
  lemma ValidSnoc(c: seq<Rect>, ms: seq<Match>, i: nat, j: nat)
    requires Normalized(c) && (forall m | m in ms :: ValidMatch(c, m) && m.half <= i)
    requires ValidMatch(c, Match(i, j))
    ensures forall m | m in ms + [Match(i, j)] :: ValidMatch(c, m) && m.half <= i
  {
  }

  /** Appending a match appends its pair, if it has one, to the emitted pairs. */
  lemma EmittedSnoc(c: seq<Rect>, ms: seq<Match>, i: nat, j: nat)
    requires InRange(c, ms) && i < |c| && j < |c|
    ensures var o := Orient(c[i], c[j]);
      Emitted(c, ms + [Match(i, j)]) == Emitted(c, ms) + (if o.Some? then [o.value] else [])
  {
    assert (ms + [Match(i, j)])[..|ms|] == ms;
  }

  /** Marking `i` and a fresh `j` for a new match keeps each match worth at
      least one fresh index. */
  lemma CountedStep(taken: seq<bool>, ms: seq<Match>, i: nat, j: nat)
    requires Mirrors(taken, ms) && Counted(taken, ms)
    requires i < |taken| && j < |taken| && i != j && !taken[j]
    ensures Counted(taken[i := true][j := true], ms + [Match(i, j)])
  {
    assert taken[i] ==> ms != [];
    TakenCountStep(taken, i, j, taken[i]);
  }

  /** Appending a match whose inner index is fresh and whose outer index is
      the current one keeps the scan order. */
  lemma DisciplineStep(ms: seq<Match>, i: nat, j: nat)
    requires Disciplined(ms)
    requires forall m | m in ms :: m.half <= i && m.other != i && m.half != j && m.other != j
    requires forall a | 0 <= a < |ms| && ms[a].half == i :: ms[a].other < j
    ensures Disciplined(ms + [Match(i, j)])
  {
    var ms' := ms + [Match(i, j)];
    forall a, b | 0 <= a < b < |ms'|
      ensures ms'[a].half <= ms'[b].half
      ensures ms'[a].half == ms'[b].half ==> ms'[a].other < ms'[b].other
      ensures ms'[b].other != ms'[a].half && ms'[b].other != ms'[a].other
      ensures ms'[b].half != ms'[a].other
    {
      if b == |ms| {
        assert ms'[a] == ms[a] && ms[a] in ms;
      } else {
        assert ms'[a] == ms[a] && ms'[b] == ms[b];
      }
    }
  }

  /** Marking `i` and `j` keeps the flags equal to the indices of the matches. */
  lemma MirrorStep(taken: seq<bool>, ms: seq<Match>, i: nat, j: nat)
    requires Mirrors(taken, ms) && i < |taken| && j < |taken|
    ensures Mirrors(taken[i := true][j := true], ms + [Match(i, j)])
  {
    UsedSnoc(ms, Match(i, j));
  }

  /** What holds of the scan state while the outer index is `i`, not taken
      when its inner loop began, and the inner index is `j`. */
  ghost predicate InnerState(c: seq<Rect>, t: seq<bool>, ms: seq<Match>, pairs: seq<Pair>, i: nat, j: nat)
    requires Normalized(c)
  {
    && ScanState(c, t, ms, pairs, i)
    && i < |c|
    && MaximalBefore(c, t, i)
    && (forall m | m in ms :: m.other != i)
    && (forall a | 0 <= a < |ms| && ms[a].half == i :: ms[a].other < j)
    && (forall j' | 0 <= j' < j && j' < |c| && j' != i && Checks(c[i], c[j']) :: t[j'])
  }

  /** Passing over a candidate that is taken, is `i` itself or fails a test
      keeps the inner state. */
  lemma InnerSkip(c: seq<Rect>, t: seq<bool>, ms: seq<Match>, pairs: seq<Pair>, i: nat, j: nat)
    requires Normalized(c) && InnerState(c, t, ms, pairs, i, j) && j < |c|
    requires t[j] || j == i || !Checks(c[i], c[j])
    ensures InnerState(c, t, ms, pairs, i, j + 1)
  {
  }

  /** Recording the match `(i, j)`, emitting its pair if it has one and
      marking both indices keeps the inner state. */
  lemma InnerRecord(c: seq<Rect>, t: seq<bool>, t': seq<bool>, ms: seq<Match>, ms': seq<Match>,
                    pairs: seq<Pair>, pairs': seq<Pair>, i: nat, j: nat)
    requires Normalized(c) && InnerState(c, t, ms, pairs, i, j) && j < |c|
    requires !t[j] && j != i && Checks(c[i], c[j])
    requires t' == t[i := true][j := true] && ms' == ms + [Match(i, j)]
    requires var o := Orient(c[i], c[j]); pairs' == pairs + (if o.Some? then [o.value] else [])
    ensures InnerState(c, t', ms', pairs', i, j + 1)
  {
    RecordMatch(c, t, ms, pairs, i, j);
    MaximalGrows(c, t, t', i);
    forall a | 0 <= a < |ms'| && ms'[a].half == i
      ensures ms'[a].other < j + 1
    {
      if a < |ms| { assert ms'[a] == ms[a]; }
    }
  }

  /** One pass of the inner loop: tests the outer candidate `i` against
      candidate `j`. A taken `j`, `j` itself being `i`, or a failed reject
      test moves on; otherwise the role assignment may emit a pair, and `i`
      and `j` are marked taken whether or not it did. */
  method TestPartner(c: seq<Rect>, taken: array<bool>, i: nat, j: nat, pairs0: seq<Pair>, ghost ms0: seq<Match>)
    returns (pairs: seq<Pair>, ghost ms: seq<Match>)
    requires Normalized(c) && taken.Length == |c| && j < |c|
    requires InnerState(c, taken[..], ms0, pairs0, i, j)
    modifies taken
    ensures InnerState(c, taken[..], ms, pairs, i, j + 1)
    ensures InnerScan(c, i, j + 1, taken[..], pairs) == InnerScan(c, i, j, old(taken[..]), pairs0)
    ensures old(taken[j]) || j == i || !Checks(c[i], c[j]) ==> taken[..] == old(taken[..]) && pairs == pairs0
    ensures !old(taken[j]) && j != i && Checks(c[i], c[j]) ==>
      && taken[..] == old(taken[..])[i := true][j := true]
      && var o := Orient(c[i], c[j]); pairs == pairs0 + (if o.Some? then [o.value] else [])
  {
    pairs, ms := pairs0, ms0;
    var halfTarget := c[i];
    var possibleMatch := c[j];
    if taken[j] {
      InnerSkip(c, taken[..], ms, pairs, i, j);
      ScanSkip(c, i, j, taken[..], pairs);
      return;
    }
    if j == i {
      InnerSkip(c, taken[..], ms, pairs, i, j);
      ScanSkip(c, i, j, taken[..], pairs);
      return;
    }
    if Abs(Abs(halfTarget.angle) - Abs(possibleMatch.angle)) < 13.0 {
      InnerSkip(c, taken[..], ms, pairs, i, j);
      ScanSkip(c, i, j, taken[..], pairs);
      return;
    }
    var width1 := halfTarget.width;
    var width2 := possibleMatch.width;
    if Abs(width1 - width2) > 50.0 {
      InnerSkip(c, taken[..], ms, pairs, i, j);
      ScanSkip(c, i, j, taken[..], pairs);
      return;
    }
    var distToWidthRatio := SpacingRatio(halfTarget, possibleMatch);
    if distToWidthRatio > 6.0 || distToWidthRatio < 4.0 {
      InnerSkip(c, taken[..], ms, pairs, i, j);
      ScanSkip(c, i, j, taken[..], pairs);
      return;
    }
    ghost var takenBefore := taken[..];
    var posDif := CenterX(halfTarget) - CenterX(possibleMatch);
    if posDif < 0.0 && halfTarget.angle < possibleMatch.angle {
      pairs := pairs + [Pair(halfTarget, possibleMatch)];
    } else if posDif > 0.0 && halfTarget.angle > possibleMatch.angle {
      pairs := pairs + [Pair(possibleMatch, halfTarget)];
    }
    taken[i] := true;
    taken[j] := true;
    assert taken[..] == takenBefore[i := true][j := true];
    InnerRecord(c, takenBefore, taken[..], ms, ms + [Match(i, j)], pairs0, pairs, i, j);
    ScanTake(c, i, j, takenBefore, taken[..], pairs0, pairs);
    ms := ms + [Match(i, j)];
  }

  /** The inner loop of the scan for an outer index `i` not yet taken: tests
      `i` against every candidate in turn and records every combination that
      passes the tests. */
  method ScanPartners(c: seq<Rect>, taken: array<bool>, i: nat, pairs0: seq<Pair>, ghost ms0: seq<Match>)
    returns (pairs: seq<Pair>, ghost ms: seq<Match>)
    requires Normalized(c) && taken.Length == |c| && i < |c| && !taken[i]
    requires ScanState(c, taken[..], ms0, pairs0, i)
    requires MaximalBefore(c, taken[..], i)
    modifies taken
    ensures ScanState(c, taken[..], ms, pairs, i)
    ensures MaximalBefore(c, taken[..], i + 1)
    ensures (taken[..], pairs) == InnerScan(c, i, 0, old(taken[..]), pairs0)
    ensures forall k | 0 <= k < |c| && old(taken[k]) :: taken[k]
    ensures forall j | 0 <= j < |c| && j != i && Checks(c[i], c[j]) :: taken[j]
  {
    pairs, ms := pairs0, ms0;
    NotUsed(ms, i);
    for j := 0 to |c|
      invariant InnerState(c, taken[..], ms, pairs, i, j)
      invariant InnerScan(c, i, j, taken[..], pairs) == InnerScan(c, i, 0, old(taken[..]), pairs0)
    {
      pairs, ms := TestPartner(c, taken, i, j, pairs, ms);
    }
    InnerDone(c, taken[..], ms, pairs, i);
  }

  /** Once every partner has been tested, each one that passes the tests
      with `i` is taken, and `i` is covered. */
  lemma InnerDone(c: seq<Rect>, t: seq<bool>, ms: seq<Match>, pairs: seq<Pair>, i: nat)
    requires Normalized(c) && InnerState(c, t, ms, pairs, i, |c|)
    ensures ScanState(c, t, ms, pairs, i)
    ensures MaximalBefore(c, t, i + 1)
    ensures forall j | 0 <= j < |c| && j != i && Checks(c[i], c[j]) :: t[j]
  {
    MaximalExtend(c, t, i);
  }

  /** An index that is not taken occurs in no match. */
  lemma NotUsed(ms: seq<Match>, k: nat)
    requires k !in Used(ms)
    ensures forall m | m in ms :: m.half != k && m.other != k
  {
  }

  /** Once every partner of `i` that passes the tests is taken, `i` is covered
      as well. */
  lemma MaximalExtend(c: seq<Rect>, t: seq<bool>, i: nat)
    requires Normalized(c) && |t| == |c| && i < |c|
    requires MaximalBefore(c, t, i)
    requires forall j | 0 <= j < |c| && j != i && Checks(c[i], c[j]) :: t[j]
    ensures MaximalBefore(c, t, i + 1)
  {
  }

  /** Taking more indices keeps every earlier candidate covered. */
  lemma MaximalGrows(c: seq<Rect>, t: seq<bool>, t': seq<bool>, i: nat)
    requires Normalized(c) && |t| == |c| && |t'| == |c|
    requires forall k | 0 <= k < |c| && t[k] :: t'[k]
    requires MaximalBefore(c, t, i)
    ensures MaximalBefore(c, t', i)
  {
  }

  /** What the greedy scan promises about the combinations `ms` it recorded,
      in scan order:
      - every match names two different candidates that pass the tests;
      - the outer index never decreases, and under one outer index the inner
        index only increases;
      - an index already taken is never chosen as the inner candidate, and
        never becomes the outer candidate of a later outer iteration (it may
        be matched several times under its own outer iteration);
      - the scan is maximal: of any two candidates that pass the tests, at
        least one ends up taken;
      - there are fewer matches than candidates, and none for no candidates. */
  ghost predicate GreedyScan(c: seq<Rect>, ms: seq<Match>)
    requires Normalized(c)
  {
    && (forall m | m in ms :: ValidMatch(c, m))
    && Disciplined(ms)
    && (forall i, j | 0 <= i < |c| && 0 <= j < |c| && i != j && Checks(c[i], c[j]) ::
          i in Used(ms) || j in Used(ms))
    && (|c| == 0 ==> ms == [])
    && (|c| > 0 ==> |ms| < |c|)
  }

  /** What holds of the scan state before the outer iteration `i`: the state
      of the inner loops so far, and the rest of the scan from here yields the
      pairs of the whole scan. */
  ghost predicate OuterState(c: seq<Rect>, t: seq<bool>, ms: seq<Match>, pairs: seq<Pair>, i: nat)
    requires Normalized(c)
  {
    && ScanState(c, t, ms, pairs, i)
    && i <= |c|
    && (forall m | m in ms :: m.half < i)
    && MaximalBefore(c, t, i)
    && OuterScan(c, i, t, pairs) == ScanPairs(c)
  }

  /** With nothing taken and nothing recorded, the scan is at its start. */
  lemma ScanStart(c: seq<Rect>, t: seq<bool>)
    requires Normalized(c) && t == seq(|c|, _ => false)
    ensures OuterState(c, t, [], [], 0)
  {
    AllFalseCount(|c|);
  }

  /** At the end of the scan its recorded matches meet what the greedy scan
      promises, and its pairs are those of the functional scan. */
  lemma ScanDone(c: seq<Rect>, t: seq<bool>, ms: seq<Match>, pairs: seq<Pair>)
    requires Normalized(c) && OuterState(c, t, ms, pairs, |c|)
    ensures GreedyScan(c, ms)
    ensures InRange(c, ms) && pairs == Emitted(c, ms)
    ensures pairs == ScanPairs(c)
  {
    assert TrueCount(t) <= |c|;
  }

  /** One outer iteration of the scan: an outer candidate already taken is
      skipped, any other one is tested against every candidate. */
  method ScanOuter(c: seq<Rect>, taken: array<bool>, i: nat, pairs0: seq<Pair>, ghost ms0: seq<Match>)
    returns (pairs: seq<Pair>, ghost ms: seq<Match>)
    requires Normalized(c) && taken.Length == |c| && i < |c|
    requires OuterState(c, taken[..], ms0, pairs0, i)
    modifies taken
    ensures OuterState(c, taken[..], ms, pairs, i + 1)
    ensures old(taken[i]) ==> taken[..] == old(taken[..]) && pairs == pairs0
    ensures !old(taken[i]) ==> (taken[..], pairs) == InnerScan(c, i, 0, old(taken[..]), pairs0)
  {
    pairs, ms := pairs0, ms0;
    OuterStep(c, i, taken[..], pairs);
    if taken[i] {
      return;
    }
    pairs, ms := ScanPartners(c, taken, i, pairs, ms);
  }

  /** The greedy scan over a list of candidates, as the pipeline runs it when
      there is not exactly one candidate. `matches` records every combination
      that passed the reject tests; the pairs are those emitted for them, in
      order, and agree with the functional definition of the scan. */
  method GreedyPairs(c: seq<Rect>) returns (pairs: seq<Pair>, ghost matches: seq<Match>)
    requires Normalized(c)
    ensures GreedyScan(c, matches)
    ensures InRange(c, matches) && pairs == Emitted(c, matches)
    ensures pairs == ScanPairs(c)
  {
    var n := |c|;
    var taken := new bool[n](_ => false);
    pairs, matches := [], [];
    assert taken[..] == seq(n, _ => false);
    ScanStart(c, taken[..]);
    for i := 0 to n
      invariant OuterState(c, taken[..], matches, pairs, i)
    {
      pairs, matches := ScanOuter(c, taken, i, pairs, matches);
    }
    ScanDone(c, taken[..], matches, pairs);
  }

  /** The count of an all-false flag array is zero. */
  lemma {:induction false} AllFalseCount(n: nat)
    ensures TrueCount(seq(n, _ => false)) == 0
  {
    if n > 0 {
      assert seq(n, _ => false)[..n - 1] == seq(n - 1, _ => false);
      AllFalseCount(n - 1);
    }
  }

  /** Marking `i` and a not-yet-taken `j` adds two to the count when `i` was
      not taken and one when it was. */
  lemma TakenCountStep(s: seq<bool>, i: nat, j: nat, wasTaken: bool)
    requires i < |s| && j < |s| && i != j && !s[j] && s[i] == wasTaken
    ensures TrueCount(s[i := true][j := true]) == TrueCount(s) + (if wasTaken then 1 else 2)
  {
    if wasTaken {
      assert s[i := true] == s;
    } else {
      TrueCountSet(s, i);
    }
    TrueCountSet(s[i := true], j);
  }

  /** A new match adds its two indices to the taken ones. */
  lemma UsedSnoc(ms: seq<Match>, m: Match)
    ensures Used(ms + [m]) == Used(ms) + {m.half, m.other}
  {
  }

  // ---------------------------------------------------------------------
  // The pairing stage

  /** The pairs of a frame: a lone candidate gets its phantom partner, any
      other number of candidates goes through the greedy scan. */
  function PairsOf(c: seq<Rect>): seq<Pair>
    requires Normalized(c)
  {
    if |c| == 1 then [LonePair(c[0])] else ScanPairs(c)
  }

  /** Every pair of a frame is the lone candidate's pair or reads left to
      right and comes from two different candidates that pass the tests. */
  lemma PairingSound(c: seq<Rect>, p: Pair)
    requires Normalized(c) && p in PairsOf(c)
    ensures if |c| == 1 then p == LonePair(c[0]) else Oriented(p) && FromCandidates(c, p)
  {
    if |c| != 1 {
      ScanPairsSound(c, p);
    }
  }

  /** The pairing stage as the pipeline runs it on the candidates of a frame. */
  method PairCandidates(c: seq<Rect>) returns (pairs: seq<Pair>)
    requires Normalized(c)
    ensures pairs == PairsOf(c)
    ensures |c| == 0 ==> pairs == []
    ensures |c| == 1 ==> pairs == [LonePair(c[0])]
    ensures |c| >= 2 ==> |pairs| < |c|
  {
    if |c| == 1 {
      pairs := [LonePair(c[0])];
    } else {
      ghost var matches;
      pairs, matches := GreedyPairs(c);
    }
  }
}
