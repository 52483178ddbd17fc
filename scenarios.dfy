/** Concrete frames worked through the model: the pairing of two strips at
    two spacings, a frame in which one candidate ends up in two pairs, the
    lone-candidate phantom on either side, a whole frame under the default
    thresholds, and the choice of the most negative target angle. */
module Scenarios {
  import opened Wrappers
  import opened Geometry
  import opened Thresholds
  import opened CandidateFilter
  import opened Pairing
  import opened Heading
  import opened Pipeline

  /** A 40 by 100 strip centred at `x` with the given tilt. */
  function Strip(x: real, angle: real): Rect
  {
    Normalize(RotatedRect(x, 120.0, 40.0, 100.0, angle))
  }

  /** Two strips tilted -70 and 20 degrees, 200 pixels apart with the more
      negative one on the left, make exactly one pair, that one on the left. */
  lemma WellSpacedStripsPair()
    ensures ScanPairs([Strip(100.0, -70.0), Strip(300.0, 20.0)])
            == [Pair(Strip(100.0, -70.0), Strip(300.0, 20.0))]
  {
    var a, b := Strip(100.0, -70.0), Strip(300.0, 20.0);
    var c := [a, b];
    assert SpacingRatio(a, b) == 5.0;
    assert Checks(a, b);
    assert Orient(a, b) == Some(Pair(a, b));
    var f := seq(2, _ => false);
    var t := f[0 := true][1 := true];
    assert t == [true, true];
    assert InnerScan(c, 0, 0, f, []) == InnerScan(c, 0, 1, f, []);
    ScanTake(c, 0, 1, f, t, [], [Pair(a, b)]);
    assert OuterScan(c, 0, f, []) == OuterScan(c, 1, t, [Pair(a, b)]);
  }

  /** The same strips only 120 pixels apart are three widths apart, below the
      lower spacing bound of four, and make no pair. */
  lemma CloseStripsDoNotPair()
    ensures ScanPairs([Strip(100.0, -70.0), Strip(220.0, 20.0)]) == []
  {
    var a, b := Strip(100.0, -70.0), Strip(220.0, 20.0);
    var c := [a, b];
    assert SpacingRatio(a, b) == 3.0;
    assert SpacingRatio(b, a) == 3.0;
    var f := seq(2, _ => false);
    assert !Checks(a, b) && !Checks(b, a);
    assert InnerScan(c, 0, 0, f, []) == InnerScan(c, 0, 1, f, []) == InnerScan(c, 0, 2, f, []);
    assert InnerScan(c, 1, 0, f, []) == InnerScan(c, 1, 1, f, []) == InnerScan(c, 1, 2, f, []);
    assert OuterScan(c, 0, f, []) == OuterScan(c, 1, f, []) == OuterScan(c, 2, f, []);
  }

  /** The outer candidate stays available to later partners of its own inner
      loop: here the middle strip pairs with the strip to its right and then
      with the strip to its left, so it appears in two pairs. */
  lemma CandidateInTwoPairs()
    ensures ScanPairs([Strip(0.0, -50.0), Strip(200.0, 20.0), Strip(-200.0, -75.0)])
            == [Pair(Strip(0.0, -50.0), Strip(200.0, 20.0)), Pair(Strip(-200.0, -75.0), Strip(0.0, -50.0))]
  {
    var a, b, d := Strip(0.0, -50.0), Strip(200.0, 20.0), Strip(-200.0, -75.0);
    var c := [a, b, d];
    assert SpacingRatio(a, b) == 5.0 && SpacingRatio(a, d) == 5.0;
    assert Checks(a, b) && Checks(a, d);
    assert Orient(a, b) == Some(Pair(a, b)) && Orient(a, d) == Some(Pair(d, a));
    var f := seq(3, _ => false);
    var t := f[0 := true][1 := true];
    var u := t[0 := true][2 := true];
    assert t == [true, true, false] && u == [true, true, true];
    assert InnerScan(c, 0, 0, f, []) == InnerScan(c, 0, 1, f, []);
    ScanTake(c, 0, 1, f, t, [], [Pair(a, b)]);
    ScanTake(c, 0, 2, t, u, [Pair(a, b)], [Pair(a, b), Pair(d, a)]);
    assert OuterScan(c, 0, f, []) == OuterScan(c, 1, u, [Pair(a, b), Pair(d, a)]);
    assert OuterScan(c, 1, u, [Pair(a, b), Pair(d, a)]) == OuterScan(c, 2, u, [Pair(a, b), Pair(d, a)]);
  }

  /** A lone strip tilted -50 degrees gets its phantom 5.5 widths to its
      right; one tilted 10 degrees gets it 5.5 widths to its left. */
  lemma LonePhantomSides()
    ensures CenterX(LonePair(Strip(100.0, -50.0)).right) == 100.0 + 5.5 * 40.0
    ensures CenterX(LonePair(Strip(100.0, 10.0)).right) == 100.0 - 5.5 * 40.0
  {
  }

  /** A contour of area 4000 whose rectangle is the 40 by 100 strip at `x`. */
  function StripContour(x: real, angle: real): Contour
  {
    Contour(4000.0, RotatedRect(x, 120.0, 40.0, 100.0, angle))
  }

  /** Under the default thresholds a strip tilted 20 degrees lies in neither
      tilt window, so of two strips tilted -70 and 20 degrees only the first
      survives; it is then a lone candidate, gets a phantom partner, and a
      target is found. */
  lemma DefaultFrameWithOneTiltRejected()
    ensures Candidates([StripContour(100.0, -70.0), StripContour(220.0, 20.0)], Default)
            == [Strip(100.0, -70.0)]
    ensures FramePairs(Default, [StripContour(100.0, -70.0), StripContour(220.0, 20.0)])
            == [LonePair(Strip(100.0, -70.0))]
  {
    var cs := [StripContour(100.0, -70.0), StripContour(220.0, 20.0)];
    assert cs[..1] == [StripContour(100.0, -70.0)];
    assert cs[..1][..0] == [];
    assert Accepts(Default, cs[0]);
    assert !Accepts(Default, cs[1]);
  }

  /** Two targets whose centres are 10 degrees left of the axis and 2 degrees
      right of it: the heading turns by -10, toward the target further from
      the axis. */
  lemma SignedSmallestAngle()
    ensures var ps := [Pair(Strip(0.0, -70.0), Strip(144.0, 50.0)), Pair(Strip(200.0, -70.0), Strip(289.6, 50.0))];
      && Offsets(Default, ps) == [-10.0, 2.0]
      && Smallest(Offsets(Default, ps)) == Some(-10.0)
  {
    var p, q := Pair(Strip(0.0, -70.0), Strip(144.0, 50.0)), Pair(Strip(200.0, -70.0), Strip(289.6, 50.0));
    assert PairCenterX(p) == 72.0 && PairCenterX(q) == 244.8;
    assert PairOffset(Default, p) == -10.0;
    assert PairOffset(Default, q) == 2.0;
    assert [p, q][..1] == [p];
    var os := Offsets(Default, [p, q]);
    assert os == [-10.0, 2.0];
    assert os[..1] == [-10.0] && os[..1][..0] == [];
  }

  /** A one-pixel speck of area zero is dropped at the area test, and a sliver
      of zero width that passes the area and tilt tests is dropped at the
      ratio test, its ratio being infinite: a frame holding both is covered
      and has no candidates. */
  lemma DegenerateContoursDropped()
    ensures var cs := [Contour(0.0, RotatedRect(10.0, 10.0, 0.0, 0.0, 0.0)),
                       Contour(100.0, RotatedRect(50.0, 60.0, 0.0, 50.0, -30.0))];
      && AllWellFormed(Default, cs)
      && Candidates(cs, Default) == []
  {
    var cs := [Contour(0.0, RotatedRect(10.0, 10.0, 0.0, 0.0, 0.0)),
               Contour(100.0, RotatedRect(50.0, 60.0, 0.0, 50.0, -30.0))];
    assert !Accepts(Default, cs[0]) && !Accepts(Default, cs[1]);
    assert cs[..1][..0] == [];
    assert cs[..1] == [cs[0]];
  }
}
