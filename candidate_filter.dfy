/**
 * The candidate filter: every contour is kept or dropped on its area, the
 * tilt of its rotated rectangle and the height/width ratio of the normalised
 * rectangle; survivors are collected in contour order.
 */
module CandidateFilter {
  import opened Geometry
  import opened Thresholds

  /** A contour reaches the ratio test: its area is not below the minimum
      and its tilt lies in one of the windows. */
  predicate PassesAreaAndTilt(cfg: Config, c: Contour)
  {
    !(c.area < cfg.contourAreaMin as real) && !TiltRejected(cfg, c.rect.angle)
  }

  /** A contour the model covers: the fitted rectangle has no negative side,
      and a rectangle with both sides zero, whose ratio would be 0/0, never
      reaches the ratio test. */
  predicate WellFormed(cfg: Config, c: Contour)
  {
    && c.rect.sizeW >= 0.0 && c.rect.sizeH >= 0.0
    && (PassesAreaAndTilt(cfg, c) ==> c.rect.sizeW > 0.0 || c.rect.sizeH > 0.0)
  }

  predicate AllWellFormed(cfg: Config, cs: seq<Contour>)
  {
    forall k | 0 <= k < |cs| :: WellFormed(cfg, cs[k])
  }

  /** The tilt test as the pipeline writes it: a rectangle is dropped when its
      angle lies outside the negative window and outside the positive one. */
  predicate TiltRejected(cfg: Config, angle: real)
  {
    (angle < cfg.tNegLow as real || angle > cfg.tNegUp as real)
    && (angle < cfg.tPosLow as real || angle > cfg.tPosUp as real)
  }

  /** The ratio test: dropped when height/width leaves [ratioMin, ratioMax].
      A zero width makes the ratio positive infinity, above any maximum. */
  predicate RatioRejected(cfg: Config, b: Rect)
    requires 0.0 <= b.width && 0.0 < b.height
  {
    if b.width == 0.0 then true
    else
      var ratio := b.height / b.width;
      ratio > cfg.ratioMax || ratio < cfg.ratioMin
  }

  /** A contour survives the three tests, taken in the pipeline's order. */
  predicate Accepts(cfg: Config, c: Contour)
    requires WellFormed(cfg, c)
  {
    PassesAreaAndTilt(cfg, c) && !RatioRejected(cfg, Normalize(c.rect))
  }

  /** Closed interval membership. */
  predicate Within(x: real, lo: real, hi: real) { lo <= x <= hi }

  /** A contour is a candidate exactly when its area reaches the minimum, its
      tilt lies in one of the two inclusive windows and its ratio lies in the
      inclusive ratio window. */
  lemma AcceptsIff(cfg: Config, c: Contour)
    requires WellFormed(cfg, c)
    ensures Accepts(cfg, c) <==>
      && c.area >= cfg.contourAreaMin as real
      && (|| Within(c.rect.angle, cfg.tNegLow as real, cfg.tNegUp as real)
          || Within(c.rect.angle, cfg.tPosLow as real, cfg.tPosUp as real))
      && Normalize(c.rect).width > 0.0
      && Within(Normalize(c.rect).height / Normalize(c.rect).width, cfg.ratioMin, cfg.ratioMax)
  {
  }

  /** The candidates of a list of contours, in contour order: the normalised
      rectangle of every accepted contour. */
  function Candidates(cs: seq<Contour>, cfg: Config): (r: seq<Rect>)
    requires AllWellFormed(cfg, cs)
    ensures |r| <= |cs|
    ensures forall k | 0 <= k < |r| :: 0.0 < r[k].width <= r[k].height
  {
    if cs == [] then []
    else
      var rest := Candidates(cs[..|cs| - 1], cfg);
      var last := cs[|cs| - 1];
      if Accepts(cfg, last) then rest + [Normalize(last.rect)] else rest
  }

  /** The filtering loop: walks the contours in order and appends the
      normalised rectangle of every contour that passes the area, tilt and
      ratio tests. */
  method FilterContours(contours: seq<Contour>, cfg: Config) returns (cands: seq<Rect>)
    requires AllWellFormed(cfg, contours)
    ensures cands == Candidates(contours, cfg)
  {
    cands := [];
    for i := 0 to |contours|
      invariant cands == Candidates(contours[..i], cfg)
    {
      assert contours[..i + 1][..i] == contours[..i];
      var contour := contours[i];
      if contour.area < cfg.contourAreaMin as real {
        continue;
      }
      var rectangle := contour.rect;
      if (rectangle.angle < cfg.tNegLow as real || rectangle.angle > cfg.tNegUp as real)
        && (rectangle.angle < cfg.tPosLow as real || rectangle.angle > cfg.tPosUp as real)
      {
        continue;
      }
      var betRect := Normalize(rectangle);
      if betRect.width == 0.0 {
        // the ratio is positive infinity, above ratioMax
        continue;
      }
      var ratio := betRect.height / betRect.width;
      if ratio > cfg.ratioMax || ratio < cfg.ratioMin {
        continue;
      }
      cands := cands + [betRect];
    }
    assert contours[..|contours|] == contours;
  }

  /** A rectangle is a candidate exactly when some accepted contour produced it. */
  lemma {:induction false} CandidatesMembership(cs: seq<Contour>, cfg: Config, x: Rect)
    requires AllWellFormed(cfg, cs)
    ensures x in Candidates(cs, cfg) <==>
      exists k | 0 <= k < |cs| :: Accepts(cfg, cs[k]) && x == Normalize(cs[k].rect)
  {
    if cs != [] {
      var pre := cs[..|cs| - 1];
      CandidatesMembership(pre, cfg, x);
      if x in Candidates(cs, cfg) && x !in Candidates(pre, cfg) {
        assert Accepts(cfg, cs[|cs| - 1]) && x == Normalize(cs[|cs| - 1].rect);
      }
      if exists k | 0 <= k < |cs| :: Accepts(cfg, cs[k]) && x == Normalize(cs[k].rect) {
        var k :| 0 <= k < |cs| && Accepts(cfg, cs[k]) && x == Normalize(cs[k].rect);
        if k < |cs| - 1 {
          assert pre[k] == cs[k];
        }
      }
    }
  }

  /** `a` is `b` with some elements removed, the rest in the same order. */
  predicate Subsequence<T(==)>(a: seq<T>, b: seq<T>)
    decreases |b|
  {
    if a == [] then true
    else if b == [] then false
    else
      || (a[|a| - 1] == b[|b| - 1] && Subsequence(a[..|a| - 1], b[..|b| - 1]))
      || Subsequence(a, b[..|b| - 1])
  }

  /** A subsequence is never longer than the sequence it is taken from. */
  lemma {:induction false} SubsequenceLength<T>(a: seq<T>, b: seq<T>)
    requires Subsequence(a, b)
    ensures |a| <= |b|
    decreases |b|
  {
    if a != [] {
      if a[|a| - 1] == b[|b| - 1] && Subsequence(a[..|a| - 1], b[..|b| - 1]) {
        SubsequenceLength(a[..|a| - 1], b[..|b| - 1]);
      } else {
        SubsequenceLength(a, b[..|b| - 1]);
      }
    }
  }

  /** The normalised rectangle of every contour, in contour order. */
  function NormalizedAll(cs: seq<Contour>): (r: seq<Rect>)
    ensures |r| == |cs|
    ensures forall k | 0 <= k < |cs| :: r[k] == Normalize(cs[k].rect)
  {
    if cs == [] then [] else NormalizedAll(cs[..|cs| - 1]) + [Normalize(cs[|cs| - 1].rect)]
  }

  /** Survivors keep contour order: the candidates are a subsequence of the
      normalised rectangles of all contours. */
  lemma {:induction false} CandidatesKeepOrder(cs: seq<Contour>, cfg: Config)
    requires AllWellFormed(cfg, cs)
    ensures Subsequence(Candidates(cs, cfg), NormalizedAll(cs))
  {
    if cs != [] {
      var pre := cs[..|cs| - 1];
      CandidatesKeepOrder(pre, cfg);
      assert NormalizedAll(cs)[..|cs| - 1] == NormalizedAll(pre);
      SubsequenceExtend(Candidates(pre, cfg), NormalizedAll(pre), Normalize(cs[|cs| - 1].rect));
    }
  }

  /** Appending the same element to both sides, or only to the longer one,
      keeps a subsequence a subsequence. */
  lemma SubsequenceExtend<T>(a: seq<T>, b: seq<T>, x: T)
    requires Subsequence(a, b)
    ensures Subsequence(a + [x], b + [x])
    ensures Subsequence(a, b + [x])
  {
    assert (a + [x])[..|a|] == a;
    assert (b + [x])[..|b|] == b;
  }

  /** `tight` accepts no more than `loose`: a larger minimum area, tilt windows
      and a ratio window inside the looser ones. */
  predicate Stricter(tight: Config, loose: Config)
  {
    && tight.contourAreaMin >= loose.contourAreaMin
    && loose.tNegLow <= tight.tNegLow && tight.tNegUp <= loose.tNegUp
    && loose.tPosLow <= tight.tPosLow && tight.tPosUp <= loose.tPosUp
    && loose.ratioMin <= tight.ratioMin && tight.ratioMax <= loose.ratioMax
  }

  /** Raising the area minimum or narrowing a window drops candidates and never
      adds or reorders any: the stricter candidate list is a subsequence of the
      looser one, hence no longer. */
  lemma {:induction false} CandidatesMonotone(cs: seq<Contour>, tight: Config, loose: Config)
    requires AllWellFormed(loose, cs)
    requires Stricter(tight, loose)
    ensures AllWellFormed(tight, cs)
    ensures Subsequence(Candidates(cs, tight), Candidates(cs, loose))
    ensures |Candidates(cs, tight)| <= |Candidates(cs, loose)|
  {
    if cs != [] {
      var pre := cs[..|cs| - 1];
      CandidatesMonotone(pre, tight, loose);
      SubsequenceExtend(Candidates(pre, tight), Candidates(pre, loose), Normalize(cs[|cs| - 1].rect));
    }
    SubsequenceLength(Candidates(cs, tight), Candidates(cs, loose));
  }
}
