/** The heading estimator: maps each pair's centre to an angle off the camera
    axis and keeps the smallest of those angles. */
module Heading {
  import opened Wrappers
  import opened Geometry
  import opened Thresholds

  /** The angle, in degrees, between the camera axis and a point `centerX`
      pixels from the left edge of the frame: the offset from the frame
      centre as a fraction of the frame width, times half the field of view.
      Negative means left of centre. */
  function AngleOffset(cfg: Config, centerX: real): real
    requires Usable(cfg)
  {
    var imageCenterx := cfg.width / 2.0;
    var diff := centerX - imageCenterx;
    (diff / cfg.width) * cfg.fov / 2.0
  }

  /** With a positive field of view the angle is negative exactly left of
      the centre column and zero exactly on it. */
  lemma AngleOffsetSign(cfg: Config, x: real)
    requires Usable(cfg) && cfg.fov > 0.0
    ensures AngleOffset(cfg, x) < 0.0 <==> x < cfg.width / 2.0
    ensures AngleOffset(cfg, x) == 0.0 <==> x == cfg.width / 2.0
  {
    var q := (x - cfg.width / 2.0) / cfg.width;
    assert q * cfg.width == x - cfg.width / 2.0;
    assert q < 0.0 <==> x < cfg.width / 2.0;
    assert q == 0.0 <==> x == cfg.width / 2.0;
    assert AngleOffset(cfg, x) == q * cfg.fov / 2.0;
    if q < 0.0 {
      assert q * cfg.fov < 0.0;
    } else if q > 0.0 {
      assert q * cfg.fov > 0.0;
    }
  }

  /** A point inside the frame is at most a quarter of the field of view off
      the axis. */
  lemma AngleOffsetBounded(cfg: Config, x: real)
    requires Usable(cfg) && cfg.fov >= 0.0 && 0.0 <= x <= cfg.width
    ensures -cfg.fov / 4.0 <= AngleOffset(cfg, x) <= cfg.fov / 4.0
  {
    var q := (x - cfg.width / 2.0) / cfg.width;
    assert -0.5 <= q <= 0.5 by {
      assert q * cfg.width == x - cfg.width / 2.0;
    }
    assert AngleOffset(cfg, x) == q * cfg.fov / 2.0;
    assert -0.5 * cfg.fov <= q * cfg.fov <= 0.5 * cfg.fov by {
      assert (q + 0.5) * cfg.fov >= 0.0;
      assert (0.5 - q) * cfg.fov >= 0.0;
    }
  }

  /** Further right never means a smaller angle. */
  lemma AngleOffsetMonotone(cfg: Config, x: real, y: real)
    requires Usable(cfg) && cfg.fov >= 0.0 && x <= y
    ensures AngleOffset(cfg, x) <= AngleOffset(cfg, y)
  {
    var p := (x - cfg.width / 2.0) / cfg.width;
    var q := (y - cfg.width / 2.0) / cfg.width;
    assert p <= q by {
      assert (q - p) * cfg.width == y - x;
    }
    assert (q - p) * cfg.fov >= 0.0;
  }

  /** Conversely, with a positive field of view a smaller or equal angle
      means a point no further right. */
  lemma AngleOffsetReflects(cfg: Config, x: real, y: real)
    requires Usable(cfg) && cfg.fov > 0.0
    requires AngleOffset(cfg, x) <= AngleOffset(cfg, y)
    ensures x <= y
  {
    var p := (x - cfg.width / 2.0) / cfg.width;
    var q := (y - cfg.width / 2.0) / cfg.width;
    assert p * cfg.fov <= q * cfg.fov;
    assert (q - p) * cfg.fov >= 0.0;
    assert q - p >= 0.0;
    assert (q - p) * cfg.width == y - x;
  }

  /** With the default 432-pixel frame and 60-degree field of view, the
      centre column is on the axis and the edges are 15 degrees off it. */
  lemma DefaultAngles()
    ensures AngleOffset(Default, 216.0) == 0.0
    ensures AngleOffset(Default, 432.0) == 15.0
    ensures AngleOffset(Default, 0.0) == -15.0
  {
  }

  /** The angle to the centre of a target. */
  function PairOffset(cfg: Config, p: Pair): real
    requires Usable(cfg)
  {
    AngleOffset(cfg, PairCenterX(p))
  }

  /** The angles to the centres of the targets, in order. */
  function Offsets(cfg: Config, ps: seq<Pair>): (os: seq<real>)
    requires Usable(cfg)
    ensures |os| == |ps|
    ensures forall k | 0 <= k < |ps| :: os[k] == PairOffset(cfg, ps[k])
  {
    if ps == [] then [] else Offsets(cfg, ps[..|ps| - 1]) + [PairOffset(cfg, ps[|ps| - 1])]
  }

  /** The smallest of some angles, none when there are none. A later angle
      replaces the current one only when it is strictly smaller. */
  function Smallest(xs: seq<real>): (r: Option<real>)
    ensures r.None? <==> xs == []
    ensures r.Some? ==> r.value in xs
    ensures r.Some? ==> forall k | 0 <= k < |xs| :: r.value <= xs[k]
  {
    if xs == [] then None
    else
      var m := Smallest(xs[..|xs| - 1]);
      var x := xs[|xs| - 1];
      if m.None? || x < m.value then Some(x) else m
  }

  /** The smallest signed angle over the pairs: the most negative one, that
      is the leftmost target, not the one nearest the axis. */
  function MinOffset(cfg: Config, ps: seq<Pair>): real
    requires Usable(cfg) && ps != []
  {
    Smallest(Offsets(cfg, ps)).value
  }

  /** The smallest angle is the angle of one of the pairs and no pair has a
      smaller one. */
  lemma MinOffsetIsLeast(cfg: Config, ps: seq<Pair>)
    requires Usable(cfg) && ps != []
    ensures exists k | 0 <= k < |ps| :: MinOffset(cfg, ps) == PairOffset(cfg, ps[k])
    ensures forall k | 0 <= k < |ps| :: MinOffset(cfg, ps) <= PairOffset(cfg, ps[k])
  {
    var os := Offsets(cfg, ps);
    var k :| 0 <= k < |os| && os[k] == Smallest(os).value;
    assert MinOffset(cfg, ps) == PairOffset(cfg, ps[k]);
  }

  /** Pair `k` has the leftmost midpoint of all the pairs. */
  predicate Leftmost(ps: seq<Pair>, k: nat)
    requires k < |ps|
  {
    forall j | 0 <= j < |ps| :: PairCenterX(ps[k]) <= PairCenterX(ps[j])
  }

  /** With a positive field of view the selected angle is that of a pair
      whose midpoint is leftmost. */
  lemma MinOffsetIsLeftmost(cfg: Config, ps: seq<Pair>)
    requires Usable(cfg) && cfg.fov > 0.0 && ps != []
    ensures exists k | 0 <= k < |ps| :: MinOffset(cfg, ps) == PairOffset(cfg, ps[k]) && Leftmost(ps, k)
  {
    MinOffsetIsLeast(cfg, ps);
    var k :| 0 <= k < |ps| && MinOffset(cfg, ps) == PairOffset(cfg, ps[k]);
    forall j | 0 <= j < |ps|
      ensures PairCenterX(ps[k]) <= PairCenterX(ps[j])
    {
      AngleOffsetReflects(cfg, PairCenterX(ps[k]), PairCenterX(ps[j]));
    }
  }

  /** Taking one more pair into account replaces the smallest angle only
      when the new pair's angle is strictly smaller, and appends the pair's
      two outlines. */
  lemma SmallestStep(cfg: Config, ps: seq<Pair>, k: nat, centerx: real)
    requires Usable(cfg) && k < |ps| && centerx == PairCenterX(ps[k])
    ensures var m := Smallest(Offsets(cfg, ps[..k]));
      var a := AngleOffset(cfg, centerx);
      Smallest(Offsets(cfg, ps[..k + 1])) == if m.None? || a < m.value then Some(a) else m
    ensures Outlines(ps[..k + 1]) == Outlines(ps[..k]) + [ps[k].left, ps[k].right]
  {
    assert ps[..k + 1][..k] == ps[..k];
    var os := Offsets(cfg, ps[..k + 1]);
    assert os[..k] == Offsets(cfg, ps[..k]);
  }

  /** With one target, the smallest angle is that target's. */
  lemma SingleTarget(cfg: Config, p: Pair)
    requires Usable(cfg)
    ensures Smallest(Offsets(cfg, [p])) == Some(PairOffset(cfg, p))
  {
    var os := Offsets(cfg, [p]);
    assert os[..0] == [];
  }

  /** The outlines drawn for the pairs: each pair's left, then its right. */
  function Outlines(ps: seq<Pair>): (o: seq<Rect>)
    ensures |o| == 2 * |ps|
    ensures forall k | 0 <= k < |ps| :: o[2 * k] == ps[k].left && o[2 * k + 1] == ps[k].right
  {
    if ps == [] then [] else Outlines(ps[..|ps| - 1]) + [ps[|ps| - 1].left, ps[|ps| - 1].right]
  }

  /** The loop over the pairs: keeps the smallest angle seen so far and
      collects each pair's two outlines. */
  method SmallestOffset(cfg: Config, targets: seq<Pair>) returns (smallest: Option<real>, outlines: seq<Rect>)
    requires Usable(cfg)
    ensures smallest == Smallest(Offsets(cfg, targets))
    ensures outlines == Outlines(targets)
  {
    smallest, outlines := None, [];
    for k := 0 to |targets|
      invariant smallest == Smallest(Offsets(cfg, targets[..k]))
      invariant outlines == Outlines(targets[..k])
    {
      var t := targets[k];
      var leftx := CenterX(t.left);
      var rightx := CenterX(t.right);
      var centerx := (leftx + rightx) / 2.0;
      var angleDiff := AngleOffset(cfg, centerx);
      SmallestStep(cfg, targets, k, centerx);
      if smallest.None? || angleDiff < smallest.value {
        smallest := Some(angleDiff);
      }
      outlines := outlines + [t.left, t.right];
    }
    assert targets[..|targets|] == targets;
  }
}
