/** One frame through the pipeline: contours in, candidate filter, pairing,
    heading estimate, and the telemetry published for the robot. */
module Pipeline {
  import opened Wrappers
  import opened Geometry
  import opened Thresholds
  import opened CandidateFilter
  import opened Pairing
  import opened Heading

  /** What a frame publishes: whether a target was found and the heading. */
  datatype Telemetry = Telemetry(targetFound: bool, targetAngle: real)

  /** The pairs a frame yields. */
  function FramePairs(cfg: Config, contours: seq<Contour>): seq<Pair>
    requires AllWellFormed(cfg, contours)
  {
    PairsOf(Candidates(contours, cfg))
  }

  /** The heading after a frame that starts from `base`: turned by the
      smallest target angle when there is one, kept otherwise. */
  function NextHeading(base: real, smallest: Option<real>): real
  {
    if smallest.Some? then base + smallest.value else base
  }

  /** The vision pipeline. `robotHeading` is the heading it last computed;
      outside debug mode each frame starts from the heading the robot
      reports. */
  class VisionPipeline {
    const cfg: Config
    const debugMode: bool
    var robotHeading: real

    constructor(cfg: Config, debugMode: bool)
      ensures this.cfg == cfg && this.debugMode == debugMode
      ensures robotHeading == 0.0
    {
      this.cfg := cfg;
      this.debugMode := debugMode;
      robotHeading := 0.0;
    }

    /** Processes the contours found in one frame. `dashboardHeading` is the
        heading the robot reports, read only outside debug mode. Returns the
        pairs, the outlines to draw and, outside debug mode, the telemetry
        published. */
    method Process(contours: seq<Contour>, dashboardHeading: real)
      returns (targets: seq<Pair>, outlines: seq<Rect>, published: Option<Telemetry>)
      requires Usable(cfg) && AllWellFormed(cfg, contours)
      modifies this
      ensures targets == FramePairs(cfg, contours)
      ensures outlines == Outlines(targets)
      ensures debugMode ==> robotHeading == old(robotHeading) && published == None
      ensures !debugMode ==>
        var smallest := Smallest(Offsets(cfg, targets));
        && robotHeading == NextHeading(dashboardHeading, smallest)
        && published == Some(Telemetry(smallest.Some?, robotHeading))
    {
      if !debugMode {
        robotHeading := dashboardHeading;
      }
      var candidates := FilterContours(contours, cfg);
      targets := PairCandidates(candidates);
      var smallest;
      smallest, outlines := SmallestOffset(cfg, targets);
      published := None;
      if !debugMode {
        robotHeading := NextHeading(robotHeading, smallest);
        published := Some(Telemetry(smallest.Some?, robotHeading));
      }
    }
  }

  /** A target is found exactly when the frame yields a pair: when exactly
      one candidate survives the filter, or when the scan pairs two. */
  lemma TargetFoundIff(cfg: Config, contours: seq<Contour>)
    requires Usable(cfg) && AllWellFormed(cfg, contours)
    ensures var c := Candidates(contours, cfg);
      Smallest(Offsets(cfg, FramePairs(cfg, contours))).Some?
      <==> |c| == 1 || (exists p :: p in ScanPairs(c))
  {
    var c := Candidates(contours, cfg);
    var ps := FramePairs(cfg, contours);
    if |c| != 1 && ps != [] {
      assert ps[0] in ScanPairs(c);
    }
  }

  /** A frame with no candidates finds no target and keeps the heading. */
  lemma NoCandidatesNoTarget(cfg: Config, contours: seq<Contour>, base: real)
    requires Usable(cfg) && AllWellFormed(cfg, contours) && Candidates(contours, cfg) == []
    ensures FramePairs(cfg, contours) == []
    ensures NextHeading(base, Smallest(Offsets(cfg, FramePairs(cfg, contours)))) == base
  {
    assert ScanPairs([]) == [];
  }

  /** When a target is found, the heading turns by the angle of one of the
      pairs, and no pair has a smaller angle. With a positive field of view
      that pair is a leftmost one: no pair has a midpoint further left. */
  lemma HeadingTurnsToLeftmost(cfg: Config, contours: seq<Contour>, base: real)
    requires Usable(cfg) && AllWellFormed(cfg, contours) && FramePairs(cfg, contours) != []
    ensures var ps := FramePairs(cfg, contours);
      var h := NextHeading(base, Smallest(Offsets(cfg, ps)));
      && (exists k | 0 <= k < |ps| :: h == base + PairOffset(cfg, ps[k]))
      && (forall k | 0 <= k < |ps| :: h <= base + PairOffset(cfg, ps[k]))
    ensures var ps := FramePairs(cfg, contours);
      var h := NextHeading(base, Smallest(Offsets(cfg, ps)));
      cfg.fov > 0.0 ==>
        exists k | 0 <= k < |ps| :: h == base + PairOffset(cfg, ps[k]) && Leftmost(ps, k)
  {
    var ps := FramePairs(cfg, contours);
    MinOffsetIsLeast(cfg, ps);
    if cfg.fov > 0.0 {
      MinOffsetIsLeftmost(cfg, ps);
    }
  }

  /** A lone candidate always yields a target: the frame's one pair is the
      lone pair, and the heading turns toward a centre 2.75 widths to the
      side the candidate's tilt points to. */
  lemma LoneCandidateHeading(cfg: Config, contours: seq<Contour>, base: real)
    requires Usable(cfg) && AllWellFormed(cfg, contours) && |Candidates(contours, cfg)| == 1
    ensures FramePairs(cfg, contours) == [LonePair(Candidates(contours, cfg)[0])]
    ensures Smallest(Offsets(cfg, FramePairs(cfg, contours))).Some?
    ensures var lone := Candidates(contours, cfg)[0];
      var centre := if lone.angle < -45.0 then CenterX(lone) + 2.75 * lone.width
                    else CenterX(lone) - 2.75 * lone.width;
      NextHeading(base, Smallest(Offsets(cfg, FramePairs(cfg, contours))))
      == base + AngleOffset(cfg, centre)
  {
    var lone := Candidates(contours, cfg)[0];
    var p := LonePair(lone);
    var centre := if lone.angle < -45.0 then CenterX(lone) + 2.75 * lone.width
                  else CenterX(lone) - 2.75 * lone.width;
    assert FramePairs(cfg, contours) == [p];
    LonePairCenter(lone);
    assert PairCenterX(p) == centre;
    SingleTarget(cfg, p);
    calc {
      NextHeading(base, Smallest(Offsets(cfg, FramePairs(cfg, contours))));
      { assert FramePairs(cfg, contours) == [p]; }
      NextHeading(base, Smallest(Offsets(cfg, [p])));
      NextHeading(base, Some(PairOffset(cfg, p)));
      base + PairOffset(cfg, p);
      base + AngleOffset(cfg, centre);
    }
  }
}
