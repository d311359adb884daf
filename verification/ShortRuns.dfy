/**
 Runs of one bag: it stands still, is missed for a frame and found again, or it crosses the
 gate. The tracker after each frame, and the only plans the three association passes can make
 for the bag that stands still.
 */
module ShortRuns {
  import opened Wrappers
  import opened Boxes
  import opened Matching
  import opened Tracks
  import opened Plans
  import opened Gate
  import opened Counting

  // A detection whose box is centred on p.
  function DetectionAt(p: Point): Detection {
    Detection(Box(p.x - 1.0, p.y - 1.0, p.x + 1.0, p.y + 1.0), 0.9, None, false)
  }

  const PLAIN: Config :=
    Config(0.4, 0.15, 0.7, 30, Weights(0.7, 0.3), Metric((m1, m2) => 0.0, (p, q) => 0.0))

  const REST: Point := Point(0.0, 0.0)

  const META: FrameMeta := FrameMeta(0, 0, 0)

  // One bag standing still at p: seen, missed for a frame, seen again.
  function Appear(p: Point): FrameInput { FrameInput(PLAIN, [DetectionAt(p)], REST, Plan([], [], [0]), META) }

  function Vanish(): FrameInput { FrameInput(PLAIN, [], REST, Plan([None], [], []), META) }

  function Return(p: Point): FrameInput {
    FrameInput(PLAIN, [DetectionAt(p)], REST, Plan([], [Some(0)], []), META)
  }

  function StandStill(p: Point): seq<FrameInput> { [Appear(p), Vanish(), Return(p)] }

  // The track after the first and after the second frame.
  function Seen(p: Point): Track { NewTrack(1, DetectionAt(p)) }

  function Missed(p: Point): Track { Seen(p).Predict(REST).MarkLost() }

  function TrackerAfterAppear(p: Point): TrackerState { TrackerState([Seen(p)], [], [], 1, 1, 0, 0) }

  function TrackerAfterVanish(p: Point): TrackerState { TrackerState([], [Missed(p)], [], 1, 2, 0, 0) }

  function Found(p: Point): Track { Missed(p).Predict(REST).Measure(DetectionAt(p)) }

  function TrackerAfterReturn(p: Point): TrackerState { TrackerState([Found(p)], [], [], 1, 3, 0, 0) }

  lemma AppearIsSound(p: Point)
    ensures SoundPlan(PLAIN, START, Appear(p).dets, Appear(p).plan)
  {
    assert 0 in [0];
  }

  lemma StepAppear(p: Point)
    ensures SoundPlan(PLAIN, START, Appear(p).dets, Appear(p).plan)
    ensures Step(PLAIN, START, Appear(p).dets, REST, Appear(p).plan) == TrackerAfterAppear(p)
  {
    AppearIsSound(p);
    var d := DetectionAt(p);
    assert Births(0, [0], [d]) == [Seen(p)];
    NoSwitches(d);
  }

  lemma NoSwitches(d: Detection)
    ensures Switches([0], [d], []) == 0
  {
    assert [0][..0] == [];
  }

  lemma StepVanish(p: Point)
    ensures SoundPlan(PLAIN, TrackerAfterAppear(p), [], Vanish().plan)
    ensures Step(PLAIN, TrackerAfterAppear(p), [], REST, Vanish().plan) == TrackerAfterVanish(p)
  {
    var pt := PredictAll([Seen(p)], REST);
    assert pt == [Seen(p).Predict(REST)];
    NoneGiven(Seen(p).Predict(REST));
    assert MarkAllLost(pt) == [Missed(p)];
    SingleWithin(Missed(p), 30);
  }

  lemma NoneGiven(t: Track)
    ensures Unassigned([t], [None]) == [t] && Measured([t], [None], []) == []
  {
    assert [t][..0] == [];
  }

  lemma SingleWithin(t: Track, limit: int)
    requires t.timeSinceUpdate <= limit
    ensures Within([t], limit) == [t] && Overdue([t], limit) == []
  {
    assert [t][..0] == [];
  }

  lemma StepReturn(p: Point)
    ensures SoundPlan(PLAIN, TrackerAfterVanish(p), Return(p).dets, Return(p).plan)
    ensures Step(PLAIN, TrackerAfterVanish(p), Return(p).dets, REST, Return(p).plan) == TrackerAfterReturn(p)
  {
    var pl := PredictAll([Missed(p)], REST);
    assert pl == [Missed(p).Predict(REST)];
    assert pl[..0] == [] && [Some(0)][..0] == [];
    assert Measured(pl, [Some(0)], Return(p).dets) == [Found(p)];
    assert Unassigned(pl, [Some(0)]) == [];
    assert Used([Some(0)], 0);
  }

  // The bag found at q instead, without being missed.
  function Move(q: Point): FrameInput { FrameInput(PLAIN, [DetectionAt(q)], REST, Plan([Some(0)], [], []), META) }

  function Moved(p: Point, q: Point): Track { Seen(p).Predict(REST).Measure(DetectionAt(q)) }

  function TrackerAfterMove(p: Point, q: Point): TrackerState { TrackerState([Moved(p, q)], [], [], 1, 2, 0, 0) }

  lemma StepMove(p: Point, q: Point)
    ensures SoundPlan(PLAIN, TrackerAfterAppear(p), Move(q).dets, Move(q).plan)
    ensures Step(PLAIN, TrackerAfterAppear(p), Move(q).dets, REST, Move(q).plan) == TrackerAfterMove(p, q)
  {
    var pt := PredictAll([Seen(p)], REST);
    assert pt == [Seen(p).Predict(REST)];
    assert pt[..0] == [] && [Some(0)][..0] == [];
    assert Measured(pt, [Some(0)], Move(q).dets) == [Moved(p, q)];
    assert Unassigned(pt, [Some(0)]) == [];
    assert Used([Some(0)], 0);
  }

  // --------------------------------------------- the standing bag's plans are forced

  lemma OneHigh(p: Point)
    ensures HighIdx(PLAIN, [DetectionAt(p)]) == [0] && LowIdx(PLAIN, [DetectionAt(p)]) == []
    ensures HighIdx(PLAIN, []) == [] && LowIdx(PLAIN, []) == []
    ensures Pick([DetectionAt(p)], [0]) == [DetectionAt(p)]
  {
    assert [DetectionAt(p)][..0] == [];
  }

  // The one place of a list of at most one.
  function Places(n: nat): seq<nat> { if n == 1 then [0] else [] }

  lemma ArePlaces(s: seq<nat>, n: nat)
    requires n <= 1 && Ascending(s) && forall i: nat :: i in s <==> i < n
    ensures s == Places(n)
  {
    Among(s);
    assert n == 1 ==> 0 in s;
  }

  lemma Among(s: seq<nat>)
    ensures s != [] ==> s[0] in s
    ensures |s| > 1 ==> s[1] in s
  {
  }

  lemma MatchesInside(a: Association, n: nat, m: nat)
    requires Partitions(a, n, m)
    ensures a.matches != [] ==> n > 0 && m > 0
    ensures |a.matches| > 1 ==> n > 1
  {
    if |a.matches| > 0 {
      assert a.matches[0].0 < n && a.matches[0].1 < m;
    }
    if |a.matches| > 1 {
      assert a.matches[0].0 < a.matches[1].0 < n;
    }
  }

  function Unmatched(n: nat, m: nat): Association { Association([], Places(n), Places(m)) }

  const PAIRED: Association := Association([(0, 0)], [], [])

  lemma EmptyPartition(a: Association, n: nat, m: nat)
    requires n <= 1 && m <= 1 && (n == 0 || m == 0)
    ensures Partitions(a, n, m) <==> a == Unmatched(n, m)
  {
    if Partitions(a, n, m) {
      MatchesInside(a, n, m);
      ArePlaces(a.unmatchedTracks, n);
      ArePlaces(a.unmatchedDets, m);
    }
  }

  // With no tracks, or no detections, nothing is matched.
  lemma NothingToMatch(cfg: Config, ts: seq<Feature>, dets: seq<Detection>, a: Association)
    requires |ts| <= 1 && |dets| <= 1 && (ts == [] || dets == [])
    ensures PassFor(cfg, ts, dets, a) <==> a == Unmatched(|ts|, |dets|)
  {
    EmptyPartition(a, |ts|, |dets|);
    if a == Unmatched(|ts|, |dets|) {
      var cost: Matrix := if ts == [] then [] else [[]];
      assert IsCostMatrix(cfg.metric, cfg.weights, ts, dets, cost);
      assert Stable(a, cost, |ts|, |dets|, cfg.costThreshold);
    }
  }

  // A single pair that costs nothing is matched.
  lemma FreePairMustMatch(a: Association, cost: Matrix, threshold: real)
    requires IsMatrix(cost, 1, 1) && cost[0][0] == 0.0 <= threshold
    requires Partitions(a, 1, 1) && Stable(a, cost, 1, 1, threshold)
    ensures a == PAIRED
  {
    assert Beaten(a, cost, 1, 1, 0, 0);
    MatchesInside(a, 1, 1);
    assert a.matches[0] == (0, 0) && MatchesTrack(a, 0) && MatchesDet(a, 0);
    ArePlaces(a.unmatchedTracks, 0);
    ArePlaces(a.unmatchedDets, 0);
  }

  lemma FreePairCanMatch(cost: Matrix, threshold: real)
    requires IsMatrix(cost, 1, 1) && cost[0][0] == 0.0 <= threshold
    ensures Partitions(PAIRED, 1, 1) && Stable(PAIRED, cost, 1, 1, threshold)
  {
    assert PAIRED.matches[0] == (0, 0);
    assert MatchesTrack(PAIRED, 0) && MatchesDet(PAIRED, 0);
    assert Beaten(PAIRED, cost, 1, 1, 0, 0);
  }

  lemma FreePairIsMatched(cfg: Config, t: Feature, d: Detection, a: Association)
    requires PairCost(cfg.metric, cfg.weights, t, d) == 0.0 <= cfg.costThreshold
    ensures PassFor(cfg, [t], [d], a) <==> a == PAIRED
  {
    if PassFor(cfg, [t], [d], a) {
      var cost :| IsCostMatrix(cfg.metric, cfg.weights, [t], [d], cost)
                  && Stable(a, cost, 1, 1, cfg.costThreshold);
      assert cost[0][0] == PairCost(cfg.metric, cfg.weights, [t][0], [d][0]);
      FreePairMustMatch(a, cost, cfg.costThreshold);
    }
    if a == PAIRED {
      var cost: Matrix := [[0.0]];
      assert IsCostMatrix(cfg.metric, cfg.weights, [t], [d], cost);
      FreePairCanMatch(cost, cfg.costThreshold);
    }
  }

  // The bag that stands still costs nothing.
  lemma StandingCostsNothing(p: Point)
    ensures PairCost(PLAIN.metric, PLAIN.weights, Missed(p).Predict(REST).View(), DetectionAt(p)) == 0.0
  {
    var t, d := Missed(p).Predict(REST).View(), DetectionAt(p);
    assert t.box == d.box;
    SelfOverlap(d.box);
  }

  const APPEAR: Stages := Stages(Unmatched(0, 1), Unmatched(0, 0), Unmatched(0, 1))
  const VANISH: Stages := Stages(Unmatched(1, 0), Unmatched(1, 0), Unmatched(0, 0))
  const RETURN: Stages := Stages(Unmatched(0, 1), Unmatched(0, 0), PAIRED)

  lemma NewcomerPasses(cfg: Config, d: Detection, st: Stages)
    requires HighIdx(cfg, [d]) == [0] && LowIdx(cfg, [d]) == []
    ensures PassesOver(cfg, [], [], [d], st) <==> st == APPEAR
  {
    assert Pick([d], [0]) == [d];
    NothingToMatch(cfg, [], [d], st.a);
    NothingToMatch(cfg, [], [], st.b);
    NothingToMatch(cfg, [], [d], st.c);
  }

  lemma MissedPasses(cfg: Config, t: Track, st: Stages)
    requires HighIdx(cfg, []) == [] && LowIdx(cfg, []) == []
    ensures PassesOver(cfg, [t], [], [], st) <==> st == VANISH
  {
    assert Pick([t], [0]) == [t];
    NothingToMatch(cfg, Features([t]), [], st.a);
    NothingToMatch(cfg, Features([t]), [], st.b);
    NothingToMatch(cfg, [], [], st.c);
  }

  lemma FoundPasses(cfg: Config, t: Track, d: Detection, st: Stages)
    requires HighIdx(cfg, [d]) == [0] && LowIdx(cfg, [d]) == []
    requires PairCost(cfg.metric, cfg.weights, t.View(), d) == 0.0 <= cfg.costThreshold
    ensures PassesOver(cfg, [], [t], [d], st) <==> st == RETURN
  {
    assert Pick([d], [0]) == [d];
    assert Features([t]) == [t.View()];
    NothingToMatch(cfg, [], [d], st.a);
    NothingToMatch(cfg, [], [], st.b);
    FreePairIsMatched(cfg, t.View(), d, st.c);
  }

  ghost predicate OnlyPasses(cfg: Config, s: TrackerState, dets: seq<Detection>, prior: Point, st: Stages) {
    forall x :: PassesFor(cfg, s, dets, prior, x) <==> x == st
  }

  // When only one outcome of the passes is possible, so is only one plan.
  lemma OnlyPlan(cfg: Config, s: TrackerState, dets: seq<Detection>, prior: Point, st: Stages, plan: Plan)
    requires OnlyPasses(cfg, s, dets, prior, st)
    ensures StagesFit(cfg, s, dets, st)
    ensures FromPasses(cfg, s, dets, prior, plan) <==> plan == PlanOf(cfg, s, dets, st)
  {
    assert PassesFor(cfg, s, dets, prior, st);
    PassesFit(cfg, s, dets, prior, st);
  }

  // What each outcome makes of the detections.
  lemma PlanOfAppear(cfg: Config, s: TrackerState, dets: seq<Detection>)
    requires s.tracked == [] && s.lost == [] && HighIdx(cfg, dets) == [0] && StagesFit(cfg, s, dets, APPEAR)
    ensures PlanOf(cfg, s, dets, APPEAR) == Plan([], [], [0])
  {
    var born := BornFrom(APPEAR, [0], 0, 0);
    assert |born| == 1 && born[0] == 0;
  }

  lemma PlanOfVanish(cfg: Config, s: TrackerState, dets: seq<Detection>)
    requires |s.tracked| == 1 && s.lost == [] && StagesFit(cfg, s, dets, VANISH)
    ensures PlanOf(cfg, s, dets, VANISH) == Plan([None], [], [])
  {
    assert MatchOf(VANISH.a.matches, 0).None? && MatchOf(VANISH.b.matches, 0).None?;
  }

  lemma PlanOfReturn(cfg: Config, s: TrackerState, dets: seq<Detection>)
    requires s.tracked == [] && |s.lost| == 1 && HighIdx(cfg, dets) == [0] && StagesFit(cfg, s, dets, RETURN)
    ensures PlanOf(cfg, s, dets, RETURN) == Plan([], [Some(0)], [])
  {
    assert MatchOf(PAIRED.matches, 0) == Some(0);
    assert LostGets(RETURN, [0], 0, 1, 0) == Some(0);
  }

  lemma AppearPasses(p: Point, st: Stages)
    ensures PassesFor(PLAIN, START, [DetectionAt(p)], REST, st) <==> st == APPEAR
  {
    OneHigh(p);
    NewcomerPasses(PLAIN, DetectionAt(p), st);
  }

  lemma VanishPasses(p: Point, st: Stages)
    ensures PassesFor(PLAIN, TrackerAfterAppear(p), [], REST, st) <==> st == VANISH
  {
    OneHigh(p);
    assert PredictAll([Seen(p)], REST) == [Seen(p).Predict(REST)];
    MissedPasses(PLAIN, Seen(p).Predict(REST), st);
  }

  lemma ReturnPasses(p: Point, st: Stages)
    ensures PassesFor(PLAIN, TrackerAfterVanish(p), [DetectionAt(p)], REST, st) <==> st == RETURN
  {
    OneHigh(p);
    StandingCostsNothing(p);
    assert PredictAll([Missed(p)], REST) == [Missed(p).Predict(REST)];
    FoundPasses(PLAIN, Missed(p).Predict(REST), DetectionAt(p), st);
  }

  // In each of the three frames the passes make one plan and no other.
  lemma AppearIsForced(p: Point, plan: Plan)
    ensures FromPasses(PLAIN, START, [DetectionAt(p)], REST, plan) <==> plan == Appear(p).plan
  {
    var d := DetectionAt(p);
    forall st ensures PassesFor(PLAIN, START, [d], REST, st) <==> st == APPEAR {
      AppearPasses(p, st);
    }
    OneHigh(p);
    OnlyPlan(PLAIN, START, [d], REST, APPEAR, plan);
    PlanOfAppear(PLAIN, START, [d]);
  }

  lemma VanishIsForced(p: Point, plan: Plan)
    ensures FromPasses(PLAIN, TrackerAfterAppear(p), [], REST, plan) <==> plan == Vanish().plan
  {
    forall st ensures PassesFor(PLAIN, TrackerAfterAppear(p), [], REST, st) <==> st == VANISH {
      VanishPasses(p, st);
    }
    OnlyPlan(PLAIN, TrackerAfterAppear(p), [], REST, VANISH, plan);
    PlanOfVanish(PLAIN, TrackerAfterAppear(p), []);
  }

  lemma ReturnIsForced(p: Point, plan: Plan)
    ensures FromPasses(PLAIN, TrackerAfterVanish(p), [DetectionAt(p)], REST, plan) <==> plan == Return(p).plan
  {
    var d := DetectionAt(p);
    forall st ensures PassesFor(PLAIN, TrackerAfterVanish(p), [d], REST, st) <==> st == RETURN {
      ReturnPasses(p, st);
    }
    OneHigh(p);
    OnlyPlan(PLAIN, TrackerAfterVanish(p), [d], REST, RETURN, plan);
    PlanOfReturn(PLAIN, TrackerAfterVanish(p), [d]);
  }
}
