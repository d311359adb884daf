/**
 Laws over whole runs of the counting pipeline.
 */
module CountingLaw {
  import opened Boxes
  import opened Matching
  import opened Tracks
  import opened Plans
  import opened Gate
  import opened Counting
  import opened ShortRuns

  // A run: every frame's plan uses its detections properly in the state it meets.
  ghost predicate Runnable(g: Geometry, s: EngineState, fs: seq<FrameInput>)
    decreases |fs|
  {
    fs == [] ||
    (SoundPlan(fs[0].cfg, s.tracker, fs[0].dets, fs[0].plan)
     && Runnable(g, EngineStep(g, s, fs[0]), fs[1..]))
  }

  ghost function Run(g: Geometry, s: EngineState, fs: seq<FrameInput>): EngineState
    requires Runnable(g, s, fs)
    decreases |fs|
  {
    if fs == [] then s else Run(g, EngineStep(g, s, fs[0]), fs[1..])
  }

  // A run of the code: every frame's plan is made by its three association passes.
  ghost predicate Driven(g: Geometry, s: EngineState, fs: seq<FrameInput>)
    decreases |fs|
  {
    fs == [] ||
    (PlanFits(s.tracker, fs[0].dets, fs[0].plan)
     && FromPasses(fs[0].cfg, s.tracker, fs[0].dets, fs[0].prior, fs[0].plan)
     && Driven(g, EngineStep(g, s, fs[0]), fs[1..]))
  }

  lemma FromPassesIsSound(cfg: Config, s: TrackerState, dets: seq<Detection>, prior: Point, plan: Plan)
    requires FromPasses(cfg, s, dets, prior, plan)
    ensures SoundPlan(cfg, s, dets, plan)
  {
    var st :| PassesFor(cfg, s, dets, prior, st) && StagesFit(cfg, s, dets, st) && plan == PlanOf(cfg, s, dets, st);
    PlanIsSound(cfg, s, dets, st);
  }

  lemma {:induction false} DrivenIsRunnable(g: Geometry, s: EngineState, fs: seq<FrameInput>)
    requires Driven(g, s, fs)
    ensures Runnable(g, s, fs)
    decreases |fs|
  {
    if fs != [] {
      FromPassesIsSound(fs[0].cfg, s.tracker, fs[0].dets, fs[0].prior, fs[0].plan);
      DrivenIsRunnable(g, EngineStep(g, s, fs[0]), fs[1..]);
    }
  }

  lemma {:induction false} RunKeepsInv(g: Geometry, s: EngineState, fs: seq<FrameInput>)
    requires g.ZonesAgree() && EngineInv(g, s) && Runnable(g, s, fs)
    ensures EngineInv(g, Run(g, s, fs))
    decreases |fs|
  {
    if fs != [] {
      EngineStepKeepsInv(g, s, fs[0]);
      RunKeepsInv(g, EngineStep(g, s, fs[0]), fs[1..]);
    }
  }

  lemma StartInv(g: Geometry)
    ensures EngineInv(g, ENGINE_START)
  {
    assert START.All() == [];
  }

  // ---------------------------------------------------------------- the net count

  // How many tracks ended beyond the gate, minus how many began there.
  function Displacement(g: Geometry, ts: seq<Track>): int
    requires forall i | 0 <= i < |ts| :: ts[i].WellFormed()
  {
    if ts == [] then 0 else
      var t := ts[|ts| - 1];
      Displacement(g, ts[..|ts| - 1]) + g.Side(t.LastMeasured()) - g.Side(t.history[0])
  }

  // The directions logged for the tracks of a list.
  function SumMine(ts: seq<Track>, log: seq<Crossing>): int {
    if ts == [] then 0 else SumMine(ts[..|ts| - 1], log) + SumDir(Of(log, ts[|ts| - 1].id))
  }

  // One more event counts once for every track carrying its id.
  lemma {:induction false} SumMineNext(ts: seq<Track>, log: seq<Crossing>, e: Crossing)
    ensures SumMine(ts, log + [e]) == SumMine(ts, log) + Tally(ts, e.trackId) * e.direction
  {
    if ts != [] {
      var init, t := ts[..|ts| - 1], ts[|ts| - 1];
      SumMineNext(init, log, e);
      OfNext(log, e, t.id);
      OneMore(Tally(init, e.trackId), if t.id == e.trackId then 1 else 0, e.direction);
    }
  }

  lemma OneMore(n: int, m: int, d: int)
    ensures (n + m) * d == n * d + m * d
  {
  }

  lemma OfNext(log: seq<Crossing>, e: Crossing, x: nat)
    ensures SumDir(Of(log + [e], x)) == SumDir(Of(log, x)) + if e.trackId == x then e.direction else 0
  {
    assert (log + [e])[..|log|] == log;
  }

  lemma {:induction false} SumMineEmpty(ts: seq<Track>)
    ensures SumMine(ts, []) == 0
  {
    if ts != [] {
      SumMineEmpty(ts[..|ts| - 1]);
    }
  }

  // Summing per track and then over tracks is summing the log.
  lemma {:induction false} SumExchange(ts: seq<Track>, log: seq<Crossing>)
    requires forall k | 0 <= k < |log| :: Tally(ts, log[k].trackId) == 1
    ensures SumMine(ts, log) == SumDir(log)
  {
    if log == [] {
      SumMineEmpty(ts);
    } else {
      var init, e := log[..|log| - 1], log[|log| - 1];
      SumExchange(ts, init);
      SumMineNext(ts, init, e);
      assert log == init + [e];
    }
  }

  lemma {:induction false} DirectionsAreSigns(g: Geometry, mine: seq<Crossing>, signs: seq<int>)
    requires |mine| == |signs| && forall k | 0 <= k < |mine| :: mine[k].direction == signs[k]
    ensures SumDir(mine) == SumOf(signs)
  {
    if mine != [] {
      DirectionsAreSigns(g, mine[..|mine| - 1], signs[..|signs| - 1]);
    }
  }

  lemma {:induction false} LoggedDisplacement(g: Geometry, log: seq<Crossing>, ts: seq<Track>)
    requires AllLogged(g, log, ts) && forall i | 0 <= i < |ts| :: ts[i].WellFormed()
    ensures SumMine(ts, log) == Displacement(g, ts)
  {
    if ts != [] {
      var t := ts[|ts| - 1];
      LoggedDisplacement(g, log, ts[..|ts| - 1]);
      DirectionsAreSigns(g, Of(log, t.id), Signs(g, t.history));
      SignsSum(g, t.history);
    }
  }

  lemma AllAreWellFormed(s: TrackerState)
    requires Inv(s)
    ensures forall i | 0 <= i < |s.All()| :: s.All()[i].WellFormed()
  {
  }

  // In every state that satisfies the invariant the net count is the displacement
  // of all tracks ever created, and the counters split the log by sign.
  lemma NetIsDisplacement(g: Geometry, s: EngineState)
    requires EngineInv(g, s)
    ensures forall i | 0 <= i < |s.tracker.All()| :: s.tracker.All()[i].WellFormed()
    ensures s.net == Displacement(g, s.tracker.All())
  {
    AllAreWellFormed(s.tracker);
    LoggedDisplacement(g, s.log, s.tracker.All());
    SumExchange(s.tracker.All(), s.log);
  }

  // Every logged crossing goes one way or the other.
  lemma LoggedDirection(g: Geometry, s: EngineState, i: nat)
    requires EngineInv(g, s) && i < |s.log|
    ensures s.log[i].direction == 1 || s.log[i].direction == -1
  {
    var x := s.log[i].trackId;
    var k := TallyFinds(s.tracker.All(), x);
    var t := s.tracker.All()[k];
    AllAreWellFormed(s.tracker);
    assert Logged(g, s.log, x, t.history, t.crossingSeq);
    OfPosition(s.log, i);
    SignsAlternate(g, t.history);
  }

  // The crossings to the far side.
  ghost function ForwardOnes(log: seq<Crossing>): set<nat> { set i: nat | i < |log| && log[i].direction == 1 }

  lemma {:induction false} ForwardsLessRest(log: seq<Crossing>)
    requires forall i | 0 <= i < |log| :: log[i].direction == 1 || log[i].direction == -1
    ensures SumDir(log) == Forwards(log) - (|log| - Forwards(log)) && Forwards(log) == |ForwardOnes(log)|
  {
    if log == [] {
      assert ForwardOnes(log) == {};
    } else {
      var n := |log| - 1;
      ForwardsLessRest(log[..n]);
      assert ForwardOnes(log) == ForwardOnes(log[..n]) + if log[n].direction == 1 then {n as nat} else {};
    }
  }

  // The two counters: crossings to the far side, and crossings back. Their difference is the net
  // count, their sum all crossings.
  lemma CountersSplitNet(g: Geometry, s: EngineState)
    requires EngineInv(g, s)
    ensures s.net == s.forward - s.backward && |s.log| == s.forward + s.backward
    ensures s.forward == |ForwardOnes(s.log)|
  {
    forall i | 0 <= i < |s.log| ensures s.log[i].direction == 1 || s.log[i].direction == -1 {
      LoggedDirection(g, s, i);
    }
    ForwardsLessRest(s.log);
  }

  ghost predicate NetLaw(g: Geometry, s: EngineState) {
    && (forall i | 0 <= i < |s.tracker.All()| :: s.tracker.All()[i].WellFormed())
    && s.net == Displacement(g, s.tracker.All())
  }

  // THE COUNTING LAW, for every run of a gate whose zones tell its sides apart.
  lemma CountingLawHolds(g: Geometry, fs: seq<FrameInput>)
    requires g.ZonesAgree() && Runnable(g, ENGINE_START, fs)
    ensures NetLaw(g, Run(g, ENGINE_START, fs))
  {
    StartInv(g);
    RunKeepsInv(g, ENGINE_START, fs);
    NetIsDisplacement(g, Run(g, ENGINE_START, fs));
  }

  // -------------------------------------------------------- exactly which gates obey it

  // A nonnegative offset before the gate makes the zones agree.
  lemma NonNegativeOffsetAgrees(g: Geometry)
    requires g.preOffset >= 0.0
    ensures g.ZonesAgree()
  {
  }

  lemma GateSingle(g: Geometry, zones: map<nat, Zone>, t: Track, meta: FrameMeta)
    ensures Events(g, zones, [t], meta)
         == if DirectionOf(g, zones, t) == 0 then [] else [EventOf(g, zones, t, meta)]
    ensures BumpAll(g, zones, [t]) == [Bump(g, zones, t)]
    ensures ZonesAfter(g, [t]) == map[t.id := g.Classify(t.centroid)]
  {
    assert [t][..0] == [];
  }

  function EngineAfterAppear(g: Geometry, p: Point): EngineState {
    EngineState(TrackerAfterAppear(p), map[1 := g.Classify(p)], 0, 0, 0, [])
  }

  function EngineAfterVanish(p: Point): EngineState {
    EngineState(TrackerAfterVanish(p), map[], 0, 0, 0, [])
  }

  lemma FirstFrame(g: Geometry, p: Point)
    ensures SoundPlan(PLAIN, START, Appear(p).dets, Appear(p).plan)
    ensures EngineStep(g, ENGINE_START, Appear(p)) == EngineAfterAppear(g, p)
  {
    StepAppear(p);
    GateSingle(g, map[], Seen(p), META);
  }

  lemma SecondFrame(g: Geometry, p: Point)
    ensures SoundPlan(PLAIN, TrackerAfterAppear(p), [], Vanish().plan)
    ensures EngineStep(g, EngineAfterAppear(g, p), Vanish()) == EngineAfterVanish(p)
  {
    StepVanish(p);
  }

  lemma ReturnCrosses(g: Geometry, p: Point)
    requires g.Beyond(p) && PreSide(g.Classify(p))
    ensures DirectionOf(g, map[], Found(p)) == -1
  {
    assert Found(p).history == [p, p];
  }

  lemma ReturnEvents(g: Geometry, p: Point)
    requires g.Beyond(p) && PreSide(g.Classify(p))
    ensures SumDir(Events(g, map[], [Found(p)], META)) == -1
    ensures BumpAll(g, map[], [Found(p)]) == [Found(p).(crossingSeq := 1)]
  {
    ReturnCrosses(g, p);
    GateSingle(g, map[], Found(p), META);
    assert [EventOf(g, map[], Found(p), META)][..0] == [];
  }

  // The third frame: the gate has forgotten the track and reads its side off the history.
  lemma ThirdFrame(g: Geometry, p: Point)
    requires g.Beyond(p) && PreSide(g.Classify(p))
    ensures SoundPlan(PLAIN, TrackerAfterVanish(p), Return(p).dets, Return(p).plan)
    ensures var s := EngineStep(g, EngineAfterVanish(p), Return(p));
            s.net == -1 && s.tracker.All() == [Found(p).(crossingSeq := 1)]
  {
    StepReturn(p);
    ReturnEvents(g, p);
  }

  // A bag that never moves is counted out when its point is misclassified, by a run in which
  // the association itself makes every plan.
  lemma MisclassifiedMiscounts(g: Geometry, p: Point)
    requires g.Beyond(p) && PreSide(g.Classify(p))
    ensures Driven(g, ENGINE_START, StandStill(p)) && Runnable(g, ENGINE_START, StandStill(p))
    ensures !NetLaw(g, Run(g, ENGINE_START, StandStill(p)))
  {
    FirstFrame(g, p);
    SecondFrame(g, p);
    ThirdFrame(g, p);
    AppearIsForced(p, Appear(p).plan);
    VanishIsForced(p, Vanish().plan);
    ReturnIsForced(p, Return(p).plan);
    ThreeFrames(g, ENGINE_START, EngineAfterAppear(g, p), EngineAfterVanish(p),
                EngineStep(g, EngineAfterVanish(p), Return(p)), Appear(p), Vanish(), Return(p));
    StillTrack(g, p);
  }

  // The same frame up to the plan.
  ghost predicate SameFrame(f: FrameInput, h: FrameInput) { f.(plan := h.plan) == h }

  // One frame of the code.
  ghost predicate Frame(g: Geometry, a: EngineState, f: FrameInput, b: EngineState) {
    && PlanFits(a.tracker, f.dets, f.plan)
    && FromPasses(f.cfg, a.tracker, f.dets, f.prior, f.plan)
    && EngineStep(g, a, f) == b
  }

  ghost predicate RunsTo(g: Geometry, s: EngineState, fs: seq<FrameInput>, t: EngineState) {
    Driven(g, s, fs) && Runnable(g, s, fs) && Run(g, s, fs) == t
  }

  lemma ThreeFrames(g: Geometry, a: EngineState, b: EngineState, c: EngineState, d: EngineState,
                    f: FrameInput, h: FrameInput, k: FrameInput)
    requires Frame(g, a, f, b) && Frame(g, b, h, c) && Frame(g, c, k, d)
    ensures RunsTo(g, a, [f, h, k], d)
  {
    LastFrame(g, c, d, k);
    LastTwoFrames(g, b, c, d, h, k);
    RunFirst(g, a, b, d, [f, h, k], [h, k]);
  }

  lemma LastTwoFrames(g: Geometry, b: EngineState, c: EngineState, d: EngineState, h: FrameInput, k: FrameInput)
    requires Frame(g, b, h, c) && RunsTo(g, c, [k], d)
    ensures RunsTo(g, b, [h, k], d)
  {
    RunFirst(g, b, c, d, [h, k], [k]);
  }

  lemma LastFrame(g: Geometry, c: EngineState, d: EngineState, k: FrameInput)
    requires Frame(g, c, k, d)
    ensures RunsTo(g, c, [k], d)
  {
    RunFirst(g, c, d, d, [k], []);
  }

  lemma RunFirst(g: Geometry, s: EngineState, t: EngineState, end: EngineState, fs: seq<FrameInput>, rest: seq<FrameInput>)
    requires fs != [] && Frame(g, s, fs[0], t) && fs[1..] == rest && RunsTo(g, t, rest, end)
    ensures RunsTo(g, s, fs, end)
  {
    DrivenIsRunnable(g, s, fs);
  }

  // The association has no other way to treat these frames.
  lemma StandStillIsForced(g: Geometry, p: Point, f: FrameInput, h: FrameInput, k: FrameInput)
    requires Driven(g, ENGINE_START, [f, h, k])
    requires SameFrame(f, Appear(p)) && SameFrame(h, Vanish()) && SameFrame(k, Return(p))
    ensures [f, h, k] == StandStill(p)
  {
    DrivenFirst(g, ENGINE_START, [f, h, k]);
    ForcedFirst(g, p, f);
    assert [f, h, k][1..] == [h, k];
    DrivenFirst(g, EngineAfterAppear(g, p), [h, k]);
    ForcedSecond(g, p, h);
    assert [h, k][1..] == [k];
    DrivenFirst(g, EngineAfterVanish(p), [k]);
    ReturnIsForced(p, k.plan);
  }

  lemma ForcedFirst(g: Geometry, p: Point, f: FrameInput)
    requires SameFrame(f, Appear(p)) && FromPasses(f.cfg, START, f.dets, f.prior, f.plan)
    ensures f == Appear(p) && PlanFits(START, f.dets, f.plan)
    ensures EngineStep(g, ENGINE_START, f) == EngineAfterAppear(g, p)
  {
    AppearIsForced(p, f.plan);
    FirstFrame(g, p);
  }

  lemma ForcedSecond(g: Geometry, p: Point, h: FrameInput)
    requires SameFrame(h, Vanish()) && FromPasses(h.cfg, TrackerAfterAppear(p), h.dets, h.prior, h.plan)
    ensures h == Vanish() && PlanFits(TrackerAfterAppear(p), h.dets, h.plan)
    ensures EngineStep(g, EngineAfterAppear(g, p), h) == EngineAfterVanish(p)
  {
    VanishIsForced(p, h.plan);
    SecondFrame(g, p);
  }

  lemma DrivenFirst(g: Geometry, s: EngineState, fs: seq<FrameInput>)
    requires fs != [] && Driven(g, s, fs)
    ensures Frame(g, s, fs[0], EngineStep(g, s, fs[0])) && Driven(g, EngineStep(g, s, fs[0]), fs[1..])
  {
  }

  lemma StillTrack(g: Geometry, p: Point)
    ensures var t := Found(p).(crossingSeq := 1); t.WellFormed() && Displacement(g, [t]) == 0
  {
    var t := Found(p).(crossingSeq := 1);
    assert t.history == [p, p];
    assert [t][..0] == [];
  }

  // The law holds on every run of the code, and on every run of sound plans, exactly for
  // the gates whose zones agree with their sides.
  lemma CountingLawExactly(g: Geometry)
    ensures (forall fs :: Driven(g, ENGINE_START, fs) ==>
               Runnable(g, ENGINE_START, fs) && NetLaw(g, Run(g, ENGINE_START, fs)))
       <==> g.ZonesAgree()
    ensures (forall fs :: Runnable(g, ENGINE_START, fs) ==> NetLaw(g, Run(g, ENGINE_START, fs)))
       <==> g.ZonesAgree()
  {
    if g.ZonesAgree() {
      forall fs | Runnable(g, ENGINE_START, fs) ensures NetLaw(g, Run(g, ENGINE_START, fs)) {
        CountingLawHolds(g, fs);
      }
      forall fs | Driven(g, ENGINE_START, fs) ensures Runnable(g, ENGINE_START, fs) {
        DrivenIsRunnable(g, ENGINE_START, fs);
      }
    } else {
      var p :| !(PreSide(g.Classify(p)) <==> !g.Beyond(p));
      MisclassifiedMiscounts(g, p);
    }
  }

  // A bag carried from before the gate at p to beyond it at q.
  function EngineAfterMove(g: Geometry, p: Point, q: Point): EngineState {
    EngineStep(g, EngineAfterAppear(g, p), Move(q))
  }

  lemma CarriedKeepsInv(g: Geometry, p: Point, q: Point)
    requires g.ZonesAgree()
    ensures PlanFits(TrackerAfterAppear(p), Move(q).dets, Move(q).plan) && EngineInv(g, EngineAfterMove(g, p, q))
  {
    FirstFrame(g, p);
    StepMove(p, q);
    StartInv(g);
    EngineStepKeepsInv(g, ENGINE_START, Appear(p));
    EngineStepKeepsInv(g, EngineAfterAppear(g, p), Move(q));
  }

  lemma CarriedCrosses(g: Geometry, p: Point, q: Point)
    requires g.ZonesAgree() && !g.Beyond(p) && g.Beyond(q)
    ensures var zones, t := map[1 := g.Classify(p)], Moved(p, q);
            Events(g, zones, [t], META) == [EventOf(g, zones, t, META)] && DirectionOf(g, zones, t) == 1
  {
    GateSingle(g, map[1 := g.Classify(p)], Moved(p, q), META);
    assert PreSide(g.Classify(p)) && !PreSide(g.Classify(q));
  }

  lemma CarriedIsCounted(g: Geometry, p: Point, q: Point)
    requires g.ZonesAgree() && !g.Beyond(p) && g.Beyond(q)
    ensures PlanFits(TrackerAfterAppear(p), Move(q).dets, Move(q).plan)
    ensures var s := EngineAfterMove(g, p, q); 
            EngineInv(g, s) && s.net == 1 && s.forward == 1 && s.backward == 0 && |s.log| == 1
  {
    CarriedKeepsInv(g, p, q);
    StepMove(p, q);
    CarriedCrosses(g, p, q);
    var e := EventOf(g, map[1 := g.Classify(p)], Moved(p, q), META);
    assert [e][..0] == [] && SumDir([e]) == e.direction;
    CountersSplitNet(g, EngineAfterMove(g, p, q));
  }

  ghost predicate Reaches(g: Geometry, x: real) { exists p :: g.position(p) == x }

  // For a belt axis that reaches every position, that is a nonnegative offset before the gate.
  lemma OffsetDecides(g: Geometry)
    requires forall x: real :: Reaches(g, x)
    ensures g.ZonesAgree() <==> g.preOffset >= 0.0
  {
    if g.preOffset < 0.0 {
      assert Reaches(g, g.gatePos - g.preOffset / 2.0);
      var p :| g.position(p) == g.gatePos - g.preOffset / 2.0;
      assert g.Beyond(p) && PreSide(g.Classify(p));
    }
  }

  // ------------------------------------------------------- crossings of each track

  // Every track's crossings carry 1, 2, 3, ... and strictly alternating directions,
  // the first of them away from the side the track was first measured on.
  lemma CrossingsOfEachTrack(g: Geometry, s: EngineState, i: nat)
    requires EngineInv(g, s) && i < |s.tracker.All()|
    ensures var t := s.tracker.All()[i];
            var mine := Of(s.log, t.id);
            && t.WellFormed()
            && |mine| == t.crossingSeq
            && (forall k | 0 <= k < |mine| :: mine[k].seqNo == k + 1)
            && (forall k | 0 <= k < |mine| - 1 :: mine[k + 1].direction == -mine[k].direction)
            && (|mine| > 0 ==> mine[0].direction == if g.Beyond(t.history[0]) then -1 else 1)
            && (g.Beyond(t.LastMeasured()) <==> (g.Beyond(t.history[0]) <==> |mine| % 2 == 0))
  {
    AllAreWellFormed(s.tracker);
    SignsAlternate(g, s.tracker.All()[i].history);
  }

  // Where the i-th logged event stands among the events of its own track.
  lemma {:induction false} OfPosition(log: seq<Crossing>, i: nat)
    requires i < |log|
    ensures |Of(log[..i], log[i].trackId)| < |Of(log, log[i].trackId)|
    ensures Of(log, log[i].trackId)[|Of(log[..i], log[i].trackId)|] == log[i]
  {
    var x := log[i].trackId;
    assert log == log[..i + 1] + log[i + 1..];
    OfConcat(log[..i + 1], log[i + 1..], x);
    assert log[..i + 1][..i] == log[..i];
  }

  lemma {:induction false} OfGrows(log: seq<Crossing>, i: nat, j: nat)
    requires i < j <= |log|
    ensures |Of(log[..j], log[i].trackId)| > |Of(log[..i], log[i].trackId)|
  {
    OfPosition(log[..j], i);
    assert log[..j][..i] == log[..i];
  }

  lemma {:induction false} TallyFinds(ts: seq<Track>, x: nat) returns (i: nat)
    requires Tally(ts, x) >= 1
    ensures i < |ts| && ts[i].id == x
  {
    if ts[|ts| - 1].id == x {
      i := |ts| - 1;
    } else {
      i := TallyFinds(ts[..|ts| - 1], x);
    }
  }

  // No two logged crossings share track and sequence number.
  lemma LogKeysDistinct(g: Geometry, s: EngineState)
    requires EngineInv(g, s)
    ensures forall i, j | 0 <= i < j < |s.log| ::
              s.log[i].trackId != s.log[j].trackId || s.log[i].seqNo != s.log[j].seqNo
  {
    forall i, j | 0 <= i < j < |s.log| && s.log[i].trackId == s.log[j].trackId
      ensures s.log[i].seqNo != s.log[j].seqNo
    {
      var x := s.log[i].trackId;
      var k := TallyFinds(s.tracker.All(), x);
      assert Logged(g, s.log, x, s.tracker.All()[k].history, s.tracker.All()[k].crossingSeq);
      OfPosition(s.log, i);
      OfPosition(s.log, j);
      OfGrows(s.log, i, j);
    }
  }

  // A track that crossed at all has a first crossing, numbered 1.
  lemma FirstCrossingIsOne(g: Geometry, s: EngineState, i: nat) returns (j: nat)
    requires EngineInv(g, s) && i < |s.log|
    ensures j < |s.log| && s.log[j].trackId == s.log[i].trackId && s.log[j].seqNo == 1
  {
    var x := s.log[i].trackId;
    var k := TallyFinds(s.tracker.All(), x);
    assert Logged(g, s.log, x, s.tracker.All()[k].history, s.tracker.All()[k].crossingSeq);
    OfPosition(s.log, i);
    j := OfMember(s.log, x, 0);
  }

  lemma {:induction false} OfMember(log: seq<Crossing>, x: nat, k: nat) returns (j: nat)
    requires k < |Of(log, x)|
    ensures j < |log| && log[j] == Of(log, x)[k] && log[j].trackId == x
  {
    var n := |log| - 1;
    if k < |Of(log[..n], x)| {
      j := OfMember(log[..n], x, k);
    } else {
      j := n;
    }
  }
}
