/**
 The counting engine as it runs: tracker, gate and counters, driven frame by
 frame. Detections arrive already filtered and split into latent ones.
 */
module Engine {
  import opened Boxes
  import opened Matching
  import opened Tracks
  import opened Plans
  import opened Tracker
  import opened Gate
  import opened Counting
  import opened CountingLaw

  // Events, memory and tracker after the tracker's step and the gate's pass.
  ghost predicate GatedStep(g: Geometry, zones: map<nat, Zone>, r: TrackerState, f: FrameInput,
                            events: seq<Crossing>, zones': map<nat, Zone>, r': TrackerState)
    requires PlanFits(r, f.dets, f.plan)
  {
    var t := Step(f.cfg, r, f.dets, f.prior, f.plan);
    && events == Events(g, zones, t.tracked, f.meta)
    && zones' == ZonesAfter(g, t.tracked)
    && r' == t.(tracked := BumpAll(g, zones, t.tracked))
  }

  lemma FrameIsStep(g: Geometry, s: EngineState, f: FrameInput, events: seq<Crossing>, s': EngineState)
    requires Inv(s.tracker) && SoundPlan(f.cfg, s.tracker, f.dets, f.plan)
    requires GatedStep(g, s.zones, s.tracker, f, events, s'.zones, s'.tracker)
    requires s'.net == s.net + SumDir(events) && s'.log == s.log + events
    requires s'.forward == s.forward + Forwards(events)
    requires s'.backward == s.backward + (|events| - Forwards(events))
    ensures s' == EngineStep(g, s, f) && Inv(s'.tracker)
  {
    StepKeepsInv(f.cfg, s.tracker, f.dets, f.prior, f.plan);
    BumpKeepsInv(g, s.zones, Step(f.cfg, s.tracker, f.dets, f.prior, f.plan));
  }

  lemma FrameKeepsLaw(g: Geometry, s: EngineState, f: FrameInput)
    requires SoundPlan(f.cfg, s.tracker, f.dets, f.plan)
    ensures var s' := EngineStep(g, s, f);
            g.ZonesAgree() && EngineInv(g, s) ==>
              EngineInv(g, s') && NetLaw(g, s') && s'.net == s'.forward - s'.backward
  {
    if g.ZonesAgree() && EngineInv(g, s) {
      EngineStepKeepsInv(g, s, f);
      NetIsDisplacement(g, EngineStep(g, s, f));
      CountersSplitNet(g, EngineStep(g, s, f));
    }
  }

  lemma SeparateByIdsOf(t: TrackerState, ts: seq<BagTrack>)
    requires Inv(t) && t.tracked == Values(ts)
    ensures forall i, j | 0 <= i < j < |ts| :: ts[i].trackId != ts[j].trackId
  {
    IdsApart(t);
    SeparateByIds(t.tracked, ts);
  }

  // The gate's pass, with everything it leaves alone named.
  method GateOnly(gate: GateStateMachine, tracks: seq<BagTrack>, ghost ls: seq<BagTrack>, ghost ps: seq<BagTrack>,
                  ghost tracker: ConveyorByteTracker, meta: FrameMeta)
    returns (events: seq<Crossing>)
    requires forall i, j | 0 <= i < j < |tracks| :: tracks[i].trackId != tracks[j].trackId
    requires Apart(tracks, ls) && Apart(tracks, ps)
    modifies gate`trackZones, tracks
    ensures Values(tracks) == BumpAll(gate.geometry, old(gate.trackZones), old(Values(tracks)))
    ensures events == Events(gate.geometry, old(gate.trackZones), old(Values(tracks)), meta)
    ensures gate.trackZones == ZonesAfter(gate.geometry, old(Values(tracks)))
    ensures gate.geometry == old(gate.geometry) && unchanged(tracker)
    ensures Values(ls) == old(Values(ls)) && Values(ps) == old(Values(ps))
  {
    ghost var g: object, tr: object := gate, tracker;
    assert forall i | 0 <= i < |tracks| :: tracks[i] as object != g && tracks[i] as object != tr;
    assert g != tr;
    assert forall i | 0 <= i < |ls| :: ls[i] as object != g;
    assert forall i | 0 <= i < |ps| :: ps[i] as object != g;
    events := gate.ProcessTracks(tracks, meta);
  }

  class CountingEngine {
    const tracker: ConveyorByteTracker
    const gate: GateStateMachine
    var runningNetCount: int
    var totalForwardCrossings: nat
    var totalBackwardCrossings: nat
    ghost var log: seq<Crossing>

    ghost function State(): EngineState
      reads this, tracker, gate, tracker.trackedTracks, tracker.lostTracks, tracker.prunedTracks
    {
      EngineState(tracker.State(), gate.trackZones,
                  runningNetCount, totalForwardCrossings, totalBackwardCrossings, log)
    }

    ghost function Counters(): (int, nat, nat, seq<Crossing>)
      reads this
    {
      (runningNetCount, totalForwardCrossings, totalBackwardCrossings, log)
    }

    constructor (cfg: Config, geometry: Geometry)
      ensures fresh(tracker) && fresh(gate)
      ensures tracker.cfg == cfg && gate.geometry == geometry
      ensures tracker.Valid() && State() == ENGINE_START
    {
      tracker := new ConveyorByteTracker(cfg);
      gate := new GateStateMachine(geometry);
      runningNetCount, totalForwardCrossings, totalBackwardCrossings, log := 0, 0, 0, [];
    }

    // The gate looks at the tracked tracks; nothing else of the tracker changes.
    method RunGate(meta: FrameMeta, ghost t: TrackerState) returns (events: seq<Crossing>)
      requires tracker.Valid() && t == tracker.State()
      modifies gate`trackZones, tracker.trackedTracks
      ensures events == Events(gate.geometry, old(gate.trackZones), t.tracked, meta)
      ensures gate.trackZones == ZonesAfter(gate.geometry, t.tracked)
      ensures gate.geometry == old(gate.geometry)
      ensures tracker.State() == t.(tracked := BumpAll(gate.geometry, old(gate.trackZones), t.tracked))
      ensures Counters() == old(Counters())
    {
      ghost var me: object := this;
      var tracks := tracker.trackedTracks;
      assert forall i | 0 <= i < |tracks| :: tracks[i] as object != me;
      ghost var ls, ps := tracker.lostTracks, tracker.prunedTracks;
      DistinctIdsSeparate(t, tracks, ls, ps);
      SeparateByIdsOf(t, tracks);
      events := GateOnly(gate, tracks, ls, ps, tracker, meta);
    }

    // The tracker's update; the gate and the counters stand still.
    method RunTracker(dets: seq<Detection>, prior: Point) returns (ghost plan: Plan)
      requires tracker.Valid()
      modifies tracker, tracker.trackedTracks, tracker.lostTracks
      ensures Counters() == old(Counters()) && gate.geometry == old(gate.geometry)
      ensures gate.trackZones == old(gate.trackZones)
      ensures tracker.Valid() && tracker.cfg == old(tracker.cfg)
      ensures FromPasses(tracker.cfg, old(tracker.State()), dets, prior, plan)
      ensures SoundPlan(tracker.cfg, old(tracker.State()), dets, plan)
      ensures tracker.State() == Step(tracker.cfg, old(tracker.State()), dets, prior, plan)
      ensures forall i | 0 <= i < |tracker.trackedTracks| ::
                var t := tracker.trackedTracks[i];
                t in old(tracker.trackedTracks) || t in old(tracker.lostTracks) || fresh(t)
    {
      ghost var me: object, g: object, tr: object := this, gate, tracker;
      assert tr != me && tr != g;
      assert forall i | 0 <= i < |tracker.trackedTracks| ::
          tracker.trackedTracks[i] as object != me && tracker.trackedTracks[i] as object != g;
      assert forall i | 0 <= i < |tracker.lostTracks| ::
          tracker.lostTracks[i] as object != me && tracker.lostTracks[i] as object != g;
      ghost var s := tracker.State();
      var active, st := tracker.Update(dets, prior);
      plan := PlanOf(tracker.cfg, s, dets, st);
    }

    // Tracker, then gate: the counters stand still.
    method TrackAndGate(dets: seq<Detection>, prior: Point, meta: FrameMeta, ghost r: TrackerState)
      returns (events: seq<Crossing>, ghost f: FrameInput)
      requires tracker.Valid() && r == tracker.State()
      modifies tracker, gate`trackZones, tracker.trackedTracks, tracker.lostTracks
      ensures Counters() == old(Counters()) && gate.geometry == old(gate.geometry)
      ensures f.dets == dets && f.prior == prior && f.meta == meta && f.cfg == old(tracker.cfg)
      ensures FromPasses(f.cfg, r, f.dets, f.prior, f.plan) && SoundPlan(f.cfg, r, f.dets, f.plan)
      ensures GatedStep(gate.geometry, old(gate.trackZones), r, f, events, gate.trackZones, tracker.State())
    {
      ghost var plan := RunTracker(dets, prior);
      f := FrameInput(tracker.cfg, dets, prior, plan, meta);
      ghost var t := tracker.State();
      events := RunGate(meta, t);
    }

    // Add up the crossings of one frame.
    method Count(events: seq<Crossing>)
      modifies this`runningNetCount, this`totalForwardCrossings, this`totalBackwardCrossings
      ensures runningNetCount == old(runningNetCount) + SumDir(events)
      ensures totalForwardCrossings == old(totalForwardCrossings) + Forwards(events)
      ensures totalBackwardCrossings == old(totalBackwardCrossings) + (|events| - Forwards(events))
    {
      for i := 0 to |events|
        invariant runningNetCount == old(runningNetCount) + SumDir(events[..i])
        invariant totalForwardCrossings == old(totalForwardCrossings) + Forwards(events[..i])
        invariant totalBackwardCrossings == old(totalBackwardCrossings) + (i - Forwards(events[..i]))
      {
        assert events[..i + 1][..i] == events[..i];
        runningNetCount := runningNetCount + events[i].direction;
        if events[i].direction > 0 {
          totalForwardCrossings := totalForwardCrossings + 1;
        } else {
          totalBackwardCrossings := totalBackwardCrossings + 1;
        }
      }
      assert events[..|events|] == events;
    }

    // Add them up and log them; tracker and gate stand still.
    method CountAndLog(events: seq<Crossing>)
      modifies this`runningNetCount, this`totalForwardCrossings, this`totalBackwardCrossings, this`log
      ensures runningNetCount == old(runningNetCount) + SumDir(events)
      ensures totalForwardCrossings == old(totalForwardCrossings) + Forwards(events)
      ensures totalBackwardCrossings == old(totalBackwardCrossings) + (|events| - Forwards(events))
      ensures log == old(log) + events
      ensures tracker.State() == old(tracker.State())
      ensures gate.trackZones == old(gate.trackZones) && gate.geometry == old(gate.geometry)
    {
      ghost var tr: object, g: object, me: object := tracker, gate, this;
      assert me != tr && me != g;
      assert forall i | 0 <= i < |tracker.trackedTracks| :: tracker.trackedTracks[i] as object != me;
      assert forall i | 0 <= i < |tracker.lostTracks| :: tracker.lostTracks[i] as object != me;
      assert forall i | 0 <= i < |tracker.prunedTracks| :: tracker.prunedTracks[i] as object != me;
      Count(events);
      log := log + events;
    }

    // One frame is one step of the pipeline, with a plan that uses its detections properly.
    method ProcessFrame(dets: seq<Detection>, prior: Point, meta: FrameMeta)
      returns (events: seq<Crossing>, ghost f: FrameInput)
      requires tracker.Valid()
      modifies this`runningNetCount, this`totalForwardCrossings, this`totalBackwardCrossings, this`log
      modifies tracker, gate`trackZones, tracker.trackedTracks, tracker.lostTracks
      ensures tracker.Valid() && gate.geometry == old(gate.geometry)
      ensures f.dets == dets && f.prior == prior && f.meta == meta && f.cfg == old(tracker.cfg)
      ensures FromPasses(f.cfg, old(State()).tracker, f.dets, f.prior, f.plan)
      ensures SoundPlan(f.cfg, old(State()).tracker, f.dets, f.plan)
      ensures State() == EngineStep(gate.geometry, old(State()), f)
      ensures log == old(log) + events
      ensures gate.geometry.ZonesAgree() && EngineInv(gate.geometry, old(State())) ==>
                EngineInv(gate.geometry, State()) && NetLaw(gate.geometry, State())
                && runningNetCount == totalForwardCrossings - totalBackwardCrossings
    {
      ghost var s := State();
      events, f := TrackAndGate(dets, prior, meta, s.tracker);
      CountAndLog(events);
      FrameIsStep(gate.geometry, s, f, events, State());
      FrameKeepsLaw(gate.geometry, s, f);
    }
  }
}
