/**
 The counting pipeline as a function of its inputs, and the invariant that ties the gate's
 memory and the event log to the histories of all tracks. */
module Counting {
  import opened Wrappers
  import opened Boxes
  import opened Matching
  import opened Tracks
  import opened Gate

  // ------------------------------------------------- crossings of one history

  // The sign of every change of side along a history of measurements.
  function Signs(g: Geometry, h: seq<Point>): seq<int> {
    if |h| <= 1 then [] else
      var n := |h|;
      var rest := Signs(g, h[..n - 1]);
      var d := g.Side(h[n - 1]) - g.Side(h[n - 2]);
      if d == 0 then rest else rest + [d]
  }

  function SumOf(s: seq<int>): int {
    if s == [] then 0 else SumOf(s[..|s| - 1]) + s[|s| - 1]
  }

  // The signs telescope.
  lemma {:induction false} SignsSum(g: Geometry, h: seq<Point>)
    requires |h| >= 1
    ensures SumOf(Signs(g, h)) == g.Side(h[|h| - 1]) - g.Side(h[0])
  {
    if |h| >= 2 {
      SignsSum(g, h[..|h| - 1]);
    }
  }

  // Crossings of one track alternate strictly and begin away from the starting side.
  lemma {:induction false} SignsAlternate(g: Geometry, h: seq<Point>)
    requires |h| >= 1
    ensures forall k | 0 <= k < |Signs(g, h)| ::
              Signs(g, h)[k] == if (g.Side(h[0]) == 0) == (k % 2 == 0) then 1 else -1
    ensures g.Side(h[|h| - 1]) == if |Signs(g, h)| % 2 == 0 then g.Side(h[0]) else 1 - g.Side(h[0])
  {
    if |h| >= 2 {
      SignsAlternate(g, h[..|h| - 1]);
    }
  }

  // ---------------------------------------------------------------- event logs

  // The events of one track, in order.
  function Of(log: seq<Crossing>, id: nat): seq<Crossing> {
    if log == [] then [] else
      var e, rest := log[|log| - 1], Of(log[..|log| - 1], id);
      if e.trackId == id then rest + [e] else rest
  }

  function SumDir(log: seq<Crossing>): int {
    if log == [] then 0 else SumDir(log[..|log| - 1]) + log[|log| - 1].direction
  }

  function Forwards(log: seq<Crossing>): (n: nat)
    ensures n <= |log|
  {
    if log == [] then 0 else Forwards(log[..|log| - 1]) + if log[|log| - 1].direction > 0 then 1 else 0
  }

  lemma {:induction false} OfConcat(a: seq<Crossing>, b: seq<Crossing>, id: nat)
    ensures Of(a + b, id) == Of(a, id) + Of(b, id)
  {
    if b == [] {
      assert a + b == a;
    } else {
      OfConcat(a, b[..|b| - 1], id);
      assert (a + b)[..|a + b| - 1] == a + b[..|b| - 1];
    }
  }

  lemma {:induction false} SumConcat(a: seq<Crossing>, b: seq<Crossing>)
    ensures SumDir(a + b) == SumDir(a) + SumDir(b)
    ensures Forwards(a + b) == Forwards(a) + Forwards(b)
  {
    if b == [] {
      assert a + b == a;
    } else {
      SumConcat(a, b[..|b| - 1]);
      assert (a + b)[..|a + b| - 1] == a + b[..|b| - 1];
    }
  }

  // The logged events of a track are the crossings of its history, numbered 1, 2, 3, ...
  ghost predicate Logged(g: Geometry, log: seq<Crossing>, id: nat, history: seq<Point>, crossingSeq: nat) {
    && |Of(log, id)| == |Signs(g, history)| == crossingSeq
    && forall k | 0 <= k < crossingSeq ::
         Of(log, id)[k].seqNo == k + 1 && Of(log, id)[k].direction == Signs(g, history)[k]
         && Of(log, id)[k].gateId == g.gateId
  }

  ghost predicate AllLogged(g: Geometry, log: seq<Crossing>, ts: seq<Track>) {
    forall i | 0 <= i < |ts| :: Logged(g, log, ts[i].id, ts[i].history, ts[i].crossingSeq)
  }

  // ------------------------------------------------------------ one engine frame

  datatype EngineState = EngineState(
    tracker: TrackerState, zones: map<nat, Zone>, net: int, forward: nat, backward: nat, log: seq<Crossing>)

  const ENGINE_START: EngineState := EngineState(START, map[], 0, 0, 0, [])

  datatype FrameInput = FrameInput(cfg: Config, dets: seq<Detection>, prior: Point, plan: Plan, meta: FrameMeta)

  // The gate and the counters, after the tracker has moved to t.
  function GateStep(g: Geometry, s: EngineState, t: TrackerState, meta: FrameMeta): EngineState {
    var ev := Events(g, s.zones, t.tracked, meta);
    EngineState(t.(tracked := BumpAll(g, s.zones, t.tracked)), ZonesAfter(g, t.tracked),
                s.net + SumDir(ev), s.forward + Forwards(ev), s.backward + (|ev| - Forwards(ev)),
                s.log + ev)
  }

  function EngineStep(g: Geometry, s: EngineState, f: FrameInput): EngineState
    requires PlanFits(s.tracker, f.dets, f.plan)
  {
    GateStep(g, s, Step(f.cfg, s.tracker, f.dets, f.prior, f.plan), f.meta)
  }

  // The gate remembers exactly the tracked tracks ...
  ghost predicate RemembersIds(zones: map<nat, Zone>, tracked: seq<Track>) {
    forall x: nat :: x in zones <==> HasId(tracked, x)
  }

  // ... each with the zone of its last measurement.
  ghost predicate RemembersZones(g: Geometry, zones: map<nat, Zone>, tracked: seq<Track>) {
    forall i | 0 <= i < |tracked| ::
      tracked[i].id in zones && tracked[i].WellFormed()
      && zones[tracked[i].id] == g.Classify(tracked[i].LastMeasured())
  }

  // The log covers every history, and the counters split it by sign.
  ghost predicate LogInv(g: Geometry, s: EngineState) {
    && AllLogged(g, s.log, s.tracker.All())
    && (forall k | 0 <= k < |s.log| :: 1 <= s.log[k].trackId <= s.tracker.count)
    && s.net == SumDir(s.log)
    && s.forward == Forwards(s.log) && s.backward == |s.log| - Forwards(s.log)
  }

  ghost predicate EngineInv(g: Geometry, s: EngineState) {
    && Inv(s.tracker)
    && RemembersIds(s.zones, s.tracker.tracked)
    && RemembersZones(g, s.zones, s.tracker.tracked)
    && LogInv(g, s)
  }

  // --------------------------------------------- between the tracker and the gate

  // A track the tracker just returned: the log covers its history up to the last
  // measurement but one, and the gate can tell which side that one was on, either
  // because it remembers or because the history still shows it.
  ghost predicate Pending(g: Geometry, zones: map<nat, Zone>, log: seq<Crossing>, t: Track) {
    && t.WellFormed() && t.centroid == t.LastMeasured()
    && Logged(g, log, t.id, t.history[..|t.history| - 1], t.crossingSeq)
    && (|t.history| == 1 ==> t.id !in zones)
    && (|t.history| >= 2 && t.id in zones ==>
          zones[t.id] == g.Classify(t.history[|t.history| - 2]))
  }

  ghost predicate AllPending(g: Geometry, zones: map<nat, Zone>, log: seq<Crossing>, ts: seq<Track>) {
    forall i | 0 <= i < |ts| :: Pending(g, zones, log, ts[i])
  }

  // The gate's verdict on such a track is the change of side of its last two measurements.
  lemma PendingDirection(g: Geometry, zones: map<nat, Zone>, log: seq<Crossing>, t: Track)
    requires g.ZonesAgree() && Pending(g, zones, log, t)
    ensures DirectionOf(g, zones, t)
         == if |t.history| == 1 then 0
            else g.Side(t.history[|t.history| - 1]) - g.Side(t.history[|t.history| - 2])
  {
    assert PreSide(g.Classify(t.centroid)) <==> !g.Beyond(t.centroid);
    if |t.history| >= 2 {
      var p := t.history[|t.history| - 2];
      assert PreSide(g.Classify(p)) <==> !g.Beyond(p);
    }
  }

  ghost predicate DistinctIds(ts: seq<Track>) {
    forall i, j | 0 <= i < j < |ts| :: ts[i].id != ts[j].id
  }

  // Among the events of one frame, a track that was not seen has none ...
  lemma {:induction false} NoEventsOf(g: Geometry, zones: map<nat, Zone>, ts: seq<Track>, meta: FrameMeta, x: nat)
    requires forall i | 0 <= i < |ts| :: ts[i].id != x
    ensures Of(Events(g, zones, ts, meta), x) == []
  {
    if ts != [] {
      var k := |ts| - 1;
      NoEventsOf(g, zones, ts[..k], meta, x);
      EventsOfLast(g, zones, ts, meta, x);
    }
  }

  // The last track adds its own event, if it has one, to those of the others.
  lemma EventsOfLast(g: Geometry, zones: map<nat, Zone>, ts: seq<Track>, meta: FrameMeta, x: nat)
    requires ts != []
    ensures var t, before := ts[|ts| - 1], Of(Events(g, zones, ts[..|ts| - 1], meta), x);
            Of(Events(g, zones, ts, meta), x)
            == if t.id == x && DirectionOf(g, zones, t) != 0 then before + [EventOf(g, zones, t, meta)] else before
  {
    var k := |ts| - 1;
    OfAppend(Events(g, zones, ts[..k], meta), EventOf(g, zones, ts[k], meta), x);
  }

  // ... and one that was seen has its own one or none.
  lemma {:induction false} EventsOfOne(g: Geometry, zones: map<nat, Zone>, ts: seq<Track>, meta: FrameMeta, i: nat)
    requires DistinctIds(ts) && i < |ts|
    ensures Of(Events(g, zones, ts, meta), ts[i].id)
         == if DirectionOf(g, zones, ts[i]) == 0 then [] else [EventOf(g, zones, ts[i], meta)]
  {
    EventsOfLast(g, zones, ts, meta, ts[i].id);
    if i < |ts| - 1 {
      EventsOfOne(g, zones, ts[..|ts| - 1], meta, i);
    } else {
      NoEventsOf(g, zones, ts[..|ts| - 1], meta, ts[i].id);
    }
  }

  lemma OfAppend(log: seq<Crossing>, e: Crossing, x: nat)
    ensures Of(log + [e], x) == if e.trackId == x then Of(log, x) + [e] else Of(log, x)
  {
    assert (log + [e])[..|log|] == log;
  }

  // One more measurement and its crossing, or none.
  lemma LoggedGrows(g: Geometry, log: seq<Crossing>, more: seq<Crossing>, id: nat, history: seq<Point>, n: nat, d: int)
    requires |history| >= 1 && Logged(g, log, id, history[..|history| - 1], n)
    requires d == if |history| == 1 then 0
                  else g.Side(history[|history| - 1]) - g.Side(history[|history| - 2])
    requires d == 0 ==> Of(more, id) == []
    requires d != 0 ==> |Of(more, id)| == 1 && Of(more, id)[0].seqNo == n + 1
                        && Of(more, id)[0].direction == d && Of(more, id)[0].gateId == g.gateId
    ensures Logged(g, log + more, id, history, if d == 0 then n else n + 1)
  {
    var mine, signs := Of(log, id), Signs(g, history[..|history| - 1]);
    OfConcat(log, more, id);
    if d == 0 {
      assert Signs(g, history) == signs && Of(log + more, id) == mine;
    } else {
      LoggedOneMore(g, log + more, id, history, n, mine, Of(more, id)[0], signs, d);
    }
  }

  lemma LoggedOneMore(g: Geometry, log: seq<Crossing>, id: nat, history: seq<Point>, n: nat,
                      mine: seq<Crossing>, e: Crossing, signs: seq<int>, d: int)
    requires Of(log, id) == mine + [e] && Signs(g, history) == signs + [d]
    requires |mine| == |signs| == n && e.seqNo == n + 1 && e.direction == d && e.gateId == g.gateId
    requires forall k | 0 <= k < n :: mine[k].seqNo == k + 1 && mine[k].direction == signs[k] && mine[k].gateId == g.gateId
    ensures Logged(g, log, id, history, n + 1)
  {
  }

  lemma OwnEvents(g: Geometry, zones: map<nat, Zone>, ts: seq<Track>, meta: FrameMeta, i: nat)
    requires DistinctIds(ts) && i < |ts|
    ensures var d, mine := DirectionOf(g, zones, ts[i]), Of(Events(g, zones, ts, meta), ts[i].id);
            && (d == 0 ==> mine == [])
            && (d != 0 ==> |mine| == 1 && mine[0].seqNo == ts[i].crossingSeq + 1
                           && mine[0].direction == d && mine[0].gateId == g.gateId)
  {
    EventsOfOne(g, zones, ts, meta, i);
  }

  lemma BumpCounts(g: Geometry, zones: map<nat, Zone>, t: Track)
    ensures var u := Bump(g, zones, t);
            u.id == t.id && u.history == t.history
            && u.crossingSeq == if DirectionOf(g, zones, t) == 0 then t.crossingSeq else t.crossingSeq + 1
  {
  }

  // After the gate, the log covers the whole history.
  lemma PendingBecomesLogged(g: Geometry, zones: map<nat, Zone>, log: seq<Crossing>, ts: seq<Track>,
                             meta: FrameMeta, i: nat)
    requires g.ZonesAgree() && DistinctIds(ts) && i < |ts| && Pending(g, zones, log, ts[i])
    ensures var t := Bump(g, zones, ts[i]);
            Logged(g, log + Events(g, zones, ts, meta), t.id, t.history, t.crossingSeq)
  {
    var t, d := ts[i], DirectionOf(g, zones, ts[i]);
    OwnEvents(g, zones, ts, meta, i);
    PendingDirection(g, zones, log, t);
    LoggedGrows(g, log, Events(g, zones, ts, meta), t.id, t.history, t.crossingSeq, d);
    BumpCounts(g, zones, t);
  }

  // A track the gate did not see gets no event.
  lemma UnseenStaysLogged(g: Geometry, zones: map<nat, Zone>, log: seq<Crossing>, ts: seq<Track>,
                          meta: FrameMeta, u: Track)
    requires DistinctIds(ts) && !HasId(ts, u.id) && Logged(g, log, u.id, u.history, u.crossingSeq)
    ensures Logged(g, log + Events(g, zones, ts, meta), u.id, u.history, u.crossingSeq)
  {
    assert forall i | 0 <= i < |ts| :: ts[i].id != u.id;
    NoEventsOf(g, zones, ts, meta, u.id);
    OfConcat(log, Events(g, zones, ts, meta), u.id);
  }

  // ------------------------------------------------------- the tracker's part

  lemma {:induction false} KeepsLogged(g: Geometry, log: seq<Crossing>, ts: seq<Track>, given: seq<Option<nat>>)
    requires |ts| == |given| && AllLogged(g, log, ts)
    ensures AllLogged(g, log, Unassigned(ts, given))
  {
    if ts != [] {
      KeepsLogged(g, log, ts[..|ts| - 1], given[..|ts| - 1]);
    }
  }

  lemma {:induction false} PruneKeepsLogged(g: Geometry, log: seq<Crossing>, ts: seq<Track>, limit: int)
    requires AllLogged(g, log, ts)
    ensures AllLogged(g, log, Within(ts, limit)) && AllLogged(g, log, Overdue(ts, limit))
  {
    if ts != [] {
      PruneKeepsLogged(g, log, ts[..|ts| - 1], limit);
    }
  }

  // What the gate remembers of a track is its last measurement, if it remembers it at all.
  ghost predicate MemoryFits(g: Geometry, zones: map<nat, Zone>, ts: seq<Track>) {
    forall i | 0 <= i < |ts| ::
      ts[i].WellFormed() && (ts[i].id in zones ==> zones[ts[i].id] == g.Classify(ts[i].LastMeasured()))
  }

  lemma MeasuredOnePends(g: Geometry, zones: map<nat, Zone>, log: seq<Crossing>, t: Track, d: Detection)
    requires Logged(g, log, t.id, t.history, t.crossingSeq) && t.WellFormed() && t.timeSinceUpdate >= 1
    requires t.id in zones ==> zones[t.id] == g.Classify(t.LastMeasured())
    ensures Pending(g, zones, log, t.Measure(d))
  {
    var m := t.Measure(d);
    assert m.history[..|m.history| - 1] == t.history;
  }

  lemma {:induction false} MeasuredPend(g: Geometry, zones: map<nat, Zone>, log: seq<Crossing>, ts: seq<Track>,
                                        given: seq<Option<nat>>, dets: seq<Detection>)
    requires |ts| == |given| && PointsInto(given, |dets|)
    requires AllLogged(g, log, ts) && MemoryFits(g, zones, ts)
    requires forall i | 0 <= i < |ts| :: ts[i].timeSinceUpdate >= 1
    ensures AllPending(g, zones, log, Measured(ts, given, dets))
  {
    if ts != [] {
      var k := |ts| - 1;
      MeasuredPend(g, zones, log, ts[..k], given[..k], dets);
      if given[k].Some? {
        MeasuredOnePends(g, zones, log, ts[k], dets[given[k].value]);
      }
    }
  }

  lemma {:induction false} NoEventsYet(log: seq<Crossing>, count: nat, x: nat)
    requires forall k | 0 <= k < |log| :: log[k].trackId <= count
    requires x > count
    ensures Of(log, x) == []
  {
    if log != [] {
      NoEventsYet(log[..|log| - 1], count, x);
    }
  }

  lemma BirthsPend(g: Geometry, zones: map<nat, Zone>, log: seq<Crossing>, count: nat,
                   born: seq<nat>, dets: seq<Detection>)
    requires InRange(born, |dets|)
    requires forall k | 0 <= k < |log| :: log[k].trackId <= count
    requires forall x | x in zones :: x <= count
    ensures AllPending(g, zones, log, Births(count, born, dets))
  {
    var ts := Births(count, born, dets);
    forall k | 0 <= k < |ts| ensures Pending(g, zones, log, ts[k]) {
      NoEventsYet(log, count, ts[k].id);
      assert ts[k].history[..0] == [];
    }
  }

  // After the tracker and before the gate.
  lemma TrackerPart(g: Geometry, s: EngineState, f: FrameInput)
    requires EngineInv(g, s) && PlanFits(s.tracker, f.dets, f.plan)
    ensures var t := Step(f.cfg, s.tracker, f.dets, f.prior, f.plan);
            && AllPending(g, s.zones, s.log, t.tracked)
            && AllLogged(g, s.log, t.lost) && AllLogged(g, s.log, t.pruned)
  {
    ListsLogged(g, s);
    MemoryOfLists(g, s, f.prior);
    TrackedPart(g, s, f);
    LostPart(g, s, f);
  }

  lemma TrackedPart(g: Geometry, s: EngineState, f: FrameInput)
    requires PlanFits(s.tracker, f.dets, f.plan)
    requires AllLogged(g, s.log, s.tracker.tracked) && AllLogged(g, s.log, s.tracker.lost)
    requires MemoryFits(g, s.zones, PredictAll(s.tracker.tracked, f.prior))
    requires MemoryFits(g, s.zones, PredictAll(s.tracker.lost, f.prior))
    requires forall k | 0 <= k < |s.log| :: s.log[k].trackId <= s.tracker.count
    requires forall x | x in s.zones :: x <= s.tracker.count
    ensures AllPending(g, s.zones, s.log, Step(f.cfg, s.tracker, f.dets, f.prior, f.plan).tracked)
  {
    MeasuredPend(g, s.zones, s.log, PredictAll(s.tracker.tracked, f.prior), f.plan.trackedBy, f.dets);
    MeasuredPend(g, s.zones, s.log, PredictAll(s.tracker.lost, f.prior), f.plan.lostBy, f.dets);
    BirthsPend(g, s.zones, s.log, s.tracker.count, f.plan.born, f.dets);
  }

  lemma LostPart(g: Geometry, s: EngineState, f: FrameInput)
    requires PlanFits(s.tracker, f.dets, f.plan)
    requires AllLogged(g, s.log, s.tracker.tracked) && AllLogged(g, s.log, s.tracker.lost)
    requires AllLogged(g, s.log, s.tracker.pruned)
    ensures var t := Step(f.cfg, s.tracker, f.dets, f.prior, f.plan);
            AllLogged(g, s.log, t.lost) && AllLogged(g, s.log, t.pruned)
  {
    var pt, pl := PredictAll(s.tracker.tracked, f.prior), PredictAll(s.tracker.lost, f.prior);
    KeepsLogged(g, s.log, pt, f.plan.trackedBy);
    KeepsLogged(g, s.log, pl, f.plan.lostBy);
    PruneKeepsLogged(g, s.log, Unassigned(pl, f.plan.lostBy) + MarkAllLost(Unassigned(pt, f.plan.trackedBy)),
                     f.cfg.maxTimeLost);
  }

  lemma ListsLogged(g: Geometry, s: EngineState)
    requires AllLogged(g, s.log, s.tracker.All())
    ensures AllLogged(g, s.log, s.tracker.tracked) && AllLogged(g, s.log, s.tracker.lost)
    ensures AllLogged(g, s.log, s.tracker.pruned)
  {
    var r := s.tracker;
    var n, m := |r.tracked|, |r.lost|;
    assert forall i | 0 <= i < n :: r.tracked[i] == r.All()[i];
    assert forall i | 0 <= i < m :: r.lost[i] == r.All()[n + i];
    assert forall i | 0 <= i < |r.pruned| :: r.pruned[i] == r.All()[n + m + i];
  }

  lemma MemoryOfLists(g: Geometry, s: EngineState, prior: Point)
    requires EngineInv(g, s)
    ensures MemoryFits(g, s.zones, PredictAll(s.tracker.tracked, prior))
    ensures MemoryFits(g, s.zones, PredictAll(s.tracker.lost, prior))
    ensures forall x | x in s.zones :: x <= s.tracker.count
  {
    var r := s.tracker;
    IdentityLaw(r);
    IdsApart(r);
    forall x | x in s.zones ensures x <= r.count {
      var i :| 0 <= i < |r.tracked| && r.tracked[i].id == x;
      assert r.All()[i].id == x;
    }
  }

  // ------------------------------------------------------------- the gate's part

  lemma BumpKeepsTallies(g: Geometry, zones: map<nat, Zone>, t: TrackerState, x: nat)
    ensures Tally(t.(tracked := BumpAll(g, zones, t.tracked)).All(), x) == Tally(t.All(), x)
  {
    SameIds(t.(tracked := BumpAll(g, zones, t.tracked)).All(), t.All(), x);
  }

  lemma BumpKeepsShape(g: Geometry, zones: map<nat, Zone>, ts: seq<Track>)
    requires TrackedShape(ts)
    ensures TrackedShape(BumpAll(g, zones, ts))
  {
    var us := BumpAll(g, zones, ts);
    forall i | 0 <= i < |us|
      ensures us[i].WellFormed() && us[i].Active() && us[i].timeSinceUpdate == 0
      ensures us[i].centroid == us[i].LastMeasured() && (us[i].phase == Tentative <==> us[i].hits == 1)
    {
      BumpKeepsTrack(g, zones, ts[i]);
    }
  }

  // A crossing changes nothing of a track but its crossing counter.
  lemma BumpKeepsTrack(g: Geometry, zones: map<nat, Zone>, t: Track)
    ensures var u := Bump(g, zones, t);
            u == t.(crossingSeq := u.crossingSeq) && t.crossingSeq <= u.crossingSeq <= t.crossingSeq + 1
  {
  }

  lemma BumpKeepsInv(g: Geometry, zones: map<nat, Zone>, t: TrackerState)
    requires Inv(t)
    ensures Inv(t.(tracked := BumpAll(g, zones, t.tracked)))
  {
    var t' := t.(tracked := BumpAll(g, zones, t.tracked));
    BumpKeepsShape(g, zones, t.tracked);
    forall x: nat ensures Tally(t'.All(), x) == if 1 <= x <= t.count then 1 else 0 {
      BumpKeepsTallies(g, zones, t, x);
      assert Tally(t.All(), x) == if 1 <= x <= t.count then 1 else 0;
    }
  }

  lemma BumpKeepsIds(g: Geometry, zones: map<nat, Zone>, ts: seq<Track>, x: nat)
    ensures HasId(BumpAll(g, zones, ts), x) <==> HasId(ts, x)
  {
    var bumped := BumpAll(g, zones, ts);
    if HasId(bumped, x) {
      var i :| 0 <= i < |bumped| && bumped[i].id == x;
      assert ts[i].id == x;
    }
    if HasId(ts, x) {
      var i :| 0 <= i < |ts| && ts[i].id == x;
      assert bumped[i].id == x;
    }
  }

  lemma GateRemembersIds(g: Geometry, zones: map<nat, Zone>, ts: seq<Track>)
    ensures RemembersIds(ZonesAfter(g, ts), BumpAll(g, zones, ts))
  {
    ZonesAfterKeys(g, ts);
    forall x: nat ensures x in ZonesAfter(g, ts) <==> HasId(BumpAll(g, zones, ts), x) {
      BumpKeepsIds(g, zones, ts, x);
    }
  }

  lemma GateRemembersZones(g: Geometry, zones: map<nat, Zone>, ts: seq<Track>)
    requires DistinctIds(ts) && TrackedShape(ts)
    ensures RemembersZones(g, ZonesAfter(g, ts), BumpAll(g, zones, ts))
  {
    forall i | 0 <= i < |ts| ensures RemembersOne(g, ZonesAfter(g, ts), BumpAll(g, zones, ts)[i]) {
      GateRemembersOne(g, zones, ts, i);
    }
  }

  ghost predicate RemembersOne(g: Geometry, zones: map<nat, Zone>, t: Track) {
    t.id in zones && t.WellFormed() && zones[t.id] == g.Classify(t.LastMeasured())
  }

  lemma GateRemembersOne(g: Geometry, zones: map<nat, Zone>, ts: seq<Track>, i: nat)
    requires DistinctIds(ts) && i < |ts| && ts[i].WellFormed() && ts[i].centroid == ts[i].LastMeasured()
    ensures RemembersOne(g, ZonesAfter(g, ts), BumpAll(g, zones, ts)[i])
  {
    ZonesAfterValue(g, ts, i);
    BumpKeepsTrack(g, zones, ts[i]);
  }

  lemma GateLogs(g: Geometry, zones: map<nat, Zone>, log: seq<Crossing>, t: TrackerState, meta: FrameMeta)
    requires g.ZonesAgree() && Inv(t)
    requires AllPending(g, zones, log, t.tracked) && AllLogged(g, log, t.lost) && AllLogged(g, log, t.pruned)
    ensures var log' := log + Events(g, zones, t.tracked, meta);
            AllLogged(g, log', BumpAll(g, zones, t.tracked) + t.lost + t.pruned)
  {
    IdsApart(t);
    var log' := log + Events(g, zones, t.tracked, meta);
    forall i | 0 <= i < |t.tracked|
      ensures var u := Bump(g, zones, t.tracked[i]); Logged(g, log', u.id, u.history, u.crossingSeq)
    {
      PendingBecomesLogged(g, zones, log, t.tracked, meta, i);
    }
    forall i | 0 <= i < |t.lost|
      ensures Logged(g, log', t.lost[i].id, t.lost[i].history, t.lost[i].crossingSeq)
    {
      UnseenStaysLogged(g, zones, log, t.tracked, meta, t.lost[i]);
    }
    forall i | 0 <= i < |t.pruned|
      ensures Logged(g, log', t.pruned[i].id, t.pruned[i].history, t.pruned[i].crossingSeq)
    {
      UnseenStaysLogged(g, zones, log, t.tracked, meta, t.pruned[i]);
    }
  }

  lemma {:induction false} EventIds(g: Geometry, zones: map<nat, Zone>, ts: seq<Track>, meta: FrameMeta, count: nat)
    requires forall i | 0 <= i < |ts| :: 1 <= ts[i].id <= count
    ensures forall k | 0 <= k < |Events(g, zones, ts, meta)| ::
              1 <= Events(g, zones, ts, meta)[k].trackId <= count
  {
    if ts != [] {
      EventIds(g, zones, ts[..|ts| - 1], meta, count);
    }
  }

  lemma LogIdsInRange(g: Geometry, zones: map<nat, Zone>, log: seq<Crossing>, t: TrackerState, count: nat,
                      meta: FrameMeta)
    requires Inv(t) && count <= t.count
    requires forall k | 0 <= k < |log| :: 1 <= log[k].trackId <= count
    ensures var log' := log + Events(g, zones, t.tracked, meta);
            forall k | 0 <= k < |log'| :: 1 <= log'[k].trackId <= t.count
  {
    IdentityLaw(t);
    assert forall i | 0 <= i < |t.tracked| :: t.tracked[i] == t.All()[i];
    EventIds(g, zones, t.tracked, meta, t.count);
  }

  // One frame keeps everything.
  lemma EngineStepKeepsInv(g: Geometry, s: EngineState, f: FrameInput)
    requires g.ZonesAgree() && EngineInv(g, s) && PlanFits(s.tracker, f.dets, f.plan)
    ensures EngineInv(g, EngineStep(g, s, f))
  {
    var t := Step(f.cfg, s.tracker, f.dets, f.prior, f.plan);
    StepKeepsInv(f.cfg, s.tracker, f.dets, f.prior, f.plan);
    TrackerPart(g, s, f);
    IdsApart(t);
    GateStepKeepsInv(g, s, t, f.meta);
  }

  lemma GateStepKeepsLog(g: Geometry, s: EngineState, t: TrackerState, meta: FrameMeta)
    requires g.ZonesAgree() && Inv(t) && s.tracker.count <= t.count
    requires AllPending(g, s.zones, s.log, t.tracked) && AllLogged(g, s.log, t.lost) && AllLogged(g, s.log, t.pruned)
    requires LogInv(g, s)
    ensures LogInv(g, GateStep(g, s, t, meta))
  {
    LogIdsInRange(g, s.zones, s.log, t, s.tracker.count, meta);
    GateLogs(g, s.zones, s.log, t, meta);
    SumConcat(s.log, Events(g, s.zones, t.tracked, meta));
  }

  lemma GateStepKeepsInv(g: Geometry, s: EngineState, t: TrackerState, meta: FrameMeta)
    requires g.ZonesAgree() && Inv(t) && DistinctIds(t.tracked) && s.tracker.count <= t.count
    requires AllPending(g, s.zones, s.log, t.tracked) && AllLogged(g, s.log, t.lost) && AllLogged(g, s.log, t.pruned)
    requires LogInv(g, s)
    ensures EngineInv(g, GateStep(g, s, t, meta))
  {
    GateStepKeepsLog(g, s, t, meta);
    BumpKeepsInv(g, s.zones, t);
    GateRemembersIds(g, s.zones, t.tracked);
    GateRemembersZones(g, s.zones, t.tracked);
  }
}
