/**
 Where a row of the ledger comes from: the frame, the bag and the detection behind every
 recorded crossing.
 */
module Provenance {
  import opened Wrappers
  import opened Tracks
  import opened Fates
  import opened Gate
  import opened Counting
  import opened Ledger
  import opened Delivery
  import Sessions
  import W = Worker

  // ------------------------------------------------------------------- crossings of one frame

  // The event tells of a track of the frame, as it is after the frame.
  ghost predicate TellsOf(g: Geometry, e: Crossing, u: Track, meta: FrameMeta) {
    && e.trackId == u.id && e.seqNo == u.crossingSeq && e.gateId == g.gateId && e.meta == meta
    && e.confidence == u.score && e.mergeFlag == u.latent && e.centroid == u.centroid
    && |u.history| >= 2
    && e.direction == g.Side(u.history[|u.history| - 1]) - g.Side(u.history[|u.history| - 2]) != 0
  }

  lemma {:induction false} EventsFrom(g: Geometry, zones: map<nat, Zone>, ts: seq<Track>, meta: FrameMeta, e: Crossing)
    returns (i: nat)
    requires e in Events(g, zones, ts, meta)
    ensures i < |ts| && e == EventOf(g, zones, ts[i], meta) && DirectionOf(g, zones, ts[i]) != 0
  {
    var k := |ts| - 1;
    if e in Events(g, zones, ts[..k], meta) {
      i := EventsFrom(g, zones, ts[..k], meta, e);
    } else {
      i := k;
    }
  }

  // The event of a track the tracker just returned.
  lemma EventTells(g: Geometry, zones: map<nat, Zone>, log: seq<Crossing>, t: Track, meta: FrameMeta)
    requires g.ZonesAgree() && Pending(g, zones, log, t) && DirectionOf(g, zones, t) != 0
    ensures TellsOf(g, EventOf(g, zones, t, meta), Bump(g, zones, t), meta)
  {
    PendingDirection(g, zones, log, t);
  }

  lemma BumpedTrack(g: Geometry, zones: map<nat, Zone>, ts: seq<Track>, i: nat)
    requires i < |ts|
    ensures Bump(g, zones, ts[i]) in BumpAll(g, zones, ts)
  {
    assert BumpAll(g, zones, ts)[i] == Bump(g, zones, ts[i]);
  }

  lemma PendingAfterStep(g: Geometry, s: EngineState, f: FrameInput, i: nat)
    requires EngineInv(g, s) && PlanFits(s.tracker, f.dets, f.plan)
    requires i < |Step(f.cfg, s.tracker, f.dets, f.prior, f.plan).tracked|
    ensures Pending(g, s.zones, s.log, Step(f.cfg, s.tracker, f.dets, f.prior, f.plan).tracked[i])
  {
    TrackerPart(g, s, f);
  }

  // A new entry of the log comes from a track of the frame that sits on one of its detections.
  lemma CrossingHasDetection(g: Geometry, s: EngineState, f: FrameInput, e: Crossing) returns (u: Track, d: nat)
    requires g.ZonesAgree() && EngineInv(g, s) && SoundPlan(f.cfg, s.tracker, f.dets, f.plan)
    requires var log := EngineStep(g, s, f).log; s.log <= log && e in log[|s.log|..]
    ensures u in EngineStep(g, s, f).tracker.tracked && TellsOf(g, e, u, f.meta)
    ensures d < |f.dets| && SitsOn(u, f.dets[d])
  {
    var ts := Step(f.cfg, s.tracker, f.dets, f.prior, f.plan).tracked;
    var i := EventsFrom(g, s.zones, ts, f.meta, e);
    TrackedSitOnDetections(f.cfg, s.tracker, f.dets, f.prior, f.plan);
    d :| 0 <= d < |f.dets| && SitsOn(ts[i], f.dets[d]);
    u := Bump(g, s.zones, ts[i]);
    PendingAfterStep(g, s, f, i);
    EventTells(g, s.zones, s.log, ts[i], f.meta);
    BumpedTrack(g, s.zones, ts, i);
  }

  // ------------------------------------------------------------------------- rows of a run

  // The row records the crossing of track u in the frame of the step.
  ghost predicate Records(b: W.Belt, v: W.Line, s: W.Step, session: int, row: Event, u: Track)
    requires W.Serves(v, s, session)
  {
    && row.key == Key(session, s.source.camera, s.source.epoch, u.id, b.gate.gateId, u.crossingSeq)
    && row.line == b.line && v.bundle == Some(row.bundle)
    && row.frame == s.input.meta.index && row.timestamp == s.input.meta.wallClock
    && row.confidence == u.score && row.mergeFlag == u.latent && !row.simulated && row.defect.None?
    && |u.history| >= 2
    && row.direction == b.gate.Side(u.history[|u.history| - 1]) - b.gate.Side(u.history[|u.history| - 2]) != 0
  }

  // A served frame's events record tracks of the frame, each of which sits on a detection of it.
  lemma EventHasDetection(b: W.Belt, v: W.Line, s: W.Step, session: int, k: nat) returns (u: Track, d: nat)
    requires b.gate.ZonesAgree() && EngineInv(b.gate, v.engine) && W.Serves(v, s, session)
    requires W.WindowAt(b, v, s).Fits() && k < |W.WindowAt(b, v, s).Events()|
    ensures u in W.Next(b, v, s).engine.tracker.tracked
    ensures Records(b, v, s, session, W.WindowAt(b, v, s).Events()[k], u)
    ensures d < |s.input.dets| && SitsOn(u, s.input.dets[d])
  {
    var w := W.WindowAt(b, v, s);
    assert w.Stretch()[k] in w.Stretch();
    u, d := CrossingHasDetection(b.gate, v.engine, s.input, w.Stretch()[k]);
    TellingIsRecording(b, v, s, session, k, u);
    W.AfterServing(b, v, s, session);
  }

  lemma TellingIsRecording(b: W.Belt, v: W.Line, s: W.Step, session: int, k: nat, u: Track)
    requires W.Serves(v, s, session) && W.WindowAt(b, v, s).Fits() && k < |W.WindowAt(b, v, s).Events()|
    requires TellsOf(b.gate, W.WindowAt(b, v, s).Stretch()[k], u, s.input.meta)
    ensures Records(b, v, s, session, W.WindowAt(b, v, s).Events()[k], u)
  {
  }

  // The rows of a session are crossings of its windows.
  lemma RowsAreProduced(b: W.Belt, v: W.Line, steps: seq<W.Step>, session: int, row: Event) returns (k: nat)
    requires W.Fresh(b, v, steps, session) && row in ForSession(W.Run(b, v, steps).store.rows, session)
    ensures AllValid(W.WindowsOf(b, v, steps, session))
    ensures k < |Produced(W.WindowsOf(b, v, steps, session))|
    ensures Produced(W.WindowsOf(b, v, steps, session))[k] == row
  {
    var ops := W.OpsOf(b, v, steps);
    var ds := Sessions.Accepted(v.store, ops);
    W.AcceptedOfRun(b, v, steps, session);
    W.StoreOfRun(b, v, steps);
    Sessions.RowsAreCrossings(v.store, ops);
    SessionsAreIndependent(v.store.rows, ds, session);
    OneRowPerKey([], ForSession(ds, session));
    var all := Produced(W.WindowsOf(b, v, steps, session));
    assert row in all;
    k :| 0 <= k < |all| && all[k] == row;
  }

  // EVERY ROW of a session, over every run of the worker, has its frame, its bag and its detection:
  // it was written for a frame that served the session, under that frame's camera, epoch, line,
  // bundle, number and time, and tells of a track that changed sides in it, with the score of the
  // detection the track sits on.
  lemma RowHasBag(b: W.Belt, v: W.Line, steps: seq<W.Step>, session: int, row: Event)
    returns (i: nat, u: Track, d: nat)
    requires W.Fresh(b, v, steps, session) && row in ForSession(W.Run(b, v, steps).store.rows, session)
    ensures W.ServesAt(b, v, steps, session, i)
    ensures u in W.Run(b, v, steps[..i + 1]).engine.tracker.tracked
    ensures Records(b, W.Run(b, v, steps[..i]), steps[i], session, row, u)
    ensures d < |steps[i].input.dets| && SitsOn(u, steps[i].input.dets[d])
  {
    var k := RowsAreProduced(b, v, steps, session, row);
    var a, p := ProducedFrom(W.WindowsOf(b, v, steps, session), k);
    i := W.WindowFrom(b, v, steps, session, a);
    W.EngineOfRun(b, v, steps[..i]);
    u, d := EventHasDetection(b, W.Run(b, v, steps[..i]), steps[i], session, p);
    W.RunNext(b, v, steps, i);
  }
}
