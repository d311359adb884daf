/**
 The gate: zones along the belt axis, the per-track memory of the last zone,
 and the crossing events it raises. The belt position of a point is an
 arbitrary real function of the point.
 */
module Gate {
  import opened Wrappers
  import opened Boxes
  import opened Tracks
  import opened Tracker

  datatype Zone = PreApproach | Pre | Post | PostDepart

  predicate PreSide(z: Zone) { z == PreApproach || z == Pre }

  datatype Geometry = Geometry(
    gateId: int, position: Point -> real, gatePos: real, preOffset: real, postOffset: real)
  {
    function Classify(p: Point): Zone {
      if position(p) < gatePos - preOffset then PreApproach
      else if position(p) <= gatePos then Pre
      else if position(p) <= gatePos + postOffset then Post
      else PostDepart
    }

    predicate Beyond(p: Point) { position(p) > gatePos }

    // 1 beyond the gate, 0 before or on it.
    function Side(p: Point): int { if Beyond(p) then 1 else 0 }

    // The zones tell the two sides of the gate apart correctly at every point.
    ghost predicate ZonesAgree() {
      forall p :: PreSide(Classify(p)) <==> !Beyond(p)
    }
  }

  // The zones by the distance from the gate; the gate's own line still belongs to the near side.
  lemma ZonesByDistance(g: Geometry, p: Point)
    requires g.preOffset >= 0.0 && g.postOffset >= 0.0
    ensures var d := g.position(p) - g.gatePos;
            && (g.Classify(p) == PreApproach <==> d < -g.preOffset)
            && (g.Classify(p) == Pre <==> -g.preOffset <= d <= 0.0)
            && (g.Classify(p) == Post <==> 0.0 < d <= g.postOffset)
            && (g.Classify(p) == PostDepart <==> d > g.postOffset)
            && (g.Beyond(p) <==> d > 0.0) && g.Side(p) == (if d > 0.0 then 1 else 0)
  {
  }

  datatype FrameMeta = FrameMeta(index: int, monotonicNs: int, wallClock: int)

  datatype Crossing = Crossing(
    trackId: nat, seqNo: nat, gateId: int, direction: int, meta: FrameMeta,
    confidence: real, mergeFlag: bool, centroid: Point)

  // The remembered zone, or the side of the last measurement but one.
  function PrevZone(g: Geometry, zones: map<nat, Zone>, t: Track): Option<Zone> {
    if t.id in zones then Some(zones[t.id])
    else if |t.history| >= 2 then
      Some(if g.position(t.history[|t.history| - 2]) <= g.gatePos then Pre else Post)
    else None
  }

  function DirectionOf(g: Geometry, zones: map<nat, Zone>, t: Track): int {
    var prev, curr := PrevZone(g, zones, t), g.Classify(t.centroid);
    if prev.None? then 0
    else if PreSide(prev.value) && !PreSide(curr) then 1
    else if !PreSide(prev.value) && PreSide(curr) then -1
    else 0
  }

  function Bump(g: Geometry, zones: map<nat, Zone>, t: Track): Track {
    if DirectionOf(g, zones, t) == 0 then t else t.(crossingSeq := t.crossingSeq + 1)
  }

  function EventOf(g: Geometry, zones: map<nat, Zone>, t: Track, meta: FrameMeta): Crossing {
    Crossing(t.id, t.crossingSeq + 1, g.gateId, DirectionOf(g, zones, t), meta, t.score, t.latent, t.centroid)
  }

  // Each track crosses, or not, on its own.
  function BumpAll(g: Geometry, zones: map<nat, Zone>, ts: seq<Track>): (r: seq<Track>)
    ensures |r| == |ts| && forall i | 0 <= i < |ts| :: r[i] == Bump(g, zones, ts[i])
  {
    if ts == [] then [] else
      BumpAll(g, zones, ts[..|ts| - 1]) + [Bump(g, zones, ts[|ts| - 1])]
  }

  function Events(g: Geometry, zones: map<nat, Zone>, ts: seq<Track>, meta: FrameMeta): seq<Crossing> {
    if ts == [] then [] else
      var t, rest := ts[|ts| - 1], Events(g, zones, ts[..|ts| - 1], meta);
      if DirectionOf(g, zones, t) == 0 then rest else rest + [EventOf(g, zones, t, meta)]
  }

  // Only the tracks of the current frame are remembered.
  function ZonesAfter(g: Geometry, ts: seq<Track>): map<nat, Zone> {
    if ts == [] then map[] else
      ZonesAfter(g, ts[..|ts| - 1])[ts[|ts| - 1].id := g.Classify(ts[|ts| - 1].centroid)]
  }

  predicate HasId(ts: seq<Track>, x: nat) {
    exists i | 0 <= i < |ts| :: ts[i].id == x
  }

  lemma {:induction false} ZonesAfterKeys(g: Geometry, ts: seq<Track>)
    ensures forall x: nat :: x in ZonesAfter(g, ts) <==> HasId(ts, x)
  {
    if ts != [] {
      var k := |ts| - 1;
      ZonesAfterKeys(g, ts[..k]);
      forall x: nat ensures HasId(ts, x) <==> HasId(ts[..k], x) || x == ts[k].id {
        if HasId(ts[..k], x) {
          var i :| 0 <= i < k && ts[..k][i].id == x;
          assert ts[i].id == x;
        }
      }
    }
  }

  lemma {:induction false} ZonesAfterValue(g: Geometry, ts: seq<Track>, i: nat)
    requires i < |ts| && forall a, b | 0 <= a < b < |ts| :: ts[a].id != ts[b].id
    ensures ts[i].id in ZonesAfter(g, ts) && ZonesAfter(g, ts)[ts[i].id] == g.Classify(ts[i].centroid)
  {
    if i < |ts| - 1 {
      ZonesAfterValue(g, ts[..|ts| - 1], i);
    }
  }

  // ------------------------------------------------------------------ the machine

  // Keep the entries of the active ids only.
  function Cleaned(zones: map<nat, Zone>, ids: set<nat>): map<nat, Zone> {
    map k | k in zones && k in ids :: zones[k]
  }

  // The tracks while the loop stands at position i.
  ghost predicate HalfBumped(g: Geometry, zones: map<nat, Zone>, tracks: seq<BagTrack>, before: seq<Track>, i: nat)
    requires |before| == |tracks|
    reads tracks
  {
    && (forall k | 0 <= k < i && k < |tracks| :: tracks[k].Value() == Bump(g, zones, before[k]))
    && (forall k | i <= k < |tracks| :: tracks[k].Value() == before[k])
  }

  function EventOrNone(g: Geometry, zones: map<nat, Zone>, t: Track, meta: FrameMeta): Option<Crossing> {
    if DirectionOf(g, zones, t) == 0 then None else Some(EventOf(g, zones, t, meta))
  }

  // One pass of the loop: classify, compare with the previous zone, remember.
  method ProcessOne(g: Geometry, zones: map<nat, Zone>, t: BagTrack, meta: FrameMeta)
    returns (event: Option<Crossing>, seen: map<nat, Zone>)
    modifies t
    ensures t.Value() == Bump(g, zones, old(t.Value()))
    ensures event == EventOrNone(g, zones, old(t.Value()), meta)
    ensures seen == zones[t.trackId := g.Classify(old(t.Value()).centroid)]
  {
    var curr := g.Classify(t.centroid);
    var prev: Option<Zone> := if t.trackId in zones then Some(zones[t.trackId]) else None;
    if prev == None && |t.history| >= 2 {
      var p := g.position(t.history[|t.history| - 2]);
      prev := if p <= g.gatePos then Some(Pre) else Some(Post);
    }
    event := None;
    if prev.Some? && PreSide(prev.value) && !PreSide(curr) {
      t.crossingSeq := t.crossingSeq + 1;
      event := Some(Crossing(t.trackId, t.crossingSeq, g.gateId, 1, meta, t.score, t.latent, t.centroid));
    } else if prev.Some? && !PreSide(prev.value) && PreSide(curr) {
      t.crossingSeq := t.crossingSeq + 1;
      event := Some(Crossing(t.trackId, t.crossingSeq, g.gateId, -1, meta, t.score, t.latent, t.centroid));
    }
    seen := zones[t.trackId := curr];
  }

  // The loop's body: one track moves on, the others stand still.
  method ScanOne(g: Geometry, now: map<nat, Zone>, tracks: seq<BagTrack>, i: nat, meta: FrameMeta,
                 ghost zones: map<nat, Zone>, ghost before: seq<Track>)
    returns (event: Option<Crossing>, seen: map<nat, Zone>)
    requires i < |tracks| == |before| && Separate(tracks) && HalfBumped(g, zones, tracks, before, i)
    requires Bump(g, now, before[i]) == Bump(g, zones, before[i])
    modifies tracks[i]
    ensures HalfBumped(g, zones, tracks, before, i + 1)
    ensures event == EventOrNone(g, now, before[i], meta)
    ensures seen == now[before[i].id := g.Classify(before[i].centroid)]
  {
    event, seen := ProcessOne(g, now, tracks[i], meta);
  }

  // The memory while the loop stands at position i: old entries for the tracks
  // still to come, fresh ones for those already seen.
  ghost predicate ScanZones(g: Geometry, zones: map<nat, Zone>, ts: seq<Track>, i: nat, now: map<nat, Zone>)
    requires i <= |ts|
  {
    && (forall k | i <= k < |ts| :: ts[k].id in zones <==> ts[k].id in now)
    && (forall k | i <= k < |ts| && ts[k].id in now :: now[ts[k].id] == zones[ts[k].id])
    && (forall k | 0 <= k < i :: ts[k].id in now && now[ts[k].id] == g.Classify(ts[k].centroid))
  }

  function Append(events: seq<Crossing>, event: Option<Crossing>): seq<Crossing> {
    if event.Some? then events + [event.value] else events
  }

  lemma SameDirection(g: Geometry, zones: map<nat, Zone>, now: map<nat, Zone>, t: Track)
    requires t.id in zones <==> t.id in now
    requires t.id in now ==> now[t.id] == zones[t.id]
    ensures DirectionOf(g, zones, t) == DirectionOf(g, now, t)
  {
  }

  // Processing track i against the running memory is processing it against the old one.
  lemma ScanNext(g: Geometry, zones: map<nat, Zone>, ts: seq<Track>, i: nat, now: map<nat, Zone>, meta: FrameMeta)
    requires i < |ts| && forall a, b | 0 <= a < b < |ts| :: ts[a].id != ts[b].id
    requires ScanZones(g, zones, ts, i, now)
    ensures ScanZones(g, zones, ts, i + 1, now[ts[i].id := g.Classify(ts[i].centroid)])
    ensures Bump(g, now, ts[i]) == Bump(g, zones, ts[i])
    ensures Events(g, zones, ts[..i + 1], meta)
         == Append(Events(g, zones, ts[..i], meta), EventOrNone(g, now, ts[i], meta))
  {
    assert ts[..i + 1][..i] == ts[..i];
    SameDirection(g, zones, now, ts[i]);
  }

  // The loop over the tracks.
  method Scan(g: Geometry, zones: map<nat, Zone>, tracks: seq<BagTrack>, meta: FrameMeta, ghost before: seq<Track>)
    returns (events: seq<Crossing>, seen: map<nat, Zone>)
    requires Separate(tracks) && |before| == |tracks| && HalfBumped(g, zones, tracks, before, 0)
    requires forall a, b | 0 <= a < b < |before| :: before[a].id != before[b].id
    modifies tracks
    ensures HalfBumped(g, zones, tracks, before, |tracks|)
    ensures events == Events(g, zones, before, meta)
    ensures ScanZones(g, zones, before, |before|, seen)
  {
    events, seen := [], zones;
    for i := 0 to |tracks|
      invariant HalfBumped(g, zones, tracks, before, i)
      invariant events == Events(g, zones, before[..i], meta)
      invariant ScanZones(g, zones, before, i, seen)
    {
      ScanNext(g, zones, before, i, seen, meta);
      var event;
      event, seen := ScanOne(g, seen, tracks, i, meta, zones, before);
      events := Append(events, event);
    }
    assert before[..|tracks|] == before;
  }

  lemma AllBumped(g: Geometry, zones: map<nat, Zone>, tracks: seq<BagTrack>, before: seq<Track>)
    requires |before| == |tracks| && HalfBumped(g, zones, tracks, before, |tracks|)
    ensures Values(tracks) == BumpAll(g, zones, before)
  {
  }

  function ActiveIds(tracks: seq<BagTrack>): (r: set<nat>) {
    set k | 0 <= k < |tracks| :: tracks[k].trackId
  }

  lemma DistinctIds(tracks: seq<BagTrack>)
    requires forall i, j | 0 <= i < j < |tracks| :: tracks[i].trackId != tracks[j].trackId
    ensures forall a, b | 0 <= a < b < |Values(tracks)| :: Values(tracks)[a].id != Values(tracks)[b].id
    ensures Separate(tracks)
  {
    forall i, j | 0 <= i < j < |tracks| ensures tracks[i] != tracks[j] {
      assert tracks[i].trackId != tracks[j].trackId;
    }
  }

  // Dropping the inactive ids leaves exactly the zones of this frame's tracks.
  lemma CleanedZones(g: Geometry, ts: seq<Track>, zones: map<nat, Zone>, ids: set<nat>)
    requires forall i, j | 0 <= i < j < |ts| :: ts[i].id != ts[j].id
    requires ids == set k | 0 <= k < |ts| :: ts[k].id
    requires forall i | 0 <= i < |ts| :: ts[i].id in zones && zones[ts[i].id] == g.Classify(ts[i].centroid)
    ensures Cleaned(zones, ids) == ZonesAfter(g, ts)
  {
    var cleaned := Cleaned(zones, ids);
    ZonesAfterKeys(g, ts);
    forall x | x in cleaned ensures x in ZonesAfter(g, ts) && ZonesAfter(g, ts)[x] == cleaned[x] {
      var i :| 0 <= i < |ts| && ts[i].id == x;
      ZonesAfterValue(g, ts, i);
    }
    forall x | x in ZonesAfter(g, ts) ensures x in cleaned {
      var i :| 0 <= i < |ts| && ts[i].id == x;
      assert ts[i].id in ids;
    }
  }

  // Everything but the memory: scan the tracks, then forget the ids that are not active.
  method ProcessAll(g: Geometry, zones: map<nat, Zone>, tracks: seq<BagTrack>, meta: FrameMeta, ghost before: seq<Track>)
    returns (events: seq<Crossing>, after: map<nat, Zone>)
    requires forall i, j | 0 <= i < j < |tracks| :: tracks[i].trackId != tracks[j].trackId
    requires before == Values(tracks)
    modifies tracks
    ensures Values(tracks) == BumpAll(g, zones, before)
    ensures events == Events(g, zones, before, meta)
    ensures after == ZonesAfter(g, before)
  {
    DistinctIds(tracks);
    var seen;
    events, seen := Scan(g, zones, tracks, meta, before);
    AllBumped(g, zones, tracks, before);
    after := Cleaned(seen, ActiveIds(tracks));
    CleanedZones(g, before, seen, ActiveIds(tracks));
  }

  class GateStateMachine {
    var geometry: Geometry
    var trackZones: map<nat, Zone>

    constructor (geometry: Geometry)
      ensures this.geometry == geometry && trackZones == map[]
    {
      this.geometry := geometry;
      trackZones := map[];
    }

    method ProcessTracks(tracks: seq<BagTrack>, meta: FrameMeta) returns (events: seq<Crossing>)
      requires forall i, j | 0 <= i < j < |tracks| :: tracks[i].trackId != tracks[j].trackId
      modifies this`trackZones, tracks
      ensures Values(tracks) == BumpAll(geometry, old(trackZones), old(Values(tracks)))
      ensures events == Events(geometry, old(trackZones), old(Values(tracks)), meta)
      ensures trackZones == ZonesAfter(geometry, old(Values(tracks)))
    {
      ghost var me: object := this;
      assert forall i | 0 <= i < |tracks| :: tracks[i] as object != me;
      var after;
      events, after := ProcessAll(geometry, trackZones, tracks, meta, Values(tracks));
      trackZones := after;
    }
  }
}
