/**
 From the belt to the ledger: what the engines counted while a session was served is what the
 session's total says, whatever happened to the deliveries in between.
 */
module Delivery {
  import opened Wrappers
  import opened Boxes
  import opened Tracks
  import opened Gate
  import opened Counting
  import opened ShortRuns
  import opened CountingLaw
  import opened Ledger
  import opened Sessions
  import opened CameraEpochs

  // The camera and stream epoch of the frame a crossing was seen in.
  datatype Source = Source(camera: int, epoch: int)

  datatype Place = Place(session: int, line: int, bundle: int)

  function EventFor(p: Place, s: Source, c: Crossing): Event {
    Event(Key(p.session, s.camera, s.epoch, c.trackId, c.gateId, c.seqNo), p.line, p.bundle,
          c.direction, c.meta.index, c.meta.wallClock, c.confidence, c.mergeFlag, None, false)
  }

  function Tagged(p: Place, sources: seq<Source>, log: seq<Crossing>): (r: seq<Event>)
    requires |sources| == |log|
    ensures |r| == |log| && forall i | 0 <= i < |log| :: r[i] == EventFor(p, sources[i], log[i])
  {
    if log == [] then [] else
      var n := |log| - 1;
      Tagged(p, sources[..n], log[..n]) + [EventFor(p, sources[n], log[n])]
  }

  // A stretch of an engine's life during which it counted for one session under one bundle, and
  // the sources of the crossings of the stretch.
  datatype Window = Window(
    place: Place, geometry: Geometry, before: EngineState, after: EngineState, sources: seq<Source>)
  {
    ghost predicate Valid() {
      EngineInv(geometry, before) && EngineInv(geometry, after) && Fits()
    }

    predicate Fits() { before.log <= after.log && |sources| == |after.log| - |before.log| }

    function Stretch(): (r: seq<Crossing>)
      requires Fits()
      ensures |r| == |sources|
    {
      after.log[|before.log|..]
    }

    function Events(): (r: seq<Event>)
      requires Fits()
      ensures |r| == |sources|
      ensures forall i | 0 <= i < |r| :: r[i] == EventFor(place, sources[i], after.log[|before.log| + i])
    {
      Tagged(place, sources, Stretch())
    }

    function Net(): int { after.net - before.net }
  }

  // ----------------------------------------------------------- windows of engine runs

  lemma {:induction false} RunSplits(g: Geometry, s: EngineState, fs: seq<FrameInput>, m: nat)
    requires m <= |fs| && Runnable(g, s, fs)
    ensures Runnable(g, s, fs[..m]) && Runnable(g, CountingLaw.Run(g, s, fs[..m]), fs[m..])
    ensures CountingLaw.Run(g, s, fs) == CountingLaw.Run(g, CountingLaw.Run(g, s, fs[..m]), fs[m..])
    decreases m
  {
    if m == 0 {
      assert fs[..0] == [] && fs[0..] == fs;
    } else {
      RunSplits(g, EngineStep(g, s, fs[0]), fs[1..], m - 1);
      assert fs[..m][0] == fs[0] && fs[..m][1..] == fs[1..][..m - 1];
      assert fs[m..] == fs[1..][m - 1..];
    }
  }

  lemma {:induction false} LogGrows(g: Geometry, s: EngineState, fs: seq<FrameInput>)
    requires Runnable(g, s, fs)
    ensures s.log <= CountingLaw.Run(g, s, fs).log
    decreases |fs|
  {
    if fs != [] {
      LogGrows(g, EngineStep(g, s, fs[0]), fs[1..]);
    }
  }

  // Any stretch of any run of an engine is a window.
  lemma StretchOfRun(g: Geometry, fs: seq<FrameInput>, m: nat)
    requires g.ZonesAgree() && m <= |fs| && Runnable(g, ENGINE_START, fs)
    ensures Runnable(g, ENGINE_START, fs[..m])
    ensures var before, after := CountingLaw.Run(g, ENGINE_START, fs[..m]), CountingLaw.Run(g, ENGINE_START, fs);
            EngineInv(g, before) && EngineInv(g, after) && before.log <= after.log
  {
    CountingLaw.StartInv(g);
    RunSplits(g, ENGINE_START, fs, m);
    CountingLaw.RunKeepsInv(g, ENGINE_START, fs);
    CountingLaw.RunKeepsInv(g, ENGINE_START, fs[..m]);
    LogGrows(g, CountingLaw.Run(g, ENGINE_START, fs[..m]), fs[m..]);
  }

  // ------------------------------------------------------------------ one session's windows

  ghost predicate AllValid(ws: seq<Window>) {
    forall a | 0 <= a < |ws| :: ws[a].Valid()
  }

  predicate AllFor(ws: seq<Window>, session: int) {
    forall a | 0 <= a < |ws| :: ws[a].place.session == session
  }

  // Every crossing of every window, once.
  ghost function Produced(ws: seq<Window>): seq<Event>
    requires AllValid(ws)
  {
    if ws == [] then [] else
      var n := |ws| - 1;
      assert ws[n].Valid();
      Produced(ws[..n]) + ws[n].Events()
  }

  function NetOf(ws: seq<Window>): int {
    if ws == [] then 0 else NetOf(ws[..|ws| - 1]) + ws[|ws| - 1].Net()
  }

  predicate SourcesApart(v: Window, w: Window) {
    forall i, j | 0 <= i < |v.sources| && 0 <= j < |w.sources| :: v.sources[i] != w.sources[j]
  }

  // A later stretch of the same engine's life.
  predicate Follows(v: Window, w: Window) {
    v.geometry.gateId == w.geometry.gateId && v.after.log <= w.before.log
  }

  // Any two windows belong to one engine, or share no source.
  ghost predicate WindowsApart(ws: seq<Window>) {
    forall a, b | 0 <= a < b < |ws| :: Follows(ws[a], ws[b]) || SourcesApart(ws[a], ws[b])
  }

  // The source carries an epoch that one of the requests lo to hi was answered with.
  ghost predicate IssuedWithin(cameras: seq<int>, lo: nat, hi: nat, s: Source) {
    exists i: nat | lo <= i < hi && i < |cameras| :: cameras[i] == s.camera && Issued(cameras, i) == s.epoch
  }

  // The window was served during a life of the engine that saw only streams started during it.
  ghost predicate ServedIn(w: Window, cameras: seq<int>, starts: seq<nat>, life: nat) {
    life + 1 < |starts|
    && forall k | 0 <= k < |w.sources| :: IssuedWithin(cameras, starts[life], starts[life + 1], w.sources[k])
  }

  lemma LivesApart(v: Window, w: Window, l: nat, m: nat, cameras: seq<int>, starts: seq<nat>)
    requires ServedIn(v, cameras, starts, l) && ServedIn(w, cameras, starts, m) && l < m
    requires forall a, b | 0 <= a <= b < |starts| :: starts[a] <= starts[b]
    ensures SourcesApart(v, w)
  {
    forall k, n | 0 <= k < |v.sources| && 0 <= n < |w.sources| ensures v.sources[k] != w.sources[n] {
      var s, t := v.sources[k], w.sources[n];
      assert IssuedWithin(cameras, starts[l], starts[l + 1], s) && IssuedWithin(cameras, starts[m], starts[m + 1], t);
      var i: nat :| starts[l] <= i < starts[l + 1] && i < |cameras| && cameras[i] == s.camera && Issued(cameras, i) == s.epoch;
      var j: nat :| starts[m] <= j < starts[m + 1] && j < |cameras| && cameras[j] == t.camera && Issued(cameras, j) == t.epoch;
      if s == t {
        EpochsIncrease(cameras, i, j);
      }
    }
  }

  // Windows of different lives of that kind share no source: epochs are never reused.
  lemma FreshEpochsSuffice(ws: seq<Window>, lives: seq<nat>, cameras: seq<int>, starts: seq<nat>)
    requires |lives| == |ws| && forall a, b | 0 <= a <= b < |starts| :: starts[a] <= starts[b]
    requires forall a | 0 <= a < |ws| :: ServedIn(ws[a], cameras, starts, lives[a])
    requires forall a, b | 0 <= a < b < |ws| && lives[a] == lives[b] :: Follows(ws[a], ws[b])
    ensures WindowsApart(ws)
  {
    forall a, b | 0 <= a < b < |ws| ensures Follows(ws[a], ws[b]) || SourcesApart(ws[a], ws[b]) {
      if lives[a] < lives[b] {
        LivesApart(ws[a], ws[b], lives[a], lives[b], cameras, starts);
      } else if lives[b] < lives[a] {
        LivesApart(ws[b], ws[a], lives[b], lives[a], cameras, starts);
        assert SourcesApart(ws[a], ws[b]);
      }
    }
  }

  lemma {:induction false} TaggedTotal(p: Place, sources: seq<Source>, log: seq<Crossing>)
    requires |sources| == |log|
    ensures Total(Tagged(p, sources, log), p.session) == SumDir(log)
  {
    if log != [] {
      var n := |log| - 1;
      TaggedTotal(p, sources[..n], log[..n]);
      assert Tagged(p, sources, log)[..n] == Tagged(p, sources[..n], log[..n]);
    }
  }

  // What a window counted is what its events add up to.
  lemma WindowTotal(w: Window)
    requires w.Valid()
    ensures Total(w.Events(), w.place.session) == w.Net()
  {
    TaggedTotal(w.place, w.sources, w.Stretch());
    SumConcat(w.before.log, w.Stretch());
    assert w.before.log + w.Stretch() == w.after.log;
  }

  lemma {:induction false} ProducedTotal(ws: seq<Window>, session: int)
    requires AllValid(ws) && AllFor(ws, session)
    ensures Total(Produced(ws), session) == NetOf(ws)
  {
    if ws != [] {
      var n := |ws| - 1;
      assert ws[n].Valid() && ws[n].place.session == session;
      ProducedTotal(ws[..n], session);
      WindowTotal(ws[n]);
      TotalConcat(Produced(ws[..n]), ws[n].Events(), session);
    }
  }

  lemma WindowKeysDistinct(w: Window)
    requires w.Valid()
    ensures KeysDistinct(w.Events())
  {
    LogKeysDistinct(w.geometry, w.after);
  }

  // The window and the place in it that an event comes from.
  lemma {:induction false} ProducedFrom(ws: seq<Window>, k: nat) returns (a: nat, i: nat)
    requires AllValid(ws) && k < |Produced(ws)|
    ensures a < |ws| && ws[a].Valid() && i < |ws[a].sources| && Produced(ws)[k] == ws[a].Events()[i]
  {
    var n := |ws| - 1;
    assert ws[n].Valid();
    var before := Produced(ws[..n]);
    if k < |before| {
      a, i := ProducedFrom(ws[..n], k);
    } else {
      a, i := n, k - |before|;
    }
  }

  lemma ApartKeys(v: Window, i: nat, w: Window, j: nat)
    requires v.Valid() && w.Valid() && i < |v.sources| && j < |w.sources|
    requires Follows(v, w) || SourcesApart(v, w)
    ensures v.Events()[i].key != w.Events()[j].key
  {
    if Follows(v, w) {
      LogKeysDistinct(w.geometry, w.after);
      assert v.after.log[|v.before.log| + i] == w.after.log[|v.before.log| + i];
    }
  }

  // Then no two crossings share a key.
  lemma {:induction false} ProducedKeysDistinct(ws: seq<Window>)
    requires AllValid(ws) && WindowsApart(ws)
    ensures KeysDistinct(Produced(ws))
  {
    if ws != [] {
      var n := |ws| - 1;
      assert ws[n].Valid();
      var a, b := Produced(ws[..n]), ws[n].Events();
      ProducedKeysDistinct(ws[..n]);
      WindowKeysDistinct(ws[n]);
      forall i, j | 0 <= i < |a| && 0 <= j < |b| ensures a[i].key != b[j].key {
        var c, k := ProducedFrom(ws[..n], i);
        ApartKeys(ws[c], k, ws[n], j);
      }
    }
  }

  // Deliveries that bring a session the keys of its windows' crossings with their directions, in
  // any order, with any repetitions and metadata, on a ledger that holds nothing of the session
  // yet: one row per crossing, and the session's total is what the engines counted meanwhile.
  // Crossings of other sessions may come in between.
  lemma DeliveredTotalIsNet(rows: seq<Event>, session: int, ws: seq<Window>, ds: seq<Event>)
    requires KeysDistinct(rows) && ForSession(rows, session) == []
    requires AllValid(ws) && AllFor(ws, session) && WindowsApart(ws)
    requires SameCrossings(ForSession(ds, session), Produced(ws))
    ensures Total(InsertAll(rows, ds), session) == NetOf(ws)
    ensures |ForSession(InsertAll(rows, ds), session)| == |Produced(ws)|
  {
    var mine, all := ForSession(ds, session), Produced(ws);
    ProducedKeysDistinct(ws);
    SessionsAreIndependent(rows, ds, session);
    OrderIsIrrelevant([], mine, all, session);
    NoneRejected([], all);
    assert [] + all == all;
    ForSessionTotal(InsertAll(rows, ds), session);
    ProducedTotal(ws, session);
  }

  ghost function DisplacementIn(w: Window): int
    requires w.Valid()
  {
    NetIsDisplacement(w.geometry, w.before);
    NetIsDisplacement(w.geometry, w.after);
    Displacement(w.geometry, w.after.tracker.All()) - Displacement(w.geometry, w.before.tracker.All())
  }

  // How far the tracks moved across the gate during the windows.
  ghost function DisplacementOf(ws: seq<Window>): int
    requires AllValid(ws)
  {
    if ws == [] then 0 else
      var n := |ws| - 1;
      assert ws[n].Valid();
      DisplacementOf(ws[..n]) + DisplacementIn(ws[n])
  }

  lemma {:induction false} NetIsDisplacementOf(ws: seq<Window>)
    requires AllValid(ws)
    ensures NetOf(ws) == DisplacementOf(ws)
  {
    if ws != [] {
      var n := |ws| - 1;
      NetIsDisplacementOf(ws[..n]);
      assert ws[n].Valid();
      NetIsDisplacement(ws[n].geometry, ws[n].before);
      NetIsDisplacement(ws[n].geometry, ws[n].after);
    }
  }

  // A run after which the session exists and has been delivered its windows' crossings, while no
  // human set its count.
  ghost predicate Served(st: Store, ops: seq<Op>, session: int, ws: seq<Window>) {
    && StoreInv(st) && CachedIfThere(st, session) && NeverOverridden(st, ops, session)
    && ForSession(st.rows, session) == []
    && AllValid(ws) && AllFor(ws, session) && WindowsApart(ws)
    && SameCrossings(ForSession(Accepted(st, ops), session), Produced(ws))
    && Sessions.Run(st, ops).Has(session)
  }

  // END TO END. Engines serve one session after the other, crossings outside a session are
  // dropped, bundles change and engines restart; whatever else happens, to this session or to
  // others, short of a human setting its count: the cached total is what the engines counted
  // while they served the session, that is, how far the tracks moved across the gate meanwhile.
  lemma CachedTotalIsNet(st: Store, ops: seq<Op>, session: int, ws: seq<Window>)
    requires Served(st, ops, session, ws)
    ensures Sessions.Run(st, ops).At(session).countedTotal == NetOf(ws) == DisplacementOf(ws)
  {
    RunKeepsCacheOf(st, ops, session);
    RowsAreCrossings(st, ops);
    DeliveredTotalIsNet(st.rows, session, ws, Accepted(st, ops));
    NetIsDisplacementOf(ws);
  }

  // The running count that is shown as the session's, and compared with its target, is the
  // session's own exactly when the engine started serving it with what the session had by then,
  // for a session that one engine served without a break: with zero.
  lemma ShownCountExactly(st: Store, ops: seq<Op>, session: int, ws: seq<Window>)
    requires Served(st, ops, session, ws) && ws != []
    ensures var last := ws[|ws| - 1];
            var total := Sessions.Run(st, ops).At(session).countedTotal;
            && (last.after.net == total <==> last.before.net == NetOf(ws[..|ws| - 1]))
            && (|ws| == 1 ==> (last.after.net == total <==> last.before.net == 0))
  {
    CachedTotalIsNet(st, ops, session, ws);
  }

  // ------------------------------------------------------------ restarts that reuse an epoch

  // How many times the track of this crossing crossed before it.
  function Ordinal(log: seq<Crossing>, i: nat): nat
    requires i < |log|
  {
    |Of(log[..i], log[i].trackId)|
  }

  // The same source saw a track of the same number cross for the same time.
  predicate Mistaken(v: Window, i: nat, w: Window, j: nat)
    requires v.Fits() && w.Fits() && i < |v.sources| && j < |w.sources|
  {
    var k, l := |v.before.log| + i, |w.before.log| + j;
    && v.sources[i] == w.sources[j]
    && v.after.log[k].trackId == w.after.log[l].trackId
    && Ordinal(v.after.log, k) == Ordinal(w.after.log, l)
  }

  // Each crossing is logged under the gate's id, numbered within its track.
  lemma LoggedAs(g: Geometry, s: EngineState, i: nat)
    requires EngineInv(g, s) && i < |s.log|
    ensures s.log[i].gateId == g.gateId && s.log[i].seqNo == Ordinal(s.log, i) + 1
  {
    var x := s.log[i].trackId;
    var k := TallyFinds(s.tracker.All(), x);
    assert Logged(g, s.log, x, s.tracker.All()[k].history, s.tracker.All()[k].crossingSeq);
    OfPosition(s.log, i);
  }

  // Two crossings of one session are taken for one exactly when they are Mistaken, however
  // many sources their windows have seen.
  lemma CollideExactly(v: Window, i: nat, w: Window, j: nat)
    requires v.Valid() && w.Valid() && v.geometry.gateId == w.geometry.gateId
    requires v.place.session == w.place.session && i < |v.sources| && j < |w.sources|
    ensures v.Events()[i].key == w.Events()[j].key <==> Mistaken(v, i, w, j)
  {
    LoggedAs(v.geometry, v.after, |v.before.log| + i);
    LoggedAs(w.geometry, w.after, |w.before.log| + j);
  }

  ghost predicate KeysApart(xs: seq<Event>, ys: seq<Event>) {
    forall i, j | 0 <= i < |xs| && 0 <= j < |ys| :: xs[i].key != ys[j].key
  }

  ghost predicate NoneMistaken(v: Window, w: Window)
    requires v.Fits() && w.Fits()
  {
    forall i, j | 0 <= i < |v.sources| && 0 <= j < |w.sources| :: !Mistaken(v, i, w, j)
  }

  // No crossing is lost between two windows exactly when no pair of them is Mistaken.
  lemma WindowsCollideExactly(v: Window, w: Window)
    requires v.Valid() && w.Valid() && v.geometry.gateId == w.geometry.gateId
    requires v.place.session == w.place.session
    ensures KeysApart(v.Events(), w.Events()) <==> NoneMistaken(v, w)
  {
    forall i, j | 0 <= i < |v.sources| && 0 <= j < |w.sources|
      ensures v.Events()[i].key == w.Events()[j].key <==> Mistaken(v, i, w, j)
    {
      CollideExactly(v, i, w, j);
    }
  }

  // Every crossing of this window came from one source.
  ghost predicate SingleSource(w: Window, s: Source) {
    forall i | 0 <= i < |w.sources| :: w.sources[i] == s
  }

  ghost predicate ShareCrossingTrack(a: EngineState, b: EngineState) {
    exists i, j | 0 <= i < |a.log| && 0 <= j < |b.log| :: a.log[i].trackId == b.log[j].trackId
  }

  lemma SharedIsMistaken(v: Window, w: Window, s: Source, i: nat, j: nat)
    requires v.Valid() && w.Valid() && v.before.log == w.before.log == []
    requires SingleSource(v, s) && SingleSource(w, s)
    requires i < |v.after.log| && j < |w.after.log| && v.after.log[i].trackId == w.after.log[j].trackId
    ensures !NoneMistaken(v, w)
  {
    var i' := FirstCrossingIsOne(v.geometry, v.after, i);
    var j' := FirstCrossingIsOne(w.geometry, w.after, j);
    LoggedAs(v.geometry, v.after, i');
    LoggedAs(w.geometry, w.after, j');
    assert Mistaken(v, i', w, j');
  }

  // Two whole lives of an engine, each with one source: a crossing after the restart is taken
  // for an old one exactly when the epoch was not renewed and a track id that had crossed
  // crosses again.
  lemma RestartCollidesExactly(v: Window, w: Window, s: Source, t: Source)
    requires v.Valid() && w.Valid() && v.geometry.gateId == w.geometry.gateId
    requires v.place.session == w.place.session && v.before.log == w.before.log == []
    requires SingleSource(v, s) && SingleSource(w, t)
    ensures KeysApart(v.Events(), w.Events()) <==> s != t || !ShareCrossingTrack(v.after, w.after)
  {
    WindowsCollideExactly(v, w);
    if s == t && ShareCrossingTrack(v.after, w.after) {
      var i, j :| 0 <= i < |v.after.log| && 0 <= j < |w.after.log| && v.after.log[i].trackId == w.after.log[j].trackId;
      SharedIsMistaken(v, w, s, i, j);
    }
  }

  // Deliveries with distinct keys, made twice, count once.
  lemma TwiceIsOnce(ds: seq<Event>, session: int)
    requires KeysDistinct(ds)
    ensures Total(InsertAll([], ds + ds), session) == Total(ds, session)
  {
    ReorderedCrossings(ds, ds + ds);
    OrderIsIrrelevant([], ds, ds + ds, session);
    NoneRejected([], ds);
    assert [] + ds == ds;
  }

  lemma ProducedNext(ws: seq<Window>, w: Window)
    requires AllValid(ws) && w.Valid()
    ensures AllValid(ws + [w]) && Produced(ws + [w]) == Produced(ws) + w.Events()
    ensures NetOf(ws + [w]) == NetOf(ws) + w.Net()
  {
    assert (ws + [w])[..|ws|] == ws;
  }

  lemma ProducedOnce(w: Window)
    requires w.Valid()
    ensures AllValid([w]) && NetOf([w]) == w.Net() && Produced([w]) == w.Events()
  {
    ProducedNext([], w);
    assert [] + [w] == [w];
    assert [] + w.Events() == w.Events();
  }

  lemma ProducedTwice(w: Window)
    requires w.Valid()
    ensures AllValid([w, w]) && NetOf([w, w]) == 2 * w.Net() && Produced([w, w]) == w.Events() + w.Events()
  {
    var one := [w];
    assert one + [w] == [w, w];
    ProducedOnce(w);
    ProducedNext(one, w);
  }

  // The same crossings under the same sources, twice: the session's total has them once.
  lemma ReplayCountsOnce(w: Window)
    requires w.Valid()
    ensures AllValid([w, w]) && NetOf([w, w]) == 2 * w.Net()
    ensures Total(InsertAll([], Produced([w, w])), w.place.session) == w.Net()
  {
    ProducedTwice(w);
    WindowKeysDistinct(w);
    TwiceIsOnce(w.Events(), w.place.session);
    WindowTotal(w);
  }

  // An engine that counts a bag, restarts under the epoch it had and counts another: two
  // bags, one row, a total of one.
  lemma RestartLosesABag(g: Geometry, from: Point, to: Point, p: Place, s: Source)
    requires g.ZonesAgree() && !g.Beyond(from) && g.Beyond(to)
    ensures PlanFits(TrackerAfterAppear(from), Move(to).dets, Move(to).plan)
    ensures var life := Window(p, g, ENGINE_START, EngineAfterMove(g, from, to), [s]);
            && AllValid([life, life]) && NetOf([life, life]) == 2
            && Total(InsertAll([], Produced([life, life])), p.session) == 1
  {
    CountingLaw.StartInv(g);
    CarriedIsCounted(g, from, to);
    ReplayCountsOnce(Window(p, g, ENGINE_START, EngineAfterMove(g, from, to), [s]));
  }

  // An engine that counted a bag before the session opened shows one bag for a session that has
  // seen none.
  lemma EarlierBagIsShown(g: Geometry, from: Point, to: Point, p: Place)
    requires g.ZonesAgree() && !g.Beyond(from) && g.Beyond(to)
    ensures PlanFits(TrackerAfterAppear(from), Move(to).dets, Move(to).plan)
    ensures var idle := Window(p, g, EngineAfterMove(g, from, to), EngineAfterMove(g, from, to), []);
            idle.Valid() && NetOf([idle]) == 0 && idle.after.net == 1
  {
    CarriedIsCounted(g, from, to);
    var idle := Window(p, g, EngineAfterMove(g, from, to), EngineAfterMove(g, from, to), []);
    assert [idle][..0] == [];
  }
}
