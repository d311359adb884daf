/**
 The repositories and the event handler as they run: one database, changed in
 place, every method proved against the functions of Sessions.dfy.
 */
module EventHandler {
  import opened Wrappers
  import opened Ledger
  import opened Sessions

  class Database {
    const refs: References
    var rows: seq<Event>
    var sessions: seq<Session>
    var cases: seq<Case>

    constructor (refs: References)
      ensures Value() == Store([], [], [], refs)
      ensures StoreInv(Value()) && AllCached(Value())
    {
      this.refs := refs;
      rows, sessions, cases := [], [], [];
    }

    function Value(): Store
      reads this
    {
      Store(rows, sessions, cases, refs)
    }
  }

  class LedgerRepository {
    const db: Database

    constructor (db: Database)
      ensures this.db == db
    {
      this.db := db;
    }

    method RecordEvent(e: Event) returns (r: Result<(Event, bool), Error>)
      modifies db
      ensures (db.Value(), r) == Sessions.RecordEvent(old(db.Value()), e)
    {
      var existing := Find(db.rows, e.key);
      if existing.Some? {
        return Ok((existing.value, false));
      }
      if !db.Value().Referenced(e) {
        return Err(ForeignKey);
      }
      db.rows := db.rows + [e];
      return Ok((e, true));
    }

    function GetSessionTotalCount(session: int): int
      reads db
    {
      Total(db.rows, session)
    }
  }

  class SessionRepository {
    const db: Database

    constructor (db: Database)
      ensures this.db == db
    {
      this.db := db;
    }

    method Create(line: int, product: int, now: int) returns (r: Result<int, Error>)
      modifies db
      ensures (db.Value(), r) == CreateSession(old(db.Value()), line, product, now)
    {
      var existing := ActiveSession(db.sessions, line);
      if existing > 0 {
        return Err(ActiveSessionConflict(existing));
      }
      if line !in db.refs.lines || product !in db.refs.products {
        return Err(ForeignKey);
      }
      db.sessions := db.sessions + [NewSession(line, product, now)];
      return Ok(|db.sessions|);
    }

    method Write(session: int, s: Session)
      requires db.Value().Has(session)
      modifies db
      ensures db.Value() == old(db.Value()).Put(session, s)
    {
      db.sessions := db.sessions[session - 1 := s];
    }

    method UpdateArea(session: int, area: real)
      modifies db
      ensures db.Value() == Sessions.UpdateArea(old(db.Value()), session, area)
    {
      if db.Value().Has(session) {
        Write(session, db.sessions[session - 1].(areaEstimate := area));
      }
    }

    method UpdateCountedTotal(session: int, total: int)
      modifies db
      ensures db.Value() == Sessions.UpdateCountedTotal(old(db.Value()), session, total)
    {
      if db.Value().Has(session) {
        Write(session, db.sessions[session - 1].(countedTotal := total));
      }
    }

    method FlagDiscrepancy(session: int, area: real)
      modifies db
      ensures db.Value() == Sessions.FlagDiscrepancy(old(db.Value()), session, area)
    {
      if db.Value().Has(session) {
        var s := db.sessions[session - 1].(discrepancy := true, areaEstimate := area);
        Write(session, s.(status := ReconcileRequired));
      }
    }

    method MarkDegraded(session: int)
      modifies db
      ensures db.Value() == Sessions.MarkDegraded(old(db.Value()), session)
    {
      if db.Value().Has(session) {
        var s := db.sessions[session - 1];
        if s.status == Open || s.status == Counting {
          Write(session, s.(status := Degraded));
        }
      }
    }

    method Close(session: int, now: int)
      modifies db
      ensures db.Value() == CloseSession(old(db.Value()), session, now)
    {
      if db.Value().Has(session) {
        var s := db.sessions[session - 1];
        var needsReview := s.status == Degraded || s.discrepancy;
        s := s.(countedTotal := Total(db.rows, session), closedAt := Some(now));
        Write(session, s.(status := if needsReview then ReconcileRequired else Closed));
      }
    }
  }

  class ReconciliationRepository {
    const db: Database

    constructor (db: Database)
      ensures this.db == db
    {
      this.db := db;
    }

    method Create(session: int, reason: string, evidence: Option<nat>, now: int) returns (r: Result<nat, Error>)
      modifies db
      ensures (db.Value(), r) == CreateCase(old(db.Value()), session, reason, evidence, now)
    {
      if !db.Value().Has(session) {
        return Err(ForeignKey);
      }
      db.cases := db.cases + [Case(session, reason, evidence, now, None, None, None)];
      var s := db.sessions[session - 1];
      db.sessions := db.sessions[session - 1 := s.(reconciliation := Some(|db.cases|), status := ReconcileRequired)];
      return Ok(|db.cases|);
    }

    method Resolve(id: int, resolution: Resolution, count: Option<int>, now: int)
      modifies db
      ensures db.Value() == ResolveCase(old(db.Value()), id, resolution, count, now)
    {
      if 1 <= id <= |db.cases| {
        var c := db.cases[id - 1];
        db.cases := db.cases[id - 1 := c.(resolution := Some(resolution), resolvedCount := count,
                                          resolvedAt := Some(now))];
        if db.Value().Has(c.session) {
          var s := db.sessions[c.session - 1];
          if resolution == AcceptSystem {
            s := s.(status := Reconciled);
          } else if resolution == ManualOverride {
            s := s.(status := Reconciled);
            if count.Some? {
              s := s.(countedTotal := count.value);
            }
          } else if resolution == VoidSession {
            s := s.(status := Closed, countedTotal := 0);
          }
          db.sessions := db.sessions[c.session - 1 := s];
        }
      }
    }
  }

  // ---------------------------------------------------------------- the handler

  datatype Applied =
    | GateCrossingRecorded(event: Event)
    | AreaEstimateUpdated(session: int, area: real)
    | DiscrepancyDetected(session: int, area: real)

  datatype Progress = Progress(store: Store, applied: seq<Applied>, failed: Option<Error>)

  function Advance(p: Progress, e: Event): Progress {
    if p.failed.Some? then p else
      var (st', r) := HandleCrossing(p.store, e);
      if r.Err? then Progress(st', p.applied, Some(r.error))
      else if r.value.1 then Progress(st', p.applied + [GateCrossingRecorded(e)], None)
      else Progress(st', p.applied, None)
  }

  // Handle the crossings of a frame in order, up to the first that fails.
  function Crossings(st: Store, ds: seq<Event>): Progress {
    if ds == [] then Progress(st, [], None) else Advance(Crossings(st, ds[..|ds| - 1]), ds[|ds| - 1])
  }

  // A whole frame: its crossings, then the area estimate, then a flagged discrepancy.
  function Frame(st: Store, ds: seq<Event>, session: int, area: real, flagged: bool): Progress {
    var p := Crossings(st, ds);
    if p.failed.Some? then p else
      var st' := UpdateArea(p.store, session, area);
      var applied := p.applied + [AreaEstimateUpdated(session, area)];
      if flagged
      then Progress(FlagDiscrepancy(st', session, area), applied + [DiscrepancyDetected(session, area)], None)
      else Progress(st', applied, None)
  }

  lemma {:induction false} FailureStays(st: Store, ds: seq<Event>, i: nat)
    requires i <= |ds| && Crossings(st, ds[..i]).failed.Some?
    ensures Crossings(st, ds) == Crossings(st, ds[..i])
    decreases |ds| - i
  {
    if i < |ds| {
      assert ds[..i + 1][..i] == ds[..i];
      FailureStays(st, ds, i + 1);
    } else {
      assert ds[..i] == ds;
    }
  }

  class CountingEventHandler {
    const db: Database
    const ledger: LedgerRepository
    const sessions: SessionRepository

    ghost predicate Wired() { ledger.db == db && sessions.db == db }

    constructor (db: Database)
      ensures this.db == db && Wired()
    {
      this.db := db;
      ledger := new LedgerRepository(db);
      sessions := new SessionRepository(db);
    }

    method HandleGateCrossing(e: Event) returns (r: Result<(Event, bool), Error>)
      requires Wired()
      modifies db
      ensures (db.Value(), r) == HandleCrossing(old(db.Value()), e)
    {
      r := ledger.RecordEvent(e);
      if r.Ok? && r.value.1 {
        var total := ledger.GetSessionTotalCount(e.key.session);
        sessions.UpdateCountedTotal(e.key.session, total);
      }
    }

    method HandleFrameOutput(ds: seq<Event>, session: int, area: real, flagged: bool)
      returns (applied: seq<Applied>, failed: Option<Error>)
      requires Wired()
      modifies db
      ensures Progress(db.Value(), applied, failed) == Frame(old(db.Value()), ds, session, area, flagged)
    {
      applied, failed := [], None;
      for i := 0 to |ds|
        invariant Progress(db.Value(), applied, None) == Crossings(old(db.Value()), ds[..i])
      {
        assert ds[..i + 1][..i] == ds[..i];
        var r := HandleGateCrossing(ds[i]);
        if r.Err? {
          failed := Some(r.error);
          FailureStays(old(db.Value()), ds, i + 1);
          return;
        }
        if r.value.1 {
          applied := applied + [GateCrossingRecorded(ds[i])];
        }
      }
      assert ds[..|ds|] == ds;
      sessions.UpdateArea(session, area);
      applied := applied + [AreaEstimateUpdated(session, area)];
      if flagged {
        sessions.FlagDiscrepancy(session, area);
        applied := applied + [DiscrepancyDetected(session, area)];
      }
    }
  }

  // --------------------------------------------------------- what a frame leaves

  function Recorded(applied: seq<Applied>): seq<Event> {
    if applied == [] then [] else
      var a, rest := applied[|applied| - 1], Recorded(applied[..|applied| - 1]);
      if a.GateCrossingRecorded? then rest + [a.event] else rest
  }

  lemma RecordedAppend(applied: seq<Applied>, e: Event)
    ensures Recorded(applied + [GateCrossingRecorded(e)]) == Recorded(applied) + [e]
  {
    assert (applied + [GateCrossingRecorded(e)])[..|applied|] == applied;
  }

  // One more crossing: a failure stops everything; a new row is appended and reported;
  // anything else changes nothing.
  lemma AdvanceEffect(p: Progress, e: Event)
    requires StoreInv(p.store)
    ensures var q := Advance(p, e);
            && StoreInv(q.store) && q.store.refs == p.store.refs && q.store.cases == p.store.cases
            && |q.store.sessions| == |p.store.sessions|
            && (q.failed.None? <==> p.failed.None? && (HasKey(p.store.rows, e.key) || p.store.Referenced(e)))
            && (q.failed.None? ==> q.store.rows == Insert(p.store.rows, e))
            && (if q.failed.None? && !HasKey(p.store.rows, e.key)
                then q.store.rows == p.store.rows + [e] && Recorded(q.applied) == Recorded(p.applied) + [e]
                     && Cached(q.store, e.key.session)
                else q.store == p.store && q.applied == p.applied)
  {
    CrossingEffect(p.store, e);
    CrossingKeepsInv(p.store, e);
    RecordedAppend(p.applied, e);
  }

  // Nothing but rows and cached totals moves, and the crossings reported as applied
  // are exactly the new rows, in order.
  lemma {:induction false} AppliedAreNewRows(st: Store, ds: seq<Event>)
    requires StoreInv(st)
    ensures var p := Crossings(st, ds);
            && StoreInv(p.store) && p.store.refs == st.refs && |p.store.sessions| == |st.sessions|
            && p.store.cases == st.cases
            && p.store.rows == st.rows + Recorded(p.applied)
  {
    if ds != [] {
      AppliedAreNewRows(st, ds[..|ds| - 1]);
      AdvanceEffect(Crossings(st, ds[..|ds| - 1]), ds[|ds| - 1]);
    }
  }

  // The i-th crossing is new and referenced, or repeats one that is already there.
  predicate Acceptable(st: Store, ds: seq<Event>, i: nat)
    requires i < |ds|
  {
    st.Referenced(ds[i]) || HasKey(st.rows, ds[i].key) || HasKey(ds[..i], ds[i].key)
  }

  ghost predicate AllAcceptable(st: Store, ds: seq<Event>) {
    forall i | 0 <= i < |ds| :: Acceptable(st, ds, i)
  }

  lemma AcceptableNext(st: Store, ds: seq<Event>)
    requires ds != []
    ensures AllAcceptable(st, ds) <==> AllAcceptable(st, ds[..|ds| - 1]) && Acceptable(st, ds, |ds| - 1)
  {
    var n := |ds| - 1;
    forall i | 0 <= i < n ensures Acceptable(st, ds, i) <==> Acceptable(st, ds[..n], i) {
      assert ds[..n][..i] == ds[..i];
    }
    if AllAcceptable(st, ds) {
      forall i | 0 <= i < n ensures Acceptable(st, ds[..n], i) {
        assert Acceptable(st, ds, i);
      }
    }
    if AllAcceptable(st, ds[..n]) && Acceptable(st, ds, n) {
      forall i | 0 <= i < |ds| ensures Acceptable(st, ds, i) {
        if i < n {
          assert Acceptable(st, ds[..n], i);
        }
      }
    }
  }

  // A frame is handled to the end exactly when every crossing is acceptable, and then
  // the ledger has taken in the whole delivery.
  lemma {:induction false} FrameFailsExactly(st: Store, ds: seq<Event>)
    requires StoreInv(st)
    ensures Crossings(st, ds).failed.None? <==> AllAcceptable(st, ds)
    ensures Crossings(st, ds).failed.None? ==> Crossings(st, ds).store.rows == InsertAll(st.rows, ds)
  {
    if ds != [] {
      var n := |ds| - 1;
      FrameFailsExactly(st, ds[..n]);
      AppliedAreNewRows(st, ds[..n]);
      OneRowPerKey(st.rows, ds[..n]);
      AdvanceEffect(Crossings(st, ds[..n]), ds[n]);
      AcceptableNext(st, ds);
    }
  }

  lemma {:induction false} CrossingsRefreshCache(st: Store, ds: seq<Event>, session: int)
    requires StoreInv(st) && st.Has(session)
    requires forall i | 0 <= i < |ds| :: ds[i].key.session == session
    ensures var p := Crossings(st, ds);
            && StoreInv(p.store) && p.store.Has(session) && st.rows <= p.store.rows
            && (Cached(p.store, session) <==> Cached(st, session) || p.store.rows != st.rows)
  {
    if ds != [] {
      var init, e := ds[..|ds| - 1], ds[|ds| - 1];
      assert forall i | 0 <= i < |init| :: init[i] == ds[i];
      CrossingsRefreshCache(st, init, session);
      AdvanceEffect(Crossings(st, init), e);
    }
  }

  // After a frame that was handled to the end, the session's cache is the ledger's total
  // if any of its crossings was new, and as right as before otherwise.
  lemma {:induction false} FrameRefreshesCache(st: Store, ds: seq<Event>, session: int, area: real, flagged: bool)
    requires StoreInv(st) && st.Has(session)
    requires forall i | 0 <= i < |ds| :: ds[i].key.session == session
    ensures var p := Frame(st, ds, session, area, flagged);
            p.store.Has(session)
            && (Cached(p.store, session) <==> Cached(st, session) || p.store.rows != st.rows)
  {
    CrossingsRefreshCache(st, ds, session);
  }
}
