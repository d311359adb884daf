/**
 Sessions with their cached totals, the ledger they are derived from and the
 reconciliation cases, as one store; and when the cache is the ledger's total.
 */
module Sessions {
  import opened Wrappers
  import opened Ledger

  datatype Status = Open | Counting | Paused | Degraded | ReconcileRequired | Reconciled | Closed

  datatype Session = Session(
    line: int, product: int, status: Status, countedTotal: int, areaEstimate: real, discrepancy: bool,
    reconciliation: Option<nat>, openedAt: int, closedAt: Option<int>)

  datatype Resolution = AcceptSystem | ManualOverride | VoidSession | OtherResolution

  // evidence: the outbox entry the case was opened for, if any.
  datatype Case = Case(session: int, reason: string, evidence: Option<nat>, openedAt: int,
                       resolution: Option<Resolution>, resolvedCount: Option<int>, resolvedAt: Option<int>)

  // The rows that sessions and ledger rows refer to.
  datatype References = References(
    lines: set<int>, products: set<int>, cameras: set<int>, gates: set<int>, bundles: set<int>)

  datatype Error = ForeignKey | ActiveSessionConflict(existing: int)

  // Session and case ids count from 1.
  datatype Store = Store(rows: seq<Event>, sessions: seq<Session>, cases: seq<Case>, refs: References)
  {
    predicate Has(sid: int) { 1 <= sid <= |sessions| }

    function At(sid: int): Session requires Has(sid) { sessions[sid - 1] }

    function Put(sid: int, s: Session): Store requires Has(sid) { this.(sessions := sessions[sid - 1 := s]) }

    predicate Referenced(e: Event) {
      && Has(e.key.session) && e.line in refs.lines && e.key.camera in refs.cameras
      && e.key.gate in refs.gates && e.bundle in refs.bundles
    }
  }

  predicate Active(s: Session) {
    s.status == Open || s.status == Counting || s.status == Paused || s.status == Degraded
  }

  // The most recently opened active session of a line, or 0.
  function ActiveSession(ss: seq<Session>, line: int): (r: int)
    ensures 0 <= r <= |ss|
    ensures r > 0 ==> Active(ss[r - 1]) && ss[r - 1].line == line
    ensures r == 0 ==> forall i | 0 <= i < |ss| :: !(Active(ss[i]) && ss[i].line == line)
    ensures forall i | 0 <= i < |ss| && r > 0 && Active(ss[i]) && ss[i].line == line ::
              ss[i].openedAt <= ss[r - 1].openedAt
  {
    if ss == [] then 0 else
      var n := |ss| - 1;
      var r := ActiveSession(ss[..n], line);
      if Active(ss[n]) && ss[n].line == line && (r == 0 || ss[n].openedAt > ss[r - 1].openedAt) then n + 1 else r
  }

  // ------------------------------------------------------------------- operations

  function NewSession(line: int, product: int, now: int): Session {
    Session(line, product, Open, 0, 0.0, false, None, now, None)
  }

  function CreateSession(st: Store, line: int, product: int, now: int): (Store, Result<int, Error>) {
    var existing := ActiveSession(st.sessions, line);
    if existing > 0 then (st, Err(ActiveSessionConflict(existing)))
    else if line !in st.refs.lines || product !in st.refs.products then (st, Err(ForeignKey))
    else (st.(sessions := st.sessions + [NewSession(line, product, now)]), Ok(|st.sessions| + 1))
  }

  // A duplicate key is reported before a dangling reference.
  function RecordEvent(st: Store, e: Event): (Store, Result<(Event, bool), Error>) {
    var found := Find(st.rows, e.key);
    if found.Some? then (st, Ok((found.value, false)))
    else if !st.Referenced(e) then (st, Err(ForeignKey))
    else (st.(rows := st.rows + [e]), Ok((e, true)))
  }

  function UpdateCountedTotal(st: Store, sid: int, total: int): Store {
    if st.Has(sid) then st.Put(sid, st.At(sid).(countedTotal := total)) else st
  }

  // Record, and refresh the cached total only when the row is new.
  function HandleCrossing(st: Store, e: Event): (Store, Result<(Event, bool), Error>) {
    var (st', r) := RecordEvent(st, e);
    if r.Ok? && r.value.1
    then (UpdateCountedTotal(st', e.key.session, Total(st'.rows, e.key.session)), r)
    else (st', r)
  }

  function UpdateArea(st: Store, sid: int, area: real): Store {
    if st.Has(sid) then st.Put(sid, st.At(sid).(areaEstimate := area)) else st
  }

  function FlagDiscrepancy(st: Store, sid: int, area: real): Store {
    if st.Has(sid)
    then st.Put(sid, st.At(sid).(discrepancy := true, areaEstimate := area, status := ReconcileRequired))
    else st
  }

  function Pause(st: Store, sid: int): Store {
    if st.Has(sid) && (st.At(sid).status == Open || st.At(sid).status == Counting)
    then st.Put(sid, st.At(sid).(status := Paused)) else st
  }

  function Resume(st: Store, sid: int): Store {
    if st.Has(sid) && st.At(sid).status == Paused
    then st.Put(sid, st.At(sid).(status := Counting)) else st
  }

  function MarkDegraded(st: Store, sid: int): Store {
    if st.Has(sid) && (st.At(sid).status == Open || st.At(sid).status == Counting)
    then st.Put(sid, st.At(sid).(status := Degraded)) else st
  }

  function ClosedSession(s: Session, total: int, now: int): Session {
    s.(countedTotal := total, closedAt := Some(now),
       status := if s.status == Degraded || s.discrepancy then ReconcileRequired else Closed)
  }

  function CloseSession(st: Store, sid: int, now: int): Store {
    if st.Has(sid) then st.Put(sid, ClosedSession(st.At(sid), Total(st.rows, sid), now)) else st
  }

  function CreateCase(st: Store, sid: int, reason: string, evidence: Option<nat>, now: int): (Store, Result<nat, Error>) {
    if !st.Has(sid) then (st, Err(ForeignKey)) else
      var id := |st.cases| + 1;
      (st.(cases := st.cases + [Case(sid, reason, evidence, now, None, None, None)])
         .Put(sid, st.At(sid).(reconciliation := Some(id), status := ReconcileRequired)),
       Ok(id))
  }

  function Resolved(s: Session, resolution: Resolution, count: Option<int>): Session {
    match resolution
    case AcceptSystem => s.(status := Reconciled)
    case ManualOverride =>
      if count.Some? then s.(status := Reconciled, countedTotal := count.value) else s.(status := Reconciled)
    case VoidSession => s.(status := Closed, countedTotal := 0)
    case OtherResolution => s
  }

  function ResolveCase(st: Store, id: int, resolution: Resolution, count: Option<int>, now: int): Store {
    if !(1 <= id <= |st.cases|) then st else
      var c := st.cases[id - 1];
      var st' := st.(cases := st.cases[id - 1 := c.(resolution := Some(resolution), resolvedCount := count,
                                                   resolvedAt := Some(now))]);
      if st.Has(c.session) then st'.Put(c.session, Resolved(st.At(c.session), resolution, count)) else st'
  }

  datatype Op =
    | CreateOp(line: int, product: int, now: int)
    | CrossingOp(event: Event)
    | AreaOp(sid: int, area: real)
    | DiscrepancyOp(sid: int, area: real)
    | PauseOp(sid: int)
    | ResumeOp(sid: int)
    | DegradedOp(sid: int)
    | CloseOp(sid: int, now: int)
    | CaseOp(sid: int, reason: string, now: int)
    | ResolveOp(id: int, resolution: Resolution, count: Option<int>, now: int)

  function Next(st: Store, op: Op): Store {
    match op
    case CreateOp(line, product, now) => CreateSession(st, line, product, now).0
    case CrossingOp(e) => HandleCrossing(st, e).0
    case AreaOp(sid, area) => UpdateArea(st, sid, area)
    case DiscrepancyOp(sid, area) => FlagDiscrepancy(st, sid, area)
    case PauseOp(sid) => Pause(st, sid)
    case ResumeOp(sid) => Resume(st, sid)
    case DegradedOp(sid) => MarkDegraded(st, sid)
    case CloseOp(sid, now) => CloseSession(st, sid, now)
    case CaseOp(sid, reason, now) => CreateCase(st, sid, reason, None, now).0
    case ResolveOp(id, resolution, count, now) => ResolveCase(st, id, resolution, count, now)
  }

  function Run(st: Store, ops: seq<Op>): Store {
    if ops == [] then st else Next(Run(st, ops[..|ops| - 1]), ops[|ops| - 1])
  }

  // ------------------------------------------------------------------ invariants

  ghost predicate StoreInv(st: Store) {
    && KeysDistinct(st.rows)
    && (forall i | 0 <= i < |st.rows| :: st.Has(st.rows[i].key.session))
    && (forall i | 0 <= i < |st.cases| :: st.Has(st.cases[i].session))
  }

  predicate Cached(st: Store, sid: int) requires st.Has(sid) {
    st.At(sid).countedTotal == Total(st.rows, sid)
  }

  ghost predicate AllCached(st: Store) {
    forall sid | st.Has(sid) :: Cached(st, sid)
  }

  // A human decision about session sid.
  predicate Resolves(st: Store, op: Op, sid: int) {
    op.ResolveOp? && 1 <= op.id <= |st.cases| && st.cases[op.id - 1].session == sid
  }

  // The count it writes, if it writes one.
  function Written(op: Op): Option<int>
    requires op.ResolveOp?
  {
    if op.resolution == ManualOverride then op.count
    else if op.resolution == VoidSession then Some(0)
    else None
  }

  // A decision that sets the session's count to something else than the ledger's total.
  predicate OverridesOf(st: Store, op: Op, sid: int) {
    Resolves(st, op, sid) && Written(op).Some? && Written(op).value != Total(st.rows, sid)
  }

  predicate Overrides(st: Store, op: Op) {
    op.ResolveOp? && 1 <= op.id <= |st.cases| && OverridesOf(st, op, st.cases[op.id - 1].session)
  }

  // What puts the ledger's total back: closing the session, a new crossing of it, or a
  // decision that happens to write that very number.
  predicate Recovers(st: Store, op: Op, sid: int) {
    || (op.CloseOp? && op.sid == sid)
    || (op.CrossingOp? && op.event.key.session == sid && !HasKey(st.rows, op.event.key) && st.Referenced(op.event))
    || (Resolves(st, op, sid) && Written(op) == Some(Total(st.rows, sid)))
  }

  lemma {:induction false} NoRowsNoTotal(rows: seq<Event>, sid: int)
    requires forall i | 0 <= i < |rows| :: rows[i].key.session != sid
    ensures Total(rows, sid) == 0
  {
    if rows != [] {
      NoRowsNoTotal(rows[..|rows| - 1], sid);
    }
  }

  lemma TotalAppend(rows: seq<Event>, e: Event, sid: int)
    ensures Total(rows + [e], sid) == Total(rows, sid) + if e.key.session == sid then e.direction else 0
  {
    assert (rows + [e])[..|rows|] == rows;
  }

  // Operations that leave the rows alone and make no case for a session that is not there.
  lemma QuietKeepsInv(st: Store, st': Store)
    requires StoreInv(st) && st'.rows == st.rows && |st'.sessions| >= |st.sessions|
    requires forall i | 0 <= i < |st'.cases| :: st'.Has(st'.cases[i].session)
    ensures StoreInv(st')
  {
  }

  lemma CrossingKeepsInv(st: Store, e: Event)
    requires StoreInv(st)
    ensures var st' := HandleCrossing(st, e).0;
            StoreInv(st') && st'.refs == st.refs && |st'.sessions| == |st.sessions| && st'.cases == st.cases
  {
    var found := Find(st.rows, e.key);
    if found.None? && st.Referenced(e) {
      var rows := st.rows + [e];
      forall i, j | 0 <= i < j < |rows| ensures rows[i].key != rows[j].key {
        if j == |st.rows| {
          assert st.rows[i].key != e.key;
        }
      }
    }
  }

  lemma NextKeepsInv(st: Store, op: Op)
    requires StoreInv(st)
    ensures StoreInv(Next(st, op)) && Next(st, op).refs == st.refs && |st.sessions| <= |Next(st, op).sessions|
  {
    if op.CrossingOp? {
      CrossingKeepsInv(st, op.event);
    } else {
      QuietKeepsInv(st, Next(st, op));
    }
  }

  // What handling one crossing does: a new row of an existing session refreshes that
  // session's cache, whatever it held; a duplicate or a dangling one changes nothing.
  lemma CrossingEffect(st: Store, e: Event)
    requires StoreInv(st)
    ensures var (st', r) := HandleCrossing(st, e);
            && (r.Ok? && r.value.1 <==> !HasKey(st.rows, e.key) && st.Referenced(e))
            && (r.Ok? && r.value.1 ==>
                  st'.rows == st.rows + [e] && st'.Has(e.key.session) && Cached(st', e.key.session))
            && (!(r.Ok? && r.value.1) ==> st' == st)
            && (r.Ok? ==> r.value.0.key == e.key && r.value.0 in st'.rows)
            && (r.Ok? && !r.value.1 ==> r.value.0 in st.rows)
            && (forall sid | st.Has(sid) && sid != e.key.session ::
                  st'.At(sid) == st.At(sid) && Total(st'.rows, sid) == Total(st.rows, sid))
  {
    var found := Find(st.rows, e.key);
    forall sid { TotalAppend(st.rows, e, sid); }
  }

  // Every operation but an overriding resolution keeps every cache equal to the
  // ledger's total, and an overriding resolution breaks it.
  lemma CacheIsLedgerExactly(st: Store, op: Op)
    requires StoreInv(st) && AllCached(st)
    ensures AllCached(Next(st, op)) <==> !Overrides(st, op)
  {
    var st' := Next(st, op);
    if Overrides(st, op) {
      var sid := st.cases[op.id - 1].session;
      assert Cached(st, sid) && st'.Has(sid) && !Cached(st', sid);
    } else {
      forall sid | st'.Has(sid) ensures Cached(st', sid) {
        KeepsCached(st, op, sid);
      }
    }
  }

  lemma KeepsCached(st: Store, op: Op, sid: int)
    requires StoreInv(st) && AllCached(st) && !Overrides(st, op) && Next(st, op).Has(sid)
    ensures Cached(Next(st, op), sid)
  {
    if op.CrossingOp? {
      CrossingEffect(st, op.event);
      assert Cached(st, sid);
    } else if op.CreateOp? && !st.Has(sid) {
      NoRowsNoTotal(st.rows, sid);
    } else {
      assert Cached(st, sid);
    }
  }

  lemma CacheThroughCrossing(st: Store, e: Event, sid: int)
    requires StoreInv(st) && st.Has(sid)
    ensures var st' := HandleCrossing(st, e).0;
            && st'.Has(sid)
            && (Cached(st', sid) <==> Cached(st, sid) || (e.key.session == sid && !HasKey(st.rows, e.key) && st.Referenced(e)))
  {
    CrossingEffect(st, e);
    CrossingKeepsInv(st, e);
  }

  lemma CacheThroughResolution(st: Store, op: Op, sid: int)
    requires op.ResolveOp? && st.Has(sid)
    ensures Next(st, op).Has(sid) && Next(st, op).rows == st.rows
    ensures Next(st, op).At(sid).countedTotal
         == if Resolves(st, op, sid) && Written(op).Some? then Written(op).value else st.At(sid).countedTotal
  {
  }

  // One session's cache through one operation, in full: a right one is broken exactly by
  // an override, a wrong one is put right exactly by what recovers the ledger's total.
  lemma CacheOfOneExactly(st: Store, op: Op, sid: int)
    requires StoreInv(st) && st.Has(sid)
    ensures Next(st, op).Has(sid)
    ensures Cached(Next(st, op), sid) <==> if Cached(st, sid) then !OverridesOf(st, op, sid) else Recovers(st, op, sid)
  {
    if op.CrossingOp? {
      CacheThroughCrossing(st, op.event, sid);
    } else if op.ResolveOp? {
      CacheThroughResolution(st, op, sid);
    }
  }

  // Closing a session, or recording a new crossing for it, puts the ledger's total
  // back whatever a resolution had written there.
  lemma LedgerTotalReturns(st: Store, op: Op, sid: int)
    requires StoreInv(st) && st.Has(sid)
    requires (op.CloseOp? && op.sid == sid)
          || (op.CrossingOp? && op.event.key.session == sid && !HasKey(st.rows, op.event.key) && st.Referenced(op.event))
    ensures Next(st, op).Has(sid) && Cached(Next(st, op), sid)
  {
    CacheOfOneExactly(st, op, sid);
  }

  ghost predicate NeverRecovers(st: Store, ops: seq<Op>, sid: int) {
    forall i | 0 <= i < |ops| :: !Recovers(Run(st, ops[..i]), ops[i], sid)
  }

  ghost predicate StaysOff(st: Store, ops: seq<Op>, sid: int) {
    forall i | 0 <= i <= |ops| :: Run(st, ops[..i]).Has(sid) && !Cached(Run(st, ops[..i]), sid)
  }

  // After an override the session's count stays off the ledger's total through a run
  // exactly when nothing in the run recovers it.
  lemma StaysOffExactly(st: Store, op: Op, ops: seq<Op>, sid: int)
    requires StoreInv(st) && st.Has(sid) && OverridesOf(st, op, sid)
    ensures StaysOff(Next(st, op), ops, sid) <==> NeverRecovers(Next(st, op), ops, sid)
  {
    var s := Next(st, op);
    NextKeepsInv(st, op);
    assert s.Has(sid) && !Cached(s, sid);
    if NeverRecovers(s, ops, sid) {
      forall i | 0 <= i <= |ops| ensures Run(s, ops[..i]).Has(sid) && !Cached(Run(s, ops[..i]), sid) {
        StillOff(s, ops, sid, i);
      }
    }
    if StaysOff(s, ops, sid) {
      forall i | 0 <= i < |ops| ensures !Recovers(Run(s, ops[..i]), ops[i], sid) {
        var r := Run(s, ops[..i]);
        assert r.Has(sid) && !Cached(r, sid);
        RunKeepsInv(s, ops[..i]);
        CacheOfOneExactly(r, ops[i], sid);
        RunNext(s, ops, i);
        assert !Cached(Run(s, ops[..i + 1]), sid);
      }
    }
  }

  lemma RunNext(st: Store, ops: seq<Op>, i: nat)
    requires i < |ops|
    ensures Run(st, ops[..i + 1]) == Next(Run(st, ops[..i]), ops[i])
  {
    assert ops[..i + 1][..i] == ops[..i];
  }

  lemma {:induction false} StillOff(st: Store, ops: seq<Op>, sid: int, i: nat)
    requires StoreInv(st) && st.Has(sid) && !Cached(st, sid) && NeverRecovers(st, ops, sid) && i <= |ops|
    ensures Run(st, ops[..i]).Has(sid) && !Cached(Run(st, ops[..i]), sid)
  {
    if i > 0 {
      StillOff(st, ops, sid, i - 1);
      RunKeepsInv(st, ops[..i - 1]);
      CacheOfOneExactly(Run(st, ops[..i - 1]), ops[i - 1], sid);
      RunNext(st, ops, i - 1);
    }
  }

  // ---------------------------------------------------------- the number that was decided

  // What puts another number than n in a session's count: closing it or counting on when
  // the ledger says otherwise, or a decision for another number.
  predicate Replaces(st: Store, op: Op, sid: int, n: int) {
    || (op.CloseOp? && op.sid == sid && Total(st.rows, sid) != n)
    || (op.CrossingOp? && op.event.key.session == sid && !HasKey(st.rows, op.event.key) && st.Referenced(op.event)
        && Total(st.rows, sid) + op.event.direction != n)
    || (Resolves(st, op, sid) && Written(op).Some? && Written(op).value != n)
  }

  lemma CountThroughCrossing(st: Store, e: Event, sid: int)
    requires StoreInv(st) && st.Has(sid)
    ensures var st' := HandleCrossing(st, e).0;
            && st'.Has(sid)
            && st'.At(sid).countedTotal
               == if e.key.session == sid && !HasKey(st.rows, e.key) && st.Referenced(e)
                  then Total(st.rows, sid) + e.direction else st.At(sid).countedTotal
  {
    CrossingEffect(st, e);
    CrossingKeepsInv(st, e);
    TotalAppend(st.rows, e, sid);
  }

  // One session's count through one operation, to the number.
  lemma CountStaysExactly(st: Store, op: Op, sid: int)
    requires StoreInv(st) && st.Has(sid)
    ensures Next(st, op).Has(sid)
    ensures Next(st, op).At(sid).countedTotal == st.At(sid).countedTotal
       <==> !Replaces(st, op, sid, st.At(sid).countedTotal)
  {
    if op.CrossingOp? {
      CountThroughCrossing(st, op.event, sid);
    } else if op.ResolveOp? {
      CacheThroughResolution(st, op, sid);
    }
  }

  ghost predicate NeverReplaced(st: Store, ops: seq<Op>, sid: int, n: int) {
    forall i | 0 <= i < |ops| :: !Replaces(Run(st, ops[..i]), ops[i], sid, n)
  }

  ghost predicate Counts(st: Store, sid: int, n: int) { st.Has(sid) && st.At(sid).countedTotal == n }

  ghost predicate StandsThrough(st: Store, ops: seq<Op>, sid: int, n: int) {
    forall i | 0 <= i <= |ops| :: Counts(Run(st, ops[..i]), sid, n)
  }

  lemma {:induction false} StillCounts(st: Store, ops: seq<Op>, sid: int, n: int, i: nat)
    requires StoreInv(st) && Counts(st, sid, n) && NeverReplaced(st, ops, sid, n) && i <= |ops|
    ensures Counts(Run(st, ops[..i]), sid, n)
  {
    if i > 0 {
      StillCounts(st, ops, sid, n, i - 1);
      RunKeepsInv(st, ops[..i - 1]);
      CountStaysExactly(Run(st, ops[..i - 1]), ops[i - 1], sid);
      RunNext(st, ops, i - 1);
    }
  }

  // A number a human decided on stands through a run exactly when no operation of the run
  // replaces it, a later decision included.
  lemma DecisionStandsExactly(st: Store, op: Op, ops: seq<Op>, sid: int)
    requires StoreInv(st) && st.Has(sid) && Resolves(st, op, sid) && Written(op).Some?
    ensures StandsThrough(Next(st, op), ops, sid, Written(op).value)
       <==> NeverReplaced(Next(st, op), ops, sid, Written(op).value)
  {
    var s, n := Next(st, op), Written(op).value;
    NextKeepsInv(st, op);
    CacheThroughResolution(st, op, sid);
    if NeverReplaced(s, ops, sid, n) {
      forall i | 0 <= i <= |ops| ensures Counts(Run(s, ops[..i]), sid, n) {
        StillCounts(s, ops, sid, n, i);
      }
    }
    if StandsThrough(s, ops, sid, n) {
      forall i | 0 <= i < |ops| ensures !Replaces(Run(s, ops[..i]), ops[i], sid, n) {
        var r := Run(s, ops[..i]);
        assert Counts(r, sid, n);
        RunKeepsInv(s, ops[..i]);
        CountStaysExactly(r, ops[i], sid);
        RunNext(s, ops, i);
        assert Counts(Run(s, ops[..i + 1]), sid, n);
      }
    }
  }

  ghost predicate NeverOverrides(st: Store, ops: seq<Op>) {
    forall i | 0 <= i < |ops| :: !Overrides(Run(st, ops[..i]), ops[i])
  }

  lemma {:induction false} RunKeepsInv(st: Store, ops: seq<Op>)
    requires StoreInv(st)
    ensures StoreInv(Run(st, ops))
  {
    if ops != [] {
      RunKeepsInv(st, ops[..|ops| - 1]);
      NextKeepsInv(Run(st, ops[..|ops| - 1]), ops[|ops| - 1]);
    }
  }

  lemma NextKeepsCaches(st: Store, op: Op)
    requires StoreInv(st) && AllCached(st) && !Overrides(st, op)
    ensures AllCached(Next(st, op))
  {
    CacheIsLedgerExactly(st, op);
  }

  lemma OverridesOfPrefix(st: Store, ops: seq<Op>)
    requires ops != [] && NeverOverrides(st, ops)
    ensures NeverOverrides(st, ops[..|ops| - 1])
    ensures !Overrides(Run(st, ops[..|ops| - 1]), ops[|ops| - 1])
  {
    var n := |ops| - 1;
    forall i | 0 <= i < n ensures !Overrides(Run(st, ops[..n][..i]), ops[..n][i]) {
      assert ops[..n][..i] == ops[..i];
    }
  }

  // Over every run in which no resolution overrides the ledger, the caches are the ledger's totals.
  lemma {:induction false} RunKeepsCaches(st: Store, ops: seq<Op>)
    requires StoreInv(st) && AllCached(st) && NeverOverrides(st, ops)
    ensures AllCached(Run(st, ops))
  {
    if ops != [] {
      var n := |ops| - 1;
      OverridesOfPrefix(st, ops);
      RunKeepsCaches(st, ops[..n]);
      RunKeepsInv(st, ops[..n]);
      NextKeepsCaches(Run(st, ops[..n]), ops[n]);
    }
  }

  // The crossings of a run that met all their references when they arrived.
  function Accepted(st: Store, ops: seq<Op>): seq<Event> {
    if ops == [] then [] else
      var init, op := ops[..|ops| - 1], ops[|ops| - 1];
      if op.CrossingOp? && Run(st, init).Referenced(op.event) then Accepted(st, init) + [op.event]
      else Accepted(st, init)
  }

  lemma RowsOfNext(st: Store, op: Op)
    ensures Next(st, op).rows
         == if op.CrossingOp? && st.Referenced(op.event) then Insert(st.rows, op.event) else st.rows
  {
    if op.CrossingOp? {
      var found := Find(st.rows, op.event.key);
    }
  }

  // Nothing but crossings ever writes the ledger.
  lemma {:induction false} RowsAreCrossings(st: Store, ops: seq<Op>)
    ensures Run(st, ops).rows == InsertAll(st.rows, Accepted(st, ops))
  {
    if ops != [] {
      var init, op := ops[..|ops| - 1], ops[|ops| - 1];
      RowsAreCrossings(st, init);
      RowsOfNext(Run(st, init), op);
      if op.CrossingOp? {
        InsertOne(st.rows, Accepted(st, init), op.event);
      }
    }
  }

  lemma InsertOne(rows: seq<Event>, ds: seq<Event>, e: Event)
    ensures InsertAll(rows, ds + [e]) == Insert(InsertAll(rows, ds), e)
  {
    assert (ds + [e])[..|ds|] == ds;
  }

  // And it never loses or changes a row.
  lemma LedgerOnlyGrows(st: Store, ops: seq<Op>)
    requires StoreInv(st)
    ensures st.rows <= Run(st, ops).rows && KeysDistinct(Run(st, ops).rows)
  {
    RowsAreCrossings(st, ops);
    OneRowPerKey(st.rows, Accepted(st, ops));
  }

  // ------------------------------------------------------------------ runs in sequence

  lemma RunOne(st: Store, ops: seq<Op>, op: Op)
    ensures Run(st, ops + [op]) == Next(Run(st, ops), op)
  {
    assert (ops + [op])[..|ops|] == ops;
  }

  lemma {:induction false} RunConcat(st: Store, a: seq<Op>, b: seq<Op>)
    ensures Run(st, a + b) == Run(Run(st, a), b)
  {
    if b == [] {
      assert a + b == a;
    } else {
      var n := |b| - 1;
      RunConcat(st, a, b[..n]);
      assert (a + b)[..|a + b| - 1] == a + b[..n];
    }
  }

  lemma {:induction false} AcceptedConcat(st: Store, a: seq<Op>, b: seq<Op>)
    ensures Accepted(st, a + b) == Accepted(st, a) + Accepted(Run(st, a), b)
  {
    if b == [] {
      assert a + b == a;
    } else {
      var n := |b| - 1;
      AcceptedConcat(st, a, b[..n]);
      RunConcat(st, a, b[..n]);
      assert (a + b)[..|a + b| - 1] == a + b[..n];
    }
  }

  lemma {:induction false} RunKeepsReferenced(st: Store, ops: seq<Op>, e: Event)
    requires StoreInv(st) && st.Referenced(e)
    ensures Run(st, ops).Referenced(e)
  {
    if ops != [] {
      var n := |ops| - 1;
      RunKeepsReferenced(st, ops[..n], e);
      RunKeepsInv(st, ops[..n]);
      NextKeepsInv(Run(st, ops[..n]), ops[n]);
    }
  }

  // ------------------------------------------------------------- one session's runs

  // The session's count is the ledger's total, or the session is not there yet.
  ghost predicate CachedIfThere(st: Store, sid: int) {
    st.Has(sid) ==> Cached(st, sid)
  }

  ghost predicate NeverOverridden(st: Store, ops: seq<Op>, sid: int) {
    forall i | 0 <= i < |ops| :: !OverridesOf(Run(st, ops[..i]), ops[i], sid)
  }

  lemma NextKeepsCacheOf(st: Store, op: Op, sid: int)
    requires StoreInv(st) && CachedIfThere(st, sid) && !OverridesOf(st, op, sid)
    ensures CachedIfThere(Next(st, op), sid)
  {
    if st.Has(sid) {
      CacheOfOneExactly(st, op, sid);
    } else if op.CreateOp? {
      NoRowsNoTotal(st.rows, sid);
    }
  }

  lemma NeverOverriddenBefore(st: Store, ops: seq<Op>, sid: int)
    requires ops != [] && NeverOverridden(st, ops, sid)
    ensures NeverOverridden(st, ops[..|ops| - 1], sid)
    ensures !OverridesOf(Run(st, ops[..|ops| - 1]), ops[|ops| - 1], sid)
  {
    var init := ops[..|ops| - 1];
    forall i | 0 <= i < |init| ensures !OverridesOf(Run(st, init[..i]), init[i], sid) {
      assert init[..i] == ops[..i];
    }
  }

  lemma NeverOverriddenConcat(st: Store, a: seq<Op>, b: seq<Op>, sid: int)
    requires NeverOverridden(st, a, sid) && NeverOverridden(Run(st, a), b, sid)
    ensures NeverOverridden(st, a + b, sid)
  {
    var all := a + b;
    forall i | 0 <= i < |all| ensures !OverridesOf(Run(st, all[..i]), all[i], sid) {
      if i < |a| {
        assert all[..i] == a[..i];
      } else {
        assert all[..i] == a + b[..i - |a|];
        RunConcat(st, a, b[..i - |a|]);
      }
    }
  }

  // A session that is never overridden keeps the ledger's total over every run, whatever
  // happens to other sessions.
  lemma {:induction false} RunKeepsCacheOf(st: Store, ops: seq<Op>, sid: int)
    requires StoreInv(st) && CachedIfThere(st, sid) && NeverOverridden(st, ops, sid)
    ensures CachedIfThere(Run(st, ops), sid)
  {
    if ops != [] {
      var n := |ops| - 1;
      NeverOverriddenBefore(st, ops, sid);
      RunKeepsCacheOf(st, ops[..n], sid);
      RunKeepsInv(st, ops[..n]);
      NextKeepsCacheOf(Run(st, ops[..n]), ops[n], sid);
    }
  }

  // Two runs that were delivered the same keys of a session, in the same directions, end with
  // the same total for it, whatever else they were delivered.
  lemma RunsAgree(st: Store, ops: seq<Op>, ops': seq<Op>, sid: int)
    requires StoreInv(st) && CachedIfThere(st, sid)
    requires NeverOverridden(st, ops, sid) && NeverOverridden(st, ops', sid)
    requires SameCrossings(ForSession(Accepted(st, ops), sid), ForSession(Accepted(st, ops'), sid))
    requires Run(st, ops).Has(sid) && Run(st, ops').Has(sid)
    ensures Run(st, ops).At(sid).countedTotal == Run(st, ops').At(sid).countedTotal
  {
    RunKeepsCacheOf(st, ops, sid);
    RunKeepsCacheOf(st, ops', sid);
    RowsAreCrossings(st, ops);
    RowsAreCrossings(st, ops');
    SessionOrderIsIrrelevant(st.rows, Accepted(st, ops), Accepted(st, ops'), sid);
  }
}
