/**
 The life of a session: which operations move it where, what each of them writes, and why a
 line never counts for two sessions at once.
 */
module Lifecycle {
  import opened Wrappers
  import opened Ledger
  import opened Sessions

  // Still counting, or able to count again.
  predicate Alive(s: Session) { s.status != Closed && s.status != Reconciled && s.status != ReconcileRequired }

  // What ends the counting of a session: closing it, a discrepancy, a case, or a decision.
  predicate Ends(st: Store, op: Op, sid: int) {
    || (op.CloseOp? && op.sid == sid)
    || (op.DiscrepancyOp? && op.sid == sid)
    || (op.CaseOp? && op.sid == sid)
    || (Resolves(st, op, sid) && op.resolution != OtherResolution)
  }

  // A session stops counting exactly through one of these, and nothing ever brings it back.
  lemma AliveExactly(st: Store, op: Op, sid: int)
    requires StoreInv(st) && st.Has(sid)
    ensures Next(st, op).Has(sid)
    ensures Alive(Next(st, op).At(sid)) <==> Alive(st.At(sid)) && !Ends(st, op, sid)
  {
    if op.CrossingOp? {
      SameStatus(st, op.event, sid);
    }
  }

  lemma SameStatus(st: Store, e: Event, sid: int)
    requires StoreInv(st) && st.Has(sid)
    ensures var st' := HandleCrossing(st, e).0;
            st'.Has(sid) && st'.At(sid).(countedTotal := st.At(sid).countedTotal) == st.At(sid) && st'.cases == st.cases
  {
    CrossingKeepsInv(st, e);
  }

  // While it lives: created open; paused from open or counting, resumed from there; degraded from open
  // or counting. Ended: closed, or before a human when it was degraded, flagged or in doubt.
  lemma StatusMoves(st: Store, op: Op, sid: int)
    requires StoreInv(st) && st.Has(sid) && Next(st, op).Has(sid)
    ensures var s, s' := st.At(sid), Next(st, op).At(sid);
            && (s'.status == Paused <==>
                  if op.PauseOp? && op.sid == sid then s.status == Open || s.status == Counting || s.status == Paused
                  else s.status == Paused && !(op.ResumeOp? && op.sid == sid) && !Ends(st, op, sid))
            && (s'.status == Degraded <==>
                  if op.DegradedOp? && op.sid == sid then s.status == Open || s.status == Counting || s.status == Degraded
                  else s.status == Degraded && !Ends(st, op, sid))
            && (s'.status == ReconcileRequired <==>
                  || (op.DiscrepancyOp? && op.sid == sid) || (op.CaseOp? && op.sid == sid)
                  || (op.CloseOp? && op.sid == sid && (s.status == Degraded || s.discrepancy))
                  || (s.status == ReconcileRequired && !Ends(st, op, sid)))
            && (s'.status == Reconciled <==>
                  || (Resolves(st, op, sid) && (op.resolution == AcceptSystem || op.resolution == ManualOverride))
                  || (s.status == Reconciled && !Ends(st, op, sid)))
            && (s'.status == Open ==> s.status == Open)
            && (s'.status == Counting ==> s.status == Counting || (op.ResumeOp? && op.sid == sid && s.status == Paused))
  {
    if op.CrossingOp? {
      SameStatus(st, op.event, sid);
    }
  }

  // What operations write besides the status and the count.
  lemma WritesExactly(st: Store, op: Op, sid: int)
    requires StoreInv(st) && st.Has(sid) && Next(st, op).Has(sid)
    ensures var s, s' := st.At(sid), Next(st, op).At(sid);
            && s'.line == s.line && s'.product == s.product && s'.openedAt == s.openedAt
            && s'.areaEstimate == (if (op.AreaOp? || op.DiscrepancyOp?) && op.sid == sid then op.area else s.areaEstimate)
            && s'.discrepancy == (s.discrepancy || (op.DiscrepancyOp? && op.sid == sid))
            && s'.closedAt == (if op.CloseOp? && op.sid == sid then Some(op.now) else s.closedAt)
            && s'.reconciliation == (if op.CaseOp? && op.sid == sid then Some(|st.cases| + 1) else s.reconciliation)
  {
    if op.CrossingOp? {
      SameStatus(st, op.event, sid);
    }
  }

  // Cases are opened at the end and decided in place; a decision may be repeated, and nothing else touches them.
  lemma CasesExactly(st: Store, op: Op)
    ensures var st' := Next(st, op);
            && |st'.cases| == |st.cases| + (if op.CaseOp? && st.Has(op.sid) then 1 else 0)
            && (op.CaseOp? && st.Has(op.sid) ==>
                  st'.cases[|st.cases|] == Case(op.sid, op.reason, None, op.now, None, None, None))
            && forall i | 0 <= i < |st.cases| ::
                 if op.ResolveOp? && op.id == i + 1
                 then st'.cases[i].resolution == Some(op.resolution) && st'.cases[i].resolvedCount == op.count
                      && st'.cases[i].resolvedAt == Some(op.now) && st'.cases[i].session == st.cases[i].session
                      && st'.cases[i].reason == st.cases[i].reason && st'.cases[i].openedAt == st.cases[i].openedAt
                      && st'.cases[i].evidence == st.cases[i].evidence
                 else st'.cases[i] == st.cases[i]
  {
    if op.CrossingOp? {
      var found := Find(st.rows, op.event.key);
    }
  }

  // A new session starts open on its line, with nothing counted; it is refused while the line has one that
  // still lives.
  lemma CreatedExactly(st: Store, line: int, product: int, now: int)
    ensures var (st', r) := CreateSession(st, line, product, now);
            && (r.Ok? <==> line in st.refs.lines && product in st.refs.products
                           && forall sid: int | st.Has(sid) && st.At(sid).line == line :: !Alive(st.At(sid)))
            && (r.Err? ==> st' == st)
            && (r.Ok? ==> r.value == |st.sessions| + 1 && st'.Has(r.value)
                          && st'.At(r.value).line == line && st'.At(r.value).product == product
                          && st'.At(r.value).status == Open && st'.At(r.value).countedTotal == 0
                          && st'.At(r.value).openedAt == now && !st'.At(r.value).discrepancy
                          && st'.At(r.value).closedAt.None? && st'.At(r.value).reconciliation.None?
                          && forall sid: int | st.Has(sid) :: st'.Has(sid) && st'.At(sid) == st.At(sid))
            && (r.Err? && r.error.ActiveSessionConflict? ==>
                  st.Has(r.error.existing) && st.At(r.error.existing).line == line && Alive(st.At(r.error.existing)))
  {
    var a := ActiveSession(st.sessions, line);
    forall sid: int | st.Has(sid) && st.At(sid).line == line && Alive(st.At(sid)) ensures a > 0 {
      assert st.sessions[sid - 1] == st.At(sid);
    }
    if a > 0 {
      assert st.At(a) == st.sessions[a - 1];
    }
  }

  // ------------------------------------------------------------------ one at a time

  ghost predicate OnePerLine(st: Store) {
    forall a: int, b: int | st.Has(a) && st.Has(b) && a != b && Alive(st.At(a)) && Alive(st.At(b)) ::
      st.At(a).line != st.At(b).line
  }

  lemma NextKeepsOnePerLine(st: Store, op: Op)
    requires StoreInv(st) && OnePerLine(st)
    ensures OnePerLine(Next(st, op))
  {
    var st' := Next(st, op);
    forall a: int, b: int | st'.Has(a) && st'.Has(b) && a != b && Alive(st'.At(a)) && Alive(st'.At(b))
      ensures st'.At(a).line != st'.At(b).line
    {
      if st.Has(a) && st.Has(b) {
        AliveBefore(st, op, a);
        AliveBefore(st, op, b);
      } else {
        NewIsAlone(st, op, if st.Has(a) then b else a, if st.Has(a) then a else b);
      }
    }
  }

  lemma AliveBefore(st: Store, op: Op, sid: int)
    requires StoreInv(st) && st.Has(sid) && Next(st, op).Has(sid) && Alive(Next(st, op).At(sid))
    ensures Alive(st.At(sid)) && st.At(sid).line == Next(st, op).At(sid).line
  {
    AliveExactly(st, op, sid);
    WritesExactly(st, op, sid);
  }

  lemma NewIsAlone(st: Store, op: Op, late: int, early: int)
    requires StoreInv(st) && Next(st, op).Has(late) && Next(st, op).Has(early) && late != early && !st.Has(late)
    requires Alive(Next(st, op).At(early))
    ensures Next(st, op).At(late).line != Next(st, op).At(early).line
  {
    NextKeepsInv(st, op);
    if op.CreateOp? {
      CreatedExactly(st, op.line, op.product, op.now);
    } else if op.CrossingOp? {
      CrossingKeepsInv(st, op.event);
    }
  }

  // Over every run of operations, no line ever has two sessions that count.
  lemma {:induction false} RunKeepsOnePerLine(st: Store, ops: seq<Op>)
    requires StoreInv(st) && OnePerLine(st)
    ensures OnePerLine(Run(st, ops))
  {
    if ops != [] {
      var n := |ops| - 1;
      RunKeepsOnePerLine(st, ops[..n]);
      Sessions.RunKeepsInv(st, ops[..n]);
      NextKeepsOnePerLine(Run(st, ops[..n]), ops[n]);
    }
  }
}
