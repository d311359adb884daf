/**
 Delivery to the ERP system: entries are claimed by relay workers, submitted through an adapter that
 may answer anything, retried with growing delays and finally handed to a human. */
module Outbox {
  import opened Wrappers
  import opened Sessions

  const BACKOFF_SECONDS: nat := 30
  const MAX_ATTEMPTS: nat := 5
  const CLAIM_LIMIT: nat := 5

  datatype Delivery = Pending | Failing | InProgress | Sent | Escalated

  datatype Entry = Entry(
    session: int, status: Delivery, attempts: nat, nextAttemptAt: int, createdAt: int,
    externalRef: Option<string>, lastError: Option<string>)
  {
    predicate Due(now: int) { (status == Pending || status == Failing) && nextAttemptAt <= now }

    predicate HasRef() { externalRef.Some? && externalRef.value != "" }

    predicate Done() { status == Sent || status == Escalated }
  }

  // What the adapter answers to one submission, and to a status query after it.
  datatype Answer = Answer(success: bool, error: Option<string>, supportsQuery: bool, posted: bool)

  function OrElse(message: Option<string>, default: string): string {
    if message.Some? && message.value != "" then message.value else default
  }

  function Pow2(n: nat): (r: nat)
    ensures r >= 1
  {
    if n == 0 then 1 else 2 * Pow2(n - 1)
  }

  function Backoff(attempts: nat, seconds: int): int {
    seconds * Pow2(if attempts >= 1 then attempts - 1 else 0)
  }

  datatype Submission = Submission(id: nat, at: int, delivered: bool)

  // Entry ids are positions in the table.
  datatype Relay = Relay(entries: seq<Entry>, store: Store, log: seq<Submission>)

  function NewEntry(session: int, ref: Option<string>, now: int): Entry {
    Entry(session, Pending, 0, now, now, ref, None)
  }

  function CreateEntry(r: Relay, session: int, ref: Option<string>, now: int): (Relay, Result<nat, Error>) {
    if !r.store.Has(session) then (r, Err(ForeignKey))
    else (r.(entries := r.entries + [NewEntry(session, ref, now)]), Ok(|r.entries|))
  }

  function Claimed(e: Entry): Entry { e.(status := InProgress, attempts := e.attempts + 1) }

  function MarkSent(e: Entry): Entry { e.(status := Sent, lastError := None) }

  function MarkFailed(e: Entry, message: string, now: int,
                      backoffSeconds: int := BACKOFF_SECONDS, maxAttempts: int := MAX_ATTEMPTS): Entry
  {
    if e.attempts >= maxAttempts
    then e.(lastError := Some(message), status := Escalated)
    else e.(lastError := Some(message), status := Pending, nextAttemptAt := now + Backoff(e.attempts, backoffSeconds))
  }

  function Route(e: Entry, reason: string): Entry { e.(status := Escalated, lastError := Some(reason)) }

  // The entry after the adapter's answer, and whether a human must look at it.
  function Answered(e: Entry, a: Answer, now: int): (Entry, bool) {
    if a.success then (MarkSent(e), false)
    else if a.supportsQuery && e.HasRef() then
      if a.posted then (MarkSent(e), false)
      else (MarkFailed(e, OrElse(a.error, "Unknown ERP error"), now), e.attempts >= MAX_ATTEMPTS)
    else (Route(e, OrElse(a.error, "Unidirectional adapter timeout")), true)
  }

  function Process(r: Relay, id: nat, a: Answer, now: int): Relay
    requires id < |r.entries|
  {
    var (e, escalated) := Answered(r.entries[id], a, now);
    Relay(r.entries[id := e],
          if escalated then CreateCase(r.store, e.session, "erp_conflict", Some(id), now).0 else r.store,
          r.log + [Submission(id, now, e.status == Sent)])
  }

  // The picked entries are due, no other due entry is older, and as many as the limit
  // allows are picked.
  ghost predicate Oldest(entries: seq<Entry>, now: int, limit: nat, picks: seq<nat>) {
    && (forall k | 0 <= k < |picks| :: picks[k] < |entries| && entries[picks[k]].Due(now))
    && (forall j, k | 0 <= j < k < |picks| :: picks[j] != picks[k])
    && |picks| <= limit
    && (forall i, k | 0 <= i < |entries| && entries[i].Due(now) && i !in picks && 0 <= k < |picks| ::
          entries[picks[k]].createdAt <= entries[i].createdAt)
    && (|picks| < limit ==> forall i: nat | i < |entries| && entries[i].Due(now) :: i in picks)
  }

  function ClaimAll(entries: seq<Entry>, picks: seq<nat>): (r: seq<Entry>)
    ensures |r| == |entries|
  {
    seq(|entries|, i requires 0 <= i < |entries| => if i in picks then Claimed(entries[i]) else entries[i])
  }

  // ------------------------------------------------------------------ the system

  // What each worker has claimed and not yet processed. Times never go back.
  datatype World = World(relay: Relay, held: map<int, seq<nat>>, clock: int)
  {
    function Held(w: int): seq<nat> { if w in held then held[w] else [] }
  }

  datatype Step =
    | Create(session: int, ref: Option<string>, now: int)
    | Claim(worker: int, now: int, picks: seq<nat>)
    | ProcessNext(worker: int, answer: Answer, now: int)
    | Crash(worker: int)
    | Other(op: Op, now: int)

  function Time(w: World, s: Step): int { if s.Crash? then w.clock else s.now }

  // A worker claims only when it has finished its last batch, and processes a batch in order,
  // each entry in one step once the adapter has answered.
  ghost function Next(w: World, s: Step): World {
    if Time(w, s) < w.clock then w else
      match s
      case Create(session, ref, now) => w.(relay := CreateEntry(w.relay, session, ref, now).0, clock := now)
      case Claim(worker, now, picks) =>
        if w.Held(worker) != [] || !Oldest(w.relay.entries, now, CLAIM_LIMIT, picks) then w else
          World(w.relay.(entries := ClaimAll(w.relay.entries, picks)), w.held[worker := picks], now)
      case ProcessNext(worker, answer, now) =>
        if w.Held(worker) == [] || w.Held(worker)[0] >= |w.relay.entries| then w else
          World(Process(w.relay, w.Held(worker)[0], answer, now),
                w.held[worker := w.Held(worker)[1..]], now)
      case Crash(worker) => w.(held := w.held - {worker})
      case Other(op, now) => w.(relay := w.relay.(store := Sessions.Next(w.relay.store, op)), clock := now)
  }

  ghost function Run(w: World, steps: seq<Step>): World {
    if steps == [] then w else Next(Run(w, steps[..|steps| - 1]), steps[|steps| - 1])
  }

  // --------------------------------------------------------------- per-entry laws

  function Submissions(log: seq<Submission>, id: nat): nat {
    if log == [] then 0 else Submissions(log[..|log| - 1], id) + if log[|log| - 1].id == id then 1 else 0
  }

  // When an entry's submissions failed.
  function FailTimes(log: seq<Submission>, id: nat): seq<int> {
    if log == [] then [] else
      var x, rest := log[|log| - 1], FailTimes(log[..|log| - 1], id);
      if x.id == id && !x.delivered then rest + [x.at] else rest
  }

  function CasesFor(cases: seq<Case>, id: nat): nat {
    if cases == [] then 0 else
      CasesFor(cases[..|cases| - 1], id) + if cases[|cases| - 1].evidence == Some(id) then 1 else 0
  }

  // Each failure is at least the doubled delay after the one before.
  ghost predicate Spaced(times: seq<int>) {
    forall j, k | 0 <= j < k < |times| && k == j + 1 :: times[k] >= times[j] + BACKOFF_SECONDS * Pow2(j)
  }

  // The earliest time after the recorded failures.
  function NotBefore(times: seq<int>): int
    requires times != []
  {
    times[|times| - 1] + BACKOFF_SECONDS * Pow2(|times| - 1)
  }

  ghost predicate EntryOk(e: Entry, times: seq<int>, submitted: nat, cases: nat, clock: int) {
    && e.attempts <= MAX_ATTEMPTS
    && submitted == (if e.status == InProgress then e.attempts - 1 else e.attempts)
    && cases == (if e.status == Escalated then 1 else 0)
    && Spaced(times)
    && e.status != Failing
    && (e.status == Pending ==> e.attempts < MAX_ATTEMPTS && |times| == e.attempts
                                && (times != [] ==> e.nextAttemptAt >= NotBefore(times)))
    && (e.status == InProgress ==> e.attempts >= 1 && |times| == e.attempts - 1
                                   && (times != [] ==> clock >= NotBefore(times)))
  }

  ghost predicate EntryLaw(r: Relay, clock: int, id: nat) {
    if id < |r.entries|
    then r.store.Has(r.entries[id].session)
         && EntryOk(r.entries[id], FailTimes(r.log, id), Submissions(r.log, id), CasesFor(r.store.cases, id), clock)
    else Submissions(r.log, id) == 0 && FailTimes(r.log, id) == [] && CasesFor(r.store.cases, id) == 0
  }

  // Held entries are in progress, and nobody holds an entry twice or together with another.
  ghost predicate HeldOk(w: World) {
    && (forall x, i | x in w.held && 0 <= i < |w.held[x]| ::
          w.held[x][i] < |w.relay.entries| && w.relay.entries[w.held[x][i]].status == InProgress)
    && (forall x, i, j | x in w.held && 0 <= i < j < |w.held[x]| :: w.held[x][i] != w.held[x][j])
    && (forall x, y, i, j | x in w.held && y in w.held && x != y && 0 <= i < |w.held[x]| && 0 <= j < |w.held[y]| ::
          w.held[x][i] != w.held[y][j])
  }

  ghost predicate Inv(w: World) {
    && HeldOk(w)
    && (forall id: nat {:trigger EntryLaw(w.relay, w.clock, id)} :: EntryLaw(w.relay, w.clock, id))
  }

  lemma LogAppend(log: seq<Submission>, x: Submission, id: nat)
    ensures Submissions(log + [x], id) == Submissions(log, id) + if x.id == id then 1 else 0
    ensures FailTimes(log + [x], id)
         == if x.id == id && !x.delivered then FailTimes(log, id) + [x.at] else FailTimes(log, id)
  {
    assert (log + [x])[..|log|] == log;
  }

  lemma CasesAppend(cases: seq<Case>, c: Case, id: nat)
    ensures CasesFor(cases + [c], id) == CasesFor(cases, id) + if c.evidence == Some(id) then 1 else 0
  {
    assert (cases + [c])[..|cases|] == cases;
  }

  lemma {:induction false} SameEvidence(a: seq<Case>, b: seq<Case>, id: nat)
    requires |a| == |b| && forall i | 0 <= i < |a| :: a[i].evidence == b[i].evidence
    ensures CasesFor(a, id) == CasesFor(b, id)
  {
    if a != [] {
      SameEvidence(a[..|a| - 1], b[..|b| - 1], id);
    }
  }

  // Whatever the operators do with sessions and cases, no case for an entry comes or goes.
  lemma OtherKeepsCases(st: Store, op: Op, id: nat)
    ensures CasesFor(Sessions.Next(st, op).cases, id) == CasesFor(st.cases, id)
    ensures |Sessions.Next(st, op).sessions| >= |st.sessions|
  {
    var st' := Sessions.Next(st, op);
    if op.CaseOp? {
      CasesAppend(st.cases, Case(op.sid, op.reason, None, op.now, None, None, None), id);
    } else if op.ResolveOp? {
      SameEvidence(st'.cases, st.cases, id);
    } else {
      assert st'.cases == st.cases;
    }
  }

  lemma SpacedAppend(times: seq<int>, at: int)
    requires Spaced(times) && (times != [] ==> at >= NotBefore(times))
    ensures Spaced(times + [at])
  {
    var all := times + [at];
    forall j, k | 0 <= j < k < |all| && k == j + 1 ensures all[k] >= all[j] + BACKOFF_SECONDS * Pow2(j) {
      if k == |times| {
        assert all[k] == at && all[j] == times[j];
      }
    }
  }

  // One answered submission: the entry's own law.
  lemma AnswerKeepsEntryOk(e: Entry, a: Answer, now: int, times: seq<int>, submitted: nat, clock: int)
    requires EntryOk(e, times, submitted, 0, clock) && e.status == InProgress && clock <= now
    ensures var (e', escalated) := Answered(e, a, now);
            EntryOk(e', if e'.status == Sent then times else times + [now], submitted + 1,
                    if escalated then 1 else 0, now)
            && e'.session == e.session && e'.Done() == (e'.status == Sent || escalated)
  {
    SpacedAppend(times, now);
  }

  lemma ProcessKeepsLaw(r: Relay, id: nat, a: Answer, now: int, clock: int, x: nat)
    requires id < |r.entries| && r.entries[id].status == InProgress && clock <= now
    requires EntryLaw(r, clock, x) && EntryLaw(r, clock, id)
    ensures EntryLaw(Process(r, id, a, now), now, x)
  {
    var (e, escalated) := Answered(r.entries[id], a, now);
    LogAppend(r.log, Submission(id, now, e.status == Sent), x);
    AnswerKeepsEntryOk(r.entries[id], a, now, FailTimes(r.log, id), Submissions(r.log, id), clock);
    CasesAppend(r.store.cases, Case(e.session, "erp_conflict", Some(id), now, None, None, None), x);
  }

  lemma ClaimKeepsLaw(r: Relay, now: int, picks: seq<nat>, clock: int, x: nat)
    requires Oldest(r.entries, now, CLAIM_LIMIT, picks) && clock <= now && EntryLaw(r, clock, x)
    ensures EntryLaw(r.(entries := ClaimAll(r.entries, picks)), now, x)
  {
  }

  lemma NextKeepsLaw(w: World, s: Step, x: nat)
    requires HeldOk(w) && EntryLaw(w.relay, w.clock, x)
    requires forall id: nat {:trigger EntryLaw(w.relay, w.clock, id)} :: EntryLaw(w.relay, w.clock, id)
    ensures EntryLaw(Next(w, s).relay, Next(w, s).clock, x)
  {
    if Time(w, s) >= w.clock {
      match s
      case Create(session, ref, now) =>
      case Claim(worker, now, picks) =>
        if w.Held(worker) == [] && Oldest(w.relay.entries, now, CLAIM_LIMIT, picks) {
          ClaimKeepsLaw(w.relay, now, picks, w.clock, x);
        }
      case ProcessNext(worker, answer, now) =>
        if w.Held(worker) != [] {
          ProcessKeepsLaw(w.relay, w.Held(worker)[0], answer, now, w.clock, x);
        }
      case Crash(worker) =>
      case Other(op, now) => OtherKeepsCases(w.relay.store, op, x);
    }
  }

  lemma NextKeepsHeld(w: World, s: Step)
    requires HeldOk(w)
    ensures HeldOk(Next(w, s))
  {
    if s.Claim? && Time(w, s) >= w.clock && w.Held(s.worker) == []
       && Oldest(w.relay.entries, s.now, CLAIM_LIMIT, s.picks) {
      ClaimKeepsHeld(w, s.worker, s.now, s.picks);
    } else if s.ProcessNext? && Time(w, s) >= w.clock && w.Held(s.worker) != [] {
      ProcessKeepsHeld(w, s.worker, s.answer, s.now);
    }
  }

  lemma ClaimKeepsHeld(w: World, worker: int, now: int, picks: seq<nat>)
    requires HeldOk(w) && w.Held(worker) == [] && Oldest(w.relay.entries, now, CLAIM_LIMIT, picks)
    requires w.clock <= now
    ensures HeldOk(Next(w, Claim(worker, now, picks)))
  {
    var w' := Next(w, Claim(worker, now, picks));
    forall x, i | x in w'.held && 0 <= i < |w'.held[x]|
      ensures w'.held[x][i] < |w'.relay.entries| && w'.relay.entries[w'.held[x][i]].status == InProgress
      ensures x != worker ==> w'.held[x][i] !in picks
    {
      if x == worker {
        assert picks[i] in picks;
      } else {
        assert w'.held[x][i] == w.held[x][i];
      }
    }
  }

  lemma ProcessKeepsHeld(w: World, worker: int, answer: Answer, now: int)
    requires HeldOk(w) && w.Held(worker) != [] && w.clock <= now
    ensures HeldOk(Next(w, ProcessNext(worker, answer, now)))
  {
    var w' := Next(w, ProcessNext(worker, answer, now));
    var id := w.held[worker][0];
    forall x, i | x in w'.held && 0 <= i < |w'.held[x]|
      ensures w'.held[x][i] < |w'.relay.entries| && w'.held[x][i] != id
      ensures w'.relay.entries[w'.held[x][i]].status == InProgress
    {
      if x == worker {
        assert w'.held[x][i] == w.held[x][i + 1];
      } else {
        assert w'.held[x][i] == w.held[x][i];
      }
    }
  }

  lemma NextKeepsInv(w: World, s: Step)
    requires Inv(w)
    ensures Inv(Next(w, s))
  {
    NextKeepsHeld(w, s);
    forall x: nat ensures EntryLaw(Next(w, s).relay, Next(w, s).clock, x) {
      assert EntryLaw(w.relay, w.clock, x);
      NextKeepsLaw(w, s, x);
    }
  }

  // Under every interleaving of any number of workers, crashes included.
  lemma {:induction false} RunKeepsInv(w: World, steps: seq<Step>)
    requires Inv(w)
    ensures Inv(Run(w, steps))
  {
    if steps != [] {
      RunKeepsInv(w, steps[..|steps| - 1]);
      NextKeepsInv(Run(w, steps[..|steps| - 1]), steps[|steps| - 1]);
    }
  }

  // ------------------------------------------------------------------ consequences

  // Submissions are the attempts, less one still in progress, at most five; and an entry
  // is escalated exactly when exactly one case names it.
  lemma DeliveryLaw(w: World, id: nat)
    requires Inv(w) && id < |w.relay.entries|
    ensures var e := w.relay.entries[id];
            && Submissions(w.relay.log, id) == (if e.status == InProgress then e.attempts - 1 else e.attempts)
            && Submissions(w.relay.log, id) <= MAX_ATTEMPTS
            && (e.status == Escalated <==> CasesFor(w.relay.store.cases, id) == 1)
            && (e.status != Escalated <==> CasesFor(w.relay.store.cases, id) == 0)
  {
    assert EntryLaw(w.relay, w.clock, id);
  }

  // Once sent or escalated, an entry is never submitted again.
  lemma {:induction false} DoneIsFinal(w: World, steps: seq<Step>, id: nat)
    requires Inv(w) && id < |w.relay.entries| && w.relay.entries[id].Done()
    ensures var w' := Run(w, steps);
            id < |w'.relay.entries| && w'.relay.entries[id] == w.relay.entries[id]
            && Submissions(w'.relay.log, id) == Submissions(w.relay.log, id)
  {
    if steps != [] {
      var init := steps[..|steps| - 1];
      DoneIsFinal(w, init, id);
      RunKeepsInv(w, init);
      DoneStays(Run(w, init), steps[|steps| - 1], id);
    }
  }

  lemma DoneStays(w: World, s: Step, id: nat)
    requires Inv(w) && id < |w.relay.entries| && w.relay.entries[id].Done()
    ensures var w' := Next(w, s);
            id < |w'.relay.entries| && w'.relay.entries[id] == w.relay.entries[id]
            && Submissions(w'.relay.log, id) == Submissions(w.relay.log, id)
  {
    if s.ProcessNext? && w.Held(s.worker) != [] && w.Held(s.worker)[0] < |w.relay.entries| {
      var x := w.Held(s.worker)[0];
      var (e, escalated) := Answered(w.relay.entries[x], s.answer, s.now);
      LogAppend(w.relay.log, Submission(x, s.now, e.status == Sent), id);
    }
  }

  // In progress, but in nobody's hands: claimed by a worker that crashed.
  ghost predicate Orphan(w: World, id: nat) {
    && id < |w.relay.entries| && w.relay.entries[id].status == InProgress
    && forall x, i | x in w.held && 0 <= i < |w.held[x]| :: w.held[x][i] != id
  }

  // Nothing takes such an entry up again: it is neither delivered nor escalated, ever.
  lemma {:induction false} OrphanIsStuck(w: World, steps: seq<Step>, id: nat)
    requires Orphan(w, id)
    ensures var w' := Run(w, steps);
            Orphan(w', id) && w'.relay.entries[id] == w.relay.entries[id]
            && Submissions(w'.relay.log, id) == Submissions(w.relay.log, id)
  {
    if steps != [] {
      OrphanIsStuck(w, steps[..|steps| - 1], id);
      OrphanStays(Run(w, steps[..|steps| - 1]), steps[|steps| - 1], id);
    }
  }

  lemma OrphanStays(w: World, s: Step, id: nat)
    requires Orphan(w, id)
    ensures var w' := Next(w, s);
            Orphan(w', id) && w'.relay.entries[id] == w.relay.entries[id]
            && Submissions(w'.relay.log, id) == Submissions(w.relay.log, id)
  {
    var w' := Next(w, s);
    forall x, i | x in w'.held && 0 <= i < |w'.held[x]| ensures w'.held[x][i] != id {
      if s.ProcessNext? && x in w.held && |w'.held[x]| == |w.held[x]| - 1 {
        assert w'.held[x][i] == w.held[x][i + 1];
      }
    }
    if s.ProcessNext? && w.Held(s.worker) != [] && w.Held(s.worker)[0] < |w.relay.entries| {
      var x := w.Held(s.worker)[0];
      var (e, escalated) := Answered(w.relay.entries[x], s.answer, s.now);
      LogAppend(w.relay.log, Submission(x, s.now, e.status == Sent), id);
    }
  }

  // Only a claimed entry's holder can lose it, and only by crashing. An adapter that raises in the
  // middle of a batch ends the batch in the same way.
  lemma OrphanedExactly(w: World, s: Step, id: nat)
    requires Inv(w) && !Orphan(w, id)
    ensures Orphan(Next(w, s), id) <==> s.Crash? && id in w.Held(s.worker)
  {
    if s.Crash? {
      CrashOrphans(w, s.worker, id);
    } else if id < |Next(w, s).relay.entries| && Next(w, s).relay.entries[id].status == InProgress {
      WorkKeepsHeld(w, s, id);
    }
  }

  lemma CrashOrphans(w: World, worker: int, id: nat)
    requires HeldOk(w) && !Orphan(w, id)
    ensures Orphan(Next(w, Crash(worker)), id) <==> id in w.Held(worker)
  {
    var w' := Next(w, Crash(worker));
    if id in w.Held(worker) {
      var i :| 0 <= i < |w.held[worker]| && w.held[worker][i] == id;
      assert forall x, j | x in w'.held && 0 <= j < |w'.held[x]| :: w.held[x][j] != w.held[worker][i];
    } else if id < |w.relay.entries| && w.relay.entries[id].status == InProgress {
      var x, i :| x in w.held && 0 <= i < |w.held[x]| && w.held[x][i] == id;
      assert x != worker && w'.held[x][i] == id;
    }
  }

  // What is in progress after any other step is held after it.
  lemma WorkKeepsHeld(w: World, s: Step, id: nat)
    requires Inv(w) && !Orphan(w, id) && !s.Crash?
    requires id < |Next(w, s).relay.entries| && Next(w, s).relay.entries[id].status == InProgress
    ensures !Orphan(Next(w, s), id)
  {
    var w' := Next(w, s);
    if id < |w.relay.entries| && w.relay.entries[id].status == InProgress {
      var x, i :| x in w.held && 0 <= i < |w.held[x]| && w.held[x][i] == id;
      StaysHeld(w, s, x, i);
    } else {
      assert s.Claim? && id in s.picks;
      var i :| 0 <= i < |s.picks| && s.picks[i] == id;
      assert w'.held[s.worker][i] == id;
    }
  }

  lemma StaysHeld(w: World, s: Step, x: int, i: nat)
    requires HeldOk(w) && !s.Crash? && x in w.held && i < |w.held[x]|
    requires Next(w, s).relay.entries[w.held[x][i]].status == InProgress
    ensures !Orphan(Next(w, s), w.held[x][i])
  {
    var w' := Next(w, s);
    if s.ProcessNext? && s.worker == x && |w'.held[x]| == |w.held[x]| - 1 {
      assert i != 0 && w'.held[x][i - 1] == w.held[x][i];
    } else {
      assert w'.held[x][i] == w.held[x][i];
    }
  }

  // The k-th step is the crash of a worker holding the entry.
  ghost predicate LostAt(w: World, steps: seq<Step>, id: nat, k: nat) {
    k < |steps| && steps[k].Crash? && id in Run(w, steps[..k]).Held(steps[k].worker)
  }

  ghost predicate Lost(w: World, steps: seq<Step>, id: nat) { exists k: nat :: LostAt(w, steps, id, k) }

  // Over any run, an entry gets stuck in progress for good exactly when some worker crashed
  // while it held the entry.
  lemma {:induction false} StuckExactly(w: World, steps: seq<Step>, id: nat)
    requires Inv(w) && !Orphan(w, id)
    ensures Orphan(Run(w, steps), id) <==> Lost(w, steps, id)
  {
    if steps != [] {
      var n := |steps| - 1;
      var init, w' := steps[..n], Run(w, steps[..n]);
      StuckExactly(w, init, id);
      RunKeepsInv(w, init);
      LostBefore(w, steps, id);
      if Orphan(w', id) {
        OrphanStays(w', steps[n], id);
      } else {
        OrphanedExactly(w', steps[n], id);
      }
    }
  }

  lemma LostBefore(w: World, steps: seq<Step>, id: nat)
    requires steps != []
    ensures Lost(w, steps, id) <==> Lost(w, steps[..|steps| - 1], id) || LostAt(w, steps, id, |steps| - 1)
  {
    var init := steps[..|steps| - 1];
    forall k: nat | k < |init| ensures LostAt(w, steps, id, k) <==> LostAt(w, init, id, k) {
      assert init[..k] == steps[..k];
    }
    if k: nat :| LostAt(w, init, id, k) {
      assert LostAt(w, steps, id, k);
    }
    if k: nat :| LostAt(w, steps, id, k) {
      assert k < |init| ==> LostAt(w, init, id, k);
    }
  }

  // Without crashes every entry is waiting, delivered, escalated or in some worker's hands.
  lemma {:induction false} WithoutCrashNoneIsStuck(store: Store, steps: seq<Step>, id: nat)
    requires forall i | 0 <= i < |store.cases| :: store.cases[i].evidence == None
    requires forall k | 0 <= k < |steps| :: !steps[k].Crash?
    ensures Inv(Run(EmptyRelay(store), steps)) && !Orphan(Run(EmptyRelay(store), steps), id)
  {
    StartInv(store);
    RunKeepsInv(EmptyRelay(store), steps);
    StuckExactly(EmptyRelay(store), steps, id);
  }

  // A new entry waits for its first attempt from the moment it is made, for an existing session.
  lemma CreatedIsWaiting(r: Relay, session: int, ref: Option<string>, now: int)
    ensures var (r', res) := CreateEntry(r, session, ref, now);
            && (res.Ok? <==> r.store.Has(session)) && (res.Err? ==> r' == r)
            && (res.Ok? ==>
                  && res.value == |r.entries| && |r'.entries| == |r.entries| + 1 && r'.entries[..res.value] == r.entries
                  && r'.entries[res.value].session == session && r'.entries[res.value].externalRef == ref
                  && r'.entries[res.value].status == Pending && r'.entries[res.value].attempts == 0
                  && forall t :: r'.entries[res.value].Due(t) <==> t >= now)
  {
  }

  // Claimed are waiting entries whose time has come, one attempt more each; and whoever had to stay
  // behind although its time had come is no older than any of them, and the limit is reached.
  lemma ClaimedExactly(entries: seq<Entry>, now: int, limit: nat, picks: seq<nat>, i: nat)
    requires Oldest(entries, now, limit, picks) && i < |entries|
    ensures var e, e' := entries[i], ClaimAll(entries, picks)[i];
            && (i in picks ==> (e.status == Pending || e.status == Failing) && e.nextAttemptAt <= now
                               && e'.status == InProgress && e'.attempts == e.attempts + 1
                               && e'.(status := e.status, attempts := e.attempts) == e)
            && (i !in picks ==> e' == e)
            && (i !in picks && (e.status == Pending || e.status == Failing) && e.nextAttemptAt <= now ==>
                  |picks| == limit && forall p | p in picks :: entries[p].createdAt <= e.createdAt)
  {
  }

  // An answer that can be followed up: the adapter can be asked, and there is something to ask for.
  predicate CanAsk(e: Entry, a: Answer) { a.supportsQuery && e.externalRef.Some? && e.externalRef.value != "" }

  // What becomes of an entry, exactly: delivered when the submission or the query says so; given to a
  // human when there is nobody to ask, or the last attempt failed; waiting again otherwise,
  // twice as long as before.
  lemma OutcomeExactly(r: Relay, id: nat, a: Answer, now: int)
    requires id < |r.entries| && !r.entries[id].Done()
    ensures var e, e' := r.entries[id], Process(r, id, a, now).entries[id];
            && (e'.status == Sent <==> a.success || (CanAsk(e, a) && a.posted))
            && (e'.status == Escalated <==>
                  !a.success && (CanAsk(e, a) ==> !a.posted && e.attempts >= MAX_ATTEMPTS))
            && (e'.status == Pending <==> !a.success && CanAsk(e, a) && !a.posted && e.attempts < MAX_ATTEMPTS)
            && (e'.status == Pending && e.attempts >= 1 ==>
                  e'.nextAttemptAt == now + BACKOFF_SECONDS * Pow2(e.attempts - 1))
            && (e'.status == Sent ==> e'.lastError == None)
            && (e'.status != Sent ==> e'.lastError.Some? && e'.lastError.value != ""
                                      && (a.error.Some? && a.error.value != "" ==> e'.lastError == a.error))
            && e'.attempts == e.attempts && e'.session == e.session && e'.externalRef == e.externalRef
            && e'.createdAt == e.createdAt
  {
  }

  // The answer nobody can be asked about: a human gets the entry at once, with a case, whatever
  // attempt it was.
  lemma UnaskableIsEscalated(r: Relay, id: nat, a: Answer, now: int)
    requires id < |r.entries| && r.store.Has(r.entries[id].session) && !r.entries[id].Done()
    requires !a.success && !CanAsk(r.entries[id], a)
    ensures var r', sid := Process(r, id, a, now), r.entries[id].session;
            && r'.entries[id].status == Escalated
            && |r'.store.cases| == |r.store.cases| + 1
            && r'.store.cases[|r.store.cases|].session == sid
            && r'.store.cases[|r.store.cases|].evidence == Some(id)
            && r'.store.cases[|r.store.cases|].reason == "erp_conflict"
            && r'.store.At(sid).status == ReconcileRequired
  {
    OutcomeExactly(r, id, a, now);
  }

  // Giving an entry up puts its session before a human, with the case that says why.
  lemma EscalationReachesSession(r: Relay, id: nat, a: Answer, now: int)
    requires id < |r.entries| && r.store.Has(r.entries[id].session) && !r.entries[id].Done()
    ensures var r', sid := Process(r, id, a, now), r.entries[id].session;
            r'.entries[id].status == Escalated ==>
              && r'.store.At(sid).status == ReconcileRequired
              && r'.store.At(sid).reconciliation == Some(|r'.store.cases|)
              && r'.store.cases[|r'.store.cases| - 1].session == sid
              && r'.store.cases[|r'.store.cases| - 1].evidence == Some(id)
    ensures var r' := Process(r, id, a, now);
            r'.entries[id].status == Sent <==> a.success || (a.supportsQuery && r.entries[id].HasRef() && a.posted)
  {
  }

  // No entries, no submissions, and nobody holds anything.
  function EmptyRelay(store: Store): World { World(Relay([], store, []), map[], 0) }

  lemma StartInv(store: Store)
    requires forall i | 0 <= i < |store.cases| :: store.cases[i].evidence == None
    ensures Inv(EmptyRelay(store))
  {
    forall id: nat ensures CasesFor(store.cases, id) == 0 {
      NoEvidence(store.cases, id);
    }
  }

  lemma {:induction false} NoEvidence(cases: seq<Case>, id: nat)
    requires forall i | 0 <= i < |cases| :: cases[i].evidence == None
    ensures CasesFor(cases, id) == 0
  {
    if cases != [] {
      NoEvidence(cases[..|cases| - 1], id);
    }
  }

  // ------------------------------------------------------------- entries without a reference

  // Such an entry is on its first attempt until it is done.
  ghost predicate Once(w: World, id: nat) {
    id < |w.relay.entries| && !w.relay.entries[id].HasRef() ==>
      && w.relay.entries[id].attempts <= 1
      && (w.relay.entries[id].status == Pending ==> w.relay.entries[id].attempts == 0)
      && w.relay.entries[id].status != Failing
  }

  lemma NextKeepsOnce(w: World, s: Step, id: nat)
    requires HeldOk(w) && Once(w, id)
    ensures Once(Next(w, s), id)
  {
  }

  // Over every run from the empty relay: nobody can be asked about an entry without an external
  // reference, so it is submitted at most once.
  lemma {:induction false} RunKeepsOnce(store: Store, steps: seq<Step>, id: nat)
    requires forall i | 0 <= i < |store.cases| :: store.cases[i].evidence == None
    ensures Inv(Run(EmptyRelay(store), steps)) && Once(Run(EmptyRelay(store), steps), id)
  {
    StartInv(store);
    RunKeepsInv(EmptyRelay(store), steps);
    if steps != [] {
      var init := steps[..|steps| - 1];
      RunKeepsOnce(store, init, id);
      NextKeepsOnce(Run(EmptyRelay(store), init), steps[|steps| - 1], id);
    }
  }

  lemma UnreferencedSubmittedOnce(store: Store, steps: seq<Step>, id: nat)
    requires forall i | 0 <= i < |store.cases| :: store.cases[i].evidence == None
    ensures var w := Run(EmptyRelay(store), steps);
            id < |w.relay.entries| && !w.relay.entries[id].HasRef() ==> Submissions(w.relay.log, id) <= 1
  {
    RunKeepsOnce(store, steps, id);
    var w := Run(EmptyRelay(store), steps);
    assert EntryLaw(w.relay, w.clock, id);
  }

  // ------------------------------------------------------------------------- timing

  // From the first failure to the n-th: the delays add up.
  lemma {:induction false} SpacedSpan(times: seq<int>, n: nat)
    requires Spaced(times) && n < |times|
    ensures times[n] - times[0] >= BACKOFF_SECONDS * (Pow2(n) - 1)
  {
    if n > 0 {
      SpacedSpan(times, n - 1);
      assert times[n] >= times[n - 1] + BACKOFF_SECONDS * Pow2(n - 1);
    }
  }

  // An entry given up after five failures had been failing for at least 450 seconds.
  lemma EscalationTakesTime(w: World, id: nat)
    requires Inv(w) && id < |w.relay.entries|
    ensures Spaced(FailTimes(w.relay.log, id))
    ensures |FailTimes(w.relay.log, id)| == MAX_ATTEMPTS ==>
              FailTimes(w.relay.log, id)[4] - FailTimes(w.relay.log, id)[0] >= 450
  {
    assert EntryLaw(w.relay, w.clock, id);
    if |FailTimes(w.relay.log, id)| == MAX_ATTEMPTS {
      SpacedSpan(FailTimes(w.relay.log, id), 4);
      assert Pow2(4) == 16;
    }
  }
}
