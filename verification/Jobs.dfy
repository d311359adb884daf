/**
 The background job queue: leases, retries and recovery. Each repository method is
 one atomic step; workers may call them in any interleaving and arbitrarily late.
 The log records who was taken and why jobs came back.
 */
module Jobs {
  import opened Wrappers

  datatype Status = Queued | Running | Completed | Failed | Cancelled

  datatype Job = Job(
    kind: string, priority: int, requiresGpu: bool, status: Status, attempts: int, maxAttempts: int,
    createdAt: int, leaseUntil: Option<int>, heartbeatAt: Option<int>, startedAt: Option<int>,
    finishedAt: Option<int>, lastError: Option<string>, result: Option<string>)
  {
    predicate Expired(now: int) { status == Running && leaseUntil.Some? && leaseUntil.value < now }

    predicate Eligible(gpu: bool) { status == Queued && (gpu || !requiresGpu) }

    // Higher priority first, then older first.
    predicate NoWorseThan(other: Job) {
      priority > other.priority || (priority == other.priority && createdAt <= other.createdAt)
    }
  }

  function NewJob(kind: string, priority: int, requiresGpu: bool, maxAttempts: int, now: int): Job {
    Job(kind, priority, requiresGpu, Queued, 0, maxAttempts, now, None, None, None, None, None, None)
  }

  function Taken(j: Job, now: int, leaseSeconds: int): Job {
    j.(status := Running, attempts := j.attempts + 1, leaseUntil := Some(now + leaseSeconds),
       heartbeatAt := Some(now), startedAt := if j.startedAt.None? then Some(now) else j.startedAt)
  }

  function FailedJob(j: Job, message: string, now: int): Job {
    if j.attempts >= j.maxAttempts
    then j.(lastError := Some(message), status := Failed, finishedAt := Some(now))
    else j.(lastError := Some(message), status := Queued, leaseUntil := None)
  }

  const EXPIRED_MESSAGE := "Job lease expired after max attempts exceeded."

  function Reclaimed(j: Job, now: int): Job {
    if !j.Expired(now) then j
    else if j.attempts >= j.maxAttempts
    then j.(status := Failed, lastError := Some(EXPIRED_MESSAGE), finishedAt := Some(now))
    else j.(status := Queued, leaseUntil := None)
  }

  function GpuReleased(j: Job): Job {
    j.(status := Queued, leaseUntil := None, heartbeatAt := None,
       attempts := if j.attempts - 1 > 0 then j.attempts - 1 else 0)
  }

  datatype Mark =
    | Take(id: nat, at: int)
    | Release(id: nat)
    | Failure(id: nat)
    | Expiry(id: nat, lease: int, at: int)

  datatype State = State(jobs: seq<Job>, log: seq<Mark>)

  const EMPTY := State([], [])

  datatype Op =
    | SubmitOp(kind: string, priority: int, requiresGpu: bool, maxAttempts: int, now: int)
    | AcquireOp(now: int, leaseSeconds: int, gpu: bool, pick: nat)
    | HeartbeatOp(id: nat, now: int, extension: int)
    | CompleteOp(id: nat, result: Option<string>, now: int)
    | FailOp(id: nat, message: string, now: int)
    | CancelOp(id: nat, now: int)
    | ReclaimOp(now: int)
    | ReleaseOp(id: nat)

  function ReclaimedAll(jobs: seq<Job>, now: int): (r: seq<Job>)
    ensures |r| == |jobs|
  {
    seq(|jobs|, i requires 0 <= i < |jobs| => Reclaimed(jobs[i], now))
  }

  function Expiries(jobs: seq<Job>, now: int): seq<Mark> {
    if jobs == [] then [] else
      var n := |jobs| - 1;
      var rest := Expiries(jobs[..n], now);
      if jobs[n].Expired(now) then rest + [Expiry(n, jobs[n].leaseUntil.value, now)] else rest
  }

  function Reclaim(s: State, now: int): State {
    State(ReclaimedAll(s.jobs, now), s.log + Expiries(s.jobs, now))
  }

  // The job is eligible and no eligible job is preferred to it.
  predicate Best(jobs: seq<Job>, gpu: bool, pick: nat) {
    && pick < |jobs| && jobs[pick].Eligible(gpu)
    && forall i | 0 <= i < |jobs| && jobs[i].Eligible(gpu) :: jobs[pick].NoWorseThan(jobs[i])
  }

  function Claim(s: State, pick: nat, now: int, leaseSeconds: int): State
    requires pick < |s.jobs|
  {
    State(s.jobs[pick := Taken(s.jobs[pick], now, leaseSeconds)], s.log + [Take(pick, now)])
  }

  // Expired leases are recovered first; of equally good jobs any one may be picked.
  function Acquire(s: State, now: int, leaseSeconds: int, gpu: bool, pick: nat): State {
    var r := Reclaim(s, now);
    if Best(r.jobs, gpu, pick) then Claim(r, pick, now, leaseSeconds) else r
  }

  function Next(s: State, op: Op): State {
    match op
    case SubmitOp(kind, priority, gpu, max, now) =>
      s.(jobs := s.jobs + [NewJob(kind, priority, gpu, max, now)])
    case AcquireOp(now, leaseSeconds, gpu, pick) => Acquire(s, now, leaseSeconds, gpu, pick)
    case HeartbeatOp(id, now, extension) =>
      if id < |s.jobs| && s.jobs[id].status == Running
      then s.(jobs := s.jobs[id := s.jobs[id].(heartbeatAt := Some(now), leaseUntil := Some(now + extension))])
      else s
    case CompleteOp(id, result, now) =>
      if id < |s.jobs|
      then s.(jobs := s.jobs[id := s.jobs[id].(status := Completed, finishedAt := Some(now),
                                               result := if result.Some? then result else s.jobs[id].result)])
      else s
    case FailOp(id, message, now) =>
      if id < |s.jobs|
      then State(s.jobs[id := FailedJob(s.jobs[id], message, now)], s.log + [Failure(id)])
      else s
    case CancelOp(id, now) =>
      if id < |s.jobs| && (s.jobs[id].status == Queued || s.jobs[id].status == Running)
      then s.(jobs := s.jobs[id := s.jobs[id].(status := Cancelled, finishedAt := Some(now))])
      else s
    case ReclaimOp(now) => Reclaim(s, now)
    case ReleaseOp(id) =>
      if id < |s.jobs| && s.jobs[id].status == Running
      then State(s.jobs[id := GpuReleased(s.jobs[id])], s.log + [Release(id)])
      else s
  }

  function Run(s: State, ops: seq<Op>): State {
    if ops == [] then s else Next(Run(s, ops[..|ops| - 1]), ops[|ops| - 1])
  }

  // ------------------------------------------------------------------- invariants

  // Queued jobs have attempts left and no lease; running ones have used an attempt and hold a lease.
  predicate JobOk(j: Job) {
    && 0 <= j.attempts <= j.maxAttempts && j.maxAttempts >= 1
    && (j.status == Queued ==> j.attempts < j.maxAttempts && j.leaseUntil.None?)
    && (j.status == Running ==> 1 <= j.attempts && j.leaseUntil.Some?)
  }

  ghost predicate JobsOk(jobs: seq<Job>) {
    forall i | 0 <= i < |jobs| :: JobOk(jobs[i])
  }

  // Every operation in any state keeps this, stale completions and failures included,
  // except submitting a job that may never be attempted.
  lemma JobsOkExactly(s: State, op: Op)
    requires JobsOk(s.jobs)
    ensures JobsOk(Next(s, op).jobs) <==> (op.SubmitOp? ==> op.maxAttempts >= 1)
  {
    if op.SubmitOp? {
      var jobs := Next(s, op).jobs;
      assert jobs[|s.jobs|] == NewJob(op.kind, op.priority, op.requiresGpu, op.maxAttempts, op.now);
    }
  }

  predicate Terminal(j: Job) { j.status == Completed || j.status == Failed || j.status == Cancelled }

  // A finished job changes its status exactly through a late completion or a late failure:
  // a late failure with attempts left even puts it back into the queue.
  lemma TerminalLeftExactly(s: State, op: Op, id: nat)
    requires id < |s.jobs| && Terminal(s.jobs[id])
    ensures var j, j' := s.jobs[id], Next(s, op).jobs[id];
            && (j'.status != j.status <==>
                  || (op.CompleteOp? && op.id == id && j.status != Completed)
                  || (op.FailOp? && op.id == id && (j.attempts < j.maxAttempts || j.status != Failed)))
            && (!Terminal(j') <==> op.FailOp? && op.id == id && j.attempts < j.maxAttempts)
  {
    if op.AcquireOp? {
      assert Reclaim(s, op.now).jobs[id] == s.jobs[id];
    }
  }

  // ---------------------------------------------------------------------- counting

  function Takes(log: seq<Mark>, id: nat): nat {
    if log == [] then 0 else
      Takes(log[..|log| - 1], id) + if log[|log| - 1].Take? && log[|log| - 1].id == id then 1 else 0
  }

  function Releases(log: seq<Mark>, id: nat): nat {
    if log == [] then 0 else
      Releases(log[..|log| - 1], id) + if log[|log| - 1] == Release(id) then 1 else 0
  }

  lemma {:induction false} MarksConcat(a: seq<Mark>, b: seq<Mark>, id: nat)
    ensures Takes(a + b, id) == Takes(a, id) + Takes(b, id)
    ensures Releases(a + b, id) == Releases(a, id) + Releases(b, id)
  {
    if b == [] {
      assert a + b == a;
    } else {
      MarksConcat(a, b[..|b| - 1], id);
      assert (a + b)[..|a + b| - 1] == a + b[..|b| - 1];
    }
  }

  lemma OneMark(m: Mark, id: nat)
    ensures Takes([m], id) == if m.Take? && m.id == id then 1 else 0
    ensures Releases([m], id) == if m == Release(id) then 1 else 0
  {
    assert [m][..0] == [];
  }

  lemma {:induction false} ExpiriesTakeNothing(jobs: seq<Job>, now: int, id: nat)
    ensures Takes(Expiries(jobs, now), id) == 0 && Releases(Expiries(jobs, now), id) == 0
  {
    if jobs != [] {
      var n := |jobs| - 1;
      ExpiriesTakeNothing(jobs[..n], now, id);
      var rest := Expiries(jobs[..n], now);
      if jobs[n].Expired(now) {
        assert (rest + [Expiry(n, jobs[n].leaseUntil.value, now)])[..|rest|] == rest;
      }
    }
  }

  // Attempts are acquisitions minus releases by the GPU guard.
  ghost predicate Counted(s: State, id: nat) {
    if id < |s.jobs| then s.jobs[id].attempts == Takes(s.log, id) - Releases(s.log, id)
    else Takes(s.log, id) == 0 && Releases(s.log, id) == 0
  }

  lemma ReclaimKeepsCounted(s: State, now: int, id: nat)
    requires Counted(s, id)
    ensures Counted(Reclaim(s, now), id)
  {
    MarksConcat(s.log, Expiries(s.jobs, now), id);
    ExpiriesTakeNothing(s.jobs, now, id);
  }

  lemma ClaimKeepsCounted(s: State, pick: nat, now: int, leaseSeconds: int, id: nat)
    requires Counted(s, id) && pick < |s.jobs|
    ensures Counted(Claim(s, pick, now, leaseSeconds), id)
  {
    MarksConcat(s.log, [Take(pick, now)], id);
    OneMark(Take(pick, now), id);
  }

  lemma AcquireKeepsCounted(s: State, now: int, leaseSeconds: int, gpu: bool, pick: nat, id: nat)
    requires Counted(s, id)
    ensures Counted(Acquire(s, now, leaseSeconds, gpu, pick), id)
  {
    ReclaimKeepsCounted(s, now, id);
    if Best(Reclaim(s, now).jobs, gpu, pick) {
      ClaimKeepsCounted(Reclaim(s, now), pick, now, leaseSeconds, id);
    }
  }

  lemma MarkKeepsCounted(s: State, op: Op, id: nat)
    requires (op.FailOp? || op.ReleaseOp?) && JobsOk(s.jobs) && Counted(s, id)
    ensures Counted(Next(s, op), id)
  {
    var m := if op.FailOp? then Failure(op.id) else Release(op.id);
    MarksConcat(s.log, [m], id);
    OneMark(m, id);
  }

  lemma NextKeepsCounted(s: State, op: Op, id: nat)
    requires JobsOk(s.jobs) && Counted(s, id)
    ensures Counted(Next(s, op), id)
  {
    match op
    case AcquireOp(now, leaseSeconds, gpu, pick) => AcquireKeepsCounted(s, now, leaseSeconds, gpu, pick, id);
    case ReclaimOp(now) => ReclaimKeepsCounted(s, now, id);
    case FailOp(x, message, now) => MarkKeepsCounted(s, op, id);
    case ReleaseOp(x) => MarkKeepsCounted(s, op, id);
    case _ =>
  }

  // ----------------------------------------------------- why a job is taken again

  // What puts a job back: a failure, a release, or a lease that ended before the time of recovery.
  predicate Frees(m: Mark, id: nat) {
    m == Failure(id) || m == Release(id) || (m.Expiry? && m.id == id && m.lease < m.at)
  }

  ghost predicate FreedSince(log: seq<Mark>, i: int, j: int, id: nat) {
    exists k | i < k < j && 0 <= k < |log| :: Frees(log[k], id)
  }

  // Between two acquisitions of a job something put it back ...
  ghost predicate FreedBetween(log: seq<Mark>, id: nat) {
    forall i, j | 0 <= i < j < |log| && log[i].Take? && log[j].Take? && log[i].id == log[j].id == id ::
      FreedSince(log, i, j, id)
  }

  // ... and a queued job has been put back since its last acquisition.
  ghost predicate FreeNow(log: seq<Mark>, id: nat) {
    forall i | 0 <= i < |log| && log[i].Take? && log[i].id == id :: FreedSince(log, i, |log|, id)
  }

  ghost predicate Justified(s: State, id: nat) {
    && FreedBetween(s.log, id)
    && (id < |s.jobs| && s.jobs[id].status == Queued ==> FreeNow(s.log, id))
    && (id >= |s.jobs| ==> forall i | 0 <= i < |s.log| :: s.log[i].id != id)
  }

  lemma Extend(log: seq<Mark>, more: seq<Mark>, i: int, j: int, id: nat)
    requires j <= |log| && FreedSince(log, i, j, id)
    ensures FreedSince(log + more, i, j, id)
  {
    var k :| i < k < j && 0 <= k < |log| && Frees(log[k], id);
    assert (log + more)[k] == log[k];
  }

  // Marks that take nothing keep the past justified.
  lemma ExtendQuietly(log: seq<Mark>, more: seq<Mark>, id: nat)
    requires FreedBetween(log, id) && forall k | 0 <= k < |more| :: !(more[k].Take? && more[k].id == id)
    ensures FreedBetween(log + more, id)
    ensures FreeNow(log, id) ==> FreeNow(log + more, id)
  {
    var all := log + more;
    assert forall k | |log| <= k < |all| :: all[k] == more[k - |log|];
    forall i, j | 0 <= i < j < |all| && all[i].Take? && all[j].Take? && all[i].id == all[j].id == id
      ensures FreedSince(all, i, j, id)
    {
      Extend(log, more, i, j, id);
    }
    if FreeNow(log, id) {
      forall i | 0 <= i < |all| && all[i].Take? && all[i].id == id ensures FreedSince(all, i, |all|, id) {
        Extend(log, more, i, |log|, id);
      }
    }
  }

  // A freeing mark at the end frees.
  lemma FreedByLast(log: seq<Mark>, m: Mark, id: nat)
    requires FreedBetween(log, id) && Frees(m, id)
    ensures FreedBetween(log + [m], id) && FreeNow(log + [m], id)
  {
    ExtendQuietly(log, [m], id);
    assert (log + [m])[|log|] == m;
  }

  lemma TakeIsJustified(log: seq<Mark>, at: int, id: nat)
    requires FreedBetween(log, id) && FreeNow(log, id)
    ensures FreedBetween(log + [Take(id, at)], id)
  {
    var all := log + [Take(id, at)];
    forall i, j | 0 <= i < j < |all| && all[i].Take? && all[j].Take? && all[i].id == all[j].id == id
      ensures FreedSince(all, i, j, id)
    {
      Extend(log, [Take(id, at)], i, j, id);
    }
  }

  lemma {:induction false} ExpiriesOf(jobs: seq<Job>, now: int)
    ensures forall k | 0 <= k < |Expiries(jobs, now)| ::
              var m := Expiries(jobs, now)[k];
              m.Expiry? && m.id < |jobs| && m.lease < m.at && Frees(m, m.id)
    ensures forall i: nat | i < |jobs| && jobs[i].Expired(now) ::
              exists k | 0 <= k < |Expiries(jobs, now)| :: Expiries(jobs, now)[k].id == i
  {
    if jobs != [] {
      var n := |jobs| - 1;
      var rest, all := Expiries(jobs[..n], now), Expiries(jobs, now);
      ExpiriesOf(jobs[..n], now);
      forall i: nat | i < |jobs| && jobs[i].Expired(now) ensures exists k | 0 <= k < |all| :: all[k].id == i {
        if i < n {
          assert jobs[..n][i].Expired(now);
          var k :| 0 <= k < |rest| && rest[k].id == i;
          assert all[k].id == i;
        } else {
          assert all[|all| - 1].id == i;
        }
      }
    }
  }

  lemma ReclaimKeepsJustified(s: State, now: int, id: nat)
    requires Justified(s, id)
    ensures Justified(Reclaim(s, now), id)
  {
    var more := Expiries(s.jobs, now);
    var all := s.log + more;
    ExpiriesOf(s.jobs, now);
    ExtendQuietly(s.log, more, id);
    if id < |s.jobs| && s.jobs[id].Expired(now) {
      var k :| 0 <= k < |more| && more[k].id == id;
      assert all[|s.log| + k] == more[k];
      forall i | 0 <= i < |all| && all[i].Take? && all[i].id == id ensures FreedSince(all, i, |all|, id) {
        assert i < |s.log|;
        assert Frees(all[|s.log| + k], id);
      }
    }
  }

  lemma ClaimKeepsJustified(s: State, pick: nat, now: int, leaseSeconds: int, id: nat)
    requires Justified(s, id) && pick < |s.jobs| && s.jobs[pick].status == Queued
    ensures Justified(Claim(s, pick, now, leaseSeconds), id)
  {
    if pick == id {
      TakeIsJustified(s.log, now, id);
    } else {
      ExtendQuietly(s.log, [Take(pick, now)], id);
    }
  }

  lemma NextKeepsJustified(s: State, op: Op, id: nat)
    requires Justified(s, id)
    ensures Justified(Next(s, op), id)
  {
    match op
    case AcquireOp(now, leaseSeconds, gpu, pick) =>
      ReclaimKeepsJustified(s, now, id);
      if Best(Reclaim(s, now).jobs, gpu, pick) {
        ClaimKeepsJustified(Reclaim(s, now), pick, now, leaseSeconds, id);
      }
    case FailOp(x, message, now) =>
      if x == id {
        FreedByLast(s.log, Failure(x), id);
      } else {
        ExtendQuietly(s.log, [Failure(x)], id);
      }
    case ReclaimOp(now) => ReclaimKeepsJustified(s, now, id);
    case ReleaseOp(x) =>
      if x == id {
        FreedByLast(s.log, Release(x), id);
      } else {
        ExtendQuietly(s.log, [Release(x)], id);
      }
    case _ =>
  }

  // ------------------------------------------------------------------- whole runs

  ghost predicate Inv(s: State) {
    && JobsOk(s.jobs)
    && (forall id: nat {:trigger Counted(s, id)} :: Counted(s, id))
    && (forall id: nat {:trigger Justified(s, id)} :: Justified(s, id))
  }

  ghost predicate Attemptable(ops: seq<Op>) {
    forall i | 0 <= i < |ops| && ops[i].SubmitOp? :: ops[i].maxAttempts >= 1
  }

  lemma NextKeepsInv(s: State, op: Op)
    requires Inv(s) && (op.SubmitOp? ==> op.maxAttempts >= 1)
    ensures Inv(Next(s, op))
  {
    JobsOkExactly(s, op);
    forall id: nat ensures Counted(Next(s, op), id) {
      assert Counted(s, id);
      NextKeepsCounted(s, op, id);
    }
    forall id: nat ensures Justified(Next(s, op), id) {
      assert Justified(s, id);
      NextKeepsJustified(s, op, id);
    }
  }

  // In every reachable table, under every interleaving.
  lemma {:induction false} RunKeepsInv(s: State, ops: seq<Op>)
    requires Inv(s) && Attemptable(ops)
    ensures Inv(Run(s, ops))
  {
    if ops != [] {
      RunKeepsInv(s, ops[..|ops| - 1]);
      NextKeepsInv(Run(s, ops[..|ops| - 1]), ops[|ops| - 1]);
    }
  }

  // A job is never acquired more often than its attempts plus the releases allow, and a
  // job acquired twice had failed, been released or lost its lease in between.
  lemma AcquisitionsAreBounded(ops: seq<Op>, id: nat)
    requires Attemptable(ops) && id < |Run(EMPTY, ops).jobs|
    ensures var s := Run(EMPTY, ops);
            && Takes(s.log, id) <= s.jobs[id].maxAttempts + Releases(s.log, id)
            && FreedBetween(s.log, id)
  {
    RunKeepsInv(EMPTY, ops);
    assert Counted(Run(EMPTY, ops), id) && Justified(Run(EMPTY, ops), id);
  }

  // ------------------------------------------------------------ draining the queue

  // Attempts still allowed, over all jobs.
  function Budget(jobs: seq<Job>): int {
    if jobs == [] then 0 else
      Budget(jobs[..|jobs| - 1]) + jobs[|jobs| - 1].maxAttempts - jobs[|jobs| - 1].attempts
  }

  lemma {:induction false} BudgetUpdate(jobs: seq<Job>, id: nat, j: Job)
    requires id < |jobs|
    ensures Budget(jobs[id := j])
         == Budget(jobs) - (jobs[id].maxAttempts - jobs[id].attempts) + (j.maxAttempts - j.attempts)
  {
    var n := |jobs| - 1;
    if id < n {
      BudgetUpdate(jobs[..n], id, j);
      assert jobs[id := j][..n] == jobs[..n][id := j];
    } else {
      assert jobs[id := j][..n] == jobs[..n];
    }
  }

  lemma {:induction false} BudgetReclaimed(jobs: seq<Job>, now: int)
    ensures Budget(ReclaimedAll(jobs, now)) == Budget(jobs)
  {
    if jobs != [] {
      var n := |jobs| - 1;
      BudgetReclaimed(jobs[..n], now);
      assert ReclaimedAll(jobs, now)[..n] == ReclaimedAll(jobs[..n], now);
    }
  }

  lemma {:induction false} BudgetNonNegative(jobs: seq<Job>)
    requires JobsOk(jobs)
    ensures Budget(jobs) >= 0
  {
    if jobs != [] {
      BudgetNonNegative(jobs[..|jobs| - 1]);
    }
  }

  // An acquisition uses up one attempt of the nonnegative budget; only submissions and
  // releases put attempts in, and nothing else takes any out.
  lemma BudgetDrains(s: State, op: Op)
    requires Inv(s) && (op.SubmitOp? ==> op.maxAttempts >= 1)
    ensures Budget(Next(s, op).jobs) >= 0
    ensures Budget(Next(s, op).jobs)
         == Budget(s.jobs)
            + (if op.SubmitOp? then op.maxAttempts
               else if op.ReleaseOp? && op.id < |s.jobs| && s.jobs[op.id].status == Running then 1
               else if op.AcquireOp? && Best(Reclaim(s, op.now).jobs, op.gpu, op.pick) then -1
               else 0)
  {
    NextKeepsInv(s, op);
    BudgetNonNegative(Next(s, op).jobs);
    match op
    case SubmitOp(kind, priority, gpu, max, now) =>
      assert Next(s, op).jobs[..|s.jobs|] == s.jobs;
    case AcquireOp(now, leaseSeconds, gpu, pick) =>
      BudgetReclaimed(s.jobs, now);
      if pick < |s.jobs| {
        var jobs := Reclaim(s, now).jobs;
        BudgetUpdate(jobs, pick, Taken(jobs[pick], now, leaseSeconds));
      }
    case ReclaimOp(now) => BudgetReclaimed(s.jobs, now);
    case HeartbeatOp(id, now, extension) =>
      if id < |s.jobs| { BudgetUpdate(s.jobs, id, Next(s, op).jobs[id]); }
    case CompleteOp(id, result, now) =>
      if id < |s.jobs| { BudgetUpdate(s.jobs, id, Next(s, op).jobs[id]); }
    case FailOp(id, message, now) =>
      if id < |s.jobs| { BudgetUpdate(s.jobs, id, Next(s, op).jobs[id]); }
    case CancelOp(id, now) =>
      if id < |s.jobs| { BudgetUpdate(s.jobs, id, Next(s, op).jobs[id]); }
    case ReleaseOp(id) =>
      if id < |s.jobs| { BudgetUpdate(s.jobs, id, Next(s, op).jobs[id]); }
  }
}
