/**
 How long a job is its worker's: what acquisitions and heartbeats grant, when recovery may take a
 job back, and what is written down about it.
 */
module Leases {
  import opened Wrappers
  import opened Jobs

  // ------------------------------------------------------------------ one acquisition

  predicate TakesJob(s: State, op: Op, id: nat) {
    op.AcquireOp? && op.pick == id && Best(Reclaim(s, op.now).jobs, op.gpu, id)
  }

  predicate Beats(s: State, op: Op, id: nat) {
    op.HeartbeatOp? && op.id == id && id < |s.jobs| && s.jobs[id].status == Running
  }

  // Recovery runs on its own, and at the beginning of every acquisition.
  predicate Recovers(op: Op) { op.ReclaimOp? || op.AcquireOp? }

  // An acquired job is safe from recovery for exactly the length of its lease, and an extended one
  // for exactly the length of the extension.
  lemma GrantLasts(s: State, op: Op, id: nat, t: int)
    requires TakesJob(s, op, id) || Beats(s, op, id)
    ensures id < |Next(s, op).jobs| && Next(s, op).jobs[id].status == Running
    ensures Next(s, op).jobs[id].Expired(t)
       <==> t > op.now + if op.AcquireOp? then op.leaseSeconds else op.extension
  {
  }

  // The best eligible job is one of the highest priority, and no older one of that priority waits.
  lemma BestIsFirst(jobs: seq<Job>, gpu: bool, pick: nat)
    requires Best(jobs, gpu, pick)
    ensures jobs[pick].status == Queued && (jobs[pick].requiresGpu ==> gpu)
    ensures forall i | 0 <= i < |jobs| && jobs[i].status == Queued && (jobs[i].requiresGpu ==> gpu) ::
              && jobs[i].priority <= jobs[pick].priority
              && (jobs[i].priority == jobs[pick].priority ==> jobs[pick].createdAt <= jobs[i].createdAt)
  {
    forall i | 0 <= i < |jobs| && jobs[i].status == Queued && (jobs[i].requiresGpu ==> gpu)
      ensures jobs[pick].NoWorseThan(jobs[i])
    {
      assert jobs[i].Eligible(gpu);
    }
  }

  // ------------------------------------------------------------------------ over runs

  // When a job was last granted to its worker, and until when.
  datatype Grant = Grant(at: int, until: int)

  function LastGrant(s: State, ops: seq<Op>, id: nat): Option<Grant> {
    if ops == [] then None else
      var r, op := Run(s, ops[..|ops| - 1]), ops[|ops| - 1];
      if TakesJob(r, op, id) then Some(Grant(op.now, op.now + op.leaseSeconds))
      else if Beats(r, op, id) then Some(Grant(op.now, op.now + op.extension))
      else LastGrant(s, ops[..|ops| - 1], id)
  }

  function FirstTake(s: State, ops: seq<Op>, id: nat): Option<int> {
    if ops == [] then None else
      var earlier := FirstTake(s, ops[..|ops| - 1], id);
      if earlier.Some? then earlier
      else if TakesJob(Run(s, ops[..|ops| - 1]), ops[|ops| - 1], id) then Some(ops[|ops| - 1].now)
      else None
  }

  // The table says what the run granted.
  ghost predicate Granted(j: Job, g: Option<Grant>, first: Option<int>) {
    && (j.status == Running ==> g.Some? && j.leaseUntil == Some(g.value.until) && j.heartbeatAt == Some(g.value.at))
    && j.startedAt == first
  }

  lemma NextIsGranted(s: State, op: Op, id: nat, g: Option<Grant>, first: Option<int>)
    requires id < |s.jobs| && Granted(s.jobs[id], g, first)
    ensures Granted(Next(s, op).jobs[id],
                    if TakesJob(s, op, id) then Some(Grant(op.now, op.now + op.leaseSeconds))
                    else if Beats(s, op, id) then Some(Grant(op.now, op.now + op.extension)) else g,
                    if first.Some? then first else if TakesJob(s, op, id) then Some(op.now) else None)
  {
  }

  lemma {:induction false} RunIsGranted(ops: seq<Op>, id: nat)
    ensures var s := Run(EMPTY, ops);
            if id < |s.jobs| then Granted(s.jobs[id], LastGrant(EMPTY, ops, id), FirstTake(EMPTY, ops, id))
            else LastGrant(EMPTY, ops, id).None? && FirstTake(EMPTY, ops, id).None?
  {
    if ops != [] {
      var init, op := ops[..|ops| - 1], ops[|ops| - 1];
      var s := Run(EMPTY, init);
      RunIsGranted(init, id);
      if id < |s.jobs| {
        NextIsGranted(s, op, id, LastGrant(EMPTY, init, id), FirstTake(EMPTY, init, id));
      }
    }
  }

  // THE LEASE, over every run: recovery takes a running job from its worker exactly when it happens
  // after the end of the last acquisition's or heartbeat's grant.
  lemma RecoveredExactly(ops: seq<Op>, op: Op, id: nat)
    requires Recovers(op) && id < |Run(EMPTY, ops).jobs| && Run(EMPTY, ops).jobs[id].status == Running
    ensures LastGrant(EMPTY, ops, id).Some?
    ensures Reclaim(Run(EMPTY, ops), op.now).jobs[id].status != Running
       <==> op.now > LastGrant(EMPTY, ops, id).value.until
  {
    RunIsGranted(ops, id);
  }

  // ------------------------------------------------------------------- one worker at a time

  // The k-th step takes the job from its worker, after the end of the last grant.
  ghost predicate LostAt(ops: seq<Op>, k: nat, id: nat) {
    && k < |ops| && Recovers(ops[k])
    && var g := LastGrant(EMPTY, ops[..k], id); g.Some? && ops[k].now > g.value.until
  }

  // The job was acquired at step i, and up to step m nothing has put it back.
  ghost predicate Kept(ops: seq<Op>, i: nat, m: nat, id: nat)
    requires i < |ops| && m <= |ops| && ops[i].AcquireOp?
  {
    var s, g := Run(EMPTY, ops[..m]), LastGrant(EMPTY, ops[..m], id);
    && id < |s.jobs|
    && (s.jobs[id].status == Running || s.jobs[id].status == Completed || s.jobs[id].status == Cancelled)
    && g.Some? && g.value.until >= ops[i].now + ops[i].leaseSeconds
  }

  // The k-th step takes the job back, after the end of the lease of step i.
  ghost predicate LostLate(ops: seq<Op>, i: nat, k: nat, id: nat)
    requires i < |ops| && ops[i].AcquireOp?
  {
    LostAt(ops, k, id) && ops[k].now > ops[i].now + ops[i].leaseSeconds
  }

  ghost predicate LostBefore(ops: seq<Op>, i: nat, m: nat, id: nat)
    requires i < |ops| && ops[i].AcquireOp?
  {
    exists k: nat | i < k < m :: LostLate(ops, i, k, id)
  }

  // Neither a failure nor a release, nor a heartbeat that shortens the lease of step i.
  predicate LeavesAlone(op: Op, id: nat, deadline: int) {
    && !(op.FailOp? && op.id == id) && !(op.ReleaseOp? && op.id == id)
    && (op.HeartbeatOp? && op.id == id ==> op.now + op.extension >= deadline)
  }

  ghost predicate LeftAlone(ops: seq<Op>, i: nat, m: nat, id: nat)
    requires i < |ops| && m <= |ops| && ops[i].AcquireOp?
  {
    forall k | i < k < m :: LeavesAlone(ops[k], id, ops[i].now + ops[i].leaseSeconds)
  }

  lemma StepOf(ops: seq<Op>, m: nat, id: nat)
    requires m < |ops|
    ensures Run(EMPTY, ops[..m + 1]) == Next(Run(EMPTY, ops[..m]), ops[m])
    ensures LastGrant(EMPTY, ops[..m + 1], id)
         == if TakesJob(Run(EMPTY, ops[..m]), ops[m], id) then Some(Grant(ops[m].now, ops[m].now + ops[m].leaseSeconds))
            else if Beats(Run(EMPTY, ops[..m]), ops[m], id) then Some(Grant(ops[m].now, ops[m].now + ops[m].extension))
            else LastGrant(EMPTY, ops[..m], id)
  {
    assert ops[..m + 1][..m] == ops[..m];
  }

  // One operation on a job that nobody else may touch.
  lemma StaysOrExpires(s: State, op: Op, id: nat, deadline: int)
    requires id < |s.jobs| && LeavesAlone(op, id, deadline)
    requires s.jobs[id].status == Running || s.jobs[id].status == Completed || s.jobs[id].status == Cancelled
    ensures var t := Next(s, op).jobs[id].status;
            || (Recovers(op) && s.jobs[id].Expired(op.now))
            || (!TakesJob(s, op, id) && (t == Running || t == Completed || t == Cancelled))
  {
  }

  lemma KeptNext(ops: seq<Op>, i: nat, m: nat, id: nat)
    requires i < m < |ops| && ops[i].AcquireOp? && Kept(ops, i, m, id)
    requires LeavesAlone(ops[m], id, ops[i].now + ops[i].leaseSeconds)
    ensures LostLate(ops, i, m, id) || Kept(ops, i, m + 1, id)
    ensures TakesJob(Run(EMPTY, ops[..m]), ops[m], id) ==> LostLate(ops, i, m, id)
  {
    StepOf(ops, m, id);
    RunIsGranted(ops[..m], id);
    StaysOrExpires(Run(EMPTY, ops[..m]), ops[m], id, ops[i].now + ops[i].leaseSeconds);
  }

  lemma KeptFirst(ops: seq<Op>, i: nat, id: nat)
    requires i < |ops| && TakesJob(Run(EMPTY, ops[..i]), ops[i], id)
    ensures Kept(ops, i, i + 1, id)
  {
    StepOf(ops, i, id);
    GrantLasts(Run(EMPTY, ops[..i]), ops[i], id, 0);
  }

  lemma LostStays(ops: seq<Op>, i: nat, m: nat, id: nat)
    requires i < |ops| && ops[i].AcquireOp? && LostBefore(ops, i, m, id)
    ensures LostBefore(ops, i, m + 1, id)
  {
  }

  lemma KeptStep(ops: seq<Op>, i: nat, m: nat, id: nat)
    requires i < m < |ops| && ops[i].AcquireOp? && (Kept(ops, i, m, id) || LostBefore(ops, i, m, id))
    requires LeavesAlone(ops[m], id, ops[i].now + ops[i].leaseSeconds)
    ensures Kept(ops, i, m + 1, id) || LostBefore(ops, i, m + 1, id)
  {
    if Kept(ops, i, m, id) {
      KeptNext(ops, i, m, id);
    } else {
      LostStays(ops, i, m, id);
    }
  }

  lemma {:induction false} KeptOrLost(ops: seq<Op>, i: nat, m: nat, id: nat)
    requires i < m <= |ops| && TakesJob(Run(EMPTY, ops[..i]), ops[i], id)
    requires LeftAlone(ops, i, m, id)
    ensures Kept(ops, i, m, id) || LostBefore(ops, i, m, id)
  {
    if m == i + 1 {
      KeptFirst(ops, i, id);
    } else {
      KeptOrLost(ops, i, m - 1, id);
      KeptStep(ops, i, m - 1, id);
    }
  }

  ghost predicate ClockRuns(ops: seq<Op>) {
    forall k, l | 0 <= k <= l < |ops| && Recovers(ops[k]) && Recovers(ops[l]) :: ops[k].now <= ops[l].now
  }

  // Between two acquisitions of a job that neither failed nor was released, recovery took it back
  // after the lease of the first had ended: nobody else gets a job while its worker's lease runs.
  lemma TakenAgainOnlyLate(ops: seq<Op>, i: nat, j: nat, id: nat)
    requires i < j < |ops|
    requires TakesJob(Run(EMPTY, ops[..i]), ops[i], id) && TakesJob(Run(EMPTY, ops[..j]), ops[j], id)
    requires LeftAlone(ops, i, j, id)
    ensures LostBefore(ops, i, j + 1, id)
    ensures ClockRuns(ops) ==> ops[j].now > ops[i].now + ops[i].leaseSeconds
  {
    KeptOrLost(ops, i, j, id);
    if Kept(ops, i, j, id) {
      KeptNext(ops, i, j, id);
      assert LostLate(ops, i, j, id);
    } else {
      LostStays(ops, i, j, id);
    }
  }

  // ---------------------------------------------------------------------- what is written down

  // Whoever ends a job leaves the time, and the reason or the result.
  lemma EndingIsRecorded(s: State, op: Op, id: nat)
    requires id < |s.jobs|
    ensures var j, j' := s.jobs[id], Next(s, op).jobs[id];
            && (Terminal(j') && j'.status != j.status ==> j'.finishedAt == Some(op.now))
            && (op.CompleteOp? && op.id == id ==>
                  j'.status == Completed && (op.result.Some? ==> j'.result == op.result))
            && (op.FailOp? && op.id == id ==> j'.lastError == Some(op.message))
            && (op.CancelOp? && op.id == id ==> j'.status == if Terminal(j) then j.status else Cancelled)
            && (Recovers(op) && j'.status == Failed && j.status != Failed ==> j'.lastError == Some(EXPIRED_MESSAGE))
  {
  }

  // Nobody else writes them, so a job put back keeps the reason of its last failure; and what was
  // submitted stays.
  lemma RecordsAreKept(s: State, op: Op, id: nat)
    requires id < |s.jobs|
    ensures var j, j' := s.jobs[id], Next(s, op).jobs[id];
            && j'.kind == j.kind && j'.priority == j.priority && j'.requiresGpu == j.requiresGpu
            && j'.maxAttempts == j.maxAttempts && j'.createdAt == j.createdAt
            && (j'.lastError != j.lastError ==>
                  (op.FailOp? && op.id == id) || (Recovers(op) && j.Expired(op.now)))
            && (j'.result != j.result ==> op.CompleteOp? && op.id == id)
  {
  }

  // Taking a job and releasing it leaves it as it was, but for the time it was first started and
  // any older heartbeat.
  lemma ReleaseUndoesTake(s: State, take: Op, id: nat)
    requires JobsOk(s.jobs) && TakesJob(s, take, id) && s.jobs[id].status == Queued
    ensures var j, j' := s.jobs[id], Next(Next(s, take), ReleaseOp(id)).jobs[id];
            && j'.(startedAt := j.startedAt, heartbeatAt := j.heartbeatAt) == j
            && j'.heartbeatAt.None? && j'.startedAt == if j.startedAt.None? then Some(take.now) else j.startedAt
  {
  }

  // A submitted job waits for its first attempt as it was ordered.
  lemma SubmittedIsWaiting(s: State, kind: string, priority: int, gpu: bool, max: int, now: int)
    ensures var s' := Next(s, SubmitOp(kind, priority, gpu, max, now));
            && |s'.jobs| == |s.jobs| + 1 && s'.jobs[..|s.jobs|] == s.jobs && s'.log == s.log
            && var j := s'.jobs[|s.jobs|];
               && j.kind == kind && j.priority == priority && j.requiresGpu == gpu && j.maxAttempts == max
               && j.createdAt == now && j.status == Queued && j.attempts == 0
               && j.startedAt.None? && j.finishedAt.None? && j.lastError.None? && j.result.None?
  {
  }
}
