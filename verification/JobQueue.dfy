/**
 The job repository and the jobrunner as they run, proved against Jobs.dfy.
 A job's id is its position in the table.
 */
module JobQueue {
  import opened Wrappers
  import opened Jobs

  class JobRepository {
    var jobs: seq<Job>
    ghost var log: seq<Mark>

    ghost function Value(): State
      reads this
    {
      State(jobs, log)
    }

    constructor ()
      ensures Value() == EMPTY
    {
      jobs, log := [], [];
    }

    method SubmitJob(kind: string, priority: int := 0, requiresGpu: bool := false, maxAttempts: int := 3, now: int)
      returns (id: nat)
      modifies this
      ensures id == |old(jobs)|
      ensures Value() == Next(old(Value()), SubmitOp(kind, priority, requiresGpu, maxAttempts, now))
    {
      id := |jobs|;
      jobs := jobs + [NewJob(kind, priority, requiresGpu, maxAttempts, now)];
    }

    method ReclaimExpiredLeases(now: int) returns (recovered: nat)
      modifies this
      ensures Value() == Reclaim(old(Value()), now)
      ensures recovered == |Expiries(old(jobs), now)|
    {
      recovered := 0;
      ghost var before := jobs;
      for i := 0 to |jobs|
        invariant |jobs| == |before|
        invariant forall k | 0 <= k < i :: jobs[k] == Reclaimed(before[k], now)
        invariant forall k | i <= k < |jobs| :: jobs[k] == before[k]
        invariant log == old(log) + Expiries(before[..i], now)
        invariant recovered == |Expiries(before[..i], now)|
      {
        assert before[..i + 1][..i] == before[..i];
        if jobs[i].Expired(now) {
          recovered := recovered + 1;
          log := log + [Expiry(i, jobs[i].leaseUntil.value, now)];
          if jobs[i].attempts >= jobs[i].maxAttempts {
            jobs := jobs[i := jobs[i].(status := Failed, lastError := Some(EXPIRED_MESSAGE), finishedAt := Some(now))];
          } else {
            jobs := jobs[i := jobs[i].(status := Queued, leaseUntil := None)];
          }
        }
      }
      assert before[..|before|] == before;
    }

    // The best eligible job, the first in the table among equals.
    method Candidate(gpu: bool) returns (pick: Option<nat>)
      ensures pick.Some? ==> Best(jobs, gpu, pick.value)
      ensures pick.None? ==> forall i | 0 <= i < |jobs| :: !jobs[i].Eligible(gpu)
    {
      pick := None;
      for i := 0 to |jobs|
        invariant pick.Some? ==> pick.value < i && Best(jobs[..i], gpu, pick.value)
        invariant pick.None? ==> forall k | 0 <= k < i :: !jobs[k].Eligible(gpu)
      {
        if jobs[i].Eligible(gpu) && (pick.None? || !jobs[pick.value].NoWorseThan(jobs[i])) {
          pick := Some(i);
        }
      }
      assert jobs[..|jobs|] == jobs;
    }

    // Takes a best eligible job if there is one; never a GPU job when no GPU is available.
    method AcquireNextJob(leaseSeconds: int := 60, gpu: bool := true, now: int) returns (taken: Option<nat>)
      modifies this
      ensures taken.Some? ==> Best(Reclaim(old(Value()), now).jobs, gpu, taken.value)
      ensures taken.Some? ==> Value() == Next(old(Value()), AcquireOp(now, leaseSeconds, gpu, taken.value))
      ensures taken.None? ==> Value() == Reclaim(old(Value()), now)
      ensures taken.None? <==> forall i | 0 <= i < |old(jobs)| :: !Reclaim(old(Value()), now).jobs[i].Eligible(gpu)
    {
      var _ := ReclaimExpiredLeases(now);
      taken := Candidate(gpu);
      if taken.Some? {
        var j := jobs[taken.value];
        jobs := jobs[taken.value := j.(status := Running, attempts := j.attempts + 1,
                                       leaseUntil := Some(now + leaseSeconds), heartbeatAt := Some(now),
                                       startedAt := if j.startedAt.None? then Some(now) else j.startedAt)];
        log := log + [Take(taken.value, now)];
      }
    }

    method Heartbeat(id: nat, extension: int := 60, now: int) returns (extended: bool)
      modifies this
      ensures Value() == Next(old(Value()), HeartbeatOp(id, now, extension))
      ensures extended <==> id < |old(jobs)| && old(jobs)[id].status == Running
    {
      if id < |jobs| && jobs[id].status == Running {
        jobs := jobs[id := jobs[id].(heartbeatAt := Some(now), leaseUntil := Some(now + extension))];
        return true;
      }
      return false;
    }

    method CompleteJob(id: nat, result: Option<string>, now: int)
      modifies this
      ensures Value() == Next(old(Value()), CompleteOp(id, result, now))
    {
      if id < |jobs| {
        var j := jobs[id].(status := Completed, finishedAt := Some(now));
        if result.Some? {
          j := j.(result := result);
        }
        jobs := jobs[id := j];
      }
    }

    method FailJob(id: nat, message: string, now: int)
      modifies this
      ensures Value() == Next(old(Value()), FailOp(id, message, now))
    {
      if id < |jobs| {
        var j := jobs[id].(lastError := Some(message));
        if j.attempts >= j.maxAttempts {
          j := j.(status := Failed, finishedAt := Some(now));
        } else {
          j := j.(status := Queued, leaseUntil := None);
        }
        jobs := jobs[id := j];
        log := log + [Failure(id)];
      }
    }

    method CancelJob(id: nat, now: int) returns (cancelled: bool)
      modifies this
      ensures Value() == Next(old(Value()), CancelOp(id, now))
      ensures cancelled <==> id < |old(jobs)| && !Terminal(old(jobs)[id])
    {
      if id < |jobs| && (jobs[id].status == Queued || jobs[id].status == Running) {
        jobs := jobs[id := jobs[id].(status := Cancelled, finishedAt := Some(now))];
        return true;
      }
      return false;
    }

    // The runner writes these fields itself when the GPU turns out to be taken.
    method ReleaseForGpu(id: nat)
      modifies this
      ensures Value() == Next(old(Value()), ReleaseOp(id))
    {
      if id < |jobs| && jobs[id].status == Running {
        var j := jobs[id];
        j := j.(status := Queued, leaseUntil := None, heartbeatAt := None);
        jobs := jobs[id := j.(attempts := if j.attempts - 1 > 0 then j.attempts - 1 else 0)];
        log := log + [Release(id)];
      }
    }
  }

  // What the runner finds out as it goes: the GPU before and after taking the job, and
  // how executing it ends.
  datatype Circumstances = Circumstances(
    gpuBefore: bool, gpuAfter: bool, outcome: Result<Option<string>, string>, takenAt: int, endedAt: int)

  lemma TwoOps(s: State, a: Op, b: Op)
    ensures Run(s, [a, b]) == Next(Next(s, a), b)
  {
    assert [a][..0] == [];
    assert Run(s, [a]) == Next(s, a);
    assert [a, b][..1] == [a];
  }

  // An acquisition of a best job, then one step about that same job.
  ghost predicate StepsOf(s: State, c: Circumstances, leaseSeconds: int, ops: seq<Op>) {
    && |ops| == 2
    && ops[0].AcquireOp? && Best(Reclaim(s, c.takenAt).jobs, c.gpuBefore, ops[0].pick)
    && ops[0] == AcquireOp(c.takenAt, leaseSeconds, c.gpuBefore, ops[0].pick)
    && var j := s.jobs[ops[0].pick];
       ops[1] == if j.requiresGpu && !c.gpuAfter then ReleaseOp(ops[0].pick)
                 else if c.outcome.Ok? then CompleteOp(ops[0].pick, c.outcome.value, c.endedAt)
                 else FailOp(ops[0].pick, c.outcome.error, c.endedAt)
  }

  class JobrunnerWorker {
    const repo: JobRepository
    const leaseSeconds: int

    constructor (repo: JobRepository, leaseSeconds: int)
      ensures this.repo == repo && this.leaseSeconds == leaseSeconds
    {
      this.repo, this.leaseSeconds := repo, leaseSeconds;
    }

    // One job at most: taken, then released, completed or failed. Returns the steps made
    // on the table; between them other workers may act.
    method RunStep(c: Circumstances) returns (worked: bool, ghost ops: seq<Op>)
      modifies repo
      ensures ops != [] ==> repo.Value() == Run(old(repo.Value()), ops)
      ensures ops == [] ==> repo.Value() == Reclaim(old(repo.Value()), c.takenAt) && !worked
      ensures ops != [] ==> StepsOf(old(repo.Value()), c, leaseSeconds, ops)
      ensures ops != [] ==> (worked <==> ops[1].CompleteOp?)
    {
      ops := [];
      var taken := repo.AcquireNextJob(leaseSeconds, c.gpuBefore, c.takenAt);
      if taken.None? {
        return false, [];
      }
      var id := taken.value;
      ghost var first := AcquireOp(c.takenAt, leaseSeconds, c.gpuBefore, id);
      ghost var second: Op;
      if repo.jobs[id].requiresGpu && !c.gpuAfter {
        repo.ReleaseForGpu(id);
        worked, second := false, ReleaseOp(id);
      } else {
        match c.outcome
        case Ok(result) =>
          repo.CompleteJob(id, result, c.endedAt);
          worked, second := true, CompleteOp(id, result, c.endedAt);
        case Err(message) =>
          repo.FailJob(id, message, c.endedAt);
          worked, second := false, FailOp(id, message, c.endedAt);
      }
      ops := [first, second];
      TwoOps(old(repo.Value()), first, second);
    }
  }

  // Left alone, a runner finishes or fails the job it took without ever running a GPU job
  // that it was told not to; a release gives the attempt back.
  lemma StepOutcome(s: State, c: Circumstances, leaseSeconds: int, ops: seq<Op>)
    requires JobsOk(s.jobs) && StepsOf(s, c, leaseSeconds, ops)
    ensures |Run(s, ops).jobs| == |s.jobs|
    ensures var id := ops[0].pick;
            var j, j' := s.jobs[id], Run(s, ops).jobs[id];
            && (ops[1].CompleteOp? ==> j'.status == Completed && j'.attempts == j.attempts + 1)
            && (ops[1].FailOp? ==> j'.status == (if j.attempts + 1 >= j.maxAttempts then Failed else Queued))
            && (ops[1].ReleaseOp? ==> j'.status == Queued && j'.attempts == j.attempts)
            && (j.requiresGpu && !ops[1].ReleaseOp? ==> c.gpuBefore && c.gpuAfter)
  {
    TwoOps(s, ops[0], ops[1]);
  }
}
