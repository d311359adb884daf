/**
 The outbox repository and the relay worker as they run, proved against Outbox.dfy.
 */
module ErpRelay {
  import opened Wrappers
  import opened Sessions
  import opened EventHandler
  import opened Outbox

  // Claimed entries come in the order of their creation.
  ghost predicate OldestFirst(entries: seq<Entry>, picks: seq<nat>) {
    forall j, k | 0 <= j < k < |picks| && picks[j] < |entries| && picks[k] < |entries| ::
      entries[picks[j]].createdAt <= entries[picks[k]].createdAt
  }

  lemma PickNext(entries: seq<Entry>, now: int, picks: seq<nat>, pick: nat)
    requires Oldest(entries, now, |picks|, picks)
    requires pick < |entries| && entries[pick].Due(now) && pick !in picks
    requires forall i | 0 <= i < |entries| && entries[i].Due(now) && i !in picks ::
               entries[pick].createdAt <= entries[i].createdAt
    ensures Oldest(entries, now, |picks| + 1, picks + [pick])
    ensures OldestFirst(entries, picks) ==> OldestFirst(entries, picks + [pick])
  {
    var all := picks + [pick];
    forall i, k | 0 <= i < |entries| && entries[i].Due(now) && i !in all && 0 <= k < |all|
      ensures entries[all[k]].createdAt <= entries[i].createdAt
    {
      assert all[|picks|] == pick && forall p | p in picks :: p in all;
    }
  }

  class OutboxRepository {
    const db: Database
    var entries: seq<Entry>
    ghost var log: seq<Submission>

    ghost function Value(): Relay
      reads this, db
    {
      Relay(entries, db.Value(), log)
    }

    constructor (db: Database)
      ensures this.db == db && entries == [] && log == []
    {
      this.db := db;
      entries, log := [], [];
    }

    method CreateEntry(session: int, ref: Option<string>, now: int) returns (r: Result<nat, Error>)
      modifies this`entries
      ensures (Value(), r) == Outbox.CreateEntry(old(Value()), session, ref, now)
    {
      if !db.Value().Has(session) {
        return Err(ForeignKey);
      }
      entries := entries + [NewEntry(session, ref, now)];
      return Ok(|entries| - 1);
    }

    // The oldest due entry not yet picked.
    method OldestDue(now: int, picks: seq<nat>) returns (pick: Option<nat>)
      ensures pick.Some? ==>
                && pick.value < |entries| && entries[pick.value].Due(now) && pick.value !in picks
                && forall i | 0 <= i < |entries| && entries[i].Due(now) && i !in picks ::
                     entries[pick.value].createdAt <= entries[i].createdAt
      ensures pick.None? ==> forall i: nat | i < |entries| && entries[i].Due(now) :: i in picks
    {
      pick := None;
      for i := 0 to |entries|
        invariant pick.Some? ==>
                    && pick.value < i && entries[pick.value].Due(now) && pick.value !in picks
                    && forall k | 0 <= k < i && entries[k].Due(now) && k !in picks ::
                         entries[pick.value].createdAt <= entries[k].createdAt
        invariant pick.None? ==> forall k: nat | k < i && entries[k].Due(now) :: k in picks
      {
        if entries[i].Due(now) && i !in picks
           && (pick.None? || entries[i].createdAt < entries[pick.value].createdAt) {
          pick := Some(i);
        }
      }
    }

    // One atomic update: up to the limit of the oldest due entries become in progress.
    method ClaimPendingEntries(limit: nat, now: int) returns (picks: seq<nat>)
      modifies this`entries
      ensures Oldest(old(entries), now, limit, picks) && OldestFirst(old(entries), picks)
      ensures entries == ClaimAll(old(entries), picks)
    {
      picks := [];
      var more := true;
      while more && |picks| < limit
        invariant entries == old(entries)
        invariant Oldest(entries, now, |picks|, picks) && |picks| <= limit && OldestFirst(entries, picks)
        invariant !more ==> forall i: nat | i < |entries| && entries[i].Due(now) :: i in picks
        decreases limit - |picks|, more
      {
        var next := OldestDue(now, picks);
        if next.None? {
          more := false;
        } else {
          PickNext(entries, now, picks, next.value);
          picks := picks + [next.value];
        }
      }
      entries := ClaimAll(entries, picks);
    }

    method MarkSent(id: nat)
      modifies this`entries
      ensures entries == if id < |old(entries)| then old(entries)[id := Outbox.MarkSent(old(entries)[id])]
                         else old(entries)
    {
      if id < |entries| {
        entries := entries[id := entries[id].(status := Sent, lastError := None)];
      }
    }

    method MarkFailed(id: nat, message: string, now: int,
                      backoffSeconds: int := BACKOFF_SECONDS, maxAttempts: int := MAX_ATTEMPTS)
      returns (escalated: bool)
      modifies this`entries
      ensures entries == if id < |old(entries)|
                         then old(entries)[id := Outbox.MarkFailed(old(entries)[id], message, now, backoffSeconds, maxAttempts)]
                         else old(entries)
      ensures escalated <==> id < |old(entries)| && old(entries)[id].attempts >= maxAttempts
    {
      if id >= |entries| {
        return false;
      }
      var e := entries[id].(lastError := Some(message));
      if e.attempts >= maxAttempts {
        entries := entries[id := e.(status := Escalated)];
        return true;
      }
      var exponent := if e.attempts - 1 > 0 then e.attempts - 1 else 0;
      entries := entries[id := e.(status := Pending, nextAttemptAt := now + backoffSeconds * Pow2(exponent))];
      return false;
    }

    method RouteToReconciliation(id: nat, reason: string)
      modifies this`entries
      ensures entries == if id < |old(entries)| then old(entries)[id := Route(old(entries)[id], reason)]
                         else old(entries)
    {
      if id < |entries| {
        entries := entries[id := entries[id].(status := Escalated, lastError := Some(reason))];
      }
    }
  }

  ghost predicate PicksExist(picks: seq<nat>, n: nat) { forall k | 0 <= k < |picks| :: picks[k] < n }

  // The submissions that delivered.
  function Deliveries(log: seq<Submission>): nat {
    if log == [] then 0 else Deliveries(log[..|log| - 1]) + if log[|log| - 1].delivered then 1 else 0
  }

  ghost function ClaimedRelay(r: Relay, picks: seq<nat>): Relay { r.(entries := ClaimAll(r.entries, picks)) }

  // The entries of a batch, processed one after the other.
  ghost function Batch(r: Relay, picks: seq<nat>, answers: nat -> Answer, times: nat -> int): (b: Relay)
    requires PicksExist(picks, |r.entries|)
    ensures |b.entries| == |r.entries|
  {
    if picks == [] then r else
      var k := |picks| - 1;
      Process(Batch(r, picks[..k], answers, times), picks[k], answers(k), times(k))
  }

  class ErpRelayWorker {
    const outbox: OutboxRepository
    const cases: ReconciliationRepository

    ghost predicate Wired() { cases.db == outbox.db }

    constructor (outbox: OutboxRepository)
      ensures this.outbox == outbox && Wired()
    {
      this.outbox := outbox;
      cases := new ReconciliationRepository(outbox.db);
    }

    // Submit, then settle the entry by what the adapter says.
    method ProcessEntry(id: nat, a: Answer, now: int) returns (delivered: bool)
      requires Wired() && id < |outbox.entries|
      modifies outbox`entries, outbox`log, outbox.db
      ensures outbox.Value() == Process(old(outbox.Value()), id, a, now)
      ensures delivered <==> outbox.entries[id].status == Sent
      ensures Deliveries(outbox.log) == Deliveries(old(outbox.log)) + if delivered then 1 else 0
    {
      var e := outbox.entries[id];
      var escalated := false;
      if a.success {
        outbox.MarkSent(id);
        delivered := true;
      } else if a.supportsQuery && e.HasRef() {
        if a.posted {
          outbox.MarkSent(id);
          delivered := true;
        } else {
          escalated := outbox.MarkFailed(id, OrElse(a.error, "Unknown ERP error"), now);
          delivered := false;
        }
      } else {
        outbox.RouteToReconciliation(id, OrElse(a.error, "Unidirectional adapter timeout"));
        escalated, delivered := true, false;
      }
      if escalated {
        var _ := cases.Create(e.session, "erp_conflict", Some(id), now);
      }
      ghost var before := outbox.log;
      outbox.log := before + [Submission(id, now, delivered)];
      assert outbox.log[..|before|] == before;
    }

    // Claim a batch and process it in order, the k-th entry at the k-th of the times.
    method RunStep(answers: nat -> Answer, now: int, times: nat -> int) returns (processed: nat, ghost picks: seq<nat>)
      requires Wired()
      modifies outbox`entries, outbox`log, outbox.db
      ensures Oldest(old(outbox.entries), now, CLAIM_LIMIT, picks)
      ensures PicksExist(picks, |old(outbox.entries)|)
      ensures outbox.Value() == Batch(ClaimedRelay(old(outbox.Value()), picks), picks, answers, times)
      ensures Deliveries(outbox.log) == Deliveries(old(outbox.log)) + processed
    {
      var batch := outbox.ClaimPendingEntries(CLAIM_LIMIT, now);
      picks := batch;
      ghost var r := outbox.Value();
      processed := 0;
      for k := 0 to |batch|
        invariant |outbox.entries| == |r.entries|
        invariant Deliveries(outbox.log) == Deliveries(r.log) + processed
        invariant outbox.Value() == Batch(r, batch[..k], answers, times)
      {
        assert batch[..k + 1][..k] == batch[..k];
        var delivered := ProcessEntry(batch[k], answers(k), times(k));
        if delivered {
          processed := processed + 1;
        }
      }
      assert batch[..|batch|] == batch;
    }
  }

  // A worker's own steps for one batch: claim it, then process its entries in order.
  function BatchSteps(worker: int, n: nat, all: seq<nat>, answers: nat -> Answer, now: int, times: nat -> int): seq<Step> {
    if n == 0 then [Claim(worker, now, all)] else
      BatchSteps(worker, n - 1, all, answers, now, times) + [ProcessNext(worker, answers(n - 1), times(n - 1))]
  }

  // No entry is processed before the claim or before the one ahead of it.
  ghost predicate InTime(now: int, times: nat -> int) {
    now <= times(0) && forall j: nat, k: nat | j <= k :: times(j) <= times(k)
  }

  lemma RunLast(w: World, steps: seq<Step>, s: Step)
    ensures Outbox.Run(w, steps + [s]) == Outbox.Next(Outbox.Run(w, steps), s)
  {
    assert (steps + [s])[..|steps|] == steps;
  }

  lemma ClaimEffect(w: World, worker: int, picks: seq<nat>, now: int)
    requires w.Held(worker) == [] && w.clock <= now && Oldest(w.relay.entries, now, CLAIM_LIMIT, picks)
    ensures var w' := Outbox.Next(w, Claim(worker, now, picks));
            w'.relay == ClaimedRelay(w.relay, picks) && w'.Held(worker) == picks && w'.clock == now
  {
  }

  lemma ProcessEffect(w: World, worker: int, a: Answer, now: int)
    requires w.Held(worker) != [] && w.Held(worker)[0] < |w.relay.entries| && w.clock <= now
    ensures var w' := Outbox.Next(w, ProcessNext(worker, a, now));
            && w'.relay == Process(w.relay, w.Held(worker)[0], a, now)
            && w'.Held(worker) == w.Held(worker)[1..] && w'.clock == now
  {
  }

  // The first n entries of the batch are processed, the others still held.
  ghost predicate Halfway(w: World, w': World, worker: int, picks: seq<nat>, n: nat, answers: nat -> Answer,
                          now: int, times: nat -> int)
    requires n <= |picks| && PicksExist(picks, |w.relay.entries|)
  {
    && w'.relay == Batch(ClaimedRelay(w.relay, picks), picks[..n], answers, times)
    && w'.Held(worker) == picks[n..] && w'.clock == if n == 0 then now else times(n - 1)
  }

  lemma HalfwayNext(w: World, w': World, worker: int, picks: seq<nat>, n: nat, answers: nat -> Answer,
                    now: int, times: nat -> int)
    requires n < |picks| && PicksExist(picks, |w.relay.entries|) && InTime(now, times)
    requires Halfway(w, w', worker, picks, n, answers, now, times)
    ensures Halfway(w, Outbox.Next(w', ProcessNext(worker, answers(n), times(n))), worker, picks, n + 1, answers, now, times)
  {
    assert picks[..n + 1][..n] == picks[..n] && picks[..n + 1][n] == picks[n] == picks[n..][0];
    assert picks[n..][1..] == picks[n + 1..];
    ProcessEffect(w', worker, answers(n), times(n));
  }

  // One round of the worker, undisturbed by others, is a run of the system.
  lemma {:induction false} BatchIsRun(w: World, worker: int, picks: seq<nat>, n: nat, answers: nat -> Answer,
                                      now: int, times: nat -> int)
    requires w.Held(worker) == [] && w.clock <= now && Oldest(w.relay.entries, now, CLAIM_LIMIT, picks)
    requires n <= |picks| && PicksExist(picks, |w.relay.entries|) && InTime(now, times)
    ensures Halfway(w, Outbox.Run(w, BatchSteps(worker, n, picks, answers, now, times)), worker, picks, n, answers, now, times)
  {
    if n == 0 {
      assert BatchSteps(worker, n, picks, answers, now, times)[..0] == [];
      ClaimEffect(w, worker, picks, now);
    } else {
      var before := BatchSteps(worker, n - 1, picks, answers, now, times);
      BatchIsRun(w, worker, picks, n - 1, answers, now, times);
      RunLast(w, before, ProcessNext(worker, answers(n - 1), times(n - 1)));
      HalfwayNext(w, Outbox.Run(w, before), worker, picks, n - 1, answers, now, times);
    }
  }
}
