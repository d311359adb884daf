/**
 The tracker as it runs: track objects changed in place, two lists and counters.
 Every method is proved against the functions of Tracks.dfy and Plans.dfy.

 The lists hold references, so each pass is stated twice: as a change of the objects
 and as a function of their values. The lemmas in between say which references end up
 in which list and that distinct positions hold distinct objects.

 The class-wide counter of BagTrack ids is the field count of the one tracker.
 */
module Tracker {
  import opened Wrappers
  import opened Boxes
  import opened Matching
  import opened Tracks
  import opened Plans
  import opened Fates

  class BagTrack {
    const trackId: nat
    const latent: bool
    var box: Box
    var score: real
    var mask: Option<Mask>
    var centroid: Point
    var velocity: Point
    var phase: Phase
    var age: nat
    var hits: nat
    var timeSinceUpdate: nat
    var history: seq<Point>
    var crossingSeq: nat

    function Value(): Track
      reads this
    {
      Track(trackId, box, score, mask, latent, centroid, velocity, phase,
            age, hits, timeSinceUpdate, history, crossingSeq)
    }

    constructor (id: nat, d: Detection)
      ensures Value() == NewTrack(id, d)
    {
      trackId, latent := id, d.latent;
      box, score, mask := d.box, d.score, d.mask;
      centroid, velocity := d.box.Centroid(), Point(0.0, 0.0);
      phase, age, hits, timeSinceUpdate := Tentative, 1, 1, 0;
      history, crossingSeq := [d.box.Centroid()], 0;
    }

    method Predict(prior: Point)
      modifies this
      ensures Value() == old(Value()).Predict(prior)
    {
      age := age + 1;
      timeSinceUpdate := timeSinceUpdate + 1;
      var vx, vy := velocity.x, velocity.y;
      if Abs(prior.x) > PRIOR_DEADBAND || Abs(prior.y) > PRIOR_DEADBAND {
        vx := 0.5 * vx + 0.5 * prior.x;
        vy := 0.5 * vy + 0.5 * prior.y;
      }
      var cx, cy := centroid.x + vx, centroid.y + vy;
      var w, h := box.x2 - box.x1, box.y2 - box.y1;
      centroid := Point(cx, cy);
      box := Box(cx - w / 2.0, cy - h / 2.0, cx + w / 2.0, cy + h / 2.0);
    }

    method Update(d: Detection)
      modifies this
      ensures Value() == old(Value()).Measure(d)
    {
      var c := d.box.Centroid();
      var v := Point(0.7 * (c.x - centroid.x) + 0.3 * velocity.x,
                     0.7 * (c.y - centroid.y) + 0.3 * velocity.y);
      var promoted := (phase == Tentative && hits + 1 >= 2) || phase == Phase.Lost;
      velocity, centroid, box, score, hits, timeSinceUpdate, history :=
        v, c, d.box, d.score, hits + 1, 0, history + [c];
      if d.mask.Some? {
        mask := d.mask;
      }
      if promoted {
        phase := Confirmed;
      }
    }

    method MarkLost()
      modifies this
      ensures Value() == old(Value()).MarkLost()
    {
      phase := Phase.Lost;
    }
  }

  function Values(ts: seq<BagTrack>): (r: seq<Track>)
    reads ts
    ensures |r| == |ts|
    ensures forall i | 0 <= i < |ts| :: r[i] == ts[i].Value()
  {
    if ts == [] then [] else Values(ts[..|ts| - 1]) + [ts[|ts| - 1].Value()]
  }

  ghost predicate Separate(ts: seq<BagTrack>) {
    forall i, j | 0 <= i < j < |ts| :: ts[i] != ts[j]
  }

  // What a pass does to one track: nothing, or one measurement.
  function Updated(t: Track, m: Option<nat>, dets: seq<Detection>): Track
    requires m.Some? ==> m.value < |dets|
  {
    if m.Some? then t.Measure(dets[m.value]) else t
  }

  method PredictEach(ts: seq<BagTrack>, prior: Point)
    requires Separate(ts)
    modifies ts
    ensures Values(ts) == PredictAll(old(Values(ts)), prior)
  {
    for i := 0 to |ts|
      invariant forall k | 0 <= k < i :: ts[k].Value() == old(ts[k].Value()).Predict(prior)
      invariant forall k | i <= k < |ts| :: ts[k].Value() == old(ts[k].Value())
    {
      ts[i].Predict(prior);
    }
  }

  lemma NextMatch(a: Association, n: nat, m: nat, k: nat, i: nat)
    requires Partitions(a, n, m) && k < |a.matches|
    ensures MatchOf(a.matches[..k + 1], i)
         == if i == a.matches[k].0 then Some(a.matches[k].1) else MatchOf(a.matches[..k], i)
    ensures i == a.matches[k].0 ==> MatchOf(a.matches[..k], i) == None
  {
    assert a.matches[..k + 1][..k] == a.matches[..k];
  }

  // Apply the matches of one pass to its tracks.
  method ApplyMatches(ts: seq<BagTrack>, dets: seq<Detection>, a: Association)
    requires Separate(ts) && Partitions(a, |ts|, |dets|)
    modifies ts
    ensures forall i | 0 <= i < |ts| ::
              var m := MatchOf(a.matches, i);
              (m.Some? ==> m.value < |dets|) && ts[i].Value() == Updated(old(ts[i].Value()), m, dets)
  {
    for k := 0 to |a.matches|
      invariant forall i | 0 <= i < |ts| ::
                  var m := MatchOf(a.matches[..k], i);
                  (m.Some? ==> m.value < |dets|) && ts[i].Value() == Updated(old(ts[i].Value()), m, dets)
    {
      var (r, c) := a.matches[k];
      forall i: nat | i < |ts| {
        NextMatch(a, |ts|, |dets|, k, i);
      }
      ts[r].Update(dets[c]);
    }
    assert a.matches[..|a.matches|] == a.matches;
  }

  method MarkEachLost(ts: seq<BagTrack>)
    requires Separate(ts)
    modifies ts
    ensures Values(ts) == MarkAllLost(old(Values(ts)))
  {
    for i := 0 to |ts|
      invariant forall k | 0 <= k < i :: ts[k].Value() == old(ts[k].Value()).MarkLost()
      invariant forall k | i <= k < |ts| :: ts[k].Value() == old(ts[k].Value())
    {
      ts[i].MarkLost();
    }
  }

  // ------------------------------------------------------- lists of references

  lemma {:induction false} PickIsAssigned<T>(ts: seq<T>, idx: seq<nat>, given: seq<Option<nat>>)
    requires |ts| == |given| && Ascending(idx) && InRange(idx, |ts|)
    requires forall i: nat | i < |ts| :: i in idx <==> given[i].Some?
    ensures Pick(ts, idx) == Assigned(ts, given)
  {
    if ts != [] {
      var k := |ts| - 1;
      var init, rest := ts[..k], given[..k];
      if given[k].Some? {
        LastIsLargest(idx, k);
        assert idx == idx[..|idx| - 1] + [k];
        PickIsAssigned(init, idx[..|idx| - 1], rest);
        assert Pick(ts, idx) == Pick(init, idx[..|idx| - 1]) + [ts[k]];
      } else {
        assert forall j | 0 <= j < |idx| :: idx[j] in idx;
        PickIsAssigned(init, idx, rest);
        assert Pick(ts, idx) == Pick(init, idx);
      }
    }
  }

  lemma {:induction false} PickIsUnassigned<T>(ts: seq<T>, idx: seq<nat>, given: seq<Option<nat>>)
    requires |ts| == |given| && Ascending(idx) && InRange(idx, |ts|)
    requires forall i: nat | i < |ts| :: i in idx <==> given[i].None?
    ensures Pick(ts, idx) == Unassigned(ts, given)
  {
    var flipped := seq(|given|, i requires 0 <= i < |given| => if given[i].Some? then None else Some(0));
    PickIsAssigned(ts, idx, flipped);
    FlipAssignment(ts, given, flipped);
  }

  lemma {:induction false} FlipAssignment<T>(ts: seq<T>, given: seq<Option<nat>>, flipped: seq<Option<nat>>)
    requires |ts| == |given| == |flipped|
    requires forall i | 0 <= i < |ts| :: given[i].Some? <==> flipped[i].None?
    ensures Unassigned(ts, given) == Assigned(ts, flipped)
  {
    if ts != [] {
      var k := |ts| - 1;
      FlipAssignment(ts[..k], given[..k], flipped[..k]);
    }
  }

  // If the largest candidate is listed at all, it is listed last.
  lemma LastIsLargest(idx: seq<nat>, k: nat)
    requires Ascending(idx) && InRange(idx, k + 1) && k in idx
    ensures |idx| > 0 && idx[|idx| - 1] == k
    ensures forall x: nat | x < k :: x in idx <==> x in idx[..|idx| - 1]
    ensures InRange(idx[..|idx| - 1], k)
  {
    var p :| 0 <= p < |idx| && idx[p] == k;
    assert idx[|idx| - 1] <= k;
    assert p == |idx| - 1;
    assert idx == idx[..p] + [k];
  }

  lemma {:induction false} AssignedValues(ts: seq<BagTrack>, before: seq<Track>, given: seq<Option<nat>>,
                                          dets: seq<Detection>)
    requires |ts| == |before| == |given| && PointsInto(given, |dets|)
    requires forall i | 0 <= i < |ts| :: ts[i].Value() == Updated(before[i], given[i], dets)
    ensures Values(Assigned(ts, given)) == Measured(before, given, dets)
  {
    if ts != [] {
      var k := |ts| - 1;
      AssignedValues(ts[..k], before[..k], given[..k], dets);
      if given[k].Some? {
        ValuesConcat(Assigned(ts[..k], given[..k]), [ts[k]]);
      }
    }
  }

  lemma {:induction false} UnassignedValues(ts: seq<BagTrack>, before: seq<Track>, given: seq<Option<nat>>)
    requires |ts| == |before| == |given|
    requires forall i | 0 <= i < |ts| && given[i].None? :: ts[i].Value() == before[i]
    ensures Values(Unassigned(ts, given)) == Unassigned(before, given)
  {
    if ts != [] {
      var k := |ts| - 1;
      UnassignedValues(ts[..k], before[..k], given[..k]);
      if given[k].None? {
        ValuesConcat(Unassigned(ts[..k], given[..k]), [ts[k]]);
      }
    }
  }

  lemma {:induction false} ValuesConcat(a: seq<BagTrack>, b: seq<BagTrack>)
    ensures Values(a + b) == Values(a) + Values(b)
  {
    assert forall i | 0 <= i < |a + b| :: Values(a + b)[i] == (Values(a) + Values(b))[i];
  }

  lemma {:induction false} ChosenAreMembers<T>(ts: seq<T>, given: seq<Option<nat>>)
    requires |ts| == |given|
    ensures forall i | 0 <= i < |Assigned(ts, given)| :: Assigned(ts, given)[i] in ts
    ensures forall i | 0 <= i < |Unassigned(ts, given)| :: Unassigned(ts, given)[i] in ts
  {
    if ts != [] {
      var k := |ts| - 1;
      ChosenAreMembers(ts[..k], given[..k]);
      assert ts == ts[..k] + [ts[k]];
    }
  }

  // Assigned and unassigned elements of a duplicate-free list are different objects.
  lemma {:induction false} ChosenAreApart(ts: seq<BagTrack>, given: seq<Option<nat>>)
    requires |ts| == |given| && Separate(ts)
    ensures forall x | x in Assigned(ts, given) :: x !in Unassigned(ts, given)
  {
    if ts != [] {
      var k := |ts| - 1;
      ChosenAreApart(ts[..k], given[..k]);
      ChosenAreMembers(ts[..k], given[..k]);
    }
  }

  lemma {:induction false} ChosenAreSeparate(ts: seq<BagTrack>, given: seq<Option<nat>>)
    requires |ts| == |given| && Separate(ts)
    ensures Separate(Assigned(ts, given))
    ensures Separate(Unassigned(ts, given))
  {
    if ts != [] {
      var k := |ts| - 1;
      ChosenAreSeparate(ts[..k], given[..k]);
      ChosenAreMembers(ts[..k], given[..k]);
    }
  }

  ghost predicate Apart(a: seq<BagTrack>, b: seq<BagTrack>) {
    forall i, j | 0 <= i < |a| && 0 <= j < |b| :: a[i] != b[j]
  }

  lemma {:induction false} AssignedAll<T>(a: seq<T>, b: seq<T>, given: seq<Option<nat>>, all: seq<Option<nat>>)
    requires |a| == |given| && |b| == |all|
    requires forall i | 0 <= i < |all| :: all[i].Some?
    ensures Assigned(a + b, given + all) == Assigned(a, given) + b
  {
    if b == [] {
      assert a + b == a && given + all == given;
    } else {
      var k := |b| - 1;
      AssignedAll(a, b[..k], given, all[..k]);
      assert (a + b)[..|a + b| - 1] == a + b[..k];
      assert (given + all)[..|a + b| - 1] == given + all[..k];
    }
  }

  // The tracks whose state is tentative or confirmed.
  function ActiveOnly(ts: seq<BagTrack>): seq<BagTrack>
    reads ts
  {
    if ts == [] then [] else
      var t, rest := ts[|ts| - 1], ActiveOnly(ts[..|ts| - 1]);
      if t.phase == Tentative || t.phase == Confirmed then rest + [t] else rest
  }

  lemma {:induction false} ActiveIsAssigned(ts: seq<BagTrack>, given: seq<Option<nat>>)
    requires |given| == |ts|
    requires forall i | 0 <= i < |ts| :: given[i].Some? <==> ts[i].Value().Active()
    ensures ActiveOnly(ts) == Assigned(ts, given)
  {
    if ts != [] {
      ActiveIsAssigned(ts[..|ts| - 1], given[..|ts| - 1]);
    }
  }

  // The tracks whose id was not resurrected by the third pass.
  function NotResurrected(ts: seq<BagTrack>, resurrected: set<nat>): seq<BagTrack> {
    if ts == [] then [] else
      var t, rest := ts[|ts| - 1], NotResurrected(ts[..|ts| - 1], resurrected);
      if t.trackId !in resurrected then rest + [t] else rest
  }

  lemma {:induction false} NotResurrectedIsUnassigned(ts: seq<BagTrack>, ids: set<nat>, given: seq<Option<nat>>)
    requires |given| == |ts| && forall i | 0 <= i < |ts| :: given[i].Some? <==> ts[i].trackId in ids
    ensures NotResurrected(ts, ids) == Unassigned(ts, given)
  {
    if ts != [] {
      NotResurrectedIsUnassigned(ts[..|ts| - 1], ids, given[..|ts| - 1]);
    }
  }

  function ResurrectedIds(ts: seq<BagTrack>, a: Association): set<nat>
    requires forall k | 0 <= k < |a.matches| :: a.matches[k].0 < |ts|
  {
    set k | 0 <= k < |a.matches| :: ts[a.matches[k].0].trackId
  }

  // Removing by id removes exactly the matched positions.
  lemma RemovedById(ts: seq<BagTrack>, a: Association, m: nat, given: seq<Option<nat>>)
    requires Partitions(a, |ts|, m) && |given| == |ts|
    requires forall i, j | 0 <= i < j < |ts| :: ts[i].trackId != ts[j].trackId
    requires forall i: nat | i < |ts| :: given[i].Some? <==> MatchOf(a.matches, i).Some?
    ensures NotResurrected(ts, ResurrectedIds(ts, a)) == Unassigned(ts, given)
  {
    var ids := ResurrectedIds(ts, a);
    forall i: nat | i < |ts| ensures given[i].Some? <==> ts[i].trackId in ids {
      if given[i].Some? {
        var k :| 0 <= k < |a.matches| && a.matches[k] == (i, MatchOf(a.matches, i).value);
      }
    }
    NotResurrectedIsUnassigned(ts, ids, given);
  }

  // The tracks within, and beyond, the prune limit.
  function Young(ts: seq<BagTrack>, limit: int): (r: seq<BagTrack>)
    reads ts
    ensures forall t | t in r :: t in ts
  {
    if ts == [] then [] else
      var t, rest := ts[|ts| - 1], Young(ts[..|ts| - 1], limit);
      assert ts == ts[..|ts| - 1] + [t];
      if t.timeSinceUpdate <= limit then rest + [t] else rest
  }

  function Gone(ts: seq<BagTrack>, limit: int): (r: seq<BagTrack>)
    reads ts
  {
    if ts == [] then [] else
      var t, rest := ts[|ts| - 1], Gone(ts[..|ts| - 1], limit);
      if t.timeSinceUpdate <= limit then rest else rest + [t]
  }

  lemma {:induction false} YoungValues(ts: seq<BagTrack>, limit: int)
    ensures Values(Young(ts, limit)) == Within(Values(ts), limit)
  {
    if ts != [] {
      var init, t := ts[..|ts| - 1], ts[|ts| - 1];
      YoungValues(init, limit);
      assert Values(ts)[..|ts| - 1] == Values(init);
      if t.timeSinceUpdate <= limit {
        AppendValue(Young(init, limit), t);
      }
    }
  }

  lemma {:induction false} GoneValues(ts: seq<BagTrack>, limit: int)
    ensures Values(Gone(ts, limit)) == Overdue(Values(ts), limit)
  {
    if ts != [] {
      var init, t := ts[..|ts| - 1], ts[|ts| - 1];
      GoneValues(init, limit);
      assert Values(ts)[..|ts| - 1] == Values(init);
      if t.timeSinceUpdate > limit {
        AppendValue(Gone(init, limit), t);
      }
    }
  }

  lemma AppendValue(ts: seq<BagTrack>, t: BagTrack)
    ensures Values(ts + [t]) == Values(ts) + [t.Value()]
  {
    assert (ts + [t])[..|ts|] == ts;
  }

  // ------------------------------------------------------------ the passes

  // Track i after one pass with the given matches.
  ghost predicate PassApplied(before: seq<Track>, after: seq<Track>, a: Association, dets: seq<Detection>) {
    && |before| == |after|
    && forall i | 0 <= i < |before| ::
         var m := MatchOf(a.matches, i);
         (m.Some? ==> m.value < |dets|) && after[i] == Updated(before[i], m, dets)
  }

  // One association pass over a list of tracks.
  method RunPass(cfg: Config, ts: seq<BagTrack>, dets: seq<Detection>) returns (a: Association)
    requires Separate(ts)
    modifies ts
    ensures PassFor(cfg, Features(old(Values(ts))), dets, a)
    ensures LeftoversInRange(a, |ts|, |dets|)
    ensures PassApplied(old(Values(ts)), Values(ts), a, dets)
  {
    ghost var cost;
    a, cost := AssociateDetectionsToTracks(cfg.metric, cfg.weights, cfg.costThreshold, Features(Values(ts)), dets);
    PartitionsLeaveInRange(a, |ts|, |dets|);
    ApplyMatches(ts, dets, a);
  }

  // The second pass touches exactly what the first left over.
  ghost predicate SecondPass(mid: seq<Track>, after: seq<Track>, a: Association, b: Association, low: seq<Detection>)
    requires InRange(a.unmatchedTracks, |mid|)
  {
    && |mid| == |after|
    && (forall i: nat | i < |mid| && i !in a.unmatchedTracks :: after[i] == mid[i])
    && forall p: nat | p < |a.unmatchedTracks| ::
         var m := MatchOf(b.matches, p);
         (m.Some? ==> m.value < |low|)
         && after[a.unmatchedTracks[p]] == Updated(mid[a.unmatchedTracks[p]], m, low)
  }

  // What the first pass left over has not been changed by it.
  lemma RemainingUntouched(before: seq<Track>, mid: seq<Track>, a: Association, dets: seq<Detection>)
    requires PassApplied(before, mid, a, dets)
    requires Partitions(a, |mid|, |dets|) && InRange(a.unmatchedTracks, |mid|)
    ensures Pick(mid, a.unmatchedTracks) == Pick(before, a.unmatchedTracks)
  {
    forall k | 0 <= k < |a.unmatchedTracks|
      ensures mid[a.unmatchedTracks[k]] == before[a.unmatchedTracks[k]]
    {
      assert a.unmatchedTracks[k] in a.unmatchedTracks;
      assert !MatchesTrack(a, a.unmatchedTracks[k]);
    }
  }

  // Two passes in a row give each track what TrackedGets says.
  lemma TwoPasses(cfg: Config, dets: seq<Detection>, before: seq<Track>, mid: seq<Track>, after: seq<Track>,
                  a: Association, b: Association)
    requires Partitions(a, |before|, |HighIdx(cfg, dets)|)
    requires Partitions(b, |a.unmatchedTracks|, |LowIdx(cfg, dets)|)
    requires InRange(a.unmatchedTracks, |mid|)
    requires PassApplied(before, mid, a, Pick(dets, HighIdx(cfg, dets)))
    requires SecondPass(mid, after, a, b, Pick(dets, LowIdx(cfg, dets)))
    ensures forall i | 0 <= i < |before| ::
              var m := TrackedGets(a, b, HighIdx(cfg, dets), LowIdx(cfg, dets), |before|, i);
              (m.Some? ==> m.value < |dets|) && after[i] == Updated(before[i], m, dets)
  {
    forall i: nat | i < |before|
      ensures var m := TrackedGets(a, b, HighIdx(cfg, dets), LowIdx(cfg, dets), |before|, i);
              (m.Some? ==> m.value < |dets|) && after[i] == Updated(before[i], m, dets)
    {
      if MatchOf(a.matches, i).Some? {
        assert MatchesTrack(a, i);
        assert i !in a.unmatchedTracks;
      } else {
        assert !MatchesTrack(a, i);
        var p := Position(a.unmatchedTracks, i);
        assert after[a.unmatchedTracks[p]] == after[i];
      }
    }
  }

  // Passes one and two: tracked tracks against high scores, the rest against low scores.
  method MatchTracked(cfg: Config, ts: seq<BagTrack>, dets: seq<Detection>)
    returns (a: Association, b: Association)
    requires Separate(ts)
    modifies ts
    ensures PassFor(cfg, Features(old(Values(ts))), Pick(dets, HighIdx(cfg, dets)), a)
    ensures LeftoversInRange(a, |ts|, |HighIdx(cfg, dets)|)
    ensures PassFor(cfg, Features(Pick(old(Values(ts)), a.unmatchedTracks)), Pick(dets, LowIdx(cfg, dets)), b)
    ensures forall i | 0 <= i < |ts| ::
              var m := TrackedGets(a, b, HighIdx(cfg, dets), LowIdx(cfg, dets), |ts|, i);
              (m.Some? ==> m.value < |dets|) && ts[i].Value() == Updated(old(ts[i].Value()), m, dets)
  {
    var high, low := Pick(dets, HighIdx(cfg, dets)), Pick(dets, LowIdx(cfg, dets));
    ghost var before := Values(ts);
    a := RunPass(cfg, ts, high);
    ghost var mid := Values(ts);
    RemainingUntouched(before, mid, a, high);
    b := SecondRun(cfg, ts, a, low);
    TwoPasses(cfg, dets, before, mid, Values(ts), a, b);
  }

  method SecondRun(cfg: Config, ts: seq<BagTrack>, a: Association, low: seq<Detection>) returns (b: Association)
    requires Separate(ts) && Ascending(a.unmatchedTracks) && InRange(a.unmatchedTracks, |ts|)
    modifies ts
    ensures PassFor(cfg, Features(Pick(old(Values(ts)), a.unmatchedTracks)), low, b)
    ensures SecondPass(old(Values(ts)), Values(ts), a, b, low)
  {
    var remaining := Pick(ts, a.unmatchedTracks);
    ghost var mid, was := Values(ts), Values(remaining);
    PickSeparate(ts, a.unmatchedTracks);
    assert was == Pick(mid, a.unmatchedTracks);
    forall i: nat | i < |ts| && i !in a.unmatchedTracks ensures ts[i] !in remaining {
      PickedIsListed(ts, a.unmatchedTracks, i);
    }
    b := RunPass(cfg, remaining, low);
    SecondPassOf(ts, remaining, mid, a, b, low);
  }

  lemma SecondPassOf(ts: seq<BagTrack>, remaining: seq<BagTrack>, mid: seq<Track>,
                     a: Association, b: Association, low: seq<Detection>)
    requires |mid| == |ts| && InRange(a.unmatchedTracks, |ts|) && remaining == Pick(ts, a.unmatchedTracks)
    requires PassApplied(Pick(mid, a.unmatchedTracks), Values(remaining), b, low)
    requires forall i: nat | i < |ts| && i !in a.unmatchedTracks :: ts[i].Value() == mid[i]
    ensures SecondPass(mid, Values(ts), a, b, low)
  {
    var after := Values(ts);
    forall p: nat | p < |remaining|
      ensures var m := MatchOf(b.matches, p);
              (m.Some? ==> m.value < |low|)
              && after[a.unmatchedTracks[p]] == Updated(mid[a.unmatchedTracks[p]], m, low)
    {
      assert after[a.unmatchedTracks[p]] == Values(remaining)[p];
      assert mid[a.unmatchedTracks[p]] == Pick(mid, a.unmatchedTracks)[p];
    }
  }

  lemma PickSeparate(ts: seq<BagTrack>, idx: seq<nat>)
    requires Separate(ts) && Ascending(idx) && InRange(idx, |ts|)
    ensures Separate(Pick(ts, idx))
  {
  }

  lemma PickedIsListed(ts: seq<BagTrack>, idx: seq<nat>, i: nat)
    requires Separate(ts) && InRange(idx, |ts|) && i < |ts| && i !in idx
    ensures ts[i] !in Pick(ts, idx)
  {
  }

  function NewTracks(count: nat, news: seq<Detection>): (r: seq<Track>)
    ensures |r| == |news|
  {
    seq(|news|, k requires 0 <= k < |news| => NewTrack(count + k + 1, news[k]))
  }

  // Start a track for each detection, counting those that land on a just-lost box.
  // The detection overlaps one of the boxes of the tracks just lost.
  predicate LandsOnAny(d: Detection, boxes: seq<Box>) {
    exists i | 0 <= i < |boxes| :: BoxIou(d.box, boxes[i]) > ID_SWITCH_IOU_THRESHOLD
  }

  function CountSwitches(news: seq<Detection>, boxes: seq<Box>): nat {
    if news == [] then 0 else
      var k := |news| - 1;
      CountSwitches(news[..k], boxes)
      + if LandsOnAny(news[k], boxes) then 1 else 0
  }

  lemma OneMoreSwitch(news: seq<Detection>, boxes: seq<Box>, k: nat)
    requires k < |news|
    ensures CountSwitches(news[..k + 1], boxes)
         == CountSwitches(news[..k], boxes)
            + if LandsOnAny(news[k], boxes) then 1 else 0
  {
    assert news[..k + 1][..k] == news[..k];
  }

  method StartTracks(count: nat, news: seq<Detection>, lostBoxes: seq<Box>)
    returns (born: seq<BagTrack>, switches: nat)
    ensures forall t | t in born :: fresh(t)
    ensures Separate(born)
    ensures Values(born) == NewTracks(count, news)
    ensures switches == CountSwitches(news, lostBoxes)
  {
    born, switches := [], 0;
    for k := 0 to |news|
      invariant |born| == k && Separate(born)
      invariant forall t | t in born :: fresh(t)
      invariant forall i | 0 <= i < k :: born[i].Value() == NewTrack(count + i + 1, news[i])
      invariant switches == CountSwitches(news[..k], lostBoxes)
    {
      OneMoreSwitch(news, lostBoxes, k);
      if LandsOnAny(news[k], lostBoxes) {
        switches := switches + 1;
      }
      var t := new BagTrack(count + k + 1, news[k]);
      assert t !in born;
      born := born + [t];
    }
    assert news[..|news|] == news;
  }

  lemma {:induction false} SwitchesAgree(born: seq<nat>, dets: seq<Detection>, news: seq<Detection>,
                                         lost: seq<Track>, boxes: seq<Box>)
    requires InRange(born, |dets|) && |born| == |news| && |lost| == |boxes|
    requires forall k | 0 <= k < |born| :: dets[born[k]] == news[k]
    requires forall k | 0 <= k < |lost| :: lost[k].box == boxes[k]
    ensures CountSwitches(news, boxes) == Switches(born, dets, lost)
  {
    if born != [] {
      var k := |born| - 1;
      SwitchesAgree(born[..k], dets, news[..k], lost, boxes);
      assert LandsOn(dets[born[k]], lost)
         <==> LandsOnAny(news[k], boxes) by {
        assert forall i | 0 <= i < |boxes| :: boxes[i] == lost[i].box;
      }
    }
  }

  // The tracks both passes left over are exactly those the plan gives nothing.
  lemma DroppedIndices(a: Association, b: Association, high: seq<nat>, low: seq<nat>, n: nat)
    requires Partitions(a, n, |high|) && Partitions(b, |a.unmatchedTracks|, |low|)
    requires InRange(a.unmatchedTracks, n) && InRange(b.unmatchedTracks, |a.unmatchedTracks|)
    ensures var idx := Pick(a.unmatchedTracks, b.unmatchedTracks);
            && Ascending(idx) && InRange(idx, n)
            && forall i: nat | i < n :: i in idx <==> TrackedGets(a, b, high, low, n, i).None?
  {
    var idx := Pick(a.unmatchedTracks, b.unmatchedTracks);
    forall i: nat | i in idx ensures i < n && TrackedGets(a, b, high, low, n, i).None? {
      var k :| 0 <= k < |idx| && idx[k] == i;
      assert a.unmatchedTracks[b.unmatchedTracks[k]] in a.unmatchedTracks;
      assert b.unmatchedTracks[k] in b.unmatchedTracks;
      assert !MatchesTrack(a, i) && !MatchesTrack(b, b.unmatchedTracks[k]);
      SamePlace(a.unmatchedTracks, Position(a.unmatchedTracks, i), b.unmatchedTracks[k]);
      NoMatchNone(a, i);
      NoMatchNone(b, b.unmatchedTracks[k]);
    }
    forall i: nat | i < n && TrackedGets(a, b, high, low, n, i).None? ensures i in idx {
      NoneNoMatch(a, i);
      var p := Position(a.unmatchedTracks, i);
      NoneNoMatch(b, p);
      assert p in b.unmatchedTracks;
      var k :| 0 <= k < |b.unmatchedTracks| && b.unmatchedTracks[k] == p;
      assert i == idx[k];
    }
  }

  lemma NoMatchNone(a: Association, i: nat)
    requires !MatchesTrack(a, i)
    ensures MatchOf(a.matches, i).None?
  {
  }

  lemma NoneNoMatch(a: Association, i: nat)
    requires MatchOf(a.matches, i).None?
    ensures !MatchesTrack(a, i)
  {
  }

  // The rows the third pass matched, in order.
  function Rows(matches: seq<(nat, nat)>): (r: seq<nat>)
    ensures |r| == |matches|
  {
    seq(|matches|, k requires 0 <= k < |matches| => matches[k].0)
  }

  lemma RescuedIndices(c: Association, m: nat, d: nat)
    requires Partitions(c, m, d)
    ensures Ascending(Rows(c.matches)) && InRange(Rows(c.matches), m)
    ensures forall j: nat :: j in Rows(c.matches) <==> MatchOf(c.matches, j).Some?
  {
    forall j: nat ensures j in Rows(c.matches) <==> MatchOf(c.matches, j).Some? {
      if MatchOf(c.matches, j).Some? {
        var k :| 0 <= k < |c.matches| && c.matches[k] == (j, MatchOf(c.matches, j).value);
        assert Rows(c.matches)[k] == j;
      }
    }
  }

  lemma DistinctIdsSeparate(s: TrackerState, ts: seq<BagTrack>, ls: seq<BagTrack>, ps: seq<BagTrack>)
    requires Inv(s) && s.tracked == Values(ts) && s.lost == Values(ls) && s.pruned == Values(ps)
    ensures Separate(ts) && Separate(ls)
    ensures Apart(ts, ls) && Apart(ts, ps) && Apart(ls, ps) && Apart(ls, ts)
    ensures forall i, j | 0 <= i < j < |ls| :: ls[i].trackId != ls[j].trackId
  {
    IdsApart(s);
    SeparateByIds(s.tracked, ts);
    SeparateByIds(s.lost, ls);
    ApartByIds(s.tracked, s.lost, ts, ls);
    ApartByIds(s.tracked, s.pruned, ts, ps);
    ApartByIds(s.lost, s.pruned, ls, ps);
  }

  lemma SeparateByIds(vs: seq<Track>, ts: seq<BagTrack>)
    requires vs == Values(ts) && forall i, j | 0 <= i < j < |vs| :: vs[i].id != vs[j].id
    ensures Separate(ts)
    ensures forall i, j | 0 <= i < j < |ts| :: ts[i].trackId != ts[j].trackId
  {
    forall i, j | 0 <= i < j < |ts| ensures ts[i].trackId != ts[j].trackId {
      assert vs[i].id != vs[j].id;
    }
  }

  lemma ApartByIds(v: seq<Track>, w: seq<Track>, a: seq<BagTrack>, b: seq<BagTrack>)
    requires v == Values(a) && w == Values(b)
    requires forall i, j | 0 <= i < |v| && 0 <= j < |w| :: v[i].id != w[j].id
    ensures Apart(a, b) && Apart(b, a)
  {
    forall i, j | 0 <= i < |a| && 0 <= j < |b| ensures a[i] != b[j] {
      assert v[i].id != w[j].id;
    }
  }

  // ------------------------------------------------------------ the phases of an update

  // Steps 1 to 5: predict, then run the three passes.
  method RunPasses(cfg: Config, ts: seq<BagTrack>, ls: seq<BagTrack>, dets: seq<Detection>, prior: Point,
                   ghost pt: seq<Track>, ghost pl: seq<Track>)
    returns (st: Stages)
    requires Separate(ts) && Separate(ls) && Apart(ts, ls) && Apart(ls, ts)
    requires pt == PredictAll(Values(ts), prior) && pl == PredictAll(Values(ls), prior)
    modifies ts, ls
    ensures PassesOver(cfg, pt, pl, dets, st) && ListsUpdated(cfg, pt, pl, dets, st, ts, ls)
  {
    PredictLists(ts, ls, prior);
    var a, b := MatchTrackedOnly(cfg, ts, ls, dets);
    ghost var tv := Values(ts);
    var left := Pick(Pick(dets, HighIdx(cfg, dets)), a.unmatchedDets);
    var c := RunPassOnly(cfg, ls, ts, left);
    st := Stages(a, b, c);
    assert Values(ts) == tv;
  }

  method PredictLists(ts: seq<BagTrack>, ls: seq<BagTrack>, prior: Point)
    requires Separate(ts) && Separate(ls) && Apart(ts, ls) && Apart(ls, ts)
    modifies ts, ls
    ensures Values(ts) == PredictAll(old(Values(ts)), prior)
    ensures Values(ls) == PredictAll(old(Values(ls)), prior)
  {
    PredictOnly(ts, ls, prior);
    PredictOnly(ls, ts, prior);
  }

  method PredictOnly(ts: seq<BagTrack>, ghost others: seq<BagTrack>, prior: Point)
    requires Separate(ts) && Apart(ts, others)
    modifies ts
    ensures Values(ts) == PredictAll(old(Values(ts)), prior)
    ensures Values(others) == old(Values(others))
  {
    PredictEach(ts, prior);
  }

  // The same passes, with the list they leave alone named.
  method MatchTrackedOnly(cfg: Config, ts: seq<BagTrack>, ghost others: seq<BagTrack>, dets: seq<Detection>)
    returns (a: Association, b: Association)
    requires Separate(ts) && Apart(ts, others)
    modifies ts
    ensures PassFor(cfg, Features(old(Values(ts))), Pick(dets, HighIdx(cfg, dets)), a)
    ensures LeftoversInRange(a, |ts|, |HighIdx(cfg, dets)|)
    ensures PassFor(cfg, Features(Pick(old(Values(ts)), a.unmatchedTracks)), Pick(dets, LowIdx(cfg, dets)), b)
    ensures forall i | 0 <= i < |ts| ::
              var m := TrackedGets(a, b, HighIdx(cfg, dets), LowIdx(cfg, dets), |ts|, i);
              (m.Some? ==> m.value < |dets|) && ts[i].Value() == Updated(old(ts[i].Value()), m, dets)
    ensures Values(others) == old(Values(others))
  {
    a, b := MatchTracked(cfg, ts, dets);
  }

  method RunPassOnly(cfg: Config, ts: seq<BagTrack>, ghost others: seq<BagTrack>, dets: seq<Detection>)
    returns (a: Association)
    requires Separate(ts) && Apart(ts, others)
    modifies ts
    ensures PassFor(cfg, Features(old(Values(ts))), dets, a)
    ensures PassApplied(old(Values(ts)), Values(ts), a, dets)
    ensures Values(others) == old(Values(others))
  {
    a := RunPass(cfg, ts, dets);
  }

  // Every track of the two lists carries exactly what its pass gave it.
  ghost predicate ListsUpdated(cfg: Config, pt: seq<Track>, pl: seq<Track>, dets: seq<Detection>, st: Stages,
                               ts: seq<BagTrack>, ls: seq<BagTrack>)
    requires PassesOver(cfg, pt, pl, dets, st)
    reads ts, ls
  {
    var high, low := HighIdx(cfg, dets), LowIdx(cfg, dets);
    var left := Pick(Pick(dets, high), st.a.unmatchedDets);
    && |ts| == |pt| && |ls| == |pl|
    && (forall i | 0 <= i < |ts| ::
          var m := TrackedGets(st.a, st.b, high, low, |ts|, i);
          (m.Some? ==> m.value < |dets|) && ts[i].Value() == Updated(pt[i], m, dets))
    && (forall j | 0 <= j < |ls| ::
          var m := MatchOf(st.c.matches, j);
          (m.Some? ==> m.value < |left|) && ls[j].Value() == Updated(pl[j], m, left))
  }

  // The same, said with the plan.
  lemma UpdatedByPlan(cfg: Config, s: TrackerState, dets: seq<Detection>, prior: Point, st: Stages,
                      ts: seq<BagTrack>, ls: seq<BagTrack>)
    requires PassesFor(cfg, s, dets, prior, st)
    requires ListsUpdated(cfg, PredictAll(s.tracked, prior), PredictAll(s.lost, prior), dets, st, ts, ls)
    ensures StagesFit(cfg, s, dets, st)
    ensures PassesDone(s, dets, prior, PlanOf(cfg, s, dets, st), ts, ls)
  {
    PassesFit(cfg, s, dets, prior, st);
    PlanFitsStages(cfg, s, dets, st);
    var pl := PredictAll(s.lost, prior);
    var left := Pick(Pick(dets, HighIdx(cfg, dets)), st.a.unmatchedDets);
    forall j: nat | j < |ls|
      ensures ls[j].Value() == Updated(pl[j], PlanOf(cfg, s, dets, st).lostBy[j], dets)
    {
      LostPlanEntry(cfg, s, dets, st, left, j);
    }
  }

  // What the passes leave in the two lists, relative to the plan they amount to.
  ghost predicate PassesDone(s: TrackerState, dets: seq<Detection>, prior: Point, plan: Plan,
                             ts: seq<BagTrack>, ls: seq<BagTrack>)
    reads ts, ls
  {
    && |ts| == |s.tracked| && |ls| == |s.lost| && PlanFits(s, dets, plan)
    && (forall i | 0 <= i < |ts| ::
          ts[i].Value() == Updated(PredictAll(s.tracked, prior)[i], plan.trackedBy[i], dets))
    && (forall j | 0 <= j < |ls| ::
          ls[j].Value() == Updated(PredictAll(s.lost, prior)[j], plan.lostBy[j], dets))
  }

  lemma LostPlanEntry(cfg: Config, s: TrackerState, dets: seq<Detection>, st: Stages, left: seq<Detection>, j: nat)
    requires StagesFit(cfg, s, dets, st) && j < |s.lost| && PlanFits(s, dets, PlanOf(cfg, s, dets, st))
    requires LeftoversInRange(st.a, |s.tracked|, |HighIdx(cfg, dets)|)
    requires left == Pick(Pick(dets, HighIdx(cfg, dets)), st.a.unmatchedDets)
    ensures var m := MatchOf(st.c.matches, j);
            && (m.Some? ==> m.value < |left|)
            && forall t: Track :: Updated(t, m, left) == Updated(t, PlanOf(cfg, s, dets, st).lostBy[j], dets)
  {
    var m := MatchOf(st.c.matches, j);
    if m.Some? {
      var k :| 0 <= k < |st.c.matches| && st.c.matches[k] == (j, m.value);
      assert left[m.value] == dets[HighIdx(cfg, dets)[st.a.unmatchedDets[m.value]]];
    }
  }

  // Step 6: the unmatched become lost and leave the tracked list.
  method RetireUnmatched(ts: seq<BagTrack>, rescued: seq<BagTrack>, dropped: seq<BagTrack>,
                         ghost given: seq<Option<nat>>, ghost others: seq<BagTrack>, ghost ps: seq<BagTrack>)
    returns (kept: seq<BagTrack>)
    requires |given| == |ts| && dropped == Unassigned(ts, given) && Separate(ts)
    requires Apart(dropped, Assigned(ts, given) + rescued) && Apart(dropped, others) && Apart(dropped, ps)
    requires forall v | v in Values(Assigned(ts, given) + rescued) :: v.Active()
    modifies dropped
    ensures Values(dropped) == MarkAllLost(old(Values(dropped)))
    ensures Values(others) == old(Values(others)) && Values(ps) == old(Values(ps))
    ensures kept == Assigned(ts, given) + rescued && Values(kept) == old(Values(Assigned(ts, given) + rescued))
  {
    ghost var stays := Assigned(ts, given) + rescued;
    ChosenAreSeparate(ts, given);
    MarkOnly(dropped, others, stays, ps);
    InactiveValues(dropped);
    ActiveValues(stays);
    MarkedAreInactive(ts, given, rescued);
    AssignedAll(ts, rescued, given, AllGiven(|rescued|));
    kept := ActiveOnly(ts + rescued);
    ActiveIsAssigned(ts + rescued, given + AllGiven(|rescued|));
  }

  lemma ActiveValues(ts: seq<BagTrack>)
    requires forall v | v in Values(ts) :: v.Active()
    ensures forall t | t in ts :: t.Value().Active()
  {
    forall t | t in ts ensures t.Value().Active() {
      var i :| 0 <= i < |ts| && ts[i] == t;
      assert Values(ts)[i] in Values(ts);
    }
  }

  lemma InactiveValues(ts: seq<BagTrack>)
    requires forall i | 0 <= i < |ts| :: Values(ts)[i].phase == Phase.Lost
    ensures forall t | t in ts :: !t.Value().Active()
  {
    forall t | t in ts ensures !t.Value().Active() {
      var i :| 0 <= i < |ts| && ts[i] == t;
      assert Values(ts)[i] == t.Value();
    }
  }

  function AllGiven(n: nat): (r: seq<Option<nat>>)
    ensures |r| == n
    ensures forall i | 0 <= i < n :: r[i].Some?
  {
    seq(n, _ => Some(0))
  }

  // After the unmatched are marked, activity shows who was matched.
  lemma MarkedAreInactive(ts: seq<BagTrack>, given: seq<Option<nat>>, rescued: seq<BagTrack>)
    requires |given| == |ts| && Separate(ts)
    requires forall t | t in Unassigned(ts, given) :: !t.Value().Active()
    requires forall t | t in Assigned(ts, given) + rescued :: t.Value().Active()
    ensures forall i | 0 <= i < |ts + rescued| ::
              (given + AllGiven(|rescued|))[i].Some? <==> (ts + rescued)[i].Value().Active()
  {
    forall i: nat | i < |ts| ensures given[i].Some? <==> ts[i].Value().Active() {
      WhereIs(ts, given, i);
    }
    assert forall i | 0 <= i < |rescued| :: rescued[i] in Assigned(ts, given) + rescued;
  }

  // An element is among the unassigned exactly when it was given nothing.
  lemma {:induction false} WhereIs(ts: seq<BagTrack>, given: seq<Option<nat>>, i: nat)
    requires |ts| == |given| && Separate(ts) && i < |ts|
    ensures ts[i] in Unassigned(ts, given) <==> given[i].None?
    ensures ts[i] in Assigned(ts, given) <==> given[i].Some?
  {
    var k := |ts| - 1;
    ChosenAreMembers(ts[..k], given[..k]);
    if i < k {
      WhereIs(ts[..k], given[..k], i);
    }
  }

  method MarkOnly(ts: seq<BagTrack>, ghost others: seq<BagTrack>, ghost more: seq<BagTrack>,
                  ghost ps: seq<BagTrack>)
    requires Separate(ts) && Apart(ts, others) && Apart(ts, more) && Apart(ts, ps)
    modifies ts
    ensures Values(ts) == MarkAllLost(old(Values(ts)))
    ensures Values(others) == old(Values(others)) && Values(more) == old(Values(more))
    ensures Values(ps) == old(Values(ps))
  {
    MarkEachLost(ts);
  }

  // The dropped tracks are apart from everything that stays.
  lemma DroppedAreApart(ts: seq<BagTrack>, ls: seq<BagTrack>, ps: seq<BagTrack>,
                        given: seq<Option<nat>>, lostGiven: seq<Option<nat>>)
    requires |ts| == |given| && |ls| == |lostGiven| && Separate(ts) && Apart(ts, ls) && Apart(ts, ps)
    ensures Apart(Unassigned(ts, given), ps)
    ensures Apart(Unassigned(ts, given), Unassigned(ls, lostGiven))
    ensures Apart(Unassigned(ts, given), Assigned(ts, given) + Assigned(ls, lostGiven))
  {
    ChosenAreApart(ts, given);
    ChosenAreMembers(ts, given);
    ChosenAreMembers(ls, lostGiven);
    var d := Unassigned(ts, given);
    forall i, j | 0 <= i < |d| && 0 <= j < |ps| ensures d[i] != ps[j] {
      assert d[i] in ts;
    }
    var others := Assigned(ts, given) + Assigned(ls, lostGiven);
    forall i, j | 0 <= i < |d| && 0 <= j < |others| ensures d[i] != others[j] {
      assert d[i] in ts && d[i] in d;
      if j < |Assigned(ts, given)| {
        assert others[j] in Assigned(ts, given);
      } else {
        assert others[j] in ls;
      }
    }
    forall i, j | 0 <= i < |d| && 0 <= j < |Unassigned(ls, lostGiven)| ensures d[i] != Unassigned(ls, lostGiven)[j] {
      assert d[i] in ts && Unassigned(ls, lostGiven)[j] in ls;
    }
  }

  // The values of the four parts the two lists split into.
  lemma PartsByPlan(s: TrackerState, dets: seq<Detection>, prior: Point, plan: Plan,
                    ts: seq<BagTrack>, ls: seq<BagTrack>)
    requires PassesDone(s, dets, prior, plan, ts, ls)
    requires TrackedShape(s.tracked) && LostShape(s.lost)
    ensures var pt, pl := PredictAll(s.tracked, prior), PredictAll(s.lost, prior);
            && Values(Assigned(ts, plan.trackedBy) + Assigned(ls, plan.lostBy))
               == Measured(pt, plan.trackedBy, dets) + Measured(pl, plan.lostBy, dets)
            && (forall v | v in Values(Assigned(ts, plan.trackedBy) + Assigned(ls, plan.lostBy)) :: v.Active())
            && Values(Unassigned(ts, plan.trackedBy)) == Unassigned(pt, plan.trackedBy)
            && Values(Unassigned(ls, plan.lostBy)) == Unassigned(pl, plan.lostBy)
  {
    var pt, pl := PredictAll(s.tracked, prior), PredictAll(s.lost, prior);
    AssignedValues(ts, pt, plan.trackedBy, dets);
    AssignedValues(ls, pl, plan.lostBy, dets);
    UnassignedValues(ts, pt, plan.trackedBy);
    UnassignedValues(ls, pl, plan.lostBy);
    MeasuredAreActive(pt, plan.trackedBy, dets);
    MeasuredAreActive(pl, plan.lostBy, dets);
    ValuesConcat(Assigned(ts, plan.trackedBy), Assigned(ls, plan.lostBy));
  }

  // Step 6 on the prepared lists: what stays tracked, what is lost now, and where
  // the newly lost were predicted to be.
  method MoveTracks(ts: seq<BagTrack>, rescued: seq<BagTrack>, keptLost: seq<BagTrack>, dropped: seq<BagTrack>,
                    ghost given: seq<Option<nat>>, ghost ps: seq<BagTrack>)
    returns (kept: seq<BagTrack>, lostNow: seq<BagTrack>, boxes: seq<Box>)
    requires |given| == |ts| && dropped == Unassigned(ts, given) && Separate(ts)
    requires Apart(dropped, Assigned(ts, given) + rescued) && Apart(dropped, keptLost) && Apart(dropped, ps)
    requires forall v | v in Values(Assigned(ts, given) + rescued) :: v.Active()
    modifies dropped
    ensures kept == Assigned(ts, given) + rescued && lostNow == keptLost + dropped
    ensures Values(kept) == old(Values(Assigned(ts, given) + rescued))
    ensures Values(lostNow) == old(Values(keptLost)) + MarkAllLost(old(Values(dropped)))
    ensures boxes == old(BoxesOf(dropped))
    ensures Values(ps) == old(Values(ps))
  {
    boxes := BoxesOf(dropped);
    kept := RetireUnmatched(ts, rescued, dropped, given, keptLost, ps);
    lostNow := keptLost + dropped;
    ValuesConcat(keptLost, dropped);
  }

  function BoxesOf(ts: seq<BagTrack>): (r: seq<Box>)
    reads ts
    ensures |r| == |ts| && forall i | 0 <= i < |ts| :: r[i] == Values(ts)[i].box
  {
    if ts == [] then [] else BoxesOf(ts[..|ts| - 1]) + [ts[|ts| - 1].box]
  }

  lemma {:induction false} MeasuredAreActive(before: seq<Track>, given: seq<Option<nat>>, dets: seq<Detection>)
    requires |before| == |given| && PointsInto(given, |dets|)
    requires forall i | 0 <= i < |before| :: before[i].Active() || before[i].phase == Phase.Lost
    ensures forall v | v in Measured(before, given, dets) :: v.Active()
  {
    if before != [] {
      var k := |before| - 1;
      MeasuredAreActive(before[..k], given[..k], dets);
    }
  }

  // The four parts of the two lists, as the plan names them.
  lemma PartsOfLists(cfg: Config, s: TrackerState, dets: seq<Detection>, st: Stages,
                     ts: seq<BagTrack>, ls: seq<BagTrack>)
    requires StagesFit(cfg, s, dets, st) && |ts| == |s.tracked| && |ls| == |s.lost|
    requires forall i, j | 0 <= i < j < |ls| :: ls[i].trackId != ls[j].trackId
    ensures LeftoversInRange(st.a, |ts|, |HighIdx(cfg, dets)|)
    ensures LeftoversInRange(st.b, |st.a.unmatchedTracks|, |LowIdx(cfg, dets)|)
    ensures LeftoversInRange(st.c, |ls|, |st.a.unmatchedDets|)
    ensures InRange(Rows(st.c.matches), |ls|)
    ensures var plan := PlanOf(cfg, s, dets, st);
            && Pick(ts, Pick(st.a.unmatchedTracks, st.b.unmatchedTracks)) == Unassigned(ts, plan.trackedBy)
            && Pick(ls, Rows(st.c.matches)) == Assigned(ls, plan.lostBy)
            && NotResurrected(ls, ResurrectedIds(ls, st.c)) == Unassigned(ls, plan.lostBy)
  {
    var high, low, plan := HighIdx(cfg, dets), LowIdx(cfg, dets), PlanOf(cfg, s, dets, st);
    PartitionsLeaveInRange(st.a, |ts|, |high|);
    PartitionsLeaveInRange(st.b, |st.a.unmatchedTracks|, |low|);
    PartitionsLeaveInRange(st.c, |ls|, |st.a.unmatchedDets|);
    DroppedIndices(st.a, st.b, high, low, |s.tracked|);
    PickIsUnassigned(ts, Pick(st.a.unmatchedTracks, st.b.unmatchedTracks), plan.trackedBy);
    RescuedIndices(st.c, |ls|, |st.a.unmatchedDets|);
    PickIsAssigned(ls, Rows(st.c.matches), plan.lostBy);
    RemovedById(ls, st.c, |st.a.unmatchedDets|, plan.lostBy);
  }

  // The detections that start tracks.
  function Newcomers(cfg: Config, dets: seq<Detection>, a: Association, c: Association): seq<Detection>
    requires InRange(a.unmatchedDets, |HighIdx(cfg, dets)|) && InRange(c.unmatchedDets, |a.unmatchedDets|)
  {
    Pick(Pick(Pick(dets, HighIdx(cfg, dets)), a.unmatchedDets), c.unmatchedDets)
  }

  // What steps 1 to 6 establish about the values of the lists they return.
  ghost predicate Moved(s: TrackerState, dets: seq<Detection>, prior: Point, plan: Plan,
                        kept: seq<Track>, lostNow: seq<Track>, boxes: seq<Box>)
    requires PlanFits(s, dets, plan)
  {
    var pt, pl := PredictAll(s.tracked, prior), PredictAll(s.lost, prior);
    && kept == Measured(pt, plan.trackedBy, dets) + Measured(pl, plan.lostBy, dets)
    && lostNow == Unassigned(pl, plan.lostBy) + MarkAllLost(Unassigned(pt, plan.trackedBy))
    && |boxes| == |Unassigned(pt, plan.trackedBy)|
    && forall i | 0 <= i < |boxes| :: boxes[i] == Unassigned(pt, plan.trackedBy)[i].box
  }

  // Steps 1 to 6.
  method AssociateAndMove(cfg: Config, ts: seq<BagTrack>, ls: seq<BagTrack>, dets: seq<Detection>, prior: Point,
                          ghost s: TrackerState, ghost ps: seq<BagTrack>)
    returns (st: Stages, kept: seq<BagTrack>, lostNow: seq<BagTrack>, boxes: seq<Box>)
    requires Inv(s) && s.tracked == Values(ts) && s.lost == Values(ls) && s.pruned == Values(ps)
    modifies ts, ls
    ensures PassesFor(cfg, s, dets, prior, st) && StagesFit(cfg, s, dets, st)
    ensures PlanFits(s, dets, PlanOf(cfg, s, dets, st))
    ensures LeftoversInRange(st.c, |s.lost|, |st.a.unmatchedDets|)
    ensures LeftoversInRange(st.a, |s.tracked|, |HighIdx(cfg, dets)|)
    ensures Moved(s, dets, prior, PlanOf(cfg, s, dets, st), Values(kept), Values(lostNow), boxes)
    ensures forall t | t in kept :: t in ts || t in ls
    ensures forall t | t in lostNow :: t in ts || t in ls
    ensures Values(ps) == s.pruned
  {
    DistinctIdsSeparate(s, ts, ls, ps);
    st := RunPassesOnly(cfg, ts, ls, dets, prior, s, ps);
    UpdatedByPlan(cfg, s, dets, prior, st, ts, ls);
    ghost var plan := PlanOf(cfg, s, dets, st);
    PartsOfLists(cfg, s, dets, st, ts, ls);
    PartsByPlan(s, dets, prior, plan, ts, ls);
    DroppedAreApart(ts, ls, ps, plan.trackedBy, plan.lostBy);
    MovedMembers(ts, ls, plan.trackedBy, plan.lostBy);
    kept, lostNow, boxes :=
      MoveTracks(ts, Pick(ls, Rows(st.c.matches)), NotResurrected(ls, ResurrectedIds(ls, st.c)),
                 Pick(ts, Pick(st.a.unmatchedTracks, st.b.unmatchedTracks)), plan.trackedBy, ps);
  }

  method RunPassesOnly(cfg: Config, ts: seq<BagTrack>, ls: seq<BagTrack>, dets: seq<Detection>, prior: Point,
                       ghost s: TrackerState, ghost ps: seq<BagTrack>)
    returns (st: Stages)
    requires Separate(ts) && Separate(ls) && Apart(ts, ls) && Apart(ls, ts) && Apart(ts, ps) && Apart(ls, ps)
    requires s.tracked == Values(ts) && s.lost == Values(ls)
    modifies ts, ls
    ensures PassesFor(cfg, s, dets, prior, st)
    ensures ListsUpdated(cfg, PredictAll(s.tracked, prior), PredictAll(s.lost, prior), dets, st, ts, ls)
    ensures Values(ps) == old(Values(ps))
  {
    st := RunPasses(cfg, ts, ls, dets, prior, PredictAll(s.tracked, prior), PredictAll(s.lost, prior));
  }

  lemma MovedMembers(ts: seq<BagTrack>, ls: seq<BagTrack>, given: seq<Option<nat>>, lostGiven: seq<Option<nat>>)
    requires |ts| == |given| && |ls| == |lostGiven|
    ensures forall t | t in Assigned(ts, given) + Assigned(ls, lostGiven) :: t in ts || t in ls
    ensures forall t | t in Unassigned(ls, lostGiven) + Unassigned(ts, given) :: t in ts || t in ls
    ensures forall t | t in Unassigned(ts, given) :: t in ts
  {
    ChosenAreMembers(ts, given);
    ChosenAreMembers(ls, lostGiven);
  }

  lemma BirthsOfNewcomers(cfg: Config, s: TrackerState, dets: seq<Detection>, st: Stages)
    requires StagesFit(cfg, s, dets, st) && PlanFits(s, dets, PlanOf(cfg, s, dets, st))
    requires LeftoversInRange(st.a, |s.tracked|, |HighIdx(cfg, dets)|)
    requires LeftoversInRange(st.c, |s.lost|, |st.a.unmatchedDets|)
    ensures var plan := PlanOf(cfg, s, dets, st);
            |Newcomers(cfg, dets, st.a, st.c)| == |plan.born|
            && NewTracks(s.count, Newcomers(cfg, dets, st.a, st.c)) == Births(s.count, plan.born, dets)
  {
    var news, plan := Newcomers(cfg, dets, st.a, st.c), PlanOf(cfg, s, dets, st);
    assert forall k | 0 <= k < |news| :: news[k] == dets[plan.born[k]];
  }

  lemma SwitchesOfNewcomers(cfg: Config, s: TrackerState, dets: seq<Detection>, st: Stages,
                            lost: seq<Track>, boxes: seq<Box>)
    requires StagesFit(cfg, s, dets, st) && PlanFits(s, dets, PlanOf(cfg, s, dets, st))
    requires LeftoversInRange(st.a, |s.tracked|, |HighIdx(cfg, dets)|)
    requires LeftoversInRange(st.c, |s.lost|, |st.a.unmatchedDets|)
    requires |boxes| == |lost| && forall i | 0 <= i < |boxes| :: boxes[i] == lost[i].box
    ensures CountSwitches(Newcomers(cfg, dets, st.a, st.c), boxes)
         == Switches(PlanOf(cfg, s, dets, st).born, dets, lost)
  {
    SwitchesAgree(PlanOf(cfg, s, dets, st).born, dets, Newcomers(cfg, dets, st.a, st.c), lost, boxes);
  }

  // Step 7: the new tracks join the tracked list.
  method BirthOnly(count: nat, news: seq<Detection>, boxes: seq<Box>, kept: seq<BagTrack>,
                   ghost young: seq<BagTrack>, ghost dead: seq<BagTrack>)
    returns (tracked: seq<BagTrack>, switches: nat)
    ensures Values(tracked) == old(Values(kept)) + NewTracks(count, news)
    ensures Values(young) == old(Values(young)) && Values(dead) == old(Values(dead))
    ensures switches == CountSwitches(news, boxes)
    ensures forall t | t in tracked :: t in kept || fresh(t)
  {
    var born;
    born, switches := StartTracks(count, news, boxes);
    tracked := kept + born;
    ValuesConcat(kept, born);
  }

  // The lists and counters after all eight steps make up the specified next state.
  lemma AssembleStep(cfg: Config, s: TrackerState, dets: seq<Detection>, prior: Point, st: Stages,
                     kept: seq<Track>, lostNow: seq<Track>, boxes: seq<Box>, s': TrackerState)
    requires StagesFit(cfg, s, dets, st) && PlanFits(s, dets, PlanOf(cfg, s, dets, st))
    requires LeftoversInRange(st.a, |s.tracked|, |HighIdx(cfg, dets)|)
    requires LeftoversInRange(st.c, |s.lost|, |st.a.unmatchedDets|)
    requires Moved(s, dets, prior, PlanOf(cfg, s, dets, st), kept, lostNow, boxes)
    requires s'.tracked == kept + NewTracks(s.count, Newcomers(cfg, dets, st.a, st.c))
    requires s'.lost == Within(lostNow, cfg.maxTimeLost)
    requires s'.pruned == s.pruned + Overdue(lostNow, cfg.maxTimeLost)
    requires s'.count == s.count + |Newcomers(cfg, dets, st.a, st.c)| && s'.frames == s.frames + 1
    requires s'.fragmentation == s.fragmentation + |Overdue(lostNow, cfg.maxTimeLost)|
    requires s'.idSwitches == s.idSwitches + CountSwitches(Newcomers(cfg, dets, st.a, st.c), boxes)
    ensures s' == Step(cfg, s, dets, prior, PlanOf(cfg, s, dets, st))
  {
    BirthsOfNewcomers(cfg, s, dets, st);
    SwitchesOfNewcomers(cfg, s, dets, st,
                        Unassigned(PredictAll(s.tracked, prior), PlanOf(cfg, s, dets, st).trackedBy), boxes);
  }

  lemma UpdateIsStep(cfg: Config, s: TrackerState, dets: seq<Detection>, prior: Point, st: Stages,
                     kept: seq<Track>, lostNow: seq<Track>, boxes: seq<Box>, s': TrackerState)
    requires Inv(s) && StagesFit(cfg, s, dets, st) && PlanFits(s, dets, PlanOf(cfg, s, dets, st))
    requires LeftoversInRange(st.a, |s.tracked|, |HighIdx(cfg, dets)|)
    requires LeftoversInRange(st.c, |s.lost|, |st.a.unmatchedDets|)
    requires Moved(s, dets, prior, PlanOf(cfg, s, dets, st), kept, lostNow, boxes)
    requires s'.tracked == kept + NewTracks(s.count, Newcomers(cfg, dets, st.a, st.c))
    requires s'.lost == Within(lostNow, cfg.maxTimeLost)
    requires s'.pruned == s.pruned + Overdue(lostNow, cfg.maxTimeLost)
    requires s'.count == s.count + |Newcomers(cfg, dets, st.a, st.c)| && s'.frames == s.frames + 1
    requires s'.fragmentation == s.fragmentation + |Overdue(lostNow, cfg.maxTimeLost)|
    requires s'.idSwitches == s.idSwitches + CountSwitches(Newcomers(cfg, dets, st.a, st.c), boxes)
    ensures s' == Step(cfg, s, dets, prior, PlanOf(cfg, s, dets, st)) && Inv(s')
    ensures SoundPlan(cfg, s, dets, PlanOf(cfg, s, dets, st))
  {
    AssembleStep(cfg, s, dets, prior, st, kept, lostNow, boxes, s');
    PlanIsSound(cfg, s, dets, st);
    StepKeepsInv(cfg, s, dets, prior, PlanOf(cfg, s, dets, st));
  }

  class ConveyorByteTracker {
    var cfg: Config
    var trackedTracks: seq<BagTrack>
    var lostTracks: seq<BagTrack>
    ghost var prunedTracks: seq<BagTrack>
    var count: nat
    var frameCount: nat
    var fragmentationCount: nat
    var idSwitchCount: nat

    ghost function State(): TrackerState
      reads this, trackedTracks, lostTracks, prunedTracks
    {
      TrackerState(Values(trackedTracks), Values(lostTracks), Values(prunedTracks),
                   count, frameCount, fragmentationCount, idSwitchCount)
    }

    ghost predicate Valid()
      reads this, trackedTracks, lostTracks, prunedTracks
    {
      Inv(State())
    }

    constructor (cfg: Config)
      ensures Valid() && State() == START && this.cfg == cfg
    {
      this.cfg := cfg;
      trackedTracks, lostTracks, prunedTracks := [], [], [];
      count, frameCount, fragmentationCount, idSwitchCount := 0, 0, 0, 0;
    }

    // Write the lists and counters of a finished update.
    method Store(tracked: seq<BagTrack>, young: seq<BagTrack>, gone: seq<BagTrack>, born: nat, switches: nat)
      modifies this
      ensures cfg == old(cfg)
      ensures trackedTracks == tracked && lostTracks == young && prunedTracks == old(prunedTracks) + gone
      ensures Values(trackedTracks) == old(Values(tracked))
      ensures Values(lostTracks) == old(Values(young))
      ensures Values(prunedTracks) == old(Values(prunedTracks + gone))
      ensures count == old(count) + born && frameCount == old(frameCount) + 1
      ensures fragmentationCount == old(fragmentationCount) + |gone|
      ensures idSwitchCount == old(idSwitchCount) + switches
    {
      frameCount := frameCount + 1;
      trackedTracks := tracked;
      lostTracks := young;
      prunedTracks := prunedTracks + gone;
      count := count + born;
      idSwitchCount := idSwitchCount + switches;
      fragmentationCount := fragmentationCount + |gone|;
    }

    // Steps 1 to 6 on the tracker's own lists.
    method Match(dets: seq<Detection>, prior: Point, ghost s: TrackerState)
      returns (st: Stages, kept: seq<BagTrack>, lostNow: seq<BagTrack>, boxes: seq<Box>)
      requires Valid() && s == State()
      modifies trackedTracks, lostTracks
      ensures unchanged(this)
      ensures PassesFor(cfg, s, dets, prior, st) && StagesFit(cfg, s, dets, st)
      ensures PlanFits(s, dets, PlanOf(cfg, s, dets, st))
      ensures LeftoversInRange(st.a, |s.tracked|, |HighIdx(cfg, dets)|)
      ensures LeftoversInRange(st.c, |s.lost|, |st.a.unmatchedDets|)
      ensures Moved(s, dets, prior, PlanOf(cfg, s, dets, st), Values(kept), Values(lostNow), boxes)
      ensures forall t | t in kept :: t in trackedTracks || t in lostTracks
      ensures forall t | t in lostNow :: t in trackedTracks || t in lostTracks
      ensures Values(prunedTracks) == s.pruned
    {
      ghost var me: object := this;
      assert forall i | 0 <= i < |trackedTracks| :: trackedTracks[i] as object != me;
      assert forall i | 0 <= i < |lostTracks| :: lostTracks[i] as object != me;
      st, kept, lostNow, boxes :=
        AssociateAndMove(cfg, trackedTracks, lostTracks, dets, prior, s, prunedTracks);
    }

    // Steps 7 and 8: new tracks join, overdue ones leave, counters move.
    method Finish(news: seq<Detection>, boxes: seq<Box>, kept: seq<BagTrack>, lostNow: seq<BagTrack>)
      modifies this
      ensures cfg == old(cfg)
      ensures Values(trackedTracks) == old(Values(kept)) + NewTracks(old(count), news)
      ensures Values(lostTracks) == Within(old(Values(lostNow)), cfg.maxTimeLost)
      ensures Values(prunedTracks) == old(Values(prunedTracks)) + Overdue(old(Values(lostNow)), cfg.maxTimeLost)
      ensures count == old(count) + |news| && frameCount == old(frameCount) + 1
      ensures fragmentationCount == old(fragmentationCount) + |Overdue(old(Values(lostNow)), cfg.maxTimeLost)|
      ensures idSwitchCount == old(idSwitchCount) + CountSwitches(news, boxes)
      ensures forall t | t in trackedTracks :: t in kept || fresh(t)
      ensures forall t | t in lostTracks :: t in lostNow
    {
      var young, gone := Young(lostNow, cfg.maxTimeLost), Gone(lostNow, cfg.maxTimeLost);
      YoungValues(lostNow, cfg.maxTimeLost);
      GoneValues(lostNow, cfg.maxTimeLost);
      ValuesConcat(prunedTracks, gone);
      var tracked, switches := BirthOnly(count, news, boxes, kept, young, prunedTracks + gone);
      Store(tracked, young, gone, |news|, switches);
    }

    method Update(dets: seq<Detection>, prior: Point)
      returns (active: seq<BagTrack>, ghost st: Stages)
      requires Valid()
      modifies this, trackedTracks, lostTracks
      ensures Valid() && cfg == old(cfg)
      ensures PassesFor(cfg, old(State()), dets, prior, st)
      ensures StagesFit(cfg, old(State()), dets, st)
      ensures SoundPlan(cfg, old(State()), dets, PlanOf(cfg, old(State()), dets, st))
      ensures State() == Step(cfg, old(State()), dets, prior, PlanOf(cfg, old(State()), dets, st))
      ensures active == trackedTracks && AllSitOn(Values(active), dets)
      ensures forall t | t in trackedTracks :: t in old(trackedTracks) || t in old(lostTracks) || fresh(t)
      ensures forall t | t in lostTracks :: t in old(trackedTracks) || t in old(lostTracks)
    {
      ghost var s := State();
      var stages, kept, lostNow, boxes := Match(dets, prior, s);
      st := stages;
      ghost var keptValues, lostValues := Values(kept), Values(lostNow);
      Finish(Newcomers(cfg, dets, stages.a, stages.c), boxes, kept, lostNow);
      active := trackedTracks;
      UpdateIsStep(cfg, s, dets, prior, st, keptValues, lostValues, boxes, State());
      TrackedSitOnDetections(cfg, s, dets, prior, PlanOf(cfg, s, dets, st));
    }
  }
}
