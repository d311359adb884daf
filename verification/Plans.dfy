/**
 How the three association passes of one tracker update combine into a plan,
 and why that plan uses every detection properly.
 */
module Plans {
  import opened Wrappers
  import opened Boxes
  import opened Matching
  import opened Tracks

  // The results of the three passes: tracked tracks against high scores, what is
  // left of them against low scores, lost tracks against the high scores left over.
  datatype Stages = Stages(a: Association, b: Association, c: Association)

  // Positions of the high-score (low-score) detections, in order.
  function HighIdx(cfg: Config, dets: seq<Detection>): (r: seq<nat>)
    ensures Ascending(r) && InRange(r, |dets|)
    ensures forall d: nat :: d in r <==> d < |dets| && cfg.High(dets[d])
  {
    if dets == [] then [] else
      var k := |dets| - 1;
      var rest := HighIdx(cfg, dets[..k]);
      assert forall i | 0 <= i < |rest| :: rest[i] in rest;
      if cfg.High(dets[k]) then rest + [k] else rest
  }

  function LowIdx(cfg: Config, dets: seq<Detection>): (r: seq<nat>)
    ensures Ascending(r) && InRange(r, |dets|)
    ensures forall d: nat :: d in r <==> d < |dets| && cfg.LowBand(dets[d])
  {
    if dets == [] then [] else
      var k := |dets| - 1;
      var rest := LowIdx(cfg, dets[..k]);
      assert forall i | 0 <= i < |rest| :: rest[i] in rest;
      if cfg.LowBand(dets[k]) then rest + [k] else rest
  }

  // The column matched with row i, if any.
  function MatchOf(matches: seq<(nat, nat)>, i: nat): (r: Option<nat>)
    ensures r.Some? ==> exists k :: 0 <= k < |matches| && matches[k] == (i, r.value)
    ensures r.None? ==> forall k | 0 <= k < |matches| :: matches[k].0 != i
  {
    if matches == [] then None else
      var k := |matches| - 1;
      if matches[k].0 == i then Some(matches[k].1) else MatchOf(matches[..k], i)
  }

  function Position(s: seq<nat>, x: nat): (p: nat)
    requires x in s
    ensures p < |s| && s[p] == x
  {
    if s[|s| - 1] == x then |s| - 1 else Position(s[..|s| - 1], x)
  }

  ghost predicate StagesFit(cfg: Config, s: TrackerState, dets: seq<Detection>, st: Stages) {
    && Partitions(st.a, |s.tracked|, |HighIdx(cfg, dets)|)
    && Partitions(st.b, |st.a.unmatchedTracks|, |LowIdx(cfg, dets)|)
    && Partitions(st.c, |s.lost|, |st.a.unmatchedDets|)
  }

  // Tracked track i: its high-score match, else the low-score match of its place
  // among the tracks the first pass left over.
  ghost function TrackedGets(a: Association, b: Association, high: seq<nat>, low: seq<nat>, n: nat, i: nat)
    : (r: Option<nat>)
    requires i < n && Partitions(a, n, |high|) && Partitions(b, |a.unmatchedTracks|, |low|)
  {
    var first := MatchOf(a.matches, i);
    if first.Some? then Some(high[first.value]) else
      assert !MatchesTrack(a, i);
      var second := MatchOf(b.matches, Position(a.unmatchedTracks, i));
      if second.Some? then Some(low[second.value]) else None
  }

  ghost function LostGets(st: Stages, high: seq<nat>, n: nat, m: nat, j: nat): (r: Option<nat>)
    requires j < m && Partitions(st.a, n, |high|) && Partitions(st.c, m, |st.a.unmatchedDets|)
  {
    var third := MatchOf(st.c.matches, j);
    if third.Some? then
      assert st.a.unmatchedDets[third.value] in st.a.unmatchedDets;
      Some(high[st.a.unmatchedDets[third.value]])
    else None
  }

  ghost function BornFrom(st: Stages, high: seq<nat>, n: nat, m: nat): (r: seq<nat>)
    requires Partitions(st.a, n, |high|) && Partitions(st.c, m, |st.a.unmatchedDets|)
  {
    assert forall d | 0 <= d < |st.c.unmatchedDets| :: st.c.unmatchedDets[d] in st.c.unmatchedDets;
    assert forall d | 0 <= d < |st.a.unmatchedDets| :: st.a.unmatchedDets[d] in st.a.unmatchedDets;
    seq(|st.c.unmatchedDets|, k requires 0 <= k < |st.c.unmatchedDets| =>
      high[st.a.unmatchedDets[st.c.unmatchedDets[k]]])
  }

  ghost function PlanOf(cfg: Config, s: TrackerState, dets: seq<Detection>, st: Stages): Plan
    requires StagesFit(cfg, s, dets, st)
  {
    var high, low := HighIdx(cfg, dets), LowIdx(cfg, dets);
    var n, m := |s.tracked|, |s.lost|;
    Plan(seq(n, i requires 0 <= i < n => TrackedGets(st.a, st.b, high, low, n, i)),
         seq(m, j requires 0 <= j < m => LostGets(st, high, n, m, j)),
         BornFrom(st, high, n, m))
  }

  // One pass is a partition into matches and leftovers that is stable for its costs.
  ghost predicate PassFor(cfg: Config, ts: seq<Feature>, dets: seq<Detection>, a: Association) {
    && Partitions(a, |ts|, |dets|)
    && exists cost: Matrix ::
         IsCostMatrix(cfg.metric, cfg.weights, ts, dets, cost)
         && Stable(a, cost, |ts|, |dets|, cfg.costThreshold)
  }

  // The three passes see the predicted tracks and the right detections.
  ghost predicate PassesOver(cfg: Config, pt: seq<Track>, pl: seq<Track>, dets: seq<Detection>, st: Stages) {
    var high, low := Pick(dets, HighIdx(cfg, dets)), Pick(dets, LowIdx(cfg, dets));
    && PassFor(cfg, Features(pt), high, st.a)
    && LeftoversInRange(st.a, |pt|, |high|)
    && PassFor(cfg, Features(Pick(pt, st.a.unmatchedTracks)), low, st.b)
    && PassFor(cfg, Features(pl), Pick(high, st.a.unmatchedDets), st.c)
  }

  ghost predicate PassesFor(cfg: Config, s: TrackerState, dets: seq<Detection>, prior: Point, st: Stages) {
    PassesOver(cfg, PredictAll(s.tracked, prior), PredictAll(s.lost, prior), dets, st)
  }

  predicate LeftoversInRange(a: Association, n: nat, m: nat) {
    InRange(a.unmatchedTracks, n) && InRange(a.unmatchedDets, m)
  }

  lemma PartitionsLeaveInRange(a: Association, n: nat, m: nat)
    requires Partitions(a, n, m)
    ensures LeftoversInRange(a, n, m)
  {
    assert forall k | 0 <= k < |a.unmatchedTracks| :: a.unmatchedTracks[k] in a.unmatchedTracks;
    assert forall k | 0 <= k < |a.unmatchedDets| :: a.unmatchedDets[k] in a.unmatchedDets;
  }

  lemma PassesFit(cfg: Config, s: TrackerState, dets: seq<Detection>, prior: Point, st: Stages)
    requires PassesFor(cfg, s, dets, prior, st)
    ensures StagesFit(cfg, s, dets, st)
  {
  }

  // The plan is the one the three association passes make.
  ghost predicate FromPasses(cfg: Config, s: TrackerState, dets: seq<Detection>, prior: Point, plan: Plan) {
    exists st :: PassesFor(cfg, s, dets, prior, st) && StagesFit(cfg, s, dets, st) && plan == PlanOf(cfg, s, dets, st)
  }

  // ------------------------------------------------------------ where a detection goes

  lemma MatchIsUnique(a: Association, n: nat, m: nat, k: nat)
    requires Partitions(a, n, m) && k < |a.matches|
    ensures MatchOf(a.matches, a.matches[k].0) == Some(a.matches[k].1)
  {
    var r := MatchOf(a.matches, a.matches[k].0);
    assert r.Some?;
    var k' :| 0 <= k' < |a.matches| && a.matches[k'] == (a.matches[k].0, r.value);
    assert k' == k;
  }

  // Equal entries of an ascending list sit at equal positions.
  lemma SamePlace(s: seq<nat>, i: nat, j: nat)
    requires Ascending(s) && i < |s| && j < |s| && s[i] == s[j]
    ensures i == j
  {
  }

  lemma BandsDisjoint(cfg: Config, dets: seq<Detection>, h: nat, l: nat)
    requires h < |HighIdx(cfg, dets)| && l < |LowIdx(cfg, dets)|
    ensures HighIdx(cfg, dets)[h] != LowIdx(cfg, dets)[l]
  {
    assert HighIdx(cfg, dets)[h] in HighIdx(cfg, dets);
    assert LowIdx(cfg, dets)[l] in LowIdx(cfg, dets);
  }

  // The pass and the match behind a tracked track's detection.
  lemma TrackedWitness(st: Stages, high: seq<nat>, low: seq<nat>, n: nat, i: nat)
    returns (first: bool, k: nat)
    requires i < n && Partitions(st.a, n, |high|) && Partitions(st.b, |st.a.unmatchedTracks|, |low|)
    requires TrackedGets(st.a, st.b, high, low, n, i).Some?
    ensures first ==> (k < |st.a.matches| && st.a.matches[k].0 == i
                       && high[st.a.matches[k].1] == TrackedGets(st.a, st.b, high, low, n, i).value)
    ensures !first ==> (k < |st.b.matches| && st.a.unmatchedTracks[st.b.matches[k].0] == i
                        && low[st.b.matches[k].1] == TrackedGets(st.a, st.b, high, low, n, i).value)
  {
    var r := MatchOf(st.a.matches, i);
    if r.Some? {
      first := true;
      k :| 0 <= k < |st.a.matches| && st.a.matches[k] == (i, r.value);
    } else {
      first := false;
      assert !MatchesTrack(st.a, i);
      var q := MatchOf(st.b.matches, Position(st.a.unmatchedTracks, i));
      k :| 0 <= k < |st.b.matches| && st.b.matches[k] == (Position(st.a.unmatchedTracks, i), q.value);
    }
  }

  lemma LostWitness(st: Stages, high: seq<nat>, n: nat, m: nat, j: nat) returns (k: nat)
    requires j < m && Partitions(st.a, n, |high|) && Partitions(st.c, m, |st.a.unmatchedDets|)
    requires LostGets(st, high, n, m, j).Some?
    ensures k < |st.c.matches| && st.c.matches[k].0 == j
    ensures st.a.unmatchedDets[st.c.matches[k].1] < |high|
    ensures high[st.a.unmatchedDets[st.c.matches[k].1]] == LostGets(st, high, n, m, j).value
  {
    var r := MatchOf(st.c.matches, j);
    k :| 0 <= k < |st.c.matches| && st.c.matches[k] == (j, r.value);
    assert st.a.unmatchedDets[r.value] in st.a.unmatchedDets;
  }

  lemma TrackedInjective(cfg: Config, dets: seq<Detection>, st: Stages, n: nat, i: nat, j: nat)
    requires i < j < n
    requires Partitions(st.a, n, |HighIdx(cfg, dets)|)
    requires Partitions(st.b, |st.a.unmatchedTracks|, |LowIdx(cfg, dets)|)
    ensures var high, low := HighIdx(cfg, dets), LowIdx(cfg, dets);
            var x, y := TrackedGets(st.a, st.b, high, low, n, i), TrackedGets(st.a, st.b, high, low, n, j);
            x.Some? && y.Some? ==> x.value != y.value
  {
    var high, low := HighIdx(cfg, dets), LowIdx(cfg, dets);
    var x, y := TrackedGets(st.a, st.b, high, low, n, i), TrackedGets(st.a, st.b, high, low, n, j);
    if x.Some? && y.Some? && x.value == y.value {
      var f, k := TrackedWitness(st, high, low, n, i);
      var g, l := TrackedWitness(st, high, low, n, j);
      if f && g {
        SamePlace(high, st.a.matches[k].1, st.a.matches[l].1);
      } else if !f && !g {
        SamePlace(low, st.b.matches[k].1, st.b.matches[l].1);
      } else if f {
        BandsDisjoint(cfg, dets, st.a.matches[k].1, st.b.matches[l].1);
      } else {
        BandsDisjoint(cfg, dets, st.a.matches[l].1, st.b.matches[k].1);
      }
    }
  }

  // Different places of an ascending list of places in an ascending list hold different entries.
  lemma PlacesApart(high: seq<nat>, rest: seq<nat>, p: nat, q: nat)
    requires Ascending(high) && Ascending(rest) && InRange(rest, |high|) && p < |rest| && q < |rest| && p != q
    ensures high[rest[p]] != high[rest[q]]
  {
    assert rest[p] < rest[q] || rest[q] < rest[p];
  }

  lemma LostInjective(st: Stages, high: seq<nat>, n: nat, m: nat, i: nat, j: nat)
    requires i < j < m && Ascending(high)
    requires Partitions(st.a, n, |high|) && Partitions(st.c, m, |st.a.unmatchedDets|)
    ensures var x, y := LostGets(st, high, n, m, i), LostGets(st, high, n, m, j);
            x.Some? && y.Some? ==> x.value != y.value
  {
    var x, y := LostGets(st, high, n, m, i), LostGets(st, high, n, m, j);
    if x.Some? && y.Some? {
      var k := LostWitness(st, high, n, m, i);
      var l := LostWitness(st, high, n, m, j);
      assert st.c.matches[k].1 != st.c.matches[l].1;
      PartitionsLeaveInRange(st.a, n, |high|);
      PlacesApart(high, st.a.unmatchedDets, st.c.matches[k].1, st.c.matches[l].1);
    }
  }

  lemma BornAscending(st: Stages, high: seq<nat>, n: nat, m: nat)
    requires Ascending(high)
    requires Partitions(st.a, n, |high|) && Partitions(st.c, m, |st.a.unmatchedDets|)
    ensures Ascending(BornFrom(st, high, n, m))
  {
    forall i, j | 0 <= i < j < |st.c.unmatchedDets|
      ensures BornFrom(st, high, n, m)[i] < BornFrom(st, high, n, m)[j]
    {
      assert st.c.unmatchedDets[i] in st.c.unmatchedDets && st.c.unmatchedDets[j] in st.c.unmatchedDets;
      var u, v := st.c.unmatchedDets[i], st.c.unmatchedDets[j];
      assert st.a.unmatchedDets[u] in st.a.unmatchedDets && st.a.unmatchedDets[v] in st.a.unmatchedDets;
    }
  }

  // The three uses exclude one another: what the first pass matched never reaches
  // the third, and what the third matched starts no track.
  lemma UsesExclude(cfg: Config, s: TrackerState, dets: seq<Detection>, st: Stages, d: nat)
    requires StagesFit(cfg, s, dets, st)
    ensures var plan := PlanOf(cfg, s, dets, st);
            && !(Used(plan.trackedBy, d) && Used(plan.lostBy, d))
            && !(Used(plan.trackedBy, d) && d in plan.born)
            && !(Used(plan.lostBy, d) && d in plan.born)
  {
    var plan := PlanOf(cfg, s, dets, st);
    if Used(plan.trackedBy, d) {
      TrackedUse(cfg, s, dets, st, d);
    }
    if Used(plan.lostBy, d) {
      LostUse(cfg, s, dets, st, d);
    }
    if d in plan.born {
      BornUse(cfg, s, dets, st, d);
    }
  }

  // h is the place of detection d in the high list.
  ghost predicate HighPlace(high: seq<nat>, d: nat, h: nat) { h < |high| && high[h] == d }

  lemma TrackedUse(cfg: Config, s: TrackerState, dets: seq<Detection>, st: Stages, d: nat)
    requires StagesFit(cfg, s, dets, st) && Used(PlanOf(cfg, s, dets, st).trackedBy, d)
    ensures d < |dets| && (cfg.High(dets[d]) || cfg.LowBand(dets[d]))
    ensures forall h {:trigger HighPlace(HighIdx(cfg, dets), d, h)} |
              HighPlace(HighIdx(cfg, dets), d, h) :: MatchesDet(st.a, h)
  {
    var high, low := HighIdx(cfg, dets), LowIdx(cfg, dets);
    var plan := PlanOf(cfg, s, dets, st);
    var i :| 0 <= i < |plan.trackedBy| && plan.trackedBy[i] == Some(d);
    var f, k := TrackedWitness(st, high, low, |s.tracked|, i);
    if f {
      assert d in high;
      forall h | HighPlace(high, d, h) ensures MatchesDet(st.a, h) {
        SamePlace(high, h, st.a.matches[k].1);
      }
    } else {
      var l := st.b.matches[k].1;
      forall h: nat | h < |high| ensures high[h] != low[l] {
        BandsDisjoint(cfg, dets, h, l);
      }
      assert d in low;
    }
  }

  lemma LostUse(cfg: Config, s: TrackerState, dets: seq<Detection>, st: Stages, d: nat)
    requires StagesFit(cfg, s, dets, st) && Used(PlanOf(cfg, s, dets, st).lostBy, d)
    ensures exists h, u | HighPlace(HighIdx(cfg, dets), d, h) && HighPlace(st.a.unmatchedDets, h, u) ::
              MatchesDet(st.c, u)
    ensures d < |dets| && cfg.High(dets[d])
  {
    var high := HighIdx(cfg, dets);
    var plan := PlanOf(cfg, s, dets, st);
    var j :| 0 <= j < |plan.lostBy| && plan.lostBy[j] == Some(d);
    var k := LostWitness(st, high, |s.tracked|, |s.lost|, j);
    var u := st.c.matches[k].1;
    assert HighPlace(high, d, st.a.unmatchedDets[u]) && HighPlace(st.a.unmatchedDets, st.a.unmatchedDets[u], u);
    assert d in high;
  }

  lemma BornUse(cfg: Config, s: TrackerState, dets: seq<Detection>, st: Stages, d: nat)
    requires StagesFit(cfg, s, dets, st) && d in PlanOf(cfg, s, dets, st).born
    ensures exists h, u | HighPlace(HighIdx(cfg, dets), d, h) && HighPlace(st.a.unmatchedDets, h, u) ::
              u in st.c.unmatchedDets
    ensures d < |dets| && cfg.High(dets[d])
  {
    var high := HighIdx(cfg, dets);
    var born := PlanOf(cfg, s, dets, st).born;
    var k :| 0 <= k < |born| && born[k] == d;
    var u := st.c.unmatchedDets[k];
    assert u in st.c.unmatchedDets;
    assert st.a.unmatchedDets[u] in st.a.unmatchedDets;
    assert HighPlace(high, d, st.a.unmatchedDets[u]) && HighPlace(st.a.unmatchedDets, st.a.unmatchedDets[u], u);
    assert d in high;
  }

  // No high-score detection falls through all three passes.
  lemma HighIsUsed(cfg: Config, s: TrackerState, dets: seq<Detection>, st: Stages, d: nat)
    requires StagesFit(cfg, s, dets, st) && d < |dets| && cfg.High(dets[d])
    ensures var plan := PlanOf(cfg, s, dets, st);
            Used(plan.trackedBy, d) || Used(plan.lostBy, d) || d in plan.born
  {
    var high, low := HighIdx(cfg, dets), LowIdx(cfg, dets);
    var plan := PlanOf(cfg, s, dets, st);
    assert d in high;
    var h :| 0 <= h < |high| && high[h] == d;
    if MatchesDet(st.a, h) {
      var k :| 0 <= k < |st.a.matches| && st.a.matches[k].1 == h;
      MatchIsUnique(st.a, |s.tracked|, |high|, k);
      assert plan.trackedBy[st.a.matches[k].0] == Some(d);
    } else {
      assert h in st.a.unmatchedDets;
      var u :| 0 <= u < |st.a.unmatchedDets| && st.a.unmatchedDets[u] == h;
      if MatchesDet(st.c, u) {
        var k :| 0 <= k < |st.c.matches| && st.c.matches[k].1 == u;
        MatchIsUnique(st.c, |s.lost|, |st.a.unmatchedDets|, k);
        assert plan.lostBy[st.c.matches[k].0] == Some(d);
      } else {
        assert u in st.c.unmatchedDets;
        var k :| 0 <= k < |st.c.unmatchedDets| && st.c.unmatchedDets[k] == u;
        assert plan.born[k] == d;
      }
    }
  }

  lemma PlanFitsStages(cfg: Config, s: TrackerState, dets: seq<Detection>, st: Stages)
    requires StagesFit(cfg, s, dets, st)
    ensures PlanFits(s, dets, PlanOf(cfg, s, dets, st))
  {
    var high, low := HighIdx(cfg, dets), LowIdx(cfg, dets);
    var plan := PlanOf(cfg, s, dets, st);
    forall i | 0 <= i < |plan.trackedBy| && plan.trackedBy[i].Some?
      ensures plan.trackedBy[i].value < |dets|
    {
      var f, k := TrackedWitness(st, high, low, |s.tracked|, i);
    }
    forall j | 0 <= j < |plan.lostBy| && plan.lostBy[j].Some?
      ensures plan.lostBy[j].value < |dets|
    {
      var k := LostWitness(st, high, |s.tracked|, |s.lost|, j);
    }
    forall k | 0 <= k < |plan.born| ensures plan.born[k] < |dets| {
      assert plan.born[k] in plan.born;
      BornUse(cfg, s, dets, st, plan.born[k]);
    }
  }

  // Whatever the three associations are, the plan they make uses each detection properly.
  lemma PlanIsSound(cfg: Config, s: TrackerState, dets: seq<Detection>, st: Stages)
    requires StagesFit(cfg, s, dets, st)
    ensures SoundPlan(cfg, s, dets, PlanOf(cfg, s, dets, st))
  {
    var high := HighIdx(cfg, dets);
    var plan := PlanOf(cfg, s, dets, st);
    PlanFitsStages(cfg, s, dets, st);
    BornAscending(st, high, |s.tracked|, |s.lost|);
    forall i, j | 0 <= i < j < |plan.trackedBy| && plan.trackedBy[i].Some? && plan.trackedBy[j].Some?
      ensures plan.trackedBy[i].value != plan.trackedBy[j].value
    {
      TrackedInjective(cfg, dets, st, |s.tracked|, i, j);
    }
    forall i, j | 0 <= i < j < |plan.lostBy| && plan.lostBy[i].Some? && plan.lostBy[j].Some?
      ensures plan.lostBy[i].value != plan.lostBy[j].value
    {
      LostInjective(st, high, |s.tracked|, |s.lost|, i, j);
    }
    forall d: nat | d < |dets|
      ensures !(Used(plan.trackedBy, d) && Used(plan.lostBy, d))
      ensures !(Used(plan.trackedBy, d) && d in plan.born)
      ensures !(Used(plan.lostBy, d) && d in plan.born)
      ensures cfg.High(dets[d]) ==> Used(plan.trackedBy, d) || Used(plan.lostBy, d) || d in plan.born
      ensures Used(plan.lostBy, d) || d in plan.born ==> cfg.High(dets[d])
      ensures Used(plan.trackedBy, d) ==> cfg.High(dets[d]) || cfg.LowBand(dets[d])
    {
      UsesExclude(cfg, s, dets, st, d);
      if Used(plan.trackedBy, d) { TrackedUse(cfg, s, dets, st, d); }
      if Used(plan.lostBy, d) { LostUse(cfg, s, dets, st, d); }
      if d in plan.born { BornUse(cfg, s, dets, st, d); }
      if cfg.High(dets[d]) { HighIsUsed(cfg, s, dets, st, d); }
    }
  }
}
