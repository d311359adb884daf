/**
 What the plan of an update says about costs: nothing is joined beyond the threshold, and
 nothing within it is left apart.
 */
module PlanCosts {
  import opened Wrappers
  import opened Boxes
  import opened Matching
  import opened Tracks
  import opened Plans

  // What it costs to take the predicted track for the detection.
  function CostOf(cfg: Config, t: Track, prior: Point, d: Detection): real {
    PairCost(cfg.metric, cfg.weights, t.Predict(prior).View(), d)
  }

  // One pass by what it joins and what it leaves.
  lemma PassCosts(cfg: Config, ts: seq<Feature>, dets: seq<Detection>, a: Association)
    requires PassFor(cfg, ts, dets, a)
    ensures forall k | 0 <= k < |a.matches| ::
              PairCost(cfg.metric, cfg.weights, ts[a.matches[k].0], dets[a.matches[k].1]) <= cfg.costThreshold
    ensures forall i, j | 0 <= i < |ts| && 0 <= j < |dets| && i in a.unmatchedTracks && j in a.unmatchedDets ::
              PairCost(cfg.metric, cfg.weights, ts[i], dets[j]) > cfg.costThreshold
  {
    var cost :| IsCostMatrix(cfg.metric, cfg.weights, ts, dets, cost)
                && Stable(a, cost, |ts|, |dets|, cfg.costThreshold);
    forall i, j | 0 <= i < |ts| && 0 <= j < |dets| && i in a.unmatchedTracks && j in a.unmatchedDets
      ensures PairCost(cfg.metric, cfg.weights, ts[i], dets[j]) > cfg.costThreshold
    {
      NoLeftoverPair(a, cost, |ts|, |dets|, cfg.costThreshold, i, j);
    }
  }

  // A tracked track only ever gets a detection within the threshold.
  lemma TrackedWithinThreshold(cfg: Config, s: TrackerState, dets: seq<Detection>, prior: Point, st: Stages, i: nat)
    requires PassesFor(cfg, s, dets, prior, st) && StagesFit(cfg, s, dets, st) && i < |s.tracked|
    requires PlanFits(s, dets, PlanOf(cfg, s, dets, st)) && PlanOf(cfg, s, dets, st).trackedBy[i].Some?
    ensures CostOf(cfg, s.tracked[i], prior, dets[PlanOf(cfg, s, dets, st).trackedBy[i].value]) <= cfg.costThreshold
  {
    var hi, lo := HighIdx(cfg, dets), LowIdx(cfg, dets);
    var pt := PredictAll(s.tracked, prior);
    var first, k := TrackedWitness(st, hi, lo, |s.tracked|, i);
    if first {
      PassCosts(cfg, Features(pt), Pick(dets, hi), st.a);
      assert Features(pt)[i] == s.tracked[i].Predict(prior).View();
    } else {
      var rest := Pick(pt, st.a.unmatchedTracks);
      PassCosts(cfg, Features(rest), Pick(dets, lo), st.b);
      assert Features(rest)[st.b.matches[k].0] == s.tracked[i].Predict(prior).View();
    }
  }

  // Nor does a lost one.
  lemma LostWithinThreshold(cfg: Config, s: TrackerState, dets: seq<Detection>, prior: Point, st: Stages, j: nat)
    requires PassesFor(cfg, s, dets, prior, st) && StagesFit(cfg, s, dets, st) && j < |s.lost|
    requires PlanFits(s, dets, PlanOf(cfg, s, dets, st)) && PlanOf(cfg, s, dets, st).lostBy[j].Some?
    ensures CostOf(cfg, s.lost[j], prior, dets[PlanOf(cfg, s, dets, st).lostBy[j].value]) <= cfg.costThreshold
  {
    var hi, pl := HighIdx(cfg, dets), PredictAll(s.lost, prior);
    var k := LostWitness(st, hi, |s.tracked|, |s.lost|, j);
    PassCosts(cfg, Features(pl), Pick(Pick(dets, hi), st.a.unmatchedDets), st.c);
    assert Features(pl)[j] == s.lost[j].Predict(prior).View();
  }

  // ------------------------------------------------------------------ what is left apart

  // Two leftovers of one pass are beyond the threshold of one another.
  lemma LeftApart(cfg: Config, ts: seq<Feature>, dets: seq<Detection>, a: Association, i: nat, j: nat, t: Feature, d: Detection)
    requires PassFor(cfg, ts, dets, a) && i in a.unmatchedTracks && j in a.unmatchedDets
    requires i < |ts| && j < |dets| && ts[i] == t && dets[j] == d
    ensures PairCost(cfg.metric, cfg.weights, t, d) > cfg.costThreshold
  {
    PassCosts(cfg, ts, dets, a);
  }

  // What the first pass matched is what the plan says.
  lemma FirstMatch(cfg: Config, s: TrackerState, dets: seq<Detection>, st: Stages, k: nat)
    requires StagesFit(cfg, s, dets, st) && k < |st.a.matches|
    ensures var d := HighIdx(cfg, dets)[st.a.matches[k].1];
            d < |dets| && cfg.High(dets[d]) && PlanOf(cfg, s, dets, st).trackedBy[st.a.matches[k].0] == Some(d)
  {
    var hi := HighIdx(cfg, dets);
    MatchIsUnique(st.a, |s.tracked|, |hi|, k);
    assert hi[st.a.matches[k].1] in hi;
  }

  lemma SecondMatch(cfg: Config, s: TrackerState, dets: seq<Detection>, st: Stages, k: nat)
    requires StagesFit(cfg, s, dets, st) && k < |st.b.matches|
    ensures var i := st.a.unmatchedTracks[st.b.matches[k].0];
            i < |s.tracked|
            && PlanOf(cfg, s, dets, st).trackedBy[i] == Some(LowIdx(cfg, dets)[st.b.matches[k].1])
  {
    var rest := st.a.unmatchedTracks;
    var i := rest[st.b.matches[k].0];
    assert i in rest;
    MatchIsUnique(st.b, |rest|, |LowIdx(cfg, dets)|, k);
    SamePlace(rest, Position(rest, i), st.b.matches[k].0);
  }

  // A track that goes without a high-score detection.
  predicate WithoutHigh(cfg: Config, dets: seq<Detection>, given: Option<nat>) {
    given.None? || (given.value < |dets| && dets[given.value].score < cfg.high)
  }

  // A track without a high-score detection was left over by the first pass.
  lemma LeftByFirst(cfg: Config, s: TrackerState, dets: seq<Detection>, st: Stages, i: nat)
    requires StagesFit(cfg, s, dets, st) && i < |s.tracked|
    requires WithoutHigh(cfg, dets, PlanOf(cfg, s, dets, st).trackedBy[i])
    ensures i in st.a.unmatchedTracks
  {
    if k :| 0 <= k < |st.a.matches| && st.a.matches[k].0 == i {
      FirstMatch(cfg, s, dets, st, k);
    }
  }

  // A high-score detection no tracked track got was left over by it, too.
  lemma DetLeftByFirst(cfg: Config, s: TrackerState, dets: seq<Detection>, st: Stages, d: nat) returns (h: nat)
    requires StagesFit(cfg, s, dets, st) && d < |dets| && cfg.High(dets[d])
    requires !Used(PlanOf(cfg, s, dets, st).trackedBy, d)
    ensures h < |HighIdx(cfg, dets)| && HighIdx(cfg, dets)[h] == d && h in st.a.unmatchedDets
  {
    var hi := HighIdx(cfg, dets);
    assert d in hi;
    h :| 0 <= h < |hi| && hi[h] == d;
    if k :| 0 <= k < |st.a.matches| && st.a.matches[k].1 == h {
      FirstMatch(cfg, s, dets, st, k);
    }
  }

  lemma LeftBySecond(cfg: Config, s: TrackerState, dets: seq<Detection>, st: Stages, i: nat) returns (q: nat)
    requires StagesFit(cfg, s, dets, st) && i < |s.tracked| && i in st.a.unmatchedTracks
    requires PlanOf(cfg, s, dets, st).trackedBy[i].None?
    ensures q < |st.a.unmatchedTracks| && st.a.unmatchedTracks[q] == i && q in st.b.unmatchedTracks
  {
    q := Position(st.a.unmatchedTracks, i);
  }

  lemma DetLeftBySecond(cfg: Config, s: TrackerState, dets: seq<Detection>, st: Stages, d: nat) returns (l: nat)
    requires StagesFit(cfg, s, dets, st) && d < |dets| && cfg.LowBand(dets[d])
    requires !Used(PlanOf(cfg, s, dets, st).trackedBy, d)
    ensures l < |LowIdx(cfg, dets)| && LowIdx(cfg, dets)[l] == d && l in st.b.unmatchedDets
  {
    var lo := LowIdx(cfg, dets);
    assert d in lo;
    l :| 0 <= l < |lo| && lo[l] == d;
    if k :| 0 <= k < |st.b.matches| && st.b.matches[k].1 == l {
      SecondMatch(cfg, s, dets, st, k);
    }
  }

  // A tracked track without a high-score detection could have had none of those that resurrected
  // a lost track or started a new one.
  lemma HighBeyondThreshold(cfg: Config, s: TrackerState, dets: seq<Detection>, prior: Point, st: Stages, i: nat, d: nat)
    requires PassesFor(cfg, s, dets, prior, st) && StagesFit(cfg, s, dets, st) && i < |s.tracked| && d < |dets|
    requires WithoutHigh(cfg, dets, PlanOf(cfg, s, dets, st).trackedBy[i])
    requires cfg.High(dets[d]) && !Used(PlanOf(cfg, s, dets, st).trackedBy, d)
    ensures CostOf(cfg, s.tracked[i], prior, dets[d]) > cfg.costThreshold
  {
    LeftByFirst(cfg, s, dets, st, i);
    var h := DetLeftByFirst(cfg, s, dets, st, d);
    LeftApart(cfg, Features(PredictAll(s.tracked, prior)), Pick(dets, HighIdx(cfg, dets)), st.a, i, h,
              s.tracked[i].Predict(prior).View(), dets[d]);
  }

  // One that got nothing could not have had a low-score one that stayed unused either.
  lemma LowBeyondThreshold(cfg: Config, s: TrackerState, dets: seq<Detection>, prior: Point, st: Stages, i: nat, d: nat)
    requires PassesFor(cfg, s, dets, prior, st) && StagesFit(cfg, s, dets, st) && i < |s.tracked| && d < |dets|
    requires PlanOf(cfg, s, dets, st).trackedBy[i].None?
    requires cfg.LowBand(dets[d]) && !Used(PlanOf(cfg, s, dets, st).trackedBy, d)
    ensures CostOf(cfg, s.tracked[i], prior, dets[d]) > cfg.costThreshold
  {
    LeftByFirst(cfg, s, dets, st, i);
    var q := LeftBySecond(cfg, s, dets, st, i);
    var l := DetLeftBySecond(cfg, s, dets, st, d);
    var rest := Pick(PredictAll(s.tracked, prior), st.a.unmatchedTracks);
    LeftApart(cfg, Features(rest), Pick(dets, LowIdx(cfg, dets)), st.b, q, l,
              s.tracked[i].Predict(prior).View(), dets[d]);
  }

  lemma LostLeft(cfg: Config, s: TrackerState, dets: seq<Detection>, st: Stages, j: nat, d: nat) returns (u: nat)
    requires StagesFit(cfg, s, dets, st) && j < |s.lost|
    requires PlanOf(cfg, s, dets, st).lostBy[j].None? && d in PlanOf(cfg, s, dets, st).born
    ensures d < |dets| && j in st.c.unmatchedTracks && u in st.c.unmatchedDets && u < |st.a.unmatchedDets|
    ensures st.a.unmatchedDets[u] < |HighIdx(cfg, dets)| && HighIdx(cfg, dets)[st.a.unmatchedDets[u]] == d
  {
    var born := PlanOf(cfg, s, dets, st).born;
    var k :| 0 <= k < |born| && born[k] == d;
    u := st.c.unmatchedDets[k];
    BornUse(cfg, s, dets, st, d);
    assert u in st.c.unmatchedDets;
    assert st.a.unmatchedDets[u] in st.a.unmatchedDets;
  }

  // No detection starts a track that a lost track could have had within the threshold.
  lemma BirthBeyondThreshold(cfg: Config, s: TrackerState, dets: seq<Detection>, prior: Point, st: Stages, j: nat, d: nat)
    requires PassesFor(cfg, s, dets, prior, st) && StagesFit(cfg, s, dets, st) && j < |s.lost|
    requires PlanOf(cfg, s, dets, st).lostBy[j].None? && d in PlanOf(cfg, s, dets, st).born
    ensures d < |dets| && CostOf(cfg, s.lost[j], prior, dets[d]) > cfg.costThreshold
  {
    var u := LostLeft(cfg, s, dets, st, j, d);
    LeftApart(cfg, Features(PredictAll(s.lost, prior)), Pick(Pick(dets, HighIdx(cfg, dets)), st.a.unmatchedDets), st.c, j, u,
              s.lost[j].Predict(prior).View(), dets[d]);
  }

  // THE PLAN, in terms of costs: what is joined is within the threshold, and whoever goes without is
  // beyond the threshold of everything that went elsewhere or nowhere.
  lemma PlanByCosts(cfg: Config, s: TrackerState, dets: seq<Detection>, prior: Point, st: Stages)
    requires PassesFor(cfg, s, dets, prior, st) && StagesFit(cfg, s, dets, st)
    ensures var plan := PlanOf(cfg, s, dets, st);
            && PlanFits(s, dets, plan)
            && (forall i | 0 <= i < |s.tracked| && plan.trackedBy[i].Some? ::
                  CostOf(cfg, s.tracked[i], prior, dets[plan.trackedBy[i].value]) <= cfg.costThreshold)
            && (forall j | 0 <= j < |s.lost| && plan.lostBy[j].Some? ::
                  CostOf(cfg, s.lost[j], prior, dets[plan.lostBy[j].value]) <= cfg.costThreshold)
            && (forall i, d | 0 <= i < |s.tracked| && 0 <= d < |dets| && !Used(plan.trackedBy, d)
                              && (if dets[d].score >= cfg.high then WithoutHigh(cfg, dets, plan.trackedBy[i])
                                  else dets[d].score >= cfg.low && plan.trackedBy[i].None?) ::
                  CostOf(cfg, s.tracked[i], prior, dets[d]) > cfg.costThreshold)
            && (forall j, d | 0 <= j < |s.lost| && 0 <= d < |dets| && plan.lostBy[j].None? && d in plan.born ::
                  CostOf(cfg, s.lost[j], prior, dets[d]) > cfg.costThreshold)
  {
    var plan := PlanOf(cfg, s, dets, st);
    PlanFitsStages(cfg, s, dets, st);
    forall i | 0 <= i < |s.tracked| && plan.trackedBy[i].Some?
      ensures CostOf(cfg, s.tracked[i], prior, dets[plan.trackedBy[i].value]) <= cfg.costThreshold
    {
      TrackedWithinThreshold(cfg, s, dets, prior, st, i);
    }
    forall j | 0 <= j < |s.lost| && plan.lostBy[j].Some?
      ensures CostOf(cfg, s.lost[j], prior, dets[plan.lostBy[j].value]) <= cfg.costThreshold
    {
      LostWithinThreshold(cfg, s, dets, prior, st, j);
    }
    forall i, d | 0 <= i < |s.tracked| && 0 <= d < |dets| && !Used(plan.trackedBy, d)
                  && (if dets[d].score >= cfg.high then WithoutHigh(cfg, dets, plan.trackedBy[i])
                      else dets[d].score >= cfg.low && plan.trackedBy[i].None?)
      ensures CostOf(cfg, s.tracked[i], prior, dets[d]) > cfg.costThreshold
    {
      if cfg.High(dets[d]) {
        HighBeyondThreshold(cfg, s, dets, prior, st, i, d);
      } else {
        LowBeyondThreshold(cfg, s, dets, prior, st, i, d);
      }
    }
    forall j, d | 0 <= j < |s.lost| && 0 <= d < |dets| && plan.lostBy[j].None? && d in plan.born
      ensures CostOf(cfg, s.lost[j], prior, dets[d]) > cfg.costThreshold
    {
      BirthBeyondThreshold(cfg, s, dets, prior, st, j, d);
    }
  }

  // Which detections can do what, by their scores.
  lemma ScoresDecideUses(cfg: Config, s: TrackerState, dets: seq<Detection>, st: Stages, d: nat)
    requires StagesFit(cfg, s, dets, st) && d < |dets|
    ensures var plan := PlanOf(cfg, s, dets, st);
            && (dets[d].score >= cfg.high ==> Used(plan.trackedBy, d) || Used(plan.lostBy, d) || d in plan.born)
            && (Used(plan.lostBy, d) || d in plan.born ==> dets[d].score >= cfg.high)
            && (Used(plan.trackedBy, d) ==> dets[d].score >= cfg.low || dets[d].score >= cfg.high)
  {
    PlanIsSound(cfg, s, dets, st);
  }
}
