/**
 What one update makes of each single track: seen, missed or born; and that the tracks after it
 are these and no others.
 */
module Fates {
  import opened Wrappers
  import opened Boxes
  import opened Matching
  import opened Tracks

  // u is t a frame later, seen as detection d.
  ghost predicate SeenAs(t: Track, d: Detection, u: Track) {
    && u.id == t.id && u.latent == t.latent && u.crossingSeq == t.crossingSeq
    && u.box == d.box && u.score == d.score && u.centroid == d.box.Centroid()
    && u.mask == (if d.mask.Some? then d.mask else t.mask)
    && u.age == t.age + 1 && u.hits == t.hits + 1 && u.timeSinceUpdate == 0
    && u.history == t.history + [d.box.Centroid()]
    && u.phase == Confirmed
  }

  // u is t a frame later, not seen: it has drifted on, and nothing was learned about it.
  ghost predicate MissedAs(t: Track, prior: Point, u: Track) {
    && u.id == t.id && u.latent == t.latent && u.crossingSeq == t.crossingSeq
    && u.score == t.score && u.mask == t.mask && u.velocity == t.velocity
    && u.centroid == Point(t.centroid.x + t.Blended(prior).x, t.centroid.y + t.Blended(prior).y)
    && u.box.Centroid() == u.centroid
    && u.box.x2 - u.box.x1 == t.box.x2 - t.box.x1 && u.box.y2 - u.box.y1 == t.box.y2 - t.box.y1
    && u.age == t.age + 1 && u.hits == t.hits && u.timeSinceUpdate == t.timeSinceUpdate + 1
    && u.history == t.history
    && u.phase == Phase.Lost
  }

  // u starts as detection d.
  ghost predicate BornAs(id: nat, d: Detection, u: Track) {
    && u.id == id && u.latent == d.latent && u.crossingSeq == 0
    && u.box == d.box && u.score == d.score && u.mask == d.mask && u.centroid == d.box.Centroid()
    && u.velocity == Point(0.0, 0.0) && u.age == 1 && u.hits == 1 && u.timeSinceUpdate == 0
    && u.history == [d.box.Centroid()] && u.phase == Tentative
  }

  // The track sits on one of the detections, with its box, score and mask.
  ghost predicate SitsOn(u: Track, d: Detection) {
    u.box == d.box && u.score == d.score && (d.mask.Some? ==> u.mask == d.mask) && u.centroid == u.box.Centroid()
  }

  ghost predicate AllSitOn(us: seq<Track>, dets: seq<Detection>) {
    forall k | 0 <= k < |us| :: exists d | 0 <= d < |dets| :: SitsOn(us[k], dets[d])
  }

  // ------------------------------------------------------------------- list by list

  lemma PredictThenMeasure(t: Track, prior: Point, d: Detection)
    requires t.WellFormed() && t.phase != Deleted
    ensures SeenAs(t, d, t.Predict(prior).Measure(d))
  {
  }

  lemma PredictThenLose(t: Track, prior: Point)
    ensures MissedAs(t, prior, t.Predict(prior).MarkLost())
    ensures t.phase == Phase.Lost ==> MissedAs(t, prior, t.Predict(prior))
  {
  }

  lemma {:induction false} MeasuredHas(ts: seq<Track>, given: seq<Option<nat>>, dets: seq<Detection>, i: nat)
    requires |ts| == |given| && PointsInto(given, |dets|) && i < |ts| && given[i].Some?
    ensures ts[i].Measure(dets[given[i].value]) in Measured(ts, given, dets)
  {
    var k := |ts| - 1;
    if i < k {
      MeasuredHas(ts[..k], given[..k], dets, i);
    }
  }

  lemma {:induction false} MeasuredFrom(ts: seq<Track>, given: seq<Option<nat>>, dets: seq<Detection>, u: Track)
    returns (i: nat)
    requires |ts| == |given| && PointsInto(given, |dets|) && u in Measured(ts, given, dets)
    ensures i < |ts| && given[i].Some? && u == ts[i].Measure(dets[given[i].value])
  {
    var k := |ts| - 1;
    if u in Measured(ts[..k], given[..k], dets) {
      i := MeasuredFrom(ts[..k], given[..k], dets, u);
    } else {
      i := k;
    }
  }

  lemma {:induction false} UnassignedHas(ts: seq<Track>, given: seq<Option<nat>>, i: nat)
    requires |ts| == |given| && i < |ts| && given[i].None?
    ensures ts[i] in Unassigned(ts, given)
  {
    var k := |ts| - 1;
    if i < k {
      UnassignedHas(ts[..k], given[..k], i);
    }
  }

  lemma {:induction false} UnassignedFrom(ts: seq<Track>, given: seq<Option<nat>>, u: Track) returns (i: nat)
    requires |ts| == |given| && u in Unassigned(ts, given)
    ensures i < |ts| && given[i].None? && u == ts[i]
  {
    var k := |ts| - 1;
    if u in Unassigned(ts[..k], given[..k]) {
      i := UnassignedFrom(ts[..k], given[..k], u);
    } else {
      i := k;
    }
  }

  lemma {:induction false} PruneSplits(ts: seq<Track>, limit: int, u: Track)
    ensures u in Within(ts, limit) <==> u in ts && u.timeSinceUpdate <= limit
    ensures u in Overdue(ts, limit) <==> u in ts && u.timeSinceUpdate > limit
  {
    if ts != [] {
      var k := |ts| - 1;
      assert ts == ts[..k] + [ts[k]];
      PruneSplits(ts[..k], limit, u);
    }
  }

  // -------------------------------------------------------------- what becomes of a track

  // A missed track stays lost while its time lasts, and is pruned for good after that.
  ghost predicate Waits(u: Track, s': TrackerState, limit: int) {
    if u.timeSinceUpdate <= limit then u in s'.lost else u in s'.pruned
  }

  ghost predicate Fate(cfg: Config, s': TrackerState, dets: seq<Detection>, prior: Point, t: Track, given: Option<nat>)
    requires given.Some? ==> given.value < |dets|
  {
    if given.Some? then exists u | u in s'.tracked :: SeenAs(t, dets[given.value], u)
    else exists u :: MissedAs(t, prior, u) && Waits(u, s', cfg.maxTimeLost)
  }

  lemma TrackedFate(cfg: Config, s: TrackerState, dets: seq<Detection>, prior: Point, plan: Plan, i: nat)
    requires Inv(s) && PlanFits(s, dets, plan) && i < |s.tracked|
    ensures Fate(cfg, Step(cfg, s, dets, prior, plan), dets, prior, s.tracked[i], plan.trackedBy[i])
  {
    var pt, t := PredictAll(s.tracked, prior), s.tracked[i];
    if plan.trackedBy[i].Some? {
      var d := dets[plan.trackedBy[i].value];
      PredictThenMeasure(t, prior, d);
      MeasuredHas(pt, plan.trackedBy, dets, i);
      assert pt[i].Measure(d) in Step(cfg, s, dets, prior, plan).tracked;
    } else {
      var dropped := Unassigned(pt, plan.trackedBy);
      PredictThenLose(t, prior);
      UnassignedHas(pt, plan.trackedBy, i);
      var k :| 0 <= k < |dropped| && dropped[k] == pt[i];
      var u := pt[i].MarkLost();
      assert MarkAllLost(dropped)[k] == u;
      MissedWaits(cfg, s, dets, prior, plan, u);
    }
  }

  lemma MissedWaits(cfg: Config, s: TrackerState, dets: seq<Detection>, prior: Point, plan: Plan, u: Track)
    requires PlanFits(s, dets, plan)
    requires u in MarkAllLost(Unassigned(PredictAll(s.tracked, prior), plan.trackedBy))
          || u in Unassigned(PredictAll(s.lost, prior), plan.lostBy)
    ensures Waits(u, Step(cfg, s, dets, prior, plan), cfg.maxTimeLost)
  {
    var candidates := Unassigned(PredictAll(s.lost, prior), plan.lostBy)
                      + MarkAllLost(Unassigned(PredictAll(s.tracked, prior), plan.trackedBy));
    assert u in candidates;
    PruneSplits(candidates, cfg.maxTimeLost, u);
  }

  lemma LostFate(cfg: Config, s: TrackerState, dets: seq<Detection>, prior: Point, plan: Plan, j: nat)
    requires Inv(s) && PlanFits(s, dets, plan) && j < |s.lost|
    ensures Fate(cfg, Step(cfg, s, dets, prior, plan), dets, prior, s.lost[j], plan.lostBy[j])
  {
    var pl, t := PredictAll(s.lost, prior), s.lost[j];
    if plan.lostBy[j].Some? {
      var d := dets[plan.lostBy[j].value];
      PredictThenMeasure(t, prior, d);
      MeasuredHas(pl, plan.lostBy, dets, j);
      assert pl[j].Measure(d) in Step(cfg, s, dets, prior, plan).tracked;
    } else {
      PredictThenLose(t, prior);
      UnassignedHas(pl, plan.lostBy, j);
      MissedWaits(cfg, s, dets, prior, plan, pl[j]);
    }
  }

  lemma BirthFate(cfg: Config, s: TrackerState, dets: seq<Detection>, prior: Point, plan: Plan, k: nat)
    requires PlanFits(s, dets, plan) && k < |plan.born|
    ensures exists u | u in Step(cfg, s, dets, prior, plan).tracked :: BornAs(s.count + k + 1, dets[plan.born[k]], u)
  {
    var births := Births(s.count, plan.born, dets);
    assert BornAs(s.count + k + 1, dets[plan.born[k]], births[k]);
    assert births[k] in Step(cfg, s, dets, prior, plan).tracked;
  }

  // One update: every tracked and lost track meets the fate its detection, or its lack of one,
  // decides; every leftover detection starts a track under the next number; nothing comes
  // back from the pruned.
  lemma StepFates(cfg: Config, s: TrackerState, dets: seq<Detection>, prior: Point, plan: Plan)
    requires Inv(s) && PlanFits(s, dets, plan)
    ensures var s' := Step(cfg, s, dets, prior, plan);
            && (forall i | 0 <= i < |s.tracked| :: Fate(cfg, s', dets, prior, s.tracked[i], plan.trackedBy[i]))
            && (forall j | 0 <= j < |s.lost| :: Fate(cfg, s', dets, prior, s.lost[j], plan.lostBy[j]))
            && (forall k | 0 <= k < |plan.born| ::
                  exists u | u in s'.tracked :: BornAs(s.count + k + 1, dets[plan.born[k]], u))
            && s.pruned <= s'.pruned && s'.frames == s.frames + 1
  {
    forall i | 0 <= i < |s.tracked|
      ensures Fate(cfg, Step(cfg, s, dets, prior, plan), dets, prior, s.tracked[i], plan.trackedBy[i])
    {
      TrackedFate(cfg, s, dets, prior, plan, i);
    }
    forall j | 0 <= j < |s.lost|
      ensures Fate(cfg, Step(cfg, s, dets, prior, plan), dets, prior, s.lost[j], plan.lostBy[j])
    {
      LostFate(cfg, s, dets, prior, plan, j);
    }
    forall k | 0 <= k < |plan.born|
      ensures exists u | u in Step(cfg, s, dets, prior, plan).tracked :: BornAs(s.count + k + 1, dets[plan.born[k]], u)
    {
      BirthFate(cfg, s, dets, prior, plan, k);
    }
  }

  // ------------------------------------------------------------- and no other tracks

  lemma SitsOnMeasured(t: Track, d: Detection)
    ensures SitsOn(t.Measure(d), d)
  {
  }

  // Every track tracked after an update sits on a detection of that frame.
  lemma TrackedSitOnDetections(cfg: Config, s: TrackerState, dets: seq<Detection>, prior: Point, plan: Plan)
    requires PlanFits(s, dets, plan)
    ensures AllSitOn(Step(cfg, s, dets, prior, plan).tracked, dets)
  {
    var pt, pl := PredictAll(s.tracked, prior), PredictAll(s.lost, prior);
    var mt, ml := Measured(pt, plan.trackedBy, dets), Measured(pl, plan.lostBy, dets);
    var born := Births(s.count, plan.born, dets);
    var us := Step(cfg, s, dets, prior, plan).tracked;
    forall k | 0 <= k < |us| ensures exists d | 0 <= d < |dets| :: SitsOn(us[k], dets[d]) {
      if us[k] in mt {
        var i := MeasuredFrom(pt, plan.trackedBy, dets, us[k]);
        SitsOnMeasured(pt[i], dets[plan.trackedBy[i].value]);
      } else if us[k] in ml {
        var j := MeasuredFrom(pl, plan.lostBy, dets, us[k]);
        SitsOnMeasured(pl[j], dets[plan.lostBy[j].value]);
      } else {
        assert us[k] in born;
        var b :| 0 <= b < |born| && born[b] == us[k];
        assert SitsOn(us[k], dets[plan.born[b]]);
      }
    }
  }

  // ------------------------------------------------------------------- changes of identity

  // The detection overlaps where a track that was missed in this update was expected.
  ghost predicate TakesOver(s: TrackerState, prior: Point, given: seq<Option<nat>>, d: Detection)
    requires |given| == |s.tracked|
  {
    exists i | 0 <= i < |s.tracked| && given[i].None? ::
      BoxIou(d.box, s.tracked[i].Predict(prior).box) > ID_SWITCH_IOU_THRESHOLD
  }

  lemma LandsOnTakesOver(s: TrackerState, prior: Point, given: seq<Option<nat>>, d: Detection)
    requires |given| == |s.tracked|
    ensures LandsOn(d, Unassigned(PredictAll(s.tracked, prior), given)) <==> TakesOver(s, prior, given, d)
  {
    var pt := PredictAll(s.tracked, prior);
    var dropped := Unassigned(pt, given);
    if k :| 0 <= k < |dropped| && BoxIou(d.box, dropped[k].box) > ID_SWITCH_IOU_THRESHOLD {
      var i := UnassignedFrom(pt, given, dropped[k]);
    }
    if i :| 0 <= i < |s.tracked| && given[i].None?
            && BoxIou(d.box, s.tracked[i].Predict(prior).box) > ID_SWITCH_IOU_THRESHOLD {
      UnassignedHas(pt, given, i);
      var k :| 0 <= k < |dropped| && dropped[k] == pt[i];
    }
  }

  ghost function Landing(born: seq<nat>, dets: seq<Detection>, lost: seq<Track>): set<nat>
    requires InRange(born, |dets|)
  {
    set k: nat | k < |born| && LandsOn(dets[born[k]], lost)
  }

  lemma {:induction false} SwitchesCountLandings(born: seq<nat>, dets: seq<Detection>, lost: seq<Track>)
    requires InRange(born, |dets|)
    ensures Switches(born, dets, lost) == |Landing(born, dets, lost)|
  {
    if born == [] {
      assert Landing(born, dets, lost) == {};
    } else {
      var k := |born| - 1;
      SwitchesCountLandings(born[..k], dets, lost);
      var before := Landing(born[..k], dets, lost);
      assert Landing(born, dets, lost) == before + if LandsOn(dets[born[k]], lost) then {k} else {};
    }
  }

  // The update counts one change of identity for every new track that takes over from a missed one.
  lemma SwitchesAreTakeovers(cfg: Config, s: TrackerState, dets: seq<Detection>, prior: Point, plan: Plan)
    requires PlanFits(s, dets, plan)
    ensures Step(cfg, s, dets, prior, plan).idSwitches
         == s.idSwitches + |set k: nat | k < |plan.born| && TakesOver(s, prior, plan.trackedBy, dets[plan.born[k]])|
  {
    var dropped := Unassigned(PredictAll(s.tracked, prior), plan.trackedBy);
    SwitchesCountLandings(plan.born, dets, dropped);
    forall k: nat | k < |plan.born|
      ensures LandsOn(dets[plan.born[k]], dropped) <==> TakesOver(s, prior, plan.trackedBy, dets[plan.born[k]])
    {
      LandsOnTakesOver(s, prior, plan.trackedBy, dets[plan.born[k]]);
    }
    assert Landing(plan.born, dets, dropped)
        == set k: nat | k < |plan.born| && TakesOver(s, prior, plan.trackedBy, dets[plan.born[k]]);
  }
}
