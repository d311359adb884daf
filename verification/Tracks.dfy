/**
 Tracks as values, one tracker step as a function of an association plan, and
 what every step keeps. The classes in Tracker.dfy are proved against this.
 */
module Tracks {
  import opened Wrappers
  import opened Boxes
  import opened Matching

  datatype Phase = Tentative | Confirmed | Lost | Deleted

  const ID_SWITCH_IOU_THRESHOLD: real := 0.3
  const PRIOR_DEADBAND: real := 0.01

  function Abs(a: real): real { if a < 0.0 then -a else a }

  predicate BeltMoves(prior: Point) { Abs(prior.x) > PRIOR_DEADBAND || Abs(prior.y) > PRIOR_DEADBAND }

  datatype Track = Track(
    id: nat, box: Box, score: real, mask: Option<Mask>, latent: bool,
    centroid: Point, velocity: Point, phase: Phase,
    age: nat, hits: nat, timeSinceUpdate: nat, history: seq<Point>, crossingSeq: nat)
  {
    function View(): Feature { Feature(box, centroid, mask) }

    // The velocity used for prediction: blended with the belt prior unless the belt stands still.
    function Blended(prior: Point): Point {
      if BeltMoves(prior)
      then Point(0.5 * velocity.x + 0.5 * prior.x, 0.5 * velocity.y + 0.5 * prior.y)
      else velocity
    }

    function Predict(prior: Point): Track {
      var v := Blended(prior);
      var cx, cy := centroid.x + v.x, centroid.y + v.y;
      var w, h := box.x2 - box.x1, box.y2 - box.y1;
      this.(age := age + 1, timeSinceUpdate := timeSinceUpdate + 1,
            centroid := Point(cx, cy),
            box := Box(cx - w / 2.0, cy - h / 2.0, cx + w / 2.0, cy + h / 2.0))
    }

    function Measure(d: Detection): Track {
      var c := d.box.Centroid();
      this.(velocity := Point(0.7 * (c.x - centroid.x) + 0.3 * velocity.x,
                              0.7 * (c.y - centroid.y) + 0.3 * velocity.y),
            centroid := c, box := d.box, score := d.score,
            mask := if d.mask.Some? then d.mask else mask,
            hits := hits + 1, timeSinceUpdate := 0, history := history + [c],
            phase := if (phase == Tentative && hits + 1 >= 2) || phase == Phase.Lost then Confirmed else phase)
    }

    function MarkLost(): Track { this.(phase := Phase.Lost) }

    predicate Active() { phase == Tentative || phase == Confirmed }

    // Every measurement adds one hit and one history entry; every frame adds one to the age.
    predicate WellFormed() {
      |history| >= 1 && hits == |history| && age >= hits + timeSinceUpdate
    }

    function LastMeasured(): Point requires WellFormed() { history[|history| - 1] }
  }

  function NewTrack(id: nat, d: Detection): Track {
    Track(id, d.box, d.score, d.mask, d.latent, d.box.Centroid(), Point(0.0, 0.0), Tentative,
          1, 1, 0, [d.box.Centroid()], 0)
  }

  // -------------------------------------------------------------- motion

  // Prediction moves box and centroid together and keeps the box's size and the past.
  lemma PredictMovesRigidly(t: Track, prior: Point)
    ensures var p := t.Predict(prior);
            && p.box.Centroid() == p.centroid
            && p.box.x2 - p.box.x1 == t.box.x2 - t.box.x1 && p.box.y2 - p.box.y1 == t.box.y2 - t.box.y1
            && p.centroid.x - t.centroid.x == t.Blended(prior).x && p.centroid.y - t.centroid.y == t.Blended(prior).y
            && p.history == t.history && p.hits == t.hits && p.phase == t.phase && p.velocity == t.velocity
  {
  }

  // A belt that moves more than the dead band along either axis pulls the prediction half way to its
  // own velocity, along both; a slower one leaves the track's own.
  lemma BlendsHalfWay(t: Track, prior: Point)
    ensures var v := t.Blended(prior);
            if -0.01 <= prior.x <= 0.01 && -0.01 <= prior.y <= 0.01 then v == t.velocity
            else v.x - t.velocity.x == prior.x - v.x && v.y - t.velocity.y == prior.y - v.y
  {
  }

  // A frame: predict, then measure.
  function Steady(t: Track, prior: Point, d: Detection): Track { t.Predict(prior).Measure(d) }

  // Frame after frame, each with its detection.
  function Follow(t: Track, prior: Point, ds: seq<Detection>): Track {
    if ds == [] then t else Steady(Follow(t, prior, ds[..|ds| - 1]), prior, ds[|ds| - 1])
  }

  function LastPlace(from: Point, ds: seq<Detection>): Point {
    if ds == [] then from else ds[|ds| - 1].box.Centroid()
  }

  // Every detection is displaced by m from the one before.
  ghost predicate MovesBy(from: Point, ds: seq<Detection>, m: Point) {
    ds == [] ||
    var init := ds[..|ds| - 1];
    var last := LastPlace(from, init);
    MovesBy(from, init, m) && LastPlace(from, ds) == Point(last.x + m.x, last.y + m.y)
  }

  // Where the velocity of a track moving by m per frame settles, and the factor by which
  // its distance from there shrinks.
  function Settled(prior: Point, m: Point): Point {
    if BeltMoves(prior) then Point((2.0 * m.x - prior.x) / 3.0, (2.0 * m.y - prior.y) / 3.0)
    else Point(m.x / 2.0, m.y / 2.0)
  }

  function Shrink(prior: Point): real { if BeltMoves(prior) then -0.05 else -0.4 }

  // f to the n-th power times e.
  function Scaled(f: real, n: nat, e: real): real { if n == 0 then e else f * Scaled(f, n - 1, e) }

  function ErrorX(t: Track, prior: Point, m: Point): real { t.velocity.x - Settled(prior, m).x }

  function ErrorY(t: Track, prior: Point, m: Point): real { t.velocity.y - Settled(prior, m).y }

  // The new velocity is taken from the distance to the predicted position, not to the last
  // one. One frame of steady motion therefore moves it towards Settled, not towards m.
  lemma VelocityStep(t: Track, prior: Point, m: Point, d: Detection)
    requires d.box.Centroid() == Point(t.centroid.x + m.x, t.centroid.y + m.y)
    ensures var u := Steady(t, prior, d);
            && ErrorX(u, prior, m) == Shrink(prior) * ErrorX(t, prior, m)
            && ErrorY(u, prior, m) == Shrink(prior) * ErrorY(t, prior, m)
            && (u.velocity == t.velocity <==> t.velocity == Settled(prior, m))
  {
    var u, v := Steady(t, prior, d), t.Blended(prior);
    assert u.velocity.x == 0.7 * (m.x - v.x) + 0.3 * t.velocity.x;
    assert u.velocity.y == 0.7 * (m.y - v.y) + 0.3 * t.velocity.y;
  }

  // The estimate settles at the true velocity only for a track at rest without a belt prior,
  // or with one for a track moving against it; a track moving with the belt gets a third.
  lemma TrueVelocityStaysExactly(prior: Point, m: Point)
    ensures Settled(prior, m) == m <==> if BeltMoves(prior) then prior == Point(-m.x, -m.y) else m == Point(0.0, 0.0)
    ensures BeltMoves(prior) && prior == m ==> Settled(prior, m) == Point(m.x / 3.0, m.y / 3.0)
  {
  }

  lemma FollowEndsAt(t: Track, prior: Point, ds: seq<Detection>)
    ensures Follow(t, prior, ds).centroid == LastPlace(t.centroid, ds)
  {
  }

  // A whole run of steady motion: the error after n frames is the n-th power of the factor
  // times the first error.
  lemma {:induction false} VelocitySettles(t: Track, prior: Point, m: Point, ds: seq<Detection>)
    requires MovesBy(t.centroid, ds, m)
    ensures var u := Follow(t, prior, ds);
            && ErrorX(u, prior, m) == Scaled(Shrink(prior), |ds|, ErrorX(t, prior, m))
            && ErrorY(u, prior, m) == Scaled(Shrink(prior), |ds|, ErrorY(t, prior, m))
  {
    if ds != [] {
      FollowEndsAt(t, prior, ds[..|ds| - 1]);
      VelocitySettles(t, prior, m, ds[..|ds| - 1]);
      VelocityStep(Follow(t, prior, ds[..|ds| - 1]), prior, m, ds[|ds| - 1]);
    }
  }

  // An error scaled n times is at most an (n + 1)-th of itself.
  lemma {:induction false} ScaledIsSmall(f: real, n: nat, e: real)
    requires f == -0.05 || f == -0.4
    ensures (n as real + 1.0) * Abs(Scaled(f, n, e)) <= Abs(e)
  {
    if n > 0 {
      ScaledIsSmall(f, n - 1, e);
      ScaledOnce(f, n as real, Scaled(f, n - 1, e));
    }
  }

  lemma ScaledOnce(f: real, k: real, e: real)
    requires (f == -0.05 || f == -0.4) && k >= 1.0
    ensures (k + 1.0) * Abs(f * e) <= k * Abs(e)
  {
    var p := k * Abs(e);
    assert Abs(f * e) == -f * Abs(e);
    assert p >= Abs(e);
    assert k * (0.4 * Abs(e)) == 0.4 * p && k * (0.05 * Abs(e)) == 0.05 * p;
  }

  // Enough frames to bring an error within the margin.
  function FramesFor(e: real, margin: real): (n: int)
    requires margin > 0.0
    ensures n as real * margin >= Abs(e)
  {
    var q := Abs(e) / margin;
    TimesQuotient(q, (q.Floor + 1) as real, Abs(e), margin);
    q.Floor + 1
  }

  lemma TimesQuotient(q: real, n: real, e: real, margin: real)
    requires margin > 0.0 && q == e / margin && n >= q
    ensures n * margin >= e
  {
    assert q * margin == e;
    assert (n - q) * margin >= 0.0;
  }

  // However small the margin, after enough frames the velocity is within it of Settled.
  lemma VelocityConverges(t: Track, prior: Point, m: Point, ds: seq<Detection>, margin: real)
    requires MovesBy(t.centroid, ds, m) && margin > 0.0
    requires |ds| >= FramesFor(ErrorX(t, prior, m), margin) && |ds| >= FramesFor(ErrorY(t, prior, m), margin)
    ensures Abs(ErrorX(Follow(t, prior, ds), prior, m)) < margin
    ensures Abs(ErrorY(Follow(t, prior, ds), prior, m)) < margin
  {
    VelocitySettles(t, prior, m, ds);
    WithinMargin(Shrink(prior), |ds|, ErrorX(t, prior, m), margin);
    WithinMargin(Shrink(prior), |ds|, ErrorY(t, prior, m), margin);
  }

  lemma WithinMargin(f: real, n: nat, e: real, margin: real)
    requires (f == -0.05 || f == -0.4) && margin > 0.0 && n >= FramesFor(e, margin)
    ensures Abs(Scaled(f, n, e)) < margin
  {
    ScaledIsSmall(f, n, e);
    var k := FramesFor(e, margin);
    assert (n - k) as real * margin >= 0.0;
    SmallerFactor(n as real, Abs(Scaled(f, n, e)), margin);
  }

  lemma SmallerFactor(n: real, a: real, margin: real)
    requires margin > 0.0 && n >= 0.0 && (n + 1.0) * a <= n * margin
    ensures a < margin
  {
    var gap := a - margin;
    assert (n + 1.0) * a == n * margin + margin + (n + 1.0) * gap;
    assert gap >= 0.0 ==> (n + 1.0) * gap >= 0.0;
  }

  // ------------------------------------------------------------ list helpers

  function Pick<T>(s: seq<T>, idx: seq<nat>): (r: seq<T>)
    requires InRange(idx, |s|)
    ensures |r| == |idx|
  {
    seq(|idx|, k requires 0 <= k < |idx| => s[idx[k]])
  }

  function PredictAll(ts: seq<Track>, prior: Point): (r: seq<Track>)
    ensures |r| == |ts|
  {
    seq(|ts|, i requires 0 <= i < |ts| => ts[i].Predict(prior))
  }

  function MarkAllLost(ts: seq<Track>): (r: seq<Track>)
    ensures |r| == |ts|
  {
    seq(|ts|, i requires 0 <= i < |ts| => ts[i].MarkLost())
  }

  function Features(ts: seq<Track>): (r: seq<Feature>)
    ensures |r| == |ts|
  {
    seq(|ts|, i requires 0 <= i < |ts| => ts[i].View())
  }

  predicate PointsInto(given: seq<Option<nat>>, n: nat) {
    forall i | 0 <= i < |given| && given[i].Some? :: given[i].value < n
  }

  // The tracks that were given a detection, updated with it, in order.
  function Measured(ts: seq<Track>, given: seq<Option<nat>>, dets: seq<Detection>): seq<Track>
    requires |ts| == |given| && PointsInto(given, |dets|)
  {
    if ts == [] then [] else
      var k := |ts| - 1;
      var rest := Measured(ts[..k], given[..k], dets);
      if given[k].Some? then rest + [ts[k].Measure(dets[given[k].value])] else rest
  }

  // The elements that were given nothing, in order.
  function Unassigned<T>(ts: seq<T>, given: seq<Option<nat>>): seq<T>
    requires |ts| == |given|
  {
    if ts == [] then [] else
      var k := |ts| - 1;
      var rest := Unassigned(ts[..k], given[..k]);
      if given[k].Some? then rest else rest + [ts[k]]
  }

  function Assigned<T>(ts: seq<T>, given: seq<Option<nat>>): seq<T>
    requires |ts| == |given|
  {
    if ts == [] then [] else
      var k := |ts| - 1;
      var rest := Assigned(ts[..k], given[..k]);
      if given[k].Some? then rest + [ts[k]] else rest
  }

  function Births(count: nat, born: seq<nat>, dets: seq<Detection>): (r: seq<Track>)
    requires InRange(born, |dets|)
    ensures |r| == |born|
  {
    seq(|born|, k requires 0 <= k < |born| => NewTrack(count + k + 1, dets[born[k]]))
  }

  function Within(ts: seq<Track>, limit: int): seq<Track> {
    if ts == [] then [] else
      var k := |ts| - 1;
      var rest := Within(ts[..k], limit);
      if ts[k].timeSinceUpdate <= limit then rest + [ts[k]] else rest
  }

  function Overdue(ts: seq<Track>, limit: int): seq<Track> {
    if ts == [] then [] else
      var k := |ts| - 1;
      var rest := Overdue(ts[..k], limit);
      if ts[k].timeSinceUpdate <= limit then rest else rest + [ts[k]]
  }

  predicate LandsOn(d: Detection, lost: seq<Track>) {
    exists i | 0 <= i < |lost| :: BoxIou(d.box, lost[i].box) > ID_SWITCH_IOU_THRESHOLD
  }

  // New tracks that start on top of a track lost in the same step.
  function Switches(born: seq<nat>, dets: seq<Detection>, lost: seq<Track>): nat
    requires InRange(born, |dets|)
  {
    if born == [] then 0 else
      var k := |born| - 1;
      Switches(born[..k], dets, lost) + if LandsOn(dets[born[k]], lost) then 1 else 0
  }

  // ------------------------------------------------------------ the tracker step

  datatype Config = Config(
    high: real, low: real, costThreshold: real, maxTimeLost: int, weights: Weights, metric: Metric)
  {
    predicate High(d: Detection) { d.score >= high }
    predicate LowBand(d: Detection) { low <= d.score < high }
  }

  // tracked and lost are the tracker's own lists; pruned is the record of the dead.
  datatype TrackerState = TrackerState(
    tracked: seq<Track>, lost: seq<Track>, pruned: seq<Track>,
    count: nat, frames: nat, fragmentation: nat, idSwitches: nat)
  {
    function All(): seq<Track> { tracked + lost + pruned }
  }

  const START: TrackerState := TrackerState([], [], [], 0, 0, 0, 0)

  // Which detection each tracked and each lost track receives, and which start new tracks.
  datatype Plan = Plan(trackedBy: seq<Option<nat>>, lostBy: seq<Option<nat>>, born: seq<nat>)

  predicate PlanFits(s: TrackerState, dets: seq<Detection>, plan: Plan) {
    && |plan.trackedBy| == |s.tracked| && |plan.lostBy| == |s.lost|
    && PointsInto(plan.trackedBy, |dets|) && PointsInto(plan.lostBy, |dets|)
    && InRange(plan.born, |dets|)
  }

  function Step(cfg: Config, s: TrackerState, dets: seq<Detection>, prior: Point, plan: Plan): TrackerState
    requires PlanFits(s, dets, plan)
  {
    var pt, pl := PredictAll(s.tracked, prior), PredictAll(s.lost, prior);
    var dropped := Unassigned(pt, plan.trackedBy);
    var candidates := Unassigned(pl, plan.lostBy) + MarkAllLost(dropped);
    TrackerState(
      Measured(pt, plan.trackedBy, dets) + Measured(pl, plan.lostBy, dets) + Births(s.count, plan.born, dets),
      Within(candidates, cfg.maxTimeLost),
      s.pruned + Overdue(candidates, cfg.maxTimeLost),
      s.count + |plan.born|,
      s.frames + 1,
      s.fragmentation + |Overdue(candidates, cfg.maxTimeLost)|,
      s.idSwitches + Switches(plan.born, dets, dropped))
  }

  // -------------------------------------------------------- use of detections

  predicate Used(given: seq<Option<nat>>, d: nat) {
    exists i | 0 <= i < |given| :: given[i] == Some(d)
  }

  predicate Injective(given: seq<Option<nat>>) {
    forall i, j | 0 <= i < j < |given| && given[i].Some? && given[j].Some? :: given[i].value != given[j].value
  }

  // Every high-score detection goes to exactly one place: one tracked track, one
  // lost track or one birth. Low-score detections only ever keep a tracked track
  // alive, at most one each; anything below the low threshold is ignored.
  ghost predicate SoundPlan(cfg: Config, s: TrackerState, dets: seq<Detection>, plan: Plan) {
    && PlanFits(s, dets, plan)
    && Injective(plan.trackedBy) && Injective(plan.lostBy) && Ascending(plan.born)
    && (forall d: nat | d < |dets| ::
          && !(Used(plan.trackedBy, d) && Used(plan.lostBy, d))
          && !(Used(plan.trackedBy, d) && d in plan.born)
          && !(Used(plan.lostBy, d) && d in plan.born)
          && (cfg.High(dets[d]) ==> Used(plan.trackedBy, d) || Used(plan.lostBy, d) || d in plan.born)
          && (Used(plan.lostBy, d) || d in plan.born ==> cfg.High(dets[d]))
          && (Used(plan.trackedBy, d) ==> cfg.High(dets[d]) || cfg.LowBand(dets[d])))
  }

  // ------------------------------------------------------------- track identity

  // How many tracks of the list carry id x.
  function Tally(ts: seq<Track>, x: nat): nat {
    if ts == [] then 0 else Tally(ts[..|ts| - 1], x) + if ts[|ts| - 1].id == x then 1 else 0
  }

  // Every id handed out so far is carried by exactly one track, and no other id is in use.
  ghost predicate OneTrackPerId(ts: seq<Track>, count: nat) {
    && |ts| == count
    && forall x: nat {:trigger Tally(ts, x)} :: Tally(ts, x) == if 1 <= x <= count then 1 else 0
  }

  ghost predicate AllWellFormed(ts: seq<Track>) {
    forall i | 0 <= i < |ts| :: ts[i].WellFormed()
  }

  ghost predicate TrackedShape(ts: seq<Track>) {
    forall i | 0 <= i < |ts| ::
      && ts[i].WellFormed() && ts[i].Active() && ts[i].timeSinceUpdate == 0
      && ts[i].centroid == ts[i].LastMeasured()
      && (ts[i].phase == Tentative <==> ts[i].hits == 1)
  }

  ghost predicate LostShape(ts: seq<Track>) {
    forall i | 0 <= i < |ts| :: ts[i].WellFormed() && ts[i].phase == Phase.Lost && ts[i].timeSinceUpdate >= 1
  }

  ghost predicate NoneOverdue(ts: seq<Track>, limit: int) {
    forall i | 0 <= i < |ts| :: ts[i].timeSinceUpdate <= limit
  }

  // What holds after every step: the shapes of the two lists, one id per track
  // ever created, and one fragmentation per dead track.
  ghost predicate Inv(s: TrackerState) {
    && TrackedShape(s.tracked) && LostShape(s.lost) && LostShape(s.pruned)
    && OneTrackPerId(s.All(), s.count)
    && s.fragmentation == |s.pruned|
  }

  lemma {:induction false} TallyConcat(a: seq<Track>, b: seq<Track>, x: nat)
    ensures Tally(a + b, x) == Tally(a, x) + Tally(b, x)
  {
    if b == [] {
      assert a + b == a;
    } else {
      var k := |b| - 1;
      TallyConcat(a, b[..k], x);
      assert (a + b)[..|a + b| - 1] == a + b[..k];
    }
  }

  lemma {:induction false} TallyMember(ts: seq<Track>, i: nat)
    requires i < |ts|
    ensures Tally(ts, ts[i].id) >= 1
  {
    var k := |ts| - 1;
    if i < k {
      TallyMember(ts[..k], i);
    }
  }

  lemma {:induction false} TallyTwice(ts: seq<Track>, i: nat, j: nat)
    requires i < j < |ts| && ts[i].id == ts[j].id
    ensures Tally(ts, ts[i].id) >= 2
  {
    var k := |ts| - 1;
    if j < k {
      TallyTwice(ts[..k], i, j);
    } else {
      TallyMember(ts[..k], i);
    }
  }

  // The identity law read out: all tracks ever created are present once, with
  // pairwise distinct ids 1 .. count, and none is in two lists.
  lemma IdentityLaw(s: TrackerState)
    requires Inv(s)
    ensures |s.tracked| + |s.lost| + s.fragmentation == s.count
    ensures forall i, j | 0 <= i < j < |s.All()| :: s.All()[i].id != s.All()[j].id
    ensures forall i | 0 <= i < |s.All()| :: 1 <= s.All()[i].id <= s.count
  {
    forall i, j | 0 <= i < j < |s.All()| ensures s.All()[i].id != s.All()[j].id {
      if s.All()[i].id == s.All()[j].id {
        TallyTwice(s.All(), i, j);
      }
    }
    forall i | 0 <= i < |s.All()| ensures 1 <= s.All()[i].id <= s.count {
      TallyMember(s.All(), i);
    }
  }

  // The same, list by list.
  lemma IdsApart(s: TrackerState)
    requires Inv(s)
    ensures forall i, j | 0 <= i < j < |s.tracked| :: s.tracked[i].id != s.tracked[j].id
    ensures forall i, j | 0 <= i < j < |s.lost| :: s.lost[i].id != s.lost[j].id
    ensures forall i, j | 0 <= i < |s.tracked| && 0 <= j < |s.lost| :: s.tracked[i].id != s.lost[j].id
    ensures forall i, j | 0 <= i < |s.tracked| && 0 <= j < |s.pruned| :: s.tracked[i].id != s.pruned[j].id
    ensures forall i, j | 0 <= i < |s.lost| && 0 <= j < |s.pruned| :: s.lost[i].id != s.pruned[j].id
  {
    IdentityLaw(s);
    var n, m := |s.tracked|, |s.lost|;
    assert forall i | 0 <= i < n :: s.tracked[i] == s.All()[i];
    assert forall i | 0 <= i < m :: s.lost[i] == s.All()[n + i];
    assert forall i | 0 <= i < |s.pruned| :: s.pruned[i] == s.All()[n + m + i];
  }

  // -------------------------------------------------- what each part preserves

  lemma {:induction false} SplitIds(ts: seq<Track>, given: seq<Option<nat>>, dets: seq<Detection>, x: nat)
    requires |ts| == |given| && PointsInto(given, |dets|)
    ensures Tally(Measured(ts, given, dets), x) + Tally(Unassigned(ts, given), x) == Tally(ts, x)
    ensures |Measured(ts, given, dets)| + |Unassigned(ts, given)| == |ts|
  {
    if ts != [] {
      SplitIds(ts[..|ts| - 1], given[..|ts| - 1], dets, x);
    }
  }

  lemma {:induction false} SplitByAge(ts: seq<Track>, limit: int, x: nat)
    ensures Tally(Within(ts, limit), x) + Tally(Overdue(ts, limit), x) == Tally(ts, x)
    ensures |Within(ts, limit)| + |Overdue(ts, limit)| == |ts|
  {
    if ts != [] {
      SplitByAge(ts[..|ts| - 1], limit, x);
    }
  }

  lemma {:induction false} PruneShape(ts: seq<Track>, limit: int)
    requires LostShape(ts)
    ensures NoneOverdue(Within(ts, limit), limit)
    ensures LostShape(Within(ts, limit)) && LostShape(Overdue(ts, limit))
  {
    if ts != [] {
      PruneShape(ts[..|ts| - 1], limit);
    }
  }

  lemma {:induction false} SameIds(a: seq<Track>, b: seq<Track>, x: nat)
    requires |a| == |b| && forall i | 0 <= i < |a| :: a[i].id == b[i].id
    ensures Tally(a, x) == Tally(b, x)
  {
    if a != [] {
      SameIds(a[..|a| - 1], b[..|b| - 1], x);
    }
  }

  lemma {:induction false} BirthIds(count: nat, born: seq<nat>, dets: seq<Detection>, x: nat)
    requires InRange(born, |dets|)
    ensures Tally(Births(count, born, dets), x) == if count < x <= count + |born| then 1 else 0
  {
    if born != [] {
      var k := |born| - 1;
      BirthIds(count, born[..k], dets, x);
      assert Births(count, born, dets)[..k] == Births(count, born[..k], dets);
    }
  }

  lemma {:induction false} MeasuredShape(ts: seq<Track>, given: seq<Option<nat>>, dets: seq<Detection>)
    requires |ts| == |given| && PointsInto(given, |dets|) && AllWellFormed(ts)
    requires forall i | 0 <= i < |ts| :: ts[i].phase != Deleted && ts[i].timeSinceUpdate >= 1
    ensures TrackedShape(Measured(ts, given, dets))
  {
    if ts != [] {
      MeasuredShape(ts[..|ts| - 1], given[..|ts| - 1], dets);
    }
  }

  lemma {:induction false} UnassignedShape(ts: seq<Track>, given: seq<Option<nat>>)
    requires |ts| == |given| && AllWellFormed(ts)
    ensures AllWellFormed(Unassigned(ts, given))
    ensures LostShape(ts) ==> LostShape(Unassigned(ts, given))
    ensures (forall i | 0 <= i < |ts| :: ts[i].timeSinceUpdate == 1) ==>
              forall i | 0 <= i < |Unassigned(ts, given)| :: Unassigned(ts, given)[i].timeSinceUpdate == 1
  {
    if ts != [] {
      UnassignedShape(ts[..|ts| - 1], given[..|ts| - 1]);
    }
  }

  // One step with any fitting plan keeps the invariant and prunes to the current limit.
  lemma StepKeepsInv(cfg: Config, s: TrackerState, dets: seq<Detection>, prior: Point, plan: Plan)
    requires Inv(s) && PlanFits(s, dets, plan)
    ensures Inv(Step(cfg, s, dets, prior, plan))
    ensures NoneOverdue(Step(cfg, s, dets, prior, plan).lost, cfg.maxTimeLost)
  {
    StepKeepsShapes(cfg, s, dets, prior, plan);
    var s' := Step(cfg, s, dets, prior, plan);
    forall x: nat ensures Tally(s'.All(), x) == if 1 <= x <= s'.count then 1 else 0 {
      StepKeepsIds(cfg, s, dets, prior, plan, x);
      assert Tally(s.All(), x) == if 1 <= x <= s.count then 1 else 0;
    }
    StepKeepsIds(cfg, s, dets, prior, plan, 0);
  }

  lemma StepKeepsShapes(cfg: Config, s: TrackerState, dets: seq<Detection>, prior: Point, plan: Plan)
    requires TrackedShape(s.tracked) && LostShape(s.lost) && LostShape(s.pruned)
    requires PlanFits(s, dets, plan)
    ensures var s' := Step(cfg, s, dets, prior, plan);
            TrackedShape(s'.tracked) && LostShape(s'.lost) && LostShape(s'.pruned)
            && NoneOverdue(s'.lost, cfg.maxTimeLost)
  {
    var pt, pl := PredictAll(s.tracked, prior), PredictAll(s.lost, prior);
    MeasuredShape(pt, plan.trackedBy, dets);
    MeasuredShape(pl, plan.lostBy, dets);
    CandidatesShape(s, prior, plan);
    PruneShape(Unassigned(pl, plan.lostBy) + MarkAllLost(Unassigned(pt, plan.trackedBy)), cfg.maxTimeLost);
  }

  // What stays lost or becomes lost.
  lemma CandidatesShape(s: TrackerState, prior: Point, plan: Plan)
    requires TrackedShape(s.tracked) && LostShape(s.lost)
    requires |plan.trackedBy| == |s.tracked| && |plan.lostBy| == |s.lost|
    ensures var pt, pl := PredictAll(s.tracked, prior), PredictAll(s.lost, prior);
            LostShape(Unassigned(pl, plan.lostBy) + MarkAllLost(Unassigned(pt, plan.trackedBy)))
  {
    var pt, pl := PredictAll(s.tracked, prior), PredictAll(s.lost, prior);
    UnassignedShape(pt, plan.trackedBy);
    UnassignedShape(pl, plan.lostBy);
    MarkedShape(Unassigned(pt, plan.trackedBy));
  }

  lemma MarkedShape(ts: seq<Track>)
    requires AllWellFormed(ts) && forall i | 0 <= i < |ts| :: ts[i].timeSinceUpdate == 1
    ensures LostShape(MarkAllLost(ts))
  {
  }

  // Ids move between the lists without being lost, repeated or invented.
  lemma StepKeepsIds(cfg: Config, s: TrackerState, dets: seq<Detection>, prior: Point, plan: Plan, x: nat)
    requires PlanFits(s, dets, plan)
    ensures var s' := Step(cfg, s, dets, prior, plan);
            && Tally(s'.All(), x) == Tally(s.All(), x) + (if s.count < x <= s'.count then 1 else 0)
            && |s'.All()| == |s.All()| + |plan.born|
  {
    var pt, pl := PredictAll(s.tracked, prior), PredictAll(s.lost, prior);
    var mt, ml := Measured(pt, plan.trackedBy, dets), Measured(pl, plan.lostBy, dets);
    var born := Births(s.count, plan.born, dets);
    var dropped, kept := Unassigned(pt, plan.trackedBy), Unassigned(pl, plan.lostBy);
    var candidates := kept + MarkAllLost(dropped);
    SplitIds(pt, plan.trackedBy, dets, x);
    SplitIds(pl, plan.lostBy, dets, x);
    SameIds(pt, s.tracked, x);
    SameIds(pl, s.lost, x);
    SameIds(MarkAllLost(dropped), dropped, x);
    TallyConcat(kept, MarkAllLost(dropped), x);
    SplitByAge(candidates, cfg.maxTimeLost, x);
    BirthIds(s.count, plan.born, dets, x);
    TallyOfThree(s.tracked, s.lost, s.pruned, x);
    TallyOfThree(mt, ml, born, x);
    var s' := Step(cfg, s, dets, prior, plan);
    TallyConcat(s.pruned, Overdue(candidates, cfg.maxTimeLost), x);
    TallyOfThree(s'.tracked, s'.lost, s'.pruned, x);
  }

  lemma TallyOfThree(a: seq<Track>, b: seq<Track>, c: seq<Track>, x: nat)
    ensures Tally(a + b + c, x) == Tally(a, x) + Tally(b, x) + Tally(c, x)
  {
    TallyConcat(a, b, x);
    TallyConcat(a + b, c, x);
  }
}
