/**
 Comparing a shadow model with the active one: running statistics, and the
 bookkeeping of matched and unmatched boxes. Values are reals: rounding is not modelled.
 */
module Shadow {
  import opened Boxes
  import opened Matching

  // ------------------------------------------------------------ running statistics

  datatype Welford = Welford(count: nat, mean: real, m2: real)

  const FRESH := Welford(0, 0.0, 0.0)

  function Observe(w: Welford, x: real): Welford {
    var n := w.count + 1;
    var delta := x - w.mean;
    var mean := w.mean + delta / n as real;
    Welford(n, mean, w.m2 + delta * (x - mean))
  }

  function Feed(xs: seq<real>): Welford {
    if xs == [] then FRESH else Observe(Feed(xs[..|xs| - 1]), xs[|xs| - 1])
  }

  function Sum(xs: seq<real>): real {
    if xs == [] then 0.0 else Sum(xs[..|xs| - 1]) + xs[|xs| - 1]
  }

  // The sum of squared deviations from c.
  function Deviation(xs: seq<real>, c: real): real {
    if xs == [] then 0.0 else Deviation(xs[..|xs| - 1], c) + Sq(xs[|xs| - 1] - c)
  }

  lemma {:induction false} DeviationNonNegative(xs: seq<real>, c: real)
    ensures Deviation(xs, c) >= 0.0
  {
    if xs != [] {
      DeviationNonNegative(xs[..|xs| - 1], c);
      SquareNonNegative(xs[|xs| - 1] - c);
    }
  }

  // The number of observations, as a real.
  function Number(xs: seq<real>): real {
    if xs == [] then 0.0 else Number(xs[..|xs| - 1]) + 1.0
  }

  lemma {:induction false} NumberIsLength(xs: seq<real>)
    ensures Number(xs) == |xs| as real
  {
    if xs != [] {
      NumberIsLength(xs[..|xs| - 1]);
    }
  }

  // t is what moving the centre from c to c' does to the sum of squared deviations, as
  // a function of the sum and the number of the values alone.
  ghost predicate Moves(t: (real, real) -> real, c: real, c': real) {
    t(0.0, 0.0) == 0.0 && forall s, n, x :: MovesOne(t, c, c', s, n, x)
  }

  ghost predicate MovesOne(t: (real, real) -> real, c: real, c': real, s: real, n: real, x: real) {
    t(s + x, n + 1.0) == t(s, n) + Sq(x - c') - Sq(x - c)
  }

  lemma {:induction false} DeviationMoves(xs: seq<real>, c: real, c': real, t: (real, real) -> real)
    requires Moves(t, c, c')
    ensures Deviation(xs, c') == Deviation(xs, c) + t(Sum(xs), Number(xs))
  {
    if xs != [] {
      var init, x := xs[..|xs| - 1], xs[|xs| - 1];
      DeviationMoves(init, c, c', t);
      assert MovesOne(t, c, c', Sum(init), Number(init), x);
    }
  }

  function Correction(c: real, d: real, s: real, n: real): real {
    n * Sq(d) - 2.0 * d * (s - n * c)
  }

  lemma CorrectionMoves(c: real, d: real)
    ensures Moves((s, n) => Correction(c, d, s, n), c, c + d)
  {
    var t, c' := (s, n) => Correction(c, d, s, n), c + d;
    forall s, n, x ensures MovesOne(t, c, c', s, n, x) {
      CorrectionStep(s, n, x, c, d);
    }
    assert t(0.0, 0.0) == 0.0;
  }

  lemma CorrectionStep(s: real, n: real, x: real, c: real, d: real)
    ensures Correction(c, d, s + x, n + 1.0) == Correction(c, d, s, n) + Sq(x - (c + d)) - Sq(x - c)
  {
    var u, v := x - c, s - n * c;
    assert x - (c + d) == u - d;
    assert (s + x) - (n + 1.0) * c == v + u;
    assert Sq(u - d) == Sq(u) - 2.0 * (d * u) + Sq(d);
    assert 2.0 * d * (v + u) == 2.0 * d * v + 2.0 * (d * u);
    assert (n + 1.0) * Sq(d) == n * Sq(d) + Sq(d);
  }

  // Moving the centre by d.
  lemma DeviationShift(xs: seq<real>, c: real, d: real)
    ensures Deviation(xs, c + d) == Deviation(xs, c) + Correction(c, d, Sum(xs), Number(xs))
  {
    CorrectionMoves(c, d);
    DeviationMoves(xs, c, c + d, (s, n) => Correction(c, d, s, n));
  }

  // With q the step of the mean, the new terms balance.
  lemma StepBalances(n: real, q: real)
    ensures var d := q * (n + 1.0); n * Sq(q) + Sq(d - q) == d * (d - q)
  {
    var d := q * (n + 1.0);
    assert d - q == q * n;
    assert Sq(d - q) == Sq(q) * (n * n);
    assert d * (d - q) == Sq(q) * ((n + 1.0) * n);
    assert (n + 1.0) * n == n * n + n;
    assert Sq(q) * (n * n + n) == Sq(q) * (n * n) + Sq(q) * n;
  }

  lemma MeanStep(n: real, m: real, q: real, x: real)
    requires x - m == q * (n + 1.0)
    ensures (n + 1.0) * (m + q) == n * m + x
  {
    assert (n + 1.0) * (m + q) == n * m + m + q * (n + 1.0);
  }

  // One observation, over plain numbers: q is the step of the mean.
  lemma ObserveStep(n: real, m: real, q: real, x: real, s: real)
    requires s == n * m && x - m == q * (n + 1.0)
    ensures (n + 1.0) * (m + q) == s + x
    ensures (x - m) * (x - (m + q)) == Correction(m, q, s, n) + Sq(x - (m + q))
  {
    MeanStep(n, m, q, x);
    StepBalances(n, q);
    assert x - (m + q) == q * (n + 1.0) - q;
    assert Correction(m, q, s, n) == n * Sq(q) by {
      assert 2.0 * q * (s - n * m) == 0.0;
    }
  }

  lemma DivideBack(d: real, n: real)
    requires n > 0.0
    ensures d == d / n * n
  {
  }

  // The accumulator describes n values of sum s with the given deviation from its mean.
  ghost predicate Exact(w: Welford, n: real, s: real, deviation: real) {
    w.count as real == n && n * w.mean == s && w.m2 == deviation
  }

  lemma ObserveExact(v: Welford, x: real, n: real, s: real, a: real, b: real)
    requires Exact(v, n, s, a) && n >= 0.0
    requires b == a + Correction(v.mean, Observe(v, x).mean - v.mean, s, n)
    ensures Exact(Observe(v, x), n + 1.0, s + x, b + Sq(x - Observe(v, x).mean))
  {
    var q, w := (x - v.mean) / (v.count + 1) as real, Observe(v, x);
    DivideBack(x - v.mean, (v.count + 1) as real);
    ObserveStep(n, v.mean, q, x, s);
    assert w.count as real == n + 1.0 && w.mean == v.mean + q && w.mean - v.mean == q;
    assert (n + 1.0) * w.mean == s + x;
    assert w.m2 == a + (x - v.mean) * (x - (v.mean + q));
    assert b == a + Correction(v.mean, q, s, n);
    assert w.m2 == b + Sq(x - w.mean);
  }

  lemma {:induction false} WelfordLaw(xs: seq<real>)
    ensures Exact(Feed(xs), Number(xs), Sum(xs), Deviation(xs, Feed(xs).mean))
  {
    if xs != [] {
      var init, x := xs[..|xs| - 1], xs[|xs| - 1];
      var v := Feed(init);
      WelfordLaw(init);
      NumberIsLength(init);
      var m := Observe(v, x).mean;
      DeviationShift(init, v.mean, m - v.mean);
      ObserveExact(v, x, Number(init), Sum(init), Deviation(init, v.mean), Deviation(init, m));
    }
  }

  lemma {:induction false} FeedCounts(xs: seq<real>)
    ensures Feed(xs).count == |xs|
  {
    if xs != [] {
      FeedCounts(xs[..|xs| - 1]);
    }
  }

  // After any sequence of observations: the mean is the mean, and M2 is the sum of the
  // squared deviations from it, never negative.
  ghost predicate IsExactly(w: Welford, xs: seq<real>) {
    w.count == |xs| && Number(xs) * w.mean == Sum(xs) && w.m2 == Deviation(xs, w.mean) && w.m2 >= 0.0
  }

  lemma WelfordIsExact(xs: seq<real>)
    ensures IsExactly(Feed(xs), xs) && Number(xs) == |xs| as real
  {
    FeedCounts(xs);
    NumberIsLength(xs);
    WelfordLaw(xs);
    ExactFrom(Feed(xs), xs);
  }

  lemma ExactFrom(w: Welford, xs: seq<real>)
    requires w.count == |xs| && Exact(w, Number(xs), Sum(xs), Deviation(xs, w.mean))
    ensures IsExactly(w, xs)
  {
    DeviationNonNegative(xs, w.mean);
  }

  // What the accumulator holds after one more update is what it holds after one more value.
  lemma FeedNext(xs: seq<real>, x: real)
    ensures Feed(xs + [x]) == Observe(Feed(xs), x)
  {
    assert (xs + [x])[..|xs|] == xs;
  }

  // 0 for fewer than two observations.
  function SampleVariance(w: Welford): real { if w.count > 1 then w.m2 / (w.count - 1) as real else 0.0 }

  // It is the squared deviation from the mean over one less than the number of values.
  lemma SampleVarianceIsExact(xs: seq<real>)
    ensures SampleVariance(Feed(xs)) >= 0.0
    ensures |xs| > 1 ==> SampleVariance(Feed(xs)) * (|xs| - 1) as real == Deviation(xs, Feed(xs).mean)
  {
    WelfordIsExact(xs);
    if |xs| > 1 {
      DivideBack(Deviation(xs, Feed(xs).mean), (|xs| - 1) as real);
    }
  }

  class WelfordStats {
    var count: nat
    var mean: real
    var m2: real

    function Value(): Welford
      reads this
    {
      Welford(count, mean, m2)
    }

    constructor ()
      ensures Value() == FRESH
    {
      count, mean, m2 := 0, 0.0, 0.0;
    }

    method Update(x: real)
      modifies this
      ensures Value() == Observe(old(Value()), x)
    {
      count := count + 1;
      var delta := x - mean;
      mean := mean + delta / count as real;
      var delta2 := x - mean;
      m2 := m2 + delta * delta2;
    }

    function Variance(): real
      reads this
    {
      SampleVariance(Value())
    }
  }

  // --------------------------------------------------------------- match accounting

  datatype Tally = Tally(truePositives: nat, falsePositives: nat, falseNegatives: nat)

  function PlusAll(t: Tally, n: Tally): Tally {
    Tally(t.truePositives + n.truePositives, t.falsePositives + n.falsePositives, t.falseNegatives + n.falseNegatives)
  }

  // What the pairs of one frame add.
  function PairTally(ious: seq<real>, threshold: real): Tally {
    if ious == [] then Tally(0, 0, 0) else
      PlusAll(PairTally(ious[..|ious| - 1], threshold),
              if ious[|ious| - 1] >= threshold then Tally(1, 0, 0) else Tally(0, 1, 1))
  }

  // A frame with n active and m shadow boxes, of which the pairs with these overlaps were assigned.
  function FrameTally(n: nat, m: nat, ious: seq<real>, threshold: real): Tally {
    if n > 0 && m > 0 then
      PlusAll(PairTally(ious, threshold),
              Tally(0, if m > |ious| then m - |ious| else 0, if n > |ious| then n - |ious| else 0))
    else if n > 0 then Tally(0, 0, n)
    else if m > 0 then Tally(0, m, 0)
    else Tally(0, 0, 0)
  }

  lemma {:induction false} PairsAddUp(ious: seq<real>, threshold: real)
    ensures var t := PairTally(ious, threshold);
            t.truePositives + t.falseNegatives == |ious| && t.falsePositives == t.falseNegatives
  {
    if ious != [] {
      PairsAddUp(ious[..|ious| - 1], threshold);
    }
  }

  // The pairs that reach the threshold.
  ghost function Hits(ious: seq<real>, threshold: real): set<nat> { set k: nat | k < |ious| && ious[k] >= threshold }

  // Those are the hits, and every other pair is a miss on both sides.
  lemma {:induction false} HitsAreCounted(ious: seq<real>, threshold: real)
    ensures PairTally(ious, threshold).truePositives == |Hits(ious, threshold)|
  {
    if ious == [] {
      assert Hits(ious, threshold) == {};
    } else {
      var n := |ious| - 1;
      HitsAreCounted(ious[..n], threshold);
      assert Hits(ious, threshold) == Hits(ious[..n], threshold) + if ious[n] >= threshold then {n as nat} else {};
    }
  }

  datatype Frame = Frame(active: nat, shadow: nat, ious: seq<real>)
  {
    // No assignment pairs more boxes than there are on either side.
    predicate Valid() { |ious| <= active && |ious| <= shadow }
  }

  function TallyOf(frames: seq<Frame>, threshold: real): Tally {
    if frames == [] then Tally(0, 0, 0) else
      var f := frames[|frames| - 1];
      PlusAll(TallyOf(frames[..|frames| - 1], threshold), FrameTally(f.active, f.shadow, f.ious, threshold))
  }

  function ActiveBoxes(frames: seq<Frame>): nat {
    if frames == [] then 0 else ActiveBoxes(frames[..|frames| - 1]) + frames[|frames| - 1].active
  }

  function ShadowBoxes(frames: seq<Frame>): nat {
    if frames == [] then 0 else ShadowBoxes(frames[..|frames| - 1]) + frames[|frames| - 1].shadow
  }

  // Over any run of frames and for any injective assignments: hits and misses are all
  // active boxes, hits and false alarms are all shadow boxes.
  lemma {:induction false} EveryBoxCounted(frames: seq<Frame>, threshold: real)
    requires forall i | 0 <= i < |frames| :: frames[i].Valid()
    ensures var t := TallyOf(frames, threshold);
            && t.truePositives + t.falseNegatives == ActiveBoxes(frames)
            && t.truePositives + t.falsePositives == ShadowBoxes(frames)
  {
    if frames != [] {
      var f := frames[|frames| - 1];
      EveryBoxCounted(frames[..|frames| - 1], threshold);
      assert f.Valid();
      PairsAddUp(f.ious, threshold);
    }
  }

  function CostOf(active: seq<Box>, shadow: seq<Box>): (c: Matrix)
    ensures IsMatrix(c, |active|, |shadow|)
  {
    seq(|active|, i requires 0 <= i < |active| =>
      seq(|shadow|, j requires 0 <= j < |shadow| => 1.0 - Iou(active[i], shadow[j])))
  }

  // The overlaps of the assigned pairs.
  function Overlaps(active: seq<Box>, shadow: seq<Box>, rows: seq<nat>, cols: seq<nat>): (r: seq<real>)
    requires PartialAssignment(|active|, |shadow|, rows, cols)
    ensures |r| == |rows|
  {
    seq(|rows|, k requires 0 <= k < |rows| => Iou(active[rows[k]], shadow[cols[k]]))
  }

  // The overlaps that reach the threshold.
  function AtLeast(ious: seq<real>, threshold: real): seq<real> {
    if ious == [] then [] else
      var rest := AtLeast(ious[..|ious| - 1], threshold);
      if ious[|ious| - 1] >= threshold then rest + [ious[|ious| - 1]] else rest
  }

  // A pair that shares a box with the pair (i, j) overlaps at least as much.
  ghost predicate Outdone(active: seq<Box>, shadow: seq<Box>, rows: seq<nat>, cols: seq<nat>, i: nat, j: nat)
    requires PartialAssignment(|active|, |shadow|, rows, cols) && i < |active| && j < |shadow|
  {
    exists k | 0 <= k < |rows| ::
      (rows[k] == i || cols[k] == j) && Iou(active[rows[k]], shadow[cols[k]]) >= Iou(active[i], shadow[j])
  }

  // As many pairs as there can be, and no two boxes that overlap more than in the pairs they are in.
  ghost predicate WellMatched(active: seq<Box>, shadow: seq<Box>, rows: seq<nat>, cols: seq<nat>) {
    && PartialAssignment(|active|, |shadow|, rows, cols)
    && |rows| == (if |active| <= |shadow| then |active| else |shadow|)
    && forall i: nat, j: nat | i < |active| && j < |shadow| :: Outdone(active, shadow, rows, cols, i, j)
  }

  // No pairs at all when one side is empty.
  method AssignBoxes(active: seq<Box>, shadow: seq<Box>) returns (rows: seq<nat>, cols: seq<nat>)
    ensures WellMatched(active, shadow, rows, cols)
  {
    rows, cols := [], [];
    if |active| > 0 && |shadow| > 0 {
      var cost := CostOf(active, shadow);
      rows, cols := LinearSumAssignment(cost, |active|, |shadow|);
      forall i: nat, j: nat | i < |active| && j < |shadow| ensures Outdone(active, shadow, rows, cols, i, j) {
        assert Dominated(cost, rows, cols, i, j);
      }
    }
  }

  // The overlaps are read back from the cost matrix.
  function OverlapsByCost(active: seq<Box>, shadow: seq<Box>, rows: seq<nat>, cols: seq<nat>): (r: seq<real>)
    requires PartialAssignment(|active|, |shadow|, rows, cols)
    ensures r == Overlaps(active, shadow, rows, cols)
  {
    var cost := CostOf(active, shadow);
    seq(|rows|, k requires 0 <= k < |rows| => 1.0 - cost[rows[k]][cols[k]])
  }

  // The mean overlap of a frame's matched pairs; 1 if there is nothing to match, 0 if nothing matches.
  function FrameMean(f: Frame, threshold: real): real {
    var matched := AtLeast(f.ious, threshold);
    if matched != [] then Sum(matched) / |matched| as real
    else if f.active == 0 && f.shadow == 0 then 1.0 else 0.0
  }

  function MeansOf(frames: seq<Frame>, threshold: real): seq<real> {
    if frames == [] then [] else
      MeansOf(frames[..|frames| - 1], threshold) + [FrameMean(frames[|frames| - 1], threshold)]
  }

  // The matched overlaps are as many as the hits, each at least the threshold, and the frame's mean is theirs.
  lemma {:induction false} MatchedAreHits(ious: seq<real>, threshold: real)
    ensures |AtLeast(ious, threshold)| == PairTally(ious, threshold).truePositives
    ensures forall x | x in AtLeast(ious, threshold) :: x >= threshold && x in ious
  {
    if ious != [] {
      assert ious == ious[..|ious| - 1] + [ious[|ious| - 1]];
      MatchedAreHits(ious[..|ious| - 1], threshold);
    }
  }

  lemma MeanOfMatched(f: Frame, threshold: real)
    ensures var matched := AtLeast(f.ious, threshold);
            && (matched != [] ==> FrameMean(f, threshold) * |matched| as real == Sum(matched))
            && (matched == [] ==> FrameMean(f, threshold) == if f.active == 0 && f.shadow == 0 then 1.0 else 0.0)
  {
    var matched := AtLeast(f.ious, threshold);
    if matched != [] {
      DivideBack(Sum(matched), |matched| as real);
    }
  }

  lemma HitsOfFrame(n: nat, m: nat, ious: seq<real>, threshold: real)
    requires |ious| <= n && |ious| <= m
    ensures FrameTally(n, m, ious, threshold).truePositives == |AtLeast(ious, threshold)|
  {
    MatchedAreHits(ious, threshold);
  }

  // One more frame: one more tally, and one more observation.
  lemma FramesNext(frames: seq<Frame>, f: Frame, threshold: real)
    ensures TallyOf(frames + [f], threshold)
         == PlusAll(TallyOf(frames, threshold), FrameTally(f.active, f.shadow, f.ious, threshold))
    ensures Feed(MeansOf(frames + [f], threshold)) == Observe(Feed(MeansOf(frames, threshold)), FrameMean(f, threshold))
  {
    assert (frames + [f])[..|frames|] == frames;
    FeedNext(MeansOf(frames, threshold), FrameMean(f, threshold));
  }

  class ShadowModelEvaluator {
    const matchIouThreshold: real
    var tpCount: nat
    var fpCount: nat
    var fnCount: nat
    const iouWelford: WelfordStats
    ghost var frames: seq<Frame>

    // Counters and statistics are those of the frames seen so far.
    ghost predicate Valid()
      reads this, iouWelford
    {
      && (forall i | 0 <= i < |frames| :: frames[i].Valid())
      && Value() == TallyOf(frames, matchIouThreshold)
      && iouWelford.Value() == Feed(MeansOf(frames, matchIouThreshold))
    }

    function Value(): Tally
      reads this
    {
      Tally(tpCount, fpCount, fnCount)
    }

    constructor (threshold: real)
      ensures matchIouThreshold == threshold && Valid() && frames == [] && fresh(iouWelford)
    {
      matchIouThreshold := threshold;
      tpCount, fpCount, fnCount := 0, 0, 0;
      iouWelford := new WelfordStats();
      frames := [];
    }

    // Count the pairs of one frame by their overlaps.
    method CountPairs(ious: seq<real>) returns (matched: seq<real>)
      modifies this`tpCount, this`fpCount, this`fnCount
      ensures Value() == PlusAll(old(Value()), PairTally(ious, matchIouThreshold))
      ensures matched == AtLeast(ious, matchIouThreshold)
    {
      matched := [];
      for k := 0 to |ious|
        invariant tpCount == old(tpCount) + PairTally(ious[..k], matchIouThreshold).truePositives
        invariant fpCount == old(fpCount) + PairTally(ious[..k], matchIouThreshold).falsePositives
        invariant fnCount == old(fnCount) + PairTally(ious[..k], matchIouThreshold).falseNegatives
        invariant matched == AtLeast(ious[..k], matchIouThreshold)
      {
        assert ious[..k + 1][..k] == ious[..k];
        if ious[k] >= matchIouThreshold {
          matched := matched + [ious[k]];
          tpCount := tpCount + 1;
        } else {
          fnCount := fnCount + 1;
          fpCount := fpCount + 1;
        }
      }
      assert ious[..|ious|] == ious;
    }

    // The hits, misses and false alarms of one frame.
    method CountFrame(active: seq<Box>, shadow: seq<Box>)
      returns (matched: seq<real>, ghost frame: Frame, ghost rows: seq<nat>, ghost cols: seq<nat>)
      modifies this`tpCount, this`fpCount, this`fnCount
      ensures WellMatched(active, shadow, rows, cols)
      ensures frame == Frame(|active|, |shadow|, Overlaps(active, shadow, rows, cols)) && frame.Valid()
      ensures Value() == PlusAll(old(Value()), FrameTally(|active|, |shadow|, frame.ious, matchIouThreshold))
      ensures matched == AtLeast(frame.ious, matchIouThreshold)
    {
      var rs, cs := AssignBoxes(active, shadow);
      rows, cols := rs, cs;
      var ious := OverlapsByCost(active, shadow, rs, cs);
      frame := Frame(|active|, |shadow|, Overlaps(active, shadow, rs, cs));
      matched := CountPairs(ious);
      if |active| > 0 && |shadow| > 0 {
        fnCount := fnCount + (if |active| > |rs| then |active| - |rs| else 0);
        fpCount := fpCount + (if |shadow| > |cs| then |shadow| - |cs| else 0);
      } else if |active| > 0 {
        fnCount := fnCount + |active|;
      } else if |shadow| > 0 {
        fpCount := fpCount + |shadow|;
      }
    }

    // Match the boxes of one frame injectively, count them, and add the frame's mean overlap to
    // the running statistics, which stay exact.
    method EvaluateFrame(active: seq<Box>, shadow: seq<Box>)
      returns (matched: seq<real>, ghost rows: seq<nat>, ghost cols: seq<nat>)
      requires Valid()
      modifies this, iouWelford
      ensures Valid()
      ensures WellMatched(active, shadow, rows, cols)
      ensures frames == old(frames) + [Frame(|active|, |shadow|, Overlaps(active, shadow, rows, cols))]
      ensures matched == AtLeast(Overlaps(active, shadow, rows, cols), matchIouThreshold)
      ensures tpCount == old(tpCount) + |matched|
      ensures tpCount + fnCount == ActiveBoxes(frames) && tpCount + fpCount == ShadowBoxes(frames)
      ensures IsExactly(iouWelford.Value(), MeansOf(frames, matchIouThreshold))
      ensures iouWelford.Variance() == SampleVariance(Feed(MeansOf(frames, matchIouThreshold)))
    {
      ghost var frame;
      ghost var before := frames;
      matched, frame, rows, cols := CountFrame(active, shadow);
      HitsOfFrame(|active|, |shadow|, frame.ious, matchIouThreshold);
      var mean := if matched != [] then Sum(matched) / |matched| as real
                  else if |active| == 0 && |shadow| == 0 then 1.0 else 0.0;
      iouWelford.Update(mean);
      frames := before + [frame];
      FramesNext(before, frame, matchIouThreshold);
      EveryBoxCounted(frames, matchIouThreshold);
      WelfordIsExact(MeansOf(frames, matchIouThreshold));
    }
  }
}
