/**
 Track/detection association: the cost matrix, the greedy stand-in for the
 linear assignment solver, and the threshold filter that turns an assignment
 into matches and leftovers.
 */
module Matching {
  import opened Wrappers
  import opened Boxes

  // Pixel data is never inspected here: a mask is a handle.
  datatype Mask = Mask(handle: nat)

  datatype Detection = Detection(box: Box, score: real, mask: Option<Mask>, latent: bool)

  // What the association looks at in a track.
  datatype Feature = Feature(box: Box, centroid: Point, mask: Option<Mask>)

  // Mask overlap and Euclidean distance are supplied from outside.
  datatype Metric = Metric(maskIou: (Mask, Mask) -> real, distance: (Point, Point) -> real) {
    ghost predicate Valid() {
      && (forall m1, m2 :: 0.0 <= maskIou(m1, m2) <= 1.0)
      && (forall p, q :: 0.0 <= distance(p, q))
    }
  }

  datatype Weights = Weights(mask: real, dist: real)

  const MAX_DISTANCE_PX: real := 150.0

  type Matrix = seq<seq<real>>

  predicate IsMatrix(c: Matrix, rows: nat, cols: nat) {
    |c| == rows && forall i | 0 <= i < rows :: |c[i]| == cols
  }

  // ------------------------------------------------------------------ costs

  function SpatialCost(metric: Metric, t: Feature, d: Detection): real {
    if t.mask.Some? && d.mask.Some? then 1.0 - metric.maskIou(t.mask.value, d.mask.value)
    else (1.0 - Diou(t.box, d.box)) / 2.0
  }

  function DistanceCost(metric: Metric, t: Feature, d: Detection): real {
    Min(1.0, metric.distance(t.centroid, d.box.Centroid()) / MAX_DISTANCE_PX)
  }

  function Weighted(w: Weights, spatial: real, distance: real): real {
    Times(w.mask, spatial) + Times(w.dist, distance)
  }

  function Times(a: real, b: real): real { a * b }

  function PairCost(metric: Metric, w: Weights, t: Feature, d: Detection): real {
    Weighted(w, SpatialCost(metric, t, d), DistanceCost(metric, t, d))
  }

  lemma SpatialCostRange(metric: Metric, t: Feature, d: Detection)
    requires metric.Valid()
    ensures 0.0 <= SpatialCost(metric, t, d) <= 1.0
  {
    DiouRange(t.box, d.box);
  }

  lemma DistanceCostRange(metric: Metric, t: Feature, d: Detection)
    requires metric.Valid()
    ensures 0.0 <= DistanceCost(metric, t, d) <= 1.0
  {
    var gap := metric.distance(t.centroid, d.box.Centroid());
    assert gap >= 0.0;
  }

  // Every entry of the cost matrix lies between 0 and the sum of the weights.
  lemma PairCostRange(metric: Metric, w: Weights, t: Feature, d: Detection)
    requires metric.Valid() && w.mask >= 0.0 && w.dist >= 0.0
    ensures 0.0 <= PairCost(metric, w, t, d) <= w.mask + w.dist
  {
    SpatialCostRange(metric, t, d);
    DistanceCostRange(metric, t, d);
    WeightedSumRange(w, SpatialCost(metric, t, d), DistanceCost(metric, t, d));
  }

  lemma WeightedSumRange(w: Weights, s: real, g: real)
    requires w.mask >= 0.0 && w.dist >= 0.0 && 0.0 <= s <= 1.0 && 0.0 <= g <= 1.0
    ensures 0.0 <= Weighted(w, s, g) <= w.mask + w.dist
  {
    Scaled(w.mask, s);
    Scaled(w.dist, g);
  }

  lemma Scaled(a: real, s: real)
    requires a >= 0.0 && 0.0 <= s <= 1.0
    ensures 0.0 <= Times(a, s) <= a
  {
    assert a * (1.0 - s) >= 0.0;
  }

  // Each part of the cost is seen alone when the other vanishes: masks or boxes that coincide leave the
  // distance, at most its weight, and a common place leaves the overlap.
  lemma CostByParts(metric: Metric, w: Weights, t: Feature, d: Detection)
    requires metric.Valid()
    ensures var gap := metric.distance(t.centroid, d.box.Centroid());
            && (gap == 0.0 ==> PairCost(metric, w, t, d) == w.mask * SpatialCost(metric, t, d))
            && (SpatialCost(metric, t, d) == 0.0 && gap <= MAX_DISTANCE_PX ==>
                  PairCost(metric, w, t, d) == w.dist * (gap / MAX_DISTANCE_PX))
            && (SpatialCost(metric, t, d) == 0.0 && gap >= MAX_DISTANCE_PX ==> PairCost(metric, w, t, d) == w.dist)
    ensures if t.mask.Some? && d.mask.Some?
            then SpatialCost(metric, t, d) == 0.0 <==> metric.maskIou(t.mask.value, d.mask.value) == 1.0
            else (SpatialCost(metric, t, d) == 0.0 <==> Diou(t.box, d.box) == 1.0)
                 && (SpatialCost(metric, t, d) == 1.0 <==> Diou(t.box, d.box) == -1.0)
  {
    var gap := metric.distance(t.centroid, d.box.Centroid());
    assert gap >= 0.0;
    if gap >= MAX_DISTANCE_PX {
      assert gap / MAX_DISTANCE_PX >= 1.0;
    }
  }

  ghost predicate IsCostMatrix(
    metric: Metric, w: Weights, tracks: seq<Feature>, dets: seq<Detection>, c: Matrix)
  {
    && IsMatrix(c, |tracks|, |dets|)
    && forall i, j | 0 <= i < |tracks| && 0 <= j < |dets| ::
         c[i][j] == PairCost(metric, w, tracks[i], dets[j])
  }

  method ComputeCostMatrix(metric: Metric, w: Weights, tracks: seq<Feature>, dets: seq<Detection>)
    returns (c: Matrix)
    ensures IsCostMatrix(metric, w, tracks, dets, c)
  {
    c := [];
    for i := 0 to |tracks|
      invariant IsMatrix(c, i, |dets|)
      invariant forall r, j | 0 <= r < i && 0 <= j < |dets| ::
                  c[r][j] == PairCost(metric, w, tracks[r], dets[j])
    {
      var row: seq<real> := [];
      for j := 0 to |dets|
        invariant |row| == j
        invariant forall k | 0 <= k < j :: row[k] == PairCost(metric, w, tracks[i], dets[k])
      {
        row := row + [PairCost(metric, w, tracks[i], dets[j])];
      }
      c := c + [row];
    }
  }

  // ---------------------------------------------------------------- argsort

  predicate Distinct<T(==)>(s: seq<T>) {
    forall i, j | 0 <= i < j < |s| :: s[i] != s[j]
  }

  // The contract of argsort: a permutation of the positions by ascending key.
  // The order among equal keys is left open, as the library leaves it.
  ghost predicate IsArgsort(keys: seq<real>, order: seq<nat>) {
    && |order| == |keys|
    && Distinct(order)
    && (forall k | 0 <= k < |order| :: order[k] < |keys|)
    && (forall x: nat | x < |keys| :: x in order)
    && forall i, j | 0 <= i < j < |order| :: keys[order[i]] <= keys[order[j]]
  }

  method Argsort(keys: seq<real>) returns (order: seq<nat>)
    ensures IsArgsort(keys, order)
  {
    order := [];
    for i := 0 to |keys|
      invariant |order| == i && Distinct(order)
      invariant forall k | 0 <= k < |order| :: order[k] < i
      invariant forall x: nat | x < i :: x in order
      invariant forall a, b | 0 <= a < b < |order| :: keys[order[a]] <= keys[order[b]]
    {
      var p := 0;
      while p < |order| && keys[order[p]] <= keys[i]
        invariant 0 <= p <= |order|
        invariant forall k | 0 <= k < p :: keys[order[k]] <= keys[i]
      {
        p := p + 1;
      }
      ghost var was := order;
      order := order[..p] + [i] + order[p..];
      InsertionMembers(was, p, i);
    }
  }

  lemma InsertionMembers(s: seq<nat>, p: nat, v: nat)
    requires p <= |s|
    ensures forall x: nat :: x in s[..p] + [v] + s[p..] <==> x in s || x == v
  {
    assert s == s[..p] + s[p..];
  }

  // ------------------------------------------------- the greedy assignment

  predicate Ascending(s: seq<nat>) {
    forall i, j | 0 <= i < j < |s| :: s[i] < s[j]
  }

  predicate InRange(s: seq<nat>, n: nat) {
    forall i | 0 <= i < |s| :: s[i] < n
  }

  // Cell (r, c) shares its row or column with a chosen cell of no greater cost.
  ghost predicate Dominated(cost: Matrix, rows: seq<nat>, cols: seq<nat>, r: nat, c: nat)
    requires |rows| == |cols| && InRange(rows, |cost|) && r < |cost| && c < |cost[r]|
    requires forall k | 0 <= k < |rows| :: cols[k] < |cost[rows[k]]|
  {
    exists k | 0 <= k < |rows| ::
      (rows[k] == r || cols[k] == c) && cost[rows[k]][cols[k]] <= cost[r][c]
  }

  ghost predicate PartialAssignment(n: nat, m: nat, rows: seq<nat>, cols: seq<nat>) {
    && |rows| == |cols|
    && Distinct(rows) && Distinct(cols)
    && InRange(rows, n) && InRange(cols, m)
  }

  // An injective matching of full size in which no cell is blocking.
  ghost predicate GreedyAssignment(cost: Matrix, n: nat, m: nat, rows: seq<nat>, cols: seq<nat>)
    requires IsMatrix(cost, n, m)
  {
    && PartialAssignment(n, m, rows, cols)
    && Ascending(rows)
    && |rows| == (if n <= m then n else m)
    && forall r, c | 0 <= r < n && 0 <= c < m :: Dominated(cost, rows, cols, r, c)
  }

  // Cells of an n by m matrix, cheapest first ...
  ghost predicate CellsInOrder(cost: Matrix, n: nat, m: nat, cells: seq<(nat, nat)>)
    requires IsMatrix(cost, n, m)
  {
    && (forall k | 0 <= k < |cells| :: cells[k].0 < n && cells[k].1 < m)
    && forall i, j | 0 <= i < j < |cells| ::
         cost[cells[i].0][cells[i].1] <= cost[cells[j].0][cells[j].1]
  }

  // ... and all of them.
  ghost predicate AllCells(n: nat, m: nat, cells: seq<(nat, nat)>) {
    forall r: nat, c: nat | r < n && c < m :: SeenCell(cells, |cells|, r, c)
  }

  predicate SeenCell(cells: seq<(nat, nat)>, t: nat, r: nat, c: nat)
    requires t <= |cells|
  {
    exists a | 0 <= a < t :: cells[a] == (r, c)
  }

  // Row-major positions and cells name each other.
  lemma CellOf(idx: nat, n: nat, m: nat)
    requires m > 0 && idx < n * m
    ensures idx / m < n && idx % m < m
  {
    DivModLaw(idx, m);
    ProductOrder(idx / m, n, m);
  }

  lemma IndexOf(r: nat, c: nat, n: nat, m: nat)
    requires r < n && c < m
    ensures r * m + c < n * m && (r * m + c) / m == r && (r * m + c) % m == c
  {
    ProductOrder(n, r + 1, m);
    var x := r * m + c;
    DivModLaw(x, m);
    ProductOrder(x / m, r + 1, m);
    ProductOrder(r, x / m + 1, m);
  }

  lemma DivModLaw(x: nat, m: nat)
    requires m > 0
    ensures x == (x / m) * m + x % m && x % m < m
  {
  }

  lemma ProductOrder(a: nat, b: nat, m: nat)
    ensures a >= b ==> a * m >= b * m
  {
    if a >= b {
      assert a * m == b * m + (a - b) * m;
    }
  }

  function Flatten(cost: Matrix, n: nat, m: nat): (flat: seq<real>)
    requires IsMatrix(cost, n, m) && m > 0
    ensures |flat| == n * m
    ensures forall k | 0 <= k < n * m :: k / m < n && k % m < m && flat[k] == cost[k / m][k % m]
  {
    assert forall k | 0 <= k < n * m :: k / m < n && k % m < m by {
      forall k | 0 <= k < n * m ensures k / m < n && k % m < m { CellOf(k, n, m); }
    }
    seq(n * m, k requires 0 <= k < n * m => cost[k / m][k % m])
  }

  method CellsByCost(cost: Matrix, n: nat, m: nat) returns (cells: seq<(nat, nat)>)
    requires IsMatrix(cost, n, m) && m > 0
    ensures CellsInOrder(cost, n, m, cells) && AllCells(n, m, cells)
  {
    var order := Argsort(Flatten(cost, n, m));
    cells := Unflatten(order, m);
    OrderedCells(cost, n, m, order, cells);
    EveryCell(cost, n, m, order, cells);
  }

  // divmod of every position.
  method Unflatten(order: seq<nat>, m: nat) returns (cells: seq<(nat, nat)>)
    requires m > 0
    ensures |cells| == |order| && forall i | 0 <= i < |cells| :: cells[i] == (order[i] / m, order[i] % m)
  {
    cells := [];
    for k := 0 to |order|
      invariant |cells| == k
      invariant forall i | 0 <= i < k :: cells[i] == (order[i] / m, order[i] % m)
    {
      cells := cells + [(order[k] / m, order[k] % m)];
    }
  }

  lemma OrderedCells(cost: Matrix, n: nat, m: nat, order: seq<nat>, cells: seq<(nat, nat)>)
    requires IsMatrix(cost, n, m) && m > 0 && IsArgsort(Flatten(cost, n, m), order)
    requires |cells| == |order| && forall i | 0 <= i < |cells| :: cells[i] == (order[i] / m, order[i] % m)
    ensures CellsInOrder(cost, n, m, cells)
  {
    var flat := Flatten(cost, n, m);
    forall k | 0 <= k < |cells|
      ensures cells[k].0 < n && cells[k].1 < m && cost[cells[k].0][cells[k].1] == flat[order[k]]
    {
      CellOf(order[k], n, m);
    }
    forall i, j | 0 <= i < j < |cells|
      ensures cost[cells[i].0][cells[i].1] <= cost[cells[j].0][cells[j].1]
    {
      assert flat[order[i]] <= flat[order[j]];
    }
  }

  lemma EveryCell(cost: Matrix, n: nat, m: nat, order: seq<nat>, cells: seq<(nat, nat)>)
    requires IsMatrix(cost, n, m) && m > 0 && IsArgsort(Flatten(cost, n, m), order)
    requires |cells| == |order| && forall i | 0 <= i < |cells| :: cells[i] == (order[i] / m, order[i] % m)
    ensures AllCells(n, m, cells)
  {
    forall r: nat, c: nat | r < n && c < m ensures SeenCell(cells, |cells|, r, c) {
      IndexOf(r, c, n, m);
      assert r * m + c in order;
      var k :| 0 <= k < |order| && order[k] == r * m + c;
      assert cells[k] == (r, c);
    }
  }

  // ------------------------------------------------------------ counting facts

  ghost function Below(n: nat): (s: set<nat>)
    ensures |s| == n
    ensures forall x: nat :: x in s <==> x < n
  {
    if n == 0 then {} else Below(n - 1) + {n - 1}
  }

  ghost function Elements(s: seq<nat>): (e: set<nat>)
    ensures forall x: nat :: x in e <==> x in s
  {
    set x | x in s
  }

  lemma {:induction false} DistinctSize(s: seq<nat>)
    requires Distinct(s)
    ensures |Elements(s)| == |s|
  {
    if s == [] {
      assert Elements(s) == {};
    } else {
      var init, x := s[..|s| - 1], s[|s| - 1];
      DistinctSize(init);
      assert s == init + [x];
      assert x !in init;
      assert Elements(s) == Elements(init) + {x};
    }
  }

  lemma SubsetSize<T>(a: set<T>, b: set<T>)
    requires a <= b
    ensures |a| <= |b|
    ensures |a| == |b| ==> a == b
  {
    assert b == a + (b - a);
  }

  // A duplicate-free list of numbers below n has at most n entries, and contains
  // every such number when it has n of them.
  lemma Pigeonhole(s: seq<nat>, n: nat)
    requires Distinct(s) && InRange(s, n)
    ensures |s| <= n
    ensures |s| == n <==> forall x: nat | x < n :: x in s
  {
    DistinctSize(s);
    SubsetSize(Elements(s), Below(n));
    if forall x: nat | x < n :: x in s {
      assert Elements(s) == Below(n);
    }
  }

  // ---------------------------------------------------------------- the scan

  // After t cells: the choices are injective, were all visited, and dominate every visited cell.
  ghost predicate ScanState(cost: Matrix, n: nat, m: nat, cells: seq<(nat, nat)>, t: nat,
                            rs: seq<nat>, cs: seq<nat>)
    requires IsMatrix(cost, n, m) && CellsInOrder(cost, n, m, cells) && t <= |cells|
  {
    && PartialAssignment(n, m, rs, cs)
    && (forall a {:trigger Dominated(cost, rs, cs, cells[a].0, cells[a].1)} | 0 <= a < t ::
          Dominated(cost, rs, cs, cells[a].0, cells[a].1))
    && (forall k {:trigger SeenCell(cells, t, rs[k], cs[k])} | 0 <= k < |rs| ::
          SeenCell(cells, t, rs[k], cs[k]))
  }

  method LinearSumAssignment(cost: Matrix, n: nat, m: nat) returns (rows: seq<nat>, cols: seq<nat>)
    requires IsMatrix(cost, n, m)
    ensures GreedyAssignment(cost, n, m, rows, cols)
  {
    if n == 0 || m == 0 {
      return [], [];
    }
    var cells := CellsByCost(cost, n, m);
    var rs: seq<nat> := [];
    var cs: seq<nat> := [];
    var t := 0;
    while t < |cells| && |rs| != n && |cs| != m
      invariant 0 <= t <= |cells|
      invariant ScanState(cost, n, m, cells, t, rs, cs)
    {
      var (r, c) := cells[t];
      if r !in rs && c !in cs {
        ChooseCell(cost, n, m, cells, t, rs, cs);
        rs, cs := rs + [r], cs + [c];
      } else {
        SkipCell(cost, n, m, cells, t, rs, cs);
      }
      t := t + 1;
    }
    AllDominated(cost, n, m, cells, t, rs, cs);
    DominatedMeansFull(cost, n, m, rs, cs);
    rows, cols := SortByRow(cost, n, m, rs, cs);
  }

  lemma DominatedStays(cost: Matrix, n: nat, m: nat, rs: seq<nat>, cs: seq<nat>,
                       r': nat, c': nat, r: nat, c: nat)
    requires IsMatrix(cost, n, m) && PartialAssignment(n, m, rs, cs)
    requires r < n && c < m && r' < n && c' < m && Dominated(cost, rs, cs, r, c)
    ensures Dominated(cost, rs + [r'], cs + [c'], r, c)
  {
    var k :| 0 <= k < |rs| && (rs[k] == r || cs[k] == c) && cost[rs[k]][cs[k]] <= cost[r][c];
    assert (rs + [r'])[k] == rs[k] && (cs + [c'])[k] == cs[k];
  }

  lemma ChooseCell(cost: Matrix, n: nat, m: nat, cells: seq<(nat, nat)>, t: nat,
                   rs: seq<nat>, cs: seq<nat>)
    requires IsMatrix(cost, n, m) && CellsInOrder(cost, n, m, cells) && t < |cells|
    requires ScanState(cost, n, m, cells, t, rs, cs)
    requires cells[t].0 !in rs && cells[t].1 !in cs
    ensures ScanState(cost, n, m, cells, t + 1, rs + [cells[t].0], cs + [cells[t].1])
  {
    var (r, c) := cells[t];
    var rs', cs' := rs + [r], cs + [c];
    assert PartialAssignment(n, m, rs', cs');
    forall a | 0 <= a < t + 1 ensures Dominated(cost, rs', cs', cells[a].0, cells[a].1) {
      if a < t {
        DominatedStays(cost, n, m, rs, cs, r, c, cells[a].0, cells[a].1);
      } else {
        assert rs'[|rs|] == r;
      }
    }
    forall k | 0 <= k < |rs'| ensures SeenCell(cells, t + 1, rs'[k], cs'[k]) {
      if k < |rs| {
        assert SeenCell(cells, t, rs[k], cs[k]);
      } else {
        assert cells[t] == (r, c);
      }
    }
  }

  // A chosen cell costs no more than any cell visited later.
  lemma ChosenIsCheaper(cost: Matrix, n: nat, m: nat, cells: seq<(nat, nat)>, t: nat,
                        rs: seq<nat>, cs: seq<nat>, k: nat, b: nat)
    requires IsMatrix(cost, n, m) && CellsInOrder(cost, n, m, cells) && t <= b < |cells|
    requires ScanState(cost, n, m, cells, t, rs, cs) && k < |rs|
    ensures cost[rs[k]][cs[k]] <= cost[cells[b].0][cells[b].1]
  {
    assert SeenCell(cells, t, rs[k], cs[k]);
    var a :| 0 <= a < t && cells[a] == (rs[k], cs[k]);
  }

  // A cell whose row or column is taken was beaten by the cheaper cell that took it.
  lemma SkipCell(cost: Matrix, n: nat, m: nat, cells: seq<(nat, nat)>, t: nat,
                 rs: seq<nat>, cs: seq<nat>)
    requires IsMatrix(cost, n, m) && CellsInOrder(cost, n, m, cells) && t < |cells|
    requires ScanState(cost, n, m, cells, t, rs, cs)
    requires cells[t].0 in rs || cells[t].1 in cs
    ensures ScanState(cost, n, m, cells, t + 1, rs, cs)
  {
    var k :| 0 <= k < |rs| && (rs[k] == cells[t].0 || cs[k] == cells[t].1);
    ChosenIsCheaper(cost, n, m, cells, t, rs, cs, k, t);
    assert Dominated(cost, rs, cs, cells[t].0, cells[t].1);
    forall l | 0 <= l < |rs| ensures SeenCell(cells, t + 1, rs[l], cs[l]) {
      assert SeenCell(cells, t, rs[l], cs[l]);
    }
  }

  // When the scan stops, every cell of the matrix is dominated.
  lemma AllDominated(cost: Matrix, n: nat, m: nat, cells: seq<(nat, nat)>, t: nat,
                     rs: seq<nat>, cs: seq<nat>)
    requires IsMatrix(cost, n, m) && CellsInOrder(cost, n, m, cells) && AllCells(n, m, cells)
    requires t <= |cells| && ScanState(cost, n, m, cells, t, rs, cs)
    requires t == |cells| || |rs| == n || |cs| == m
    ensures forall r, c | 0 <= r < n && 0 <= c < m :: Dominated(cost, rs, cs, r, c)
  {
    Pigeonhole(rs, n);
    Pigeonhole(cs, m);
    forall r, c | 0 <= r < n && 0 <= c < m ensures Dominated(cost, rs, cs, r, c) {
      assert SeenCell(cells, |cells|, r, c);
      var a :| 0 <= a < |cells| && cells[a] == (r, c);
      if a < t {
        assert Dominated(cost, rs, cs, cells[a].0, cells[a].1);
      } else {
        assert r in rs || c in cs;
        var k :| 0 <= k < |rs| && (rs[k] == r || cs[k] == c);
        ChosenIsCheaper(cost, n, m, cells, t, rs, cs, k, a);
      }
    }
  }

  // If nothing is left to choose, the smaller side is exhausted.
  lemma DominatedMeansFull(cost: Matrix, n: nat, m: nat, rs: seq<nat>, cs: seq<nat>)
    requires IsMatrix(cost, n, m) && PartialAssignment(n, m, rs, cs)
    requires forall r, c | 0 <= r < n && 0 <= c < m :: Dominated(cost, rs, cs, r, c)
    ensures |rs| == (if n <= m then n else m)
  {
    Pigeonhole(rs, n);
    Pigeonhole(cs, m);
    if |rs| < n && |rs| < m {
      var r: nat :| r < n && r !in rs;
      var c: nat :| c < m && c !in cs;
      if Dominated(cost, rs, cs, r, c) {
        assert false;
      }
    }
  }

  method SortByRow(cost: Matrix, n: nat, m: nat, rs: seq<nat>, cs: seq<nat>)
    returns (rows: seq<nat>, cols: seq<nat>)
    requires IsMatrix(cost, n, m) && PartialAssignment(n, m, rs, cs)
    requires |rs| == (if n <= m then n else m)
    requires forall r, c | 0 <= r < n && 0 <= c < m :: Dominated(cost, rs, cs, r, c)
    ensures GreedyAssignment(cost, n, m, rows, cols)
  {
    var keys := seq(|rs|, k requires 0 <= k < |rs| => rs[k] as real);
    var order := Argsort(keys);
    rows := seq(|order|, k requires 0 <= k < |order| => rs[order[k]]);
    cols := seq(|order|, k requires 0 <= k < |order| => cs[order[k]]);
    forall i, j | 0 <= i < j < |rows| ensures rows[i] < rows[j] {
      assert keys[order[i]] <= keys[order[j]];
      assert order[i] != order[j];
      assert rs[order[i]] != rs[order[j]];
    }
    forall i, j | 0 <= i < j < |cols| ensures cols[i] != cols[j] {
      assert order[i] != order[j];
    }
    forall r, c | 0 <= r < n && 0 <= c < m ensures Dominated(cost, rows, cols, r, c) {
      assert Dominated(cost, rs, cs, r, c);
      var k :| 0 <= k < |rs| && (rs[k] == r || cs[k] == c) && cost[rs[k]][cs[k]] <= cost[r][c];
      assert k in order;
      var p :| 0 <= p < |order| && order[p] == k;
      assert rows[p] == rs[k] && cols[p] == cs[k];
    }
  }

  // -------------------------------------------------------------- association

  datatype Association = Association(
    matches: seq<(nat, nat)>, unmatchedTracks: seq<nat>, unmatchedDets: seq<nat>)

  predicate MatchesTrack(a: Association, i: nat) {
    exists k | 0 <= k < |a.matches| :: a.matches[k].0 == i
  }

  predicate MatchesDet(a: Association, j: nat) {
    exists k | 0 <= k < |a.matches| :: a.matches[k].1 == j
  }

  // Matches are injective on both sides and sorted by track; together with the
  // sorted leftovers they partition both index sets.
  ghost predicate Partitions(a: Association, n: nat, m: nat) {
    && (forall k | 0 <= k < |a.matches| :: a.matches[k].0 < n && a.matches[k].1 < m)
    && (forall k, l | 0 <= k < l < |a.matches| ::
          a.matches[k].0 < a.matches[l].0 && a.matches[k].1 != a.matches[l].1)
    && Ascending(a.unmatchedTracks) && Ascending(a.unmatchedDets)
    && (forall i: nat :: i in a.unmatchedTracks <==> i < n && !MatchesTrack(a, i))
    && (forall j: nat :: j in a.unmatchedDets <==> j < m && !MatchesDet(a, j))
  }

  // Every pair within the threshold loses only to a match in its row or column
  // that is at least as cheap; in particular no two leftovers are within it.
  ghost predicate Stable(a: Association, cost: Matrix, n: nat, m: nat, threshold: real)
    requires IsMatrix(cost, n, m) && Partitions(a, n, m)
  {
    && (forall k | 0 <= k < |a.matches| :: cost[a.matches[k].0][a.matches[k].1] <= threshold)
    && forall i, j | 0 <= i < n && 0 <= j < m && cost[i][j] <= threshold :: Beaten(a, cost, n, m, i, j)
  }

  // A match in row i or column j that costs no more than cell (i, j).
  ghost predicate Beaten(a: Association, cost: Matrix, n: nat, m: nat, i: nat, j: nat)
    requires IsMatrix(cost, n, m) && i < n && j < m
    requires forall k | 0 <= k < |a.matches| :: a.matches[k].0 < n && a.matches[k].1 < m
  {
    exists k | 0 <= k < |a.matches| ::
      (a.matches[k].0 == i || a.matches[k].1 == j)
      && cost[a.matches[k].0][a.matches[k].1] <= cost[i][j]
  }

  lemma NoLeftoverPair(a: Association, cost: Matrix, n: nat, m: nat, threshold: real, i: nat, j: nat)
    requires IsMatrix(cost, n, m) && Partitions(a, n, m) && Stable(a, cost, n, m, threshold)
    requires i in a.unmatchedTracks && j in a.unmatchedDets
    ensures cost[i][j] > threshold
  {
    assert !MatchesTrack(a, i) && !MatchesDet(a, j);
    assert !Beaten(a, cost, n, m, i, j);
  }

  // The positions below n that are not in taken, in order.
  method Leftovers(n: nat, taken: seq<nat>) returns (rest: seq<nat>)
    ensures Ascending(rest)
    ensures forall i: nat :: i in rest <==> i < n && i !in taken
  {
    rest := [];
    for i := 0 to n
      invariant Ascending(rest)
      invariant forall x: nat :: x in rest <==> x < i && x !in taken
    {
      if i !in taken {
        assert forall k | 0 <= k < |rest| :: rest[k] in rest;
        rest := rest + [i];
      }
    }
  }

  // The assigned cells within the threshold, in row order.
  ghost predicate WithinThreshold(
    cost: Matrix, n: nat, m: nat, threshold: real, rows: seq<nat>, cols: seq<nat>, k: nat,
    matches: seq<(nat, nat)>)
    requires IsMatrix(cost, n, m) && PartialAssignment(n, m, rows, cols) && k <= |rows|
  {
    && (forall p {:trigger matches[p]} | 0 <= p < |matches| :: AssignedPair(rows, cols, k, matches[p]))
    && (forall p | 0 <= p < |matches| ::
          matches[p].0 < n && matches[p].1 < m && cost[matches[p].0][matches[p].1] <= threshold)
    && (forall p, q | 0 <= p < q < |matches| ::
          matches[p].0 < matches[q].0 && matches[p].1 != matches[q].1)
    && (forall q {:trigger cost[rows[q]][cols[q]]} | 0 <= q < k && cost[rows[q]][cols[q]] <= threshold ::
          SeenCell(matches, |matches|, rows[q], cols[q]))
  }

  predicate AssignedPair(rows: seq<nat>, cols: seq<nat>, k: nat, pair: (nat, nat))
    requires k <= |rows| == |cols|
  {
    exists q | 0 <= q < k :: pair == (rows[q], cols[q])
  }

  lemma SkipPair(cost: Matrix, n: nat, m: nat, threshold: real, rows: seq<nat>, cols: seq<nat>, k: nat,
                 matches: seq<(nat, nat)>)
    requires IsMatrix(cost, n, m) && PartialAssignment(n, m, rows, cols) && k < |rows|
    requires WithinThreshold(cost, n, m, threshold, rows, cols, k, matches)
    requires cost[rows[k]][cols[k]] > threshold
    ensures WithinThreshold(cost, n, m, threshold, rows, cols, k + 1, matches)
  {
    forall p | 0 <= p < |matches| ensures AssignedPair(rows, cols, k + 1, matches[p]) {
      assert AssignedPair(rows, cols, k, matches[p]);
    }
  }

  lemma KeepPair(cost: Matrix, n: nat, m: nat, threshold: real, rows: seq<nat>, cols: seq<nat>, k: nat,
                 matches: seq<(nat, nat)>)
    requires IsMatrix(cost, n, m) && PartialAssignment(n, m, rows, cols) && Ascending(rows) && k < |rows|
    requires WithinThreshold(cost, n, m, threshold, rows, cols, k, matches)
    requires cost[rows[k]][cols[k]] <= threshold
    ensures WithinThreshold(cost, n, m, threshold, rows, cols, k + 1, matches + [(rows[k], cols[k])])
  {
    var more := matches + [(rows[k], cols[k])];
    forall p | 0 <= p < |matches|
      ensures AssignedPair(rows, cols, k + 1, matches[p])
      ensures matches[p].0 < rows[k] && matches[p].1 != cols[k]
    {
      assert AssignedPair(rows, cols, k, matches[p]);
      var q :| 0 <= q < k && matches[p] == (rows[q], cols[q]);
    }
    assert AssignedPair(rows, cols, k + 1, more[|matches|]);
    forall q | 0 <= q < k + 1 && cost[rows[q]][cols[q]] <= threshold
      ensures SeenCell(more, |more|, rows[q], cols[q])
    {
      if q < k {
        assert SeenCell(matches, |matches|, rows[q], cols[q]);
        var a :| 0 <= a < |matches| && matches[a] == (rows[q], cols[q]);
        assert more[a] == matches[a];
      } else {
        assert more[|matches|] == (rows[k], cols[k]);
      }
    }
  }

  lemma ThresholdKeepsStability(cost: Matrix, n: nat, m: nat, threshold: real,
                                rows: seq<nat>, cols: seq<nat>, a: Association, i: nat, j: nat)
    requires IsMatrix(cost, n, m) && GreedyAssignment(cost, n, m, rows, cols)
    requires WithinThreshold(cost, n, m, threshold, rows, cols, |rows|, a.matches)
    requires i < n && j < m && cost[i][j] <= threshold
    ensures Beaten(a, cost, n, m, i, j)
  {
    assert Dominated(cost, rows, cols, i, j);
    var q :| 0 <= q < |rows| && (rows[q] == i || cols[q] == j) && cost[rows[q]][cols[q]] <= cost[i][j];
    assert SeenCell(a.matches, |a.matches|, rows[q], cols[q]);
  }

  method AssociateDetectionsToTracks(
    metric: Metric, w: Weights, threshold: real, tracks: seq<Feature>, dets: seq<Detection>)
    returns (a: Association, ghost cost: Matrix)
    ensures IsCostMatrix(metric, w, tracks, dets, cost)
    ensures Partitions(a, |tracks|, |dets|)
    ensures Stable(a, cost, |tracks|, |dets|, threshold)
  {
    var c := ComputeCostMatrix(metric, w, tracks, dets);
    cost := c;
    var n, m := |tracks|, |dets|;
    var rows, cols := LinearSumAssignment(c, n, m);
    var matches: seq<(nat, nat)> := [];
    for k := 0 to |rows|
      invariant WithinThreshold(c, n, m, threshold, rows, cols, k, matches)
    {
      if c[rows[k]][cols[k]] <= threshold {
        KeepPair(c, n, m, threshold, rows, cols, k, matches);
        matches := matches + [(rows[k], cols[k])];
      } else {
        SkipPair(c, n, m, threshold, rows, cols, k, matches);
      }
    }
    var takenT := seq(|matches|, k requires 0 <= k < |matches| => matches[k].0);
    var takenD := seq(|matches|, k requires 0 <= k < |matches| => matches[k].1);
    var restT := Leftovers(n, takenT);
    var restD := Leftovers(m, takenD);
    a := Association(matches, restT, restD);
    TakenMeansMatched(a, takenT, takenD);
    forall i, j | 0 <= i < n && 0 <= j < m && c[i][j] <= threshold ensures Beaten(a, c, n, m, i, j) {
      ThresholdKeepsStability(c, n, m, threshold, rows, cols, a, i, j);
    }
  }

  lemma TakenMeansMatched(a: Association, takenT: seq<nat>, takenD: seq<nat>)
    requires |takenT| == |takenD| == |a.matches|
    requires forall k | 0 <= k < |a.matches| :: a.matches[k] == (takenT[k], takenD[k])
    ensures forall i: nat :: i in takenT <==> MatchesTrack(a, i)
    ensures forall j: nat :: j in takenD <==> MatchesDet(a, j)
  {
    forall i: nat ensures i in takenT <==> MatchesTrack(a, i) {
      if i in takenT {
        var k :| 0 <= k < |takenT| && takenT[k] == i;
        assert a.matches[k].0 == i;
      }
    }
    forall j: nat ensures j in takenD <==> MatchesDet(a, j) {
      if j in takenD {
        var k :| 0 <= k < |takenD| && takenD[k] == j;
        assert a.matches[k].1 == j;
      }
    }
  }
}
