/**
 Non-maximum suppression of bag bodies: the shrinking-queue loop and the simple
 scan it amounts to.
 */
module Suppression {
  import opened Wrappers
  import opened Boxes
  import opened Matching

  const NMS_IOU_THRESHOLD: real := 0.45
  const WIDTH_OVERLAP_THRESHOLD: real := 0.60

  datatype Body = Body(box: Box, score: real, mask: Option<Mask>)

  function Width(b: Box): real { b.x2 - b.x1 }

  // Boxes reaching this stage have positive sides.
  function PlainArea(b: Box): real { (b.x2 - b.x1) * (b.y2 - b.y1) }

  // Overlap over union, with denominators of at least one pixel.
  function PixelIou(a: Box, b: Box): real {
    Intersection(a, b) / Max(1.0, PlainArea(a) + PlainArea(b) - Intersection(a, b))
  }

  function WidthOverlap(a: Box, b: Box): real {
    Overlap(a.x1, a.x2, b.x1, b.x2) / Max(1.0, Min(Width(a), Width(b)))
  }

  predicate Suppresses(a: Box, b: Box) {
    PixelIou(a, b) > NMS_IOU_THRESHOLD || WidthOverlap(a, b) > WIDTH_OVERLAP_THRESHOLD
  }

  lemma SuppressionSymmetric(a: Box, b: Box)
    ensures Suppresses(a, b) <==> Suppresses(b, a)
  {
    IntersectionSymmetric(a, b);
    OverlapInside(a.x1, a.x2, b.x1, b.x2);
  }

  // Bodies of at least a pixel in width and union suppress each other exactly when they overlap by more
  // than the threshold, or when their extents along the belt share more than the given part of
  // the narrower one, wherever they lie across it.
  lemma SuppressesExactly(a: Box, b: Box)
    requires a.WellFormed() && b.WellFormed() && Width(a) >= 1.0 && Width(b) >= 1.0 && Union(a, b) >= 1.0
    ensures Suppresses(a, b)
       <==> Iou(a, b) > 0.45 || Overlap(a.x1, a.x2, b.x1, b.x2) > 0.60 * Min(Width(a), Width(b))
  {
    AreasArePlain(a);
    AreasArePlain(b);
    var w := Min(Width(a), Width(b));
    OverBy(Overlap(a.x1, a.x2, b.x1, b.x2), w);
  }

  lemma AreasArePlain(a: Box)
    requires a.WellFormed()
    ensures PlainArea(a) == Area(a)
  {
  }

  lemma OverBy(x: real, w: real)
    requires w >= 1.0
    ensures x / w > 0.60 <==> x > 0.60 * w
  {
    var q := x / w;
    assert q * w == x;
    if q > 0.60 {
      assert (q - 0.60) * w > 0.0;
    } else {
      assert (0.60 - q) * w >= 0.0;
    }
  }

  // Whether one of the kept bodies suppresses body i.
  predicate Covered(bodies: seq<Body>, kept: seq<nat>, i: nat)
    requires InRange(kept, |bodies|) && i < |bodies|
  {
    exists k | 0 <= k < |kept| :: Suppresses(bodies[kept[k]].box, bodies[i].box)
  }

  // The scan: walk the order, keep a body iff nothing kept so far suppresses it.
  function Scan(bodies: seq<Body>, kept: seq<nat>, order: seq<nat>): (r: seq<nat>)
    requires InRange(kept, |bodies|) && InRange(order, |bodies|)
    ensures InRange(r, |bodies|)
    decreases |order|
  {
    if order == [] then kept
    else if Covered(bodies, kept, order[0]) then Scan(bodies, kept, order[1..])
    else Scan(bodies, kept + [order[0]], order[1..])
  }

  // What one body leaves of a queue.
  function Survivors(bodies: seq<Body>, i: nat, order: seq<nat>): (r: seq<nat>)
    requires i < |bodies| && InRange(order, |bodies|)
    ensures InRange(r, |bodies|) && |r| <= |order|
    ensures forall x | x in r :: x in order
    ensures forall k | 0 <= k < |r| :: !Suppresses(bodies[i].box, bodies[r[k]].box)
  {
    if order == [] then []
    else
      var rest := Survivors(bodies, i, order[1..]);
      if Suppresses(bodies[i].box, bodies[order[0]].box) then rest else [order[0]] + rest
  }

  method Select(bodies: seq<Body>, i: nat, order: seq<nat>) returns (r: seq<nat>)
    requires i < |bodies| && InRange(order, |bodies|)
    ensures r == Survivors(bodies, i, order)
  {
    r := [];
    var k := |order|;
    while k > 0
      invariant 0 <= k <= |order| && r == Survivors(bodies, i, order[k..])
    {
      k := k - 1;
      assert order[k..][1..] == order[k + 1..];
      if !Suppresses(bodies[i].box, bodies[order[k]].box) {
        r := [order[k]] + r;
      }
    }
  }

  // Bodies a new member suppresses would not be kept anyway.
  lemma {:induction false} FilteringIsHarmless(bodies: seq<Body>, kept: seq<nat>, i: nat, order: seq<nat>)
    requires InRange(kept, |bodies|) && i in kept && i < |bodies| && InRange(order, |bodies|)
    ensures Scan(bodies, kept, order) == Scan(bodies, kept, Survivors(bodies, i, order))
    decreases |order|
  {
    if order != [] {
      var rest := Survivors(bodies, i, order[1..]);
      if Suppresses(bodies[i].box, bodies[order[0]].box) {
        var k :| 0 <= k < |kept| && kept[k] == i;
        assert Covered(bodies, kept, order[0]);
        FilteringIsHarmless(bodies, kept, i, order[1..]);
      } else {
        assert ([order[0]] + rest)[1..] == rest;
        if Covered(bodies, kept, order[0]) {
          FilteringIsHarmless(bodies, kept, i, order[1..]);
        } else {
          assert i in kept + [order[0]];
          FilteringIsHarmless(bodies, kept + [order[0]], i, order[1..]);
        }
      }
    }
  }

  // The loop: take the head, drop everything it suppresses, repeat.
  method Suppress(bodies: seq<Body>, order: seq<nat>) returns (keep: seq<nat>)
    requires InRange(order, |bodies|)
    ensures InRange(keep, |bodies|) && keep == Scan(bodies, [], order)
  {
    keep := [];
    var queue := order;
    while |queue| > 0
      invariant InRange(keep, |bodies|) && InRange(queue, |bodies|)
      invariant Scan(bodies, keep, queue) == Scan(bodies, [], order)
      invariant forall k | 0 <= k < |queue| :: !Covered(bodies, keep, queue[k])
      decreases |queue|
    {
      var head := queue[0];
      ghost var before := keep;
      keep := keep + [head];
      if |queue| == 1 {
        assert queue[1..] == [];
        queue := [];
        break;
      }
      var rest := Select(bodies, head, queue[1..]);
      FilteringIsHarmless(bodies, keep, head, queue[1..]);
      StillUncovered(bodies, before, head, queue, rest);
      queue := rest;
    }
  }

  lemma StillUncovered(bodies: seq<Body>, kept: seq<nat>, head: nat, queue: seq<nat>, rest: seq<nat>)
    requires InRange(kept, |bodies|) && InRange(queue, |bodies|) && queue != [] && head == queue[0]
    requires forall k | 0 <= k < |queue| :: !Covered(bodies, kept, queue[k])
    requires rest == Survivors(bodies, head, queue[1..])
    ensures forall k | 0 <= k < |rest| :: !Covered(bodies, kept + [head], rest[k])
  {
    forall k | 0 <= k < |rest| ensures !Covered(bodies, kept + [head], rest[k]) {
      assert rest[k] in rest;
      var q :| 0 <= q < |queue[1..]| && queue[1..][q] == rest[k];
      assert !Covered(bodies, kept, queue[q + 1]);
    }
  }

  // ------------------------------------------------------------------ what is kept

  // Descending by score; the order among equal scores is left open.
  ghost predicate ByScore(bodies: seq<Body>, order: seq<nat>) {
    && InRange(order, |bodies|) && Distinct(order)
    && (forall i: nat | i < |bodies| :: i in order)
    && forall i, j | 0 <= i < j < |order| :: bodies[order[i]].score >= bodies[order[j]].score
  }

  method OrderByScore(bodies: seq<Body>) returns (order: seq<nat>)
    ensures ByScore(bodies, order)
  {
    var keys := seq(|bodies|, i requires 0 <= i < |bodies| => bodies[i].score);
    var ascending := Argsort(keys);
    order := Backwards(ascending);
    BackwardsMembers(ascending);
    BackwardsDescends(bodies, keys, ascending);
  }

  function Backwards(s: seq<nat>): (r: seq<nat>)
    ensures |r| == |s|
  {
    seq(|s|, i requires 0 <= i < |s| => s[|s| - 1 - i])
  }

  lemma BackwardsMembers(s: seq<nat>)
    ensures forall x | x in s :: x in Backwards(s)
    ensures Distinct(s) ==> Distinct(Backwards(s))
  {
    forall x | x in s ensures x in Backwards(s) {
      var k :| 0 <= k < |s| && s[k] == x;
      assert Backwards(s)[|s| - 1 - k] == x;
    }
  }

  lemma BackwardsDescends(bodies: seq<Body>, keys: seq<real>, ascending: seq<nat>)
    requires |keys| == |bodies| && forall i | 0 <= i < |bodies| :: keys[i] == bodies[i].score
    requires IsArgsort(keys, ascending)
    ensures InRange(Backwards(ascending), |bodies|)
    ensures var order := Backwards(ascending);
            forall i, j | 0 <= i < j < |order| :: bodies[order[i]].score >= bodies[order[j]].score
  {
    var order, n := Backwards(ascending), |ascending|;
    forall i, j | 0 <= i < j < n ensures bodies[order[i]].score >= bodies[order[j]].score {
      assert keys[ascending[n - 1 - j]] <= keys[ascending[n - 1 - i]];
    }
  }

  ghost predicate PairwiseClear(bodies: seq<Body>, kept: seq<nat>)
    requires InRange(kept, |bodies|)
  {
    forall i, j | 0 <= i < j < |kept| :: !Suppresses(bodies[kept[i]].box, bodies[kept[j]].box)
  }

  // The scan only adds, never breaks clearness, and accounts for every body it saw:
  // kept, or suppressed by one kept earlier, or by one already there.
  lemma {:induction false} ScanLaw(bodies: seq<Body>, kept: seq<nat>, order: seq<nat>)
    requires InRange(kept, |bodies|) && InRange(order, |bodies|) && PairwiseClear(bodies, kept)
    ensures var r := Scan(bodies, kept, order);
            && kept <= r && PairwiseClear(bodies, r)
            && (forall k | |kept| <= k < |r| :: r[k] in order)
            && (forall i | 0 <= i < |order| :: order[i] in r || Covered(bodies, r, order[i]))
    decreases |order|
  {
    if order != [] {
      var r := Scan(bodies, kept, order);
      var next := if Covered(bodies, kept, order[0]) then kept else kept + [order[0]];
      ScanLaw(bodies, next, order[1..]);
      assert r == Scan(bodies, next, order[1..]);
      forall i | 0 <= i < |order| ensures order[i] in r || Covered(bodies, r, order[i]) {
        if i == 0 {
          if Covered(bodies, kept, order[0]) {
            var k :| 0 <= k < |kept| && Suppresses(bodies[kept[k]].box, bodies[order[0]].box);
            assert r[k] == kept[k];
          } else {
            assert r[|kept|] == order[0];
          }
        } else {
          assert order[i] == order[1..][i - 1];
        }
      }
    }
  }

  // Every dropped body is suppressed by a kept one that came before it in the order.
  lemma {:induction false} DroppedAfterKeeper(bodies: seq<Body>, order: seq<nat>, n: nat, i: nat)
    requires InRange(order, |bodies|) && n <= i < |order| && order[i] !in Scan(bodies, Scan(bodies, [], order[..n]), order[n..])
    requires PairwiseClear(bodies, Scan(bodies, [], order[..n]))
    requires forall x | x in Scan(bodies, [], order[..n]) :: x in order[..n]
    ensures exists k | 0 <= k < i :: order[k] in Scan(bodies, Scan(bodies, [], order[..n]), order[n..])
                                     && Suppresses(bodies[order[k]].box, bodies[order[i]].box)
    decreases |order| - n
  {
    var kept := Scan(bodies, [], order[..n]);
    var r := Scan(bodies, kept, order[n..]);
    ScanSplit(bodies, [], order[..n + 1], n);
    assert order[..n + 1][..n] == order[..n] && order[..n + 1][n..] == [order[n]];
    var next := Scan(bodies, [], order[..n + 1]);
    OneMore(bodies, kept, order[n]);
    assert order[n..][0] == order[n] && order[n..][1..] == order[n + 1..];
    assert r == Scan(bodies, next, order[n + 1..]);
    if i > n {
      ScanLaw(bodies, kept, [order[n]]);
      forall x | x in next ensures x in order[..n + 1] {
        assert order[..n + 1] == order[..n] + [order[n]];
      }
      DroppedAfterKeeper(bodies, order, n + 1, i);
    } else {
      ScanLaw(bodies, kept, order[n..]);
      if Covered(bodies, kept, order[n]) {
        var k :| 0 <= k < |kept| && Suppresses(bodies[kept[k]].box, bodies[order[n]].box);
        assert kept[k] in kept;
        var p :| 0 <= p < n && order[..n][p] == kept[k];
        assert r[k] == kept[k] == order[p];
      } else {
        UncoveredIsKept(bodies, kept, order[n..]);
      }
    }
  }

  lemma UncoveredIsKept(bodies: seq<Body>, kept: seq<nat>, queue: seq<nat>)
    requires InRange(kept, |bodies|) && InRange(queue, |bodies|) && PairwiseClear(bodies, kept)
    requires queue != [] && !Covered(bodies, kept, queue[0])
    ensures queue[0] in Scan(bodies, kept, queue)
  {
    ScanLaw(bodies, kept + [queue[0]], queue[1..]);
    assert Scan(bodies, kept, queue)[|kept|] == queue[0];
  }

  lemma OneMore(bodies: seq<Body>, kept: seq<nat>, i: nat)
    requires InRange(kept, |bodies|) && i < |bodies|
    ensures InRange([i], |bodies|)
    ensures Scan(bodies, kept, [i]) == if Covered(bodies, kept, i) then kept else kept + [i]
  {
    assert [i][1..] == [];
  }

  lemma {:induction false} ScanSplit(bodies: seq<Body>, kept: seq<nat>, order: seq<nat>, n: nat)
    requires InRange(kept, |bodies|) && InRange(order, |bodies|) && n <= |order|
    ensures Scan(bodies, kept, order) == Scan(bodies, Scan(bodies, kept, order[..n]), order[n..])
    decreases n
  {
    if n > 0 {
      var next := if Covered(bodies, kept, order[0]) then kept else kept + [order[0]];
      ScanSplit(bodies, next, order[1..], n - 1);
      assert order[..n][0] == order[0] && order[..n][1..] == order[1..][..n - 1];
      assert order[n..] == order[1..][n - 1..];
    } else {
      assert order[..0] == [] && order[0..] == order;
    }
  }

  // Kept bodies do not suppress one another, in either direction.
  lemma KeptDoNotSuppress(bodies: seq<Body>, order: seq<nat>, i: nat, j: nat)
    requires InRange(order, |bodies|)
    requires i < |Scan(bodies, [], order)| && j < |Scan(bodies, [], order)| && i != j
    ensures var keep := Scan(bodies, [], order); !Suppresses(bodies[keep[i]].box, bodies[keep[j]].box)
  {
    var keep := Scan(bodies, [], order);
    ScanLaw(bodies, [], order);
    SuppressionSymmetric(bodies[keep[i]].box, bodies[keep[j]].box);
  }

  // Every body is kept or suppressed by a kept one of no lower score.
  lemma DroppedHasBetter(bodies: seq<Body>, order: seq<nat>, b: nat) returns (keeper: nat)
    requires ByScore(bodies, order) && b < |bodies| && b !in Scan(bodies, [], order)
    ensures keeper < |bodies| && keeper in Scan(bodies, [], order)
    ensures Suppresses(bodies[keeper].box, bodies[b].box) && bodies[keeper].score >= bodies[b].score
  {
    assert b in order;
    var i :| 0 <= i < |order| && order[i] == b;
    assert order[..0] == [] && order[0..] == order;
    DroppedAfterKeeper(bodies, order, 0, i);
    var p :| 0 <= p < i && order[p] in Scan(bodies, [], order) && Suppresses(bodies[order[p]].box, bodies[order[i]].box);
    keeper := order[p];
  }

  // THE RESULT, both ways: among bodies by descending score, one is dropped exactly when
  // a kept one before it suppresses it.
  lemma DroppedExactly(bodies: seq<Body>, order: seq<nat>, i: nat)
    requires ByScore(bodies, order) && i < |order|
    ensures order[i] !in Scan(bodies, [], order)
       <==> exists k | 0 <= k < i :: order[k] in Scan(bodies, [], order)
                                     && Suppresses(bodies[order[k]].box, bodies[order[i]].box)
  {
    var keep := Scan(bodies, [], order);
    if order[i] !in keep {
      assert order[..0] == [] && order[0..] == order;
      DroppedAfterKeeper(bodies, order, 0, i);
    } else {
      forall k | 0 <= k < i && order[k] in keep
        ensures !Suppresses(bodies[order[k]].box, bodies[order[i]].box)
      {
        var a :| 0 <= a < |keep| && keep[a] == order[k];
        var b :| 0 <= b < |keep| && keep[b] == order[i];
        assert order[k] != order[i];
        KeptDoNotSuppress(bodies, order, a, b);
      }
    }
  }

  ghost predicate Descending(bodies: seq<Body>, order: seq<nat>) {
    && InRange(order, |bodies|) && Distinct(order)
    && forall i, j | 0 <= i < j < |order| :: bodies[order[i]].score >= bodies[order[j]].score
  }

  // The scan keeps the order it walks.
  lemma {:induction false} ScanDescends(bodies: seq<Body>, kept: seq<nat>, order: seq<nat>)
    requires InRange(kept, |bodies|) && InRange(order, |bodies|) && Descending(bodies, kept + order)
    ensures Descending(bodies, Scan(bodies, kept, order))
    decreases |order|
  {
    if order == [] {
      assert kept + order == kept;
    } else {
      var n, rest := |kept|, order[1..];
      assert kept + [order[0]] + rest == kept + order;
      assert Descending(bodies, kept + rest) by {
        assert forall i | 0 <= i < |kept + rest| :: (kept + rest)[i] == (kept + order)[if i < n then i else i + 1];
      }
      ScanDescends(bodies, if Covered(bodies, kept, order[0]) then kept else kept + [order[0]], rest);
    }
  }

  // Sort, then suppress: the bodies kept do not suppress one another, and every body is kept
  // or suppressed by a kept one of no lower score.
  method KeepBodies(bodies: seq<Body>) returns (kept: seq<Body>, ghost order: seq<nat>, ghost keep: seq<nat>)
    ensures ByScore(bodies, order) && keep == Scan(bodies, [], order)
    ensures InRange(keep, |bodies|) && kept == seq(|keep|, k requires 0 <= k < |keep| => bodies[keep[k]])
    ensures Distinct(keep) && forall k, l | 0 <= k < l < |kept| :: kept[k].score >= kept[l].score
    ensures forall k, l | 0 <= k < |kept| && 0 <= l < |kept| && k != l :: !Suppresses(kept[k].box, kept[l].box)
    ensures forall b: nat | b < |bodies| && b !in keep ::
              exists k | 0 <= k < |kept| :: Suppresses(kept[k].box, bodies[b].box) && kept[k].score >= bodies[b].score
  {
    var o := OrderByScore(bodies);
    var indices := Suppress(bodies, o);
    kept := seq(|indices|, k requires 0 <= k < |indices| => bodies[indices[k]]);
    order, keep := o, indices;
    forall k, l | 0 <= k < |keep| && 0 <= l < |keep| && k != l ensures !Suppresses(kept[k].box, kept[l].box) {
      KeptDoNotSuppress(bodies, order, k, l);
    }
    assert [] + order == order;
    ScanDescends(bodies, [], order);
    forall b: nat | b < |bodies| && b !in keep
      ensures exists k | 0 <= k < |kept| :: Suppresses(kept[k].box, bodies[b].box) && kept[k].score >= bodies[b].score
    {
      var keeper := DroppedHasBetter(bodies, order, b);
      var k :| 0 <= k < |keep| && keep[k] == keeper;
      assert kept[k] == bodies[keeper];
    }
  }
}
