/**
 What follows from one owner per block: the pace that keeps it, the exact number of
 names a producer needs, and the order in which frames leave a queue.
 */
module RingLaws {
  import opened Wrappers
  import opened Transport
  import opened Ownership

  // ------------------------------------------------------------------- pacing

  // Live frames are named by their index modulo the cycle.
  ghost predicate Numbered(w: World) {
    forall f {:trigger w.Live(f)} | w.Live(f) ::
      && f.name == Name(f.camera, f.index % w.cycle)
      && (f.epoch == w.DriverOf(f.camera).epoch ==> f.index <= w.DriverOf(f.camera).counter)
      && f.epoch <= w.DriverOf(f.camera).epoch
  }

  // Counting the frame about to be written, the camera's live frames span less than a cycle.
  ghost predicate SpanWithin(w: World, c: int) {
    forall f {:trigger w.Live(f)} | w.Live(f) && f.camera == c ::
      f.epoch == w.DriverOf(c).epoch && w.DriverOf(c).counter + 1 - f.index < w.cycle
  }

  lemma ResiduesDiffer(k: nat, j: nat, n: nat)
    requires j < k && k - j < n
    ensures k % n != j % n
  {
    if k % n == j % n {
      var a, b := k / n, j / n;
      assert k == n * a + k % n && j == n * b + j % n;
      assert k - j == n * (a - b);
      if a - b >= 1 {
        AtLeast(n, a - b);
      } else {
        AtMost(n, b - a);
      }
    }
  }

  lemma AtLeast(n: int, d: int)
    requires n >= 0 && d >= 1
    ensures n * d >= n
  {
  }

  lemma AtMost(n: int, d: int)
    requires n >= 0 && d >= 0
    ensures n * -d <= 0
  {
  }

  lemma SpanIsSafe(w: World, c: int, image: Image)
    requires Placed(w) && Numbered(w) && SpanWithin(w, c)
    ensures Safe(w, Write(c, image))
  {
    var k := w.NextFrame(c);
    if Claims(w, k.name) >= 1 {
      var f := ClaimIsLive(w, k.name);
      LiveClaims(w, f);
      ResiduesDiffer(k.index, f.index, w.cycle);
    }
  }

  // Steps make no frame live but the one they write.
  lemma LiveBefore(w: World, s: Step, f: Frame)
    requires Placed(w) && Next(w, s).Live(f)
    ensures w.Live(f) || (s.Write? && s.camera !in w.pending && f == w.NextFrame(s.camera))
  {
    if s.Consume? {
      ConsumedLive(w, f);
    }
  }

  lemma NextKeepsNumbered(w: World, s: Step)
    requires Placed(w) && Numbered(w)
    ensures Numbered(Next(w, s))
  {
    var w' := Next(w, s);
    forall f | w'.Live(f)
      ensures f.name == Name(f.camera, f.index % w'.cycle)
      ensures f.epoch == w'.DriverOf(f.camera).epoch ==> f.index <= w'.DriverOf(f.camera).counter
      ensures f.epoch <= w'.DriverOf(f.camera).epoch
    {
      LiveBefore(w, s, f);
    }
  }

  // A run in which every write finds its camera's span within the cycle.
  ghost predicate Paced(w: World, steps: seq<Step>) {
    forall i | 0 <= i < |steps| && steps[i].Write? :: SpanWithin(Run(w, steps[..i]), steps[i].camera)
  }

  lemma StartIsOwned(capacity: int, cycle: Cycle)
    ensures Owned(Start(capacity, cycle)) && Numbered(Start(capacity, cycle))
  {
  }

  // Over every paced run, in any interleaving, every frame that is queued or in flight
  // reads exactly the pixels written for it, and every block has exactly one owner.
  lemma {:induction false} PacedRunIsOwned(w: World, steps: seq<Step>)
    requires Owned(w) && Numbered(w) && Paced(w, steps)
    ensures Owned(Run(w, steps)) && Numbered(Run(w, steps))
  {
    if steps != [] {
      var init, s := steps[..|steps| - 1], steps[|steps| - 1];
      assert forall i | 0 <= i < |init| :: init[..i] == steps[..i];
      PacedRunIsOwned(w, init);
      if s.Write? {
        SpanIsSafe(Run(w, init), s.camera, s.image);
      }
      OwnershipKeptExactly(Run(w, init), s);
      NextKeepsNumbered(Run(w, init), s);
    }
  }

  // From the empty ring: whatever is queued or in flight reads its own pixels.
  lemma PacedRunIsSafe(capacity: int, cycle: Cycle, steps: seq<Step>)
    requires Paced(Start(capacity, cycle), steps)
    ensures Owned(Run(Start(capacity, cycle), steps))
  {
    StartIsOwned(capacity, cycle);
    PacedRunIsOwned(Start(capacity, cycle), steps);
  }

  // ---------------------------------------------- how many names a producer needs

  // Write and publish one frame per image, nothing consumed.
  function Rounds(c: int, images: seq<Image>): seq<Step> {
    if images == [] then [] else
      Rounds(c, images[..|images| - 1]) + [Write(c, images[|images| - 1]), Publish(c)]
  }

  function FrameNo(c: int, cycle: Cycle, k: nat): Frame { Frame(c, 0, k, Name(c, k % cycle)) }

  // Frames lo + 1 to hi.
  function FramesOf(c: int, cycle: Cycle, lo: nat, hi: nat): (r: seq<Frame>)
    requires lo <= hi
    ensures |r| == hi - lo
  {
    seq(hi - lo, i requires 0 <= i < hi - lo => FrameNo(c, cycle, lo + 1 + i))
  }

  function Oldest(capacity: nat, m: nat): nat { if m > capacity then m - capacity else 0 }

  // After m rounds the queue holds the last frames up to the capacity.
  ghost predicate AfterRounds(w: World, capacity: nat, cycle: Cycle, c: int, images: seq<Image>) {
    var m := |images|;
    && w.pending == map[] && w.inFlight == [] && w.cycle == cycle && w.ring.capacity == capacity
    && w.DriverOf(c) == Driver(0, m)
    && w.ring.Queue(c) == FramesOf(c, cycle, Oldest(capacity, m), m)
    && (forall x | x != c :: w.ring.Queue(x) == [])
    && (forall k | 1 <= k <= m :: FrameNo(c, cycle, k) in w.images && w.images[FrameNo(c, cycle, k)] == images[k - 1])
  }

  lemma TwoSteps(w: World, steps: seq<Step>, s: Step, t: Step)
    ensures Run(w, steps + [s, t]) == Next(Next(Run(w, steps), s), t)
  {
    var all := steps + [s, t];
    assert all[..|all| - 1] == steps + [s];
    assert (steps + [s])[..|steps|] == steps;
  }

  // Between the two steps of a round.
  ghost predicate MidRound(w: World, capacity: nat, cycle: Cycle, c: int, images: seq<Image>)
    requires images != []
  {
    var m := |images|;
    && w.pending == map[c := FrameNo(c, cycle, m)] && w.inFlight == []
    && w.cycle == cycle && w.ring.capacity == capacity && w.DriverOf(c) == Driver(0, m)
    && w.ring.Queue(c) == FramesOf(c, cycle, Oldest(capacity, m - 1), m - 1)
    && (forall x | x != c :: w.ring.Queue(x) == [])
    && (forall k | 1 <= k <= m :: FrameNo(c, cycle, k) in w.images && w.images[FrameNo(c, cycle, k)] == images[k - 1])
  }

  lemma RoundWrites(w: World, capacity: nat, cycle: Cycle, c: int, images: seq<Image>, image: Image)
    requires capacity >= 1 && AfterRounds(w, capacity, cycle, c, images)
    ensures MidRound(Next(w, Write(c, image)), capacity, cycle, c, images + [image])
  {
    forall x | x != c ensures Next(w, Write(c, image)).ring.Queue(x) == [] {
      assert w.ring.Queue(x) == [];
    }
  }

  lemma SlideQueue(capacity: nat, cycle: Cycle, c: int, m: nat)
    requires capacity >= 1 && m >= 1
    ensures var q := FramesOf(c, cycle, Oldest(capacity, m - 1), m - 1);
            (if |q| >= capacity then q[1..] else q) + [FrameNo(c, cycle, m)] == FramesOf(c, cycle, Oldest(capacity, m), m)
  {
  }

  lemma RoundPublishes(w: World, capacity: nat, cycle: Cycle, c: int, images: seq<Image>)
    requires capacity >= 1 && images != [] && MidRound(w, capacity, cycle, c, images)
    ensures AfterRounds(Next(w, Publish(c)), capacity, cycle, c, images)
  {
    var f, w' := FrameNo(c, cycle, |images|), Next(w, Publish(c));
    SlideQueue(capacity, cycle, c, |images|);
    if |w.ring.Queue(c)| < capacity {
      PublishedWithRoom(w.ring, f);
    } else {
      PublishedWhenFull(w.ring, f);
    }
    assert w'.pending == map[];
    forall x | x != c ensures w'.ring.Queue(x) == [] {
      PublishedOthers(w.ring, f, x);
      assert w.ring.Queue(x) == [];
    }
  }

  lemma RoundOn(start: World, steps: seq<Step>, capacity: nat, cycle: Cycle, c: int, images: seq<Image>, image: Image)
    requires capacity >= 1 && AfterRounds(Run(start, steps), capacity, cycle, c, images)
    ensures AfterRounds(Run(start, steps + [Write(c, image), Publish(c)]), capacity, cycle, c, images + [image])
  {
    RoundWrites(Run(start, steps), capacity, cycle, c, images, image);
    RoundPublishes(Next(Run(start, steps), Write(c, image)), capacity, cycle, c, images + [image]);
    TwoSteps(start, steps, Write(c, image), Publish(c));
  }

  lemma NoRounds(capacity: nat, cycle: Cycle, c: int)
    requires capacity >= 1
    ensures AfterRounds(Start(capacity, cycle), capacity, cycle, c, [])
  {
    assert FramesOf(c, cycle, 0, 0) == [];
  }

  lemma {:induction false} RoundsState(capacity: nat, cycle: Cycle, c: int, images: seq<Image>)
    requires capacity >= 1
    ensures AfterRounds(Run(Start(capacity, cycle), Rounds(c, images)), capacity, cycle, c, images)
  {
    if images == [] {
      NoRounds(capacity, cycle, c);
    } else {
      var init, image := images[..|images| - 1], images[|images| - 1];
      RoundsState(capacity, cycle, c, init);
      RoundOn(Start(capacity, cycle), Rounds(c, init), capacity, cycle, c, init, image);
      assert init + [image] == images;
    }
  }

  // With more names than slots, or before the names run out, every round is safe.
  lemma {:induction false} RoundsOwned(capacity: nat, cycle: Cycle, c: int, images: seq<Image>)
    requires capacity >= 1 && (cycle > capacity || |images| <= cycle)
    ensures Owned(Run(Start(capacity, cycle), Rounds(c, images)))
  {
    if images != [] {
      var init, image := images[..|images| - 1], images[|images| - 1];
      var w := Run(Start(capacity, cycle), Rounds(c, init));
      RoundsOwned(capacity, cycle, c, init);
      RoundsState(capacity, cycle, c, init);
      RoundIsSafe(w, capacity, cycle, c, init, image);
      TwoSteps(Start(capacity, cycle), Rounds(c, init), Write(c, image), Publish(c));
      OwnershipKeptExactly(w, Write(c, image));
      OwnershipKeptExactly(Next(w, Write(c, image)), Publish(c));
    }
  }

  lemma RoundIsSafe(w: World, capacity: nat, cycle: Cycle, c: int, images: seq<Image>, image: Image)
    requires Placed(w) && AfterRounds(w, capacity, cycle, c, images)
    requires cycle > capacity || |images| < cycle
    ensures Safe(w, Write(c, image))
  {
    var n := w.NextFrame(c).name;
    if Claims(w, n) >= 1 {
      assert Named([], n) == 0;
      var i := NamedFinds(w.ring.Queue(c), n);
      ResiduesDiffer(|images| + 1, w.ring.Queue(c)[i].index, cycle);
    }
  }

  lemma SameSlot(cycle: Cycle)
    ensures (cycle + 1) % cycle == 1 % cycle
  {
    if cycle > 1 {
      assert cycle + 1 == cycle * 1 + 1;
    }
  }

  // One image per round, all different.
  function Plates(n: nat): (r: seq<Image>)
    ensures |r| == n
  {
    seq(n, i => Image([1], "uint8", [i]))
  }

  // The world after m rounds.
  function Round(capacity: int, cycle: Cycle, c: int, m: nat): World {
    Run(Start(capacity, cycle), Rounds(c, Plates(m)))
  }

  lemma OneRoundMore(capacity: int, cycle: Cycle, c: int)
    ensures Round(capacity, cycle, c, cycle + 1)
         == Next(Next(Round(capacity, cycle, c, cycle), Write(c, Plates(cycle + 1)[cycle])), Publish(c))
  {
    var images := Plates(cycle + 1);
    assert images[..cycle] == Plates(cycle);
    TwoSteps(Start(capacity, cycle), Rounds(c, Plates(cycle)), Write(c, images[cycle]), Publish(c));
  }

  // As many names as slots: evicting the first frame takes the newest frame's block along.
  lemma NewestIsLost(capacity: nat, cycle: Cycle, c: int)
    requires capacity == cycle
    ensures var w, f := Round(capacity, cycle, c, cycle + 1), FrameNo(c, cycle, cycle + 1);
            w.Live(f) && w.ring.Get(f.name) == None && !OwnPixels(w)
  {
    var w, w' := Round(capacity, cycle, c, cycle), Round(capacity, cycle, c, cycle + 1);
    OneRoundMore(capacity, cycle, c);
    RoundsState(capacity, cycle, c, Plates(cycle));
    RoundsState(capacity, cycle, c, Plates(cycle + 1));
    SameSlot(cycle);
    var first, last := FrameNo(c, cycle, 1), FrameNo(c, cycle, cycle + 1);
    assert w.ring.Queue(c)[0] == first && first.name == last.name;
    assert w'.ring.Queue(c)[|w'.ring.Queue(c)| - 1] == last;
    assert w'.Live(last);
    assert w'.ring.blocks == Next(w, Write(c, Plates(cycle + 1)[cycle])).ring.blocks - {first.name};
  }

  // Fewer names than slots: the first frame, still queued, reads the newest frame's pixels.
  lemma OldestIsOverwritten(capacity: nat, cycle: Cycle, c: int)
    requires cycle < capacity
    ensures var w, f := Round(capacity, cycle, c, cycle + 1), FrameNo(c, cycle, 1);
            w.Live(f) && w.ring.Get(f.name) == Some(Plates(cycle + 1)[cycle]) && !OwnPixels(w)
  {
    var w, w' := Round(capacity, cycle, c, cycle), Round(capacity, cycle, c, cycle + 1);
    OneRoundMore(capacity, cycle, c);
    RoundsState(capacity, cycle, c, Plates(cycle));
    RoundsState(capacity, cycle, c, Plates(cycle + 1));
    SameSlot(cycle);
    var first := FrameNo(c, cycle, 1);
    var image := Plates(cycle + 1)[cycle];
    assert w'.ring.Queue(c)[0] == first;
    assert w'.Live(first);
    assert w'.ring.blocks == Next(w, Write(c, image)).ring.blocks;
    assert image.bytes == [cycle] && Plates(cycle + 1)[0].bytes == [0];
    assert w'.images[first] == Plates(cycle + 1)[0];
  }

  ghost predicate SafeRounds(capacity: int, cycle: Cycle, c: int, images: seq<Image>) {
    OwnPixels(Run(Start(capacity, cycle), Rounds(c, images)))
  }

  // A producer alone is safe, however long it runs, exactly with more names than slots.
  lemma NamesMustExceedSlots(capacity: nat, cycle: Cycle, c: int)
    requires capacity >= 1
    ensures (forall images :: SafeRounds(capacity, cycle, c, images)) <==> cycle > capacity
  {
    if cycle > capacity {
      forall images ensures SafeRounds(capacity, cycle, c, images) {
        RoundsOwned(capacity, cycle, c, images);
      }
    } else {
      if cycle == capacity {
        NewestIsLost(capacity, cycle, c);
      } else {
        OldestIsOverwritten(capacity, cycle, c);
      }
      assert !SafeRounds(capacity, cycle, c, Plates(cycle + 1));
    }
  }

  // ------------------------------------------------------------------ first in, first out

  // The length of the trailing run of overflowing publications.
  function Trailing(overflow: seq<bool>): nat {
    if overflow == [] || !overflow[|overflow| - 1] then 0 else Trailing(overflow[..|overflow| - 1]) + 1
  }

  function CountOf(fates: seq<bool>, b: bool): nat {
    if fates == [] then 0 else CountOf(fates[..|fates| - 1], b) + if fates[|fates| - 1] == b then 1 else 0
  }

  // The published frames that were consumed rather than dropped, in order of publication.
  function Kept(published: seq<Frame>, fates: seq<bool>): seq<Frame>
    requires |fates| <= |published|
  {
    if fates == [] then [] else
      var n := |fates| - 1;
      if fates[n] then Kept(published, fates[..n]) + [published[n]] else Kept(published, fates[..n])
  }

  // A camera's queue is the newest stretch of what was published; what left it was
  // consumed in order or dropped; the counters say how often.
  ghost predicate LaneOk(q: seq<Frame>, l: Lane, drops: nat, consecutive: nat) {
    && |l.fates| <= |l.published|
    && q == l.published[|l.fates|..]
    && l.out == Kept(l.published, l.fates)
    && |l.out| == CountOf(l.fates, true)
    && drops == CountOf(l.fates, false)
    && |l.overflow| == |l.published|
    && consecutive == Trailing(l.overflow)
  }

  ghost predicate Fifo(w: World, c: int) {
    && LaneOk(w.ring.Queue(c), w.LaneOf(c), w.ring.Drops(c), w.ring.Consecutive(c))
    && (w.ring.Queue(c) != [] ==> |w.ring.Queue(c)| <= w.ring.capacity)
  }

  ghost predicate AllFifo(w: World) {
    && OrderOk(w.ring) && (forall c | c in w.lanes :: c in w.ring.queues)
    && forall c :: Fifo(w, c)
  }

  lemma {:induction false} KeptAppend(published: seq<Frame>, f: Frame, fates: seq<bool>)
    requires |fates| <= |published|
    ensures Kept(published + [f], fates) == Kept(published, fates)
  {
    if fates != [] {
      KeptAppend(published, f, fates[..|fates| - 1]);
    }
  }

  lemma {:induction false} FatesAddUp(fates: seq<bool>)
    ensures CountOf(fates, true) + CountOf(fates, false) == |fates|
  {
    if fates != [] {
      FatesAddUp(fates[..|fates| - 1]);
    }
  }

  lemma NextFate(published: seq<Frame>, fates: seq<bool>, b: bool)
    requires |fates| < |published|
    ensures Kept(published, fates + [b])
         == if b then Kept(published, fates) + [published[|fates|]] else Kept(published, fates)
    ensures CountOf(fates + [b], true) == CountOf(fates, true) + if b then 1 else 0
    ensures CountOf(fates + [b], false) == CountOf(fates, false) + if b then 0 else 1
  {
    assert (fates + [b])[..|fates|] == fates;
  }

  lemma NextOverflow(overflow: seq<bool>, full: bool)
    ensures Trailing(overflow + [full]) == if full then Trailing(overflow) + 1 else 0
  {
    assert (overflow + [full])[..|overflow|] == overflow;
  }

  // One more frame while there is room.
  lemma AppendLane(q: seq<Frame>, l: Lane, drops: nat, consecutive: nat, f: Frame)
    requires LaneOk(q, l, drops, consecutive)
    ensures LaneOk(q + [f], Lane(l.published + [f], l.fates, l.overflow + [false], l.out), drops, 0)
  {
    KeptAppend(l.published, f, l.fates);
    NextOverflow(l.overflow, false);
    assert (l.published + [f])[|l.fates|..] == q + [f];
  }

  // One more frame for the oldest.
  lemma DropLane(q: seq<Frame>, l: Lane, drops: nat, consecutive: nat, f: Frame)
    requires LaneOk(q, l, drops, consecutive) && q != []
    ensures LaneOk(q[1..] + [f], Lane(l.published + [f], l.fates + [false], l.overflow + [true], l.out),
                   drops + 1, consecutive + 1)
  {
    KeptAppend(l.published, f, l.fates);
    NextFate(l.published + [f], l.fates, false);
    NextOverflow(l.overflow, true);
    assert (l.published + [f])[|l.fates| + 1..] == q[1..] + [f];
  }

  // The oldest frame goes to a consumer.
  lemma TakeLane(q: seq<Frame>, l: Lane, drops: nat, consecutive: nat)
    requires LaneOk(q, l, drops, consecutive) && q != []
    ensures LaneOk(q[1..], l.(fates := l.fates + [true], out := l.out + [q[0]]), drops, consecutive)
  {
    NextFate(l.published, l.fates, true);
  }

  // Another camera's lane is untouched.
  lemma SameFifo(w: World, w': World, c: int)
    requires Fifo(w, c) && w'.ring.capacity == w.ring.capacity
    requires w'.ring.Queue(c) == w.ring.Queue(c) && w'.LaneOf(c) == w.LaneOf(c)
    requires w'.ring.Drops(c) == w.ring.Drops(c) && w'.ring.Consecutive(c) == w.ring.Consecutive(c)
    ensures Fifo(w', c)
  {
  }

  // What a publication does to its own camera.
  lemma PublishedLane(w: World, c: int)
    requires c in w.pending && w.pending[c].camera == c
    ensures var w', q, l, f := PublishStep(w, c), w.ring.Queue(c), w.LaneOf(c), w.pending[c];
            && w'.ring.capacity == w.ring.capacity
            && (Published(w.ring, f).1.Err? ==>
                  w'.ring.Queue(c) == q && w'.LaneOf(c) == l
                  && w'.ring.Drops(c) == w.ring.Drops(c) && w'.ring.Consecutive(c) == w.ring.Consecutive(c))
            && (Published(w.ring, f).1.Ok? && |q| < w.ring.capacity ==>
                  w'.ring.Queue(c) == q + [f]
                  && w'.LaneOf(c) == Lane(l.published + [f], l.fates, l.overflow + [false], l.out)
                  && w'.ring.Drops(c) == w.ring.Drops(c) && w'.ring.Consecutive(c) == 0)
            && (Published(w.ring, f).1.Ok? && |q| >= w.ring.capacity ==>
                  q != [] && w'.ring.Queue(c) == q[1..] + [f]
                  && w'.LaneOf(c) == Lane(l.published + [f], l.fates + [false], l.overflow + [true], l.out)
                  && w'.ring.Drops(c) == w.ring.Drops(c) + 1 && w'.ring.Consecutive(c) == w.ring.Consecutive(c) + 1)
  {
    if |w.ring.Queue(c)| < w.ring.capacity {
      PublishedWithRoom(w.ring, w.pending[c]);
    } else {
      PublishedWhenFull(w.ring, w.pending[c]);
    }
  }

  lemma OwnLaneKeepsFifo(w: World, c: int)
    requires AllFifo(w) && c in w.pending && w.pending[c].camera == c
    ensures Fifo(PublishStep(w, c), c)
  {
    var q, l, f := w.ring.Queue(c), w.LaneOf(c), w.pending[c];
    assert Fifo(w, c);
    PublishedLane(w, c);
    if Published(w.ring, f).1.Ok? {
      if |q| >= w.ring.capacity {
        DropLane(q, l, w.ring.Drops(c), w.ring.Consecutive(c), f);
      } else {
        AppendLane(q, l, w.ring.Drops(c), w.ring.Consecutive(c), f);
      }
    }
  }

  lemma LaneOfPublish(w: World, c: int, x: int)
    requires AllFifo(w) && c in w.pending && w.pending[c].camera == c
    ensures Fifo(PublishStep(w, c), x)
  {
    if x == c {
      OwnLaneKeepsFifo(w, c);
    } else {
      OtherLanes(w, c, x);
      SameFifo(w, PublishStep(w, c), x);
    }
  }

  lemma PublishKeepsOrder(w: World, c: int)
    requires OrderOk(w.ring) && (forall x | x in w.lanes :: x in w.ring.queues)
    requires c in w.pending && w.pending[c].camera == c
    ensures OrderOk(PublishStep(w, c).ring)
    ensures forall x | x in PublishStep(w, c).lanes :: x in PublishStep(w, c).ring.queues
  {
    PublishIsOrdered(w, c);
  }

  lemma PublishKeepsFifo(w: World, c: int)
    requires AllFifo(w) && c in w.pending && w.pending[c].camera == c
    ensures AllFifo(PublishStep(w, c))
  {
    PublishKeepsOrder(w, c);
    forall x ensures Fifo(PublishStep(w, c), x) {
      LaneOfPublish(w, c, x);
    }
  }

  lemma OtherLanes(w: World, c: int, x: int)
    requires c in w.pending && w.pending[c].camera == c && x != c
    ensures var w' := PublishStep(w, c);
            && w'.ring.Queue(x) == w.ring.Queue(x) && w'.LaneOf(x) == w.LaneOf(x)
            && w'.ring.Drops(x) == w.ring.Drops(x) && w'.ring.Consecutive(x) == w.ring.Consecutive(x)
  {
    PublishedOthers(w.ring, w.pending[c], x);
  }

  // A pass takes the head of the camera's queue, if there is one, and nothing else.
  lemma ConsumedLane(w: World, c: int)
    requires OrderOk(w.ring) && (c in w.lanes ==> c in w.ring.queues)
    ensures var w', q, l := ConsumeStep(w), w.ring.Queue(c), w.LaneOf(c);
            && w'.ring.capacity == w.ring.capacity
            && w'.ring.Drops(c) == w.ring.Drops(c) && w'.ring.Consecutive(c) == w.ring.Consecutive(c)
            && (q == [] ==> w'.ring.Queue(c) == q && w'.LaneOf(c) == l)
            && (q != [] ==> w'.ring.Queue(c) == q[1..]
                            && w'.LaneOf(c) == l.(fates := l.fates + [true], out := l.out + [q[0]]))
  {
    ConsumedQueue(w, c);
  }

  lemma LaneOfConsume(w: World, c: int)
    requires OrderOk(w.ring) && Fifo(w, c) && (c in w.lanes ==> c in w.ring.queues)
    ensures Fifo(ConsumeStep(w), c)
  {
    ConsumedLane(w, c);
    if w.ring.Queue(c) == [] {
      SameFifo(w, ConsumeStep(w), c);
    } else {
      TakeLane(w.ring.Queue(c), w.LaneOf(c), w.ring.Drops(c), w.ring.Consecutive(c));
    }
  }

  lemma ConsumeKeepsFifo(w: World)
    requires AllFifo(w)
    ensures AllFifo(ConsumeStep(w))
  {
    forall c ensures Fifo(ConsumeStep(w), c) {
      assert Fifo(w, c);
      LaneOfConsume(w, c);
    }
  }

  lemma NextKeepsFifo(w: World, s: Step)
    requires AllFifo(w) && Placed(w)
    ensures AllFifo(Next(w, s))
  {
    match s
    case Publish(c) =>
      if c in w.pending {
        PublishKeepsFifo(w, c);
      }
    case Consume => ConsumeKeepsFifo(w);
    case _ => QuietKeepsFifo(w, Next(w, s));
  }

  // Steps that touch no queue.
  lemma QuietKeepsFifo(w: World, w': World)
    requires AllFifo(w) && w'.lanes == w.lanes && w'.ring.(blocks := w.ring.blocks) == w.ring
    ensures AllFifo(w')
  {
    forall c ensures Fifo(w', c) {
      SameFifo(w, w', c);
    }
  }

  lemma {:induction false} RunKeepsFifo(w: World, steps: seq<Step>)
    requires AllFifo(w) && Placed(w)
    ensures AllFifo(Run(w, steps)) && Placed(Run(w, steps))
  {
    if steps != [] {
      RunKeepsFifo(w, steps[..|steps| - 1]);
      NextKeepsFifo(Run(w, steps[..|steps| - 1]), steps[|steps| - 1]);
      NextKeepsPlaced(Run(w, steps[..|steps| - 1]), steps[|steps| - 1]);
    }
  }

  lemma NextKeepsPlaced(w: World, s: Step)
    requires Placed(w)
    ensures Placed(Next(w, s))
  {
    match s
    case Write(c, image) =>
    case Publish(c) =>
      if c in w.pending {
        PublishPlaces(w, c);
      }
    case Consume => ConsumePlaces(w);
    case Release(i) =>
    case Reopen(c) =>
  }

  // A queue after a publication: what was there, less the head of a full ring, and for its
  // own camera the published frame.
  lemma QueueOfPublish(w: World, c: int, f: Frame, x: int)
    requires c in w.pending && w.pending[c].camera == c && f in PublishStep(w, c).ring.Queue(x)
    ensures f in w.ring.Queue(x) || (x == c && f == w.pending[c])
  {
    if x != c {
      PublishedOthers(w.ring, w.pending[c], x);
    }
  }

  lemma PublishIsOrdered(w: World, c: int)
    requires OrderOk(w.ring) && c in w.pending && w.pending[c].camera == c
    ensures OrderOk(PublishStep(w, c).ring)
  {
    KnownIsOrdered(w.ring, c);
  }

  lemma PublishPlaces(w: World, c: int)
    requires Placed(w) && c in w.pending
    ensures Placed(PublishStep(w, c))
  {
    var w' := PublishStep(w, c);
    PublishIsOrdered(w, c);
    forall x, i | x in w'.ring.queues && 0 <= i < |w'.ring.queues[x]|
      ensures w'.ring.queues[x][i].camera == x && w'.ring.queues[x][i].name.camera == x
    {
      assert w'.ring.queues[x][i] in w'.ring.Queue(x);
      QueueOfPublish(w, c, w'.ring.queues[x][i], x);
    }
  }

  lemma StartIsFifo(capacity: int, cycle: Cycle)
    ensures AllFifo(Start(capacity, cycle)) && Placed(Start(capacity, cycle))
  {
  }

  // For each camera and every run: published frames were consumed, dropped or are queued.
  lemma NothingLost(w: World, c: int)
    requires Fifo(w, c)
    ensures |w.LaneOf(c).published| == |w.LaneOf(c).out| + w.ring.Drops(c) + |w.ring.Queue(c)|
  {
    FatesAddUp(w.LaneOf(c).fates);
  }

  // From the empty ring, paced or not: no camera's frame is reordered or lost without a count.
  lemma EveryRunIsFifo(capacity: int, cycle: Cycle, steps: seq<Step>, c: int)
    ensures var w := Run(Start(capacity, cycle), steps);
            Fifo(w, c)
            && |w.LaneOf(c).published| == |w.LaneOf(c).out| + w.ring.Drops(c) + |w.ring.Queue(c)|
  {
    var w := Run(Start(capacity, cycle), steps);
    StartIsFifo(capacity, cycle);
    RunKeepsFifo(Start(capacity, cycle), steps);
    assert Fifo(w, c);
    NothingLost(w, c);
  }

  // What a publisher is told: how many of its camera's frames were dropped so far, and how many
  // publications in a row found the ring full.
  lemma ResultTellsDrops(capacity: int, cycle: Cycle, steps: seq<Step>, c: int)
    requires var w := Run(Start(capacity, cycle), steps);
             c in w.pending && Published(w.ring, w.pending[c]).1.Ok?
    ensures var w := Run(Start(capacity, cycle), steps);
            var told, l := Published(w.ring, w.pending[c]).1.value, PublishStep(w, c).LaneOf(c);
            && told.droppedFrames == CountOf(l.fates, false)
            && told.consecutiveDrops == Trailing(l.overflow)
  {
    var w := Run(Start(capacity, cycle), steps);
    StartIsFifo(capacity, cycle);
    RunKeepsFifo(Start(capacity, cycle), steps);
    NextKeepsFifo(w, Publish(c));
    assert Fifo(PublishStep(w, c), c);
  }
}
