/**
 How many block names a camera needs when consumers keep frames for a while: exactly how
 far they may fall behind the producer.
 */
module Holding {
  import opened Wrappers
  import opened Transport
  import opened Ownership
  import opened RingLaws

  // How many of the frames are of camera c.
  function OfCamera(fs: seq<Frame>, c: int): nat {
    if fs == [] then 0 else OfCamera(fs[..|fs| - 1], c) + if fs[|fs| - 1].camera == c then 1 else 0
  }

  // When a camera writes, consumers hold at most count of its frames, each followed by at most
  // lag newer ones. Streams are not reopened.
  ghost predicate HeldAt(w: World, s: Step, count: nat, lag: nat) {
    && !s.Reopen?
    && (s.Write? ==>
          && OfCamera(w.inFlight, s.camera) <= count
          && forall f | f in w.inFlight && f.camera == s.camera :: w.DriverOf(s.camera).counter - f.index <= lag)
  }

  ghost predicate HeldWithin(w: World, steps: seq<Step>, count: nat, lag: nat) {
    steps == [] ||
    var n := |steps| - 1;
    HeldWithin(w, steps[..n], count, lag) && HeldAt(Run(w, steps[..n]), steps[n], count, lag)
  }

  // ------------------------------------------------------------------- enough names

  // A camera's queue holds its newest published frames without a gap.
  ghost predicate Tight(w: World, c: int) {
    var q, d := w.ring.Queue(c), w.DriverOf(c);
    var newest := d.counter - if c in w.pending then 1 else 0;
    && d.epoch == 0 && |q| <= w.ring.capacity
    && (c in w.pending ==> w.pending[c].index == d.counter)
    && forall i | 0 <= i < |q| :: q[i].index == newest - (|q| - 1 - i)
  }

  ghost predicate AllTight(w: World) {
    && (forall c {:trigger Tight(w, c)} :: Tight(w, c))
    && (forall f {:trigger w.Live(f)} | w.Live(f) :: f.epoch == 0)
  }

  lemma PublishKeepsTight(w: World, c: int, x: int)
    requires w.ring.capacity >= 1 && Placed(w) && c in w.pending && Tight(w, c) && Tight(w, x)
    ensures Tight(PublishStep(w, c), x) && PublishStep(w, c).ring.capacity == w.ring.capacity
  {
    PublishedLane(w, c);
    if x != c {
      OtherLanes(w, c, x);
    }
  }

  lemma WriteKeepsTight(w: World, c: int, image: Image, x: int)
    requires Tight(w, x)
    ensures Tight(WriteStep(w, c, image), x) && WriteStep(w, c, image).ring.capacity == w.ring.capacity
  {
  }

  lemma ConsumeKeepsTight(w: World, x: int)
    requires Placed(w) && Tight(w, x)
    ensures Tight(ConsumeStep(w), x) && ConsumeStep(w).ring.capacity == w.ring.capacity
  {
    ConsumedQueue(w, x);
  }

  lemma ReleaseKeepsTight(w: World, i: nat, x: int)
    requires Tight(w, x)
    ensures Tight(ReleaseStep(w, i), x) && ReleaseStep(w, i).ring.capacity == w.ring.capacity
  {
  }

  lemma NextKeepsTight(w: World, s: Step, x: int)
    requires w.ring.capacity >= 1 && Placed(w) && !s.Reopen? && Tight(w, x)
    requires s.Publish? ==> Tight(w, s.camera)
    ensures Tight(Next(w, s), x) && Next(w, s).ring.capacity == w.ring.capacity
  {
    match s
    case Write(c, image) => WriteKeepsTight(w, c, image, x);
    case Publish(c) =>
      if c in w.pending {
        PublishKeepsTight(w, c, x);
      }
    case Consume => ConsumeKeepsTight(w, x);
    case Release(i) => ReleaseKeepsTight(w, i, x);
  }

  lemma NextKeepsAllTight(w: World, s: Step)
    requires w.ring.capacity >= 1 && Placed(w) && !s.Reopen? && AllTight(w)
    ensures AllTight(Next(w, s)) && Next(w, s).ring.capacity == w.ring.capacity
  {
    forall x ensures Tight(Next(w, s), x) && Next(w, s).ring.capacity == w.ring.capacity {
      assert Tight(w, x) && (s.Publish? ==> Tight(w, s.camera));
      NextKeepsTight(w, s, x);
    }
    assert Tight(Next(w, s), 0);
    forall f | Next(w, s).Live(f) ensures f.epoch == 0 {
      LiveBefore(w, s, f);
      assert Tight(w, f.camera);
    }
  }

  lemma {:induction false} HolderIsCounted(fs: seq<Frame>, f: Frame)
    requires f in fs
    ensures OfCamera(fs, f.camera) >= 1
  {
    var n := |fs| - 1;
    if fs[n] != f {
      assert fs == fs[..n] + [fs[n]];
      HolderIsCounted(fs[..n], f);
    }
  }

  // Then the camera's live frames span less than the cycle.
  lemma TightIsSafe(w: World, s: Step, count: nat, lag: nat)
    requires Placed(w) && Numbered(w) && AllTight(w) && HeldAt(w, s, count, lag)
    requires w.cycle > w.ring.capacity && (count >= 1 ==> w.cycle > lag + 1)
    ensures Safe(w, s)
  {
    if s.Write? && s.camera !in w.pending {
      var c := s.camera;
      assert Tight(w, c);
      forall f | w.Live(f) && f.camera == c
        ensures f.epoch == w.DriverOf(c).epoch && w.DriverOf(c).counter + 1 - f.index < w.cycle
      {
        if f in w.inFlight {
          HolderIsCounted(w.inFlight, f);
        }
      }
      SpanIsSafe(w, c, s.image);
    }
  }

  lemma {:induction false} HeldRunIsOwned(capacity: nat, cycle: Cycle, steps: seq<Step>, count: nat, lag: nat)
    requires capacity >= 1 && cycle > capacity && (count >= 1 ==> cycle > lag + 1)
    requires HeldWithin(Start(capacity, cycle), steps, count, lag)
    ensures var w := Run(Start(capacity, cycle), steps);
            Owned(w) && Numbered(w) && AllTight(w) && w.ring.capacity == capacity && w.cycle == cycle
  {
    if steps == [] {
      StartIsOwned(capacity, cycle);
    } else {
      var n := |steps| - 1;
      var w := Run(Start(capacity, cycle), steps[..n]);
      HeldRunIsOwned(capacity, cycle, steps[..n], count, lag);
      TightIsSafe(w, steps[n], count, lag);
      OwnershipKeptExactly(w, steps[n]);
      NextKeepsNumbered(w, steps[n]);
      NextKeepsAllTight(w, steps[n]);
    }
  }

  // ---------------------------------------------------------------------- too few names

  const PLATE: Image := Image([1], "uint8", [0])
  const OTHER: Image := Image([1], "uint8", [1])

  // The first frame is consumed and kept, and the camera goes on for k frames.
  function HoldOn(c: int, k: nat): seq<Step> {
    if k == 0 then [Write(c, PLATE), Publish(c), Consume] else HoldOn(c, k - 1) + [Write(c, PLATE), Publish(c)]
  }

  ghost predicate Holds(w: World, capacity: nat, cycle: Cycle, c: int, k: nat) {
    && w.cycle == cycle && w.ring.capacity == capacity && w.pending == map[]
    && w.DriverOf(c) == Driver(0, k + 1)
    && w.inFlight == [FrameNo(c, cycle, 1)]
    && FrameNo(c, cycle, 1) in w.images && w.images[FrameNo(c, cycle, 1)] == PLATE
  }

  // The first frame is written, published and taken out.
  function FirstWritten(capacity: nat, cycle: Cycle, c: int): World { Next(Start(capacity, cycle), Write(c, PLATE)) }

  function FirstPublished(capacity: nat, cycle: Cycle, c: int): World { Next(FirstWritten(capacity, cycle, c), Publish(c)) }

  lemma FirstIsQueued(capacity: nat, cycle: Cycle, c: int)
    requires capacity >= 1
    ensures var w, f := FirstPublished(capacity, cycle, c), FrameNo(c, cycle, 1);
            && w.ring.order == [c] && w.ring.queues == map[c := [f]] && w.ring.capacity == capacity
            && w.pending == map[] && w.inFlight == [] && w.cycle == cycle && w.DriverOf(c) == Driver(0, 1)
            && w.images == map[f := PLATE]
  {
    var v, f := FirstWritten(capacity, cycle, c), FrameNo(c, cycle, 1);
    assert v.pending == map[c := f] && v.ring.queues == map[] && v.ring.order == [];
    assert Known(v.ring, c).order == [c] && Known(v.ring, c).queues == map[c := []];
    assert v.pending - {c} == map[];
    PublishedWithRoom(v.ring, f);
    assert [] + [f] == [f];
    assert map[c := []][c := [f]] == map[c := [f]];
  }

  lemma FirstIsHeld(capacity: nat, cycle: Cycle, c: int)
    requires capacity >= 1
    ensures Holds(Next(FirstPublished(capacity, cycle, c), Consume), capacity, cycle, c, 0)
  {
    FirstIsQueued(capacity, cycle, c);
    assert [c][..0] == [];
    assert Heads(map[c := [FrameNo(c, cycle, 1)]], [c]) == [FrameNo(c, cycle, 1)];
  }

  lemma HoldsNext(w: World, capacity: nat, cycle: Cycle, c: int, k: nat)
    requires capacity >= 1 && Holds(w, capacity, cycle, c, k)
    ensures Holds(Next(Next(w, Write(c, PLATE)), Publish(c)), capacity, cycle, c, k + 1)
  {
    var v := Next(w, Write(c, PLATE));
    PublishedLane(v, c);
    assert v.pending - {c} == map[];
  }

  lemma HeldNext(w: World, steps: seq<Step>, s: Step, count: nat, lag: nat)
    ensures Run(w, steps + [s]) == Next(Run(w, steps), s)
    ensures HeldWithin(w, steps + [s], count, lag)
       <==> HeldWithin(w, steps, count, lag) && HeldAt(Run(w, steps), s, count, lag)
  {
    assert (steps + [s])[..|steps|] == steps;
  }

  lemma HolderMayWrite(w: World, capacity: nat, cycle: Cycle, c: int, k: nat, image: Image, lag: nat)
    requires Holds(w, capacity, cycle, c, k) && k <= lag
    ensures HeldAt(w, Write(c, image), 1, lag)
  {
    var f := FrameNo(c, cycle, 1);
    assert [f][..0] == [] && OfCamera([f], c) == 1;
  }

  lemma FirstRun(capacity: nat, cycle: Cycle, c: int, lag: nat)
    requires capacity >= 1
    ensures Run(Start(capacity, cycle), HoldOn(c, 0)) == Next(FirstPublished(capacity, cycle, c), Consume)
    ensures HeldWithin(Start(capacity, cycle), HoldOn(c, 0), 1, lag)
  {
    var start, one := Start(capacity, cycle), [Write(c, PLATE)];
    var two := one + [Publish(c)];
    assert [] + one == one && two + [Consume] == HoldOn(c, 0);
    HeldNext(start, [], Write(c, PLATE), 1, lag);
    HeldNext(start, one, Publish(c), 1, lag);
    HeldNext(start, two, Consume, 1, lag);
  }

  lemma RoundRun(start: World, steps: seq<Step>, c: int, image: Image, count: nat, lag: nat)
    requires HeldWithin(start, steps, count, lag) && HeldAt(Run(start, steps), Write(c, image), count, lag)
    ensures HeldWithin(start, steps + [Write(c, image), Publish(c)], count, lag)
  {
    HeldNext(start, steps, Write(c, image), count, lag);
    HeldNext(start, steps + [Write(c, image)], Publish(c), count, lag);
    assert steps + [Write(c, image)] + [Publish(c)] == steps + [Write(c, image), Publish(c)];
  }

  lemma HoldAnother(start: World, steps: seq<Step>, capacity: nat, cycle: Cycle, c: int, k: nat, lag: nat)
    requires capacity >= 1 && k <= lag
    requires Holds(Run(start, steps), capacity, cycle, c, k) && HeldWithin(start, steps, 1, lag)
    ensures var next := steps + [Write(c, PLATE), Publish(c)];
            Holds(Run(start, next), capacity, cycle, c, k + 1) && HeldWithin(start, next, 1, lag)
  {
    HoldsNext(Run(start, steps), capacity, cycle, c, k);
    HolderMayWrite(Run(start, steps), capacity, cycle, c, k, PLATE, lag);
    RoundRun(start, steps, c, PLATE, 1, lag);
    TwoSteps(start, steps, Write(c, PLATE), Publish(c));
  }

  // All that time one frame is held, and at most k newer ones have been written.
  lemma {:induction false} HoldOnRuns(capacity: nat, cycle: Cycle, c: int, k: nat, lag: nat)
    requires capacity >= 1 && k <= lag
    ensures Holds(Run(Start(capacity, cycle), HoldOn(c, k)), capacity, cycle, c, k)
    ensures HeldWithin(Start(capacity, cycle), HoldOn(c, k), 1, lag)
  {
    if k == 0 {
      FirstRun(capacity, cycle, c, lag);
      FirstIsHeld(capacity, cycle, c);
    } else {
      HoldOnRuns(capacity, cycle, c, k - 1, lag);
      HoldAnother(Start(capacity, cycle), HoldOn(c, k - 1), capacity, cycle, c, k - 1, lag);
    }
  }

  lemma NewerPixels(w: World, capacity: nat, cycle: Cycle, c: int)
    requires Holds(w, capacity, cycle, c, cycle - 1)
    ensures !OwnPixels(Next(w, Write(c, OTHER)))
  {
    SameSlot(cycle);
    var first, w' := FrameNo(c, cycle, 1), Next(w, Write(c, OTHER));
    assert w'.Live(first) && w'.images[first] == PLATE && w'.ring.Get(first.name) == Some(OTHER);
    assert PLATE.bytes[0] != OTHER.bytes[0];
  }

  lemma HeldUntilOverwritten(start: World, steps: seq<Step>, capacity: nat, cycle: Cycle, c: int, lag: nat)
    requires Holds(Run(start, steps), capacity, cycle, c, cycle - 1) && HeldWithin(start, steps, 1, lag)
    requires cycle <= lag + 1
    ensures var all := steps + [Write(c, OTHER)]; HeldWithin(start, all, 1, lag) && !OwnPixels(Run(start, all))
  {
    HolderMayWrite(Run(start, steps), capacity, cycle, c, cycle - 1, OTHER, lag);
    HeldNext(start, steps, Write(c, OTHER), 1, lag);
    NewerPixels(Run(start, steps), capacity, cycle, c);
  }

  // A frame held while a whole cycle is written loses its pixels to a newer one, however many
  // names there are.
  lemma HeldIsOverwritten(capacity: nat, cycle: Cycle, c: int, lag: nat)
    requires capacity >= 1 && cycle <= lag + 1
    ensures var steps := HoldOn(c, cycle - 1) + [Write(c, OTHER)];
            HeldWithin(Start(capacity, cycle), steps, 1, lag) && !OwnPixels(Run(Start(capacity, cycle), steps))
  {
    HoldOnRuns(capacity, cycle, c, cycle - 1, lag);
    HeldUntilOverwritten(Start(capacity, cycle), HoldOn(c, cycle - 1), capacity, cycle, c, lag);
  }

  // ----------------------------------------------------------------------------- the law

  // More of what is held is allowed.
  lemma {:induction false} HeldMore(w: World, steps: seq<Step>, few: nat, count: nat, lag: nat)
    requires few <= count && HeldWithin(w, steps, few, lag)
    ensures HeldWithin(w, steps, count, lag)
  {
    if steps != [] {
      HeldMore(w, steps[..|steps| - 1], few, count, lag);
    }
  }

  // A producer alone has nothing held.
  lemma {:induction false} RoundsHoldNothing(capacity: nat, cycle: Cycle, c: int, images: seq<Image>, count: nat, lag: nat)
    requires capacity >= 1
    ensures HeldWithin(Start(capacity, cycle), Rounds(c, images), count, lag)
  {
    if images != [] {
      var start, n := Start(capacity, cycle), |images| - 1;
      var steps := Rounds(c, images[..n]);
      RoundsHoldNothing(capacity, cycle, c, images[..n], count, lag);
      RoundsState(capacity, cycle, c, images[..n]);
      assert Run(start, steps).inFlight == [];
      RoundRun(start, steps, c, images[n], count, lag);
    }
  }

  ghost predicate SafeWhileHeld(capacity: nat, cycle: Cycle, steps: seq<Step>, count: nat, lag: nat) {
    HeldWithin(Start(capacity, cycle), steps, count, lag) ==> OwnPixels(Run(Start(capacity, cycle), steps))
  }

  lemma TooFewForSlots(capacity: nat, cycle: Cycle, count: nat, lag: nat)
    requires capacity >= 1 && cycle <= capacity
    ensures exists steps :: !SafeWhileHeld(capacity, cycle, steps, count, lag)
  {
    var images := Plates(cycle + 1);
    RoundsHoldNothing(capacity, cycle, 0, images, count, lag);
    if cycle == capacity {
      NewestIsLost(capacity, cycle, 0);
    } else {
      OldestIsOverwritten(capacity, cycle, 0);
    }
    assert !SafeWhileHeld(capacity, cycle, Rounds(0, images), count, lag);
  }

  // With consumers that hold up to count frames of a camera at a time, none of them overtaken by
  // more than lag newer ones, every interleaving is safe exactly when there are more names than
  // slots and, if anything is held at all, more than lag + 1 of them. How many frames are held does
  // not matter: without a bound on the lag no number of names is enough for a single one.
  lemma NamesNeededExactly(capacity: nat, cycle: Cycle, count: nat, lag: nat)
    requires capacity >= 1
    ensures (forall steps :: SafeWhileHeld(capacity, cycle, steps, count, lag))
       <==> cycle > capacity && (count >= 1 ==> cycle > lag + 1)
  {
    if cycle > capacity && (count >= 1 ==> cycle > lag + 1) {
      forall steps ensures SafeWhileHeld(capacity, cycle, steps, count, lag) {
        if HeldWithin(Start(capacity, cycle), steps, count, lag) {
          HeldRunIsOwned(capacity, cycle, steps, count, lag);
        }
      }
    } else if cycle <= capacity {
      TooFewForSlots(capacity, cycle, count, lag);
    } else {
      var steps := HoldOn(0, cycle - 1) + [Write(0, OTHER)];
      HeldIsOverwritten(capacity, cycle, 0, lag);
      HeldMore(Start(capacity, cycle), steps, 1, count, lag);
      assert !SafeWhileHeld(capacity, cycle, steps, count, lag);
    }
  }
}
