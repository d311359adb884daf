/**
 The frame transport: per camera a bounded queue of frame metadata, beside it
 named blocks of pixels. The class is proved against functions on values.
 */
module Transport {
  import opened Wrappers

  // Pixels with the shape and element type they are rebuilt with.
  datatype Image = Image(shape: seq<nat>, dtype: string, bytes: seq<int>)

  // The name of a block: a camera and a slot number.
  datatype Name = Name(camera: int, slot: nat)

  datatype Frame = Frame(camera: int, epoch: nat, index: nat, name: Name)

  datatype PublishResult = PublishResult(droppedFrames: nat, consecutiveDrops: nat)

  datatype Error = NegativeCapacity | PopFromEmpty

  // order lists the cameras in the order in which they first published.
  datatype Ring = Ring(
    capacity: int, queues: map<int, seq<Frame>>, order: seq<int>, blocks: map<Name, Image>,
    drops: map<int, nat>, consecutive: map<int, nat>)
  {
    function Queue(c: int): seq<Frame> { if c in queues then queues[c] else [] }

    function Drops(c: int): nat { if c in drops then drops[c] else 0 }

    function Consecutive(c: int): nat { if c in consecutive then consecutive[c] else 0 }

    function Get(n: Name): Option<Image> { if n in blocks then Some(blocks[n]) else None }
  }

  function Empty(capacity: int): Ring { Ring(capacity, map[], [], map[], map[], map[]) }

  function Closed(r: Ring, n: Name): Ring { r.(blocks := r.blocks - {n}) }

  function Written(r: Ring, n: Name, image: Image): Ring { r.(blocks := r.blocks[n := image]) }

  // The camera's queue exists from its first publication on.
  function Known(r: Ring, c: int): Ring {
    if c in r.queues then r else r.(queues := r.queues[c := []], order := r.order + [c])
  }

  function Stats(r: Ring, c: int): PublishResult { PublishResult(r.Drops(c), r.Consecutive(c)) }

  // A full ring drops its oldest frame together with that frame's block.
  function Dropped(r: Ring, c: int): Ring
    requires r.Queue(c) != []
  {
    Closed(r.(queues := r.queues[c := r.Queue(c)[1..]], drops := r.drops[c := r.Drops(c) + 1],
              consecutive := r.consecutive[c := r.Consecutive(c) + 1]),
           r.Queue(c)[0].name)
  }

  function Published(r: Ring, f: Frame): (Ring, Result<PublishResult, Error>) {
    var c := f.camera;
    if r.capacity < 0 && c !in r.queues then (r, Err(NegativeCapacity)) else
      var k := Known(r, c);
      if |k.Queue(c)| >= r.capacity && k.Queue(c) == [] then (k, Err(PopFromEmpty)) else
        var d := if |k.Queue(c)| >= r.capacity then Dropped(k, c)
                 else k.(consecutive := k.consecutive[c := 0]);
        var p := d.(queues := d.queues[c := d.Queue(c) + [f]]);
        (p, Ok(Stats(p, c)))
  }

  // One frame from the front of every nonempty queue, camera by camera.
  function Heads(queues: map<int, seq<Frame>>, order: seq<int>): seq<Frame> {
    if order == [] then [] else
      var c, rest := order[|order| - 1], Heads(queues, order[..|order| - 1]);
      if c in queues && queues[c] != [] then rest + [queues[c][0]] else rest
  }

  function Tails(queues: map<int, seq<Frame>>, order: seq<int>): map<int, seq<Frame>> {
    map c | c in queues :: if c in order && queues[c] != [] then queues[c][1..] else queues[c]
  }

  function Consumed(r: Ring): (Ring, seq<Frame>) {
    (r.(queues := Tails(r.queues, r.order)), Heads(r.queues, r.order))
  }

  ghost predicate OrderOk(r: Ring) {
    && (forall i, j | 0 <= i < j < |r.order| :: r.order[i] != r.order[j])
    && (forall c :: c in r.order <==> c in r.queues)
  }

  lemma TailsNext(queues: map<int, seq<Frame>>, done: seq<int>, c: int)
    requires c in queues && c !in done
    ensures Tails(queues, done)[c] == queues[c]
    ensures Tails(queues, done + [c])
         == if queues[c] != [] then Tails(queues, done)[c := queues[c][1..]] else Tails(queues, done)
  {
    assert c in done + [c];
    assert forall x | x != c :: x in done + [c] <==> x in done;
  }

  // The pass seen at the i-th camera: its queue is still untouched.
  lemma PassNext(queues: map<int, seq<Frame>>, order: seq<int>, i: nat)
    requires i < |order| && order[i] in queues && forall j, k | 0 <= j < k < |order| :: order[j] != order[k]
    ensures var c, done := order[i], order[..i];
            && c in Tails(queues, done) && Tails(queues, done)[c] == queues[c]
            && Tails(queues, order[..i + 1])
               == (if queues[c] != [] then Tails(queues, done)[c := queues[c][1..]] else Tails(queues, done))
            && Heads(queues, order[..i + 1])
               == (if queues[c] != [] then Heads(queues, done) + [queues[c][0]] else Heads(queues, done))
  {
    var c, done := order[i], order[..i];
    assert order[..i + 1][..i] == done;
    assert order[..i + 1] == done + [c];
    TailsNext(queues, done, c);
  }

  class SharedMemoryTransport {
    const ringSlots: int
    var queues: map<int, seq<Frame>>
    var order: seq<int>
    var blocks: map<Name, Image>
    var drops: map<int, nat>
    var consecutive: map<int, nat>

    function Value(): Ring
      reads this
    {
      Ring(ringSlots, queues, order, blocks, drops, consecutive)
    }

    ghost predicate Valid()
      reads this
    {
      OrderOk(Value())
    }

    constructor (ringSlots: int := 8)
      ensures Valid() && Value() == Empty(ringSlots)
    {
      this.ringSlots := ringSlots;
      queues, order, blocks, drops, consecutive := map[], [], map[], map[], map[];
    }

    method CloseSlot(n: Name)
      modifies this`blocks
      ensures Value() == Closed(old(Value()), n)
    {
      blocks := blocks - {n};
    }

    method WriteImageData(n: Name, image: Image)
      modifies this`blocks
      ensures Value() == Written(old(Value()), n, image)
    {
      if n in blocks {
        CloseSlot(n);
      }
      blocks := blocks[n := image];
    }

    method GetImageData(n: Name) returns (image: Option<Image>)
      ensures image == Value().Get(n)
    {
      if n !in blocks {
        return None;
      }
      return Some(blocks[n]);
    }

    method Publish(f: Frame) returns (r: Result<PublishResult, Error>)
      requires Valid()
      modifies this
      ensures Valid() && (Value(), r) == Published(old(Value()), f)
    {
      if f.camera !in queues {
        if ringSlots < 0 {
          return Err(NegativeCapacity);
        }
        queues, order := queues[f.camera := []], order + [f.camera];
      }
      if |queues[f.camera]| >= ringSlots {
        if queues[f.camera] == [] {
          return Err(PopFromEmpty);
        }
        var dropped := queues[f.camera][0];
        queues := queues[f.camera := queues[f.camera][1..]];
        CloseSlot(dropped.name);
        drops := drops[f.camera := (if f.camera in drops then drops[f.camera] else 0) + 1];
        consecutive := consecutive[f.camera := (if f.camera in consecutive then consecutive[f.camera] else 0) + 1];
      } else {
        consecutive := consecutive[f.camera := 0];
      }
      queues := queues[f.camera := queues[f.camera] + [f]];
      return Ok(PublishResult(if f.camera in drops then drops[f.camera] else 0, consecutive[f.camera]));
    }

    // One pass over the cameras; polling until the timeout repeats it while it yields nothing.
    method Consume() returns (consumed: seq<Frame>)
      requires Valid()
      modifies this`queues
      ensures Valid() && (Value(), consumed) == Consumed(old(Value()))
    {
      consumed := [];
      ghost var before := queues;
      for i := 0 to |order|
        invariant consumed == Heads(before, order[..i])
        invariant queues == Tails(before, order[..i])
      {
        var c := order[i];
        PassNext(before, order, i);
        if queues[c] != [] {
          consumed := consumed + [queues[c][0]];
          queues := queues[c := queues[c][1..]];
        }
      }
      assert order[..|order|] == order;
    }

    method Release(f: Frame)
      modifies this`blocks
      ensures Value() == Closed(old(Value()), f.name)
    {
      CloseSlot(f.name);
    }

    method Close()
      modifies this`blocks
      ensures Value() == old(Value()).(blocks := map[])
    {
      var names := blocks.Keys;
      while names != {}
        invariant names == blocks.Keys
        decreases |names|
      {
        var n :| n in names;
        names := names - {n};
        CloseSlot(n);
      }
    }
  }

  // What is known of one camera.
  ghost predicate SameCamera(r: Ring, r': Ring, x: int) {
    r'.Queue(x) == r.Queue(x) && r'.Drops(x) == r.Drops(x) && r'.Consecutive(x) == r.Consecutive(x)
  }

  lemma KnownIsQuiet(r: Ring, c: int, x: int)
    ensures SameCamera(r, Known(r, c), x) && Known(r, c).capacity == r.capacity && c in Known(r, c).queues
  {
  }

  // Publishing into a ring with room.
  lemma PublishedWithRoom(r: Ring, f: Frame)
    requires |r.Queue(f.camera)| < r.capacity
    ensures var (p, res) := Published(r, f); var c := f.camera;
            && res.Ok? && p.capacity == r.capacity && p.Queue(c) == r.Queue(c) + [f]
            && p.Drops(c) == r.Drops(c) && p.Consecutive(c) == 0
  {
    KnownIsQuiet(r, f.camera, f.camera);
  }

  // Publishing into a full ring: an error if it cannot hold anything, the oldest frame's end otherwise.
  lemma PublishedWhenFull(r: Ring, f: Frame)
    requires |r.Queue(f.camera)| >= r.capacity
    ensures var (p, res) := Published(r, f); var c := f.camera;
            && p.capacity == r.capacity
            && (res.Err? <==> r.Queue(c) == [])
            && (res.Err? ==> SameCamera(r, p, c))
            && (res.Ok? ==> p.Queue(c) == r.Queue(c)[1..] + [f]
                            && p.Drops(c) == r.Drops(c) + 1 && p.Consecutive(c) == r.Consecutive(c) + 1)
  {
    KnownIsQuiet(r, f.camera, f.camera);
  }

  lemma DroppedOthers(r: Ring, c: int, x: int)
    requires r.Queue(c) != [] && x != c
    ensures SameCamera(r, Dropped(r, c), x)
  {
  }

  // Publishing for one camera leaves the others alone.
  lemma PublishedOthers(r: Ring, f: Frame, x: int)
    requires x != f.camera
    ensures SameCamera(r, Published(r, f).0, x)
  {
    var k := Known(r, f.camera);
    if k.Queue(f.camera) != [] {
      DroppedOthers(k, f.camera, x);
    }
  }
}
