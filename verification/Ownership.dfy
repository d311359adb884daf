/**
 Whose pixels a block holds: drivers write a block under a cyclic name and then
 publish the frame, consumers take frames out and release them, in any
 interleaving, with streams reopened at any time.
 */
module Ownership {
  import opened Wrappers
  import opened Transport

  type Cycle = n: int | n >= 1 witness 1

  datatype Driver = Driver(epoch: nat, counter: nat)

  // What has happened to a camera's frames: fates and overflow are one entry per frame
  // that left the queue (true: consumed) and one per publication (true: ring was full).
  datatype Lane = Lane(published: seq<Frame>, fates: seq<bool>, overflow: seq<bool>, out: seq<Frame>)

  // pending: written but not yet published; inFlight: consumed but not yet released.
  datatype World = World(
    ring: Ring, cycle: Cycle, drivers: map<int, Driver>, pending: map<int, Frame>,
    inFlight: seq<Frame>, images: map<Frame, Image>, lanes: map<int, Lane>)
  {
    function DriverOf(c: int): Driver { if c in drivers then drivers[c] else Driver(0, 0) }

    function LaneOf(c: int): Lane { if c in lanes then lanes[c] else Lane([], [], [], []) }

    function NextFrame(c: int): Frame {
      var d := DriverOf(c);
      Frame(c, d.epoch, d.counter + 1, Name(c, (d.counter + 1) % cycle))
    }

    predicate Live(f: Frame) {
      || (f.camera in pending && pending[f.camera] == f)
      || f in ring.Queue(f.camera)
      || f in inFlight
    }
  }

  function Start(capacity: int, cycle: Cycle): World {
    World(Empty(capacity), cycle, map[], map[], [], map[], map[])
  }

  datatype Step =
    | Write(camera: int, image: Image)
    | Publish(camera: int)
    | Consume
    | Release(i: nat)
    | Reopen(camera: int)

  function WriteStep(w: World, c: int, image: Image): World {
    if c in w.pending then w else
      var f := w.NextFrame(c);
      w.(ring := Written(w.ring, f.name, image),
         drivers := w.drivers[c := Driver(w.DriverOf(c).epoch, f.index)],
         pending := w.pending[c := f], images := w.images[f := image])
  }

  function PublishStep(w: World, c: int): World {
    if c !in w.pending then w else
      var f := w.pending[c];
      var (r, res) := Published(w.ring, f);
      if res.Err? then w.(ring := r) else
        var full, l := |w.ring.Queue(f.camera)| >= w.ring.capacity, w.LaneOf(f.camera);
        w.(ring := r, pending := w.pending - {c},
           lanes := w.lanes[f.camera := Lane(l.published + [f], if full then l.fates + [false] else l.fates,
                                             l.overflow + [full], l.out)])
  }

  function ConsumeStep(w: World): World {
    var (r, fs) := Consumed(w.ring);
    w.(ring := r, inFlight := w.inFlight + fs,
       lanes := map c | c in w.ring.queues ::
                  var q, l := w.ring.queues[c], w.LaneOf(c);
                  if q == [] then l else l.(fates := l.fates + [true], out := l.out + [q[0]]))
  }

  function ReleaseStep(w: World, i: nat): World {
    if i >= |w.inFlight| then w
    else w.(ring := Closed(w.ring, w.inFlight[i].name), inFlight := w.inFlight[..i] + w.inFlight[i + 1..])
  }

  function ReopenStep(w: World, c: int): World {
    if c in w.pending then w else w.(drivers := w.drivers[c := Driver(w.DriverOf(c).epoch + 1, 0)])
  }

  function Next(w: World, s: Step): World {
    match s
    case Write(c, image) => WriteStep(w, c, image)
    case Publish(c) => PublishStep(w, c)
    case Consume => ConsumeStep(w)
    case Release(i) => ReleaseStep(w, i)
    case Reopen(c) => ReopenStep(w, c)
  }

  function Run(w: World, steps: seq<Step>): World {
    if steps == [] then w else Next(Run(w, steps[..|steps| - 1]), steps[|steps| - 1])
  }

  // ----------------------------------------------------------------- ownership

  // How many frames of the list carry a name.
  function Named(fs: seq<Frame>, n: Name): nat {
    if fs == [] then 0 else Named(fs[..|fs| - 1], n) + if fs[|fs| - 1].name == n then 1 else 0
  }

  function PendingNamed(w: World, n: Name): nat {
    if n.camera in w.pending && w.pending[n.camera].name == n then 1 else 0
  }

  // How many live frames claim a block name.
  function Claims(w: World, n: Name): nat {
    PendingNamed(w, n) + Named(w.ring.Queue(n.camera), n) + Named(w.inFlight, n)
  }

  // Frames sit where their camera says, under a name of that camera.
  ghost predicate Placed(w: World) {
    && OrderOk(w.ring)
    && (forall c | c in w.pending :: w.pending[c].camera == c && w.pending[c].name.camera == c)
    && (forall c, i | c in w.ring.queues && 0 <= i < |w.ring.queues[c]| ::
          w.ring.queues[c][i].camera == c && w.ring.queues[c][i].name.camera == c)
    && (forall i | 0 <= i < |w.inFlight| :: w.inFlight[i].name.camera == w.inFlight[i].camera)
  }

  // A block exists exactly for the names with a live frame, and they have just one.
  ghost predicate OneOwner(w: World) {
    forall n {:trigger Claims(w, n)} :: Claims(w, n) <= 1 && (n in w.ring.blocks <==> Claims(w, n) == 1)
  }

  // Every live frame finds its own pixels.
  ghost predicate OwnPixels(w: World) {
    forall f {:trigger w.Live(f)} | w.Live(f) :: f in w.images && w.ring.Get(f.name) == Some(w.images[f])
  }

  ghost predicate Owned(w: World) { Placed(w) && OneOwner(w) && OwnPixels(w) }

  lemma {:induction false} NamedConcat(a: seq<Frame>, b: seq<Frame>, n: Name)
    ensures Named(a + b, n) == Named(a, n) + Named(b, n)
  {
    if b == [] {
      assert a + b == a;
    } else {
      NamedConcat(a, b[..|b| - 1], n);
      assert (a + b)[..|a + b| - 1] == a + b[..|b| - 1];
    }
  }

  lemma NamedOne(f: Frame, n: Name)
    ensures Named([f], n) == if f.name == n then 1 else 0
  {
    assert [f][..0] == [];
  }

  lemma NamedFirst(fs: seq<Frame>, n: Name)
    requires fs != []
    ensures Named(fs, n) == Named(fs[1..], n) + if fs[0].name == n then 1 else 0
  {
    NamedConcat([fs[0]], fs[1..], n);
    NamedOne(fs[0], n);
    assert [fs[0]] + fs[1..] == fs;
  }

  lemma NamedWithout(fs: seq<Frame>, i: nat, n: Name)
    requires i < |fs|
    ensures Named(fs, n) == Named(fs[..i] + fs[i + 1..], n) + if fs[i].name == n then 1 else 0
  {
    NamedConcat(fs[..i], fs[i..], n);
    NamedFirst(fs[i..], n);
    assert fs[i..][1..] == fs[i + 1..];
    NamedConcat(fs[..i], fs[i + 1..], n);
    assert fs[..i] + fs[i..] == fs;
  }

  lemma {:induction false} NamedMember(fs: seq<Frame>, i: nat)
    requires i < |fs|
    ensures Named(fs, fs[i].name) >= 1
  {
    NamedWithout(fs, i, fs[i].name);
  }

  lemma LiveClaims(w: World, f: Frame)
    requires Placed(w) && w.Live(f)
    ensures f.name.camera == f.camera && Claims(w, f.name) >= 1
  {
    if f in w.ring.Queue(f.camera) {
      var q := w.ring.Queue(f.camera);
      var i :| 0 <= i < |q| && q[i] == f;
      NamedMember(q, i);
    }
    if f in w.inFlight {
      var i :| 0 <= i < |w.inFlight| && w.inFlight[i] == f;
      NamedMember(w.inFlight, i);
    }
  }

  lemma {:induction false} NamedFinds(fs: seq<Frame>, n: Name) returns (i: nat)
    requires Named(fs, n) >= 1
    ensures i < |fs| && fs[i].name == n
  {
    if fs[|fs| - 1].name == n {
      i := |fs| - 1;
    } else {
      i := NamedFinds(fs[..|fs| - 1], n);
    }
  }

  lemma ClaimIsLive(w: World, n: Name) returns (f: Frame)
    requires Placed(w) && Claims(w, n) >= 1
    ensures w.Live(f) && f.name == n
  {
    if PendingNamed(w, n) == 1 {
      f := w.pending[n.camera];
    } else if Named(w.ring.Queue(n.camera), n) >= 1 {
      var i := NamedFinds(w.ring.Queue(n.camera), n);
      f := w.ring.Queue(n.camera)[i];
    } else {
      var i := NamedFinds(w.inFlight, n);
      f := w.inFlight[i];
    }
  }

  // Two live frames never share a name.
  lemma LiveNamesDistinct(w: World, f: Frame, g: Frame)
    requires Owned(w) && w.Live(f) && w.Live(g) && f.name == g.name
    ensures f == g
  {
    LiveClaims(w, f);
    LiveClaims(w, g);
    var n, q := f.name, w.ring.Queue(f.camera);
    assert Claims(w, n) <= 1;
    if f in q && g in q {
      var i :| 0 <= i < |q| && q[i] == f;
      var j :| 0 <= j < |q| && q[j] == g;
      SameNameSamePlace(q, i, j);
    } else if f in w.inFlight && g in w.inFlight {
      var i :| 0 <= i < |w.inFlight| && w.inFlight[i] == f;
      var j :| 0 <= j < |w.inFlight| && w.inFlight[j] == g;
      SameNameSamePlace(w.inFlight, i, j);
    } else {
      CountedIn(q, f);
      CountedIn(q, g);
      CountedIn(w.inFlight, f);
      CountedIn(w.inFlight, g);
    }
  }

  lemma CountedIn(fs: seq<Frame>, f: Frame)
    ensures f in fs ==> Named(fs, f.name) >= 1
  {
    if f in fs {
      var i :| 0 <= i < |fs| && fs[i] == f;
      NamedMember(fs, i);
    }
  }

  lemma {:induction false} SameNameSamePlace(fs: seq<Frame>, i: nat, j: nat)
    requires i < |fs| && j < |fs| && fs[i].name == fs[j].name && Named(fs, fs[i].name) <= 1
    ensures i == j
  {
    if i != j {
      var rest := fs[..i] + fs[i + 1..];
      NamedWithout(fs, i, fs[i].name);
      var j' := if j < i then j else j - 1;
      assert rest[j'] == fs[j];
      NamedMember(rest, j');
    }
  }

  // ----------------------------------------------------------- what steps preserve

  // A write is safe when no live frame claims the name it is about to reuse.
  predicate Safe(w: World, s: Step) {
    s.Write? && s.camera !in w.pending ==> Claims(w, w.NextFrame(s.camera).name) == 0
  }

  lemma WriteKeepsOwned(w: World, c: int, image: Image)
    requires Owned(w) && c !in w.pending && Claims(w, w.NextFrame(c).name) == 0
    ensures Owned(WriteStep(w, c, image))
  {
    var f, w' := w.NextFrame(c), WriteStep(w, c, image);
    forall n ensures Claims(w', n) == Claims(w, n) + if n == f.name then 1 else 0 {
    }
    forall g | w'.Live(g) ensures g in w'.images && w'.ring.Get(g.name) == Some(w'.images[g]) {
      if g != f {
        assert w.Live(g);
        LiveClaims(w, g);
      }
    }
  }

  // Frames only change place, except one that goes away together with its block.
  lemma Handover(w: World, w': World, gone: Option<Name>)
    requires Owned(w) && Placed(w') && w'.images == w.images
    requires w'.ring.blocks == if gone.Some? then w.ring.blocks - {gone.value} else w.ring.blocks
    requires forall n {:trigger Claims(w', n)} :: Claims(w', n) == Claims(w, n) - if gone == Some(n) then 1 else 0
    requires forall g {:trigger w'.Live(g)} | w'.Live(g) :: w.Live(g)
    ensures Owned(w')
  {
    forall n ensures Claims(w', n) <= 1 && (n in w'.ring.blocks <==> Claims(w', n) == 1) {
      assert Claims(w, n) <= 1;
    }
    forall g | w'.Live(g) ensures g in w'.images && w'.ring.Get(g.name) == Some(w'.images[g]) {
      LiveClaims(w', g);
      assert Claims(w, g.name) <= 1;
    }
  }

  // The published frame changes place; a full ring gives up its oldest frame and that frame's block.
  lemma PublishKeepsOwned(w: World, c: int)
    requires Owned(w) && c in w.pending
    ensures Owned(PublishStep(w, c))
  {
    if Published(w.ring, w.pending[c]).1.Err? {
      Handover(w, PublishStep(w, c), None);
    } else if |w.ring.Queue(c)| < w.ring.capacity {
      AppendKeepsOwned(w, c);
    } else {
      DropKeepsOwned(w, c);
    }
  }

  lemma AppendShape(w: World, c: int)
    requires Placed(w) && c in w.pending && |w.ring.Queue(c)| < w.ring.capacity
    ensures var w' := PublishStep(w, c);
            && Placed(w') && w'.ring.Queue(c) == w.ring.Queue(c) + [w.pending[c]]
            && (forall x | x != c :: w'.ring.Queue(x) == w.ring.Queue(x))
            && w'.pending == w.pending - {c} && w'.inFlight == w.inFlight
            && w'.images == w.images && w'.ring.blocks == w.ring.blocks
  {
    var w', k := PublishStep(w, c), Known(w.ring, c);
    KnownIsOrdered(w.ring, c);
    var q := k.Queue(c);
    assert w'.ring.queues == k.queues[c := q + [w.pending[c]]] && w'.ring.order == k.order;
    forall x, i | x in w'.ring.queues && 0 <= i < |w'.ring.queues[x]|
      ensures w'.ring.queues[x][i].camera == x && w'.ring.queues[x][i].name.camera == x
    {
      if x == c && i == |q| {
        assert w'.ring.queues[x][i] == w.pending[c];
      } else {
        assert w'.ring.queues[x][i] == w.ring.queues[x][i];
      }
    }
  }

  lemma KnownIsOrdered(r: Ring, c: int)
    requires OrderOk(r)
    ensures OrderOk(Known(r, c)) && c in Known(r, c).queues
    ensures forall x :: Known(r, c).Queue(x) == r.Queue(x)
  {
    if c !in r.queues {
      forall x ensures x in Known(r, c).order <==> x in r.order || x == c {
      }
    }
  }

  lemma AppendKeepsOwned(w: World, c: int)
    requires Owned(w) && c in w.pending && |w.ring.Queue(c)| < w.ring.capacity
    ensures Owned(PublishStep(w, c))
  {
    var f, w', q := w.pending[c], PublishStep(w, c), w.ring.Queue(c);
    AppendShape(w, c);
    forall n ensures Claims(w', n) == Claims(w, n) {
      NamedConcat(q, [f], n);
      NamedOne(f, n);
    }
    Handover(w, w', None);
  }

  lemma DropKeepsOwned(w: World, c: int)
    requires Owned(w) && c in w.pending && w.ring.Queue(c) != [] && |w.ring.Queue(c)| >= w.ring.capacity
    ensures Owned(PublishStep(w, c))
  {
    var f, w', q := w.pending[c], PublishStep(w, c), w.ring.Queue(c);
    assert w'.ring.Queue(c) == q[1..] + [f];
    assert q[0].name.camera == c;
    forall n ensures Claims(w', n) == Claims(w, n) - if n == q[0].name then 1 else 0 {
      NamedConcat(q[1..], [f], n);
      NamedOne(f, n);
      NamedFirst(q, n);
    }
    Handover(w, w', Some(q[0].name));
  }

  // One more camera's head among those taken.
  lemma HeadNamed(w: World, hs: seq<Frame>, c: int, n: Name)
    requires Placed(w)
    ensures var q := w.ring.Queue(c);
            Named(if q != [] then hs + [q[0]] else hs, n)
            == Named(hs, n) + if q != [] && n.camera == c && q[0].name == n then 1 else 0
  {
    var q := w.ring.Queue(c);
    if q != [] {
      assert (hs + [q[0]])[..|hs|] == hs;
      assert q[0].name.camera == c;
    }
  }

  lemma {:induction false} HeadsNamed(w: World, order: seq<int>, n: Name)
    requires Placed(w) && forall i, j | 0 <= i < j < |order| :: order[i] != order[j]
    ensures Named(Heads(w.ring.queues, order), n)
         == if n.camera in order && w.ring.Queue(n.camera) != [] && w.ring.Queue(n.camera)[0].name == n then 1 else 0
  {
    if order != [] {
      var init, c := order[..|order| - 1], order[|order| - 1];
      HeadsNamed(w, init, n);
      HeadNamed(w, Heads(w.ring.queues, init), c, n);
      assert order == init + [c];
    }
  }

  lemma {:induction false} HeadsPlaced(w: World, order: seq<int>)
    requires Placed(w)
    ensures forall f | f in Heads(w.ring.queues, order) ::
              f.name.camera == f.camera && f in w.ring.Queue(f.camera)
  {
    if order != [] {
      HeadsPlaced(w, order[..|order| - 1]);
    }
  }

  lemma ConsumePlaces(w: World)
    requires Placed(w)
    ensures Placed(ConsumeStep(w))
  {
    HeadsPlaced(w, w.ring.order);
    var w' := ConsumeStep(w);
    forall i | 0 <= i < |w'.inFlight| ensures w'.inFlight[i].name.camera == w'.inFlight[i].camera {
      if i >= |w.inFlight| {
        assert w'.inFlight[i] in Heads(w.ring.queues, w.ring.order);
      }
    }
  }

  lemma ConsumedQueue(w: World, c: int)
    requires OrderOk(w.ring)
    ensures ConsumeStep(w).ring.Queue(c) == if w.ring.Queue(c) == [] then [] else w.ring.Queue(c)[1..]
  {
    if c in w.ring.queues {
      assert c in w.ring.order;
    }
  }

  lemma ConsumeClaims(w: World, n: Name)
    requires Placed(w)
    ensures Claims(ConsumeStep(w), n) == Claims(w, n)
  {
    var q := w.ring.Queue(n.camera);
    HeadsNamed(w, w.ring.order, n);
    NamedConcat(w.inFlight, Heads(w.ring.queues, w.ring.order), n);
    ConsumedQueue(w, n.camera);
    if q != [] {
      NamedFirst(q, n);
      assert n.camera in w.ring.order;
    }
  }

  lemma ConsumedLive(w: World, f: Frame)
    requires Placed(w) && ConsumeStep(w).Live(f)
    ensures w.Live(f)
  {
    HeadsPlaced(w, w.ring.order);
  }

  lemma ConsumeKeepsOwned(w: World)
    requires Owned(w)
    ensures Owned(ConsumeStep(w))
  {
    ConsumePlaces(w);
    forall n ensures Claims(ConsumeStep(w), n) == Claims(w, n) {
      ConsumeClaims(w, n);
    }
    forall f | ConsumeStep(w).Live(f) ensures w.Live(f) {
      ConsumedLive(w, f);
    }
    Handover(w, ConsumeStep(w), None);
  }

  lemma ReleaseKeepsOwned(w: World, i: nat)
    requires Owned(w) && i < |w.inFlight|
    ensures Owned(ReleaseStep(w, i))
  {
    var w', n0 := ReleaseStep(w, i), w.inFlight[i].name;
    forall n ensures Claims(w', n) == Claims(w, n) - if n == n0 then 1 else 0 {
      NamedWithout(w.inFlight, i, n);
    }
    Handover(w, w', Some(n0));
  }

  // Every step keeps every live frame's pixels its own, except a write that reuses a
  // claimed name, which never does.
  lemma OwnershipKeptExactly(w: World, s: Step)
    requires Owned(w)
    ensures Owned(Next(w, s)) <==> Safe(w, s)
  {
    match s
    case Write(c, image) =>
      if c !in w.pending {
        if Safe(w, s) {
          WriteKeepsOwned(w, c, image);
        } else {
          var n := w.NextFrame(c).name;
          assert Claims(Next(w, s), n) == Claims(w, n) + 1;
        }
      }
    case Publish(c) =>
      if c in w.pending {
        PublishKeepsOwned(w, c);
      }
    case Consume => ConsumeKeepsOwned(w);
    case Release(i) =>
      if i < |w.inFlight| {
        ReleaseKeepsOwned(w, i);
      }
    case Reopen(c) =>
      forall n ensures Claims(Next(w, s), n) == Claims(w, n) {
      }
      Handover(w, Next(w, s), None);
  }
}
