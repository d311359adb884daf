/**
 Splitting recorded sessions into training, validation and hard holdout sets. The
 shuffle is any permutation of the input.
 */
module Splitter {
  import opened Wrappers

  datatype Session = Session(id: string, heavy: bool, frames: nat)

  datatype Split = Split(train: seq<Session>, val: seq<Session>, holdout: seq<Session>)

  datatype Error = DivisionByZero | Leakage(shared: string)

  // Conversion of a real to an integer, towards zero.
  function Truncate(r: real): int { if r >= 0.0 then r.Floor else -((-r).Floor) }

  // Slices s[:n] and s[n:] in which a negative bound counts from the end.
  function Head<T>(s: seq<T>, n: int): seq<T> {
    if n >= 0 then (if n <= |s| then s[..n] else s)
    else if |s| + n >= 0 then s[..|s| + n] else []
  }

  function Tail<T>(s: seq<T>, n: int): seq<T> {
    if n >= 0 then (if n <= |s| then s[n..] else [])
    else if |s| + n >= 0 then s[|s| + n..] else s
  }

  function HoldoutTarget(n: nat, ratio: real): (t: nat)
    ensures t >= 1 && (t > 1 || n as real * ratio >= 1.0 ==> t as real <= n as real * ratio < t as real + 1.0)
    ensures t == 1 ==> n as real * ratio < 2.0
  {
    var k := Truncate(n as real * ratio);
    if k > 1 then k else 1
  }

  function Only(ss: seq<Session>, heavy: bool): seq<Session> {
    if ss == [] then [] else
      var rest := Only(ss[..|ss| - 1], heavy);
      if ss[|ss| - 1].heavy == heavy then rest + [ss[|ss| - 1]] else rest
  }

  predicate AllHeavy(ss: seq<Session>) { forall i | 0 <= i < |ss| :: ss[i].heavy }

  function Frames(ss: seq<Session>): nat {
    if ss == [] then 0 else Frames(ss[..|ss| - 1]) + ss[|ss| - 1].frames
  }

  predicate HasId(ss: seq<Session>, id: string) { exists i | 0 <= i < |ss| :: ss[i].id == id }

  // The first id of a found in b.
  function Shared(a: seq<Session>, b: seq<Session>): (r: Option<string>)
    ensures r.Some? ==> HasId(a, r.value) && HasId(b, r.value)
    ensures r.None? ==> forall i | 0 <= i < |a| :: !HasId(b, a[i].id)
  {
    if a == [] then None
    else if HasId(b, a[0].id) then Some(a[0].id)
    else
      var r := Shared(a[1..], b);
      assert forall i | 0 < i < |a| :: a[i] == a[1..][i - 1];
      if r.Some? then LaterId(a, r.value); r else r
  }

  lemma LaterId(a: seq<Session>, id: string)
    requires a != [] && HasId(a[1..], id)
    ensures HasId(a, id)
  {
    var i :| 0 <= i < |a[1..]| && a[1..][i].id == id;
    assert a[i + 1].id == id;
  }

  // ------------------------------------------------------------------ the algorithm

  lemma OnlyAppend(ss: seq<Session>, s: Session)
    ensures forall h :: Only(ss + [s], h) == if s.heavy == h then Only(ss, h) + [s] else Only(ss, h)
  {
    assert (ss + [s])[..|ss|] == ss;
  }

  function Least(a: nat, b: nat): nat { if a <= b then a else b }

  // The first heavy sessions go to the holdout while it has room; the others stay in order.
  method TakeHeavy(shuffled: seq<Session>, target: nat) returns (holdout: seq<Session>, pool: seq<Session>)
    ensures multiset(holdout) + multiset(pool) == multiset(shuffled) && |holdout| + |pool| == |shuffled|
    ensures var heavy := Only(shuffled, true);
            var room := Least(target, |heavy|);
            holdout == heavy[..room] && Only(pool, true) == heavy[room..] && Only(pool, false) == Only(shuffled, false)
  {
    holdout, pool := [], [];
    for i := 0 to |shuffled|
      invariant multiset(holdout) + multiset(pool) == multiset(shuffled[..i]) && |holdout| + |pool| == i
      invariant HeavyTaken(shuffled[..i], target, holdout, pool)
    {
      assert shuffled[..i + 1] == shuffled[..i] + [shuffled[i]];
      HeavyTakenNext(shuffled[..i], target, holdout, pool, shuffled[i]);
      if shuffled[i].heavy && |holdout| < target {
        holdout := holdout + [shuffled[i]];
      } else {
        pool := pool + [shuffled[i]];
      }
    }
    assert shuffled[..|shuffled|] == shuffled;
  }

  ghost predicate HeavyTaken(seen: seq<Session>, target: nat, holdout: seq<Session>, pool: seq<Session>) {
    var heavy := Only(seen, true);
    var room := Least(target, |heavy|);
    holdout == heavy[..room] && Only(pool, true) == heavy[room..] && Only(pool, false) == Only(seen, false)
  }

  lemma HeavyTakenNext(seen: seq<Session>, target: nat, holdout: seq<Session>, pool: seq<Session>, s: Session)
    requires HeavyTaken(seen, target, holdout, pool)
    ensures if s.heavy && |holdout| < target then HeavyTaken(seen + [s], target, holdout + [s], pool)
            else HeavyTaken(seen + [s], target, holdout, pool + [s])
  {
    OnlyAppend(seen, s);
    OnlyAppend(pool, s);
    if s.heavy {
      RoomFor(Only(seen, true), target, s);
    }
  }

  // One more heavy session: taken while there is room, left over after that.
  lemma RoomFor(heavy: seq<Session>, target: nat, s: Session)
    ensures var room, more := Least(target, |heavy|), Least(target, |heavy| + 1);
            if room < target then more == room + 1 && (heavy + [s])[..more] == heavy[..room] + [s]
                                  && (heavy + [s])[more..] == heavy[room..] == []
            else more == room && (heavy + [s])[..more] == heavy[..room] && (heavy + [s])[more..] == heavy[room..] + [s]
  {
  }

  function Backwards(s: seq<Session>): (r: seq<Session>)
    ensures |r| == |s|
  {
    if s == [] then [] else Backwards(s[1..]) + [s[0]]
  }

  lemma BackwardsFirst(x: Session, s: seq<Session>)
    ensures Backwards([x] + s) == Backwards(s) + [x]
  {
    assert ([x] + s)[1..] == s;
  }

  lemma {:induction false} BackwardsMembers(s: seq<Session>)
    ensures multiset(Backwards(s)) == multiset(s)
  {
    if s != [] {
      BackwardsMembers(s[1..]);
      assert s == [s[0]] + s[1..];
    }
  }

  // Take from the end of the regular sessions until the holdout is full.
  method FillUp(heavy: seq<Session>, regular: seq<Session>, target: nat)
    returns (holdout: seq<Session>, pool: seq<Session>)
    requires |heavy| <= target
    ensures pool <= regular && holdout == heavy + Backwards(regular[|pool|..])
    ensures |holdout| == Least(|heavy| + |regular|, target)
  {
    holdout, pool := heavy, regular;
    assert regular[|pool|..] == [];
    while |holdout| < target && pool != []
      invariant pool <= regular && holdout == heavy + Backwards(regular[|pool|..])
      invariant |holdout| <= target
      decreases |pool|
    {
      var last := pool[|pool| - 1];
      assert regular[|pool| - 1..] == [last] + regular[|pool|..];
      BackwardsFirst(last, regular[|pool|..]);
      holdout := holdout + [last];
      pool := pool[..|pool| - 1];
    }
  }

  // Heavy sessions first; then it is filled from the end of what was left by that.
  method FillHoldout(shuffled: seq<Session>, target: nat)
    returns (holdout: seq<Session>, pool: seq<Session>, ghost heavy: seq<Session>, ghost regular: seq<Session>)
    requires target >= 1
    ensures multiset(holdout) + multiset(pool) == multiset(shuffled)
    ensures |holdout| == Least(|shuffled|, target)
    ensures HeavyTaken(shuffled, target, heavy, regular)
    ensures pool <= regular && holdout == heavy + Backwards(regular[|pool|..])
    ensures !AllHeavy(holdout) ==> Only(pool, true) == []
  {
    var first, rest := TakeHeavy(shuffled, target);
    heavy, regular := first, rest;
    holdout, pool := FillUp(first, rest, target);
    BackwardsMembers(regular[|pool|..]);
    assert regular == pool + regular[|pool|..];
    HeavyOnlyWithoutRoom(shuffled, target, heavy, regular, pool, holdout);
  }

  // Filling starts only when every heavy session has been taken.
  lemma HeavyOnlyWithoutRoom(shuffled: seq<Session>, target: nat, heavy: seq<Session>, regular: seq<Session>,
                             pool: seq<Session>, holdout: seq<Session>)
    requires HeavyTaken(shuffled, target, heavy, regular) && pool <= regular
    requires holdout == heavy + Backwards(regular[|pool|..])
    requires |holdout| <= target
    ensures !AllHeavy(holdout) ==> Only(pool, true) == []
  {
    OnlyPartitions(shuffled);
    if pool == regular {
      assert regular[|pool|..] == [];
      assert holdout == heavy;
    } else {
      assert |heavy| < target;
      PrefixOnly(pool, regular);
    }
  }

  lemma {:induction false} PrefixOnly(a: seq<Session>, b: seq<Session>)
    requires a <= b && Only(b, true) == []
    ensures Only(a, true) == []
    decreases |b|
  {
    if a != b {
      PrefixOnly(a, b[..|b| - 1]);
    }
  }

  // Heavy leftovers fill validation first and spill into training only beyond its size.
  function Divide(pool: seq<Session>, nVal: int): (seq<Session>, seq<Session>) {
    var heavy, normal := Only(pool, true), Only(pool, false);
    var val := Head(heavy, nVal);
    var need := nVal - |val|;
    if need > 0 then (Tail(heavy, nVal) + Tail(normal, need), val + Head(normal, need))
    else (Tail(heavy, nVal) + normal, val)
  }

  predicate RoundedDown(k: int, x: real) { k as real <= x < k as real + 1.0 }

  // Training takes its share of the n regular sessions, rounded down.
  predicate TakesShare(k: int, n: int, share: real) { 0.0 <= share <= 1.0 ==> RoundedDown(k, Part(n, share)) }

  function Part(n: int, share: real): real { n as real * share }

  function TrainShare(trainRatio: real, valRatio: real): real
    requires trainRatio + valRatio != 0.0
  {
    trainRatio / (trainRatio + valRatio)
  }

  // Ratios that are not negative make a share.
  lemma ShareFits(trainRatio: real, valRatio: real)
    requires trainRatio >= 0.0 && valRatio >= 0.0 && trainRatio + valRatio != 0.0
    ensures 0.0 <= TrainShare(trainRatio, valRatio) <= 1.0
    ensures TrainShare(trainRatio, valRatio) * (trainRatio + valRatio) == trainRatio
  {
    var q := TrainShare(trainRatio, valRatio);
    assert q * (trainRatio + valRatio) == trainRatio;
  }

  lemma PartFits(n: nat, share: real)
    requires 0.0 <= share <= 1.0
    ensures 0.0 <= Part(n, share) <= n as real
  {
    Scales(n as real, share);
  }

  lemma Scales(n: real, share: real)
    requires 0.0 <= share <= 1.0 && n >= 0.0
    ensures 0.0 <= n * share <= n
  {
    assert n * (1.0 - share) >= 0.0;
  }

  lemma {:induction false} OnlySizes(ss: seq<Session>)
    ensures |Only(ss, true)| + |Only(ss, false)| == |ss|
  {
    if ss != [] {
      OnlySizes(ss[..|ss| - 1]);
    }
  }

  // Sending the heavy leftovers to validation first changes who is where, not how many.
  lemma DivideSizes(pool: seq<Session>, nVal: int)
    requires 0 <= nVal <= |pool|
    ensures |Divide(pool, nVal).0| == |pool| - nVal && |Divide(pool, nVal).1| == nVal
  {
    OnlySizes(pool);
  }

  lemma ShareTaken(pool: seq<Session>, share: real)
    ensures TakesShare(|Divide(pool, |pool| - Truncate(Part(|pool|, share))).0|, |pool|, share)
  {
    if 0.0 <= share <= 1.0 {
      PartFits(|pool|, share);
      PartTaken(pool, Part(|pool|, share), Truncate(Part(|pool|, share)));
    }
  }

  lemma PartTaken(pool: seq<Session>, part: real, nTrain: int)
    requires 0.0 <= part <= |pool| as real && nTrain == Truncate(part)
    ensures RoundedDown(|Divide(pool, |pool| - nTrain).0|, part)
  {
    DivideSizes(pool, |pool| - nTrain);
  }

  lemma MembersAddUp(a: seq<Session>, b: seq<Session>, whole: seq<Session>)
    requires multiset(a) + multiset(b) == multiset(whole)
    ensures |a| + |b| == |whole|
  {
    assert multiset(a + b) == multiset(whole);
    SameLength(a + b, whole);
  }

  // The regular sessions, by the ratio of the two others.
  method DividePool(pool: seq<Session>, trainRatio: real, valRatio: real)
    returns (train: seq<Session>, val: seq<Session>, ghost nVal: int)
    requires trainRatio + valRatio != 0.0
    ensures (train, val) == Divide(pool, nVal)
    ensures TakesShare(|train|, |pool|, TrainShare(trainRatio, valRatio))
  {
    var share := TrainShare(trainRatio, valRatio);
    var nTrain := Truncate(Part(|pool|, share));
    nVal := |pool| - nTrain;
    var parts := Divide(pool, |pool| - nTrain);
    train, val := parts.0, parts.1;
    ShareTaken(pool, share);
  }

  method SplitSessions(sessions: seq<Session>, shuffled: seq<Session>,
                       trainRatio: real, valRatio: real, holdoutRatio: real)
    returns (r: Result<Split, Error>)
    requires multiset(shuffled) == multiset(sessions)
    ensures r == Err(DivisionByZero) <==> trainRatio + valRatio == 0.0
    ensures r.Ok? ==> Covers(r.value, sessions, holdoutRatio) && Isolated(r.value) && NoSharedIds(r.value)
    ensures r.Ok? ==> TakesShare(|r.value.train|, |sessions| - |r.value.holdout|,
                                      TrainShare(trainRatio, valRatio))
    ensures r.Err? && r.error.Leakage? ==> !DistinctIds(sessions)
  {
    var target := HoldoutTarget(|sessions|, holdoutRatio);
    var holdout, pool, _, _ := FillHoldout(shuffled, target);
    SameLength(shuffled, sessions);
    if trainRatio + valRatio == 0.0 {
      return Err(DivisionByZero);
    }
    var train, val, nVal := DividePool(pool, trainRatio, valRatio);
    var split := Split(train, val, holdout);
    SplitIsGood(sessions, holdout, pool, nVal, holdoutRatio);
    MembersAddUp(holdout, pool, sessions);
    var tv, th, vh := Shared(train, val), Shared(train, holdout), Shared(val, holdout);
    LeakIsDuplicate(split, sessions);
    if tv.Some? {
      return Err(Leakage(tv.value));
    }
    if th.Some? {
      return Err(Leakage(th.value));
    }
    if vh.Some? {
      return Err(Leakage(vh.value));
    }
    return Ok(split);
  }

  // ---------------------------------------------------------------- what it promises

  ghost predicate DistinctIds(ss: seq<Session>) {
    forall i, j | 0 <= i < j < |ss| :: ss[i].id != ss[j].id
  }

  // Every session lands in exactly one set, the holdout has the size asked for, and no
  // frame is lost.
  ghost predicate Covers(s: Split, sessions: seq<Session>, ratio: real) {
    var target := HoldoutTarget(|sessions|, ratio);
    && multiset(s.train) + multiset(s.val) + multiset(s.holdout) == multiset(sessions)
    && |s.holdout| == (if |sessions| <= target then |sessions| else target)
    && Frames(s.train) + Frames(s.val) + Frames(s.holdout) == Frames(sessions)
  }

  // A heavy session in training means validation is all heavy; one outside the holdout
  // means the holdout is all heavy.
  ghost predicate Isolated(s: Split) {
    && ((exists i | 0 <= i < |s.train| :: s.train[i].heavy) ==> AllHeavy(s.val) && AllHeavy(s.holdout))
    && ((exists i | 0 <= i < |s.val| :: s.val[i].heavy) ==> AllHeavy(s.holdout))
  }

  ghost predicate NoSharedIds(s: Split) {
    && (forall i | 0 <= i < |s.train| :: !HasId(s.val, s.train[i].id) && !HasId(s.holdout, s.train[i].id))
    && (forall i | 0 <= i < |s.val| :: !HasId(s.holdout, s.val[i].id))
  }

  lemma SameLength(a: seq<Session>, b: seq<Session>)
    requires multiset(a) == multiset(b)
    ensures |a| == |b|
  {
    assert |multiset(a)| == |a| && |multiset(b)| == |b|;
  }

  lemma {:induction false} OnlyPartitions(ss: seq<Session>)
    ensures multiset(Only(ss, true)) + multiset(Only(ss, false)) == multiset(ss)
    ensures AllHeavy(Only(ss, true)) && forall i | 0 <= i < |Only(ss, false)| :: !Only(ss, false)[i].heavy
  {
    if ss != [] {
      OnlyPartitions(ss[..|ss| - 1]);
      assert ss == ss[..|ss| - 1] + [ss[|ss| - 1]];
    }
  }

  lemma HeadTail(ss: seq<Session>, n: int)
    ensures multiset(Head(ss, n)) + multiset(Tail(ss, n)) == multiset(ss)
    ensures Head(ss, n) + Tail(ss, n) == ss
  {
    assert Head(ss, n) + Tail(ss, n) == ss;
  }

  lemma DividePartitions(pool: seq<Session>, nVal: int)
    ensures multiset(Divide(pool, nVal).0) + multiset(Divide(pool, nVal).1) == multiset(pool)
  {
    var heavy, normal := Only(pool, true), Only(pool, false);
    OnlyPartitions(pool);
    HeadTail(heavy, nVal);
    HeadTail(normal, nVal - |Head(heavy, nVal)|);
  }

  // Training sees a heavy session only if validation could not take it.
  lemma DivideIsolates(pool: seq<Session>, nVal: int)
    ensures (exists i | 0 <= i < |Divide(pool, nVal).0| :: Divide(pool, nVal).0[i].heavy) ==> AllHeavy(Divide(pool, nVal).1)
  {
    var heavy, normal := Only(pool, true), Only(pool, false);
    OnlyPartitions(pool);
    HeadTail(heavy, nVal);
    HeadTail(normal, nVal - |Head(heavy, nVal)|);
  }

  // Without heavy sessions in the pool nothing drawn from it is heavy.
  lemma NoneHeavy(pool: seq<Session>, part: seq<Session>)
    requires Only(pool, true) == [] && forall s | s in part :: s in pool
    ensures forall i | 0 <= i < |part| :: !part[i].heavy
  {
    OnlyPartitions(pool);
    forall i | 0 <= i < |part| ensures !part[i].heavy {
      assert part[i] in part;
      assert part[i] in multiset(pool) && part[i] in multiset(Only(pool, false));
    }
  }

  lemma SplitIsGood(sessions: seq<Session>, holdout: seq<Session>, pool: seq<Session>, nVal: int, ratio: real)
    requires multiset(holdout) + multiset(pool) == multiset(sessions)
    requires var target := HoldoutTarget(|sessions|, ratio);
             |holdout| == if |sessions| <= target then |sessions| else target
    requires !AllHeavy(holdout) ==> Only(pool, true) == []
    ensures var (train, val) := Divide(pool, nVal);
            Covers(Split(train, val, holdout), sessions, ratio) && Isolated(Split(train, val, holdout))
  {
    var (train, val) := Divide(pool, nVal);
    DividePartitions(pool, nVal);
    DivideIsolates(pool, nVal);
    FramesConserved(Split(train, val, holdout), sessions);
    if !AllHeavy(holdout) {
      MembersOfParts(train, val, pool);
      NoneHeavy(pool, train);
      NoneHeavy(pool, val);
    }
  }

  lemma MembersOfParts(a: seq<Session>, b: seq<Session>, whole: seq<Session>)
    requires multiset(a) + multiset(b) == multiset(whole)
    ensures forall s | s in a :: s in whole
    ensures forall s | s in b :: s in whole
  {
    forall s | s in a || s in b ensures s in whole {
      assert s in multiset(a) + multiset(b);
    }
  }

  // Two sessions with one id cannot both occur, nor one of them twice, when ids are distinct.
  lemma {:induction false} IdOnce(ss: seq<Session>, a: Session, b: Session)
    requires DistinctIds(ss) && a.id == b.id
    ensures multiset(ss)[a] + (if a == b then 0 else multiset(ss)[b]) <= 1
  {
    if ss != [] {
      var n := |ss| - 1;
      assert ss == ss[..n] + [ss[n]];
      IdOnce(ss[..n], a, b);
      if ss[n].id == a.id {
        assert forall i | 0 <= i < n :: ss[..n][i].id != a.id;
        assert a !in ss[..n] && b !in ss[..n];
      }
    }
  }

  lemma SharedNeedsTwo(p: seq<Session>, q: seq<Session>, others: multiset<Session>, sessions: seq<Session>, i: nat)
    requires multiset(p) + multiset(q) + others == multiset(sessions)
    requires DistinctIds(sessions) && i < |p|
    ensures !HasId(q, p[i].id)
  {
    if HasId(q, p[i].id) {
      var j :| 0 <= j < |q| && q[j].id == p[i].id;
      IdOnce(sessions, p[i], q[j]);
    }
  }

  // With distinct ids no two of the sets can share one.
  lemma LeakIsDuplicate(s: Split, sessions: seq<Session>)
    requires multiset(s.train) + multiset(s.val) + multiset(s.holdout) == multiset(sessions)
    ensures DistinctIds(sessions) ==> NoSharedIds(s)
  {
    if DistinctIds(sessions) {
      forall i | 0 <= i < |s.train| ensures !HasId(s.val, s.train[i].id) && !HasId(s.holdout, s.train[i].id) {
        SharedNeedsTwo(s.train, s.val, multiset(s.holdout), sessions, i);
        SharedNeedsTwo(s.train, s.holdout, multiset(s.val), sessions, i);
      }
      forall i | 0 <= i < |s.val| ensures !HasId(s.holdout, s.val[i].id) {
        SharedNeedsTwo(s.val, s.holdout, multiset(s.train), sessions, i);
      }
    }
  }

  // Frames are conserved by any split that covers the sessions.
  lemma FramesConserved(s: Split, sessions: seq<Session>)
    requires multiset(s.train) + multiset(s.val) + multiset(s.holdout) == multiset(sessions)
    ensures Frames(s.train) + Frames(s.val) + Frames(s.holdout) == Frames(sessions)
  {
    FramesConcat(s.train, s.val);
    FramesConcat(s.train + s.val, s.holdout);
    SameFrames(s.train + s.val + s.holdout, sessions);
  }

  lemma {:induction false} FramesConcat(a: seq<Session>, b: seq<Session>)
    ensures Frames(a + b) == Frames(a) + Frames(b)
  {
    if b == [] {
      assert a + b == a;
    } else {
      FramesConcat(a, b[..|b| - 1]);
      assert (a + b)[..|a + b| - 1] == a + b[..|b| - 1];
    }
  }

  // Taking one session out.
  lemma WithoutOne(b: seq<Session>, j: nat)
    requires j < |b|
    ensures var rest := b[..j] + b[j + 1..];
            multiset(rest) == multiset(b) - multiset{b[j]} && Frames(b) == Frames(rest) + b[j].frames
  {
    assert b == b[..j] + [b[j]] + b[j + 1..];
    FramesConcat(b[..j], b[j + 1..]);
    FramesConcat(b[..j] + [b[j]], b[j + 1..]);
    FramesConcat(b[..j], [b[j]]);
    assert [b[j]][..0] == [];
  }

  lemma {:induction false} SameFrames(a: seq<Session>, b: seq<Session>)
    requires multiset(a) == multiset(b)
    ensures Frames(a) == Frames(b)
    decreases |a|
  {
    SameLength(a, b);
    if a != [] {
      var n := |a| - 1;
      assert a == a[..n] + [a[n]];
      assert a[n] in multiset(b);
      var j :| 0 <= j < |b| && b[j] == a[n];
      WithoutOne(b, j);
      SameFrames(a[..n], b[..j] + b[j + 1..]);
    }
  }
}
