/**
 The count event ledger: append-only, one row per crossing key, first write wins;
 and when the order of deliveries does not matter to the totals it yields. */
module Ledger {
  import opened Wrappers

  // The columns of the uniqueness constraint.
  datatype Key = Key(session: int, camera: int, epoch: int, track: nat, gate: int, seqNo: nat)

  datatype Event = Event(
    key: Key, line: int, bundle: int, direction: int, frame: int, timestamp: int,
    confidence: real, mergeFlag: bool, defect: Option<string>, simulated: bool)

  predicate HasKey(rows: seq<Event>, k: Key) {
    exists i | 0 <= i < |rows| :: rows[i].key == k
  }

  // The row that holds a key.
  function Find(rows: seq<Event>, key: Key): (r: Option<Event>)
    ensures r.Some? <==> HasKey(rows, key)
    ensures r.Some? ==> r.value in rows && r.value.key == key
  {
    if rows == [] then None
    else if rows[|rows| - 1].key == key then Some(rows[|rows| - 1])
    else
      var r := Find(rows[..|rows| - 1], key);
      assert rows == rows[..|rows| - 1] + [rows[|rows| - 1]];
      r
  }

  // First write wins.
  function Insert(rows: seq<Event>, e: Event): seq<Event> {
    if HasKey(rows, e.key) then rows else rows + [e]
  }

  function InsertAll(rows: seq<Event>, ds: seq<Event>): seq<Event> {
    if ds == [] then rows else Insert(InsertAll(rows, ds[..|ds| - 1]), ds[|ds| - 1])
  }

  // The net count of a session: the sum of its directions.
  function Total(rows: seq<Event>, session: int): int {
    if rows == [] then 0 else
      var e := rows[|rows| - 1];
      Total(rows[..|rows| - 1], session) + if e.key.session == session then e.direction else 0
  }

  ghost predicate KeysDistinct(rows: seq<Event>) {
    forall i, j | 0 <= i < j < |rows| :: rows[i].key != rows[j].key
  }

  // ------------------------------------------------------------ one row per key

  lemma {:induction false} TotalConcat(a: seq<Event>, b: seq<Event>, session: int)
    ensures Total(a + b, session) == Total(a, session) + Total(b, session)
  {
    if b == [] {
      assert a + b == a;
    } else {
      TotalConcat(a, b[..|b| - 1], session);
      assert (a + b)[..|a + b| - 1] == a + b[..|b| - 1];
    }
  }

  // Any delivery keeps old rows, adds only delivered events, covers every delivered
  // key and leaves one row per key.
  lemma {:induction false} OneRowPerKey(rows: seq<Event>, ds: seq<Event>)
    requires KeysDistinct(rows)
    ensures KeysDistinct(InsertAll(rows, ds)) && rows <= InsertAll(rows, ds)
    ensures forall i | |rows| <= i < |InsertAll(rows, ds)| :: InsertAll(rows, ds)[i] in ds
    ensures forall k :: HasKey(InsertAll(rows, ds), k) <==> HasKey(rows, k) || HasKey(ds, k)
  {
    if ds != [] {
      var init, e := ds[..|ds| - 1], ds[|ds| - 1];
      var before, after := InsertAll(rows, init), InsertAll(rows, ds);
      OneRowPerKey(rows, init);
      assert ds == init + [e];
      forall k ensures HasKey(after, k) <==> HasKey(before, k) || k == e.key {
        KeysOfInsert(before, e, k);
      }
      forall k ensures HasKey(ds, k) <==> HasKey(init, k) || k == e.key {
        KeysOfAppend(init, e, k);
      }
      if !HasKey(before, e.key) {
        forall i, j | 0 <= i < j < |after| ensures after[i].key != after[j].key {
          if j == |before| {
            assert before[i].key != e.key;
          }
        }
      }
    }
  }

  lemma KeysOfAppend(rows: seq<Event>, e: Event, k: Key)
    ensures HasKey(rows + [e], k) <==> HasKey(rows, k) || k == e.key
  {
    if HasKey(rows, k) {
      var i :| 0 <= i < |rows| && rows[i].key == k;
      assert (rows + [e])[i].key == k;
    }
    assert (rows + [e])[|rows|] == e;
  }

  lemma KeysOfInsert(rows: seq<Event>, e: Event, k: Key)
    ensures HasKey(Insert(rows, e), k) <==> HasKey(rows, k) || k == e.key
  {
    KeysOfAppend(rows, e, k);
  }

  // ------------------------------------------------------- the order of delivery

  // Deliveries of one crossing agree on its direction.
  ghost predicate Agree(ds: seq<Event>) {
    forall i, j | 0 <= i < |ds| && 0 <= j < |ds| && ds[i].key == ds[j].key :: ds[i].direction == ds[j].direction
  }

  ghost predicate SameEvents(a: seq<Event>, b: seq<Event>) {
    forall e :: e in a <==> e in b
  }

  // The rows without those of one key.
  function Without(rows: seq<Event>, k: Key): seq<Event> {
    if rows == [] then [] else
      var e, rest := rows[|rows| - 1], Without(rows[..|rows| - 1], k);
      if e.key == k then rest else rest + [e]
  }

  lemma {:induction false} WithoutKeys(rows: seq<Event>, k: Key)
    ensures forall e :: e in Without(rows, k) <==> e in rows && e.key != k
    ensures KeysDistinct(rows) ==> KeysDistinct(Without(rows, k))
    ensures |Without(rows, k)| <= |rows|
    ensures HasKey(rows, k) ==> |Without(rows, k)| < |rows|
  {
    if rows != [] {
      var init, e := rows[..|rows| - 1], rows[|rows| - 1];
      WithoutKeys(init, k);
      assert rows == init + [e];
      KeysOfAppend(init, e, k);
      if KeysDistinct(rows) && e.key != k {
        var rest := Without(init, k);
        forall i | 0 <= i < |rest| ensures rest[i].key != e.key {
          assert rest[i] in init;
        }
      }
    }
  }

  // In a table with one row per key, taking a row out takes out its direction.
  lemma {:induction false} TotalWithout(rows: seq<Event>, i: nat, session: int)
    requires KeysDistinct(rows) && i < |rows|
    ensures Total(rows, session) == Total(Without(rows, rows[i].key), session)
                                  + if rows[i].key.session == session then rows[i].direction else 0
  {
    var k := |rows| - 1;
    if i < k {
      TotalWithout(rows[..k], i, session);
    } else {
      NothingToRemove(rows[..k], rows[k].key);
    }
  }

  lemma {:induction false} NothingToRemove(rows: seq<Event>, k: Key)
    requires !HasKey(rows, k)
    ensures Without(rows, k) == rows
  {
    if rows != [] {
      var n := |rows| - 1;
      assert rows[n].key != k;
      assert forall i | 0 <= i < n :: rows[..n][i] == rows[i];
      NothingToRemove(rows[..n], k);
    }
  }

  // The same keys with the same directions.
  ghost predicate SameCrossings(a: seq<Event>, b: seq<Event>) {
    && (forall k :: HasKey(a, k) <==> HasKey(b, k))
    && (forall i, j | 0 <= i < |a| && 0 <= j < |b| && a[i].key == b[j].key :: a[i].direction == b[j].direction)
  }

  // Two tables with one row per key and the same crossings have the same totals.
  lemma {:induction false} SameTotals(a: seq<Event>, b: seq<Event>, session: int)
    requires KeysDistinct(a) && KeysDistinct(b) && SameCrossings(a, b)
    ensures Total(a, session) == Total(b, session)
    decreases |a|
  {
    if a == [] {
      if b != [] {
        assert HasKey(b, b[0].key);
      }
    } else {
      var k := a[0].key;
      assert HasKey(a, k);
      var j :| 0 <= j < |b| && b[j].key == k;
      WithoutKeys(a, k);
      WithoutKeys(b, k);
      WithoutCrossings(a, b, k);
      SameTotals(Without(a, k), Without(b, k), session);
      TotalWithout(a, 0, session);
      TotalWithout(b, j, session);
    }
  }

  lemma WithoutCrossings(a: seq<Event>, b: seq<Event>, k: Key)
    requires SameCrossings(a, b)
    ensures SameCrossings(Without(a, k), Without(b, k))
  {
    var a', b' := Without(a, k), Without(b, k);
    WithoutKeys(a, k);
    WithoutKeys(b, k);
    forall x ensures HasKey(a', x) <==> HasKey(b', x) {
      KeysOfWithout(a, k, x);
      KeysOfWithout(b, k, x);
    }
    forall i, j | 0 <= i < |a'| && 0 <= j < |b'| && a'[i].key == b'[j].key
      ensures a'[i].direction == b'[j].direction
    {
      assert a'[i] in a && b'[j] in b;
    }
  }

  lemma KeysOfWithout(rows: seq<Event>, k: Key, x: Key)
    ensures HasKey(Without(rows, k), x) <==> HasKey(rows, x) && x != k
  {
    WithoutKeys(rows, k);
    var rest := Without(rows, k);
    if HasKey(rest, x) {
      var i :| 0 <= i < |rest| && rest[i].key == x;
      assert rest[i] in rows;
    }
    if HasKey(rows, x) && x != k {
      var i :| 0 <= i < |rows| && rows[i].key == x;
      assert rows[i] in rest;
    }
  }

  // What counts of the deliveries is which keys they bring, and in which direction: in any
  // order, with any repetitions and other metadata, on top of any table, they leave the same
  // keys and the same totals.
  lemma OrderIsIrrelevant(rows: seq<Event>, ds: seq<Event>, es: seq<Event>, session: int)
    requires KeysDistinct(rows) && SameCrossings(ds, es)
    ensures Total(InsertAll(rows, ds), session) == Total(InsertAll(rows, es), session)
    ensures |InsertAll(rows, ds)| == |InsertAll(rows, es)|
    ensures forall k :: HasKey(InsertAll(rows, ds), k) <==> HasKey(InsertAll(rows, es), k)
  {
    var a, b := InsertAll(rows, ds), InsertAll(rows, es);
    OneRowPerKey(rows, ds);
    OneRowPerKey(rows, es);
    forall i, j | 0 <= i < |a| && 0 <= j < |b| && a[i].key == b[j].key ensures a[i].direction == b[j].direction {
      AgreeInTables(rows, ds, es, i, j);
    }
    SameTotals(a, b, session);
    SameSize(a, b);
  }

  lemma AgreeInTables(rows: seq<Event>, ds: seq<Event>, es: seq<Event>, i: nat, j: nat)
    requires KeysDistinct(rows) && SameCrossings(ds, es)
    requires var a, b := InsertAll(rows, ds), InsertAll(rows, es);
             i < |a| && j < |b| && a[i].key == b[j].key
    ensures InsertAll(rows, ds)[i].direction == InsertAll(rows, es)[j].direction
  {
    var a, b := InsertAll(rows, ds), InsertAll(rows, es);
    OneRowPerKey(rows, ds);
    OneRowPerKey(rows, es);
    if i < |rows| || j < |rows| {
      var m := if i < |rows| then i else j;
      assert a[m] == b[m] == rows[m];
    } else {
      assert a[i] in ds && b[j] in es;
    }
  }

  // Deliveries that agree among themselves are the same crossings in any order.
  lemma ReorderedCrossings(ds: seq<Event>, es: seq<Event>)
    requires Agree(ds) && SameEvents(ds, es)
    ensures SameCrossings(ds, es)
  {
    forall k ensures HasKey(ds, k) <==> HasKey(es, k) {
      SameEventsSameKeys(ds, es, k);
      SameEventsSameKeys(es, ds, k);
    }
    forall i, j | 0 <= i < |ds| && 0 <= j < |es| && ds[i].key == es[j].key ensures ds[i].direction == es[j].direction {
      assert es[j] in ds;
    }
  }

  lemma SameEventsSameKeys(ds: seq<Event>, es: seq<Event>, k: Key)
    requires SameEvents(ds, es)
    ensures HasKey(ds, k) ==> HasKey(es, k)
  {
    if HasKey(ds, k) {
      var i :| 0 <= i < |ds| && ds[i].key == k;
      assert ds[i] in es;
    }
  }

  lemma {:induction false} SameSize(a: seq<Event>, b: seq<Event>)
    requires KeysDistinct(a) && KeysDistinct(b) && SameCrossings(a, b)
    ensures |a| == |b|
  {
    KeySetSize(a);
    KeySetSize(b);
    forall k ensures k in KeySet(a) <==> k in KeySet(b) {
      assert HasKey(a, k) <==> HasKey(b, k);
    }
    assert KeySet(a) == KeySet(b);
  }

  function KeySet(rows: seq<Event>): set<Key> { set i | 0 <= i < |rows| :: rows[i].key }

  lemma {:induction false} KeySetSize(rows: seq<Event>)
    requires KeysDistinct(rows)
    ensures |KeySet(rows)| == |rows|
  {
    if rows != [] {
      var n := |rows| - 1;
      KeySetSize(rows[..n]);
      assert KeySet(rows) == KeySet(rows[..n]) + {rows[n].key};
    }
  }

  // ---------------------------------------------------------- exactly when order is irrelevant

  lemma {:induction false} FirstWins(e: Event, ds: seq<Event>)
    ensures InsertAll([], [e] + ds) == [e] + InsertAll([], Without(ds, e.key))
  {
    if ds == [] {
      assert [e] + ds == [e];
      assert [e][..0] == [];
    } else {
      var init, d := ds[..|ds| - 1], ds[|ds| - 1];
      FirstWins(e, init);
      assert ([e] + ds)[..|ds|] == [e] + init;
      var rest := InsertAll([], Without(init, e.key));
      assert InsertAll([], [e] + init) == [e] + rest;
      KeysOfPrepend(e, rest, d.key);
      if d.key != e.key {
        var w := Without(init, e.key);
        assert Without(ds, e.key) == w + [d];
        assert (w + [d])[..|w|] == w;
        assert [e] + rest + [d] == [e] + (rest + [d]);
      }
    }
  }

  lemma KeysOfPrepend(e: Event, rows: seq<Event>, k: Key)
    ensures HasKey([e] + rows, k) <==> k == e.key || HasKey(rows, k)
  {
    assert ([e] + rows)[0] == e;
    if HasKey(rows, k) {
      var i :| 0 <= i < |rows| && rows[i].key == k;
      assert ([e] + rows)[i + 1].key == k;
    }
    if HasKey([e] + rows, k) && k != e.key {
      var i :| 0 <= i < |[e] + rows| && ([e] + rows)[i].key == k;
      assert rows[i - 1].key == k;
    }
  }

  ghost predicate OrderNeverMatters(ds: seq<Event>) {
    forall es, session | SameEvents(ds, es) ::
      Total(InsertAll([], es), session) == Total(InsertAll([], ds), session)
  }

  // Delivering d first or e first shows the difference between their directions.
  lemma DisagreementShows(ds: seq<Event>, i: nat, j: nat)
    requires i < |ds| && j < |ds| && ds[i].key == ds[j].key && OrderNeverMatters(ds)
    ensures ds[i].direction == ds[j].direction
  {
    var d, e, k := ds[i], ds[j], ds[i].key;
    var rest := InsertAll([], Without(ds, k));
    FirstWins(d, ds);
    FirstWins(e, ds);
    assert SameEvents(ds, [d] + ds) && SameEvents(ds, [e] + ds);
    assert Total(InsertAll([], [d] + ds), k.session) == Total(InsertAll([], ds), k.session);
    assert Total(InsertAll([], [e] + ds), k.session) == Total(InsertAll([], ds), k.session);
    TotalConcat([d], rest, k.session);
    TotalConcat([e], rest, k.session);
    assert Total([d], k.session) == d.direction && Total([e], k.session) == e.direction by {
      assert [d][..0] == [] && [e][..0] == [];
    }
  }

  lemma OrderIrrelevantExactly(ds: seq<Event>)
    ensures OrderNeverMatters(ds) <==> Agree(ds)
  {
    if Agree(ds) {
      forall es, session | SameEvents(ds, es)
        ensures Total(InsertAll([], es), session) == Total(InsertAll([], ds), session)
      {
        ReorderedCrossings(ds, es);
        OrderIsIrrelevant([], ds, es, session);
      }
    }
    if OrderNeverMatters(ds) {
      forall i, j | 0 <= i < |ds| && 0 <= j < |ds| && ds[i].key == ds[j].key
        ensures ds[i].direction == ds[j].direction
      {
        DisagreementShows(ds, i, j);
      }
    }
  }

  // Every delivered crossing becomes a row, none taken for a duplicate, exactly when
  // their keys differ from one another and from those already there.
  lemma NoneRejectedExactly(rows: seq<Event>, ds: seq<Event>)
    requires KeysDistinct(rows)
    ensures InsertAll(rows, ds) == rows + ds <==> KeysDistinct(rows + ds)
  {
    OneRowPerKey(rows, ds);
    if KeysDistinct(rows + ds) {
      NoneRejected(rows, ds);
    }
  }

  lemma {:induction false} NoneRejected(rows: seq<Event>, ds: seq<Event>)
    requires KeysDistinct(rows + ds)
    ensures InsertAll(rows, ds) == rows + ds
  {
    if ds != [] {
      var n := |ds| - 1;
      var before := rows + ds[..n];
      assert forall i | 0 <= i < |before| :: before[i] == (rows + ds)[i];
      NoneRejected(rows, ds[..n]);
      assert (rows + ds)[|before|] == ds[n];
      assert before + [ds[n]] == rows + ds;
    }
  }

  // ------------------------------------------------------------- one session at a time

  // The rows, or deliveries, of one session.
  function ForSession(ds: seq<Event>, session: int): seq<Event> {
    if ds == [] then [] else
      var e, rest := ds[|ds| - 1], ForSession(ds[..|ds| - 1], session);
      if e.key.session == session then rest + [e] else rest
  }

  lemma {:induction false} ForSessionMembers(ds: seq<Event>, session: int)
    ensures forall e :: e in ForSession(ds, session) <==> e in ds && e.key.session == session
  {
    if ds != [] {
      ForSessionMembers(ds[..|ds| - 1], session);
      assert ds == ds[..|ds| - 1] + [ds[|ds| - 1]];
    }
  }

  lemma {:induction false} ForSessionConcat(a: seq<Event>, b: seq<Event>, session: int)
    ensures ForSession(a + b, session) == ForSession(a, session) + ForSession(b, session)
  {
    if b == [] {
      assert a + b == a;
    } else {
      var n := |b| - 1;
      ForSessionConcat(a, b[..n], session);
      assert (a + b)[..|a + b| - 1] == a + b[..n];
    }
  }

  lemma {:induction false} ForSessionAll(ds: seq<Event>, session: int)
    ensures (forall e | e in ds :: e.key.session == session) ==> ForSession(ds, session) == ds
    ensures (forall e | e in ds :: e.key.session != session) ==> ForSession(ds, session) == []
  {
    if ds != [] {
      var n := |ds| - 1;
      assert ds == ds[..n] + [ds[n]];
      ForSessionAll(ds[..n], session);
    }
  }

  lemma ForSessionKey(ds: seq<Event>, session: int, k: Key)
    requires k.session == session
    ensures HasKey(ForSession(ds, session), k) <==> HasKey(ds, k)
  {
    var mine := ForSession(ds, session);
    ForSessionMembers(ds, session);
    if HasKey(mine, k) {
      var i :| 0 <= i < |mine| && mine[i].key == k;
      assert mine[i] in ds;
    }
    if HasKey(ds, k) {
      var i :| 0 <= i < |ds| && ds[i].key == k;
      assert ds[i] in mine;
    }
  }

  lemma {:induction false} ForSessionDistinct(rows: seq<Event>, session: int)
    requires KeysDistinct(rows)
    ensures KeysDistinct(ForSession(rows, session))
  {
    if rows != [] {
      var n := |rows| - 1;
      var rest := ForSession(rows[..n], session);
      ForSessionDistinct(rows[..n], session);
      ForSessionMembers(rows[..n], session);
      forall i | 0 <= i < |rest| ensures rest[i].key != rows[n].key {
        assert rest[i] in rows[..n];
      }
    }
  }

  // A session's total only depends on its own rows.
  lemma {:induction false} ForSessionTotal(rows: seq<Event>, session: int)
    ensures Total(ForSession(rows, session), session) == Total(rows, session)
  {
    if rows != [] {
      var n := |rows| - 1;
      ForSessionTotal(rows[..n], session);
      if rows[n].key.session == session {
        var rest := ForSession(rows[..n], session);
        assert (rest + [rows[n]])[..|rest|] == rest;
      }
    }
  }

  lemma ForSessionInsert(rows: seq<Event>, e: Event, session: int)
    ensures ForSession(Insert(rows, e), session)
         == if e.key.session == session then Insert(ForSession(rows, session), e) else ForSession(rows, session)
  {
    if e.key.session == session {
      ForSessionKey(rows, session, e.key);
    }
    assert (rows + [e])[..|rows|] == rows;
  }

  // Delivering and looking at one session commute: other sessions' crossings do not interfere.
  lemma {:induction false} SessionsAreIndependent(rows: seq<Event>, ds: seq<Event>, session: int)
    ensures ForSession(InsertAll(rows, ds), session) == InsertAll(ForSession(rows, session), ForSession(ds, session))
  {
    if ds != [] {
      var init, e := ds[..|ds| - 1], ds[|ds| - 1];
      SessionsAreIndependent(rows, init, session);
      ForSessionInsert(InsertAll(rows, init), e, session);
      if e.key.session == session {
        var mine := ForSession(init, session);
        assert (mine + [e])[..|mine|] == mine;
      }
    }
  }

  // Deliveries that bring one session the same keys in the same directions leave it the same
  // total, whatever else they say and whatever they bring to other sessions.
  lemma SessionOrderIsIrrelevant(rows: seq<Event>, ds: seq<Event>, es: seq<Event>, session: int)
    requires KeysDistinct(rows) && SameCrossings(ForSession(ds, session), ForSession(es, session))
    ensures Total(InsertAll(rows, ds), session) == Total(InsertAll(rows, es), session)
    ensures |ForSession(InsertAll(rows, ds), session)| == |ForSession(InsertAll(rows, es), session)|
  {
    ForSessionDistinct(rows, session);
    SessionsAreIndependent(rows, ds, session);
    SessionsAreIndependent(rows, es, session);
    OrderIsIrrelevant(ForSession(rows, session), ForSession(ds, session), ForSession(es, session), session);
    ForSessionTotal(InsertAll(rows, ds), session);
    ForSessionTotal(InsertAll(rows, es), session);
  }
}
