/**
 The inference worker of a line: one engine that serves whatever session is active, batch by
 batch, across sessions, bundles and restarts.
 */
module Worker {
  import opened Wrappers
  import opened Tracks
  import opened Gate
  import opened Counting
  import CountingLaw
  import opened Ledger
  import opened Sessions
  import opened EventHandler
  import opened Delivery

  // What the worker knows: its engine, and the session and bundle it looked up last.
  datatype Line = Line(engine: EngineState, session: Option<int>, bundle: Option<int>, store: Store)

  // A batch begins with a lookup, which keeps the last bundle when there is none; everyone else
  // may work on the sessions at any time, also within a batch.
  datatype Step =
    | Lookup(bundle: Option<int>)
    | Frame(input: FrameInput, source: Source, area: real, flagged: bool)
    | Others(op: Op)
    | Restart

  // The belt: its gate and its line.
  datatype Belt = Belt(gate: Geometry, line: int)

  function ActiveOf(st: Store, line: int): Option<int> {
    var s := ActiveSession(st.sessions, line);
    if s > 0 then Some(s) else None
  }

  ghost predicate Processes(v: Line, s: Step) {
    s.Frame? && SoundPlan(s.input.cfg, v.engine.tracker, s.input.dets, s.input.plan)
  }

  ghost predicate Serves(v: Line, s: Step, session: int) {
    Processes(v, s) && v.session == Some(session) && v.bundle.Some?
  }

  // The one frame, as a window of its session.
  ghost function WindowAt(b: Belt, v: Line, s: Step): Window
    requires Processes(v, s) && v.session.Some? && v.bundle.Some?
  {
    var next := EngineStep(b.gate, v.engine, s.input);
    Window(Place(v.session.value, b.line, v.bundle.value), b.gate, v.engine, next,
           seq(|next.log| - |v.engine.log|, _ => s.source))
  }

  lemma WindowFits(b: Belt, v: Line, s: Step)
    requires Processes(v, s) && v.session.Some? && v.bundle.Some?
    ensures WindowAt(b, v, s).Fits()
  {
  }

  // Crossings of a frame without a session or a bundle are dropped; handling the others stops at
  // the first that fails.
  ghost function Next(b: Belt, v: Line, s: Step): Line {
    match s
    case Lookup(bundle) =>
      v.(session := ActiveOf(v.store, b.line), bundle := if bundle.Some? then bundle else v.bundle)
    case Frame(input, source, area, flagged) =>
      if !Processes(v, s) then v else
        var engine := EngineStep(b.gate, v.engine, input);
        if v.session.None? || v.bundle.None? then v.(engine := engine) else
          WindowFits(b, v, s);
          var ds := WindowAt(b, v, s).Events();
          v.(engine := engine, store := EventHandler.Frame(v.store, ds, v.session.value, area, flagged).store)
    case Others(op) => v.(store := Sessions.Next(v.store, op))
    case Restart => Line(ENGINE_START, None, None, v.store)
  }

  ghost function Run(b: Belt, v: Line, steps: seq<Step>): Line {
    if steps == [] then v else Next(b, Run(b, v, steps[..|steps| - 1]), steps[|steps| - 1])
  }

  // The frames that served a session, each as a window.
  ghost function WindowsOf(b: Belt, v: Line, steps: seq<Step>, session: int): seq<Window> {
    if steps == [] then [] else
      var init, s := steps[..|steps| - 1], steps[|steps| - 1];
      var w := Run(b, v, init);
      if Serves(w, s, session) then WindowsOf(b, v, init, session) + [WindowAt(b, w, s)]
      else WindowsOf(b, v, init, session)
  }

  // --------------------------------------------------- the store sees session operations

  function CrossingOps(ds: seq<Event>): (r: seq<Op>)
    ensures |r| == |ds|
  {
    seq(|ds|, i requires 0 <= i < |ds| => CrossingOp(ds[i]))
  }

  // The crossings of a frame up to and with the first that fails.
  function Handled(st: Store, ds: seq<Event>): seq<Event> {
    if ds == [] then [] else
      var init := ds[..|ds| - 1];
      if Crossings(st, init).failed.Some? then Handled(st, init) else Handled(st, init) + [ds[|ds| - 1]]
  }

  // What follows when none fails.
  function ClosingOps(session: int, area: real, flagged: bool): seq<Op> {
    if flagged then [AreaOp(session, area), DiscrepancyOp(session, area)] else [AreaOp(session, area)]
  }

  function FrameOps(st: Store, ds: seq<Event>, session: int, area: real, flagged: bool): seq<Op> {
    CrossingOps(Handled(st, ds))
    + if Crossings(st, ds).failed.Some? then [] else ClosingOps(session, area, flagged)
  }

  lemma AdvanceIsOp(p: Progress, e: Event)
    ensures Advance(p, e).store == if p.failed.Some? then p.store else Sessions.Next(p.store, CrossingOp(e))
  {
  }

  lemma HandledNext(st: Store, init: seq<Event>, e: Event)
    requires Crossings(st, init).store == Sessions.Run(st, CrossingOps(Handled(st, init)))
    ensures Crossings(st, init + [e]).store == Sessions.Run(st, CrossingOps(Handled(st, init + [e])))
  {
    var h := Handled(st, init);
    assert (init + [e])[..|init|] == init;
    AdvanceIsOp(Crossings(st, init), e);
    if Crossings(st, init).failed.None? {
      assert CrossingOps(h + [e]) == CrossingOps(h) + [CrossingOp(e)];
      RunOne(st, CrossingOps(h), CrossingOp(e));
    }
  }

  lemma {:induction false} CrossingsAreOps(st: Store, ds: seq<Event>)
    ensures Crossings(st, ds).store == Sessions.Run(st, CrossingOps(Handled(st, ds)))
  {
    if ds != [] {
      var init, e := ds[..|ds| - 1], ds[|ds| - 1];
      CrossingsAreOps(st, init);
      HandledNext(st, init, e);
      assert ds == init + [e];
    }
  }

  lemma ClosingEffect(st: Store, session: int, area: real, flagged: bool)
    ensures Sessions.Run(st, ClosingOps(session, area, flagged))
         == if flagged then FlagDiscrepancy(UpdateArea(st, session, area), session, area)
            else UpdateArea(st, session, area)
  {
    var first, second := AreaOp(session, area), DiscrepancyOp(session, area);
    assert [] + [first] == [first] && [first] + [second] == [first, second];
    RunOne(st, [], first);
    RunOne(st, [first], second);
  }

  lemma FrameIsOps(st: Store, ds: seq<Event>, session: int, area: real, flagged: bool)
    ensures EventHandler.Frame(st, ds, session, area, flagged).store
         == Sessions.Run(st, FrameOps(st, ds, session, area, flagged))
  {
    var ops := CrossingOps(Handled(st, ds));
    CrossingsAreOps(st, ds);
    if Crossings(st, ds).failed.Some? {
      assert ops + [] == ops;
    } else {
      RunConcat(st, ops, ClosingOps(session, area, flagged));
      ClosingEffect(Sessions.Run(st, ops), session, area, flagged);
    }
  }

  ghost function OpsAt(b: Belt, v: Line, s: Step): seq<Op> {
    if s.Others? then [s.op]
    else if Processes(v, s) && v.session.Some? && v.bundle.Some? then
      WindowFits(b, v, s);
      FrameOps(v.store, WindowAt(b, v, s).Events(), v.session.value, s.area, s.flagged)
    else []
  }

  ghost function OpsOf(b: Belt, v: Line, steps: seq<Step>): seq<Op> {
    if steps == [] then [] else
      OpsOf(b, v, steps[..|steps| - 1]) + OpsAt(b, Run(b, v, steps[..|steps| - 1]), steps[|steps| - 1])
  }

  lemma StoreOfFrame(b: Belt, v: Line, s: Step)
    requires Processes(v, s) && v.session.Some? && v.bundle.Some?
    ensures Next(b, v, s).store == Sessions.Run(v.store, OpsAt(b, v, s))
  {
    WindowFits(b, v, s);
    FrameIsOps(v.store, WindowAt(b, v, s).Events(), v.session.value, s.area, s.flagged);
  }

  lemma StoreOfNext(b: Belt, v: Line, s: Step)
    ensures Next(b, v, s).store == Sessions.Run(v.store, OpsAt(b, v, s))
  {
    if s.Others? {
      assert [] + [s.op] == [s.op];
      RunOne(v.store, [], s.op);
    } else if Processes(v, s) && v.session.Some? && v.bundle.Some? {
      StoreOfFrame(b, v, s);
    }
  }

  lemma {:induction false} StoreOfRun(b: Belt, v: Line, steps: seq<Step>)
    ensures Run(b, v, steps).store == Sessions.Run(v.store, OpsOf(b, v, steps))
  {
    if steps != [] {
      var init, s := steps[..|steps| - 1], steps[|steps| - 1];
      StoreOfRun(b, v, init);
      StoreOfNext(b, Run(b, v, init), s);
      RunConcat(v.store, OpsOf(b, v, init), OpsAt(b, Run(b, v, init), s));
    }
  }

  // ------------------------------------------------------------- what the ledger accepts

  lemma {:induction false} AcceptedAloof(st: Store, ops: seq<Op>, session: int)
    requires forall i | 0 <= i < |ops| && ops[i].CrossingOp? :: ops[i].event.key.session != session
    ensures ForSession(Accepted(st, ops), session) == []
  {
    if ops != [] {
      var n := |ops| - 1;
      AcceptedAloof(st, ops[..n], session);
      var before := Accepted(st, ops[..n]);
      if ops[n].CrossingOp? {
        assert (before + [ops[n].event])[..|before|] == before;
      }
    }
  }

  // Crossings whose references are in place are all accepted.
  lemma {:induction false} AcceptedCrossings(st: Store, ds: seq<Event>)
    requires StoreInv(st) && forall e | e in ds :: st.Referenced(e)
    ensures Accepted(st, CrossingOps(ds)) == ds
  {
    if ds != [] {
      var n := |ds| - 1;
      assert ds == ds[..n] + [ds[n]];
      AcceptedCrossings(st, ds[..n]);
      assert CrossingOps(ds)[..n] == CrossingOps(ds[..n]);
      RunKeepsReferenced(st, CrossingOps(ds[..n]), ds[n]);
    }
  }

  lemma NoneFails(st: Store, ds: seq<Event>)
    requires StoreInv(st) && forall e | e in ds :: st.Referenced(e)
    ensures Crossings(st, ds).failed.None?
  {
    FrameFailsExactly(st, ds);
    assert forall i | 0 <= i < |ds| :: ds[i] in ds && Acceptable(st, ds, i);
  }

  lemma {:induction false} AllHandled(st: Store, ds: seq<Event>)
    requires StoreInv(st) && forall e | e in ds :: st.Referenced(e)
    ensures Handled(st, ds) == ds
  {
    if ds != [] {
      var n := |ds| - 1;
      assert ds == ds[..n] + [ds[n]];
      NoneFails(st, ds[..n]);
      AllHandled(st, ds[..n]);
    }
  }

  lemma {:induction false} HandledFrom(st: Store, ds: seq<Event>)
    ensures forall e | e in Handled(st, ds) :: e in ds
  {
    if ds != [] {
      assert ds == ds[..|ds| - 1] + [ds[|ds| - 1]];
      HandledFrom(st, ds[..|ds| - 1]);
    }
  }

  // Others neither deliver for the session nor set its count, and what the worker records for it
  // refers to rows that exist.
  ghost predicate Proper(b: Belt, v: Line, s: Step, session: int) {
    && (s.Others? ==>
          !OverridesOf(v.store, s.op, session) && (s.op.CrossingOp? ==> s.op.event.key.session != session))
    && (Serves(v, s, session) ==>
          WindowAt(b, v, s).Fits() && forall e | e in WindowAt(b, v, s).Events() :: v.store.Referenced(e))
  }

  ghost predicate ProperRun(b: Belt, v: Line, steps: seq<Step>, session: int) {
    steps == [] ||
    var n := |steps| - 1;
    ProperRun(b, v, steps[..n], session) && Proper(b, Run(b, v, steps[..n]), steps[n], session)
  }

  lemma AcceptedFrame(st: Store, ds: seq<Event>, session: int, area: real, flagged: bool)
    requires StoreInv(st) && forall e | e in ds :: st.Referenced(e) && e.key.session == session
    ensures ForSession(Accepted(st, FrameOps(st, ds, session, area, flagged)), session) == ds
  {
    NoneFails(st, ds);
    AllHandled(st, ds);
    AcceptedCrossings(st, ds);
    var a := CrossingOps(ds);
    var rest := ClosingOps(session, area, flagged);
    AcceptedConcat(st, a, rest);
    AcceptedAloof(Sessions.Run(st, a), rest, session);
    ForSessionConcat(ds, Accepted(Sessions.Run(st, a), rest), session);
    ForSessionAll(ds, session);
  }

  lemma AcceptedOtherFrame(st: Store, ds: seq<Event>, other: int, area: real, flagged: bool, session: int)
    requires other != session && forall e | e in ds :: e.key.session == other
    ensures ForSession(Accepted(st, FrameOps(st, ds, other, area, flagged)), session) == []
  {
    HandledFrom(st, ds);
    var h := Handled(st, ds);
    assert forall i | 0 <= i < |h| :: h[i] in ds;
    AcceptedAloof(st, FrameOps(st, ds, other, area, flagged), session);
  }

  lemma AcceptedServing(b: Belt, v: Line, s: Step, session: int)
    requires StoreInv(v.store) && Proper(b, v, s, session)
    requires Processes(v, s) && v.session.Some? && v.bundle.Some?
    ensures ForSession(Accepted(v.store, OpsAt(b, v, s)), session)
         == if v.session.value == session then WindowAt(b, v, s).Events() else []
  {
    var ds := WindowAt(b, v, s).Events();
    assert forall e | e in ds :: e.key.session == v.session.value;
    if v.session.value == session {
      AcceptedFrame(v.store, ds, session, s.area, s.flagged);
    } else {
      AcceptedOtherFrame(v.store, ds, v.session.value, s.area, s.flagged, session);
    }
  }

  // A step brings the session its own frame's crossings, or nothing.
  lemma AcceptedAt(b: Belt, v: Line, s: Step, session: int)
    requires StoreInv(v.store) && Proper(b, v, s, session)
    ensures ForSession(Accepted(v.store, OpsAt(b, v, s)), session)
         == if Serves(v, s, session) then WindowAt(b, v, s).Events() else []
  {
    if s.Others? {
      AcceptedAloof(v.store, [s.op], session);
    } else if Processes(v, s) && v.session.Some? && v.bundle.Some? {
      WindowFits(b, v, s);
      AcceptedServing(b, v, s, session);
    }
  }

  lemma FrameDecidesNothing(st: Store, ds: seq<Event>, session: int, area: real, flagged: bool)
    ensures forall i | 0 <= i < |FrameOps(st, ds, session, area, flagged)| ::
              !FrameOps(st, ds, session, area, flagged)[i].ResolveOp?
  {
  }

  lemma NotOverriddenAt(b: Belt, v: Line, s: Step, session: int)
    requires Proper(b, v, s, session)
    ensures NeverOverridden(v.store, OpsAt(b, v, s), session)
  {
    if s.Others? {
      assert [s.op][..0] == [];
    } else if Processes(v, s) && v.session.Some? && v.bundle.Some? {
      WindowFits(b, v, s);
      FrameDecidesNothing(v.store, WindowAt(b, v, s).Events(), v.session.value, s.area, s.flagged);
    }
  }

  // ------------------------------------------------------------------ the session's windows

  lemma EngineOfNext(b: Belt, v: Line, s: Step)
    requires b.gate.ZonesAgree() && EngineInv(b.gate, v.engine)
    ensures EngineInv(b.gate, Next(b, v, s).engine)
  {
    if s.Restart? {
      CountingLaw.StartInv(b.gate);
    } else if Processes(v, s) {
      EngineStepKeepsInv(b.gate, v.engine, s.input);
    }
  }

  lemma {:induction false} EngineOfRun(b: Belt, v: Line, steps: seq<Step>)
    requires b.gate.ZonesAgree() && EngineInv(b.gate, v.engine)
    ensures EngineInv(b.gate, Run(b, v, steps).engine)
  {
    if steps != [] {
      EngineOfRun(b, v, steps[..|steps| - 1]);
      EngineOfNext(b, Run(b, v, steps[..|steps| - 1]), steps[|steps| - 1]);
    }
  }

  lemma RunNext(b: Belt, v: Line, steps: seq<Step>, i: nat)
    requires i < |steps|
    ensures Run(b, v, steps[..i + 1]) == Next(b, Run(b, v, steps[..i]), steps[i])
  {
    assert steps[..i + 1][..i] == steps[..i];
  }

  lemma LogOfNext(b: Belt, v: Line, s: Step)
    requires !s.Restart?
    ensures v.engine.log <= Next(b, v, s).engine.log
  {
  }

  // Between restarts the engine's log only grows.
  lemma {:induction false} LogKept(b: Belt, v: Line, steps: seq<Step>, i: nat, j: nat)
    requires i <= j <= |steps| && forall k | i <= k < j :: !steps[k].Restart?
    ensures Run(b, v, steps[..i]).engine.log <= Run(b, v, steps[..j]).engine.log
  {
    if i < j {
      LogKept(b, v, steps, i, j - 1);
      RunNext(b, v, steps, j - 1);
      LogOfNext(b, Run(b, v, steps[..j - 1]), steps[j - 1]);
    }
  }

  ghost predicate ServesAt(b: Belt, v: Line, steps: seq<Step>, session: int, i: nat) {
    i < |steps| && Serves(Run(b, v, steps[..i]), steps[i], session)
  }

  // Frames of the session before and after a restart come from different sources.
  ghost predicate Renewed(b: Belt, v: Line, steps: seq<Step>, session: int) {
    forall i: nat, j: nat, k | i < k < j && ServesAt(b, v, steps, session, i) && ServesAt(b, v, steps, session, j)
                               && steps[k].Restart? ::
      steps[i].source != steps[j].source
  }

  lemma ServesBefore(b: Belt, v: Line, steps: seq<Step>, session: int, n: nat, i: nat)
    requires i < n <= |steps|
    ensures ServesAt(b, v, steps[..n], session, i) <==> ServesAt(b, v, steps, session, i)
  {
    assert steps[..n][..i] == steps[..i];
  }

  // The step a window comes from.
  lemma {:induction false} WindowFrom(b: Belt, v: Line, steps: seq<Step>, session: int, a: nat) returns (i: nat)
    requires a < |WindowsOf(b, v, steps, session)|
    ensures ServesAt(b, v, steps, session, i)
    ensures WindowsOf(b, v, steps, session)[a] == WindowAt(b, Run(b, v, steps[..i]), steps[i])
  {
    var n := |steps| - 1;
    if a < |WindowsOf(b, v, steps[..n], session)| {
      i := WindowFrom(b, v, steps[..n], session, a);
      assert steps[..n][..i] == steps[..i];
    } else {
      i := n;
    }
  }

  lemma WindowIsValid(b: Belt, v: Line, s: Step, session: int)
    requires b.gate.ZonesAgree() && EngineInv(b.gate, v.engine) && Serves(v, s, session)
    ensures WindowAt(b, v, s).Valid() && WindowAt(b, v, s).place.session == session
  {
    EngineStepKeepsInv(b.gate, v.engine, s.input);
  }

  lemma {:induction false} WindowsAreValid(b: Belt, v: Line, steps: seq<Step>, session: int)
    requires b.gate.ZonesAgree() && EngineInv(b.gate, v.engine)
    ensures AllValid(WindowsOf(b, v, steps, session)) && AllFor(WindowsOf(b, v, steps, session), session)
  {
    var ws := WindowsOf(b, v, steps, session);
    forall a | 0 <= a < |ws| ensures ws[a].Valid() && ws[a].place.session == session {
      var i := WindowFrom(b, v, steps, session, a);
      EngineOfRun(b, v, steps[..i]);
      WindowIsValid(b, Run(b, v, steps[..i]), steps[i], session);
    }
  }

  lemma AfterServing(b: Belt, v: Line, s: Step, session: int)
    requires Serves(v, s, session)
    ensures Next(b, v, s).engine == WindowAt(b, v, s).after
  {
  }

  lemma SameLifeFollows(b: Belt, v: Line, steps: seq<Step>, session: int, i: nat, j: nat)
    requires i < j <= |steps|
    requires Serves(Run(b, v, steps[..i]), steps[i], session)
    requires forall k | i < k < j :: !steps[k].Restart?
    ensures WindowAt(b, Run(b, v, steps[..i]), steps[i]).after.log <= Run(b, v, steps[..j]).engine.log
  {
    LogKept(b, v, steps, i + 1, j);
    RunNext(b, v, steps, i);
    AfterServing(b, Run(b, v, steps[..i]), steps[i], session);
  }

  lemma FramesApart(b: Belt, v: Line, steps: seq<Step>, session: int, i: nat, j: nat)
    requires Renewed(b, v, steps, session) && i < j
    requires ServesAt(b, v, steps, session, i) && ServesAt(b, v, steps, session, j)
    ensures var x, y := WindowAt(b, Run(b, v, steps[..i]), steps[i]), WindowAt(b, Run(b, v, steps[..j]), steps[j]);
            Follows(x, y) || SourcesApart(x, y)
  {
    if k :| i < k < j && steps[k].Restart? {
      assert steps[i].source != steps[j].source;
    } else {
      SameLifeFollows(b, v, steps, session, i, j);
    }
  }

  lemma RenewedBefore(b: Belt, v: Line, steps: seq<Step>, session: int)
    requires steps != [] && Renewed(b, v, steps, session)
    ensures Renewed(b, v, steps[..|steps| - 1], session)
  {
    var n := |steps| - 1;
    forall i: nat, j: nat, k | i < k < j && ServesAt(b, v, steps[..n], session, i)
                               && ServesAt(b, v, steps[..n], session, j) && steps[..n][k].Restart?
      ensures steps[..n][i].source != steps[..n][j].source
    {
      ServesBefore(b, v, steps, session, n, i);
      ServesBefore(b, v, steps, session, n, j);
    }
  }

  lemma {:induction false} WindowsAreApart(b: Belt, v: Line, steps: seq<Step>, session: int)
    requires Renewed(b, v, steps, session)
    ensures WindowsApart(WindowsOf(b, v, steps, session))
  {
    if steps != [] {
      var n := |steps| - 1;
      var before, ws := WindowsOf(b, v, steps[..n], session), WindowsOf(b, v, steps, session);
      RenewedBefore(b, v, steps, session);
      WindowsAreApart(b, v, steps[..n], session);
      if Serves(Run(b, v, steps[..n]), steps[n], session) {
        assert ServesAt(b, v, steps, session, n);
        forall a | 0 <= a < |before| ensures Follows(ws[a], ws[|before|]) || SourcesApart(ws[a], ws[|before|]) {
          var i := WindowFrom(b, v, steps[..n], session, a);
          ServesBefore(b, v, steps, session, n, i);
          assert steps[..n][..i] == steps[..i];
          FramesApart(b, v, steps, session, i, n);
        }
      }
    }
  }

  // ------------------------------------------------------------------- who is served, and why

  // Neither closed nor handed to a human.
  predicate Unfinished(s: Session) { s.status != Closed && s.status != Reconciled && s.status != ReconcileRequired }

  // A session of the belt's line that still counts, the most recently opened of them.
  ghost predicate CountsOn(st: Store, line: int, session: int) {
    && st.Has(session) && st.At(session).line == line && Unfinished(st.At(session))
    && forall other: int | st.Has(other) && st.At(other).line == line && Unfinished(st.At(other)) ::
         st.At(other).openedAt <= st.At(session).openedAt
  }

  // A lookup finds such a session, or none because the line has none; it keeps the last bundle
  // only when there is none.
  lemma LookupFinds(b: Belt, v: Line, bundle: Option<int>)
    ensures var w := Next(b, v, Lookup(bundle));
            && (w.session.Some? ==> CountsOn(v.store, b.line, w.session.value))
            && (w.session.None? ==> forall sid: int | v.store.Has(sid) && v.store.At(sid).line == b.line ::
                                      !Unfinished(v.store.At(sid)))
            && w.bundle == (if bundle.Some? then bundle else v.bundle)
            && w.engine == v.engine && w.store == v.store
  {
    var r := ActiveSession(v.store.sessions, b.line);
    forall sid: int | v.store.Has(sid) && v.store.At(sid).line == b.line && Unfinished(v.store.At(sid))
      ensures r > 0 && v.store.At(sid).openedAt <= v.store.At(r).openedAt
    {
      assert v.store.sessions[sid - 1] == v.store.At(sid);
    }
  }

  // Step l looked the session up, and nothing was looked up or restarted since.
  ghost predicate FoundAt(b: Belt, v: Line, steps: seq<Step>, l: nat, i: nat, session: int) {
    && l < i <= |steps| && steps[l].Lookup?
    && (forall k | l < k < i :: !steps[k].Lookup? && !steps[k].Restart?)
    && CountsOn(Run(b, v, steps[..l]).store, b.line, session)
  }

  // What a worker serves changes with lookups and restarts only.
  lemma ServedOfNext(b: Belt, v: Line, s: Step)
    ensures Next(b, v, s).session
         == if s.Lookup? then ActiveOf(v.store, b.line) else if s.Restart? then None else v.session
    ensures Next(b, v, s).bundle
         == if s.Lookup? && s.bundle.Some? then s.bundle else if s.Restart? then None else v.bundle
  {
  }

  lemma FoundNow(b: Belt, v: Line, steps: seq<Step>, i: nat, session: int)
    requires i < |steps| && steps[i].Lookup? && ActiveOf(Run(b, v, steps[..i]).store, b.line) == Some(session)
    ensures FoundAt(b, v, steps, i, i + 1, session)
  {
    LookupFinds(b, Run(b, v, steps[..i]), steps[i].bundle);
  }

  lemma FoundStill(b: Belt, v: Line, steps: seq<Step>, l: nat, i: nat, session: int)
    requires i < |steps| && FoundAt(b, v, steps, l, i, session) && !steps[i].Lookup? && !steps[i].Restart?
    ensures FoundAt(b, v, steps, l, i + 1, session)
  {
  }

  lemma SessionBefore(b: Belt, v: Line, steps: seq<Step>, i: nat, session: int)
    requires 0 < i <= |steps| && Run(b, v, steps[..i]).session == Some(session)
    ensures FoundAt(b, v, steps, i - 1, i, session)
         || (Run(b, v, steps[..i - 1]).session == Some(session) && !steps[i - 1].Lookup? && !steps[i - 1].Restart?)
  {
    RunNext(b, v, steps, i - 1);
    ServedOfNext(b, Run(b, v, steps[..i - 1]), steps[i - 1]);
    if steps[i - 1].Lookup? {
      FoundNow(b, v, steps, i - 1, session);
    }
  }

  lemma {:induction false} SessionWasFound(b: Belt, v: Line, steps: seq<Step>, i: nat, session: int) returns (l: nat)
    requires v.session.None? && i <= |steps| && Run(b, v, steps[..i]).session == Some(session)
    ensures FoundAt(b, v, steps, l, i, session)
  {
    if i > 0 {
      SessionBefore(b, v, steps, i, session);
      if FoundAt(b, v, steps, i - 1, i, session) {
        l := i - 1;
      } else {
        l := SessionWasFound(b, v, steps, i - 1, session);
        FoundStill(b, v, steps, l, i - 1, session);
      }
    }
  }

  // What the lookup found is served until the next lookup, or a restart.
  lemma {:induction false} FoundIsKept(b: Belt, v: Line, steps: seq<Step>, l: nat, i: nat)
    requires l < i <= |steps| && steps[l].Lookup?
    requires forall k | l < k < i :: !steps[k].Lookup? && !steps[k].Restart?
    ensures Run(b, v, steps[..i]).session == ActiveOf(Run(b, v, steps[..l]).store, b.line)
  {
    RunNext(b, v, steps, i - 1);
    ServedOfNext(b, Run(b, v, steps[..i - 1]), steps[i - 1]);
    if l < i - 1 {
      FoundIsKept(b, v, steps, l, i - 1);
    }
  }

  // Step l brought the bundle, and no later lookup brought another.
  ghost predicate BroughtAt(steps: seq<Step>, l: nat, i: nat, bundle: int) {
    && l < i <= |steps| && steps[l] == Lookup(Some(bundle))
    && forall k | l < k < i :: !steps[k].Restart? && (steps[k].Lookup? ==> steps[k].bundle.None?)
  }

  lemma BroughtStill(steps: seq<Step>, l: nat, i: nat, bundle: int)
    requires i < |steps| && BroughtAt(steps, l, i, bundle) && !steps[i].Restart?
    requires steps[i].Lookup? ==> steps[i].bundle.None?
    ensures BroughtAt(steps, l, i + 1, bundle)
  {
  }

  // Before a worker has the bundle, a step before brought it, or it had it already.
  lemma BundleBefore(b: Belt, v: Line, steps: seq<Step>, i: nat, bundle: int)
    requires 0 < i <= |steps| && Run(b, v, steps[..i]).bundle == Some(bundle)
    ensures steps[i - 1] == Lookup(Some(bundle))
         || (Run(b, v, steps[..i - 1]).bundle == Some(bundle) && !steps[i - 1].Restart?
             && (steps[i - 1].Lookup? ==> steps[i - 1].bundle.None?))
  {
    RunNext(b, v, steps, i - 1);
    ServedOfNext(b, Run(b, v, steps[..i - 1]), steps[i - 1]);
  }

  lemma {:induction false} BundleWasBrought(b: Belt, v: Line, steps: seq<Step>, i: nat, bundle: int) returns (l: nat)
    requires v.bundle.None? && i <= |steps| && Run(b, v, steps[..i]).bundle == Some(bundle)
    ensures BroughtAt(steps, l, i, bundle)
  {
    if i > 0 {
      BundleBefore(b, v, steps, i, bundle);
      if steps[i - 1] == Lookup(Some(bundle)) {
        l := i - 1;
      } else {
        l := BundleWasBrought(b, v, steps, i - 1, bundle);
        BroughtStill(steps, l, i - 1, bundle);
      }
    }
  }

  // Every window of a session lies after a lookup that found it counting on the belt's line, with
  // no lookup in between, under the bundle that was brought last.
  lemma WindowWasFound(b: Belt, v: Line, steps: seq<Step>, session: int, a: nat) returns (i: nat, l: nat, m: nat)
    requires v.session.None? && v.bundle.None? && a < |WindowsOf(b, v, steps, session)|
    ensures ServesAt(b, v, steps, session, i)
    ensures WindowsOf(b, v, steps, session)[a] == WindowAt(b, Run(b, v, steps[..i]), steps[i])
    ensures FoundAt(b, v, steps, l, i, session)
    ensures BroughtAt(steps, m, i, WindowsOf(b, v, steps, session)[a].place.bundle)
  {
    i := WindowFrom(b, v, steps, session, a);
    l := SessionWasFound(b, v, steps, i, session);
    m := BundleWasBrought(b, v, steps, i, WindowsOf(b, v, steps, session)[a].place.bundle);
  }

  lemma WindowsNext(b: Belt, v: Line, steps: seq<Step>, session: int, n: nat)
    requires n < |steps|
    ensures WindowsOf(b, v, steps[..n], session) <= WindowsOf(b, v, steps[..n + 1], session)
    ensures ServesAt(b, v, steps, session, n) ==>
              WindowAt(b, Run(b, v, steps[..n]), steps[n]) in WindowsOf(b, v, steps[..n + 1], session)
  {
    assert steps[..n + 1][..n] == steps[..n];
  }

  lemma {:induction false} WindowsStay(b: Belt, v: Line, steps: seq<Step>, session: int, m: nat, n: nat)
    requires m <= n <= |steps|
    ensures WindowsOf(b, v, steps[..m], session) <= WindowsOf(b, v, steps[..n], session)
  {
    if m < n {
      WindowsStay(b, v, steps, session, m, n - 1);
      WindowsNext(b, v, steps, session, n - 1);
    }
  }

  // And every frame that serves the session is a window of it.
  lemma ServedIsWindow(b: Belt, v: Line, steps: seq<Step>, session: int, i: nat)
    requires ServesAt(b, v, steps, session, i)
    ensures WindowAt(b, Run(b, v, steps[..i]), steps[i]) in WindowsOf(b, v, steps, session)
  {
    WindowsNext(b, v, steps, session, i);
    WindowsStay(b, v, steps, session, i + 1, |steps|);
    assert steps[..|steps|] == steps;
  }

  // ------------------------------------------------------------------------- end to end

  // Over a run the session is delivered the crossings of its frames.
  lemma {:induction false} AcceptedOfRun(b: Belt, v: Line, steps: seq<Step>, session: int)
    requires b.gate.ZonesAgree() && EngineInv(b.gate, v.engine) && StoreInv(v.store)
    requires ProperRun(b, v, steps, session)
    ensures AllValid(WindowsOf(b, v, steps, session))
    ensures ForSession(Accepted(v.store, OpsOf(b, v, steps)), session) == Produced(WindowsOf(b, v, steps, session))
  {
    WindowsAreValid(b, v, steps, session);
    if steps != [] {
      var init, s := steps[..|steps| - 1], steps[|steps| - 1];
      var w, ops := Run(b, v, init), OpsOf(b, v, init);
      AcceptedOfRun(b, v, init, session);
      StoreOfRun(b, v, init);
      Sessions.RunKeepsInv(v.store, ops);
      AcceptedConcat(v.store, ops, OpsAt(b, w, s));
      ForSessionConcat(Accepted(v.store, ops), Accepted(w.store, OpsAt(b, w, s)), session);
      AcceptedAt(b, w, s, session);
      if Serves(w, s, session) {
        EngineOfRun(b, v, init);
        WindowIsValid(b, w, s, session);
        ProducedNext(WindowsOf(b, v, init, session), WindowAt(b, w, s));
      }
    }
  }

  lemma {:induction false} NotOverriddenInRun(b: Belt, v: Line, steps: seq<Step>, session: int)
    requires ProperRun(b, v, steps, session)
    ensures NeverOverridden(v.store, OpsOf(b, v, steps), session)
  {
    if steps != [] {
      var init, s := steps[..|steps| - 1], steps[|steps| - 1];
      NotOverriddenInRun(b, v, init, session);
      StoreOfRun(b, v, init);
      NotOverriddenAt(b, Run(b, v, init), s, session);
      NeverOverriddenConcat(v.store, OpsOf(b, v, init), OpsAt(b, Run(b, v, init), s), session);
    }
  }

  // A session that is new to the ledger, served by a worker whose engine may have counted for others
  // before and may restart, under new epochs.
  ghost predicate Fresh(b: Belt, v: Line, steps: seq<Step>, session: int) {
    && b.gate.ZonesAgree() && EngineInv(b.gate, v.engine)
    && StoreInv(v.store) && CachedIfThere(v.store, session) && ForSession(v.store.rows, session) == []
    && ProperRun(b, v, steps, session) && Renewed(b, v, steps, session)
    && Run(b, v, steps).store.Has(session)
  }

  lemma SameAsItself(ds: seq<Event>)
    requires KeysDistinct(ds)
    ensures SameCrossings(ds, ds)
  {
  }

  lemma RunServes(b: Belt, v: Line, steps: seq<Step>, session: int)
    requires Fresh(b, v, steps, session)
    ensures Served(v.store, OpsOf(b, v, steps), session, WindowsOf(b, v, steps, session))
  {
    var ws := WindowsOf(b, v, steps, session);
    AcceptedOfRun(b, v, steps, session);
    NotOverriddenInRun(b, v, steps, session);
    WindowsAreValid(b, v, steps, session);
    WindowsAreApart(b, v, steps, session);
    ProducedKeysDistinct(ws);
    StoreOfRun(b, v, steps);
    SameAsItself(Produced(ws));
  }

  // END TO END, over every run of the worker: whichever frames of which engine life served the
  // session, its cached total is how far the tracks moved across the gate in those frames.
  lemma SessionCountsItsFrames(b: Belt, v: Line, steps: seq<Step>, session: int)
    requires Fresh(b, v, steps, session)
    ensures AllValid(WindowsOf(b, v, steps, session))
    ensures Run(b, v, steps).store.At(session).countedTotal
         == NetOf(WindowsOf(b, v, steps, session)) == DisplacementOf(WindowsOf(b, v, steps, session))
  {
    RunServes(b, v, steps, session);
    StoreOfRun(b, v, steps);
    CachedTotalIsNet(v.store, OpsOf(b, v, steps), session, WindowsOf(b, v, steps, session));
  }

  // Every frame of the stretch serves the session, and the engine is not restarted.
  ghost predicate ServesThroughout(b: Belt, v: Line, steps: seq<Step>, session: int) {
    steps == [] ||
    var n := |steps| - 1;
    && ServesThroughout(b, v, steps[..n], session) && !steps[n].Restart?
    && (Processes(Run(b, v, steps[..n]), steps[n]) ==> Serves(Run(b, v, steps[..n]), steps[n], session))
  }

  lemma NetOfNext(ws: seq<Window>, w: Window)
    ensures NetOf(ws + [w]) == NetOf(ws) + w.Net()
  {
    assert (ws + [w])[..|ws|] == ws;
  }

  lemma NetOfStep(b: Belt, v: Line, s: Step, session: int)
    requires !s.Restart? && (Processes(v, s) ==> Serves(v, s, session))
    ensures Next(b, v, s).engine.net == v.engine.net + if Serves(v, s, session) then WindowAt(b, v, s).Net() else 0
  {
  }

  lemma {:induction false} NetThroughout(b: Belt, v: Line, steps: seq<Step>, session: int)
    requires ServesThroughout(b, v, steps, session)
    ensures NetOf(WindowsOf(b, v, steps, session)) == Run(b, v, steps).engine.net - v.engine.net
  {
    if steps != [] {
      var n := |steps| - 1;
      var w, s := Run(b, v, steps[..n]), steps[n];
      NetThroughout(b, v, steps[..n], session);
      NetOfStep(b, w, s, session);
      assert Run(b, v, steps) == Next(b, w, s);
      if Serves(w, s, session) {
        NetOfNext(WindowsOf(b, v, steps[..n], session), WindowAt(b, w, s));
        assert WindowsOf(b, v, steps, session) == WindowsOf(b, v, steps[..n], session) + [WindowAt(b, w, s)];
      }
    }
  }

  // The worker shows its engine's running count as the session's, and stops the conveyor when that
  // reaches the session's target. It differs from the session's own count by exactly what the engine
  // had counted, on balance, before the session.
  lemma ShownIsOwnExactly(b: Belt, v: Line, steps: seq<Step>, session: int)
    requires Fresh(b, v, steps, session) && ServesThroughout(b, v, steps, session)
    ensures var end := Run(b, v, steps); end.engine.net - end.store.At(session).countedTotal == v.engine.net
  {
    SessionCountsItsFrames(b, v, steps, session);
    NetThroughout(b, v, steps, session);
  }
}
