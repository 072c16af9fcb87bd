/** Which responses reach their requests, and which requests panic when they free their channel,
    as long as a connection has not drawn its ids twice. */
module ClientReplies {
  import opened Bytes
  import opened Client
  import opened ClientSafety
  import opened ClientRuns

  /** No id has been drawn twice on connection `c`. */
  predicate Unwrapped(g: Shared, c: ConnId) {
    c in g.conns && g.conns[c].draws < 0x1_0000_0000
  }

  /** A goroutine that listens on an open channel finds it in the table, under its own id. */
  predicate FiledAt(g: Shared, pc: Pc) {
    Listens(pc) && Unwrapped(g, pc.c) && pc.ch in g.chans && g.chans[pc.ch].open ==>
      IdOf(pc.n) in g.recvs && g.recvs[IdOf(pc.n)] == pc.ch
  }

  ghost predicate Filed(s: State) {
    forall t: Tid :: FiledAt(s.g, At(s, t))
  }

  // ------------------------------------------------------- what every step keeps

  /** Whoever listens after its own step has just registered, or goes on listening. */
  lemma ListensAfter(g: Shared, t: Tid, pc: Pc, x: Choice)
    requires CanGo(g, pc, x) && Listens(StepOf(g, t, pc, x).pc) && FiledAt(g, pc) && ChanView(g, t, pc)
    ensures InRecv(pc) && FiledAt(StepOf(g, t, pc, x).g, StepOf(g, t, pc, x).pc)
  {
    hide StepSend, StepLoop, StepDial, StepClose, StepPing, StepPong;
    if !InRecv(pc) {
      NoneListens(g, t, pc, x);
    }
  }

  lemma NoneListens(g: Shared, t: Tid, pc: Pc, x: Choice)
    requires CanGo(g, pc, x)
    ensures InSend(pc) ==> !Listens(StepSend(g, t, pc, x).pc)
    ensures InControl(pc) ==> !Listens(StepLoop(g, t, pc).pc)
    ensures InDial(pc) ==> !Listens(StepDial(g, t, pc, x).pc)
    ensures InClose(pc) ==> !Listens(StepClose(g, t, pc).pc)
    ensures InPing(pc) ==> !Listens(StepPing(g, t, pc, x).pc)
    ensures InPong(pc) ==> !Listens(StepPong(g, pc, x).pc)
  {
  }

  /** A step of recv leaves the entry of every other id alone. */
  lemma RecvSpares(g: Shared, t: Tid, pc: Pc, x: Choice, i: uint32)
    requires InRecv(pc) && CanGo(g, pc, x) && i in g.recvs
    requires pc.DoRegister? || pc.DoDelete? ==> IdOf(pc.n) != i
    ensures var n := StepRecv(g, t, pc, x); i in n.g.recvs && n.g.recvs[i] == g.recvs[i]
  {
  }

  /** A channel in the table is closed when the table is cleared. */
  lemma ClearClosesFiled(g: Shared, t: Tid, pc: Pc, x: Choice, i: uint32)
    requires pc.Clear? && CanGo(g, pc, x) && i in g.recvs && g.recvs[i] in g.chans
    requires forall j :: j in g.recvs ==> !Broken(g, j)
    ensures var n := StepOf(g, t, pc, x); g.recvs[i] in n.g.chans && !n.g.chans[g.recvs[i]].open
  {
    assert g.recvs[i] in g.recvs.Values;
  }

  /** Another goroutine's channel that is open after a step was open and filed before it. */
  lemma WasFiled(s: State, t: Tid, x: Choice, u: Tid)
    requires Inv(s) && Filed(s) && Enabled(s, Go(t, x)) && u != t && Listens(At(s, u))
    requires var g := Step(s, Go(t, x)).g;
             Unwrapped(g, At(s, u).c) && At(s, u).ch in g.chans && g.chans[At(s, u).ch].open
    ensures var q := At(s, u);
            && Unwrapped(s.g, q.c) && q.ch in s.g.chans && s.g.chans[q.ch].open
            && IdOf(q.n) in s.g.recvs && s.g.recvs[IdOf(q.n)] == q.ch
    ensures Calls(At(s, t)) ==> IdOf(At(s, t).n) != IdOf(At(s, u).n)
  {
    hide StepOf, CanGo, LoopView, ChanView, Tagged, Table;
    var q := At(s, u);
    WaiterTagged(s, t);
    assert Local(s.g, t, At(s, t)) && Local(s.g, u, q) && FiledAt(s.g, q);
    ListensOnChannel(s.g, u, q);
    StepKeeps(s.g, t, At(s, t), x);
  }

  lemma OthersStayFiled(s: State, t: Tid, x: Choice, u: Tid)
    requires Inv(s) && Filed(s) && Enabled(s, Go(t, x)) && u != t
    ensures FiledAt(Step(s, Go(t, x)).g, At(s, u))
  {
    hide StepOf, StepRecv, CanGo, Local, Distinct, Tagged, Filed;
    var pc, n, q := At(s, t), StepOf(s.g, t, At(s, t), x), At(s, u);
    if Listens(q) && Unwrapped(n.g, q.c) && q.ch in n.g.chans && n.g.chans[q.ch].open {
      WasFiled(s, t, x, u);
      if pc.Clear? {
        assert forall j :: j in s.g.recvs ==> Entry(s, j);
        ClearClosesFiled(s.g, t, pc, x, IdOf(q.n));
      } else if InRecv(pc) {
        RecvStep(s.g, t, pc, x);
        RecvSpares(s.g, t, pc, x, IdOf(q.n));
      } else {
        TableQuiet(s.g, t, pc, x);
      }
    }
  }

  lemma StepFiled(s: State, e: Event)
    requires Inv(s) && Filed(s) && Enabled(s, e)
    ensures Filed(Step(s, e))
  {
    hide StepOf, CanGo, LockView, LoopView, CallView, ChanView, Table, Distinct, Global;
    var s' := Step(s, e);
    forall u: Tid ensures FiledAt(s'.g, At(s', u)) {
      assert FiledAt(s.g, At(s, u));
      if e.Go? && e.t == u {
        hide FiledAt;
        GoStep(s, u, e.x);
        if Listens(At(s', u)) {
          assert Local(s.g, u, At(s, u));
          ListensAfter(s.g, u, At(s, u), e.x);
        } else {
          NotWaiting(s'.g, At(s', u));
        }
      } else if e.Go? {
        hide FiledAt;
        OthersStayFiled(s, e.t, e.x, u);
        assert At(s', u) == At(s, u);
      }
    }
  }

  lemma NotWaiting(g: Shared, pc: Pc)
    requires !Listens(pc)
    ensures FiledAt(g, pc)
  {
  }

  lemma {:induction false} RunFiled(s: State, es: seq<Event>)
    requires Inv(s) && Filed(s) && Feasible(s, es)
    ensures Filed(Run(s, es))
    decreases |es|
  {
    hide Inv, Filed, Enabled, Step;
    if es != [] {
      StepInv(s, es[0]);
      StepFiled(s, es[0]);
      RunFiled(Step(s, es[0]), es[1..]);
    }
  }

  lemma ReachableFiled(s: State)
    requires Reachable(s)
    ensures Inv(s) && Filed(s)
  {
    hide Inv, Feasible, Run;
    var s0: State, es: seq<Event> :| Init(s0) && Feasible(s0, es) && Run(s0, es) == s;
    assert Filed(s0);
    InitInv(s0);
    RunInv(s0, es);
    RunFiled(s0, es);
  }

  // ------------------------------------------------------------------ theorems

  /** In every run, a response with the id of a request is taken exactly when that request has
      registered, has not yet removed its entry, and its channel is open and empty. A response that
      overtakes the registration is lost without a trace. */
  lemma ResponseTakenIff(s: State, t: Tid, m: Msg)
    requires Reachable(s) && s.g.fault.None? && Calls(At(s, t)) && m.requestId == IdOf(At(s, t).n)
    requires Unwrapped(s.g, At(s, t).c)
    ensures Step(s, Deliver(m)) != s
            <==> && Listens(At(s, t)) && At(s, t).ch in s.g.chans
                 && s.g.chans[At(s, t).ch].open && s.g.chans[At(s, t).ch].buf.None?
  {
    hide Reachable, Distinct, LockView, LoopView, CallView, ChanView, Tagged;
    ReachableFiled(s);
    var pc := At(s, t);
    assert FiledAt(s.g, pc);
    if m.requestId in s.g.recvs {
      assert Entry(s, m.requestId);
      EntryIsOwn(s, t);
    }
  }

  /** Until ids wrap around, the table's entry for a request is that request's own. */
  lemma EntryIsOwn(s: State, t: Tid)
    requires Inv(s) && Calls(At(s, t)) && Unwrapped(s.g, At(s, t).c) && IdOf(At(s, t).n) in s.g.recvs
    ensures Listens(At(s, t)) && s.g.recvs[IdOf(At(s, t).n)] == At(s, t).ch
  {
    hide LockView, LoopView, Tagged;
    var i := IdOf(At(s, t).n);
    assert Entry(s, i);
    var u := s.g.chans[s.g.recvs[i]].owner;
    assert Local(s.g, t, At(s, t)) && Local(s.g, u, At(s, u));
  }

  /** A response that is taken reaches exactly its request: it is put into that channel, no other
      channel changes, and the wait can end with it. */
  lemma ResponseReachesWaiter(s: State, t: Tid, m: Msg)
    requires Reachable(s) && s.g.fault.None? && At(s, t).DoWait? && m.requestId == IdOf(At(s, t).n)
    requires Unwrapped(s.g, At(s, t).c)
    requires At(s, t).ch in s.g.chans && s.g.chans[At(s, t).ch].open && s.g.chans[At(s, t).ch].buf.None?
    ensures var s', ch := Step(s, Deliver(m)), At(s, t).ch;
            && s'.g.fault.None?
            && s'.g.chans == s.g.chans[ch := s.g.chans[ch].(buf := Some(m))]
            && forall x: Choice :: x.ok && CanGo(s'.g, At(s', t), x) ==>
                 var n := StepOf(s'.g, t, At(s', t), x); n.pc.DoDelete? && n.pc.reply == Answer(m)
  {
    hide Inv, Reachable, StepSend, StepLoop, StepDial, StepClose, StepPing, StepPong;
    ReachableFiled(s);
    assert FiledAt(s.g, At(s, t));
  }

  /** A second response to the same request is dropped. */
  lemma DuplicateIsDropped(s: State, m: Msg)
    requires Reachable(s) && s.g.fault.None? && m.requestId in s.g.recvs
    ensures s.g.recvs[m.requestId] in s.g.chans
    ensures s.g.chans[s.g.recvs[m.requestId]].buf.Some? ==> Step(s, Deliver(m)) == s
  {
    hide Reachable, Local, Distinct, Tagged;
    ReachableFiled(s);
    assert Entry(s, m.requestId);
  }

  // ------------------------------------------------- receivers that a loop has closed

  /** The goroutine is in the part of its request that uses channel `ch`. */
  predicate Uses(pc: Pc, ch: ChanId) {
    (Listens(pc) || pc.DoFree?) && pc.ch == ch
  }

  /** Along the whole run, goroutine `t` is in the same request. */
  ghost predicate Throughout(s: State, es: seq<Event>, t: Tid, ch: ChanId)
    requires Feasible(s, es)
    decreases |es|
  {
    Uses(At(s, t), ch) && (es != [] ==> Throughout(Step(s, es[0]), es[1..], t, ch))
  }

  predicate ClearsUnder(s: State, e: Event, t: Tid) {
    e.Go? && At(s, e.t).Clear? && Listens(At(s, t))
  }

  /** A reconnect loop clears the table while `t` listens. */
  ghost predicate ClearedDuring(s: State, es: seq<Event>, t: Tid)
    requires Feasible(s, es)
    decreases |es|
  {
    es != [] && (ClearsUnder(s, es[0], t) || ClearedDuring(Step(s, es[0]), es[1..], t))
  }

  predicate IsOpen(g: Shared, ch: ChanId) {
    ch in g.chans && g.chans[ch].open
  }

  /** Clearing closes what is in the table and nothing else. */
  lemma ClearCloses(g: Shared, t: Tid, pc: Pc, x: Choice, ch: ChanId)
    requires pc.Clear? && CanGo(g, pc, x) && forall j :: j in g.recvs ==> !Broken(g, j)
    ensures IsOpen(StepOf(g, t, pc, x).g, ch) <==> IsOpen(g, ch) && ch !in g.recvs.Values
  {
  }

  /** A channel whose maker no longer listens is not in the table. */
  lemma FreedIsGone(s: State, t: Tid)
    requires Inv(s) && At(s, t).DoFree?
    ensures At(s, t).ch !in s.g.recvs.Values
  {
    hide LockView, LoopView, CallView, Distinct, Tagged;
    assert Local(s.g, t, At(s, t));
    forall i | i in s.g.recvs ensures s.g.recvs[i] != At(s, t).ch {
      assert Entry(s, i);
    }
  }

  lemma FreeStep(g: Shared, t: Tid, pc: Pc, x: Choice)
    requires CanGo(g, pc, x) && pc.DoFree?
    ensures Uses(StepOf(g, t, pc, x).pc, pc.ch) ==> !g.chans[pc.ch].open && StepOf(g, t, pc, x).g.chans == g.chans
  {
  }

  lemma ClearOpen(s: State, u: Tid, x: Choice, t: Tid)
    requires Inv(s) && Filed(s) && Enabled(s, Go(u, x)) && At(s, u).Clear?
    requires (Listens(At(s, t)) || At(s, t).DoFree?) && Unwrapped(s.g, At(s, t).c)
    ensures var ch := At(s, t).ch;
            IsOpen(Step(s, Go(u, x)).g, ch) <==> IsOpen(s.g, ch) && !Listens(At(s, t))
  {
    hide StepOf, CanGo, Local, Distinct, Tagged;
    var q := At(s, t);
    forall j | j in s.g.recvs ensures !Broken(s.g, j) {
      assert Entry(s, j);
    }
    GoStep(s, u, x);
    ClearCloses(s.g, u, At(s, u), x, q.ch);
    if Listens(q) {
      assert FiledAt(s.g, q);
      assert IsOpen(s.g, q.ch) ==> s.g.recvs[IdOf(q.n)] in s.g.recvs.Values;
    } else {
      FreedIsGone(s, t);
    }
  }

  /** One step: the channel stays open unless a loop clears the table under its listener. */
  lemma OpenStep(s: State, e: Event, t: Tid, ch: ChanId)
    requires Inv(s) && Filed(s) && Enabled(s, e)
    requires Uses(At(s, t), ch) && Uses(At(Step(s, e), t), ch) && Unwrapped(s.g, At(s, t).c)
    ensures IsOpen(Step(s, e).g, ch) <==> IsOpen(s.g, ch) && !ClearsUnder(s, e, t)
  {
    hide StepOf, CanGo, Distinct, Table, LockView, LoopView, CallView, Tagged, Filed;
    assert Local(s.g, t, At(s, t));
    if e.Go? {
      var pc := At(s, e.t);
      GoStep(s, e.t, e.x);
      if pc.Clear? {
        ClearOpen(s, e.t, e.x, t);
      } else if pc.DoFree? && e.t == t {
        FreeStep(s.g, t, pc, e.x);
      } else {
        assert Local(s.g, e.t, pc);
        OthersOpen(s.g, e.t, pc, e.x, ch);
      }
    }
  }

  /** The connection a request was made on only draws further ids while it lasts. */
  lemma StaysUnwrapped(s: State, e: Event, t: Tid, ch: ChanId)
    requires Inv(s) && Enabled(s, e) && Uses(At(s, t), ch) && Uses(At(Step(s, e), t), ch)
    ensures At(Step(s, e), t).c == At(s, t).c
    ensures Unwrapped(Step(s, e).g, At(s, t).c) ==> Unwrapped(s.g, At(s, t).c)
  {
    hide StepOf, CanGo, Distinct, Table, LoopView, ChanView, Tagged;
    assert Local(s.g, t, At(s, t));
    StepInv(s, e);
    assert Local(Step(s, e).g, t, At(Step(s, e), t));
    if e.Go? {
      var pc := At(s, e.t);
      GoStep(s, e.t, e.x);
      assert Local(s.g, e.t, pc);
      WaiterTagged(s, e.t);
      StepKeeps(s.g, e.t, pc, e.x);
      if e.t == t {
        SameRequest(s.g, t, pc, e.x, ch);
      }
    }
  }

  lemma SameRequest(g: Shared, t: Tid, pc: Pc, x: Choice, ch: ChanId)
    requires CanGo(g, pc, x) && Uses(pc, ch) && Uses(StepOf(g, t, pc, x).pc, ch)
    ensures StepOf(g, t, pc, x).pc.c == pc.c
  {
    hide StepSend, StepLoop, StepDial, StepClose, StepPing, StepPong;
  }

  lemma {:induction false} OpenUnlessCleared(s: State, es: seq<Event>, t: Tid, ch: ChanId)
    requires Inv(s) && Filed(s) && Feasible(s, es) && Throughout(s, es, t, ch)
    requires Unwrapped(Run(s, es).g, At(s, t).c)
    ensures Uses(At(Run(s, es), t), ch) && Unwrapped(s.g, At(s, t).c)
    ensures IsOpen(Run(s, es).g, ch) <==> IsOpen(s.g, ch) && !ClearedDuring(s, es, t)
    decreases |es|
  {
    hide Inv, Filed, Enabled, Step, Unwrapped, ClearsUnder, Uses, IsOpen;
    if es != [] {
      var s1 := Step(s, es[0]);
      StepInv(s, es[0]);
      StepFiled(s, es[0]);
      assert Throughout(s1, es[1..], t, ch);
      assert Uses(At(s1, t), ch);
      StaysUnwrapped(s, es[0], t, ch);
      OpenUnlessCleared(s1, es[1..], t, ch);
      OpenStep(s, es[0], t, ch);
    }
  }

  /** A request that has registered panics when it frees its channel exactly when, between its
      registration and then, a reconnect loop cleared the table while the request was listening. */
  lemma FreeFaultIff(s: State, es: seq<Event>, t: Tid, x: Choice)
    requires Reachable(s) && Enabled(s, Go(t, x)) && At(s, t).DoRegister?
    requires var s1 := Step(s, Go(t, x));
             Feasible(s1, es) && Throughout(s1, es, t, x.id) && Unwrapped(Run(s1, es).g, At(s1, t).c)
    ensures var s1 := Step(s, Go(t, x));
            var s2 := Run(s1, es);
            s2.g.fault.None? && At(s2, t).DoFree? ==>
              forall y: Choice :: Enabled(s2, Go(t, y)) ==>
                (Step(s2, Go(t, y)).g.fault == Some(FreeClosedReceiver) <==> ClearedDuring(s1, es, t))
  {
    hide Inv, Filed, StepOf, CanGo, Feasible, Run, Throughout, ClearedDuring, Reachable, Unwrapped, Panics;
    var s1 := Step(s, Go(t, x));
    var s2 := Run(s1, es);
    ReachableFiled(s);
    StepInv(s, Go(t, x));
    StepFiled(s, Go(t, x));
    GoStep(s, t, x);
    RegisterOpens(s.g, t, At(s, t), x);
    OpenUnlessCleared(s1, es, t, x.id);
    RunInv(s1, es);
    if s2.g.fault.None? && At(s2, t).DoFree? {
      forall y: Choice | Enabled(s2, Go(t, y))
        ensures Step(s2, Go(t, y)).g.fault == Some(FreeClosedReceiver) <==> !IsOpen(s2.g, x.id)
      {
        GoStep(s2, t, y);
        FreeFaults(s2.g, t, At(s2, t), y);
      }
    }
  }

  lemma RegisterOpens(g: Shared, t: Tid, pc: Pc, x: Choice)
    requires CanGo(g, pc, x) && pc.DoRegister?
    ensures IsOpen(StepOf(g, t, pc, x).g, x.id)
  {
  }

  lemma FreeFaults(g: Shared, t: Tid, pc: Pc, y: Choice)
    requires CanGo(g, pc, y) && pc.DoFree? && g.fault.None?
    ensures StepOf(g, t, pc, y).g.fault == Some(FreeClosedReceiver) <==> !IsOpen(g, pc.ch)
  {
  }

  // ------------------------------------------------------------ ids wrap around

  lemma DrawAndFail(s0: State) returns (s: State)
    requires Reachable(s0) && At(s0, 2).Idle? && s0.g.fault.None? && s0.g.writer.None?
    requires s0.g.conn == Some(0) && 0 in s0.g.conns
    ensures Reachable(s) && At(s, 2) == DoUnlock(Return, Error) && forall u: Tid :: u != 2 ==> At(s, u) == At(s0, u)
    ensures s.g == Draw(s0.g, 0).(readers := s0.g.readers + {2})
  {
    hide Reachable;
    s := Begin(s0, 2, Request);
    s := Take(s, 2, WELL);
    s := Take(s, 2, WELL.(ok := false));
  }

  /** One request that fails to be built draws an id and leaves no other trace. */
  lemma DrawOne(s0: State) returns (s: State)
    requires Reachable(s0) && At(s0, 2).Idle? && s0.g.fault.None? && s0.g.writer.None? && 2 !in s0.g.readers
    requires s0.g.conn == Some(0) && 0 in s0.g.conns
    ensures Reachable(s) && forall u: Tid :: At(s, u) == At(s0, u)
    ensures s.g == Draw(s0.g, 0)
  {
    hide Reachable;
    s := DrawAndFail(s0);
    s := Take(s, 2, WELL);
    assert s.g.readers == s0.g.readers;
  }

  lemma {:induction false} DrawMany(s0: State, n: nat) returns (s: State)
    requires Reachable(s0) && At(s0, 2).Idle? && s0.g.fault.None? && s0.g.writer.None? && 2 !in s0.g.readers
    requires s0.g.conn == Some(0) && 0 in s0.g.conns && s0.g.conns[0].draws <= n
    ensures Reachable(s) && forall u: Tid :: At(s, u) == At(s0, u)
    ensures s.g == s0.g.(conns := s0.g.conns[0 := s0.g.conns[0].(draws := n)])
    decreases n - s0.g.conns[0].draws
  {
    hide Reachable, StepOf, Step, Enabled, CanGo;
    if s0.g.conns[0].draws == n {
      s := s0;
      assert s0.g.conns[0 := s0.g.conns[0].(draws := n)] == s0.g.conns;
    } else {
      s := DrawOne(s0);
      s := DrawMany(s, n);
    }
  }

  /** Without that limit the claim fails: once 2^32 more ids have been drawn, a second request uses
      the id of one still in flight. */
  lemma IdsCollide(max: int) returns (s: State)
    ensures Reachable(s) && Calls(At(s, 1)) && Calls(At(s, 3)) && IdOf(At(s, 1).n) == IdOf(At(s, 3).n)
  {
    hide Reachable, StepOf, CanGo;
    s := Initially(max);
    s := AboutToSend(s);
    s := DrawMany(s, 0x1_0000_0000);
    s := DrawsNext(s);
  }

  lemma DrawsNext(s0: State) returns (s: State)
    requires Reachable(s0) && At(s0, 3).Idle? && s0.g.fault.None? && s0.g.writer.None?
    requires s0.g.conn == Some(0) && 0 in s0.g.conns
    ensures Reachable(s) && At(s, 1) == At(s0, 1) && At(s, 3) == DoCheck(Return, 0, s0.g.conns[0].draws + 1)
  {
    hide Reachable;
    s := Begin(s0, 3, Request);
    s := Take(s, 3, WELL);
    s := Take(s, 3, WELL);
  }
}
