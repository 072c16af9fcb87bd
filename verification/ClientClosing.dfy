/** Further invariants of every run: connections that are given up are closed, pings keep out of
    reconnect loops, and no receiver is left open. */
module ClientClosing {
  import opened Bytes
  import opened Client
  import opened ClientSafety
  import opened ClientRuns
  import opened ClientReplies
  import opened ClientCalls

  /** There is no connection, or it is closed. */
  predicate Shut(g: Shared) {
    g.conn.None? || (g.conn.value in g.conns && g.conns[g.conn.value].closed)
  }

  /** Places behind closing the current connection and before it is replaced. */
  predicate Behind(pc: Pc) {
    || pc.CloseLeave? || pc.ServerLeave? || pc.Clear? || pc.DialWait? || pc.Dialing?
    || (pc.RcWait? && (pc.k.LoopClear? || pc.k.ServerUnlock?))
  }

  predicate CloseView(g: Shared, pc: Pc) {
    && (Behind(pc) ==> Shut(g))
    && (pc.PingCheck? || pc.PingSend? ==> !g.reconnecting)
  }

  ghost predicate AllClosed(s: State) {
    forall t: Tid :: CloseView(s.g, At(s, t))
  }

  /** Every open receiver is used by the request that made it. */
  ghost predicate NoLeak(s: State) {
    forall ch :: ch in s.g.chans && s.g.chans[ch].open ==> Uses(At(s, s.g.chans[ch].owner), ch)
  }

  // ------------------------------------------------------------------ own steps

  lemma CallView2(g: Shared, t: Tid, pc: Pc, x: Choice)
    requires CanGo(g, pc, x)
    ensures InSend(pc) ==> CloseView(StepSend(g, t, pc, x).g, StepSend(g, t, pc, x).pc)
    ensures InRecv(pc) ==> CloseView(StepRecv(g, t, pc, x).g, StepRecv(g, t, pc, x).pc)
    ensures InPong(pc) ==> CloseView(StepPong(g, pc, x).g, StepPong(g, pc, x).pc)
  {
  }

  lemma PingView2(g: Shared, t: Tid, pc: Pc, x: Choice)
    requires CanGo(g, pc, x) && InPing(pc) && CloseView(g, pc)
    ensures CloseView(StepPing(g, t, pc, x).g, StepPing(g, t, pc, x).pc)
  {
  }

  lemma LoopView2(g: Shared, t: Tid, pc: Pc, x: Choice)
    requires Global(g) && CloseView(g, pc) && LoopView(g, t, pc)
    ensures InControl(pc) ==> CloseView(StepLoop(g, t, pc).g, StepLoop(g, t, pc).pc)
    ensures InDial(pc) ==> CloseView(StepDial(g, t, pc, x).g, StepDial(g, t, pc, x).pc)
  {
  }

  lemma ShutView(g: Shared, t: Tid, pc: Pc)
    requires Global(g) && LoopView(g, t, pc) && InClose(pc) && CloseView(g, pc)
    ensures CloseView(StepClose(g, t, pc).g, StepClose(g, t, pc).pc)
  {
  }

  lemma OwnView(g: Shared, t: Tid, pc: Pc, x: Choice)
    requires Global(g) && CloseView(g, pc) && LoopView(g, t, pc) && CanGo(g, pc, x)
    ensures CloseView(StepOf(g, t, pc, x).g, StepOf(g, t, pc, x).pc)
  {
    hide StepSend, StepRecv, StepLoop, StepDial, StepClose, StepPing, StepPong, CloseView, LoopView;
    if InPing(pc) {
      PingView2(g, t, pc, x);
    } else if InControl(pc) || InDial(pc) {
      LoopView2(g, t, pc, x);
    } else if InClose(pc) {
      ShutView(g, t, pc);
    } else {
      CallView2(g, t, pc, x);
    }
  }

  // -------------------------------------------------------------- others' steps

  /** Nobody replaces the connection under a goroutine that relies on its being closed. */
  lemma NoSwapBehind(g: Shared, t: Tid, pct: Pc, u: Tid, pc: Pc)
    requires Global(g) && LockView(g, t, pct) && LoopView(g, t, pct) && LockView(g, u, pc) && LoopView(g, u, pc)
    requires t != u && Behind(pc)
    ensures g.writer != Some(t)
  {
    hide Shape;
  }

  lemma OthersView(s: State, t: Tid, x: Choice, u: Tid)
    requires Inv(s) && AllClosed(s) && Enabled(s, Go(t, x)) && u != t
    ensures CloseView(Step(s, Go(t, x)).g, At(s, u))
  {
    hide StepOf, CanGo, CallView, ChanView, Table, Distinct, Tagged, LoopView, LockView, Global;
    var pc, q := At(s, t), At(s, u);
    assert Local(s.g, t, pc) && Local(s.g, u, q) && CloseView(s.g, q);
    WaiterTagged(s, t);
    StepKeeps(s.g, t, pc, x);
    if Behind(q) {
      NoSwapBehind(s.g, t, pc, u, q);
      if s.g.conn.Some? {
        GoConns(s.g, t, pc, x, s.g.conn.value);
      }
    }
    if q.PingCheck? || q.PingSend? {
      PingHoldsLock(s.g, u, q);
      ReadLockStops(s.g, t, pc, x);
    }
  }

  lemma PingHoldsLock(g: Shared, u: Tid, pc: Pc)
    requires LockView(g, u, pc) && (pc.PingCheck? || pc.PingSend?)
    ensures g.readers != {}
  {
    assert u in g.readers;
  }

  lemma StepClosed(s: State, e: Event)
    requires Inv(s) && AllClosed(s) && Enabled(s, e)
    ensures AllClosed(Step(s, e))
  {
    hide StepOf, CanGo, LockView, LoopView, CallView, ChanView, Table, Distinct, Global, CloseView, Dispatch;
    var s' := Step(s, e);
    forall u: Tid ensures CloseView(s'.g, At(s', u)) {
      assert Local(s.g, u, At(s, u)) && CloseView(s.g, At(s, u));
      if e.Go? && e.t == u {
        GoStep(s, u, e.x);
        OwnView(s.g, u, At(s, u), e.x);
      } else if e.Go? {
        OthersView(s, e.t, e.x, u);
        assert At(s', u) == At(s, u);
      } else {
        QuietView(s, e, u);
      }
    }
  }

  lemma QuietView(s: State, e: Event, u: Tid)
    requires Enabled(s, e) && !e.Go? && CloseView(s.g, At(s, u))
    ensures CloseView(Step(s, e).g, At(Step(s, e), u))
  {
  }

  // ------------------------------------------------------------------- receivers

  lemma OpenedNow(g: Shared, t: Tid, pc: Pc, x: Choice, ch: ChanId)
    requires CanGo(g, pc, x) && IsOpen(StepOf(g, t, pc, x).g, ch) && !IsOpen(g, ch)
    ensures pc.DoRegister? && x.id == ch
    ensures Uses(StepOf(g, t, pc, x).pc, ch) && StepOf(g, t, pc, x).g.chans[ch].owner == t
  {
    hide StepSend, StepRecv, StepLoop, StepDial, StepClose, StepPing, StepPong, CanGo;
    if InRecv(pc) {
      RecvOpens(g, t, pc, x, ch);
    } else if pc.Clear? {
      ClearOpens(g, t, pc, x, ch);
    } else {
      TableQuiet(g, t, pc, x);
    }
  }

  lemma RecvOpens(g: Shared, t: Tid, pc: Pc, x: Choice, ch: ChanId)
    requires CanGo(g, pc, x) && InRecv(pc) && IsOpen(StepRecv(g, t, pc, x).g, ch) && !IsOpen(g, ch)
    ensures pc.DoRegister? && x.id == ch
    ensures Uses(StepRecv(g, t, pc, x).pc, ch) && StepRecv(g, t, pc, x).g.chans[ch].owner == t
  {
  }

  lemma ClearOpens(g: Shared, t: Tid, pc: Pc, x: Choice, ch: ChanId)
    requires pc.Clear? && IsOpen(StepDial(g, t, pc, x).g, ch)
    ensures IsOpen(g, ch)
  {
  }

  /** A request lets go of its receiver by closing it. */
  lemma LetsGo(g: Shared, t: Tid, pc: Pc, x: Choice, ch: ChanId)
    requires CanGo(g, pc, x) && Uses(pc, ch) && !Uses(StepOf(g, t, pc, x).pc, ch)
    ensures !IsOpen(StepOf(g, t, pc, x).g, ch)
  {
    hide StepSend, StepLoop, StepDial, StepClose, StepPing, StepPong;
  }

  lemma GoNoLeak(s: State, t: Tid, x: Choice)
    requires Inv(s) && NoLeak(s) && Enabled(s, Go(t, x))
    ensures NoLeak(Step(s, Go(t, x)))
  {
    hide StepOf, CanGo, LockView, LoopView, CallView, ChanView, Table, Distinct, Tagged, Uses, Global;
    var s', pc := Step(s, Go(t, x)), At(s, t);
    assert Local(s.g, t, pc);
    WaiterTagged(s, t);
    StepKeeps(s.g, t, pc, x);
    GoStep(s, t, x);
    forall ch | ch in s'.g.chans && s'.g.chans[ch].open ensures Uses(At(s', s'.g.chans[ch].owner), ch) {
      if !IsOpen(s.g, ch) {
        OpenedNow(s.g, t, pc, x, ch);
      } else if s.g.chans[ch].owner == t {
        if !Uses(At(s', t), ch) {
          LetsGo(s.g, t, pc, x, ch);
        }
      }
    }
  }

  lemma StepNoLeak(s: State, e: Event)
    requires Inv(s) && NoLeak(s) && Enabled(s, e)
    ensures NoLeak(Step(s, e))
  {
    hide StepOf, CanGo, Inv;
    if e.Go? {
      hide *;
      GoNoLeak(s, e.t, e.x);
    }
  }

  // -------------------------------------------------------------------- whole runs

  lemma {:induction false} RunClosed(s: State, es: seq<Event>)
    requires Inv(s) && AllClosed(s) && NoLeak(s) && Feasible(s, es)
    ensures AllClosed(Run(s, es)) && NoLeak(Run(s, es))
    decreases |es|
  {
    hide Inv, AllClosed, NoLeak, Enabled, Step;
    if es != [] {
      StepInv(s, es[0]);
      StepClosed(s, es[0]);
      StepNoLeak(s, es[0]);
      RunClosed(Step(s, es[0]), es[1..]);
    }
  }

  lemma ReachableClosed(s: State)
    requires Reachable(s)
    ensures Inv(s) && AllClosed(s) && NoLeak(s)
  {
    hide Inv, Feasible, Run;
    var s0: State, es: seq<Event> :| Init(s0) && Feasible(s0, es) && Run(s0, es) == s;
    assert AllClosed(s0) && NoLeak(s0);
    InitInv(s0);
    RunInv(s0, es);
    RunClosed(s0, es);
  }

  /** Close and closeByServer have closed the connection by the time they let go of the lock. */
  lemma CloseCloses(s: State, t: Tid)
    requires Reachable(s) && (At(s, t).CloseLeave? || At(s, t).ServerLeave?)
    ensures Shut(s.g)
  {
    hide Reachable, Inv, Shut;
    ReachableClosed(s);
    assert CloseView(s.g, At(s, t));
  }

  /** A connection is replaced only when it is closed, and by one that is new, has drawn no id, and
      that nobody uses yet; a dial that fails leaves none. */
  lemma ReplacedIsClosed(s: State, e: Event)
    requires Reachable(s) && Enabled(s, e) && Step(s, e).g.conn != s.g.conn
    ensures Shut(s.g)
    ensures var g := Step(s, e).g;
            g.conn.Some? ==> g.conn.value !in s.g.conns && g.conn.value in g.conns && g.conns[g.conn.value].draws == 0
  {
    hide Reachable, Inv, StepOf, Shut;
    ReachableClosed(s);
    assert e.Go?;
    GoStep(s, e.t, e.x);
    OnlyDialSwaps(s.g, e.t, At(s, e.t), e.x);
    assert CloseView(s.g, At(s, e.t));
    NewConn(s.g, e.t, At(s, e.t), e.x);
  }

  lemma NewConn(g: Shared, t: Tid, pc: Pc, x: Choice)
    requires CanGo(g, pc, x) && pc.Dialing?
    ensures var g' := StepOf(g, t, pc, x).g;
            g'.conn.Some? ==>
              g'.conn.value !in g.conns && g'.conn.value in g'.conns && g'.conns[g'.conn.value].draws == 0
  {
  }

  /** From the draw of its id to its last byte, a ping shares no moment with a reconnect loop. */
  lemma NoPingInLoop(s: State, t: Tid)
    requires Reachable(s) && (At(s, t).PingCheck? || At(s, t).PingSend?)
    ensures !s.g.reconnecting && forall u: Tid :: !InLoop(At(s, u))
  {
    hide Reachable, LockView, CallView, ChanView, Table, Distinct, InLoop;
    ReachableClosed(s);
    assert CloseView(s.g, At(s, t));
    forall u: Tid ensures !InLoop(At(s, u)) {
      assert Local(s.g, u, At(s, u));
    }
  }

  /** No receiver stays open behind its request: an open one is listened to or about to be freed. */
  lemma NoReceiverLeaks(s: State, ch: ChanId)
    requires Reachable(s) && ch in s.g.chans && s.g.chans[ch].open
    ensures Uses(At(s, s.g.chans[ch].owner), ch)
  {
    hide Reachable, Inv, Uses;
    ReachableClosed(s);
  }
}
