/** Theorems about whole runs of the client. */
module ClientRuns {
  import opened Bytes
  import opened Client
  import opened ClientSafety

  // --------------------------------------------------------------------- runs

  ghost predicate Feasible(s: State, es: seq<Event>)
    decreases |es|
  {
    es == [] || (Enabled(s, es[0]) && Feasible(Step(s, es[0]), es[1..]))
  }

  ghost function Run(s: State, es: seq<Event>): State
    requires Feasible(s, es)
    decreases |es|
  {
    if es == [] then s else Run(Step(s, es[0]), es[1..])
  }

  lemma StepInv(s: State, e: Event)
    requires Inv(s) && Enabled(s, e)
    ensures Inv(Step(s, e))
  {
    hide *;
    match e
    case Start(t, job) => StartKeeps(s, t, job);
    case ConnFails(t, c) => ConnFailsKeeps(s, t, c);
    case Deliver(m) => DeliverKeeps(s, m);
    case Go(t, x) => GoKeeps(s, t, x);
  }

  lemma {:induction false} RunInv(s: State, es: seq<Event>)
    requires Inv(s) && Feasible(s, es)
    ensures Inv(Run(s, es))
    decreases |es|
  {
    hide Inv, Enabled, Step;
    if es != [] {
      StepInv(s, es[0]);
      RunInv(Step(s, es[0]), es[1..]);
    }
  }

  ghost predicate Reachable(s: State) {
    exists s0: State, es: seq<Event> :: Init(s0) && Feasible(s0, es) && Run(s0, es) == s
  }

  lemma ReachableInv(s: State)
    requires Reachable(s)
    ensures Inv(s)
  {
    hide Inv, Feasible, Run, Init;
    var s0: State, es: seq<Event> :| Init(s0) && Feasible(s0, es) && Run(s0, es) == s;
    InitInv(s0);
    RunInv(s0, es);
  }

  // --------------------------------------------------- replacing the connection

  /** The goroutine is in Do and holds the read lock. */
  predicate InFlight(pc: Pc) {
    InDo(pc) && !pc.DoLock?
  }

  lemma OnlyDialSwaps(g: Shared, t: Tid, pc: Pc, x: Choice)
    requires CanGo(g, pc, x) && StepOf(g, t, pc, x).g.conn != g.conn
    ensures pc.Dialing?
  {
  }

  lemma ReceiversNeedReaders(s: State)
    requires Inv(s)
    ensures s.g.recvs != map[] ==> s.g.readers != {}
  {
    hide Inv;
    if i :| i in s.g.recvs {
      ReceiverHoldsLock(s, i);
    }
  }

  /** Whenever the connection is replaced, no request is in flight, no ping is being sent, and no
      receiver is registered. */
  lemma SwapSafety(s: State, e: Event)
    requires Reachable(s) && Enabled(s, e) && Step(s, e).g.conn != s.g.conn
    ensures forall t: Tid :: !InFlight(At(s, t)) && !Calls(At(s, t))
    ensures s.g.recvs == map[]
  {
    hide StepOf, Shape;
    ReachableInv(s);
    ReceiversNeedReaders(s);
    assert e.Go?;
    OnlyDialSwaps(s.g, e.t, At(s, e.t), e.x);
    assert Local(s.g, e.t, At(s, e.t));
    assert s.g.readers == {};
    forall t: Tid ensures !HoldsRead(At(s, t)) {
      assert Local(s.g, t, At(s, t));
    }
  }

  /** Every pending receiver was made for the current connection, by a goroutine still listening. */
  lemma ReceiversAreCurrent(s: State, i: uint32)
    requires Reachable(s) && i in s.g.recvs
    ensures s.g.recvs[i] in s.g.chans
    ensures var x := s.g.chans[s.g.recvs[i]];
            && x.open && x.id == i
            && Listens(At(s, x.owner)) && At(s, x.owner).ch == s.g.recvs[i]
            && s.g.conn == Some(At(s, x.owner).c) && IdOf(At(s, x.owner).n) == i
  {
    hide LockView, LoopView;
    ReachableInv(s);
    assert Entry(s, i);
    assert Local(s.g, s.g.chans[s.g.recvs[i]].owner, At(s, s.g.chans[s.g.recvs[i]].owner));
  }

  /** Until a connection has drawn all ids, no two requests in flight share one. */
  lemma IdsDistinct(s: State, t: Tid, u: Tid)
    requires Reachable(s) && t != u && Calls(At(s, t)) && Calls(At(s, u))
    requires s.g.conn.Some? && s.g.conn.value in s.g.conns && s.g.conns[s.g.conn.value].draws < 0x1_0000_0000
    ensures IdOf(At(s, t).n) != IdOf(At(s, u).n) && IdOf(At(s, t).n) != 0
  {
    hide LockView, LoopView, ChanView, Table;
    ReachableInv(s);
    assert Local(s.g, t, At(s, t)) && Local(s.g, u, At(s, u));
  }

  /** A packet that recv hands back answers the request it was called for. */
  lemma ReplyMatchesRequest(s: State, t: Tid)
    requires Reachable(s) && (At(s, t).DoDelete? || At(s, t).DoFree?) && At(s, t).reply.Answer?
    ensures At(s, t).reply.msg.requestId == IdOf(At(s, t).n)
  {
    hide LockView, LoopView, CallView, Table, Distinct;
    ReachableInv(s);
    assert Local(s.g, t, At(s, t));
  }

  // ------------------------------------------------------------- single flight

  lemma SingleFlight(s: State, t: Tid, u: Tid)
    requires Reachable(s) && InLoop(At(s, t))
    ensures s.g.reconnecting
    ensures InLoop(At(s, u)) ==> t == u
  {
    hide LockView, CallView, ChanView, Table, Distinct;
    ReachableInv(s);
    assert Local(s.g, t, At(s, t)) && Local(s.g, u, At(s, u));
  }

  /** The event completes a resumed session. */
  ghost predicate Resumes(s: State, e: Event)
    requires Enabled(s, e)
  {
    e.Go? && At(s, e.t).DoUnlock? && At(s, e.t).k.LoopResume? && At(Step(s, e), e.t).LoopDone?
  }

  ghost predicate Dials(s: State, e: Event) {
    e.Go? && At(s, e.t).DialWait?
  }

  ghost predicate NoResume(s: State, es: seq<Event>)
    requires Feasible(s, es)
    decreases |es|
  {
    es == [] || (!Resumes(s, es[0]) && NoResume(Step(s, es[0]), es[1..]))
  }

  ghost function DialsIn(s: State, es: seq<Event>): nat
    requires Feasible(s, es)
    decreases |es|
  {
    if es == [] then 0 else (if Dials(s, es[0]) then 1 else 0) + DialsIn(Step(s, es[0]), es[1..])
  }

  /** The budget of a step: one attempt if it dials, and the limit stays. */
  predicate Spends(g: Shared, n: Next, dials: bool) {
    n.g.attempts == g.attempts + (if dials then 1 else 0) && n.g.maxReconnect == g.maxReconnect
  }

  lemma SendSpends(g: Shared, t: Tid, pc: Pc, x: Choice)
    requires CanGo(g, pc, x) && InSend(pc)
    ensures Spends(g, StepSend(g, t, pc, x), false)
  {
  }

  lemma RecvSpends(g: Shared, t: Tid, pc: Pc, x: Choice)
    requires CanGo(g, pc, x) && InRecv(pc)
    ensures StepRecv(g, t, pc, x).g.maxReconnect == g.maxReconnect
    ensures !(pc.DoUnlock? && pc.k.LoopResume? && StepRecv(g, t, pc, x).pc.LoopDone?) ==>
              Spends(g, StepRecv(g, t, pc, x), false)
  {
  }

  lemma TurnSpends(g: Shared, t: Tid, pc: Pc, x: Choice)
    ensures InControl(pc) ==> Spends(g, StepLoop(g, t, pc), false)
    ensures InDial(pc) ==> Spends(g, StepDial(g, t, pc, x), pc.DialWait?)
    ensures InClose(pc) ==> Spends(g, StepClose(g, t, pc), false)
  {
  }

  lemma PingSpends(g: Shared, t: Tid, pc: Pc, x: Choice)
    requires CanGo(g, pc, x)
    ensures InPing(pc) ==> Spends(g, StepPing(g, t, pc, x), false)
    ensures InPong(pc) ==> Spends(g, StepPong(g, pc, x), false)
  {
  }

  lemma AttemptsStep(g: Shared, t: Tid, pc: Pc, x: Choice)
    requires CanGo(g, pc, x)
    ensures StepOf(g, t, pc, x).g.maxReconnect == g.maxReconnect
    ensures !(pc.DoUnlock? && pc.k.LoopResume? && StepOf(g, t, pc, x).pc.LoopDone?) ==>
              Spends(g, StepOf(g, t, pc, x), pc.DialWait?)
  {
    hide StepSend, StepRecv, StepLoop, StepDial, StepClose, StepPing, StepPong;
    if InSend(pc) {
      SendSpends(g, t, pc, x);
    } else if InRecv(pc) {
      RecvSpends(g, t, pc, x);
    } else if InControl(pc) || InDial(pc) || InClose(pc) {
      TurnSpends(g, t, pc, x);
    } else {
      PingSpends(g, t, pc, x);
    }
  }

  lemma {:induction false} DialsAreCounted(s: State, es: seq<Event>)
    requires Inv(s) && Feasible(s, es) && NoResume(s, es)
    ensures Inv(Run(s, es))
    ensures Run(s, es).g.attempts == s.g.attempts + DialsIn(s, es)
    ensures Run(s, es).g.maxReconnect == s.g.maxReconnect
    decreases |es|
  {
    hide Inv, StepOf, CanGo;
    if es != [] {
      var e := es[0];
      StepInv(s, e);
      if e.Go? {
        assert Step(s, e).g == StepOf(s.g, e.t, At(s, e.t), e.x).g;
        assert At(Step(s, e), e.t) == StepOf(s.g, e.t, At(s, e.t), e.x).pc;
        AttemptsStep(s.g, e.t, At(s, e.t), e.x);
      }
      DialsAreCounted(Step(s, e), es[1..]);
    }
  }

  /** With a limit set, no stretch of a run without a resumed session dials more often than the
      limit, however many reconnect loops it contains. */
  lemma DialBudget(s: State, es: seq<Event>)
    requires Reachable(s) && Feasible(s, es) && NoResume(s, es) && s.g.maxReconnect > 0
    ensures DialsIn(s, es) <= s.g.maxReconnect
    ensures Run(s, es).g.reconnectCount <= s.g.maxReconnect
  {
    hide Feasible, Run, NoResume, DialsIn, LockView, LoopView, CallView, ChanView, Table, Distinct;
    ReachableInv(s);
    DialsAreCounted(s, es);
  }

  // ------------------------------------------------------ the loop comes to an end

  /** How far a goroutine in the loop is from starting the next iteration or leaving. */
  function Rank(pc: Pc): nat {
    match pc
    case LoopDone(_) => 1
    case CloseLeave(_) => 2
    case ConnClose(k) => if k.LoopClear? then 20 else 3
    case CloseLock(_) => 4
    case CloseMark(_) => 5
    case LoopTop(_) => 6
    case DoUnlock(_, _) => 7
    case DoFree(_, _, _, _, _) => 8
    case DoDelete(_, _, _, _, _) => 9
    case DoWait(_, _, _, _) => 10
    case DoRegister(_, _, _) => 11
    case DoSend(_, _, _) => 12
    case DoCheck(_, _, _) => 13
    case DoDraw(_) => 14
    case DoLock(_) => 15
    case Dialing(_) => 16
    case DialWait(_) => 17
    case Clear(_) => 18
    case RcWait(_) => 19
    case _ => 0
  }

  /** Iterations left, refined by the place within one. */
  function Measure(g: Shared, pc: Pc): int {
    20 * (g.maxReconnect - g.reconnectCount) + Rank(pc)
  }

  lemma CallProgress(g: Shared, t: Tid, pc: Pc, x: Choice)
    requires LoopView(g, t, pc) && CanGo(g, pc, x) && InDo(pc)
    requires InLoop(pc) && StepOf(g, t, pc, x).g.fault.None?
    ensures var n := StepOf(g, t, pc, x);
            n.pc.LoopDone? || (InLoop(n.pc) && Rank(n.pc) < Rank(pc) && n.g.reconnectCount == g.reconnectCount)
  {
    hide StepLoop, StepDial, StepClose, StepPing, StepPong;
  }

  lemma TurnProgress(g: Shared, t: Tid, pc: Pc, x: Choice)
    requires LoopView(g, t, pc) && CanGo(g, pc, x) && !InDo(pc)
    requires InLoop(pc) && !pc.LoopDone? && (pc.RcWait? ==> g.reconnecting) && StepOf(g, t, pc, x).g.fault.None?
    ensures var n := StepOf(g, t, pc, x);
            n.pc.LoopDone? ||
            (InLoop(n.pc) && (if pc.LoopTop? && !n.pc.CloseMark? then n.g.reconnectCount == g.reconnectCount + 1
                              else Rank(n.pc) < Rank(pc) && n.g.reconnectCount == g.reconnectCount))
  {
    hide StepSend, StepRecv, StepPing, StepPong;
  }

  /** With a limit set, every step the loop's goroutine takes brings it closer to the end, which is
      success or closing the client; the measure never falls to zero. */
  lemma LoopProgress(g: Shared, t: Tid, pc: Pc, x: Choice)
    requires Local(g, t, pc) && Global(g) && CanGo(g, pc, x) && g.maxReconnect > 0
    requires pc.DoWait? ==> Tagged(g.chans[pc.ch])
    requires InLoop(pc) && !pc.LoopDone? && StepOf(g, t, pc, x).g.fault.None?
    ensures var n := StepOf(g, t, pc, x);
            n.pc.LoopDone? || (InLoop(n.pc) && 0 < Measure(n.g, n.pc) < Measure(g, pc))
  {
    hide StepOf, CallView, ChanView, LockView, CanGo, Tagged;
    StepKeeps(g, t, pc, x);
    AttemptsStep(g, t, pc, x);
    if InDo(pc) {
      CallProgress(g, t, pc, x);
    } else {
      TurnProgress(g, t, pc, x);
    }
  }

  /** Goroutine `t` never gets to the end of its loop within `es`, and nothing panics. */
  ghost predicate Stays(s: State, es: seq<Event>, t: Tid)
    requires Feasible(s, es)
    decreases |es|
  {
    && InLoop(At(s, t)) && !At(s, t).LoopDone? && s.g.fault.None?
    && (es != [] ==> Stays(Step(s, es[0]), es[1..], t))
  }

  function OwnSteps(es: seq<Event>, t: Tid): nat {
    if es == [] then 0 else (if es[0].Go? && es[0].t == t then 1 else 0) + OwnSteps(es[1..], t)
  }

  /** A step of anyone else leaves the loop's goroutine and its measure where they are. */
  lemma OthersWait(s: State, e: Event, t: Tid)
    requires Inv(s) && Enabled(s, e) && InLoop(At(s, t)) && !(e.Go? && e.t == t)
    ensures var s' := Step(s, e);
            && At(s', t) == At(s, t)
            && s'.g.reconnectCount == s.g.reconnectCount && s'.g.maxReconnect == s.g.maxReconnect
  {
    hide StepOf, CanGo, LockView, CallView, ChanView, Tagged, Table, Distinct;
    assert Local(s.g, t, At(s, t));
    if e.Go? {
      var pc := At(s, e.t);
      assert Local(s.g, e.t, pc);
      assert pc.DoWait? ==> Tagged(s.g.chans[pc.ch]) by { WaiterTagged(s, e.t); }
      StepKeeps(s.g, e.t, pc, e.x);
      AttemptsStep(s.g, e.t, pc, e.x);
    }
  }

  lemma WaiterTagged(s: State, t: Tid)
    requires Inv(s)
    ensures At(s, t).DoWait? ==> At(s, t).ch in s.g.chans && Tagged(s.g.chans[At(s, t).ch])
  {
    assert Local(s.g, t, At(s, t));
  }

  /** Once in the loop, its goroutine takes at most that many steps of its own before the loop ends. */
  lemma {:induction false} LoopEnds(s: State, es: seq<Event>, t: Tid)
    requires Inv(s) && Feasible(s, es) && Stays(s, es, t) && s.g.maxReconnect > 0
    ensures OwnSteps(es, t) <= Measure(s.g, At(s, t))
    decreases |es|
  {
    hide Step, StepOf, CanGo, LockView, CallView, ChanView, Tagged, Rank;
    assert Local(s.g, t, At(s, t));
    if es != [] {
      var e := es[0];
      StepInv(s, e);
      if e.Go? && e.t == t {
        WaiterTagged(s, t);
        GoStep(s, t, e.x);
        AttemptsStep(s.g, t, At(s, t), e.x);
        assert Stays(Step(s, e), es[1..], t);
        LoopProgress(s.g, t, At(s, t), e.x);
      } else {
        OthersWait(s, e, t);
      }
      LoopEnds(Step(s, e), es[1..], t);
    }
  }

  lemma GoStep(s: State, t: Tid, x: Choice)
    requires Enabled(s, Go(t, x))
    ensures Step(s, Go(t, x)).g == StepOf(s.g, t, At(s, t), x).g
    ensures At(Step(s, Go(t, x)), t) == StepOf(s.g, t, At(s, t), x).pc
  {
    hide StepOf;
  }

  /** A loop ends at this step: with a connection that needs no session, with a good answer to its
      request for one, or behind closing the client. */
  predicate Ends(pc: Pc, x: Choice) {
    || (pc.Dialing? && x.path == NoAuth)
    || (pc.DoUnlock? && x.ok && pc.reply.Answer? && pc.reply.msg.good)
    || pc.CloseLeave?
  }

  /** In every run a loop ends exactly then; it leaves the new connection in place, or the client
      closed. */
  lemma LoopOutcome(s: State, t: Tid, x: Choice)
    requires Reachable(s) && Enabled(s, Go(t, x)) && InLoop(At(s, t)) && !At(s, t).LoopDone?
    ensures At(Step(s, Go(t, x)), t).LoopDone? <==> Ends(At(s, t), x)
    ensures At(s, t).Dialing? && x.path != DialFails ==> Step(s, Go(t, x)).g.conn == Some(x.id)
    ensures At(s, t).CloseLeave? ==> Step(s, Go(t, x)).g.closed
  {
    hide StepOf, LockView, CallView, ChanView, Table, Distinct, CanGo;
    ReachableInv(s);
    assert Local(s.g, t, At(s, t));
    GoStep(s, t, x);
    EndOf(s.g, t, At(s, t), x);
  }

  lemma EndOf(g: Shared, t: Tid, pc: Pc, x: Choice)
    requires LoopView(g, t, pc) && CanGo(g, pc, x) && InLoop(pc) && !pc.LoopDone? && Global(g)
    ensures StepOf(g, t, pc, x).pc.LoopDone? <==> Ends(pc, x)
    ensures pc.Dialing? && x.path != DialFails ==> StepOf(g, t, pc, x).g.conn == Some(x.id)
    ensures pc.CloseLeave? ==> StepOf(g, t, pc, x).g.closed
  {
    if InDo(pc) {
      hide StepLoop, StepDial, StepClose, StepPing, StepPong;
    } else {
      hide StepSend, StepRecv, StepPing, StepPong;
    }
  }

  // ------------------------------------------------------------ lock discipline

  /** Nobody asks for the write lock while holding the read lock, except a goroutine that closes
      a connection on the server's behalf. */
  lemma LockDiscipline(s: State, t: Tid)
    requires Reachable(s)
    ensures WantsWrite(At(s, t)) && t in s.g.readers <==> At(s, t) == RcWait(ServerUnlock)
  {
    hide CallView, ChanView, Table, Distinct;
    ReachableInv(s);
    assert Local(s.g, t, At(s, t));
  }

  lemma BlockedStep(s: State, e: Event, t: Tid)
    requires Inv(s) && Enabled(s, e) && At(s, t) == RcWait(ServerUnlock)
    ensures var s' := Step(s, e);
            && At(s', t) == RcWait(ServerUnlock)
            && s'.g.conn == s.g.conn && s'.g.reconnecting == s.g.reconnecting && s'.g.owner == s.g.owner
  {
    hide CallView, ChanView, Table, Distinct, StepOf, Shape;
    assert Local(s.g, t, At(s, t));
    assert t in s.g.readers;
    if e.Go? {
      assert Local(s.g, e.t, At(s, e.t));
      ReadLockStops(s.g, e.t, At(s, e.t), e.x);
    }
  }

  predicate SameConnection(g: Shared, g': Shared) {
    g'.conn == g.conn && g'.reconnecting == g.reconnecting && g'.owner == g.owner
  }

  lemma CallsKeepConnection(g: Shared, t: Tid, pc: Pc, x: Choice)
    requires CanGo(g, pc, x)
    ensures InSend(pc) ==> SameConnection(g, StepSend(g, t, pc, x).g)
    ensures InRecv(pc) ==> SameConnection(g, StepRecv(g, t, pc, x).g)
  {
  }

  lemma PingKeepsConnection(g: Shared, t: Tid, pc: Pc, x: Choice)
    requires CanGo(g, pc, x)
    ensures InPing(pc) ==> SameConnection(g, StepPing(g, t, pc, x).g)
    ensures InPong(pc) ==> SameConnection(g, StepPong(g, pc, x).g)
    ensures InClose(pc) ==> SameConnection(g, StepClose(g, t, pc).g)
  {
  }

  lemma LoopKeepsConnection(g: Shared, t: Tid, pc: Pc, x: Choice)
    requires CanGo(g, pc, x) && !LockFree(g) && !pc.Dialing?
    ensures InControl(pc) ==> SameConnection(g, StepLoop(g, t, pc).g)
    ensures InDial(pc) ==> SameConnection(g, StepDial(g, t, pc, x).g)
  {
  }

  lemma ReadLockStops(g: Shared, t: Tid, pc: Pc, x: Choice)
    requires LockView(g, t, pc) && Global(g) && CanGo(g, pc, x) && g.readers != {}
    ensures !pc.RcWait?
    ensures SameConnection(g, StepOf(g, t, pc, x).g)
  {
    hide StepSend, StepRecv, StepLoop, StepDial, StepClose, StepPing, StepPong, SameConnection;
    if InDo(pc) {
      CallsKeepConnection(g, t, pc, x);
    } else if InControl(pc) || InDial(pc) {
      LoopKeepsConnection(g, t, pc, x);
    } else {
      PingKeepsConnection(g, t, pc, x);
    }
  }

  /** From then on the goroutine is blocked for good, and with it the client: in every continuation
      the connection is never replaced and no reconnect loop starts or ends. */
  lemma {:induction false} BlockedForever(s: State, es: seq<Event>, t: Tid)
    requires Inv(s) && Feasible(s, es) && At(s, t) == RcWait(ServerUnlock)
    ensures var s' := Run(s, es);
            && At(s', t) == RcWait(ServerUnlock)
            && s'.g.conn == s.g.conn && s'.g.reconnecting == s.g.reconnecting && s'.g.owner == s.g.owner
    decreases |es|
  {
    hide Inv, Step, Enabled;
    if es != [] {
      StepInv(s, es[0]);
      BlockedStep(s, es[0], t);
      BlockedForever(Step(s, es[0]), es[1..], t);
    }
  }

  /** A goroutine about to close the connection for the server blocks in every continuation exactly
      when that connection is open and the client is not closed; otherwise it goes on at once. */
  lemma ServerCloseBlocks(s: State, t: Tid, x: Choice)
    requires Reachable(s) && s.g.fault.None? && At(s, t) == ConnClose(ServerUnlock)
    ensures Enabled(s, Go(t, x))
    ensures var s1, open := Step(s, Go(t, x)), Connected(s.g) && !s.g.conns[s.g.conn.value].closed && !s.g.closed;
            && ((forall es :: Feasible(s1, es) ==> At(Run(s1, es), t) == RcWait(ServerUnlock)) <==> open)
            && (!open ==> At(s1, t) == ServerLeave)
  {
    hide Inv, Feasible, Run, Reachable;
    ReachableInv(s);
    StepInv(s, Go(t, x));
    var s1 := Step(s, Go(t, x));
    ServerCloseStep(s, t, x);
    forall es | Feasible(s1, es) && At(s1, t) == RcWait(ServerUnlock)
      ensures At(Run(s1, es), t) == RcWait(ServerUnlock)
    {
      BlockedForever(s1, es, t);
    }
    EmptyRun(s1);
  }

  lemma ServerCloseStep(s: State, t: Tid, x: Choice)
    requires s.g.fault.None? && At(s, t) == ConnClose(ServerUnlock)
    ensures Enabled(s, Go(t, x))
    ensures At(Step(s, Go(t, x)), t)
         == if Connected(s.g) && !s.g.conns[s.g.conn.value].closed && !s.g.closed then RcWait(ServerUnlock)
            else ServerLeave
  {
  }

  lemma EmptyRun(s: State)
    ensures Feasible(s, []) && Run(s, []) == s
  {
  }

  // ------------------------------------------------------------------- faults

  /** The four ways a run can end in a panic, each with the exact state it happens in. */
  ghost predicate Panics(g: Shared, pc: Pc, f: Fault) {
    match f
    case NilConnection => (pc.DoDraw? || pc.PongCheck? || pc.PongBuild? || pc.PongWrite?) && g.conn.None?
    case SendOnClosedQueue => (pc.DoSend? || pc.PingSend? || pc.PongSend?) && pc.c in g.conns && g.conns[pc.c].closed
    case FreeClosedReceiver => pc.DoFree? && pc.ch in g.chans && !g.chans[pc.ch].open
    case CloseTwice => pc.CloseMark? && g.closed
    case _ => false
  }

  lemma CallFault(g: Shared, t: Tid, pc: Pc, x: Choice, f: Fault)
    requires CallView(g, pc) && ChanView(g, t, pc) && InDo(pc) && CanGo(g, pc, x) && Global(g) && g.fault.None?
    ensures StepOf(g, t, pc, x).g.fault == Some(f) <==> Panics(g, pc, f)
  {
    hide StepLoop, StepDial, StepClose, StepPing, StepPong;
  }

  lemma PingFault(g: Shared, t: Tid, pc: Pc, x: Choice, f: Fault)
    requires CallView(g, pc) && CanGo(g, pc, x) && Global(g) && g.fault.None?
    ensures InPing(pc) ==> (StepPing(g, t, pc, x).g.fault == Some(f) <==> Panics(g, pc, f))
    ensures InPong(pc) ==> (StepPong(g, pc, x).g.fault == Some(f) <==> Panics(g, pc, f))
  {
  }

  lemma LoopFault(g: Shared, t: Tid, pc: Pc, x: Choice, f: Fault)
    requires g.fault.None?
    requires pc.Clear? ==> forall i :: i in g.recvs ==> !Broken(g, i)
    ensures InControl(pc) ==> (StepLoop(g, t, pc).g.fault == Some(f) <==> Panics(g, pc, f))
    ensures InDial(pc) ==> (StepDial(g, t, pc, x).g.fault == Some(f) <==> Panics(g, pc, f))
    ensures InClose(pc) ==> (StepClose(g, t, pc).g.fault == Some(f) <==> Panics(g, pc, f))
  {
  }

  lemma OtherFault(g: Shared, t: Tid, pc: Pc, x: Choice, f: Fault)
    requires CallView(g, pc) && !InDo(pc) && CanGo(g, pc, x) && Global(g) && g.fault.None?
    requires pc.Clear? ==> forall i :: i in g.recvs ==> !Broken(g, i)
    ensures StepOf(g, t, pc, x).g.fault == Some(f) <==> Panics(g, pc, f)
  {
    hide StepSend, StepRecv, StepLoop, StepDial, StepClose, StepPing, StepPong, Panics;
    if InPing(pc) || InPong(pc) {
      PingFault(g, t, pc, x, f);
    } else {
      LoopFault(g, t, pc, x, f);
    }
  }

  /** In every run: a step panics exactly when one of those four is the case; a response is never
      sent on a closed channel, the table never holds one, and a missing reply is never looked at. */
  lemma FaultsAre(s: State, e: Event, f: Fault)
    requires Reachable(s) && Enabled(s, e)
    ensures Step(s, e).g.fault == Some(f) <==> e.Go? && Panics(s.g, At(s, e.t), f)
  {
    hide StepOf, CanGo, LockView, LoopView, CallView, ChanView, Distinct, Panics, Dispatch;
    ReachableInv(s);
    if e.Go? {
      assert Local(s.g, e.t, At(s, e.t));
      forall i | i in s.g.recvs ensures !Broken(s.g, i) {
        assert Entry(s, i);
      }
      GoStep(s, e.t, e.x);
      if InDo(At(s, e.t)) {
        CallFault(s.g, e.t, At(s, e.t), e.x, f);
      } else {
        OtherFault(s.g, e.t, At(s, e.t), e.x, f);
      }
    } else if e.Deliver? {
      DeliverKeeps(s, e.msg);
    }
  }

  /** A channel that is listened to is closed by nothing but a reconnect that clears the table. */
  lemma OnlyClearCloses(s: State, e: Event, t: Tid)
    requires Reachable(s) && Enabled(s, e) && Listens(At(s, t))
    requires At(s, t).ch in s.g.chans && s.g.chans[At(s, t).ch].open
    ensures At(s, t).ch in Step(s, e).g.chans
    ensures Step(s, e).g.chans[At(s, t).ch].open || (e.Go? && At(s, e.t).Clear?)
  {
    hide StepOf, CanGo, LockView, LoopView, CallView, Distinct, Tagged;
    ReachableInv(s);
    var ch := At(s, t).ch;
    assert Local(s.g, t, At(s, t));
    if e.Go? && At(s, e.t).Clear? {
      ClearKeepsNames(s.g, e.t, At(s, e.t), e.x);
    } else if e.Go? {
      assert Local(s.g, e.t, At(s, e.t));
      OthersOpen(s.g, e.t, At(s, e.t), e.x, ch);
    }
  }

  lemma ClearKeepsNames(g: Shared, t: Tid, pc: Pc, x: Choice)
    requires CanGo(g, pc, x) && pc.Clear?
    ensures StepOf(g, t, pc, x).g.chans.Keys == g.chans.Keys
  {
  }

  lemma OthersOpen(g: Shared, t: Tid, pc: Pc, x: Choice, ch: ChanId)
    requires CanGo(g, pc, x) && !pc.Clear? && ch in g.chans && !(pc.DoFree? && pc.ch == ch)
    ensures var n := StepOf(g, t, pc, x); ch in n.g.chans && n.g.chans[ch].open == g.chans[ch].open
  {
    hide StepSend, StepRecv, StepLoop, StepDial, StepClose, StepPing, CanGo;
    if InRecv(pc) {
      RecvOpen(g, t, pc, x, ch);
    } else {
      TableQuiet(g, t, pc, x);
    }
  }

  lemma RecvOpen(g: Shared, t: Tid, pc: Pc, x: Choice, ch: ChanId)
    requires CanGo(g, pc, x) && InRecv(pc) && ch in g.chans && !(pc.DoFree? && pc.ch == ch)
    ensures var n := StepRecv(g, t, pc, x); ch in n.g.chans && n.g.chans[ch].open == g.chans[ch].open
  {
  }

  // ---------------------------------------------------------- the faults happen

  lemma {:induction false} FeasibleSnoc(s: State, es: seq<Event>, e: Event)
    requires Feasible(s, es) && Enabled(Run(s, es), e)
    ensures Feasible(s, es + [e]) && Run(s, es + [e]) == Step(Run(s, es), e)
    decreases |es|
  {
    hide Enabled, Step;
    if es == [] {
      assert es + [e] == [e] && [e][1..] == [];
      assert Feasible(Step(s, e), []);
    } else {
      FeasibleSnoc(Step(s, es[0]), es[1..], e);
      assert (es + [e])[1..] == es[1..] + [e];
    }
  }

  lemma Advance(s: State, e: Event) returns (s': State)
    requires Reachable(s) && Enabled(s, e)
    ensures s' == Step(s, e) && Reachable(s')
  {
    hide Enabled, Step, Feasible, Run, Init;
    var s0: State, es: seq<Event> :| Init(s0) && Feasible(s0, es) && Run(s0, es) == s;
    FeasibleSnoc(s0, es, e);
    s' := Step(s, e);
  }

  /** The next step of goroutine `t`, and of nobody else. */
  lemma Take(s: State, t: Tid, x: Choice) returns (s': State)
    requires Reachable(s) && s.g.fault.None? && CanGo(s.g, At(s, t), x)
    ensures Reachable(s')
    ensures s'.g == StepOf(s.g, t, At(s, t), x).g && At(s', t) == StepOf(s.g, t, At(s, t), x).pc
    ensures forall u: Tid :: u != t ==> At(s', u) == At(s, u)
  {
    hide StepOf, CanGo, Reachable;
    s' := Advance(s, Go(t, x));
  }

  lemma Begin(s: State, t: Tid, job: Job) returns (s': State)
    requires Reachable(s) && s.g.fault.None? && At(s, t).Idle?
    ensures Reachable(s') && s'.g == s.g && At(s', t) == EntryOf(job)
    ensures forall u: Tid :: u != t ==> At(s', u) == At(s, u)
  {
    hide Reachable;
    s' := Advance(s, Start(t, job));
  }

  lemma Break(s: State, t: Tid, c: ConnId) returns (s': State)
    requires Reachable(s) && s.g.fault.None? && At(s, t).Idle? && c in s.g.conns && !s.g.conns[c].closed && !s.g.closed
    ensures Reachable(s') && s'.g == Closes(s.g, c) && At(s', t) == RcWait(Return)
    ensures forall u: Tid :: u != t ==> At(s', u) == At(s, u)
  {
    hide Reachable;
    s' := Advance(s, ConnFails(t, c));
  }

  function InitialShared(max: int): Shared {
    Shared(max, None, {}, Some(0), map[0 := Conn(false, 0)], false, map[], map[], false, 0, 0, None, None, 0)
  }

  lemma Initially(max: int) returns (s: State)
    ensures Reachable(s) && s.g == InitialShared(max) && forall t: Tid :: At(s, t).Idle?
  {
    s := State(InitialShared(max), map[]);
    assert Init(s) && Feasible(s, []) && Run(s, []) == s;
  }

  const WELL := Choice(true, 1, DialFails)

  /** Closing the client twice. */
  lemma CloseTwiceHappens(max: int) returns (s: State)
    ensures Reachable(s) && s.g.fault == Some(CloseTwice)
  {
    hide Reachable;
    s := Initially(max);
    s := Begin(s, 1, CloseClient);
    s := Take(s, 1, WELL);
    s := Begin(s, 2, CloseClient);
    s := Take(s, 2, WELL);
  }

  /** A request on connection 0 that has passed the check and is about to be queued. */
  lemma AboutToSend(s0: State) returns (s: State)
    requires Reachable(s0) && At(s0, 1).Idle?
    requires s0.g.fault.None? && s0.g.writer.None? && s0.g.conn == Some(0)
    requires 0 in s0.g.conns && s0.g.conns[0] == Conn(false, 0)
    ensures Reachable(s) && At(s, 1) == DoSend(Return, 0, 1) && forall u: Tid :: u != 1 ==> At(s, u) == At(s0, u)
    ensures s.g == s0.g.(readers := s0.g.readers + {1}, conns := s0.g.conns[0 := Conn(false, 1)])
  {
    hide Reachable;
    s := Begin(s0, 1, Request);
    s := Take(s, 1, WELL);
    s := Take(s, 1, WELL);
    s := Take(s, 1, WELL);
  }

  /** A connection that breaks between the check and the send of a request. */
  lemma SendOnClosedHappens(max: int) returns (s: State)
    ensures Reachable(s) && s.g.fault == Some(SendOnClosedQueue)
  {
    hide Reachable;
    s := Initially(max);
    s := AboutToSend(s);
    s := Break(s, 2, 0);
    s := Take(s, 1, WELL);
  }

  /** A request while the reconnect loop sleeps after a failed dial. */
  lemma NilConnectionHappens(max: int) returns (s: State)
    ensures Reachable(s) && s.g.fault == Some(NilConnection)
  {
    hide Reachable;
    hide StepOf;
    s := BrokenOnce(max);
    s := DialFailed(s);
    s := RequestWithout(s);
  }

  /** A connection that breaks starts a loop, which comes to clear the table. */
  lemma BrokenOnce(max: int) returns (s: State)
    ensures Reachable(s) && s.g.fault.None? && At(s, 2) == Clear(Return) && At(s, 1) == Idle
    ensures LockFree(s.g) && s.g.recvs == map[] && 1 !in s.g.conns
  {
    hide Reachable;
    s := LoopBegun(max);
    s := Take(s, 2, WELL);
    s := Take(s, 2, WELL);
  }

  lemma LoopBegun(max: int) returns (s: State)
    ensures Reachable(s) && At(s, 2) == LoopTop(Return) && At(s, 1) == Idle
    ensures s.g == Closes(InitialShared(max), 0).(reconnecting := true, owner := Some(2))
  {
    hide Reachable;
    s := Initially(max);
    s := Break(s, 2, 0);
    s := Take(s, 2, WELL);
  }

  lemma RequestWithout(s0: State) returns (s: State)
    requires Reachable(s0) && s0.g.fault.None? && At(s0, 1).Idle? && s0.g.conn.None? && s0.g.writer.None?
    ensures Reachable(s) && s.g.fault == Some(NilConnection)
  {
    hide Reachable;
    s := Begin(s0, 1, Request);
    s := Take(s, 1, WELL);
    s := Take(s, 1, WELL);
  }

  lemma DialFailed(s0: State) returns (s: State)
    requires Reachable(s0) && s0.g.fault.None? && At(s0, 2) == Clear(Return)
    requires LockFree(s0.g) && s0.g.recvs == map[] && 1 !in s0.g.conns
    ensures Reachable(s) && s.g.fault.None? && s.g.conn.None? && s.g.writer.None?
    ensures forall u: Tid :: u != 2 ==> At(s, u) == At(s0, u)
  {
    hide Reachable;
    s := Take(s0, 2, WELL);
    s := Take(s, 2, WELL);
    s := Take(s, 2, WELL);
  }

  /** A request that is sent after the loop has begun and is still waiting when the connection
      breaks and the loop clears the table. */
  lemma FreeClosedHappens(max: int) returns (s: State)
    ensures Reachable(s) && s.g.fault == Some(FreeClosedReceiver)
  {
    hide Reachable;
    hide StepOf;
    s := PendingInLoop(max);
    s := Break(s, 3, 0);
    s := ClearedWhileWaiting(s);
    s := FreedTwice(s);
  }

  lemma FreedTwice(s0: State) returns (s: State)
    requires Reachable(s0) && s0.g.fault.None? && At(s0, 1) == DoWait(Return, 0, 1, 1)
    requires 1 in s0.g.chans && !s0.g.chans[1].open && s0.g.chans[1].buf.None?
    ensures Reachable(s) && s.g.fault == Some(FreeClosedReceiver)
  {
    hide Reachable;
    s := Take(s0, 1, WELL);
    s := Take(s, 1, WELL);
    s := Take(s, 1, WELL);
  }

  lemma ClearedWhileWaiting(s0: State) returns (s: State)
    requires Reachable(s0) && s0.g.fault.None? && At(s0, 2) == LoopTop(Return) && s0.g.reconnectCount == 0
    requires Connected(s0.g) && s0.g.conns[s0.g.conn.value].closed
    requires s0.g.recvs == map[1 := 1] && s0.g.chans == map[1 := Chan(true, None, 1, 1)]
    ensures Reachable(s) && s.g.fault.None? && At(s, 1) == At(s0, 1)
    ensures 1 in s.g.chans && !s.g.chans[1].open && s.g.chans[1].buf.None?
  {
    hide Reachable;
    s := Take(s0, 2, WELL);
    s := Take(s, 2, WELL);
    assert At(s, 2) == Clear(Return);
    assert s.g.recvs[1] in s.g.recvs.Values;
    s := Take(s, 2, WELL);
  }

  lemma PendingInLoop(max: int) returns (s: State)
    ensures Reachable(s) && s.g.fault.None? && !s.g.closed && s.g.reconnectCount == 0
    ensures At(s, 1) == DoWait(Return, 0, 1, 1) && At(s, 2) == LoopTop(Return) && At(s, 3) == Idle
    ensures s.g.recvs == map[1 := 1] && s.g.chans == map[1 := Chan(true, None, 1, 1)]
    ensures s.g.conn == Some(0) && s.g.conns == map[0 := Conn(false, 1)]
  {
    hide Reachable;
    s := Initially(max);
    s := Begin(s, 2, Reconnect);
    s := Take(s, 2, WELL);
    s := AboutToSend(s);
    s := Take(s, 1, WELL);
    s := Take(s, 1, WELL);
  }

  /** The server closes an open connection. */
  lemma SelfBlockHappens(max: int) returns (s: State)
    ensures Reachable(s) && At(s, 1) == RcWait(ServerUnlock)
  {
    hide Reachable;
    s := Initially(max);
    s := Begin(s, 1, ServerClose);
    s := Take(s, 1, WELL);
    s := Take(s, 1, WELL);
  }

  // ------------------------------------------------------- a client that is closed

  predicate LimitReached(g: Shared) {
    g.maxReconnect > 0 && g.reconnectCount >= g.maxReconnect
  }

  /** A loop of a closed client that has used up its attempts can only panic. */
  predicate Doomed(s: State, t: Tid) {
    s.g.closed && ((At(s, t) == LoopTop(Return) && LimitReached(s.g)) || At(s, t) == CloseMark(LoopEnd(Return)))
  }

  lemma DoomedStep(s: State, e: Event, t: Tid)
    requires Inv(s) && Enabled(s, e) && Doomed(s, t)
    ensures Doomed(Step(s, e), t)
  {
    hide StepOf, CanGo, Inv, Frame;
    if e.Go? && e.t == t {
      GoStep(s, t, e.x);
      DoomedTurn(s.g, t, At(s, t), e.x);
    } else {
      OthersWait(s, e, t);
      ClosedStays(s, e);
    }
  }

  lemma DoomedTurn(g: Shared, t: Tid, pc: Pc, x: Choice)
    requires CanGo(g, pc, x) && g.closed
    requires (pc == LoopTop(Return) && LimitReached(g)) || pc == CloseMark(LoopEnd(Return))
    ensures StepOf(g, t, pc, x).pc == CloseMark(LoopEnd(Return)) && StepOf(g, t, pc, x).g.closed
  {
  }

  lemma ClosedStays(s: State, e: Event)
    requires Inv(s) && Enabled(s, e) && s.g.closed
    ensures Step(s, e).g.closed
  {
    hide StepOf, CanGo, LockView, LoopView, CallView, ChanView, Tagged, Table, Distinct;
    if e.Go? {
      assert Local(s.g, e.t, At(s, e.t));
      WaiterTagged(s, e.t);
      StepKeeps(s.g, e.t, At(s, e.t), e.x);
    }
  }

  lemma {:induction false} DoomedForever(s: State, es: seq<Event>, t: Tid)
    requires Inv(s) && Feasible(s, es) && Doomed(s, t)
    ensures Doomed(Run(s, es), t)
    decreases |es|
  {
    hide Inv, Enabled, Step, Doomed;
    if es != [] {
      StepInv(s, es[0]);
      DoomedStep(s, es[0], t);
      DoomedForever(Step(s, es[0]), es[1..], t);
    }
  }

  lemma Extend(s: State, es: seq<Event>, t: Tid) returns (fs: seq<Event>)
    requires Feasible(s, es) && Run(s, es).g.fault.None? && CanGo(Run(s, es).g, At(Run(s, es), t), WELL)
    ensures Feasible(s, fs)
    ensures var n := StepOf(Run(s, es).g, t, At(Run(s, es), t), WELL); Run(s, fs).g == n.g && At(Run(s, fs), t) == n.pc
  {
    hide Feasible, Run, StepOf, CanGo;
    FeasibleSnoc(s, es, Go(t, WELL));
    fs := es + [Go(t, WELL)];
  }

  /** From the top of the loop to the dial, with attempts left and nobody holding the lock. */
  lemma GoesOnToDial(s: State, t: Tid) returns (es: seq<Event>)
    requires s.g.fault.None? && s.g.closed && At(s, t) == LoopTop(Return) && LockFree(s.g)
    requires !LimitReached(s.g) && s.g.recvs == map[]
    ensures Feasible(s, es) && At(Run(s, es), t).Dialing?
  {
    es := [];
    EmptyRun(s);
    hide Feasible, Run;
    es := Extend(s, es, t);
    es := Extend(s, es, t);
    assert At(Run(s, es), t) == Clear(Return);
    es := Extend(s, es, t);
    es := Extend(s, es, t);
  }

  /** A closed client goes on dialling: a loop at its top in a closed client can get to a dial
      exactly when it has attempts left; with none left it panics on closing the client again. */
  lemma ClosedClientDialsIff(s: State, t: Tid)
    requires Reachable(s) && s.g.fault.None? && s.g.closed && At(s, t) == LoopTop(Return) && LockFree(s.g)
    ensures (exists es :: Feasible(s, es) && At(Run(s, es), t).Dialing?) <==> !LimitReached(s.g)
  {
    hide Feasible, Run, Inv, Reachable;
    ReachableInv(s);
    if LimitReached(s.g) {
      forall es | Feasible(s, es) ensures !At(Run(s, es), t).Dialing? {
        DoomedForever(s, es, t);
      }
    } else {
      ReceiversNeedReaders(s);
      var es := GoesOnToDial(s, t);
    }
  }

  /** That happens: the client is closed while a loop is at its top. */
  lemma ClosedClientLoops(max: int) returns (s: State)
    ensures Reachable(s) && s.g.fault.None? && s.g.closed && At(s, 2) == LoopTop(Return) && LockFree(s.g)
    ensures !LimitReached(s.g)
  {
    hide Reachable;
    s := Initially(max);
    s := Begin(s, 2, Reconnect);
    s := Take(s, 2, WELL);
    s := Begin(s, 1, CloseClient);
    s := Take(s, 1, WELL);
  }
}
