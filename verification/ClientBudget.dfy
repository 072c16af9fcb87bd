/** The budget of the reconnect loop is exact: what a resumed session gives back, how often the loop
    tries before it gives up, and which ping keepalive remembers. */
module ClientBudget {
  import opened Bytes
  import opened Client
  import opened ClientSafety
  import opened ClientRuns
  import opened ClientCalls

  // ------------------------------------------------------------- a resumed session

  lemma ResumeStep(g: Shared, t: Tid, pc: Pc, x: Choice)
    requires CanGo(g, pc, x) && pc.DoUnlock? && pc.k.LoopResume? && StepOf(g, t, pc, x).pc.LoopDone?
    ensures var g' := StepOf(g, t, pc, x).g; g'.reconnectCount == 0 && g'.attempts == 0 && g'.lastKeepaliveId == 0
  {
    hide StepSend, StepLoop, StepDial, StepClose, StepPing, StepPong;
  }

  /** A resumed session gives back every attempt and forgets the last ping. */
  lemma ResumeResets(s: State, e: Event)
    requires Enabled(s, e) && Resumes(s, e)
    ensures var g := Step(s, e).g; g.reconnectCount == 0 && g.attempts == 0 && g.lastKeepaliveId == 0
  {
    hide StepOf, CanGo;
    GoStep(s, e.t, e.x);
    ResumeStep(s.g, e.t, At(s, e.t), e.x);
  }

  // -------------------------------------------------------------- counting iterations

  /** The event begins an iteration of the loop. */
  predicate Iterates(s: State, e: Event) {
    e.Go? && At(s, e.t).LoopTop? && !LimitReached(s.g)
  }

  ghost function IterationsIn(s: State, es: seq<Event>): nat
    requires Feasible(s, es)
    decreases |es|
  {
    if es == [] then 0 else (if Iterates(s, es[0]) then 1 else 0) + IterationsIn(Step(s, es[0]), es[1..])
  }

  lemma SendCounts(g: Shared, t: Tid, pc: Pc, x: Choice)
    requires CanGo(g, pc, x)
    ensures InSend(pc) ==> StepSend(g, t, pc, x).g.reconnectCount == g.reconnectCount
    ensures InPing(pc) ==> StepPing(g, t, pc, x).g.reconnectCount == g.reconnectCount
  {
  }

  lemma RecvCounts(g: Shared, t: Tid, pc: Pc, x: Choice)
    requires CanGo(g, pc, x)
    ensures InRecv(pc) && !(pc.DoUnlock? && pc.k.LoopResume? && StepRecv(g, t, pc, x).pc.LoopDone?) ==>
              StepRecv(g, t, pc, x).g.reconnectCount == g.reconnectCount
    ensures InPong(pc) ==> StepPong(g, pc, x).g.reconnectCount == g.reconnectCount
  {
  }

  lemma LoopCounts(g: Shared, t: Tid, pc: Pc, x: Choice)
    ensures InControl(pc) ==>
              StepLoop(g, t, pc).g.reconnectCount == g.reconnectCount + if pc.LoopTop? && !LimitReached(g) then 1 else 0
    ensures InDial(pc) ==> StepDial(g, t, pc, x).g.reconnectCount == g.reconnectCount
    ensures InClose(pc) ==> StepClose(g, t, pc).g.reconnectCount == g.reconnectCount
  {
  }

  lemma CountStep(g: Shared, t: Tid, pc: Pc, x: Choice)
    requires CanGo(g, pc, x) && !(pc.DoUnlock? && pc.k.LoopResume? && StepOf(g, t, pc, x).pc.LoopDone?)
    ensures StepOf(g, t, pc, x).g.reconnectCount == g.reconnectCount + if pc.LoopTop? && !LimitReached(g) then 1 else 0
  {
    hide StepSend, StepRecv, StepLoop, StepDial, StepClose, StepPing, StepPong, LimitReached;
    if InSend(pc) || InPing(pc) {
      SendCounts(g, t, pc, x);
    } else if InControl(pc) || InDial(pc) || InClose(pc) {
      LoopCounts(g, t, pc, x);
    } else {
      RecvCounts(g, t, pc, x);
    }
  }

  lemma {:induction false} IterationsAreCounted(s: State, es: seq<Event>)
    requires Feasible(s, es) && NoResume(s, es)
    ensures Run(s, es).g.reconnectCount == s.g.reconnectCount + IterationsIn(s, es)
    decreases |es|
  {
    hide StepOf, CanGo, LimitReached;
    if es != [] {
      var e := es[0];
      if e.Go? {
        GoStep(s, e.t, e.x);
        CountStep(s.g, e.t, At(s, e.t), e.x);
      }
      IterationsAreCounted(Step(s, e), es[1..]);
    }
  }

  lemma TopStep(g: Shared, t: Tid, pc: Pc, x: Choice)
    requires CanGo(g, pc, x) && pc.LoopTop?
    ensures StepOf(g, t, pc, x).pc == if LimitReached(g) then CloseMark(LoopEnd(pc.k)) else ConnClose(LoopClear(pc.k))
  {
  }

  /** From a state with all attempts left, the initial one or one behind a resumed session: the loop
      gives up and closes the client exactly when it has made as many iterations as the limit allows
      since, over however many loops. */
  lemma GivesUpIff(s: State, es: seq<Event>, t: Tid, x: Choice)
    requires Reachable(s) && s.g.reconnectCount == 0 && Feasible(s, es) && NoResume(s, es)
    requires At(Run(s, es), t).LoopTop? && Enabled(Run(s, es), Go(t, x))
    ensures At(Step(Run(s, es), Go(t, x)), t).CloseMark?
            <==> s.g.maxReconnect > 0 && IterationsIn(s, es) == s.g.maxReconnect
  {
    hide Reachable, Feasible, Run, NoResume, StepOf, CanGo, LockView, LoopView, CallView, ChanView, Table, Distinct;
    var s2 := Run(s, es);
    ReachableInv(s);
    DialsAreCounted(s, es);
    IterationsAreCounted(s, es);
    GoStep(s2, t, x);
    TopStep(s2.g, t, At(s2, t), x);
  }

  // ------------------------------------------------------ every attempt can be made

  lemma {:induction false} RunSnoc(s: State, es: seq<Event>, e: Event)
    requires Feasible(s, es) && NoResume(s, es) && Enabled(Run(s, es), e) && !Resumes(Run(s, es), e)
    ensures Feasible(s, es + [e]) && NoResume(s, es + [e]) && Run(s, es + [e]) == Step(Run(s, es), e)
    ensures DialsIn(s, es + [e]) == DialsIn(s, es) + if Dials(Run(s, es), e) then 1 else 0
    decreases |es|
  {
    hide Enabled, Step, Resumes, Dials;
    if es == [] {
      assert es + [e] == [e] && [e][1..] == [];
      assert Feasible(Step(s, e), []) && NoResume(Step(s, e), []) && DialsIn(Step(s, e), []) == 0;
    } else {
      RunSnoc(Step(s, es[0]), es[1..], e);
      assert (es + [e])[1..] == es[1..] + [e];
    }
  }

  /** The next step of goroutine `t`, in a run without a resumed session. */
  lemma Onward(s: State, es: seq<Event>, t: Tid, x: Choice) returns (fs: seq<Event>)
    requires Feasible(s, es) && NoResume(s, es) && Run(s, es).g.fault.None?
    requires CanGo(Run(s, es).g, At(Run(s, es), t), x) && !At(Run(s, es), t).DoUnlock?
    ensures Feasible(s, fs) && NoResume(s, fs)
    ensures var s1 := Run(s, es);
            var n := StepOf(s1.g, t, At(s1, t), x);
            Run(s, fs).g == n.g && At(Run(s, fs), t) == n.pc
    ensures DialsIn(s, fs) == DialsIn(s, es) + if At(Run(s, es), t).DialWait? then 1 else 0
  {
    hide Feasible, Run, NoResume, DialsIn, StepOf, CanGo;
    RunSnoc(s, es, Go(t, x));
    fs := es + [Go(t, x)];
    GoStep(Run(s, es), t, x);
  }

  /** A loop at its top that nothing stands in the way of. */
  predicate AtTop(s: State, t: Tid) {
    && s.g.fault.None? && At(s, t) == LoopTop(Return) && LockFree(s.g) && s.g.recvs == map[] && s.g.reconnecting
    && (s.g.conn.Some? ==> s.g.conn.value in s.g.conns)
  }

  lemma {:induction false} FreshName(names: set<nat>) returns (n: nat)
    ensures n !in names
  {
    var bound := Bound(names);
    n := bound + 1;
  }

  lemma {:induction false} Bound(names: set<nat>) returns (b: nat)
    ensures forall n :: n in names ==> n <= b
    decreases |names|
  {
    b := 0;
    if names != {} {
      var m :| m in names;
      b := Bound(names - {m});
      forall n | n in names ensures n <= if b < m then m else b {
        assert n == m || n in names - {m};
      }
      b := if b < m then m else b;
    }
  }

  /** From the top to the place behind closing the old connection. */
  lemma ToClear(s: State, es: seq<Event>, t: Tid, x: Choice) returns (fs: seq<Event>)
    requires Feasible(s, es) && NoResume(s, es) && AtTop(Run(s, es), t) && !LimitReached(Run(s, es).g)
    ensures Feasible(s, fs) && NoResume(s, fs) && DialsIn(s, fs) == DialsIn(s, es)
    ensures var g, g' := Run(s, es).g, Run(s, fs).g;
            && At(Run(s, fs), t) == Clear(Return)
            && g' == g.(reconnectCount := g.reconnectCount + 1, conns := g'.conns) && g'.conns.Keys == g.conns.Keys
  {
    hide Feasible, Run, NoResume, DialsIn;
    fs := Onward(s, es, t, x);
    fs := Onward(s, fs, t, x);
    if At(Run(s, fs), t).RcWait? {
      fs := Onward(s, fs, t, x);
    }
  }

  /** And on through a dial that fails back to the top. */
  lemma FailDial(s: State, es: seq<Event>, t: Tid, x: Choice) returns (fs: seq<Event>)
    requires Feasible(s, es) && NoResume(s, es) && At(Run(s, es), t) == Clear(Return)
    requires var g := Run(s, es).g;
             && g.fault.None? && LockFree(g) && g.recvs == map[] && g.reconnecting
             && x.id !in g.conns && x.path == DialFails
    ensures Feasible(s, fs) && NoResume(s, fs) && DialsIn(s, fs) == DialsIn(s, es) + 1
    ensures AtTop(Run(s, fs), t)
    ensures Run(s, fs).g.reconnectCount == Run(s, es).g.reconnectCount
            && Run(s, fs).g.maxReconnect == Run(s, es).g.maxReconnect
  {
    hide Feasible, Run, NoResume, DialsIn;
    fs := Onward(s, es, t, x);
    fs := Onward(s, fs, t, x);
    fs := Onward(s, fs, t, x);
  }

  /** All attempts that are left are used up by dials that fail. */
  lemma {:induction false} SpendAll(s: State, es: seq<Event>, t: Tid) returns (fs: seq<Event>)
    requires Feasible(s, es) && NoResume(s, es) && AtTop(Run(s, es), t)
    requires 0 <= Run(s, es).g.reconnectCount <= Run(s, es).g.maxReconnect && 0 < Run(s, es).g.maxReconnect
    ensures Feasible(s, fs) && NoResume(s, fs)
    ensures DialsIn(s, fs) == DialsIn(s, es) + Run(s, es).g.maxReconnect - Run(s, es).g.reconnectCount
    decreases Run(s, es).g.maxReconnect - Run(s, es).g.reconnectCount
  {
    hide Feasible, Run, NoResume, DialsIn;
    fs := es;
    if !LimitReached(Run(s, es).g) {
      var id := FreshName(Run(s, es).g.conns.Keys);
      var x := Choice(true, id, DialFails);
      fs := ToClear(s, fs, t, x);
      fs := FailDial(s, fs, t, x);
      fs := SpendAll(s, fs, t);
    }
  }

  /** From the end of the loop that resumed into the next one. */
  lemma NextLoop(s: State, t: Tid) returns (es: seq<Event>)
    requires s.g.fault.None? && At(s, t) == LoopDone(Return) && LockFree(s.g) && s.g.recvs == map[]
    requires s.g.conn.Some? ==> s.g.conn.value in s.g.conns
    ensures Feasible(s, es) && NoResume(s, es) && DialsIn(s, es) == 0 && AtTop(Run(s, es), t)
    ensures Run(s, es).g.reconnectCount == s.g.reconnectCount && Run(s, es).g.maxReconnect == s.g.maxReconnect
  {
    es := [];
    assert Feasible(s, es) && NoResume(s, es) && DialsIn(s, es) == 0 && Run(s, es) == s;
    hide Feasible, Run, NoResume, DialsIn;
    es := Onward(s, es, t, WELL);
    RunSnoc(s, es, Start(t, Reconnect));
    es := es + [Start(t, Reconnect)];
    assert At(Run(s, es), t) == RcWait(Return);
    es := Onward(s, es, t, WELL);
  }

  /** The limit is exact: behind a resumed session, with nobody holding the lock, there is a
      continuation without another resume that dials as often as the limit says. */
  lemma BudgetIsReached(s: State, e: Event)
    requires Reachable(s) && Enabled(s, e) && Resumes(s, e)
    requires LockFree(Step(s, e).g) && s.g.maxReconnect > 0
    ensures var s1 := Step(s, e);
            exists es :: Feasible(s1, es) && NoResume(s1, es) && DialsIn(s1, es) == s.g.maxReconnect
  {
    hide Reachable, Feasible, Run, NoResume, DialsIn, StepOf, CanGo, LockView, CallView, ChanView, Table, Distinct;
    hide AtTop;
    var s1 := Step(s, e);
    ReachableInv(s);
    StepInv(s, e);
    ReceiversNeedReaders(s1);
    ResumeResets(s, e);
    GoStep(s, e.t, e.x);
    AttemptsStep(s.g, e.t, At(s, e.t), e.x);
    assert Local(s1.g, e.t, At(s1, e.t));
    assert s1.g.fault.None? by { ResumeFaultless(s.g, e.t, At(s, e.t), e.x); }
    var es := NextLoop(s1, e.t);
    es := SpendAll(s1, es, e.t);
  }

  lemma ResumeFaultless(g: Shared, t: Tid, pc: Pc, x: Choice)
    requires CanGo(g, pc, x) && pc.DoUnlock? && StepOf(g, t, pc, x).pc.LoopDone? && g.fault.None?
    ensures StepOf(g, t, pc, x).g.fault.None?
  {
    hide StepSend, StepLoop, StepDial, StepClose, StepPing, StepPong;
  }

  // ------------------------------------------------------------ a session is resumed

  /** A loop whose dial succeeds asks to resume the session. */
  lemma Redialled(max: int) returns (s: State)
    ensures Reachable(s) && s.g.fault.None? && At(s, 2) == DoLock(LoopResume(Return)) && s.g.writer.None?
    ensures s.g.conn == Some(1) && 1 in s.g.conns && s.g.conns[1] == Conn(false, 0)
    ensures s.g.recvs == map[] && s.g.chans == map[] && s.g.readers == {}
  {
    hide Reachable;
    s := LoopBegun(max);
    s := Take(s, 2, WELL);
    s := Take(s, 2, WELL);
    s := Redial(s);
  }

  lemma Redial(s0: State) returns (s: State)
    requires Reachable(s0) && s0.g.fault.None? && At(s0, 2) == Clear(Return)
    requires LockFree(s0.g) && s0.g.recvs == map[] && s0.g.chans == map[] && 1 !in s0.g.conns
    ensures Reachable(s) && s.g.fault.None? && At(s, 2) == DoLock(LoopResume(Return)) && s.g.writer.None?
    ensures s.g.conn == Some(1) && 1 in s.g.conns && s.g.conns[1] == Conn(false, 0)
    ensures s.g.recvs == map[] && s.g.chans == map[] && s.g.readers == {}
  {
    hide Reachable;
    s := Take(s0, 2, WELL);
    assert s.g.chans == map[];
    s := Take(s, 2, WELL);
    s := Take(s, 2, WELL.(path := Resume));
  }

  lemma ResumeSent(max: int) returns (s: State)
    ensures Reachable(s) && s.g.fault.None? && At(s, 2) == DoRegister(LoopResume(Return), 1, 1)
    ensures s.g.recvs == map[] && s.g.chans == map[]
  {
    hide Reachable;
    s := Redialled(max);
    s := Take(s, 2, WELL);
    s := Take(s, 2, WELL);
    s := Take(s, 2, WELL);
    s := Take(s, 2, WELL);
  }

  lemma Answered(s0: State) returns (s: State)
    requires Reachable(s0) && s0.g.fault.None? && At(s0, 2) == DoRegister(LoopResume(Return), 1, 1)
    requires s0.g.recvs == map[] && s0.g.chans == map[]
    ensures Reachable(s) && s.g.fault.None? && At(s, 2) == DoWait(LoopResume(Return), 1, 1, 1)
    ensures s.g.chans == map[1 := Chan(true, Some(Msg(1, true)), 1, 2)]
  {
    hide Reachable;
    s := Take(s0, 2, WELL);
    assert s.g.chans == map[1 := Chan(true, None, 1, 2)] && s.g.recvs == map[1 := 1];
    s := Advance(s, Deliver(Msg(1, true)));
  }

  /** There is a run that resumes a session. */
  lemma ResumeHappens(max: int) returns (s: State)
    ensures Reachable(s) && Enabled(s, Go(2, WELL)) && Resumes(s, Go(2, WELL))
  {
    hide Reachable;
    s := ResumeSent(max);
    s := Answered(s);
    s := Take(s, 2, WELL);
    s := Take(s, 2, WELL);
    s := Take(s, 2, WELL);
    ResumesNow(s);
  }

  lemma ResumesNow(s: State)
    requires s.g.fault.None? && At(s, 2) == DoUnlock(LoopResume(Return), Answer(Msg(1, true)))
    ensures Enabled(s, Go(2, WELL)) && Resumes(s, Go(2, WELL))
  {
  }

  // ------------------------------------------------------------- the last ping's id

  predicate Pings(s: State, e: Event) {
    e.Go? && At(s, e.t).PingSend? && e.x.ok && OpenConn(s.g, At(s, e.t).c)
  }

  /** The id of the last ping sent since the last resume, or 0, starting from `id`. */
  ghost function LastPing(id: uint32, s: State, es: seq<Event>): uint32
    requires Feasible(s, es)
    decreases |es|
  {
    if es == [] then id
    else
      LastPing(if Resumes(s, es[0]) then 0 else if Pings(s, es[0]) then IdOf(At(s, es[0].t).n) else id,
               Step(s, es[0]), es[1..])
  }

  lemma CallsKeepPing(g: Shared, t: Tid, pc: Pc, x: Choice)
    requires CanGo(g, pc, x)
    ensures InSend(pc) ==> StepSend(g, t, pc, x).g.lastKeepaliveId == g.lastKeepaliveId
    ensures InRecv(pc) && !(pc.DoUnlock? && pc.k.LoopResume? && StepRecv(g, t, pc, x).pc.LoopDone?) ==>
              StepRecv(g, t, pc, x).g.lastKeepaliveId == g.lastKeepaliveId
    ensures InPong(pc) ==> StepPong(g, pc, x).g.lastKeepaliveId == g.lastKeepaliveId
  {
  }

  lemma LoopKeepsPing(g: Shared, t: Tid, pc: Pc, x: Choice)
    ensures InControl(pc) ==> StepLoop(g, t, pc).g.lastKeepaliveId == g.lastKeepaliveId
    ensures InDial(pc) ==> StepDial(g, t, pc, x).g.lastKeepaliveId == g.lastKeepaliveId
    ensures InClose(pc) ==> StepClose(g, t, pc).g.lastKeepaliveId == g.lastKeepaliveId
  {
  }

  lemma PingSets(g: Shared, t: Tid, pc: Pc, x: Choice)
    requires CanGo(g, pc, x) && InPing(pc)
    ensures StepPing(g, t, pc, x).g.lastKeepaliveId
         == if pc.PingSend? && x.ok && OpenConn(g, pc.c) then IdOf(pc.n) else g.lastKeepaliveId
  {
  }

  lemma PingIdStep(s: State, e: Event)
    requires Enabled(s, e)
    ensures Step(s, e).g.lastKeepaliveId
         == if Resumes(s, e) then 0 else if Pings(s, e) then IdOf(At(s, e.t).n) else s.g.lastKeepaliveId
  {
    hide StepSend, StepRecv, StepLoop, StepDial, StepClose, StepPing, StepPong, OpenConn;
    if Resumes(s, e) {
      ResumeResets(s, e);
    } else if e.Go? {
      var pc := At(s, e.t);
      GoStep(s, e.t, e.x);
      if InPing(pc) {
        PingSets(s.g, e.t, pc, e.x);
      } else if InControl(pc) || InDial(pc) || InClose(pc) {
        LoopKeepsPing(s.g, e.t, pc, e.x);
      } else {
        CallsKeepPing(s.g, e.t, pc, e.x);
      }
    }
  }

  /** Keepalive remembers the id of the last ping that was sent since the last resumed session. */
  lemma {:induction false} LastPingIsKept(s: State, es: seq<Event>)
    requires Feasible(s, es)
    ensures Run(s, es).g.lastKeepaliveId == LastPing(s.g.lastKeepaliveId, s, es)
    decreases |es|
  {
    hide Enabled, Step, Resumes, Pings;
    if es != [] {
      PingIdStep(s, es[0]);
      LastPingIsKept(Step(s, es[0]), es[1..]);
    }
  }
}
