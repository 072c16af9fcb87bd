/** What a call of the client comes to over a whole run: when a write panics, what every call has
    done by the time it returns, and where an answer comes from. */
module ClientCalls {
  import opened Bytes
  import opened Client
  import opened ClientSafety
  import opened ClientRuns
  import opened ClientReplies

  // --------------------------------------------------- connections close once

  predicate OpenConn(g: Shared, c: ConnId) {
    c in g.conns && !g.conns[c].closed
  }

  /** The event closes connection `c`: it fails, or a goroutine closes it as the current one. */
  predicate Shuts(s: State, e: Event, c: ConnId) {
    || (e.ConnFails? && e.c == c)
    || (e.Go? && At(s, e.t).ConnClose? && s.g.conn == Some(c))
  }

  ghost predicate ShutDuring(s: State, es: seq<Event>, c: ConnId)
    requires Feasible(s, es)
    decreases |es|
  {
    es != [] && (Shuts(s, es[0], c) || ShutDuring(Step(s, es[0]), es[1..], c))
  }

  /** What a step may do to connection `c`. */
  predicate ConnKept(g: Shared, g': Shared, c: ConnId, shuts: bool)
    requires c in g.conns
  {
    c in g'.conns && (g'.conns[c].closed <==> g.conns[c].closed || shuts)
  }

  lemma SendConns(g: Shared, t: Tid, pc: Pc, x: Choice, c: ConnId)
    requires CanGo(g, pc, x) && c in g.conns
    ensures InSend(pc) ==> ConnKept(g, StepSend(g, t, pc, x).g, c, false)
    ensures InPing(pc) ==> ConnKept(g, StepPing(g, t, pc, x).g, c, false)
  {
  }

  lemma RecvConns(g: Shared, t: Tid, pc: Pc, x: Choice, c: ConnId)
    requires CanGo(g, pc, x) && c in g.conns
    ensures InRecv(pc) ==> ConnKept(g, StepRecv(g, t, pc, x).g, c, false)
    ensures InPong(pc) ==> ConnKept(g, StepPong(g, pc, x).g, c, false)
  {
  }

  lemma LoopConns(g: Shared, t: Tid, pc: Pc, x: Choice, c: ConnId)
    requires CanGo(g, pc, x) && c in g.conns
    ensures InControl(pc) ==> ConnKept(g, StepLoop(g, t, pc).g, c, false)
    ensures InDial(pc) ==> ConnKept(g, StepDial(g, t, pc, x).g, c, false)
    ensures InClose(pc) ==> ConnKept(g, StepClose(g, t, pc).g, c, pc.ConnClose? && g.conn == Some(c))
  {
  }

  lemma GoConns(g: Shared, t: Tid, pc: Pc, x: Choice, c: ConnId)
    requires CanGo(g, pc, x) && c in g.conns
    ensures ConnKept(g, StepOf(g, t, pc, x).g, c, pc.ConnClose? && g.conn == Some(c))
  {
    hide StepSend, StepRecv, StepLoop, StepDial, StepClose, StepPing, StepPong, ConnKept;
    if InSend(pc) || InPing(pc) {
      SendConns(g, t, pc, x, c);
    } else if InControl(pc) || InDial(pc) || InClose(pc) {
      LoopConns(g, t, pc, x, c);
    } else {
      RecvConns(g, t, pc, x, c);
    }
  }

  lemma ConnOpenStep(s: State, e: Event, c: ConnId)
    requires Enabled(s, e) && c in s.g.conns
    ensures c in Step(s, e).g.conns
    ensures OpenConn(Step(s, e).g, c) <==> OpenConn(s.g, c) && !Shuts(s, e, c)
  {
    hide StepOf, CanGo;
    if e.Go? {
      GoStep(s, e.t, e.x);
      GoConns(s.g, e.t, At(s, e.t), e.x, c);
    }
  }

  /** A connection is open after a run exactly when it was before and no event has closed it. */
  lemma {:induction false} OpenUnlessShut(s: State, es: seq<Event>, c: ConnId)
    requires Feasible(s, es) && c in s.g.conns
    ensures c in Run(s, es).g.conns
    ensures OpenConn(Run(s, es).g, c) <==> OpenConn(s.g, c) && !ShutDuring(s, es, c)
    decreases |es|
  {
    hide Enabled, Step, Shuts, OpenConn;
    if es != [] {
      ConnOpenStep(s, es[0], c);
      OpenUnlessShut(Step(s, es[0]), es[1..], c);
    }
  }

  // ------------------------------------------------------- the check before a send

  /** The goroutine is about to look whether the connection is closed before it writes. */
  predicate Checks(pc: Pc) {
    pc.DoCheck? || pc.PingCheck? || pc.PongWrite?
  }

  predicate Sends(pc: Pc) {
    pc.DoSend? || pc.PingSend? || pc.PongSend?
  }

  /** Where a write that is refused goes on: with an error, never with a panic. */
  function Refused(pc: Pc): Pc
    requires Checks(pc)
  {
    match pc
    case DoCheck(k, _, _) => DoUnlock(k, Error)
    case PingCheck(_, _) => PingUnlock(false)
    case PongWrite => Idle
  }

  /** Where it goes on if it passes. */
  function Passed(pc: Pc, c: ConnId): Pc
    requires Checks(pc)
  {
    match pc
    case DoCheck(k, _, n) => DoSend(k, c, n)
    case PingCheck(_, n) => PingSend(c, n)
    case PongWrite => PongSend(c)
  }

  lemma CheckStep(g: Shared, t: Tid, pc: Pc, x: Choice)
    requires CanGo(g, pc, x) && Checks(pc) && Connected(g)
    ensures var n := StepOf(g, t, pc, x);
            && n.g == g
            && n.pc == if OpenConn(g, g.conn.value) && x.ok then Passed(pc, g.conn.value) else Refused(pc)
  {
    hide StepRecv, StepLoop, StepDial, StepClose;
  }

  /** In every run, a write on a closed connection is refused without a panic, and one on an open
      connection passes unless the packet cannot be encoded. */
  lemma CheckIff(s: State, t: Tid, x: Choice)
    requires Reachable(s) && Enabled(s, Go(t, x)) && Checks(At(s, t))
    ensures !At(s, t).PongWrite? ==> Connected(s.g)
    ensures var s1 := Step(s, Go(t, x));
            Connected(s.g) ==>
              && s1.g == s.g
              && At(s1, t) == if OpenConn(s.g, s.g.conn.value) && x.ok then Passed(At(s, t), s.g.conn.value)
                              else Refused(At(s, t))
  {
    hide Reachable, StepOf, CanGo, LockView, LoopView, ChanView, Table, Distinct, Passed, Refused;
    ReachableInv(s);
    assert Local(s.g, t, At(s, t));
    GoStep(s, t, x);
    if Connected(s.g) {
      CheckStep(s.g, t, At(s, t), x);
    }
  }

  /** Goroutine `t` takes no step. */
  predicate Still(es: seq<Event>, t: Tid) {
    forall i :: 0 <= i < |es| ==> !(es[i].Go? && es[i].t == t)
  }

  lemma {:induction false} StaysPut(s: State, es: seq<Event>, t: Tid)
    requires Feasible(s, es) && Still(es, t) && !At(s, t).Idle?
    ensures At(Run(s, es), t) == At(s, t)
    decreases |es|
  {
    hide StepOf, CanGo;
    if es != [] {
      assert !(es[0].Go? && es[0].t == t);
      StaysPut(Step(s, es[0]), es[1..], t);
    }
  }

  lemma SendStep(g: Shared, t: Tid, pc: Pc, x: Choice)
    requires CanGo(g, pc, x) && Sends(pc) && g.fault.None?
    ensures StepOf(g, t, pc, x).g.fault == Some(SendOnClosedQueue) <==> !OpenConn(g, pc.c)
  {
    hide StepRecv, StepLoop, StepDial, StepClose;
  }

  /** Whoever sends has just passed a check on an open connection. */
  lemma SendsAfterCheck(g: Shared, t: Tid, pc: Pc, x: Choice)
    requires CanGo(g, pc, x) && Sends(StepOf(g, t, pc, x).pc) && !Sends(pc)
    ensures Checks(pc) && Connected(g) && OpenConn(g, g.conn.value)
  {
    if InSend(pc) || InPing(pc) {
      hide StepRecv, StepLoop, StepDial, StepClose, StepPong;
    } else {
      hide StepSend, StepPing;
    }
  }

  /** A write that has passed its check panics on sending exactly when an event between check and
      send has closed its connection, which was open at the check. */
  lemma SendFaultIff(s: State, t: Tid, x: Choice, es: seq<Event>, y: Choice)
    requires Reachable(s) && Enabled(s, Go(t, x)) && !Sends(At(s, t)) && Sends(At(Step(s, Go(t, x)), t))
    requires var s1 := Step(s, Go(t, x));
             Feasible(s1, es) && Still(es, t) && Enabled(Run(s1, es), Go(t, y))
    ensures Checks(At(s, t)) && Connected(s.g) && OpenConn(s.g, s.g.conn.value)
    ensures var s1 := Step(s, Go(t, x));
            Step(Run(s1, es), Go(t, y)).g.fault == Some(SendOnClosedQueue)
            <==> ShutDuring(s1, es, s.g.conn.value)
  {
    hide Reachable, StepOf, CanGo, Feasible, Run, ShutDuring, Still, Checks;
    var s1, pc := Step(s, Go(t, x)), At(s, t);
    GoStep(s, t, x);
    SendsAfterCheck(s.g, t, pc, x);
    CheckStep(s.g, t, pc, x);
    PassedSends(pc, s.g.conn.value);
    var c, s2 := s.g.conn.value, Run(s1, es);
    StaysPut(s1, es, t);
    OpenUnlessShut(s1, es, c);
    GoStep(s2, t, y);
    SendStep(s2.g, t, At(s2, t), y);
  }

  lemma PassedSends(pc: Pc, c: ConnId)
    requires Checks(pc)
    ensures Sends(Passed(pc, c)) && Passed(pc, c).c == c && !Sends(Refused(pc))
  {
  }

  // ---------------------------------------------- what a call has done when it returns

  /** What a step of `pc` settles: it asks to reconnect; it writes to an open connection; a ping is
      skipped because a loop is active or there is no connection; an answer to a ping is not wanted,
      cannot be encoded, or finds the connection closed. */
  predicate Settles(g: Shared, pc: Pc, x: Choice) {
    || pc == RcWait(Return)
    || Writes(g, pc, x)
    || (pc.PingDraw? && (g.reconnecting || !Connected(g)))
    || (pc.PongCheck? && !x.ok)
    || (pc.PongWrite? && (!x.ok || (Connected(g) && g.conns[g.conn.value].closed)))
  }

  predicate Writes(g: Shared, pc: Pc, x: Choice) {
    Sends(pc) && OpenConn(g, pc.c) && (x.ok || pc.PongSend?)
  }

  /** Places from which the goroutine may not return before it has settled something: on the way to
      reconnecting behind the server's close, or in a ping or an answer that is not yet written. */
  predicate Owes(pc: Pc) {
    || pc.ServerLock? || pc.ServerLeave? || pc == ConnClose(ServerUnlock) || pc == RcWait(ServerUnlock)
    || pc == RcWait(Return)
    || pc.PingLock? || pc.PingDraw? || pc.PingCheck? || pc.PingSend? || pc == PingUnlock(false)
    || InPong(pc)
  }

  lemma OwesStep(g: Shared, t: Tid, pc: Pc, x: Choice)
    requires LockView(g, t, pc) && CanGo(g, pc, x) && Owes(pc)
    ensures Owes(StepOf(g, t, pc, x).pc) || Settles(g, pc, x)
  {
    if InPing(pc) || InPong(pc) {
      hide StepSend, StepRecv, StepLoop, StepDial, StepClose;
    } else {
      hide StepSend, StepRecv, StepDial, StepPing, StepPong;
    }
  }

  ghost predicate SettlesIn(s: State, es: seq<Event>, t: Tid)
    requires Feasible(s, es)
    decreases |es|
  {
    && es != []
    && ((es[0].Go? && es[0].t == t && Settles(s.g, At(s, t), es[0].x)) || SettlesIn(Step(s, es[0]), es[1..], t))
  }

  /** Behind the server's close and behind a ping that could not be sent the client asks to
      reconnect before it returns; a ping is sent unless a loop is active or there is no connection;
      a server's ping is answered unless that is refused. */
  lemma {:induction false} EveryCallSettles(s: State, es: seq<Event>, t: Tid)
    requires Inv(s) && Feasible(s, es) && Owes(At(s, t)) && At(Run(s, es), t).Idle?
    ensures SettlesIn(s, es, t)
    decreases |es|
  {
    hide Inv, Enabled, Step, Settles, StepOf, Owes;
    assert Owes(Idle) == false by { IdleOwesNothing(); }
    if es != [] {
      var e := es[0];
      StepInv(s, e);
      OwesOn(s, e, t);
      if !(e.Go? && e.t == t && Settles(s.g, At(s, t), e.x)) {
        EveryCallSettles(Step(s, e), es[1..], t);
      }
    }
  }

  lemma IdleOwesNothing()
    ensures !Owes(Idle)
  {
  }

  lemma OwesOn(s: State, e: Event, t: Tid)
    requires Inv(s) && Enabled(s, e) && Owes(At(s, t))
    ensures Owes(At(Step(s, e), t)) || (e.Go? && e.t == t && Settles(s.g, At(s, t), e.x))
  {
    hide StepOf, CanGo, LockView, LoopView, CallView, ChanView, Table, Distinct, Settles;
    assert Local(s.g, t, At(s, t));
    if e.Go? && e.t == t {
      GoStep(s, t, e.x);
      OwesStep(s.g, t, At(s, t), e.x);
    }
  }

  /** A connection that is lost makes the client ask to reconnect, unless the client is closed. */
  lemma LossAsks(s: State, t: Tid, c: ConnId, es: seq<Event>)
    requires Inv(s) && Enabled(s, ConnFails(t, c)) && Feasible(Step(s, ConnFails(t, c)), es)
    ensures var s1 := Step(s, ConnFails(t, c));
            && !OpenConn(s1.g, c)
            && (s.g.closed ==> At(s1, t).Idle?)
            && (!s.g.closed && At(Run(s1, es), t).Idle? ==> SettlesIn(s1, es, t))
  {
    hide Inv, Feasible, Run, SettlesIn;
    StepInv(s, ConnFails(t, c));
    var s1 := Step(s, ConnFails(t, c));
    if !s.g.closed && At(Run(s1, es), t).Idle? {
      EveryCallSettles(s1, es, t);
    }
  }

  // ------------------------------------------------------------ requests and answers

  predicate Draws(pc: Pc) {
    pc.DoDraw? || pc.PingDraw?
  }

  lemma DrawStep(g: Shared, t: Tid, pc: Pc, x: Choice)
    requires CanGo(g, pc, x) && Draws(pc) && Connected(g) && (pc.PingDraw? ==> !g.reconnecting)
    ensures var n, c := StepOf(g, t, pc, x), g.conn.value;
            && n.g == g.(conns := g.conns[c := Conn(g.conns[c].closed, g.conns[c].draws + 1)])
            && (x.ok ==> (n.pc.DoCheck? || n.pc.PingCheck?) && n.pc.c == c && n.pc.n == g.conns[c].draws + 1)
            && (!x.ok ==> n.pc == if pc.DoDraw? then DoUnlock(pc.k, Error) else PingUnlock(false))
            && (x.ok && pc.DoDraw? ==> n.pc.DoCheck? && n.pc.k == pc.k)
  {
    hide StepRecv, StepLoop, StepDial, StepClose, StepPong;
  }

  /** Building a packet uses up the next id of the current connection, whether or not it succeeds;
      a packet that cannot be built is not sent. */
  lemma DrawsNextId(s: State, t: Tid, x: Choice)
    requires Reachable(s) && Enabled(s, Go(t, x)) && Draws(At(s, t)) && Connected(s.g)
    requires At(s, t).PingDraw? ==> !s.g.reconnecting
    ensures var s1, c := Step(s, Go(t, x)), s.g.conn.value;
            && c in s1.g.conns && s1.g.conns[c].draws == s.g.conns[c].draws + 1
            && (if x.ok then Calls(At(s1, t)) && At(s1, t).c == c && At(s1, t).n == s.g.conns[c].draws + 1
                else At(s1, t) == if At(s, t).DoDraw? then DoUnlock(At(s, t).k, Error) else PingUnlock(false))
  {
    hide Reachable, StepOf, CanGo;
    GoStep(s, t, x);
    DrawStep(s.g, t, At(s, t), x);
  }

  lemma RegistersAfterWrite(g: Shared, t: Tid, pc: Pc, x: Choice)
    requires CanGo(g, pc, x) && StepOf(g, t, pc, x).pc.DoRegister? && !pc.DoRegister?
    ensures pc.DoSend? && Writes(g, pc, x)
  {
    if InSend(pc) {
      hide StepRecv, StepLoop, StepDial, StepClose, StepPing, StepPong;
    } else {
      hide StepSend;
    }
  }

  ghost predicate WritesIn(s: State, es: seq<Event>, t: Tid)
    requires Feasible(s, es)
    decreases |es|
  {
    && es != []
    && ((es[0].Go? && es[0].t == t && Writes(s.g, At(s, t), es[0].x)) || WritesIn(Step(s, es[0]), es[1..], t))
  }

  /** A request waits for an answer only if it has been written to an open connection. */
  lemma {:induction false} RegisteredMeansWritten(s: State, es: seq<Event>, t: Tid)
    requires Feasible(s, es) && !At(s, t).DoRegister? && At(Run(s, es), t).DoRegister?
    ensures WritesIn(s, es, t)
    decreases |es|
  {
    hide StepOf, CanGo, Writes;
    if es != [] {
      var e := es[0];
      if At(Step(s, e), t).DoRegister? {
        assert e.Go? && e.t == t;
        GoStep(s, t, e.x);
        RegistersAfterWrite(s.g, t, At(s, t), e.x);
      } else {
        RegisteredMeansWritten(Step(s, e), es[1..], t);
      }
    }
  }

  /** What the request has got so far: a buffered packet or a reply. */
  predicate Got(g: Shared, pc: Pc, ch: ChanId, m: Msg) {
    || (ch in g.chans && g.chans[ch].buf == Some(m))
    || ((pc.DoDelete? || pc.DoFree?) && pc.reply == Answer(m))
  }

  lemma GotStep(g: Shared, t: Tid, pc: Pc, x: Choice, ch: ChanId, m: Msg)
    requires CanGo(g, pc, x) && Uses(pc, ch) && Uses(StepOf(g, t, pc, x).pc, ch)
    requires Got(StepOf(g, t, pc, x).g, StepOf(g, t, pc, x).pc, ch, m)
    ensures Got(g, pc, ch, m)
  {
    hide StepSend, StepLoop, StepDial, StepClose, StepPing, StepPong;
  }

  lemma OthersGive(g: Shared, t: Tid, pc: Pc, x: Choice, ch: ChanId)
    requires CanGo(g, pc, x) && ch in g.chans
    ensures ch in StepOf(g, t, pc, x).g.chans
    ensures StepOf(g, t, pc, x).g.chans[ch].buf == g.chans[ch].buf || StepOf(g, t, pc, x).g.chans[ch].buf.None?
  {
    hide StepSend, StepRecv, StepLoop, StepDial, StepClose, StepPing, StepPong, CanGo;
    if InRecv(pc) {
      RecvGives(g, t, pc, x, ch);
    } else if pc.Clear? {
      ClearGives(g, t, pc, x, ch);
    } else {
      TableQuiet(g, t, pc, x);
    }
  }

  lemma RecvGives(g: Shared, t: Tid, pc: Pc, x: Choice, ch: ChanId)
    requires CanGo(g, pc, x) && ch in g.chans && InRecv(pc)
    ensures var g' := StepRecv(g, t, pc, x).g;
            ch in g'.chans && (g'.chans[ch].buf == g.chans[ch].buf || g'.chans[ch].buf.None?)
  {
  }

  lemma ClearGives(g: Shared, t: Tid, pc: Pc, x: Choice, ch: ChanId)
    requires ch in g.chans && pc.Clear?
    ensures var g' := StepDial(g, t, pc, x).g; ch in g'.chans && g'.chans[ch].buf == g.chans[ch].buf
  {
  }

  lemma GotBefore(s: State, e: Event, t: Tid, ch: ChanId, m: Msg)
    requires Inv(s) && Enabled(s, e) && Uses(At(s, t), ch) && Uses(At(Step(s, e), t), ch)
    requires Got(Step(s, e).g, At(Step(s, e), t), ch, m)
    ensures Got(s.g, At(s, t), ch, m) || e == Deliver(m)
  {
    hide StepOf, CanGo, LockView, LoopView, CallView, Table, Distinct;
    assert Local(s.g, t, At(s, t));
    if e.Go? {
      GoStep(s, e.t, e.x);
      if e.t == t {
        GotStep(s.g, t, At(s, t), e.x, ch, m);
      } else {
        OthersGive(s.g, e.t, At(s, e.t), e.x, ch);
      }
    }
  }

  lemma {:induction false} GotWasDelivered(s: State, es: seq<Event>, t: Tid, ch: ChanId, m: Msg)
    requires Inv(s) && Feasible(s, es) && Throughout(s, es, t, ch) && Got(Run(s, es).g, At(Run(s, es), t), ch, m)
    ensures Got(s.g, At(s, t), ch, m) || Deliver(m) in es
    decreases |es|
  {
    hide Inv, Enabled, Step, Got, Uses;
    if es != [] {
      var e := es[0];
      StepInv(s, e);
      assert Throughout(Step(s, e), es[1..], t, ch);
      GotWasDelivered(Step(s, e), es[1..], t, ch, m);
      if Deliver(m) in es[1..] {
        assert Deliver(m) in es;
      } else {
        GotBefore(s, e, t, ch, m);
        assert e in es;
      }
    }
  }

  lemma RegisterGets(g: Shared, t: Tid, pc: Pc, x: Choice, m: Msg)
    requires CanGo(g, pc, x) && pc.DoRegister?
    ensures var n := StepOf(g, t, pc, x); Uses(n.pc, x.id) && !Got(n.g, n.pc, x.id, m)
  {
    hide StepSend, StepLoop, StepDial, StepClose, StepPing, StepPong;
  }

  /** An answer that a request returns has arrived since the request registered. */
  lemma AnswerWasDelivered(s: State, t: Tid, x: Choice, es: seq<Event>)
    requires Reachable(s) && Enabled(s, Go(t, x)) && At(s, t).DoRegister?
    requires var s1 := Step(s, Go(t, x)); Feasible(s1, es) && Throughout(s1, es, t, x.id)
    ensures var pc := At(Run(Step(s, Go(t, x)), es), t);
            (pc.DoDelete? || pc.DoFree?) && pc.reply.Answer? ==> Deliver(pc.reply.msg) in es
  {
    hide Reachable, Inv, StepOf, CanGo, Feasible, Run, Throughout;
    var s1 := Step(s, Go(t, x));
    var pc := At(Run(s1, es), t);
    ReachableInv(s);
    StepInv(s, Go(t, x));
    GoStep(s, t, x);
    LastUses(s1, es, t, x.id);
    if (pc.DoDelete? || pc.DoFree?) && pc.reply.Answer? {
      RegisterGets(s.g, t, At(s, t), x, pc.reply.msg);
      GotWasDelivered(s1, es, t, x.id, pc.reply.msg);
    }
  }

  lemma {:induction false} LastUses(s: State, es: seq<Event>, t: Tid, ch: ChanId)
    requires Feasible(s, es) && Throughout(s, es, t, ch)
    ensures Uses(At(Run(s, es), t), ch)
    decreases |es|
  {
    hide Enabled, Step, Uses;
    if es != [] {
      assert Throughout(Step(s, es[0]), es[1..], t, ch);
      LastUses(Step(s, es[0]), es[1..], t, ch);
    }
  }

  /** How many steps a request that has its reply is away from returning it. */
  function StepsLeft(pc: Pc): nat {
    if pc.DoDelete? then 2 else if pc.DoFree? then 1 else 0
  }

  predicate HasReply(pc: Pc, k: Cont, r: Reply) {
    (pc.DoDelete? || pc.DoFree? || pc.DoUnlock?) && pc.k == k && pc.reply == r
  }

  lemma ReplyStep(g: Shared, t: Tid, pc: Pc, x: Choice, k: Cont, r: Reply)
    requires CanGo(g, pc, x) && HasReply(pc, k, r) && StepsLeft(pc) > 0
    requires StepOf(g, t, pc, x).g.fault.None?
    ensures HasReply(StepOf(g, t, pc, x).pc, k, r) && StepsLeft(StepOf(g, t, pc, x).pc) == StepsLeft(pc) - 1
  {
    hide StepSend, StepLoop, StepDial, StepClose, StepPing, StepPong;
  }

  /** The reply a request has taken is the one it returns, whatever happens meanwhile. */
  lemma {:induction false} ReplyIsReturned(s: State, es: seq<Event>, t: Tid, k: Cont, r: Reply)
    requires Feasible(s, es) && HasReply(At(s, t), k, r) && Run(s, es).g.fault.None?
    requires OwnSteps(es, t) == StepsLeft(At(s, t))
    ensures At(Run(s, es), t) == DoUnlock(k, r)
    decreases |es|
  {
    hide StepOf, CanGo;
    if es != [] {
      var e := es[0];
      if e.Go? && e.t == t {
        GoStep(s, t, e.x);
        FaultStays(s, es);
        ReplyStep(s.g, t, At(s, t), e.x, k, r);
      }
      ReplyIsReturned(Step(s, e), es[1..], t, k, r);
    }
  }

  /** Nothing happens behind a fault. */
  lemma FaultStays(s: State, es: seq<Event>)
    requires Feasible(s, es) && es != [] && Run(s, es).g.fault.None?
    ensures Step(s, es[0]).g.fault.None?
  {
    hide StepOf, CanGo, Step;
    var s1 := Step(s, es[0]);
    assert Run(s, es) == Run(s1, es[1..]);
    if es[1..] != [] {
      assert Enabled(s1, es[1..][0]);
    }
  }
}
