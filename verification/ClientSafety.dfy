/** What holds in every reachable state of the client, whatever the interleaving. */
module ClientSafety {
  import opened Bytes
  import opened Client

  // --------------------------------------------------------------- invariants

  predicate HoldsRead(pc: Pc) {
    || pc.DoDraw? || pc.DoCheck? || pc.DoSend? || pc.DoRegister? || pc.DoWait? || pc.DoDelete? || pc.DoFree?
    || pc.DoUnlock? || pc.CloseLeave? || pc.ServerLeave?
    || pc.PingDraw? || pc.PingCheck? || pc.PingSend? || pc.PingUnlock?
    || ((pc.ConnClose? || pc.RcWait?) && (pc.k.CloseUnlock? || pc.k.ServerUnlock?))
  }

  predicate WantsWrite(pc: Pc) {
    pc.RcWait? || pc.DialWait? || pc.LoopDone?
  }

  /** The goroutine is inside the reconnect loop, possibly in a call made from it. */
  predicate InLoop(pc: Pc) {
    || pc.LoopTop? || pc.Clear? || pc.DialWait? || pc.Dialing? || pc.LoopDone?
    || (InDo(pc) && (pc.k.LoopAuth? || pc.k.LoopResume?))
    || ((pc.ConnClose? || pc.RcWait?) && (pc.k.LoopClear? || pc.k == CloseUnlock(LoopEnd(Return))))
    || ((pc.CloseMark? || pc.CloseLock? || pc.CloseLeave?) && pc.k.LoopEnd?)
  }

  /** The call stacks that occur. There is no loop within a loop, and whoever waits to reconnect
      from within closing a connection does so for the server's close or from the loop itself. */
  predicate Shape(pc: Pc) {
    && (InDo(pc) ==> pc.k == Return || pc.k == LoopAuth(Return) || pc.k == LoopResume(Return))
    && (pc.LoopTop? || pc.Clear? || pc.DialWait? || pc.Dialing? || pc.LoopDone? ==> pc.k == Return)
    && (pc.RcWait? ==> pc.k == Return || pc.k == LoopClear(Return) || pc.k == ServerUnlock)
    && (pc.ConnClose? ==> pc.k == LoopClear(Return) || pc.k == CloseUnlock(Return)
                          || pc.k == CloseUnlock(LoopEnd(Return)) || pc.k == ServerUnlock)
    && (pc.CloseMark? || pc.CloseLock? || pc.CloseLeave? ==> pc.k == Return || pc.k == LoopEnd(Return))
  }

  /** The goroutine has drawn id number `n` of connection `c` and still uses it. */
  predicate Calls(pc: Pc) {
    pc.DoCheck? || pc.DoSend? || pc.DoRegister? || pc.DoWait? || pc.DoDelete? || pc.DoFree?
    || pc.PingCheck? || pc.PingSend?
  }

  /** The goroutine's channel may be in the receiver table. */
  predicate Listens(pc: Pc) {
    pc.DoWait? || pc.DoDelete?
  }

  /** An iteration of the loop is under way and has not dialled yet. */
  predicate BeforeDial(pc: Pc) {
    pc.Clear? || pc.DialWait? || ((pc.ConnClose? || pc.RcWait?) && pc.k.LoopClear?)
  }

  predicate Closing(pc: Pc) {
    pc.CloseLock? || pc.CloseLeave? || (pc.ConnClose? && pc.k.CloseUnlock?)
  }

  // What is known about one goroutine `t` standing at `pc`.

  predicate LockView(g: Shared, t: Tid, pc: Pc) {
    && (t in g.readers <==> HoldsRead(pc))
    && (g.writer == Some(t) <==> pc.Dialing?)
  }

  predicate LoopView(g: Shared, t: Tid, pc: Pc) {
    && Shape(pc)
    && (InLoop(pc) <==> g.owner == Some(t))
    && (Closing(pc) ==> g.closed)
    && (BeforeDial(pc) ==> g.attempts < g.reconnectCount)
  }

  predicate CallView(g: Shared, pc: Pc) {
    && (Calls(pc) ==> g.conn == Some(pc.c) && pc.c in g.conns && 1 <= pc.n <= g.conns[pc.c].draws)
    && (pc.PongSend? ==> pc.c in g.conns)
  }

  predicate ChanView(g: Shared, t: Tid, pc: Pc) {
    && (Listens(pc) || pc.DoFree? ==>
          pc.ch in g.chans && g.chans[pc.ch].owner == t && g.chans[pc.ch].id == IdOf(pc.n))
    && (pc.DoDelete? || pc.DoFree? ==>
          && (pc.reply.Nil? ==> !g.chans[pc.ch].open)
          && (pc.reply.Answer? ==> pc.reply.msg.requestId == IdOf(pc.n)))
    && (pc.DoUnlock? ==> !pc.reply.Nil?)
  }

  predicate Local(g: Shared, t: Tid, pc: Pc) {
    LockView(g, t, pc) && LoopView(g, t, pc) && CallView(g, pc) && ChanView(g, t, pc)
  }

  // What is known about the shared state.

  predicate Global(g: Shared) {
    && (g.writer.Some? ==> g.readers == {})
    && (g.reconnecting <==> g.owner.Some?)
    && (g.conn.Some? ==> g.conn.value in g.conns)
    && g.attempts <= g.reconnectCount
    && (g.maxReconnect > 0 ==> g.reconnectCount <= g.maxReconnect)
  }

  /** No two goroutines use the same drawn number. */
  ghost predicate Distinct(s: State) {
    forall t: Tid, u: Tid :: t != u && Calls(At(s, t)) && Calls(At(s, u)) ==> At(s, t).n != At(s, u).n
  }

  /** The receiver table: every channel in it is open, filed under its own id, and listened to by
      the goroutine that made it. A buffered packet has the channel's id. */
  ghost predicate Table(s: State) {
    && (forall i :: i in s.g.recvs ==> Entry(s, i))
    && (forall ch :: ch in s.g.chans ==> Tagged(s.g.chans[ch]))
  }

  predicate Entry(s: State, i: uint32)
    requires i in s.g.recvs
  {
    && s.g.recvs[i] in s.g.chans
    && var x := s.g.chans[s.g.recvs[i]];
       x.open && x.id == i && Listens(At(s, x.owner)) && At(s, x.owner).ch == s.g.recvs[i]
  }

  predicate Tagged(x: Chan) {
    x.buf.Some? ==> x.buf.value.requestId == x.id
  }

  ghost predicate Inv(s: State) {
    (forall t: Tid :: Local(s.g, t, At(s, t))) && Global(s.g) && Distinct(s) && Table(s)
  }

  lemma InitInv(s: State)
    requires Init(s)
    ensures Inv(s)
  {
  }

  // ---------------------------------------------------- what a step leaves alone

  /** What every other goroutine can rely on when `t` takes a step. */
  ghost predicate Frame(g: Shared, g': Shared, t: Tid) {
    && g'.readers - {t} == g.readers - {t}
    && (forall u: Tid :: u != t ==> (g'.writer == Some(u) <==> g.writer == Some(u)))
    && (forall u: Tid :: u != t ==> (g'.owner == Some(u) <==> g.owner == Some(u)))
    && (g.closed ==> g'.closed)
    && (g.owner == Some(t) || (g'.attempts == g.attempts && g'.reconnectCount == g.reconnectCount))
    && (g'.conn == g.conn || g.writer == Some(t))
    && (forall c :: c in g.conns ==> c in g'.conns && g.conns[c].draws <= g'.conns[c].draws)
    && (forall ch :: ch in g.chans ==>
          && ch in g'.chans
          && g'.chans[ch].owner == g.chans[ch].owner && g'.chans[ch].id == g.chans[ch].id
          && (!g.chans[ch].open ==> !g'.chans[ch].open))
  }

  lemma OthersKeepLocks(g: Shared, g': Shared, t: Tid, u: Tid, pc: Pc)
    requires Global(g) && Frame(g, g', t) && u != t && Local(g, u, pc)
    ensures LockView(g', u, pc) && LoopView(g', u, pc)
  {
    hide Shape, CallView, ChanView;
    assert u in g'.readers <==> u in g'.readers - {t};
    assert u in g.readers <==> u in g.readers - {t};
  }

  lemma OthersKeepCalls(g: Shared, g': Shared, t: Tid, u: Tid, pc: Pc)
    requires Global(g) && Frame(g, g', t) && u != t && LockView(g, u, pc) && CallView(g, pc)
    ensures CallView(g', pc)
  {
    assert Calls(pc) ==> HoldsRead(pc);
  }

  lemma OthersKeepChans(g: Shared, g': Shared, t: Tid, u: Tid, pc: Pc)
    requires Global(g) && Frame(g, g', t) && u != t && Local(g, u, pc)
    ensures CallView(g', pc) && ChanView(g', u, pc)
  {
    hide LoopView, LockView, CallView, Global;
    OthersKeepCalls(g, g', t, u, pc);
  }

  lemma SendFrame(g: Shared, t: Tid, pc: Pc, x: Choice)
    requires Local(g, t, pc) && Global(g) && InSend(pc) && CanGo(g, pc, x)
    ensures Frame(g, StepSend(g, t, pc, x).g, t)
  {
  }

  lemma SendLocks(g: Shared, t: Tid, pc: Pc, x: Choice)
    requires Local(g, t, pc) && Global(g) && InSend(pc) && CanGo(g, pc, x)
    ensures var n := StepSend(g, t, pc, x); LockView(n.g, t, n.pc) && LoopView(n.g, t, n.pc) && Global(n.g)
  {
    hide ChanView;
  }

  lemma SendChans(g: Shared, t: Tid, pc: Pc, x: Choice)
    requires Local(g, t, pc) && Global(g) && InSend(pc) && CanGo(g, pc, x)
    ensures var n := StepSend(g, t, pc, x); CallView(n.g, n.pc) && ChanView(n.g, t, n.pc)
  {
    hide LoopView;
  }

  lemma RecvFrame(g: Shared, t: Tid, pc: Pc, x: Choice)
    requires Local(g, t, pc) && Global(g) && InRecv(pc) && CanGo(g, pc, x)
    ensures Frame(g, StepRecv(g, t, pc, x).g, t)
  {
  }

  lemma RecvLocks(g: Shared, t: Tid, pc: Pc, x: Choice)
    requires Local(g, t, pc) && Global(g) && InRecv(pc) && CanGo(g, pc, x)
    ensures var n := StepRecv(g, t, pc, x); LockView(n.g, t, n.pc) && Global(n.g)
  {
    hide ChanView, LoopView;
  }

  lemma RecvLoop(g: Shared, t: Tid, pc: Pc, x: Choice)
    requires Local(g, t, pc) && Global(g) && InRecv(pc) && CanGo(g, pc, x)
    ensures var n := StepRecv(g, t, pc, x); LoopView(n.g, t, n.pc)
  {
    hide ChanView, CallView, LockView;
  }

  lemma RecvChans(g: Shared, t: Tid, pc: Pc, x: Choice)
    requires Local(g, t, pc) && Global(g) && InRecv(pc) && CanGo(g, pc, x)
    requires pc.DoWait? ==> Tagged(g.chans[pc.ch])
    ensures var n := StepRecv(g, t, pc, x); CallView(n.g, n.pc) && ChanView(n.g, t, n.pc)
  {
    hide LoopView;
  }

  lemma LoopFrame(g: Shared, t: Tid, pc: Pc, x: Choice)
    requires Local(g, t, pc) && Global(g) && InControl(pc) && CanGo(g, pc, x)
    ensures Frame(g, StepLoop(g, t, pc).g, t)
  {
  }

  lemma LoopLocks(g: Shared, t: Tid, pc: Pc, x: Choice)
    requires Local(g, t, pc) && Global(g) && InControl(pc) && CanGo(g, pc, x)
    ensures var n := StepLoop(g, t, pc); LockView(n.g, t, n.pc) && LoopView(n.g, t, n.pc) && Global(n.g)
  {
    hide ChanView;
  }

  lemma LoopChans(g: Shared, t: Tid, pc: Pc, x: Choice)
    requires Local(g, t, pc) && Global(g) && InControl(pc) && CanGo(g, pc, x)
    ensures var n := StepLoop(g, t, pc); CallView(n.g, n.pc) && ChanView(n.g, t, n.pc)
  {
    hide LoopView;
  }

  lemma ClearFrame(g: Shared, t: Tid, pc: Pc, x: Choice)
    requires pc.Clear?
    ensures Frame(g, StepDial(g, t, pc, x).g, t)
  {
  }

  lemma SwapFrame(g: Shared, t: Tid, pc: Pc, x: Choice)
    requires LockView(g, t, pc) && Global(g) && LoopView(g, t, pc) && CanGo(g, pc, x) && (pc.DialWait? || pc.Dialing?)
    ensures Frame(g, StepDial(g, t, pc, x).g, t)
  {
    hide Shape;
  }

  lemma DialFrame(g: Shared, t: Tid, pc: Pc, x: Choice)
    requires Local(g, t, pc) && Global(g) && InDial(pc) && CanGo(g, pc, x)
    ensures Frame(g, StepDial(g, t, pc, x).g, t)
  {
    hide Frame, StepDial, Global, CanGo, LockView, LoopView, CallView, ChanView;
    if pc.Clear? {
      ClearFrame(g, t, pc, x);
    } else {
      SwapFrame(g, t, pc, x);
    }
  }

  lemma DialLocks(g: Shared, t: Tid, pc: Pc, x: Choice)
    requires Local(g, t, pc) && Global(g) && InDial(pc) && CanGo(g, pc, x)
    ensures var n := StepDial(g, t, pc, x); LockView(n.g, t, n.pc) && LoopView(n.g, t, n.pc) && Global(n.g)
  {
    hide ChanView;
  }

  lemma DialChans(g: Shared, t: Tid, pc: Pc, x: Choice)
    requires Local(g, t, pc) && Global(g) && InDial(pc) && CanGo(g, pc, x)
    ensures var n := StepDial(g, t, pc, x); CallView(n.g, n.pc) && ChanView(n.g, t, n.pc)
  {
    hide LoopView;
  }

  lemma CloseFrame(g: Shared, t: Tid, pc: Pc, x: Choice)
    requires Local(g, t, pc) && Global(g) && InClose(pc) && CanGo(g, pc, x)
    ensures Frame(g, StepClose(g, t, pc).g, t)
  {
  }

  lemma CloseLocks(g: Shared, t: Tid, pc: Pc, x: Choice)
    requires Local(g, t, pc) && Global(g) && InClose(pc) && CanGo(g, pc, x)
    ensures var n := StepClose(g, t, pc); LockView(n.g, t, n.pc) && Global(n.g)
  {
    hide ChanView, CallView;
  }

  lemma CloseLoop(g: Shared, t: Tid, pc: Pc, x: Choice)
    requires Local(g, t, pc) && Global(g) && InClose(pc) && CanGo(g, pc, x)
    ensures LoopView(StepClose(g, t, pc).g, t, StepClose(g, t, pc).pc)
  {
    hide ChanView, CallView, LockView;
  }

  lemma CloseChans(g: Shared, t: Tid, pc: Pc, x: Choice)
    requires Local(g, t, pc) && Global(g) && InClose(pc) && CanGo(g, pc, x)
    ensures var n := StepClose(g, t, pc); CallView(n.g, n.pc) && ChanView(n.g, t, n.pc)
  {
    hide LoopView;
  }

  lemma PingFrame(g: Shared, t: Tid, pc: Pc, x: Choice)
    requires Local(g, t, pc) && Global(g) && InPing(pc) && CanGo(g, pc, x)
    ensures Frame(g, StepPing(g, t, pc, x).g, t)
  {
  }

  lemma PingLocks(g: Shared, t: Tid, pc: Pc, x: Choice)
    requires Local(g, t, pc) && Global(g) && InPing(pc) && CanGo(g, pc, x)
    ensures var n := StepPing(g, t, pc, x); LockView(n.g, t, n.pc) && Global(n.g)
  {
    hide ChanView, CallView, LoopView;
  }

  lemma PingLoop(g: Shared, t: Tid, pc: Pc, x: Choice)
    requires Local(g, t, pc) && Global(g) && InPing(pc) && CanGo(g, pc, x)
    ensures var n := StepPing(g, t, pc, x); LoopView(n.g, t, n.pc)
  {
    hide ChanView, CallView, LockView;
  }

  lemma PingChans(g: Shared, t: Tid, pc: Pc, x: Choice)
    requires Local(g, t, pc) && Global(g) && InPing(pc) && CanGo(g, pc, x)
    ensures var n := StepPing(g, t, pc, x); CallView(n.g, n.pc) && ChanView(n.g, t, n.pc)
  {
    hide LoopView;
  }

  lemma PongStep(g: Shared, pc: Pc, x: Choice)
    requires Global(g) && InPong(pc) && CanGo(g, pc, x)
    ensures var n := StepPong(g, pc, x);
            && n.g == g.(fault := n.g.fault)
            && (n.pc.Idle? || InPong(n.pc)) && (n.pc.PongSend? ==> n.pc.c in g.conns)
  {
  }

  lemma PongKeeps(g: Shared, t: Tid, pc: Pc, x: Choice)
    requires Local(g, t, pc) && Global(g) && InPong(pc) && CanGo(g, pc, x)
    ensures var n := StepPong(g, pc, x); Frame(g, n.g, t) && Local(n.g, t, n.pc) && Global(n.g)
  {
    hide Shape, Frame, StepPong, CanGo;
    var n := StepPong(g, pc, x);
    PongStep(g, pc, x);
    FaultFrame(g, n.g.fault, t);
    PongShape(n.pc);
  }

  lemma FaultFrame(g: Shared, f: Option<Fault>, t: Tid)
    ensures Frame(g, g.(fault := f), t)
  {
  }

  lemma PongShape(pc: Pc)
    requires pc.Idle? || InPong(pc)
    ensures Shape(pc)
  {
  }

  /** A step of one goroutine keeps what is known about it and what the others rely on. */
  lemma StepKeeps(g: Shared, t: Tid, pc: Pc, x: Choice)
    requires Local(g, t, pc) && Global(g) && CanGo(g, pc, x)
    requires pc.DoWait? ==> Tagged(g.chans[pc.ch])
    ensures var n := StepOf(g, t, pc, x); Frame(g, n.g, t) && Local(n.g, t, n.pc) && Global(n.g)
  {
    hide StepSend, StepRecv, StepLoop, StepDial, StepClose, StepPing, StepPong;
    hide Frame, LockView, LoopView, CallView, ChanView, Global, Tagged;
    if InSend(pc) {
      SendFrame(g, t, pc, x);
      SendLocks(g, t, pc, x);
      SendChans(g, t, pc, x);
    } else if InRecv(pc) {
      RecvFrame(g, t, pc, x);
      RecvLocks(g, t, pc, x);
      RecvLoop(g, t, pc, x);
      RecvChans(g, t, pc, x);
    } else if InControl(pc) {
      LoopFrame(g, t, pc, x);
      LoopLocks(g, t, pc, x);
      LoopChans(g, t, pc, x);
    } else if InDial(pc) {
      DialFrame(g, t, pc, x);
      DialLocks(g, t, pc, x);
      DialChans(g, t, pc, x);
    } else if InClose(pc) {
      CloseFrame(g, t, pc, x);
      CloseLocks(g, t, pc, x);
      CloseLoop(g, t, pc, x);
      CloseChans(g, t, pc, x);
    } else if InPing(pc) {
      PingFrame(g, t, pc, x);
      PingLocks(g, t, pc, x);
      PingLoop(g, t, pc, x);
      PingChans(g, t, pc, x);
    } else {
      PongKeeps(g, t, pc, x);
    }
  }

  // ------------------------------------------------------- numbers and channels

  /** A goroutine keeps the number it has drawn, or draws one larger than all before. */
  lemma NumberStep(g: Shared, t: Tid, pc: Pc, x: Choice)
    requires CanGo(g, pc, x) && Calls(StepOf(g, t, pc, x).pc)
    ensures var n := StepOf(g, t, pc, x).pc.n;
            (Calls(pc) && n == pc.n) || (Connected(g) && n == g.conns[g.conn.value].draws + 1)
  {
    if InDo(pc) {
      hide StepLoop, StepDial, StepClose, StepPing, StepPong;
    } else {
      hide StepSend, StepRecv;
    }
  }

  lemma DistinctKept(s: State, t: Tid, x: Choice)
    requires Inv(s) && Enabled(s, Go(t, x))
    ensures Distinct(Step(s, Go(t, x)))
  {
    hide StepOf, Table, CanGo, LockView, LoopView, ChanView;
    var s' := Step(s, Go(t, x));
    assert forall u: Tid :: u != t ==> At(s', u) == At(s, u);
    forall u: Tid, v: Tid | u != v && Calls(At(s', u)) && Calls(At(s', v)) ensures At(s', u).n != At(s', v).n {
      assert Local(s.g, u, At(s, u)) && Local(s.g, v, At(s, v));
      if u == t || v == t {
        NumberStep(s.g, t, At(s, t), x);
      }
    }
  }

  /** Only recv and the clearing of the table touch receivers. */
  lemma TableQuiet(g: Shared, t: Tid, pc: Pc, x: Choice)
    requires CanGo(g, pc, x) && !InRecv(pc) && !pc.Clear?
    ensures var n := StepOf(g, t, pc, x); n.g.recvs == g.recvs && n.g.chans == g.chans
  {
    if InSend(pc) || InPing(pc) {
      hide StepSend, StepPing, StepRecv, StepLoop, StepDial, StepClose, StepPong;
      if InSend(pc) {
        SendQuiet(g, t, pc, x);
      } else {
        PingQuiet(g, t, pc, x);
      }
    } else {
      hide StepSend, StepRecv, StepPing, StepLoop, StepDial, StepClose;
      LoopQuiet(g, t, pc, x);
    }
  }

  lemma SendQuiet(g: Shared, t: Tid, pc: Pc, x: Choice)
    requires CanGo(g, pc, x) && InSend(pc)
    ensures StepSend(g, t, pc, x).g.recvs == g.recvs && StepSend(g, t, pc, x).g.chans == g.chans
  {
  }

  lemma PingQuiet(g: Shared, t: Tid, pc: Pc, x: Choice)
    requires CanGo(g, pc, x) && InPing(pc)
    ensures StepPing(g, t, pc, x).g.recvs == g.recvs && StepPing(g, t, pc, x).g.chans == g.chans
  {
  }

  lemma LoopQuiet(g: Shared, t: Tid, pc: Pc, x: Choice)
    ensures InControl(pc) ==> StepLoop(g, t, pc).g.recvs == g.recvs && StepLoop(g, t, pc).g.chans == g.chans
    ensures InClose(pc) ==> StepClose(g, t, pc).g.recvs == g.recvs && StepClose(g, t, pc).g.chans == g.chans
    ensures InDial(pc) && !pc.Clear? ==>
              StepDial(g, t, pc, x).g.recvs == g.recvs && StepDial(g, t, pc, x).g.chans == g.chans
  {
  }

  /** Every entry after a step of recv is new, or was there before and its listener still listens. */
  lemma RecvEntry(g: Shared, t: Tid, pc: Pc, x: Choice, i: uint32)
    requires InRecv(pc) && CanGo(g, pc, x) && ChanView(g, t, pc)
    requires i in StepRecv(g, t, pc, x).g.recvs
    ensures var n := StepRecv(g, t, pc, x);
            || (pc.DoRegister? && n.g.recvs[i] == x.id && n.g.chans[x.id] == Chan(true, None, i, t)
                && n.pc.DoWait? && n.pc.ch == x.id)
            || (i in g.recvs && n.g.recvs[i] == g.recvs[i]
                && (Listens(pc) ==> i != IdOf(pc.n) || (n.pc.DoDelete? && n.pc.ch == pc.ch)))
    ensures forall ch :: ch in g.chans && (pc.DoFree? ==> ch != pc.ch) ==>
              ch in StepRecv(g, t, pc, x).g.chans && StepRecv(g, t, pc, x).g.chans[ch].open == g.chans[ch].open
  {
  }

  lemma RecvTagged(g: Shared, t: Tid, pc: Pc, x: Choice)
    requires InRecv(pc) && CanGo(g, pc, x) && forall ch :: ch in g.chans ==> Tagged(g.chans[ch])
    ensures forall ch :: ch in StepRecv(g, t, pc, x).g.chans ==> Tagged(StepRecv(g, t, pc, x).g.chans[ch])
  {
  }

  lemma TableKept(s: State, t: Tid, x: Choice)
    requires Inv(s) && Enabled(s, Go(t, x))
    ensures Table(Step(s, Go(t, x)))
  {
    hide StepOf, StepRecv, CanGo, Distinct, LockView, LoopView, CallView, Tagged, Global;
    var pc, n := At(s, t), StepOf(s.g, t, At(s, t), x);
    var s' := Step(s, Go(t, x));
    assert Local(s.g, t, pc);
    if pc.Clear? {
      ClearTable(s.g, t, pc, x);
    } else if InRecv(pc) {
      assert n == StepRecv(s.g, t, pc, x) by { RecvStep(s.g, t, pc, x); }
      RecvTagged(s.g, t, pc, x);
      forall i | i in s'.g.recvs ensures Entry(s', i) {
        RecvEntry(s.g, t, pc, x, i);
        StepKeeps(s.g, t, pc, x);
        if i in s.g.recvs {
          assert Entry(s, i);
        }
      }
    } else {
      TableQuiet(s.g, t, pc, x);
      forall i | i in s'.g.recvs ensures Entry(s', i) {
        assert Entry(s, i);
      }
    }
  }

  lemma RecvStep(g: Shared, t: Tid, pc: Pc, x: Choice)
    requires InRecv(pc) && CanGo(g, pc, x)
    ensures StepOf(g, t, pc, x) == StepRecv(g, t, pc, x)
  {
    hide StepRecv;
  }

  lemma ClearTable(g: Shared, t: Tid, pc: Pc, x: Choice)
    requires pc.Clear? && CanGo(g, pc, x)
    requires forall i :: i in g.recvs ==> !Broken(g, i)
    requires forall ch :: ch in g.chans ==> Tagged(g.chans[ch])
    ensures var n := StepOf(g, t, pc, x);
            n.g.recvs == map[] && n.g.fault == g.fault && forall ch :: ch in n.g.chans ==> Tagged(n.g.chans[ch])
  {
  }

  // ------------------------------------------------------------- every step

  lemma GoKeeps(s: State, t: Tid, x: Choice)
    requires Inv(s) && Enabled(s, Go(t, x))
    ensures Inv(Step(s, Go(t, x)))
  {
    hide StepOf, CanGo, LockView, LoopView, CallView, ChanView, Frame, Global, Distinct, Tagged;
    var s' := Step(s, Go(t, x));
    assert Local(s.g, t, At(s, t));
    assert At(s, t).DoWait? ==> Tagged(s.g.chans[At(s, t).ch]) by { ListensOnChannel(s.g, t, At(s, t)); }
    StepKeeps(s.g, t, At(s, t), x);
    forall u: Tid ensures Local(s'.g, u, At(s', u)) {
      if u != t {
        assert At(s', u) == At(s, u);
        OthersKeepLocks(s.g, s'.g, t, u, At(s, u));
        OthersKeepChans(s.g, s'.g, t, u, At(s, u));
      }
    }
    DistinctKept(s, t, x);
    TableKept(s, t, x);
  }

  lemma ListensOnChannel(g: Shared, t: Tid, pc: Pc)
    requires Local(g, t, pc)
    ensures Listens(pc) ==> pc.ch in g.chans
  {
  }

  lemma StartKeeps(s: State, t: Tid, job: Job)
    requires Inv(s) && Enabled(s, Start(t, job))
    ensures Inv(Step(s, Start(t, job)))
  {
    hide Shape, Tagged;
    var s' := Step(s, Start(t, job));
    assert forall u: Tid :: u != t ==> At(s', u) == At(s, u);
    EntryShape(job);
  }

  lemma EntryShape(job: Job)
    ensures var pc := EntryOf(job); Shape(pc) && !InLoop(pc) && !Closing(pc) && !BeforeDial(pc) && !HoldsRead(pc)
  {
  }

  /** A connection that closes itself. */
  function Closes(g: Shared, c: ConnId): Shared
    requires c in g.conns
  {
    g.(conns := g.conns[c := g.conns[c].(closed := true)])
  }

  lemma ClosesFrame(g: Shared, c: ConnId, t: Tid)
    requires c in g.conns && Global(g)
    ensures Frame(g, Closes(g, c), t) && Global(Closes(g, c))
  {
  }

  lemma ConnFailsKeeps(s: State, t: Tid, c: ConnId)
    requires Inv(s) && Enabled(s, ConnFails(t, c))
    ensures Inv(Step(s, ConnFails(t, c)))
  {
    hide Shape, Tagged, Frame, Global;
    var s' := Step(s, ConnFails(t, c));
    assert s'.g == Closes(s.g, c);
    assert forall u: Tid :: u != t ==> At(s', u) == At(s, u);
    ClosesFrame(s.g, c, t);
    forall u: Tid ensures Local(s'.g, u, At(s', u)) {
      assert Local(s.g, u, At(s, u));
      if u != t {
        hide LockView, LoopView, CallView, ChanView;
        OthersKeepLocks(s.g, s'.g, t, u, At(s, u));
        OthersKeepChans(s.g, s'.g, t, u, At(s, u));
      } else {
        EntryShape(Reconnect);
        PongShape(Idle);
      }
    }
    assert Table(s') by {
      forall i | i in s'.g.recvs ensures Entry(s', i) {
        assert Entry(s, i);
      }
    }
  }

  lemma DispatchFrame(g: Shared, m: Msg, t: Tid)
    requires Global(g)
    ensures Frame(g, Dispatch(g, m), t) && Global(Dispatch(g, m))
  {
    var g' := Dispatch(g, m);
    assert g' == g.(chans := g'.chans, fault := g'.fault);
  }

  lemma DispatchTable(s: State, m: Msg)
    requires Table(s)
    ensures Table(s.(g := Dispatch(s.g, m))) && Dispatch(s.g, m).fault == s.g.fault
  {
    var s' := s.(g := Dispatch(s.g, m));
    assert forall u: Tid :: At(s', u) == At(s, u);
    assert m.requestId in s.g.recvs ==> Entry(s, m.requestId);
    forall i | i in s'.g.recvs ensures Entry(s', i) {
      assert Entry(s, i);
    }
  }

  /** A response is never sent on a closed channel. */
  lemma DeliverKeeps(s: State, m: Msg)
    requires Inv(s) && Enabled(s, Deliver(m))
    ensures Inv(Step(s, Deliver(m))) && Step(s, Deliver(m)).g.fault.None?
  {
    hide Dispatch, Table, Frame, Global, LockView, LoopView, CallView, ChanView;
    var s' := Step(s, Deliver(m));
    DispatchTable(s, m);
    assert forall u: Tid :: At(s', u) == At(s, u);
    DispatchFrame(s.g, m, 0);
    forall u: Tid ensures Local(s'.g, u, At(s', u)) {
      DispatchFrame(s.g, m, u + 1);
      OthersKeepLocks(s.g, s'.g, u + 1, u, At(s, u));
      OthersKeepChans(s.g, s'.g, u + 1, u, At(s, u));
    }
  }

  lemma ReceiverHoldsLock(s: State, i: uint32)
    requires Inv(s) && i in s.g.recvs
    ensures s.g.readers != {}
  {
    assert Entry(s, i);
    var t := s.g.chans[s.g.recvs[i]].owner;
    assert Local(s.g, t, At(s, t));
    assert t in s.g.readers;
  }
}
