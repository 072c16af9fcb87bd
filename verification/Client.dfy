/** The client as a state machine over its goroutines. Each goroutine runs one of the client's
    operations; a step is the code between two lock operations, channel operations or network
    calls. A panic of the original is an explicit fault, after which nothing happens. */
module Client {
  import opened Bytes

  type Tid = nat
  type ConnId = nat
  type ChanId = nat

  const ID_SPACE := 0x1_0000_0000

  /** What is left to do when the current call returns: the call stack above it. */
  datatype Cont =
    | Return
    | LoopClear(k: Cont)   // in reconnect, behind closing the old connection
    | LoopEnd(k: Cont)     // in reconnecting, behind Close
    | LoopAuth(k: Cont)    // in reconnect, behind the auth request
    | LoopResume(k: Cont)  // in reconnectDial, behind the resume request
    | CloseUnlock(k: Cont) // in Close, behind closing the connection
    | ServerUnlock         // in closeByServer, behind closing the connection

  /** A response packet: its request id, and whether it reports success. */
  datatype Msg = Msg(requestId: uint32, good: bool)

  /** What recv returns: a packet, the nil of a closed channel, or an error. */
  datatype Reply = Answer(msg: Msg) | Nil | Error

  /** Where a goroutine stands. `n` is the number of the id drawn from connection `c`. */
  datatype Pc =
    | Idle
    // Do
    | DoLock(k: Cont)
    | DoDraw(k: Cont)
    | DoCheck(k: Cont, c: ConnId, n: nat)
    | DoSend(k: Cont, c: ConnId, n: nat)
    | DoRegister(k: Cont, c: ConnId, n: nat)
    | DoWait(k: Cont, c: ConnId, n: nat, ch: ChanId)
    | DoDelete(k: Cont, c: ConnId, n: nat, ch: ChanId, reply: Reply)
    | DoFree(k: Cont, c: ConnId, n: nat, ch: ChanId, reply: Reply)
    | DoUnlock(k: Cont, reply: Reply)
    // reconnecting, reconnect, dial
    | RcWait(k: Cont)
    | LoopTop(k: Cont)
    | Clear(k: Cont)
    | DialWait(k: Cont)
    | Dialing(k: Cont)
    | LoopDone(k: Cont)
    // conn.Close on the current connection
    | ConnClose(k: Cont)
    // Close
    | CloseMark(k: Cont)
    | CloseLock(k: Cont)
    | CloseLeave(k: Cont)
    // closeByServer
    | ServerLock
    | ServerLeave
    // the ping of keepalive
    | PingLock
    | PingDraw
    | PingCheck(c: ConnId, n: nat)
    | PingSend(c: ConnId, n: nat)
    | PingUnlock(ok: bool)
    // the answer to a server's ping, sent without any lock
    | PongCheck
    | PongBuild
    | PongWrite
    | PongSend(c: ConnId)

  datatype Conn = Conn(closed: bool, draws: nat)

  /** A response channel of capacity one, made by `owner` for request `id`. */
  datatype Chan = Chan(open: bool, buf: Option<Msg>, id: uint32, owner: Tid)

  datatype Fault =
    | NilConnection        // Do without a connection
    | SendOnClosedQueue    // write to the queue of a closed connection
    | SendOnClosedReceiver // handleResponse on a closed channel
    | ClearClosedReceiver  // reconnect closes a channel already closed
    | FreeClosedReceiver   // recv closes a channel already closed
    | NilReply             // Do looks into a missing reply
    | CloseTwice           // closeCh closed a second time

  /** What the goroutines share. */
  datatype Shared = Shared(
    maxReconnect: int,
    writer: Option<Tid>,
    readers: set<Tid>,
    conn: Option<ConnId>,
    conns: map<ConnId, Conn>,
    closed: bool,
    recvs: map<uint32, ChanId>,
    chans: map<ChanId, Chan>,
    reconnecting: bool,
    reconnectCount: nat,
    lastKeepaliveId: uint32,
    fault: Option<Fault>,
    // history
    owner: Option<Tid>,  // the goroutine in the reconnect loop
    attempts: nat)       // dial attempts since the last resumed session

  datatype State = State(g: Shared, threads: map<Tid, Pc>)

  function At(s: State, t: Tid): Pc {
    if t in s.threads then s.threads[t] else Idle
  }

  function IdOf(n: nat): uint32 {
    n % ID_SPACE
  }

  // -------------------------------------------------------------- transitions

  /** How a dial inside the reconnect loop ends and what follows it. */
  datatype Path = DialFails | NoAuth | TokenFails | Reauth | Resume

  /** What the environment decides in a step: whether it goes well, which new name is used for a
      channel or a connection, how a dial ends. */
  datatype Choice = Choice(ok: bool, id: nat, path: Path)

  /** The shared state and the goroutine's place after a step. */
  datatype Next = Next(g: Shared, pc: Pc)

  function After(k: Cont): Pc {
    match k
    case LoopClear(k') => Clear(k')
    case LoopEnd(k') => LoopDone(k')
    case CloseUnlock(k') => CloseLeave(k')
    case ServerUnlock => ServerLeave
    case _ => Idle
  }

  function AfterDo(k: Cont, good: bool): Pc {
    if !(k.LoopAuth? || k.LoopResume?) then Idle else if good then LoopDone(k.k) else LoopTop(k.k)
  }

  predicate LockFree(g: Shared) {
    g.writer.None? && g.readers == {}
  }

  predicate Connected(g: Shared) {
    g.conn.Some? && g.conn.value in g.conns
  }

  /** Whether a goroutine at `pc` can take its next step. */
  predicate CanGo(g: Shared, pc: Pc, x: Choice) {
    && !pc.Idle?
    && (pc.DoLock? || pc.CloseLock? || pc.ServerLock? || pc.PingLock? ==> g.writer.None?)
    && (pc.RcWait? || pc.DialWait? || pc.LoopDone? ==> LockFree(g))
    && (pc.DoSend? || pc.PingSend? || pc.PongSend? ==> pc.c in g.conns)
    && (pc.DoRegister? ==> x.id !in g.chans)
    && (pc.DoWait? ==> pc.ch in g.chans && (x.ok ==> g.chans[pc.ch].buf.Some? || !g.chans[pc.ch].open))
    && (pc.DoFree? ==> pc.ch in g.chans)
    && (pc.Dialing? ==> x.id !in g.conns)
  }

  function Fails(g: Shared, pc: Pc, f: Fault): Next {
    Next(g.(fault := Some(f)), pc)
  }

  /** Draws the next request id of connection `c`. */
  function Draw(g: Shared, c: ConnId): Shared
    requires c in g.conns
  {
    g.(conns := g.conns[c := g.conns[c].(draws := g.conns[c].draws + 1)])
  }

  predicate InSend(pc: Pc) {
    pc.DoLock? || pc.DoDraw? || pc.DoCheck? || pc.DoSend?
  }

  /** Do up to and including the write. */
  function StepSend(g: Shared, t: Tid, pc: Pc, x: Choice): Next
    requires InSend(pc) && CanGo(g, pc, x)
  {
    match pc
    case DoLock(k) => Next(g.(readers := g.readers + {t}), DoDraw(k))
    case DoDraw(k) =>
      if !Connected(g) then Fails(g, pc, NilConnection)
      else
        var c := g.conn.value;
        Next(Draw(g, c), if x.ok then DoCheck(k, c, g.conns[c].draws + 1) else DoUnlock(k, Error))
    case DoCheck(k, _, n) =>
      if !Connected(g) then Fails(g, pc, NilConnection)
      else
        var c := g.conn.value;
        Next(g, if g.conns[c].closed || !x.ok then DoUnlock(k, Error) else DoSend(k, c, n))
    case DoSend(k, c, n) =>
      if g.conns[c].closed then Fails(g, pc, SendOnClosedQueue)
      else Next(g, if x.ok then DoRegister(k, c, n) else DoUnlock(k, Error))
  }

  predicate InRecv(pc: Pc) {
    pc.DoRegister? || pc.DoWait? || pc.DoDelete? || pc.DoFree? || pc.DoUnlock?
  }

  /** recv, and the end of Do. */
  function StepRecv(g: Shared, t: Tid, pc: Pc, x: Choice): Next
    requires InRecv(pc) && CanGo(g, pc, x)
  {
    match pc
    case DoRegister(k, c, n) =>
      Next(g.(recvs := g.recvs[IdOf(n) := x.id], chans := g.chans[x.id := Chan(true, None, IdOf(n), t)]),
           DoWait(k, c, n, x.id))
    case DoWait(k, c, n, ch) =>
      if !x.ok then Next(g, DoDelete(k, c, n, ch, Error))
      else if g.chans[ch].buf.None? then Next(g, DoDelete(k, c, n, ch, Nil))
      else
        Next(g.(chans := g.chans[ch := g.chans[ch].(buf := None)]),
             DoDelete(k, c, n, ch, Answer(g.chans[ch].buf.value)))
    case DoDelete(k, c, n, ch, r) => Next(g.(recvs := g.recvs - {IdOf(n)}), DoFree(k, c, n, ch, r))
    case DoFree(k, c, n, ch, r) =>
      if !g.chans[ch].open then Fails(g, pc, FreeClosedReceiver)
      else Next(g.(chans := g.chans[ch := g.chans[ch].(open := false)]), DoUnlock(k, r))
    case DoUnlock(k, r) =>
      if r.Nil? then Fails(g, pc, NilReply)
      else
        var good := x.ok && r.Answer? && r.msg.good;
        var g' := g.(readers := g.readers - {t});
        Next(if good && k.LoopResume? then g'.(reconnectCount := 0, lastKeepaliveId := 0, attempts := 0) else g',
             AfterDo(k, good))
  }

  predicate InDo(pc: Pc) {
    InSend(pc) || InRecv(pc)
  }

  predicate InControl(pc: Pc) {
    pc.RcWait? || pc.LoopTop? || pc.LoopDone?
  }

  /** Entering the reconnect loop, starting an iteration, leaving. */
  function StepLoop(g: Shared, t: Tid, pc: Pc): Next
    requires InControl(pc)
  {
    match pc
    case RcWait(k) =>
      if g.reconnecting then Next(g, After(k))
      else Next(g.(reconnecting := true, owner := Some(t)), LoopTop(k))
    case LoopTop(k) =>
      if g.maxReconnect > 0 && g.reconnectCount >= g.maxReconnect then Next(g, CloseMark(LoopEnd(k)))
      else Next(g.(reconnectCount := g.reconnectCount + 1), ConnClose(LoopClear(k)))
    case LoopDone(k) => Next(g.(reconnecting := false, owner := None), After(k))
  }

  predicate InDial(pc: Pc) {
    pc.Clear? || pc.DialWait? || pc.Dialing?
  }

  predicate Broken(g: Shared, i: uint32)
    requires i in g.recvs
  {
    g.recvs[i] !in g.chans || !g.chans[g.recvs[i]].open
  }

  function CloseAll(g: Shared): map<ChanId, Chan> {
    map ch | ch in g.chans :: if ch in g.recvs.Values then g.chans[ch].(open := false) else g.chans[ch]
  }

  /** One dial: the receivers are dropped, then the connection is replaced under the write lock. */
  function StepDial(g: Shared, t: Tid, pc: Pc, x: Choice): Next
    requires InDial(pc)
  {
    match pc
    case Clear(k) =>
      if exists i :: i in g.recvs && Broken(g, i) then Fails(g, pc, ClearClosedReceiver)
      else Next(g.(recvs := map[], chans := CloseAll(g)), DialWait(k))
    case DialWait(k) => Next(g.(writer := Some(t), attempts := g.attempts + 1), Dialing(k))
    case Dialing(k) =>
      if x.path == DialFails then Next(g.(writer := None, conn := None), LoopTop(k))
      else
        Next(g.(writer := None, conn := Some(x.id), conns := g.conns[x.id := Conn(!x.ok, 0)]),
             if x.path == NoAuth then LoopDone(k)
             else if x.path == Reauth then DoLock(LoopAuth(k))
             else if x.path == Resume then DoLock(LoopResume(k))
             else LoopTop(k))
  }

  predicate InClose(pc: Pc) {
    pc.ConnClose? || pc.CloseMark? || pc.CloseLock? || pc.CloseLeave? || pc.ServerLock? || pc.ServerLeave?
  }

  /** Closing the current connection tells the client, which starts reconnecting unless it has been
      closed itself. */
  function StepClose(g: Shared, t: Tid, pc: Pc): Next
    requires InClose(pc)
  {
    match pc
    case ConnClose(k) =>
      if !Connected(g) || g.conns[g.conn.value].closed then Next(g, After(k))
      else
        var c := g.conn.value;
        Next(g.(conns := g.conns[c := g.conns[c].(closed := true)]), if g.closed then After(k) else RcWait(k))
    case CloseMark(k) =>
      if g.closed then Fails(g, pc, CloseTwice) else Next(g.(closed := true), CloseLock(k))
    case CloseLock(k) => Next(g.(readers := g.readers + {t}), ConnClose(CloseUnlock(k)))
    case CloseLeave(k) => Next(g.(readers := g.readers - {t}), After(k))
    case ServerLock => Next(g.(readers := g.readers + {t}), ConnClose(ServerUnlock))
    case ServerLeave => Next(g.(readers := g.readers - {t}), RcWait(Return))
  }

  predicate InPing(pc: Pc) {
    pc.PingLock? || pc.PingDraw? || pc.PingCheck? || pc.PingSend? || pc.PingUnlock?
  }

  /** The ping of keepalive, under the read lock. */
  function StepPing(g: Shared, t: Tid, pc: Pc, x: Choice): Next
    requires InPing(pc) && CanGo(g, pc, x)
  {
    match pc
    case PingLock => Next(g.(readers := g.readers + {t}), PingDraw)
    case PingDraw =>
      if g.reconnecting || !Connected(g) then Next(g, PingUnlock(true))
      else
        var c := g.conn.value;
        Next(Draw(g, c), if x.ok then PingCheck(c, g.conns[c].draws + 1) else PingUnlock(false))
    case PingCheck(_, n) =>
      if !Connected(g) then Fails(g, pc, NilConnection)
      else
        var c := g.conn.value;
        Next(g, if g.conns[c].closed || !x.ok then PingUnlock(false) else PingSend(c, n))
    case PingSend(c, n) =>
      if g.conns[c].closed then Fails(g, pc, SendOnClosedQueue)
      else Next(if x.ok then g.(lastKeepaliveId := IdOf(n)) else g, PingUnlock(x.ok))
    case PingUnlock(ok) => Next(g.(readers := g.readers - {t}), if ok then Idle else RcWait(Return))
  }

  predicate InPong(pc: Pc) {
    pc.PongCheck? || pc.PongBuild? || pc.PongWrite? || pc.PongSend?
  }

  /** The answer to a server's ping. It reads the connection three times, under no lock. */
  function StepPong(g: Shared, pc: Pc, x: Choice): Next
    requires InPong(pc) && CanGo(g, pc, x)
  {
    match pc
    case PongCheck => if !Connected(g) then Fails(g, pc, NilConnection) else Next(g, if x.ok then PongBuild else Idle)
    case PongBuild => if !Connected(g) then Fails(g, pc, NilConnection) else Next(g, PongWrite)
    case PongWrite =>
      if !Connected(g) then Fails(g, pc, NilConnection)
      else Next(g, if g.conns[g.conn.value].closed || !x.ok then Idle else PongSend(g.conn.value))
    case PongSend(c) => if g.conns[c].closed then Fails(g, pc, SendOnClosedQueue) else Next(g, Idle)
  }

  function StepOf(g: Shared, t: Tid, pc: Pc, x: Choice): Next
    requires CanGo(g, pc, x)
  {
    if InSend(pc) then StepSend(g, t, pc, x)
    else if InRecv(pc) then StepRecv(g, t, pc, x)
    else if InControl(pc) then StepLoop(g, t, pc)
    else if InDial(pc) then StepDial(g, t, pc, x)
    else if InClose(pc) then StepClose(g, t, pc)
    else if InPing(pc) then StepPing(g, t, pc, x)
    else StepPong(g, pc, x)
  }

  /** handleResponse, for a packet from whichever connection. */
  function Dispatch(g: Shared, m: Msg): Shared {
    if m.requestId !in g.recvs then g
    else
      var ch := g.recvs[m.requestId];
      if Broken(g, m.requestId) then g.(fault := Some(SendOnClosedReceiver))
      else if g.chans[ch].buf.Some? then g
      else g.(chans := g.chans[ch := g.chans[ch].(buf := Some(m))])
  }

  // ------------------------------------------------------------------- runs

  datatype Job = Request | Reconnect | CloseClient | ServerClose | Ping | Pong

  function EntryOf(job: Job): Pc {
    match job
    case Request => DoLock(Return)
    case Reconnect => RcWait(Return)
    case CloseClient => CloseMark(Return)
    case ServerClose => ServerLock
    case Ping => PingLock
    case Pong => PongCheck
  }

  datatype Event =
    | Start(t: Tid, job: Job)        // an idle goroutine begins an operation
    | ConnFails(t: Tid, c: ConnId)   // a connection closes itself after a read or write error
    | Deliver(msg: Msg)              // a response packet arrives
    | Go(t: Tid, x: Choice)          // a goroutine takes its next step

  predicate Enabled(s: State, e: Event) {
    s.g.fault.None? &&
    match e
    case Start(t, _) => At(s, t).Idle?
    case ConnFails(t, c) => At(s, t).Idle? && c in s.g.conns && !s.g.conns[c].closed
    case Deliver(_) => true
    case Go(t, x) => CanGo(s.g, At(s, t), x)
  }

  function Step(s: State, e: Event): State
    requires Enabled(s, e)
  {
    match e
    case Start(t, job) => s.(threads := s.threads[t := EntryOf(job)])
    case ConnFails(t, c) =>
      State(s.g.(conns := s.g.conns[c := s.g.conns[c].(closed := true)]),
            s.threads[t := if s.g.closed then Idle else RcWait(Return)])
    case Deliver(m) => s.(g := Dispatch(s.g, m))
    case Go(t, x) =>
      var n := StepOf(s.g, t, At(s, t), x);
      State(n.g, s.threads[t := n.pc])
  }

  predicate Init(s: State) {
    && s.threads == map[] && s.g.writer.None? && s.g.readers == {}
    && s.g.conn == Some(0) && s.g.conns == map[0 := Conn(false, 0)]
    && !s.g.closed && s.g.recvs == map[] && s.g.chans == map[]
    && !s.g.reconnecting && s.g.reconnectCount == 0 && s.g.lastKeepaliveId == 0
    && s.g.fault.None? && s.g.owner.None? && s.g.attempts == 0
  }
}
