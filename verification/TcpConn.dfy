/** The two loops of a TCP connection: reading chunks into packets, writing frames that the socket
    may take only in part. */
module TcpConn {
  import opened Bytes
  import opened Frame
  import opened Stream
  import opened Codec

  // ------------------------------------------------------------ the packet queue

  /** The goroutine that hands queued packets to the client. The queue is made when it is registered
      and closed when it is gone. */
  datatype Handler =
    | Unregistered
    | AtTop               // about to look whether the connection is closed
    | Receiving           // waits for a packet
    | Leaving(left: nat)  // the connection is closed; so many packets are still to be handed over
    | Gone

  datatype Line = Line(handler: Handler, queue: seq<Packet>, closed: bool, delivered: seq<Packet>)

  /** What other goroutines do meanwhile: register the handler, close the connection, or let the
      handler take its next step. */
  datatype Action = Register | CloseConn | Turn

  function HandOver(l: Line, next: Handler): Line
    requires l.queue != []
  {
    l.(handler := next, queue := l.queue[1..], delivered := l.delivered + [l.queue[0]])
  }

  function Act(l: Line, a: Action): Line {
    match a
    case Register => if l.handler.Unregistered? then l.(handler := AtTop) else l
    case CloseConn => l.(closed := true)
    case Turn =>
      match l.handler
      case AtTop => l.(handler := if l.closed then Leaving(|l.queue|) else Receiving)
      case Receiving => if l.queue == [] then l else HandOver(l, AtTop)
      case Leaving(n) =>
        if n == 0 then l.(handler := Gone) else if l.queue == [] then l else HandOver(l, Leaving(n - 1))
      case _ => l
  }

  function Acts(l: Line, actions: seq<Action>): Line {
    if actions == [] then l else Act(Acts(l, actions[..|actions| - 1]), actions[|actions| - 1])
  }

  /** What became of a decoded packet at the queue. */
  datatype Fate = Queued | QueueFull | NoQueue

  /** The receiving side: the line, how often the others have had their turn, the packets offered to
      the queue and what became of them, and whether a packet was sent on the closed queue. */
  datatype Flow = Flow(line: Line, clock: nat, offered: seq<Packet>, fates: seq<Fate>, fault: bool)

  /** What the others do at each point where the read loop lets them. */
  type Plan = nat -> seq<Action>

  function Elapse(plan: Plan, f: Flow): Flow {
    f.(line := Acts(f.line, plan(f.clock)), clock := f.clock + 1)
  }

  /** A channel takes a packet if it has room, or if a receiver waits for it. */
  predicate Accepts(l: Line, capacity: nat) {
    |l.queue| < capacity || (l.handler.Receiving? && l.queue == [])
  }

  function FateOf(l: Line, capacity: nat): Fate {
    if l.handler.Unregistered? then NoQueue else if Accepts(l, capacity) then Queued else QueueFull
  }

  /** addPacket. */
  function Place(capacity: nat, f: Flow, p: Packet): Flow {
    if f.line.handler.Gone? then f.(fault := true)
    else
      var fate := FateOf(f.line, capacity);
      f.(line := if fate.Queued? then f.line.(queue := f.line.queue + [p]) else f.line,
         offered := f.offered + [p], fates := f.fates + [fate])
  }

  /** A list of packets, one after the other; a fault ends it. */
  function Feed(plan: Plan, capacity: nat, f: Flow, packets: seq<Packet>): Flow {
    if packets == [] then f
    else
      var n := |packets| - 1;
      var g := Feed(plan, capacity, f, packets[..n]);
      if g.fault then g else Place(capacity, Elapse(plan, g), packets[n])
  }

  // ------------------------------------------------------------ the whole read loop

  datatype Reader = Reader(flow: Flow, end: End, stopped: bool)

  predicate Over(r: Reader) {
    r.flow.fault || r.end.Broken? || r.stopped
  }

  /** One round: look whether the connection is closed, read a chunk, decode and queue what it
      completes. A decoding error closes the connection. */
  function Round(cfg: Config, plan: Plan, capacity: nat, r: Reader, c: Str): (r': Reader)
    requires !Over(r) && Resumable(cfg.version, r.end.header)
    ensures r'.end.Suspended? ==> Resumable(cfg.version, r'.end.header)
  {
    var f := Elapse(plan, r.flow);
    if f.line.closed then r.(flow := f, stopped := true)
    else if c == [] then r.(flow := f)
    else
      var d := Drain(cfg, r.end.header, r.end.rest + c);
      DrainResumable(cfg, r.end.header, r.end.rest + c);
      var g := Feed(plan, capacity, f, d.packets);
      if g.fault then r.(flow := g)
      else Reader(if d.end.Broken? then g.(line := Act(g.line, CloseConn)) else g, d.end, false)
  }

  const START := Flow(Line(Unregistered, [], false, []), 0, [], [], false)

  function ReadRun(cfg: Config, plan: Plan, capacity: nat, chunks: seq<Str>): (r: Reader)
    ensures r.end.Suspended? ==> Resumable(cfg.version, r.end.header)
  {
    if chunks == [] then Reader(START, Suspended(FRESH, []), false)
    else
      var n := |chunks| - 1;
      var r := ReadRun(cfg, plan, capacity, chunks[..n]);
      if Over(r) then r else Round(cfg, plan, capacity, r, chunks[n])
  }

  class Connection {
    const cfg: Config
    const pool: HeaderPool
    const ctx: Context
    const readBuf: RingBuffer
    const capacity: nat
    const plan: Plan
    var line: Line
    var clock: nat
    /** A packet was sent on the closed queue; the program is gone. */
    var faulted: bool
    ghost var offered: seq<Packet>
    ghost var fates: seq<Fate>

    constructor (cfg: Config, pool: HeaderPool, capacity: nat, plan: Plan)
      ensures this.cfg == cfg && this.pool == pool && this.capacity == capacity && this.plan == plan
      ensures fresh(ctx) && fresh(readBuf) && ctx.header == null && readBuf.data == [] && ctx.codec == cfg.codec
      ensures View() == START
    {
      this.cfg, this.pool, this.capacity, this.plan := cfg, pool, capacity, plan;
      ctx := new Context(cfg.codec);
      readBuf := new RingBuffer();
      line, clock, faulted, offered, fates := START.line, 0, false, [], [];
    }

    ghost function View(): Flow
      reads this
    {
      Flow(line, clock, offered, fates, faulted)
    }

    /** The others have their turn. */
    method Interfere()
      modifies this`line, this`clock
      ensures View() == Elapse(plan, old(View()))
    {
      var actions := plan(clock);
      for i := 0 to |actions|
        invariant View() == old(View()).(line := Acts(old(line), actions[..i]))
      {
        assert actions[..i + 1][..i] == actions[..i];
        line := Act(line, actions[i]);
      }
      assert actions[..|actions|] == actions;
      clock := clock + 1;
    }

    /** Queues a packet, or drops it when there is no queue or no room; on a queue that the handler
        has closed it is a fault, and only then. */
    method AddPacket(p: Packet)
      requires !faulted
      modifies this`line, this`faulted, this`offered, this`fates
      ensures View() == Place(capacity, old(View()), p)
      ensures faulted <==> old(line).handler.Gone?
      ensures !faulted ==>
                var l := old(line);
                var room := |l.queue| < capacity || (l.handler.Receiving? && l.queue == []);
                && offered == old(offered) + [p]
                && fates
                   == old(fates) + [if l.handler.Unregistered? then NoQueue else if room then Queued else QueueFull]
                && line == if !l.handler.Unregistered? && room then l.(queue := l.queue + [p]) else l
    {
      if line.handler.Gone? {
        faulted := true;
        return;
      }
      var fate := NoQueue;
      if !line.handler.Unregistered? {
        fate := QueueFull;
        if |line.queue| < capacity || (line.handler.Receiving? && line.queue == []) {
          fate := Queued;
          line := line.(queue := line.queue + [p]);
        }
      }
      offered, fates := offered + [p], fates + [fate];
    }

    ghost predicate Ready(ctxs: set<Context>)
      reads this, ctx, Held(ctx), pool, ctxs
    {
      && ctx in ctxs && Exclusive(pool, ctxs) && cfg.codec == ctx.codec
      && Resumable(cfg.version, ctx.Slot())
    }

    /** What draining the buffer from here would give. */
    ghost function Ahead(buf: RingBuffer): Drained
      reads this, ctx, buf, if ctx.header == null then {} else {ctx.header}
      requires Resumable(cfg.version, ctx.Slot())
    {
      Drain(cfg, ctx.Slot(), buf.data)
    }

    /** One round of the loop: a packet that is offered to the queue, an error, or nothing yet. */
    method ReadOne(buf: RingBuffer, ghost ctxs: set<Context>)
      returns (more: bool, err: Option<Error>, ghost p: Option<Packet>)
      requires Ready(ctxs) && !faulted
      modifies this, ctx, buf, pool, pool.free, Held(ctx)
      ensures Ready(ctxs)
      ensures more <==> p.Some?
      ensures if err.Some? then !more && old(Ahead(buf)) == Drained([], Broken(err.value))
              else if !more then old(Ahead(buf)) == Drained([], Suspended(ctx.Slot(), buf.data))
              else old(Ahead(buf)) == Drained([p.value] + Ahead(buf).packets, Ahead(buf).end)
                   && |buf.data| < |old(buf.data)|
      ensures View() == if more then Place(capacity, Elapse(plan, old(View())), p.value) else old(View())
      ensures fresh(pool.free + Held(ctx) - old(pool.free) - old(Held(ctx)))
      ensures buf.linear == old(buf.linear)
    {
      hide Unpack, Resumable, Place, Elapse;
      UnpackProgress(cfg, ctx.Slot(), buf.data);
      FreshResumable(cfg.version);
      var packet, ok, e := UnpackStream(cfg, pool, ctx, buf, ctxs);
      if e.Some? {
        return false, e, None;
      }
      if !ok {
        return false, None, None;
      }
      Interfere();
      AddPacket(packet.value);
      return true, None, packet;
    }

    /** Calls Unpack on the buffer until it waits or fails, or adding a packet is a fault. */
    method ReadPacket(buf: RingBuffer, ghost ctxs: set<Context>) returns (err: Option<Error>)
      requires Ready(ctxs) && !faulted
      modifies this, ctx, buf, pool, pool.free, Held(ctx)
      ensures Ready(ctxs)
      ensures View() == Feed(plan, capacity, old(View()), old(Ahead(buf)).packets)
      ensures !faulted ==>
                match old(Ahead(buf)).end
                case Suspended(h, r) => err.None? && ctx.Slot() == h && buf.data == r
                case Broken(e) => err == Some(e)
      ensures fresh(pool.free + Held(ctx) - old(pool.free) - old(Held(ctx)))
      ensures buf.linear == old(buf.linear)
    {
      hide Resumable, Drain, Place, Elapse, Feed;
      ghost var d, v := Ahead(buf), View();
      ghost var done: seq<Packet> := [];
      FeedNothing(plan, capacity, v);
      while true
        invariant Ready(ctxs) && !faulted
        invariant View() == Feed(plan, capacity, v, done)
        invariant d == Drained(done + Ahead(buf).packets, Ahead(buf).end)
        invariant fresh(pool.free + Held(ctx) - old(pool.free) - old(Held(ctx)))
        invariant buf.linear == old(buf.linear)
        decreases |buf.data|
      {
        var more;
        ghost var p;
        more, err, p := ReadOne(buf, ctxs);
        if err.Some? {
          assert done + [] == done;
          return;
        }
        if !more {
          assert done + [] == done;
          return;
        }
        ghost var x := Ahead(buf);
        assert done + ([p.value] + x.packets) == done + [p.value] + x.packets;
        FeedNext(plan, capacity, v, done, p.value);
        done := done + [p.value];
        if faulted {
          FeedFaulted(plan, capacity, v, done, x.packets);
          return;
        }
      }
    }

    /** The read loop over the chunks the socket returns, until the connection is found closed, a
        frame is malformed, or adding a packet is a fault. */
    method Reading(chunks: seq<Str>, ghost ctxs: set<Context>) returns (err: Option<Error>, stopped: bool)
      requires Ready(ctxs) && ctx.header == null && readBuf.data == [] && View() == START
      modifies this, ctx, readBuf, pool, pool.free
      ensures Exclusive(pool, ctxs)
      ensures var r := ReadRun(cfg, plan, capacity, chunks);
              && View() == r.flow && stopped == r.stopped
              && (!faulted ==>
                    match r.end
                    case Suspended(h, rest) => err.None? && ctx.Slot() == h && readBuf.data == rest
                    case Broken(e) => err == Some(e))
    {
      hide Drain, Resumable, Elapse, Round;
      err, stopped := None, false;
      for i := 0 to |chunks|
        invariant Ready(ctxs) && !faulted && err.None? && !stopped
        invariant ReadRun(cfg, plan, capacity, chunks[..i])
               == Reader(View(), Suspended(ctx.Slot(), readBuf.data), false)
        invariant fresh(pool.free + Held(ctx) - old(pool.free))
      {
        RunNext(cfg, plan, capacity, chunks, i);
        err, stopped := OneRound(chunks[i], ctxs);
        if faulted || err.Some? || stopped {
          RunOver(cfg, plan, capacity, chunks, i + 1);
          return;
        }
      }
      assert chunks[..|chunks|] == chunks;
    }

    /** One round of the loop. A chunk that finds the buffer empty is decoded in place and only its
        remainder is copied; otherwise it is appended first. */
    method OneRound(c: Str, ghost ctxs: set<Context>) returns (err: Option<Error>, stopped: bool)
      requires Ready(ctxs) && !faulted
      modifies this, ctx, readBuf, pool, pool.free, Held(ctx)
      ensures Ready(ctxs)
      ensures var r0 := Reader(old(View()), Suspended(old(ctx.Slot()), old(readBuf.data)), false);
              var r := Round(cfg, plan, capacity, r0, c);
              && View() == r.flow && stopped == r.stopped
              && (!faulted ==>
                    match r.end
                    case Suspended(h, rest) => err.None? && ctx.Slot() == h && readBuf.data == rest
                    case Broken(e) => err == Some(e))
      ensures fresh(pool.free + Held(ctx) - old(pool.free) - old(Held(ctx)))
    {
      hide Drain, Resumable, Feed, Elapse;
      err, stopped := None, false;
      Interfere();
      if line.closed {
        stopped := true;
        return;
      }
      if |c| == 0 {
        return;
      }
      err := Chunk(c, ctxs);
      if !faulted && err.Some? {
        line := line.(closed := true);
      }
    }

    /** One chunk, by either route. */
    method Chunk(c: Str, ghost ctxs: set<Context>) returns (err: Option<Error>)
      requires Ready(ctxs) && !faulted
      modifies this, ctx, readBuf, pool, pool.free, Held(ctx)
      ensures Ready(ctxs)
      ensures var d := Drain(cfg, old(ctx.Slot()), old(readBuf.data) + c);
              && View() == Feed(plan, capacity, old(View()), d.packets)
              && (!faulted ==>
                    match d.end
                    case Suspended(h, r) => err.None? && ctx.Slot() == h && readBuf.data == r
                    case Broken(e) => err == Some(e))
      ensures fresh(pool.free + Held(ctx) - old(pool.free) - old(Held(ctx)))
    {
      hide Drain, Resumable, Feed;
      if readBuf.Length() == 0 {
        assert readBuf.data + c == c;
        var buffer := new RingBuffer.WithData(c);
        err := ReadPacket(buffer, ctxs);
        if faulted || err.Some? {
          return;
        }
        if buffer.Length() > 0 {
          var first, end := buffer.PeekAll();
          assert first + [] == first;
          readBuf.Write(first);
          assert readBuf.data == buffer.data;
        }
      } else {
        readBuf.Write(c);
        err := ReadPacket(readBuf, ctxs);
      }
    }
  }

  lemma FeedNothing(plan: Plan, capacity: nat, f: Flow)
    ensures Feed(plan, capacity, f, []) == f
  {
  }

  lemma FeedNext(plan: Plan, capacity: nat, f: Flow, done: seq<Packet>, p: Packet)
    ensures var g := Feed(plan, capacity, f, done);
            Feed(plan, capacity, f, done + [p]) == if g.fault then g else Place(capacity, Elapse(plan, g), p)
  {
    assert (done + [p])[..|done|] == done;
  }

  lemma {:induction false} FeedFaulted(plan: Plan, capacity: nat, f: Flow, done: seq<Packet>, rest: seq<Packet>)
    requires Feed(plan, capacity, f, done).fault
    ensures Feed(plan, capacity, f, done + rest) == Feed(plan, capacity, f, done)
    decreases |rest|
  {
    hide Place, Elapse;
    if rest == [] {
      assert done + rest == done;
    } else {
      var n := |rest| - 1;
      FeedFaulted(plan, capacity, f, done, rest[..n]);
      assert (done + rest)[..|done + rest| - 1] == done + rest[..n];
    }
  }

  lemma RunNext(cfg: Config, plan: Plan, capacity: nat, chunks: seq<Str>, i: nat)
    requires i < |chunks| && !Over(ReadRun(cfg, plan, capacity, chunks[..i]))
    ensures ReadRun(cfg, plan, capacity, chunks[..i + 1])
         == Round(cfg, plan, capacity, ReadRun(cfg, plan, capacity, chunks[..i]), chunks[i])
  {
    hide Round;
    assert chunks[..i + 1][..i] == chunks[..i];
  }

  lemma {:induction false} RunOver(cfg: Config, plan: Plan, capacity: nat, chunks: seq<Str>, i: nat)
    requires i <= |chunks| && Over(ReadRun(cfg, plan, capacity, chunks[..i]))
    ensures ReadRun(cfg, plan, capacity, chunks) == ReadRun(cfg, plan, capacity, chunks[..i])
    decreases |chunks| - i
  {
    hide Round;
    if i == |chunks| {
      assert chunks[..i] == chunks;
    } else {
      assert chunks[..i + 1][..i] == chunks[..i];
      RunOver(cfg, plan, capacity, chunks, i + 1);
    }
  }

  // ------------------------------------------------------------ the write loop

  /** What wakes the write loop, and how the socket answers the write that follows: it takes at
      most `taken` bytes and possibly fails. */
  datatype WriteEvent =
    | Dequeued(frame: Str, taken: nat, fails: bool)
    | Tick(taken: nat, fails: bool)

  function FrameOf(e: WriteEvent): Str {
    match e
    case Dequeued(f, _, _) => f
    case Tick(_, _) => []
  }

  function Sent(events: seq<WriteEvent>): Str {
    if events == [] then [] else Sent(events[..|events| - 1]) + FrameOf(events[|events| - 1])
  }

  /** How many bytes are on the wire: at each event as many more as the socket takes. */
  function OnWire(events: seq<WriteEvent>): nat {
    if events == [] then 0
    else
      var n := |events| - 1;
      Least(OnWire(events[..n]) + events[n].taken, |Sent(events)|)
  }

  function Least(a: nat, b: nat): nat {
    if a <= b then a else b
  }

  /** The event makes the loop write: a frame was queued, or the ticker finds bytes left over. */
  predicate Attempts(events: seq<WriteEvent>, i: nat)
    requires i < |events|
  {
    events[i].Dequeued? || OnWire(events[..i]) < |Sent(events[..i])|
  }

  /** Bytes on the wire and bytes kept for later are together the dequeued frames in order, and every
      event puts on the wire as much as the socket takes. The loop ends at the first write that
      fails, with that much of the frames on the wire. */
  method Writing(events: seq<WriteEvent>) returns (wire: Str, left: Str, failed: Option<nat>)
    ensures failed.None? ==>
              && wire + left == Sent(events) && |wire| == OnWire(events)
              && forall i :: 0 <= i < |events| && Attempts(events, i) ==> !events[i].fails
    ensures failed.Some? ==>
              && failed.value < |events| && events[failed.value].fails && Attempts(events, failed.value)
              && wire <= Sent(events[..failed.value + 1]) && |wire| == OnWire(events[..failed.value + 1])
              && forall i :: 0 <= i < failed.value && Attempts(events, i) ==> !events[i].fails
  {
    hide Sent, OnWire;
    wire := [];
    var buf := new RingBuffer();
    NothingSent(events);
    for i := 0 to |events|
      invariant wire + buf.data == Sent(events[..i]) && |wire| == OnWire(events[..i])
      invariant forall j :: 0 <= j < i && Attempts(events, j) ==> !events[j].fails
    {
      SentNext(events, i);
      if events[i].Tick? && buf.Length() == 0 {
        assert Sent(events[..i]) + [] == Sent(events[..i]);
        continue;
      }
      ghost var kept := buf.data;
      var b := TakeAll(buf, FrameOf(events[i]));
      var n := if events[i].taken <= |b| then events[i].taken else |b|;
      Regroup(wire, kept, FrameOf(events[i]), n);
      wire := wire + b[..n];
      if events[i].fails {
        return wire, [], Some(i);
      }
      if n < |b| {
        buf.Write(b[n..]);
      }
      assert buf.data == b[n..];
    }
    assert events[..|events|] == events;
    return wire, buf.data, None;
  }

  lemma NothingSent(events: seq<WriteEvent>)
    ensures Sent(events[..0]) == [] && OnWire(events[..0]) == 0
  {
  }

  lemma SentNext(events: seq<WriteEvent>, i: nat)
    requires i < |events|
    ensures Sent(events[..i + 1]) == Sent(events[..i]) + FrameOf(events[i])
    ensures OnWire(events[..i + 1]) == Least(OnWire(events[..i]) + events[i].taken, |Sent(events[..i + 1])|)
  {
    assert events[..i + 1][..i] == events[..i];
  }

  /** A write of `n` bytes moves them from the pending bytes to the wire. */
  lemma Regroup(wire: Str, kept: Str, frame: Str, n: nat)
    requires n <= |kept + frame|
    ensures wire + (kept + frame)[..n] + (kept + frame)[n..] == wire + kept + frame
  {
    var b := kept + frame;
    assert b == b[..n] + b[n..];
    assert wire + b[..n] + b[n..] == wire + b;
    assert wire + b == wire + kept + frame;
  }

  /** Empties the buffer into a new slice, with `frame` behind it. */
  method TakeAll(buf: RingBuffer, frame: Str) returns (b: Str)
    modifies buf
    ensures b == old(buf.data) + frame && buf.data == []
  {
    b := frame;
    if buf.Length() != 0 {
      var f, e := buf.PeekAll();
      buf.Reset();
      b := f + e + frame;
    }
  }
}
