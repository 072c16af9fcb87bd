/** What holds of every run of a connection's read loop, whatever the other goroutines do. */
module TcpRuns {
  import opened Bytes
  import opened Frame
  import opened Stream
  import opened TcpConn

  // --------------------------------------------------------- every packet accounted for

  /** The packets that were queued, in order. */
  function Survivors(packets: seq<Packet>, fates: seq<Fate>): seq<Packet>
    requires |packets| == |fates|
  {
    if packets == [] then []
    else
      var n := |packets| - 1;
      Survivors(packets[..n], fates[..n]) + if fates[n].Queued? then [packets[n]] else []
  }

  /** Handed over or still queued: exactly the offered packets that found room, in order. The handler
      leaves only a closed connection. */
  predicate Accounted(capacity: nat, f: Flow) {
    && |f.offered| == |f.fates|
    && f.line.delivered + f.line.queue == Survivors(f.offered, f.fates)
    && |f.line.queue| <= (if capacity == 0 then 1 else capacity)
    && (f.line.handler.Leaving? || f.line.handler.Gone? ==> f.line.closed)
    && (f.line.handler.Unregistered? ==> f.line.queue == [])
  }

  lemma ActAccounted(capacity: nat, f: Flow, a: Action)
    requires Accounted(capacity, f)
    ensures Accounted(capacity, f.(line := Act(f.line, a))) && (f.line.closed ==> Act(f.line, a).closed)
  {
    hide Survivors;
    if f.line.queue != [] {
      var q, d := f.line.queue, f.line.delivered;
      assert d + [q[0]] + q[1..] == d + q;
    }
  }

  lemma {:induction false} ActsAccounted(capacity: nat, f: Flow, actions: seq<Action>)
    requires Accounted(capacity, f)
    ensures Accounted(capacity, f.(line := Acts(f.line, actions)))
    ensures f.line.closed ==> Acts(f.line, actions).closed
  {
    hide Accounted, Act;
    if actions != [] {
      var n := |actions| - 1;
      ActsAccounted(capacity, f, actions[..n]);
      ActAccounted(capacity, f.(line := Acts(f.line, actions[..n])), actions[n]);
    } else {
      assert f.(line := f.line) == f;
    }
  }

  lemma ElapseAccounted(plan: Plan, capacity: nat, f: Flow)
    requires Accounted(capacity, f)
    ensures Accounted(capacity, Elapse(plan, f)) && (f.line.closed ==> Elapse(plan, f).line.closed)
  {
    hide Acts, Survivors;
    ActsAccounted(capacity, f, plan(f.clock));
  }

  lemma PlaceAccounted(capacity: nat, f: Flow, p: Packet)
    requires Accounted(capacity, f)
    ensures Accounted(capacity, Place(capacity, f, p))
  {
    var g := Place(capacity, f, p);
    if !g.fault {
      assert g.offered[..|f.offered|] == f.offered && g.fates[..|f.fates|] == f.fates;
      assert f.line.delivered + (f.line.queue + [p]) == f.line.delivered + f.line.queue + [p];
    }
  }

  lemma {:induction false} FeedAccounted(plan: Plan, capacity: nat, f: Flow, packets: seq<Packet>)
    requires Accounted(capacity, f)
    ensures Accounted(capacity, Feed(plan, capacity, f, packets))
  {
    hide Accounted, Place, Elapse;
    if packets != [] {
      var n := |packets| - 1;
      var g := Feed(plan, capacity, f, packets[..n]);
      FeedAccounted(plan, capacity, f, packets[..n]);
      ElapseAccounted(plan, capacity, g);
      PlaceAccounted(capacity, Elapse(plan, g), packets[n]);
    }
  }

  lemma RoundAccounted(cfg: Config, plan: Plan, capacity: nat, r: Reader, c: Str)
    requires !Over(r) && Resumable(cfg.version, r.end.header) && Accounted(capacity, r.flow)
    ensures Accounted(capacity, Round(cfg, plan, capacity, r, c).flow)
  {
    hide Accounted, Elapse, Feed, Drain, Resumable, Act;
    var f := Elapse(plan, r.flow);
    ElapseAccounted(plan, capacity, r.flow);
    if !f.line.closed && c != [] {
      var d := Drain(cfg, r.end.header, r.end.rest + c);
      var g := Feed(plan, capacity, f, d.packets);
      FeedAccounted(plan, capacity, f, d.packets);
      ActAccounted(capacity, g, CloseConn);
    }
  }

  /** In every run of the read loop every packet is accounted for, also in one that ends in a fault. */
  lemma {:induction false} RunAccounted(cfg: Config, plan: Plan, capacity: nat, chunks: seq<Str>)
    ensures Accounted(capacity, ReadRun(cfg, plan, capacity, chunks).flow)
  {
    hide Accounted, Round, Resumable;
    if chunks == [] {
      StartAccounted(capacity);
    } else {
      var n := |chunks| - 1;
      RunAccounted(cfg, plan, capacity, chunks[..n]);
      var r := ReadRun(cfg, plan, capacity, chunks[..n]);
      if !Over(r) {
        RoundAccounted(cfg, plan, capacity, r, chunks[n]);
      }
    }
  }

  lemma StartAccounted(capacity: nat)
    ensures Accounted(capacity, START)
  {
  }

  // ------------------------------------------------------------ the packets of the stream

  lemma {:induction false} FeedOffers(plan: Plan, capacity: nat, f: Flow, packets: seq<Packet>)
    ensures var g := Feed(plan, capacity, f, packets);
            && f.offered <= g.offered <= f.offered + packets
            && (f.fault ==> g.fault) && (!g.fault ==> g.offered == f.offered + packets)
            && (g.fault && !f.fault ==> packets != [])
  {
    hide Acts, FateOf;
    if packets != [] {
      var n := |packets| - 1;
      FeedOffers(plan, capacity, f, packets[..n]);
      assert f.offered + packets == f.offered + packets[..n] + [packets[n]];
    }
  }

  /** Between two chunks the buffer holds nothing that could be decoded. */
  lemma AtRest(cfg: Config, chunks: seq<Str>)
    requires ReadAll(cfg, chunks).end.Suspended?
    ensures var d := ReadAll(cfg, chunks); Drain(cfg, d.end.header, d.end.rest) == Drained([], d.end)
  {
    hide Drain, Resumable, Unpack;
    var d, b := ReadAll(cfg, chunks), Flatten(chunks);
    ReadAllIsDrain(cfg, chunks);
    DrainExtend(cfg, FRESH, b, []);
    assert b + [] == b && d.end.rest + [] == d.end.rest;
    var d' := Drain(cfg, d.end.header, d.end.rest);
    assert |d.packets + d'.packets| == |d.packets| + |d'.packets|;
  }

  /** A run that is not stopped and does not fault offers exactly the packets of the stream, ends as
      reading the stream ends, and in any case offers the first packets of the stream only. */
  lemma {:induction false} RunReadsStream(cfg: Config, plan: Plan, capacity: nat, chunks: seq<Str>)
    ensures var r, d := ReadRun(cfg, plan, capacity, chunks), ReadAll(cfg, chunks);
            && r.flow.offered <= d.packets
            && (!r.flow.fault && !r.stopped ==> d == Drained(r.flow.offered, r.end))
            && (r.flow.fault ==> d.packets != [])
  {
    hide Drain, Resumable, Elapse, Feed, Act;
    if chunks != [] {
      var n := |chunks| - 1;
      RunReadsStream(cfg, plan, capacity, chunks[..n]);
      var r, d := ReadRun(cfg, plan, capacity, chunks[..n]), ReadAll(cfg, chunks[..n]);
      if !Over(r) {
        AtRest(cfg, chunks[..n]);
        RoundReads(cfg, plan, capacity, r, chunks[n]);
        RoundOffers(cfg, plan, capacity, r, chunks[n]);
      }
    }
  }

  lemma RoundOffers(cfg: Config, plan: Plan, capacity: nat, r: Reader, c: Str)
    requires !Over(r) && Resumable(cfg.version, r.end.header)
    ensures var r', d := Round(cfg, plan, capacity, r, c), Drain(cfg, r.end.header, r.end.rest + c);
            && r'.flow.offered <= r.flow.offered + d.packets
            && (r'.flow.fault ==> d.packets != [])
  {
    hide Drain, Resumable, Feed;
    var f := Elapse(plan, r.flow);
    var d := Drain(cfg, r.end.header, r.end.rest + c);
    FeedOffers(plan, capacity, f, d.packets);
  }

  lemma RoundReads(cfg: Config, plan: Plan, capacity: nat, r: Reader, c: Str)
    requires !Over(r) && Resumable(cfg.version, r.end.header)
    requires c == [] ==> Drain(cfg, r.end.header, r.end.rest) == Drained([], r.end)
    ensures var r', d := Round(cfg, plan, capacity, r, c), Drain(cfg, r.end.header, r.end.rest + c);
            !r'.flow.fault && !r'.stopped ==> r'.flow.offered == r.flow.offered + d.packets && r'.end == d.end
  {
    hide Drain, Resumable, Feed;
    var f := Elapse(plan, r.flow);
    var d := Drain(cfg, r.end.header, r.end.rest + c);
    FeedOffers(plan, capacity, f, d.packets);
    if c == [] {
      assert r.end.rest + c == r.end.rest;
    }
  }

  // -------------------------------------------------------- runs that nobody disturbs

  lemma {:induction false} ActsStayOpen(l: Line, actions: seq<Action>)
    requires !l.closed && CloseConn !in actions
    ensures !Acts(l, actions).closed
  {
    if actions != [] {
      assert actions[|actions| - 1] in actions;
      ActsStayOpen(l, actions[..|actions| - 1]);
    }
  }

  lemma {:induction false} FeedStaysOpen(plan: Plan, capacity: nat, f: Flow, packets: seq<Packet>)
    requires (forall k :: CloseConn !in plan(k)) && !f.line.closed && !f.fault && Accounted(capacity, f)
    ensures var g := Feed(plan, capacity, f, packets); !g.line.closed && !g.fault && Accounted(capacity, g)
  {
    hide Survivors, Acts;
    FeedAccounted(plan, capacity, f, packets);
    if packets != [] {
      var n := |packets| - 1;
      var g := Feed(plan, capacity, f, packets[..n]);
      FeedStaysOpen(plan, capacity, f, packets[..n]);
      ElapseAccounted(plan, capacity, g);
      ActsStayOpen(g.line, plan(g.clock));
    }
  }

  /** A run in which nobody closes the connection is neither stopped nor faulty, so it offers every
      packet of the stream; and a run that has ended, by being stopped or with an error, leaves the
      connection closed. */
  lemma {:induction false} UndisturbedRun(cfg: Config, plan: Plan, capacity: nat, chunks: seq<Str>)
    ensures var r := ReadRun(cfg, plan, capacity, chunks);
            && (r.stopped || r.end.Broken? ==> r.flow.line.closed)
            && ((forall k :: CloseConn !in plan(k)) ==>
                  !r.stopped && !r.flow.fault && (r.end.Suspended? ==> !r.flow.line.closed))
  {
    hide Drain, Resumable, Feed, Acts, Accounted, Round;
    if chunks != [] {
      var n := |chunks| - 1;
      UndisturbedRun(cfg, plan, capacity, chunks[..n]);
      var r := ReadRun(cfg, plan, capacity, chunks[..n]);
      RunAccounted(cfg, plan, capacity, chunks[..n]);
      if !Over(r) {
        UndisturbedRound(cfg, plan, capacity, r, chunks[n]);
      }
    }
  }

  lemma UndisturbedRound(cfg: Config, plan: Plan, capacity: nat, r: Reader, c: Str)
    requires !Over(r) && Resumable(cfg.version, r.end.header) && Accounted(capacity, r.flow)
    ensures var r' := Round(cfg, plan, capacity, r, c);
            && (r'.stopped || r'.end.Broken? ==> r'.flow.line.closed)
            && ((forall k :: CloseConn !in plan(k)) && !r.flow.line.closed ==>
                  !r'.stopped && !r'.flow.fault && (r'.end.Suspended? ==> !r'.flow.line.closed))
  {
    hide Drain, Resumable, Feed, Acts, Accounted;
    if (forall k :: CloseConn !in plan(k)) && !r.flow.line.closed {
      ActsStayOpen(r.flow.line, plan(r.flow.clock));
      ElapseAccounted(plan, capacity, r.flow);
      FeedStaysOpen(plan, capacity, Elapse(plan, r.flow), Drain(cfg, r.end.header, r.end.rest + c).packets);
    }
  }

  // ------------------------------------------------------------- the handler delivers

  /** What can happen to the line: an action of the others, or a packet that the reader adds. */
  datatype Move = Does(action: Action) | Adds(packet: Packet)

  function Moved(l: Line, m: Move): Line {
    match m
    case Does(a) => Act(l, a)
    case Adds(p) => l.(queue := l.queue + [p])
  }

  function MovedAll(l: Line, ms: seq<Move>): Line
    decreases |ms|
  {
    if ms == [] then l else MovedAll(Moved(l, ms[0]), ms[1..])
  }

  function Turns(ms: seq<Move>): nat {
    if ms == [] then 0 else (if ms[0] == Does(Turn) then 1 else 0) + Turns(ms[1..])
  }

  /** A handler that leaves with `left` packets to hand over takes one turn for each of them and one
      to go; by then it has handed over exactly those. */
  lemma {:induction false} LeavingDelivers(l: Line, ms: seq<Move>)
    requires l.handler.Leaving? && l.handler.left <= |l.queue|
    ensures var l', n, k := MovedAll(l, ms), l.handler.left, Turns(ms);
            && (k <= n ==> l'.handler == Leaving(n - k) && l'.delivered == l.delivered + l.queue[..k])
            && (k > n ==> l'.handler.Gone? && l'.delivered == l.delivered + l.queue[..n])
    decreases |ms|
  {
    if ms != [] {
      var l1 := Moved(l, ms[0]);
      if l1.handler.Gone? {
        GoneStays(l1, ms[1..]);
      } else {
        LeavingDelivers(l1, ms[1..]);
        var n, k := l1.handler.left, Turns(ms[1..]);
        var j := if k <= n then k else n;
        if ms[0] == Does(Turn) {
          HandedOver(l.delivered, l.queue, j);
        } else {
          assert l1.queue[..j] == l.queue[..j];
        }
      }
    }
  }

  lemma HandedOver(d: seq<Packet>, q: seq<Packet>, j: nat)
    requires j < |q|
    ensures d + [q[0]] + q[1..][..j] == d + q[..j + 1]
  {
    assert q[..j + 1] == [q[0]] + q[1..][..j];
  }

  lemma {:induction false} GoneStays(l: Line, ms: seq<Move>)
    requires l.handler.Gone?
    ensures MovedAll(l, ms).handler.Gone? && MovedAll(l, ms).delivered == l.delivered
    decreases |ms|
  {
    if ms != [] {
      GoneStays(Moved(l, ms[0]), ms[1..]);
    }
  }

  /** A handler that finds the connection closed hands over every packet queued at that moment, in
      order and no other, before it is gone; and it is gone exactly when it has had one turn more
      than there were packets. */
  lemma ClosedQueueIsDelivered(l: Line, ms: seq<Move>)
    requires l.handler.AtTop? && l.closed
    ensures var l' := MovedAll(Act(l, Turn), ms);
            && (l'.handler.Gone? <==> Turns(ms) > |l.queue|)
            && (l'.handler.Gone? ==> l'.delivered == l.delivered + l.queue)
  {
    LeavingDelivers(Act(l, Turn), ms);
    assert l.queue[..|l.queue|] == l.queue;
  }

  function Added(ms: seq<Move>): nat {
    if ms == [] then 0 else (if ms[0].Adds? then 1 else 0) + Added(ms[1..])
  }

  /** On a closed connection a handler that is not waiting for a packet that never comes is gone after
      one turn for each packet and two more. */
  lemma {:induction false} HandlerLeaves(l: Line, ms: seq<Move>)
    requires l.closed && !l.handler.Unregistered? && (l.handler.Receiving? ==> l.queue != [])
    requires l.handler.Leaving? ==> l.handler.left <= |l.queue|
    requires Turns(ms) >= |l.queue| + Added(ms) + 2
    ensures MovedAll(l, ms).handler.Gone?
    decreases |ms|
  {
    if l.handler.Gone? {
      GoneStays(l, ms);
    } else if l.handler.Leaving? {
      LeavingDelivers(l, ms);
    } else if l.handler.AtTop? && ms[0] == Does(Turn) {
      LeavingDelivers(Moved(l, ms[0]), ms[1..]);
    } else {
      HandlerLeaves(Moved(l, ms[0]), ms[1..]);
    }
  }

  /** A handler that waits on an empty queue goes on waiting until a packet is added: the end of the
      connection alone does not wake it. */
  lemma {:induction false} HandlerWaits(l: Line, ms: seq<Move>)
    requires l.handler.Receiving? && l.queue == []
    ensures Added(ms) == 0 ==> MovedAll(l, ms).handler.Receiving? && MovedAll(l, ms).queue == []
    ensures Added(ms) > 0 && Turns(ms) == 0 ==> MovedAll(l, ms).queue != []
    decreases |ms|
  {
    if ms != [] {
      if Added(ms) == 0 {
        HandlerWaits(Moved(l, ms[0]), ms[1..]);
      } else if Turns(ms) == 0 {
        QueueGrows(l, ms);
      }
    }
  }

  lemma {:induction false} QueueGrows(l: Line, ms: seq<Move>)
    requires Turns(ms) == 0
    ensures |MovedAll(l, ms).queue| == |l.queue| + Added(ms)
    decreases |ms|
  {
    if ms != [] {
      QueueGrows(Moved(l, ms[0]), ms[1..]);
    }
  }

  predicate InOffice(l: Line) {
    l.handler.AtTop? || l.handler.Receiving? || l.handler.Leaving?
  }

  /** A handler in office hands over the first `k` packets of its queue within two turns for each,
      whether or not the connection closes meanwhile and whatever is added. */
  lemma {:induction false} HandlerKeepsUp(l: Line, ms: seq<Move>, k: nat)
    requires InOffice(l) && k <= |l.queue| && (l.handler.Leaving? ==> k <= l.handler.left <= |l.queue|)
    requires Turns(ms) >= 2 * k - (if l.handler.AtTop? then 0 else 1)
    ensures l.delivered + l.queue[..k] <= MovedAll(l, ms).delivered
    decreases |ms|
  {
    if k == 0 {
      assert l.delivered + l.queue[..0] == l.delivered;
      DeliveredGrows(l, ms);
    } else {
      var l1 := Moved(l, ms[0]);
      var q := l.queue;
      if ms[0] == Does(Turn) && !l.handler.AtTop? {
        HandlerKeepsUp(l1, ms[1..], k - 1);
        HandedOver(l.delivered, q, k - 1);
      } else {
        assert l1.queue[..k] == q[..k];
        HandlerKeepsUp(l1, ms[1..], k);
      }
    }
  }

  lemma {:induction false} DeliveredGrows(l: Line, ms: seq<Move>)
    ensures l.delivered <= MovedAll(l, ms).delivered
    decreases |ms|
  {
    if ms != [] {
      DeliveredGrows(Moved(l, ms[0]), ms[1..]);
    }
  }

  // ------------------------------------------------------ sending on the closed queue

  /** The handler is gone when packet `j` of the list is to be added. */
  predicate GoneAt(plan: Plan, capacity: nat, f: Flow, packets: seq<Packet>, j: nat)
    requires j < |packets|
  {
    var g := Feed(plan, capacity, f, packets[..j]);
    !g.fault && Elapse(plan, g).line.handler.Gone?
  }

  predicate GoneWithin(plan: Plan, capacity: nat, f: Flow, packets: seq<Packet>) {
    exists j :: 0 <= j < |packets| && GoneAt(plan, capacity, f, packets, j)
  }

  lemma {:induction false} FeedFaultIff(plan: Plan, capacity: nat, f: Flow, packets: seq<Packet>)
    requires !f.fault
    ensures Feed(plan, capacity, f, packets).fault <==> GoneWithin(plan, capacity, f, packets)
  {
    hide Acts;
    if packets != [] {
      var n := |packets| - 1;
      FeedFaultIff(plan, capacity, f, packets[..n]);
      assert forall j :: 0 <= j < n ==> packets[..n][..j] == packets[..j];
      assert forall j :: 0 <= j < n ==>
          GoneAt(plan, capacity, f, packets[..n], j) == GoneAt(plan, capacity, f, packets, j);
      if Feed(plan, capacity, f, packets).fault && !Feed(plan, capacity, f, packets[..n]).fault {
        assert GoneAt(plan, capacity, f, packets, n);
      }
      if j :| 0 <= j < |packets| && GoneAt(plan, capacity, f, packets, j) {
        assert j < n || j == n;
      }
    }
  }

  /** A round faults exactly when the connection was open as it began and by the time one of the
      chunk's packets is to be added the handler has left: it has found the connection closed and
      closed the queue while this chunk was being decoded. */
  lemma RoundFaultIff(cfg: Config, plan: Plan, capacity: nat, r: Reader, c: Str)
    requires !Over(r) && Resumable(cfg.version, r.end.header) && Accounted(capacity, r.flow)
    ensures var f, ps := Elapse(plan, r.flow), Drain(cfg, r.end.header, r.end.rest + c).packets;
            && (Round(cfg, plan, capacity, r, c).flow.fault
                <==> !f.line.closed && c != [] && GoneWithin(plan, capacity, f, ps))
            && (!f.line.closed ==> !f.line.handler.Leaving? && !f.line.handler.Gone?)
  {
    hide Drain, Resumable, Feed, Elapse, GoneWithin;
    var f, ps := Elapse(plan, r.flow), Drain(cfg, r.end.header, r.end.rest + c).packets;
    ElapseAccounted(plan, capacity, r.flow);
    ElapseKeeps(plan, r.flow);
    FeedFaultIff(plan, capacity, f, ps);
    assert Round(cfg, plan, capacity, r, c).flow.fault
      <==> !f.line.closed && c != [] && Feed(plan, capacity, f, ps).fault;
  }

  lemma ElapseKeeps(plan: Plan, f: Flow)
    ensures Elapse(plan, f).fault == f.fault
  {
  }

  /** The first chunk that completes a packet. */
  lemma {:induction false} FirstPacket(cfg: Config, chunks: seq<Str>) returns (i: nat)
    requires ReadAll(cfg, chunks).packets != []
    ensures i < |chunks| && ReadAll(cfg, chunks[..i]).packets == [] && ReadAll(cfg, chunks[..i]).end.Suspended?
    ensures ReadAll(cfg, chunks[..i + 1]).packets != []
    decreases |chunks|
  {
    hide Drain, Resumable;
    var n := |chunks| - 1;
    if ReadAll(cfg, chunks[..n]).packets != [] {
      i := FirstPacket(cfg, chunks[..n]);
      assert chunks[..n][..i] == chunks[..i] && chunks[..n][..i + 1] == chunks[..i + 1];
    } else {
      i := n;
      assert chunks[..n + 1] == chunks;
    }
  }

  /** The others keep still until point `at`; then the handler is registered, the connection closes,
      and the handler leaves. */
  function LeaveAt(at: nat): Plan {
    k => if k == at then [Register, CloseConn, Turn, Turn] else []
  }

  lemma {:induction false} StillUntil(cfg: Config, at: nat, capacity: nat, chunks: seq<Str>)
    requires |chunks| <= at && ReadAll(cfg, chunks).packets == [] && ReadAll(cfg, chunks).end.Suspended?
    ensures ReadRun(cfg, LeaveAt(at), capacity, chunks)
         == Reader(START.(clock := |chunks|), ReadAll(cfg, chunks).end, false)
    decreases |chunks|
  {
    hide Drain, Resumable;
    if chunks != [] {
      var n := |chunks| - 1;
      StillUntil(cfg, at, capacity, chunks[..n]);
      AtRest(cfg, chunks[..n]);
      if chunks[n] == [] {
        assert ReadAll(cfg, chunks[..n]).end.rest + chunks[n] == ReadAll(cfg, chunks[..n]).end.rest;
      }
    }
  }

  lemma LeavesGone(at: nat, l: Line)
    requires l == START.line
    ensures Acts(l, LeaveAt(at)(at)).handler.Gone?
  {
    hide Acts;
    NoActs(l);
    ActsNext(l, [], Register);
    ActsNext(l, [Register], CloseConn);
    ActsNext(l, [Register, CloseConn], Turn);
    ActsNext(l, [Register, CloseConn, Turn], Turn);
    assert [] + [Register] == [Register] && [Register] + [CloseConn] == [Register, CloseConn];
    assert [Register, CloseConn] + [Turn] == [Register, CloseConn, Turn];
    assert [Register, CloseConn, Turn] + [Turn] == [Register, CloseConn, Turn, Turn];
  }

  lemma NoActs(l: Line)
    ensures Acts(l, []) == l
  {
  }

  lemma ActsNext(l: Line, actions: seq<Action>, a: Action)
    ensures Acts(l, actions + [a]) == Act(Acts(l, actions), a)
  {
    hide Act;
    assert (actions + [a])[..|actions|] == actions;
  }

  /** With the right timing every stream that completes a packet can end in the fault, and no other
      stream can. */
  lemma SomePlanFaultsIff(cfg: Config, capacity: nat, chunks: seq<Str>)
    ensures (exists plan: Plan :: ReadRun(cfg, plan, capacity, chunks).flow.fault)
            <==> ReadAll(cfg, chunks).packets != []
  {
    hide Drain, Resumable, ReadAll, ReadRun;
    forall plan: Plan | ReadRun(cfg, plan, capacity, chunks).flow.fault ensures ReadAll(cfg, chunks).packets != [] {
      RunReadsStream(cfg, plan, capacity, chunks);
    }
    if ReadAll(cfg, chunks).packets != [] {
      var plan := PlanThatFaults(cfg, capacity, chunks);
    }
  }

  lemma PlanThatFaults(cfg: Config, capacity: nat, chunks: seq<Str>) returns (plan: Plan)
    requires ReadAll(cfg, chunks).packets != []
    ensures ReadRun(cfg, plan, capacity, chunks).flow.fault
  {
    hide Drain, Resumable, Feed, LeaveAt, Acts;
    var i := FirstPacket(cfg, chunks);
    plan := LeaveAt(i + 1);
    StillUntil(cfg, i + 1, capacity, chunks[..i]);
    var r, c := ReadRun(cfg, plan, capacity, chunks[..i]), chunks[i];
    var ps := Drain(cfg, r.end.header, r.end.rest + c).packets;
    CompletesPacket(cfg, chunks, i);
    StillThere(i + 1, i, r.flow);
    var f := Elapse(plan, r.flow);
    FirstFaults(plan, capacity, f, ps);
    RunNext(cfg, plan, capacity, chunks, i);
    RunOver(cfg, plan, capacity, chunks, i + 1);
  }

  lemma StillThere(at: nat, i: nat, f: Flow)
    requires i != at && f == START.(clock := i)
    ensures Elapse(LeaveAt(at), f) == START.(clock := i + 1)
  {
  }

  lemma CompletesPacket(cfg: Config, chunks: seq<Str>, i: nat)
    requires i < |chunks| && ReadAll(cfg, chunks[..i]).packets == [] && ReadAll(cfg, chunks[..i]).end.Suspended?
    requires ReadAll(cfg, chunks[..i + 1]).packets != []
    ensures var d := ReadAll(cfg, chunks[..i]);
            chunks[i] != [] && Drain(cfg, d.end.header, d.end.rest + chunks[i]).packets != []
  {
    hide Drain, Resumable;
    assert chunks[..i + 1][..i] == chunks[..i];
    AtRest(cfg, chunks[..i]);
    var d := ReadAll(cfg, chunks[..i]);
    assert d.end.rest + [] == d.end.rest;
  }

  lemma FirstFaults(plan: Plan, capacity: nat, f: Flow, packets: seq<Packet>)
    requires packets != [] && f == START.(clock := f.clock) && plan == LeaveAt(f.clock)
    ensures Feed(plan, capacity, f, packets).fault
  {
    hide Acts, LeaveAt;
    LeavesGone(f.clock, f.line);
    FeedNothing(plan, capacity, f);
    FeedNext(plan, capacity, f, [], packets[0]);
    assert [] + [packets[0]] == [packets[0]];
    FeedFaulted(plan, capacity, f, [packets[0]], packets[1..]);
    assert [packets[0]] + packets[1..] == packets;
  }
}
