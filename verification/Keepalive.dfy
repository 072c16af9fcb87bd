/** The keepalive goroutine of the client in time: its ticker, the check for a late pong, the ping,
    and the reconnect loops, of its own or of another goroutine. */
module Keepalive {
  import opened Bytes

  /** Where the keepalive goroutine stands: at its select, past the check, behind a failed check or
      ping, or inside the reconnect loop it has started. */
  datatype Phase = Waiting | Pinging | Raising | Looping

  datatype Setting = Setting(interval: int, timeout: int)

  datatype Clock = Clock(
    now: int,
    nextFire: int,        // when the ticker fires next
    pending: bool,        // the ticker's channel holds a tick
    phase: Phase,
    lastKeepaliveId: uint32,
    lastPongAt: int,
    reconnecting: bool,
    // history
    sentAt: int,          // when the last ping was sent
    outstanding: bool,    // no pong has come since
    resumed: bool,        // the current loop has resumed the session
    missed: bool,         // since the last ping or resume a tick was taken that sent none
    stale: bool)          // one has ended without that since the last ping or resume

  datatype Event =
    | Pass(d: nat)                // time passes
    | Fire                        // the ticker fires
    | Tick                        // the goroutine takes the tick and checks
    | Ping(ok: bool, id: uint32)  // it sends a ping, or fails to, or skips it
    | Enter                       // it calls reconnecting
    | Lost                        // another goroutine starts a reconnect loop
    | Resumed                     // the loop has resumed the session
    | LoopEnds                    // the loop ends
    | Pong                        // a pong arrives

  predicate Late(p: Setting, s: Clock) {
    s.lastKeepaliveId != 0 && s.now - s.lastPongAt > p.timeout
  }

  /** Time neither runs past the ticker nor passes while a tick could be taken. */
  predicate Enabled(s: Clock, e: Event) {
    match e
    case Pass(d) => s.now + d <= s.nextFire && !(s.pending && s.phase.Waiting?)
    case Fire => s.now == s.nextFire
    case Tick => s.pending && s.phase.Waiting?
    case Ping(_, _) => s.phase.Pinging?
    case Enter => s.phase.Raising?
    case Lost => !s.reconnecting
    case Resumed => s.reconnecting
    case LoopEnds => s.reconnecting
    case Pong => true
  }

  function Step(p: Setting, s: Clock, e: Event): Clock
    requires Enabled(s, e)
  {
    match e
    case Pass(d) => s.(now := s.now + d)
    case Fire => s.(pending := true, nextFire := s.nextFire + p.interval)
    case Tick =>
      if Late(p, s) then s.(pending := false, phase := Raising, missed := true)
      else s.(pending := false, phase := Pinging)
    case Ping(ok, id) =>
      if s.reconnecting then s.(phase := Waiting, missed := s.lastKeepaliveId != 0)
      else if !ok then s.(phase := Raising, missed := s.lastKeepaliveId != 0)
      else
        s.(phase := Waiting, lastKeepaliveId := id, sentAt := s.now, outstanding := true,
           missed := false, stale := false)
    case Enter =>
      if s.reconnecting then s.(phase := Waiting) else s.(phase := Looping, reconnecting := true, resumed := false)
    case Lost => s.(reconnecting := true, resumed := false)
    case Resumed => s.(lastKeepaliveId := 0, resumed := true, missed := false, stale := false)
    case LoopEnds =>
      s.(reconnecting := false, phase := if s.phase.Looping? then Waiting else s.phase, stale := s.stale || !s.resumed)
    case Pong => s.(lastPongAt := s.now, outstanding := false)
  }

  /** The goroutine has just started, behind the initial dial. */
  predicate Init(p: Setting, s: Clock) {
    && 0 < p.interval
    && s.nextFire == s.now + p.interval && !s.pending && s.phase.Waiting?
    && s.lastKeepaliveId == 0 && s.lastPongAt == s.now && !s.reconnecting
    && s.sentAt == s.now && !s.outstanding && !s.resumed && !s.missed && !s.stale
  }

  ghost predicate Feasible(p: Setting, s: Clock, es: seq<Event>)
    decreases |es|
  {
    es == [] || (Enabled(s, es[0]) && Feasible(p, Step(p, s, es[0]), es[1..]))
  }

  ghost function Run(p: Setting, s: Clock, es: seq<Event>): Clock
    requires Feasible(p, s, es)
    decreases |es|
  {
    if es == [] then s else Run(p, Step(p, s, es[0]), es[1..])
  }

  /** Every ping is answered before the next tick is taken. */
  ghost predicate Answered(p: Setting, s: Clock, es: seq<Event>)
    requires Feasible(p, s, es)
    decreases |es|
  {
    es == [] || ((es[0].Tick? ==> !s.outstanding) && Answered(p, Step(p, s, es[0]), es[1..]))
  }

  /** Every reconnect loop that ends has resumed the session. */
  ghost predicate AllResume(p: Setting, s: Clock, es: seq<Event>)
    requires Feasible(p, s, es)
    decreases |es|
  {
    es == [] || ((es[0].LoopEnds? ==> s.resumed) && AllResume(p, Step(p, s, es[0]), es[1..]))
  }

  /** A tick raises a timeout exactly when the tick before it, or an earlier one, sent no ping and
      the last pong is too long ago; and only inside a loop, or after one that has ended without a
      resumed session. */
  predicate Explained(p: Setting, s: Clock) {
    && (Late(p, s) <==> s.missed && s.now - s.lastPongAt > p.timeout)
    && (Late(p, s) ==> s.reconnecting || s.stale)
  }

  ghost predicate AllExplained(p: Setting, s: Clock, es: seq<Event>)
    requires Feasible(p, s, es)
    decreases |es|
  {
    es == [] || ((es[0].Tick? ==> Explained(p, s)) && AllExplained(p, Step(p, s, es[0]), es[1..]))
  }

  /** Every tick that raises a timeout is taken inside a reconnect loop, and behind one that sent no
      ping. */
  ghost predicate Quiet(p: Setting, s: Clock, es: seq<Event>)
    requires Feasible(p, s, es)
    decreases |es|
  {
    es == [] || ((es[0].Tick? && Late(p, s) ==> s.reconnecting && s.missed) && Quiet(p, Step(p, s, es[0]), es[1..]))
  }

  /** When the pending or the next tick is due. */
  function Due(s: Clock): int {
    if s.pending then s.now else s.nextFire
  }

  predicate Inv(p: Setting, s: Clock) {
    && 0 < p.interval
    && s.now <= s.nextFire <= s.now + p.interval
    && s.lastPongAt <= s.now
    && s.sentAt <= s.now
    && (s.resumed && s.reconnecting ==> s.lastKeepaliveId == 0 && !s.stale)
    && (s.phase.Looping? ==> s.reconnecting)
    && (s.missed ==> s.lastKeepaliveId != 0)
    && ((s.phase.Raising? || s.phase.Looping?) && s.lastKeepaliveId != 0 ==> s.missed)
    && (s.missed && !s.reconnecting && !s.phase.Raising? ==> s.stale)
    && (s.phase.Waiting? && !s.missed && s.lastKeepaliveId != 0 ==>
          (s.outstanding || s.sentAt <= s.lastPongAt) && Due(s) <= s.sentAt + p.interval)
  }

  lemma ClockInv(p: Setting, s: Clock, e: Event)
    requires Inv(p, s) && Enabled(s, e) && (e.Pass? || e.Fire? || e.Pong?)
    ensures Inv(p, Step(p, s, e))
  {
  }

  lemma GoroutineInv(p: Setting, s: Clock, e: Event)
    requires Inv(p, s) && Enabled(s, e) && (e.Tick? || e.Ping? || e.Enter?)
    ensures Inv(p, Step(p, s, e))
  {
  }

  lemma StepInv(p: Setting, s: Clock, e: Event)
    requires Inv(p, s) && Enabled(s, e)
    ensures Inv(p, Step(p, s, e))
  {
    if e.Pass? || e.Fire? || e.Pong? {
      hide *;
      ClockInv(p, s, e);
    } else if e.Tick? || e.Ping? || e.Enter? {
      hide *;
      GoroutineInv(p, s, e);
    }
  }

  lemma {:induction false} TimeoutsExplained(p: Setting, s: Clock, es: seq<Event>)
    requires Inv(p, s) && Feasible(p, s, es) && Answered(p, s, es) && p.interval <= p.timeout
    ensures AllExplained(p, s, es)
    decreases |es|
  {
    if es != [] {
      StepInv(p, s, es[0]);
      TimeoutsExplained(p, Step(p, s, es[0]), es[1..]);
    }
  }

  lemma {:induction false} QuietWhenResumed(p: Setting, s: Clock, es: seq<Event>)
    requires Feasible(p, s, es) && AllResume(p, s, es) && AllExplained(p, s, es) && !s.stale
    ensures Quiet(p, s, es)
    decreases |es|
  {
    if es != [] {
      QuietWhenResumed(p, Step(p, s, es[0]), es[1..]);
    }
  }

  /** A session has begun and no ping has been sent in it. */
  predicate Fresh(p: Setting, s: Clock) {
    Inv(p, s) && s.lastKeepaliveId == 0 && !s.reconnecting && !s.stale
  }

  /** Sessions begin with the initial dial, and with the end of every loop that has resumed. */
  lemma SessionsBeginFresh(p: Setting, s: Clock)
    ensures Init(p, s) ==> Fresh(p, s)
    ensures Inv(p, s) && s.reconnecting && s.resumed ==> Fresh(p, Step(p, s, LoopEnds))
  {
  }

  /** Keepalive stability, over every run from the initial dial or a resumed session, with any
      number of reconnect loops in it: if every ping is answered before the next tick, every loop
      ends with a resumed session, and the interval is no longer than the timeout, then a timeout
      is raised by no tick outside a loop, and inside one only behind a tick that sent no ping. */
  lemma KeepaliveStable(p: Setting, s: Clock, es: seq<Event>)
    requires Fresh(p, s)
    requires Feasible(p, s, es) && Answered(p, s, es) && AllResume(p, s, es) && p.interval <= p.timeout
    ensures Quiet(p, s, es)
  {
    TimeoutsExplained(p, s, es);
    QuietWhenResumed(p, s, es);
  }

  // ------------------------------------------------ a timeout below the interval

  ghost predicate Fails(p: Setting, s: Clock, es: seq<Event>) {
    Feasible(p, s, es) && Answered(p, s, es) && AllResume(p, s, es) && !Quiet(p, s, es)
  }

  lemma FailsEarlier(p: Setting, s: Clock, e: Event, es: seq<Event>) returns (fs: seq<Event>)
    requires Enabled(s, e) && Fails(p, Step(p, s, e), es) && (e.Tick? ==> !s.outstanding) && !e.LoopEnds?
    ensures Fails(p, s, fs)
  {
    fs := [e] + es;
    assert fs[1..] == es;
  }

  lemma FailsAt(p: Setting, s: Clock)
    requires Enabled(s, Tick) && Late(p, s) && !s.reconnecting && !s.outstanding
    ensures Fails(p, s, [Tick])
  {
    assert [Tick][1..] == [];
  }

  /** One answered ping is enough. */
  lemma TimeoutTooShort(p: Setting, s: Clock) returns (es: seq<Event>)
    requires Init(p, s) && p.timeout < p.interval
    ensures Fails(p, s, es)
  {
    hide Fails;
    var s1 := Step(p, s, Pass(p.interval));
    var s2 := Step(p, s1, Fire);
    var s3 := Step(p, s2, Tick);
    var s4 := Step(p, s3, Ping(true, 1));
    var s5 := Step(p, s4, Pong);
    var s6 := Step(p, s5, Pass(p.interval));
    var s7 := Step(p, s6, Fire);
    FailsAt(p, s7);
    es := FailsEarlier(p, s6, Fire, [Tick]);
    es := FailsEarlier(p, s5, Pass(p.interval), es);
    es := FailsEarlier(p, s4, Pong, es);
    es := FailsEarlier(p, s3, Ping(true, 1), es);
    es := FailsEarlier(p, s2, Tick, es);
    es := FailsEarlier(p, s1, Fire, es);
    es := FailsEarlier(p, s, Pass(p.interval), es);
  }

  /** The interval being no longer than the timeout is exactly what stability needs. */
  lemma StableIff(p: Setting, s: Clock)
    requires Init(p, s)
    ensures (forall es :: !Fails(p, s, es)) <==> p.interval <= p.timeout
  {
    if p.interval <= p.timeout {
      SessionsBeginFresh(p, s);
      forall es | Feasible(p, s, es) && Answered(p, s, es) && AllResume(p, s, es) ensures Quiet(p, s, es) {
        KeepaliveStable(p, s, es);
      }
    } else {
      var es := TimeoutTooShort(p, s);
    }
  }

  // -------------------------------------------------------- ticks inside a loop

  /** Whether a loop is active behind `es`, given whether one was before. */
  function LoopActive(active: bool, es: seq<Event>): bool
    decreases |es|
  {
    if es == [] then active
    else LoopActive(if es[0].Lost? then true else if es[0].LoopEnds? then false else active, es[1..])
  }

  lemma {:induction false} RaisingWaits(p: Setting, s: Clock, es: seq<Event>)
    requires s.phase.Raising? && Feasible(p, s, es) && Enter !in es
    ensures Run(p, s, es).phase.Raising? && Run(p, s, es).reconnecting == LoopActive(s.reconnecting, es)
    decreases |es|
  {
    if es != [] {
      assert es[0] in es;
      RaisingWaits(p, Step(p, s, es[0]), es[1..]);
    }
  }

  /** A tick that raises a timeout starts a new loop exactly when no loop is active by the time the
      goroutine asks for one; a tick inside a loop that is still active then only goes back to
      waiting. */
  lemma RaisedTick(p: Setting, s: Clock, es: seq<Event>)
    requires Enabled(s, Tick) && Late(p, s) && Feasible(p, Step(p, s, Tick), es) && Enter !in es
    ensures var s' := Run(p, Step(p, s, Tick), es);
            && Enabled(s', Enter)
            && Step(p, s', Enter).phase == (if LoopActive(s.reconnecting, es) then Waiting else Looping)
  {
    RaisingWaits(p, Step(p, s, Tick), es);
  }

  /** Such ticks happen, whatever the interval and the timeout: a run with every ping answered and
      no loop ended leads to a tick inside a loop that raises a timeout. */
  lemma LateInsideLoop(p: Setting, s: Clock) returns (es: seq<Event>)
    requires Init(p, s) && p.interval <= p.timeout
    ensures Feasible(p, s, es) && Answered(p, s, es) && AllResume(p, s, es)
    ensures var s' := Run(p, s, es); Enabled(s', Tick) && Late(p, s') && s'.reconnecting && !s'.outstanding
  {
    hide Feasible, Answered, AllResume, Run;
    es := TickInLoop(p, s);
    var s1 := Run(p, s, es);
    var wait := TimeAway(p, s1, p.timeout);
    LongEnough(p);
    Append(p, s, es, wait);
    es := Next(p, s, es + wait, Ping(true, 2));
  }

  lemma LongEnough(p: Setting)
    requires 0 < p.interval && 0 < p.timeout
    ensures p.timeout * p.interval >= p.timeout
  {
  }

  /** One answered ping; then a loop begins, and the next tick comes up to its ping. */
  lemma TickInLoop(p: Setting, s: Clock) returns (es: seq<Event>)
    requires Init(p, s) && p.interval <= p.timeout
    ensures Feasible(p, s, es) && Answered(p, s, es) && AllResume(p, s, es)
    ensures var s' := Run(p, s, es);
            && s'.phase.Pinging? && s'.reconnecting && !s'.outstanding && s'.lastKeepaliveId == 1
            && s'.lastPongAt < s'.now && s'.nextFire == s'.now + p.interval
  {
    hide Feasible, Answered, AllResume, Run;
    es := PingAnswered(p, s);
    es := Next(p, s, es, Lost);
    es := Next(p, s, es, Pass(p.interval));
    es := Next(p, s, es, Fire);
    es := Next(p, s, es, Tick);
  }

  /** If the loop resumes its session and ends before the goroutine asks, the tick starts a second
      loop although every ping was answered and every loop has resumed. */
  lemma SecondLoop(p: Setting, s: Clock) returns (es: seq<Event>)
    requires Init(p, s) && p.interval <= p.timeout
    ensures Feasible(p, s, es) && Answered(p, s, es) && AllResume(p, s, es)
    ensures Run(p, s, es).phase.Looping? && Run(p, s, es).lastKeepaliveId == 0
  {
    hide Feasible, Answered, AllResume, Run;
    es := LateInsideLoop(p, s);
    es := Next(p, s, es, Tick);
    es := Next(p, s, es, Resumed);
    es := Next(p, s, es, LoopEnds);
    es := Next(p, s, es, Enter);
  }

  // ------------------------------------------- a loop that does not resume the session

  /** While the goroutine is away from its select the ticker fires and no tick is taken. */
  lemma {:induction false} TimeAway(p: Setting, s: Clock, n: nat) returns (es: seq<Event>)
    requires !s.phase.Waiting? && s.nextFire == s.now + p.interval && 0 < p.interval && 0 < n
    ensures Feasible(p, s, es) && Answered(p, s, es) && AllResume(p, s, es)
    ensures Run(p, s, es)
         == s.(now := s.now + n * p.interval, nextFire := s.now + (n + 1) * p.interval, pending := true)
    decreases n
  {
    es := [];
    Nothing(p, s);
    hide Feasible, Answered, AllResume, Run;
    es := Next(p, s, es, Pass(p.interval));
    es := Next(p, s, es, Fire);
    if n > 1 {
      var rest := TimeAway(p, Run(p, s, es), n - 1);
      Append(p, s, es, rest);
      es := es + rest;
    }
    assert s.now + p.interval + (n - 1) * p.interval == s.now + n * p.interval;
  }

  lemma Nothing(p: Setting, s: Clock)
    ensures Feasible(p, s, []) && Answered(p, s, []) && AllResume(p, s, []) && Run(p, s, []) == s
  {
  }

  lemma {:induction false} Append(p: Setting, s: Clock, a: seq<Event>, b: seq<Event>)
    requires Feasible(p, s, a) && Answered(p, s, a) && Feasible(p, Run(p, s, a), b) && Answered(p, Run(p, s, a), b)
    ensures Feasible(p, s, a + b) && Answered(p, s, a + b) && Run(p, s, a + b) == Run(p, Run(p, s, a), b)
    ensures AllResume(p, s, a + b) <==> AllResume(p, s, a) && AllResume(p, Run(p, s, a), b)
    decreases |a|
  {
    hide Step, Enabled;
    if a == [] {
      assert a + b == b;
    } else {
      Append(p, Step(p, s, a[0]), a[1..], b);
      assert (a + b)[1..] == a[1..] + b;
    }
  }

  lemma Next(p: Setting, s: Clock, es: seq<Event>, e: Event) returns (fs: seq<Event>)
    requires Feasible(p, s, es) && Answered(p, s, es) && Enabled(Run(p, s, es), e)
    requires e.Tick? ==> !Run(p, s, es).outstanding
    ensures fs == es + [e] && Feasible(p, s, fs) && Answered(p, s, fs) && Run(p, s, fs) == Step(p, Run(p, s, es), e)
    ensures AllResume(p, s, fs) <==> AllResume(p, s, es) && (e.LoopEnds? ==> Run(p, s, es).resumed)
  {
    var s' := Run(p, s, es);
    Nothing(p, Step(p, s', e));
    assert [e][1..] == [];
    Append(p, s, es, [e]);
    fs := es + [e];
  }

  /** One ping, answered at once. */
  lemma PingAnswered(p: Setting, s: Clock) returns (es: seq<Event>)
    requires Init(p, s)
    ensures Feasible(p, s, es) && Answered(p, s, es) && AllResume(p, s, es)
    ensures var s' := Run(p, s, es);
            && s'.phase.Waiting? && !s'.reconnecting && !s'.outstanding && !s'.pending && s'.lastKeepaliveId == 1
            && s'.lastPongAt == s'.now && s'.nextFire == s'.now + p.interval
  {
    es := [];
    Nothing(p, s);
    hide Feasible, Answered, AllResume, Run;
    es := Next(p, s, es, Pass(p.interval));
    es := Next(p, s, es, Fire);
    es := Next(p, s, es, Tick);
    es := Next(p, s, es, Ping(true, 1));
    es := Next(p, s, es, Pong);
  }

  /** Then a ping that cannot be sent puts the goroutine into a loop. */
  lemma PingFails(p: Setting, s: Clock) returns (es: seq<Event>)
    requires Init(p, s) && p.interval <= p.timeout
    ensures Feasible(p, s, es) && Answered(p, s, es)
    ensures var s' := Run(p, s, es);
            && s'.phase.Looping? && s'.reconnecting && !s'.outstanding && s'.lastKeepaliveId == 1
            && s'.lastPongAt < s'.now && s'.nextFire == s'.now + p.interval
  {
    hide Feasible, Answered, AllResume, Run;
    es := PingAnswered(p, s);
    es := Next(p, s, es, Pass(p.interval));
    es := Next(p, s, es, Fire);
    es := Next(p, s, es, Tick);
    es := Next(p, s, es, Ping(false, 2));
    es := Next(p, s, es, Enter);
  }

  /** A loop that ends without a resumed session leaves the last ping's id and the last pong's time
      behind: whatever the interval and the timeout, there is a run with every ping answered whose
      last tick is taken outside a loop and raises a timeout. */
  lemma SpuriousTimeout(p: Setting, s: Clock) returns (es: seq<Event>)
    requires Init(p, s) && p.interval <= p.timeout
    ensures Feasible(p, s, es + [Tick]) && Answered(p, s, es + [Tick])
    ensures Feasible(p, s, es) && !Run(p, s, es).reconnecting && Late(p, Run(p, s, es))
  {
    hide Feasible, Answered, AllResume, Run;
    es := PingFails(p, s);
    var s1 := Run(p, s, es);
    var wait := TimeAway(p, s1, p.timeout);
    LongEnough(p);
    Append(p, s, es, wait);
    es := Next(p, s, es + wait, LoopEnds);
    var _ := Next(p, s, es, Tick);
  }
}
