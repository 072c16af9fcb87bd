/** Many goroutines decode and encode at the same time and share one header pool. Each step is one
    access to the pool, to a context's header slot, or to the fields of a header, so the steps of
    different goroutines interleave in every possible way. */
module Ownership {
  import opened Bytes
  import opened Frame
  import Stream
  import Metadata
  import Packing

  type Hid = nat

  // ------------------------------------------------------------------- goroutines

  datatype Pc =
    | Idle
    | Entered          // a call has begun
    | Took(h: Hid)     // a header was taken from the pool and still holds what it held before
    | Clean(h: Hid)    // its fields are cleared
    | Held(h: Hid)     // it is in the slot (decoding), or filled in (encoding)
    | Parsed(h: Hid)   // decoding: the header is complete
    | Dropping(h: Hid) // decoding: the outcome is known
    | Putting(h: Hid)  // the slot is empty, the header not yet back in the pool

  /** A decoding call: of the stream decoder when bytes have arrived, or of the one-shot decoder. */
  datatype Input = Chunk(bytes: Str) | Whole(frame: Str)

  /** A packet to encode, with an enumeration of its metadata keys. */
  type Job = j: Packing.Job | forall i :: 0 <= i < |j.order| ==> j.order[i] in j.packet.values
    witness Packing.Job(Packet(Untyped, 0, 0, 0, 0, 0, false, false, 0, [], map[], []), 0, [])

  /** What a goroutine works on: it decodes on its own context, or it encodes packets. `calls` and
      `jobs` are the history of the calls made. */
  datatype Work =
    | Reading(cfg: Config, buf: Str, calls: seq<Input>, log: seq<Result<Packet>>)
    | Writing(cfg: Config, jobs: seq<Job>, frames: seq<Result<Str>>)

  /** `taken` and `returned` count the headers taken from the pool and put back. */
  datatype Actor = Actor(pc: Pc, slot: Option<Hid>, work: Work, taken: nat, returned: nat)

  /** The pool keeps count, so that a header put back twice would be in it twice. */
  datatype Memory = Memory(pool: multiset<Hid>, heap: map<Hid, Header>)

  datatype Effect = Quiet | Acquire(h: Hid) | Store(h: Hid, x: Header) | Release(h: Hid)

  datatype Next = Next(effect: Effect, a: Actor)

  datatype Move =
    | Call(input: Input) // a decoding call begins
    | Order(job: Job)    // an encoding call begins
    | Go(h: Hid)         // the next step; `h` is the header the pool hands out, if one is asked for

  /** Taking gives any pooled header, or a new one. */
  function Apply(m: Memory, e: Effect): Memory {
    match e
    case Quiet => m
    case Acquire(h) => if h in m.pool then m.(pool := m.pool - multiset{h}) else m.(heap := m.heap[h := FRESH])
    case Store(h, x) => m.(heap := m.heap[h := x])
    case Release(h) => m.(pool := m.pool + multiset{h})
  }

  predicate Can(m: Memory, a: Actor, e: Move) {
    match e
    case Call(_) => a.work.Reading? && a.pc.Idle?
    case Order(_) => a.work.Writing? && a.pc.Idle?
    case Go(h) =>
      && !a.pc.Idle?
      && (a.pc.Entered? && a.slot.None? ==> h in m.pool || h !in m.heap)
      && (a.pc.Parsed? || a.pc.Dropping? ==> a.work.Reading?)
      && HasCall(a.work)
  }

  /** A call is under way, and encoding has got as far as asking for a header. */
  predicate HasCall(w: Work) {
    && (w.Reading? ==> w.calls != [])
    && (w.Writing? ==> w.jobs != [] && Body(w.cfg, Last(w.jobs)).Some?)
  }

  function Last<T>(s: seq<T>): T
    requires s != []
  {
    s[|s| - 1]
  }

  /** The packet with the body that goes on the wire, unless it cannot be compressed or is too long. */
  function Body(cfg: Config, j: Job): Option<Packet> {
    var q := Packing.Squeeze(cfg.gzip, j.packet, j.min);
    if q.Some? && |q.value.body| <= MAX_BODY_LENGTH then q else None
  }

  function SectionOf(cfg: Config, j: Job): Str {
    Packing.Section(cfg.version, j.packet, j.order)
  }

  /** The header fields of the packet, as the encoder fills them in. */
  function HeaderFor(cfg: Config, j: Job): Header
    requires Body(cfg, j).Some?
  {
    Packing.HeaderOf(Body(cfg, j).value, |SectionOf(cfg, j)| % 0x1_0000, |Body(cfg, j).value.body| % 0x1_0000_0000)
  }

  /** The frame, with the header encoded from the fields `x` that the encoder finds. */
  function FrameFor(cfg: Config, j: Job, x: Header): Result<Str>
    requires Body(cfg, j).Some?
  {
    var q, md := Body(cfg, j).value, SectionOf(cfg, j);
    match Packing.PackHeader(cfg.version, x)
    case Err(e) => Err(e)
    case Ok(hd) => Ok(Packing.Lay(q, hd, md, Packing.TrailerAt(hd, md, q.body, false)))
  }

  /** The next step of a goroutine whose own header, if it has one, holds `x`. */
  function Advance(a: Actor, h: Hid, x: Header): Next
    requires !a.pc.Idle? && (a.pc.Parsed? || a.pc.Dropping? ==> a.work.Reading?) && HasCall(a.work)
  {
    match a.pc
    case Entered =>
      if a.slot.Some? then Next(Quiet, a.(pc := Held(a.slot.value)))
      else Next(Acquire(h), a.(pc := Took(h), taken := a.taken + 1))
    case Took(h) => Next(Store(h, FRESH), a.(pc := Clean(h)))
    case Clean(h) =>
      if a.work.Reading? then Next(Quiet, a.(pc := Held(h), slot := Some(h)))
      else Next(Store(h, HeaderFor(a.work.cfg, Last(a.work.jobs))), a.(pc := Held(h)))
    case Held(h) => if a.work.Reading? then ReadHeader(a, h, x) else PutHeader(a, h, x)
    case Parsed(h) => ReadSections(a, h, x)
    case Dropping(h) => Next(Quiet, a.(pc := Putting(h), slot := None))
    case Putting(h) => Next(Release(h), a.(pc := Idle, returned := a.returned + 1))
  }

  function ReadHeader(a: Actor, h: Hid, x: Header): Next
    requires a.work.Reading? && a.work.calls != []
  {
    match Last(a.work.calls)
    case Chunk(_) =>
      if x.unpacked then Next(Quiet, a.(pc := Parsed(h)))
      else (
        match UnpackHeader(a.work.cfg.version, x, a.work.buf)
        case Pending(y, r) => Next(Store(h, y), a.(pc := Idle, work := a.work.(buf := r)))
        case Ready(y, r) => Next(Store(h, y), a.(pc := Parsed(h), work := a.work.(buf := r)))
        case Malformed(r) =>
          Next(Store(h, if x.begun || a.work.buf == [] then x else ReadFirst(x, a.work.buf[0])),
               a.(pc := Dropping(h), work := a.work.(buf := r, log := a.work.log + [Err(UnknownPacket)]))))
    case Whole(f) =>
      match FrameHeader(a.work.cfg.version, x, f)
      case Ok(y) => Next(Store(h, y), a.(pc := Parsed(h)))
      case Err(e) => Next(Quiet, a.(pc := Dropping(h), work := a.work.(log := a.work.log + [Err(e)])))
  }

  function ReadSections(a: Actor, h: Hid, x: Header): Next
    requires a.work.Reading? && a.work.calls != []
  {
    match Last(a.work.calls)
    case Whole(f) =>
      Next(Quiet, a.(pc := Dropping(h), work := a.work.(log := a.work.log + [FrameBody(a.work.cfg, x, f)])))
    case Chunk(_) =>
      match UnpackSections(a.work.cfg, x, a.work.buf)
      case Waiting(_, r) => Next(Quiet, a.(pc := Idle, work := a.work.(buf := r)))
      case Decoded(p, r) =>
        Next(Quiet, a.(pc := Dropping(h), work := a.work.(buf := r, log := a.work.log + [Ok(p)])))
      case Failed(e, r) =>
        Next(Quiet, a.(pc := Dropping(h), work := a.work.(buf := r, log := a.work.log + [Err(e)])))
  }

  function PutHeader(a: Actor, h: Hid, x: Header): Next
    requires a.work.Writing? && HasCall(a.work)
  {
    Next(Quiet, a.(pc := Putting(h),
                   work := a.work.(frames := a.work.frames + [FrameFor(a.work.cfg, Last(a.work.jobs), x)])))
  }

  function Owned(a: Actor): Option<Hid> {
    if a.pc.Idle? || a.pc.Entered? then a.slot else Some(a.pc.h)
  }

  /** What the goroutine finds in its header. */
  function Content(m: Memory, a: Actor): Header {
    if Owned(a).Some? && Owned(a).value in m.heap then m.heap[Owned(a).value] else FRESH
  }

  function Begun(w: Work, c: Input): Work
    requires w.Reading?
  {
    w.(buf := if c.Chunk? then w.buf + c.bytes else w.buf, calls := w.calls + [c])
  }

  /** A packet that cannot be compressed or is too long is refused before a header is taken. */
  function Ordered(w: Work, j: Job): Work
    requires w.Writing?
  {
    w.(jobs := w.jobs + [j],
       frames := if Body(w.cfg, j).Some? then w.frames
                 else w.frames + [Err(if Packing.Squeeze(w.cfg.gzip, j.packet, j.min).None? then GzipFailure
                                      else BodyLenHitLimit)])
  }

  function Act(m: Memory, a: Actor, e: Move): Next
    requires Can(m, a, e)
  {
    match e
    case Call(c) => Next(Quiet, a.(pc := Entered, work := Begun(a.work, c)))
    case Order(j) =>
      Next(Quiet, a.(pc := if Body(a.work.cfg, j).Some? then Entered else Idle, work := Ordered(a.work, j)))
    case Go(h) => Advance(a, h, Content(m, a))
  }

  // ----------------------------------------------------------- a goroutine on its own

  /** What a sequence of decoding calls amounts to: the header kept, the bytes left, the outcomes. */
  datatype Progress = Progress(kept: Option<Header>, rest: Str, log: seq<Result<Packet>>)

  function StartOf(kept: Option<Header>): Header {
    if kept.Some? then kept.value else FRESH
  }

  function Concluded(o: Outcome, log: seq<Result<Packet>>): Progress {
    match o
    case Waiting(x, r) => Progress(Some(x), r, log)
    case Decoded(p, r) => Progress(None, r, log + [Ok(p)])
    case Failed(e, r) => Progress(None, r, log + [Err(e)])
  }

  /** One more call. */
  function After(cfg: Config, s: Progress, c: Input): Progress {
    match c
    case Chunk(b) => Concluded(Unpack(cfg, StartOf(s.kept), s.rest + b), s.log)
    case Whole(f) => Progress(None, s.rest, s.log + [UnpackBytes(cfg, StartOf(s.kept), f)])
  }

  /** The decoding calls of one context with nobody else around and no pool. */
  function Alone(cfg: Config, calls: seq<Input>): Progress {
    if calls == [] then Progress(None, [], [])
    else After(cfg, Alone(cfg, calls[..|calls| - 1]), Last(calls))
  }

  /** The frames of a list of packets, by the encoder's specification. */
  function FramesOf(cfg: Config, jobs: seq<Job>): seq<Result<Str>> {
    if jobs == [] then []
    else
      var j := Last(jobs);
      FramesOf(cfg, jobs[..|jobs| - 1]) + [Packing.PackFrame(cfg, j.packet, j.min, j.order, false)]
  }

  // ------------------------------------------------------- what holds of a goroutine

  /** The slot is filled exactly while a call needs it, and the goroutine has put back every header
      it has taken, except the one it owns. */
  predicate Tidy(a: Actor) {
    && (a.work.Reading? && (a.pc.Held? || a.pc.Parsed? || a.pc.Dropping?) ==> a.slot == Some(a.pc.h))
    && (a.pc.Took? || a.pc.Clean? || a.pc.Putting? || a.work.Writing? ==> a.slot.None?)
    && (a.work.Writing? ==> !a.pc.Parsed? && !a.pc.Dropping? && (a.pc.Idle? || HasCall(a.work)))
    && (a.work.Reading? ==> a.pc.Idle? || a.work.calls != [])
    && a.taken == a.returned + (if Owned(a).Some? then 1 else 0)
  }

  function KeptOf(a: Actor, x: Header): Option<Header> {
    if a.slot.Some? then Some(x) else None
  }

  /** Before the outcome of a call is known, what is left to do gives that outcome. */
  predicate UnderWay(pc: Pc, w: Work, kept: Option<Header>, x: Header)
    requires w.Reading?
  {
    && w.calls != []
    && var s := Alone(w.cfg, w.calls[..|w.calls| - 1]);
       && w.log == s.log
       && (pc.Parsed? ==> Rest(w, x) == After(w.cfg, s, Last(w.calls)))
       && (!pc.Parsed? ==> w.buf == if Last(w.calls).Chunk? then s.rest + Last(w.calls).bytes else s.rest)
       && (pc.Entered? ==> kept == s.kept)
       && (pc.Took? || pc.Clean? ==> s.kept.None?)
       && (pc.Clean? ==> x == FRESH)
       && (pc.Held? ==> x == StartOf(s.kept))
  }

  /** What the call comes to, once its header is complete. */
  function Rest(w: Work, x: Header): Progress
    requires w.Reading? && w.calls != []
  {
    match Last(w.calls)
    case Chunk(_) => Concluded(UnpackSections(w.cfg, x, w.buf), w.log)
    case Whole(f) => Progress(None, w.buf, w.log + [FrameBody(w.cfg, x, f)])
  }

  predicate Reads(a: Actor, x: Header)
    requires a.work.Reading?
  {
    if a.pc.Idle? || a.pc.Dropping? || a.pc.Putting? then
      Progress(if a.pc.Idle? then KeptOf(a, x) else None, a.work.buf, a.work.log) == Alone(a.work.cfg, a.work.calls)
    else
      UnderWay(a.pc, a.work, KeptOf(a, x), x)
  }

  predicate Writes(a: Actor, x: Header)
    requires a.work.Writing?
  {
    if a.pc.Idle? || a.pc.Putting? then a.work.frames == FramesOf(a.work.cfg, a.work.jobs)
    else
      && HasCall(a.work)
      && a.work.frames == FramesOf(a.work.cfg, a.work.jobs[..|a.work.jobs| - 1])
      && (a.pc.Held? ==> x == HeaderFor(a.work.cfg, Last(a.work.jobs)))
  }

  /** The goroutine is where it would be on its own, `x` being what it finds in its header. */
  predicate Works(a: Actor, x: Header) {
    if a.work.Reading? then Reads(a, x) else Writes(a, x)
  }

  // ------------------------------------------------------------- a step, on its own

  /** How an effect changes what the goroutine owns. */
  predicate Fits(m: Memory, e: Effect, owned: Option<Hid>, owned': Option<Hid>) {
    match e
    case Quiet => owned' == owned
    case Acquire(h) => owned.None? && owned' == Some(h) && (h in m.pool || h !in m.heap)
    case Store(h, _) => owned == Some(h) && owned' == Some(h)
    case Release(h) => owned == Some(h) && owned'.None?
  }

  /** What the goroutine finds in its header behind the effect. */
  predicate Finds(e: Effect, x: Header, x': Header) {
    (e.Store? ==> x' == e.x) && (e.Quiet? ==> x' == x)
  }

  lemma ActTidy(m: Memory, a: Actor, e: Move)
    requires Tidy(a) && Can(m, a, e)
    ensures var n := Act(m, a, e); Tidy(n.a) && Fits(m, n.effect, Owned(a), Owned(n.a))
  {
    hide UnpackHeader, UnpackSections, ReadFirst, Content, FrameFor, FrameHeader, FrameBody, Body, HeaderFor;
  }

  lemma ReadWorks(m: Memory, a: Actor, e: Move, x': Header)
    requires Tidy(a) && Can(m, a, e) && a.work.Reading? && e.Go?
    requires Reads(a, Content(m, a)) && Finds(Act(m, a, e).effect, Content(m, a), x')
    ensures Works(Act(m, a, e).a, x')
  {
    hide UnpackHeader, UnpackSections, ReadFirst, Content, PutHeader, FrameHeader, FrameBody, UnpackBytes;
    var x := Content(m, a);
    if a.pc.Parsed? {
      SectionsExtend(a.work.cfg, x, a.work.buf, []);
    }
    if a.pc.Held? && Last(a.work.calls).Whole? {
      InTwoSteps(a.work.cfg, x, Last(a.work.calls).frame);
    }
  }

  lemma WriteWorks(m: Memory, a: Actor, e: Move, x': Header)
    requires Tidy(a) && Can(m, a, e) && a.work.Writing? && e.Go?
    requires Writes(a, Content(m, a)) && Finds(Act(m, a, e).effect, Content(m, a), x')
    ensures Works(Act(m, a, e).a, x')
  {
    hide ReadHeader, ReadSections, Content, FrameFor, HeaderFor, Body;
    if a.pc.Held? {
      FrameIsPacked(a.work.cfg, Last(a.work.jobs));
    }
  }

  /** The frame built around the header's fields is the one the encoder's specification gives. */
  lemma FrameIsPacked(cfg: Config, j: Job)
    ensures Packing.PackFrame(cfg, j.packet, j.min, j.order, false)
         == if Body(cfg, j).Some? then FrameFor(cfg, j, HeaderFor(cfg, j))
            else Err(if Packing.Squeeze(cfg.gzip, j.packet, j.min).None? then GzipFailure else BodyLenHitLimit)
  {
    hide Packing.PackHeader, Packing.Lay, Metadata.MarshalValues;
  }

  lemma ActWorks(m: Memory, a: Actor, e: Move, x': Header)
    requires Tidy(a) && Can(m, a, e) && Works(a, Content(m, a)) && Finds(Act(m, a, e).effect, Content(m, a), x')
    ensures Works(Act(m, a, e).a, x')
  {
    hide Act, Reads, Writes, Content;
    if e.Call? {
      CallWorks(m, a, e, x');
    } else if e.Order? {
      OrderWorks(m, a, e, x');
    } else if a.work.Reading? {
      ReadWorks(m, a, e, x');
    } else {
      WriteWorks(m, a, e, x');
    }
  }

  lemma CallWorks(m: Memory, a: Actor, e: Move, x': Header)
    requires Can(m, a, e) && e.Call? && Reads(a, Content(m, a)) && Finds(Act(m, a, e).effect, Content(m, a), x')
    ensures Works(Act(m, a, e).a, x')
  {
    hide Advance, Content, After;
    assert (a.work.calls + [e.input])[..|a.work.calls|] == a.work.calls;
  }

  lemma OrderWorks(m: Memory, a: Actor, e: Move, x': Header)
    requires Can(m, a, e) && e.Order? && Writes(a, Content(m, a))
    ensures Works(Act(m, a, e).a, x')
  {
    hide Advance, Content, FrameFor, HeaderFor, Body, Packing.PackFrame;
    assert (a.work.jobs + [e.job])[..|a.work.jobs|] == a.work.jobs;
    FrameIsPacked(a.work.cfg, e.job);
  }

  // ------------------------------------------------------------------- all together

  datatype World = World(m: Memory, actors: map<nat, Actor>)

  /** Goroutine `i` makes a move, or the garbage collector drops a pooled header. */
  datatype Event = Turn(i: nat, e: Move) | Collect(h: Hid)

  predicate Enabled(w: World, e: Event) {
    match e
    case Turn(i, mv) => i in w.actors && Can(w.m, w.actors[i], mv)
    case Collect(h) => h in w.m.pool
  }

  function Step(w: World, e: Event): World
    requires Enabled(w, e)
  {
    match e
    case Turn(i, mv) =>
      var n := Act(w.m, w.actors[i], mv);
      World(Apply(w.m, n.effect), w.actors[i := n.a])
    case Collect(h) => w.(m := Memory(w.m.pool - multiset{h}, w.m.heap - {h}))
  }

  /** No goroutine has done anything, and the pool is empty. */
  predicate Init(w: World) {
    && w.m == Memory(multiset{}, map[])
    && forall i :: i in w.actors ==>
         var a := w.actors[i];
         && a.pc.Idle? && a.slot.None? && a.taken == 0 && a.returned == 0
         && (a.work.Reading? ==> a.work.buf == [] && a.work.calls == [] && a.work.log == [])
         && (a.work.Writing? ==> a.work.jobs == [] && a.work.frames == [])
  }

  /** No header is in the pool twice. */
  ghost predicate PooledOnce(m: Memory) {
    forall h: Hid :: h in m.pool ==> m.pool[h] == 1 && h in m.heap
  }

  /** The owned header is not in the pool. */
  predicate Apart(m: Memory, owned: Option<Hid>) {
    owned.Some? ==> owned.value in m.heap && owned.value !in m.pool
  }

  ghost predicate NotPooled(w: World) {
    forall i :: i in w.actors ==> Apart(w.m, Owned(w.actors[i]))
  }

  ghost predicate NotShared(w: World) {
    forall i, j :: i in w.actors && j in w.actors && i != j && Owned(w.actors[i]).Some? ==>
      Owned(w.actors[i]) != Owned(w.actors[j])
  }

  ghost predicate NotLost(w: World) {
    forall h: Hid :: h in w.m.heap && h !in w.m.pool ==> exists i :: i in w.actors && Owned(w.actors[i]) == Some(h)
  }

  /** Every header that exists is in exactly one place: once in the pool, or with one goroutine. */
  ghost predicate OnePlace(w: World) {
    PooledOnce(w.m) && NotPooled(w) && NotShared(w) && NotLost(w)
  }

  predicate Own(m: Memory, a: Actor) {
    Tidy(a) && Works(a, Content(m, a))
  }

  ghost predicate Inv(w: World) {
    OnePlace(w) && forall i :: i in w.actors ==> Own(w.m, w.actors[i])
  }

  lemma InitInv(w: World)
    requires Init(w)
    ensures Inv(w)
  {
  }

  /** What an effect does to the headers its goroutine does not own, seen from the others. */
  lemma EffectPlaces(m: Memory, e: Effect, owned: Option<Hid>, owned': Option<Hid>)
    requires PooledOnce(m) && Apart(m, owned) && Fits(m, e, owned, owned')
    ensures PooledOnce(Apply(m, e)) && Apart(Apply(m, e), owned')
    ensures forall h: Hid :: h in m.heap && h !in m.pool && owned != Some(h) ==>
              h in Apply(m, e).heap && h !in Apply(m, e).pool && owned' != Some(h)
    ensures forall h: Hid :: h in Apply(m, e).heap && h !in Apply(m, e).pool && owned' != Some(h) ==>
              h in m.heap && h !in m.pool && owned != Some(h)
  {
  }

  lemma TurnOnePlace(w: World, i: nat, mv: Move)
    requires Inv(w) && Enabled(w, Turn(i, mv))
    ensures OnePlace(Step(w, Turn(i, mv)))
  {
    hide Act, Can, Works, Tidy, Apply, Fits, Owned;
    hide NotLost;
    var a, n := w.actors[i], Act(w.m, w.actors[i], mv);
    ActTidy(w.m, a, mv);
    EffectPlaces(w.m, n.effect, Owned(a), Owned(n.a));
    var w' := Step(w, Turn(i, mv));
    assert forall j :: j in w.actors && j != i ==> w'.actors[j] == w.actors[j];
    TurnNotLost(w, i, mv);
  }

  lemma TurnNotLost(w: World, i: nat, mv: Move)
    requires Inv(w) && Enabled(w, Turn(i, mv))
    ensures NotLost(Step(w, Turn(i, mv)))
  {
    hide Act, Can, Works, Tidy, Apply, Fits, Owned, NotShared;
    var a, n := w.actors[i], Act(w.m, w.actors[i], mv);
    ActTidy(w.m, a, mv);
    EffectPlaces(w.m, n.effect, Owned(a), Owned(n.a));
    var w' := Step(w, Turn(i, mv));
    forall h: Hid | h in w'.m.heap && h !in w'.m.pool
      ensures exists j :: j in w'.actors && Owned(w'.actors[j]) == Some(h)
    {
      if Owned(n.a) == Some(h) {
        assert Owned(w'.actors[i]) == Some(h);
      } else {
        var j :| j in w.actors && Owned(w.actors[j]) == Some(h);
        assert Owned(w'.actors[j]) == Some(h);
      }
    }
  }

  /** The headers of the others stay as they are. */
  lemma OthersContent(w: World, i: nat, mv: Move, j: nat)
    requires Inv(w) && Enabled(w, Turn(i, mv)) && j in w.actors && j != i
    ensures Content(Step(w, Turn(i, mv)).m, w.actors[j]) == Content(w.m, w.actors[j])
  {
    hide Act, Can, Works, Tidy;
    ActTidy(w.m, w.actors[i], mv);
  }

  lemma OwnContent(w: World, i: nat, mv: Move)
    requires Inv(w) && Enabled(w, Turn(i, mv))
    ensures var n := Act(w.m, w.actors[i], mv);
            Finds(n.effect, Content(w.m, w.actors[i]), Content(Apply(w.m, n.effect), n.a))
  {
    hide Act, Can, Works, Tidy;
    ActTidy(w.m, w.actors[i], mv);
  }

  lemma TurnInv(w: World, i: nat, mv: Move)
    requires Inv(w) && Enabled(w, Turn(i, mv))
    ensures Inv(Step(w, Turn(i, mv)))
  {
    hide Act, Can, Works, Tidy, OnePlace, Content, Apply, Finds;
    var w' := Step(w, Turn(i, mv));
    TurnOnePlace(w, i, mv);
    OwnContent(w, i, mv);
    ActTidy(w.m, w.actors[i], mv);
    ActWorks(w.m, w.actors[i], mv, Content(w'.m, w'.actors[i]));
    forall j | j in w'.actors && j != i ensures Own(w'.m, w'.actors[j]) {
      OthersContent(w, i, mv, j);
    }
  }

  lemma CollectInv(w: World, h: Hid)
    requires Inv(w) && Enabled(w, Collect(h))
    ensures Inv(Step(w, Collect(h)))
  {
    hide Works, Tidy;
    var w' := Step(w, Collect(h));
    forall i | i in w'.actors ensures Own(w'.m, w'.actors[i]) {
      assert Own(w.m, w.actors[i]);
      assert Content(w'.m, w'.actors[i]) == Content(w.m, w.actors[i]);
    }
  }

  // ---------------------------------------------------------------------- whole runs

  ghost predicate Feasible(w: World, es: seq<Event>)
    decreases |es|
  {
    es == [] || (Enabled(w, es[0]) && Feasible(Step(w, es[0]), es[1..]))
  }

  ghost function Run(w: World, es: seq<Event>): World
    requires Feasible(w, es)
    decreases |es|
  {
    if es == [] then w else Run(Step(w, es[0]), es[1..])
  }

  lemma {:induction false} RunInv(w: World, es: seq<Event>)
    requires Inv(w) && Feasible(w, es)
    ensures Inv(Run(w, es))
    decreases |es|
  {
    hide Inv, Enabled, Step;
    if es != [] {
      match es[0] {
        case Turn(i, mv) => TurnInv(w, i, mv);
        case Collect(h) => CollectInv(w, h);
      }
      RunInv(Step(w, es[0]), es[1..]);
    }
  }

  /** In every interleaving, a header is never both pooled and held, never held by two goroutines,
      never pooled twice, and each goroutine has put back every header it has taken but the one
      it holds. */
  lemma HeaderOwnership(w: World, es: seq<Event>)
    requires Init(w) && Feasible(w, es)
    ensures OnePlace(Run(w, es))
    ensures var w' := Run(w, es);
            forall i :: i in w'.actors ==>
              w'.actors[i].taken == w'.actors[i].returned + (if Owned(w'.actors[i]).Some? then 1 else 0)
  {
    hide OnePlace, Works, Feasible, Run, Init;
    InitInv(w);
    RunInv(w, es);
  }

  /** In every interleaving, what a context has decoded by the end of a call, the bytes it has left
      and the header it keeps are those of the same calls made alone: they depend on its own bytes
      and configuration only. The frames a goroutine has encoded are those of its own packets. */
  lemma NoInterference(w: World, es: seq<Event>, i: nat)
    requires Init(w) && Feasible(w, es) && i in Run(w, es).actors && Run(w, es).actors[i].pc.Idle?
    ensures var a := Run(w, es).actors[i];
            && (a.work.Reading? ==>
                  Progress(KeptOf(a, Content(Run(w, es).m, a)), a.work.buf, a.work.log)
                  == Alone(a.work.cfg, a.work.calls))
            && (a.work.Writing? ==> a.work.frames == FramesOf(a.work.cfg, a.work.jobs))
  {
    hide OnePlace, Tidy, Feasible, Run, Init, Content;
    InitInv(w);
    RunInv(w, es);
    assert Own(Run(w, es).m, Run(w, es).actors[i]);
  }

  // ------------------------------------------------------------- down to the byte streams

  ghost predicate NoError(log: seq<Result<Packet>>) {
    forall k :: 0 <= k < |log| ==> log[k].Ok?
  }

  function PacketsOf(log: seq<Result<Packet>>): seq<Packet> {
    if log == [] then []
    else
      var n := |log| - 1;
      PacketsOf(log[..n]) + if log[n].Ok? then [log[n].value] else []
  }

  ghost predicate OnlyChunks(calls: seq<Input>) {
    forall k :: 0 <= k < |calls| ==> calls[k].Chunk?
  }

  /** The bytes the stream decoder was given. */
  function BytesOf(calls: seq<Input>): Str {
    if calls == [] then []
    else BytesOf(calls[..|calls| - 1]) + if Last(calls).Chunk? then Last(calls).bytes else []
  }

  /** One call: draining goes on from where it ends. */
  lemma CallDrains(cfg: Config, h: Header, b: Str, x: Str)
    requires Resumable(cfg.version, h)
    ensures Resumable(cfg.version, FRESH)
    ensures var o := Unpack(cfg, h, b);
            o.Waiting? ==>
              Resumable(cfg.version, o.header)
              && Stream.Drain(cfg, h, b + x) == Stream.Drain(cfg, o.header, o.rest + x)
    ensures var o := Unpack(cfg, h, b);
            o.Decoded? ==>
              var d := Stream.Drain(cfg, FRESH, o.rest + x);
              Stream.Drain(cfg, h, b + x) == Stream.Drained([o.packet] + d.packets, d.end)
  {
    hide Unpack, Resumable;
    Stream.FreshResumable(cfg.version);
    UnpackExtend(cfg, h, b, x);
    UnpackProgress(cfg, h, b);
  }

  /** Draining bytes `b` is having decoded the log of `s` and going on from there with `x`. */
  ghost predicate GoesOn(cfg: Config, b: Str, s: Progress, x: Str) {
    && Resumable(cfg.version, FRESH) && Resumable(cfg.version, StartOf(s.kept))
    && var d := Stream.Drain(cfg, StartOf(s.kept), s.rest + x);
       Stream.Drain(cfg, FRESH, b) == Stream.Drained(PacketsOf(s.log) + d.packets, d.end)
  }

  lemma ConcludedWithout(o: Outcome, log: seq<Result<Packet>>)
    requires NoError(Concluded(o, log).log)
    ensures !o.Failed? && NoError(log)
  {
    var log' := Concluded(o, log).log;
    assert |log| < |log'| ==> log'[|log|].Ok?;
    assert log == log'[..|log|];
  }

  lemma StartOfEither(o: Outcome)
    ensures StartOf(None) == FRESH && (o.Waiting? ==> StartOf(Some(o.header)) == o.header)
  {
  }

  lemma CallGoesOn(cfg: Config, b: Str, s: Progress, c: Str, x: Str)
    requires GoesOn(cfg, b, s, c + x) && !Unpack(cfg, StartOf(s.kept), s.rest + c).Failed?
    ensures GoesOn(cfg, b, Concluded(Unpack(cfg, StartOf(s.kept), s.rest + c), s.log), x)
  {
    hide Unpack, Resumable, Stream.Drain, PacketsOf, StartOf;
    var o := Unpack(cfg, StartOf(s.kept), s.rest + c);
    StartOfEither(o);
    CallDrains(cfg, StartOf(s.kept), s.rest + c, x);
    assert s.rest + (c + x) == s.rest + c + x;
    if o.Decoded? {
      LogGrows(s.log, s.log + [Ok(o.packet)]);
      var d := Stream.Drain(cfg, FRESH, o.rest + x);
      assert PacketsOf(s.log) + ([o.packet] + d.packets) == PacketsOf(s.log) + [o.packet] + d.packets;
    }
  }

  lemma {:induction false} AloneDrains(cfg: Config, calls: seq<Input>, x: Str)
    requires OnlyChunks(calls) && NoError(Alone(cfg, calls).log)
    ensures GoesOn(cfg, BytesOf(calls) + x, Alone(cfg, calls), x)
    decreases |calls|
  {
    hide Unpack, Resumable, Stream.Drain;
    var s := Alone(cfg, calls);
    if calls == [] {
      Stream.FreshResumable(cfg.version);
      assert BytesOf(calls) + x == x && s.rest + x == x;
      var d := Stream.Drain(cfg, FRESH, x);
      assert PacketsOf([]) + d.packets == d.packets;
    } else {
      hide GoesOn, PacketsOf, Concluded, StartOf, NoError;
      var n := |calls| - 1;
      var s0, c := Alone(cfg, calls[..n]), calls[n].bytes;
      ConcludedWithout(Unpack(cfg, StartOf(s0.kept), s0.rest + c), s0.log);
      AloneDrains(cfg, calls[..n], c + x);
      assert BytesOf(calls[..n]) + (c + x) == BytesOf(calls) + x;
      CallGoesOn(cfg, BytesOf(calls) + x, s0, c, x);
    }
  }

  lemma LogGrows(log: seq<Result<Packet>>, log': seq<Result<Packet>>)
    requires log' == log || (|log'| == |log| + 1 && log'[..|log|] == log && log'[|log|].Ok?)
    ensures log' == log || PacketsOf(log') == PacketsOf(log) + [log'[|log|].value]
  {
  }

  /** Many connections at once: in every interleaving, a context that has met no error has decoded,
      in order, the first packets of its own byte stream as the plain parser reads it. */
  lemma ContextsDecodeTheirStreams(w: World, es: seq<Event>, i: nat)
    requires Init(w) && Feasible(w, es) && i in Run(w, es).actors && Run(w, es).actors[i].pc.Idle?
    requires var k := Run(w, es).actors[i].work; k.Reading? && OnlyChunks(k.calls) && NoError(k.log)
    ensures var k := Run(w, es).actors[i].work;
            PacketsOf(k.log) <= Stream.ParseStream(k.cfg, BytesOf(k.calls)).packets
  {
    hide Init, Feasible, Run, Resumable, PacketsOf, Stream.Drain, Stream.ParseStream, NextFrame, Unpack;
    NoInterference(w, es, i);
    var k := Run(w, es).actors[i].work;
    AloneDrains(k.cfg, k.calls, []);
    assert BytesOf(k.calls) + [] == BytesOf(k.calls);
    Stream.DrainIsParse(k.cfg, BytesOf(k.calls));
  }
}
