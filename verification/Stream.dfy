/** Whole byte streams: what the read loop makes of a stream cut into chunks, and the plain
    parser it is measured against. */
module Stream {
  import opened Bytes
  import opened Frame

  datatype Drained = Drained(packets: seq<Packet>, end: End)

  /** A drained buffer leaves a suspended decoder, or stopped at the first error. */
  datatype End = Suspended(header: Header, rest: Str) | Broken(error: Error)

  /** The loop of readPacket: call Unpack until it waits or fails. */
  function Drain(cfg: Config, h: Header, b: Str): Drained
    requires Resumable(cfg.version, h)
    decreases |b|
  {
    UnpackProgress(cfg, h, b);
    match Unpack(cfg, h, b)
    case Waiting(h', r) => Drained([], Suspended(h', r))
    case Failed(e, _) => Drained([], Broken(e))
    case Decoded(p, r) =>
      var d := Drain(cfg, FRESH, r);
      Drained([p] + d.packets, d.end)
  }

  lemma {:induction false} DrainResumable(cfg: Config, h: Header, b: Str)
    requires Resumable(cfg.version, h)
    ensures var e := Drain(cfg, h, b).end; e.Suspended? ==> Resumable(cfg.version, e.header)
    decreases |b|
  {
    hide Unpack, Resumable;
    UnpackProgress(cfg, h, b);
    match Unpack(cfg, h, b)
    case Decoded(_, r) => FreshResumable(cfg.version); DrainResumable(cfg, FRESH, r);
    case _ =>
  }

  lemma FreshResumable(v: Version)
    ensures Resumable(v, FRESH)
  {
  }

  /** Draining in two goes gives what draining once gives. */
  lemma {:induction false} DrainExtend(cfg: Config, h: Header, b: Str, x: Str)
    requires Resumable(cfg.version, h)
    ensures var d := Drain(cfg, h, b);
            match d.end
            case Broken(_) => Drain(cfg, h, b + x) == d
            case Suspended(h', r) =>
              && Resumable(cfg.version, h')
              && Drain(cfg, h, b + x)
                 == Drained(d.packets + Drain(cfg, h', r + x).packets, Drain(cfg, h', r + x).end)
    decreases |b|
  {
    hide Unpack, Resumable;
    UnpackExtend(cfg, h, b, x);
    UnpackProgress(cfg, h, b);
    match Unpack(cfg, h, b)
    case Waiting(h', r) =>
      assert Drain(cfg, h, b + x) == Drain(cfg, h', r + x);
      assert [] + Drain(cfg, h', r + x).packets == Drain(cfg, h', r + x).packets;
    case Failed(_, _) =>
    case Decoded(p, r) =>
      FreshResumable(cfg.version);
      DrainExtend(cfg, FRESH, r, x);
      var d := Drain(cfg, FRESH, r);
      if d.end.Suspended? {
        var d' := Drain(cfg, d.end.header, d.end.rest + x);
        assert [p] + (d.packets + d'.packets) == [p] + d.packets + d'.packets;
      }
  }

  /** The read loop over a list of chunks: each chunk is drained behind what was left over; the
      first error ends the loop. */
  function ReadAll(cfg: Config, chunks: seq<Str>): (d: Drained)
    ensures d.end.Suspended? ==> Resumable(cfg.version, d.end.header)
  {
    if chunks == [] then Drained([], Suspended(FRESH, []))
    else
      var n := |chunks| - 1;
      var d := ReadAll(cfg, chunks[..n]);
      if d.end.Broken? then d
      else
        var d' := Drain(cfg, d.end.header, d.end.rest + chunks[n]);
        DrainResumable(cfg, d.end.header, d.end.rest + chunks[n]);
        Drained(d.packets + d'.packets, d'.end)
  }

  lemma {:induction false} ReadAllIsDrain(cfg: Config, chunks: seq<Str>)
    ensures Resumable(cfg.version, FRESH)
    ensures ReadAll(cfg, chunks) == Drain(cfg, FRESH, Flatten(chunks))
  {
    hide Unpack, Resumable;
    FreshResumable(cfg.version);
    if chunks == [] {
      DrainNothing(cfg);
    } else {
      var n := |chunks| - 1;
      ReadAllIsDrain(cfg, chunks[..n]);
      assert chunks == chunks[..n] + [chunks[n]];
      FlattenSnoc(chunks[..n], chunks[n]);
      DrainExtend(cfg, FRESH, Flatten(chunks[..n]), chunks[n]);
    }
  }

  lemma DrainNothing(cfg: Config)
    ensures Resumable(cfg.version, FRESH)
    ensures Drain(cfg, FRESH, []) == Drained([], Suspended(FRESH, []))
  {
  }

  /** How TCP cuts the stream does not matter: same packets, same first error, same state left. */
  lemma ChunkingIrrelevant(cfg: Config, chunks: seq<Str>, chunks': seq<Str>)
    requires Flatten(chunks) == Flatten(chunks')
    ensures ReadAll(cfg, chunks) == ReadAll(cfg, chunks')
  {
    ReadAllIsDrain(cfg, chunks);
    ReadAllIsDrain(cfg, chunks');
  }

  // ------------------------------------------------------ the reference parser

  /** Packets of the whole frames in a stream, then the bytes of an unfinished frame or an error. */
  datatype Parsed = Parsed(packets: seq<Packet>, end: ParseEnd)
  datatype ParseEnd = Unfinished(bytes: Str) | Rejected(error: Error)

  /** Cuts the stream at frame boundaries and decodes each frame on its own. */
  function ParseStream(cfg: Config, b: Str): Parsed
    decreases |b|
  {
    match NextFrame(cfg.version, b)
    case More => Parsed([], Unfinished(b))
    case Bad => Parsed([], Rejected(UnknownPacket))
    case Cut(n) =>
      match UnpackBytes(cfg, FRESH, b[..n])
      case Err(e) => Parsed([], Rejected(e))
      case Ok(p) =>
        var d := ParseStream(cfg, b[n..]);
        Parsed([p] + d.packets, d.end)
  }

  /** Same packets; same error, or the state in which a decoder that has seen only the bytes of
      the unfinished frame waits. */
  predicate Agree(cfg: Config, d: Drained, p: Parsed) {
    d.packets == p.packets &&
    match p.end
    case Rejected(e) => d.end == Broken(e)
    case Unfinished(t) =>
      && NextFrame(cfg.version, t).More?
      && d.end.Suspended?
      && Unpack(cfg, FRESH, t) == Waiting(d.end.header, d.end.rest)
  }

  lemma {:induction false} DrainIsParse(cfg: Config, b: Str)
    ensures Resumable(cfg.version, FRESH)
    ensures Agree(cfg, Drain(cfg, FRESH, b), ParseStream(cfg, b))
    decreases |b|
  {
    hide Unpack, NextFrame, UnpackBytes, Resumable;
    FreshResumable(cfg.version);
    DecodersAgree(cfg, b);
    match NextFrame(cfg.version, b)
    case Cut(n) =>
      if UnpackBytes(cfg, FRESH, b[..n]).Ok? {
        DrainIsParse(cfg, b[n..]);
      }
    case _ =>
  }

  /** The read loop, on any chunking of any stream, does what the plain parser does on the whole. */
  lemma ReadLoopParsesStream(cfg: Config, chunks: seq<Str>)
    ensures Agree(cfg, ReadAll(cfg, chunks), ParseStream(cfg, Flatten(chunks)))
  {
    hide Unpack, NextFrame, UnpackBytes, Resumable;
    ReadAllIsDrain(cfg, chunks);
    DrainIsParse(cfg, Flatten(chunks));
  }
}
