/** Which byte arrays a decoded packet refers to. The read loop reads every chunk into the same
    array and decodes straight out of it; the packets it queues must survive the next chunk. */
module Sharing {
  import opened Bytes
  import opened Frame

  /** A Go slice. */
  datatype Slice = Slice(arr: array<byte>, from: nat, to: nat)

  predicate InRange(s: Slice) {
    s.from <= s.to <= s.arr.Length
  }

  function Contents(s: Slice): Str
    requires InRange(s)
    reads s.arr
  {
    s.arr[s.from..s.to]
  }

  /** A packet whose body and signature are slices; `head` holds the other fields. */
  datatype PacketRef = PacketRef(head: Packet, body: Slice, signature: Slice)

  ghost predicate Stands(r: PacketRef, p: Packet)
    reads r.body.arr, r.signature.arr
  {
    && InRange(r.body) && InRange(r.signature)
    && r.head == p.(body := [], signature := [])
    && Contents(r.body) == p.body && Contents(r.signature) == p.signature
  }

  /** The throw-away buffer over a part of the read array. It never wraps. */
  class Window {
    const arr: array<byte>
    const to: nat
    var from: nat

    ghost predicate Valid()
      reads this
    {
      from <= to <= arr.Length
    }

    function Data(): Str
      requires Valid()
      reads this, arr
    {
      arr[from..to]
    }

    constructor (arr: array<byte>, from: nat, to: nat)
      requires from <= to <= arr.Length
      ensures Valid() && this.arr == arr && Data() == arr[from..to]
    {
      this.arr, this.from, this.to := arr, from, to;
    }

    /** make([]byte, n) and a Read into it. */
    method ReadCopy(n: nat) returns (s: Slice)
      requires Valid() && n <= |Data()|
      modifies this`from
      ensures Valid() && fresh(s.arr) && InRange(s)
      ensures Contents(s) == old(Data())[..n] && Data() == old(Data())[n..]
    {
      var data := Data();
      s := Copied(data[..n]);
      from := from + n;
    }
  }

  method Copied(v: Str) returns (s: Slice)
    ensures fresh(s.arr) && InRange(s) && Contents(s) == v
  {
    var a := new byte[|v|](i requires 0 <= i < |v| => v[i]);
    s := Slice(a, 0, |v|);
  }

  function MdOf(v: Version, h: Header, b: Str): Str
    requires Needed(v, h) <= |b|
  {
    b[..MetadataSize(v, h)]
  }

  function BodyOf(v: Version, h: Header, b: Str): Str
    requires Needed(v, h) <= |b|
  {
    b[MetadataSize(v, h)..MetadataSize(v, h) + h.bodyLength]
  }

  function TrailerOf(v: Version, h: Header, b: Str): (t: Str)
    requires Needed(v, h) <= |b|
    ensures |t| == TrailerSize(h)
  {
    b[MetadataSize(v, h) + h.bodyLength..Needed(v, h)]
  }

  function BehindBody(v: Version, h: Header, b: Str): Str
    requires Needed(v, h) <= |b|
  {
    b[MetadataSize(v, h) + h.bodyLength..]
  }

  lemma SectionsInTurn(v: Version, h: Header, b: Str)
    requires Needed(v, h) <= |b|
    ensures MetadataSize(v, h) <= |b| && h.bodyLength <= |b[MetadataSize(v, h)..]|
    ensures b[..MetadataSize(v, h)] == MdOf(v, h, b)
    ensures b[MetadataSize(v, h)..][..h.bodyLength] == BodyOf(v, h, b)
    ensures b[MetadataSize(v, h)..][h.bodyLength..] == BehindBody(v, h, b)
  {
    SubSlice(b, MetadataSize(v, h), 0, h.bodyLength);
    SubSlice(b, MetadataSize(v, h), h.bodyLength, h.bodyLength);
  }

  lemma TrailerBehindBody(v: Version, h: Header, b: Str)
    requires Needed(v, h) <= |b|
    ensures TrailerSize(h) <= |BehindBody(v, h, b)| && BehindBody(v, h, b)[..TrailerSize(h)] == TrailerOf(v, h, b)
  {
    SubSlice(b, MetadataSize(v, h) + h.bodyLength, 0, TrailerSize(h));
  }

  /** The nonce and signature, if there are any. */
  method CopyTrailer(h: Header, w: Window) returns (nonce: Str, signature: Slice)
    requires w.Valid() && TrailerSize(h) <= |w.Data()|
    modifies w`from
    ensures InRange(signature) && fresh(signature.arr)
    ensures nonce + Contents(signature) == old(w.Data())[..TrailerSize(h)]
    ensures |nonce| == if h.verify == 1 then NONCE_LENGTH else 0
  {
    hide Contents, Window.Data;
    ghost var b := w.Data();
    nonce := [];
    if h.verify == 1 {
      var s := w.ReadCopy(NONCE_LENGTH);
      nonce := Contents(s);
      signature := w.ReadCopy(SIGNATURE_LENGTH);
      assert b[NONCE_LENGTH..][..SIGNATURE_LENGTH] == b[NONCE_LENGTH..TRAILER_LENGTH];
    } else {
      signature := w.ReadCopy(0);
    }
  }

  /** Metadata and body, copied out of the window. */
  method CopySections(v: Version, h: Header, w: Window) returns (md: Str, body: Slice)
    requires w.Valid() && Needed(v, h) <= |w.Data()|
    modifies w`from
    ensures w.Valid() && InRange(body) && fresh(body.arr)
    ensures var b := old(w.Data());
            md == MdOf(v, h, b) && Contents(body) == BodyOf(v, h, b) && w.Data() == BehindBody(v, h, b)
  {
    hide Contents, Window.Data, MdOf, BodyOf, BehindBody;
    SectionsInTurn(v, h, w.Data());
    var s := w.ReadCopy(MetadataSize(v, h));
    md := Contents(s);
    body := w.ReadCopy(h.bodyLength);
  }

  /** The part of Unpack behind the header: the packet is the one the bytes stand for, and neither
      its body nor its signature lies in an array that existed before. */
  method CutPacket(cfg: Config, h: Header, w: Window) returns (r: Result<PacketRef>)
    requires w.Valid() && Needed(cfg.version, h) <= |w.Data()|
    modifies w`from
    ensures match UnpackSections(cfg, h, old(w.Data()))
            case Decoded(p, _) => r.Ok? && Stands(r.value, p)
            case Failed(e, _) => r == Err(e)
            case Waiting(_, _) => false
    ensures r.Ok? ==> fresh(r.value.body.arr) && fresh(r.value.signature.arr)
  {
    hide Assemble, UnpackSections, Stands, Contents, MdOf, BodyOf, TrailerOf;
    ghost var b := w.Data();
    var md, body, nonce, signature := CopyAll(cfg.version, h, w);
    SectionsMean(cfg, h, b);
    r := Finish(cfg, h, md, body, nonce, signature);
  }

  lemma SectionsMean(cfg: Config, h: Header, b: Str)
    requires Needed(cfg.version, h) <= |b|
    ensures var v, o := cfg.version, UnpackSections(cfg, h, b);
            match Assemble(cfg, h, MdOf(v, h, b), BodyOf(v, h, b), TrailerOf(v, h, b))
            case Ok(p) => o.Decoded? && o.packet == p
            case Err(e) => o.Failed? && o.error == e
  {
    hide Assemble;
  }

  method CopyAll(v: Version, h: Header, w: Window) returns (md: Str, body: Slice, nonce: Str, signature: Slice)
    requires w.Valid() && Needed(v, h) <= |w.Data()|
    modifies w`from
    ensures InRange(body) && fresh(body.arr) && InRange(signature) && fresh(signature.arr)
    ensures var b := old(w.Data());
            && md == MdOf(v, h, b) && Contents(body) == BodyOf(v, h, b)
            && nonce + Contents(signature) == TrailerOf(v, h, b)
    ensures |nonce| == if h.verify == 1 then NONCE_LENGTH else 0
  {
    hide Contents, Window.Data, MdOf, BodyOf, TrailerOf, BehindBody;
    TrailerBehindBody(v, h, w.Data());
    md, body := CopySections(v, h, w);
    nonce, signature := CopyTrailer(h, w);
  }

  method Finish(cfg: Config, h: Header, md: Str, body: Slice, nonce: Str, signature: Slice)
    returns (r: Result<PacketRef>)
    requires InRange(body) && InRange(signature)
    requires |nonce| == (if h.verify == 1 then NONCE_LENGTH else 0) && |nonce + Contents(signature)| == TrailerSize(h)
    ensures match Assemble(cfg, h, md, Contents(body), nonce + Contents(signature))
            case Ok(p) => r.Ok? && Stands(r.value, p)
            case Err(e) => r == Err(e)
    ensures r.Ok? ==> r.value.signature == signature && (r.value.body == body || fresh(r.value.body.arr))
  {
    hide Assemble;
    var packet := Assemble(cfg, h, md, Contents(body), nonce + Contents(signature));
    if packet.Err? {
      return Err(packet.error);
    }
    var p := packet.value;
    AssembledParts(cfg, h, md, Contents(body), nonce + Contents(signature));
    assert (nonce + Contents(signature))[|nonce|..] == Contents(signature);
    var plain := body;
    if h.gzip == 1 {
      plain := Copied(p.body);
    }
    return Ok(PacketRef(p.(body := [], signature := []), plain, signature));
  }

  lemma AssembledParts(cfg: Config, h: Header, md: Str, body: Str, trailer: Str)
    requires |trailer| == TrailerSize(h) && Assemble(cfg, h, md, body, trailer).Ok?
    ensures var p := Assemble(cfg, h, md, body, trailer).value;
            && (h.gzip != 1 ==> p.body == body)
            && p.signature == trailer[if h.verify == 1 then NONCE_LENGTH else 0..]
  {
  }

  // ------------------------------------------------------------------ the queue

  /** What happens to the read array: a chunk is read into it, or a packet is cut out of it. */
  datatype Op = Arrive(chunk: Str) | Cut(h: Header, from: nat, to: nat)

  function Overwritten(buf: Str, c: Str): (r: Str)
    ensures |r| == |buf|
  {
    if |c| <= |buf| then c + buf[|c|..] else c[..|buf|]
  }

  predicate Covers(cfg: Config, op: Op, n: nat)
    requires op.Cut?
  {
    op.from <= op.to <= n && Needed(cfg.version, op.h) <= op.to - op.from
  }

  /** The packet an operation cuts out of the bytes `buf`, if there is one. */
  function CutOf(cfg: Config, buf: Str, op: Op): seq<Packet>
    requires op.Cut?
  {
    if !Covers(cfg, op, |buf|) then []
    else
      var o := UnpackSections(cfg, op.h, buf[op.from..op.to]);
      if o.Decoded? then [o.packet] else []
  }

  /** The packets cut, each decoded at once from the bytes as they were then. */
  function Replay(cfg: Config, buf: Str, ops: seq<Op>): seq<Packet>
    decreases |ops|
  {
    if ops == [] then []
    else
      match ops[0]
      case Arrive(c) => Replay(cfg, Overwritten(buf, c), ops[1..])
      case Cut(_, _, _) => CutOf(cfg, buf, ops[0]) + Replay(cfg, buf, ops[1..])
  }

  lemma ReplayNext(cfg: Config, buf: Str, ops: seq<Op>, k: nat, before: seq<Packet>)
    requires k < |ops|
    ensures before + Replay(cfg, buf, ops[k..])
         == if ops[k].Arrive? then before + Replay(cfg, Overwritten(buf, ops[k].chunk), ops[k + 1..])
            else before + CutOf(cfg, buf, ops[k]) + Replay(cfg, buf, ops[k + 1..])
  {
    hide CutOf, Overwritten;
    assert ops[k..][1..] == ops[k + 1..];
    if ops[k].Cut? {
      var x, y := CutOf(cfg, buf, ops[k]), Replay(cfg, buf, ops[k + 1..]);
      assert before + (x + y) == before + x + y;
    }
  }

  /** Every queued packet stands for its value, and none lies in the read array. */
  ghost predicate Stable(buf: array<byte>, queue: seq<PacketRef>, values: seq<Packet>)
    reads set r | r in queue :: r.body.arr, set r | r in queue :: r.signature.arr
  {
    && |queue| == |values|
    && forall i :: 0 <= i < |queue| ==>
         Stands(queue[i], values[i]) && queue[i].body.arr != buf && queue[i].signature.arr != buf
  }

  /** A chunk read into the array. */
  method ReadInto(buf: array<byte>, c: Str)
    modifies buf
    ensures buf[..] == Overwritten(old(buf[..]), c)
  {
    var n := if |c| <= buf.Length then |c| else buf.Length;
    forall i | 0 <= i < n {
      buf[i] := c[i];
    }
  }

  method CutFrom(cfg: Config, buf: array<byte>, op: Op) returns (r: Option<PacketRef>)
    requires op.Cut?
    ensures var ps := CutOf(cfg, buf[..], op);
            if ps == [] then r.None? else r.Some? && ps == [ps[0]] && Stands(r.value, ps[0])
    ensures r.Some? ==> fresh(r.value.body.arr) && fresh(r.value.signature.arr)
  {
    hide UnpackSections, Needed;
    r := None;
    if Covers(cfg, op, buf.Length) {
      assert buf[..][op.from..op.to] == buf[op.from..op.to];
      var w := new Window(buf, op.from, op.to);
      var p := CutPacket(cfg, op.h, w);
      if p.Ok? {
        r := Some(p.value);
      }
    }
  }

  /** Whatever is read into the array after a packet was queued, at the end the queue still holds
      exactly the packets as they were decoded, in order. */
  method Session(cfg: Config, buf: array<byte>, ops: seq<Op>) returns (queue: seq<PacketRef>)
    modifies buf
    ensures Stable(buf, queue, Replay(cfg, old(buf[..]), ops))
  {
    hide Replay, CutOf, Overwritten, Stands;
    queue := [];
    ghost var values: seq<Packet> := [];
    var k := 0;
    assert ops[0..] == ops && values + Replay(cfg, buf[..], ops) == Replay(cfg, buf[..], ops);
    while k < |ops|
      invariant 0 <= k <= |ops|
      invariant Stable(buf, queue, values)
      invariant forall i :: 0 <= i < |queue| ==> fresh(queue[i].body.arr) && fresh(queue[i].signature.arr)
      invariant values + Replay(cfg, buf[..], ops[k..]) == Replay(cfg, old(buf[..]), ops)
    {
      ReplayNext(cfg, buf[..], ops, k, values);
      if ops[k].Arrive? {
        ReadInto(buf, ops[k].chunk);
      } else {
        var r := CutFrom(cfg, buf, ops[k]);
        values := values + CutOf(cfg, buf[..], ops[k]);
        if r.Some? {
          queue := queue + [r.value];
        }
      }
      k := k + 1;
    }
    assert ops[k..] == [];
    NothingLeft(cfg, buf[..], values);
  }

  lemma NothingLeft(cfg: Config, buf: Str, values: seq<Packet>)
    ensures values + Replay(cfg, buf, []) == values
  {
  }
}
