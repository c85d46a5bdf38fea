/** Length-prefixed framing: UDP channel frames (internal/tunnel/udp_frame.go)
    and control frames (internal/protocol/protocol.go), read through a reader
    that may deliver the bytes in pieces of any size. */
module Framing {
  import opened Collections

  const UDP_MAX_PACKET := 65507
  const SESSION_ID_LEN := 16
  const MAX_FRAME_SIZE := 65536

  // ---- big-endian 32-bit lengths -------------------------------------------

  function PutU32(n: int): (b: seq<byte>)
    requires 0 <= n < 0x1_0000_0000
    ensures |b| == 4
  {
    [n / 0x100_0000, n / 0x1_0000 % 0x100, n / 0x100 % 0x100, n % 0x100]
  }

  function U32(b: seq<byte>): (n: int)
    requires |b| >= 4
    ensures 0 <= n < 0x1_0000_0000
  {
    b[0] as int * 0x100_0000 + b[1] as int * 0x1_0000 + b[2] as int * 0x100 + b[3]
  }

  lemma U32OfPut(n: int, rest: seq<byte>)
    requires 0 <= n < 0x1_0000_0000
    ensures U32(PutU32(n) + rest) == n
  {
    assert n / 0x1_0000 == n / 0x100 / 0x100 && n / 0x100_0000 == n / 0x100 / 0x100 / 0x100;
  }

  lemma PutOfU32(b: seq<byte>)
    requires |b| >= 4
    ensures PutU32(U32(b)) == b[..4]
  {
    var n := U32(b);
    assert n / 0x100 == b[0] as int * 0x1_0000 + b[1] as int * 0x100 + b[2];
    assert n / 0x1_0000 == b[0] as int * 0x100 + b[1];
    assert n / 0x100_0000 == b[0];
  }

  // ---- the reader ------------------------------------------------------------

  ghost function Flatten(chunks: seq<seq<byte>>): seq<byte> {
    if chunks == [] then [] else chunks[0] + Flatten(chunks[1..])
  }

  /** An io.Reader: `chunks` is how the bytes happen to arrive. */
  class Reader {
    var chunks: seq<seq<byte>>

    ghost function Stream(): seq<byte>
      reads this
    {
      Flatten(chunks)
    }

    constructor (chunks: seq<seq<byte>>)
      ensures Stream() == Flatten(chunks)
    {
      this.chunks := chunks;
    }

    /** One Read call: at most n bytes of the next piece. */
    method Read(n: nat) returns (b: seq<byte>, eof: bool)
      requires 0 < n
      modifies this
      ensures |b| <= n && old(Stream()) == b + Stream()
      ensures eof <==> old(chunks) == []
      ensures eof ==> b == []
      ensures !eof ==> |Stream()| < |old(Stream())| || |chunks| < |old(chunks)|
      ensures |chunks| <= |old(chunks)|
    {
      if chunks == [] {
        return [], true;
      }
      var c := chunks[0];
      if |c| <= n {
        b, chunks, eof := c, chunks[1..], false;
      } else {
        b, eof := c[..n], false;
        chunks := [c[n..]] + chunks[1..];
        assert chunks[1..] == old(chunks)[1..];
        assert c == b + c[n..];
      }
    }

    /** io.ReadFull: what it yields depends on the bytes, not on the pieces. */
    method ReadFull(n: nat) returns (b: seq<byte>, ok: bool)
      modifies this
      ensures ok <==> |old(Stream())| >= n
      ensures old(Stream()) == b + Stream()
      ensures if ok then |b| == n else Stream() == []
    {
      b := [];
      while |b| < n
        invariant |b| <= n && old(Stream()) == b + Stream()
        decreases |Stream()|, |chunks|
      {
        var got, eof := Read(n - |b|);
        b := b + got;
        if eof {
          return b, false;
        }
      }
      ok := true;
    }
  }

  lemma Regroup(a: seq<byte>, b: seq<byte>, c: seq<byte>)
    ensures a + b + c == a + (b + c)
  {
  }

  // ---- UDP channel frames ------------------------------------------------------

  datatype Datagram = Datagram(id: seq<byte>, payload: seq<byte>)

  /** What one read attempt makes of a stream; `used` bytes are consumed. */
  datatype Parsed<T> = Short | Bad | Got(value: T, used: nat)

  function UdpFrame(d: Datagram): (frame: Option<seq<byte>>)
  {
    if |d.payload| > UDP_MAX_PACKET then None
    else if |d.id| != SESSION_ID_LEN then None
    else Some(PutU32(SESSION_ID_LEN + |d.payload|) + d.id + d.payload)
  }

  function ParseUdp(s: seq<byte>, maxPacket: nat): (p: Parsed<Datagram>)
    ensures p.Got? ==> 4 <= p.used <= |s|
  {
    if |s| < 4 then Short
    else
      var size := U32(s);
      if size < SESSION_ID_LEN || size > SESSION_ID_LEN + maxPacket then Bad
      else if |s| < 4 + size then Short
      else
        var body := s[4..4 + size];
        Got(Datagram(body[..SESSION_ID_LEN], body[SESSION_ID_LEN..]), 4 + size)
  }

  /** readUDPFrame: header, size check, body. */
  method ReadUdpFrame(r: Reader, maxPacket: nat) returns (p: Parsed<Datagram>)
    modifies r
    ensures p == ParseUdp(old(r.Stream()), maxPacket)
    ensures p.Got? ==> r.Stream() == old(r.Stream())[p.used..]
  {
    ghost var s := r.Stream();
    var hdr, ok := r.ReadFull(4);
    if !ok {
      return Short;
    }
    var size := U32(hdr);
    assert U32(s) == size;
    if size < SESSION_ID_LEN || size > SESSION_ID_LEN + maxPacket {
      return Bad;
    }
    ghost var tail := r.Stream();
    var body;
    body, ok := r.ReadFull(size);
    if !ok {
      return Short;
    }
    assert s == hdr + body + r.Stream();
    assert s[4..4 + size] == body && s[4 + size..] == r.Stream();
    p := Got(Datagram(body[..SESSION_ID_LEN], body[SESSION_ID_LEN..]), 4 + size);
  }

  /** A frame reads back as itself exactly when the reader's limit admits it. */
  lemma UdpReadsBack(d: Datagram, rest: seq<byte>, maxPacket: nat)
    requires UdpFrame(d).Some?
    ensures ParseUdp(UdpFrame(d).value + rest, maxPacket)
         == if |d.payload| <= maxPacket then Got(d, |UdpFrame(d).value|) else Bad
  {
    var size := SESSION_ID_LEN + |d.payload|;
    var s := UdpFrame(d).value + rest;
    assert s == PutU32(size) + (d.id + d.payload + rest);
    U32OfPut(size, d.id + d.payload + rest);
    if |d.payload| <= maxPacket {
      assert s[4..4 + size] == d.id + d.payload;
      assert s[4 + size..] == rest;
    }
  }

  /** An accepted frame within the encoder's limit re-encodes to the very bytes
      consumed; beyond that limit the encoder refuses it. */
  lemma UdpReencodes(s: seq<byte>, maxPacket: nat)
    requires ParseUdp(s, maxPacket).Got?
    ensures var Got(d, used) := ParseUdp(s, maxPacket);
      && |d.payload| <= maxPacket
      && (UdpFrame(d).Some? <==> |d.payload| <= UDP_MAX_PACKET)
      && (UdpFrame(d).Some? ==> UdpFrame(d).value == s[..used])
  {
    var size := U32(s);
    PutOfU32(s);
    var body := s[4..4 + size];
    assert body == body[..SESSION_ID_LEN] + body[SESSION_ID_LEN..];
    assert s == s[..4] + body + s[4 + size..];
  }

  ghost predicate Sendable(ds: seq<Datagram>, maxPacket: nat) {
    forall i :: 0 <= i < |ds| ==> UdpFrame(ds[i]).Some? && |ds[i].payload| <= maxPacket
  }

  function UdpStream(ds: seq<Datagram>): (s: seq<byte>)
    requires forall i :: 0 <= i < |ds| ==> UdpFrame(ds[i]).Some?
  {
    if ds == [] then [] else UdpFrame(ds[0]).value + UdpStream(ds[1..])
  }

  /** Reading frames until the stream is short or malformed. */
  function ParseAllUdp(s: seq<byte>, maxPacket: nat): (r: (seq<Datagram>, seq<byte>))
    decreases |s|
  {
    match ParseUdp(s, maxPacket)
    case Got(d, used) => var (ds, left) := ParseAllUdp(s[used..], maxPacket); ([d] + ds, left)
    case _ => ([], s)
  }

  /** Any list of frames, concatenated, reads back as that list with nothing
      left over; a truncated tail stays unread. */
  lemma {:induction false} UdpStreamReadsBack(ds: seq<Datagram>, tail: seq<byte>, maxPacket: nat)
    requires Sendable(ds, maxPacket) && !ParseUdp(tail, maxPacket).Got?
    ensures ParseAllUdp(UdpStream(ds) + tail, maxPacket) == (ds, tail)
  {
    if ds == [] {
      assert UdpStream(ds) + tail == tail;
    } else {
      var t := UdpStream(ds[1..]) + tail;
      UdpStreamReadsBack(ds[1..], tail, maxPacket);
      UdpReadsBack(ds[0], t, maxPacket);
      ParseUdpThen(UdpFrame(ds[0]).value, t, ds[0], maxPacket);
      Regroup(UdpFrame(ds[0]).value, UdpStream(ds[1..]), tail);
      assert ds == [ds[0]] + ds[1..];
    }
  }

  lemma ParseUdpThen(f: seq<byte>, t: seq<byte>, d: Datagram, maxPacket: nat)
    requires ParseUdp(f + t, maxPacket) == Got(d, |f|)
    ensures ParseAllUdp(f + t, maxPacket)
         == ([d] + ParseAllUdp(t, maxPacket).0, ParseAllUdp(t, maxPacket).1)
  {
    assert (f + t)[|f|..] == t;
  }

  // ---- control frames -----------------------------------------------------------

  datatype Envelope = Envelope(typ: string, seqNo: nat, payload: seq<byte>)

  /** JSON as an abstract codec: what is marshalled unmarshals to itself. */
  datatype Json = Json(marshal: Envelope -> seq<byte>, unmarshal: seq<byte> -> Option<Envelope>)

  ghost predicate Exact(j: Json) {
    forall e :: j.unmarshal(j.marshal(e)) == Some(e)
  }

  function Encode(j: Json, e: Envelope): (frame: Option<seq<byte>>)
  {
    var data := j.marshal(e);
    if |data| > MAX_FRAME_SIZE then None else Some(PutU32(|data|) + data)
  }

  function Decode(j: Json, frame: seq<byte>): (e: Option<Envelope>)
  {
    if |frame| < 4 then None
    else
      var size := U32(frame);
      if size == 0 || size > MAX_FRAME_SIZE then None
      else if |frame| != size + 4 then None
      else
        var e := j.unmarshal(frame[4..]);
        if e.None? || e.value.typ == "" then None else e
  }

  function ParseCtl(j: Json, s: seq<byte>): (p: Parsed<Envelope>)
    ensures p.Got? ==> 4 < p.used <= |s|
  {
    if |s| < 4 then Short
    else
      var size := U32(s);
      if size == 0 || size > MAX_FRAME_SIZE then Bad
      else if |s| < 4 + size then Short
      else
        var e := Decode(j, s[..4 + size]);
        if e.None? then Bad else Got(e.value, 4 + size)
  }

  /** ReadFrame: header, size check, body, then Decode of both together. */
  method ReadFrame(j: Json, r: Reader) returns (p: Parsed<Envelope>)
    modifies r
    ensures p == ParseCtl(j, old(r.Stream()))
    ensures p.Got? ==> r.Stream() == old(r.Stream())[p.used..]
  {
    ghost var s := r.Stream();
    var hdr, ok := r.ReadFull(4);
    if !ok {
      return Short;
    }
    var size := U32(hdr);
    assert U32(s) == size;
    if size == 0 || size > MAX_FRAME_SIZE {
      return Bad;
    }
    var body;
    body, ok := r.ReadFull(size);
    if !ok {
      return Short;
    }
    assert s == hdr + body + r.Stream();
    assert s[..4 + size] == hdr + body && s[4 + size..] == r.Stream();
    var e := Decode(j, hdr + body);
    p := if e.None? then Bad else Got(e.value, 4 + size);
  }

  /** An encoded control message reads back as itself exactly when its type is
      not empty and its JSON is not empty. */
  lemma CtlReadsBack(j: Json, e: Envelope, rest: seq<byte>)
    requires Exact(j) && Encode(j, e).Some?
    ensures ParseCtl(j, Encode(j, e).value + rest)
         == if e.typ != "" && j.marshal(e) != [] then Got(e, |Encode(j, e).value|) else Bad
  {
    var data := j.marshal(e);
    var s := Encode(j, e).value + rest;
    assert s == PutU32(|data|) + (data + rest);
    U32OfPut(|data|, data + rest);
    U32OfPut(|data|, data);
    if data != [] {
      assert s[..4 + |data|] == PutU32(|data|) + data;
      assert (PutU32(|data|) + data)[4..] == data;
      assert s[4 + |data|..] == rest;
    }
  }

  ghost predicate CtlSendable(j: Json, es: seq<Envelope>) {
    forall i :: 0 <= i < |es| ==>
      Encode(j, es[i]).Some? && es[i].typ != "" && j.marshal(es[i]) != []
  }

  function CtlStream(j: Json, es: seq<Envelope>): (s: seq<byte>)
    requires forall i :: 0 <= i < |es| ==> Encode(j, es[i]).Some?
  {
    if es == [] then [] else Encode(j, es[0]).value + CtlStream(j, es[1..])
  }

  function ParseAllCtl(j: Json, s: seq<byte>): (r: (seq<Envelope>, seq<byte>))
    decreases |s|
  {
    match ParseCtl(j, s)
    case Got(e, used) => var (es, left) := ParseAllCtl(j, s[used..]); ([e] + es, left)
    case _ => ([], s)
  }

  lemma {:induction false} CtlStreamReadsBack(j: Json, es: seq<Envelope>, tail: seq<byte>)
    requires Exact(j) && CtlSendable(j, es) && !ParseCtl(j, tail).Got?
    ensures ParseAllCtl(j, CtlStream(j, es) + tail) == (es, tail)
  {
    if es == [] {
      assert CtlStream(j, es) + tail == tail;
    } else {
      var t := CtlStream(j, es[1..]) + tail;
      CtlStreamReadsBack(j, es[1..], tail);
      CtlReadsBack(j, es[0], t);
      ParseCtlThen(j, Encode(j, es[0]).value, t, es[0]);
      Regroup(Encode(j, es[0]).value, CtlStream(j, es[1..]), tail);
      assert es == [es[0]] + es[1..];
    }
  }

  lemma ParseCtlThen(j: Json, f: seq<byte>, t: seq<byte>, e: Envelope)
    requires ParseCtl(j, f + t) == Got(e, |f|)
    ensures ParseAllCtl(j, f + t) == ([e] + ParseAllCtl(j, t).0, ParseAllCtl(j, t).1)
  {
    assert (f + t)[|f|..] == t;
  }

  // ---- the bytes on the wire ------------------------------------------------------

  /** Lengths are written most significant byte first. */
  lemma LengthIsBigEndian(a: byte, b: byte, c: byte, d: byte, rest: seq<byte>)
    ensures U32([a, b, c, d] + rest) == ((a * 256 + b) * 256 + c) * 256 + d
    ensures PutU32(((a * 256 + b) * 256 + c) * 256 + d) == [a, b, c, d]
  {
    PutOfU32([a, b, c, d]);
    assert U32([a, b, c, d]) == ((a * 256 + b) * 256 + c) * 256 + d;
  }

  /** A frame is the length of what follows, the session id, and the payload. */
  lemma UdpLayout(d: Datagram)
    ensures UdpFrame(d).Some? <==> |d.payload| <= 65507 && |d.id| == 16
    ensures UdpFrame(d).Some? ==>
      var f := UdpFrame(d).value;
      |f| == 20 + |d.payload| && U32(f) == 16 + |d.payload| && f[4..20] == d.id && f[20..] == d.payload
  {
    if UdpFrame(d).Some? {
      U32OfPut(16 + |d.payload|, d.id + d.payload);
      assert UdpFrame(d).value == PutU32(16 + |d.payload|) + (d.id + d.payload);
    }
  }

  /** What the reader makes of any bytes: it waits for a whole header and then for
      a whole frame, and refuses a length that no frame within its limit has. */
  lemma UdpOutcome(s: seq<byte>, maxPacket: nat)
    ensures var p := ParseUdp(s, maxPacket);
      var fits := |s| >= 4 && 16 <= U32(s) <= 16 + maxPacket;
      && (p == Bad <==> |s| >= 4 && !fits)
      && (p.Got? <==> fits && |s| >= 4 + U32(s))
      && (p.Got? ==> p.used == 4 + U32(s) && p.value.id == s[4..20] && p.value.payload == s[20..p.used])
  {
    if ParseUdp(s, maxPacket).Got? {
      var body := s[4..4 + U32(s)];
      assert body[..16] == s[4..20] && body[16..] == s[20..4 + U32(s)];
    }
  }

  /** A control frame is the length of the JSON and the JSON, at most 64 KiB. */
  lemma CtlLayout(j: Json, e: Envelope)
    ensures Encode(j, e).Some? <==> |j.marshal(e)| <= 65536
    ensures Encode(j, e).Some? ==>
      var f := Encode(j, e).value;
      |f| == 4 + |j.marshal(e)| && U32(f) == |j.marshal(e)| && f[4..] == j.marshal(e)
  {
    if Encode(j, e).Some? {
      U32OfPut(|j.marshal(e)|, j.marshal(e));
    }
  }

  /** The control reader on any bytes: an empty or oversized frame, JSON that does
      not parse, and a message without a type are refused. */
  lemma CtlOutcome(j: Json, s: seq<byte>)
    ensures var p := ParseCtl(j, s);
      var fits := |s| >= 4 && 0 < U32(s) <= 65536;
      && (|s| < 4 || (fits && |s| < 4 + U32(s)) <==> p == Short)
      && (p.Got? <==> fits && |s| >= 4 + U32(s) && Message(j, s[4..4 + U32(s)]).Some?)
      && (p.Got? ==> p.used == 4 + U32(s) && Message(j, s[4..p.used]) == Some(p.value))
  {
    if |s| >= 4 && 0 < U32(s) <= 65536 && |s| >= 4 + U32(s) {
      var size := U32(s);
      assert U32(s[..4 + size]) == size && s[..4 + size][4..] == s[4..4 + size];
    }
  }

  /** A message with a type. */
  ghost function Message(j: Json, data: seq<byte>): Option<Envelope> {
    var e := j.unmarshal(data);
    if e.Some? && e.value.typ != "" then e else None
  }
}
