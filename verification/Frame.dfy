/** The outer frame of the transport: its byte encoding, and reading it off a TCP stream. */
module Frames {
  import opened Bytes

  const HEADER_SIZE: nat := 11

  const FRAME_HANDSHAKE_CLIENT: byte := 1
  const FRAME_HANDSHAKE_SERVER: byte := 2
  const FRAME_ENCRYPTED: byte := 3
  const FRAME_CLOSE: byte := 4

  datatype Config = Config(
    magic: u32,
    version: u16,
    maxPayload: u32,
    keyRotateInterval: int,
    oldKeyGrace: int,
    replayWindow: u64)

  datatype Frame = Frame(ftype: byte, payload: Bytes)

  datatype Error =
    | Eof | UnexpectedEof | WriteFailed | RandomFailed
    | BadMagic | BadVersion | FrameTooLarge
    | BadFrame | Replayed | Closed | BadKey | OpenFailed | Handshake

  /** The outcome of reading one frame off a stream, and the bytes left on it. */
  datatype Parsed = Parsed(result: Result<Frame, Error>, rest: Bytes)

  /* ------------------------------ the format ------------------------------ */

  function Header(cfg: Config, f: Frame): (h: Bytes)
    ensures |h| == HEADER_SIZE
  {
    BE(cfg.magic, 4) + BE(cfg.version, 2) + [f.ftype] + BE(|f.payload|, 4)
  }

  function Encode(cfg: Config, f: Frame): (b: Bytes)
    ensures |b| == HEADER_SIZE + |f.payload|
  {
    Header(cfg, f) + f.payload
  }

  /** The writer compares a 32-bit conversion of the length with the bound. */
  predicate Writable(cfg: Config, f: Frame) {
    |f.payload| % U32_LIMIT <= cfg.maxPayload
  }

  function EofKind(stream: Bytes): Error {
    if stream == [] then Eof else UnexpectedEof
  }

  function Parse(cfg: Config, stream: Bytes): (p: Parsed)
    ensures p.result.Ok? ==> |stream| == HEADER_SIZE + |p.result.value.payload| + |p.rest|
  {
    if |stream| < HEADER_SIZE then Parsed(Err(EofKind(stream)), [])
    else
      var after := stream[HEADER_SIZE..];
      var length := FromBE(stream[7..11]);
      if FromBE(stream[0..4]) != cfg.magic then Parsed(Err(BadMagic), after)
      else if FromBE(stream[4..6]) != cfg.version then Parsed(Err(BadVersion), after)
      else if length > cfg.maxPayload then Parsed(Err(FrameTooLarge), after)
      else if |after| < length then Parsed(Err(EofKind(after)), [])
      else Parsed(Ok(Frame(stream[6], after[..length])), after[length..])
  }

  /** All frames up to the first error, and that error. */
  function ParseAll(cfg: Config, stream: Bytes): (seq<Frame>, Error)
    decreases |stream|
  {
    match Parse(cfg, stream)
    case Parsed(Err(e), _) => ([], e)
    case Parsed(Ok(f), rest) =>
      var (fs, e) := ParseAll(cfg, rest);
      ([f] + fs, e)
  }

  function EncodeAll(cfg: Config, fs: seq<Frame>): Bytes {
    if fs == [] then [] else Encode(cfg, fs[0]) + EncodeAll(cfg, fs[1..])
  }

  predicate Fits(cfg: Config, f: Frame) {
    |f.payload| <= cfg.maxPayload
  }

  /* ------------------------------ the format's laws ------------------------------ */

  lemma HeaderFields(cfg: Config, f: Frame, tail: Bytes)
    ensures var s := Encode(cfg, f) + tail;
            && FromBE(s[0..4]) == cfg.magic && FromBE(s[4..6]) == cfg.version
            && s[6] == f.ftype && FromBE(s[7..11]) == |f.payload| % U32_LIMIT
            && s[HEADER_SIZE..] == f.payload + tail
  {
    hide BE, FromBE;
    var s := Encode(cfg, f) + tail;
    Widths();
    FieldRoundTrip(cfg.magic, 4);
    FieldRoundTrip(cfg.version, 2);
    FromBEOfBE(|f.payload|, 4);
    assert s[0..4] == BE(cfg.magic, 4);
    assert s[4..6] == BE(cfg.version, 2);
    assert s[7..11] == BE(|f.payload|, 4);
  }

  /** A written frame is read back whole, whatever follows it, and exactly its own bytes are
      consumed. */
  lemma ParseOfEncode(cfg: Config, f: Frame, tail: Bytes)
    requires Fits(cfg, f)
    ensures Parse(cfg, Encode(cfg, f) + tail) == Parsed(Ok(f), tail)
  {
    HeaderFields(cfg, f, tail);
    assert |f.payload| % U32_LIMIT == |f.payload|;
    assert (f.payload + tail)[..|f.payload|] == f.payload;
    assert (f.payload + tail)[|f.payload|..] == tail;
  }

  /** A frame the writer lets through survives iff its length fits the 32-bit length field. */
  lemma WrittenFrameSurvives(cfg: Config, f: Frame)
    requires Writable(cfg, f)
    ensures Parse(cfg, Encode(cfg, f)) == Parsed(Ok(f), []) <==> |f.payload| < U32_LIMIT
  {
    if |f.payload| < U32_LIMIT {
      ParseOfEncode(cfg, f, []);
      assert Encode(cfg, f) + [] == Encode(cfg, f);
    } else {
      HeaderFields(cfg, f, []);
      assert Encode(cfg, f) + [] == Encode(cfg, f);
    }
  }

  /** The other side of the 32-bit conversion: the writer takes a payload of 2^32 bytes, and the
      reader sees an empty frame followed by the payload as if it were frames. */
  lemma OversizedPayloadSlipsThrough(cfg: Config, f: Frame)
    requires |f.payload| == U32_LIMIT
    ensures Writable(cfg, f)
    ensures Parse(cfg, Encode(cfg, f)) == Parsed(Ok(Frame(f.ftype, [])), f.payload)
  {
    HeaderFields(cfg, f, []);
    assert Encode(cfg, f) + [] == Encode(cfg, f);
    assert f.payload + [] == f.payload;
  }

  /** Nothing but an encoding parses: reader and writer agree on the format and on the bound. */
  lemma EncodeOfParse(cfg: Config, stream: Bytes)
    requires Parse(cfg, stream).result.Ok?
    ensures var p := Parse(cfg, stream);
            stream == Encode(cfg, p.result.value) + p.rest && Fits(cfg, p.result.value)
  {
    var p := Parse(cfg, stream);
    BEOfFromBE(stream[0..4]);
    BEOfFromBE(stream[4..6]);
    BEOfFromBE(stream[7..11]);
    var h := Header(cfg, p.result.value);
    assert stream[..HEADER_SIZE] == stream[0..4] + stream[4..6] + [stream[6]] + stream[7..11];
    assert h == stream[..HEADER_SIZE];
    var after := stream[HEADER_SIZE..];
    assert after == p.result.value.payload + p.rest;
    assert stream == stream[..HEADER_SIZE] + after;
  }

  /** The encoding is uniquely decodable, even with arbitrary bytes behind it. */
  lemma EncodeUnique(cfg: Config, f: Frame, g: Frame, x: Bytes, y: Bytes)
    requires Fits(cfg, f) && Fits(cfg, g)
    requires Encode(cfg, f) + x == Encode(cfg, g) + y
    ensures f == g && x == y
  {
    ParseOfEncode(cfg, f, x);
    ParseOfEncode(cfg, g, y);
  }

  /** Any list of written frames is read back exactly, followed by a clean end of stream. */
  lemma {:induction false} ParseAllOfEncodeAll(cfg: Config, fs: seq<Frame>)
    requires forall f :: f in fs ==> Fits(cfg, f)
    ensures ParseAll(cfg, EncodeAll(cfg, fs)) == (fs, Eof)
  {
    if fs != [] {
      ParseOfEncode(cfg, fs[0], EncodeAll(cfg, fs[1..]));
      ParseAllOfEncodeAll(cfg, fs[1..]);
      assert [fs[0]] + fs[1..] == fs;
    }
  }

  /** A frame cut short is never taken for a frame. */
  lemma TornFrame(cfg: Config, f: Frame, k: nat)
    requires Fits(cfg, f) && k < |Encode(cfg, f)|
    ensures Parse(cfg, Encode(cfg, f)[..k]).result.Err?
  {
    hide Encode, Parse;
    var all := Encode(cfg, f);
    var torn, cut := all[..k], all[k..];
    assert torn + cut == all && |cut| > 0;
    var p := Parse(cfg, torn);
    if p.result.Ok? {
      EncodeOfParse(cfg, torn);
      assert Encode(cfg, p.result.value) + (p.rest + cut) == Encode(cfg, f) + [];
      EncodeUnique(cfg, p.result.value, f, p.rest + cut, []);
    }
  }

  /* ------------------------------ the stream ------------------------------ */

  /** One side of a TCP connection. The incoming stream arrives in segments that the network
      chose; each read takes bytes of the first segment only. */
  class Conn {
    var incoming: seq<Bytes>
    var outgoing: Bytes
    var closed: bool

    constructor (incoming: seq<Bytes>)
      ensures this.incoming == incoming && outgoing == [] && !closed
    {
      this.incoming := incoming;
      outgoing, closed := [], false;
    }

    /** Closes this side: what has arrived can no longer be read. */
    method Close()
      modifies `closed, `incoming
      ensures closed && incoming == []
    {
      closed, incoming := true, [];
    }

    /** Fills buf from the given offset with what the first segment holds; false at the end of
        the stream. */
    method Read(buf: array<byte>, from: nat) returns (n: nat, open: bool)
      requires from < buf.Length
      modifies `incoming, buf
      ensures open <==> old(incoming) != []
      ensures !open ==> n == 0 && incoming == [] && buf[..] == old(buf[..])
      ensures open ==> n <= |old(incoming)[0]| && from + n <= buf.Length
      ensures open ==> buf[..] == old(buf[..from]) + old(incoming)[0][..n] + old(buf[from + n..])
      ensures open ==> Flatten(incoming) == Flatten(old(incoming))[n..]
      ensures open ==> |incoming| < |old(incoming)| || (|incoming| == |old(incoming)| && n > 0)
    {
      if incoming == [] {
        return 0, false;
      }
      var segment := incoming[0];
      n := if |segment| <= buf.Length - from then |segment| else buf.Length - from;
      forall i | 0 <= i < n {
        buf[from + i] := segment[i];
      }
      assert buf[..] == old(buf[..from]) + segment[..n] + old(buf[from + n..]);
      if n == |segment| {
        incoming := incoming[1..];
      } else {
        incoming := [segment[n..]] + incoming[1..];
        assert incoming[1..] == old(incoming)[1..];
      }
      return n, true;
    }

    /** Fills the whole buffer, however the bytes are cut into segments. */
    method ReadFull(buf: array<byte>) returns (err: Option<Error>)
      requires buf.Length > 0
      modifies `incoming, buf
      ensures err.None? <==> |Flatten(old(incoming))| >= buf.Length
      ensures err.None? ==> buf[..] == Flatten(old(incoming))[..buf.Length]
      ensures err.None? ==> Flatten(incoming) == Flatten(old(incoming))[buf.Length..]
      ensures err.Some? ==> err.value == EofKind(Flatten(old(incoming))) && incoming == []
    {
      ghost var stream := Flatten(incoming);
      var n := 0;
      while n < buf.Length
        invariant n <= buf.Length && n <= |stream|
        invariant buf[..n] == stream[..n]
        invariant Flatten(incoming) == stream[n..]
        decreases |Flatten(incoming)|, |incoming|
      {
        var k, open := Read(buf, n);
        if !open {
          return Some(if n == 0 then Eof else UnexpectedEof);
        }
        assert buf[..n + k] == stream[..n] + stream[n..][..k];
        n := n + k;
      }
      return None;
    }

    /** Hands bytes to the transport, which takes the given number of them before it fails. */
    method Write(buf: array<byte>, taken: nat) returns (err: Option<Error>)
      modifies `outgoing
      ensures err == if taken < buf.Length then Some(WriteFailed) else None
      ensures outgoing == old(outgoing) + (if taken < buf.Length then buf[..taken] else buf[..])
    {
      if taken < buf.Length {
        outgoing := outgoing + buf[..taken];
        return Some(WriteFailed);
      }
      outgoing := outgoing + buf[..];
      return None;
    }
  }

  /** Stores a big-endian integer in place. */
  method PutUint(buf: array<byte>, at: nat, width: nat, value: nat)
    requires at + width <= buf.Length
    modifies buf
    ensures buf[..] == old(buf[..at]) + BE(value, width) + old(buf[at + width..])
  {
    var v, i := value, width;
    while i > 0
      invariant 0 <= i <= width
      invariant buf[..at] == old(buf[..at]) && buf[at + width..] == old(buf[at + width..])
      invariant BE(value, width) == BE(v, i) + buf[at + i..at + width]
    {
      i := i - 1;
      buf[at + i] := v % 256;
      assert buf[at + i..at + width] == [v % 256] + buf[at + i + 1..at + width];
      v := v / 256;
    }
    assert buf[..] == buf[..at] + buf[at..at + width] + buf[at + width..];
  }

  method ReadFrame(conn: Conn, cfg: Config) returns (result: Result<Frame, Error>)
    modifies conn`incoming
    ensures Parse(cfg, Flatten(old(conn.incoming))) == Parsed(result, Flatten(conn.incoming))
  {
    ghost var stream := Flatten(conn.incoming);
    var header := new byte[HEADER_SIZE];
    var err := conn.ReadFull(header);
    if err.Some? {
      return Err(err.value);
    }
    assert header[0..4] == stream[0..4] && header[4..6] == stream[4..6] && header[7..11] == stream[7..11];
    if FromBE(header[0..4]) != cfg.magic {
      return Err(BadMagic);
    }
    if FromBE(header[4..6]) != cfg.version {
      return Err(BadVersion);
    }
    var length := FromBE(header[7..11]);
    if length > cfg.maxPayload {
      return Err(FrameTooLarge);
    }
    var payload := new byte[length];
    ghost var after := stream[HEADER_SIZE..];
    assert length == 0 ==> payload[..] == after[..length] && Flatten(conn.incoming) == after[0..];
    if length > 0 {
      err := conn.ReadFull(payload);
      if err.Some? {
        return Err(err.value);
      }
    }
    return Ok(Frame(header[6], payload[..]));
  }

  method WriteFrame(conn: Conn, cfg: Config, f: Frame, taken: nat) returns (err: Option<Error>)
    modifies conn`outgoing
    ensures err == if !Writable(cfg, f) then Some(FrameTooLarge)
                   else if taken < |Encode(cfg, f)| then Some(WriteFailed) else None
    ensures conn.outgoing == old(conn.outgoing) +
                             (if !Writable(cfg, f) then []
                              else if taken < |Encode(cfg, f)| then Encode(cfg, f)[..taken]
                              else Encode(cfg, f))
  {
    if |f.payload| % U32_LIMIT > cfg.maxPayload {
      return Some(FrameTooLarge);
    }
    var buf := new byte[HEADER_SIZE + |f.payload|];
    PutUint(buf, 0, 4, cfg.magic);
    assert buf[..4] == BE(cfg.magic, 4);
    PutUint(buf, 4, 2, cfg.version);
    assert buf[..6] == BE(cfg.magic, 4) + BE(cfg.version, 2);
    buf[6] := f.ftype;
    assert buf[..7] == BE(cfg.magic, 4) + BE(cfg.version, 2) + [f.ftype];
    PutUint(buf, 7, 4, |f.payload|);
    assert buf[..11] == Header(cfg, f);
    forall i | 0 <= i < |f.payload| {
      buf[HEADER_SIZE + i] := f.payload[i];
    }
    assert buf[..] == Encode(cfg, f);
    err := conn.Write(buf, taken);
  }
}
