/**
  What the reader makes of a frame that the transport has cut short, and of the bytes that follow it:
  it takes the frame after all exactly if those happen to be the missing ones.
 */
module Torn {
  import opened Bytes
  import opened Crypto
  import opened Frames
  import opened Replay
  import opened SecureSpec
  import opened Delivery
  import AtMostOnce
  import opened SecureConns

  /** The cut frame is completed by whatever begins with the missing bytes. */
  lemma TornContinued(cfg: Config, f: Frame, k: nat, rest: Bytes)
    requires Fits(cfg, f) && k <= |Encode(cfg, f)| && Encode(cfg, f)[k..] <= rest
    ensures Parse(cfg, Encode(cfg, f)[..k] + rest) == Parsed(Ok(f), rest[|Encode(cfg, f)| - k..])
  {
    hide Encode, Parse;
    var all := Encode(cfg, f);
    var behind := rest[|all| - k..];
    assert all[..k] + rest == all + behind by {
      assert rest == all[k..] + behind && all == all[..k] + all[k..];
    }
    ParseOfEncode(cfg, f, behind);
  }

  /** Otherwise another frame is read, if any: of the same length, and the same as far as the cut
      one goes. */
  lemma TornParse(cfg: Config, f: Frame, k: nat, rest: Bytes)
    requires Fits(cfg, f) && HEADER_SIZE <= k < |Encode(cfg, f)|
    requires Parse(cfg, Encode(cfg, f)[..k] + rest).result.Ok?
    ensures var g := Parse(cfg, Encode(cfg, f)[..k] + rest).result.value;
            && |g.payload| == |f.payload| && g.payload[..k - HEADER_SIZE] == f.payload[..k - HEADER_SIZE]
            && (g == f ==> Encode(cfg, f)[k..] <= rest)
  {
    hide Parse, Encode, FromBE, BE;
    var p := Parse(cfg, Encode(cfg, f)[..k] + rest);
    EncodeOfParse(cfg, Encode(cfg, f)[..k] + rest);
    SameStart(cfg, f, k, rest, p.result.value, p.rest);
  }

  lemma SameStart(cfg: Config, f: Frame, k: nat, rest: Bytes, g: Frame, behind: Bytes)
    requires Fits(cfg, f) && Fits(cfg, g) && HEADER_SIZE <= k < |Encode(cfg, f)|
    requires Encode(cfg, f)[..k] + rest == Encode(cfg, g) + behind
    ensures |g.payload| == |f.payload| && g.payload[..k - HEADER_SIZE] == f.payload[..k - HEADER_SIZE]
    ensures g == f ==> Encode(cfg, f)[k..] <= rest
  {
    hide Encode, FromBE, BE;
    var all := Encode(cfg, f);
    var stream := Encode(cfg, g) + behind;
    HeaderFields(cfg, f, []);
    HeaderFields(cfg, g, behind);
    assert all + [] == all && f.payload + [] == f.payload;
    assert stream[7..11] == all[7..11];
    SamePayloadStart(all, stream, f.payload, g.payload, behind, k);
    if g == f {
      assert rest == stream[k..] == all[k..] + behind;
    }
  }

  lemma SamePayloadStart(all: Bytes, stream: Bytes, x: Bytes, y: Bytes, behind: Bytes, k: nat)
    requires HEADER_SIZE <= k <= |all| && k <= |stream| && stream[..k] == all[..k]
    requires all[HEADER_SIZE..] == x && stream[HEADER_SIZE..] == y + behind && |x| == |y|
    ensures y[..k - HEADER_SIZE] == x[..k - HEADER_SIZE]
  {
    assert stream[HEADER_SIZE..k] == all[HEADER_SIZE..k];
    assert (y + behind)[..k - HEADER_SIZE] == stream[HEADER_SIZE..k];
    assert x[..k - HEADER_SIZE] == all[HEADER_SIZE..k];
  }

  /** Nobody but the sender has made the frame: if it opens under the key, it is one of those sealed
      under it. */
  ghost predicate Unforged(p: Primitives, cfg: Config, g: Frame, key: Bytes, made: set<Sent>) {
    forall n :: AtMostOnce.OpensUnder(p, cfg, g, key, n) ==>
      exists x :: x in made && x.key == key && FrameOf(p, cfg, x) == g
  }

  /** The frame that comes next under the receiver's key. */
  ghost predicate Due(r: RecvState, s: Sent) {
    && s.id == r.cur.id && s.key == r.cur.key && |s.key| == KEY_LEN
    && s.n > 0 && Below(r.cur.accepted, s.n)
    && (s.inner == INNER_KEY_UPDATE ==> |s.payload| == SALT_SIZE)
  }

  lemma FrameFields(p: Primitives, cfg: Config, s: Sent)
    ensures var f := FrameOf(p, cfg, s);
            |f.payload| >= 12 && FromBE(f.payload[0..4]) == s.id && FromBE(f.payload[4..12]) == s.n
  {
    var f := FrameOf(p, cfg, s);
    Widths();
    FieldRoundTrip(s.id, 4);
    FieldRoundTrip(s.n, 8);
    assert f.payload[0..4] == BE(s.id, 4) && f.payload[4..12] == BE(s.n, 8);
  }

  /** A frame that names the receiver's current key is admitted under no other. */
  lemma AdmittedUnderCurrent(p: Primitives, cfg: Config, r: RecvState, g: Frame, t: Times)
    requires Admit(p, cfg, r, g, t).Admitted? && |g.payload| >= 12 && FromBE(g.payload[0..4]) == r.cur.id
    ensures var a := Admit(p, cfg, r, g, t);
            a.which.Current? && a.n == FromBE(g.payload[4..12]) && AtMostOnce.OpensUnder(p, cfg, g, r.cur.key, a.n)
  {
    AtMostOnce.AdmittedOpens(p, cfg, r, g, t);
  }

  /** The main result: a frame is cut short, but not before its key id and number are out; the sender
      has given no other frame under that key its number, and nobody forges. Then the reader takes
      something for the frame exactly if the bytes behind it begin with the missing ones, and then
      it is the frame's own content; else the reader fails. */
  lemma TornTakenExactly(p: Primitives, cfg: Config, r: RecvState, s: Sent, made: set<Sent>, k: nat, rest: Bytes, t: Times)
    requires p.Correct() && Due(r, s) && Fits(cfg, FrameOf(p, cfg, s)) && s in made
    requires HEADER_SIZE + 12 <= k < |Encode(cfg, FrameOf(p, cfg, s))|
    requires forall x :: x in made && x.key == s.key && x.n == s.n ==> x == s
    requires var parsed := Parse(cfg, Encode(cfg, FrameOf(p, cfg, s))[..k] + rest);
             parsed.result.Ok? ==> Unforged(p, cfg, parsed.result.value, s.key, made)
    ensures var all := Encode(cfg, FrameOf(p, cfg, s));
            var parsed := Parse(cfg, all[..k] + rest);
            && (all[k..] <= rest <==> parsed.result.Ok? && !Receive(p, cfg, r, parsed.result.value, t).1.Rejected?)
            && (all[k..] <= rest ==>
                  Receive(p, cfg, r, parsed.result.value, t).1
                  == if s.inner == INNER_KEY_UPDATE then KeyUpdated else Opened(s.inner, s.payload))
  {
    hide Encode, Parse, FrameOf, Receive, Unforged, Below;
    var f := FrameOf(p, cfg, s);
    var all := Encode(cfg, f);
    var parsed := Parse(cfg, all[..k] + rest);
    if all[k..] <= rest {
      TornContinued(cfg, f, k, rest);
      ReceiveInOrder(p, cfg, r, s, t);
    } else if parsed.result.Ok? {
      var g := parsed.result.value;
      TornParse(cfg, f, k, rest);
      FrameFields(p, cfg, s);
      assert g.payload[..12] == f.payload[..12] by {
        assert g.payload[..12] == g.payload[..k - HEADER_SIZE][..12];
        assert f.payload[..12] == f.payload[..k - HEADER_SIZE][..12];
      }
      assert g.payload[0..4] == g.payload[..12][0..4] && g.payload[4..12] == g.payload[..12][4..12];
      assert f.payload[0..4] == f.payload[..12][0..4] && f.payload[4..12] == f.payload[..12][4..12];
      OtherFrameRejected(p, cfg, r, s, g, made, t);
    }
  }

  /** A frame that carries the key id and the number of another, and is not it, is rejected. */
  lemma OtherFrameRejected(p: Primitives, cfg: Config, r: RecvState, s: Sent, g: Frame, made: set<Sent>, t: Times)
    requires s.id == r.cur.id && s.key == r.cur.key && g != FrameOf(p, cfg, s) && |g.payload| >= 12
    requires FromBE(g.payload[0..4]) == s.id && FromBE(g.payload[4..12]) == s.n
    requires forall x :: x in made && x.key == s.key && x.n == s.n ==> x == s
    requires Unforged(p, cfg, g, s.key, made)
    ensures Receive(p, cfg, r, g, t).1.Rejected?
  {
    hide Admit, FrameOf, Install, Mark;
    if Admit(p, cfg, r, g, t).Admitted? {
      AdmittedUnderCurrent(p, cfg, r, g, t);
      var x :| x in made && x.key == s.key && FrameOf(p, cfg, x) == g;
      FrameFields(p, cfg, x);
      assert false;
    }
  }

  /** However a stream is damaged: a frame that the receiver opens, and that nobody has forged, is one
      that the sender sealed, and its content is what was sealed. */
  lemma TakenIsSealed(p: Primitives, cfg: Config, r: RecvState, g: Frame, made: set<Sent>, t: Times)
    requires p.Correct()
    requires Unforged(p, cfg, g, r.cur.key, made) && (r.prev.Some? ==> Unforged(p, cfg, g, r.prev.value.key, made))
    requires Receive(p, cfg, r, g, t).1.Opened?
    ensures exists x :: x in made && FrameOf(p, cfg, x) == g
                        && Receive(p, cfg, r, g, t).1 == Opened(x.inner, x.payload)
  {
    var a := Admit(p, cfg, r, g, t);
    AtMostOnce.AdmittedOpens(p, cfg, r, g, t);
    var key := KeyOf(r, a.which).key;
    hide FrameOf;
    var x :| x in made && x.key == key && FrameOf(p, cfg, x) == g;
    SealedContent(p, cfg, x);
    FrameFields(p, cfg, x);
    AdmittedPlain(p, cfg, r, g, t);
    assert ([x.inner] + x.payload)[1..] == x.payload;
  }

  lemma SealedContent(p: Primitives, cfg: Config, x: Sent)
    requires p.Correct()
    ensures var f := FrameOf(p, cfg, x);
            |f.payload| >= 12
            && p.open(x.key, SeqNonce(x.n), f.payload[12..], EncryptedAAD(cfg, x.id, x.n)) == Some([x.inner] + x.payload)
  {
    var sealed := p.seal(x.key, SeqNonce(x.n), [x.inner] + x.payload, EncryptedAAD(cfg, x.id, x.n));
    assert FrameOf(p, cfg, x).payload[12..] == sealed;
  }

  lemma AdmittedPlain(p: Primitives, cfg: Config, r: RecvState, g: Frame, t: Times)
    requires Admit(p, cfg, r, g, t).Admitted?
    ensures var a := Admit(p, cfg, r, g, t);
            && |g.payload| >= 12 && FromBE(g.payload[0..4]) < U32_LIMIT && FromBE(g.payload[4..12]) == a.n
            && (a.which.Previous? ==> r.prev.Some?)
            && p.open(KeyOf(r, a.which).key, SeqNonce(a.n), g.payload[12..], EncryptedAAD(cfg, FromBE(g.payload[0..4]), a.n))
               == Some(a.plain)
  {
    Widths();
  }

  /* ------------------------------ a failed write that is read ------------------------------ */

  /** A write that fails, and the one after it. */
  ghost predicate FailsThenWrites(p: Primitives, cfg: Config, s: SendKey, a: Bytes, k: nat, b: Bytes, taken: nat) {
    var w := SealAndWrite(p, cfg, s, false, INNER_DATA, a, k);
    && w.err == Some(WriteFailed)
    && SealAndWrite(p, cfg, w.key, false, INNER_DATA, b, taken).err.None?
  }

  /** The first payload is read although its write failed, if the second frame begins with the bytes
      that the first one lacks. */
  lemma FailedWriteIsRead(p: Primitives, cfg: Config, s: SendKey, r: RecvState, a: Bytes, k: nat, b: Bytes, taken: nat,
                          clock: nat -> Times)
    requires p.Correct() && s.count < U64_LIMIT - 1 && FailsThenWrites(p, cfg, s, a, k, b, taken)
    requires Due(r, Sent(s.id, s.key, s.count + 1, INNER_DATA, a))
    requires var f := FrameOf(p, cfg, Sent(s.id, s.key, s.count + 1, INNER_DATA, a));
             var w := SealAndWrite(p, cfg, s, false, INNER_DATA, a, k);
             && Fits(cfg, f) && k <= |Encode(cfg, f)|
             && Encode(cfg, f)[k..] <= SealAndWrite(p, cfg, w.key, false, INNER_DATA, b, taken).bytes
    ensures var w := SealAndWrite(p, cfg, s, false, INNER_DATA, a, k);
            var next := SealAndWrite(p, cfg, w.key, false, INNER_DATA, b, taken);
            ReadStream(p, cfg, r, w.bytes + next.bytes, clock, 0).2 == Opened(INNER_DATA, a)
  {
    hide SealAndWrite, FrameOf, Encode, Parse, Receive, Below;
    var sent := Sent(s.id, s.key, s.count + 1, INNER_DATA, a);
    var f := FrameOf(p, cfg, sent);
    var w := SealAndWrite(p, cfg, s, false, INNER_DATA, a, k);
    var rest := SealAndWrite(p, cfg, w.key, false, INNER_DATA, b, taken).bytes;
    FailedBytes(p, cfg, s, a, k);
    TornContinued(cfg, f, k, rest);
    ReceiveInOrder(p, cfg, r, sent, clock(0));
    TakesFirst(p, cfg, r, Encode(cfg, f)[..k] + rest, clock);
  }

  lemma FailedBytes(p: Primitives, cfg: Config, s: SendKey, a: Bytes, k: nat)
    requires s.count < U64_LIMIT - 1
    ensures var w := SealAndWrite(p, cfg, s, false, INNER_DATA, a, k);
            var f := FrameOf(p, cfg, Sent(s.id, s.key, s.count + 1, INNER_DATA, a));
            w.err == Some(WriteFailed) ==> k < |Encode(cfg, f)| && w.bytes == Encode(cfg, f)[..k]
  {
    hide SealedFrame, Encode;
  }

  lemma TakesFirst(p: Primitives, cfg: Config, r: RecvState, stream: Bytes, clock: nat -> Times)
    requires Parse(cfg, stream).result.Ok?
    requires !Receive(p, cfg, r, Parse(cfg, stream).result.value, clock(0)).1.KeyUpdated?
    ensures ReadStream(p, cfg, r, stream, clock, 0).2 == Receive(p, cfg, r, Parse(cfg, stream).result.value, clock(0)).1
  {
    hide Parse, Receive;
  }

  /** A cipher that only appends the byte 77. */
  const APPENDING: Primitives := Primitives(
    (k, m) => Zeros(HASH_LEN),
    (k, n, p, a) => p + [77],
    (k, n, c, a) => if c == [] then None else Some(c[..|c| - 1]),
    x => Zeros(KEY_LEN),
    (x, y) => None)

  const EXAMPLE: Config := Config(0x4D00_0000, 1, 100, 0, 0, 64)

  function ExampleKey(n: u64): SendKey {
    SendKey(1, Zeros(KEY_LEN), 0, n)
  }

  function ExampleFrame(n: u64, payload: Bytes): Frame {
    FrameOf(APPENDING, EXAMPLE, Sent(1, Zeros(KEY_LEN), n, INNER_DATA, payload))
  }

  lemma AppendingIsCorrect()
    ensures APPENDING.Correct()
  {
    assert forall p: Bytes :: (p + [77])[..|p + [77]| - 1] == p;
  }

  lemma ExampleFrameBytes(n: u64, payload: Bytes)
    requires |payload| == 1
    ensures var all := Encode(EXAMPLE, ExampleFrame(n, payload));
            |ExampleFrame(n, payload).payload| == 15 && |all| == 26 && all[25] == 77 && all[0] == 77
  {
    hide BE;
    var f := ExampleFrame(n, payload);
    assert f.payload[14] == 77;
    FirstOctet(EXAMPLE.magic);
  }

  lemma ExampleWrite(n: u64, payload: Bytes, taken: nat)
    requires |payload| == 1 && n < U64_LIMIT - 1
    ensures var w := SealAndWrite(APPENDING, EXAMPLE, ExampleKey(n), false, INNER_DATA, payload, taken);
            var all := Encode(EXAMPLE, ExampleFrame(n + 1, payload));
            && w.key == ExampleKey(n + 1)
            && (if taken < 26 then w.err == Some(WriteFailed) && w.bytes == all[..taken] else w.err.None? && w.bytes == all)
  {
    hide Encode, SealedFrame;
    ExampleFrameBytes(n + 1, payload);
  }

  /** Such an input exists: with frames that begin and end with the same byte, a write of which all
      but the last byte went out is read. */
  lemma FailedWriteExample(clock: nat -> Times)
    ensures APPENDING.Correct()
    ensures var r := RecvState(RecvKey(1, Zeros(KEY_LEN), 0, {}), None);
            var w := SealAndWrite(APPENDING, EXAMPLE, ExampleKey(0), false, INNER_DATA, [1], 25);
            var next := SealAndWrite(APPENDING, EXAMPLE, w.key, false, INNER_DATA, [2], 100);
            && w.err == Some(WriteFailed) && next.err.None?
            && ReadStream(APPENDING, EXAMPLE, r, w.bytes + next.bytes, clock, 0).2 == Opened(INNER_DATA, [1])
  {
    hide Encode, SealAndWrite, ReadStream, FrameOf, APPENDING, Primitives.Correct;
    var r := RecvState(RecvKey(1, Zeros(KEY_LEN), 0, {}), None);
    AppendingIsCorrect();
    ExampleWrite(0, [1], 25);
    ExampleWrite(1, [2], 100);
    ExampleFrameBytes(1, [1]);
    ExampleFrameBytes(2, [2]);
    var x, y := Encode(EXAMPLE, ExampleFrame(1, [1])), Encode(EXAMPLE, ExampleFrame(2, [2]));
    assert x[25..] == [77] && y == [77] + y[1..];
    FailedWriteIsRead(APPENDING, EXAMPLE, ExampleKey(0), r, [1], 25, [2], 100, clock);
  }

  lemma FirstOctet(m: u32)
    ensures BE(m, 4)[0] == m / 0x100_0000 % 256
  {
    assert BE(m, 4)[0] == BE(m / 256, 3)[0] == BE(m / 256 / 256, 2)[0] == BE(m / 256 / 256 / 256, 1)[0];
  }
}
