/** One direction of an encrypted connection: what the sender seals and what the receiver makes
    of a frame, as functions of the key state. */
module SecureSpec {
  import opened Bytes
  import opened Crypto
  import opened Frames
  import opened Replay

  const INNER_DATA: byte := 1
  const INNER_PING: byte := 2
  const INNER_PONG: byte := 3
  const INNER_KEY_UPDATE: byte := 4
  const SALT_SIZE: nat := 32

  /* ------------------------------ nonces and associated data ------------------------------ */

  function SeqNonce(n: u64): (nonce: Bytes)
    ensures |nonce| == 12
  {
    [0, 0, 0, 0] + BE(n, 8)
  }

  function EncryptedAAD(cfg: Config, keyID: u32, n: u64): (aad: Bytes)
    ensures |aad| == 19
  {
    BE(cfg.magic, 4) + BE(cfg.version, 2) + [FRAME_ENCRYPTED] + BE(keyID, 4) + BE(n, 8)
  }

  /** Distinct numbers have distinct nonces. */
  lemma SeqNonceInjective(m: u64, n: u64)
    requires SeqNonce(m) == SeqNonce(n)
    ensures m == n
  {
    assert SeqNonce(m)[4..] == BE(m, 8) && SeqNonce(n)[4..] == BE(n, 8);
    Widths();
    BEInjective(m, n, 8);
  }

  lemma SplitFields(a: Bytes, x: Bytes, b: Bytes, y: Bytes)
    requires a + x == b + y && |x| == |y|
    ensures a == b && x == y
  {
    assert (a + x)[..|a|] == a && (b + y)[..|b|] == b;
    assert (a + x)[|a|..] == x && (b + y)[|b|..] == y;
  }

  /** The associated data determines the configuration's tag, the key id and the number. */
  lemma EncryptedAADInjective(c: Config, id: u32, m: u64, d: Config, jd: u32, n: u64)
    requires EncryptedAAD(c, id, m) == EncryptedAAD(d, jd, n)
    ensures c.magic == d.magic && c.version == d.version && id == jd && m == n
  {
    hide BE;
    var a, b := BE(c.magic, 4), BE(d.magic, 4);
    var a2, b2 := a + BE(c.version, 2), b + BE(d.version, 2);
    var a3, b3 := a2 + [FRAME_ENCRYPTED], b2 + [FRAME_ENCRYPTED];
    var a4, b4 := a3 + BE(id, 4), b3 + BE(jd, 4);
    SplitFields(a4, BE(m, 8), b4, BE(n, 8));
    SplitFields(a3, BE(id, 4), b3, BE(jd, 4));
    SplitFields(a2, [FRAME_ENCRYPTED], b2, [FRAME_ENCRYPTED]);
    SplitFields(a, BE(c.version, 2), b, BE(d.version, 2));
    Widths();
    BEInjective(c.magic, d.magic, 4);
    BEInjective(c.version, d.version, 2);
    BEInjective(id, jd, 4);
    BEInjective(m, n, 8);
  }

  /* ------------------------------ the sender ------------------------------ */

  datatype SendKey = SendKey(id: u32, key: Bytes, created: int, count: u64)

  /** Key ids are 32 bits wide and wrap around. */
  function NextID(id: u32): u32 {
    (id + 1) % U32_LIMIT
  }

  /** The counter after one more seal; 64 bits wide. */
  function Consume(s: SendKey): SendKey {
    s.(count := (s.count + 1) % U64_LIMIT)
  }

  function RotateSend(p: Primitives, s: SendKey, salt: Bytes, now: int): SendKey {
    SendKey(NextID(s.id), DeriveRotatedKey(p, s.key, salt), now, 0)
  }

  function SealedFrame(p: Primitives, cfg: Config, id: u32, key: Bytes, n: u64, inner: byte, payload: Bytes): Frame {
    Frame(FRAME_ENCRYPTED,
          BE(id, 4) + BE(n, 8) + p.seal(key, SeqNonce(n), [inner] + payload, EncryptedAAD(cfg, id, n)))
  }

  predicate RotationDue(cfg: Config, s: SendKey, now: int) {
    cfg.keyRotateInterval > 0 && now - s.created >= cfg.keyRotateInterval
  }

  /* ------------------------------ the receiver ------------------------------ */

  datatype RecvKey = RecvKey(id: u32, key: Bytes, expires: int, accepted: set<nat>)

  datatype RecvState = RecvState(cur: RecvKey, prev: Option<RecvKey>)

  /** The clock readings of one pass: at the key lookup, at the replay check, at the key change. */
  datatype Times = Times(lookup: int, replay: int, install: int)

  /** Which of the two keys a frame is checked against; None when its key is unknown or expired. */
  datatype Which = Current | Previous

  function Find(r: RecvState, keyID: u32, now: int): Option<Which> {
    if r.cur.id == keyID then Some(Current)
    else if r.prev.Some? && r.prev.value.id == keyID && now < r.prev.value.expires then Some(Previous)
    else None
  }

  function KeyOf(r: RecvState, w: Which): RecvKey
    requires w.Previous? ==> r.prev.Some?
  {
    if w.Current? then r.cur else r.prev.value
  }

  function Mark(r: RecvState, w: Which, n: nat): RecvState
    requires w.Previous? ==> r.prev.Some?
  {
    if w.Current? then r.(cur := r.cur.(accepted := r.cur.accepted + {n}))
    else r.(prev := Some(r.prev.value.(accepted := r.prev.value.accepted + {n})))
  }

  datatype Admission =
    | Refused(error: Error)
    | Admitted(which: Which, n: u64, plain: Bytes)

  /** Everything a frame has to pass before its content counts: type, length, key, decryption,
      and the replay window of the key it was sealed under. */
  ghost function Admit(p: Primitives, cfg: Config, r: RecvState, f: Frame, t: Times): Admission {
    if f.ftype == FRAME_CLOSE then Refused(Closed)
    else if f.ftype != FRAME_ENCRYPTED || |f.payload| < 12 then Refused(BadFrame)
    else
      Widths();
      var keyID: u32, n: u64 := FromBE(f.payload[0..4]), FromBE(f.payload[4..12]);
      match Find(r, keyID, t.lookup)
      case None => Refused(BadFrame)
      case Some(w) =>
        var key := KeyOf(r, w).key;
        if !AesKey(key) then Refused(BadKey)
        else
          match p.open(key, SeqNonce(n), f.payload[12..], EncryptedAAD(cfg, keyID, n))
          case None => Refused(OpenFailed)
          case Some(plain) =>
            if plain == [] then Refused(BadFrame)
            else
              match Find(r, keyID, t.replay)
              case None => Refused(Replayed)
              case Some(v) =>
                if Accepts(KeyOf(r, v).accepted, EffectiveSize(cfg.replayWindow), n)
                then Admitted(v, n, plain) else Refused(Replayed)
  }

  function Install(p: Primitives, cfg: Config, r: RecvState, salt: Bytes, now: int): RecvState {
    RecvState(RecvKey(NextID(r.cur.id), DeriveRotatedKey(p, r.cur.key, salt), 0, {}),
              Some(r.cur.(expires := now + cfg.oldKeyGrace)))
  }

  datatype Received =
    | Opened(inner: byte, payload: Bytes)
    | KeyUpdated
    | Rejected(error: Error)

  /** One pass of the receiver over a frame. */
  ghost function Receive(p: Primitives, cfg: Config, r: RecvState, f: Frame, t: Times): (RecvState, Received) {
    match Admit(p, cfg, r, f, t)
    case Refused(e) => (r, Rejected(e))
    case Admitted(w, n, plain) =>
      var marked := Mark(r, w, n);
      var inner, payload := plain[0], plain[1..];
      if inner != INNER_KEY_UPDATE then (marked, Opened(inner, payload))
      else if |payload| != SALT_SIZE || w.Previous? then (marked, Rejected(BadFrame))
      else (Install(p, cfg, marked, payload, t.install), KeyUpdated)
  }

  /** Passes over a byte stream until a frame other than a key update, or an error. The i-th pass
      reads the clock i times three times. */
  ghost function ReadStream(p: Primitives, cfg: Config, r: RecvState, stream: Bytes, clock: nat -> Times, i: nat)
    : (res: (RecvState, Parsed, Received))
    ensures !res.2.KeyUpdated? && (res.2.Opened? ==> |res.1.rest| < |stream|)
    decreases |stream|
  {
    var parsed := Parse(cfg, stream);
    match parsed.result
    case Err(e) => (r, parsed, Rejected(e))
    case Ok(f) =>
      var (next, got) := Receive(p, cfg, r, f, clock(i));
      if got.KeyUpdated? then ReadStream(p, cfg, next, parsed.rest, clock, i + 1)
      else (next, parsed, got)
  }
}
