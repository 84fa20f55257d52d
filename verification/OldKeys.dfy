/** What becomes of frames under a key that has been superseded. */
module OldKeys {
  import opened Bytes
  import opened Crypto
  import opened Frames
  import opened Replay
  import opened SecureSpec
  import opened Delivery
  import opened Torn
  import AtMostOnce

  /** A key update was taken at time now. */
  function Superseded(p: Primitives, cfg: Config, r: RecvState, salt: Bytes, now: int): RecvState {
    Install(p, cfg, r, salt, now)
  }

  /** After a key update, a frame still under way that was sealed under the old key is taken exactly if
      the grace period is not over, at either of the two looks at the clock, and the window of the old
      key accepts its number. It then counts in that window alone; otherwise nothing changes. */
  lemma OldKeyTakenExactly(p: Primitives, cfg: Config, r: RecvState, salt: Bytes, now: int, s: Sent, t: Times)
    requires p.Correct() && s.id == r.cur.id && s.key == r.cur.key && |s.key| == KEY_LEN
    requires s.inner != INNER_KEY_UPDATE
    ensures var old' := r.cur.(expires := now + cfg.oldKeyGrace);
            var (after, got) := Receive(p, cfg, Superseded(p, cfg, r, salt, now), FrameOf(p, cfg, s), t);
            if t.lookup < now + cfg.oldKeyGrace && t.replay < now + cfg.oldKeyGrace
               && Accepts(r.cur.accepted, EffectiveSize(cfg.replayWindow), s.n) then
              && got == Opened(s.inner, s.payload)
              && after.cur == Superseded(p, cfg, r, salt, now).cur
              && after.prev == Some(old'.(accepted := r.cur.accepted + {s.n}))
            else
              got.Rejected? && after == Superseded(p, cfg, r, salt, now)
  {
    var f := FrameOf(p, cfg, s);
    FrameFields(p, cfg, s);
    SealedContent(p, cfg, s);
    assert ([s.inner] + s.payload)[1..] == s.payload;
    hide FrameOf, DeriveRotatedKey, Accepts;
    Widths();
  }

  /** A key update sealed under a key that has itself been superseded is refused, though its number may
      count. */
  lemma OldKeyCannotUpdate(p: Primitives, cfg: Config, r: RecvState, salt: Bytes, now: int, s: Sent, t: Times)
    requires p.Correct() && s.id == r.cur.id && s.key == r.cur.key && s.inner == INNER_KEY_UPDATE
    ensures var (after, got) := Receive(p, cfg, Superseded(p, cfg, r, salt, now), FrameOf(p, cfg, s), t);
            got.Rejected? && after.cur == Superseded(p, cfg, r, salt, now).cur
  {
    FrameFields(p, cfg, s);
    SealedContent(p, cfg, s);
    hide FrameOf, DeriveRotatedKey, Accepts;
  }

  /** After two key updates the first key is gone, whatever the clock says. */
  lemma KeyForgotten(p: Primitives, cfg: Config, r: RecvState, salt: Bytes, now: int, salt2: Bytes, now2: int, s: Sent, t: Times)
    requires s.id == r.cur.id
    ensures var after := Superseded(p, cfg, Superseded(p, cfg, r, salt, now), salt2, now2);
            Receive(p, cfg, after, FrameOf(p, cfg, s), t) == (after, Rejected(BadFrame))
  {
    FrameFields(p, cfg, s);
    assert FrameOf(p, cfg, s).ftype == FRAME_ENCRYPTED;
    hide FrameOf, DeriveRotatedKey;
  }
}
