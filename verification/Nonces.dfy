/** No nonce is ever used twice under one key of one direction. */
module Nonces {
  import opened Bytes
  import opened Crypto
  import opened Frames
  import opened SecureSpec
  import opened Delivery

  predicate Earlier(a: Seal, b: Seal) {
    a.epoch < b.epoch || (a.epoch == b.epoch && a.n < b.n)
  }

  /** The seals made so far are strictly increasing, and none is ahead of the sender. */
  ghost predicate SealsOrdered(s: Sys) {
    && s.keys != [] && s.keys[|s.keys| - 1] == s.send.key
    && (forall i, j :: 0 <= i < j < |s.seals| ==> Earlier(s.seals[i], s.seals[j]))
    && (forall i :: 0 <= i < |s.seals| ==>
          && 0 <= s.seals[i].epoch < |s.keys| && s.seals[i].n > 0
          && (s.seals[i].epoch == |s.keys| - 1 ==> s.seals[i].n <= s.send.count))
  }

  lemma TransmitOrders(p: Primitives, cfg: Config, s: Sys, inner: byte, payload: Bytes, fate: Fate)
    requires SealsOrdered(s) && s.send.count < U64_LIMIT - 1
    ensures SealsOrdered(Transmit(p, cfg, s, inner, payload, fate).0)
  {
    hide FrameOf, Encode, Writable;
    TransmitFrame(p, cfg, s, inner, payload, fate);
  }

  lemma SameSeals(s: Sys, t: Sys)
    requires SealsOrdered(s) && t.send == s.send && t.keys == s.keys && t.seals == s.seals
    ensures SealsOrdered(t)
  {
  }

  lemma InstallOrders(p: Primitives, cfg: Config, s: Sys, salt: Bytes, now: int)
    requires SealsOrdered(s)
    ensures var next := RotateSend(p, s.send, salt, now);
            SealsOrdered(s.(send := next, keys := s.keys + [next.key]))
  {
    hide DeriveRotatedKey;
  }

  lemma NextOrders(p: Primitives, cfg: Config, s: Sys, step: Step)
    requires SealsOrdered(s) && s.send.count < U64_LIMIT - 1
    ensures SealsOrdered(Next(p, cfg, s, step))
  {
    hide SealsOrdered, Transmit, Receive, RotateSend, FrameOf;
    var t := Next(p, cfg, s, step);
    match (step, s.writer)
    case (SendUpdate(salt, fate), MustRotate(_, _)) =>
      TransmitOrders(p, cfg, s, INNER_KEY_UPDATE, salt, fate);
      SameSeals(if |salt| != SALT_SIZE then s else Transmit(p, cfg, s, INNER_KEY_UPDATE, salt, fate).0, t);
    case (SendPayload(fate), Ready(inner, payload)) =>
      TransmitOrders(p, cfg, s, inner, payload, fate);
      SameSeals(Transmit(p, cfg, s, inner, payload, fate).0, t);
    case (InstallSendKey(now), MustInstall(salt, _, _)) =>
      InstallOrders(p, cfg, s, salt, now);
      var next := RotateSend(p, s.send, salt, now);
      SameSeals(s.(send := next, keys := s.keys + [next.key]), t);
    case _ => SameSeals(s, t);
  }

  lemma {:induction false} RunOrders(p: Primitives, cfg: Config, s: Sys, steps: seq<Step>)
    requires SealsOrdered(s) && CountersLast(p, cfg, s, steps)
    ensures SealsOrdered(Run(p, cfg, s, steps))
  {
    if steps != [] {
      var before := steps[..|steps| - 1];
      assert forall k :: 0 <= k <= |before| ==> steps[..k] == before[..k];
      RunOrders(p, cfg, s, before);
      assert steps[..|before|] == before;
      NextOrders(p, cfg, Run(p, cfg, s, before), steps[|steps| - 1]);
    }
  }

  /** Over any run, counting pings, key updates, refused and failed writes and retried rotations:
      no two seals share both key index and nonce; so as long as key derivation has not produced
      the same key twice, no two seals share key and nonce. */
  lemma NoncesNeverRepeat(p: Primitives, cfg: Config, key: Bytes, now: int, steps: seq<Step>, i: nat, j: nat)
    requires CountersLast(p, cfg, Init(key, now), steps)
    requires i < j < |Run(p, cfg, Init(key, now), steps).seals|
    ensures var s := Run(p, cfg, Init(key, now), steps);
            var a, b := s.seals[i], s.seals[j];
            && 0 <= a.epoch < |s.keys| && 0 <= b.epoch < |s.keys|
            && !(a.epoch == b.epoch && SeqNonce(a.n) == SeqNonce(b.n))
            && ((forall k, m :: 0 <= k < m < |s.keys| ==> s.keys[k] != s.keys[m]) ==>
                  !(s.keys[a.epoch] == s.keys[b.epoch] && SeqNonce(a.n) == SeqNonce(b.n)))
  {
    RunOrders(p, cfg, Init(key, now), steps);
    var s := Run(p, cfg, Init(key, now), steps);
    var a, b := s.seals[i], s.seals[j];
    assert Earlier(a, b);
    if SeqNonce(a.n) == SeqNonce(b.n) {
      SeqNonceInjective(a.n, b.n);
    }
  }
}
