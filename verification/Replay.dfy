/** 64-bit machine words, as the bit operations of the replay window see them. */
module Words {

  const WORD_SIZE: nat := 64

  /** A word is its 64 bits, the lowest first. */
  type Word = w: seq<bool> | |w| == WORD_SIZE witness seq(64, _ => false)

  const ZERO: Word := seq(WORD_SIZE, _ => false)
  const ONE: Word := seq(WORD_SIZE, i => i == 0)

  /** Shifts towards the high end; bits pushed past the end are lost, the low end fills with 0. */
  function Shl(w: Word, n: nat): Word {
    seq(WORD_SIZE, i requires 0 <= i < WORD_SIZE => n <= i && w[i - n])
  }

  function Or(v: Word, w: Word): Word {
    seq(WORD_SIZE, i requires 0 <= i < WORD_SIZE => v[i] || w[i])
  }

  function And(v: Word, w: Word): Word {
    seq(WORD_SIZE, i requires 0 <= i < WORD_SIZE => v[i] && w[i])
  }

  /** Masking with a single place asks for the bit in that place. */
  lemma MaskTestsBit(w: Word, d: nat)
    requires d < WORD_SIZE
    ensures And(w, Shl(ONE, d)) != ZERO <==> w[d]
  {
    if w[d] {
      assert And(w, Shl(ONE, d))[d];
    } else {
      assert And(w, Shl(ONE, d)) == ZERO;
    }
  }
}

/**
  The sliding replay window of a receive key: a 64-bit bitmap that stands for the set of
  sequence numbers accepted so far.
 */
module Replay {
  import opened Bytes
  import opened Words

  /** The set view of the window: number n passes iff it is nonzero, new, and no accepted number
      is size or more above it. */
  ghost predicate Accepts(accepted: set<nat>, size: nat, n: nat) {
    n != 0 && n !in accepted && forall a :: a in accepted ==> a < n + size
  }

  ghost function AcceptInto(accepted: set<nat>, size: nat, n: nat): set<nat> {
    if Accepts(accepted, size, n) then accepted + {n} else accepted
  }

  /** The window size that a configured size stands for. */
  function EffectiveSize(size: u64): (s: nat)
    ensures 1 <= s <= WORD_SIZE
  {
    if size == 0 || size > 64 then WORD_SIZE else size
  }

  /** maxSeq is the largest accepted number, and 0 while there is none. */
  ghost predicate IsMax(maxSeq: nat, accepted: set<nat>) {
    && (maxSeq == 0 <==> accepted == {})
    && (maxSeq != 0 ==> maxSeq in accepted)
    && forall a :: a in accepted ==> 0 < a <= maxSeq
  }

  class ReplayWindow {
    var maxSeq: u64
    var bits: Word
    var size: u64

    /** Every number accepted since the window was made, also those that slid out of it. */
    ghost var accepted: set<nat>

    /** The bitmap is exact: bit d stands for maxSeq - d, for every d inside the window. */
    ghost predicate Valid()
      reads this
    {
      && 1 <= size <= 64
      && IsMax(maxSeq, accepted)
      && (maxSeq != 0 ==>
            forall d: nat :: d < size ==> (bits[d] <==> maxSeq - d in accepted))
    }

    constructor (size: u64)
      ensures Valid()
      ensures this.size == EffectiveSize(size) == (if 1 <= size <= 64 then size else 64)
      ensures maxSeq == 0 && accepted == {}
    {
      this.size := if size == 0 || size > 64 then 64 else size;
      maxSeq := 0;
      bits := ZERO;
      accepted := {};
    }

    method Accept(n: u64) returns (ok: bool)
      requires Valid()
      modifies this
      ensures Valid() && size == old(size)
      ensures ok <==> Accepts(old(accepted), size, n)
      ensures accepted == AcceptInto(old(accepted), size, n)
      ensures maxSeq == if ok && n > old(maxSeq) then n else old(maxSeq)
    {
      if n == 0 {
        return false;
      }
      if maxSeq == 0 {
        maxSeq := n;
        bits := ONE;
        accepted := {n};
        return true;
      }
      if n > maxSeq {
        var diff := n - maxSeq;
        if diff >= size {
          bits := ONE;
        } else {
          bits := Or(Shl(bits, diff), ONE);
        }
        maxSeq := n;
        accepted := accepted + {n};
        return true;
      }
      var diff := maxSeq - n;
      if diff >= size {
        return false;
      }
      var mask := Shl(ONE, diff);
      MaskTestsBit(bits, diff);
      if And(bits, mask) != ZERO {
        return false;
      }
      bits := Or(bits, mask);
      accepted := accepted + {n};
      return true;
    }
  }

  /* ------------------------------ runs of Accept ------------------------------ */

  /** The verdicts of a run of calls on a window that has accepted the given set. */
  ghost function Verdicts(accepted: set<nat>, size: nat, ns: seq<nat>): (vs: seq<bool>)
    ensures |vs| == |ns|
    decreases ns
  {
    if ns == [] then []
    else [Accepts(accepted, size, ns[0])] + Verdicts(AcceptInto(accepted, size, ns[0]), size, ns[1..])
  }

  ghost predicate Distinct(ns: seq<nat>) {
    forall i, j :: 0 <= i < j < |ns| ==> ns[i] != ns[j]
  }

  /** No number arrives after one that is larger by size or more. */
  ghost predicate BoundedReordering(ns: seq<nat>, size: nat) {
    forall i, j :: 0 <= i < j < |ns| ==> ns[i] < ns[j] + size
  }

  ghost predicate AllAccepted(vs: seq<bool>) {
    forall i :: 0 <= i < |vs| ==> vs[i]
  }

  /** A run is accepted in full iff its numbers are acceptable after those already accepted,
      nonzero, pairwise distinct, and reordered by less than the window size. */
  lemma {:induction false} FullAcceptanceFrom(accepted: set<nat>, size: nat, ns: seq<nat>)
    ensures AllAccepted(Verdicts(accepted, size, ns)) <==>
            (forall i :: 0 <= i < |ns| ==> Accepts(accepted, size, ns[i]))
            && Distinct(ns) && BoundedReordering(ns, size)
    decreases ns
  {
    if ns != [] {
      var n, rest := ns[0], ns[1..];
      var next := AcceptInto(accepted, size, n);
      var vs, tail := Verdicts(accepted, size, ns), Verdicts(next, size, rest);
      FullAcceptanceFrom(next, size, rest);
      assert vs == [Accepts(accepted, size, n)] + tail;
      if AllAccepted(vs) {
        assert vs[0];
        assert forall i :: 0 <= i < |tail| ==> tail[i] == vs[i + 1];
        forall i | 0 <= i < |ns| ensures Accepts(accepted, size, ns[i]) {
          if i > 0 { assert Accepts(next, size, rest[i - 1]); }
        }
        forall i, j | 0 <= i < j < |ns| ensures ns[i] != ns[j] && ns[i] < ns[j] + size {
          assert ns[j] == rest[j - 1];
          if i == 0 {
            assert Accepts(next, size, rest[j - 1]) && n in next;
          } else {
            assert ns[i] == rest[i - 1];
          }
        }
      }
      if (forall i :: 0 <= i < |ns| ==> Accepts(accepted, size, ns[i]))
         && Distinct(ns) && BoundedReordering(ns, size) {
        assert Accepts(accepted, size, ns[0]);
        forall i | 0 <= i < |rest| ensures Accepts(next, size, rest[i]) {
          assert rest[i] == ns[i + 1] && Accepts(accepted, size, ns[i + 1]);
        }
        assert Distinct(rest) && BoundedReordering(rest, size);
        assert AllAccepted(tail);
      }
    }
  }

  /** On a fresh window: bounded reordering of distinct nonzero numbers loses nothing, and
      nothing else is accepted in full. */
  lemma FullAcceptance(size: nat, ns: seq<nat>)
    ensures AllAccepted(Verdicts({}, size, ns)) <==>
            (forall i :: 0 <= i < |ns| ==> ns[i] != 0) && Distinct(ns) && BoundedReordering(ns, size)
  {
    FullAcceptanceFrom({}, size, ns);
    assert forall i :: 0 <= i < |ns| ==> (Accepts({}, size, ns[i]) <==> ns[i] != 0);
  }

  /** No number is accepted twice in a run, whatever arrives. */
  lemma {:induction false} NeverTwice(accepted: set<nat>, size: nat, ns: seq<nat>, i: nat, j: nat)
    requires i < j < |ns| && ns[i] == ns[j]
    ensures !(Verdicts(accepted, size, ns)[i] && Verdicts(accepted, size, ns)[j])
    decreases ns
  {
    var next := AcceptInto(accepted, size, ns[0]);
    if i > 0 {
      NeverTwice(next, size, ns[1..], i - 1, j - 1);
    } else if Accepts(accepted, size, ns[0]) {
      StaysAccepted(next, size, ns[1..], j - 1);
    }
  }

  lemma {:induction false} StaysAccepted(accepted: set<nat>, size: nat, ns: seq<nat>, j: nat)
    requires j < |ns| && ns[j] in accepted
    ensures !Verdicts(accepted, size, ns)[j]
    decreases ns
  {
    if j > 0 {
      StaysAccepted(AcceptInto(accepted, size, ns[0]), size, ns[1..], j - 1);
    }
  }
}
