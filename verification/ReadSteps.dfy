/** One call of Read over the bytes of a wire, on every outcome, is the step system's read steps one
    after the other. */
module ReadSteps {
  import opened Bytes
  import opened Crypto
  import opened Frames
  import opened SecureSpec
  import opened SecureConns
  import opened Delivery
  import opened EndToEnd

  predicate OnlyReads(steps: seq<Step>) {
    forall i :: 0 <= i < |steps| ==> steps[i].ReadNext?
  }

  lemma {:induction false} RunAppend(p: Primitives, cfg: Config, s: Sys, a: seq<Step>, b: seq<Step>)
    ensures Run(p, cfg, s, a + b) == Run(p, cfg, Run(p, cfg, s, a), b)
  {
    hide Next;
    if b == [] {
      assert a + b == a;
    } else {
      var n := |b| - 1;
      assert (a + b)[..|a + b| - 1] == a + b[..n];
      RunAppend(p, cfg, s, a, b[..n]);
    }
  }

  lemma OneStep(p: Primitives, cfg: Config, s: Sys, step: Step)
    ensures Run(p, cfg, s, [step]) == Next(p, cfg, s, step)
  {
    hide Next;
    assert [step][..0] == [];
    assert Run(p, cfg, s, [step][..0]) == s;
  }

  /** Reading touches nothing but the receiver, the wire, and what has been read. */
  ghost predicate SameSender(s: Sys, t: Sys) {
    t == s.(recv := t.recv, wire := t.wire, delivered := t.delivered, readError := t.readError)
  }

  /** Where taking frames up to the first that is no key update has got the reader. */
  ghost predicate Took(s: Sys, t: Sys, got: Received) {
    match got
    case Opened(inner, payload) =>
      && |t.wire| < |s.wire|
      && inner != INNER_KEY_UPDATE
      && (if inner == INNER_DATA then t.delivered == s.delivered + [payload] else t.delivered == s.delivered)
      && (if inner == INNER_DATA || inner == INNER_PING || inner == INNER_PONG then t.readError.None?
          else t.readError == Some(BadFrame))
    case Rejected(e) =>
      && t.delivered == s.delivered
      && (t.readError == Some(e) || (t.readError.None? && e == Eof && t.wire == []))
    case KeyUpdated => false
  }

  lemma NoOpenedUpdate(p: Primitives, cfg: Config, r: RecvState, f: Frame, t: Times)
    ensures Receive(p, cfg, r, f, t).1.Opened? ==> Receive(p, cfg, r, f, t).1.inner != INNER_KEY_UPDATE
  {
    hide Admit, Install, Mark;
  }

  lemma TakeOne(p: Primitives, cfg: Config, s: Sys, t: Times)
    requires s.wire != [] && s.wire[0].Whole? && s.readError.None?
    ensures var (recv, got) := Receive(p, cfg, s.recv, FrameOf(p, cfg, s.wire[0].sent), t);
            var u := Next(p, cfg, s, ReadNext(t));
            && u.recv == recv && u.wire == s.wire[1..] && SameSender(s, u)
            && (if got.KeyUpdated? then u.delivered == s.delivered && u.readError.None? else Took(s, u, got))
  {
    NoOpenedUpdate(p, cfg, s.recv, FrameOf(p, cfg, s.wire[0].sent), t);
    hide Receive, FrameOf;
  }

  lemma {:induction false} ReadStreamIsSteps(p: Primitives, cfg: Config, s: Sys, clock: nat -> Times, i: nat)
    returns (steps: seq<Step>)
    requires Garbled !in s.wire && AllFit(p, cfg, s.wire) && s.readError.None?
    ensures OnlyReads(steps)
    ensures var (after, parsed, got) := ReadStream(p, cfg, s.recv, StreamOf(p, cfg, s.wire), clock, i);
            var t := Run(p, cfg, s, steps);
            && t.recv == after && SameSender(s, t) && Took(s, t, got)
            && Garbled !in t.wire && AllFit(p, cfg, t.wire) && parsed.rest == StreamOf(p, cfg, t.wire)
    decreases |s.wire|
  {
    hide Receive, FrameOf, Encode, Parse, Next;
    if s.wire == [] {
      NothingToParse(cfg);
      steps := [];
    } else {
      var f := FrameOf(p, cfg, s.wire[0].sent);
      ParseOfEncode(cfg, f, StreamOf(p, cfg, s.wire[1..]));
      TakeOne(p, cfg, s, clock(i));
      steps := [ReadNext(clock(i))];
      OneStep(p, cfg, s, ReadNext(clock(i)));
      var u := Next(p, cfg, s, ReadNext(clock(i)));
      if Receive(p, cfg, s.recv, f, clock(i)).1.KeyUpdated? {
        var more := ReadStreamIsSteps(p, cfg, u, clock, i + 1);
        hide Run, ReadStream;
        RunAppend(p, cfg, s, steps, more);
        steps := steps + more;
      }
    }
  }

  /** A call of Read is a run of read steps: it ends with the same receiver and the same bytes left,
      delivers the payload that it returns, and fails as the reader does, or finds the stream at its
      end. */
  lemma {:induction false} ReadIsSteps(p: Primitives, cfg: Config, s: Sys, own: SendKey, closed: bool, out: Bytes,
                                       clocks: nat -> nat -> Times, envs: nat -> WriteEnv, j: nat)
    returns (steps: seq<Step>)
    requires Garbled !in s.wire && AllFit(p, cfg, s.wire) && s.readError.None?
    ensures OnlyReads(steps)
    ensures var reading := ReadPayload(p, cfg, s.recv, own, closed, StreamOf(p, cfg, s.wire), out, clocks, envs, j);
            var t := Run(p, cfg, s, steps);
            && t.recv == reading.recv && SameSender(s, t)
            && Garbled !in t.wire && AllFit(p, cfg, t.wire) && reading.rest == StreamOf(p, cfg, t.wire)
            && match reading.result
               case Ok(payload) => t.delivered == s.delivered + [payload] && t.readError.None?
               case Err(e) =>
                 && t.delivered == s.delivered
                 && (t.readError == Some(e) || (t.readError.None? && e == Eof && t.wire == []))
    decreases |s.wire|
  {
    hide ReadStream, WriteThrough, StreamOf, AllFit, Run, Next;
    steps := ReadStreamIsSteps(p, cfg, s, clocks(j), 0);
    var t := Run(p, cfg, s, steps);
    var got := ReadStream(p, cfg, s.recv, StreamOf(p, cfg, s.wire), clocks(j), 0).2;
    if got.Opened? && (got.inner == INNER_PING || got.inner == INNER_PONG) {
      var pong := WriteThrough(p, cfg, own, closed, INNER_PONG, [], envs(j));
      var more: seq<Step>;
      if got.inner == INNER_PING {
        more := ReadIsSteps(p, cfg, t, pong.key, closed, out + pong.bytes, clocks, envs, j + 1);
      } else {
        more := ReadIsSteps(p, cfg, t, own, closed, out, clocks, envs, j + 1);
      }
      RunAppend(p, cfg, s, steps, more);
      steps := steps + more;
    }
  }
}
