/**
 Lock timeouts during a call of send or receive: which attempts get the lock, and what a call
 does that does not get it at all.
 */
module ChannelLocks {
  import opened Bytes
  import opened Channel
  import opened ChannelCalls

  /** The attempts to lock the shared buffer in a run, and whether they succeed. */
  function Attempts(steps: seq<Step>): seq<bool> {
    if steps == [] then []
    else
      var rest := Attempts(steps[1..]);
      match steps[0]
      case Write(granted) => [granted] + rest
      case Read(granted) => [granted] + rest
      case _ => rest
  }

  /** The first attempts succeed, as many as locks says, and there is at most one more. */
  predicate AsGranted(attempts: seq<bool>, locks: Patience) {
    match locks
    case Always => forall i :: 0 <= i < |attempts| ==> attempts[i]
    case Grants(n) => |attempts| <= n + 1 && forall i :: 0 <= i < |attempts| ==> (attempts[i] <==> i < n)
  }

  lemma OneAttempt(step: Step, rest: seq<Step>, locks: Patience)
    requires step == Write(Granted(locks)) || step == Read(Granted(locks))
    requires if Granted(locks) then AsGranted(Attempts(rest), Used(locks)) else rest == []
    ensures AsGranted(Attempts([step] + rest), locks)
  {
    assert ([step] + rest)[1..] == rest;
  }

  lemma NoAttempt(step: Step, rest: seq<Step>)
    requires !step.Write? && !step.Read?
    ensures Attempts([step] + rest) == Attempts(rest)
  {
    assert ([step] + rest)[1..] == rest;
  }

  /** A call of send tries for the lock as often as it needs to and is granted it, and stops at
      the first timeout. */
  lemma {:induction false} SendLocks(p: Protocol, x: SenderState, fifo: seq<Byte>, locks: Patience)
    requires SenderValid(p, x) && |fifo| <= MSG_BUFFER_SIZE
    ensures AsGranted(Attempts(SendSteps(p, x, fifo, locks)), locks)
    decreases |x.queue|
  {
    if x.remaining > 0 {
      var n := Accepted(fifo, x.remaining, Granted(locks));
      var x1, fifo1 := x.(remaining := x.remaining - n), fifo + Unsent(x)[..n];
      if n < x.remaining || x1.queue == [] {
        OneAttempt(Write(Granted(locks)), [], locks);
        assert [Write(Granted(locks))] + [] == [Write(Granted(locks))];
      } else {
        var rest := SendSteps(p, Load(p, x1), fifo1, Used(locks));
        SendLocks(p, Load(p, x1), fifo1, Used(locks));
        NoAttempt(LoadNext, rest);
        OneAttempt(Write(Granted(locks)), [LoadNext] + rest, locks);
      }
    } else if x.queue != [] {
      SendLocks(p, Load(p, x), fifo, locks);
      NoAttempt(LoadNext, SendSteps(p, Load(p, x), fifo, locks));
    }
  }

  /** The same for receive. */
  lemma {:induction false} ReceiveLocks(p: Protocol, r: ReceiverState, fifo: seq<Byte>, locks: Patience)
    requires ReceiverValid(r)
    ensures AsGranted(Attempts(ReceiveSteps(p, r, fifo, locks)), locks)
    decreases |fifo|, if r.remaining == 0 then 1 else 0
  {
    if r.remaining > 0 {
      var n := Offered(fifo, r.remaining, Granted(locks));
      var (r1, progress) := Feed(p, r, fifo[..n]);
      var rest := if progress == More then ReceiveSteps(p, r1, fifo[n..], Used(locks)) else [];
      if progress == More {
        ReceiveLocks(p, r1, fifo[n..], Used(locks));
      }
      OneAttempt(Read(Granted(locks)), rest, locks);
    } else {
      ReceiveLocks(p, Setup(r), fifo, locks);
      NoAttempt(SetupSize, ReceiveSteps(p, Setup(r), fifo, locks));
    }
  }

  /** A call of send that does not get the lock leaves the shared bytes alone and still has every
      byte to send that it had. */
  lemma SendTimesOut(p: Protocol, x: SenderState, fifo: seq<Byte>)
    requires SenderValid(p, x) && |fifo| <= MSG_BUFFER_SIZE
    ensures var (x', fifo') := SendCall(p, x, fifo, Grants(0)); fifo' == fifo && Pending(p, x') == Pending(p, x)
  {
    if x.remaining == 0 && x.queue != [] {
      LoadMovesNothing(p, x);
    }
  }

  /** A call of receive that does not get the lock leaves the shared bytes alone and returns no
      message; between frames or inside one, it keeps the part that it has. */
  lemma ReceiveTimesOut(p: Protocol, r: ReceiverState, fifo: seq<Byte>)
    requires ReceiverValid(r)
    ensures var result := ReceiveCall(p, r, fifo, Grants(0));
      && result.fifo == fifo && !result.threw && result.receiver.msgs == []
      && ((r.remaining == 0 ==> r.msgSize == 0) ==> Partial(result.receiver) == Partial(r))
  {
    var r0 := r.(msgs := []);
    var r1 := if r.remaining > 0 then r0 else Setup(r0);
    var offset := |r1.buffer| - r1.remaining;
    assert r1.buffer[..offset] + [] + r1.buffer[offset..] == r1.buffer;
    assert Feed(p, r1, []) == (r1, Short);
    assert fifo[..0] == [] && fifo[0..] == fifo;
    assert ReceiveLoop(p, r1, fifo, Grants(0)) == ReceiveResult(r1, fifo, false);
  }
}
