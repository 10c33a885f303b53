/**
 Whole calls of send and receive, made of the steps of the channel machine, and the
 number of calls that empties the channel.
 */
module ChannelCalls {
  import opened Bytes
  import opened Codec
  import opened Channel

  /** How many of the next attempts to lock the shared buffer succeed before one times out. */
  datatype Patience = Always | Grants(n: nat)

  predicate Granted(locks: Patience) {
    locks.Always? || locks.n > 0
  }

  function Used(locks: Patience): Patience {
    if Granted(locks) && locks.Grants? then Grants(locks.n - 1) else locks
  }

  // ---- send ----

  /** What a call of send makes of the sender and the shared bytes. */
  function SendCall(p: Protocol, x: SenderState, fifo: seq<Byte>, locks: Patience): (r: (SenderState, seq<Byte>))
    requires SenderValid(p, x) && |fifo| <= MSG_BUFFER_SIZE
    ensures SenderValid(p, r.0) && |r.1| <= MSG_BUFFER_SIZE
    decreases |x.queue|
  {
    if x.remaining > 0 then
      var n := Accepted(fifo, x.remaining, Granted(locks));
      var x1, fifo1 := x.(remaining := x.remaining - n), fifo + Unsent(x)[..n];
      if n < x.remaining || x1.queue == [] then (x1, fifo1)
      else SendCall(p, Load(p, x1), fifo1, Used(locks))
    else if x.queue == [] then (x, fifo)
    else SendCall(p, Load(p, x), fifo, locks)
  }

  function SendSteps(p: Protocol, x: SenderState, fifo: seq<Byte>, locks: Patience): seq<Step>
    requires SenderValid(p, x) && |fifo| <= MSG_BUFFER_SIZE
    decreases |x.queue|
  {
    if x.remaining > 0 then
      var n := Accepted(fifo, x.remaining, Granted(locks));
      var x1, fifo1 := x.(remaining := x.remaining - n), fifo + Unsent(x)[..n];
      if n < x.remaining || x1.queue == [] then [Write(Granted(locks))]
      else [Write(Granted(locks))] + ([LoadNext] + SendSteps(p, Load(p, x1), fifo1, Used(locks)))
    else if x.queue == [] then []
    else [LoadNext] + SendSteps(p, Load(p, x), fifo, locks)
  }

  /** A call of send that nothing interrupts is a run of the machine. */
  lemma {:induction false} SendIsRun(p: Protocol, c: Channel, locks: Patience)
    requires Wf(p, c)
    ensures
      var (x, fifo) := SendCall(p, c.sender, c.fifo, locks);
      Run(p, c, SendSteps(p, c.sender, c.fifo, locks)) == c.(sender := x, fifo := fifo)
    decreases |c.sender.queue|
  {
    var x := c.sender;
    if x.remaining > 0 {
      var c1 := Next(p, c, Write(Granted(locks)));
      if c1.sender.remaining == 0 && x.queue != [] {
        var c2 := Next(p, c1, LoadNext);
        SendIsRun(p, c2, Used(locks));
        var rest := SendSteps(p, c2.sender, c2.fifo, Used(locks));
        var steps := [Write(Granted(locks))] + ([LoadNext] + rest);
        assert steps[1..] == [LoadNext] + rest && ([LoadNext] + rest)[1..] == rest;
      } else {
        assert Run(p, c1, []) == c1;
      }
    } else if x.queue != [] {
      var c1 := Next(p, c, LoadNext);
      SendIsRun(p, c1, locks);
      var rest := SendSteps(p, c1.sender, c1.fifo, locks);
      assert ([LoadNext] + rest)[1..] == rest;
    }
  }

  /** fifo' and x' are what is left when n bytes have moved from x to fifo. */
  predicate Moved(p: Protocol, x: SenderState, fifo: seq<Byte>, n: nat, x': SenderState, fifo': seq<Byte>)
    requires SenderValid(p, x) && SenderValid(p, x')
  {
    && n <= |Pending(p, x)|
    && fifo' == fifo + Pending(p, x)[..n]
    && Pending(p, x') == Pending(p, x)[n..]
  }

  lemma MovedTwice(p: Protocol, x: SenderState, fifo: seq<Byte>, n: nat, y: SenderState, fifo1: seq<Byte>, m: nat,
                   z: SenderState, fifo2: seq<Byte>)
    requires SenderValid(p, x) && SenderValid(p, y) && SenderValid(p, z)
    requires Moved(p, x, fifo, n, y, fifo1) && Moved(p, y, fifo1, m, z, fifo2)
    ensures Moved(p, x, fifo, n + m, z, fifo2)
  {
  }

  lemma LoadMovesNothing(p: Protocol, x: SenderState)
    requires SenderValid(p, x) && x.remaining == 0 && x.queue != []
    ensures Pending(p, Load(p, x)) == Pending(p, x)
  {
  }

  /** How far a buffer of these contents is filled by so many pending bytes. */
  function Filling(p: Protocol, x: SenderState, fifo: seq<Byte>): nat
    requires SenderValid(p, x) && |fifo| <= MSG_BUFFER_SIZE
  {
    Min(|Pending(p, x)|, MSG_BUFFER_SIZE - |fifo|)
  }

  lemma FillsAfterLoad(p: Protocol, x: SenderState, fifo: seq<Byte>, n: nat, x1: SenderState, fifo1: seq<Byte>,
                       x': SenderState, fifo': seq<Byte>)
    requires SenderValid(p, x) && SenderValid(p, x1) && SenderValid(p, x')
    requires |fifo| <= MSG_BUFFER_SIZE && |fifo1| <= MSG_BUFFER_SIZE
    requires Moved(p, x, fifo, n, x1, fifo1) && x1.remaining == 0 && x1.queue != []
    requires Moved(p, Load(p, x1), fifo1, Filling(p, Load(p, x1), fifo1), x', fifo')
    ensures Moved(p, x, fifo, Filling(p, x, fifo), x', fifo')
  {
    LoadMovesNothing(p, x1);
    var m := Filling(p, Load(p, x1), fifo1);
    MovedTwice(p, x, fifo, n, x1, fifo1, m, x', fifo');
    assert n + m == Filling(p, x, fifo);
  }

  /** With the lock always obtained, send fills the shared buffer as far as it can. */
  lemma {:induction false} SendFills(p: Protocol, x: SenderState, fifo: seq<Byte>)
    requires SenderValid(p, x) && |fifo| <= MSG_BUFFER_SIZE
    ensures
      var (x', fifo') := SendCall(p, x, fifo, Always);
      Moved(p, x, fifo, Filling(p, x, fifo), x', fifo')
    decreases |x.queue|
  {
    if x.remaining > 0 {
      var n := Accepted(fifo, x.remaining, true);
      var x1, fifo1 := x.(remaining := x.remaining - n), fifo + Unsent(x)[..n];
      if n == x.remaining && x.queue != [] {
        var x2 := Load(p, x1);
        SendFills(p, x2, fifo1);
        var (x', fifo') := SendCall(p, x2, fifo1, Always);
        FillsAfterLoad(p, x, fifo, n, x1, fifo1, x', fifo');
      }
    } else if x.queue != [] {
      LoadMovesNothing(p, x);
      SendFills(p, Load(p, x), fifo);
    }
  }

  // ---- receive ----

  datatype ReceiveResult = ReceiveResult(receiver: ReceiverState, fifo: seq<Byte>, threw: bool)

  /** What the loop of receive makes of the receiver and the shared bytes. */
  function ReceiveLoop(p: Protocol, r: ReceiverState, fifo: seq<Byte>, locks: Patience): (result: ReceiveResult)
    requires ReceiverValid(r)
    ensures ReceiverValid(result.receiver) && |result.fifo| <= |fifo|
    decreases |fifo|, if r.remaining == 0 then 1 else 0
  {
    if r.remaining > 0 then
      var n := Offered(fifo, r.remaining, Granted(locks));
      var (r1, progress) := Feed(p, r, fifo[..n]);
      if progress == More then ReceiveLoop(p, r1, fifo[n..], Used(locks))
      else ReceiveResult(r1, fifo[n..], progress == Threw)
    else ReceiveLoop(p, Setup(r), fifo, locks)
  }

  /** A call of receive first forgets the messages of the call before. */
  function ReceiveCall(p: Protocol, r: ReceiverState, fifo: seq<Byte>, locks: Patience): (result: ReceiveResult)
    requires ReceiverValid(r)
    ensures ReceiverValid(result.receiver) && |result.fifo| <= |fifo|
  {
    ReceiveLoop(p, r.(msgs := []), fifo, locks)
  }

  function ReceiveSteps(p: Protocol, r: ReceiverState, fifo: seq<Byte>, locks: Patience): seq<Step>
    requires ReceiverValid(r)
    decreases |fifo|, if r.remaining == 0 then 1 else 0
  {
    if r.remaining > 0 then
      var n := Offered(fifo, r.remaining, Granted(locks));
      var (r1, progress) := Feed(p, r, fifo[..n]);
      [Read(Granted(locks))] + if progress == More then ReceiveSteps(p, r1, fifo[n..], Used(locks)) else []
    else [SetupSize] + ReceiveSteps(p, Setup(r), fifo, locks)
  }

  function AfterReceive(c: Channel, result: ReceiveResult): Channel {
    var c1 := c.(receiver := result.receiver, fifo := result.fifo, receiving := false);
    if result.threw then c1.(threw := true) else c1.(returned := c.returned + result.receiver.msgs)
  }

  lemma {:induction false} ReceiveLoopIsRun(p: Protocol, c: Channel, locks: Patience)
    requires Wf(p, c) && c.receiving
    ensures Run(p, c, ReceiveSteps(p, c.receiver, c.fifo, locks))
      == AfterReceive(c, ReceiveLoop(p, c.receiver, c.fifo, locks))
    decreases |c.fifo|, if c.receiver.remaining == 0 then 1 else 0
  {
    var step := if c.receiver.remaining > 0 then Read(Granted(locks)) else SetupSize;
    var c1 := Next(p, c, step);
    var locks1 := if c.receiver.remaining > 0 then Used(locks) else locks;
    var steps := ReceiveSteps(p, c.receiver, c.fifo, locks);
    assert Run(p, c, steps) == Run(p, c1, steps[1..]);
    if c1.receiving {
      ReceiveLoopIsRun(p, c1, locks1);
    } else {
      assert Run(p, c1, []) == c1;
    }
  }

  /** A call of receive that nothing interrupts is a run of the machine. */
  lemma ReceiveIsRun(p: Protocol, c: Channel, locks: Patience)
    requires Wf(p, c) && !c.receiving
    ensures Run(p, c, [BeginReceive] + ReceiveSteps(p, c.receiver.(msgs := []), c.fifo, locks))
      == AfterReceive(c, ReceiveCall(p, c.receiver, c.fifo, locks))
  {
    var rest := ReceiveSteps(p, c.receiver.(msgs := []), c.fifo, locks);
    assert ([BeginReceive] + rest)[1..] == rest;
    ReceiveLoopIsRun(p, Next(p, c, BeginReceive), locks);
  }

  /** With the lock always obtained, receive empties the shared buffer, unless it throws. */
  lemma {:induction false} ReceiveEmpties(p: Protocol, r: ReceiverState, fifo: seq<Byte>)
    requires ReceiverValid(r)
    ensures var result := ReceiveLoop(p, r, fifo, Always); result.threw || result.fifo == []
    decreases |fifo|, if r.remaining == 0 then 1 else 0
  {
    if r.remaining > 0 {
      var n := Offered(fifo, r.remaining, true);
      var (r1, progress) := Feed(p, r, fifo[..n]);
      if progress == More {
        ReceiveEmpties(p, r1, fifo[n..]);
      }
    } else {
      ReceiveEmpties(p, Setup(r), fifo);
    }
  }

  // ---- draining the channel ----

  /** One call of send, then one of receive, with the lock always obtained. */
  function Round(p: Protocol, c: Channel): (c': Channel)
    requires Wf(p, c)
    ensures Wf(p, c')
  {
    var (x, fifo) := SendCall(p, c.sender, c.fifo, Always);
    AfterReceive(c.(sender := x, fifo := fifo), ReceiveCall(p, c.receiver, fifo, Always))
  }

  function Rounds(p: Protocol, c: Channel, k: nat): (c': Channel)
    requires Wf(p, c)
    ensures Wf(p, c')
  {
    if k == 0 then c else Round(p, Rounds(p, c, k - 1))
  }

  ghost predicate Idle(p: Protocol, c: Channel) {
    Inv(p, c) && !c.receiving && c.fifo == []
  }

  predicate AllDelivered(c: Channel) {
    |c.returned| == |c.enqueued|
  }

  /** d is c after up to n more bytes have gone through. */
  ghost predicate Drained(p: Protocol, c: Channel, n: nat, d: Channel)
    requires SenderValid(p, c.sender)
  {
    && Idle(p, d) && d.enqueued == c.enqueued
    && |Pending(p, d.sender)| == |Pending(p, c.sender)| - Min(|Pending(p, c.sender)|, n)
  }

  lemma RoundMoves(p: Protocol, c: Channel)
    requires Idle(p, c)
    ensures Drained(p, c, MSG_BUFFER_SIZE, Round(p, c))
  {
    SendFills(p, c.sender, c.fifo);
    SendIsRun(p, c, Always);
    RunKeepsInv(p, c, SendSteps(p, c.sender, c.fifo, Always));
    var (x, fifo) := SendCall(p, c.sender, c.fifo, Always);
    var c1 := c.(sender := x, fifo := fifo);
    ReceiveIsRun(p, c1, Always);
    RunKeepsInv(p, c1, [BeginReceive] + ReceiveSteps(p, c1.receiver.(msgs := []), c1.fifo, Always));
    ReceiveEmpties(p, c1.receiver.(msgs := []), c1.fifo);
  }

  lemma {:induction false} RoundsMove(p: Protocol, c: Channel, k: nat)
    requires Idle(p, c)
    ensures Drained(p, c, k * MSG_BUFFER_SIZE, Rounds(p, c, k))
  {
    if k > 0 {
      var d := Rounds(p, c, k - 1);
      RoundsMove(p, c, k - 1);
      RoundMoves(p, d);
    }
  }

  /** Everything has been delivered exactly when no byte waits to be sent. */
  lemma DeliveredIffNothingPending(p: Protocol, c: Channel)
    requires Idle(p, c)
    ensures AllDelivered(c) <==> |Pending(p, c.sender)| == 0
  {
    var left := c.enqueued[|c.returned|..];
    assert AllDecoded(c) == c.returned;
    assert Frames(p, left) == InTransit(p, c);
    if left != [] {
      assert p.sendable(left[0]);
      assert |Frames(p, left)| >= |Frame(p, left[0])| > |Partial(c.receiver)|;
    }
  }

  /** T outstanding bytes are delivered and decoded by the ceil(T / 4096)-th alternation of
      send and receive and by no earlier one, however large the messages are. */
  lemma DrainBound(p: Protocol, c: Channel, k: nat)
    requires Idle(p, c)
    ensures var t := |Pending(p, c.sender)|;
      AllDelivered(Rounds(p, c, k)) <==> k >= (t + MSG_BUFFER_SIZE - 1) / MSG_BUFFER_SIZE
    ensures DeliveredInOrder(p, c.enqueued, Rounds(p, c, k).returned)
  {
    RoundsMove(p, c, k);
    DeliveredIffNothingPending(p, Rounds(p, c, k));
    assert AllDecoded(Rounds(p, c, k)) == Rounds(p, c, k).returned;
  }

  /** One enqueue after the other. */
  function EnqueueAll(ms: seq<Value>): (steps: seq<Step>)
    ensures |steps| == |ms| && forall i :: 0 <= i < |ms| ==> steps[i] == Enqueue(ms[i])
  {
    seq(|ms|, i requires 0 <= i < |ms| => Enqueue(ms[i]))
  }

  function WithEnqueued(c: Channel, ms: seq<Value>): Channel {
    c.(enqueued := c.enqueued + ms, sender := c.sender.(queue := c.sender.queue + ms))
  }

  lemma EnqueuedTwice(c: Channel, a: seq<Value>, b: seq<Value>)
    ensures WithEnqueued(WithEnqueued(c, a), b) == WithEnqueued(c, a + b) && WithEnqueued(c, []) == c
  {
    assert c.enqueued + a + b == c.enqueued + (a + b);
    assert c.sender.queue + a + b == c.sender.queue + (a + b);
    assert c.enqueued + [] == c.enqueued && c.sender.queue + [] == c.sender.queue;
  }

  lemma {:induction false} EnqueueAllRun(p: Protocol, c: Channel, ms: seq<Value>)
    requires Wf(p, c) && AllSendable(p, ms)
    ensures Run(p, c, EnqueueAll(ms)) == WithEnqueued(c, ms)
    decreases |ms|
  {
    if ms == [] {
      EnqueuedTwice(c, [], []);
    } else {
      var next := Next(p, c, Enqueue(ms[0]));
      assert EnqueueAll(ms)[1..] == EnqueueAll(ms[1..]) && next == WithEnqueued(c, [ms[0]]);
      EnqueueAllRun(p, next, ms[1..]);
      EnqueuedTwice(c, [ms[0]], ms[1..]);
      assert [ms[0]] + ms[1..] == ms;
    }
  }

  /** Whatever messages are enqueued: k alternations of send and receive return what is received of
      each of them, in order, if and only if k is enough for the bytes of their frames. */
  lemma AllArriveIff(p: Protocol, ms: seq<Value>, k: nat)
    requires Sound(p) && AllSendable(p, ms)
    ensures var got := Rounds(p, Run(p, INITIAL, EnqueueAll(ms)), k).returned;
      && (|got| == |ms| <==> k >= (|Frames(p, ms)| + MSG_BUFFER_SIZE - 1) / MSG_BUFFER_SIZE)
      && |got| <= |ms| && forall i :: 0 <= i < |got| ==> got[i] == p.received(ms[i])
  {
    var c := Run(p, INITIAL, EnqueueAll(ms));
    EnqueueAllRun(p, INITIAL, ms);
    assert c.enqueued == ms && c.sender.queue == ms;
    RunKeepsInv(p, INITIAL, EnqueueAll(ms));
    assert Pending(p, c.sender) == Frames(p, ms);
    DrainBound(p, c, k);
    RoundsMove(p, c, k);
  }
}
