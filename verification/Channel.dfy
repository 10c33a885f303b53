/**
 One direction of the message channel as a state machine: a resumable sender, the
 bounded byte buffer in shared memory, and a resumable receiver.  One step makes one
 access to shared state, so a sequence of steps is any interleaving of the loops of
 send and receive in their two processes with enqueue on other threads.
 */
module Channel {
  import opened Bytes
  import opened Codec
  import opened Wrappers

  const MSG_BUFFER_SIZE: nat := 4096
  // The receiver asserts that every message is smaller than this.
  const MESSAGE_LIMIT: nat := 1_000_000

  /** What sender<MsgT> and receiver<MsgT> need of MsgT: which values can be sent, serialize,
      deserialize (None when it throws), and what of a value survives the two. */
  datatype Protocol = Protocol(
    sendable: Value -> bool,
    encode: Value -> seq<Byte>,
    decode: seq<Byte> -> Option<Value>,
    received: Value -> Value)

  ghost predicate Sound(p: Protocol) {
    forall m :: p.sendable(m) ==>
      && SIZE_WIDTH <= |p.encode(m)| < MESSAGE_LIMIT
      && p.decode(p.encode(m)) == Some(p.received(m))
  }

  predicate AllSendable(p: Protocol, ms: seq<Value>) {
    forall i :: 0 <= i < |ms| ==> p.sendable(ms[i])
  }

  /** A message on the wire: its size, then its bytes. */
  function Frame(p: Protocol, m: Value): (bs: seq<Byte>)
    ensures |bs| == SIZE_WIDTH + |p.encode(m)|
  {
    SizeBytes(|p.encode(m)|) + p.encode(m)
  }

  function Frames(p: Protocol, ms: seq<Value>): seq<Byte> {
    if |ms| == 0 then [] else Frame(p, ms[0]) + Frames(p, ms[1..])
  }

  lemma {:induction false} FramesConcat(p: Protocol, a: seq<Value>, b: seq<Value>)
    ensures Frames(p, a + b) == Frames(p, a) + Frames(p, b)
  {
    if a == [] {
      assert a + b == b;
    } else {
      assert (a + b)[1..] == a[1..] + b;
      FramesConcat(p, a[1..], b);
    }
  }

  // ---- sender ----

  datatype SenderState = SenderState(buffer: seq<Byte>, remaining: nat, queue: seq<Value>)

  predicate SenderValid(p: Protocol, x: SenderState) {
    x.remaining <= |x.buffer| && AllSendable(p, x.queue)
  }

  /** The tail of buffer_ that has not been accepted yet. */
  function Unsent(x: SenderState): (bs: seq<Byte>)
    requires x.remaining <= |x.buffer|
    ensures |bs| == x.remaining
  {
    x.buffer[|x.buffer| - x.remaining..]
  }

  /** Everything the sender still has to deliver. */
  function Pending(p: Protocol, x: SenderState): seq<Byte>
    requires SenderValid(p, x)
  {
    Unsent(x) + Frames(p, x.queue)
  }

  function Load(p: Protocol, x: SenderState): SenderState
    requires SenderValid(p, x) && x.queue != []
  {
    var frame := Frame(p, x.queue[0]);
    SenderState(frame, |frame|, x.queue[1..])
  }

  // ---- bounded buffer ----

  /** How many bytes write accepts; granted says whether the lock was obtained in time. */
  function Accepted(fifo: seq<Byte>, count: nat, granted: bool): (n: nat)
    requires |fifo| <= MSG_BUFFER_SIZE
    ensures n <= count && |fifo| + n <= MSG_BUFFER_SIZE
    ensures !granted ==> n == 0
    ensures granted ==> n == count || |fifo| + n == MSG_BUFFER_SIZE
  {
    if granted then Min(count, MSG_BUFFER_SIZE - |fifo|) else 0
  }

  /** How many bytes read hands out. */
  function Offered(fifo: seq<Byte>, count: nat, granted: bool): (n: nat)
    ensures n <= count && n <= |fifo|
    ensures !granted ==> n == 0
    ensures granted ==> n == count || n == |fifo|
  {
    if granted then Min(count, |fifo|) else 0
  }

  // ---- receiver ----

  datatype ReceiverState = ReceiverState(msgs: seq<Value>, buffer: seq<Byte>, remaining: nat, msgSize: nat)

  predicate ReceiverValid(r: ReceiverState) {
    r.remaining <= |r.buffer| && (r.remaining > 0 && r.msgSize == 0 ==> |r.buffer| == SIZE_WIDTH)
  }

  function Setup(r: ReceiverState): ReceiverState {
    r.(buffer := Resize(r.buffer, SIZE_WIDTH), remaining := SIZE_WIDTH)
  }

  datatype Progress = Short | More | Threw

  /** One trip round the receive loop in which read handed out chunk. */
  function Feed(p: Protocol, r: ReceiverState, chunk: seq<Byte>): (result: (ReceiverState, Progress))
    requires ReceiverValid(r) && 0 < r.remaining && |chunk| <= r.remaining
    ensures ReceiverValid(result.0)
  {
    var offset := |r.buffer| - r.remaining;
    var buffer := r.buffer[..offset] + chunk + r.buffer[offset + |chunk|..];
    if |chunk| < r.remaining then
      (r.(buffer := buffer, remaining := r.remaining - |chunk|), Short)
    else if r.msgSize == 0 then
      var size := FromLE(buffer);
      (r.(buffer := Resize(buffer, size), remaining := size, msgSize := size), More)
    else
      match p.decode(buffer)
      case Some(m) => (ReceiverState(r.msgs + [m], buffer, 0, 0), More)
      case None => (r.(buffer := buffer, remaining := 0), Threw)
  }

  /** The bytes of the current frame that the receiver already has. */
  function Partial(r: ReceiverState): seq<Byte>
    requires ReceiverValid(r)
  {
    if r.remaining == 0 then []
    else
      var got := r.buffer[..|r.buffer| - r.remaining];
      if r.msgSize == 0 then got else SizeBytes(r.msgSize) + got
  }

  // ---- the machine ----

  datatype Channel = Channel(
    enqueued: seq<Value>,     // every message ever enqueued
    sender: SenderState,
    fifo: seq<Byte>,
    receiver: ReceiverState,
    receiving: bool,          // a call of receive is in progress
    returned: seq<Value>,     // everything the finished calls of receive returned
    threw: bool)              // some call of receive ended in an exception

  datatype Step =
    | Enqueue(m: Value)
    | LoadNext
    | Write(granted: bool)
    | BeginReceive
    | SetupSize
    | Read(granted: bool)

  const INITIAL := Channel([], SenderState([], 0, []), [], ReceiverState([], [], 0, 0), false, [], false)

  predicate Wf(p: Protocol, c: Channel) {
    SenderValid(p, c.sender) && |c.fifo| <= MSG_BUFFER_SIZE && ReceiverValid(c.receiver)
  }

  predicate Enabled(p: Protocol, c: Channel, step: Step) {
    match step
    case Enqueue(m) => p.sendable(m)
    case LoadNext => c.sender.remaining == 0 && c.sender.queue != []
    case Write(_) => c.sender.remaining > 0
    case BeginReceive => !c.receiving
    case SetupSize => c.receiving && c.receiver.remaining == 0
    case Read(_) => c.receiving && c.receiver.remaining > 0
  }

  function Next(p: Protocol, c: Channel, step: Step): (c': Channel)
    requires Wf(p, c) && Enabled(p, c, step)
    ensures Wf(p, c')
  {
    match step
    case Enqueue(m) =>
      c.(enqueued := c.enqueued + [m], sender := c.sender.(queue := c.sender.queue + [m]))
    case LoadNext =>
      c.(sender := Load(p, c.sender))
    case Write(granted) =>
      var n := Accepted(c.fifo, c.sender.remaining, granted);
      c.(fifo := c.fifo + Unsent(c.sender)[..n], sender := c.sender.(remaining := c.sender.remaining - n))
    case BeginReceive =>
      c.(receiving := true, receiver := c.receiver.(msgs := []))
    case SetupSize =>
      c.(receiver := Setup(c.receiver))
    case Read(granted) =>
      var n := Offered(c.fifo, c.receiver.remaining, granted);
      var (r, progress) := Feed(p, c.receiver, c.fifo[..n]);
      var c1 := c.(fifo := c.fifo[n..], receiver := r);
      match progress
      case More => c1
      case Short => c1.(receiving := false, returned := c.returned + r.msgs)
      case Threw => c1.(receiving := false, threw := true)
  }

  /** Takes the steps one after the other; a step that is not enabled is not taken. */
  function Run(p: Protocol, c: Channel, steps: seq<Step>): (c': Channel)
    requires Wf(p, c)
    ensures Wf(p, c')
    decreases |steps|
  {
    if steps == [] then c
    else if Enabled(p, c, steps[0]) then Run(p, Next(p, c, steps[0]), steps[1..])
    else Run(p, c, steps[1..])
  }

  // ---- what single steps do ----

  /** The messages that a run enqueues. */
  function Enqueues(p: Protocol, steps: seq<Step>): seq<Value> {
    if steps == [] then []
    else if steps[0].Enqueue? && p.sendable(steps[0].m) then [steps[0].m] + Enqueues(p, steps[1..])
    else Enqueues(p, steps[1..])
  }

  lemma OtherStepsEnqueueNothing(p: Protocol, c: Channel, step: Step)
    requires Wf(p, c) && Enabled(p, c, step) && !step.Enqueue?
    ensures Next(p, c, step).enqueued == c.enqueued
  {
  }

  /** Nothing but enqueue adds to what has been enqueued, and whatever is enqueued is added. */
  lemma {:induction false} EnqueuedAreTheEnqueues(p: Protocol, c: Channel, steps: seq<Step>)
    requires Wf(p, c)
    ensures Run(p, c, steps).enqueued == c.enqueued + Enqueues(p, steps)
    decreases |steps|
  {
    if steps != [] {
      if Enabled(p, c, steps[0]) {
        if !steps[0].Enqueue? {
          OtherStepsEnqueueNothing(p, c, steps[0]);
        }
        EnqueuedAreTheEnqueues(p, Next(p, c, steps[0]), steps[1..]);
      } else {
        EnqueuedAreTheEnqueues(p, c, steps[1..]);
      }
    }
  }

  /** A write that does not get the lock changes nothing at all.  A read that does not takes no
      byte, and ends the call of receive with the messages that it has. */
  lemma TimeoutMovesNothing(p: Protocol, c: Channel)
    requires Wf(p, c)
    ensures Enabled(p, c, Write(false)) ==> Next(p, c, Write(false)) == c
    ensures Enabled(p, c, Read(false)) ==>
      var c' := Next(p, c, Read(false));
      && c'.fifo == c.fifo && c'.sender == c.sender && c'.receiver == c.receiver
      && !c'.receiving && c'.threw == c.threw && c'.returned == c.returned + c.receiver.msgs
  {
    if Enabled(p, c, Read(false)) {
      var r := c.receiver;
      assert r.buffer[..|r.buffer| - r.remaining] + [] + r.buffer[|r.buffer| - r.remaining..] == r.buffer;
    }
  }

  /** A read that gets less than it wants ends the call of receive, which returns its messages.
      One that completes a message throws exactly when the bytes do not decode, and then the call
      returns nothing.  Any other read leaves the call going. */
  lemma HowReadsEnd(p: Protocol, c: Channel, granted: bool)
    requires Wf(p, c) && Enabled(p, c, Read(granted))
    ensures
      var r, c' := c.receiver, Next(p, c, Read(granted));
      var n := Offered(c.fifo, r.remaining, granted);
      var throws := n == r.remaining && r.msgSize > 0
        && p.decode(r.buffer[..|r.buffer| - r.remaining] + c.fifo[..n]).None?;
      && c'.fifo == c.fifo[n..]
      && (c'.threw <==> c.threw || throws)
      && (c'.receiving <==> n == r.remaining && !throws)
      && c'.returned == c.returned + if n < r.remaining then r.msgs else []
  {
    var r := c.receiver;
    var n := Offered(c.fifo, r.remaining, granted);
    var got := r.buffer[..|r.buffer| - r.remaining] + c.fifo[..n];
    assert n == r.remaining ==> got + r.buffer[|r.buffer|..] == got;
  }

  // ---- the invariant ----

  /** Every message decoded so far, in order. */
  function AllDecoded(c: Channel): seq<Value> {
    c.returned + if c.receiving then c.receiver.msgs else []
  }

  /** got is what was received of the first |got| messages of sent. */
  predicate DeliveredInOrder(p: Protocol, sent: seq<Value>, got: seq<Value>) {
    |got| <= |sent| && forall i :: 0 <= i < |got| ==> got[i] == p.received(sent[i])
  }

  /** The bytes between the frames already decoded and the end of what was enqueued. */
  function InTransit(p: Protocol, c: Channel): seq<Byte>
    requires Wf(p, c)
  {
    Partial(c.receiver) + (c.fifo + Pending(p, c.sender))
  }

  ghost predicate Inv(p: Protocol, c: Channel) {
    && Sound(p)
    && Wf(p, c)
    && AllSendable(p, c.enqueued)
    && !c.threw
    && DeliveredInOrder(p, c.enqueued, AllDecoded(c))
    && Frames(p, c.enqueued[|AllDecoded(c)|..]) == InTransit(p, c)
    // msg_size_ is zero exactly while a size is being received
    && (c.receiver.remaining == 0 ==> c.receiver.msgSize == 0)
    && (c.receiver.msgSize > 0 ==>
          && |AllDecoded(c)| < |c.enqueued|
          && c.receiver.msgSize == |c.receiver.buffer| == |p.encode(c.enqueued[|AllDecoded(c)|])|)
  }

  /** A nonempty prefix of a stream of frames lies in, or covers, the first frame. */
  lemma FirstFrame(p: Protocol, ms: seq<Value>, head: seq<Byte>, rest: seq<Byte>)
    requires head != [] && Frames(p, ms) == head + rest
    ensures ms != []
    ensures |head| == SIZE_WIDTH ==> head == SizeBytes(|p.encode(ms[0])|)
    ensures |head| == |Frame(p, ms[0])| ==> head == Frame(p, ms[0]) && rest == Frames(p, ms[1..])
  {
    assert ms != [];
    var frame := Frame(p, ms[0]);
    assert head + rest == frame + Frames(p, ms[1..]);
    if |head| == SIZE_WIDTH {
      assert head == (head + rest)[..SIZE_WIDTH] == frame[..SIZE_WIDTH];
      assert frame[..SIZE_WIDTH] == SizeBytes(|p.encode(ms[0])|);
    }
    if |head| == |frame| {
      assert head == (head + rest)[..|head|] == (frame + Frames(p, ms[1..]))[..|head|] == frame;
      assert rest == (head + rest)[|head|..] == (frame + Frames(p, ms[1..]))[|head|..] == Frames(p, ms[1..]);
    }
  }

  lemma TransitGrows(part: seq<Byte>, fifo: seq<Byte>, tail: seq<Byte>, queued: seq<Byte>, more: seq<Byte>)
    ensures part + (fifo + (tail + (queued + more))) == part + (fifo + (tail + queued)) + more
  {
    ConcatAssoc(tail, queued, more);
    ConcatAssoc(fifo, tail + queued, more);
    ConcatAssoc(part, fifo + (tail + queued), more);
  }

  lemma EnqueueKeepsInv(p: Protocol, c: Channel, m: Value)
    requires Inv(p, c) && p.sendable(m)
    ensures Inv(p, Next(p, c, Enqueue(m)))
  {
    var c', k := Next(p, c, Enqueue(m)), |AllDecoded(c)|;
    assert c'.enqueued[k..] == c.enqueued[k..] + [m];
    FramesConcat(p, c.enqueued[k..], [m]);
    FramesConcat(p, c.sender.queue, [m]);
    TransitGrows(Partial(c.receiver), c.fifo, Unsent(c.sender), Frames(p, c.sender.queue), Frames(p, [m]));
    assert AllDecoded(c') == AllDecoded(c) && InTransit(p, c') == InTransit(p, c) + Frames(p, [m]);
  }

  lemma LoadKeepsInv(p: Protocol, c: Channel)
    requires Inv(p, c) && Enabled(p, c, LoadNext)
    ensures Inv(p, Next(p, c, LoadNext))
  {
    assert Pending(p, Next(p, c, LoadNext).sender) == Pending(p, c.sender);
  }

  lemma WriteKeepsInv(p: Protocol, c: Channel, granted: bool)
    requires Inv(p, c) && Enabled(p, c, Write(granted))
    ensures Inv(p, Next(p, c, Write(granted)))
  {
    var c' := Next(p, c, Write(granted));
    assert c'.fifo + Pending(p, c'.sender) == c.fifo + Pending(p, c.sender);
  }

  /** Handing a chunk to the receiver moves it from the buffer into the partial frame. */
  lemma ChunkJoinsPartial(p: Protocol, c: Channel, granted: bool)
    requires Inv(p, c) && Enabled(p, c, Read(granted))
    ensures
      var n := Offered(c.fifo, c.receiver.remaining, granted);
      var r := c.receiver;
      var got := r.buffer[..|r.buffer| - r.remaining] + c.fifo[..n];
      InTransit(p, c) ==
        (if r.msgSize == 0 then got else SizeBytes(r.msgSize) + got) + (c.fifo[n..] + Pending(p, c.sender))
  {
    var n := Offered(c.fifo, c.receiver.remaining, granted);
    var r, q := c.receiver, Pending(p, c.sender);
    var got := r.buffer[..|r.buffer| - r.remaining];
    assert c.fifo == c.fifo[..n] + c.fifo[n..];
    ConcatAssoc(c.fifo[..n], c.fifo[n..], q);
    ConcatAssoc(Partial(r), c.fifo[..n], c.fifo[n..] + q);
    ConcatAssoc(SizeBytes(r.msgSize), got, c.fifo[..n]);
  }

  lemma ShortReadKeepsInv(p: Protocol, c: Channel, granted: bool)
    requires Inv(p, c) && Enabled(p, c, Read(granted))
    requires Offered(c.fifo, c.receiver.remaining, granted) < c.receiver.remaining
    ensures Inv(p, Next(p, c, Read(granted)))
  {
    var r, c' := c.receiver, Next(p, c, Read(granted));
    var n := Offered(c.fifo, r.remaining, granted);
    var offset := |r.buffer| - r.remaining;
    ChunkJoinsPartial(p, c, granted);
    assert c'.receiver.buffer[..offset + n] == r.buffer[..offset] + c.fifo[..n];
    assert AllDecoded(c') == AllDecoded(c);
  }

  /** A read that completes a size: the size read is that of the next message to decode. */
  lemma SizeReadKeepsInv(p: Protocol, c: Channel, granted: bool)
    requires Inv(p, c) && Enabled(p, c, Read(granted))
    requires Offered(c.fifo, c.receiver.remaining, granted) == c.receiver.remaining && c.receiver.msgSize == 0
    ensures Inv(p, Next(p, c, Read(granted)))
  {
    var r, k, c' := c.receiver, |AllDecoded(c)|, Next(p, c, Read(granted));
    var got := r.buffer[..|r.buffer| - r.remaining] + c.fifo[..r.remaining];
    ChunkJoinsPartial(p, c, granted);
    FirstFrame(p, c.enqueued[k..], got, c.fifo[r.remaining..] + Pending(p, c.sender));
    assert p.sendable(c.enqueued[k]);
    SizeRoundTrip(|p.encode(c.enqueued[k])|);
    assert r.buffer[..|r.buffer| - r.remaining] + c.fifo[..r.remaining] + r.buffer[|r.buffer|..] == got;
    assert c'.receiver.msgSize == |p.encode(c.enqueued[k])|;
    assert Partial(c'.receiver) == got;
    assert AllDecoded(c') == AllDecoded(c);
  }

  /** A read that completes a message: its bytes are those of the next message to decode. */
  lemma MessageReadKeepsInv(p: Protocol, c: Channel, granted: bool)
    requires Inv(p, c) && Enabled(p, c, Read(granted))
    requires Offered(c.fifo, c.receiver.remaining, granted) == c.receiver.remaining && c.receiver.msgSize > 0
    ensures Inv(p, Next(p, c, Read(granted)))
  {
    var r, k, c' := c.receiver, |AllDecoded(c)|, Next(p, c, Read(granted));
    var m := c.enqueued[k];
    var got := r.buffer[..|r.buffer| - r.remaining] + c.fifo[..r.remaining];
    var rest := c.fifo[r.remaining..] + Pending(p, c.sender);
    ChunkJoinsPartial(p, c, granted);
    FirstFrame(p, c.enqueued[k..], SizeBytes(r.msgSize) + got, rest);
    assert got == p.encode(m) by {
      assert (SizeBytes(r.msgSize) + got)[SIZE_WIDTH..] == got;
      assert Frame(p, m)[SIZE_WIDTH..] == p.encode(m);
    }
    assert r.buffer[..|r.buffer| - r.remaining] + c.fifo[..r.remaining] + r.buffer[|r.buffer|..] == got;
    assert p.sendable(m);
    assert AllDecoded(c') == AllDecoded(c) + [p.received(m)];
    assert c.enqueued[k..][1..] == c.enqueued[k + 1..];
    assert InTransit(p, c') == rest;
  }

  lemma ReadKeepsInv(p: Protocol, c: Channel, granted: bool)
    requires Inv(p, c) && Enabled(p, c, Read(granted))
    ensures Inv(p, Next(p, c, Read(granted)))
  {
    if Offered(c.fifo, c.receiver.remaining, granted) < c.receiver.remaining {
      ShortReadKeepsInv(p, c, granted);
    } else if c.receiver.msgSize == 0 {
      SizeReadKeepsInv(p, c, granted);
    } else {
      MessageReadKeepsInv(p, c, granted);
    }
  }

  lemma SetupKeepsInv(p: Protocol, c: Channel)
    requires Inv(p, c) && Enabled(p, c, SetupSize)
    ensures Inv(p, Next(p, c, SetupSize))
  {
    assert Partial(Next(p, c, SetupSize).receiver) == [];
  }

  lemma BeginKeepsInv(p: Protocol, c: Channel)
    requires Inv(p, c) && Enabled(p, c, BeginReceive)
    ensures Inv(p, Next(p, c, BeginReceive))
  {
    assert AllDecoded(Next(p, c, BeginReceive)) == AllDecoded(c);
  }

  lemma NextKeepsInv(p: Protocol, c: Channel, step: Step)
    requires Inv(p, c) && Enabled(p, c, step)
    ensures Inv(p, Next(p, c, step))
  {
    match step
    case Enqueue(m) => EnqueueKeepsInv(p, c, m);
    case LoadNext => LoadKeepsInv(p, c);
    case Write(granted) => WriteKeepsInv(p, c, granted);
    case BeginReceive => BeginKeepsInv(p, c);
    case SetupSize => SetupKeepsInv(p, c);
    case Read(granted) => ReadKeepsInv(p, c, granted);
  }

  lemma {:induction false} RunKeepsInv(p: Protocol, c: Channel, steps: seq<Step>)
    requires Inv(p, c)
    ensures Inv(p, Run(p, c, steps))
    decreases |steps|
  {
    if steps != [] {
      if Enabled(p, c, steps[0]) {
        NextKeepsInv(p, c, steps[0]);
        RunKeepsInv(p, Next(p, c, steps[0]), steps[1..]);
      } else {
        RunKeepsInv(p, c, steps[1..]);
      }
    }
  }

  /** In every interleaving, with any lock timeouts and short transfers: no receive throws,
      and what the receives have returned so far is a prefix of what was enqueued, in
      order and each message once. */
  lemma ExactlyOnceInOrder(p: Protocol, steps: seq<Step>)
    requires Sound(p)
    ensures var c := Run(p, INITIAL, steps);
      !c.threw && DeliveredInOrder(p, c.enqueued, c.returned)
  {
    RunKeepsInv(p, INITIAL, steps);
    var c := Run(p, INITIAL, steps);
    assert AllDecoded(c)[..|c.returned|] == c.returned;
  }

  lemma AllFramesAccountedFor(p: Protocol, c: Channel)
    requires Inv(p, c)
    ensures Frames(p, c.enqueued) ==
      Frames(p, c.enqueued[..|AllDecoded(c)|]) + Partial(c.receiver) + c.fifo + Unsent(c.sender)
      + Frames(p, c.sender.queue)
  {
    var k := |AllDecoded(c)|;
    var done, part := Frames(p, c.enqueued[..k]), Partial(c.receiver);
    var tail, queued := Unsent(c.sender), Frames(p, c.sender.queue);
    assert c.enqueued == c.enqueued[..k] + c.enqueued[k..];
    FramesConcat(p, c.enqueued[..k], c.enqueued[k..]);
    ConcatAssoc(c.fifo, tail, queued);
    ConcatAssoc(part, c.fifo + tail, queued);
    ConcatAssoc(part, c.fifo, tail);
    ConcatAssoc(done, part + c.fifo + tail, queued);
    ConcatAssoc(done, part + c.fifo, tail);
    ConcatAssoc(done, part, c.fifo);
  }

  /** No byte is lost, repeated or reordered in any reachable state. */
  lemma BytesConserved(p: Protocol, steps: seq<Step>)
    requires Sound(p)
    ensures var c := Run(p, INITIAL, steps);
      && AllSendable(p, c.enqueued)
      && |AllDecoded(c)| <= |c.enqueued|
      && Frames(p, c.enqueued) ==
           Frames(p, c.enqueued[..|AllDecoded(c)|]) + Partial(c.receiver) + c.fifo + Unsent(c.sender)
           + Frames(p, c.sender.queue)
  {
    RunKeepsInv(p, INITIAL, steps);
    AllFramesAccountedFor(p, Run(p, INITIAL, steps));
  }
}
