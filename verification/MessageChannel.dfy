/**
 The channel theorems for the two message types that scuff sends.
 */
module MessageChannel {
  import opened Bytes
  import opened Codec
  import opened Wrappers
  import opened Messages
  import opened Channel
  import opened ChannelCalls

  predicate CanSend(s: Shape, m: Value) {
    s.Variant? && Fits(s, m) && |Encode(s, m)| < MESSAGE_LIMIT
  }

  function DecodeWhole(s: Shape, bytes: seq<Byte>): Option<Value> {
    match Decode(s, bytes)
    case Got(m, _) => Some(m)
    case _ => None
  }

  /** sender<MsgT> and receiver<MsgT> for a std::variant MsgT. */
  function ProtocolOf(s: Shape): Protocol {
    Protocol(
      m => CanSend(s, m),
      m => if CanSend(s, m) then Encode(s, m) else [],
      bytes => DecodeWhole(s, bytes),
      m => if CanSend(s, m) then Received(s, m) else m)
  }

  const TO_SANDBOX := ProtocolOf(IN_MESSAGE)
  const TO_CLIENT := ProtocolOf(OUT_MESSAGE)

  lemma CodecIsSound(s: Shape)
    ensures Sound(ProtocolOf(s))
  {
    forall m | CanSend(s, m)
      ensures DecodeWhole(s, Encode(s, m)) == Some(Received(s, m))
    {
      RoundTrip(s, m, []);
      assert Encode(s, m) + [] == Encode(s, m);
    }
  }

  /** The client receives a prefix of what the sandbox enqueued, unchanged. */
  lemma ClientReceivesWhatWasSent(steps: seq<Step>)
    ensures var c := Run(TO_CLIENT, INITIAL, steps);
      !c.threw && c.returned <= c.enqueued
  {
    CodecIsSound(OUT_MESSAGE);
    ExactlyOnceInOrder(TO_CLIENT, steps);
    var c := Run(TO_CLIENT, INITIAL, steps);
    RunKeepsInv(TO_CLIENT, INITIAL, steps);
    forall i | 0 <= i < |c.returned|
      ensures c.returned[i] == c.enqueued[i]
    {
      assert TO_CLIENT.sendable(c.enqueued[i]);
      OutMessageRoundTrip(c.enqueued[i], []);
      RoundTrip(OUT_MESSAGE, c.enqueued[i], []);
    }
  }

  /** A message to a sandbox with the callback of a device_create set to zero. */
  function WithoutCallback(m: Value): Value
    requires Fits(IN_MESSAGE, m)
  {
    if m.index == IN_DEVICE_CREATE then
      DeviceCreateFields(m);
      Alt(m.index, Fields(m.alt.values[DEVICE_CREATE_CALLBACK := Raw(Zeros(8))]))
    else m
  }

  /** A sandbox receives a prefix of what the client enqueued, but for that callback. */
  lemma SandboxReceivesWhatWasSent(steps: seq<Step>)
    ensures var c := Run(TO_SANDBOX, INITIAL, steps);
      && !c.threw && |c.returned| <= |c.enqueued|
      && forall i :: 0 <= i < |c.returned| ==>
           Fits(IN_MESSAGE, c.enqueued[i]) && c.returned[i] == WithoutCallback(c.enqueued[i])
  {
    CodecIsSound(IN_MESSAGE);
    ExactlyOnceInOrder(TO_SANDBOX, steps);
    var c := Run(TO_SANDBOX, INITIAL, steps);
    RunKeepsInv(TO_SANDBOX, INITIAL, steps);
    forall i | 0 <= i < |c.returned|
      ensures Fits(IN_MESSAGE, c.enqueued[i]) && c.returned[i] == WithoutCallback(c.enqueued[i])
    {
      assert TO_SANDBOX.sendable(c.enqueued[i]);
      InMessageRoundTrip(c.enqueued[i], []);
    }
  }

  // ---- everything arrives ----

  /** How many bytes the frames of these messages take: eight for the size of each. */
  function FramesLength(s: Shape, ms: seq<Value>): nat
    requires forall i :: 0 <= i < |ms| ==> Fits(s, ms[i])
  {
    if ms == [] then 0 else 8 + |Encode(s, ms[0])| + FramesLength(s, ms[1..])
  }

  lemma {:induction false} FramesLengthIs(s: Shape, ms: seq<Value>)
    requires forall i :: 0 <= i < |ms| ==> CanSend(s, ms[i])
    ensures |Frames(ProtocolOf(s), ms)| == FramesLength(s, ms)
  {
    if ms != [] {
      FramesLengthIs(s, ms[1..]);
    }
  }

  /** Any messages to the client of less than a million bytes each all arrive, unchanged and in
      order, after as many alternations of send and receive as their frames need of 4096 bytes
      each, and no earlier. */
  lemma AllArriveAtClient(ms: seq<Value>, k: nat)
    requires forall i :: 0 <= i < |ms| ==> Fits(OUT_MESSAGE, ms[i]) && |Encode(OUT_MESSAGE, ms[i])| < 1_000_000
    ensures Rounds(TO_CLIENT, Run(TO_CLIENT, INITIAL, EnqueueAll(ms)), k).returned == ms
      <==> k >= (FramesLength(OUT_MESSAGE, ms) + 4095) / 4096
  {
    CodecIsSound(OUT_MESSAGE);
    FramesLengthIs(OUT_MESSAGE, ms);
    AllArriveIff(TO_CLIENT, ms, k);
    forall i | 0 <= i < |ms|
      ensures TO_CLIENT.received(ms[i]) == ms[i]
    {
      OutMessageRoundTrip(ms[i], []);
      RoundTrip(OUT_MESSAGE, ms[i], []);
    }
  }

  /** The same to a sandbox, but for the callbacks of device_create. */
  lemma AllArriveAtSandbox(ms: seq<Value>, k: nat)
    requires forall i :: 0 <= i < |ms| ==> Fits(IN_MESSAGE, ms[i]) && |Encode(IN_MESSAGE, ms[i])| < 1_000_000
    ensures var got := Rounds(TO_SANDBOX, Run(TO_SANDBOX, INITIAL, EnqueueAll(ms)), k).returned;
      && (|got| == |ms| <==> k >= (FramesLength(IN_MESSAGE, ms) + 4095) / 4096)
      && |got| <= |ms| && forall i :: 0 <= i < |got| ==> got[i] == WithoutCallback(ms[i])
  {
    CodecIsSound(IN_MESSAGE);
    FramesLengthIs(IN_MESSAGE, ms);
    AllArriveIff(TO_SANDBOX, ms, k);
    forall i | 0 <= i < |ms|
      ensures TO_SANDBOX.received(ms[i]) == WithoutCallback(ms[i])
    {
      InMessageRoundTrip(ms[i], []);
    }
  }
}
