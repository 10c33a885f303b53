/**
 The objects of the message channel, updated in place: msg_buffer, sender and receiver.
 Each method is proved to do what ChannelCalls says of the call.
 */
module ChannelImpl {
  import opened Bytes
  import opened Codec
  import opened Channel
  import opened ChannelCalls
  import opened ChannelLocks

  /** The byte buffer in shared memory.  granted says whether the timed lock was obtained. */
  class MsgBuffer {
    var bytes: seq<Byte>

    predicate Valid()
      reads this
    {
      |bytes| <= MSG_BUFFER_SIZE
    }

    constructor ()
      ensures Valid() && bytes == []
    {
      bytes := [];
    }

    method Read(count: nat, granted: bool) returns (out: seq<Byte>)
      requires Valid()
      modifies this
      ensures Valid()
      ensures |out| <= count && old(bytes) == out + bytes
      ensures granted ==> |out| == count || bytes == []
      ensures !granted ==> out == [] && bytes == old(bytes)
      ensures |out| == Offered(old(bytes), count, granted)
    {
      if !granted {
        return [];
      }
      var n := Min(count, |bytes|);
      if n == 0 {
        return [];
      }
      out := bytes[..n];
      bytes := bytes[n..];
    }

    method Write(source: seq<Byte>, granted: bool) returns (count: nat)
      requires Valid()
      modifies this
      ensures Valid()
      ensures count <= |source| && bytes == old(bytes) + source[..count]
      ensures granted ==> count == |source| || |bytes| == MSG_BUFFER_SIZE
      ensures !granted ==> count == 0 && bytes == old(bytes)
      ensures count == Accepted(old(bytes), |source|, granted)
    {
      if !granted {
        return 0;
      }
      count := Min(|source|, MSG_BUFFER_SIZE - |bytes|);
      bytes := bytes + source[..count];
    }
  }

  class Sender {
    const p: Protocol
    var buffer: seq<Byte>
    var bytesRemaining: nat
    var localQueue: seq<Value>

    ghost function State(): SenderState
      reads this
    {
      SenderState(buffer, bytesRemaining, localQueue)
    }

    ghost predicate Valid()
      reads this
    {
      SenderValid(p, State())
    }

    constructor (p: Protocol)
      ensures Valid() && this.p == p && State() == INITIAL.sender
    {
      this.p := p;
      buffer, bytesRemaining, localQueue := [], 0, [];
    }

    method Enqueue(m: Value)
      requires Valid() && p.sendable(m)
      modifies this
      ensures Valid()
      ensures State() == old(State()).(queue := old(localQueue) + [m])
      ensures Pending(p, State()) == old(Pending(p, State())) + Frame(p, m)
    {
      FramesConcat(p, localQueue, [m]);
      ConcatAssoc(Unsent(State()), Frames(p, localQueue), Frame(p, m));
      assert Frames(p, [m]) == Frame(p, m);
      localQueue := localQueue + [m];
    }

    method Send(shared: MsgBuffer, locks: Patience)
      requires Valid() && shared.Valid()
      modifies this, shared
      ensures Valid() && shared.Valid()
      ensures (State(), shared.bytes) == SendCall(p, old(State()), old(shared.bytes), locks)
    {
      ghost var goal := SendCall(p, State(), shared.bytes, locks);
      var patience := locks;
      while true
        invariant Valid() && shared.Valid()
        invariant SendCall(p, State(), shared.bytes, patience) == goal
        decreases |localQueue|
      {
        if bytesRemaining > 0 {
          var bytesToSend := bytesRemaining;
          var offset := |buffer| - bytesRemaining;
          var bytesSent := shared.Write(buffer[offset..], Granted(patience));
          patience := Used(patience);
          bytesRemaining := bytesRemaining - bytesSent;
          if bytesSent < bytesToSend {
            return;
          }
        }
        if localQueue == [] {
          return;
        }
        SerializeFront();
      }
    }

    /** The end of the send loop's body: the front message becomes the bytes to send. */
    method SerializeFront()
      requires Valid() && localQueue != []
      modifies this
      ensures Valid() && State() == Load(p, old(State()))
    {
      var data := p.encode(localQueue[0]);
      buffer := [];
      buffer := buffer + SizeBytes(|data|) + data;
      bytesRemaining := |buffer|;
      localQueue := localQueue[1..];
      assert buffer == Frame(p, old(localQueue[0]));
    }
  }

  class Receiver {
    const p: Protocol
    var msgBuffer: seq<Value>
    var byteBuffer: seq<Byte>
    var bytesRemaining: nat
    var msgSize: nat

    ghost function State(): ReceiverState
      reads this
    {
      ReceiverState(msgBuffer, byteBuffer, bytesRemaining, msgSize)
    }

    ghost predicate Valid()
      reads this
    {
      ReceiverValid(State())
    }

    constructor (p: Protocol)
      ensures Valid() && this.p == p && State() == INITIAL.receiver
    {
      this.p := p;
      msgBuffer, byteBuffer, bytesRemaining, msgSize := [], [], 0, 0;
    }

    /** The body of the receive loop after got has been read. */
    method Accept(got: seq<Byte>) returns (progress: Progress)
      requires Valid() && 0 < bytesRemaining && |got| <= bytesRemaining
      modifies this
      ensures Valid()
      ensures (State(), progress) == Feed(p, old(State()), got)
    {
      var offset := |byteBuffer| - bytesRemaining;
      byteBuffer := byteBuffer[..offset] + got + byteBuffer[offset + |got|..];
      var bytesToGet := bytesRemaining;
      bytesRemaining := bytesRemaining - |got|;
      if |got| < bytesToGet {
        return Short;
      }
      if msgSize == 0 {
        msgSize := FromLE(byteBuffer);
        bytesRemaining := msgSize;
        byteBuffer := Resize(byteBuffer, bytesRemaining);
        return More;
      }
      match p.decode(byteBuffer) {
        case None => return Threw;
        case Some(m) => msgBuffer := msgBuffer + [m];
      }
      msgSize := 0;
      bytesRemaining := 0;
      return More;
    }

    /** threw says that deserialize threw, which leaves the call without a result. */
    method Receive(shared: MsgBuffer, locks: Patience) returns (msgs: seq<Value>, threw: bool)
      requires Valid() && shared.Valid()
      modifies this, shared
      ensures Valid() && shared.Valid()
      ensures ReceiveResult(State(), shared.bytes, threw)
        == ReceiveCall(p, old(State()), old(shared.bytes), locks)
      ensures !threw ==> msgs == msgBuffer
      ensures locks == Grants(0) ==> shared.bytes == old(shared.bytes) && !threw && msgs == []
    {
      ReceiveTimesOut(p, State(), shared.bytes);
      msgBuffer := [];
      ghost var goal := ReceiveLoop(p, State(), shared.bytes, locks);
      var patience := locks;
      while true
        invariant Valid() && shared.Valid()
        invariant ReceiveLoop(p, State(), shared.bytes, patience) == goal
        decreases |shared.bytes|, if bytesRemaining == 0 then 1 else 0
      {
        if bytesRemaining > 0 {
          var got := shared.Read(bytesRemaining, Granted(patience));
          var progress := Accept(got);
          patience := Used(patience);
          if progress == Short {
            return msgBuffer, false;
          }
          if progress == Threw {
            return [], true;
          }
          continue;
        }
        byteBuffer := Resize(byteBuffer, SIZE_WIDTH);
        bytesRemaining := SIZE_WIDTH;
      }
    }
  }
}
