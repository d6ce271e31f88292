/** The daemon's incremental decoder (message_manager.cc). */
module CppMessageManager {
  import opened Framing

  class MessageManager {
    var messageBuffers: seq<Bytes>
    var readingLength: bool
    var nextMessage: int
    var partialMessageBuffer: Bytes
    ghost var received: Bytes           // every byte parsed so far
    ghost var retrieved: seq<Bytes>     // every message handed out so far

    /** What has been parsed but not turned into a message. */
    ghost function Tail(): Bytes
      reads this
      requires 0 - TWO_31 <= nextMessage < TWO_31
    {
      if readingLength then partialMessageBuffer
      else Header(nextMessage) + partialMessageBuffer
    }

    ghost predicate Valid()
      reads this
    {
      && 0 - TWO_31 <= nextMessage < TWO_31
      && (readingLength ==> |partialMessageBuffer| < 4)
      && (!readingLength ==> |partialMessageBuffer| < AsSize(nextMessage))
      && Decode(received) == Parsed(retrieved + messageBuffers, Tail())
    }

    constructor ()
      ensures Valid() && received == [] && retrieved == [] && messageBuffers == []
    {
      readingLength, nextMessage := true, 0;
      messageBuffers, partialMessageBuffer := [], [];
      received, retrieved := [], [];
    }

    /** After any sequence of calls, the messages retrieved and queued are those of all the bytes received, and
        the partial state is their unconsumed tail. Each pass of the loop consumes at least one byte. */
    method ParseBlob(blob: Bytes)
      requires Valid()
      modifies this
      ensures Valid() && received == old(received) + blob && retrieved == old(retrieved)
    {
      hide Valid;
      var remaining := |blob|;
      while remaining > 0
        invariant 0 <= remaining <= |blob|
        invariant Valid() && retrieved == old(retrieved)
        invariant received == old(received) + blob[..|blob| - remaining]
      {
        var rest := blob[|blob| - remaining..];
        var taken: nat;
        if readingLength {
          taken := ReadLength(rest);
        } else {
          taken := ReadBody(rest);
        }
        SliceOn(blob, |blob| - remaining, taken);
        assert old(received) + blob[..|blob| - remaining] + rest[..taken]
            == old(received) + blob[..|blob| - remaining + taken];
        remaining := remaining - taken;
      }
    }

    /** The loop's first branch. */
    method ReadLength(rest: Bytes) returns (taken: nat)
      requires Valid() && readingLength && rest != []
      modifies this
      ensures 0 < taken <= |rest|
      ensures Valid() && received == old(received) + rest[..taken] && retrieved == old(retrieved)
    {
      hide Decode, Signed, FromLe32, Header;
      var remainingLen := 4 - |partialMessageBuffer|;
      taken := if remainingLen < |rest| then remainingLen else |rest|;
      DecodeResumes(received, rest[..taken]);
      received := received + rest[..taken];
      partialMessageBuffer := partialMessageBuffer + rest[..taken];
      LengthRead(partialMessageBuffer);
      if |partialMessageBuffer| == 4 {
        readingLength := false;
        nextMessage := ToInt32(partialMessageBuffer);
        if nextMessage == 0 {
          messageBuffers := messageBuffers + [[]];
          readingLength := true;
        }
        partialMessageBuffer := [];
      }
    }

    /** The loop's second branch. */
    method ReadBody(rest: Bytes) returns (taken: nat)
      requires Valid() && !readingLength && rest != []
      modifies this
      ensures 0 < taken <= |rest|
      ensures Valid() && received == old(received) + rest[..taken] && retrieved == old(retrieved)
    {
      hide Decode, Header;
      ghost var head := Header(nextMessage);
      var remainingLen := AsSize(nextMessage) - |partialMessageBuffer|;
      taken := if remainingLen < |rest| then remainingLen else |rest|;
      DecodeResumes(received, rest[..taken]);
      assert (head + partialMessageBuffer) + rest[..taken] == head + (partialMessageBuffer + rest[..taken]);
      received := received + rest[..taken];
      partialMessageBuffer := partialMessageBuffer + rest[..taken];
      BodyRead(nextMessage, partialMessageBuffer);
      if |partialMessageBuffer| == AsSize(nextMessage) {
        readingLength := true;
        nextMessage := -1;
        messageBuffers := messageBuffers + [partialMessageBuffer];
        partialMessageBuffer := [];
      }
    }

    /** On a stream a machine can hold, -1 means that nothing is waiting and any other answer is the exact size of
        the oldest message; narrowing to an int32_t never shows. */
    method NextMessageLength() returns (n: int)
      requires Valid()
      ensures Narrowed(n)
      ensures |received| < HUGE ==> (n == -1 <==> retrieved == Decode(received).messages)
      ensures |received| < HUGE && n != -1 ==> n >= 0 && |Decode(received).messages[|retrieved|]| == n
    {
      n := if |messageBuffers| == 0 then -1 else Signed(|messageBuffers[0]| % TWO_32);
      if |received| < HUGE {
        MessagesShort(received);
        if messageBuffers != [] { assert Decode(received).messages[|retrieved|] == messageBuffers[0]; }
      }
      hide Decode, FromLe32, Le32, Header;
    }

    /** The size of the oldest message waiting, narrowed to an int32_t, or -1. */
    ghost predicate Narrowed(n: int)
      reads this
    {
      n == if messageBuffers == [] then -1 else Signed(|messageBuffers[0]| % TWO_32)
    }

    method RetrieveMessage() returns (ok: bool, message: Bytes)
      requires Valid()
      modifies this
      ensures Valid() && received == old(received)
      ensures ok ==> old(messageBuffers) != [] && messageBuffers == old(messageBuffers)[1..]
                     && message == old(messageBuffers)[0] && retrieved == old(retrieved) + [message]
      ensures !ok ==> messageBuffers == old(messageBuffers) && retrieved == old(retrieved)
      ensures old(messageBuffers) != [] && |old(messageBuffers)[0]| < TWO_31 ==> ok
    {
      var n := NextMessageLength();
      ok, message := n != -1, [];
      if ok {
        message := messageBuffers[0];
        assert retrieved + messageBuffers == (retrieved + [message]) + messageBuffers[1..];
        messageBuffers := messageBuffers[1..];
        retrieved := retrieved + [message];
      }
    }
  }
}
