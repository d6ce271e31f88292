/** The distributor's incremental decoder (MessageManager.java), over a ByteBuffer: an array and a position. */
module JavaMessageManager {
  import opened Protocol
  import opened Framing
  import Cpp = CppMessageManager

  class MessageManager {
    var packets: seq<Bytes>
    var buffer: array<byte>
    var position: nat
    var readingLength: bool
    ghost var received: Bytes
    ghost var retrieved: seq<Bytes>

    ghost function Tail(): Bytes
      reads this, buffer
      requires position <= buffer.Length < TWO_31
    {
      if readingLength then buffer[..position] else Header(buffer.Length) + buffer[..position]
    }

    ghost predicate Valid()
      reads this, buffer
    {
      && position < buffer.Length < TWO_31
      && (readingLength ==> buffer.Length == 4)
      && NoNegative(received)
      && Decode(received) == Parsed(retrieved + packets, Tail())
    }

    constructor ()
      ensures Valid() && fresh(buffer) && received == [] && retrieved == [] && packets == []
    {
      packets, position, readingLength := [], 0, true;
      buffer := new byte[4];
      received, retrieved := [], [];
    }

    /** Moves bytes one by one until the data or the buffer is used up. */
    method Fill(data: Bytes) returns (taken: nat)
      requires position < buffer.Length && data != []
      modifies this`position, buffer
      ensures taken == if |data| < buffer.Length - old(position) then |data| else buffer.Length - old(position)
      ensures position == old(position) + taken
      ensures buffer[..position] == old(buffer[..position]) + data[..taken]
    {
      taken := 0;
      while taken < |data| && position < buffer.Length
        invariant taken <= |data| && position == old(position) + taken <= buffer.Length
        invariant buffer[..position] == old(buffer[..position]) + data[..taken]
      {
        buffer[position] := data[taken];
        position, taken := position + 1, taken + 1;
      }
    }

    /** It throws exactly on reading a length with its top bit set; otherwise the packets handed out and queued
        are those of all the bytes received and the buffer holds their unconsumed tail. */
    method ParseData(data: Bytes) returns (threw: bool)
      requires Valid()
      modifies this, buffer
      ensures fresh(buffer) || buffer == old(buffer)
      ensures retrieved == old(retrieved)
      ensures threw <==> !NoNegative(old(received) + data)
      ensures !threw ==> Valid() && received == old(received) + data
      ensures threw ==> Stuck() && old(received) < received <= old(received) + data
    {
      hide Valid, Decode, NoNegative;
      var read := 0;
      threw := false;
      assert data[..0] == [] && old(received) + [] == old(received);
      while read < |data|
        invariant 0 <= read <= |data|
        invariant fresh(buffer) || buffer == old(buffer)
        invariant Valid() && retrieved == old(retrieved)
        invariant received == old(received) + data[..read]
      {
        var rest := data[read..];
        var taken: nat;
        if readingLength {
          taken, threw := ReadLength(rest);
        } else {
          taken := ReadBody(rest);
        }
        SliceOn(data, read, taken);
        assert old(received) + data[..read] + rest[..taken] == old(received) + data[..read + taken];
        read := read + taken;
        if threw {
          NegativeStays(received, data[read..]);
          Rejoin(old(received), data, read);
          return;
        }
      }
      assert data[..read] == data;
      ValidNoNegative();
    }

    lemma ValidNoNegative()
      requires Valid()
      ensures NoNegative(received)
    {
    }

    /** The state IllegalArgumentException leaves: the packets before the bad length are there. */
    ghost predicate Stuck()
      reads this
    {
      !NoNegative(received) && Decode(received).messages == retrieved + packets
    }

    method ReadLength(rest: Bytes) returns (taken: nat, threw: bool)
      requires Valid() && readingLength && rest != []
      modifies this, buffer
      ensures fresh(buffer) || buffer == old(buffer)
      ensures 0 < taken <= |rest| && received == old(received) + rest[..taken] && retrieved == old(retrieved)
      ensures if threw then Stuck() else Valid()
    {
      hide Decode, FromLe32, NoNegative, Header;
      threw := false;
      taken := Fill(rest);
      DecodeResumes(received, rest[..taken]);
      NegativeResumes(received, rest[..taken]);
      received := received + rest[..taken];
      var length := buffer[..position];
      LengthRead(length);
      LengthSign(length);
      if position == buffer.Length {
        readingLength := false;
        var nextLen := ToInt32(length);
        if nextLen == 0 {
          packets := packets + [[]];
          readingLength := true;
          buffer, position := new byte[4], 0;
        } else if nextLen < 0 {
          threw := true;
        } else {
          buffer, position := new byte[nextLen], 0;
          assert Header(nextLen) + buffer[..position] == Header(nextLen);
        }
      }
    }

    method ReadBody(rest: Bytes) returns (taken: nat)
      requires Valid() && !readingLength && rest != []
      modifies this, buffer
      ensures fresh(buffer) || buffer == old(buffer)
      ensures 0 < taken <= |rest| && received == old(received) + rest[..taken] && retrieved == old(retrieved)
      ensures Valid()
    {
      hide Decode, NoNegative, Header;
      ghost var head, body := Header(buffer.Length), buffer[..position];
      taken := Fill(rest);
      DecodeResumes(received, rest[..taken]);
      NegativeResumes(received, rest[..taken]);
      assert (head + body) + rest[..taken] == head + (body + rest[..taken]);
      received := received + rest[..taken];
      BodyRead(buffer.Length, buffer[..position]);
      BodySign(buffer.Length, buffer[..position]);
      if position == buffer.Length {
        assert buffer[..position] == buffer[..];
        readingLength := true;
        packets := packets + [buffer[..]];
        buffer, position := new byte[4], 0;
        assert buffer[..position] == [];
      }
    }

    method NextPacket() returns (packet: Option<Bytes>)
      requires Valid()
      modifies this`packets, this`retrieved
      ensures Valid()
      ensures packet.Some? <==> old(packets) != []
      ensures packet.Some? ==> packet.value == old(packets)[0] && packets == old(packets)[1..]
                               && retrieved == old(retrieved) + [packet.value]
      ensures packet.None? ==> packets == [] && retrieved == old(retrieved)
    {
      if packets == [] {
        packet := None;
      } else {
        packet := Some(packets[0]);
        assert retrieved + packets == (retrieved + [packets[0]]) + packets[1..];
        retrieved := retrieved + [packets[0]];
        packets := packets[1..];
      }
    }
  }

  lemma LengthSign(b: Bytes)
    requires |b| <= 4
    ensures NoNegative(b) <==> |b| < 4 || ToInt32(b) >= 0
  {
    if |b| == 4 {
      assert b[..4] == b;
      if Complete(b) { assert b[4 + Declared(b)..] == []; }
    }
  }

  lemma BodySign(next: nat, body: Bytes)
    requires next < TWO_31 && |body| <= next
    ensures NoNegative(Header(next) + body)
  {
    LengthRoundTrip(next);
    var s := Header(next) + body;
    assert s[..4] == Header(next) && Declared(s) == next;
    if |body| == next { assert s[4 + next..] == []; }
  }

  lemma Rejoin(a: Bytes, data: Bytes, read: nat)
    requires read <= |data|
    ensures a + data[..read] + data[read..] == a + data && a + data[..read] <= a + data
  {
  }

  lemma NegativeStays(a: Bytes, b: Bytes)
    requires !NoNegative(a)
    ensures !NoNegative(a + b)
    decreases |a|
  {
    HeaderKept(a, b);
    if Complete(a) && FromLe32(a[..4]) < TWO_31 {
      HeadKept(a, b);
      NegativeStays(a[4 + Declared(a)..], b);
    }
  }

  /** Fed the same bytes, in whatever different chunks, the two decoders have made the same messages and hold
      matching partial states: the flag, the partial bytes and, in a message, its length. */
  lemma Bisimilar(c: Cpp.MessageManager, j: MessageManager)
    requires c.Valid() && j.Valid() && c.received == j.received
    ensures c.retrieved + c.messageBuffers == j.retrieved + j.packets
    ensures c.readingLength == j.readingLength
    ensures c.partialMessageBuffer == j.buffer[..j.position]
    ensures !c.readingLength ==> c.nextMessage == j.buffer.Length
  {
    TailsAgree(c.readingLength, c.nextMessage, c.partialMessageBuffer,
               j.readingLength, j.buffer.Length, j.buffer[..j.position]);
  }

  lemma TailsAgree(reading: bool, next: int, partial: Bytes, reading': bool, next': nat, partial': Bytes)
    requires 0 - TWO_31 <= next < TWO_31 && next' < TWO_31
    requires (reading ==> |partial| < 4) && (reading' ==> |partial'| < 4)
    requires (if reading then partial else Header(next) + partial)
          == (if reading' then partial' else Header(next') + partial')
    ensures reading == reading' && partial == partial' && (!reading ==> next == next')
  {
    if !reading && !reading' {
      var u := if next >= 0 then next else TWO_32 + next;
      LengthRoundTrip(u);
      LengthRoundTrip(next');
      assert Header(next) == (Header(next) + partial)[..4] && Header(next') == (Header(next') + partial')[..4];
      assert partial == (Header(next) + partial)[4..] && partial' == (Header(next') + partial')[4..];
    }
  }
}
