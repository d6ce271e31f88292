/** From the daemon's send buffer to the packets the server handles: run_frame's drain loop, and every
    interleaving of enqueues, partial sends, reads and handling. */
module Delivery {
  import opened Protocol
  import opened Framing
  import opened ClientSocket

  /** ChunkBuffer<T>, each operation under its mutex (chunk_buffer.hh). */
  class ChunkBuffer<T(0)> {
    var queue: seq<T>

    constructor ()
      ensures queue == []
    {
      queue := [];
    }

    method DequeueChunk() returns (ok: bool, chunk: T)
      modifies this
      ensures ok == (old(queue) != [])
      ensures ok ==> old(queue) == [chunk] + queue
      ensures !ok ==> queue == []
    {
      if |queue| == 0 {
        ok, chunk := false, *;
      } else {
        ok, chunk := true, queue[0];
        queue := queue[1..];
      }
    }

    method EnqueueChunk(chunk: T)
      modifies this
      ensures queue == old(queue) + [chunk]
    {
      queue := queue + [chunk];
    }

    method Clear()
      modifies this
      ensures queue == []
    {
      queue := [];
    }
  }

  /** run_frame's loop: whatever is queued goes out, and send_message's result is ignored. Without hard errors
      the stream grows by the frames of the queue in order, or by a prefix of them while a send is looping. */
  method DrainSendBuffer(buffer: ChunkBuffer<Bytes>, socket: Socket) returns (returned: bool)
    requires Sendable(buffer.queue)
    modifies buffer, socket`script, socket`stream
    ensures returned ==> buffer.queue == []
    ensures !returned ==> socket.script == []
    ensures NoHardError(old(socket.script)) ==>
              && (returned ==> socket.stream == old(socket.stream) + EncodeAll(old(buffer.queue)))
              && old(socket.stream) <= socket.stream <= old(socket.stream) + EncodeAll(old(buffer.queue))
  {
    hide EncodeAll, Frame, PartlySent;
    ghost var sent: seq<Bytes> := [];
    NoFrames(old(socket.stream));
    var more, chunk := buffer.DequeueChunk();
    while more
      invariant if more then old(buffer.queue) == sent + [chunk] + buffer.queue
                else old(buffer.queue) == sent && buffer.queue == []
      invariant Sendable(sent)
      invariant NoHardError(old(socket.script)) ==>
                  NoHardError(socket.script) && socket.stream == old(socket.stream) + EncodeAll(sent)
      decreases |buffer.queue|, more
    {
      assert old(buffer.queue)[|sent|] == chunk;
      QueueSplit(old(socket.stream), old(buffer.queue), sent, chunk, buffer.queue);
      ghost var before, clean := socket.stream, NoHardError(socket.script);
      var r := socket.SendData(chunk);
      if r == None { return false; }
      assert clean && !r.value ==> r == Some(false);
      assert clean ==> r == Some(true) && socket.stream == before + Frame(chunk);
      sent := sent + [chunk];
      more, chunk := buffer.DequeueChunk();
    }
    return true;
  }

  lemma NoFrames(base: Bytes)
    ensures base + EncodeAll([]) == base
  {
  }

  lemma QueueSplit(base: Bytes, all: seq<Bytes>, sent: seq<Bytes>, chunk: Bytes, later: seq<Bytes>)
    requires Sendable(all) && all == sent + [chunk] + later
    ensures Sendable(sent) && |chunk| < TWO_31 && Sendable(sent + [chunk])
    ensures base + EncodeAll(sent) + Frame(chunk) == base + EncodeAll(sent + [chunk])
    ensures base + EncodeAll(sent + [chunk]) <= base + EncodeAll(all)
  {
    assert forall i :: 0 <= i < |sent| ==> all[i] == sent[i];
    assert all[|sent|] == chunk;
    assert forall i :: 0 <= i < |later| ==> all[|sent| + 1 + i] == later[i];
    EncodeConcat(sent, [chunk]);
    assert EncodeAll([chunk]) == Frame(chunk) + EncodeAll([]);
    EncodeConcat(sent + [chunk], later);
  }

  // ---------- Every interleaving ----------

  /** One direction of one connection: from enqueue_msg's buffer through the call in send_data and the network to
      the server's decoder and the packets handed to handlePacket. */
  datatype Link = Link(
    enqueued: seq<Bytes>,     // history
    sendBuffer: seq<Bytes>,
    unsent: Bytes,            // what the running send_data has still to send
    wire: Bytes,              // accepted by the network, not yet read
    rest: Bytes,              // the decoder's partial state
    decoded: seq<Bytes>,      // the decoder's queue
    handled: seq<Bytes>)      // history

  datatype Move =
    | Enqueue(m: Bytes)
    | BeginSend               // dequeue_chunk and the start of send_data
    | Accept(n: nat)          // ::send takes n bytes; none when it would block
    | Arrive(n: nat)          // channelRead with the next n bytes
    | Handle

  const IDLE := Link([], [], [], [], [], [], [])

  predicate Possible(l: Link, m: Move) {
    match m
    case Enqueue(msg) => |msg| < TWO_31
    case BeginSend => l.sendBuffer != [] && l.unsent == [] && |l.sendBuffer[0]| < TWO_31
    case Accept(n) => n <= |l.unsent|
    case Arrive(n) => n <= |l.wire|
    case Handle => l.decoded != []
  }

  function Moved(l: Link, m: Move): Link {
    if !Possible(l, m) then l
    else match m
      case Enqueue(msg) => l.(enqueued := l.enqueued + [msg], sendBuffer := l.sendBuffer + [msg])
      case BeginSend => l.(sendBuffer := l.sendBuffer[1..], unsent := Frame(l.sendBuffer[0]))
      case Accept(n) => l.(unsent := l.unsent[n..], wire := l.wire + l.unsent[..n])
      case Arrive(n) =>
        var d := Decode(l.rest + l.wire[..n]);
        l.(wire := l.wire[n..], rest := d.rest, decoded := l.decoded + d.messages)
      case Handle => l.(decoded := l.decoded[1..], handled := l.handled + [l.decoded[0]])
  }

  function AllMoved(ms: seq<Move>): Link {
    if ms == [] then IDLE else Moved(AllMoved(ms[..|ms| - 1]), ms[|ms| - 1])
  }

  /** The messages that exist only as bytes. */
  function InFlight(l: Link): Parsed {
    Decode(l.rest + l.wire + l.unsent)
  }

  ghost predicate Conserved(l: Link) {
    && Sendable(l.sendBuffer)
    && InFlight(l).rest == []
    && l.handled + l.decoded + InFlight(l).messages + l.sendBuffer == l.enqueued
  }

  lemma MoveConserves(l: Link, m: Move)
    requires Conserved(l)
    ensures Conserved(Moved(l, m))
  {
    hide Decode;
    if Possible(l, m) {
      match m
      case Enqueue(msg) =>
        assert forall ms: seq<Bytes> :: ms + (l.sendBuffer + [msg]) == (ms + l.sendBuffer) + [msg];
      case BeginSend => SendBegun(l);
      case Accept(n) =>
        assert l.rest + (l.wire + l.unsent[..n]) + l.unsent[n..] == l.rest + l.wire + l.unsent;
      case Arrive(n) =>
        var a, b := l.rest + l.wire[..n], l.wire[n..] + l.unsent;
        DecodeResumes(a, b);
        assert a + b == l.rest + l.wire + l.unsent;
        assert Decode(a).rest + b == Decode(a).rest + l.wire[n..] + l.unsent;
        assert l.handled + (l.decoded + Decode(a).messages) + Decode(Decode(a).rest + b).messages
            == l.handled + l.decoded + (Decode(a).messages + Decode(Decode(a).rest + b).messages);
      case Handle =>
        assert l.handled + l.decoded == (l.handled + [l.decoded[0]]) + l.decoded[1..];
    }
  }

  lemma SendBegun(l: Link)
    requires Conserved(l) && Possible(l, BeginSend)
    ensures Conserved(Moved(l, BeginSend))
  {
    hide Decode;
    var m, pending := l.sendBuffer[0], l.rest + l.wire;
    assert pending + l.unsent == pending;
    DecodeResumes(pending, Frame(m));
    assert [] + Frame(m) == Frame(m) && Frame(m) + [] == Frame(m);
    DecodeOneFrame(m, []);
    EmptyDecodes();
    assert l.sendBuffer == [m] + l.sendBuffer[1..];
    assert forall ms: seq<Bytes> :: ms + ([m] + l.sendBuffer[1..]) == (ms + [m]) + l.sendBuffer[1..];
    assert l.handled + l.decoded + (Decode(pending).messages + [m])
        == (l.handled + l.decoded + Decode(pending).messages) + [m];
  }

  lemma EmptyDecodes()
    ensures Decode([]) == Parsed([], [])
  {
  }

  /** End to end: for every interleaving, the packets handled, queued in the decoder, under way as bytes and
      still in the send buffer are the packets enqueued, in order. */
  lemma {:induction false} DeliveredInOrder(ms: seq<Move>)
    ensures Conserved(AllMoved(ms))
  {
    if ms == [] {
      EmptyDecodes();
    } else {
      DeliveredInOrder(ms[..|ms| - 1]);
      MoveConserves(AllMoved(ms[..|ms| - 1]), ms[|ms| - 1]);
    }
  }

  /** The messages of the enqueues, in order, but for those that are too long to be framed. */
  function Offered(ms: seq<Move>): seq<Bytes> {
    if ms == [] then []
    else
      var last := ms[|ms| - 1];
      Offered(ms[..|ms| - 1]) + if last.Enqueue? && |last.m| < 0x8000_0000 then [last.m] else []
  }

  /** The history is no invention: it is what was offered. */
  lemma {:induction false} EnqueuedAre(ms: seq<Move>)
    ensures AllMoved(ms).enqueued == Offered(ms)
  {
    if ms != [] { EnqueuedAre(ms[..|ms| - 1]); }
    hide Frame, Decode;
  }

  lemma MovedOnce(ms: seq<Move>, m: Move)
    ensures AllMoved(ms + [m]) == Moved(AllMoved(ms), m)
  {
    assert (ms + [m])[..|ms|] == ms;
  }

  /** From every state there is a way to hand over everything: nothing gets stuck. */
  lemma {:induction false} CanDeliver(ms: seq<Move>) returns (all: seq<Move>)
    ensures ms <= all && AllMoved(all).handled == Offered(ms) && AllMoved(all).enqueued == Offered(ms)
    decreases |AllMoved(ms).sendBuffer|, |AllMoved(ms).unsent|, |AllMoved(ms).wire|, |AllMoved(ms).decoded|
  {
    hide Decode, Frame, Offered, AllMoved;
    var l := AllMoved(ms);
    DeliveredInOrder(ms);
    EnqueuedAre(ms);
    var m := NextMove(l);
    if m.Some? {
      MovedOnce(ms, m.value);
      OfferedOnce(ms, m.value);
      all := CanDeliver(ms + [m.value]);
    } else {
      NothingLost(ms);
      all := ms;
    }
  }

  /** What there is to do next, if anything. */
  function NextMove(l: Link): (m: Option<Move>)
    ensures m.Some? ==> !m.value.Enqueue?
  {
    if l.unsent != [] then Some(Accept(|l.unsent|))
    else if l.sendBuffer != [] then Some(BeginSend)
    else if l.wire != [] then Some(Arrive(|l.wire|))
    else if l.decoded != [] then Some(Handle)
    else None
  }

  lemma OfferedOnce(ms: seq<Move>, m: Move)
    requires !m.Enqueue?
    ensures Offered(ms + [m]) == Offered(ms)
  {
    assert (ms + [m])[..|ms|] == ms;
  }

  /** Once everything has been sent and read, everything enqueued has been handled or waits to be. */
  lemma NothingLost(ms: seq<Move>)
    requires var l := AllMoved(ms); l.sendBuffer == [] && l.unsent == [] && l.wire == []
    ensures var l := AllMoved(ms); l.handled + l.decoded == l.enqueued && l.rest == []
  {
    DeliveredInOrder(ms);
    var l := AllMoved(ms);
    RestIncomplete(ms);
    assert l.rest + l.wire + l.unsent == l.rest;
    EmptyDecodes();
  }

  lemma {:induction false} RestIncomplete(ms: seq<Move>)
    ensures Decode(AllMoved(ms).rest) == Parsed([], AllMoved(ms).rest)
  {
    if ms == [] {
      EmptyDecodes();
    } else {
      var l, m := AllMoved(ms[..|ms| - 1]), ms[|ms| - 1];
      RestIncomplete(ms[..|ms| - 1]);
      if Possible(l, m) && m.Arrive? { TailIncomplete(l.rest + l.wire[..m.n]); }
    }
  }
}
