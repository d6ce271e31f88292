/** The daemon's receiving loop and its housekeeping of asynchronous tasks (network_manager.cc). */
module NetworkManager {
  import opened Framing
  import opened ClientSocket
  import Cpp = CppMessageManager

  /** The tasks that are not ready, in order. */
  function Pending<T>(tasks: seq<T>, ready: T -> bool): seq<T> {
    if tasks == [] then []
    else (if ready(tasks[0]) then [] else [tasks[0]]) + Pending(tasks[1..], ready)
  }

  lemma PendingHead<T>(tasks: seq<T>, ready: T -> bool)
    requires tasks != []
    ensures Pending(tasks, ready) == (if ready(tasks[0]) then [] else [tasks[0]]) + Pending(tasks[1..], ready)
  {
  }

  lemma PendingNone<T>(ready: T -> bool)
    ensures Pending([], ready) == []
  {
  }

  /** Every task that is not ready is kept as often as it was there, and no ready one is. */
  lemma {:induction false} PendingKeeps<T>(tasks: seq<T>, ready: T -> bool, t: T)
    ensures multiset(Pending(tasks, ready))[t] == if ready(t) then 0 else multiset(tasks)[t]
  {
    if tasks != [] {
      PendingKeeps(tasks[1..], ready, t);
      assert tasks == [tasks[0]] + tasks[1..];
    }
  }

  /** a results from b by leaving elements out. */
  ghost predicate Subsequence<T>(a: seq<T>, b: seq<T>) {
    a == [] || (b != [] && ((a[0] == b[0] && Subsequence(a[1..], b[1..])) || Subsequence(a, b[1..])))
  }

  lemma {:induction false} PendingKeepsOrder<T>(tasks: seq<T>, ready: T -> bool)
    ensures Subsequence(Pending(tasks, ready), tasks)
  {
    if tasks != [] {
      PendingKeepsOrder(tasks[1..], ready);
      PendingHead(tasks, ready);
      var kept := Pending(tasks[1..], ready);
      if ready(tasks[0]) {
        assert [] + kept == kept;
      } else {
        assert ([tasks[0]] + kept)[1..] == kept;
      }
    }
  }

  lemma NoChunks()
    ensures Flatten(Chunks([])) == []
  {
  }

  class NetworkManager<T> {
    var nonblockingTasks: seq<T>
    const socket: Socket
    const decodeMgr: Cpp.MessageManager
    var connected: bool
    ghost var dispatched: seq<Bytes>    // the messages handed to the subscribed callbacks

    constructor (socket: Socket)
      ensures this.socket == socket && nonblockingTasks == [] && dispatched == [] && !connected
      ensures fresh(decodeMgr) && decodeMgr.Valid() && decodeMgr.received == [] && decodeMgr.retrieved == []
    {
      this.socket, nonblockingTasks, connected, dispatched := socket, [], false, [];
      decodeMgr := new Cpp.MessageManager();
    }

    /** One pass of async_task_processor: erasing at i and stepping back skips nothing. */
    method SweepTasks(ready: T -> bool)
      modifies this`nonblockingTasks
      ensures nonblockingTasks == Pending(old(nonblockingTasks), ready)
    {
      hide Pending;
      PendingNone(ready);
      var i := 0;
      while i < |nonblockingTasks|
        invariant 0 <= i <= |nonblockingTasks|
        invariant Pending(old(nonblockingTasks), ready) == nonblockingTasks[..i] + Pending(nonblockingTasks[i..], ready)
        decreases |nonblockingTasks| - i
      {
        var before := nonblockingTasks;
        PendingHead(before[i..], ready);
        assert before[i..][1..] == before[i + 1..];
        if ready(nonblockingTasks[i]) {
          nonblockingTasks := nonblockingTasks[..i] + nonblockingTasks[i + 1..];
          assert nonblockingTasks[..i] == before[..i] && nonblockingTasks[i..] == before[i + 1..];
          i := i - 1;
        } else {
          assert before[..i + 1] == before[..i] + [before[i]];
        }
        i := i + 1;
      }
      assert nonblockingTasks[i..] == [];
    }

    /** The bytes one poll keeps: those of its reads, unless an error other than would-block or a closed peer
        ended them. */
    ghost function Kept(): Bytes
      reads this, socket
    {
      var incoming := socket.incoming;
      var n := Ready(incoming);
      if connected && (n == |incoming| || incoming[n].NothingYet?) then Flatten(Chunks(incoming[..n])) else []
    }

    /** The peer has closed, and a read would not end. */
    ghost predicate Hangs()
      reads this, socket
    {
      var n := Ready(socket.incoming);
      connected && n < |socket.incoming| && socket.incoming[n].Closed?
    }

    /** poll_network: what one read brings is decoded and every message completed by it is dispatched, in order.
        A read that ends in an error other than would-block is thrown away with its bytes. It does not return once
        the peer has closed. */
    method PollNetwork() returns (returned: bool)
      requires decodeMgr.Valid() && decodeMgr.messageBuffers == []
      requires |decodeMgr.received| + |Kept()| < HUGE
      modifies this`dispatched, socket`incoming, decodeMgr
      ensures returned <==> !old(Hangs())
      ensures decodeMgr.Valid() && decodeMgr.messageBuffers == []
      ensures socket.incoming == if connected then Unread(old(socket.incoming)) else old(socket.incoming)
      ensures decodeMgr.received == old(decodeMgr.received + Kept())
      ensures old(decodeMgr.retrieved) <= decodeMgr.retrieved
      ensures dispatched == old(dispatched) + decodeMgr.retrieved[|old(decodeMgr.retrieved)|..]
      ensures decodeMgr.retrieved == Decode(decodeMgr.received).messages
    {
      hide Decode, Flatten, Chunks, Ready, EncodeAll, Unread;
      assert decodeMgr.retrieved + decodeMgr.messageBuffers == decodeMgr.retrieved;
      assert decodeMgr.received + [] == decodeMgr.received;
      NoChunks();
      returned := true;
      if !connected { return; }
      var status, buffer := socket.ReceiveData();
      if status.None? { return false; }
      if status.value.Continue? || status.value.Failure? { return; }
      decodeMgr.ParseBlob(buffer);
      MessagesShort(decodeMgr.received);
      DispatchAll();
    }

    /** poll_network's inner loop. */
    method DispatchAll()
      requires decodeMgr.Valid() && Sendable(Decode(decodeMgr.received).messages)
      modifies this`dispatched, decodeMgr
      ensures decodeMgr.Valid() && decodeMgr.received == old(decodeMgr.received) && decodeMgr.messageBuffers == []
      ensures decodeMgr.retrieved == old(decodeMgr.retrieved + decodeMgr.messageBuffers)
      ensures dispatched == old(dispatched + decodeMgr.messageBuffers)
    {
      hide Decode;
      ghost var waiting := decodeMgr.messageBuffers;
      ghost var k := 0;
      assert forall i :: 0 <= i < |waiting| ==>
               waiting[i] == (decodeMgr.retrieved + waiting)[|decodeMgr.retrieved| + i];
      var more, message := decodeMgr.RetrieveMessage();
      while more
        invariant decodeMgr.Valid() && decodeMgr.received == old(decodeMgr.received)
        invariant 0 <= k <= |waiting| && (more ==> k < |waiting| && message == waiting[k]) && (!more ==> k == |waiting|)
        invariant decodeMgr.messageBuffers == waiting[if more then k + 1 else k..]
        invariant decodeMgr.retrieved == old(decodeMgr.retrieved) + waiting[..if more then k + 1 else k]
        invariant dispatched == old(dispatched) + waiting[..k]
        decreases |waiting| - k
      {
        dispatched := dispatched + [message];
        k := k + 1;
        more, message := decodeMgr.RetrieveMessage();
      }
    }
  }

  // ---------- Whole messages ----------

  function AsChunks(cuts: seq<Bytes>): seq<RecvResult> {
    seq(|cuts|, i requires 0 <= i < |cuts| => Chunk(cuts[i]))
  }

  lemma KeptIs<T>(net: NetworkManager<T>, cuts: seq<Bytes>, later: seq<RecvResult>)
    requires net.connected && net.socket.incoming == AsChunks(cuts) + later && (later == [] || !later[0].Chunk?)
    ensures later == [] || later[0].NothingYet? ==> net.Kept() == Flatten(cuts) && !net.Hangs()
    ensures later != [] && later[0].Broken? ==> net.Kept() == [] && !net.Hangs()
    ensures Unread(net.socket.incoming) == if later == [] then [] else if later[0].Closed? then later else later[1..]
  {
    var incoming := net.socket.incoming;
    ReadyIs(incoming, |cuts|);
    assert incoming[..|cuts|] == AsChunks(cuts) && incoming[|cuts|..] == later;
    assert Chunks(AsChunks(cuts)) == cuts;
    if later != [] { assert incoming[|cuts|] == later[0] && incoming[|cuts| + 1..] == later[1..]; }
  }

  lemma WholeFrames(before: Bytes, retrieved: seq<Bytes>, ms: seq<Bytes>)
    requires Sendable(ms) && Decode(before).messages == retrieved && Decode(before).rest == []
    ensures Decode(before + EncodeAll(ms)) == Parsed(retrieved + ms, [])
  {
    hide Decode, EncodeAll;
    DecodeResumes(before, EncodeAll(ms));
    RoundTrip(ms);
    assert [] + EncodeAll(ms) == EncodeAll(ms);
  }

  /** What a daemon with nothing pending gets from one poll when the frames of ms have arrived, cut up in any way:
      exactly those messages, in order. What comes after the pause is left for the next poll. */
  method PollDelivers<T>(net: NetworkManager<T>, ghost cuts: seq<Bytes>, ghost ms: seq<Bytes>,
                         ghost later: seq<RecvResult>)
    returns (returned: bool)
    requires net.decodeMgr.Valid() && net.decodeMgr.messageBuffers == [] && net.connected
    requires Decode(net.decodeMgr.received).rest == []
    requires Sendable(ms) && Flatten(cuts) == EncodeAll(ms)
    requires net.socket.incoming == AsChunks(cuts) + later && (later == [] || later[0].NothingYet?)
    requires |net.decodeMgr.received| + |EncodeAll(ms)| < HUGE
    modifies net`dispatched, net.socket`incoming, net.decodeMgr
    ensures returned && net.decodeMgr.Valid() && net.decodeMgr.messageBuffers == []
    ensures net.dispatched == old(net.dispatched) + ms
    ensures Decode(net.decodeMgr.received).rest == []
    ensures net.socket.incoming == if later == [] then [] else later[1..]
  {
    hide Decode, EncodeAll, Flatten, Chunks, Ready, Unread, AsChunks, Header, Complete;
    ghost var retrieved := net.decodeMgr.retrieved;
    assert retrieved + net.decodeMgr.messageBuffers == retrieved;
    KeptIs(net, cuts, later);
    WholeFrames(net.decodeMgr.received, retrieved, ms);
    returned := net.PollNetwork();
    assert net.decodeMgr.retrieved[|retrieved|..] == ms;
  }

  /** When the read ends in an error instead, everything it brought is lost, and the decoder is as before. */
  method PollDiscards<T>(net: NetworkManager<T>, ghost cuts: seq<Bytes>, ghost later: seq<RecvResult>)
    returns (returned: bool)
    requires net.decodeMgr.Valid() && net.decodeMgr.messageBuffers == [] && net.connected
    requires net.socket.incoming == AsChunks(cuts) + later && later != [] && later[0].Broken?
    requires |net.decodeMgr.received| < HUGE
    modifies net`dispatched, net.socket`incoming, net.decodeMgr
    ensures returned && net.decodeMgr.Valid() && net.decodeMgr.messageBuffers == []
    ensures net.dispatched == old(net.dispatched) && net.decodeMgr.received == old(net.decodeMgr.received)
    ensures net.socket.incoming == later[1..]
  {
    assert net.decodeMgr.retrieved + net.decodeMgr.messageBuffers == net.decodeMgr.retrieved;
    assert net.decodeMgr.received + [] == net.decodeMgr.received;
    KeptIs(net, cuts, later);
    hide Decode, Flatten, Chunks, Ready, Unread, AsChunks;
    returned := net.PollNetwork();
    assert net.decodeMgr.retrieved + [] == net.decodeMgr.retrieved;
  }
}
