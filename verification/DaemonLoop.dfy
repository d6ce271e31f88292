/** The daemon's frame as a whole: the watchdog or the connect attempt, then polling, then draining. */
module DaemonLoop {
  import opened Protocol
  import opened Framing
  import opened ClientSocket
  import opened Daemon
  import opened Delivery
  import NetworkManager

  /** run_frame's drain loop, on the packets of the send buffer: the frames of the packets go out oldest first. `sent`
      is what they serialize to. */
  method DrainPackets(d: DaemonBackendController, socket: Socket, serialize: Packet -> Bytes)
    returns (returned: bool, ghost sent: seq<Bytes>)
    requires forall i :: 0 <= i < |d.sendBuffer| ==> |serialize(d.sendBuffer[i])| < TWO_31
    modifies d`sendBuffer, socket`script, socket`stream
    ensures returned ==> d.sendBuffer == []
    ensures !returned ==> socket.script == []
    ensures |sent| == |old(d.sendBuffer)| && Sendable(sent)
    ensures forall i :: 0 <= i < |sent| ==> sent[i] == serialize(old(d.sendBuffer)[i])
    ensures NoHardError(old(socket.script)) ==>
              && (returned ==> socket.stream == old(socket.stream) + EncodeAll(sent))
              && old(socket.stream) <= socket.stream <= old(socket.stream) + EncodeAll(sent)
  {
    hide EncodeAll;
    var buffer := new ChunkBuffer<Bytes>();
    var i := 0;
    while i < |d.sendBuffer|
      invariant d.sendBuffer == old(d.sendBuffer)
      invariant socket.script == old(socket.script) && socket.stream == old(socket.stream)
      invariant i <= |d.sendBuffer| && |buffer.queue| == i
      invariant forall j :: 0 <= j < i ==> buffer.queue[j] == serialize(d.sendBuffer[j])
    {
      buffer.EnqueueChunk(serialize(d.sendBuffer[i]));
      i := i + 1;
    }
    sent := buffer.queue;
    returned := DrainSendBuffer(buffer, socket);
    if returned { d.sendBuffer := []; }
  }

  /** The receiver's view: decoding what was sent and parsing each message gives the packets back, in order. */
  lemma SentReadsBack(ps: seq<Packet>, sent: seq<Bytes>, serialize: Packet -> Bytes, parse: Bytes -> Option<Packet>)
    requires forall p :: parse(serialize(p)) == Some(p)
    requires |sent| == |ps| && Sendable(sent) && forall i :: 0 <= i < |sent| ==> sent[i] == serialize(ps[i])
    ensures var d := Decode(EncodeAll(sent));
            && d.rest == [] && |d.messages| == |ps|
            && forall i :: 0 <= i < |ps| ==> parse(d.messages[i]) == Some(ps[i])
  {
    RoundTrip(sent);
    hide Decode, EncodeAll;
  }

  /** One run_frame. A connected daemon first looks at its watchdog, then reads and dispatches, then sends everything
      queued. The frame returns unless the peer has closed, for then the read does not, or a send goes on looping. So
      a daemon whose peer has closed looks at its watchdog once more and never again. */
  method RunFrame<T>(d: DaemonBackendController, net: NetworkManager.NetworkManager<T>, now: real, utcTime: int,
                     connects: bool, serialize: Packet -> Bytes)
    returns (returned: bool, ghost sent: seq<Bytes>)
    requires net.connected == d.connected
    requires forall i :: 0 <= i < |d.sendBuffer| ==> |serialize(d.sendBuffer[i])| < TWO_31
    requires net.decodeMgr.Valid() && net.decodeMgr.messageBuffers == []
    requires |net.decodeMgr.received| + |net.Kept()| < HUGE
    modifies d`running, d`connected, d`connectSignal, d`sendBuffer, d`lastHeartbeatTime
    modifies net`connected, net`dispatched, net.socket, net.decodeMgr
    ensures net.connected == d.connected && net.decodeMgr.Valid() && net.decodeMgr.messageBuffers == []
    ensures d.running == (old(d.running) && !(old(d.connected) && SilentFor(now, old(d.lastHeartbeatTime)) > 6))
    ensures old(net.Hangs()) ==> !returned
    ensures !returned ==> old(d.connected) && (old(net.Hangs()) || net.socket.script == [])
    ensures net.decodeMgr.received == old(net.decodeMgr.received + net.Kept())
    ensures net.decodeMgr.retrieved == Decode(net.decodeMgr.received).messages
    ensures old(net.decodeMgr.retrieved) <= net.decodeMgr.retrieved
    ensures net.dispatched == old(net.dispatched) + net.decodeMgr.retrieved[|old(net.decodeMgr.retrieved)|..]
    ensures old(d.connected) && returned ==> d.sendBuffer == []
    ensures |sent| == |old(d.sendBuffer)| && Sendable(sent)
    ensures forall i :: 0 <= i < |sent| ==> sent[i] == serialize(old(d.sendBuffer)[i])
    ensures old(d.connected) && returned && NoHardError(old(net.socket.script)) ==>
              net.socket.stream == old(net.socket.stream) + EncodeAll(sent)
    ensures old(d.connected) || !old(d.connectSignal) ==>
              d.connected == old(d.connected) && d.lastHeartbeatTime == old(d.lastHeartbeatTime)
    ensures !old(d.connected) && !old(d.connectSignal) ==> d.sendBuffer == old(d.sendBuffer)
    ensures !old(d.connected) && old(d.connectSignal) ==>
              && d.connected == connects && d.lastHeartbeatTime == now
              && d.sendBuffer == old(d.sendBuffer) + [Handshake(0x12341234ABCDABCD), Heartbeat(utcTime)]
  {
    hide Decode, EncodeAll, Flatten, Chunks, Ready, Unread, SilentFor;
    ghost var mgr := net.decodeMgr;
    assert mgr.retrieved + mgr.messageBuffers == mgr.retrieved;
    sent := seq(|d.sendBuffer|, i requires 0 <= i < |d.sendBuffer| reads d => serialize(d.sendBuffer[i]));
    var wasConnected := d.connected;
    d.BeginFrame(now, utcTime, connects);
    if wasConnected {
      returned := net.PollNetwork();
      if returned { returned, sent := DrainPackets(d, net.socket, serialize); }
    } else {
      net.connected := d.connected;
      returned := true;
    }
  }
}
