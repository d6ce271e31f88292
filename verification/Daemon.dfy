/** The daemon's side of the protocol (daemon_backend_controller.cc): registration with retry, and the host's
    encode loop. */
module Daemon {
  import opened Protocol
  import opened Framing
  import opened H264
  import opened SessionRules
  import Distributor

  /** duration_cast to whole seconds, which truncates toward zero. */
  function SilentFor(now: real, last: real): int {
    if now >= last then ((now - last) / 1000.0).Floor else -((last - now) / 1000.0).Floor
  }

  datatype DaemonState = Lobby | Client | Host

  class DaemonBackendController {
    var username: Name
    var state: DaemonState              // not initialised in the source either
    var sendBuffer: seq<Packet>
    var running: bool
    var connected: bool                 // net_mgr_.connected()
    var connectSignal: bool
    var lastHeartbeatTime: real         // in milliseconds
    var width: int
    var height: int

    constructor (username: Name, width: int, height: int)
      ensures this.username == username && sendBuffer == [] && running && !connected && !connectSignal
      ensures this.width == width && this.height == height
    {
      this.username, sendBuffer, running, connected, connectSignal := username, [], true, false, false;
      this.width, this.height := width, height;
    }

    method EnqueueMsg(p: Packet)
      modifies this`sendBuffer
      ensures sendBuffer == old(sendBuffer) + [p]
    {
      sendBuffer := sendBuffer + [p];
    }

    method SendInitialHs(utcTime: int)
      modifies this`sendBuffer
      ensures sendBuffer == old(sendBuffer) + [Handshake(0x12341234ABCDABCD), Heartbeat(utcTime)]
    {
      EnqueueMsg(Handshake(0x12341234ABCDABCD));
      EnqueueMsg(Heartbeat(utcTime));
    }

    /** run_frame up to its polling: a connected daemon stops when more than six whole seconds have passed since the
        last heartbeat; one that is asked to connect sends its greeting even if that fails. */
    method BeginFrame(now: real, utcTime: int, connects: bool)
      modifies this`running, this`connected, this`connectSignal, this`sendBuffer, this`lastHeartbeatTime
      ensures running == (old(running) && !(old(connected) && SilentFor(now, old(lastHeartbeatTime)) > 6))
      ensures if old(connected) || !old(connectSignal)
              then connected == old(connected) && connectSignal == old(connectSignal)
                   && sendBuffer == old(sendBuffer) && lastHeartbeatTime == old(lastHeartbeatTime)
              else connected == connects && !connectSignal && lastHeartbeatTime == now
                   && sendBuffer == old(sendBuffer) + [Handshake(0x12341234ABCDABCD), Heartbeat(utcTime)]
    {
      if connected {
        if SilentFor(now, lastHeartbeatTime) > 6 { running := false; }
      } else if connectSignal {
        connected, connectSignal := connects, false;
        SendInitialHs(utcTime);
        lastHeartbeatTime := now;
      }
    }

    /** handle_heartbeat up to its two-second sleep. */
    method HandleHeartbeat(now: real)
      modifies this`lastHeartbeatTime
      ensures lastHeartbeatTime == now
    {
      lastHeartbeatTime := now;
    }

    /** The rest of handle_heartbeat. */
    method AnswerHeartbeat(utcTime: int)
      modifies this`sendBuffer
      ensures sendBuffer == old(sendBuffer) + [Heartbeat(utcTime)]
    {
      EnqueueMsg(Heartbeat(utcTime));
    }

    /** The magic number is compared as an unsigned 64-bit value. */
    method HandleHandshake(magic: int)
      modifies this`sendBuffer, this`running
      ensures if magic % 0x1_0000_0000_0000_0000 == 0xABCDABCABA123456
              then sendBuffer == old(sendBuffer) + [NewUser(username)] && running == old(running)
              else sendBuffer == old(sendBuffer) && !running
    {
      if magic % TWO_64 != 0xABCDABCABA123456 {
        running := false;
      } else {
        EnqueueMsg(NewUser(username));
      }
    }

    method HandleServmsg(verdict: Verdict)
      modifies this`username, this`sendBuffer, this`state
      ensures verdict == NameTaken ==>
                username == old(username) + "1" && sendBuffer == old(sendBuffer) + [NewUser(username)]
      ensures verdict != NameTaken ==> username == old(username) && sendBuffer == old(sendBuffer)
      ensures state == if verdict == SessionStarting then Client else old(state)
    {
      match verdict
      case NameTaken =>
        username := username + "1";
        EnqueueMsg(NewUser(username));
      case SessionStarting =>
        state := Client;
      case _ =>
    }

    /** One frame of handle_encode's loop, with the params if they have not been sent. */
    method EncodeNext(encoder: H264Encoder, codec: Option<Bytes>, pts: int, sentParam: bool) returns (packetOut: Bytes)
      requires encoder.Valid()
      requires codec.Some? && encoder.pts == 0 ==> NthStart(codec.value, 2).Some?
      modifies this`sendBuffer, encoder
      ensures encoder.Valid()
      ensures codec.None? ==>
                && packetOut == [] && encoder.pts == old(encoder.pts) && encoder.ppsSps == old(encoder.ppsSps)
                && encoder.produced == old(encoder.produced) && encoder.emitted == old(encoder.emitted)
      ensures codec.Some? ==>
                && encoder.pts == old(encoder.pts) + 1 && encoder.produced == old(encoder.produced) + codec.value
                && encoder.emitted == old(encoder.emitted) + packetOut
                && packetOut == (if old(encoder.pts) == 0 then codec.value[NthStart(codec.value, 2).value..]
                                 else codec.value)
                && encoder.ppsSps == old(encoder.ppsSps) +
                     if old(encoder.pts) == 0 then codec.value[..NthStart(codec.value, 2).value] else []
      ensures sendBuffer == old(sendBuffer)
                + (if sentParam then [] else [VideoParams(Params(width, height, encoder.ppsSps, 30, 1))])
                + [Data(pts, 0, packetOut)]
    {
      hide NthStart, NextStart;
      packetOut := encoder.EncodeFrame(codec, []);
      assert packetOut[0..] == packetOut;
      if codec.Some? {
        assert [] + codec.value == codec.value;
        if old(encoder.pts) == 0 { TailOnly(codec.value, packetOut); }
      }
      if !sentParam {
        var _, ppsSps := encoder.GetPpsSps([]);
        assert |encoder.ppsSps| + |encoder.emitted| == |encoder.produced|;
        EnqueueMsg(VideoParams(Params(width, height, ppsSps, 30, 1)));
      }
      EnqueueMsg(Data(pts, 0, packetOut));
    }

    /** handle_encode's loop: outputs[k] is what the codec returns for the kth frame, None for an error status.
        Video params go out once, before the first data; pts counts up from zero; and the parameter sets split
        off and the frames sent are together everything the codec returned. Params sent after a first frame
        that failed are without parameter sets. */
    method HandleEncode(encoder: H264Encoder, outputs: seq<Option<Bytes>>)
      returns (ghost params: Params, ghost parts: seq<Bytes>)
      requires encoder.Valid() && encoder.pts == 0 && encoder.ppsSps == [] && encoder.emitted == []
      requires forall k :: 0 <= k < |outputs| && outputs[k].Some? && AllNone(outputs[..k]) ==>
                 NthStart(outputs[k].value, 2).Some?
      modifies this`sendBuffer, encoder
      ensures |parts| == |outputs|
      ensures outputs == [] ==> sendBuffer == old(sendBuffer)
      ensures outputs != [] ==>
                && sendBuffer == old(sendBuffer) + HostStream(params, parts)
                && params.width == width && params.height == height && params.rateNum == 30 && params.rateDen == 1
                && |sendBuffer| == |old(sendBuffer)| + 1 + |outputs|
                && sendBuffer[|old(sendBuffer)|] == VideoParams(params)
                && forall k :: 0 <= k < |outputs| ==> sendBuffer[|old(sendBuffer)| + 1 + k] == Data(k, 0, parts[k])
      ensures forall k :: 0 <= k < |outputs| ==> PartIs(outputs, k, parts[k])
      ensures encoder.ppsSps + Flatten(parts) == Flatten(Returned(outputs))
      ensures outputs != [] && outputs[0].Some? ==>
                params.ppsSps == encoder.ppsSps && SetsAre(outputs[0].value, params.ppsSps)
      ensures outputs != [] && outputs[0].None? ==> params.ppsSps == [] && parts[0] == []
    {
      hide HostStream, Flatten, Returned, NthStart, PartIs, AllNone, SetsAre;
      EmptyStreams();
      NoneYet(outputs);
      var sentParam := false;
      params, parts := Params(width, height, [], 30, 1), [];
      var pts := 0;
      while pts < |outputs|
        invariant 0 <= pts <= |outputs| && |parts| == pts && sentParam == (pts > 0)
        invariant encoder.Valid()
        invariant encoder.emitted == Flatten(parts) && encoder.produced == Flatten(Returned(outputs[..pts]))
        invariant encoder.pts == 0 <==> AllNone(outputs[..pts])
        invariant encoder.pts == 0 ==> encoder.ppsSps == []
        invariant params == Params(width, height, params.ppsSps, 30, 1)
        invariant forall k :: 0 <= k < pts ==> PartIs(outputs, k, parts[k])
        invariant pts > 0 && outputs[0].Some? ==>
                    encoder.pts > 0 && params.ppsSps == encoder.ppsSps && SetsAre(outputs[0].value, params.ppsSps)
        invariant pts > 0 && outputs[0].None? ==> params.ppsSps == [] && parts[0] == []
        invariant sendBuffer == old(sendBuffer) + if pts == 0 then [] else HostStream(params, parts)
      {
        ReturnedSnoc(outputs, pts);
        ghost var first := encoder.pts == 0;
        var packetOut := EncodeNext(encoder, outputs[pts], pts, sentParam);
        PartMade(outputs, pts, first, packetOut);
        if !sentParam {
          params := Params(width, height, encoder.ppsSps, 30, 1);
          if outputs[0].Some? { SetsMade(outputs[0].value, encoder.ppsSps); }
          sentParam := true;
        }
        HostStreamSnoc(params, parts, packetOut);
        FlattenSnoc(parts, packetOut);
        parts := parts + [packetOut];
        pts := pts + 1;
      }
      assert outputs[..pts] == outputs;
      if outputs != [] { HostStreamIs(params, parts); }
    }
  }

  /** What the kth frame becomes: nothing if the codec failed; all of the codec's packet, but for the parameter sets
      at the start of the first one it returned. */
  ghost predicate PartIs(outputs: seq<Option<Bytes>>, k: nat, part: Bytes)
    requires k < |outputs|
  {
    match outputs[k]
    case None => part == []
    case Some(packet) =>
      if AllNone(outputs[..k]) then NthStart(packet, 2).Some? && part == packet[NthStart(packet, 2).value..]
      else part == packet
  }

  /** What the video params get of the first packet: everything before its third unit. */
  ghost predicate SetsAre(packet: Bytes, sets: Bytes) {
    NthStart(packet, 2).Some? && sets == packet[..NthStart(packet, 2).value]
  }

  lemma SetsMade(packet: Bytes, sets: Bytes)
    requires NthStart(packet, 2).Some? && sets == [] + packet[..NthStart(packet, 2).value]
    ensures SetsAre(packet, sets)
  {
    assert [] + packet[..NthStart(packet, 2).value] == packet[..NthStart(packet, 2).value];
  }

  lemma PartMade(outputs: seq<Option<Bytes>>, k: nat, first: bool, part: Bytes)
    requires k < |outputs| && (first <==> AllNone(outputs[..k]))
    requires outputs[k].Some? && first ==> NthStart(outputs[k].value, 2).Some?
    requires [] + part == part && (outputs[k].None? ==> part == [])
    requires outputs[k].Some? ==>
               part == if first then outputs[k].value[NthStart(outputs[k].value, 2).value..] else outputs[k].value
    ensures PartIs(outputs, k, part)
    ensures AllNone(outputs[..k + 1]) <==> first && outputs[k].None?
  {
    assert outputs[..k + 1] == outputs[..k] + [outputs[k]];
    hide NthStart;
  }

  lemma TailOnly(packet: Bytes, part: Bytes)
    requires NthStart(packet, 2).Some? && part == [] + packet[NthStart(packet, 2).value..]
    ensures part == packet[NthStart(packet, 2).value..]
  {
  }

  lemma NoneYet(outputs: seq<Option<Bytes>>)
    ensures AllNone(outputs[..0])
  {
  }

  predicate AllNone(outputs: seq<Option<Bytes>>) {
    forall k :: 0 <= k < |outputs| ==> outputs[k].None?
  }

  lemma EmptyStreams()
    ensures Flatten([]) == [] && Flatten(Returned([])) == []
    ensures forall params :: HostStream(params, []) == [VideoParams(params)]
  {
  }

  function Returned(outputs: seq<Option<Bytes>>): seq<Bytes> {
    if outputs == [] then []
    else
      var last := outputs[|outputs| - 1];
      Returned(outputs[..|outputs| - 1]) + if last.Some? then [last.value] else []
  }

  lemma ReturnedSnoc(outputs: seq<Option<Bytes>>, k: nat)
    requires k < |outputs|
    ensures Flatten(Returned(outputs[..k + 1]))
         == Flatten(Returned(outputs[..k])) + if outputs[k].Some? then outputs[k].value else []
  {
    assert outputs[..k + 1][..k] == outputs[..k];
    if outputs[k].Some? {
      FlattenSnoc(Returned(outputs[..k]), outputs[k].value);
    } else {
      assert Returned(outputs[..k]) + [] == Returned(outputs[..k]);
    }
  }

  lemma FlattenSnoc(parts: seq<Bytes>, part: Bytes)
    ensures Flatten(parts + [part]) == Flatten(parts) + part
  {
    assert (parts + [part])[..|parts|] == parts;
  }

  /** What a host sends in one session: its params, then numbered data. */
  function HostStream(params: Params, parts: seq<Bytes>): seq<Packet> {
    if parts == [] then [VideoParams(params)]
    else HostStream(params, parts[..|parts| - 1]) + [Data(|parts| - 1, 0, parts[|parts| - 1])]
  }

  lemma HostStreamSnoc(params: Params, parts: seq<Bytes>, part: Bytes)
    ensures HostStream(params, parts + [part]) == HostStream(params, parts) + [Data(|parts|, 0, part)]
  {
    assert (parts + [part])[..|parts|] == parts;
  }

  /** The params come first, then the parts in order under their numbers. */
  lemma {:induction false} HostStreamIs(params: Params, parts: seq<Bytes>)
    ensures var stream := HostStream(params, parts);
            && |stream| == |parts| + 1 && stream[0] == VideoParams(params)
            && forall k :: 0 <= k < |parts| ==> stream[k + 1] == Data(k, 0, parts[k])
  {
    if parts != [] { HostStreamIs(params, parts[..|parts| - 1]); }
  }

  // ---------- Registering under the first free name ----------

  function Ones(k: nat): string {
    if k == 0 then "" else Ones(k - 1) + "1"
  }

  lemma OnesSnoc(name: Name, k: nat)
    requires k > 0
    ensures name + Ones(k) == name + Ones(k - 1) + "1"
  {
  }

  lemma {:induction false} OnesLength(k: nat)
    ensures |Ones(k)| == k && forall i :: 0 <= i < k ==> Ones(k)[i] == '1'
  {
    if k > 0 { OnesLength(k - 1); }
  }

  ghost function Tried(name: Name, k: nat): set<Name> {
    set j: nat | j < k :: name + Ones(j)
  }

  lemma TriedSnoc(name: Name, k: nat)
    ensures Tried(name, k + 1) == Tried(name, k) + {name + Ones(k)} && name + Ones(k) !in Tried(name, k)
  {
    forall j: nat | j < k ensures name + Ones(j) != name + Ones(k) {
      OnesLength(j);
      OnesLength(k);
      assert |name + Ones(j)| < |name + Ones(k)|;
    }
    hide Ones;
  }

  /** The pigeonhole: each retry is a new name. */
  lemma {:induction false} TriedAreMany(name: Name, k: nat)
    ensures |Tried(name, k)| == k
  {
    if k == 0 {
      assert Tried(name, 0) == {};
    } else {
      TriedAreMany(name, k - 1);
      TriedSnoc(name, k - 1);
    }
    hide Tried, Ones;
  }

  lemma SubsetSize<T>(a: set<T>, b: set<T>)
    requires a <= b
    ensures |a| <= |b|
  {
    assert b == a + (b - a);
  }

  lemma FirstReply(core: Core, me: Handler, username: Name)
    ensures var heard := |Sent(core.out, me.chan)|;
            var sent := Sent(SessionRules.OnNewUser(core, me, username).core.out, me.chan);
            && heard < |sent|
            && SessionRules.OnNewUser(core, me, username).core.users
               == (if username in core.users then core.users else core.users[username := me.chan])
            && SessionRules.OnNewUser(core, me, username).me.selfName
               == (if username in core.users then me.selfName else username)
            && sent[heard]
               == if username in core.users then ServerMessage(NameTaken, false) else ServerMessage(Success, true)
  {
  }

  /** The waiting NewUser reaches the server and its answer comes back. */
  method Attempt(d: DaemonBackendController, h: Distributor.ServerHandler) returns (taken: bool)
    requires d.sendBuffer == [NewUser(d.username)]
    modifies d, h`selfName, h.shared`users, h.net
    ensures taken == (old(d.username) in old(h.shared.users))
    ensures if taken
            then d.username == old(d.username) + "1" && d.sendBuffer == [NewUser(d.username)]
                 && h.shared.users == old(h.shared.users)
            else d.username == old(d.username) == h.selfName && d.sendBuffer == []
                 && h.shared.users == old(h.shared.users)[d.username := h.channel]
  {
    hide SessionRules.OnNewUser, Distributor.Views;
    var request := d.sendBuffer[0];
    d.sendBuffer := [];
    var heard := |Sent(h.net.out, h.channel)|;
    FirstReply(h.Tables(), h.Me(), request.username);
    h.OnNewUser(request.username);
    var reply := Sent(h.net.out, h.channel)[heard];
    d.HandleServmsg(reply.verdict);
    taken := reply.verdict == NameTaken;
  }

  /** A daemon that has just been greeted, and the server's handler for it, with nobody else registering: the
      daemon is accepted within one attempt more than there are names, under the first of name, name1, name11, ...
      that nobody holds, and the other bindings stay. */
  method Register(d: DaemonBackendController, h: Distributor.ServerHandler) returns (attempts: nat)
    requires d.sendBuffer == [NewUser(d.username)]
    modifies d, h`selfName, h.shared`users, h.net
    ensures 1 <= attempts <= |old(h.shared.users)| + 1
    ensures d.username == old(d.username) + Ones(attempts - 1) && h.selfName == d.username
    ensures d.username !in old(h.shared.users)
    ensures Tried(old(d.username), attempts - 1) <= old(h.shared.users).Keys
    ensures h.shared.users == old(h.shared.users)[d.username := h.channel]
    ensures d.sendBuffer == []
  {
    ghost var users, name := h.shared.users, d.username;
    attempts := 0;
    assert name + Ones(0) == name && Tried(name, 0) == {};
    hide Tried, Ones;
    while true
      invariant attempts <= |users| && Tried(name, attempts) <= users.Keys
      invariant h.shared.users == users
      invariant d.username == name + Ones(attempts) && d.sendBuffer == [NewUser(d.username)]
      decreases |users| - attempts
    {
      var taken := Attempt(d, h);
      attempts := attempts + 1;
      if !taken { return; }
      TriedSnoc(name, attempts - 1);
      OnesSnoc(name, attempts);
      TriedAreMany(name, attempts);
      SubsetSize(Tried(name, attempts), users.Keys);
    }
  }
}
