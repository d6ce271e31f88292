/** The clockwork of Heartbeat.dfy is what the handlers on both sides do: each tick is a call of the daemon's or
    the distributor's methods, with the heartbeats under way in the send buffer and in the channel's outbox. */
module HeartbeatHandlers {
  import opened Protocol
  import opened Heartbeat
  import opened SessionRules
  import opened OutboxGrowth
  import Daemon
  import Distributor

  lemma {:induction false} BeatsConcat(ps: seq<Packet>, qs: seq<Packet>)
    ensures Beats(ps + qs) == Beats(ps) + Beats(qs)
  {
    if qs == [] {
      assert ps + qs == ps;
    } else {
      BeatsConcat(ps, qs[..|qs| - 1]);
      assert (ps + qs)[..|ps + qs| - 1] == ps + qs[..|qs| - 1];
    }
  }

  lemma BeatsHead(ps: seq<Packet>)
    requires ps != []
    ensures Beats(ps) == (if ps[0].Heartbeat? then 1 else 0) + Beats(ps[1..])
  {
    assert ps == [ps[0]] + ps[1..];
    BeatsConcat([ps[0]], ps[1..]);
    BeatsOne(ps[0]);
  }

  lemma {:induction false} NoBeats(ps: seq<Packet>)
    requires forall i :: 0 <= i < |ps| ==> !ps[i].Heartbeat?
    ensures Beats(ps) == 0
  {
    if ps != [] { NoBeats(ps[..|ps| - 1]); }
  }

  lemma BeatsOne(p: Packet)
    ensures Beats([p]) == if p.Heartbeat? then 1 else 0
  {
    assert [p][..0] == [];
  }

  /** The daemon has handled `heard` heartbeats of its channel's outbox. */
  ghost predicate Mirrors(d: Daemon.DaemonBackendController, h: Distributor.ServerHandler, c: Clockwork, heard: nat)
    reads d, h, h.net
  {
    && d.connected == c.connected
    && (c.connected ==> d.lastHeartbeatTime == c.daemonLast && h.lastHeartbeat == c.serverLast.Floor)
    && Beats(d.sendBuffer) == |c.toServer|
    && Beats(Sent(h.net.out, h.channel)) == heard + |c.toDaemon|
  }

  /** A connect attempt of run_frame; if it succeeds, h is the handler that channelActive has just set up. */
  method Connects(d: Daemon.DaemonBackendController, h: Distributor.ServerHandler, c: Clockwork, heard: nat,
                  utcTime: int, success: bool)
    requires Mirrors(d, h, c, heard) && !d.connected && d.connectSignal
    requires success ==> h.lastHeartbeat == c.now.Floor
    modifies d`running, d`connected, d`connectSignal, d`sendBuffer, d`lastHeartbeatTime
    ensures Mirrors(d, h, Next(c, Attempt(success)), heard)
  {
    BeatsConcat(d.sendBuffer, [Handshake(CLIENT_MAGIC)] + [Heartbeat(utcTime)]);
    BeatsConcat([Handshake(CLIENT_MAGIC)], [Heartbeat(utcTime)]);
    BeatsOne(Handshake(CLIENT_MAGIC));
    BeatsOne(Heartbeat(utcTime));
    assert [Handshake(CLIENT_MAGIC)] + [Heartbeat(utcTime)] == [Handshake(CLIENT_MAGIC), Heartbeat(utcTime)];
    hide Beats;
    d.BeginFrame(c.now, utcTime, success);
  }

  /** The oldest packet sent is a heartbeat and reaches the server: it is answered once, at once, and nobody else
      hears of it. */
  method ServerBeats(d: Daemon.DaemonBackendController, h: Distributor.ServerHandler, c: Clockwork, heard: nat)
    requires Mirrors(d, h, c, heard) && c.connected && h.shared.Valid()
    requires d.sendBuffer != [] && d.sendBuffer[0].Heartbeat?
    modifies d`sendBuffer, h`selfName, h`lastHeartbeat, h.shared, h.shared.sessions, h.net
    ensures Mirrors(d, h, Next(c, ServerHandles(0)), heard)
    ensures h.Tables() == old(h.Tables()).(out := Push(old(h.net.out), h.channel, Heartbeat(c.now.Floor)))
    ensures d.sendBuffer == old(d.sendBuffer)[1..] && h.selfName == old(h.selfName)
  {
    var p := d.sendBuffer[0];
    BeatsHead(d.sendBuffer);
    BeatsConcat(Sent(h.net.out, h.channel), [Heartbeat(c.now.Floor)]);
    BeatsOne(Heartbeat(c.now.Floor));
    hide Beats;
    d.sendBuffer := d.sendBuffer[1..];
    var threw := h.HandlePacket(p, c.now.Floor);
    assert h.Tables().out == h.net.out && h.Me().lastHeartbeat == h.lastHeartbeat;
  }

  lemma RegistrationQuiet(core: Core, me: Handler, username: Name, c: Chan)
    ensures Beats(Sent(OnNewUser(core, me, username).core.out, c)) == Beats(Sent(core.out, c))
  {
    PushQuiet(core.out, me.chan, ServerMessage(NameTaken, false));
    PushQuiet(core.out, me.chan, ServerMessage(Success, true));
    if username !in core.users {
      var users := core.users[username := me.chan];
      var out := Push(core.out, me.chan, ServerMessage(Success, true));
      var lists := seq(|NamesOn(users, users.Keys, c)|, _ => UserList(users.Keys));
      BeatsConcat(Sent(out, c), lists);
      NoBeats(lists);
      hide Beats, Push;
      ListsAppended(users, out, c);
    }
  }

  lemma ListsAppended(users: map<Name, Chan>, out: Outboxes, c: Chan)
    ensures Sent(SendToNames(users, users.Keys, UserList(users.Keys), out), c)
         == Sent(out, c) + seq(|NamesOn(users, users.Keys, c)|, _ => UserList(users.Keys))
  {
    if n :| n in users && users[n] == c {
    } else {
      assert NamesOn(users, users.Keys, c) == {};
    }
  }

  /** Handling any other packet neither makes nor loses a heartbeat, unless it ends the connection. */
  lemma OthersQuiet(core: Core, me: Handler, p: Packet, now: int, c: Chan)
    requires !p.Heartbeat?
    ensures var o := HandlePacket(core, me, p, now);
            Beats(Sent(o.core.out, c)) == Beats(Sent(core.out, c)) && o.me.lastHeartbeat == me.lastHeartbeat
  {
    if p.NewUser? { RegistrationQuiet(core, me, p.username, c); } else { HandlingQuiet(core, me, p, now); }
    hide CloseFrom, VideoFrom, DataFrom, ControlFrom, OnSessionRequest, SendToNames, Beats, LastList;
  }

  /** The oldest packet sent is no heartbeat: the clockwork stands still while it is handled. */
  method ServerHandlesOther(d: Daemon.DaemonBackendController, h: Distributor.ServerHandler, c: Clockwork, heard: nat)
    returns (threw: bool)
    requires Mirrors(d, h, c, heard) && h.shared.Valid()
    requires d.sendBuffer != [] && !d.sendBuffer[0].Heartbeat?
    modifies d`sendBuffer, h`selfName, h`lastHeartbeat, h.shared, h.shared.sessions, h.net
    ensures Mirrors(d, h, c, heard) && d.sendBuffer == old(d.sendBuffer)[1..]
  {
    var p := d.sendBuffer[0];
    BeatsHead(d.sendBuffer);
    OthersQuiet(h.Tables(), h.Me(), p, c.now.Floor, h.channel);
    hide Beats, SessionRules.HandlePacket;
    d.sendBuffer := d.sendBuffer[1..];
    threw := h.HandlePacket(p, c.now.Floor);
    assert h.Tables().out == h.net.out && h.Me().lastHeartbeat == h.lastHeartbeat && h.Me().chan == h.channel;
  }

  /** A heartbeat of the outbox that the daemon has not handled yet reaches it, and its task falls asleep. */
  method DaemonBeats(d: Daemon.DaemonBackendController, h: Distributor.ServerHandler, c: Clockwork, heard: nat)
    requires Mirrors(d, h, c, heard) && c.connected && heard < Beats(Sent(h.net.out, h.channel))
    modifies d`lastHeartbeatTime
    ensures Mirrors(d, h, Next(c, DaemonHandles(0)), heard + 1)
  {
    d.HandleHeartbeat(c.now);
  }

  /** A sleep that has taken its two seconds ends in a new heartbeat. */
  method Answers(d: Daemon.DaemonBackendController, h: Distributor.ServerHandler, c: Clockwork, i: nat, heard: nat,
                 utcTime: int)
    requires Mirrors(d, h, c, heard) && i < |c.sleeping| && c.now - c.sleeping[i] >= 2000.0
    modifies d`sendBuffer
    ensures Mirrors(d, h, Next(c, Wakes(i)), heard)
  {
    BeatsConcat(d.sendBuffer, [Heartbeat(utcTime)]);
    BeatsOne(Heartbeat(utcTime));
    d.AnswerHeartbeat(utcTime);
  }

  /** run_frame stops a connected daemon exactly when the clockwork says so. */
  method DaemonWatches(d: Daemon.DaemonBackendController, h: Distributor.ServerHandler, c: Clockwork, heard: nat,
                       utcTime: int)
    requires Mirrors(d, h, c, heard) && c.connected
    modifies d
    ensures Mirrors(d, h, c, heard) && d.running == (old(d.running) && !DaemonFires(c))
  {
    d.BeginFrame(c.now, utcTime, false);
  }

  /** The server's thread removes a running connection exactly when the clockwork says so. */
  method ServerWatches(d: Daemon.DaemonBackendController, h: Distributor.ServerHandler, c: Clockwork, heard: nat)
    returns (fired: bool, threw: bool)
    requires Mirrors(d, h, c, heard) && c.connected && h.shared.Valid() && h.running
    modifies h`running, h.shared, h.shared.sessions, h.net
    ensures fired == ServerFires(c) && h.running == !fired
    ensures !fired ==> Mirrors(d, h, c, heard) && h.Tables() == old(h.Tables())
  {
    fired, threw := h.WatchdogPoll(c.now.Floor);
    assert h.Me().running == h.running && h.Tables().out == h.net.out;
  }
}
