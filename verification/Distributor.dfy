/** The distributor's classes: shared tables updated in place by the handlers of many connections. Every method
    is proved against the function of SessionRules that says what it does to the tables. */
module Distributor {
  import opened Protocol
  import opened SessionRules
  import Framing
  import opened JavaMessageManager

  lemma {:induction false} RemoveFirstAt(ns: seq<Name>, n: Name, i: nat)
    requires i <= |ns| && n !in ns[..i] && (i < |ns| ==> ns[i] == n)
    ensures RemoveFirst(ns, n) == if i < |ns| then ns[..i] + ns[i + 1..] else ns
  {
    if i == 0 {
      assert ns != [] ==> ns[..0] + ns[1..] == ns[1..];
    } else {
      var first, rest := ns[0], ns[1..];
      SplitHead(ns, i);
      assert RemoveFirst(ns, n) == [first] + RemoveFirst(rest, n);
      hide RemoveFirst;
      RemoveFirstAt(rest, n, i - 1);
    }
  }

  lemma SplitHead(ns: seq<Name>, i: nat)
    requires 0 < i <= |ns|
    ensures ns[..i] == [ns[0]] + ns[1..][..i - 1] && ns == [ns[0]] + ns[1..]
    ensures i < |ns| ==> [ns[0]] + (ns[1..][..i - 1] + ns[1..][i..]) == ns[..i] + ns[i + 1..]
  {
  }

  // The scans of SessionRules, one turn at a time.

  lemma CloseNext(core: Core, self: Name, p: Packet, i: nat, kept: Option<nat>)
    requires i <= |core.sessions| && (kept.Some? ==> kept.value < |core.sessions|)
    ensures i == |core.sessions| ==> CloseFrom(core, self, p, i, kept) == Effect(Dropped(core, kept), false)
    ensures i < |core.sessions| ==>
              var session := core.sessions[i];
              var told := SendAll(core.users, session.clients, p, core.out);
              CloseFrom(core, self, p, i, kept) ==
                if session.host == self then
                  if told.threw then Effect(core.(out := told.out), true)
                  else CloseFrom(core.(out := told.out), self, p, i + 1, Some(i))
                else if self in session.clients then
                  Effect(core.(sessions := core.sessions[i := session.(clients := RemoveFirst(session.clients, self))]),
                      false)
                else CloseFrom(core, self, p, i + 1, kept)
  {
  }

  class SessionData {
    const hostUser: Name
    var clientUsers: seq<Name>
    var videoParams: Option<Params>

    ghost function View(): Session
      reads this
    {
      Session(hostUser, clientUsers, videoParams)
    }

    constructor (hostUser: Name, clientUser: Name)
      ensures View() == Session(hostUser, [clientUser], None)
    {
      this.hostUser := hostUser;
      clientUsers := [clientUser];
      videoParams := None;
    }

    method AddClientUser(name: Name)
      modifies this`clientUsers
      ensures clientUsers == old(clientUsers) + [name]
    {
      clientUsers := clientUsers + [name];
    }

    /** getClientList().remove(name): the first occurrence goes. */
    method RemoveClientUser(name: Name)
      modifies this`clientUsers
      ensures clientUsers == RemoveFirst(old(clientUsers), name)
    {
      ghost var ns := clientUsers;
      var i := 0;
      while i < |clientUsers| && clientUsers[i] != name
        invariant i <= |ns| && clientUsers == ns
        invariant name !in ns[..i]
      {
        i := i + 1;
      }
      RemoveFirstAt(ns, name, i);
      if i < |clientUsers| {
        clientUsers := clientUsers[..i] + clientUsers[i + 1..];
      }
    }

    method SetVideoParams(params: Params)
      modifies this`videoParams
      ensures videoParams == Some(params)
    {
      videoParams := Some(params);
    }
  }

  /** The sessions as values, in list order. */
  ghost function Views(ss: seq<SessionData>): (vs: seq<Session>)
    reads ss
  {
    seq(|ss|, i requires 0 <= i < |ss| reads ss => ss[i].View())
  }

  class UsersData {
    var users: map<Name, Chan>
    var sessions: seq<SessionData>

    constructor ()
      ensures users == map[] && sessions == []
    {
      users, sessions := map[], [];
    }

    /** The list holds no session object twice. */
    ghost predicate Valid()
      reads this
    {
      forall i, j :: 0 <= i < j < |sessions| ==> sessions[i] != sessions[j]
    }

    method GetUser(name: Name) returns (c: Option<Chan>)
      ensures c == if name in users then Some(users[name]) else None
    {
      c := if name in users then Some(users[name]) else None;
    }

    method AddUser(name: Name, c: Chan)
      modifies this`users
      ensures users == old(users)[name := c]
    {
      users := users[name := c];
    }

    method Remove(name: Name)
      modifies this`users
      ensures users == old(users) - {name}
    {
      users := users - {name};
    }

    /** getSessionList().remove(session), by identity. */
    method RemoveSession(session: SessionData, ghost k: nat)
      requires Valid() && k < |sessions| && sessions[k] == session
      modifies this`sessions
      ensures Valid() && sessions == old(sessions)[..k] + old(sessions)[k + 1..]
      ensures Views(sessions) == RemoveAt(old(Views(sessions)), k)
    {
      var i := 0;
      while sessions[i] != session
        invariant i <= k
        decreases k - i
      {
        i := i + 1;
      }
      assert i == k;
      sessions := sessions[..i] + sessions[i + 1..];
      assert forall j :: 0 <= j < |sessions| ==> sessions[j] == old(sessions)[if j < k then j else j + 1];
      assert Views(sessions) == RemoveAt(old(Views(sessions)), k);
    }
  }

  /** Netty's channels as outboxes, and which of them the handlers have closed. */
  class Network {
    var out: Outboxes
    var closed: set<Chan>

    constructor ()
      ensures out == map[] && closed == {}
    {
      out, closed := map[], {};
    }

    method Close(c: Chan)
      modifies this`closed
      ensures closed == old(closed) + {c}
    {
      closed := closed + {c};
    }

    method WriteAndFlush(c: Chan, p: Packet)
      modifies this`out
      ensures out == Push(old(out), c, p)
    {
      out := Push(out, c, p);
    }
  }

  class ServerHandler {
    const channel: Chan
    const shared: UsersData
    const net: Network
    const mgr: MessageManager
    var selfName: Name
    var running: bool
    var lastHeartbeat: int

    constructor (channel: Chan, shared: UsersData, net: Network, now: int)
      ensures this.shared == shared && this.net == net && Me() == Handler(channel, "", true, now)
      ensures fresh(mgr) && fresh(mgr.buffer) && mgr.Valid() && mgr.received == []
    {
      this.channel, this.shared, this.net := channel, shared, net;
      mgr := new MessageManager();
      selfName, running, lastHeartbeat := "", true, now;
    }

    ghost function Tables(): Core
      reads this, shared, shared.sessions, net
    {
      Core(shared.users, Views(shared.sessions), net.out)
    }

    ghost function Me(): Handler
      reads this
    {
      Handler(channel, selfName, running, lastHeartbeat)
    }

    method SendProto(p: Packet, c: Option<Chan>) returns (threw: bool)
      modifies net`out
      ensures threw == c.None?
      ensures net.out == if c.Some? then Push(old(net.out), c.value, p) else old(net.out)
    {
      threw := c.None?;
      if c.Some? { net.WriteAndFlush(c.value, p); }
    }

    method SendToClients(names: seq<Name>, p: Packet) returns (threw: bool)
      modifies net`out
      ensures Delivery(net.out, threw) == SendAll(shared.users, names, p, old(net.out))
    {
      var i := 0;
      threw := false;
      while i < |names|
        invariant i <= |names|
        invariant SendAll(shared.users, names, p, old(net.out)) == SendAll(shared.users, names[i..], p, net.out)
      {
        assert names[i..][0] == names[i] && names[i..][1..] == names[i + 1..];
        var c := shared.GetUser(names[i]);
        threw := SendProto(p, c);
        if threw { return; }
        i := i + 1;
      }
    }

    method SendToEveryone(p: Packet)
      modifies net`out
      ensures net.out == SendToNames(shared.users, shared.users.Keys, p, old(net.out))
    {
      var left := shared.users.Keys;
      SendToNobody(shared.users, p, net.out);
      while left != {}
        invariant left <= shared.users.Keys
        invariant net.out == SendToNames(shared.users, shared.users.Keys - left, p, old(net.out))
        decreases left
      {
        var n :| n in left;
        ghost var told := shared.users.Keys - left;
        SendToOneMore(shared.users, told, n, p, old(net.out));
        net.WriteAndFlush(shared.users[n], p);
        left := left - {n};
        assert shared.users.Keys - left == told + {n};
      }
      assert shared.users.Keys - left == shared.users.Keys;
    }

    method OnNewUser(username: Name)
      modifies this`selfName, shared`users, net`out
      ensures Outcome(Tables(), Me(), false) == SessionRules.OnNewUser(old(Tables()), old(Me()), username)
    {
      var taken := shared.GetUser(username);
      if taken == None {
        shared.AddUser(username, channel);
        net.WriteAndFlush(channel, ServerMessage(Success, true));
        SendToEveryone(UserList(shared.users.Keys));
        selfName := username;
      } else {
        net.WriteAndFlush(channel, ServerMessage(NameTaken, false));
      }
    }

    /** The end of onSessionRequest: nobody hosts under that name, so a session begins. */
    method BeginSession(target: Name) returns (threw: bool)
      requires shared.Valid() && target in shared.users
      modifies shared`sessions, net`out
      ensures shared.Valid()
          && Effect(Tables(), threw) == RequestFrom(old(Tables()), Me(), target, |old(shared.sessions)|)
      ensures forall s :: s in shared.sessions ==> s in old(shared.sessions) || fresh(s)
    {
      hide Push;
      threw := false;
      var session := new SessionData(target, selfName);
      shared.sessions := shared.sessions + [session];
      assert Views(shared.sessions) == old(Views(shared.sessions)) + [session.View()];
      net.WriteAndFlush(channel, ServerMessage(SessionStarting, true));
      var host := shared.GetUser(target);
      threw := SendProto(SessionRequest(target), host);
    }

    method OnSessionRequest(target: Name) returns (threw: bool)
      requires shared.Valid()
      modifies shared`sessions, shared.sessions, net`out
      ensures shared.Valid() && Effect(Tables(), threw) == SessionRules.OnSessionRequest(old(Tables()), Me(), target)
      ensures forall s :: s in shared.sessions ==> s in old(shared.sessions) || fresh(s)
    {
      hide Push;
      threw := false;
      if target !in shared.users {
        net.WriteAndFlush(channel, ServerMessage(UserNotFound, false));
        return;
      }
      var i := 0;
      while i < |shared.sessions|
        invariant i <= |shared.sessions| && Tables() == old(Tables()) && shared.sessions == old(shared.sessions)
        invariant RequestFrom(Tables(), Me(), target, 0) == RequestFrom(Tables(), Me(), target, i)
      {
        var session := shared.sessions[i];
        if session.hostUser == target {
          session.AddClientUser(selfName);
          net.WriteAndFlush(channel, ServerMessage(SessionStarting, true));
          assert Views(shared.sessions) == old(Views(shared.sessions))[i := session.View()];
          if session.videoParams == None { return true; }
          net.WriteAndFlush(channel, VideoParams(session.videoParams.value));
          return;
        } else if target in session.clientUsers {
          net.WriteAndFlush(channel, ServerMessage(UserAlreadyInSession, false));
          return;
        }
        i := i + 1;
      }
      threw := BeginSession(target);
    }

    method OnSessionClose(sc: Packet) returns (threw: bool)
      requires shared.Valid()
      modifies shared`sessions, shared.sessions, net`out
      ensures shared.Valid() && Effect(Tables(), threw) == CloseFrom(old(Tables()), selfName, sc, 0, None)
      ensures forall s :: s in shared.sessions ==> s in old(shared.sessions)
    {
      hide SendAll, RemoveFirst, Push, CloseFrom;
      threw := false;
      var toRemove: SessionData? := null;
      ghost var kept: Option<nat> := None;
      var i := 0;
      while i < |shared.sessions|
        invariant i <= |shared.sessions| && shared.sessions == old(shared.sessions)
        invariant Views(shared.sessions) == old(Views(shared.sessions))
        invariant toRemove == null <==> kept == None
        invariant kept.Some? ==> kept.value < |shared.sessions| && shared.sessions[kept.value] == toRemove
        invariant CloseFrom(old(Tables()), selfName, sc, 0, None) == CloseFrom(Tables(), selfName, sc, i, kept)
      {
        CloseNext(Tables(), selfName, sc, i, kept);
        var session := shared.sessions[i];
        if session.hostUser == selfName {
          threw := SendToClients(session.clientUsers, sc);
          if threw { return; }
          toRemove, kept := session, Some(i);
        } else if selfName in session.clientUsers {
          session.RemoveClientUser(selfName);
          assert Views(shared.sessions) == old(Views(shared.sessions))[i := session.View()];
          return;
        }
        i := i + 1;
      }
      CloseNext(Tables(), selfName, sc, i, kept);
      if toRemove != null {
        shared.RemoveSession(toRemove, kept.value);
      }
    }

    method OnVideoParams(vp: Params) returns (threw: bool)
      requires shared.Valid()
      modifies shared.sessions, net`out
      ensures Effect(Tables(), threw) == VideoFrom(old(Tables()), selfName, vp, 0)
    {
      hide SendAll, Push;
      threw := false;
      var i := 0;
      while i < |shared.sessions|
        invariant i <= |shared.sessions|
        invariant VideoFrom(old(Tables()), selfName, vp, 0) == VideoFrom(Tables(), selfName, vp, i)
      {
        var session := shared.sessions[i];
        ghost var before := Views(shared.sessions);
        if session.hostUser == selfName {
          session.SetVideoParams(vp);
          assert Views(shared.sessions) == before[i := session.View()];
          threw := SendToClients(session.clientUsers, VideoParams(vp));
          if threw { return; }
        }
        i := i + 1;
      }
    }

    method OnData(p: Packet) returns (threw: bool)
      modifies net`out
      ensures Effect(Tables(), threw) == DataFrom(old(Tables()), selfName, p, 0)
    {
      threw := false;
      var i := 0;
      while i < |shared.sessions|
        invariant i <= |shared.sessions|
        invariant DataFrom(old(Tables()), selfName, p, 0) == DataFrom(Tables(), selfName, p, i)
      {
        if shared.sessions[i].hostUser == selfName {
          threw := SendToClients(shared.sessions[i].clientUsers, p);
          if threw { return; }
        }
        i := i + 1;
      }
    }

    method OnControlInput(p: Packet) returns (threw: bool)
      modifies net`out
      ensures Effect(Tables(), threw) == ControlFrom(old(Tables()), selfName, p, 0)
    {
      threw := false;
      var i := 0;
      while i < |shared.sessions|
        invariant i <= |shared.sessions|
        invariant ControlFrom(old(Tables()), selfName, p, 0) == ControlFrom(Tables(), selfName, p, i)
      {
        if selfName in shared.sessions[i].clientUsers {
          var host := shared.GetUser(shared.sessions[i].hostUser);
          threw := SendProto(p, host);
          if threw { return; }
        }
        i := i + 1;
      }
    }

    method Leave() returns (threw: bool)
      requires shared.Valid()
      modifies shared`sessions, shared.sessions, net`out
      ensures shared.Valid() && Effect(Tables(), threw) == LeaveFrom(old(Tables()), selfName, 0)
      ensures forall s :: s in shared.sessions ==> s in old(shared.sessions)
    {
      hide SendAll, RemoveFirst, Push;
      threw := false;
      var toRemove: SessionData? := null;
      var i := 0;
      var stop := false;
      while i < |shared.sessions| && !stop
        invariant i <= |shared.sessions| && shared.sessions == old(shared.sessions)
        invariant !stop ==> toRemove == null && Tables() == old(Tables())
                            && LeaveFrom(old(Tables()), selfName, 0) == LeaveFrom(Tables(), selfName, i)
        invariant stop ==> i < |shared.sessions| && (toRemove != null ==> toRemove == shared.sessions[i])
        invariant stop ==> LeaveFrom(old(Tables()), selfName, 0)
                           == Effect(if toRemove == null then Tables() else Dropped(Tables(), Some(i)), false)
        decreases |shared.sessions| - i, !stop
      {
        var session := shared.sessions[i];
        if session.hostUser == selfName {
          threw := SendToClients(session.clientUsers, SessionClose(Some("Host Disconnected")));
          if threw { return; }
          toRemove, stop := session, true;
        } else if selfName in session.clientUsers {
          session.RemoveClientUser(selfName);
          assert Views(shared.sessions) == old(Views(shared.sessions))[i := session.View()];
          if |session.clientUsers| == 0 { toRemove := session; }
          stop := true;
        } else {
          i := i + 1;
        }
      }
      if toRemove != null {
        shared.RemoveSession(toRemove, i);
      }
    }

    method RemoveSelf() returns (threw: bool)
      requires shared.Valid()
      modifies this`running, shared, shared.sessions, net`out
      ensures shared.Valid() && Outcome(Tables(), Me(), threw) == SessionRules.RemoveSelf(old(Tables()), old(Me()))
      ensures forall s :: s in shared.sessions ==> s in old(shared.sessions)
    {
      running := false;
      if selfName == "" { return false; }
      threw := Leave();
      if threw { return; }
      shared.Remove(selfName);
    }

    /** One poll of the watchdog thread. A removal that throws ends the thread before the channel is closed. */
    method WatchdogPoll(now: int) returns (fired: bool, threw: bool)
      requires shared.Valid()
      modifies this`running, shared, shared.sessions, net
      ensures shared.Valid() && fired == (old(running) && ServerTimedOut(now, lastHeartbeat))
      ensures if fired then Outcome(Tables(), Me(), threw) == SessionRules.RemoveSelf(old(Tables()), old(Me()))
              else Outcome(Tables(), Me(), threw) == Outcome(old(Tables()), old(Me()), false)
      ensures net.closed == old(net.closed) + if fired && !threw then {channel} else {}
      ensures forall s :: s in shared.sessions ==> s in old(shared.sessions)
    {
      fired, threw := running && now - lastHeartbeat > 7000, false;
      if fired {
        threw := RemoveSelf();
        if threw { return; }
        net.Close(channel);
      }
    }

    method HandlePacket(p: Packet, now: int) returns (threw: bool)
      requires shared.Valid()
      modifies this`selfName, this`lastHeartbeat, shared, shared.sessions, net
      ensures shared.Valid()
          && Outcome(Tables(), Me(), threw) == SessionRules.HandlePacket(old(Tables()), old(Me()), p, now)
      ensures net.closed == old(net.closed) + if p.Handshake? && p.magic != CLIENT_MAGIC then {channel} else {}
      ensures forall s :: s in shared.sessions ==> s in old(shared.sessions) || fresh(s)
    {
      threw := false;
      match p
      case Handshake(magic) =>
        if magic == CLIENT_MAGIC { net.WriteAndFlush(channel, Handshake(SERVER_MAGIC)); } else { net.Close(channel); }
      case NewUser(username) => OnNewUser(username);
      case SessionRequest(name) => threw := OnSessionRequest(name);
      case SessionClose(_) => threw := OnSessionClose(p);
      case Heartbeat(_) =>
        lastHeartbeat := now;
        net.WriteAndFlush(channel, Heartbeat(now));
      case VideoParams(vp) => threw := OnVideoParams(vp);
      case Data(_, _, _) => threw := OnData(p);
      case ControlInput(_) => threw := OnControlInput(p);
      case _ =>
    }

    /** One pass of channelRead's loop. */
    method HandleNext(parse: Framing.Bytes -> Option<Packet>, now: int) returns (threw: bool)
      requires shared.Valid() && mgr.Valid() && mgr.packets != []
      modifies this`selfName, this`lastHeartbeat, shared, shared.sessions, net, mgr`packets, mgr`retrieved
      ensures shared.Valid() && mgr.Valid()
      ensures forall s :: s in shared.sessions ==> s in old(shared.sessions) || fresh(s)
      ensures mgr.packets == old(mgr.packets)[1..] && mgr.retrieved == old(mgr.retrieved) + [old(mgr.packets)[0]]
      ensures Outcome(Tables(), Me(), threw) == match parse(old(mgr.packets)[0])
                                                case None => Outcome(old(Tables()), old(Me()), false)
                                                case Some(p) => SessionRules.HandlePacket(old(Tables()), old(Me()), p,
                                                    now)
    {
      hide SessionRules.HandlePacket, Framing.Decode, Framing.NoNegative, Framing.Header;
      var packet := mgr.NextPacket();
      var p := parse(packet.value);
      threw := false;
      if p.Some? { threw := HandlePacket(p.value, now); }
    }

    /** Feeds the decoder and handles what is waiting. Whatever the chunking, the messages handled are the next
        ones of the whole stream received; a bad length throws before anything of this chunk is handled. So far n
        messages have been handled; times(k) is what the clock reads when the kth is. */
    method ChannelRead(raw: Framing.Bytes, parse: Framing.Bytes -> Option<Packet>, times: nat -> int, n: nat)
      returns (threw: bool, next: nat)
      requires shared.Valid() && mgr.Valid()
      modifies this`selfName, this`lastHeartbeat, shared, shared.sessions, net, mgr, mgr.buffer
      ensures shared.Valid() && (fresh(mgr.buffer) || mgr.buffer == old(mgr.buffer))
      ensures forall s :: s in shared.sessions ==> s in old(shared.sessions) || fresh(s)
      ensures !Framing.NoNegative(old(mgr.received) + raw) ==> threw && Tables() == old(Tables()) && Me() == old(Me())
      ensures Framing.NoNegative(old(mgr.received) + raw) ==>
                && mgr.Valid() && mgr.received == old(mgr.received) + raw
                && old(mgr.retrieved) <= mgr.retrieved && next == n + |mgr.retrieved| - |old(mgr.retrieved)|
                && old(mgr.retrieved) <= Framing.Decode(mgr.received).messages
                && Batch(Tables(), Me(), threw, mgr.packets)
                   == HandleAll(old(Tables()), old(Me()),
                                Framing.Decode(mgr.received).messages[|old(mgr.retrieved)|..], parse, times, n)
    {
      hide SessionRules.HandlePacket, Framing.Decode, Framing.NoNegative, Framing.Header;
      next := n;
      threw := mgr.ParseData(raw);
      if threw { return; }
      ghost var waiting := mgr.packets;
      assert Framing.Decode(mgr.received).messages == old(mgr.retrieved) + waiting;
      while |mgr.packets| > 0
        invariant shared.Valid() && mgr.Valid() && mgr.received == old(mgr.received) + raw
        invariant fresh(mgr.buffer) || mgr.buffer == old(mgr.buffer)
        invariant forall s :: s in shared.sessions ==> s in old(shared.sessions) || fresh(s)
        invariant old(mgr.retrieved) <= mgr.retrieved && next == n + |mgr.retrieved| - |old(mgr.retrieved)|
        invariant HandleAll(old(Tables()), old(Me()), waiting, parse, times, n)
               == HandleAll(Tables(), Me(), mgr.packets, parse, times, next)
        decreases |mgr.packets|
      {
        assert forall i :: 0 <= i < |shared.sessions| ==> shared.sessions[i] in shared.sessions;
        threw := HandleNext(parse, times(next));
        next := next + 1;
        if threw { return; }
      }
    }

    /** The context is closed too, unless the removal throws. */
    method ExceptionCaught() returns (threw: bool)
      requires shared.Valid()
      modifies this`running, shared, shared.sessions, net
      ensures shared.Valid() && Outcome(Tables(), Me(), threw) == SessionRules.RemoveSelf(old(Tables()), old(Me()))
      ensures net.closed == old(net.closed) + if threw then {} else {channel}
    {
      threw := RemoveSelf();
      if !threw { net.Close(channel); }
    }
  }

  lemma SendToNobody(users: map<Name, Chan>, p: Packet, out: Outboxes)
    ensures SendToNames(users, users.Keys - users.Keys, p, out) == out
  {
    var r := SendToNames(users, {}, p, out);
    assert users.Keys - users.Keys == {};
    forall c | c in out ensures r[c] == out[c] {
      assert NamesOn(users, {}, c) == {};
    }
    assert r == out;
  }

  lemma SendToOneMore(users: map<Name, Chan>, told: set<Name>, n: Name, p: Packet, out: Outboxes)
    requires told <= users.Keys && n in users && n !in told
    ensures SendToNames(users, told + {n}, p, out) == Push(SendToNames(users, told, p, out), users[n], p)
  {
    var before, after := SendToNames(users, told, p, out), SendToNames(users, told + {n}, p, out);
    var pushed := Push(before, users[n], p);
    assert (set m | m in told + {n} :: users[m]) == (set m | m in told :: users[m]) + {users[n]};
    forall c | c in after ensures after[c] == pushed[c] {
      OneMoreCopy(users, told, n, p, Sent(out, c), c);
      if c !in before { assert NamesOn(users, told, c) == {}; }
    }
    assert after == pushed;
  }

  lemma OneMoreCopy(users: map<Name, Chan>, told: set<Name>, n: Name, p: Packet, sent: seq<Packet>, c: Chan)
    requires n in users && n !in told
    ensures sent + seq(|NamesOn(users, told + {n}, c)|, _ => p)
         == sent + seq(|NamesOn(users, told, c)|, _ => p) + if c == users[n] then [p] else []
  {
    if c == users[n] {
      assert NamesOn(users, told + {n}, c) == NamesOn(users, told, c) + {n};
    } else {
      assert NamesOn(users, told + {n}, c) == NamesOn(users, told, c);
    }
  }
}
