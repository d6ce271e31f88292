/** What every kind of step does, written out: who is registered, who has which role, which params are stored, and
    which packets each channel is sent. */
module Outcomes {
  import opened Protocol
  import opened SessionRules
  import opened SessionMachine
  import opened SessionInvariant
  import opened Directory
  import opened Refinement
  import opened SessionTheorems

  /** The channel is that of a registered user. */
  ghost predicate OfUser(users: map<Name, Chan>, d: Chan) {
    exists n :: n in users && users[n] == d
  }

  /** h has no client but possibly n. */
  ghost predicate NoOtherClient(s: State, h: Name, n: Name) {
    forall m :: RoleOf(s.core.sessions, m) == ClientOf(h) ==> m == n
  }

  /** Nobody comes, goes or changes role, and the stored params stay. */
  ghost predicate SamePlaces(s: State, t: State) {
    && t.core.users == s.core.users
    && forall n :: RoleOf(t.core.sessions, n) == RoleOf(s.core.sessions, n)
                   && ParamsOf(t.core.sessions, n) == ParamsOf(s.core.sessions, n)
  }

  /** The directory shows everybody's role and every host's params. */
  ghost predicate Shown(d: Directory, ss: seq<Session>) {
    forall n :: Standing(d, n) == RoleOf(ss, n)
                && (RoleOf(ss, n) == Host ==> n in d.params && d.params[n] == ParamsOf(ss, n))
  }

  lemma AllShown(s: State)
    requires Inv(s)
    ensures Shown(Abs(s.core), s.core.sessions)
  {
    forall n ensures Standing(Abs(s.core), n) == RoleOf(s.core.sessions, n)
      ensures RoleOf(s.core.sessions, n) == Host ==>
                n in Abs(s.core).params && Abs(s.core).params[n] == ParamsOf(s.core.sessions, n)
    {
      RoleIsPublic(s, n);
    }
    hide RoleOf, ParamsOf, Abs, Inv;
  }

  lemma PushSends(out: Outboxes, c: Chan, p: Packet, d: Chan)
    ensures Sent(Push(out, c, p), d) == Sent(out, d) + if d == c then [p] else []
  {
  }

  lemma ReceiveShown(s: State, c: Chan, p: Packet, now: int)
    requires Inv(s) && c in s.handlers && Guard(s, Receive(c, p, now))
    ensures var t, r := Step(s, Receive(c, p, now)), React(Abs(s.core), s.handlers[c], p, now);
            && Inv(t) && Abs(t.core) == r.dir && t.handlers == s.handlers[c := r.me]
            && Abs(s.core).users == s.core.users && t.core.users == r.dir.users && t.core.out == r.dir.out
            && Shown(Abs(s.core), s.core.sessions) && Shown(r.dir, t.core.sessions)
  {
    hide Step, RoleOf, ParamsOf, Sound, React, Guard;
    StepRefines(s, Receive(c, p, now));
    AllShown(s);
    AllShown(Step(s, Receive(c, p, now)));
    hide Inv, Shown;
  }

  // ---------- Greetings ----------

  /** The right handshake is answered with the server's number, to the same channel; any other with nothing. */
  lemma HandshakeOutcome(core: Core, me: Handler, magic: int, now: int, d: Chan)
    ensures var o := HandlePacket(core, me, Handshake(magic), now);
            && o.core.users == core.users && o.core.sessions == core.sessions && o.me == me && !o.threw
            && Sent(o.core.out, d) == Sent(core.out, d) +
                 if d == me.chan && magic == 0x12341234ABCDABCD
                 then [Handshake(0xABCDABCABA123456 - 0x1_0000_0000_0000_0000)] else []
  {
  }

  /** A heartbeat is answered once, with the server's time, which is noted. */
  lemma HeartbeatOutcome(core: Core, me: Handler, utcTime: int, now: int, d: Chan)
    ensures var o := HandlePacket(core, me, Heartbeat(utcTime), now);
            && o.core.users == core.users && o.core.sessions == core.sessions && !o.threw
            && o.me == me.(lastHeartbeat := now)
            && Sent(o.core.out, d) == Sent(core.out, d) + if d == me.chan then [Heartbeat(now)] else []
  {
  }

  /** Packets that only servers send change nothing and are not answered. */
  lemma IgnoredOutcome(s: State, c: Chan, p: Packet, now: int)
    requires p.Unspecified? || p.ServerMessage? || p.UserList?
    ensures Step(s, Receive(c, p, now)) == s
  {
    if c in s.handlers { assert s.handlers[c := s.handlers[c]] == s.handlers; }
  }

  /** A connection starts without a name, running, last heard of now; the tables stay. */
  lemma ConnectOutcome(s: State, c: Chan, now: int, d: Chan)
    requires c !in s.handlers
    ensures var t := Step(s, Connect(c, now));
            && t.core.users == s.core.users && t.core.sessions == s.core.sessions
            && t.handlers == s.handlers[c := Handler(c, "", true, now)]
            && Sent(t.core.out, d) == Sent(s.core.out, d)
  {
  }

  // ---------- Registration ----------

  /** A free name becomes an idle user; its channel is sent SUCCESS and then, like every user's, the list of all
      names. A taken name changes nothing and is refused. */
  lemma RegistrationOutcome(s: State, c: Chan, username: Name, now: int, d: Chan)
    requires Inv(s) && c in s.handlers && Guard(s, Receive(c, NewUser(username), now))
    ensures var t := Step(s, Receive(c, NewUser(username), now));
            if username in s.core.users then
              && SamePlaces(s, t) && t.handlers == s.handlers
              && Sent(t.core.out, d) == Sent(s.core.out, d) + if d == c then [ServerMessage(NameTaken, false)] else []
            else
              && t.core.users == s.core.users[username := c]
              && t.handlers == s.handlers[c := s.handlers[c].(selfName := username)]
              && (forall n :: RoleOf(t.core.sessions, n) == RoleOf(s.core.sessions, n))
              && Sent(t.core.out, d) == Sent(s.core.out, d)
                   + (if d == c then [ServerMessage(Success, true)] else [])
                   + (if OfUser(t.core.users, d) then [UserList(s.core.users.Keys + {username})] else [])
  {
    hide RoleOf, ParamsOf, Unique;
    var me := s.handlers[c];
    MaySpeak(s, c, NewUser(username), now);
    assert Consistent(s, c);
    RegisterRefines(s.core, me, username);
    var users := s.core.users[username := c];
    PushSends(s.core.out, c, ServerMessage(NameTaken, false), d);
    PushSends(s.core.out, c, ServerMessage(Success, true), d);
    ListSent(users, UserList(users.Keys), Push(s.core.out, c, ServerMessage(Success, true)), d);
    assert users.Keys == s.core.users.Keys + {username};
    assert s.handlers[c := me] == s.handlers;
    hide Inv, Sound, Injective, Consistent, Abs, SendToNames, Tell;
  }

  lemma ListSent(users: map<Name, Chan>, p: Packet, out: Outboxes, d: Chan)
    requires forall n :: n in users ==> users[n] in out
    ensures Sent(Tell(users, users.Keys, p, out), d) == Sent(out, d) + if OfUser(users, d) then [p] else []
  {
  }

  // ---------- Session requests ----------

  /** A request for nobody, or for somebody who is a client already, is refused and changes nothing. */
  lemma RefusalOutcome(s: State, c: Chan, target: Name, now: int, d: Chan)
    requires Inv(s) && c in s.handlers && Guard(s, Receive(c, SessionRequest(target), now))
    requires target !in s.core.users || RoleOf(s.core.sessions, target).ClientOf?
    ensures var t := Step(s, Receive(c, SessionRequest(target), now));
            && t.core.users == s.core.users && t.core.sessions == s.core.sessions && t.handlers == s.handlers
            && Sent(t.core.out, d) == Sent(s.core.out, d) +
                 if d != c then []
                 else if target !in s.core.users then [ServerMessage(UserNotFound, false)]
                 else [ServerMessage(UserAlreadyInSession, false)]
  {
    assert Consistent(s, c);
    RequestFound(s.core, s.handlers[c], target, 0);
    assert s.handlers[c := s.handlers[c]] == s.handlers;
    hide Sound;
  }

  /** A request for an idle user makes it a host without params and the requester its client. The requester is told
      that the session starts, and the host that it is asked for. */
  lemma BeginningOutcome(s: State, c: Chan, target: Name, now: int, d: Chan)
    requires Inv(s) && c in s.handlers && Guard(s, Receive(c, SessionRequest(target), now))
    requires target in s.core.users && RoleOf(s.core.sessions, target) == Idle
    ensures var t, self := Step(s, Receive(c, SessionRequest(target), now)), s.handlers[c].selfName;
            && t.core.users == s.core.users && t.handlers == s.handlers
            && (forall n :: RoleOf(t.core.sessions, n)
                            == if n == target then Host else if n == self then ClientOf(target)
                               else RoleOf(s.core.sessions, n))
            && ParamsOf(t.core.sessions, target) == None
            && (forall h :: RoleOf(s.core.sessions, h) == Host ==>
                  ParamsOf(t.core.sessions, h) == ParamsOf(s.core.sessions, h))
            && Sent(t.core.out, d) == Sent(s.core.out, d)
                 + (if d == c then [ServerMessage(SessionStarting, true)] else [])
                 + (if d == s.core.users[target] then [SessionRequest(target)] else [])
  {
    hide Step, RoleOf, ParamsOf, Inv, Abs, Shown, Sound;
    var me, dir := s.handlers[c], Abs(s.core);
    ReceiveShown(s, c, SessionRequest(target), now);
    ChannelIs(s, c);
    RoleIsPublic(s, target);
    BeginningShown(dir, s.core.sessions, Step(s, Receive(c, SessionRequest(target), now)).core.sessions, me, target);
    PushSends(s.core.out, c, ServerMessage(SessionStarting, true), d);
    var told := Push(s.core.out, c, ServerMessage(SessionStarting, true));
    PushSends(told, s.core.users[target], SessionRequest(target), d);
    assert s.handlers[c := me] == s.handlers;
    hide Push;
  }

  lemma ChannelIs(s: State, c: Chan)
    requires Inv(s) && c in s.handlers
    ensures s.handlers[c].chan == c && Abs(s.core).out == s.core.out
  {
    assert Consistent(s, c);
  }

  lemma BeginningShown(d: Directory, ss: seq<Session>, tt: seq<Session>, me: Handler, target: Name)
    requires Shown(d, ss) && Shown(Request(d, me, target).dir, tt)
    requires target in d.users && RoleOf(ss, target) == Idle && me.selfName != target
    ensures forall n :: RoleOf(tt, n)
                        == if n == target then Host else if n == me.selfName then ClientOf(target) else RoleOf(ss, n)
    ensures ParamsOf(tt, target) == None
    ensures forall h :: RoleOf(ss, h) == Host && h != me.selfName ==> ParamsOf(tt, h) == ParamsOf(ss, h)
  {
    hide RoleOf, ParamsOf;
    var d' := Request(d, me, target).dir;
    forall n
      ensures Standing(d', n)
              == if n == target then Host else if n == me.selfName then ClientOf(target) else Standing(d, n)
    {
    }
  }

  /** A request for a host with stored params makes the requester its client, told that the session starts and then
      the params. */
  lemma JoiningOutcome(s: State, c: Chan, target: Name, now: int, d: Chan)
    requires Inv(s) && c in s.handlers && Guard(s, Receive(c, SessionRequest(target), now))
    requires RoleOf(s.core.sessions, target) == Host && ParamsOf(s.core.sessions, target).Some?
    ensures var t, self := Step(s, Receive(c, SessionRequest(target), now)), s.handlers[c].selfName;
            && t.core.users == s.core.users && t.handlers == s.handlers
            && (forall n :: RoleOf(t.core.sessions, n)
                            == if n == self then ClientOf(target) else RoleOf(s.core.sessions, n))
            && (forall h :: RoleOf(s.core.sessions, h) == Host ==>
                  ParamsOf(t.core.sessions, h) == ParamsOf(s.core.sessions, h))
            && Sent(t.core.out, d) == Sent(s.core.out, d) +
                 if d == c then [ServerMessage(SessionStarting, true),
                                 VideoParams(ParamsOf(s.core.sessions, target).value)] else []
  {
    hide Step, RoleOf, ParamsOf, Inv, Abs, Shown, Sound;
    var me, dir := s.handlers[c], Abs(s.core);
    var vp := ParamsOf(s.core.sessions, target).value;
    ReceiveShown(s, c, SessionRequest(target), now);
    ChannelIs(s, c);
    RoleIsPublic(s, target);
    JoiningShown(dir, s.core.sessions, Step(s, Receive(c, SessionRequest(target), now)).core.sessions, me, target);
    PushSends(s.core.out, c, ServerMessage(SessionStarting, true), d);
    PushSends(Push(s.core.out, c, ServerMessage(SessionStarting, true)), c, VideoParams(vp), d);
    assert s.handlers[c := me] == s.handlers;
    hide Push;
  }

  lemma JoiningShown(d: Directory, ss: seq<Session>, tt: seq<Session>, me: Handler, target: Name)
    requires Shown(d, ss) && Shown(Request(d, me, target).dir, tt)
    requires target in d.users && RoleOf(ss, target) == Host && ParamsOf(ss, target).Some?
    requires RoleOf(ss, me.selfName) == Idle
    ensures forall n :: RoleOf(tt, n) == if n == me.selfName then ClientOf(target) else RoleOf(ss, n)
    ensures forall h :: RoleOf(ss, h) == Host ==> ParamsOf(tt, h) == ParamsOf(ss, h)
  {
    hide RoleOf, ParamsOf;
    var d' := Request(d, me, target).dir;
    forall n ensures Standing(d', n) == if n == me.selfName then ClientOf(target) else Standing(d, n) {
    }
  }

  /** A request for a host without params is told that the session starts, and costs the requester its name; the
      host stays one exactly if it has another client. */
  lemma FailureOutcome(s: State, c: Chan, target: Name, now: int, d: Chan)
    requires Inv(s) && c in s.handlers && Guard(s, Receive(c, SessionRequest(target), now))
    requires RoleOf(s.core.sessions, target) == Host && ParamsOf(s.core.sessions, target) == None
    ensures var t, self := Step(s, Receive(c, SessionRequest(target), now)), s.handlers[c].selfName;
            && t.core.users == s.core.users - {self} && t.handlers == s.handlers[c := s.handlers[c].(running := false)]
            && (forall n :: RoleOf(t.core.sessions, n)
                            == if n == target && NoOtherClient(s, target, self) then Idle
                               else RoleOf(s.core.sessions, n))
            && (forall h :: RoleOf(t.core.sessions, h) == Host ==>
                  ParamsOf(t.core.sessions, h) == ParamsOf(s.core.sessions, h))
            && Sent(t.core.out, d)
               == Sent(s.core.out, d) + if d == c then [ServerMessage(SessionStarting, true)] else []
  {
    hide Step, RoleOf, ParamsOf, Inv, Abs, Shown, Sound;
    var me, dir := s.handlers[c], Abs(s.core);
    ReceiveShown(s, c, SessionRequest(target), now);
    ChannelIs(s, c);
    RoleIsPublic(s, target);
    RoleIsPublic(s, me.selfName);
    FailureShown(dir, s.core.sessions, Step(s, Receive(c, SessionRequest(target), now)).core.sessions, me, target);
    PushSends(s.core.out, c, ServerMessage(SessionStarting, true), d);
    hide Push;
  }

  lemma FailureShown(d: Directory, ss: seq<Session>, tt: seq<Session>, me: Handler, target: Name)
    requires Shown(d, ss) && Shown(Remove(Request(d, me, target).dir, me.selfName), tt)
    requires target in d.users && RoleOf(ss, target) == Host && ParamsOf(ss, target) == None
    requires RoleOf(ss, me.selfName) == Idle && me.selfName != "" && me.selfName != target
    ensures forall n :: RoleOf(tt, n)
                        == if n == target && (forall m :: RoleOf(ss, m) == ClientOf(target) ==> m == me.selfName)
                           then Idle else RoleOf(ss, n)
    ensures forall h :: RoleOf(tt, h) == Host ==> ParamsOf(tt, h) == ParamsOf(ss, h)
  {
    hide RoleOf, ParamsOf;
    var self, joined := me.selfName, Request(d, me, target).dir;
    var d' := Remove(joined, self);
    var alone := forall m :: RoleOf(ss, m) == ClientOf(target) ==> m == self;
    assert joined.role == d.role[self := ClientOf(target)];
    assert Standing(joined, self) == ClientOf(target) && self in ClientsOf(joined, target);
    assert ClientsOf(joined, target) == {self} <==> alone by {
      forall m | m != self ensures m in ClientsOf(joined, target) <==> RoleOf(ss, m) == ClientOf(target) {
        assert Standing(d, m) == RoleOf(ss, m);
      }
    }
    forall n ensures Standing(d', n) == if n == target && alone then Idle else RoleOf(ss, n) {
      assert Standing(d, n) == RoleOf(ss, n);
    }
  }

  // ---------- What passes between a host and its clients ----------

  /** Data and params reach each client of the sender once and nobody else; params are stored for its session. */
  lemma MediaOutcome(s: State, c: Chan, p: Packet, now: int, d: Chan)
    requires Inv(s) && c in s.handlers && Guard(s, Receive(c, p, now)) && (p.Data? || p.VideoParams?)
    ensures var t, self := Step(s, Receive(c, p, now)), s.handlers[c].selfName;
            && t.core.users == s.core.users && t.handlers == s.handlers
            && (forall n :: RoleOf(t.core.sessions, n) == RoleOf(s.core.sessions, n))
            && (forall h :: RoleOf(s.core.sessions, h) == Host ==>
                  ParamsOf(t.core.sessions, h)
                  == if p.VideoParams? && h == self then Some(p.params) else ParamsOf(s.core.sessions, h))
            && Sent(t.core.out, d) == Sent(s.core.out, d) + if OfClient(s, self, d) then [p] else []
  {
    hide Step, RoleOf, ParamsOf, Inv, Guard, Abs, Shown, OfClient, Tell;
    var self, dir := s.handlers[c].selfName, Abs(s.core);
    ReceiveShown(s, c, p, now);
    MediaShown(dir, s.core.sessions, Step(s, Receive(c, p, now)).core.sessions, self, p);
    MediaSends(s, self, p, d);
    assert s.handlers[c := s.handlers[c]] == s.handlers;
  }

  lemma MediaSends(s: State, self: Name, p: Packet, d: Chan)
    requires Inv(s) && (p.Data? || p.VideoParams?)
    ensures var dir := if p.Data? then RelayData(Abs(s.core), self, p) else Video(Abs(s.core), self, p.params);
            Sent(dir.out, d) == Sent(s.core.out, d) + if OfClient(s, self, d) then [p] else []
  {
    hide RoleOf, ParamsOf, Tell, Inv;
    TellSends(s, self, p, d);
    RoleIsPublic(s, self);
    if OfClient(s, self, d) { OfHostOnly(s, self, d); }
    hide OfClient;
  }

  lemma MediaShown(d: Directory, ss: seq<Session>, tt: seq<Session>, self: Name, p: Packet)
    requires Shown(d, ss) && (p.Data? || p.VideoParams?)
    requires Shown(if p.Data? then RelayData(d, self, p) else Video(d, self, p.params), tt)
    ensures forall n :: RoleOf(tt, n) == RoleOf(ss, n)
    ensures forall h :: RoleOf(ss, h) == Host ==>
              ParamsOf(tt, h) == if p.VideoParams? && h == self then Some(p.params) else ParamsOf(ss, h)
  {
    hide RoleOf, ParamsOf, ClientsOf, Tell;
    var d' := if p.Data? then RelayData(d, self, p) else Video(d, self, p.params);
    forall n ensures Standing(d', n) == Standing(d, n) {
    }
  }

  lemma OfHostOnly(s: State, h: Name, d: Chan)
    requires Inv(s) && OfClient(s, h, d)
    ensures RoleOf(s.core.sessions, h) == Host
  {
    var n :| n in s.core.users && s.core.users[n] == d && RoleOf(s.core.sessions, n) == ClientOf(h);
    RoleIsPublic(s, n);
  }

  /** Input reaches the sender's host once and nobody else. */
  lemma ControlOutcome(s: State, c: Chan, p: Packet, now: int, d: Chan)
    requires Inv(s) && c in s.handlers && Guard(s, Receive(c, p, now)) && p.ControlInput?
    ensures var t, role := Step(s, Receive(c, p, now)), RoleOf(s.core.sessions, s.handlers[c].selfName);
            && t.core.users == s.core.users && t.core.sessions == s.core.sessions && t.handlers == s.handlers
            && Sent(t.core.out, d) == Sent(s.core.out, d) +
                 if role.ClientOf? && role.host in s.core.users && s.core.users[role.host] == d then [p] else []
  {
    hide RoleOf, ParamsOf, Unique;
    var self := s.handlers[c].selfName;
    ControlFound(s.core, self, p, 0);
    ControlRefines(s.core, self, p);
    AllShown(s);
    InputKeepsTables(s.core, self, p);
    assert s.handlers[c := s.handlers[c]] == s.handlers;
    hide Inv, Sound, Abs, ControlFrom;
  }

  lemma InputKeepsTables(core: Core, self: Name, p: Packet)
    requires Sound(core)
    ensures ControlFrom(core, self, p, 0).core.sessions == core.sessions
  {
    ControlFound(core, self, p, 0);
  }

  /** A host's close makes it and all its clients idle and reaches each client once; a client's makes it alone idle
      and reaches nobody; anybody else's does nothing. The other sessions go on with their params. */
  lemma CloseOutcome(s: State, c: Chan, p: Packet, now: int, d: Chan)
    requires Inv(s) && c in s.handlers && Guard(s, Receive(c, p, now)) && p.SessionClose?
    ensures var t, self := Step(s, Receive(c, p, now)), s.handlers[c].selfName;
            && t.core.users == s.core.users && t.handlers == s.handlers
            && (forall n :: RoleOf(t.core.sessions, n)
                            == if n == self || RoleOf(s.core.sessions, n) == ClientOf(self) then Idle
                               else RoleOf(s.core.sessions, n))
            && (forall h :: RoleOf(s.core.sessions, h) == Host && h != self ==>
                  ParamsOf(t.core.sessions, h) == ParamsOf(s.core.sessions, h))
            && Sent(t.core.out, d) == Sent(s.core.out, d) + if OfClient(s, self, d) then [p] else []
  {
    hide Step, RoleOf, ParamsOf, Inv, Guard, Abs, Shown, OfClient, Tell, Close;
    var self, dir := s.handlers[c].selfName, Abs(s.core);
    ReceiveShown(s, c, p, now);
    HostsOnly(s, self);
    CloseShown(dir, s.core.sessions, Step(s, Receive(c, p, now)).core.sessions, self, p);
    CloseSends(s, self, p, d);
    CloseKeepsUsers(dir, self, p);
    assert s.handlers[c := s.handlers[c]] == s.handlers;
  }

  /** Only hosts have clients. */
  lemma HostsOnly(s: State, h: Name)
    requires Inv(s)
    ensures RoleOf(s.core.sessions, h) != Host ==> forall n :: RoleOf(s.core.sessions, n) != ClientOf(h)
  {
    forall n | RoleOf(s.core.sessions, n) == ClientOf(h) ensures RoleOf(s.core.sessions, h) == Host {
      RoleIsPublic(s, n);
    }
    hide RoleOf, Inv;
  }

  lemma CloseKeepsUsers(d: Directory, self: Name, p: Packet)
    ensures Close(d, self, p).users == d.users
  {
  }

  lemma CloseSends(s: State, self: Name, p: Packet, d: Chan)
    requires Inv(s)
    ensures Sent(Close(Abs(s.core), self, p).out, d)
         == Sent(s.core.out, d) + if OfClient(s, self, d) then [p] else []
  {
    hide RoleOf, ParamsOf, Tell, Inv;
    TellSends(s, self, p, d);
    RoleIsPublic(s, self);
    if OfClient(s, self, d) { OfHostOnly(s, self, d); }
    hide OfClient;
  }

  lemma CloseShown(d: Directory, ss: seq<Session>, tt: seq<Session>, self: Name, p: Packet)
    requires Shown(d, ss) && Shown(Close(d, self, p), tt)
    requires RoleOf(ss, self) != Host ==> forall n :: RoleOf(ss, n) != ClientOf(self)
    ensures forall n :: RoleOf(tt, n) == if n == self || RoleOf(ss, n) == ClientOf(self) then Idle else RoleOf(ss, n)
    ensures forall h :: RoleOf(ss, h) == Host && h != self ==> ParamsOf(tt, h) == ParamsOf(ss, h)
  {
    hide RoleOf, ParamsOf;
    var d' := Close(d, self, p);
    forall n
      ensures Standing(d', n) == if n == self || Standing(d, n) == ClientOf(self) then Idle else Standing(d, n)
    {
    }
  }

  // ---------- Departures ----------

  /** A removal, by exceptionCaught or by a watchdog after more than seven seconds: the name is gone, the clients of
      a departing host are idle and told so, a departing last client takes the session with it, and everybody else
      stays where they are. */
  lemma RemovalOutcome(s: State, c: Chan, e: Event, d: Chan)
    requires Inv(s) && c in s.handlers && s.handlers[c].running
    requires e == ExceptionCaught(c) || (e.Watchdog? && e.chan == c && e.now - s.handlers[c].lastHeartbeat > 7000)
    ensures var t, self := Step(s, e), s.handlers[c].selfName;
            && t.core.users == s.core.users - {self} && t.handlers == s.handlers[c := s.handlers[c].(running := false)]
            && (forall n :: RoleOf(t.core.sessions, n)
                            == if || n == self || RoleOf(s.core.sessions, n) == ClientOf(self)
                                  || (RoleOf(s.core.sessions, self) == ClientOf(n) && NoOtherClient(s, n, self))
                               then Idle else RoleOf(s.core.sessions, n))
            && (forall h :: RoleOf(t.core.sessions, h) == Host ==>
                  ParamsOf(t.core.sessions, h) == ParamsOf(s.core.sessions, h))
            && Sent(t.core.out, d)
               == Sent(s.core.out, d) + if OfClient(s, self, d) then [SessionClose(Some("Host Disconnected"))] else []
  {
    hide RoleOf, ParamsOf, Unique, Remove, RemoveSelf;
    var t, self := Step(s, e), s.handlers[c].selfName;
    RemovalRefines(s, c);
    assert Consistent(s, c);
    RemoveRefines(s.core, s.handlers[c]);
    AllShown(s);
    AllShown(t);
    HostsOnly(s, self);
    if self != "" {
      RemovalSends(s, self, d);
    } else {
      NobodyLeaves(s, d);
    }
    RemovalShown(s, t.core.sessions, self);
    hide Inv, Sound, Abs, Shown, Consistent;
  }

  lemma NobodyLeaves(s: State, d: Chan)
    requires Inv(s)
    ensures !OfClient(s, "", d) && Remove(Abs(s.core), "") == Abs(s.core)
  {
    RoleIsPublic(s, "");
    HostsOnly(s, "");
  }

  lemma RemovalShown(s: State, tt: seq<Session>, self: Name)
    requires Inv(s) && Shown(Abs(s.core), s.core.sessions) && Shown(Remove(Abs(s.core), self), tt)
    requires RoleOf(s.core.sessions, self) != Host ==> forall n :: RoleOf(s.core.sessions, n) != ClientOf(self)
    ensures forall n :: RoleOf(tt, n)
                        == if n == self || RoleOf(s.core.sessions, n) == ClientOf(self) then Idle
                           else if RoleOf(s.core.sessions, self) == ClientOf(n) && NoOtherClient(s, n, self) then Idle
                           else RoleOf(s.core.sessions, n)
    ensures forall h :: RoleOf(tt, h) == Host ==> ParamsOf(tt, h) == ParamsOf(s.core.sessions, h)
  {
    hide RoleOf, ParamsOf;
    var d := Abs(s.core);
    if RoleOf(s.core.sessions, self).ClientOf? { OnlyClient(s, self, RoleOf(s.core.sessions, self).host); }
    if self == "" { RoleIsPublic(s, ""); }
    RemoveShown(d, s.core.sessions, tt, self);
    hide Abs, Inv, Shown, ClientsOf, NoOtherClient;
  }

  lemma OnlyClient(s: State, self: Name, h: Name)
    requires Inv(s) && RoleOf(s.core.sessions, self) == ClientOf(h)
    ensures ClientsOf(Abs(s.core), h) == {self} <==> NoOtherClient(s, h, self)
  {
    hide RoleOf, ParamsOf;
    var d := Abs(s.core);
    AllShown(s);
    forall m ensures m in ClientsOf(d, h) <==> RoleOf(s.core.sessions, m) == ClientOf(h) {
      assert Standing(d, m) == RoleOf(s.core.sessions, m);
    }
    assert self in ClientsOf(d, h);
    hide Abs, Inv;
  }

  lemma RemoveShown(d: Directory, ss: seq<Session>, tt: seq<Session>, self: Name)
    requires Shown(d, ss) && Shown(Remove(d, self), tt) && (self == "" ==> RoleOf(ss, "") == Idle)
    requires RoleOf(ss, self) != Host ==> forall n :: RoleOf(ss, n) != ClientOf(self)
    ensures forall n :: RoleOf(tt, n)
                        == if n == self || RoleOf(ss, n) == ClientOf(self) then Idle
                           else if RoleOf(ss, self) == ClientOf(n) && ClientsOf(d, n) == {self} then Idle
                           else RoleOf(ss, n)
    ensures forall h :: RoleOf(tt, h) == Host ==> ParamsOf(tt, h) == ParamsOf(ss, h)
  {
    hide RoleOf, ParamsOf, Tell;
    var d' := Remove(d, self);
    forall n
      ensures Standing(d', n)
              == if n == self || Standing(d, n) == ClientOf(self) then Idle
                 else if Standing(d, self) == ClientOf(n) && ClientsOf(d, n) == {self} then Idle
                 else Standing(d, n)
    {
      RemoveStanding(d, self, n);
    }
    hide ClientsOf;
  }

  lemma RemoveStanding(d: Directory, self: Name, n: Name)
    requires self == "" ==> Standing(d, self) == Idle
    requires Standing(d, self) != Host ==> forall m :: Standing(d, m) != ClientOf(self)
    ensures Standing(Remove(d, self), n)
            == if n == self || Standing(d, n) == ClientOf(self) then Idle
               else if Standing(d, self) == ClientOf(n) && ClientsOf(d, n) == {self} then Idle
               else Standing(d, n)
  {
    hide Tell;
    var role := Standing(d, self);
    if role.ClientOf? && ClientsOf(d, role.host) == {self} {
      assert Standing(d, n) == ClientOf(role.host) ==> n in ClientsOf(d, role.host);
    }
  }
}
