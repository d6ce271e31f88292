/** Every guarded step keeps the invariant and refines the directory: the scans, early exits and list
    edits of the handlers do exactly what one map from names to roles would do. */
module Refinement {
  import opened Protocol
  import opened SessionRules
  import opened SessionMachine
  import opened SessionInvariant
  import opened Directory

  datatype View = View(dir: Directory, handlers: map<Chan, Handler>)

  ghost function AbsState(s: State): View {
    View(Abs(s.core), s.handlers)
  }

  datatype Reaction = Reaction(dir: Directory, me: Handler)

  ghost function Stopped(d: Directory, me: Handler): Reaction {
    Reaction(Remove(d, me.selfName), me.(running := false))
  }

  ghost function React(d: Directory, me: Handler, p: Packet, now: int): Reaction {
    match p
    case Handshake(magic) => Reaction(if magic == CLIENT_MAGIC then Say(d, me.chan, Handshake(SERVER_MAGIC)) else d, me)
    case NewUser(username) =>
      Reaction(Register(d, me, username), if username in d.users then me else me.(selfName := username))
    case SessionRequest(name) =>
      var a := Request(d, me, name);
      if a.threw then Stopped(a.dir, me) else Reaction(a.dir, me)
    case SessionClose(_) => Reaction(Close(d, me.selfName, p), me)
    case Heartbeat(_) => Reaction(Say(d, me.chan, Heartbeat(now)), me.(lastHeartbeat := now))
    case VideoParams(vp) => Reaction(Video(d, me.selfName, vp), me)
    case Data(_, _, _) => Reaction(RelayData(d, me.selfName, p), me)
    case ControlInput(_) => Reaction(RelayControl(d, me.selfName, p), me)
    case _ => Reaction(d, me)
  }

  ghost function ViewStep(v: View, e: Event): View {
    match e
    case Connect(c, now) =>
      if c in v.handlers then v
      else View(v.dir.(out := v.dir.out[c := Sent(v.dir.out, c)]), v.handlers[c := Handler(c, "", true, now)])
    case Receive(c, p, now) =>
      if c !in v.handlers then v
      else var r := React(v.dir, v.handlers[c], p, now); View(r.dir, v.handlers[c := r.me])
    case Watchdog(c, now) =>
      if c !in v.handlers || !v.handlers[c].running || !ServerTimedOut(now, v.handlers[c].lastHeartbeat) then v
      else var r := Stopped(v.dir, v.handlers[c]); View(r.dir, v.handlers[c := r.me])
    case ExceptionCaught(c) =>
      if c !in v.handlers then v
      else var r := Stopped(v.dir, v.handlers[c]); View(r.dir, v.handlers[c := r.me])
  }

  /** The handler's channel is open, and if it carries a name that name is bound to it. */
  ghost predicate Speaks(core: Core, me: Handler) {
    && me.chan in core.out
    && (me.selfName != "" ==> me.selfName in core.users && core.users[me.selfName] == me.chan)
  }

  // ---------- Handler by handler ----------

  lemma HostAt(core: Core, k: nat)
    requires Sound(core) && k < |core.sessions|
    ensures var h := core.sessions[k].host;
            && h in core.users && Abs(core).role[h] == Host
            && h in Abs(core).params && Abs(core).params[h] == core.sessions[k].params
  {
    assert In(core.sessions[k], core.sessions[k].host);
    RoleAt(core.sessions, core.sessions[k].host, k);
  }

  /** When only n changes between idle and client of this session, the other roles and the params stay. */
  lemma OneMoved(core: Core, k: nat, session: Session, self: Name, role: SessionMachine.Role)
    requires k < |core.sessions| && ReplacedIn(core, k, session) && self in core.users
    requires session.host in Abs(core).params && Abs(core).params[session.host] == session.params
    requires self in session.clients <==> role != Idle
    requires role != Idle ==> role == ClientOf(session.host)
    requires self !in session.clients ==> self in core.sessions[k].clients
    requires forall n :: n != self ==> (n in session.clients <==> n in core.sessions[k].clients)
    requires forall n :: n in core.sessions[k].clients ==> RoleOf(core.sessions, n) == ClientOf(session.host)
    ensures Abs(core.(sessions := core.sessions[k := session])) == Abs(core).(role := Abs(core).role[self := role])
  {
    hide RoleOf, ParamsOf;
    var after := Abs(core.(sessions := core.sessions[k := session]));
    forall n | n in core.users ensures after.role[n] == if n == self then role else RoleOf(core.sessions, n) {
    }
    assert after.role == Abs(core).role[self := role];
  }

  lemma ClientLeft(core: Core, k: nat, self: Name)
    requires Sound(core) && k < |core.sessions| && self in core.sessions[k].clients
    ensures var session := core.sessions[k];
            var core' := core.(sessions := core.sessions[k := session.(clients := RemoveFirst(session.clients, self))]);
            Sound(core') && Abs(core') == Abs(core).(role := Abs(core).role[self := Idle])
  {
    var session := core.sessions[k];
    var left := session.(clients := RemoveFirst(session.clients, self));
    RemoveFirstGone(session.clients, self);
    SessionReplaced(core, k, left, {});
    HostAt(core, k);
    assert In(session, self);
    forall n | n in session.clients ensures RoleOf(core.sessions, n) == ClientOf(session.host) {
      RoleAt(core.sessions, n, k);
    }
    OneMoved(core, k, left, self, Idle);
  }

  lemma ClientJoined(core: Core, k: nat, self: Name)
    requires Sound(core) && k < |core.sessions|
    requires self in core.users && RoleOf(core.sessions, self).Idle?
    ensures var session := core.sessions[k];
            var core' := core.(sessions := core.sessions[k := session.(clients := session.clients + [self])]);
            Sound(core') && Abs(core') == Abs(core).(role := Abs(core).role[self := ClientOf(session.host)])
  {
    hide RoleOf, ParamsOf, Find, RemoveAt, Injective, Abs;
    var session := core.sessions[k];
    var more := session.(clients := session.clients + [self]);
    if In(session, self) { RoleAt(core.sessions, self, k); }
    SessionReplaced(core, k, more, {self});
    HostAt(core, k);
    forall n | n in session.clients ensures RoleOf(core.sessions, n) == ClientOf(session.host) {
      RoleAt(core.sessions, n, k);
    }
    OneMoved(core, k, more, self, ClientOf(session.host));
  }

  lemma NotHosted(core: Core, self: Name)
    requires Sound(core)
    ensures Find(core.sessions, self, 0) == None ==> Standing(Abs(core), self) == Idle
  {
  }

  lemma SelfAt(core: Core, self: Name, k: nat)
    requires Sound(core) && Find(core.sessions, self, 0) == Some(k)
    ensures self in core.users
    ensures Standing(Abs(core), self) == if core.sessions[k].host == self then Host else ClientOf(core.sessions[k].host)
  {
    assert In(core.sessions[k], self);
  }

  lemma HostClosed(core: Core, k: nat, p: Packet)
    requires Sound(core) && k < |core.sessions|
    ensures var session := core.sessions[k];
            var core' := core.(out := Tell(core.users, Names(session.clients), p, core.out),
                               sessions := RemoveAt(core.sessions, k));
            && Sound(core')
            && Abs(core') == Release(TellClients(Abs(core), session.host, p), session.host)
  {
    var told := core.(out := Tell(core.users, Names(core.sessions[k].clients), p, core.out));
    ClientsAre(core, k);
    SessionRemoved(told, k);
  }

  lemma CloseRefines(core: Core, self: Name, p: Packet)
    requires Sound(core)
    ensures var e := CloseFrom(core, self, p, 0, None);
            !e.threw && Sound(e.core) && e.core.users == core.users && Abs(e.core) == Close(Abs(core), self, p)
  {
    CloseFound(core, self, p, 0, None);
    match Find(core.sessions, self, 0) {
      case None => NotHosted(core, self);
      case Some(k) =>
        SelfAt(core, self, k);
        if core.sessions[k].host == self { HostClosed(core, k, p); } else { ClientLeft(core, k, self); }
    }
  }

  lemma VideoRefines(core: Core, self: Name, vp: Params)
    requires Sound(core)
    ensures var e := VideoFrom(core, self, vp, 0);
            !e.threw && Sound(e.core) && e.core.users == core.users && Abs(e.core) == Video(Abs(core), self, vp)
  {
    VideoFound(core, self, vp, 0);
    match Find(core.sessions, self, 0) {
      case None => NotHosted(core, self);
      case Some(k) =>
        SelfAt(core, self, k);
        if core.sessions[k].host == self { VideoStored(core, k, vp); }
    }
  }

  lemma VideoStored(core: Core, k: nat, vp: Params)
    requires Sound(core) && k < |core.sessions|
    ensures var session := core.sessions[k];
            var h := session.host;
            var told := core.(out := Tell(core.users, Names(session.clients), VideoParams(vp), core.out));
            var stored := told.(sessions := core.sessions[k := session.(params := Some(vp))]);
            Sound(stored)
            && Abs(stored) == TellClients(Abs(core), h, VideoParams(vp)).(params := Abs(core).params[h := Some(vp)])
  {
    var session := core.sessions[k];
    var told := core.(out := Tell(core.users, Names(session.clients), VideoParams(vp), core.out));
    var stored := told.(sessions := core.sessions[k := session.(params := Some(vp))]);
    ClientsAre(core, k);
    SessionReplaced(told, k, session.(params := Some(vp)), {});
    forall n | n in core.users ensures Abs(stored).role[n] == Abs(core).role[n] {
      if n in session.clients { assert In(session, n); RoleAt(core.sessions, n, k); }
    }
    assert Abs(stored).role == Abs(core).role;
  }

  lemma DataRefines(core: Core, self: Name, p: Packet)
    requires Sound(core)
    ensures var e := DataFrom(core, self, p, 0);
            !e.threw && Sound(e.core) && e.core.users == core.users && Abs(e.core) == RelayData(Abs(core), self, p)
  {
    DataFound(core, self, p, 0);
    match Find(core.sessions, self, 0) {
      case None => NotHosted(core, self);
      case Some(k) =>
        SelfAt(core, self, k);
        ClientsAre(core, k);
    }
  }

  lemma ControlRefines(core: Core, self: Name, p: Packet)
    requires Sound(core)
    ensures var e := ControlFrom(core, self, p, 0);
            !e.threw && Sound(e.core) && e.core.users == core.users && Abs(e.core) == RelayControl(Abs(core), self, p)
  {
    ControlFound(core, self, p, 0);
    match Find(core.sessions, self, 0) {
      case None => NotHosted(core, self);
      case Some(k) => SelfAt(core, self, k);
    }
  }

  /** The requester's side of Guard: a request that would be granted comes from a registered, idle other user. */
  ghost predicate MayAsk(core: Core, me: Handler, target: Name) {
    target in core.users && !RoleOf(core.sessions, target).ClientOf? ==>
      me.selfName != "" && RoleOf(core.sessions, me.selfName).Idle? && me.selfName != target
  }

  lemma RequestRefines(core: Core, me: Handler, target: Name)
    requires Sound(core) && Speaks(core, me) && MayAsk(core, me, target)
    ensures var e := OnSessionRequest(core, me, target);
            && Answer(Abs(e.core), e.threw) == Request(Abs(core), me, target)
            && Sound(e.core) && e.core.users == core.users
  {
    if target in core.users {
      RequestFound(core, me, target, 0);
      match Find(core.sessions, target, 0) {
        case None => SessionAdded(core, target, me.selfName);
        case Some(k) =>
          SelfAt(core, target, k);
          if core.sessions[k].host == target {
            HostAt(core, k);
            ClientJoined(core, k, me.selfName);
          }
      }
    }
  }

  lemma LeaveRefines(core: Core, self: Name)
    requires Sound(core)
    ensures var e := LeaveFrom(core, self, 0);
            && !e.threw && Sound(e.core) && e.core.users == core.users
            && Abs(e.core) == Leave(Abs(core), self)
  {
    LeaveFound(core, self, 0);
    match Find(core.sessions, self, 0) {
      case None => NotHosted(core, self);
      case Some(k) =>
        SelfAt(core, self, k);
        var session := core.sessions[k];
        if session.host == self {
          SendAllTells(core.users, session.clients, HOST_GONE, core.out);
          HostClosed(core, k, HOST_GONE);
        } else {
          ClientGone(core, k, self);
        }
    }
  }

  lemma ClientGone(core: Core, k: nat, self: Name)
    requires Sound(core) && k < |core.sessions|
    requires core.sessions[k].host != self && self in core.sessions[k].clients
    requires Standing(Abs(core), self) == ClientOf(core.sessions[k].host)
    ensures var e := LeaveFrom(core, self, k);
            && !e.threw && Sound(e.core) && e.core.users == core.users
            && Abs(e.core) == Leave(Abs(core), self)
  {
    var session := core.sessions[k];
    var left := session.(clients := RemoveFirst(session.clients, self));
    var core' := core.(sessions := core.sessions[k := left]);
    ClientLeft(core, k, self);
    ClientsAre(core, k);
    RemoveFirstGone(session.clients, self);
    if left.clients == [] {
      SessionRemoved(core', k);
      ReleaseIgnores(Abs(core), session.host, self);
    } else {
      assert left.clients[0] in Names(session.clients) && left.clients[0] != self;
    }
    LastOrNot(session.clients, self);
    hide RoleOf, ParamsOf, Sound, Find, Release;
  }

  lemma LastOrNot(ns: seq<Name>, n: Name)
    requires NoRepeat(ns) && n in ns
    ensures Names(ns) == {n} <==> RemoveFirst(ns, n) == []
  {
    RemoveFirstGone(ns, n);
    var rest := RemoveFirst(ns, n);
    if rest != [] { assert rest[0] in Names(ns); }
  }

  lemma ReleaseIgnores(d: Directory, h: Name, client: Name)
    requires Standing(d, client) == ClientOf(h)
    ensures Release(d.(role := d.role[client := Idle]), h) == Release(d, h)
  {
  }

  lemma LeaveIdles(d: Directory, self: Name)
    ensures Standing(Leave(d, self), self) == Idle
  {
  }

  lemma UserRemoved(core: Core, self: Name)
    requires Sound(core) && RoleOf(core.sessions, self).Idle?
    ensures var core' := core.(users := core.users - {self});
            Sound(core') && Abs(core') == Abs(core).(users := core.users - {self}, role := Abs(core).role - {self})
  {
    UserForgotten(core, self);
  }

  lemma UserForgotten(core: Core, self: Name)
    requires RoleOf(core.sessions, self).Idle?
    ensures Abs(core.(users := core.users - {self}))
         == Abs(core).(users := core.users - {self}, role := Abs(core).role - {self})
  {
    hide RoleOf, ParamsOf;
    var after := Abs(core.(users := core.users - {self}));
    assert after.role == Abs(core).role - {self};
    assert after.params == Abs(core).params;
  }

  lemma RemoveRefines(core: Core, me: Handler)
    requires Sound(core) && Speaks(core, me)
    ensures var o := RemoveSelf(core, me);
            && !o.threw && Sound(o.core)
            && Reaction(Abs(o.core), o.me) == Stopped(Abs(core), me)
            && o.core.users == core.users - {me.selfName}
  {
    if me.selfName != "" {
      var left := LeaveFrom(core, me.selfName, 0).core;
      LeaveRefines(core, me.selfName);
      LeaveIdles(Abs(core), me.selfName);
      assert Abs(left).role[me.selfName] == Idle;
      UserRemoved(left, me.selfName);
    }
  }

  lemma UserAdded(core: Core, username: Name, c: Chan, out: Outboxes)
    requires username !in core.users && RoleOf(core.sessions, username).Idle?
    ensures var after := Abs(core.(users := core.users[username := c], out := out));
            after == Abs(core).(users := core.users[username := c], role := Abs(core).role[username := Idle],
                out := out)
  {
    hide RoleOf, ParamsOf;
    var after := Abs(core.(users := core.users[username := c], out := out));
    assert after.role == Abs(core).role[username := Idle];
    assert after.params == Abs(core).params;
  }

  lemma RegisterRefines(core: Core, me: Handler, username: Name)
    requires Sound(core) && me.chan in core.out
    requires username !in core.users ==> username != "" && forall n :: n in core.users ==> core.users[n] != me.chan
    ensures var o := OnNewUser(core, me, username);
            && !o.threw && Sound(o.core) && Abs(o.core) == Register(Abs(core), me, username)
            && o.core.users == (if username in core.users then core.users else core.users[username := me.chan])
            && o.me == (if username in core.users then me else me.(selfName := username))
  {
    if username !in core.users {
      var users := core.users[username := me.chan];
      var out := Push(core.out, me.chan, ServerMessage(Success, true));
      SendToNamesTells(users, UserList(users.Keys), out);
      UserAdded(core, username, me.chan, OnNewUser(core, me, username).core.out);
    }
  }

  // ---------- Step by step ----------

  ghost predicate MayReceive(core: Core, me: Handler, p: Packet) {
    && me.running && Speaks(core, me)
    && (p.NewUser? && p.username !in core.users ==>
          p.username != "" && me.selfName == "" && forall n :: n in core.users ==> core.users[n] != me.chan)
    && (p.SessionRequest? ==> MayAsk(core, me, p.name))
  }

  /** How the user map may change in one step of one handler. */
  ghost predicate UsersMoved(users: map<Name, Chan>, me: Handler, users': map<Name, Chan>, me': Handler) {
    && me'.chan == me.chan
    && (me'.running ==>
          || (users' == users && me'.selfName == me.selfName)
          || (me.selfName == "" && me'.selfName != "" && users' == users[me'.selfName := me.chan]
              && me'.selfName !in users))
    && (!me'.running ==> users' == users - {me.selfName} && me'.selfName == me.selfName)
  }

  lemma ReceiveRefines(core: Core, me: Handler, p: Packet, now: int)
    requires Sound(core) && MayReceive(core, me, p)
    ensures var o := Caught(HandlePacket(core, me, p, now));
            && Sound(o.core)
            && Reaction(Abs(o.core), o.me) == React(Abs(core), me, p, now)
            && UsersMoved(core.users, me, o.core.users, o.me)
  {
    hide OnNewUser, OnSessionRequest, CloseFrom, VideoFrom, DataFrom, ControlFrom, RemoveSelf;
    hide Unique, RoleOf, ParamsOf, Register, Request, Close, Video, RelayData, RelayControl, Remove;
    match p
    case NewUser(username) => RegisterRefines(core, me, username);
    case SessionRequest(name) =>
      RequestRefines(core, me, name);
      var e := OnSessionRequest(core, me, name);
      RequestKeepsOutboxes(core, me, name);
      if e.threw { RemoveRefines(e.core, me); }
    case SessionClose(_) => CloseRefines(core, me.selfName, p);
    case VideoParams(vp) => VideoRefines(core, me.selfName, vp);
    case Data(_, _, _) => DataRefines(core, me.selfName, p);
    case ControlInput(_) => ControlRefines(core, me.selfName, p);
    case _ =>
  }

  lemma RequestKeepsOutboxes(core: Core, me: Handler, target: Name)
    ensures core.out.Keys <= OnSessionRequest(core, me, target).core.out.Keys
  {
    if target in core.users { RequestFound(core, me, target, 0); }
  }

  /** Outboxes are never closed. */
  lemma SettledInv(s: State, c: Chan, o: Outcome)
    requires Inv(s) && c in s.handlers && s.handlers[c].running
    requires Sound(o.core) && UsersMoved(s.core.users, s.handlers[c], o.core.users, o.me)
    requires s.core.out.Keys <= o.core.out.Keys
    ensures Inv(Settle(s, c, o))
  {
    var t := Settle(s, c, o);
    assert Consistent(s, c);
    forall d | d in t.handlers ensures Consistent(t, d) {
      assert Consistent(s, d);
      if d != c && s.handlers[d].running && s.handlers[d].selfName != "" {
        assert s.handlers[d].selfName != s.handlers[c].selfName;
      }
    }
    forall n | n in t.core.users ensures Bound(t, n) {
      if n in s.core.users { assert Bound(s, n); }
    }
  }
}
