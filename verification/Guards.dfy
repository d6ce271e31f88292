/** Why clients are assumed to behave: exactly when removals, registrations and requests leave the tables in order. */
module Guards {
  import opened Protocol
  import opened SessionRules
  import opened SessionMachine
  import opened SessionInvariant
  import opened Directory
  import opened OutboxGrowth
  import opened Refinement
  import opened SessionTheorems

  // ---------- What a removal leaves behind ----------

  ghost predicate Forgotten(core: Core, n: Name) {
    n !in core.users && forall i :: 0 <= i < |core.sessions| ==> !In(core.sessions[i], n)
  }

  ghost predicate OnceIn(ns: seq<Name>, n: Name) {
    forall a, b :: 0 <= a < b < |ns| ==> ns[a] != n || ns[b] != n
  }

  ghost predicate InOneSession(ss: seq<Session>, n: Name) {
    forall i, j :: 0 <= i < |ss| && 0 <= j < |ss| && In(ss[i], n) && In(ss[j], n) ==> i == j
  }

  /** What removeSelf needs to do its work: the name is in at most one session, there at most once as a client,
      and as a host only with clients that are registered. */
  ghost predicate Removable(core: Core, n: Name) {
    && n != "" && InOneSession(core.sessions, n)
    && forall i :: 0 <= i < |core.sessions| && In(core.sessions[i], n) ==>
         if core.sessions[i].host == n then forall m :: m in core.sessions[i].clients ==> m in core.users
         else OnceIn(core.sessions[i].clients, n)
  }

  /** With no assumption on the tables: a removal leaves a name that is somewhere nowhere exactly when it is
      removable. */
  lemma RemovalForgetsIff(core: Core, me: Handler)
    requires !Forgotten(core, me.selfName)
    ensures Forgotten(RemoveSelf(core, me).core, me.selfName) <==> Removable(core, me.selfName)
  {
    if me.selfName != "" {
      LeaveFound(core, me.selfName, 0);
      match Find(core.sessions, me.selfName, 0) {
        case None =>
        case Some(k) => LeftNowhereIff(core, me.selfName, k);
      }
      hide LeaveFrom, InOneSession;
    }
  }

  lemma LeftNowhereIff(core: Core, self: Name, k: nat)
    requires k < |core.sessions| && In(core.sessions[k], self)
    ensures var e := LeaveFrom(core, self, k);
            && (e.threw ==> e.core.users == core.users && e.core.sessions == core.sessions)
            && (!e.threw && (forall i :: 0 <= i < |e.core.sessions| ==> !In(e.core.sessions[i], self))
                <==> InOneSession(core.sessions, self)
                     && if core.sessions[k].host == self
                        then forall m :: m in core.sessions[k].clients ==> m in core.users
                        else OnceIn(core.sessions[k].clients, self))
  {
    var session := core.sessions[k];
    var left := session.(clients := RemoveFirst(session.clients, self));
    SendAllThrowsIff(core.users, session.clients, HOST_GONE, core.out);
    RemoveFirstGoneIff(session.clients, self);
    Elsewhere(core.sessions, k, self);
    Elsewhere(core.sessions[k := left], k, self);
    Nowhere(core.sessions, k, left, self);
    hide RemoveAt, SendAll, RemoveFirst, OnceIn, InOneSession;
  }

  lemma Nowhere(ss: seq<Session>, k: nat, left: Session, n: Name)
    requires k < |ss| && In(ss[k], n)
    ensures InOneSession(ss, n) <==> forall i :: 0 <= i < |ss| && i != k ==> !In(ss[i], n)
    ensures var tt := ss[k := left];
            (forall i :: 0 <= i < |tt| ==> !In(tt[i], n)) <==> InOneSession(ss, n) && !In(left, n)
  {
    var tt := ss[k := left];
    assert forall i :: 0 <= i < |ss| ==> tt[i] == if i == k then left else ss[i];
  }

  lemma {:induction false} SendAllThrowsIff(users: map<Name, Chan>, names: seq<Name>, p: Packet, out: Outboxes)
    ensures SendAll(users, names, p, out).threw <==> exists m :: m in names && m !in users
  {
    if names != [] {
      assert names == [names[0]] + names[1..];
      if names[0] in users { SendAllThrowsIff(users, names[1..], p, Push(out, users[names[0]], p)); }
    }
  }

  /** The names before the first that is not registered are served, and nobody after it. */
  lemma {:induction false} SendAllStops(users: map<Name, Chan>, a: seq<Name>, n: Name, b: seq<Name>, p: Packet,
                                        out: Outboxes)
    requires n !in users && forall m :: m in a ==> m in users
    ensures SendAll(users, a + [n] + b, p, out) == Delivery(SendAll(users, a, p, out).out, true)
  {
    var all := a + [n] + b;
    if a == [] {
      assert all[0] == n;
    } else {
      assert all[0] == a[0] && all[1..] == a[1..] + [n] + b;
      SendAllStops(users, a[1..], n, b, p, Push(out, users[a[0]], p));
    }
  }

  lemma {:induction false} RemoveFirstGoneIff(ns: seq<Name>, n: Name)
    ensures n !in RemoveFirst(ns, n) <==> OnceIn(ns, n)
  {
    if ns != [] {
      var rest := ns[1..];
      assert forall i :: 0 <= i < |rest| ==> rest[i] == ns[i + 1];
      if ns[0] == n {
        assert n in rest ==> exists i :: 0 <= i < |rest| && rest[i] == n;
      } else {
        RemoveFirstGoneIff(rest, n);
        assert OnceIn(ns, n) <==> OnceIn(rest, n);
      }
    }
  }

  lemma Elsewhere(ss: seq<Session>, k: nat, n: Name)
    requires k < |ss|
    ensures (forall i :: 0 <= i < |RemoveAt(ss, k)| ==> !In(RemoveAt(ss, k)[i], n))
       <==> forall i :: 0 <= i < |ss| && i != k ==> !In(ss[i], n)
  {
    var tt := RemoveAt(ss, k);
    if j :| 0 <= j < |ss| && j != k && In(ss[j], n) {
      assert tt[if j < k then j else j - 1] == ss[j];
    } else {
      forall i | 0 <= i < |tt| ensures !In(tt[i], n) {
        assert tt[i] == ss[if i < k then i else i + 1];
      }
    }
  }

  /** A second registration leaves the first name behind, bound to a connection that is gone. */
  lemma SecondNameDangles(s: State, c: Chan, username: Name, now: int)
    requires Inv(s) && c in s.handlers && s.handlers[c].running && s.handlers[c].selfName != ""
    requires username !in s.core.users && username != ""
    ensures var t := Step(Step(s, Receive(c, NewUser(username), now)), ExceptionCaught(c));
            var first := s.handlers[c].selfName;
            first in t.core.users && t.core.users[first] == c && !t.handlers[c].running
  {
    assert Consistent(s, c);
    var u := Step(s, Receive(c, NewUser(username), now));
    LeaveFound(u.core, username, 0);
  }

  /** Removing a connection a second time keeps the invariant exactly when nobody has its name. */
  lemma SecondRemovalKeepsInvIff(s: State, c: Chan)
    requires Inv(s) && c in s.handlers && !s.handlers[c].running
    ensures Inv(Step(s, ExceptionCaught(c))) <==> s.handlers[c].selfName !in s.core.users
  {
    var n := s.handlers[c].selfName;
    if n !in s.core.users {
      GoneAlready(s, c);
    } else {
      assert Bound(s, n);
      LeaveRefines(s.core, n);
      var d, t := s.core.users[n], Step(s, ExceptionCaught(c));
      assert d in t.handlers && t.handlers[d].running && t.handlers[d].selfName == n && n !in t.core.users;
      assert !Consistent(t, d);
    }
    hide Sound, LeaveFrom;
  }

  /** A registration that the server accepts keeps the invariant exactly when it is the connection's first and
      under a nonempty name. */
  lemma RegistrationKeepsInvIff(s: State, c: Chan, username: Name, now: int)
    requires Inv(s) && c in s.handlers && s.handlers[c].running && username !in s.core.users
    ensures Inv(Step(s, Receive(c, NewUser(username), now))) <==> s.handlers[c].selfName == "" && username != ""
  {
    var e := Receive(c, NewUser(username), now);
    var first := s.handlers[c].selfName;
    assert Consistent(s, c);
    if first == "" && username != "" {
      StepRefines(s, e);
    } else {
      var t := Step(s, e);
      assert username in t.core.users && t.handlers[c].selfName == username;
      assert first != "" ==> first in t.core.users && t.core.users[first] == c && !Bound(t, first);
    }
    hide Unique, Injective;
  }

  /** A request from a registered user keeps names unique exactly when it is refused, or comes from an
      idle user who names somebody else. */
  lemma RequestKeepsUniqueIff(core: Core, me: Handler, target: Name)
    requires Sound(core)
    ensures var refused := target !in core.users || RoleOf(core.sessions, target).ClientOf?;
            Unique(OnSessionRequest(core, me, target).core.sessions)
            <==> refused || (RoleOf(core.sessions, me.selfName).Idle? && me.selfName != target)
  {
    var ss, self := core.sessions, me.selfName;
    var ss' := OnSessionRequest(core, me, target).core.sessions;
    if target in core.users {
      RequestFound(core, me, target, 0);
      match Find(ss, target, 0) {
        case None =>
          assert ss'[|ss|] == Session(target, [self], None);
          assert In(ss'[|ss|], self) && In(ss'[|ss|], target);
          match Find(ss, self, 0) {
            case None => if self != target { AddedUnique(ss, target, self); }
            case Some(i) => assert ss'[i] == ss[i];
          }
        case Some(k) =>
          if ss[k].host == target {
            var more := ss[k].(clients := ss[k].clients + [self]);
            assert ss' == ss[k := more] && ss'[k] == more && self in more.clients && In(more, self);
            match Find(ss, self, 0) {
              case None => ReplacedUnique(ss, k, more, {self});
              case Some(i) =>
                if i == k {
                  assert In(ss[k], self);
                  RepeatedClient(ss[k], self);
                } else {
                  assert ss'[i] == ss[i];
                }
            }
          }
      }
    }
  }

  /** What a request leaves behind, before any exception is caught, is sound exactly when the guard holds: the
      request is refused, or comes from a registered, idle user who names somebody else. */
  lemma RequestKeepsSoundIff(core: Core, me: Handler, target: Name)
    requires Sound(core) && Speaks(core, me)
    ensures Sound(OnSessionRequest(core, me, target).core) <==> MayAsk(core, me, target)
  {
    if MayAsk(core, me, target) {
      RequestRefines(core, me, target);
    } else {
      RequestKeepsUniqueIff(core, me, target);
      if me.selfName == "" { StrangerJoins(core, me, target); }
    }
    hide Unique, RoleOf, OnSessionRequest, Injective, MembersRegistered;
  }

  /** A request that is granted to a connection whose name is no user's makes a member that is not registered. */
  lemma StrangerJoins(core: Core, me: Handler, target: Name)
    requires Sound(core) && me.selfName !in core.users
    requires target in core.users && !RoleOf(core.sessions, target).ClientOf?
    ensures !MembersRegistered(OnSessionRequest(core, me, target).core)
  {
    RequestFound(core, me, target, 0);
    var core', self := OnSessionRequest(core, me, target).core, me.selfName;
    var ss' := core'.sessions;
    assert self !in core'.users;
    match Find(core.sessions, target, 0) {
      case None =>
        assert ss'[|core.sessions|] == Session(target, [self], None);
        assert In(ss'[|core.sessions|], self);
      case Some(k) =>
        var clients := core.sessions[k].clients;
        assert ss'[k].clients == clients + [self] && (clients + [self])[|clients|] == self;
        assert k < |ss'| && In(ss'[k], self);
    }
  }

  // ---------- Requests, with the exception they may end in ----------

  /** The one failing request: a join of a session whose params are not there. */
  ghost predicate Fails(core: Core, target: Name) {
    target in core.users && RoleOf(core.sessions, target) == Host && ParamsOf(core.sessions, target) == None
  }

  /** The tables at the moment the exception is thrown. */
  ghost function Joined(core: Core, me: Handler, k: nat): Core
    requires k < |core.sessions|
  {
    var session := core.sessions[k];
    core.(sessions := core.sessions[k := session.(clients := session.clients + [me.selfName])],
          out := Push(core.out, me.chan, ServerMessage(SessionStarting, true)))
  }

  lemma RequestFailsIff(core: Core, me: Handler, target: Name)
    ensures var e := OnSessionRequest(core, me, target);
            && (e.threw <==> Fails(core, target))
            && (e.threw ==> var k := Find(core.sessions, target, 0);
                            k.Some? && core.sessions[k.value].host == target && e.core == Joined(core, me, k.value))
  {
    RequestFound(core, me, target, 0);
  }

  lemma {:induction false} SendAllKeepsOutboxes(users: map<Name, Chan>, names: seq<Name>, p: Packet, out: Outboxes)
    ensures out.Keys <= SendAll(users, names, p, out).out.Keys
  {
    if names != [] && names[0] in users {
      SendAllKeepsOutboxes(users, names[1..], p, Push(out, users[names[0]], p));
    }
  }

  lemma MoreOutboxes(core: Core, out: Outboxes)
    requires Sound(core) && core.out.Keys <= out.Keys
    ensures Sound(core.(out := out))
  {
  }

  /** A host that asks for its own session, without params yet, loses both session and name. */
  lemma OwnSessionEnds(core: Core, me: Handler, k: nat)
    requires Sound(core) && Speaks(core, me) && me.selfName != ""
    requires k < |core.sessions| && core.sessions[k].host == me.selfName
    ensures var o := RemoveSelf(Joined(core, me, k), me);
            && !o.threw && Sound(o.core) && o.core.users == core.users - {me.selfName}
            && core.out.Keys <= o.core.out.Keys
  {
    var self, joined := me.selfName, Joined(core, me, k);
    var gone := core.(sessions := RemoveAt(core.sessions, k));
    FoundAt(core.sessions, k, joined.sessions[k], self);
    LeaveFound(joined, self, 0);
    SendAllThrowsIff(core.users, joined.sessions[k].clients, HOST_GONE, joined.out);
    SendAllKeepsOutboxes(core.users, joined.sessions[k].clients, HOST_GONE, joined.out);
    assert RemoveAt(joined.sessions, k) == gone.sessions;
    forall m | m in joined.sessions[k].clients ensures m in core.users {
      assert m == self || In(core.sessions[k], m);
    }
    SessionRemoved(core, k);
    IdleAfter(core, k, self);
    UserRemoved(gone, self);
    MoreOutboxes(gone.(users := core.users - {self}), LeaveFrom(joined, self, k).core.out);
    hide Sound, Abs, SendAll, RoleOf, Find, RemoveAt;
  }

  lemma IdleAfter(core: Core, k: nat, n: Name)
    requires Sound(core) && k < |core.sessions| && core.sessions[k].host == n
    ensures RoleOf(RemoveAt(core.sessions, k), n) == Idle
  {
    RemovedUnique(core.sessions, k);
    RemovedRole(core.sessions, k, n);
  }

  lemma FoundAt(ss: seq<Session>, k: nat, session: Session, n: Name)
    requires Unique(ss) && k < |ss| && In(ss[k], n) && In(session, n)
    ensures Find(ss[k := session], n, 0) == Some(k)
  {
    var tt := ss[k := session];
    assert In(tt[k], n);
    assert forall i :: 0 <= i < |ss| && i != k ==> tt[i] == ss[i];
  }

  /** Somebody in a session who joins another, or the same once more, is not removed from both. */
  lemma JoinedTwice(core: Core, me: Handler, k: nat)
    requires Sound(core) && k < |core.sessions| && core.sessions[k].host != me.selfName
    requires !RoleOf(core.sessions, me.selfName).Idle?
    ensures !Removable(Joined(core, me, k), me.selfName)
  {
    var self, joined := me.selfName, Joined(core, me, k);
    var j := Find(core.sessions, self, 0).value;
    var clients := core.sessions[k].clients;
    assert joined.sessions[k].clients[|clients|] == self && In(joined.sessions[k], self);
    if j == k {
      var i :| 0 <= i < |clients| && clients[i] == self;
      assert joined.sessions[k].clients[i] == self;
    } else {
      assert joined.sessions[j] == core.sessions[j];
    }
    hide Sound, Unique, RoleOf;
  }

  /** A removal that leaves the name somewhere breaks the invariant: either the name is bound to a stopped handler,
      or it is a member and no user. */
  lemma HalfGone(s: State, c: Chan, o: Outcome)
    requires c in s.handlers && !o.me.running
    requires var n := s.handlers[c].selfName;
             !Forgotten(o.core, n) && (n in o.core.users ==> o.core.users[n] == c)
    ensures !Inv(Settle(s, c, o))
  {
    var n, t := s.handlers[c].selfName, Settle(s, c, o);
    if n in o.core.users {
      assert !Bound(t, n);
    } else {
      assert !MembersRegistered(t.core);
    }
    hide Sound, Unique;
  }

  /** A request, with the removal that follows if it fails, keeps the invariant exactly when it obeys its guard or
      is a host's request for its own session before the params are there, which costs the host its name. */
  lemma RequestKeepsInvIff(s: State, c: Chan, target: Name, now: int)
    requires Inv(s) && c in s.handlers && s.handlers[c].running
    ensures var me := s.handlers[c];
            Inv(Step(s, Receive(c, SessionRequest(target), now)))
            <==> MayAsk(s.core, me, target) || (me.selfName != "" && me.selfName == target && Fails(s.core, target))
  {
    var me := s.handlers[c];
    assert Consistent(s, c);
    if MayAsk(s.core, me, target) {
      StepRefines(s, Receive(c, SessionRequest(target), now));
    } else {
      RequestFailsIff(s.core, me, target);
      RequestKeepsSoundIff(s.core, me, target);
      if Fails(s.core, target) { FailedRequest(s, c, target); }
    }
    hide Sound, OnSessionRequest, Fails, MayAsk, RemoveSelf, Consistent, Bound;
  }

  lemma FailedRequest(s: State, c: Chan, target: Name)
    requires Inv(s) && c in s.handlers && s.handlers[c].running
    requires !MayAsk(s.core, s.handlers[c], target) && Fails(s.core, target)
    ensures var me := s.handlers[c];
            Inv(Settle(s, c, RemoveSelf(OnSessionRequest(s.core, me, target).core, me)))
            <==> me.selfName != "" && me.selfName == target
  {
    var me := s.handlers[c];
    var k := Find(s.core.sessions, target, 0).value;
    var joined := OnSessionRequest(s.core, me, target).core;
    var o := RemoveSelf(joined, me);
    assert Consistent(s, c);
    RequestFailsIff(s.core, me, target);
    if me.selfName == "" {
      StrangerJoins(s.core, me, target);
    } else if me.selfName == target {
      OwnSessionEnds(s.core, me, k);
      SettledInv(s, c, o);
    } else {
      JoinedTwice(s.core, me, k);
      RemovalForgetsIff(joined, me);
      RemovalQuiet(joined, me);
      HalfGone(s, c, o);
    }
    hide OnSessionRequest, LeaveFrom, Unique, RoleOf, ParamsOf, Injective;
  }

  // ---------- Connections that are gone ----------

  /** Which packets of a removed connection do no harm. */
  ghost predicate Harmless(core: Core, me: Handler, p: Packet) {
    match p
    case NewUser(username) => username in core.users
    case SessionRequest(target) =>
      || target !in core.users || RoleOf(core.sessions, target).ClientOf?
      || if Fails(core, target) then me.selfName != "" && me.selfName !in core.users
         else me.selfName in core.users && RoleOf(core.sessions, me.selfName).Idle? && me.selfName != target
    case _ => true
  }

  lemma StoppedStays(s: State, c: Chan, o: Outcome)
    requires Inv(s) && c in s.handlers && !s.handlers[c].running
    requires Sound(o.core) && o.core.users == s.core.users && s.core.out.Keys <= o.core.out.Keys
    requires o.me.chan == s.handlers[c].chan && !o.me.running
    ensures Inv(Settle(s, c, o))
  {
    var t := Settle(s, c, o);
    assert Consistent(s, c);
    forall d | d in t.handlers ensures Consistent(t, d) {
      assert Consistent(s, d);
    }
    forall n | n in t.core.users ensures Bound(t, n) {
      assert Bound(s, n);
    }
    hide Sound;
  }

  lemma GrantedSound(core: Core, me: Handler, target: Name)
    requires Sound(core) && target in core.users && !RoleOf(core.sessions, target).ClientOf? && !Fails(core, target)
    requires me.selfName in core.users && RoleOf(core.sessions, me.selfName).Idle? && me.selfName != target
    ensures Sound(OnSessionRequest(core, me, target).core)
  {
    var e := OnSessionRequest(core, me, target);
    RequestFound(core, me, target, 0);
    match Find(core.sessions, target, 0) {
      case None =>
        SessionAdded(core, target, me.selfName);
        MoreOutboxes(core.(sessions := e.core.sessions), e.core.out);
      case Some(k) =>
        ClientJoined(core, k, me.selfName);
        MoreOutboxes(core.(sessions := e.core.sessions), e.core.out);
    }
    hide Sound, RoleOf;
  }

  /** A failing request of a stranger with a name undoes itself, and ends a session that nobody else is a client of. */
  lemma StrangerLeaves(core: Core, me: Handler, k: nat)
    requires Sound(core) && k < |core.sessions| && me.selfName != "" && me.selfName !in core.users
    ensures var o := RemoveSelf(Joined(core, me, k), me);
            && !o.threw && Sound(o.core) && o.core.users == core.users && core.out.Keys <= o.core.out.Keys
  {
    var self, joined, clients := me.selfName, Joined(core, me, k), core.sessions[k].clients;
    assert In(core.sessions[k], core.sessions[k].host);
    assert forall i :: 0 <= i < |core.sessions| ==> !In(core.sessions[i], self);
    assert joined.sessions[k].clients[|clients|] == self && In(joined.sessions[k], self);
    FindOnly(joined.sessions, self, k);
    LeaveFound(joined, self, 0);
    RemoveAppended(clients, self);
    assert joined.sessions[k := core.sessions[k]] == core.sessions && core.users - {self} == core.users;
    SessionRemoved(core, k);
    MoreOutboxes(core, joined.out);
    MoreOutboxes(core.(sessions := RemoveAt(core.sessions, k)), joined.out);
    hide Sound, Abs, Find, RemoveAt, RemoveFirst;
  }

  lemma FindOnly(ss: seq<Session>, n: Name, k: nat)
    requires k < |ss| && In(ss[k], n) && forall i :: 0 <= i < k ==> !In(ss[i], n)
    ensures Find(ss, n, 0) == Some(k)
  {
  }

  lemma {:induction false} RemoveAppended(ns: seq<Name>, n: Name)
    requires n !in ns
    ensures RemoveFirst(ns + [n], n) == ns
  {
    if ns != [] {
      assert (ns + [n])[1..] == ns[1..] + [n];
      RemoveAppended(ns[1..], n);
    }
  }

  /** A failing request under a name that is somebody else's by now takes the name away from its new holder. */
  lemma NameTakenAway(core: Core, me: Handler, k: nat)
    requires Sound(core) && k < |core.sessions| && me.selfName in core.users
    ensures me.selfName !in RemoveSelf(Joined(core, me, k), me).core.users
  {
    var self, joined := me.selfName, Joined(core, me, k);
    LeaveFound(joined, self, 0);
    match Find(joined.sessions, self, 0) {
      case None =>
      case Some(j) =>
        SendAllThrowsIff(joined.users, joined.sessions[j].clients, HOST_GONE, joined.out);
        forall m | m in joined.sessions[j].clients ensures m in core.users {
          assert m == self || In(core.sessions[j], m);
        }
    }
    hide Unique, RemoveFirst, SendAll;
  }

  /** A packet from a removed connection keeps the invariant exactly when it is harmless. */
  lemma StoppedKeepsInvIff(s: State, c: Chan, p: Packet, now: int)
    requires Inv(s) && c in s.handlers && !s.handlers[c].running
    ensures Inv(Step(s, Receive(c, p, now))) <==> Harmless(s.core, s.handlers[c], p)
  {
    var me := s.handlers[c];
    assert Consistent(s, c);
    if p.SessionRequest? {
      StoppedRequest(s, c, p.name);
    } else if p.NewUser? && p.username !in s.core.users {
      assert !Bound(Step(s, Receive(c, p, now)), p.username);
    } else {
      StoppedOthers(s.core, me, p, now);
      StoppedStays(s, c, HandlePacket(s.core, me, p, now));
    }
    hide Sound, OnSessionRequest, CloseFrom, VideoFrom, DataFrom, ControlFrom, RemoveSelf, RoleOf;
  }

  lemma StoppedOthers(core: Core, me: Handler, p: Packet, now: int)
    requires Sound(core) && !p.SessionRequest? && (p.NewUser? ==> p.username in core.users)
    ensures var o := HandlePacket(core, me, p, now);
            && !o.threw && Sound(o.core) && o.core.users == core.users && core.out.Keys <= o.core.out.Keys
            && o.me.chan == me.chan && o.me.running == me.running
  {
    hide Unique, CloseFrom, VideoFrom, DataFrom, ControlFrom, RoleOf, ParamsOf, SendToNames;
    ReactionKeepsOutboxes(Abs(core), me, p, now);
    match p
    case SessionClose(_) => CloseRefines(core, me.selfName, p);
    case VideoParams(vp) => VideoRefines(core, me.selfName, vp);
    case Data(_, _, _) => DataRefines(core, me.selfName, p);
    case ControlInput(_) => ControlRefines(core, me.selfName, p);
    case _ => MoreOutboxes(core, HandlePacket(core, me, p, now).core.out);
  }

  lemma StoppedRequest(s: State, c: Chan, target: Name)
    requires Inv(s) && c in s.handlers && !s.handlers[c].running
    ensures var me := s.handlers[c];
            var e := OnSessionRequest(s.core, me, target);
            Inv(Settle(s, c, Caught(Outcome(e.core, me, e.threw)))) <==> Harmless(s.core, me, SessionRequest(target))
  {
    var me := s.handlers[c];
    var e := OnSessionRequest(s.core, me, target);
    RequestFailsIff(s.core, me, target);
    RequestKeepsOutboxes(s.core, me, target);
    if target !in s.core.users || RoleOf(s.core.sessions, target).ClientOf? {
      RequestFound(s.core, me, target, 0);
      MoreOutboxes(s.core, e.core.out);
      StoppedStays(s, c, Outcome(e.core, me, false));
    } else if Fails(s.core, target) {
      StoppedFailure(s, c, target);
    } else {
      RequestQuiet(s.core, me, target);
      RequestKeepsUniqueIff(s.core, me, target);
      if me.selfName !in s.core.users {
        StrangerJoins(s.core, me, target);
      } else if RoleOf(s.core.sessions, me.selfName).Idle? && me.selfName != target {
        GrantedSound(s.core, me, target);
        StoppedStays(s, c, Outcome(e.core, me, false));
      }
    }
    hide RoleOf, ParamsOf, Unique, Injective, RemoveSelf, RequestFrom;
  }

  lemma StoppedFailure(s: State, c: Chan, target: Name)
    requires Inv(s) && c in s.handlers && !s.handlers[c].running && Fails(s.core, target)
    ensures var me := s.handlers[c];
            Inv(Settle(s, c, RemoveSelf(OnSessionRequest(s.core, me, target).core, me)))
            <==> me.selfName != "" && me.selfName !in s.core.users
  {
    var me := s.handlers[c];
    var k := Find(s.core.sessions, target, 0).value;
    var joined := OnSessionRequest(s.core, me, target).core;
    var o := RemoveSelf(joined, me);
    RequestFailsIff(s.core, me, target);
    if me.selfName == "" {
      StrangerJoins(s.core, me, target);
    } else if me.selfName !in s.core.users {
      StrangerLeaves(s.core, me, k);
      StoppedStays(s, c, o);
    } else {
      NameTakenAway(s.core, me, k);
      assert Bound(s, me.selfName);
      assert !Consistent(Settle(s, c, o), s.core.users[me.selfName]);
    }
    hide OnSessionRequest, LeaveFrom, Unique, Injective, RoleOf, ParamsOf;
  }

  lemma RepeatedClient(session: Session, n: Name)
    requires In(session, n)
    ensures var more := session.(clients := session.clients + [n]);
            more.host in more.clients || !NoRepeat(more.clients)
  {
    if session.host == n {
      assert n in session.clients + [n];
    } else {
      var i :| 0 <= i < |session.clients| && session.clients[i] == n;
      var more := session.clients + [n];
      assert more[i] == more[|session.clients|];
    }
  }
}
