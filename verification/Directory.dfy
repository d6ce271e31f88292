/** The simple machine the distributor is meant to be: one map from names to roles, one entry of stored
    video params per host. The list-scanning handlers refine it. */
module Directory {
  import opened Protocol
  import opened SessionRules
  import opened SessionMachine
  import opened SessionInvariant

  datatype Directory = Directory(
    users: map<Name, Chan>, role: map<Name, Role>, params: map<Name, Option<Params>>, out: Outboxes)

  datatype Answer = Answer(dir: Directory, threw: bool)

  ghost function Standing(d: Directory, n: Name): Role {
    if n in d.role then d.role[n] else Idle
  }

  ghost function ClientsOf(d: Directory, h: Name): set<Name> {
    set n | n in d.role && d.role[n] == ClientOf(h)
  }

  ghost function Say(d: Directory, c: Chan, p: Packet): Directory {
    d.(out := Push(d.out, c, p))
  }

  ghost function TellClients(d: Directory, h: Name, p: Packet): Directory {
    d.(out := Tell(d.users, ClientsOf(d, h), p, d.out))
  }

  /** Ends the session h hosts: h and all its clients become idle. */
  ghost function Release(d: Directory, h: Name): Directory {
    d.(role := map n | n in d.role :: if n == h || d.role[n] == ClientOf(h) then Idle else d.role[n],
       params := d.params - {h})
  }

  ghost function Register(d: Directory, me: Handler, username: Name): Directory {
    if username in d.users then Say(d, me.chan, ServerMessage(NameTaken, false))
    else
      var users := d.users[username := me.chan];
      var welcomed := Say(d, me.chan, ServerMessage(Success, true));
      welcomed.(users := users, role := d.role[username := Idle],
                out := Tell(users, users.Keys, UserList(users.Keys), welcomed.out))
  }

  ghost function Request(d: Directory, me: Handler, target: Name): Answer {
    var starting := Say(d, me.chan, ServerMessage(SessionStarting, true));
    var joined := starting.(role := d.role[me.selfName := ClientOf(target)]);
    if target !in d.users then Answer(Say(d, me.chan, ServerMessage(UserNotFound, false)), false)
    else match Standing(d, target)
      case ClientOf(_) => Answer(Say(d, me.chan, ServerMessage(UserAlreadyInSession, false)), false)
      case Idle =>
        var begun := joined.(role := joined.role[target := Host], params := d.params[target := None]);
        Answer(Say(begun, d.users[target], SessionRequest(target)), false)
      case Host =>
        if target in d.params && d.params[target].Some? then
          Answer(Say(joined, me.chan, VideoParams(d.params[target].value)), false)
        else Answer(joined, true)
  }

  ghost function Close(d: Directory, self: Name, p: Packet): Directory {
    match Standing(d, self)
    case Idle => d
    case Host => Release(TellClients(d, self, p), self)
    case ClientOf(_) => d.(role := d.role[self := Idle])
  }

  ghost function Video(d: Directory, self: Name, vp: Params): Directory {
    if Standing(d, self).Host? then TellClients(d, self, VideoParams(vp)).(params := d.params[self := Some(vp)]) else d
  }

  ghost function RelayData(d: Directory, self: Name, p: Packet): Directory {
    if Standing(d, self).Host? then TellClients(d, self, p) else d
  }

  ghost function RelayControl(d: Directory, self: Name, p: Packet): Directory {
    match Standing(d, self)
    case ClientOf(h) => if h in d.users then Say(d, d.users[h], p) else d
    case _ => d
  }

  /** A departing last client takes the session with it; the host is not told. */
  ghost function Leave(d: Directory, self: Name): Directory {
    match Standing(d, self)
    case Idle => d
    case Host => Release(TellClients(d, self, HOST_GONE), self)
    case ClientOf(h) => if ClientsOf(d, h) == {self} then Release(d, h) else d.(role := d.role[self := Idle])
  }

  ghost function Remove(d: Directory, self: Name): Directory {
    if self == "" then d
    else
      var left := Leave(d, self);
      left.(users := left.users - {self}, role := left.role - {self})
  }

  // ---------- Abstraction ----------

  ghost function ParamsOf(ss: seq<Session>, h: Name): Option<Params> {
    match Find(ss, h, 0)
    case None => None
    case Some(i) => ss[i].params
  }

  ghost function Abs(core: Core): Directory {
    Directory(core.users,
              map n | n in core.users :: RoleOf(core.sessions, n),
              map n | n in core.users && RoleOf(core.sessions, n).Host? :: ParamsOf(core.sessions, n),
              core.out)
  }

  lemma RoleAt(ss: seq<Session>, n: Name, k: nat)
    requires Unique(ss) && k < |ss| && In(ss[k], n)
    ensures RoleOf(ss, n) == if ss[k].host == n then Host else ClientOf(ss[k].host)
    ensures ParamsOf(ss, n) == ss[k].params
  {
    FindUnique(ss, n, 0, k);
  }

  /** Roles do not depend on the order of the session list. */
  lemma RoleIgnoresOrder(ss: seq<Session>, tt: seq<Session>, n: Name)
    requires Unique(ss) && Unique(tt) && multiset(ss) == multiset(tt)
    ensures RoleOf(ss, n) == RoleOf(tt, n) && ParamsOf(ss, n) == ParamsOf(tt, n)
  {
    match Find(ss, n, 0) {
      case Some(i) =>
        assert ss[i] in multiset(tt);
        var j :| 0 <= j < |tt| && tt[j] == ss[i];
        RoleAt(tt, n, j);
      case None =>
        forall j | 0 <= j < |tt| ensures !In(tt[j], n) {
          assert tt[j] in multiset(ss);
        }
        FindNothing(tt, n, 0);
    }
  }

  lemma ClientsAre(core: Core, k: nat)
    requires Sound(core) && k < |core.sessions|
    ensures ClientsOf(Abs(core), core.sessions[k].host) == Names(core.sessions[k].clients)
  {
    var ss, h := core.sessions, core.sessions[k].host;
    assert In(ss[k], h);
    forall n ensures n in ClientsOf(Abs(core), h) <==> n in Names(ss[k].clients) {
      if n in ClientsOf(Abs(core), h) {
        var i := Find(ss, n, 0).value;
        assert In(ss[i], h);
      }
      if n in ss[k].clients {
        assert In(ss[k], n);
        RoleAt(ss, n, k);
      }
    }
  }

  // ---------- List surgery ----------

  lemma {:induction false} RemoveFirstGone(ns: seq<Name>, n: Name)
    requires NoRepeat(ns)
    ensures NoRepeat(RemoveFirst(ns, n))
    ensures forall m :: m in RemoveFirst(ns, n) <==> m in ns && m != n
  {
    if ns != [] {
      var rest := ns[1..];
      assert ns == [ns[0]] + rest;
      RemoveFirstGone(rest, n);
      assert ns[0] !in rest;
    }
  }

  lemma RemovedUnique(ss: seq<Session>, k: nat)
    requires Unique(ss) && k < |ss|
    ensures Unique(RemoveAt(ss, k))
  {
    var ss' := RemoveAt(ss, k);
    assert forall i :: 0 <= i < |ss'| ==> ss'[i] == ss[if i < k then i else i + 1];
  }

  lemma RemovedRole(ss: seq<Session>, k: nat, n: Name)
    requires Unique(ss) && k < |ss| && Unique(RemoveAt(ss, k))
    ensures var ss' := RemoveAt(ss, k);
            && (In(ss[k], n) <==> n == ss[k].host || RoleOf(ss, n) == ClientOf(ss[k].host))
            && (if In(ss[k], n) then RoleOf(ss', n) == Idle
                else RoleOf(ss', n) == RoleOf(ss, n) && ParamsOf(ss', n) == ParamsOf(ss, n))
  {
    var ss' := RemoveAt(ss, k);
    assert forall i :: 0 <= i < |ss'| ==> ss'[i] == ss[if i < k then i else i + 1];
    assert In(ss[k], ss[k].host);
    match Find(ss, n, 0) {
      case None =>
        FindNothing(ss', n, 0);
      case Some(i) =>
        assert In(ss[i], ss[i].host);
        if i == k {
          FindNothing(ss', n, 0);
        } else {
          var i' := if i < k then i else i - 1;
          assert ss'[i'] == ss[i];
          RoleAt(ss', n, i');
        }
    }
  }

  lemma SessionRemoved(core: Core, k: nat)
    requires Sound(core) && k < |core.sessions|
    ensures var core' := core.(sessions := RemoveAt(core.sessions, k));
            Sound(core') && Abs(core') == Release(Abs(core), core.sessions[k].host)
  {
    var ss, ss' := core.sessions, RemoveAt(core.sessions, k);
    RemovedUnique(ss, k);
    assert forall i :: 0 <= i < |ss'| ==> ss'[i] == ss[if i < k then i else i + 1];
    RoleAt(ss, ss[k].host, k);
    forall n ensures RemovedAt(ss, k, n) {
      RemovedRole(ss, k, n);
    }
    RemovedAbs(core, k);
  }

  ghost predicate RemovedAt(ss: seq<Session>, k: nat, n: Name)
    requires k < |ss|
  {
    var ss' := RemoveAt(ss, k);
    if n == ss[k].host || RoleOf(ss, n) == ClientOf(ss[k].host) then RoleOf(ss', n) == Idle
    else RoleOf(ss', n) == RoleOf(ss, n) && ParamsOf(ss', n) == ParamsOf(ss, n)
  }

  lemma RemovedAbs(core: Core, k: nat)
    requires k < |core.sessions| && forall n :: RemovedAt(core.sessions, k, n)
    ensures Abs(core.(sessions := RemoveAt(core.sessions, k))) == Release(Abs(core), core.sessions[k].host)
  {
    hide RoleOf, ParamsOf;
    var ss, ss', h := core.sessions, RemoveAt(core.sessions, k), core.sessions[k].host;
    var before, after := Abs(core), Abs(core.(sessions := ss'));
    forall n | n in core.users
      ensures after.role[n] == Release(before, h).role[n]
      ensures n in after.params <==> n in before.params && n != h
      ensures n in after.params ==> after.params[n] == before.params[n]
    {
      assert RemovedAt(ss, k, n);
    }
    assert after.role == Release(before, h).role;
    assert after.params == Release(before, h).params;
  }

  /** The session at k with another client list, whose newcomers were idle. */
  ghost predicate Replaces(ss: seq<Session>, k: nat, session: Session, added: set<Name>) {
    && k < |ss| && session.host == ss[k].host
    && NoRepeat(session.clients) && session.host !in session.clients
    && (forall n :: n in added ==> RoleOf(ss, n).Idle?)
    && (forall n :: n in session.clients ==> n in ss[k].clients || n in added)
  }

  lemma ReplacedUnique(ss: seq<Session>, k: nat, session: Session, added: set<Name>)
    requires Unique(ss) && Replaces(ss, k, session, added)
    ensures Unique(ss[k := session])
  {
    var ss' := ss[k := session];
    forall i, n | 0 <= i < |ss| && n in added ensures !In(ss[i], n) {
      if In(ss[i], n) { RoleAt(ss, n, i); }
    }
    forall i, j, n | 0 <= i < |ss'| && 0 <= j < |ss'| && In(ss'[i], n) && In(ss'[j], n) ensures i == j {
      assert In(ss[i], n) || n in added;
      assert In(ss[j], n) || n in added;
    }
  }

  lemma ReplacedRole(ss: seq<Session>, k: nat, session: Session, n: Name)
    requires Unique(ss) && k < |ss| && session.host == ss[k].host && Unique(ss[k := session])
    ensures var ss' := ss[k := session];
            && RoleOf(ss', n) == (if n in session.clients then ClientOf(session.host)
                                  else if n in ss[k].clients then Idle
                                  else RoleOf(ss, n))
            && (n == session.host ==> RoleOf(ss, n) == Host && ParamsOf(ss', n) == session.params)
            && (!In(session, n) && !In(ss[k], n) ==> ParamsOf(ss', n) == ParamsOf(ss, n))
            && (n in ss[k].clients ==> !RoleOf(ss, n).Host?)
  {
    var ss' := ss[k := session];
    if In(ss[k], n) { RoleAt(ss, n, k); }
    if In(session, n) {
      assert ss'[k] == session;
      RoleAt(ss', n, k);
    } else if In(ss[k], n) {
      FindNothing(ss', n, 0);
    } else {
      match Find(ss, n, 0) {
        case None => FindNothing(ss', n, 0);
        case Some(i) => assert ss'[i] == ss[i]; RoleAt(ss', n, i);
      }
    }
  }

  ghost predicate ReplacedAt(ss: seq<Session>, k: nat, session: Session, n: Name)
    requires k < |ss|
  {
    var ss' := ss[k := session];
    && RoleOf(ss', n) == (if n in session.clients then ClientOf(session.host)
                          else if n in ss[k].clients then Idle
                          else RoleOf(ss, n))
    && (RoleOf(ss', n).Host? <==> RoleOf(ss, n).Host?)
    && (n == session.host ==> RoleOf(ss, n) == Host)
    && (RoleOf(ss', n).Host? ==> ParamsOf(ss', n) == if n == session.host then session.params else ParamsOf(ss, n))
  }

  /** Replacing a session's clients or params leaves everybody else's role alone. */
  lemma SessionReplaced(core: Core, k: nat, session: Session, added: set<Name>)
    requires Sound(core) && Replaces(core.sessions, k, session, added) && added <= core.users.Keys
    ensures Sound(core.(sessions := core.sessions[k := session]))
    ensures ReplacedIn(core, k, session)
  {
    var ss, ss' := core.sessions, core.sessions[k := session];
    ReplacedUnique(ss, k, session, added);
    assert In(ss[k], session.host);
    forall i, n | 0 <= i < |ss'| && In(ss'[i], n) ensures n in core.users {
      assert In(ss[i], n) || n in added;
    }
    forall n ensures ReplacedAt(ss, k, session, n) {
      ReplacedRole(ss, k, session, n);
    }
    ReplacedAbs(core, k, session);
  }

  ghost predicate ReplacedIn(core: Core, k: nat, session: Session)
    requires k < |core.sessions|
  {
    var after := Abs(core.(sessions := core.sessions[k := session]));
    && after.params == Abs(core).params[session.host := session.params]
    && after.role == map n | n in core.users ::
         if n in session.clients then ClientOf(session.host)
         else if n in core.sessions[k].clients then Idle
         else RoleOf(core.sessions, n)
  }

  lemma ReplacedAbs(core: Core, k: nat, session: Session)
    requires k < |core.sessions| && session.host in core.users
    requires forall n :: ReplacedAt(core.sessions, k, session, n)
    ensures ReplacedIn(core, k, session)
  {
    hide RoleOf, ParamsOf;
    var ss, h := core.sessions, session.host;
    var before, after := Abs(core), Abs(core.(sessions := core.sessions[k := session]));
    forall n | n in core.users
      ensures n in after.params <==> n in before.params
      ensures n == h ==> n in after.params && after.params[n] == session.params
      ensures n in after.params && n != h ==> after.params[n] == before.params[n]
    {
      assert ReplacedAt(ss, k, session, n);
    }
    assert after.params == before.params[h := session.params];
    assert after.role == map n | n in core.users ::
         if n in session.clients then ClientOf(session.host)
         else if n in core.sessions[k].clients then Idle
         else RoleOf(core.sessions, n) by {
      forall n | n in core.users
        ensures after.role[n] == if n in session.clients then ClientOf(session.host)
                                 else if n in core.sessions[k].clients then Idle
                                 else RoleOf(core.sessions, n)
      {
        assert ReplacedAt(ss, k, session, n);
      }
    }
  }

  lemma AddedUnique(ss: seq<Session>, host: Name, client: Name)
    requires Unique(ss) && host != client && RoleOf(ss, host).Idle? && RoleOf(ss, client).Idle?
    ensures Unique(ss + [Session(host, [client], None)])
  {
    var ss' := ss + [Session(host, [client], None)];
    forall i | 0 <= i < |ss| ensures !In(ss[i], host) && !In(ss[i], client) {
      if In(ss[i], host) { RoleAt(ss, host, i); }
      if In(ss[i], client) { RoleAt(ss, client, i); }
    }
  }

  lemma AddedRole(ss: seq<Session>, host: Name, client: Name, n: Name)
    requires Unique(ss) && host != client && Unique(ss + [Session(host, [client], None)])
    ensures var ss' := ss + [Session(host, [client], None)];
            && RoleOf(ss', n) == (if n == host then Host else if n == client then ClientOf(host) else RoleOf(ss, n))
            && (n == host ==> ParamsOf(ss', n) == None)
            && (n != host && n != client ==> ParamsOf(ss', n) == ParamsOf(ss, n))
  {
    var added := Session(host, [client], None);
    var ss' := ss + [added];
    if In(added, n) {
      assert ss'[|ss|] == added;
      RoleAt(ss', n, |ss|);
    } else {
      match Find(ss, n, 0) {
        case None => FindNothing(ss', n, 0);
        case Some(i) => assert ss'[i] == ss[i]; RoleAt(ss', n, i);
      }
    }
  }

  ghost predicate AddedAt(ss: seq<Session>, host: Name, client: Name, n: Name) {
    var ss' := ss + [Session(host, [client], None)];
    && RoleOf(ss', n) == (if n == host then Host else if n == client then ClientOf(host) else RoleOf(ss, n))
    && (n == host ==> ParamsOf(ss', n) == None)
    && (n != host && n != client ==> ParamsOf(ss', n) == ParamsOf(ss, n))
  }

  lemma SessionAdded(core: Core, host: Name, client: Name)
    requires Sound(core) && host in core.users && client in core.users && host != client
    requires RoleOf(core.sessions, host).Idle? && RoleOf(core.sessions, client).Idle?
    ensures Sound(core.(sessions := core.sessions + [Session(host, [client], None)]))
    ensures AddedIn(core, host, client)
  {
    AddedUnique(core.sessions, host, client);
    forall n ensures AddedAt(core.sessions, host, client, n) {
      AddedRole(core.sessions, host, client, n);
    }
    AddedAbs(core, host, client);
  }

  ghost predicate AddedIn(core: Core, host: Name, client: Name) {
    var after := Abs(core.(sessions := core.sessions + [Session(host, [client], None)]));
    && after.role == Abs(core).role[client := ClientOf(host)][host := Host]
    && after.params == Abs(core).params[host := None]
  }

  lemma AddedAbs(core: Core, host: Name, client: Name)
    requires host in core.users && client in core.users && host != client
    requires RoleOf(core.sessions, client).Idle?
    requires forall n :: AddedAt(core.sessions, host, client, n)
    ensures AddedIn(core, host, client)
  {
    hide RoleOf, ParamsOf;
    var before := Abs(core);
    var after := Abs(core.(sessions := core.sessions + [Session(host, [client], None)]));
    forall n | n in core.users
      ensures after.role[n] == if n == host then Host else if n == client then ClientOf(host) else before.role[n]
      ensures n in after.params <==> n in before.params || n == host
      ensures n == host ==> after.params[n] == None
      ensures n in after.params && n != host ==> after.params[n] == before.params[n]
    {
      assert AddedAt(core.sessions, host, client, n);
    }
    assert after.role == before.role[client := ClientOf(host)][host := Host];
    assert after.params == before.params[host := None];
  }
}
