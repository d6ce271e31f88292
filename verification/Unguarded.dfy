/** What holds of the distributor whatever its clients do, and why the guards are there. */
module Unguarded {
  import opened Protocol
  import opened SessionRules
  import opened SessionMachine
  import opened SessionInvariant
  import opened OutboxGrowth
  import opened Refinement

  // ---------- No two sessions share a host ----------

  ghost predicate SameMembers(ss: seq<Session>, tt: seq<Session>) {
    |ss| == |tt| && forall i :: 0 <= i < |ss| ==> ss[i].host == tt[i].host && ss[i].clients == tt[i].clients
  }

  lemma {:induction false} CloseKeepsHosts(core: Core, self: Name, p: Packet, i: nat, kept: Option<nat>)
    requires DistinctHosts(core.sessions) && i <= |core.sessions|
    requires kept.Some? ==> kept.value < |core.sessions|
    ensures DistinctHosts(CloseFrom(core, self, p, i, kept).core.sessions)
    decreases |core.sessions| - i
  {
    if i < |core.sessions| {
      var session := core.sessions[i];
      if session.host == self {
        CloseKeepsHosts(core.(out := SendAll(core.users, session.clients, p, core.out).out), self, p, i + 1, Some(i));
      } else if self !in session.clients {
        CloseKeepsHosts(core, self, p, i + 1, kept);
      }
    }
  }

  lemma {:induction false} VideoKeepsMembers(core: Core, self: Name, vp: Params, i: nat)
    requires i <= |core.sessions|
    ensures SameMembers(core.sessions, VideoFrom(core, self, vp, i).core.sessions)
    decreases |core.sessions| - i
  {
    if i < |core.sessions| {
      var told := SendAll(core.users, core.sessions[i].clients, VideoParams(vp), core.out);
      var stored := core.(sessions := core.sessions[i := core.sessions[i].(params := Some(vp))], out := told.out);
      VideoKeepsMembers(if core.sessions[i].host == self then stored else core, self, vp, i + 1);
    }
  }

  lemma {:induction false} RelaysKeepSessions(core: Core, self: Name, p: Packet, i: nat)
    requires i <= |core.sessions|
    ensures DataFrom(core, self, p, i).core.sessions == core.sessions
    ensures ControlFrom(core, self, p, i).core.sessions == core.sessions
    decreases |core.sessions| - i
  {
    if i < |core.sessions| {
      var session := core.sessions[i];
      RelaysKeepSessions(core, self, p, i + 1);
      RelaysKeepSessions(core.(out := SendAll(core.users, session.clients, p, core.out).out), self, p, i + 1);
      if session.host in core.users {
        RelaysKeepSessions(core.(out := Push(core.out, core.users[session.host], p)), self, p, i + 1);
      }
    }
  }

  lemma RemovalKeepsHosts(core: Core, me: Handler)
    requires DistinctHosts(core.sessions)
    ensures DistinctHosts(RemoveSelf(core, me).core.sessions)
  {
    LeaveFound(core, me.selfName, 0);
    match Find(core.sessions, me.selfName, 0) {
      case None =>
      case Some(k) => LeavingKeepsHosts(core, me.selfName, k);
    }
    hide LeaveFrom, Find, DistinctHosts;
  }

  lemma LeavingKeepsHosts(core: Core, self: Name, k: nat)
    requires DistinctHosts(core.sessions) && k < |core.sessions| && In(core.sessions[k], self)
    ensures DistinctHosts(LeaveFrom(core, self, k).core.sessions)
  {
    var ss := core.sessions;
    var left := ss[k].(clients := RemoveFirst(ss[k].clients, self));
    ReplacingKeepsHosts(ss, k, left);
    DroppingKeepsHosts(ss, k);
    DroppingKeepsHosts(ss[k := left], k);
    hide DistinctHosts, RemoveAt, SendAll;
  }

  lemma ReplacingKeepsHosts(ss: seq<Session>, k: nat, session: Session)
    requires DistinctHosts(ss) && k < |ss| && session.host == ss[k].host
    ensures DistinctHosts(ss[k := session])
  {
  }

  lemma DroppingKeepsHosts(ss: seq<Session>, k: nat)
    requires DistinctHosts(ss) && k < |ss|
    ensures DistinctHosts(RemoveAt(ss, k))
  {
    var tt := RemoveAt(ss, k);
    assert forall i :: 0 <= i < |tt| ==> tt[i] == ss[if i < k then i else i + 1];
  }

  lemma RequestKeepsHosts(core: Core, me: Handler, target: Name)
    requires DistinctHosts(core.sessions)
    ensures DistinctHosts(OnSessionRequest(core, me, target).core.sessions)
  {
    RequestFound(core, me, target, 0);
    assert forall i :: 0 <= i < |core.sessions| && !In(core.sessions[i], target) ==> core.sessions[i].host != target;
  }

  lemma StepKeepsHosts(s: State, e: Event)
    requires DistinctHosts(s.core.sessions)
    ensures DistinctHosts(Step(s, e).core.sessions)
  {
    match e {
      case Connect(_, _) =>
      case Receive(c, p, now) =>
        if c in s.handlers {
          var me := s.handlers[c];
          HandlingKeepsHosts(s.core, me, p, now);
          var o := HandlePacket(s.core, me, p, now);
          RemovalKeepsHosts(o.core, o.me);
        }
      case Watchdog(c, _) => if c in s.handlers { RemovalKeepsHosts(s.core, s.handlers[c]); }
      case ExceptionCaught(c) => if c in s.handlers { RemovalKeepsHosts(s.core, s.handlers[c]); }
    }
  }

  lemma HandlingKeepsHosts(core: Core, me: Handler, p: Packet, now: int)
    requires DistinctHosts(core.sessions)
    ensures DistinctHosts(HandlePacket(core, me, p, now).core.sessions)
  {
    hide OnSessionRequest, CloseFrom, VideoFrom, DataFrom, ControlFrom;
    match p
    case SessionRequest(name) => RequestKeepsHosts(core, me, name);
    case SessionClose(_) => CloseKeepsHosts(core, me.selfName, p, 0, None);
    case VideoParams(vp) => VideoKeepsMembers(core, me.selfName, vp, 0);
    case Data(_, _, _) => RelaysKeepSessions(core, me.selfName, p, 0);
    case ControlInput(_) => RelaysKeepSessions(core, me.selfName, p, 0);
    case _ =>
  }

  /** In every run, guarded or not, no two sessions have the same host. */
  lemma {:induction false} HostsStayDistinct(es: seq<Event>)
    ensures DistinctHosts(Exec(INITIAL, es).core.sessions)
  {
    if es != [] {
      HostsStayDistinct(es[..|es| - 1]);
      StepKeepsHosts(Exec(INITIAL, es[..|es| - 1]), es[|es| - 1]);
    }
  }

  // ---------- Sessions without clients ----------

  ghost predicate Occupied(ss: seq<Session>) {
    forall i :: 0 <= i < |ss| ==> ss[i].clients != []
  }

  /** The name is all the clients that somebody else's session has. */
  ghost predicate SoleGuest(ss: seq<Session>, n: Name) {
    exists i :: 0 <= i < |ss| && ss[i].host != n && ss[i].clients == [n]
  }

  lemma {:induction false} RemoveFirstLength(ns: seq<Name>, n: Name)
    ensures |RemoveFirst(ns, n)| == if n in ns then |ns| - 1 else |ns|
  {
    if ns != [] {
      assert ns == [ns[0]] + ns[1..];
      RemoveFirstLength(ns[1..], n);
    }
  }

  lemma {:induction false} CloseKeepsOccupied(core: Core, self: Name, p: Packet, i: nat, kept: Option<nat>)
    requires Occupied(core.sessions) && !SoleGuest(core.sessions, self) && i <= |core.sessions|
    requires kept.Some? ==> kept.value < |core.sessions|
    ensures Occupied(CloseFrom(core, self, p, i, kept).core.sessions)
    decreases |core.sessions| - i
  {
    if i < |core.sessions| {
      var session := core.sessions[i];
      if session.host == self {
        var told := SendAll(core.users, session.clients, p, core.out);
        CloseKeepsOccupied(core.(out := told.out), self, p, i + 1, Some(i));
      } else if self in session.clients {
        assert session.clients != [self];
        RemoveFirstLength(session.clients, self);
      } else {
        CloseKeepsOccupied(core, self, p, i + 1, kept);
      }
    }
  }

  /** onSessionClose takes the last client out of a session exactly when the sender is the only client of
      somebody else's. */
  lemma CloseEmptiesIff(core: Core, self: Name, p: Packet)
    requires Sound(core) && Occupied(core.sessions)
    ensures Occupied(CloseFrom(core, self, p, 0, None).core.sessions) <==> !SoleGuest(core.sessions, self)
  {
    if SoleGuest(core.sessions, self) {
      var k :| 0 <= k < |core.sessions| && core.sessions[k].host != self && core.sessions[k].clients == [self];
      assert In(core.sessions[k], self);
      FindUnique(core.sessions, self, 0, k);
      CloseFound(core, self, p, 0, None);
      RemoveFirstLength([self], self);
      var after := CloseFrom(core, self, p, 0, None).core.sessions;
      assert k < |after| && after[k].clients == [];
    } else {
      CloseKeepsOccupied(core, self, p, 0, None);
    }
    hide Sound, Unique, CloseFrom;
  }

  /** removeSelf never leaves a session without clients. */
  lemma RemovalKeepsOccupied(core: Core, me: Handler)
    requires Occupied(core.sessions)
    ensures Occupied(RemoveSelf(core, me).core.sessions)
  {
    LeaveFound(core, me.selfName, 0);
  }

  lemma RequestKeepsOccupied(core: Core, me: Handler, target: Name)
    requires Occupied(core.sessions)
    ensures Occupied(OnSessionRequest(core, me, target).core.sessions)
  {
    RequestFound(core, me, target, 0);
  }

  /** The step is a SESSION_CLOSE from the only client of somebody else's session. */
  ghost predicate GuestCloses(s: State, e: Event) {
    e.Receive? && e.chan in s.handlers && e.packet.SessionClose?
        && SoleGuest(s.core.sessions, s.handlers[e.chan].selfName)
  }

  lemma HandlingKeepsOccupied(core: Core, me: Handler, p: Packet, now: int)
    requires Occupied(core.sessions) && !(p.SessionClose? && SoleGuest(core.sessions, me.selfName))
    ensures Occupied(HandlePacket(core, me, p, now).core.sessions)
  {
    hide OnSessionRequest, CloseFrom, VideoFrom, DataFrom, ControlFrom;
    match p
    case SessionRequest(name) => RequestKeepsOccupied(core, me, name);
    case SessionClose(_) => CloseKeepsOccupied(core, me.selfName, p, 0, None);
    case VideoParams(vp) => VideoKeepsMembers(core, me.selfName, vp, 0);
    case Data(_, _, _) => RelaysKeepSessions(core, me.selfName, p, 0);
    case ControlInput(_) => RelaysKeepSessions(core, me.selfName, p, 0);
    case _ =>
  }

  lemma StepKeepsOccupied(s: State, e: Event)
    requires Occupied(s.core.sessions) && !GuestCloses(s, e)
    ensures Occupied(Step(s, e).core.sessions)
  {
    hide Occupied, SoleGuest;
    match e {
      case Connect(_, _) =>
      case Receive(c, p, now) =>
        if c in s.handlers {
          HandlingKeepsOccupied(s.core, s.handlers[c], p, now);
          var o := HandlePacket(s.core, s.handlers[c], p, now);
          RemovalKeepsOccupied(o.core, o.me);
        }
      case Watchdog(c, _) => if c in s.handlers { RemovalKeepsOccupied(s.core, s.handlers[c]); }
      case ExceptionCaught(c) => if c in s.handlers { RemovalKeepsOccupied(s.core, s.handlers[c]); }
    }
  }

  /** Under the invariant a step leaves a session without clients exactly when it is such a close. */
  lemma StepEmptiesIff(s: State, e: Event)
    requires Inv(s) && Occupied(s.core.sessions)
    ensures Occupied(Step(s, e).core.sessions) <==> !GuestCloses(s, e)
  {
    if GuestCloses(s, e) {
      CloseEmptiesIff(s.core, s.handlers[e.chan].selfName, e.packet);
      CloseRefines(s.core, s.handlers[e.chan].selfName, e.packet);
    } else {
      StepKeepsOccupied(s, e);
    }
    hide Inv, Sound, Occupied, SoleGuest, CloseFrom;
  }

  /** In every run, guarded or not, every session has a client unless a sole client's SESSION_CLOSE was taken. */
  lemma {:induction false} SessionsStayOccupied(es: seq<Event>)
    requires forall k :: 0 <= k < |es| ==> !GuestCloses(Exec(INITIAL, es[..k]), es[k])
    ensures Occupied(Exec(INITIAL, es).core.sessions)
  {
    hide GuestCloses;
    if es != [] {
      var front := es[..|es| - 1];
      forall k | 0 <= k < |front| ensures !GuestCloses(Exec(INITIAL, front[..k]), front[k]) {
        assert front[..k] == es[..k];
      }
      SessionsStayOccupied(front);
      StepKeepsOccupied(Exec(INITIAL, front), es[|es| - 1]);
    }
  }

  // ---------- The user list everybody last saw ----------

  /** The last list on the channel of every registered user is `seen`, which misses no current user. */
  ghost predicate Agreed(core: Core, seen: set<Name>) {
    && core.users.Keys <= seen
    && forall n :: n in core.users ==> LastList(Sent(core.out, core.users[n])) == Some(seen)
  }

  lemma RegistrationAgrees(core: Core, me: Handler, username: Name, seen: set<Name>)
    requires Agreed(core, seen)
    ensures var o := OnNewUser(core, me, username);
            if username in core.users then o.core.users == core.users && Quiet(core.out, o.core.out)
            else o.core.users.Keys == core.users.Keys + {username} && Agreed(o.core, o.core.users.Keys)
  {
    if username in core.users {
      PushQuiet(core.out, me.chan, ServerMessage(NameTaken, false));
    } else {
      var users := core.users[username := me.chan];
      var out := Push(core.out, me.chan, ServerMessage(Success, true));
      forall n | n in users
        ensures LastList(Sent(SendToNames(users, users.Keys, UserList(users.Keys), out), users[n])) == Some(users.Keys)
      {
        EveryoneSeesTheList(users, n, out);
      }
    }
    hide SendToNames, LastList, Push;
  }

  lemma EveryoneSeesTheList(users: map<Name, Chan>, n: Name, out: Outboxes)
    requires n in users
    ensures LastList(Sent(SendToNames(users, users.Keys, UserList(users.Keys), out), users[n])) == Some(users.Keys)
  {
    assert n in NamesOn(users, users.Keys, users[n]);
    var sent := Sent(out, users[n]) + seq(|NamesOn(users, users.Keys, users[n])|, _ => UserList(users.Keys));
    assert sent[|sent| - 1] == UserList(users.Keys);
  }

  ghost predicate Registers(s: State, e: Event) {
    e.Receive? && e.chan in s.handlers && e.packet.NewUser? && e.packet.username !in s.core.users
  }

  lemma StepAgrees(s: State, e: Event, seen: set<Name>)
    requires Agreed(s.core, seen)
    ensures var t := Step(s, e);
            if Registers(s, e)
            then Agreed(t.core, t.core.users.Keys) && t.core.users.Keys == s.core.users.Keys + {e.packet.username}
            else Agreed(t.core, seen) && t.core.users.Keys <= s.core.users.Keys
  {
    match e {
      case Connect(_, _) =>
      case Receive(c, p, now) =>
        if c in s.handlers {
          var me := s.handlers[c];
          var o := HandlePacket(s.core, me, p, now);
          if p.NewUser? {
            RegistrationAgrees(s.core, me, p.username, seen);
          } else {
            HandlingQuiet(s.core, me, p, now);
            RemovalQuiet(o.core, o.me);
          }
        }
      case Watchdog(c, _) => if c in s.handlers { RemovalQuiet(s.core, s.handlers[c]); }
      case ExceptionCaught(c) => if c in s.handlers { RemovalQuiet(s.core, s.handlers[c]); }
    }
  }

  /** The names removed since the latest registration. */
  ghost function RemovedSince(es: seq<Event>): set<Name> {
    if es == [] then {}
    else
      var s := Exec(INITIAL, es[..|es| - 1]);
      if Registers(s, es[|es| - 1]) then {}
      else RemovedSince(es[..|es| - 1]) + (s.core.users.Keys - Exec(INITIAL, es).core.users.Keys)
  }

  /** In every run, guarded or not, the last USER_LIST on every registered channel is one and the same set:
      the current users and those removed since the latest registration. */
  lemma {:induction false} UserListsAgree(es: seq<Event>)
    ensures var core := Exec(INITIAL, es).core;
            Agreed(core, core.users.Keys + RemovedSince(es))
  {
    if es != [] {
      var front := es[..|es| - 1];
      var s, t := Exec(INITIAL, front), Exec(INITIAL, es);
      UserListsAgree(front);
      StepAgrees(s, es[|es| - 1], s.core.users.Keys + RemovedSince(front));
      if !Registers(s, es[|es| - 1]) {
        assert s.core.users.Keys + RemovedSince(front) == t.core.users.Keys + RemovedSince(es);
      } else {
        assert t.core.users.Keys + RemovedSince(es) == t.core.users.Keys;
      }
    }
  }
}
