/** Main results on the distributor: the invariant and the refinement over every guarded run, and what a
    departing connection leaves behind. */
module SessionTheorems {
  import opened Protocol
  import opened SessionRules
  import opened SessionMachine
  import opened SessionInvariant
  import opened Directory
  import opened Refinement

  lemma ReactionKeepsOutboxes(d: Directory, me: Handler, p: Packet, now: int)
    ensures d.out.Keys <= React(d, me, p, now).dir.out.Keys
  {
  }

  lemma MaySpeak(s: State, c: Chan, p: Packet, now: int)
    requires Inv(s) && c in s.handlers && Guard(s, Receive(c, p, now))
    ensures MayReceive(s.core, s.handlers[c], p)
  {
    assert Consistent(s, c);
    if p.NewUser? && p.username !in s.core.users {
      forall n | n in s.core.users ensures s.core.users[n] != c {
        assert Bound(s, n);
      }
    }
  }

  /** One guarded step keeps the invariant and is exactly one step of the directory. */
  lemma StepRefines(s: State, e: Event)
    requires Inv(s) && Guard(s, e)
    ensures Inv(Step(s, e))
    ensures AbsState(Step(s, e)) == ViewStep(AbsState(s), e)
  {
    match e {
      case Connect(c, now) => ConnectRefines(s, c, now);
      case Receive(c, p, now) =>
        if c in s.handlers {
          var me := s.handlers[c];
          MaySpeak(s, c, p, now);
          ReceiveRefines(s.core, me, p, now);
          ReactionKeepsOutboxes(Abs(s.core), me, p, now);
          SettledInv(s, c, Caught(HandlePacket(s.core, me, p, now)));
        }
      case Watchdog(c, _) => if c in s.handlers && s.handlers[c].running { RemovalRefines(s, c); }
      case ExceptionCaught(c) =>
        if c in s.handlers {
          if s.handlers[c].running { RemovalRefines(s, c); } else { GoneAlready(s, c); }
        }
    }
  }

  lemma RemovalRefines(s: State, c: Chan)
    requires Inv(s) && c in s.handlers && s.handlers[c].running
    ensures var o := RemoveSelf(s.core, s.handlers[c]);
            && !o.threw && Inv(Settle(s, c, o))
            && Reaction(Abs(o.core), o.me) == Stopped(Abs(s.core), s.handlers[c])
  {
    assert Consistent(s, c);
    RemoveRefines(s.core, s.handlers[c]);
    SettledInv(s, c, RemoveSelf(s.core, s.handlers[c]));
  }

  /** Removing a connection that is gone and whose name is nobody's changes nothing. */
  lemma GoneAlready(s: State, c: Chan)
    requires Inv(s) && c in s.handlers && !s.handlers[c].running && s.handlers[c].selfName !in s.core.users
    ensures Settle(s, c, RemoveSelf(s.core, s.handlers[c])) == s
    ensures Stopped(Abs(s.core), s.handlers[c]) == Reaction(Abs(s.core), s.handlers[c])
  {
    var n := s.handlers[c].selfName;
    LeaveFound(s.core, n, 0);
    assert Find(s.core.sessions, n, 0) == None;
    assert s.core.users - {n} == s.core.users && s.handlers[c := s.handlers[c]] == s.handlers;
    assert Abs(s.core).role - {n} == Abs(s.core).role && n !in Abs(s.core).role;
    hide LeaveFrom, Find, RoleOf, ParamsOf, Unique;
  }

  lemma ConnectRefines(s: State, c: Chan, now: int)
    requires Inv(s)
    ensures Inv(Step(s, Connect(c, now)))
    ensures AbsState(Step(s, Connect(c, now))) == ViewStep(AbsState(s), Connect(c, now))
  {
    var t := Step(s, Connect(c, now));
    forall d | d in t.handlers ensures Consistent(t, d) {
      if d in s.handlers { assert Consistent(s, d); }
    }
    forall n | n in t.core.users ensures Bound(t, n) {
      assert Bound(s, n);
    }
  }

  ghost function ViewExec(v: View, es: seq<Event>): View {
    if es == [] then v else ViewStep(ViewExec(v, es[..|es| - 1]), es[|es| - 1])
  }

  /** Every guarded run keeps the invariant and shows the directory's run, from any state satisfying it. */
  lemma {:induction false} ExecRefines(s: State, es: seq<Event>)
    requires Inv(s) && Guarded(s, es)
    ensures Inv(Exec(s, es))
    ensures AbsState(Exec(s, es)) == ViewExec(AbsState(s), es)
  {
    if es != [] {
      GuardedPrefix(s, es);
      ExecRefines(s, es[..|es| - 1]);
      StepRefines(Exec(s, es[..|es| - 1]), es[|es| - 1]);
    }
  }

  lemma Reachable(es: seq<Event>)
    requires Guarded(INITIAL, es)
    ensures var s := Exec(INITIAL, es);
            Inv(s) && AbsState(s) == ViewExec(View(Directory(map[], map[], map[], map[]), map[]), es)
  {
    assert AbsState(INITIAL) == View(Directory(map[], map[], map[], map[]), map[]);
    ExecRefines(INITIAL, es);
  }

  lemma SameRolesSameDirectory(a: Core, b: Core)
    requires a.users == b.users && a.out == b.out
    requires forall n :: RoleOf(a.sessions, n) == RoleOf(b.sessions, n) &&
                         ParamsOf(a.sessions, n) == ParamsOf(b.sessions, n)
    ensures Abs(a) == Abs(b)
  {
    hide RoleOf, ParamsOf;
    assert Abs(a).role == Abs(b).role && Abs(a).params == Abs(b).params;
  }

  lemma RoleIsPublic(s: State, n: Name)
    requires Inv(s)
    ensures Standing(Abs(s.core), n) == RoleOf(s.core.sessions, n)
    ensures RoleOf(s.core.sessions, n) != Idle ==> n in s.core.users
    ensures RoleOf(s.core.sessions, n).ClientOf? ==> RoleOf(s.core.sessions, RoleOf(s.core.sessions, n).host) == Host
    ensures RoleOf(s.core.sessions, n) == Host
        ==> n in Abs(s.core).params && Abs(s.core).params[n] == ParamsOf(s.core.sessions, n)
  {
    match Find(s.core.sessions, n, 0) {
      case None =>
      case Some(i) => assert In(s.core.sessions[i], n); HostAt(s.core, i);
    }
  }

  lemma GuardIsPublic(s: State, t: State, e: Event)
    requires Inv(s) && Inv(t) && AbsState(s) == AbsState(t)
    ensures Guard(s, e) <==> Guard(t, e)
  {
    assert Abs(s.core).users == Abs(t.core).users;
    if e.Receive? && e.chan in s.handlers {
      RoleIsPublic(s, s.handlers[e.chan].selfName);
      RoleIsPublic(t, s.handlers[e.chan].selfName);
      if e.packet.SessionRequest? {
        RoleIsPublic(s, e.packet.name);
        RoleIsPublic(t, e.packet.name);
      }
    }
    hide RoleOf, ParamsOf, Inv, Sound;
  }

  /** The map of roles is all there is: states that show the same one allow the same runs and go on showing the
      same. */
  lemma {:induction false} SameViewSameRuns(s: State, t: State, es: seq<Event>)
    requires Inv(s) && Inv(t) && AbsState(s) == AbsState(t) && Guarded(s, es)
    ensures Guarded(t, es) && AbsState(Exec(s, es)) == AbsState(Exec(t, es))
  {
    hide Guard, Inv, AbsState;
    if es != [] {
      var front, e := es[..|es| - 1], es[|es| - 1];
      GuardedPrefix(s, es);
      SameViewSameRuns(s, t, front);
      ExecRefines(s, front);
      ExecRefines(t, front);
      GuardIsPublic(Exec(s, front), Exec(t, front), e);
      GuardedSnoc(t, front, e);
      assert front + [e] == es;
      ExecRefines(s, es);
      ExecRefines(t, es);
    }
  }

  /** Two states whose session lists are permutations of each other allow the same runs and stay
      indistinguishable in all of them. */
  lemma OrderIrrelevant(s: State, t: State, es: seq<Event>)
    requires Inv(s) && Inv(t) && Guarded(s, es)
    requires s.handlers == t.handlers && s.core.users == t.core.users && s.core.out == t.core.out
    requires multiset(s.core.sessions) == multiset(t.core.sessions)
    ensures Guarded(t, es) && AbsState(Exec(s, es)) == AbsState(Exec(t, es))
  {
    forall n ensures RoleOf(s.core.sessions, n) == RoleOf(t.core.sessions, n)
                  && ParamsOf(s.core.sessions, n) == ParamsOf(t.core.sessions, n)
    {
      RoleIgnoresOrder(s.core.sessions, t.core.sessions, n);
    }
    SameRolesSameDirectory(s.core, t.core);
    SameViewSameRuns(s, t, es);
    hide Guarded, Exec, RoleOf, ParamsOf, Sound;
  }

  /** Every lookup of a member finds a channel: a handler fails only on joining a session that has no params yet. */
  lemma LookupsSucceed(s: State, c: Chan, p: Packet, now: int)
    requires Inv(s) && c in s.handlers && Guard(s, Receive(c, p, now))
    ensures HandlePacket(s.core, s.handlers[c], p, now).threw
       <==> p.SessionRequest? && RoleOf(s.core.sessions, p.name) == Host && ParamsOf(s.core.sessions, p.name) == None
  {
    var me := s.handlers[c];
    MaySpeak(s, c, p, now);
    if p.SessionRequest? {
      RequestFails(s.core, me, p.name);
    } else {
      OthersSucceed(s.core, me, p, now);
    }
    hide OnSessionRequest, RoleOf, ParamsOf;
  }

  lemma RequestFails(core: Core, me: Handler, target: Name)
    requires Sound(core) && MayReceive(core, me, SessionRequest(target))
    ensures OnSessionRequest(core, me, target).threw
       <==> RoleOf(core.sessions, target) == Host && ParamsOf(core.sessions, target) == None
  {
    RequestRefines(core, me, target);
    if RoleOf(core.sessions, target).Host? {
      assert In(core.sessions[Find(core.sessions, target, 0).value], target);
    }
    hide OnSessionRequest, Unique;
  }

  lemma OthersSucceed(core: Core, me: Handler, p: Packet, now: int)
    requires Sound(core) && MayReceive(core, me, p) && !p.SessionRequest?
    ensures !HandlePacket(core, me, p, now).threw
  {
    hide OnNewUser, OnSessionRequest, CloseFrom, VideoFrom, DataFrom, ControlFrom, Sound;
    match p
    case NewUser(username) => RegisterSucceeds(core, me, username);
    case SessionClose(_) => CloseRefines(core, me.selfName, p);
    case VideoParams(vp) => VideoRefines(core, me.selfName, vp);
    case Data(_, _, _) => DataRefines(core, me.selfName, p);
    case ControlInput(_) => ControlRefines(core, me.selfName, p);
    case _ =>
  }

  lemma RegisterSucceeds(core: Core, me: Handler, username: Name)
    ensures !OnNewUser(core, me, username).threw
  {
  }

  /** Every session member is registered, on a running handler that carries the name. */
  lemma NoDanglingMembers(es: seq<Event>, i: nat, n: Name)
    requires Guarded(INITIAL, es)
    requires var s := Exec(INITIAL, es); i < |s.core.sessions| && In(s.core.sessions[i], n)
    ensures Bound(Exec(INITIAL, es), n)
  {
    Reachable(es);
  }

  /** The channel is that of a client of h. */
  ghost predicate OfClient(s: State, h: Name, d: Chan) {
    exists n :: n in s.core.users && s.core.users[n] == d && RoleOf(s.core.sessions, n) == ClientOf(h)
  }

  lemma TellSends(s: State, h: Name, p: Packet, d: Chan)
    requires Inv(s)
    ensures Sent(Tell(s.core.users, ClientsOf(Abs(s.core), h), p, s.core.out), d)
         == Sent(s.core.out, d) + if OfClient(s, h, d) then [p] else []
  {
    hide RoleOf, ParamsOf, Unique;
    if n :| n in s.core.users && s.core.users[n] == d && RoleOf(s.core.sessions, n) == ClientOf(h) {
      assert n in ClientsOf(Abs(s.core), h);
    }
  }

  /** After removeSelf the name is nowhere; the clients of a departing host each got one SESSION_CLOSE and
      nobody else got anything. */
  lemma RemovalLeavesNothing(s: State, c: Chan)
    requires Inv(s) && c in s.handlers && s.handlers[c].running && s.handlers[c].selfName != ""
    ensures var name := s.handlers[c].selfName;
            var t := Step(s, ExceptionCaught(c));
            && name !in t.core.users
            && (forall i :: 0 <= i < |t.core.sessions| ==> !In(t.core.sessions[i], name))
            && (forall n :: n in s.core.users && RoleOf(s.core.sessions, n) == ClientOf(name) ==>
                  Sent(t.core.out, s.core.users[n])
                  == Sent(s.core.out, s.core.users[n]) + [SessionClose(Some("Host Disconnected"))])
            && (forall d :: !OfClient(s, name, d) ==> Sent(t.core.out, d) == Sent(s.core.out, d))
  {
    hide Unique, RoleOf, ParamsOf, LeaveFrom, Tell;
    var name, t := s.handlers[c].selfName, Step(s, ExceptionCaught(c));
    RemovalRefines(s, c);
    assert Sound(t.core) && name !in t.core.users;
    forall d ensures Sent(t.core.out, d) == Sent(s.core.out, d)
                       + if OfClient(s, name, d) then [SessionClose(Some("Host Disconnected"))] else []
    {
      RemovalSends(s, name, d);
    }
    hide Inv, Sound;
  }

  lemma RemovalSends(s: State, name: Name, d: Chan)
    requires Inv(s) && name != ""
    ensures Sent(Remove(Abs(s.core), name).out, d) == Sent(s.core.out, d)
              + if OfClient(s, name, d) then [SessionClose(Some("Host Disconnected"))] else []
  {
    hide Unique, RoleOf, ParamsOf, Tell;
    TellSends(s, name, SessionClose(Some("Host Disconnected")), d);
    OnlyHostsHaveClients(s.core, name);
    if n :| n in s.core.users && s.core.users[n] == d && RoleOf(s.core.sessions, n) == ClientOf(name) {
      assert n in ClientsOf(Abs(s.core), name);
    }
  }

  lemma OnlyHostsHaveClients(core: Core, h: Name)
    requires Sound(core)
    ensures ClientsOf(Abs(core), h) != {} ==> h in core.users && Abs(core).role[h] == Host
  {
    if n :| n in ClientsOf(Abs(core), h) {
      var i := Find(core.sessions, n, 0).value;
      HostAt(core, i);
    }
  }
}
