/** Whole memberships: what a client hears from joining to leaving. */
module Memberships {
  import opened Protocol
  import opened SessionRules
  import opened SessionMachine
  import opened SessionInvariant
  import opened Directory
  import opened Refinement
  import opened SessionTheorems
  import opened Relays

  /** n has this role in every state of the run. */
  ghost predicate Throughout(s: State, es: seq<Event>, n: Name, role: SessionMachine.Role) {
    forall k :: 0 <= k <= |es| ==> RoleOf(Exec(s, es[..k]).core.sessions, n) == role
  }

  /** The media packets spoken by the connection named h, in order. */
  ghost function Stream(s: State, es: seq<Event>, h: Name): seq<Packet> {
    if es == [] then []
    else
      var front := es[..|es| - 1];
      Stream(s, front, h) + Spoken(Exec(s, front).handlers, es[|es| - 1], h)
  }

  lemma ThroughoutPrefix(s: State, es: seq<Event>, n: Name, role: SessionMachine.Role)
    requires es != [] && Throughout(s, es, n, role)
    ensures Throughout(s, es[..|es| - 1], n, role)
    ensures RoleOf(Exec(s, es[..|es| - 1]).core.sessions, n) == role && RoleOf(Exec(s, es).core.sessions, n) == role
  {
    var front := es[..|es| - 1];
    forall k | 0 <= k <= |front| ensures RoleOf(Exec(s, front[..k]).core.sessions, n) == role {
      assert front[..k] == es[..k];
    }
    assert front[..|front|] == front && es[..|es|] == es;
  }

  lemma {:induction false} StreamConcat(s: State, es: seq<Event>, fs: seq<Event>, h: Name)
    ensures Stream(s, es + fs, h) == Stream(s, es, h) + Stream(Exec(s, es), fs, h)
  {
    if fs == [] {
      assert es + fs == es;
    } else {
      var front := fs[..|fs| - 1];
      assert (es + fs)[..|es + fs| - 1] == es + front;
      StreamConcat(s, es, front, h);
      ExecConcat(s, es, front);
    }
  }

  // ---------- One step of a membership ----------

  lemma ChannelKept(s: State, e: Event, u: Name)
    requires Inv(s) && Guard(s, e) && u in s.core.users && u in Step(s, e).core.users
    ensures Step(s, e).core.users[u] == s.core.users[u]
  {
    hide Step, RoleOf, ParamsOf;
    StepRefines(s, e);
    assert AbsState(Step(s, e)).dir.users == Step(s, e).core.users;
    assert AbsState(s).dir.users == s.core.users;
  }

  /** A client hears from each step what its host speaks in it. */
  lemma MemberHears(s: State, e: Event, u: Name, h: Name)
    requires Inv(s) && Guard(s, e) && RoleOf(s.core.sessions, u) == ClientOf(h)
    ensures u in s.core.users && Heard(AbsState(s), e, s.core.users[u]) == Spoken(s.handlers, e, h)
  {
    hide Media, RoleOf, ParamsOf;
    RoleIsPublic(s, u);
    var d := Abs(s.core);
    if e.Receive? && e.chan in s.handlers {
      var me := s.handlers[e.chan];
      RoleIsPublic(s, me.selfName);
      if me.selfName == h {
        assert u in ClientsOf(d, h);
      }
      if e.packet.SessionRequest? && e.chan == d.users[u] {
        assert Bound(s, u);
        RoleIsPublic(s, e.packet.name);
      }
      assert Consistent(s, e.chan);
    }
  }

  /** While h hosts, its stored params are the last it spoke. */
  lemma ParamsFollow(s: State, e: Event, h: Name)
    requires Inv(s) && Guard(s, e)
    requires RoleOf(s.core.sessions, h) == Host && RoleOf(Step(s, e).core.sessions, h) == Host
    ensures ParamsOf(Step(s, e).core.sessions, h) == LastParams(Spoken(s.handlers, e, h), ParamsOf(s.core.sessions, h))
  {
    StepRefines(s, e);
    RoleIsPublic(s, h);
    RoleIsPublic(Step(s, e), h);
    ViewParams(AbsState(s), e, h);
  }

  lemma ViewParams(v: View, e: Event, h: Name)
    requires Standing(v.dir, h) == Host && Standing(ViewStep(v, e).dir, h) == Host && h in v.dir.params
    ensures var v' := ViewStep(v, e);
            h in v'.dir.params && v'.dir.params[h] == LastParams(Spoken(v.handlers, e, h), v.dir.params[h])
  {
    if e.Receive? && e.chan in v.handlers {
      ReactParams(v.dir, v.handlers[e.chan], e.packet, e.now, h);
    }
  }

  lemma ReactParams(d: Directory, me: Handler, p: Packet, now: int, h: Name)
    requires Standing(d, h) == Host && Standing(React(d, me, p, now).dir, h) == Host && h in d.params
    ensures var d' := React(d, me, p, now).dir;
            h in d'.params && d'.params[h] == if p.VideoParams? && me.selfName == h then Some(p.params) else d.params[h]
  {
  }

  // ---------- Whole memberships ----------

  /** From any state on, what a client hears while it stays a client of h is exactly what h speaks in that
      interval: nothing lost, added, altered or reordered. */
  lemma {:induction false} MembershipHears(s: State, es: seq<Event>, u: Name, h: Name)
    requires Inv(s) && Guarded(s, es) && Throughout(s, es, u, ClientOf(h))
    ensures var t := Exec(s, es);
            && u in s.core.users && u in t.core.users && t.core.users[u] == s.core.users[u]
            && Media(Sent(t.core.out, t.core.users[u])) == Media(Sent(s.core.out, s.core.users[u])) + Stream(s, es, h)
  {
    hide *;
    assert es[..0] == [];
    OneStep(s, es, h);
    ThroughoutAt(s, es, u, ClientOf(h), 0);
    RoleIsPublic(s, u);
    if es != [] {
      var front, e := es[..|es| - 1], es[|es| - 1];
      GuardedPrefix(s, es);
      ThroughoutPrefix(s, es, u, ClientOf(h));
      MembershipHears(s, front, u, h);
      ExecRefines(s, front);
      ExecRefines(s, es);
      MemberStep(Exec(s, front), e, u, h);
    }
  }

  lemma OneStep(s: State, es: seq<Event>, h: Name)
    ensures Exec(s, []) == s && Stream(s, [], h) == []
    ensures es != [] ==>
              var m, e := Exec(s, es[..|es| - 1]), es[|es| - 1];
              Exec(s, es) == Step(m, e) && Stream(s, es, h) == Stream(s, es[..|es| - 1], h) + Spoken(m.handlers, e, h)
  {
  }

  lemma MemberStep(s: State, e: Event, u: Name, h: Name)
    requires Inv(s) && Guard(s, e) && RoleOf(s.core.sessions, u) == ClientOf(h)
    requires RoleOf(Step(s, e).core.sessions, u) == ClientOf(h)
    ensures var t := Step(s, e);
            && u in s.core.users && u in t.core.users && t.core.users[u] == s.core.users[u]
            && Media(Sent(t.core.out, t.core.users[u]))
                == Media(Sent(s.core.out, s.core.users[u])) + Spoken(s.handlers, e, h)
  {
    StepRefines(s, e);
    RoleIsPublic(s, u);
    RoleIsPublic(Step(s, e), u);
    ChannelKept(s, e, u);
    MemberHears(s, e, u, h);
    StepHears(s, e, s.core.users[u]);
  }

  /** Throughout a session the stored params are the last its host spoke. */
  lemma {:induction false} ParamsTracked(s: State, es: seq<Event>, h: Name)
    requires Inv(s) && Guarded(s, es) && Throughout(s, es, h, Host)
    ensures ParamsOf(Exec(s, es).core.sessions, h) == LastParams(Stream(s, es, h), ParamsOf(s.core.sessions, h))
  {
    if es != [] {
      var front, e := es[..|es| - 1], es[|es| - 1];
      GuardedPrefix(s, es);
      ThroughoutPrefix(s, es, h, Host);
      ParamsTracked(s, front, h);
      ExecRefines(s, front);
      ParamsFollow(Exec(s, front), e, h);
      LastParamsConcat(Stream(s, front, h), Spoken(Exec(s, front).handlers, e, h), ParamsOf(s.core.sessions, h));
    }
  }

  lemma ClientsHostThroughout(s: State, es: seq<Event>, u: Name, h: Name)
    requires Inv(s) && Guarded(s, es) && Throughout(s, es, u, ClientOf(h))
    ensures Throughout(s, es, h, Host)
  {
    forall k | 0 <= k <= |es| ensures RoleOf(Exec(s, es[..k]).core.sessions, h) == Host {
      GuardedSplit(s, es, k);
      ExecRefines(s, es[..k]);
      RoleIsPublic(Exec(s, es[..k]), u);
    }
  }

  /** A step that makes u a client of h is u's own request, and what u hears in it is the params h's session
      has stored: none when the session is new. */
  lemma Joining(s: State, e: Event, u: Name, h: Name)
    requires Inv(s) && Guard(s, e)
    requires RoleOf(s.core.sessions, u) != ClientOf(h) && RoleOf(Step(s, e).core.sessions, u) == ClientOf(h)
    ensures var t := Step(s, e);
            && u in s.core.users && u in t.core.users && t.core.users[u] == s.core.users[u]
            && e.Receive? && e.chan == s.core.users[u] && e.packet == SessionRequest(h)
            && Spoken(s.handlers, e, h) == []
            && var gained := Heard(AbsState(s), e, s.core.users[u]);
               && Media(Sent(t.core.out, t.core.users[u])) == Media(Sent(s.core.out, s.core.users[u])) + gained
               && ParamsOf(t.core.sessions, h) == LastParams(gained, None)
               && (gained != [] ==> gained[0].VideoParams?)
               && (RoleOf(s.core.sessions, h) == Idle ==> gained == [])
               && (RoleOf(s.core.sessions, h) != Idle ==> RoleOf(s.core.sessions, h) == Host && gained != [])
  {
    hide Media, Step, RoleOf, ParamsOf, React, Sound;
    var t := Step(s, e);
    StepRefines(s, e);
    RoleIsPublic(s, u);
    RoleIsPublic(s, h);
    RoleIsPublic(t, u);
    RoleIsPublic(t, h);
    if e.Receive? && e.chan in s.handlers {
      assert Consistent(s, e.chan);
      if e.packet.SessionRequest? { RoleIsPublic(s, e.packet.name); }
      JoiningReaction(Abs(s.core), s.handlers[e.chan], e.packet, e.now, u, h);
      StepHears(s, e, s.core.users[u]);
    } else {
      NoJoining(AbsState(s), e, u, h);
    }
  }

  lemma NoJoining(v: View, e: Event, u: Name, h: Name)
    requires !(e.Receive? && e.chan in v.handlers)
    ensures Standing(ViewStep(v, e).dir, u) == ClientOf(h) ==> Standing(v.dir, u) == ClientOf(h)
  {
  }

  lemma JoiningReaction(d: Directory, me: Handler, p: Packet, now: int, u: Name, h: Name)
    requires Standing(d, u) != ClientOf(h) && Standing(React(d, me, p, now).dir, u) == ClientOf(h)
    requires p.SessionRequest? && p.name in d.users && !Standing(d, p.name).ClientOf? ==> me.selfName != ""
    ensures p == SessionRequest(h) && me.selfName == u && h in d.users
    ensures var d' := React(d, me, p, now).dir;
            && ((Standing(d, h) == Idle && h in d'.params && d'.params[h] == None)
                || (Standing(d, h) == Host && h in d.params && d.params[h].Some? && h in d'.params
                    && d'.params[h] == d.params[h]))
  {
    if p.SessionRequest? {
      GrantedRequest(d, me, p.name, now, u, h);
    } else {
      OnlyRequestsJoin(d, me, p, now, u, h);
    }
    hide React;
  }

  lemma OnlyRequestsJoin(d: Directory, me: Handler, p: Packet, now: int, u: Name, h: Name)
    requires !p.SessionRequest? && Standing(d, u) != ClientOf(h)
    ensures Standing(React(d, me, p, now).dir, u) != ClientOf(h)
  {
  }

  lemma GrantedRequest(d: Directory, me: Handler, target: Name, now: int, u: Name, h: Name)
    requires Standing(d, u) != ClientOf(h) && Standing(React(d, me, SessionRequest(target), now).dir, u) == ClientOf(h)
    requires target in d.users && !Standing(d, target).ClientOf? ==> me.selfName != ""
    ensures target == h && me.selfName == u && h in d.users
    ensures var d' := React(d, me, SessionRequest(target), now).dir;
            && ((Standing(d, h) == Idle && h in d'.params && d'.params[h] == None)
                || (Standing(d, h) == Host && h in d.params && d.params[h].Some? && h in d'.params
                    && d'.params[h] == d.params[h]))
  {
  }

  lemma OneEvent(s: State, e: Event, h: Name)
    ensures Exec(s, []) == s && Exec(s, [e]) == Step(s, e)
    ensures Stream(s, [e], h) == Spoken(s.handlers, e, h)
  {
    assert [e][..0] == [];
  }

  /** Cutting a run at j: the second part starts where the first ends. */
  lemma Cut(s: State, es: seq<Event>, j: nat, h: Name)
    requires Guarded(s, es) && j < |es|
    ensures var m := Exec(s, es[..j]);
            && Guarded(s, es[..j]) && Guarded(m, es[j..]) && Guard(m, es[j])
            && Exec(m, es[j..]) == Exec(s, es)
            && Exec(s, es[..j + 1]) == Step(m, es[j])
            && Stream(s, es, h) == Stream(s, es[..j], h) + Stream(m, es[j..], h)
  {
    hide Exec, Step, Guard, Stream;
    GuardedSplit(s, es, j);
    ExecConcat(s, es[..j], es[j..]);
    StreamConcat(s, es[..j], es[j..], h);
    assert es[..j] + es[j..] == es;
    assert es[..j + 1] == es[..j] + [es[j]];
    ExecSnoc(s, es[..j], es[j]);
  }

  lemma ThroughoutAt(s: State, es: seq<Event>, n: Name, role: SessionMachine.Role, k: nat)
    requires Throughout(s, es, n, role) && k <= |es|
    ensures RoleOf(Exec(s, es[..k]).core.sessions, n) == role
  {
  }

  /** What u hears from joining in the first event to the end of es is one run of media: the stored params if
      the session was there already, then what h speaks. Its last params are the stored ones: catching up
      equals live. */
  lemma JoinedHears(s: State, es: seq<Event>, u: Name, h: Name)
    requires Inv(s) && es != [] && Guarded(s, es)
    requires RoleOf(s.core.sessions, u) != ClientOf(h)
    requires Throughout(Step(s, es[0]), es[1..], u, ClientOf(h))
    ensures var t := Exec(s, es);
            && u in s.core.users && u in t.core.users && t.core.users[u] == s.core.users[u]
            && var gained := Heard(AbsState(s), es[0], s.core.users[u]) + Stream(Step(s, es[0]), es[1..], h);
               && Media(Sent(t.core.out, t.core.users[u])) == Media(Sent(s.core.out, s.core.users[u])) + gained
               && ParamsOf(t.core.sessions, h) == LastParams(gained, None)
               && (RoleOf(s.core.sessions, h) != Idle ==> gained != [] && gained[0].VideoParams?)
               && (RoleOf(s.core.sessions, h) == Idle ==> gained == Stream(s, es, h))
  {
    hide *;
    var t1, rest := Step(s, es[0]), es[1..];
    OneEvent(s, es[0], h);
    OneEvent(t1, es[0], h);
    assert es[..0] == [] && es[..1] == [es[0]] && rest[..0] == [];
    Cut(s, es, 0, h);
    GuardedTail(s, es, h);
    ThroughoutAt(t1, rest, u, ClientOf(h), 0);
    Joining(s, es[0], u, h);
    StepRefines(s, es[0]);
    MembershipHears(t1, rest, u, h);
    ClientsHostThroughout(t1, rest, u, h);
    ParamsTracked(t1, rest, h);
    LastParamsConcat(Heard(AbsState(s), es[0], s.core.users[u]), Stream(t1, rest, h), None);
  }

  lemma GuardedTail(s: State, es: seq<Event>, h: Name)
    requires es != [] && Guarded(s, es)
    ensures Guarded(Step(s, es[0]), es[1..]) && Exec(Step(s, es[0]), es[1..]) == Exec(s, es)
    ensures Stream(s, es, h) == Spoken(s.handlers, es[0], h) + Stream(Step(s, es[0]), es[1..], h)
  {
    assert es[..1] == [es[0]] && es[..1] + es[1..] == es;
    OneEvent(s, es[0], h);
    GuardedSplit(s, es, 1);
    ExecConcat(s, es[..1], es[1..]);
    StreamConcat(s, es[..1], es[1..], h);
  }

  /** A host whose stream in its session opens with video params is never heard by a client, original or late,
      with data before params. The session begins with the first event; u joins with the event at j. */
  lemma ParamsBeforeData(s: State, es: seq<Event>, j: nat, u: Name, h: Name)
    requires Inv(s) && Guarded(s, es) && j < |es|
    requires RoleOf(s.core.sessions, h) == Idle && Throughout(Step(s, es[0]), es[1..], h, Host)
    requires Stream(s, es, h) != [] ==> Stream(s, es, h)[0].VideoParams?
    requires RoleOf(Exec(s, es[..j]).core.sessions, u) != ClientOf(h)
    requires Throughout(Exec(s, es[..j + 1]), es[j + 1..], u, ClientOf(h))
    ensures var m, t := Exec(s, es[..j]), Exec(s, es);
            && u in m.core.users && u in t.core.users && t.core.users[u] == m.core.users[u]
            && var before, after := Media(Sent(m.core.out, m.core.users[u])), Media(Sent(t.core.out, t.core.users[u]));
               before <= after && (|after| > |before| ==> after[|before|].VideoParams?)
  {
    hide *;
    var m, rest := Exec(s, es[..j]), es[j..];
    Cut(s, es, j, h);
    ExecRefines(s, es[..j]);
    assert rest[0] == es[j] && rest[1..] == es[j + 1..];
    JoinedHears(m, rest, u, h);
    if j == 0 {
      assert es[..0] == [] && rest == es;
      OneEvent(s, es[0], h);
    } else {
      Cut(s, es, 0, h);
      OneEvent(s, es[0], h);
      assert es[..0] == [] && es[..1] == [es[0]] && es[1..][..j - 1] == es[1..j] && es[..1] + es[1..j] == es[..j];
      ExecConcat(s, es[..1], es[1..j]);
      ThroughoutAt(Step(s, es[0]), es[1..], h, Host, j - 1);
    }
  }

  // ---------- Catching up ----------

  /** The last VIDEO_PARAMS sent to every current client of a session that has stored params are those. */
  ghost predicate CaughtUp(s: State) {
    forall u, h :: RoleOf(s.core.sessions, u) == ClientOf(h) && ParamsOf(s.core.sessions, h).Some? ==>
      u in s.core.users
      && LastParams(Media(Sent(s.core.out, s.core.users[u])), None) == ParamsOf(s.core.sessions, h)
  }

  lemma StepCatchesUp(s: State, e: Event)
    requires Inv(s) && Guard(s, e) && CaughtUp(s)
    ensures CaughtUp(Step(s, e))
  {
    var t := Step(s, e);
    forall u, h | RoleOf(t.core.sessions, u) == ClientOf(h) && ParamsOf(t.core.sessions, h).Some?
      ensures u in t.core.users
           && LastParams(Media(Sent(t.core.out, t.core.users[u])), None) == ParamsOf(t.core.sessions, h)
    {
      hide Step, Inv, Media, LastParams, RoleOf, ParamsOf, Heard;
      if RoleOf(s.core.sessions, u) == ClientOf(h) {
        StaysCaughtUp(s, e, u, h);
      } else {
        Joining(s, e, u, h);
        var before, heard := Media(Sent(s.core.out, s.core.users[u])), Heard(AbsState(s), e, s.core.users[u]);
        LastParamsConcat(before, heard, None);
        LastParamsDefault(heard, LastParams(before, None));
      }
    }
  }

  lemma StaysCaughtUp(s: State, e: Event, u: Name, h: Name)
    requires Inv(s) && Guard(s, e) && CaughtUp(s)
    requires RoleOf(s.core.sessions, u) == ClientOf(h) && RoleOf(Step(s, e).core.sessions, u) == ClientOf(h)
    requires ParamsOf(Step(s, e).core.sessions, h).Some?
    ensures var t := Step(s, e);
            u in t.core.users && LastParams(Media(Sent(t.core.out, t.core.users[u])), None)
                == ParamsOf(t.core.sessions, h)
  {
    hide Step, Inv, Media, LastParams, RoleOf, ParamsOf, Spoken;
    MemberStep(s, e, u, h);
    StepRefines(s, e);
    RoleIsPublic(s, u);
    RoleIsPublic(Step(s, e), u);
    ParamsFollow(s, e, h);
    var before, spoken := Media(Sent(s.core.out, s.core.users[u])), Spoken(s.handlers, e, h);
    LastParamsConcat(before, spoken, None);
    LastParamsDefault(spoken, LastParams(before, None));
    LastParamsDefault(spoken, ParamsOf(s.core.sessions, h));
  }

  lemma {:induction false} ClientsCatchUp(es: seq<Event>)
    requires Guarded(INITIAL, es)
    ensures CaughtUp(Exec(INITIAL, es))
  {
    if es != [] {
      GuardedPrefix(INITIAL, es);
      ClientsCatchUp(es[..|es| - 1]);
      Reachable(es[..|es| - 1]);
      StepCatchesUp(Exec(INITIAL, es[..|es| - 1]), es[|es| - 1]);
    }
  }
}
