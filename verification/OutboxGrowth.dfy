/** What the handlers add to the outboxes, seen through the user list each channel was sent last and the number of
    heartbeats it was sent. */
module OutboxGrowth {
  import opened Protocol
  import opened SessionRules
  import opened SessionMachine
  import opened SessionInvariant

  function LastList(ps: seq<Packet>): Option<set<Name>> {
    if ps == [] then None
    else if ps[|ps| - 1].UserList? then Some(ps[|ps| - 1].users)
    else LastList(ps[..|ps| - 1])
  }

  function Beats(ps: seq<Packet>): nat {
    if ps == [] then 0 else Beats(ps[..|ps| - 1]) + if ps[|ps| - 1].Heartbeat? then 1 else 0
  }

  /** No outbox has another last user list than before. */
  ghost predicate SameLists(out: Outboxes, out': Outboxes) {
    forall c :: LastList(Sent(out', c)) == LastList(Sent(out, c))
  }

  /** Nor more heartbeats. */
  ghost predicate Quiet(out: Outboxes, out': Outboxes) {
    SameLists(out, out') && forall c :: Beats(Sent(out', c)) == Beats(Sent(out, c))
  }

  lemma PushQuiet(out: Outboxes, c: Chan, p: Packet)
    requires !p.UserList?
    ensures SameLists(out, Push(out, c, p)) && (!p.Heartbeat? ==> Quiet(out, Push(out, c, p)))
  {
    assert (Sent(out, c) + [p])[..|Sent(out, c)|] == Sent(out, c);
  }

  lemma {:induction false} SendAllQuiet(users: map<Name, Chan>, names: seq<Name>, p: Packet, out: Outboxes)
    requires !p.UserList? && !p.Heartbeat?
    ensures Quiet(out, SendAll(users, names, p, out).out)
  {
    if names != [] && names[0] in users {
      PushQuiet(out, users[names[0]], p);
      SendAllQuiet(users, names[1..], p, Push(out, users[names[0]], p));
    }
  }

  lemma {:induction false} CloseQuiet(core: Core, self: Name, p: Packet, i: nat, kept: Option<nat>)
    requires !p.UserList? && !p.Heartbeat? && i <= |core.sessions| && (kept.Some? ==> kept.value < |core.sessions|)
    ensures var e := CloseFrom(core, self, p, i, kept);
            e.core.users == core.users && Quiet(core.out, e.core.out)
    decreases |core.sessions| - i
  {
    if i < |core.sessions| {
      var session := core.sessions[i];
      if session.host == self {
        SendAllQuiet(core.users, session.clients, p, core.out);
        CloseQuiet(core.(out := SendAll(core.users, session.clients, p, core.out).out), self, p, i + 1, Some(i));
      } else if self !in session.clients {
        CloseQuiet(core, self, p, i + 1, kept);
      }
    }
  }

  lemma {:induction false} VideoQuiet(core: Core, self: Name, vp: Params, i: nat)
    requires i <= |core.sessions|
    ensures var e := VideoFrom(core, self, vp, i);
            e.core.users == core.users && Quiet(core.out, e.core.out)
    decreases |core.sessions| - i
  {
    if i < |core.sessions| {
      var told := SendAll(core.users, core.sessions[i].clients, VideoParams(vp), core.out);
      SendAllQuiet(core.users, core.sessions[i].clients, VideoParams(vp), core.out);
      var stored := core.(sessions := core.sessions[i := core.sessions[i].(params := Some(vp))], out := told.out);
      VideoQuiet(if core.sessions[i].host == self then stored else core, self, vp, i + 1);
    }
  }

  lemma {:induction false} DataQuiet(core: Core, self: Name, p: Packet, i: nat)
    requires !p.UserList? && !p.Heartbeat? && i <= |core.sessions|
    ensures var e := DataFrom(core, self, p, i);
            e.core.users == core.users && Quiet(core.out, e.core.out)
    decreases |core.sessions| - i
  {
    if i < |core.sessions| {
      var told := SendAll(core.users, core.sessions[i].clients, p, core.out);
      SendAllQuiet(core.users, core.sessions[i].clients, p, core.out);
      DataQuiet(if core.sessions[i].host == self then core.(out := told.out) else core, self, p, i + 1);
    }
  }

  lemma {:induction false} ControlQuiet(core: Core, self: Name, p: Packet, i: nat)
    requires !p.UserList? && !p.Heartbeat? && i <= |core.sessions|
    ensures var e := ControlFrom(core, self, p, i);
            e.core.users == core.users && Quiet(core.out, e.core.out)
    decreases |core.sessions| - i
  {
    if i < |core.sessions| {
      var host := core.sessions[i].host;
      if host in core.users { PushQuiet(core.out, core.users[host], p); }
      ControlQuiet(
        if self in core.sessions[i].clients && host in core.users
        then core.(out := Push(core.out, core.users[host], p)) else core, self, p, i + 1);
    }
  }

  lemma QuietTwice(a: Outboxes, b: Outboxes, c: Outboxes)
    requires Quiet(a, b) && Quiet(b, c)
    ensures Quiet(a, c)
  {
  }

  lemma RequestQuiet(core: Core, me: Handler, target: Name)
    ensures var e := OnSessionRequest(core, me, target);
            e.core.users == core.users && Quiet(core.out, e.core.out)
  {
    hide Quiet, Push, Find;
    RequestFound(core, me, target, 0);
    var starting := ServerMessage(SessionStarting, true);
    var out := Push(core.out, me.chan, starting);
    PushQuiet(core.out, me.chan, starting);
    if target !in core.users {
      PushQuiet(core.out, me.chan, ServerMessage(UserNotFound, false));
    } else {
      match Find(core.sessions, target, 0) {
        case None =>
          PushQuiet(out, core.users[target], SessionRequest(target));
          QuietTwice(core.out, out, Push(out, core.users[target], SessionRequest(target)));
        case Some(k) =>
          PushQuiet(core.out, me.chan, ServerMessage(UserAlreadyInSession, false));
          if core.sessions[k].params.Some? {
            var vp := VideoParams(core.sessions[k].params.value);
            PushQuiet(out, me.chan, vp);
            QuietTwice(core.out, out, Push(out, me.chan, vp));
          }
      }
    }
  }

  lemma RemovalQuiet(core: Core, me: Handler)
    ensures var o := RemoveSelf(core, me);
            && (o.core.users == core.users || o.core.users == core.users - {me.selfName})
            && Quiet(core.out, o.core.out)
  {
    LeaveFound(core, me.selfName, 0);
    match Find(core.sessions, me.selfName, 0) {
      case None =>
      case Some(k) => SendAllQuiet(core.users, core.sessions[k].clients, HOST_GONE, core.out);
    }
  }

  lemma HandlingQuiet(core: Core, me: Handler, p: Packet, now: int)
    requires !p.NewUser?
    ensures var o := HandlePacket(core, me, p, now);
            && o.core.users == core.users && SameLists(core.out, o.core.out)
            && (!p.Heartbeat? ==> Quiet(core.out, o.core.out) && o.me.lastHeartbeat == me.lastHeartbeat)
  {
    hide OnSessionRequest, CloseFrom, VideoFrom, DataFrom, ControlFrom, LastList, Beats;
    match p
    case Handshake(_) => PushQuiet(core.out, me.chan, Handshake(SERVER_MAGIC));
    case SessionRequest(name) => RequestQuiet(core, me, name);
    case SessionClose(_) => CloseQuiet(core, me.selfName, p, 0, None);
    case Heartbeat(_) => PushQuiet(core.out, me.chan, Heartbeat(now));
    case VideoParams(vp) => VideoQuiet(core, me.selfName, vp, 0);
    case Data(_, _, _) => DataQuiet(core, me.selfName, p, 0);
    case ControlInput(_) => ControlQuiet(core, me.selfName, p, 0);
    case _ =>
  }
}
