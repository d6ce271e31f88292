/** What clients hear: the video params and data a host speaks reach exactly its clients, in order, and a
    late joiner catches up. */
module Relays {
  import opened Protocol
  import opened SessionRules
  import opened SessionMachine
  import opened SessionInvariant
  import opened Directory
  import opened Refinement
  import opened SessionTheorems

  predicate IsMedia(p: Packet) {
    p.Data? || p.VideoParams?
  }

  function Media(ps: seq<Packet>): seq<Packet> {
    if ps == [] then [] else Media(ps[..|ps| - 1]) + if IsMedia(ps[|ps| - 1]) then [ps[|ps| - 1]] else []
  }

  /** The last params among ps, or `before` when there are none. */
  function LastParams(ps: seq<Packet>, before: Option<Params>): Option<Params> {
    if ps == [] then before
    else if ps[|ps| - 1].VideoParams? then Some(ps[|ps| - 1].params)
    else LastParams(ps[..|ps| - 1], before)
  }

  lemma MediaSnoc(ps: seq<Packet>, p: Packet)
    ensures Media(ps + [p]) == Media(ps) + if IsMedia(p) then [p] else []
  {
    assert (ps + [p])[..|ps|] == ps;
  }

  lemma {:induction false} LastParamsConcat(ps: seq<Packet>, qs: seq<Packet>, before: Option<Params>)
    ensures LastParams(ps + qs, before) == LastParams(qs, LastParams(ps, before))
  {
    if qs == [] {
      assert ps + qs == ps;
    } else {
      assert (ps + qs)[..|ps + qs| - 1] == ps + qs[..|qs| - 1];
      LastParamsConcat(ps, qs[..|qs| - 1], before);
    }
  }

  lemma {:induction false} LastParamsDefault(ps: seq<Packet>, before: Option<Params>)
    ensures LastParams(ps, before) == if LastParams(ps, None).Some? then LastParams(ps, None) else before
  {
    if ps != [] { LastParamsDefault(ps[..|ps| - 1], before); }
  }

  // ---------- One step ----------

  /** The media packet the handler carrying name h is handed in this step, if any. */
  ghost function Spoken(handlers: map<Chan, Handler>, e: Event, h: Name): seq<Packet> {
    if e.Receive? && e.chan in handlers && handlers[e.chan].selfName == h && IsMedia(e.packet) then [e.packet] else []
  }

  /** The media channel c is sent in this step. */
  ghost function Heard(v: View, e: Event, c: Chan): seq<Packet> {
    if !e.Receive? || e.chan !in v.handlers then []
    else
      var me := v.handlers[e.chan];
      if IsMedia(e.packet) then
        if Standing(v.dir, me.selfName).Host?
            && Reaches(v.dir.users, ClientsOf(v.dir, me.selfName), c) then [e.packet] else []
      else if e.packet.SessionRequest? then
        var target := e.packet.name;
        if c == me.chan && target in v.dir.users && Standing(v.dir, target).Host?
           && target in v.dir.params && v.dir.params[target].Some?
        then [VideoParams(v.dir.params[target].value)] else []
      else []
  }

  lemma PushMedia(out: Outboxes, c: Chan, p: Packet, d: Chan)
    ensures Media(Sent(Push(out, c, p), d)) == Media(Sent(out, d)) + if d == c && IsMedia(p) then [p] else []
  {
    MediaSnoc(Sent(out, c), p);
  }

  lemma TellMedia(users: map<Name, Chan>, who: set<Name>, p: Packet, out: Outboxes, d: Chan)
    requires forall n :: n in users ==> users[n] in out
    ensures Media(Sent(Tell(users, who, p, out), d))
         == Media(Sent(out, d)) + if Reaches(users, who, d) && IsMedia(p) then [p] else []
  {
    MediaSnoc(Sent(out, d), p);
  }

  ghost predicate Open(d: Directory) {
    forall n :: n in d.users ==> d.users[n] in d.out
  }

  lemma RemoveMedia(d: Directory, self: Name, c: Chan)
    requires Open(d)
    ensures Media(Sent(Remove(d, self).out, c)) == Media(Sent(d.out, c))
  {
    hide Media;
    TellMedia(d.users, ClientsOf(d, self), HOST_GONE, d.out, c);
  }

  lemma RequestMedia(d: Directory, me: Handler, target: Name, c: Chan)
    requires Open(d)
    ensures var a := Request(d, me, target);
            && Open(a.dir)
            && Media(Sent(a.dir.out, c)) == Media(Sent(d.out, c)) +
                 if c == me.chan && target in d.users && Standing(d, target).Host?
                    && target in d.params && d.params[target].Some?
                 then [VideoParams(d.params[target].value)] else []
  {
    hide Media;
    var starting := ServerMessage(SessionStarting, true);
    PushMedia(d.out, me.chan, ServerMessage(UserNotFound, false), c);
    PushMedia(d.out, me.chan, ServerMessage(UserAlreadyInSession, false), c);
    PushMedia(d.out, me.chan, starting, c);
    var out := Push(d.out, me.chan, starting);
    if target in d.users { PushMedia(out, d.users[target], SessionRequest(target), c); }
    if target in d.params && d.params[target].Some? {
      PushMedia(out, me.chan, VideoParams(d.params[target].value), c);
    }
  }

  lemma RegisterMedia(d: Directory, me: Handler, username: Name, c: Chan)
    requires Open(d) && me.chan in d.out
    ensures Media(Sent(Register(d, me, username).out, c)) == Media(Sent(d.out, c))
  {
    hide Media;
    var users := d.users[username := me.chan];
    PushMedia(d.out, me.chan, ServerMessage(NameTaken, false), c);
    PushMedia(d.out, me.chan, ServerMessage(Success, true), c);
    TellMedia(users, users.Keys, UserList(users.Keys), Push(d.out, me.chan, ServerMessage(Success, true)), c);
  }

  lemma ReactMedia(d: Directory, me: Handler, p: Packet, now: int, c: Chan)
    requires Open(d) && me.chan in d.out
    requires !IsMedia(p) && !p.SessionRequest? && !p.NewUser?
    ensures Media(Sent(React(d, me, p, now).dir.out, c)) == Media(Sent(d.out, c))
  {
    hide Media;
    match p
    case Handshake(_) => PushMedia(d.out, me.chan, Handshake(SERVER_MAGIC), c);
    case Heartbeat(_) => PushMedia(d.out, me.chan, Heartbeat(now), c);
    case SessionClose(_) => TellMedia(d.users, ClientsOf(d, me.selfName), p, d.out, c);
    case ControlInput(_) =>
      var role := Standing(d, me.selfName);
      if role.ClientOf? && role.host in d.users { PushMedia(d.out, d.users[role.host], p, c); }
    case _ =>
  }

  /** In one guarded step a channel hears exactly what Heard says. */
  lemma StepHears(s: State, e: Event, c: Chan)
    requires Inv(s) && Guard(s, e)
    ensures Media(Sent(Step(s, e).core.out, c)) == Media(Sent(s.core.out, c)) + Heard(AbsState(s), e, c)
  {
    hide Media, Step, RoleOf, ParamsOf;
    StepRefines(s, e);
    var d := Abs(s.core);
    match e {
      case Connect(_, _) =>
      case Receive(c', p, now) =>
        if c' in s.handlers {
          var me := s.handlers[c'];
          assert Consistent(s, c');
          ReceiveHears(d, me, p, now, c);
        }
      case Watchdog(c', _) => if c' in s.handlers { RemoveMedia(d, s.handlers[c'].selfName, c); }
      case ExceptionCaught(c') => if c' in s.handlers { RemoveMedia(d, s.handlers[c'].selfName, c); }
    }
  }

  lemma ReceiveHears(d: Directory, me: Handler, p: Packet, now: int, c: Chan)
    requires Open(d) && me.chan in d.out
    ensures Media(Sent(React(d, me, p, now).dir.out, c))
         == Media(Sent(d.out, c)) + Heard(View(d, map[me.chan := me]), Receive(me.chan, p, now), c)
  {
    hide Media;
    match p
    case NewUser(username) => RegisterMedia(d, me, username, c);
    case SessionRequest(name) =>
      RequestMedia(d, me, name, c);
      RemoveMedia(Request(d, me, name).dir, me.selfName, c);
    case VideoParams(_) => TellMedia(d.users, ClientsOf(d, me.selfName), p, d.out, c);
    case Data(_, _, _) => TellMedia(d.users, ClientsOf(d, me.selfName), p, d.out, c);
    case _ => ReactMedia(d, me, p, now, c);
  }

  /** Params and data reach no channel but those of the speaking host's clients. */
  lemma OutsidersHearNothing(s: State, e: Event, c: Chan)
    requires Inv(s) && Guard(s, e)
    requires e.Receive? && e.chan in s.handlers && IsMedia(e.packet)
    requires forall u :: u in s.core.users && s.core.users[u] == c ==>
               RoleOf(s.core.sessions, u) != ClientOf(s.handlers[e.chan].selfName)
    ensures Media(Sent(Step(s, e).core.out, c)) == Media(Sent(s.core.out, c))
  {
    hide Media;
    StepHears(s, e, c);
  }
}
