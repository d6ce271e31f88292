/** What each packet handler of the distributor does to the shared tables, as functions on values.
    The scans keep the order, early exits and null lookups of the Java loops; the class in
    Distributor.dfy is proved against these functions. */
module SessionRules {
  import opened Protocol

  datatype Session = Session(host: Name, clients: seq<Name>, params: Option<Params>)

  type Outboxes = map<Chan, seq<Packet>>

  /** The static state of UsersData, and everything written to each channel so far. */
  datatype Core = Core(users: map<Name, Chan>, sessions: seq<Session>, out: Outboxes)

  /** The fields of one ServerHandler. */
  datatype Handler = Handler(chan: Chan, selfName: Name, running: bool, lastHeartbeat: int)

  /** A scan's effect; `threw` says that it ended in a NullPointerException. */
  datatype Effect = Effect(core: Core, threw: bool)

  datatype Outcome = Outcome(core: Core, me: Handler, threw: bool)

  // ---------- Channels ----------

  function Sent(out: Outboxes, c: Chan): seq<Packet> {
    if c in out then out[c] else []
  }

  function Push(out: Outboxes, c: Chan, p: Packet): Outboxes {
    out[c := Sent(out, c) + [p]]
  }

  datatype Delivery = Delivery(out: Outboxes, threw: bool)

  /** Sends p to each name in turn; an unregistered name is a null channel. */
  function SendAll(users: map<Name, Chan>, names: seq<Name>, p: Packet, out: Outboxes): Delivery {
    if names == [] then Delivery(out, false)
    else if names[0] !in users then Delivery(out, true)
    else SendAll(users, names[1..], p, Push(out, users[names[0]], p))
  }

  ghost function NamesOn(users: map<Name, Chan>, within: set<Name>, c: Chan): set<Name> {
    set n | n in within && n in users && users[n] == c
  }

  /** Every channel gets p once for each name bound to it. */
  ghost function SendToNames(users: map<Name, Chan>, within: set<Name>, p: Packet, out: Outboxes): Outboxes
    requires within <= users.Keys
  {
    map c | c in out.Keys + (set n | n in within :: users[n]) ::
      Sent(out, c) + seq(|NamesOn(users, within, c)|, _ => p)
  }

  // ---------- Lists ----------

  function RemoveAt<T>(s: seq<T>, i: nat): seq<T>
    requires i < |s|
  {
    s[..i] + s[i + 1..]
  }

  function RemoveFirst(s: seq<Name>, n: Name): seq<Name> {
    if s == [] then []
    else if s[0] == n then s[1..]
    else [s[0]] + RemoveFirst(s[1..], n)
  }

  // ---------- Handlers ----------

  ghost function OnNewUser(core: Core, me: Handler, username: Name): Outcome {
    if username !in core.users then
      var users := core.users[username := me.chan];
      var out := Push(core.out, me.chan, ServerMessage(Success, true));
      Outcome(core.(users := users, out := SendToNames(users, users.Keys, UserList(users.Keys), out)),
              me.(selfName := username), false)
    else
      Outcome(core.(out := Push(core.out, me.chan, ServerMessage(NameTaken, false))), me, false)
  }

  function OnSessionRequest(core: Core, me: Handler, target: Name): Effect {
    if target !in core.users then
      Effect(core.(out := Push(core.out, me.chan, ServerMessage(UserNotFound, false))), false)
    else
      RequestFrom(core, me, target, 0)
  }

  function RequestFrom(core: Core, me: Handler, target: Name, i: nat): Effect
    requires i <= |core.sessions|
    decreases |core.sessions| - i
  {
    if i == |core.sessions| then
      var begun := core.(sessions := core.sessions + [Session(target, [me.selfName], None)],
                          out := Push(core.out, me.chan, ServerMessage(SessionStarting, true)));
      if target in core.users then
        Effect(begun.(out := Push(begun.out, core.users[target], SessionRequest(target))), false)
      else
        Effect(begun, true)
    else
      var session := core.sessions[i];
      if session.host == target then
        var joined := core.(sessions := core.sessions[i := session.(clients := session.clients + [me.selfName])],
                            out := Push(core.out, me.chan, ServerMessage(SessionStarting, true)));
        match session.params
        case None => Effect(joined, true)
        case Some(vp) => Effect(joined.(out := Push(joined.out, me.chan, VideoParams(vp))), false)
      else if target in session.clients then
        Effect(core.(out := Push(core.out, me.chan, ServerMessage(UserAlreadyInSession, false))), false)
      else
        RequestFrom(core, me, target, i + 1)
  }

  function Dropped(core: Core, toRemove: Option<nat>): Core
    requires toRemove.Some? ==> toRemove.value < |core.sessions|
  {
    match toRemove
    case None => core
    case Some(k) => core.(sessions := RemoveAt(core.sessions, k))
  }

  /** A host's close goes on scanning, a client's returns at once and drops nothing. */
  function CloseFrom(core: Core, self: Name, p: Packet, i: nat, toRemove: Option<nat>): Effect
    requires i <= |core.sessions|
    requires toRemove.Some? ==> toRemove.value < |core.sessions|
    decreases |core.sessions| - i
  {
    if i == |core.sessions| then
      Effect(Dropped(core, toRemove), false)
    else
      var session := core.sessions[i];
      if session.host == self then
        var told := SendAll(core.users, session.clients, p, core.out);
        if told.threw then Effect(core.(out := told.out), true)
        else CloseFrom(core.(out := told.out), self, p, i + 1, Some(i))
      else if self in session.clients then
        Effect(core.(sessions := core.sessions[i := session.(clients := RemoveFirst(session.clients, self))]), false)
      else
        CloseFrom(core, self, p, i + 1, toRemove)
  }

  function VideoFrom(core: Core, self: Name, vp: Params, i: nat): Effect
    requires i <= |core.sessions|
    decreases |core.sessions| - i
  {
    if i == |core.sessions| then Effect(core, false)
    else if core.sessions[i].host == self then
      var told := SendAll(core.users, core.sessions[i].clients, VideoParams(vp), core.out);
      var stored := core.(sessions := core.sessions[i := core.sessions[i].(params := Some(vp))], out := told.out);
      if told.threw then Effect(stored, true) else VideoFrom(stored, self, vp, i + 1)
    else VideoFrom(core, self, vp, i + 1)
  }

  function DataFrom(core: Core, self: Name, p: Packet, i: nat): Effect
    requires i <= |core.sessions|
    decreases |core.sessions| - i
  {
    if i == |core.sessions| then Effect(core, false)
    else if core.sessions[i].host == self then
      var told := SendAll(core.users, core.sessions[i].clients, p, core.out);
      if told.threw then Effect(core.(out := told.out), true)
      else DataFrom(core.(out := told.out), self, p, i + 1)
    else DataFrom(core, self, p, i + 1)
  }

  function ControlFrom(core: Core, self: Name, p: Packet, i: nat): Effect
    requires i <= |core.sessions|
    decreases |core.sessions| - i
  {
    if i == |core.sessions| then Effect(core, false)
    else if self in core.sessions[i].clients then
      var host := core.sessions[i].host;
      if host !in core.users then Effect(core, true)
      else ControlFrom(core.(out := Push(core.out, core.users[host], p)), self, p, i + 1)
    else ControlFrom(core, self, p, i + 1)
  }

  const HOST_GONE := SessionClose(Some("Host Disconnected"))

  /** removeSelf's scan: it stops at the first session the name is in. */
  function LeaveFrom(core: Core, self: Name, i: nat): Effect
    requires i <= |core.sessions|
    decreases |core.sessions| - i
  {
    if i == |core.sessions| then Effect(core, false)
    else
      var session := core.sessions[i];
      if session.host == self then
        var told := SendAll(core.users, session.clients, HOST_GONE, core.out);
        if told.threw then Effect(core.(out := told.out), true)
        else Effect(core.(out := told.out, sessions := RemoveAt(core.sessions, i)), false)
      else if self in session.clients then
        var left := session.(clients := RemoveFirst(session.clients, self));
        var ss := core.sessions[i := left];
        Effect(core.(sessions := if left.clients == [] then RemoveAt(ss, i) else ss), false)
      else LeaveFrom(core, self, i + 1)
  }

  function RemoveSelf(core: Core, me: Handler): Outcome {
    var stopped := me.(running := false);
    if me.selfName == "" then Outcome(core, stopped, false)
    else
      var e := LeaveFrom(core, me.selfName, 0);
      if e.threw then Outcome(e.core, stopped, true)
      else Outcome(e.core.(users := e.core.users - {me.selfName}), stopped, false)
  }

  function Unmoved(e: Effect, me: Handler): Outcome {
    Outcome(e.core, me, e.threw)
  }

  ghost function HandlePacket(core: Core, me: Handler, p: Packet, now: int): Outcome {
    match p
    case Handshake(magic) =>
      if magic == CLIENT_MAGIC then
        Outcome(core.(out := Push(core.out, me.chan, Handshake(SERVER_MAGIC))), me, false)
      else Outcome(core, me, false)
    case NewUser(username) => OnNewUser(core, me, username)
    case SessionRequest(name) => Unmoved(OnSessionRequest(core, me, name), me)
    case SessionClose(_) => Unmoved(CloseFrom(core, me.selfName, p, 0, None), me)
    case Heartbeat(_) =>
      Outcome(core.(out := Push(core.out, me.chan, Heartbeat(now))), me.(lastHeartbeat := now), false)
    case VideoParams(vp) => Unmoved(VideoFrom(core, me.selfName, vp, 0), me)
    case Data(_, _, _) => Unmoved(DataFrom(core, me.selfName, p, 0), me)
    case ControlInput(_) => Unmoved(ControlFrom(core, me.selfName, p, 0), me)
    case _ => Outcome(core, me, false)
  }

  datatype Batch = Batch(core: Core, me: Handler, threw: bool, left: seq<seq<byte>>)

  /** channelRead's loop: the waiting messages in order, until one throws. A message protobuf cannot parse is
      reported and skipped. The clock reads times(n) when the nth message is handled. */
  ghost function HandleAll(core: Core, me: Handler, messages: seq<seq<byte>>, parse: seq<byte> -> Option<Packet>,
                           times: nat -> int, n: nat): Batch
    decreases |messages|
  {
    if messages == [] then Batch(core, me, false, [])
    else match parse(messages[0])
      case None => HandleAll(core, me, messages[1..], parse, times, n + 1)
      case Some(p) =>
        var o := HandlePacket(core, me, p, times(n));
        if o.threw then Batch(o.core, o.me, true, messages[1..])
        else HandleAll(o.core, o.me, messages[1..], parse, times, n + 1)
  }

  /** The server's watchdog condition, in milliseconds. */
  predicate ServerTimedOut(now: int, last: int) {
    now - last > 7000
  }
}
