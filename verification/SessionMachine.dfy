/** The distributor as a transition system: every handled packet, watchdog poll and exceptionCaught
    is one atomic step on the shared tables and one handler. */
module SessionMachine {
  import opened Protocol
  import opened SessionRules

  datatype State = State(core: Core, handlers: map<Chan, Handler>)

  datatype Event =
    | Connect(chan: Chan, now: int)
    | Receive(chan: Chan, packet: Packet, now: int)
    | Watchdog(chan: Chan, now: int)
    | ExceptionCaught(chan: Chan)

  const INITIAL := State(Core(map[], [], map[]), map[])

  /** A NullPointerException in a handler comes back to it as exceptionCaught. */
  ghost function Caught(o: Outcome): Outcome {
    if o.threw then RemoveSelf(o.core, o.me) else o
  }

  ghost function Step(s: State, e: Event): State {
    match e
    case Connect(c, now) =>
      if c in s.handlers then s
      else State(s.core.(out := s.core.out[c := Sent(s.core.out, c)]),
                 s.handlers[c := Handler(c, "", true, now)])
    case Receive(c, p, now) =>
      if c !in s.handlers then s
      else Settle(s, c, Caught(HandlePacket(s.core, s.handlers[c], p, now)))
    case Watchdog(c, now) =>
      if c !in s.handlers || !s.handlers[c].running || !ServerTimedOut(now, s.handlers[c].lastHeartbeat) then s
      else Settle(s, c, RemoveSelf(s.core, s.handlers[c]))
    case ExceptionCaught(c) =>
      if c !in s.handlers then s
      else Settle(s, c, RemoveSelf(s.core, s.handlers[c]))
  }

  ghost function Settle(s: State, c: Chan, o: Outcome): State {
    State(o.core, s.handlers[c := o.me])
  }

  /** The state after the events, the last one taken last. */
  ghost function Exec(s: State, es: seq<Event>): State {
    if es == [] then s else Step(Exec(s, es[..|es| - 1]), es[|es| - 1])
  }

  // ---------- Roles ----------

  datatype Role = Idle | Host | ClientOf(host: Name)

  predicate In(s: Session, n: Name) {
    s.host == n || n in s.clients
  }

  /** The first session from i on that n is in. */
  function Find(ss: seq<Session>, n: Name, i: nat): (r: Option<nat>)
    requires i <= |ss|
    ensures r.Some? ==> i <= r.value < |ss| && In(ss[r.value], n)
    ensures forall j :: i <= j < (if r.Some? then r.value else |ss|) ==> !In(ss[j], n)
    decreases |ss| - i
  {
    if i == |ss| then None else if In(ss[i], n) then Some(i) else Find(ss, n, i + 1)
  }

  function RoleOf(ss: seq<Session>, n: Name): Role {
    match Find(ss, n, 0)
    case None => Idle
    case Some(i) => if ss[i].host == n then Host else ClientOf(ss[i].host)
  }

  // ---------- What clients are assumed to do ----------

  /** After removeSelf a connection sends nothing and is not removed again under a name that is somebody else's by
      then; it registers at most once and under a nonempty name, and asks for a session that can be granted only
      when it is registered, idle and naming somebody else. */
  ghost predicate Guard(s: State, e: Event) {
    match e
    case Connect(_, _) => true
    case Receive(c, p, _) =>
      c in s.handlers ==>
        var me := s.handlers[c];
        && me.running
        && (p.NewUser? && p.username !in s.core.users ==> me.selfName == "" && p.username != "")
        && (p.SessionRequest? && p.name in s.core.users && !RoleOf(s.core.sessions, p.name).ClientOf? ==>
              me.selfName != "" && RoleOf(s.core.sessions, me.selfName).Idle? && me.selfName != p.name)
    case Watchdog(_, _) => true
    case ExceptionCaught(c) => c in s.handlers ==> s.handlers[c].running || s.handlers[c].selfName !in s.core.users
  }

  ghost predicate Guarded(s: State, es: seq<Event>) {
    forall k :: 0 <= k < |es| ==> Guard(Exec(s, es[..k]), es[k])
  }

  lemma GuardedPrefix(s: State, es: seq<Event>)
    requires es != [] && Guarded(s, es)
    ensures Guarded(s, es[..|es| - 1]) && Guard(Exec(s, es[..|es| - 1]), es[|es| - 1])
  {
    var front := es[..|es| - 1];
    forall k | 0 <= k < |front| ensures Guard(Exec(s, front[..k]), front[k]) {
      assert front[..k] == es[..k];
    }
  }

  lemma GuardedSnoc(s: State, es: seq<Event>, e: Event)
    requires Guarded(s, es) && Guard(Exec(s, es), e)
    ensures Guarded(s, es + [e])
  {
    hide Exec, Guard;
    var more := es + [e];
    forall k | 0 <= k < |more| ensures Guard(Exec(s, more[..k]), more[k]) {
      if k < |es| {
        GuardedAt(s, es, k);
        assert more[..k] == es[..k];
      } else {
        assert more[..k] == es;
      }
    }
  }

  lemma ExecSnoc(s: State, es: seq<Event>, e: Event)
    ensures Exec(s, es + [e]) == Step(Exec(s, es), e)
  {
    assert (es + [e])[..|es|] == es;
  }

  lemma {:induction false} ExecConcat(s: State, es: seq<Event>, fs: seq<Event>)
    ensures Exec(s, es + fs) == Exec(Exec(s, es), fs)
  {
    if fs == [] {
      assert es + fs == es;
    } else {
      var front, last := fs[..|fs| - 1], fs[|fs| - 1];
      ExecConcat(s, es, front);
      assert es + fs == (es + front) + [last];
      ExecSnoc(s, es + front, last);
    }
  }

  lemma GuardedAt(s: State, es: seq<Event>, k: nat)
    requires Guarded(s, es) && k < |es|
    ensures Guard(Exec(s, es[..k]), es[k])
  {
  }

  lemma GuardedSplit(s: State, es: seq<Event>, j: nat)
    requires j <= |es| && Guarded(s, es)
    ensures Guarded(s, es[..j]) && Guarded(Exec(s, es[..j]), es[j..])
  {
    GuardedFront(s, es, j);
    GuardedBack(s, es, j);
  }

  lemma GuardedFront(s: State, es: seq<Event>, j: nat)
    requires j <= |es| && Guarded(s, es)
    ensures Guarded(s, es[..j])
  {
    hide Exec, Guard;
    forall k | 0 <= k < |es[..j]| ensures Guard(Exec(s, es[..j][..k]), es[..j][k]) {
      GuardedAt(s, es, k);
      assert es[..j][..k] == es[..k];
    }
  }

  lemma GuardedBack(s: State, es: seq<Event>, j: nat)
    requires j <= |es| && Guarded(s, es)
    ensures Guarded(Exec(s, es[..j]), es[j..])
  {
    hide Exec, Guard;
    var later := es[j..];
    forall k | 0 <= k < |later| ensures Guard(Exec(Exec(s, es[..j]), later[..k]), later[k]) {
      GuardedAt(s, es, j + k);
      ExecConcat(s, es[..j], later[..k]);
      assert es[..j] + later[..k] == es[..j + k];
    }
  }
}
