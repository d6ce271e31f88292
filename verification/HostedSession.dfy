/** A session whose host runs handle_encode, seen from a client: params first, then data with consecutive pts. */
module HostedSession {
  import opened Protocol
  import opened SessionRules
  import opened SessionMachine
  import opened SessionInvariant
  import opened Directory
  import opened Refinement
  import opened SessionTheorems
  import opened Relays
  import opened Memberships
  import Daemon

  function Pts(ps: seq<Packet>): seq<int> {
    if ps == [] then [] else Pts(ps[..|ps| - 1]) + if ps[|ps| - 1].Data? then [ps[|ps| - 1].pts] else []
  }

  ghost predicate Consecutive(q: seq<int>) {
    forall i :: 0 <= i < |q| - 1 ==> q[i + 1] == q[i] + 1
  }

  lemma {:induction false} PtsConcat(ps: seq<Packet>, qs: seq<Packet>)
    ensures Pts(ps + qs) == Pts(ps) + Pts(qs)
  {
    if qs == [] {
      assert ps + qs == ps;
    } else {
      assert (ps + qs)[..|ps + qs| - 1] == ps + qs[..|qs| - 1];
      PtsConcat(ps, qs[..|qs| - 1]);
    }
  }

  /** handle_encode numbers its data 0, 1, 2, ... */
  lemma {:induction false} HostPts(params: Params, parts: seq<seq<byte>>)
    ensures var q := Pts(Daemon.HostStream(params, parts));
            |q| == |parts| && forall i :: 0 <= i < |q| ==> q[i] == i
  {
    var stream := Daemon.HostStream(params, parts);
    if parts == [] {
      assert stream == [] + [VideoParams(params)];
      PtsConcat([], stream);
      assert [VideoParams(params)][..0] == [];
    } else {
      HostPts(params, parts[..|parts| - 1]);
      assert stream[..|stream| - 1] == Daemon.HostStream(params, parts[..|parts| - 1]);
    }
  }

  lemma HostStreamOpens(params: Params, parts: seq<seq<byte>>)
    ensures var stream := Daemon.HostStream(params, parts); |stream| > 0 && stream[0] == VideoParams(params)
  {
    if parts != [] { HostStreamOpens(params, parts[..|parts| - 1]); }
  }

  lemma MiddleConsecutive(a: seq<int>, b: seq<int>, c: seq<int>, q: seq<int>)
    requires q == a + b + c && forall i :: 0 <= i < |q| ==> q[i] == i
    ensures Consecutive(b)
  {
    assert forall i :: 0 <= i < |b| ==> b[i] == q[|a| + i];
  }

  lemma SliceConsecutive(params: Params, parts: seq<seq<byte>>, a: seq<Packet>, b: seq<Packet>)
    requires a + b <= Daemon.HostStream(params, parts)
    ensures Consecutive(Pts(b))
  {
    var stream := Daemon.HostStream(params, parts);
    var c := stream[|a + b|..];
    assert a + b + c == stream;
    HostPts(params, parts);
    hide Pts, Consecutive, Daemon.HostStream;
    PtsConcat(a + b, c);
    PtsConcat(a, b);
    MiddleConsecutive(Pts(a), Pts(b), Pts(c), Pts(stream));
  }

  lemma HeardOnJoining(v: View, e: Event, c: Chan)
    requires e.Receive? && e.packet.SessionRequest?
    ensures Pts(Heard(v, e, c)) == []
  {
    var heard := Heard(v, e, c);
    if heard != [] { assert heard[..0] == []; }
  }

  // ---------- The host's own params ----------

  lemma NewHost(v: View, e: Event, h: Name)
    requires Standing(v.dir, h) == Idle && Standing(ViewStep(v, e).dir, h) == Host
    ensures h in ViewStep(v, e).dir.params && ViewStep(v, e).dir.params[h] == None
    ensures e.Receive? && e.packet.SessionRequest?
  {
    hide React, Remove;
    if e.Receive? && e.chan in v.handlers {
      NewHostReaction(v.dir, v.handlers[e.chan], e.packet, e.now, h);
    } else {
      match e
      case Watchdog(c, _) => if c in v.handlers { NoNewHost(v.dir, v.handlers[c].selfName, h); }
      case ExceptionCaught(c) => if c in v.handlers { NoNewHost(v.dir, v.handlers[c].selfName, h); }
      case _ =>
    }
  }

  lemma NoNewHost(d: Directory, self: Name, h: Name)
    requires Standing(d, h) == Idle
    ensures Standing(Remove(d, self), h) == Idle
  {
  }

  lemma NewHostReaction(d: Directory, me: Handler, p: Packet, now: int, h: Name)
    requires Standing(d, h) == Idle && Standing(React(d, me, p, now).dir, h) == Host
    ensures var d' := React(d, me, p, now).dir; h in d'.params && d'.params[h] == None
    ensures p.SessionRequest?
  {
    if p.SessionRequest? { NewHostRequest(d, me, p.name, h); }
    hide Request, Remove;
  }

  lemma NewHostRequest(d: Directory, me: Handler, target: Name, h: Name)
    requires Standing(d, h) == Idle
    ensures var a := Request(d, me, target);
            && (!a.threw && Standing(a.dir, h) == Host ==> h in a.dir.params && a.dir.params[h] == None)
            && (a.threw ==> Standing(Remove(a.dir, me.selfName), h) != Host)
  {
  }

  /** A session begins without params, and nothing is spoken in that step. */
  lemma BeginsWithoutParams(s: State, e: Event, h: Name)
    requires Inv(s) && Guard(s, e) && RoleOf(s.core.sessions, h) == Idle && RoleOf(Step(s, e).core.sessions, h) == Host
    ensures ParamsOf(Step(s, e).core.sessions, h) == None && Spoken(s.handlers, e, h) == []
  {
    hide Step, RoleOf, ParamsOf, ViewStep;
    StepRefines(s, e);
    RoleIsPublic(s, h);
    RoleIsPublic(Step(s, e), h);
    NewHost(AbsState(s), e, h);
    hide Inv, Abs;
  }

  lemma {:induction false} PrefixParams(params: Params, parts: seq<seq<byte>>, q: seq<Packet>)
    requires q <= Daemon.HostStream(params, parts)
    ensures LastParams(q, None) == if q == [] then None else Some(params)
  {
    hide Daemon.HostStream;
    var stream := Daemon.HostStream(params, parts);
    Daemon.HostStreamIs(params, parts);
    if q != [] {
      assert q[|q| - 1] == stream[|q| - 1];
      if |q| > 1 {
        assert stream[|q| - 2 + 1] == Data(|q| - 2, 0, parts[|q| - 2]);
        PrefixParams(params, parts, q[..|q| - 1]);
      }
    }
  }

  /** Throughout its session an encoding host's stored params are its own, once it has sent anything. */
  lemma HostParams(s: State, es: seq<Event>, h: Name, params: Params, parts: seq<seq<byte>>)
    requires Inv(s) && es != [] && Guarded(s, es)
    requires RoleOf(s.core.sessions, h) == Idle && Throughout(Step(s, es[0]), es[1..], h, Host)
    requires Stream(s, es, h) <= Daemon.HostStream(params, parts)
    ensures ParamsOf(Exec(s, es).core.sessions, h) == if Stream(s, es, h) == [] then None else Some(params)
  {
    hide *;
    GuardedTail(s, es, h);
    GuardedFirst(s, es);
    ThroughoutAt(Step(s, es[0]), es[1..], h, Host, 0);
    assert es[1..][..0] == [];
    OneEvent(Step(s, es[0]), es[0], h);
    StepRefines(s, es[0]);
    BeginsWithoutParams(s, es[0], h);
    ParamsTracked(Step(s, es[0]), es[1..], h);
    assert [] + Stream(Step(s, es[0]), es[1..], h) == Stream(Step(s, es[0]), es[1..], h);
    PrefixParams(params, parts, Stream(s, es, h));
  }

  /** What a newcomer hears first are the params the session has stored. */
  lemma FirstHeard(s: State, e: Event, u: Name, h: Name)
    requires Inv(s) && Guard(s, e) && u in s.core.users
    requires e.Receive? && e.chan == s.core.users[u] && e.packet == SessionRequest(h)
    ensures var heard := Heard(AbsState(s), e, s.core.users[u]);
            var stored := ParamsOf(s.core.sessions, h);
            heard == [] || (stored.Some? && heard == [VideoParams(stored.value)])
  {
    hide RoleOf, ParamsOf;
    RoleIsPublic(s, h);
    hide Inv, Abs;
  }

  /** Original or late, a client of an encoding host hears video params first and then data whose pts values
      are consecutive: a contiguous run of what the host sent. The session begins with the first event; u joins
      with the event at j and is still there at the end. The params are the host's own. */
  lemma ClientHearsConsecutiveFrames(s: State, es: seq<Event>, j: nat, u: Name, h: Name,
                                     params: Params, parts: seq<seq<byte>>)
    requires Inv(s) && Guarded(s, es) && j < |es|
    requires RoleOf(s.core.sessions, h) == Idle && Throughout(Step(s, es[0]), es[1..], h, Host)
    requires Stream(s, es, h) <= Daemon.HostStream(params, parts)
    requires RoleOf(Exec(s, es[..j]).core.sessions, u) != ClientOf(h)
    requires Throughout(Exec(s, es[..j + 1]), es[j + 1..], u, ClientOf(h))
    ensures var m, t := Exec(s, es[..j]), Exec(s, es);
            && u in m.core.users && u in t.core.users && t.core.users[u] == m.core.users[u]
            && var before, after := Media(Sent(m.core.out, m.core.users[u])), Media(Sent(t.core.out, t.core.users[u]));
               && before <= after
               && (|after| > |before| ==> after[|before|] == VideoParams(params))
               && Consecutive(Pts(after[|before|..]))
               && ParamsOf(t.core.sessions, h) == LastParams(after[|before|..], None)
  {
    hide *;
    HostStreamOpens(params, parts);
    ParamsBeforeData(s, es, j, u, h);
    var m, rest := Exec(s, es[..j]), es[j..];
    Cut(s, es, j, h);
    ExecRefines(s, es[..j]);
    assert rest[0] == es[j] && rest[1..] == es[j + 1..];
    JoinedHears(m, rest, u, h);
    JoinedPts(m, rest, u, h, Stream(s, es[..j], h), params, parts);
    GainedIs(Media(Sent(m.core.out, m.core.users[u])),
             Heard(AbsState(m), rest[0], m.core.users[u]) + Stream(Step(m, rest[0]), rest[1..], h));
    FirstIsHosts(s, es, j, u, h, params, parts);
  }

  /** The first thing u hears is what its host announces. */
  lemma FirstIsHosts(s: State, es: seq<Event>, j: nat, u: Name, h: Name, params: Params, parts: seq<seq<byte>>)
    requires Inv(s) && Guarded(s, es) && j < |es|
    requires RoleOf(s.core.sessions, h) == Idle && Throughout(Step(s, es[0]), es[1..], h, Host)
    requires Stream(s, es, h) <= Daemon.HostStream(params, parts)
    requires RoleOf(Exec(s, es[..j]).core.sessions, u) != ClientOf(h)
    requires Throughout(Exec(s, es[..j + 1]), es[j + 1..], u, ClientOf(h))
    ensures var m := Exec(s, es[..j]);
            && u in m.core.users
            && var gained := Heard(AbsState(m), es[j], m.core.users[u]) + Stream(Step(m, es[j]), es[j + 1..], h);
               gained != [] ==> gained[0] == VideoParams(params)
  {
    hide *;
    var m, rest := Exec(s, es[..j]), es[j..];
    Cut(s, es, j, h);
    ExecRefines(s, es[..j]);
    assert rest[0] == es[j] && rest[1..] == es[j + 1..];
    NowClient(m, rest, u, h);
    Joining(m, es[j], u, h);
    FirstHeard(m, es[j], u, h);
    if j == 0 {
      assert es[..0] == [];
      OneEvent(s, es[0], h);
      FirstOfAll(s, es, h, params, parts);
    } else {
      HostedBefore(s, es, j, h, params, parts);
    }
  }

  lemma HostedBefore(s: State, es: seq<Event>, j: nat, h: Name, params: Params, parts: seq<seq<byte>>)
    requires Inv(s) && Guarded(s, es) && 0 < j < |es|
    requires RoleOf(s.core.sessions, h) == Idle && Throughout(Step(s, es[0]), es[1..], h, Host)
    requires Stream(s, es, h) <= Daemon.HostStream(params, parts)
    ensures RoleOf(Exec(s, es[..j]).core.sessions, h) == Host
    ensures ParamsOf(Exec(s, es[..j]).core.sessions, h) in {None, Some(params)}
  {
    hide *;
    Cut(s, es, j, h);
    StillHosts(s, es, j, h);
    GuardedTail(s, es[..j], h);
    SaidBefore(Stream(s, es[..j], h), Stream(Exec(s, es[..j]), es[j..], h), Daemon.HostStream(params, parts));
    HostParams(s, es[..j], h, params, parts);
  }

  lemma SaidBefore(said: seq<Packet>, later: seq<Packet>, stream: seq<Packet>)
    requires said + later <= stream
    ensures said <= stream
  {
  }

  lemma FirstOfAll(s: State, es: seq<Event>, h: Name, params: Params, parts: seq<seq<byte>>)
    requires es != [] && Guarded(s, es) && Inv(s) && Spoken(s.handlers, es[0], h) == []
    requires Stream(s, es, h) <= Daemon.HostStream(params, parts)
    ensures Exec(s, es[..0]) == s
    ensures var later := Stream(Step(s, es[0]), es[1..], h); later != [] ==> later[0] == VideoParams(params)
  {
    hide *;
    assert es[..0] == [];
    OneEvent(s, es[0], h);
    GuardedTail(s, es, h);
    HostStreamOpens(params, parts);
    var later := Stream(Step(s, es[0]), es[1..], h);
    assert [] + later == later;
  }

  lemma NowClient(m: State, rest: seq<Event>, u: Name, h: Name)
    requires rest != [] && Throughout(Step(m, rest[0]), rest[1..], u, ClientOf(h))
    ensures RoleOf(Step(m, rest[0]).core.sessions, u) == ClientOf(h)
  {
    hide Step, RoleOf;
    ThroughoutAt(Step(m, rest[0]), rest[1..], u, ClientOf(h), 0);
    assert rest[1..][..0] == [];
  }

  /** The beginning of a session is one. */
  lemma StillHosts(s: State, es: seq<Event>, j: nat, h: Name)
    requires 0 < j < |es| && Throughout(Step(s, es[0]), es[1..], h, Host)
    ensures es[..j] != [] && es[..j][0] == es[0] && Throughout(Step(s, es[..j][0]), es[..j][1..], h, Host)
    ensures RoleOf(Exec(Step(s, es[0]), es[..j][1..]).core.sessions, h) == Host
    ensures es[..1] + es[..j][1..] == es[..j]
  {
    hide Step, RoleOf, Exec;
    var front, t := es[..j][1..], Step(s, es[0]);
    forall k | 0 <= k <= |front| ensures RoleOf(Exec(t, front[..k]).core.sessions, h) == Host {
      ThroughoutAt(t, es[1..], h, Host, k);
      assert front[..k] == es[1..][..k];
    }
    assert front[..|front|] == front;
  }

  lemma JoinedPts(s: State, es: seq<Event>, u: Name, h: Name, earlier: seq<Packet>, params: Params,
                  parts: seq<seq<byte>>)
    requires Inv(s) && es != [] && Guarded(s, es) && u in s.core.users
    requires RoleOf(s.core.sessions, u) != ClientOf(h)
    requires Throughout(Step(s, es[0]), es[1..], u, ClientOf(h))
    requires earlier + Stream(s, es, h) <= Daemon.HostStream(params, parts)
    ensures Consecutive(Pts(Heard(AbsState(s), es[0], s.core.users[u]) + Stream(Step(s, es[0]), es[1..], h)))
  {
    hide *;
    var heard, later := Heard(AbsState(s), es[0], s.core.users[u]), Stream(Step(s, es[0]), es[1..], h);
    GuardedTail(s, es, h);
    GuardedFirst(s, es);
    ThroughoutAt(Step(s, es[0]), es[1..], u, ClientOf(h), 0);
    assert es[1..][..0] == [];
    OneEvent(Step(s, es[0]), es[0], h);
    Joining(s, es[0], u, h);
    HeardOnJoining(AbsState(s), es[0], s.core.users[u]);
    PtsConcat(heard, later);
    assert [] + Pts(later) == Pts(later) && [] + later == later;
    SliceConsecutive(params, parts, earlier, later);
  }

  lemma GuardedFirst(s: State, es: seq<Event>)
    requires es != [] && Guarded(s, es)
    ensures Guard(s, es[0])
  {
    assert Guard(Exec(s, es[..0]), es[0]) && es[..0] == [];
  }

  lemma GainedIs(before: seq<Packet>, gained: seq<Packet>)
    ensures (before + gained)[|before|..] == gained
  {
  }
}
