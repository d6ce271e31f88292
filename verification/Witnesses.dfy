/** Concrete runs from the empty state: what the guards rule out, and what they do not. */
module Witnesses {
  import opened Protocol
  import opened SessionRules
  import opened SessionMachine

  /** A state without its outboxes. */
  datatype Shape = Shape(users: map<Name, Chan>, sessions: seq<Session>, handlers: map<Chan, Handler>)

  ghost function ShapeOf(s: State): Shape {
    Shape(s.core.users, s.core.sessions, s.handlers)
  }

  /** The run ends in this shape, and its events obey the guards if `good`. */
  ghost predicate Arrives(es: seq<Event>, shape: Shape, good: bool) {
    ShapeOf(Exec(INITIAL, es)) == shape && (good ==> Guarded(INITIAL, es))
  }

  lemma Start(good: bool)
    ensures Arrives([], NOTHING, good)
  {
  }

  lemma OneMore(es: seq<Event>, e: Event, good: bool)
    ensures Exec(INITIAL, es + [e]) == Step(Exec(INITIAL, es), e)
    ensures Guarded(INITIAL, es) && Guard(Exec(INITIAL, es), e) ==> Guarded(INITIAL, es + [e])
  {
    ExecSnoc(INITIAL, es, e);
    hide Exec, Guard;
    if Guarded(INITIAL, es) && Guard(Exec(INITIAL, es), e) { GuardedSnoc(INITIAL, es, e); }
  }

  lemma Connects(es: seq<Event>, shape: Shape, good: bool, c: Chan)
    requires Arrives(es, shape, good) && c !in shape.handlers
    ensures Arrives(es + [Connect(c, 0)], shape.(handlers := shape.handlers[c := Handler(c, "", true, 0)]), good)
  {
    OneMore(es, Connect(c, 0), good);
    hide Exec, Guarded;
  }

  lemma Registers(es: seq<Event>, shape: Shape, good: bool, c: Chan, n: Name)
    requires Arrives(es, shape, good) && c in shape.handlers && n !in shape.users
    requires shape.handlers[c] == Handler(c, "", true, 0) && (good ==> n != "")
    ensures Arrives(es + [Receive(c, NewUser(n), 0)],
                    shape.(users := shape.users[n := c], handlers := shape.handlers[c := Handler(c, n, true, 0)]), good)
  {
    OneMore(es, Receive(c, NewUser(n), 0), good);
    hide Exec, Guarded, SendToNames;
  }

  lemma Begins(es: seq<Event>, shape: Shape, good: bool, c: Chan, target: Name)
    requires Arrives(es, shape, good) && c in shape.handlers && target in shape.users && shape.sessions == []
    requires var me := shape.handlers[c]; me.running && (good ==> me.selfName != "" && me.selfName != target)
    ensures Arrives(es + [Receive(c, SessionRequest(target), 0)],
                    shape.(sessions := [Session(target, [shape.handlers[c].selfName], None)]), good)
  {
    OneMore(es, Receive(c, SessionRequest(target), 0), good);
    hide Exec, Guarded;
    var s := Exec(INITIAL, es);
    assert [] + [Session(target, [shape.handlers[c].selfName], None)]
        == [Session(target, [shape.handlers[c].selfName], None)];
    assert s.handlers[c := s.handlers[c]] == s.handlers;
  }

  lemma Leaves(es: seq<Event>, shape: Shape, good: bool, c: Chan)
    requires Arrives(es, shape, good) && c in shape.handlers && shape.sessions == []
    requires shape.handlers[c].running && shape.handlers[c].selfName != ""
    ensures Arrives(es + [ExceptionCaught(c)],
                    shape.(users := shape.users - {shape.handlers[c].selfName},
                           handlers := shape.handlers[c := shape.handlers[c].(running := false)]), good)
  {
    OneMore(es, ExceptionCaught(c), good);
    hide Exec, Guarded;
  }

  function Greeted(shape: Shape, c: Chan): Shape {
    shape.(handlers := shape.handlers[c := Handler(c, "", true, 0)])
  }

  function Known(shape: Shape, c: Chan, n: Name): Shape {
    shape.(users := shape.users[n := c], handlers := shape.handlers[c := Handler(c, n, true, 0)])
  }

  const NOTHING := Shape(map[], [], map[])

  // ---------- The empty name ----------

  /** A connection registered under the empty name stays in the user map after it is gone. */
  lemma EmptyNameStays()
    ensures var s := Exec(INITIAL, [Connect(0, 0), Receive(0, NewUser(""), 0), ExceptionCaught(0)]);
            "" in s.core.users && s.core.users[""] == 0 && 0 in s.handlers && !s.handlers[0].running
  {
    Start(false);
    hide Arrives;
    var r1 := [] + [Connect(0, 0)];
    var r2 := r1 + [Receive(0, NewUser(""), 0)];
    assert r2 + [ExceptionCaught(0)] == [Connect(0, 0), Receive(0, NewUser(""), 0), ExceptionCaught(0)];
    Connects([], NOTHING, false, 0);
    Registers(r1, Greeted(NOTHING, 0), false, 0, "");
    NobodyLeaves(r2, Known(Greeted(NOTHING, 0), 0, ""));
  }

  lemma NobodyLeaves(es: seq<Event>, shape: Shape)
    requires Arrives(es, shape, false) && 0 in shape.handlers && shape.handlers[0].selfName == ""
    ensures var s := Exec(INITIAL, es + [ExceptionCaught(0)]);
            s.core.users == shape.users && 0 in s.handlers && !s.handlers[0].running
  {
    OneMore(es, ExceptionCaught(0), false);
    hide Exec;
  }

  // ---------- A guest without a name ----------

  const NAMELESS_GUEST := [Connect(0, 0), Connect(1, 0), Receive(0, NewUser("h"), 0),
                           Receive(1, SessionRequest("h"), 0), ExceptionCaught(0)]

  /** A host whose guest never registered cannot leave: the lookup of its guest fails inside exceptionCaught, and
      the name stays bound to a connection that is gone and goes on hosting. */
  lemma HostStays()
    ensures var s := Exec(INITIAL, NAMELESS_GUEST);
            && "h" in s.core.users && s.core.users["h"] == 0 && 0 in s.handlers && !s.handlers[0].running
            && s.core.sessions == [Session("h", [""], None)]
  {
    Start(false);
    hide Arrives;
    var r1 := [] + [Connect(0, 0)];
    var r2 := r1 + [Connect(1, 0)];
    var r3 := r2 + [Receive(0, NewUser("h"), 0)];
    var r4 := r3 + [Receive(1, SessionRequest("h"), 0)];
    assert r4 + [ExceptionCaught(0)] == NAMELESS_GUEST;
    Connects([], NOTHING, false, 0);
    Connects(r1, Greeted(NOTHING, 0), false, 1);
    Registers(r2, Greeted(Greeted(NOTHING, 0), 1), false, 0, "h");
    var known := Known(Greeted(Greeted(NOTHING, 0), 1), 0, "h");
    Begins(r3, known, false, 1, "h");
    HostFails(r4, known.(sessions := [Session("h", [""], None)]));
  }

  lemma HostFails(es: seq<Event>, shape: Shape)
    requires Arrives(es, shape, false) && 0 in shape.handlers && shape.handlers[0].selfName == "h"
    requires shape.sessions == [Session("h", [""], None)] && "" !in shape.users
    ensures var s := Exec(INITIAL, es + [ExceptionCaught(0)]);
            && s.core.users == shape.users && s.core.sessions == shape.sessions
            && 0 in s.handlers && !s.handlers[0].running
  {
    OneMore(es, ExceptionCaught(0), false);
    hide Exec;
  }

  // ---------- A session without clients ----------

  const GUEST_CLOSES := [Connect(0, 0), Connect(1, 0), Receive(0, NewUser("h"), 0), Receive(1, NewUser("g"), 0),
                         Receive(1, SessionRequest("h"), 0), Receive(1, SessionClose(None), 0)]

  /** The only client of a session closes it, all guards obeyed: the session goes on without clients. */
  lemma EmptySessionStays()
    ensures Guarded(INITIAL, GUEST_CLOSES)
    ensures Exec(INITIAL, GUEST_CLOSES).core.sessions == [Session("h", [], None)]
  {
    Start(true);
    hide Arrives;
    var r1 := [] + [Connect(0, 0)];
    var r2 := r1 + [Connect(1, 0)];
    var r3 := r2 + [Receive(0, NewUser("h"), 0)];
    var r4 := r3 + [Receive(1, NewUser("g"), 0)];
    var r5 := r4 + [Receive(1, SessionRequest("h"), 0)];
    assert r5 + [Receive(1, SessionClose(None), 0)] == GUEST_CLOSES;
    Connects([], NOTHING, true, 0);
    Connects(r1, Greeted(NOTHING, 0), true, 1);
    Registers(r2, Greeted(Greeted(NOTHING, 0), 1), true, 0, "h");
    var host := Known(Greeted(Greeted(NOTHING, 0), 1), 0, "h");
    Registers(r3, host, true, 1, "g");
    Begins(r4, Known(host, 1, "g"), true, 1, "h");
    GuestCloses(r5, Known(host, 1, "g").(sessions := [Session("h", ["g"], None)]));
  }

  lemma GuestCloses(es: seq<Event>, shape: Shape)
    requires Arrives(es, shape, true) && 1 in shape.handlers && shape.handlers[1] == Handler(1, "g", true, 0)
    requires shape.sessions == [Session("h", ["g"], None)]
    ensures var more := es + [Receive(1, SessionClose(None), 0)];
            Guarded(INITIAL, more) && Exec(INITIAL, more).core.sessions == [Session("h", [], None)]
  {
    OneMore(es, Receive(1, SessionClose(None), 0), true);
    hide Exec, Guarded;
    GuestLeaves(Exec(INITIAL, es).core);
    hide CloseFrom;
  }

  lemma GuestLeaves(core: Core)
    requires core.sessions == [Session("h", ["g"], None)]
    ensures var e := CloseFrom(core, "g", SessionClose(None), 0, None);
            !e.threw && e.core.sessions == [Session("h", [], None)]
  {
    assert ["g"][1..] == [] && RemoveFirst(["g"], "g") == [];
  }

  // ---------- A join before the video params ----------

  const JOINS_EARLY := [Connect(0, 0), Connect(1, 0), Connect(2, 0), Receive(0, NewUser("h"), 0),
                        Receive(1, NewUser("g"), 0), Receive(2, NewUser("k"), 0), Receive(1, SessionRequest("h"), 0)]

  /** A reachable state, all guards obeyed, in which an allowed request fails on the params that are not there
      yet, and costs the second guest its registration. */
  lemma JoinFails()
    ensures Guarded(INITIAL, JOINS_EARLY)
    ensures var s, e := Exec(INITIAL, JOINS_EARLY), Receive(2, SessionRequest("h"), 0);
            && Guard(s, e) && 2 in s.handlers && HandlePacket(s.core, s.handlers[2], e.packet, 0).threw
            && "k" in s.core.users && "k" !in Step(s, e).core.users
  {
    Start(true);
    hide Arrives;
    var r1 := [] + [Connect(0, 0)];
    var r2 := r1 + [Connect(1, 0)];
    var r3 := r2 + [Connect(2, 0)];
    var r4 := r3 + [Receive(0, NewUser("h"), 0)];
    var r5 := r4 + [Receive(1, NewUser("g"), 0)];
    var r6 := r5 + [Receive(2, NewUser("k"), 0)];
    assert r6 + [Receive(1, SessionRequest("h"), 0)] == JOINS_EARLY;
    Connects([], NOTHING, true, 0);
    Connects(r1, Greeted(NOTHING, 0), true, 1);
    Connects(r2, Greeted(Greeted(NOTHING, 0), 1), true, 2);
    var greeted := Greeted(Greeted(Greeted(NOTHING, 0), 1), 2);
    Registers(r3, greeted, true, 0, "h");
    Registers(r4, Known(greeted, 0, "h"), true, 1, "g");
    Registers(r5, Known(Known(greeted, 0, "h"), 1, "g"), true, 2, "k");
    var known := Known(Known(Known(greeted, 0, "h"), 1, "g"), 2, "k");
    Begins(r6, known, true, 1, "h");
    SecondGuestFails(JOINS_EARLY, known.(sessions := [Session("h", ["g"], None)]));
  }

  lemma SecondGuestFails(es: seq<Event>, shape: Shape)
    requires Arrives(es, shape, true) && 2 in shape.handlers && shape.handlers[2] == Handler(2, "k", true, 0)
    requires shape.sessions == [Session("h", ["g"], None)] && "h" in shape.users && "k" in shape.users
    ensures Guarded(INITIAL, es)
    ensures var s, e := Exec(INITIAL, es), Receive(2, SessionRequest("h"), 0);
            && Guard(s, e) && 2 in s.handlers && HandlePacket(s.core, s.handlers[2], e.packet, 0).threw
            && "k" in s.core.users && "k" !in Step(s, e).core.users
  {
    hide Exec, Guarded;
    var s := Exec(INITIAL, es);
    SecondGuestJoins(s.core, s.handlers[2]);
    LeavesShared(HandlePacket(s.core, s.handlers[2], SessionRequest("h"), 0).core);
    hide OnSessionRequest, LeaveFrom;
  }

  lemma SecondGuestJoins(core: Core, me: Handler)
    requires core.sessions == [Session("h", ["g"], None)] && "h" in core.users && me.selfName == "k"
    ensures var e := OnSessionRequest(core, me, "h");
            e.threw && e.core.users == core.users && e.core.sessions == [Session("h", ["g", "k"], None)]
  {
    assert ["g"] + ["k"] == ["g", "k"];
    var joined := Session("h", ["g", "k"], None);
    assert core.sessions[0 := joined] == [joined];
  }

  lemma LeavesShared(core: Core)
    requires core.sessions == [Session("h", ["g", "k"], None)]
    ensures !LeaveFrom(core, "k", 0).threw
  {
  }

  // ---------- A name that has changed hands ----------

  const STALE_NAME := [Connect(0, 0), Connect(1, 0), Connect(2, 0), Receive(0, NewUser("h"), 0), ExceptionCaught(0),
                       Receive(2, NewUser("h"), 0), Receive(1, NewUser("g"), 0), Receive(1, SessionRequest("h"), 0)]

  /** A connection that is gone still speaks under its old name: its data reaches the guest of the new holder. */
  lemma StaleNameSpeaks(pts: int, dts: int, frame: seq<byte>)
    ensures Guarded(INITIAL, STALE_NAME)
    ensures var s := Exec(INITIAL, STALE_NAME);
            var t := Step(s, Receive(0, Data(pts, dts, frame), 0));
            && 0 in s.handlers && !s.handlers[0].running && "h" in s.core.users && s.core.users["h"] == 2
            && "g" in s.core.users && s.core.users["g"] == 1
            && Sent(t.core.out, 1) == Sent(s.core.out, 1) + [Data(pts, dts, frame)]
  {
    Start(true);
    hide Arrives;
    var r1 := [] + [Connect(0, 0)];
    var r2 := r1 + [Connect(1, 0)];
    var r3 := r2 + [Connect(2, 0)];
    var r4 := r3 + [Receive(0, NewUser("h"), 0)];
    var r5 := r4 + [ExceptionCaught(0)];
    var r6 := r5 + [Receive(2, NewUser("h"), 0)];
    var r7 := r6 + [Receive(1, NewUser("g"), 0)];
    assert r7 + [Receive(1, SessionRequest("h"), 0)] == STALE_NAME;
    Connects([], NOTHING, true, 0);
    Connects(r1, Greeted(NOTHING, 0), true, 1);
    Connects(r2, Greeted(Greeted(NOTHING, 0), 1), true, 2);
    var greeted := Greeted(Greeted(Greeted(NOTHING, 0), 1), 2);
    Registers(r3, greeted, true, 0, "h");
    var first := Known(greeted, 0, "h");
    Leaves(r4, first, true, 0);
    var gone := first.(users := first.users - {"h"}, handlers := first.handlers[0 := Handler(0, "h", false, 0)]);
    Registers(r5, gone, true, 2, "h");
    Registers(r6, Known(gone, 2, "h"), true, 1, "g");
    var known := Known(Known(gone, 2, "h"), 1, "g");
    Begins(r7, known, true, 1, "h");
    StaleSpeaks(STALE_NAME, known.(sessions := [Session("h", ["g"], None)]), Data(pts, dts, frame));
  }

  lemma StaleSpeaks(es: seq<Event>, shape: Shape, p: Packet)
    requires Arrives(es, shape, true) && p.Data? && 0 in shape.handlers && shape.handlers[0].selfName == "h"
    requires shape.sessions == [Session("h", ["g"], None)] && "g" in shape.users && shape.users["g"] == 1
    ensures Guarded(INITIAL, es) && ShapeOf(Exec(INITIAL, es)) == shape
    ensures var s := Exec(INITIAL, es);
            Sent(Step(s, Receive(0, p, 0)).core.out, 1) == Sent(s.core.out, 1) + [p]
  {
    hide Exec, Guarded;
    var core := Exec(INITIAL, es).core;
    GuestHears(core, p);
    hide DataFrom;
  }

  lemma GuestHears(core: Core, p: Packet)
    requires core.sessions == [Session("h", ["g"], None)] && "g" in core.users
    ensures var e := DataFrom(core, "h", p, 0);
            !e.threw && e.core.out == Push(core.out, core.users["g"], p)
  {
    assert ["g"][1..] == []
        && SendAll(core.users, ["g"], p, core.out) == Delivery(Push(core.out, core.users["g"], p), false);
  }
}
