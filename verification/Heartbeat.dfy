/** The heartbeat: one token circulating between daemon and server, and the two watchdogs. Times are in
    milliseconds on one clock. */
module Heartbeat {
  import opened Protocol
  import SessionRules
  import Daemon
  import Distributor

  /** Where heartbeats are: under way to the server (since when), under way to the daemon, or held by a daemon
      task in its two-second sleep. */
  datatype Clockwork = Clockwork(
    now: real, connected: bool,
    toServer: seq<real>, toDaemon: seq<real>, sleeping: seq<real>,
    serverLast: real, daemonLast: real)

  datatype Tick =
    | Attempt(success: bool)      // run_frame's connect branch, which enqueues a heartbeat either way
    | Pass(ms: real)
    | ServerHandles(i: nat)       // onHeartbeat
    | DaemonHandles(i: nat)       // handle_heartbeat up to the sleep
    | Wakes(i: nat)               // the rest of handle_heartbeat

  const START := Clockwork(0.0, false, [], [], [], 0.0, 0.0)

  function Without(q: seq<real>, i: nat): seq<real>
    requires i < |q|
  {
    q[..i] + q[i + 1..]
  }

  function Next(c: Clockwork, t: Tick): Clockwork {
    match t
    case Attempt(success) =>
      if c.connected then c
      else c.(connected := success, toServer := c.toServer + [c.now], daemonLast := c.now,
              serverLast := if success then c.now else c.serverLast)
    case Pass(ms) => if ms < 0.0 then c else c.(now := c.now + ms)
    case ServerHandles(i) =>
      if !c.connected || i >= |c.toServer| then c
      else c.(toServer := Without(c.toServer, i), toDaemon := c.toDaemon + [c.now], serverLast := c.now)
    case DaemonHandles(i) =>
      if !c.connected || i >= |c.toDaemon| then c
      else c.(toDaemon := Without(c.toDaemon, i), sleeping := c.sleeping + [c.now], daemonLast := c.now)
    case Wakes(i) =>
      if i >= |c.sleeping| || c.now - c.sleeping[i] < 2000.0 then c
      else c.(sleeping := Without(c.sleeping, i), toServer := c.toServer + [c.now])
  }

  function After(ts: seq<Tick>): Clockwork {
    if ts == [] then START else Next(After(ts[..|ts| - 1]), ts[|ts| - 1])
  }

  function Tokens(c: Clockwork): nat {
    |c.toServer| + |c.toDaemon| + |c.sleeping|
  }

  /** Connect attempts made while not connected. */
  function Attempts(ts: seq<Tick>): nat {
    if ts == [] then 0
    else Attempts(ts[..|ts| - 1])
         + if ts[|ts| - 1].Attempt? && !After(ts[..|ts| - 1]).connected then 1 else 0
  }

  /** Each attempt puts one token into circulation and nothing else creates or destroys one. */
  lemma {:induction false} TokensAreAttempts(ts: seq<Tick>)
    ensures Tokens(After(ts)) == Attempts(ts)
  {
    if ts != [] {
      TokensAreAttempts(ts[..|ts| - 1]);
      NextTokens(After(ts[..|ts| - 1]), ts[|ts| - 1]);
      hide Next, Tokens;
    }
  }

  function FirstAttempt(ts: seq<Tick>): Option<bool> {
    if ts == [] then None
    else if FirstAttempt(ts[..|ts| - 1]).Some? then FirstAttempt(ts[..|ts| - 1])
    else if ts[|ts| - 1].Attempt? then Some(ts[|ts| - 1].success)
    else None
  }

  lemma {:induction false} AttemptsUntilConnected(ts: seq<Tick>)
    ensures FirstAttempt(ts) == if Attempts(ts) == 0 then None else Some(After(ts).connected && Attempts(ts) == 1)
    ensures After(ts).connected ==> Attempts(ts) > 0
  {
    if ts != [] {
      AttemptsUntilConnected(ts[..|ts| - 1]);
    }
  }

  /** A live connection has exactly one token if and only if the first attempt to connect succeeded. */
  lemma OneTokenIff(ts: seq<Tick>)
    requires After(ts).connected
    ensures Tokens(After(ts)) == 1 <==> FirstAttempt(ts) == Some(true)
  {
    TokensAreAttempts(ts);
    AttemptsUntilConnected(ts);
    hide After, Attempts, FirstAttempt, Tokens;
  }

  lemma NextTokens(c: Clockwork, t: Tick)
    ensures Tokens(Next(c, t)) == Tokens(c) + if t.Attempt? && !c.connected then 1 else 0
  {
  }

  /** The server compares whole milliseconds, the daemon whole seconds. */
  predicate ServerFires(c: Clockwork) {
    c.connected && SessionRules.ServerTimedOut(c.now.Floor, c.serverLast.Floor)
  }

  predicate DaemonFires(c: Clockwork) {
    c.connected && Daemon.SilentFor(c.now, c.daemonLast) > 6
  }

  /** No heartbeat has been under way for `delay` or longer, polling and waiting in buffers included, and no
      sleep has overrun. */
  ghost predicate Timely(c: Clockwork, delay: real) {
    && (forall i :: 0 <= i < |c.toServer| ==> c.now - c.toServer[i] < delay)
    && (forall i :: 0 <= i < |c.toDaemon| ==> c.now - c.toDaemon[i] < delay)
    && (forall i :: 0 <= i < |c.sleeping| ==> c.now - c.sleeping[i] <= 2000.0)
  }

  /** Where the single token is bounds how old both ends' last heartbeats can be. */
  ghost predicate Circulating(c: Clockwork) {
    && c.connected && Tokens(c) == 1
    && (|c.toServer| == 1 ==>
          var t := c.toServer[0]; t <= c.now && t - c.daemonLast <= 2000.0 && t - c.serverLast < 4500.0)
    && (|c.toDaemon| == 1 ==>
          var t := c.toDaemon[0]; t <= c.now && c.serverLast == t && t - c.daemonLast < 4500.0)
    && (|c.sleeping| == 1 ==>
          var t := c.sleeping[0]; t <= c.now && c.daemonLast == t && t - c.serverLast < 2500.0)
  }

  lemma StepCirculates(c: Clockwork, t: Tick)
    requires Circulating(c) && Timely(c, 2500.0)
    ensures Circulating(Next(c, t))
  {
  }

  ghost predicate AlwaysTimely(ts: seq<Tick>) {
    forall k :: 0 <= k <= |ts| ==> Timely(After(ts[..k]), 2500.0)
  }

  /** After a first attempt that succeeds, and while every one-way delay stays below 2500 ms, exactly one token
      circulates and neither watchdog ever fires. */
  lemma {:induction false} NeverFires(ts: seq<Tick>)
    requires ts != [] && ts[0] == Attempt(true) && AlwaysTimely(ts)
    ensures Circulating(After(ts)) && Tokens(After(ts)) == 1
    ensures !ServerFires(After(ts)) && !DaemonFires(After(ts))
  {
    var front := ts[..|ts| - 1];
    if |ts| == 1 {
      assert ts[..0] == [];
    } else {
      forall k | 0 <= k <= |front| ensures Timely(After(front[..k]), 2500.0) {
        assert front[..k] == ts[..k];
      }
      NeverFires(front);
      assert front[..|front|] == front;
      StepCirculates(After(front), ts[|ts| - 1]);
    }
    assert ts[..|ts|] == ts;
    FreshEnough(After(ts));
  }

  lemma FreshEnough(c: Clockwork)
    requires Circulating(c) && Timely(c, 2500.0)
    ensures !ServerFires(c) && !DaemonFires(c)
  {
    assert c.now - c.serverLast < 7000.0 && c.now - c.daemonLast < 7000.0;
  }

  // ---------- When the watchdogs fire ----------

  /** The leg a token completes in this tick, if any: the way to the server, the way back or the sleep. */
  function Leg(c: Clockwork, t: Tick): Option<real> {
    match t
    case ServerHandles(i) => if c.connected && i < |c.toServer| then Some(c.now - c.toServer[i]) else None
    case DaemonHandles(i) => if c.connected && i < |c.toDaemon| then Some(c.now - c.toDaemon[i]) else None
    case Wakes(i) =>
      if i < |c.sleeping| && c.now - c.sleeping[i] >= 2000.0 then Some(c.now - c.sleeping[i]) else None
    case _ => None
  }

  /** The two legs completed last, the latest first; legs not gone yet count as zero. */
  function Legs(ts: seq<Tick>): (real, real) {
    if ts == [] then (0.0, 0.0)
    else
      var before := Legs(ts[..|ts| - 1]);
      match Leg(After(ts[..|ts| - 1]), ts[|ts| - 1])
      case None => before
      case Some(ms) => (ms, before.0)
  }

  /** Both ends' clocks tell the legs: the daemon's runs from the last arrival at the daemon, the server's from
      the last arrival at the server. */
  ghost predicate Told(c: Clockwork, legs: (real, real)) {
    && c.connected && Tokens(c) == 1 && legs.0 >= 0.0 && legs.1 >= 0.0
    && (|c.toServer| == 1 ==>
          var t := c.toServer[0]; t <= c.now && c.daemonLast == t - legs.0 && c.serverLast == t - legs.0 - legs.1)
    && (|c.toDaemon| == 1 ==>
          var t := c.toDaemon[0]; t <= c.now && c.serverLast == t && c.daemonLast == t - legs.0 - legs.1)
    && (|c.sleeping| == 1 ==>
          var t := c.sleeping[0]; t <= c.now && c.daemonLast == t && c.serverLast == t - legs.0)
  }

  lemma StepTold(c: Clockwork, t: Tick, legs: (real, real))
    requires Told(c, legs)
    ensures Told(Next(c, t), match Leg(c, t) case None => legs case Some(ms) => (ms, legs.0))
  {
  }

  lemma {:induction false} NoLegsYet(ts: seq<Tick>)
    requires Attempts(ts) == 0
    ensures Legs(ts) == (0.0, 0.0) && Tokens(After(ts)) == 0 && !After(ts).connected
  {
    TokensAreAttempts(ts);
    AttemptsUntilConnected(ts);
    if ts != [] {
      NoLegsYet(ts[..|ts| - 1]);
    }
  }

  lemma {:induction false} LegsTold(ts: seq<Tick>)
    requires FirstAttempt(ts) == Some(true)
    ensures Told(After(ts), Legs(ts))
  {
    var front, t := ts[..|ts| - 1], ts[|ts| - 1];
    if FirstAttempt(front).Some? {
      LegsTold(front);
      StepTold(After(front), t, Legs(front));
      hide Told, Leg, Next, FirstAttempt;
    } else {
      AttemptsUntilConnected(front);
      NoLegsYet(front);
    }
  }

  /** How long ago a heartbeat last reached the daemon, told by the legs since then and the age of the current one. */
  function SinceDaemon(c: Clockwork, legs: (real, real)): real {
    if |c.toServer| > 0 then c.now - c.toServer[0] + legs.0
    else if |c.toDaemon| > 0 then c.now - c.toDaemon[0] + legs.0 + legs.1
    else if |c.sleeping| > 0 then c.now - c.sleeping[0]
    else 0.0
  }

  function SinceServer(c: Clockwork, legs: (real, real)): real {
    if |c.toServer| > 0 then c.now - c.toServer[0] + legs.0 + legs.1
    else if |c.toDaemon| > 0 then c.now - c.toDaemon[0]
    else if |c.sleeping| > 0 then c.now - c.sleeping[0] + legs.0
    else 0.0
  }

  /** After a first attempt that succeeds the daemon's watch condition holds exactly when the sleep, the way out and
      the way back (as far as they have come) add up to 7000 ms, and the server's exactly when the way back, the
      sleep and the way out add up to more than 7000 of its whole milliseconds. */
  lemma WatchdogsFireIff(ts: seq<Tick>)
    requires FirstAttempt(ts) == Some(true)
    ensures var c := After(ts);
            && (DaemonFires(c) <==> SinceDaemon(c, Legs(ts)) >= 7000.0)
            && (ServerFires(c) <==> c.now.Floor - (c.now - SinceServer(c, Legs(ts))).Floor > 7000)
  {
    LegsTold(ts);
    FiresFrom(After(ts), Legs(ts));
    hide After, Legs, Told, DaemonFires, ServerFires, SinceDaemon, SinceServer, FirstAttempt;
  }

  lemma FiresFrom(c: Clockwork, legs: (real, real))
    requires Told(c, legs)
    ensures DaemonFires(c) <==> SinceDaemon(c, legs) >= 7000.0
    ensures ServerFires(c) <==> c.now.Floor - (c.now - SinceServer(c, legs)).Floor > 7000
  {
    assert SinceDaemon(c, legs) == c.now - c.daemonLast && c.now >= c.daemonLast;
    assert c.now - SinceServer(c, legs) == c.serverLast;
  }

  /** How the delay is spread over the legs does not matter: while the current leg and the two before it take
      less than 7000 ms together, neither watchdog fires. */
  lemma RoundTripsKeepAlive(ts: seq<Tick>)
    requires FirstAttempt(ts) == Some(true)
    requires var c := After(ts);
             (|c.toServer| > 0 ==> c.now - c.toServer[0] + Legs(ts).0 + Legs(ts).1 < 7000.0)
             && (|c.toDaemon| > 0 ==> c.now - c.toDaemon[0] + Legs(ts).0 + Legs(ts).1 < 7000.0)
             && (|c.sleeping| > 0 ==> c.now - c.sleeping[0] + Legs(ts).0 + Legs(ts).1 < 7000.0)
    ensures !DaemonFires(After(ts)) && !ServerFires(After(ts))
  {
    LegsTold(ts);
    BriskEnough(After(ts), Legs(ts));
    hide After, Legs, Told, DaemonFires, ServerFires, FirstAttempt;
  }

  lemma BriskEnough(c: Clockwork, legs: (real, real))
    requires Told(c, legs)
    requires |c.toServer| > 0 ==> c.now - c.toServer[0] + legs.0 + legs.1 < 7000.0
    requires |c.toDaemon| > 0 ==> c.now - c.toDaemon[0] + legs.0 + legs.1 < 7000.0
    requires |c.sleeping| > 0 ==> c.now - c.sleeping[0] + legs.0 + legs.1 < 7000.0
    ensures !DaemonFires(c) && !ServerFires(c)
  {
    assert c.now - c.daemonLast < 7000.0 && c.now - c.serverLast < 7000.0;
  }

  // ---------- How often heartbeats come ----------

  /** How many heartbeats the server has handled. */
  function Handled(ts: seq<Tick>): nat {
    if ts == [] then 0
    else Handled(ts[..|ts| - 1])
         + if ts[|ts| - 1].ServerHandles? && Leg(After(ts[..|ts| - 1]), ts[|ts| - 1]).Some? then 1 else 0
  }

  /** The token has slept two seconds for each heartbeat but the one under way. */
  ghost predicate Paced(c: Clockwork, n: nat) {
    && c.connected && Tokens(c) == 1
    && (|c.toServer| == 1 ==> c.now >= 2000.0 * n as real)
    && (|c.toDaemon| == 1 ==> n > 0 && c.now >= 2000.0 * (n - 1) as real)
    && (|c.sleeping| == 1 ==> n > 0 && c.sleeping[0] >= 2000.0 * (n - 1) as real)
  }

  lemma StepPaced(c: Clockwork, t: Tick, n: nat)
    requires Paced(c, n)
    ensures Paced(Next(c, t), n + if t.ServerHandles? && Leg(c, t).Some? then 1 else 0)
  {
  }

  lemma {:induction false} StartPaced(ts: seq<Tick>)
    requires Attempts(ts) == 0
    ensures Handled(ts) == 0 && After(ts).now >= 0.0
  {
    AttemptsUntilConnected(ts);
    if ts != [] {
      StartPaced(ts[..|ts| - 1]);
      AttemptsUntilConnected(ts[..|ts| - 1]);
    }
  }

  lemma {:induction false} RunPaced(ts: seq<Tick>)
    requires FirstAttempt(ts) == Some(true)
    ensures Paced(After(ts), Handled(ts))
  {
    var front, t := ts[..|ts| - 1], ts[|ts| - 1];
    if FirstAttempt(front).Some? {
      RunPaced(front);
      StepPaced(After(front), t, Handled(front));
      hide Paced, Leg, Next, FirstAttempt;
    } else {
      AttemptsUntilConnected(front);
      NoLegsYet(front);
      StartPaced(front);
    }
  }

  /** With one token the server handles at most one heartbeat and one more for every two seconds that have passed. */
  lemma OneEveryTwoSeconds(ts: seq<Tick>)
    requires FirstAttempt(ts) == Some(true)
    ensures 2000.0 * (Handled(ts) - 1) as real <= After(ts).now
  {
    RunPaced(ts);
    SleptLongEnough(ts);
    hide After, Handled, FirstAttempt;
  }

  lemma SleptLongEnough(ts: seq<Tick>)
    requires FirstAttempt(ts) == Some(true)
    ensures |After(ts).sleeping| == 1 ==> After(ts).sleeping[0] <= After(ts).now
  {
    LegsTold(ts);
    hide After, Legs, FirstAttempt;
  }

  const SLOWEST := [Attempt(true), ServerHandles(0), DaemonHandles(0), Pass(2000.0), Wakes(0),
                    Pass(2500.0), ServerHandles(0), Pass(2500.0)]

  /** The bound is exact: with both delays at 2500 ms the daemon's watch condition holds as the answer arrives. */
  lemma DelayBoundIsTight()
    ensures After(SLOWEST) == Clockwork(7000.0, true, [], [4500.0], [], 4500.0, 0.0)
    ensures DaemonFires(After(SLOWEST)) && !ServerFires(After(SLOWEST))
  {
    hide After;
    var asleep := OneRoundTrip();
    var s4 := asleep + [Pass(2000.0)];
    var s5 := s4 + [Wakes(0)];
    var s6 := s5 + [Pass(2500.0)];
    var s7 := s6 + [ServerHandles(0)];
    AfterOneMore(asleep, Pass(2000.0));
    AfterOneMore(s4, Wakes(0));
    assert After(s5) == Clockwork(2000.0, true, [2000.0], [], [], 0.0, 0.0);
    AfterOneMore(s5, Pass(2500.0));
    AfterOneMore(s6, ServerHandles(0));
    AfterOneMore(s7, Pass(2500.0));
    assert s7 + [Pass(2500.0)] == SLOWEST;
  }

  lemma OneRoundTrip() returns (ts: seq<Tick>)
    ensures ts == [Attempt(true), ServerHandles(0), DaemonHandles(0)]
    ensures After(ts) == Clockwork(0.0, true, [], [], [0.0], 0.0, 0.0)
  {
    assert After([]) == START;
    hide After;
    var s1, s2 := [Attempt(true)], [Attempt(true), ServerHandles(0)];
    assert [] + [Attempt(true)] == s1 && s1 + [ServerHandles(0)] == s2;
    AfterOneMore([], Attempt(true));
    assert After(s1) == Clockwork(0.0, true, [0.0], [], [], 0.0, 0.0);
    AfterOneMore(s1, ServerHandles(0));
    assert After(s2) == Clockwork(0.0, true, [], [0.0], [], 0.0, 0.0);
    AfterOneMore(s2, DaemonHandles(0));
    ts := s2 + [DaemonHandles(0)];
  }

  lemma AfterOneMore(ts: seq<Tick>, t: Tick)
    ensures After(ts + [t]) == Next(After(ts), t)
  {
    assert (ts + [t])[..|ts|] == ts;
  }

  /** Under ideal scheduling the watchdog thread, polling every 1000 ms from within a second of the last heartbeat
      on, removes a silent peer no later than 8000 ms after it, and not before 7000 ms have passed. */
  method WatchdogThread(h: Distributor.ServerHandler, first: int) returns (t: int)
    requires h.shared.Valid() && h.running && h.lastHeartbeat <= first < h.lastHeartbeat + 1000
    modifies h`running, h.shared, h.shared.sessions, h.net
    ensures h.lastHeartbeat + 7000 < t <= h.lastHeartbeat + 8000
    ensures SessionRules.RemoveSelf(old(h.Tables()), old(h.Me())).core == h.Tables() && !h.running
  {
    t := first;
    var fired, threw := h.WatchdogPoll(t);
    while !fired
      invariant h.shared.Valid() && h.lastHeartbeat <= t <= h.lastHeartbeat + 8000
      invariant forall s :: s in h.shared.sessions ==> s in old(h.shared.sessions)
      invariant if fired then SessionRules.ServerTimedOut(t, h.lastHeartbeat)
                                && SessionRules.RemoveSelf(old(h.Tables()), old(h.Me())).core == h.Tables()
                                && !h.running
                else !SessionRules.ServerTimedOut(t, h.lastHeartbeat) && h.running
                     && h.Tables() == old(h.Tables()) && h.Me() == old(h.Me())
      decreases h.lastHeartbeat + 8000 - t, !fired
    {
      t := t + 1000;
      assert forall i :: 0 <= i < |h.shared.sessions| ==> h.shared.sessions[i] in h.shared.sessions;
      fired, threw := h.WatchdogPoll(t);
    }
  }
}
