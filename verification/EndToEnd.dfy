/** From the daemon's send buffer to the server's tables: run_frame's drain, the network and channelRead together
    are a run of the distributor's transition system. */
module EndToEnd {
  import opened Protocol
  import opened Framing
  import opened SessionRules
  import opened SessionMachine
  import opened SessionInvariant
  import opened SessionTheorems
  import opened ClientSocket
  import opened Delivery
  import JavaMessageManager
  import Distributor

  // ---------- Handling in parts ----------

  lemma {:induction false} HandleAllConcat(core: Core, me: Handler, a: seq<Bytes>, b: seq<Bytes>,
                                           parse: Bytes -> Option<Packet>, times: nat -> int, n: nat)
    ensures var first, whole := HandleAll(core, me, a, parse, times, n), HandleAll(core, me, a + b, parse, times, n);
            whole == if first.threw then Batch(first.core, first.me, true, first.left + b)
                     else HandleAll(first.core, first.me, b, parse, times, n + |a|)
    decreases |a|
  {
    hide HandlePacket;
    if a == [] {
      assert a + b == b;
    } else {
      assert (a + b)[0] == a[0] && (a + b)[1..] == a[1..] + b;
      match parse(a[0]) {
        case None => HandleAllConcat(core, me, a[1..], b, parse, times, n + 1);
        case Some(p) =>
          var o := HandlePacket(core, me, p, times(n));
          if !o.threw { HandleAllConcat(o.core, o.me, a[1..], b, parse, times, n + 1); }
      }
    }
  }

  lemma {:induction false} NothingLeft(core: Core, me: Handler, ms: seq<Bytes>, parse: Bytes -> Option<Packet>,
                                       times: nat -> int, n: nat)
    ensures var b := HandleAll(core, me, ms, parse, times, n); !b.threw ==> b.left == []
    decreases |ms|
  {
    hide HandlePacket;
    if ms != [] {
      match parse(ms[0]) {
        case None => NothingLeft(core, me, ms[1..], parse, times, n + 1);
        case Some(p) =>
          var o := HandlePacket(core, me, p, times(n));
          if !o.threw { NothingLeft(o.core, o.me, ms[1..], parse, times, n + 1); }
      }
    }
  }

  // ---------- Any chunking ----------

  /** The data in chunks of these sizes, and what remains in one more. */
  function Cut(data: Bytes, sizes: seq<nat>): seq<Bytes>
    decreases |sizes|
  {
    if sizes == [] then [data]
    else
      var k := if sizes[0] < |data| then sizes[0] else |data|;
      [data[..k]] + Cut(data[k..], sizes[1..])
  }

  lemma {:induction false} FlattenHead(c: Bytes, cs: seq<Bytes>)
    ensures Flatten([c] + cs) == c + Flatten(cs)
  {
    var all := [c] + cs;
    if cs == [] {
      assert all[..0] == [] && [] + c == c && c + [] == c;
    } else {
      FlattenHead(c, cs[..|cs| - 1]);
      assert all[..|all| - 1] == [c] + cs[..|cs| - 1];
    }
  }

  lemma {:induction false} CutRejoins(data: Bytes, sizes: seq<nat>)
    ensures Flatten(Cut(data, sizes)) == data
    decreases |sizes|
  {
    hide Flatten;
    if sizes == [] {
      FlattenHead(data, []);
      NoBytes();
      assert [data] + [] == [data] && data + [] == data;
    } else {
      var k := if sizes[0] < |data| then sizes[0] else |data|;
      CutRejoins(data[k..], sizes[1..]);
      FlattenHead(data[..k], Cut(data[k..], sizes[1..]));
      assert data[..k] + data[k..] == data;
    }
  }

  lemma {:induction false} FlattenFront(cs: seq<Bytes>, i: nat) returns (later: Bytes)
    requires i <= |cs|
    ensures Flatten(cs) == Flatten(cs[..i]) + later
  {
    if i == |cs| {
      assert cs[..i] == cs;
      later := [];
    } else {
      var front := cs[..|cs| - 1];
      var t := FlattenFront(front, i);
      assert front[..i] == cs[..i];
      later := t + cs[|cs| - 1];
    }
  }

  lemma NextChunk(before: Bytes, cs: seq<Bytes>, i: nat)
    requires i < |cs| && NoNegative(before + Flatten(cs))
    ensures before + Flatten(cs[..i + 1]) == before + Flatten(cs[..i]) + cs[i]
    ensures NoNegative(before + Flatten(cs[..i + 1]))
  {
    assert cs[..i + 1][..i] == cs[..i];
    var later := FlattenFront(cs, i + 1);
    assert before + Flatten(cs) == before + Flatten(cs[..i + 1]) + later;
    if !NoNegative(before + Flatten(cs[..i + 1])) {
      JavaMessageManager.NegativeStays(before + Flatten(cs[..i + 1]), later);
    }
  }

  /** The messages of a longer stream begin with those of a shorter one. */
  lemma MessagesGrow(a: Bytes, b: Bytes) returns (more: seq<Bytes>)
    ensures Decode(a + b).messages == Decode(a).messages + more
  {
    DecodeResumes(a, b);
    more := Decode(Decode(a).rest + b).messages;
  }

  // ---------- Reading a stream ----------

  /** Handling these messages from the one state leads to the other. */
  ghost predicate Handled(core: Core, me: Handler, ms: seq<Bytes>, parse: Bytes -> Option<Packet>, times: nat -> int,
                          n: nat, core': Core, me': Handler, threw: bool)
  {
    var b := HandleAll(core, me, ms, parse, times, n);
    b.core == core' && b.me == me' && b.threw == threw
  }

  lemma NothingHandled(core: Core, me: Handler, parse: Bytes -> Option<Packet>, times: nat -> int, n: nat)
    ensures Handled(core, me, [], parse, times, n, core, me, false)
  {
  }

  lemma HandledOn(core0: Core, me0: Handler, a: seq<Bytes>, core1: Core, me1: Handler, b: seq<Bytes>, core2: Core,
                  me2: Handler,
                  threw: bool, parse: Bytes -> Option<Packet>, times: nat -> int, n: nat)
    requires Handled(core0, me0, a, parse, times, n, core1, me1, false)
    requires Handled(core1, me1, b, parse, times, n + |a|, core2, me2, threw)
    ensures Handled(core0, me0, a + b, parse, times, n, core2, me2, threw)
  {
    hide HandleAll;
    HandleAllConcat(core0, me0, a, b, parse, times, n);
  }

  lemma HandledStops(core: Core, me: Handler, a: seq<Bytes>, b: seq<Bytes>, core': Core, me': Handler,
                     parse: Bytes -> Option<Packet>, times: nat -> int, n: nat)
    requires Handled(core, me, a, parse, times, n, core', me', true)
    ensures Handled(core, me, a + b, parse, times, n, core', me', true)
  {
    hide HandleAll;
    HandleAllConcat(core, me, a, b, parse, times, n);
  }

  /** One chunk, read by a handler that has handled all messages complete so far. */
  method ReadChunk(h: Distributor.ServerHandler, chunk: Bytes, parse: Bytes -> Option<Packet>, times: nat -> int,
                   n: nat)
    returns (threw: bool, next: nat, ghost done: seq<Bytes>)
    requires h.shared.Valid() && h.mgr.Valid() && h.mgr.packets == [] && NoNegative(h.mgr.received + chunk)
    modifies h`selfName, h`lastHeartbeat, h.shared, h.shared.sessions, h.net, h.mgr, h.mgr.buffer
    ensures h.shared.Valid() && h.mgr.Valid() && (fresh(h.mgr.buffer) || h.mgr.buffer == old(h.mgr.buffer))
    ensures forall s :: s in h.shared.sessions ==> s in old(h.shared.sessions) || fresh(s)
    ensures h.mgr.received == old(h.mgr.received) + chunk
    ensures Decode(h.mgr.received).messages == old(h.mgr.retrieved) + done
    ensures !threw ==> h.mgr.packets == [] && h.mgr.retrieved == old(h.mgr.retrieved) + done && next == n + |done|
    ensures Handled(old(h.Tables()), old(h.Me()), done, parse, times, n, h.Tables(), h.Me(), threw)
  {
    hide Decode, NoNegative, HandleAll, Distributor.Views, Header;
    ghost var core, me := h.Tables(), h.Me();
    threw, next := h.ChannelRead(chunk, parse, times, n);
    done := Decode(h.mgr.received).messages[|old(h.mgr.retrieved)|..];
    NothingLeft(core, me, done, parse, times, n);
    assert Decode(h.mgr.received).messages == h.mgr.retrieved + h.mgr.packets;
  }

  /** A whole stream in any chunks: what is handled is the messages of the stream, in order, up to one that throws. */
  method ReadAll(h: Distributor.ServerHandler, chunks: seq<Bytes>, parse: Bytes -> Option<Packet>, times: nat -> int,
                 n: nat)
    returns (threw: bool, ghost done: seq<Bytes>)
    requires h.shared.Valid() && h.mgr.Valid() && h.mgr.packets == [] && NoNegative(h.mgr.received + Flatten(chunks))
    modifies h`selfName, h`lastHeartbeat, h.shared, h.shared.sessions, h.net, h.mgr, h.mgr.buffer
    ensures Decode(old(h.mgr.received) + Flatten(chunks)).messages == old(h.mgr.retrieved) + done
    ensures Handled(old(h.Tables()), old(h.Me()), done, parse, times, n, h.Tables(), h.Me(), threw)
    ensures h.shared.Valid() && forall s :: s in h.shared.sessions ==> s in old(h.shared.sessions) || fresh(s)
  {
    hide Decode, NoNegative, Handled, Distributor.Views, Flatten, Header;
    ghost var received, retrieved := h.mgr.received, h.mgr.retrieved;
    ghost var core, me := h.Tables(), h.Me();
    NothingHandled(core, me, parse, times, n);
    NoBytes();
    var i, next := 0, n;
    threw, done := false, [];
    assert chunks[..0] == [] && received + [] == received;
    assert Decode(received).messages == retrieved + done;
    while i < |chunks|
      invariant i <= |chunks| && next == n + |done|
      invariant h.shared.Valid() && h.mgr.Valid() && h.mgr.packets == []
      invariant fresh(h.mgr.buffer) || h.mgr.buffer == old(h.mgr.buffer)
      invariant forall s :: s in h.shared.sessions ==> s in old(h.shared.sessions) || fresh(s)
      invariant h.mgr.received == received + Flatten(chunks[..i]) && h.mgr.retrieved == retrieved + done
      invariant Decode(h.mgr.received).messages == retrieved + done
      invariant Handled(core, me, done, parse, times, n, h.Tables(), h.Me(), false)
    {
      NextChunk(received, chunks, i);
      ghost var core1, me1 := h.Tables(), h.Me();
      ghost var more: seq<Bytes>;
      assert forall k :: 0 <= k < |h.shared.sessions| ==> h.shared.sessions[k] in h.shared.sessions;
      threw, next, more := ReadChunk(h, chunks[i], parse, times, next);
      HandledOn(core, me, done, core1, me1, more, h.Tables(), h.Me(), threw, parse, times, n);
      assert retrieved + done + more == retrieved + (done + more);
      done := done + more;
      i := i + 1;
      if threw {
        var later := FlattenFront(chunks, i);
        var unread := MessagesGrow(received + Flatten(chunks[..i]), later);
        assert received + Flatten(chunks[..i]) + later == received + Flatten(chunks);
        HandledStops(core, me, done, unread, h.Tables(), h.Me(), parse, times, n);
        assert retrieved + done + unread == retrieved + (done + unread);
        done := done + unread;
        return;
      }
    }
    assert chunks[..i] == chunks;
  }

  lemma NoBytes()
    ensures Flatten([]) == []
  {
  }

  // ---------- Handling is running ----------

  /** The events a batch of messages is: one for each that can be parsed, up to the first that throws. */
  ghost function Events(core: Core, me: Handler, ms: seq<Bytes>, parse: Bytes -> Option<Packet>, times: nat -> int,
                        n: nat, c: Chan): seq<Event>
    decreases |ms|
  {
    if ms == [] then []
    else match parse(ms[0])
      case None => Events(core, me, ms[1..], parse, times, n + 1, c)
      case Some(p) =>
        var o := HandlePacket(core, me, p, times(n));
        [Receive(c, p, times(n))] + if o.threw then [] else Events(o.core, o.me, ms[1..], parse, times, n + 1, c)
  }

  /** If all messages can be parsed, the events are theirs, one by one and in order, each at its own time; all of them,
      unless one throws. */
  lemma {:induction false} EventsAre(core: Core, me: Handler, ms: seq<Bytes>, parse: Bytes -> Option<Packet>,
                                     times: nat -> int, n: nat, c: Chan)
    requires forall i :: 0 <= i < |ms| ==> parse(ms[i]).Some?
    ensures var es := Events(core, me, ms, parse, times, n, c);
            && |es| <= |ms| && (HandleAll(core, me, ms, parse, times, n).threw || |es| == |ms|)
            && forall i :: 0 <= i < |es| ==> es[i] == Receive(c, parse(ms[i]).value, times(n + i))
    decreases |ms|
  {
    hide HandlePacket;
    if ms != [] {
      var o := HandlePacket(core, me, parse(ms[0]).value, times(n));
      if !o.threw { EventsAre(o.core, o.me, ms[1..], parse, times, n + 1, c); }
    }
  }

  /** A message that cannot be parsed is no event, and those after it keep their times. */
  lemma EventsSkip(core: Core, me: Handler, m: Bytes, ms: seq<Bytes>, parse: Bytes -> Option<Packet>,
                   times: nat -> int, n: nat, c: Chan)
    requires parse(m).None?
    ensures Events(core, me, [m] + ms, parse, times, n, c) == Events(core, me, ms, parse, times, n + 1, c)
  {
    assert ([m] + ms)[1..] == ms;
  }

  /** A batch that threw comes back as exceptionCaught. */
  ghost function Ended(core: Core, me: Handler, threw: bool): Outcome {
    Caught(Outcome(core, me, threw))
  }

  lemma ExecFirst(s: State, e: Event, es: seq<Event>)
    ensures Exec(s, [e] + es) == Exec(Step(s, e), es)
  {
    ExecConcat(s, [e], es);
    ExecSnoc(s, [], e);
    assert [] + [e] == [e];
  }

  lemma SettledTwice(s: State, c: Chan, o: Outcome, o': Outcome)
    ensures Settle(Settle(s, c, o), c, o') == Settle(s, c, o')
  {
  }

  /** Handling messages in one go is the run of their events, and the invariant holds after it if they obey the
      guards. */
  lemma {:induction false} HandledIsRun(s: State, c: Chan, ms: seq<Bytes>, parse: Bytes -> Option<Packet>,
                                        times: nat -> int, n: nat)
    requires c in s.handlers
    ensures var b := HandleAll(s.core, s.handlers[c], ms, parse, times, n);
            Exec(s, Events(s.core, s.handlers[c], ms, parse, times, n, c)) == Settle(s, c, Ended(b.core, b.me, b.threw))
    decreases |ms|
  {
    hide HandlePacket, RemoveSelf;
    var me := s.handlers[c];
    if ms == [] {
      assert Settle(s, c, Outcome(s.core, me, false)) == s;
    } else {
      match parse(ms[0]) {
        case None => HandledIsRun(s, c, ms[1..], parse, times, n + 1);
        case Some(p) =>
          var o := HandlePacket(s.core, me, p, times(n));
          var t := Step(s, Receive(c, p, times(n)));
          assert t == Settle(s, c, Caught(o));
          var later := if o.threw then [] else Events(o.core, o.me, ms[1..], parse, times, n + 1, c);
          ExecFirst(s, Receive(c, p, times(n)), later);
          if !o.threw {
            HandledIsRun(t, c, ms[1..], parse, times, n + 1);
            var b := HandleAll(o.core, o.me, ms[1..], parse, times, n + 1);
            SettledTwice(s, c, o, Ended(b.core, b.me, b.threw));
          }
      }
    }
  }

  // ---------- From the send buffer to the tables ----------

  lemma QueueDecoded(before: Bytes, all: seq<Bytes>, retrieved: seq<Bytes>, sent: Bytes) returns (done: seq<Bytes>)
    requires Sendable(all) && Decode(before) == Parsed(retrieved, []) && NoNegative(before)
    requires sent <= EncodeAll(all)
    ensures NoNegative(before + sent) && Decode(before + sent).messages == retrieved + done
    ensures done <= all && (sent == EncodeAll(all) ==> done == all)
  {
    var later := EncodeAll(all)[|sent|..];
    assert EncodeAll(all) == sent + later;
    RoundTrip(all);
    if !NoNegative(sent) { JavaMessageManager.NegativeStays(sent, later); }
    assert [] + sent == sent;
    NegativeResumes(before, sent);
    DecodeResumes(before, sent);
    done := Decode(sent).messages;
    var more := MessagesGrow(sent, later);
    if sent == EncodeAll(all) { assert later == []; }
    hide Decode, NoNegative, EncodeAll;
  }

  /** End to end over the real loops: the daemon drains its queue over a network without hard errors, and the server
      reads whatever was accepted in chunks of any sizes. What the server does to its tables is what handling the
      queue's messages in order does to them; while a send is still looping, a prefix of them. */
  method Deliver(buffer: ChunkBuffer<Bytes>, socket: Socket, h: Distributor.ServerHandler, sizes: seq<nat>,
                 parse: Bytes -> Option<Packet>, times: nat -> int, n: nat)
    returns (returned: bool, threw: bool, ghost done: seq<Bytes>)
    requires Sendable(buffer.queue) && NoHardError(socket.script)
    requires h.shared.Valid() && h.mgr.Valid() && h.mgr.packets == []
    requires h.mgr.received == socket.stream && Decode(socket.stream).rest == []
    modifies buffer, socket`script, socket`stream
    modifies h`selfName, h`lastHeartbeat, h.shared, h.shared.sessions, h.net, h.mgr, h.mgr.buffer
    ensures done <= old(buffer.queue) && (returned ==> done == old(buffer.queue))
    ensures Handled(old(h.Tables()), old(h.Me()), done, parse, times, n, h.Tables(), h.Me(), threw)
    ensures h.shared.Valid() && forall s :: s in h.shared.sessions ==> s in old(h.shared.sessions) || fresh(s)
  {
    hide Decode, NoNegative, Handled, Distributor.Views, Flatten, EncodeAll, Header;
    ghost var all, core, me := buffer.queue, h.Tables(), h.Me();
    var before := socket.stream;
    returned := DrainSendBuffer(buffer, socket);
    var sent := socket.stream[|before|..];
    assert socket.stream == before + sent;
    done := QueueDecoded(before, all, h.mgr.retrieved, sent);
    CutRejoins(sent, sizes);
    ghost var handled;
    ghost var retrieved := h.mgr.retrieved;
    threw, handled := ReadAll(h, Cut(sent, sizes), parse, times, n);
    assert (retrieved + done)[|retrieved|..] == done && (retrieved + handled)[|retrieved|..] == handled;
  }

  /** Delivery is a run: if the tables and the handler are those of state s before, then draining, reading and, should
      it come to that, exceptionCaught leave those of the state that the messages' events lead to. So a guarded
      delivery keeps the invariant, and everything proved about runs holds of it. */
  method DeliverAsRun(buffer: ChunkBuffer<Bytes>, socket: Socket, h: Distributor.ServerHandler, sizes: seq<nat>,
                      parse: Bytes -> Option<Packet>, times: nat -> int, n: nat, ghost s: State)
    returns (returned: bool, ghost done: seq<Bytes>, ghost t: State)
    requires Sendable(buffer.queue) && NoHardError(socket.script)
    requires h.shared.Valid() && h.mgr.Valid() && h.mgr.packets == []
    requires h.mgr.received == socket.stream && Decode(socket.stream).rest == []
    requires s.core == h.Tables() && h.channel in s.handlers && s.handlers[h.channel] == h.Me()
    modifies buffer, socket`script, socket`stream
    modifies h`selfName, h`lastHeartbeat, h`running, h.shared, h.shared.sessions, h.net, h.mgr, h.mgr.buffer
    ensures done <= old(buffer.queue) && (returned ==> done == old(buffer.queue))
    ensures t == Exec(s, Events(s.core, s.handlers[h.channel], done, parse, times, n, h.channel))
    ensures t == State(h.Tables(), s.handlers[h.channel := h.Me()])
    ensures Inv(s) && Guarded(s, Events(s.core, s.handlers[h.channel], done, parse, times, n, h.channel)) ==> Inv(t)
  {
    hide Decode, HandleAll, Distributor.Views, Header, RemoveSelf, Events, Exec, Guarded, Inv;
    ghost var core, me := h.Tables(), h.Me();
    var threw;
    returned, threw, done := Deliver(buffer, socket, h, sizes, parse, times, n);
    HandledIsRun(s, h.channel, done, parse, times, n);
    if threw {
      assert forall i :: 0 <= i < |h.shared.sessions| ==> h.shared.sessions[i] in h.shared.sessions;
      threw := h.ExceptionCaught();
    }
    ghost var events := Events(core, me, done, parse, times, n, h.channel);
    t := Exec(s, events);
    if Inv(s) && Guarded(s, events) { ExecRefines(s, events); }
  }
}
