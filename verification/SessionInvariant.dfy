/** The global invariant of the guarded distributor, and what each scan amounts to under it. */
module SessionInvariant {
  import opened Protocol
  import opened SessionRules
  import opened SessionMachine

  ghost predicate DistinctHosts(ss: seq<Session>) {
    forall i, j :: 0 <= i < j < |ss| ==> ss[i].host != ss[j].host
  }

  ghost predicate NoRepeat(ns: seq<Name>) {
    forall i, j :: 0 <= i < j < |ns| ==> ns[i] != ns[j]
  }

  /** Every name occurs at most once across all hosts and client lists. */
  ghost predicate Unique(ss: seq<Session>) {
    && (forall i :: 0 <= i < |ss| ==> ss[i].host !in ss[i].clients && NoRepeat(ss[i].clients))
    && (forall i, j, n :: 0 <= i < |ss| && 0 <= j < |ss| && In(ss[i], n) && In(ss[j], n) ==> i == j)
  }

  ghost predicate Injective(users: map<Name, Chan>) {
    forall m, n :: m in users && n in users && users[m] == users[n] ==> m == n
  }

  ghost predicate MembersRegistered(core: Core) {
    forall i, n :: 0 <= i < |core.sessions| && In(core.sessions[i], n) ==> n in core.users
  }

  /** What the tables alone satisfy. */
  ghost predicate Sound(core: Core) {
    && Unique(core.sessions)
    && MembersRegistered(core)
    && Injective(core.users)
    && (forall n :: n in core.users ==> n != "" && core.users[n] in core.out)
  }

  ghost predicate Bound(s: State, n: Name) {
    n in s.core.users && s.core.users[n] in s.handlers && s.handlers[s.core.users[n]].running
    && s.handlers[s.core.users[n]].selfName == n
  }

  ghost predicate Consistent(s: State, c: Chan) {
    c in s.handlers && c in s.core.out && s.handlers[c].chan == c
    && (s.handlers[c].running && s.handlers[c].selfName != "" ==>
          s.handlers[c].selfName in s.core.users && s.core.users[s.handlers[c].selfName] == c)
  }

  /** Tables and handlers agree: a name is registered exactly while the running handler carrying it is. */
  ghost predicate Inv(s: State) {
    && Sound(s.core)
    && (forall n :: n in s.core.users ==> Bound(s, n))
    && (forall c :: c in s.handlers ==> Consistent(s, c))
  }

  // ---------- Broadcasts ----------

  ghost predicate Reaches(users: map<Name, Chan>, who: set<Name>, c: Chan) {
    exists n :: n in who && n in users && users[n] == c
  }

  /** Each channel of a name in `who` gets p once more; the others get nothing. */
  ghost function Tell(users: map<Name, Chan>, who: set<Name>, p: Packet, out: Outboxes): (r: Outboxes) {
    map c | c in out :: if Reaches(users, who, c) then out[c] + [p] else out[c]
  }

  function Names(ns: seq<Name>): set<Name> {
    set n | n in ns
  }

  lemma TellOneMore(users: map<Name, Chan>, first: Name, rest: seq<Name>, p: Packet, out: Outboxes)
    requires Injective(users) && first in users && first !in rest && users[first] in out
    ensures Tell(users, Names(rest), p, Push(out, users[first], p)) == Tell(users, Names([first] + rest), p, out)
  {
    var pushed := Push(out, users[first], p);
    forall c | c in out
      ensures Reaches(users, Names([first] + rest), c) <==> c == users[first] || Reaches(users, Names(rest), c)
    {
      if c == users[first] { assert first in Names([first] + rest); }
      if n :| n in Names(rest) && n in users && users[n] == c { assert n in Names([first] + rest); }
    }
    forall c | c in out
      ensures Tell(users, Names(rest), p, pushed)[c] == Tell(users, Names([first] + rest), p, out)[c]
    {
      if c == users[first] { assert !Reaches(users, Names(rest), c); }
    }
    assert Tell(users, Names(rest), p, pushed) == Tell(users, Names([first] + rest), p, out);
  }

  lemma {:induction false} SendAllTells(users: map<Name, Chan>, names: seq<Name>, p: Packet, out: Outboxes)
    requires Injective(users) && NoRepeat(names)
    requires forall n :: n in names ==> n in users
    requires forall n :: n in users ==> users[n] in out
    ensures SendAll(users, names, p, out) == Delivery(Tell(users, Names(names), p, out), false)
  {
    if names == [] {
      assert Tell(users, {}, p, out) == out;
    } else {
      var rest := names[1..];
      assert names == [names[0]] + rest && names[0] !in rest;
      SendAllTells(users, rest, p, Push(out, users[names[0]], p));
      TellOneMore(users, names[0], rest, p, out);
      hide Tell, Injective;
    }
  }

  lemma OneNameEach(users: map<Name, Chan>, c: Chan)
    requires Injective(users)
    ensures |NamesOn(users, users.Keys, c)| == if Reaches(users, users.Keys, c) then 1 else 0
  {
    var on := NamesOn(users, users.Keys, c);
    if n :| n in users && users[n] == c {
      assert on == {n};
    } else {
      assert on == {};
    }
  }

  lemma SendToNamesTells(users: map<Name, Chan>, p: Packet, out: Outboxes)
    requires Injective(users)
    requires forall n :: n in users ==> users[n] in out
    ensures SendToNames(users, users.Keys, p, out) == Tell(users, users.Keys, p, out)
  {
    forall c | c in out
      ensures SendToNames(users, users.Keys, p, out)[c] == Tell(users, users.Keys, p, out)[c]
    {
      OneNameEach(users, c);
    }
    hide Injective, NamesOn, Reaches;
  }

  // ---------- What the scans find ----------

  lemma FindUnique(ss: seq<Session>, n: Name, i: nat, k: nat)
    requires Unique(ss) && i <= k < |ss| && In(ss[k], n)
    ensures Find(ss, n, i) == Some(k)
  {
  }

  lemma FindNothing(ss: seq<Session>, n: Name, i: nat)
    requires i <= |ss| && forall j :: i <= j < |ss| ==> !In(ss[j], n)
    ensures Find(ss, n, i) == None
  {
  }

  lemma {:induction false} CloseFound(core: Core, self: Name, p: Packet, i: nat, kept: Option<nat>)
    requires Sound(core) && i <= |core.sessions|
    requires kept.Some? ==> kept.value < |core.sessions|
    ensures var e := CloseFrom(core, self, p, i, kept);
            match Find(core.sessions, self, i)
            case None => e == Effect(Dropped(core, kept), false)
            case Some(k) =>
              var session := core.sessions[k];
              if session.host == self then
                e == Effect(core.(out := Tell(core.users, Names(session.clients), p, core.out),
                                  sessions := RemoveAt(core.sessions, k)), false)
              else
                var left := session.(clients := RemoveFirst(session.clients, self));
                e == Effect(core.(sessions := core.sessions[k := left]), false)
    decreases |core.sessions| - i
  {
    if i < |core.sessions| {
      var session := core.sessions[i];
      if session.host == self {
        SendAllTells(core.users, session.clients, p, core.out);
        var told := core.(out := Tell(core.users, Names(session.clients), p, core.out));
        FindNothing(core.sessions, self, i + 1);
        CloseFound(told, self, p, i + 1, Some(i));
      } else if self !in session.clients {
        CloseFound(core, self, p, i + 1, kept);
      }
    }
  }

  lemma {:induction false} VideoFound(core: Core, self: Name, vp: Params, i: nat)
    requires Sound(core) && i <= |core.sessions|
    ensures var e := VideoFrom(core, self, vp, i);
            match Find(core.sessions, self, i)
            case None => e == Effect(core, false)
            case Some(k) =>
              var session := core.sessions[k];
              e == if session.host == self then
                     Effect(core.(out := Tell(core.users, Names(session.clients), VideoParams(vp), core.out),
                                  sessions := core.sessions[k := session.(params := Some(vp))]), false)
                   else Effect(core, false)
    decreases |core.sessions| - i
  {
    if i < |core.sessions| {
      var session := core.sessions[i];
      if session.host == self {
        SendAllTells(core.users, session.clients, VideoParams(vp), core.out);
        var stored := core.(out := Tell(core.users, Names(session.clients), VideoParams(vp), core.out),
                            sessions := core.sessions[i := session.(params := Some(vp))]);
        assert forall j, n :: 0 <= j < |core.sessions| ==> (In(stored.sessions[j], n) <==> In(core.sessions[j], n));
        assert Sound(stored);
        FindNothing(stored.sessions, self, i + 1);
        VideoFound(stored, self, vp, i + 1);
      } else {
        if self in session.clients { FindNothing(core.sessions, self, i + 1); }
        VideoFound(core, self, vp, i + 1);
      }
    }
  }

  lemma {:induction false} DataFound(core: Core, self: Name, p: Packet, i: nat)
    requires Sound(core) && i <= |core.sessions|
    ensures var e := DataFrom(core, self, p, i);
            match Find(core.sessions, self, i)
            case None => e == Effect(core, false)
            case Some(k) =>
              var session := core.sessions[k];
              e == if session.host == self then
                     Effect(core.(out := Tell(core.users, Names(session.clients), p, core.out)), false)
                   else Effect(core, false)
    decreases |core.sessions| - i
  {
    if i < |core.sessions| {
      var session := core.sessions[i];
      if In(session, self) { FindNothing(core.sessions, self, i + 1); }
      if session.host == self {
        SendAllTells(core.users, session.clients, p, core.out);
        DataFound(core.(out := Tell(core.users, Names(session.clients), p, core.out)), self, p, i + 1);
      } else {
        DataFound(core, self, p, i + 1);
      }
    }
  }

  lemma {:induction false} ControlFound(core: Core, self: Name, p: Packet, i: nat)
    requires Sound(core) && i <= |core.sessions|
    ensures var e := ControlFrom(core, self, p, i);
            match Find(core.sessions, self, i)
            case None => e == Effect(core, false)
            case Some(k) =>
              var host := core.sessions[k].host;
              && (host == self ==> e == Effect(core, false))
              && (host != self ==>
                    host in core.users && e == Effect(core.(out := Push(core.out, core.users[host], p)), false))
    decreases |core.sessions| - i
  {
    if i < |core.sessions| {
      var session := core.sessions[i];
      assert In(session, session.host);
      if In(session, self) { FindNothing(core.sessions, self, i + 1); }
      if self in session.clients {
        ControlFound(core.(out := Push(core.out, core.users[session.host], p)), self, p, i + 1);
      } else {
        ControlFound(core, self, p, i + 1);
      }
    }
  }

  /** The joining and leaving scans stop at the first hit, so these two need no invariant on the sessions. */
  lemma {:induction false} RequestFound(core: Core, me: Handler, target: Name, i: nat)
    requires i <= |core.sessions|
    ensures var e := RequestFrom(core, me, target, i);
            match Find(core.sessions, target, i)
            case None => e == RequestFrom(core, me, target, |core.sessions|)
            case Some(k) => e == RequestFrom(core, me, target, k)
    decreases |core.sessions| - i
  {
    if i < |core.sessions| && !In(core.sessions[i], target) {
      RequestFound(core, me, target, i + 1);
    }
  }

  lemma {:induction false} LeaveFound(core: Core, self: Name, i: nat)
    requires i <= |core.sessions|
    ensures match Find(core.sessions, self, i)
            case None => LeaveFrom(core, self, i) == Effect(core, false)
            case Some(k) => LeaveFrom(core, self, i) == LeaveFrom(core, self, k)
    decreases |core.sessions| - i
  {
    if i < |core.sessions| && !In(core.sessions[i], self) {
      LeaveFound(core, self, i + 1);
    }
  }
}
