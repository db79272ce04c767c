/** Which routes a packet keeps alive, and when a RREP takes the place of newer knowledge. */
module Freshness {
  import opened Config
  import opened Routes
  import opened AlarmSpec
  import opened Node
  import opened NodeInv
  import opened NodeSteps
  import opened NodeView
  import opened NodeRuns
  import opened NodeFacts
  import opened Wrappers

  lemma SameEntry(n: Node, r: Route, s: Route)
    requires Inv(n) && r in n.table && s in n.table
    ensures (r.rid == s.rid <==> r == s) && (r.dst == s.dst <==> r == s)
    ensures Find(n.table, r.dst) == Some(r)
  {
    EntryOk(n.table, n.nextId, r);
    EntryOk(n.table, n.nextId, s);
    FindIsLookup(n.table, 0, r.dst, r);
    FindIsLookup(n.table, 0, s.dst, s);
    var i :| 0 <= i < |n.table| && n.table[i] == r;
    var j :| 0 <= j < |n.table| && n.table[j] == s;
  }

  // ----- Active routes -----

  /** The route to `a` uses the entry for `dst`: it is that entry, or that of its next hop. */
  predicate Uses(n: Node, a: Addr, dst: Addr) {
    Find(n.table, a).Some? && (dst == a || dst == Find(n.table, a).value.nextHop)
  }

  lemma SetDue(n: Node, r0: Route, ms: nat, now: int, r: Route, due: int)
    requires Inv(n) && r0 in n.table && r in n.table
    ensures Armed(RouteTimer(r.rid), due) in SetLifetime(n, r0, ms, now).timers <==>
      if r.dst == r0.dst then due == Due(now, ms) else Armed(RouteTimer(r.rid), due) in n.timers
  {
    hide Find, InvBut;
    SameEntry(n, r, r0);
    ArmMembers(n.timers, RouteTimer(r0.rid), Due(now, ms), Armed(RouteTimer(r.rid), due));
  }

  /** The entry for the same destination after `r0` has been given a lifetime. */
  lemma StillThere(n: Node, r0: Route, ms: nat, now: int, r: Route) returns (s: Route)
    requires Inv(n) && r0 in n.table && r in n.table
    ensures s in SetLifetime(n, r0, ms, now).table && s.rid == r.rid && s.dst == r.dst && s.nextHop == r.nextHop
  {
    hide Find, InvBut;
    SameEntry(n, r, r0);
    var r1 := r0.(valid := true, action := UnsetValidEntry);
    s := if r.rid == r0.rid then r1 else r;
    WithRouteMembers(n.table, r1, s);
  }

  lemma RefreshDue(n: Node, a: Addr, now: int, r: Route, due: int)
    requires Inv(n) && r in n.table
    ensures Armed(RouteTimer(r.rid), due) in RefreshTo(n, a, now).timers <==>
      if Uses(n, a, r.dst) then due == Due(now, ACTIVE_ROUTE_TIMEOUT) else Armed(RouteTimer(r.rid), due) in n.timers
  {
    hide InvBut, Find, HeldOk;
    FindIn(n, {}, a);
    match Find(n.table, a)
    case None =>
    case Some(r0) =>
      var n1 := SetLifetime(n, r0, ACTIVE_ROUTE_TIMEOUT, now);
      SetDue(n, r0, ACTIVE_ROUTE_TIMEOUT, now, r, due);
      SetLifetimeKeeps(n, {}, r0, ACTIVE_ROUTE_TIMEOUT, now);
      var s := StillThere(n, r0, ACTIVE_ROUTE_TIMEOUT, now, r);
      SameEntry(n1, s, s);
      FindIn(n1, {}, r0.nextHop);
      if r0.nextHop != a && Find(n1.table, r0.nextHop).Some? {
        SetDue(n1, Find(n1.table, r0.nextHop).value, ACTIVE_ROUTE_TIMEOUT, now, s, due);
      }
  }

  lemma RefreshUses(n: Node, a: Addr, now: int, b: Addr, dst: Addr)
    requires Inv(n)
    ensures Uses(RefreshTo(n, a, now), b, dst) == Uses(n, b, dst)
  {
    hide InvBut, Find, HeldOk, SetLifetime;
    FindIn(n, {}, a);
    match Find(n.table, a)
    case None =>
    case Some(r0) =>
      var n1 := SetLifetime(n, r0, ACTIVE_ROUTE_TIMEOUT, now);
      SetToward(n, r0, ACTIVE_ROUTE_TIMEOUT, now);
      assert Toward(n1.table, b) == Toward(n.table, b);
      SetLifetimeKeeps(n, {}, r0, ACTIVE_ROUTE_TIMEOUT, now);
      FindIn(n1, {}, r0.nextHop);
      if r0.nextHop != a && Find(n1.table, r0.nextHop).Some? {
        var h := Find(n1.table, r0.nextHop).value;
        SetToward(n1, h, ACTIVE_ROUTE_TIMEOUT, now);
        assert Toward(SetLifetime(n1, h, ACTIVE_ROUTE_TIMEOUT, now).table, b) == Toward(n1.table, b);
      }
  }

  lemma RefreshedEntry(n: Node, a: Addr, now: int, r: Route) returns (s: Route)
    requires Inv(n) && r in n.table
    ensures s in RefreshTo(n, a, now).table && s.rid == r.rid && s.dst == r.dst
  {
    hide InvBut, Find, HeldOk, SetLifetime;
    s := r;
    FindIn(n, {}, a);
    match Find(n.table, a)
    case None =>
    case Some(r0) =>
      var n1 := SetLifetime(n, r0, ACTIVE_ROUTE_TIMEOUT, now);
      s := StillThere(n, r0, ACTIVE_ROUTE_TIMEOUT, now, r);
      SetLifetimeKeeps(n, {}, r0, ACTIVE_ROUTE_TIMEOUT, now);
      FindIn(n1, {}, r0.nextHop);
      if r0.nextHop != a && Find(n1.table, r0.nextHop).Some? {
        s := StillThere(n1, Find(n1.table, r0.nextHop).value, ACTIVE_ROUTE_TIMEOUT, now, s);
      }
  }

  /** A packet that has a route keeps exactly the routes it uses alive: those to its destination and its
      originator and to their next hops run out the active route timeout from now, and every other
      deadline stays what it was. */
  lemma UpdateDue(n: Node, dst: Addr, orig: Addr, now: int, r: Route, due: int)
    requires Inv(n) && Routable(n, dst) && r in n.table
    ensures Armed(RouteTimer(r.rid), due) in UpdateRoute(n, dst, orig, now).timers <==>
      if (dst != n.ip && Uses(n, dst, r.dst)) || (orig != 0 && Uses(n, orig, r.dst))
      then due == Due(now, ACTIVE_ROUTE_TIMEOUT)
      else Armed(RouteTimer(r.rid), due) in n.timers
  {
    hide InvBut, Find, HeldOk, RefreshTo, Uses;
    var n1, s := n, r;
    if dst != n.ip {
      n1 := RefreshTo(n, dst, now);
      RefreshDue(n, dst, now, r, due);
      RefreshKeeps(n, {}, dst, now);
      RefreshUses(n, dst, now, orig, r.dst);
      s := RefreshedEntry(n, dst, now, r);
    }
    if orig != 0 {
      RefreshDue(n1, orig, now, s, due);
    }
  }

  // ----- Sequence numbers -----

  datatype Knowledge = Unknown | Known(seqNum: U32, valid: bool)

  function About(table: seq<Route>, a: Addr): Knowledge {
    match Find(table, a) case None => Unknown case Some(r) => Known(r.seqNum, r.seqValid)
  }

  lemma EditAbout(n: Node, r0: Route, r1: Route, a: Addr)
    requires Inv(n) && r0 in n.table && r1.rid == r0.rid && r1.dst == r0.dst && r1.prefix == r0.prefix
    ensures About(WithRoute(n.table, r1), a) == if a == r1.dst then Known(r1.seqNum, r1.seqValid) else About(n.table, a)
    ensures About(n.table, r0.dst) == Known(r0.seqNum, r0.seqValid)
  {
    EntryOk(n.table, n.nextId, r0);
    forall s | s in n.table && s.rid == r1.rid
      ensures s == r0
    {
      SameEntry(n, s, r0);
    }
    FindAfterEdit(n.table, r1, a);
    FindIsLookup(n.table, 0, r0.dst, r0);
    FindIn(n, {}, a);
  }

  lemma SetAbout(n: Node, r: Route, ms: nat, now: int, a: Addr)
    requires Inv(n) && r in n.table
    ensures About(SetLifetime(n, r, ms, now).table, a) == About(n.table, a)
  {
    hide About, InvBut, Arm;
    EditAbout(n, r, r.(valid := true, action := UnsetValidEntry), a);
  }

  lemma NoteAbout(n: Node, b: Addr, precursor: Addr, a: Addr)
    requires Inv(n)
    ensures About(NotePrecursor(n, b, precursor).table, a) == About(n.table, a)
  {
    hide About, InvBut, Find;
    FindIn(n, {}, b);
    if Find(n.table, b).Some? {
      var r := Find(n.table, b).value;
      EditAbout(n, r, AddPrecursor(r, precursor), a);
    }
  }

  /** Hearing from the previous hop leaves what is known of other destinations alone. */
  lemma TouchAbout(n: Node, from: Addr, now: int, a: Addr)
    requires Inv(n) && Find(n.table, a).Some?
    ensures About(TouchPrevHop(n, from, now).table, a) == About(n.table, a)
  {
    hide InvBut, Arm;
    FindIn(n, {}, from);
    match Find(n.table, from)
    case Some(r) => SetAbout(n, r, ACTIVE_ROUTE_TIMEOUT, now, a);
    case None =>
      FindIn(n, {}, a);
      var r := NewRoute(n.nextId, from).(nextHop := from, valid := true, action := UnsetValidEntry);
      assert ([r] + n.table)[1..] == n.table;
  }

  lemma PassAbout(n: Node, from: Addr, p: Message, hops: U8, life: Lifetimes, now: int, a: Addr)
    requires p.Rrep? && Inv(n)
    ensures About(PassOn(n, from, p, hops, life, now).table, a) == About(n.table, a)
  {
    hide InvBut, Find, HeldOk, NotePrecursor, SetLifetime, About;
    if Find(n.table, p.orig).Some? {
      var next := Find(n.table, p.orig).value.nextHop;
      var n1 := n.(sent := n.sent + [Rrep(next, (p.ttl + 0xFF) % 0x100, hops, p.dest, p.destSeq, p.orig)]);
      LogKeeps(n, n1, {});
      NoteKeeps(n1, p.dest, next);
      NoteAbout(n1, p.dest, next, a);
      var n2 := if p.dest == next then n1 else NotePrecursor(n1, p.dest, next);
      FindIn(n2, {}, next);
      var n3 := match life.next
        case None => n2
        case Some(ms) => (match Find(n2.table, next) case None => n2 case Some(r) => SetLifetime(n2, r, ms, now));
      if life.next.Some? && Find(n2.table, next).Some? {
        SetLifetimeKeeps(n2, {}, Find(n2.table, next).value, life.next.value, now);
        SetAbout(n2, Find(n2.table, next).value, life.next.value, now, a);
      }
      NoteAbout(n3, from, next, a);
    }
  }

  /** What a RREP does to a valid sequence number of its destination. */
  lemma RrepAbout(n: Node, from: Addr, p: Message, life: Lifetimes, now: int)
    requires p.Rrep? && Inv(n) && About(n.table, p.dest).Known?
    ensures var n1 := TouchPrevHop(n, from, now);
      && Find(n1.table, p.dest).Some?
      && About(ProcessRrep(n, from, p, life, now).table, p.dest) ==
         if Supersedes(Find(n1.table, p.dest).value, p, (p.hops + 1) % 0x100) then Known(p.destSeq, true)
         else About(n.table, p.dest)
  {
    hide InvBut, HeldOk, TouchPrevHop, SetLifetime, Answered, PassOn, Supersedes, WithRoute;
    TouchKeeps(n, from, now);
    TouchAbout(n, from, now, p.dest);
    var n1 := TouchPrevHop(n, from, now);
    FindIn(n1, {}, p.dest);
    var r, hops := Find(n1.table, p.dest).value, (p.hops + 1) % 0x100;
    if Supersedes(r, p, hops) {
      var r1 := r.(seqNum := p.destSeq, seqValid := true, nextHop := from, hops := hops);
      EditKeeps(n1, {}, r, r1);
      EditAbout(n1, r, r1, p.dest);
      var n2 := n1.(table := WithRoute(n1.table, r1));
      SetLifetimeKeeps(n2, {}, r1, life.forward, now);
      SetAbout(n2, r1, life.forward, now, p.dest);
      var n3 := SetLifetime(n2, r1, life.forward, now);
      AnsweredFrame(n3, n3.rreqId, p.dest);
      PassAbout(n3, from, p, hops, life, now, p.dest);
    }
  }

  /** A RREP never makes a known route older, unless its hop count is equal to the stored one and its
      sequence number is older: then, and only then, it replaces newer knowledge. */
  lemma RrepFreshness(n: Node, from: Addr, p: Message, life: Lifetimes, now: int)
    requires p.Rrep? && Inv(n) && Find(n.table, p.dest).Some? && Find(n.table, p.dest).value.seqValid
    ensures var was, k := Find(n.table, p.dest).value, About(ProcessRrep(n, from, p, life, now).table, p.dest);
      && k.Known? && k.valid
      && (Signed(k.seqNum) >= Signed(was.seqNum) <==>
           !(Signed(p.destSeq) < Signed(was.seqNum) && (p.hops + 1) % 0x100 == was.hops))
  {
    hide InvBut, HeldOk, ProcessRrep, TouchPrevHop, Find;
    RrepAbout(n, from, p, life, now);
    TouchToward(n, from, now);
    TouchAbout(n, from, now, p.dest);
    assert Toward(TouchPrevHop(n, from, now).table, p.dest) == Toward(n.table, p.dest);
  }

  /** What a node learns of a destination it knew nothing of. */
  lemma RrepLearns(n: Node, from: Addr, p: Message, life: Lifetimes, now: int)
    requires p.Rrep? && Inv(n) && Find(n.table, p.dest).None?
    ensures About(ProcessRrep(n, from, p, life, now).table, p.dest) == Known(p.destSeq, true)
  {
    hide InvBut, HeldOk, TouchPrevHop, ForwardRoute, SetLifetime, Answered, PassOn, WithRoute, Find;
    TouchKeeps(n, from, now);
    var n1 := TouchPrevHop(n, from, now);
    ForwardRouteKeeps(n1, from, p, now);
    var n2 := ForwardRoute(n1, from, p, now);
    FindIn(n2, {}, p.dest);
    var r, hops := Find(n2.table, p.dest).value, (p.hops + 1) % 0x100;
    assert Find(n1.table, p.dest).None? || !r.seqValid by { TouchedUnknown(n, from, p, now); }
    var r1 := r.(seqNum := p.destSeq, seqValid := true, nextHop := from, hops := hops);
    EditKeeps(n2, {}, r, r1);
    EditAbout(n2, r, r1, p.dest);
    var n2' := n2.(table := WithRoute(n2.table, r1));
    SetLifetimeKeeps(n2', {}, r1, life.forward, now);
    SetAbout(n2', r1, life.forward, now, p.dest);
    var n3 := SetLifetime(n2', r1, life.forward, now);
    AnsweredFrame(n3, n3.rreqId, p.dest);
    PassAbout(n3, from, p, hops, life, now, p.dest);
  }

  // ----- A route that gets older -----

  function Reply(seqNum: U32): Event {
    Packet(5, Rrep(1, 64, 3, 9, seqNum, 20), None, Lifetimes(3000, None))
  }

  /** A reply for node 9 comes by way of node 5, and then an older one on the same way. */
  function StaleRun(): seq<Timed> {
    [Timed(Reply(7), 0), Timed(Reply(3), 1)]
  }

  lemma RouteGetsOlder()
    ensures var run, start := StaleRun(), Initial(1, 255);
      && Runs(start, run[..1]) && About(Reached(1, 255, run[..1]).table, 9) == Known(7, true)
      && Runs(start, run) && About(Reached(1, 255, run).table, 9) == Known(3, true)
  {
    var n0, a, b := Initial(1, 255), Timed(Reply(7), 0), Timed(Reply(3), 1);
    OlderTaken();
    OneStep(n0, a);
    TwoSteps(n0, a, b);
    assert StaleRun()[..1] == [a];
    hide React, About, Runs, Outcome;
  }

  lemma OneStep(n: Node, a: Timed)
    requires !a.e.RunAlarms?
    ensures Runs(n, [a]) && Outcome(n, [a]) == React(n, a.e, a.at)
  {
    hide React;
    var m := React(n, a.e, a.at);
    assert [a][1..] == [];
    assert Runs(m, []) && Outcome(m, []) == m;
  }

  lemma TwoSteps(n: Node, a: Timed, b: Timed)
    requires !a.e.RunAlarms? && !b.e.RunAlarms?
    ensures Runs(n, [a, b]) && Outcome(n, [a, b]) == React(React(n, a.e, a.at), b.e, b.at)
  {
    hide React;
    OneStep(React(n, a.e, a.at), b);
    assert [a, b][1..] == [b];
  }

  lemma OlderTaken()
    ensures var n1 := React(Initial(1, 255), Reply(7), 0);
      About(n1.table, 9) == Known(7, true) && About(React(n1, Reply(3), 1).table, 9) == Known(3, true)
  {
    hide ProcessRrep, InvBut, HeldOk, TouchPrevHop;
    var n0, p, q, life := Initial(1, 255), Reply(7).p, Reply(3).p, Lifetimes(3000, None);
    InitialInv(1, 255);
    RrepKeeps(n0, 5, p, life, 0);
    RrepLearns(n0, 5, p, life, 0);
    RrepEffect(n0, 5, p, life, 0);
    var n1 := ProcessRrep(n0, 5, p, life, 0);
    TouchToward(n1, 5, 1);
    TouchAbout(n1, 5, 1, 9);
    RrepAbout(n1, 5, q, life, 1);
    assert Toward(TouchPrevHop(n1, 5, 1).table, 9) == Hop(5, 4);
  }

  /** The destination's answer carries its own number, which is never the one it was asked about; it is
      newer exactly if the number asked about is not ahead of the destination's (short of the largest
      signed number). */
  lemma AnswerNewer(n: Node, from: Addr, p: Message)
    requires p.Rreq? && p.dest == n.ip
    ensures var m := AnswerRreq(n, from, p);
      && m.sent == n.sent + [Rrep(from, DEFAULT_TTL, 0, n.ip, m.seqNum, p.orig)]
      && m.seqNum != p.destSeq
      && (n.seqNum != 0x7FFF_FFFF ==> (Signed(m.seqNum) > Signed(p.destSeq) <==> Signed(p.destSeq) <= Signed(n.seqNum)))
  {
  }

  // ----- Precursors -----

  ghost predicate Unrepeated(s: seq<Addr>) {
    forall i, j :: 0 <= i < j < |s| ==> s[i] != s[j]
  }

  /** The precursor list of the route to `a` gets the new one, unless it is there; no list of another
      route changes, and no precursor is ever listed twice. */
  lemma NotedOnce(n: Node, a: Addr, precursor: Addr, b: Addr)
    requires Inv(n) && Find(n.table, b).Some?
    ensures var m := NotePrecursor(n, a, precursor);
      && Find(m.table, b).Some?
      && var was, now := Find(n.table, b).value.precursors, Find(m.table, b).value.precursors;
         && (Unrepeated(was) ==> Unrepeated(now))
         && (a != b ==> now == was)
         && (a == b ==> precursor in now && forall x :: x in now <==> x == precursor || x in was)
  {
    hide InvBut, HeldOk;
    FindIn(n, {}, a);
    FindIn(n, {}, b);
    if Find(n.table, a).Some? {
      var r := Find(n.table, a).value;
      var r1 := AddPrecursor(r, precursor);
      forall s | s in n.table && s.rid == r1.rid
        ensures s == r
      {
        SameEntry(n, s, r);
      }
      FindAfterEdit(n.table, r1, b);
    }
  }
}
