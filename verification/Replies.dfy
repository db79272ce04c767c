/** When a RREP is taken over, and all that it then changes. */
module Replies {
  import opened Config
  import opened Routes
  import opened AlarmSpec
  import opened Node
  import opened NodeInv
  import opened NodeSteps
  import opened NodeView
  import opened NodeRuns
  import opened Sights
  import opened Wrappers

  /** The destination was unknown; or it had no valid sequence number; or the RREP brings a newer one; or
      the same one for an expired entry (hearing from the destination itself revives its entry first); or
      a hop count equal to the stored one. */
  predicate TakesOver(n: Node, from: Addr, p: Message)
    requires p.Rrep?
  {
    match Find(n.table, p.dest)
    case None => true
    case Some(r) =>
      || !r.seqValid
      || Signed(p.destSeq) > Signed(r.seqNum)
      || (p.destSeq == r.seqNum && !r.valid && from != p.dest)
      || r.hops == (p.hops + 1) % 0x100
  }

  /** Where a RREP of somebody else that is taken over goes on to: the next hop towards its originator. */
  function OnwardHop(n: Node, from: Addr, p: Message): Option<Addr>
    requires p.Rrep?
  {
    if !TakesOver(n, from, p) || p.orig == n.ip then None
    else if p.orig == p.dest then Some(from)
    else
      var back := Near(n, from, p.orig, 0, 0);
      if back.Nothing? then None else Some(back.nextHop)
  }

  /** The way to the destination as the RREP sets it up. */
  function WaySight(n: Node, from: Addr, p: Message, life: Lifetimes, now: int, a: Addr, due: int): Sight
    requires p.Rrep?
  {
    var s := Near(n, from, a, now, due);
    if a != p.dest || !TakesOver(n, from, p) then s
    else Sight(from, (p.hops + 1) % 0x100, p.destSeq, true, true, if s.Nothing? then {} else s.precursors,
               due == now + 1000 * life.forward)
  }

  /** The node the RREP goes on to may get a lifetime, and it is noted as a precursor of the destination,
      unless it is the destination, and of the previous hop. */
  function PassedSight(s: Sight, from: Addr, p: Message, next: Addr, life: Lifetimes, now: int, a: Addr, due: int): Sight
    requires p.Rrep?
  {
    match s
    case Nothing => Nothing
    case Sight(nextHop, hops, seqNum, seqValid, valid, precursors, rings) =>
      var lives := a == next && life.next.Some?;
      Sight(nextHop, hops, seqNum, seqValid, valid || lives,
            if a == from || (a == p.dest && a != next) then precursors + {next} else precursors,
            if lives then due == now + 1000 * life.next.value else rings)
  }

  function ReplySight(n: Node, from: Addr, p: Message, life: Lifetimes, now: int, a: Addr, due: int): Sight
    requires p.Rrep?
  {
    var s := WaySight(n, from, p, life, now, a, due);
    match OnwardHop(n, from, p)
    case None => s
    case Some(next) => PassedSight(s, from, p, next, life, now, a, due)
  }

  // ----- The steps -----

  lemma NearIsTouched(n: Node, from: Addr, p: Message, now: int)
    requires p.Rrep? && Tabled(n)
    ensures var known := Find(TouchPrevHop(n, from, now).table, p.dest);
      TakesOver(n, from, p) <==> (known.Some? ==> Supersedes(known.value, p, (p.hops + 1) % 0x100))
  {
    hide TableOk, Find, TouchPrevHop, Covers;
    TouchSees(n, from, now, p.dest, 0);
  }

  lemma ForwardSees(n: Node, from: Addr, p: Message, now: int, a: Addr, due: int)
    requires p.Rrep? && Tabled(n)
    ensures var m, s := ForwardRoute(n, from, p, now), See(n, p.dest, due);
      && Tabled(m) && Find(m.table, p.dest).Some?
      && See(m, a, due) ==
         if a == p.dest && s.Nothing? then Sight(from, 0, p.destSeq, true, true, {}, due == now + 1000 * ACTIVE_ROUTE_TIMEOUT)
         else See(n, a, due)
  {
    hide TableOk, Find, AddRoute, Covers;
    if Find(n.table, p.dest).None? {
      var n1 := n.(nextId := n.nextId + 1);
      var r := NewRoute(n.nextId, p.dest).(nextHop := from, seqNum := p.destSeq, seqValid := true);
      NewSees(n1, r, now, a, due);
      NewSees(n1, r, now, p.dest, due);
      assert See(n1, a, due) == See(n, a, due);
    }
  }

  lemma PassSees(n: Node, from: Addr, p: Message, hops: U8, life: Lifetimes, now: int, a: Addr, due: int)
    requires p.Rrep? && Tabled(n)
    ensures var m := PassOn(n, from, p, hops, life, now);
      && Tabled(m)
      && (See(n, p.orig, 0).Nothing? ==> m == n)
      && (See(n, p.orig, 0).Sight? ==>
            See(m, a, due) == PassedSight(See(n, a, due), from, p, See(n, p.orig, 0).nextHop, life, now, a, due))
  {
    hide TableOk, Find, SetLifetime, NotePrecursor, Covers;
    match Find(n.table, p.orig)
    case None =>
    case Some(back) =>
      var next := back.nextHop;
      var n1 := n.(sent := n.sent + [Rrep(next, (p.ttl + 0xFF) % 0x100, hops, p.dest, p.destSeq, p.orig)]);
      assert See(n1, a, due) == See(n, a, due) && Tabled(n1);
      var n2 := if p.dest == next then n1 else NotePrecursor(n1, p.dest, next);
      NoteSees(n1, p.dest, next, a, due);
      NoteSees(n1, p.dest, next, next, due);
      var n3 := match life.next
        case None => n2
        case Some(ms) => (match Find(n2.table, next) case None => n2 case Some(r) => SetLifetime(n2, r, ms, now));
      if life.next.Some? && Find(n2.table, next).Some? {
        SetSees(n2, next, life.next.value, now, a, due);
      }
      NoteSees(n3, from, next, a, due);
  }

  /** The node once the way is set up, before the RREP is passed on. */
  function WithWay(n: Node, from: Addr, p: Message, life: Lifetimes, now: int): Node
    requires p.Rrep?
  {
    var n2 := ForwardRoute(TouchPrevHop(n, from, now), from, p, now);
    if !TakesOver(n, from, p) || Find(n2.table, p.dest).None? then n2
    else
      var r := Find(n2.table, p.dest).value;
      var r1 := r.(seqNum := p.destSeq, seqValid := true, nextHop := from, hops := (p.hops + 1) % 0x100);
      SetLifetime(n2.(table := WithRoute(n2.table, r1)), r1, life.forward, now)
  }

  lemma WaySees(n: Node, from: Addr, p: Message, life: Lifetimes, now: int, a: Addr, due: int)
    requires p.Rrep? && Tabled(n)
    ensures var m := WithWay(n, from, p, life, now);
      Tabled(m) && m.ip == n.ip && See(m, a, due) == WaySight(n, from, p, life, now, a, due)
  {
    hide TableOk, Find, TouchPrevHop, ForwardRoute, WithRoute, SetLifetime, Covers;
    var n1, hops := TouchPrevHop(n, from, now), (p.hops + 1) % 0x100;
    var n2 := ForwardRoute(n1, from, p, now);
    TouchSees(n, from, now, a, due);
    TouchSees(n, from, now, p.dest, due);
    ForwardSees(n1, from, p, now, a, due);
    ForwardSees(n1, from, p, now, p.dest, due);
    FoundOk(n2, p.dest);
    WayLeaves(n, from, p, life, now);
    var r1 := Find(n2.table, p.dest).value.(seqNum := p.destSeq, seqValid := true, nextHop := from, hops := hops);
    EditSees(n2, p.dest, r1, a, due);
    EditSees(n2, p.dest, r1, p.dest, due);
    SetSees(n2.(table := WithRoute(n2.table, r1)), p.dest, life.forward, now, a, due);
  }

  lemma WayLeaves(n: Node, from: Addr, p: Message, life: Lifetimes, now: int)
    requires p.Rrep?
    ensures var m := WithWay(n, from, p, life, now);
      m.ip == n.ip && m.rreqId == n.rreqId && m.requests == n.requests && m.sent == n.sent
  {
    hide Find, WithRoute, Arm;
  }

  /** Then the RREP ends a request of the node, or goes on. */
  lemma RrepParts(n: Node, from: Addr, p: Message, life: Lifetimes, now: int)
    requires p.Rrep? && Tabled(n)
    ensures var m := WithWay(n, from, p, life, now);
      ProcessRrep(n, from, p, life, now) ==
        if !TakesOver(n, from, p) then m
        else if p.orig == n.ip then Answered(m, n.rreqId, p.dest)
        else PassOn(m, from, p, (p.hops + 1) % 0x100, life, now)
  {
    hide TableOk, Find, TouchPrevHop, SetLifetime, WithRoute, PassOn, Answered, Supersedes, AddRoute, Covers;
    var n1 := TouchPrevHop(n, from, now);
    TouchSees(n, from, now, p.dest, 0);
    ForwardSees(n1, from, p, now, p.dest, 0);
    NearIsTouched(n, from, p, now);
    WayLeaves(n, from, p, life, now);
    assert Find(n1.table, p.dest).None? ==> TakesOver(n, from, p);
  }

  lemma RrepSees(n: Node, from: Addr, p: Message, life: Lifetimes, now: int, a: Addr, due: int)
    requires p.Rrep? && Tabled(n)
    ensures Tabled(ProcessRrep(n, from, p, life, now))
    ensures See(ProcessRrep(n, from, p, life, now), a, due) == ReplySight(n, from, p, life, now, a, due)
  {
    hide TableOk, Find, ProcessRrep, WithWay, PassOn, Answered, TakesOver, See, PassedSight;
    WaySees(n, from, p, life, now, a, due);
    WaySees(n, from, p, life, now, p.orig, 0);
    RrepParts(n, from, p, life, now);
    var m := WithWay(n, from, p, life, now);
    if TakesOver(n, from, p) {
      if p.orig == n.ip {
        AnsweredSees(m, n.rreqId, p.dest, a, due);
      } else {
        PassSees(m, from, p, (p.hops + 1) % 0x100, life, now, a, due);
        NextStays(n, from, p, life, now);
      }
    }
  }

  /** Where the RREP goes does not depend on the instant. */
  lemma NextStays(n: Node, from: Addr, p: Message, life: Lifetimes, now: int)
    requires p.Rrep? && TakesOver(n, from, p) && p.orig != n.ip
    ensures var s := WaySight(n, from, p, life, now, p.orig, 0);
      OnwardHop(n, from, p) == if s.Nothing? then None else Some(s.nextHop)
  {
    hide Find, TakesOver;
  }

  lemma AnsweredSees(n: Node, id: U32, dst: Addr, a: Addr, due: int)
    ensures var m := Answered(n, id, dst); See(m, a, due) == See(n, a, due) && (Tabled(n) ==> Tabled(m))
  {
    hide Find, OldEnough, WithoutRequest, TableOk;
    if OldEnough(n.requests, id, dst).Some? && Find(n.table, a).Some? {
      CancelMembers(n.timers, RequestTimer(OldEnough(n.requests, id, dst).value.eid),
                    Armed(RouteTimer(Find(n.table, a).value.rid), due));
    }
  }

  // ----- A RREP as an event -----

  lemma OwnIgnored(n: Node, e: Event, now: int)
    requires e.Packet? && e.from == n.ip
    ensures React(n, e, now) == n
  {
  }

  /** All that a RREP changes in the table and in the alarms of routes: the entry of the previous hop, the
      way to the destination if it is taken over, and what passing it on leaves. */
  lemma ReplySees(n: Node, e: Event, now: int, a: Addr, due: int)
    requires Inv(n) && e.Packet? && e.p.Rrep?
    ensures See(React(n, e, now), a, due) ==
      if e.from == n.ip then See(n, a, due) else ReplySight(n, e.from, e.p, e.life, now, a, due)
  {
    assert Tabled(n);
    hide InvBut, ReplySight, ProcessRrep, See, TableOk;
    if e.from != n.ip {
      RrepSees(n, e.from, e.p, e.life, now, a, due);
    }
  }

  /** A RREP for a known destination is taken over in exactly these cases.  Then the entry is valid, with
      the sender as next hop, one hop more, and the number of the RREP; otherwise nothing known of the
      destination changes, but that a destination that sends itself is valid again. */
  lemma KnownTakenOver(n: Node, e: Event, now: int, r: Route, due: int)
    requires Inv(n) && e.Packet? && e.p.Rrep? && e.from != n.ip && r in n.table && r.dst == e.p.dest
    ensures var s, hops := See(React(n, e, now), r.dst, due), (e.p.hops + 1) % 0x100;
      var taken := !r.seqValid || Signed(e.p.destSeq) > Signed(r.seqNum)
        || (e.p.destSeq == r.seqNum && !r.valid && e.from != r.dst) || r.hops == hops;
      && s.Sight? && (s.hops == hops <==> taken)
      && (taken ==> s.nextHop == e.from && s.seqNum == e.p.destSeq && s.seqValid && s.valid)
      && (taken && e.p.orig == n.ip ==> s.rings == (due == now + 1000 * e.life.forward))
      && (!taken ==>
            && s.nextHop == r.nextHop && s.hops == r.hops && s.seqNum == r.seqNum && s.seqValid == r.seqValid
            && (s.valid <==> r.valid || e.from == r.dst))
      && (forall x :: x in r.precursors ==> x in s.precursors)
  {
    KnownFound(n, r);
    hide InvBut, Find, React, ReplySight;
    ReplySees(n, e, now, r.dst, due);
    KnownSight(n, e.from, e.p, e.life, now, r, due);
  }

  lemma KnownSight(n: Node, from: Addr, p: Message, life: Lifetimes, now: int, r: Route, due: int)
    requires p.Rrep? && Find(n.table, p.dest) == Some(r)
    ensures var s, hops := ReplySight(n, from, p, life, now, p.dest, due), (p.hops + 1) % 0x100;
      var taken := !r.seqValid || Signed(p.destSeq) > Signed(r.seqNum)
        || (p.destSeq == r.seqNum && !r.valid && from != p.dest) || r.hops == hops;
      && s.Sight? && (s.hops == hops <==> taken)
      && (taken ==> s.nextHop == from && s.seqNum == p.destSeq && s.seqValid && s.valid)
      && (taken && p.orig == n.ip ==> s.rings == (due == now + 1000 * life.forward))
      && (!taken ==>
            && s.nextHop == r.nextHop && s.hops == r.hops && s.seqNum == r.seqNum && s.seqValid == r.seqValid
            && (s.valid <==> r.valid || from == p.dest))
      && (forall x :: x in r.precursors ==> x in s.precursors)
  {
    hide Find, OnwardHop, Signed;
    assert !TakesOver(n, from, p) ==> OnwardHop(n, from, p).None? by { NotOnward(n, from, p); }
    assert p.orig == n.ip ==> OnwardHop(n, from, p).None? by { NotOnward(n, from, p); }
  }

  lemma NotOnward(n: Node, from: Addr, p: Message)
    requires p.Rrep?
    ensures !TakesOver(n, from, p) || p.orig == n.ip ==> OnwardHop(n, from, p).None?
  {
  }

  lemma KnownFound(n: Node, r: Route)
    requires Inv(n) && r in n.table
    ensures Find(n.table, r.dst) == Some(r)
  {
    EntryOk(n.table, n.nextId, r);
    FindIsLookup(n.table, 0, r.dst, r);
  }

  /** A RREP for an unknown destination makes an entry for it. */
  lemma UnknownTakenOver(n: Node, e: Event, now: int, due: int)
    requires Inv(n) && e.Packet? && e.p.Rrep? && e.from != n.ip && Find(n.table, e.p.dest).None?
    ensures var s := See(React(n, e, now), e.p.dest, due);
      && s.Sight? && s.nextHop == e.from && s.hops == (e.p.hops + 1) % 0x100
      && s.seqNum == e.p.destSeq && s.seqValid && s.valid
      && (e.p.orig == n.ip ==> s.precursors == {} && s.rings == (due == now + 1000 * e.life.forward))
  {
    hide InvBut, Find, React;
    ReplySees(n, e, now, e.p.dest, due);
  }

  /** A RREP that is taken over and meant for somebody else goes on as it came, but for its hop count and
      time to live, if there is a way back; nothing else is sent. */
  lemma ReplySends(n: Node, e: Event, now: int)
    requires Inv(n) && e.Packet? && e.p.Rrep?
    ensures var m, next := React(n, e, now), OnwardHop(n, e.from, e.p);
      m.sent == n.sent + if e.from == n.ip || next.None? then []
        else [Rrep(next.value, (e.p.ttl + 0xFF) % 0x100, (e.p.hops + 1) % 0x100, e.p.dest, e.p.destSeq, e.p.orig)]
  {
    assert Tabled(n);
    hide InvBut, TableOk, ProcessRrep, OnwardHop;
    assert n.sent + [] == n.sent;
    if e.from != n.ip {
      RrepSends(n, e.from, e.p, e.life, now);
    }
  }

  lemma RrepSends(n: Node, from: Addr, p: Message, life: Lifetimes, now: int)
    requires p.Rrep? && Tabled(n)
    ensures var m, next := ProcessRrep(n, from, p, life, now), OnwardHop(n, from, p);
      m.sent == n.sent + if next.None? then []
        else [Rrep(next.value, (p.ttl + 0xFF) % 0x100, (p.hops + 1) % 0x100, p.dest, p.destSeq, p.orig)]
  {
    var w := WithWay(n, from, p, life, now);
    RrepParts(n, from, p, life, now);
    WayLeaves(n, from, p, life, now);
    WaySees(n, from, p, life, now, p.orig, 0);
    AnsweredFrame(w, n.rreqId, p.dest);
    NotOnward(n, from, p);
    hide TableOk, Find, ProcessRrep, WithWay, TakesOver, OnwardHop, PassOn, Answered, WaySight, See;
    assert n.sent + [] == n.sent;
    if TakesOver(n, from, p) && p.orig != n.ip {
      NextStays(n, from, p, life, now);
      PassSends(w, from, p, (p.hops + 1) % 0x100, life, now);
    }
  }

  lemma PassSends(n: Node, from: Addr, p: Message, hops: U8, life: Lifetimes, now: int)
    requires p.Rrep?
    ensures var m, s := PassOn(n, from, p, hops, life, now), See(n, p.orig, 0);
      m.sent == n.sent +
        if s.Nothing? then [] else [Rrep(s.nextHop, (p.ttl + 0xFF) % 0x100, hops, p.dest, p.destSeq, p.orig)]
  {
    hide Find, WithRoute, Arm;
    assert n.sent + [] == n.sent;
  }
}
