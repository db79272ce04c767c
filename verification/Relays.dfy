/** All that a RREQ changes at a node, and what the node broadcasts again. */
module Relays {
  import opened Config
  import opened Routes
  import opened AlarmSpec
  import opened Node
  import opened NodeInv
  import opened NodeSteps
  import opened NodeView
  import opened NodeRuns
  import opened Sights
  import opened Wrappers

  // ----- The way back -----

  /** What is known of the originator: the sender as next hop, the hop count of the RREQ, and the later of
      the two sequence numbers, or that of the RREQ if there was no entry.  An entry may stay expired. */
  function BackSight(n: Node, from: Addr, p: Message, reverse: Option<nat>, now: int, a: Addr, due: int): Sight
    requires p.Rreq?
  {
    var s := Near(n, from, a, now, due);
    if a != p.orig then s
    else if s.Nothing? then Sight(from, p.hops, p.origSeq, true, true, {}, due == now + 1000 * ACTIVE_ROUTE_TIMEOUT)
    else
      Sight(from, p.hops, if Signed(s.seqNum) >= Signed(p.origSeq) then s.seqNum else p.origSeq, true,
            s.valid || reverse.Some?, s.precursors,
            if reverse.Some? then due == now + 1000 * reverse.value else s.rings)
  }

  /** The next hop towards the destination, if a node that is not the destination answers for it. */
  function AnswersFor(n: Node, from: Addr, p: Message): Option<Addr>
    requires p.Rreq?
  {
    var s := BackSight(n, from, p, None, 0, p.dest, 0);
    if p.dest != n.ip && s.Sight? && Signed(p.destSeq) >= Signed(n.seqNum) && !DestOnly(p.flags) then Some(s.nextHop)
    else None
  }

  /** A node that answers for the destination notes the sender and the next hop as precursors. */
  function NewSight(n: Node, from: Addr, p: Message, reverse: Option<nat>, now: int, a: Addr, due: int): Sight
    requires p.Rreq?
  {
    var s := BackSight(n, from, p, reverse, now, a, due);
    match AnswersFor(n, from, p)
    case None => s
    case Some(next) =>
      if s.Nothing? then Nothing
      else s.(precursors := s.precursors + (if a == p.dest then {from} else {}) + (if a == p.orig then {next} else {}))
  }

  // ----- The steps -----

  lemma ReverseSees(n: Node, from: Addr, p: Message, life: Option<nat>, now: int, a: Addr, due: int)
    requires p.Rreq? && Tabled(n)
    ensures var m, s := ReverseRoute(n, from, p, life, now), See(n, p.orig, due);
      && Tabled(m)
      && See(m, a, due) ==
         if a != p.orig then See(n, a, due)
         else if s.Nothing? then Sight(from, p.hops, p.origSeq, true, true, {}, due == now + 1000 * ACTIVE_ROUTE_TIMEOUT)
         else
           Sight(from, p.hops, if Signed(s.seqNum) >= Signed(p.origSeq) then s.seqNum else p.origSeq, true,
                 s.valid || life.Some?, s.precursors, if life.Some? then due == now + 1000 * life.value else s.rings)
  {
    hide TableOk, Find, AddRoute, SetLifetime, WithRoute, Covers, Arm;
    match Find(n.table, p.orig)
    case Some(r) =>
      var r1 := r.(seqValid := true, nextHop := from, hops := p.hops,
                   seqNum := if Signed(r.seqNum) < Signed(p.origSeq) then p.origSeq else r.seqNum);
      FoundOk(n, p.orig);
      EditSees(n, p.orig, r1, a, due);
      EditSees(n, p.orig, r1, p.orig, due);
      if life.Some? {
        SetSees(n.(table := WithRoute(n.table, r1)), p.orig, life.value, now, a, due);
      }
    case None =>
      var r := NewRoute(n.nextId, p.orig).(seqNum := p.origSeq, nextHop := from, hops := p.hops, seqValid := true);
      var ms := match life case Some(ms) => ms case None => 0;
      var n1 := n.(nextId := n.nextId + 1, timers := Arm(n.timers, RouteTimer(r.rid), Due(now, ms)));
      NewSees(n1, r, now, a, due);
      ArmedSees(n, ms, now, a, due);
  }

  /** An alarm for an entry that is not there yet is not seen. */
  lemma ArmedSees(n: Node, ms: nat, now: int, a: Addr, due: int)
    requires Tabled(n)
    ensures var m := n.(nextId := n.nextId + 1, timers := Arm(n.timers, RouteTimer(n.nextId), Due(now, ms)));
      See(m, a, due) == See(n, a, due)
  {
    hide TableOk, Find, Arm;
    if Find(n.table, a).Some? {
      FoundOk(n, a);
      ArmMembers(n.timers, RouteTimer(n.nextId), Due(now, ms), Armed(RouteTimer(Find(n.table, a).value.rid), due));
    }
  }

  lemma PushSees(n: Node, id: U32, dst: Addr, now: int, a: Addr, due: int)
    requires Tabled(n)
    ensures var m := PushRequest(n, id, dst, -1, now); See(m, a, due) == See(n, a, due) && Tabled(m)
  {
    hide Find, Arm;
    if Find(n.table, a).Some? {
      ArmMembers(n.timers, RequestTimer(n.nextId), Due(now, PATH_DISCOVERY_TIME),
                 Armed(RouteTimer(Find(n.table, a).value.rid), due));
    }
  }

  lemma AnswerSees(n: Node, from: Addr, p: Message, a: Addr, due: int)
    requires p.Rreq? && Tabled(n) && Answers(n, p) && p.dest != n.ip
    ensures var m, s, next := AnswerRreq(n, from, p), See(n, a, due), See(n, p.dest, 0).nextHop;
      && Tabled(m)
      && See(m, a, due) == if s.Nothing? then Nothing
         else s.(precursors := s.precursors + (if a == p.dest then {from} else {}) + (if a == p.orig then {next} else {}))
  {
    hide TableOk, Find, WithRoute, Covers;
    var next := Find(n.table, p.dest).value.nextHop;
    var n1 := NotePrecursor(n, p.dest, from);
    NoteSees(n, p.dest, from, a, due);
    NoteSees(n1, p.orig, next, a, due);
    assert AnswerRreq(n, from, p) == NotePrecursor(n1, p.orig, next);
  }

  /** The node once the way back is known, before it answers or relays. */
  function WithBack(n: Node, from: Addr, p: Message, life: Option<nat>, now: int): Node
    requires p.Rreq?
  {
    ReverseRoute(PushRequest(TouchPrevHop(n, from, now), p.id, p.dest, -1, now), from, p, life, now)
  }

  lemma BackSees(n: Node, from: Addr, p: Message, life: Option<nat>, now: int, a: Addr, due: int)
    requires p.Rreq? && Tabled(n)
    ensures var m := WithBack(n, from, p, life, now); Tabled(m) && See(m, a, due) == BackSight(n, from, p, life, now, a, due)
  {
    hide TableOk, Find, TouchPrevHop, PushRequest, ReverseRoute, See;
    var n1 := TouchPrevHop(n, from, now);
    var n2 := PushRequest(n1, p.id, p.dest, -1, now);
    TouchSees(n, from, now, a, due);
    TouchSees(n, from, now, p.orig, due);
    PushSees(n1, p.id, p.dest, now, a, due);
    PushSees(n1, p.id, p.dest, now, p.orig, due);
    ReverseSees(n2, from, p, life, now, a, due);
  }

  lemma BackLeaves(n: Node, from: Addr, p: Message, life: Option<nat>, now: int)
    requires p.Rreq?
    ensures var m := WithBack(n, from, p, life, now); m.sent == n.sent && m.ip == n.ip && m.seqNum == n.seqNum
  {
    hide TouchPrevHop, ReverseRoute, Arm;
    RreqFrame(n, from, p, life, now);
    RreqFrame(PushRequest(TouchPrevHop(n, from, now), p.id, p.dest, -1, now), from, p, life, now);
  }

  /** Who answers can be told before the RREQ comes. */
  lemma AnswersTold(n: Node, from: Addr, p: Message, life: Option<nat>, now: int)
    requires p.Rreq? && Tabled(n)
    ensures var m := WithBack(n, from, p, life, now);
      && (Answers(m, p) <==> p.dest == n.ip || AnswersFor(n, from, p).Some?)
      && (AnswersFor(n, from, p).Some? ==>
            See(m, p.dest, 0).Sight? && See(m, p.dest, 0).nextHop == AnswersFor(n, from, p).value)
  {
    hide TableOk, Find, WithBack, Signed;
    BackSees(n, from, p, life, now, p.dest, 0);
    BackLeaves(n, from, p, life, now);
  }

  lemma RreqParts(n: Node, from: Addr, p: Message, life: Option<nat>, now: int)
    requires p.Rreq?
    ensures var m := WithBack(n, from, p, life, now);
      ProcessRreq(n, from, p, life, now) ==
        if Contains(n.requests, p.id, p.dest) then TouchPrevHop(n, from, now)
        else if Answers(m, p) then AnswerRreq(m, from, p)
        else if p.ttl > 1 then m.(sent := m.sent + [Relayed(p)])
        else m
  {
    hide TouchPrevHop, PushRequest, ReverseRoute, Answers, AnswerRreq, Contains;
    RreqFrame(n, from, p, life, now);
  }

  lemma RreqSees(n: Node, from: Addr, p: Message, life: Option<nat>, now: int, a: Addr, due: int)
    requires p.Rreq? && Tabled(n)
    ensures See(ProcessRreq(n, from, p, life, now), a, due) ==
      if Contains(n.requests, p.id, p.dest) then Near(n, from, a, now, due)
      else NewSight(n, from, p, life, now, a, due)
  {
    RreqParts(n, from, p, life, now);
    TouchSees(n, from, now, a, due);
    BackSees(n, from, p, life, now, a, due);
    BackLeaves(n, from, p, life, now);
    AnswersTold(n, from, p, life, now);
    var m := WithBack(n, from, p, life, now);
    hide TableOk, Find, ProcessRreq, WithBack, Answers, AnswersFor, BackSight, Contains, TouchPrevHop, AnswerRreq;
    if Answers(m, p) && p.dest != n.ip {
      AnswerSees(m, from, p, a, due);
    } else if Answers(m, p) {
      OwnAnswer(m, from, p, a, due);
      NotFor(n, from, p);
    }
  }

  lemma NotFor(n: Node, from: Addr, p: Message)
    requires p.Rreq? && p.dest == n.ip
    ensures AnswersFor(n, from, p).None?
  {
  }

  lemma OwnAnswer(n: Node, from: Addr, p: Message, a: Addr, due: int)
    requires p.Rreq? && p.dest == n.ip && Answers(n, p)
    ensures See(AnswerRreq(n, from, p), a, due) == See(n, a, due)
  {
  }

  // ----- A RREQ as an event -----

  /** All that a RREQ changes in the table and in the alarms of routes: one that is buffered only the entry
      of the previous hop, a new one also the way back, and the precursors where it is answered for. */
  lemma AskSees(n: Node, e: Event, now: int, a: Addr, due: int)
    requires Inv(n) && e.Packet? && e.p.Rreq?
    ensures See(React(n, e, now), a, due) ==
      if e.from == n.ip then See(n, a, due)
      else if Contains(n.requests, e.p.id, e.p.dest) then Near(n, e.from, a, now, due)
      else NewSight(n, e.from, e.p, e.reverse, now, a, due)
  {
    assert Tabled(n);
    hide InvBut, NewSight, Near, ProcessRreq, See, TableOk, Contains;
    if e.from != n.ip {
      RreqSees(n, e.from, e.p, e.reverse, now, a, due);
    }
  }

  /** A new RREQ sets the originator's sequence number: to that of the RREQ for an originator that was
      unknown and is not the previous hop, and otherwise to the later of the two; an entry that hearing
      from the previous hop has just made counts from zero. */
  lemma OriginatorLearnt(n: Node, e: Event, now: int, due: int)
    requires Inv(n) && e.Packet? && e.p.Rreq? && e.from != n.ip && !Contains(n.requests, e.p.id, e.p.dest)
    ensures var s, was := See(React(n, e, now), e.p.orig, due), Find(n.table, e.p.orig);
      && s.Sight? && s.nextHop == e.from && s.hops == e.p.hops && s.seqValid
      && (was.None? && e.from != e.p.orig ==> s.seqNum == e.p.origSeq)
      && (was.None? && e.from == e.p.orig ==> s.seqNum == if Signed(e.p.origSeq) > 0 then e.p.origSeq else 0)
      && (was.Some? ==>
            && (s.seqNum == was.value.seqNum || s.seqNum == e.p.origSeq)
            && Signed(s.seqNum) >= Signed(was.value.seqNum) && Signed(s.seqNum) >= Signed(e.p.origSeq))
  {
    hide InvBut, Find, React, Contains, AnswersFor, NewSight;
    AskSees(n, e, now, e.p.orig, due);
    NotedOnly(n, e.from, e.p, e.reverse, now, e.p.orig, due);
    assert Signed(0) == 0;
  }

  /** Answering for a destination changes precursors alone. */
  lemma NotedOnly(n: Node, from: Addr, p: Message, reverse: Option<nat>, now: int, a: Addr, due: int)
    requires p.Rreq?
    ensures var s, t := BackSight(n, from, p, reverse, now, a, due), NewSight(n, from, p, reverse, now, a, due);
      (s.Nothing? <==> t.Nothing?) && (s.Sight? ==> t == s.(precursors := t.precursors) && s.precursors <= t.precursors)
  {
  }

  /** What a RREQ makes a node send: nothing if it is buffered; the destination answers with its own
      number; a node that neither answers for the destination nor holds the last hop of the RREQ broadcasts
      it as it came, one hop further. */
  function AskOut(n: Node, from: Addr, p: Message, seqNum: U32): seq<Message>
    requires p.Rreq?
  {
    if from == n.ip || Contains(n.requests, p.id, p.dest) then []
    else if p.dest == n.ip then [Rrep(from, DEFAULT_TTL, 0, p.dest, seqNum, p.orig)]
    else if AnswersFor(n, from, p).Some? || p.ttl <= 1 then []
    else [Rreq(p.ttl - 1, p.flags, (p.hops + 1) % 0x100, p.id, p.dest, p.destSeq, p.orig, p.origSeq)]
  }

  lemma AskSends(n: Node, e: Event, now: int)
    requires Inv(n) && e.Packet? && e.p.Rreq?
    ensures var m := React(n, e, now); m.sent == n.sent + AskOut(n, e.from, e.p, m.seqNum)
  {
    assert Tabled(n);
    hide InvBut, TableOk, ProcessRreq, AnswersFor, Contains;
    if e.from == n.ip {
      assert n.sent + [] == n.sent;
    } else {
      RreqSends(n, e.from, e.p, e.reverse, now);
    }
  }

  lemma RreqSends(n: Node, from: Addr, p: Message, life: Option<nat>, now: int)
    requires p.Rreq? && Tabled(n) && from != n.ip
    ensures var m := ProcessRreq(n, from, p, life, now); m.sent == n.sent + AskOut(n, from, p, m.seqNum)
  {
    RreqParts(n, from, p, life, now);
    BackLeaves(n, from, p, life, now);
    AnswersTold(n, from, p, life, now);
    RreqFrame(n, from, p, life, now);
    hide TableOk, Find, ProcessRreq, WithBack, Answers, AnswersFor, Contains, TouchPrevHop, WithRoute;
    assert n.sent + [] == n.sent;
  }
}
