/** What one discovery sees of a node, and what a message of it does to that. */
module NodeView {
  import opened Config
  import opened Routes
  import opened AlarmSpec
  import opened Node
  import opened NodeInv
  import opened NodeSteps
  import opened Wrappers

  datatype Hop = NoHop | Hop(next: Addr, hops: U8)

  function Toward(table: seq<Route>, a: Addr): Hop {
    match Find(table, a) case None => NoHop case Some(r) => Hop(r.nextHop, r.hops)
  }

  ghost predicate SameHops(n: Node, m: Node) {
    forall a :: Toward(m.table, a) == Toward(n.table, a)
  }

  lemma EditToward(n: Node, r0: Route, r1: Route, a: Addr)
    requires Inv(n) && r0 in n.table && r1.rid == r0.rid && r1.dst == r0.dst && r1.prefix == r0.prefix
    ensures Toward(WithRoute(n.table, r1), a) == if a == r1.dst then Hop(r1.nextHop, r1.hops) else Toward(n.table, a)
    ensures Toward(n.table, r0.dst) == Hop(r0.nextHop, r0.hops)
  {
    EntryOk(n.table, n.nextId, r0);
    forall s | s in n.table && s.rid == r1.rid
      ensures s == r0
    {
      var i :| 0 <= i < |n.table| && n.table[i] == s;
      var j :| 0 <= j < |n.table| && n.table[j] == r0;
    }
    FindAfterEdit(n.table, r1, a);
    FindIsLookup(n.table, 0, r0.dst, r0);
    FindIn(n, {}, a);
  }

  lemma SetToward(n: Node, r: Route, ms: nat, now: int)
    requires Inv(n) && r in n.table
    ensures SameHops(n, SetLifetime(n, r, ms, now))
  {
    hide Toward, InvBut, Arm;
    var r1 := r.(valid := true, action := UnsetValidEntry);
    forall a
      ensures Toward(WithRoute(n.table, r1), a) == Toward(n.table, a)
    {
      EditToward(n, r, r1, a);
    }
  }

  lemma AddToward(n: Node, r: Route, now: int, a: Addr)
    requires r.prefix == 0 && Find(n.table, r.dst).None?
    ensures Toward(AddRoute(n, r, now).table, a) == if a == r.dst then Hop(r.nextHop, r.hops) else Toward(n.table, a)
  {
    hide Arm;
    var r1 := r.(valid := true, action := UnsetValidEntry);
    assert ([r1] + n.table)[1..] == n.table;
  }

  /** What the table says once the previous hop is known. */
  function Touched(h: Hop, a: Addr, from: Addr): Hop {
    if h.NoHop? && a == from then Hop(from, 0) else h
  }

  lemma TouchToward(n: Node, from: Addr, now: int)
    requires Inv(n)
    ensures forall a :: Toward(TouchPrevHop(n, from, now).table, a) == Touched(Toward(n.table, a), a, from)
  {
    hide InvBut, Find, SetLifetime, AddRoute;
    FindIn(n, {}, from);
    forall a
      ensures Toward(TouchPrevHop(n, from, now).table, a) == Touched(Toward(n.table, a), a, from)
    {
      match Find(n.table, from)
      case Some(r) => SetToward(n, r, ACTIVE_ROUTE_TIMEOUT, now);
      case None => AddToward(n.(nextId := n.nextId + 1), NewRoute(n.nextId, from).(nextHop := from), now, a);
    }
  }

  lemma ReverseToward(n: Node, from: Addr, p: Message, life: Option<nat>, now: int)
    requires p.Rreq? && Inv(n)
    ensures var m := ReverseRoute(n, from, p, life, now);
      forall a :: Toward(m.table, a) == if a == p.orig then Hop(from, p.hops) else Toward(n.table, a)
  {
    hide InvBut, Find, SetLifetime, AddRoute, Toward, Arm;
    FindIn(n, {}, p.orig);
    forall a
      ensures var m := ReverseRoute(n, from, p, life, now);
        Toward(m.table, a) == if a == p.orig then Hop(from, p.hops) else Toward(n.table, a)
    {
      match Find(n.table, p.orig)
      case Some(r) =>
        var r1 := r.(seqValid := true, nextHop := from, hops := p.hops,
                     seqNum := if Signed(r.seqNum) < Signed(p.origSeq) then p.origSeq else r.seqNum);
        EditToward(n, r, r1, a);
        EditKeeps(n, {}, r, r1);
        if life.Some? {
          SetToward(n.(table := WithRoute(n.table, r1)), r1, life.value, now);
        }
      case None =>
        var r := NewRoute(n.nextId, p.orig).(seqNum := p.origSeq, nextHop := from, hops := p.hops, seqValid := true);
        var at := Due(now, match life case Some(ms) => ms case None => 0);
        AddToward(n.(nextId := n.nextId + 1, timers := Arm(n.timers, RouteTimer(r.rid), at)), r, now, a);
    }
  }

  lemma NoteToward(n: Node, a: Addr, precursor: Addr)
    requires Inv(n)
    ensures SameHops(n, NotePrecursor(n, a, precursor))
  {
    hide InvBut, Find, Toward;
    FindIn(n, {}, a);
    if Find(n.table, a).Some? {
      var r := Find(n.table, a).value;
      forall b
        ensures Toward(WithRoute(n.table, AddPrecursor(r, precursor)), b) == Toward(n.table, b)
      {
        EditToward(n, r, AddPrecursor(r, precursor), b);
      }
    }
  }

  // ----- A RREQ -----

  /** The messages a step sends. */
  function Emitted(n: Node, m: Node): seq<Message> {
    if |n.sent| <= |m.sent| then m.sent[|n.sent|..] else []
  }

  lemma RreqFrame(n: Node, from: Addr, p: Message, life: Option<nat>, now: int)
    requires p.Rreq?
    ensures TouchPrevHop(n, from, now).sent == n.sent && ReverseRoute(n, from, p, life, now).sent == n.sent
    ensures TouchPrevHop(n, from, now).ip == n.ip && ReverseRoute(n, from, p, life, now).ip == n.ip
    ensures TouchPrevHop(n, from, now).seqNum == n.seqNum && ReverseRoute(n, from, p, life, now).seqNum == n.seqNum
    ensures TouchPrevHop(n, from, now).requests == n.requests && ReverseRoute(n, from, p, life, now).requests == n.requests
  {
    hide Find, WithRoute, Arm;
  }

  lemma PushContains(n: Node, id: U32, dst: Addr, now: int, i: U32, d: Addr)
    ensures Contains(PushRequest(n, id, dst, -1, now).requests, i, d) <==> (i == id && d == dst) || Contains(n.requests, i, d)
  {
    hide Arm;
    var t := PushRequest(n, id, dst, -1, now).requests;
    assert t[0].id == id && t[0].dst == dst;
    if Contains(n.requests, i, d) {
      var k :| 0 <= k < |n.requests| && n.requests[k].id == i && n.requests[k].dst == d;
      assert t[k + 1] == n.requests[k];
    }
  }

  /** A RREQ that is buffered is discarded. */
  lemma RreqSeen(n: Node, from: Addr, p: Message, life: Option<nat>, now: int)
    requires p.Rreq? && Inv(n) && Contains(n.requests, p.id, p.dest)
    ensures var m := ProcessRreq(n, from, p, life, now);
      && m.requests == n.requests && m.sent == n.sent && m.ip == n.ip && m.seqNum == n.seqNum
      && forall a :: Toward(m.table, a) == Touched(Toward(n.table, a), a, from)
  {
    hide InvBut, Find, TouchPrevHop, Contains, Toward;
    TouchToward(n, from, now);
    RreqFrame(n, from, p, life, now);
  }

  /** A node that is not the destination takes the RREQ up without passing it on: it has an entry for
      the destination, and the RREQ's destination number is not behind its own number. */
  predicate Swallows(n: Node, from: Addr, p: Message)
    requires p.Rreq?
  {
    && p.dest != n.ip && (Toward(n.table, p.dest).Hop? || p.dest == from || p.dest == p.orig)
    && Signed(p.destSeq) >= Signed(n.seqNum) && !DestOnly(p.flags)
  }

  /** A RREQ that is not: it is buffered, sets the way back, and is answered, swallowed or broadcast
      again. */
  lemma RreqFresh(n: Node, from: Addr, p: Message, life: Option<nat>, now: int)
    requires p.Rreq? && Inv(n) && !Contains(n.requests, p.id, p.dest)
    ensures var m := ProcessRreq(n, from, p, life, now);
      && (forall i, d :: Contains(m.requests, i, d) <==> (i == p.id && d == p.dest) || Contains(n.requests, i, d))
      && (forall a :: Toward(m.table, a) == if a == p.orig then Hop(from, p.hops) else Touched(Toward(n.table, a), a, from))
      && m.sent == n.sent + (if p.dest == n.ip then [Rrep(from, DEFAULT_TTL, 0, n.ip, m.seqNum, p.orig)]
                             else if p.ttl <= 1 || Swallows(n, from, p) then []
                             else [Rreq(p.ttl - 1, p.flags, (p.hops + 1) % 0x100, p.id, p.dest, p.destSeq, p.orig, p.origSeq)])
      && m.ip == n.ip && (p.dest != n.ip ==> m.seqNum == n.seqNum)
  {
    hide InvBut, Find, TouchPrevHop, Contains, Toward, PushRequest, ReverseRoute, AnswerRreq, Answers;
    TouchToward(n, from, now);
    TouchKeeps(n, from, now);
    RreqFrame(n, from, p, life, now);
    var n1 := TouchPrevHop(n, from, now);
    var n2 := PushRequest(n1, p.id, p.dest, -1, now);
    PushKeeps(n1, {}, p.id, p.dest, -1, now);
    PushFrame(n1, p.id, p.dest, now);
    forall i, d
      ensures Contains(n2.requests, i, d) <==> (i == p.id && d == p.dest) || Contains(n.requests, i, d)
    {
      PushContains(n1, p.id, p.dest, now, i, d);
    }
    RreqFrame(n2, from, p, life, now);
    ReverseToward(n2, from, p, life, now);
    ReverseKeeps(n2, from, p, life, now);
    var n3 := ReverseRoute(n2, from, p, life, now);
    AnswersView(n3, p);
    if Answers(n3, p) {
      AnswerToward(n3, from, p);
    }
  }

  lemma AnswersView(n: Node, p: Message)
    requires p.Rreq?
    ensures Answers(n, p) <==>
      p.dest == n.ip || (Toward(n.table, p.dest).Hop? && Signed(p.destSeq) >= Signed(n.seqNum) && !DestOnly(p.flags))
  {
  }

  /** Answering changes no way, and sends only from the destination itself. */
  lemma AnswerToward(n: Node, from: Addr, p: Message)
    requires p.Rreq? && Inv(n) && Answers(n, p)
    ensures var m := AnswerRreq(n, from, p);
      && SameHops(n, m) && m.requests == n.requests && m.ip == n.ip && (p.dest != n.ip ==> m.seqNum == n.seqNum)
      && m.sent == n.sent + if p.dest == n.ip then [Rrep(from, DEFAULT_TTL, 0, n.ip, m.seqNum, p.orig)] else []
  {
    hide InvBut, Find, HeldOk;
    if p.dest != n.ip {
      NoteKeeps(n, p.dest, from);
      NoteToward(n, p.dest, from);
      var toDest := Find(n.table, p.dest).value;
      NoteToward(NotePrecursor(n, p.dest, from), p.orig, toDest.nextHop);
      assert AnswerRreq(n, from, p) == NotePrecursor(NotePrecursor(n, p.dest, from), p.orig, toDest.nextHop);
    }
  }

  lemma PushFrame(n: Node, id: U32, dst: Addr, now: int)
    ensures var m := PushRequest(n, id, dst, -1, now);
      m.table == n.table && m.sent == n.sent && m.ip == n.ip && m.seqNum == n.seqNum
  {
    hide Arm;
  }

  // ----- A RREP -----

  lemma ForwardToward(n: Node, from: Addr, p: Message, now: int)
    requires p.Rrep? && Inv(n)
    ensures var m := ForwardRoute(n, from, p, now);
      && (forall a :: a != p.dest ==> Toward(m.table, a) == Toward(n.table, a))
      && m.requests == n.requests && m.sent == n.sent && m.ip == n.ip && m.seqNum == n.seqNum
  {
    hide InvBut, Find, AddRoute, Toward;
    AddFrame(n, NewRoute(n.nextId, p.dest).(nextHop := from, seqNum := p.destSeq, seqValid := true), now);
    forall a | a != p.dest
      ensures Toward(ForwardRoute(n, from, p, now).table, a) == Toward(n.table, a)
    {
      if Find(n.table, p.dest).None? {
        AddToward(n.(nextId := n.nextId + 1),
                  NewRoute(n.nextId, p.dest).(nextHop := from, seqNum := p.destSeq, seqValid := true), now, a);
      }
    }
  }

  lemma AddFrame(n: Node, r: Route, now: int)
    ensures var m := AddRoute(n.(nextId := n.nextId + 1), r, now);
      m.requests == n.requests && m.sent == n.sent && m.ip == n.ip && m.seqNum == n.seqNum
  {
    hide Arm, Find;
  }

  lemma PassToward(n: Node, from: Addr, p: Message, hops: U8, life: Lifetimes, now: int)
    requires p.Rrep? && Inv(n)
    ensures var m, back := PassOn(n, from, p, hops, life, now), Toward(n.table, p.orig);
      && SameHops(n, m) && m.requests == n.requests && m.ip == n.ip && m.seqNum == n.seqNum
      && m.sent == n.sent +
         if back.NoHop? then [] else [Rrep(back.next, (p.ttl + 0xFF) % 0x100, hops, p.dest, p.destSeq, p.orig)]
  {
    hide InvBut, Find, WithRoute, Arm;
    if Find(n.table, p.orig).Some? {
      var next := Find(n.table, p.orig).value.nextHop;
      var n1 := n.(sent := n.sent + [Rrep(next, (p.ttl + 0xFF) % 0x100, hops, p.dest, p.destSeq, p.orig)]);
      LogKeeps(n, n1, {});
      NoteKeeps(n1, p.dest, next);
      NoteToward(n1, p.dest, next);
      var n2 := if p.dest == next then n1 else NotePrecursor(n1, p.dest, next);
      FindIn(n2, {}, next);
      var n3 := match life.next
        case None => n2
        case Some(ms) => (match Find(n2.table, next) case None => n2 case Some(r) => SetLifetime(n2, r, ms, now));
      if life.next.Some? && Find(n2.table, next).Some? {
        SetLifetimeKeeps(n2, {}, Find(n2.table, next).value, life.next.value, now);
        SetToward(n2, Find(n2.table, next).value, life.next.value, now);
      }
      NoteToward(n3, from, next);
    }
  }

  /** The way a RREP for an unknown destination goes on: the way back, as the node knows it by then. */
  function WayOn(n: Node, from: Addr, p: Message): Hop
    requires p.Rrep?
  {
    if p.orig == p.dest then Hop(from, (p.hops + 1) % 0x100) else Touched(Toward(n.table, p.orig), p.orig, from)
  }

  /** A RREP for a destination the node knew no way to. */
  lemma RrepEffect(n: Node, from: Addr, p: Message, life: Lifetimes, now: int)
    requires p.Rrep? && Inv(n) && Toward(n.table, p.dest).NoHop?
    ensures var m, hops, on := ProcessRrep(n, from, p, life, now), (p.hops + 1) % 0x100, WayOn(n, from, p);
      && (forall a :: Toward(m.table, a) == if a == p.dest then Hop(from, hops) else Touched(Toward(n.table, a), a, from))
      && m.ip == n.ip && m.seqNum == n.seqNum && (n.ip != p.orig ==> m.requests == n.requests)
      && m.sent == n.sent +
         if n.ip == p.orig || on.NoHop? then []
         else [Rrep(on.next, (p.ttl + 0xFF) % 0x100, hops, p.dest, p.destSeq, p.orig)]
  {
    hide InvBut, Find, TouchPrevHop, ForwardRoute, SetLifetime, PassOn, Answered, HeldOk;
    TouchToward(n, from, now);
    TouchKeeps(n, from, now);
    TouchFrame(n, from, now);
    var n1 := TouchPrevHop(n, from, now);
    ForwardToward(n1, from, p, now);
    ForwardRouteKeeps(n1, from, p, now);
    var n2 := ForwardRoute(n1, from, p, now);
    FindIn(n2, {}, p.dest);
    var r := Find(n2.table, p.dest).value;
    assert Find(n1.table, p.dest).None? || !r.seqValid by { TouchedUnknown(n, from, p, now); }
    var hops := (p.hops + 1) % 0x100;
    var r1 := r.(seqNum := p.destSeq, seqValid := true, nextHop := from, hops := hops);
    var n2' := n2.(table := WithRoute(n2.table, r1));
    RrepSet(n2, r, r1, life.forward, now);
    var n3 := SetLifetime(n2', r1, life.forward, now);
    if n.ip == p.orig {
      AnsweredFrame(n3, n3.rreqId, p.dest);
    } else {
      assert Toward(n3.table, p.orig) == WayOn(n, from, p);
      PassToward(n3, from, p, hops, life, now);
    }
  }

  lemma RrepSet(n: Node, r: Route, r1: Route, ms: nat, now: int)
    requires Inv(n) && r in n.table && r1 == r.(seqNum := r1.seqNum, seqValid := true, nextHop := r1.nextHop, hops := r1.hops)
    ensures var m := SetLifetime(n.(table := WithRoute(n.table, r1)), r1, ms, now);
      && Inv(m) && m.requests == n.requests && m.sent == n.sent && m.ip == n.ip && m.seqNum == n.seqNum
      && forall a :: Toward(m.table, a) == if a == r1.dst then Hop(r1.nextHop, r1.hops) else Toward(n.table, a)
  {
    hide InvBut, Find, Toward, HeldOk;
    EntryIn(n, r);
    EditKeeps(n, {}, r, r1);
    SetLifetimeKeeps(n.(table := WithRoute(n.table, r1)), {}, r1, ms, now);
    SetToward(n.(table := WithRoute(n.table, r1)), r1, ms, now);
    forall a
      ensures Toward(WithRoute(n.table, r1), a) == if a == r1.dst then Hop(r1.nextHop, r1.hops) else Toward(n.table, a)
    {
      EditToward(n, r, r1, a);
    }
  }

  lemma EntryIn(n: Node, r: Route)
    requires Inv(n) && r in n.table
    ensures RouteOk(r)
  {
    EntryOk(n.table, n.nextId, r);
  }

  lemma TouchFrame(n: Node, from: Addr, now: int)
    ensures var m := TouchPrevHop(n, from, now);
      m.sent == n.sent && m.ip == n.ip && m.seqNum == n.seqNum && m.requests == n.requests
  {
    hide Find, WithRoute, Arm;
  }

  /** The destination's entry, if hearing from the previous hop made it, has no sequence number yet. */
  lemma TouchedUnknown(n: Node, from: Addr, p: Message, now: int)
    requires p.Rrep? && Find(n.table, p.dest).None?
    ensures var n1 := TouchPrevHop(n, from, now);
      Find(n1.table, p.dest).Some? ==>
        ForwardRoute(n1, from, p, now) == n1 && (p.dest == from ==> !Find(n1.table, p.dest).value.seqValid)
  {
    hide WithRoute, Arm;
  }

  lemma AnsweredFrame(n: Node, id: U32, dst: Addr)
    ensures var m := Answered(n, id, dst); m.table == n.table && m.sent == n.sent && m.ip == n.ip && m.seqNum == n.seqNum
  {
    hide OldEnough, WithoutRequest, Cancel;
  }

  /** The originator's only request is answered. */
  lemma RrepAnswers(n: Node, from: Addr, p: Message, life: Lifetimes, now: int, q: Request)
    requires p.Rrep? && Inv(n) && Toward(n.table, p.dest).NoHop? && n.ip == p.orig
    requires n.requests == [q] && q.dst == p.dest && q.id <= n.rreqId
    ensures ProcessRrep(n, from, p, life, now).requests == []
  {
    hide InvBut, Find, TouchPrevHop, ForwardRoute, SetLifetime, HeldOk, WithRoute;
    TouchKeeps(n, from, now);
    TouchFrame(n, from, now);
    var n1 := TouchPrevHop(n, from, now);
    ForwardToward(n1, from, p, now);
    ForwardRouteKeeps(n1, from, p, now);
    ForwardId(n1, from, p, now);
    var n2 := ForwardRoute(n1, from, p, now);
    FindIn(n2, {}, p.dest);
    var r := Find(n2.table, p.dest).value;
    assert Find(n1.table, p.dest).None? || !r.seqValid by { TouchedUnknown(n, from, p, now); TouchToward(n, from, now); }
    var hops := (p.hops + 1) % 0x100;
    var r1 := r.(seqNum := p.destSeq, seqValid := true, nextHop := from, hops := hops);
    var n2' := n2.(table := WithRoute(n2.table, r1));
    var n3 := SetLifetime(n2', r1, life.forward, now);
    assert n3.requests == [q] && n3.rreqId == n.rreqId by { SetFrame(n2', r1, life.forward, now); }
    assert OldEnough([q], n.rreqId, p.dest) == Some(q) && WithoutRequest([q], q.eid) == [];
  }

  lemma ForwardId(n: Node, from: Addr, p: Message, now: int)
    requires p.Rrep?
    ensures ForwardRoute(n, from, p, now).rreqId == n.rreqId
  {
    hide Find;
  }

  lemma SetFrame(n: Node, r: Route, ms: nat, now: int)
    ensures SetLifetime(n, r, ms, now).requests == n.requests && SetLifetime(n, r, ms, now).rreqId == n.rreqId
  {
  }
}
