/** Every step of a node keeps its invariant. */
module NodeSteps {
  import opened Config
  import opened Routes
  import opened AlarmSpec
  import opened Node
  import opened NodeInv
  import opened Wrappers

  lemma FindIn(n: Node, out: set<TimerId>, a: Addr)
    requires InvBut(n, out)
    ensures Find(n.table, a).Some? ==>
      && Find(n.table, a).value in n.table && Find(n.table, a).value.dst == a
      && Find(n.table, a).value.prefix == 0 && RouteOk(Find(n.table, a).value)
  {
    FindExact(n.table, n.nextId, a);
  }

  /** What every part of a step leaves behind: the invariant, and held packets that still wait for a route. */
  ghost predicate Keeps(n: Node, m: Node, out: set<TimerId>) {
    InvBut(m, out) && (HeldOk(n) ==> HeldOk(m))
  }

  ghost predicate SameEntries(n: Node, m: Node) {
    forall a :: Find(m.table, a).Some? <==> Find(n.table, a).Some?
  }

  lemma RefreshKeeps(n: Node, out: set<TimerId>, a: Addr, now: int)
    requires InvBut(n, out) && NoRoutes(out)
    ensures var m := RefreshTo(n, a, now);
      Keeps(n, m, out) && SameEntries(n, m) && m.requests == n.requests && m.held == n.held && m.handed == n.handed
  {
    hide InvBut, HeldOk, Find;
    match Find(n.table, a)
    case None =>
    case Some(r) =>
      FindIn(n, out, a);
      SetLifetimeKeeps(n, out, r, ACTIVE_ROUTE_TIMEOUT, now);
      var n1 := SetLifetime(n, r, ACTIVE_ROUTE_TIMEOUT, now);
      FindIn(n1, out, r.nextHop);
      if r.nextHop != a && Find(n1.table, r.nextHop).Some? {
        SetLifetimeKeeps(n1, out, Find(n1.table, r.nextHop).value, ACTIVE_ROUTE_TIMEOUT, now);
      }
  }

  lemma UpdateKeeps(n: Node, out: set<TimerId>, dst: Addr, orig: Addr, now: int)
    requires InvBut(n, out) && NoRoutes(out)
    ensures var m := UpdateRoute(n, dst, orig, now);
      Keeps(n, m, out) && SameEntries(n, m) && m.requests == n.requests && m.held == n.held && m.handed == n.handed
  {
    hide InvBut, HeldOk, Find, RefreshTo;
    if Routable(n, dst) {
      RefreshKeeps(n, out, dst, now);
      var n1 := if dst == n.ip then n else RefreshTo(n, dst, now);
      RefreshKeeps(n1, out, orig, now);
    }
  }

  lemma TouchKeeps(n: Node, from: Addr, now: int)
    requires Inv(n)
    ensures var m := TouchPrevHop(n, from, now);
      Keeps(n, m, {}) && m.requests == n.requests && m.ip == n.ip && m.rreqId == n.rreqId
      && forall a :: Find(m.table, a).Some? <==> a == from || Find(n.table, a).Some?
  {
    hide InvBut, HeldOk, Find;
    FindIn(n, {}, from);
    match Find(n.table, from)
    case Some(r) => SetLifetimeKeeps(n, {}, r, ACTIVE_ROUTE_TIMEOUT, now);
    case None => NewKeeps(n, NewRoute(n.nextId, from).(nextHop := from), now);
  }

  /** A new entry that has no alarm yet. */
  lemma NewKeeps(n: Node, r: Route, now: int)
    requires Inv(n) && r.rid == n.nextId && r.prefix == 0 && Find(n.table, r.dst).None?
    ensures var m := AddRoute(n.(nextId := n.nextId + 1), r, now);
      Keeps(n, m, {}) && forall a :: Find(m.table, a).Some? <==> a == r.dst || Find(n.table, a).Some?
  {
    hide HeldOk, Find;
    assert n.(nextId := n.nextId + 1, timers := n.timers) == n.(nextId := n.nextId + 1);
    AddRouteKeeps(n, {}, r, n.timers, now);
  }

  lemma ReverseKeeps(n: Node, from: Addr, p: Message, life: Option<nat>, now: int)
    requires p.Rreq? && Inv(n)
    ensures var m := ReverseRoute(n, from, p, life, now);
      Keeps(n, m, {}) && forall a :: Find(m.table, a).Some? <==> a == p.orig || Find(n.table, a).Some?
  {
    hide InvBut, HeldOk, Find;
    FindIn(n, {}, p.orig);
    match Find(n.table, p.orig)
    case Some(r) =>
      var r1 := r.(seqValid := true, nextHop := from, hops := p.hops,
                   seqNum := if Signed(r.seqNum) < Signed(p.origSeq) then p.origSeq else r.seqNum);
      EditKeeps(n, {}, r, r1);
      var n1 := n.(table := WithRoute(n.table, r1));
      if life.Some? {
        SetLifetimeKeeps(n1, {}, r1, life.value, now);
      }
    case None =>
      var r := NewRoute(n.nextId, p.orig).(seqNum := p.origSeq, nextHop := from, hops := p.hops, seqValid := true);
      ArmedNewKeeps(n, r, Due(now, match life case Some(ms) => ms case None => 0), now);
  }

  /** A new entry whose alarm was armed before it is in the table. */
  lemma ArmedNewKeeps(n: Node, r: Route, due: int, now: int)
    requires Inv(n) && r.rid == n.nextId && r.prefix == 0 && Find(n.table, r.dst).None?
    ensures var m := AddRoute(n.(nextId := n.nextId + 1, timers := Arm(n.timers, RouteTimer(r.rid), due)), r, now);
      Keeps(n, m, {}) && forall a :: Find(m.table, a).Some? <==> a == r.dst || Find(n.table, a).Some?
  {
    hide HeldOk, Find, TableOk, RequestsOk, ExpiryOk;
    var id := RouteTimer(r.rid);
    ArmKeeps(n.timers, id, due);
    forall e | e in Arm(n.timers, id, due)
      ensures e in n.timers || e.id == id
    {
      ArmMembers(n.timers, id, due, e);
    }
    AddRouteKeeps(n, {}, r, Arm(n.timers, id, due), now);
  }

  lemma NoteKeeps(n: Node, a: Addr, precursor: Addr)
    requires Inv(n)
    ensures var m := NotePrecursor(n, a, precursor); Keeps(n, m, {}) && SameEntries(n, m)
  {
    hide InvBut, HeldOk, Find;
    FindIn(n, {}, a);
    if Find(n.table, a).Some? {
      var r := Find(n.table, a).value;
      EditKeeps(n, {}, r, AddPrecursor(r, precursor));
    }
  }

  /** Sequence numbers and messages sent play no part in the invariant. */
  lemma LogKeeps(n: Node, m: Node, out: set<TimerId>)
    requires InvBut(n, out) && m == n.(seqNum := m.seqNum, rreqId := m.rreqId, sent := m.sent)
    ensures Keeps(n, m, out)
  {
    hide Find;
  }

  lemma AnswerKeeps(n: Node, from: Addr, p: Message)
    requires p.Rreq? && Inv(n) && Answers(n, p)
    ensures Keeps(n, AnswerRreq(n, from, p), {})
  {
    hide InvBut, HeldOk, Find;
    var m := AnswerRreq(n, from, p);
    if p.dest == n.ip {
      LogKeeps(n, m, {});
    } else {
      NoteKeeps(n, p.dest, from);
      var toDest := Find(n.table, p.dest).value;
      NoteKeeps(NotePrecursor(n, p.dest, from), p.orig, toDest.nextHop);
    }
  }

  lemma RreqKeeps(n: Node, from: Addr, p: Message, life: Option<nat>, now: int)
    requires p.Rreq? && Inv(n)
    ensures Keeps(n, ProcessRreq(n, from, p, life, now), {})
  {
    hide InvBut, HeldOk, Find, Contains, TouchPrevHop, PushRequest, ReverseRoute, AnswerRreq, Answers;
    TouchKeeps(n, from, now);
    var n1 := TouchPrevHop(n, from, now);
    if !Contains(n1.requests, p.id, p.dest) {
      PushKeeps(n1, {}, p.id, p.dest, -1, now);
      var n2 := PushRequest(n1, p.id, p.dest, -1, now);
      ReverseKeeps(n2, from, p, life, now);
      var n3 := ReverseRoute(n2, from, p, life, now);
      if Answers(n3, p) {
        AnswerKeeps(n3, from, p);
      } else {
        LogKeeps(n3, ProcessRreq(n, from, p, life, now), {});
      }
    }
  }

  lemma ForwardRouteKeeps(n: Node, from: Addr, p: Message, now: int)
    requires p.Rrep? && Inv(n)
    ensures var m := ForwardRoute(n, from, p, now);
      Keeps(n, m, {}) && Find(m.table, p.dest).Some? && m.ip == n.ip
  {
    hide InvBut, HeldOk, Find;
    if Find(n.table, p.dest).None? {
      NewKeeps(n, NewRoute(n.nextId, p.dest).(nextHop := from, seqNum := p.destSeq, seqValid := true), now);
    }
  }

  lemma PassOnKeeps(n: Node, from: Addr, p: Message, hops: U8, life: Lifetimes, now: int)
    requires p.Rrep? && Inv(n)
    ensures Keeps(n, PassOn(n, from, p, hops, life, now), {})
  {
    hide InvBut, HeldOk, Find, NotePrecursor, SetLifetime;
    if Find(n.table, p.orig).Some? {
      var next := Find(n.table, p.orig).value.nextHop;
      var n1 := n.(sent := n.sent + [Rrep(next, (p.ttl + 0xFF) % 0x100, hops, p.dest, p.destSeq, p.orig)]);
      LogKeeps(n, n1, {});
      NoteKeeps(n1, p.dest, next);
      var n2 := if p.dest == next then n1 else NotePrecursor(n1, p.dest, next);
      FindIn(n2, {}, next);
      var n3 := match life.next
        case None => n2
        case Some(ms) => (match Find(n2.table, next) case None => n2 case Some(r) => SetLifetime(n2, r, ms, now));
      if life.next.Some? && Find(n2.table, next).Some? {
        SetLifetimeKeeps(n2, {}, Find(n2.table, next).value, life.next.value, now);
      }
      NoteKeeps(n3, from, next);
    }
  }

  lemma {:induction false} OldEnoughIn(requests: seq<Request>, id: U32, dst: Addr)
    ensures var o := OldEnough(requests, id, dst); o.Some? ==> o.value in requests && o.value.dst == dst && o.value.id <= id
  {
    if requests != [] {
      OldEnoughIn(requests[1..], id, dst);
    }
  }

  /** Once there is an entry for `dst`, nothing held waits for a request for it. */
  lemma AnsweredKeeps(n: Node, id: U32, dst: Addr)
    requires Inv(n) && Find(n.table, dst).Some?
    ensures Keeps(n, Answered(n, id, dst), {})
  {
    hide InvBut, Find;
    OldEnoughIn(n.requests, id, dst);
    match OldEnough(n.requests, id, dst)
    case None =>
    case Some(q) => DeleteKeeps(n, {}, q);
  }

  lemma RrepKeeps(n: Node, from: Addr, p: Message, life: Lifetimes, now: int)
    requires p.Rrep? && Inv(n)
    ensures Keeps(n, ProcessRrep(n, from, p, life, now), {})
  {
    hide InvBut, HeldOk, Find, TouchPrevHop, ForwardRoute, Supersedes, SetLifetime, Answered, PassOn;
    TouchKeeps(n, from, now);
    var n1 := TouchPrevHop(n, from, now);
    ForwardRouteKeeps(n1, from, p, now);
    var n2 := ForwardRoute(n1, from, p, now);
    FindIn(n2, {}, p.dest);
    var r := Find(n2.table, p.dest).value;
    var hops := (p.hops + 1) % 0x100;
    if Find(n1.table, p.dest).None? || Supersedes(r, p, hops) {
      var r1 := r.(seqNum := p.destSeq, seqValid := true, nextHop := from, hops := hops);
      EditKeeps(n2, {}, r, r1);
      var n2' := n2.(table := WithRoute(n2.table, r1));
      SetLifetimeKeeps(n2', {}, r1, life.forward, now);
      var n3 := SetLifetime(n2', r1, life.forward, now);
      if n.ip == p.orig {
        AnsweredKeeps(n3, n3.rreqId, p.dest);
      } else {
        PassOnKeeps(n3, from, p, hops, life, now);
      }
    }
  }

  // ----- Packets from the kernel -----

  lemma FindRouteKeeps(n: Node, dest: Addr, tries: nat, now: int)
    requires Inv(n) && (tries == 0 ==> !Waiting(n.requests, dest))
    ensures var m := FindRoute(n, dest, tries, now);
      Keeps(n, m, {}) && (tries == 0 ==> Waiting(m.requests, dest)) && m.table == n.table && m.held == n.held
  {
    hide InvBut, HeldOk, Find, Waiting;
    var n1 := n.(seqNum := Increment(n.seqNum), rreqId := Increment(n.rreqId));
    LogKeeps(n, n1, {});
    if tries == 0 {
      PushKeeps(n1, {}, n1.rreqId, dest, 0, now);
      LogKeeps(PushRequest(n1, n1.rreqId, dest, 0, now), FindRoute(n, dest, tries, now), {});
    } else {
      LogKeeps(n1, FindRoute(n, dest, tries, now), {});
    }
  }

  lemma UpdateLeaves(n: Node, dst: Addr, orig: Addr, now: int)
    ensures var m := UpdateRoute(n, dst, orig, now);
      m == n.(table := m.table, timers := m.timers)
  {
    hide Find, WithRoute, Arm;
  }

  lemma RefreshIgnores(n: Node, handed: seq<U32>, a: Addr, now: int)
    ensures RefreshTo(n.(handed := handed), a, now) == RefreshTo(n, a, now).(handed := handed)
  {
    hide Find, WithRoute, Arm;
  }

  lemma UpdateIgnores(n: Node, handed: seq<U32>, dst: Addr, orig: Addr, now: int)
    ensures UpdateRoute(n.(handed := handed), dst, orig, now) == UpdateRoute(n, dst, orig, now).(handed := handed)
  {
    hide Find, RefreshTo;
    var n1 := if dst == n.ip then n else RefreshTo(n, dst, now);
    RefreshIgnores(n, handed, dst, now);
    RefreshIgnores(n1, handed, orig, now);
  }

  /** A packet accepted as soon as it comes. */
  lemma AcceptedAtOnce(n: Node, id: U32)
    requires Inv(n)
    ensures Keeps(n, n.(handed := n.handed + [id], accepted := n.accepted + [id]), {})
  {
    hide Find;
    Verdicts(n.accepted, [id]);
    Verdicts(n.handed, [id]);
  }

  lemma ForwardKeeps(n: Node, id: U32, dest: Addr, orig: Addr, now: int)
    requires Inv(n)
    ensures Keeps(n, Forward(n, id, dest, orig, now), {})
  {
    hide InvBut, HeldOk, Find, UpdateRoute;
    UpdateKeeps(n, {}, dest, orig, now);
    UpdateIgnores(n, n.handed + [id], dest, orig, now);
    AcceptedAtOnce(if dest == n.broadcast then n else UpdateRoute(n, dest, orig, now), id);
  }

  lemma HoldKeeps(n: Node, id: U32, dest: Addr)
    requires Inv(n)
    ensures Inv(n.(handed := n.handed + [id], held := [Held(id, dest)] + n.held))
  {
    hide Find;
    Verdicts(n.handed, [id]);
  }

  /** A packet for `dest` is let through, or queued while there is no entry for it at all. */
  predicate Settled(n: Node, dest: Addr) {
    dest == n.broadcast || Routable(n, dest) || Find(n.table, dest).None?
  }

  /** Queuing keeps every held packet owed a request exactly when the table does not hold an expired
      entry for the destination. */
  lemma OutputKeeps(n: Node, id: U32, dest: Addr, now: int)
    requires Inv(n)
    ensures Inv(Output(n, id, dest, now))
    ensures HeldOk(n) ==> (HeldOk(Output(n, id, dest, now)) <==> Settled(n, dest))
  {
    if dest == n.broadcast || Routable(n, dest) {
      hide InvBut, HeldOk, Find, UpdateRoute;
      UpdateKeeps(n, {}, dest, 0, now);
      UpdateIgnores(n, n.handed + [id], dest, 0, now);
      AcceptedAtOnce(if dest == n.broadcast then n else UpdateRoute(n, dest, 0, now), id);
    } else {
      hide InvBut, Find, FindRoute, Waiting;
      HoldKeeps(n, id, dest);
      var n1 := n.(handed := n.handed + [id], held := [Held(id, dest)] + n.held);
      if !Waiting(n1.requests, dest) {
        FindRouteKeeps(n1, dest, 0, now);
        FindRouteKeeps(n1.(held := n.held, handed := n.handed), dest, 0, now);
      }
      assert Held(id, dest) in n1.held;
    }
  }

  // ----- Alarms -----

  /** An alarm leaves the queue. */
  lemma LeaveKeeps(n: Node, id: TimerId)
    requires Inv(n)
    ensures Keeps(n, n.(timers := Cancel(n.timers, id)), {id})
  {
    hide Find, TableOk, RequestsOk, Waiting;
    CancelKeeps(n.timers, id);
    forall e | e in Cancel(n.timers, id)
      ensures e in n.timers
    {
      CancelMembers(n.timers, id, e);
    }
  }

  lemma {:induction false} ByIdIn(table: seq<Route>, rid: nat)
    ensures var o := ById(table, rid); o.Some? ==> o.value in table && o.value.rid == rid
    ensures ById(table, rid).None? ==> forall r :: r in table ==> r.rid != rid
  {
    if table != [] {
      ByIdIn(table[1..], rid);
    }
  }

  lemma {:induction false} RequestByIdIn(requests: seq<Request>, eid: nat)
    ensures var o := RequestById(requests, eid); o.Some? ==> o.value in requests && o.value.eid == eid
    ensures RequestById(requests, eid).None? ==> forall q :: q in requests ==> q.eid != eid
  {
    if requests != [] {
      RequestByIdIn(requests[1..], eid);
    }
  }

  /** An invalid entry of that identity has been invalid long enough at `start`. */
  ghost predicate Ripe(n: Node, rid: nat, start: int) {
    forall r :: r in n.table && r.rid == rid && !r.valid ==>
      rid in n.invalidSince && start >= Due(n.invalidSince[rid], DELETE_PERIOD)
  }

  lemma RestKeeps(n: Node, rid: nat)
    requires InvBut(n, {RouteTimer(rid)})
    ensures var t, q := WithoutRoute(n.table, rid), Cancel(n.timers, RouteTimer(rid));
      TableOk(t, n.nextId) && TimersOk(t, n.requests, q, {}) && ExpiryOk(t, q, n.invalidSince)
  {
    hide Find, Covers;
    var t, q := WithoutRoute(n.table, rid), Cancel(n.timers, RouteTimer(rid));
    forall r
      ensures r in t <==> r in n.table && r.rid != rid
    {
      WithoutRouteMembers(n.table, rid, r);
    }
    WithoutKeepsUncovered(n.table, rid);
    WithoutDistinct(n.table, rid);
    CancelKeeps(n.timers, RouteTimer(rid));
    forall e | e in q
      ensures e in n.timers
    {
      CancelMembers(n.timers, RouteTimer(rid), e);
    }
    forall id
      ensures Owned(t, n.requests, id) <==> id != RouteTimer(rid) && Owned(n.table, n.requests, id)
    {
    }
  }

  lemma {:induction false} WithoutDistinct(table: seq<Route>, rid: nat)
    requires forall i, j :: 0 <= i < j < |table| ==> table[i].rid != table[j].rid
    requires SamePrefix(table, 0)
    ensures var t := WithoutRoute(table, rid);
      SamePrefix(t, 0) && forall i, j :: 0 <= i < j < |t| ==> t[i].rid != t[j].rid
  {
    if table != [] {
      var rest := table[1..];
      WithoutDistinct(rest, rid);
      var t := WithoutRoute(rest, rid);
      forall j | 0 <= j < |t|
        ensures t[j].rid != table[0].rid
      {
        WithoutRouteMembers(rest, rid, t[j]);
        var k :| 0 <= k < |rest| && rest[k] == t[j];
        assert table[k + 1] == t[j];
      }
    }
  }

  lemma WithoutFinds(table: seq<Route>, rid: nat, a: Addr)
    requires Find(table, a).None?
    ensures Find(WithoutRoute(table, rid), a).None?
  {
    FindMatches(table, a);
    FindMatches(WithoutRoute(table, rid), a);
    forall r | r in WithoutRoute(table, rid)
      ensures !Covers(r, a)
    {
      WithoutRouteMembers(table, rid, r);
    }
  }

  /** An entry whose time is over goes, not before it has been invalid for the delete period. */
  lemma DestroyKeeps(n: Node, r: Route, start: int, now: int)
    requires InvBut(n, {RouteTimer(r.rid)}) && r in n.table && r.action == DestroyRoute
    requires Ripe(n, r.rid, start) && start <= now && ById(n.table, r.rid) == Some(r)
    ensures Keeps(n, RouteAlarm(n, r.rid, now), {})
  {
    hide Find, TableOk, RequestsOk, TimersOk, ExpiryOk, Waiting;
    RestKeeps(n, r.rid);
    assert !r.valid by {
      assert TableOk(n.table, n.nextId);
      EntryOk(n.table, n.nextId, r);
    }
    forall a | Find(n.table, a).None?
      ensures Find(WithoutRoute(n.table, r.rid), a).None?
    {
      WithoutFinds(n.table, r.rid, a);
    }
  }

  lemma EntryOk(table: seq<Route>, nextId: nat, r: Route)
    requires TableOk(table, nextId) && r in table
    ensures RouteOk(r) && r.prefix == 0
  {
  }

  lemma ExpireQueue(n: Node, r: Route, r1: Route, due: int)
    requires InvBut(n, {RouteTimer(r.rid)}) && r in n.table && r1.rid == r.rid
    ensures TimersOk(WithRoute(n.table, r1), n.requests, Arm(n.timers, RouteTimer(r.rid), due), {})
  {
    hide Find, Covers, TableOk, ExpiryOk, RequestsOk;
    var id := RouteTimer(r.rid);
    ArmKeeps(n.timers, id, due);
    forall a
      ensures Owned(WithRoute(n.table, r1), n.requests, a) <==> Owned(n.table, n.requests, a)
    {
      EditOwners(n.table, n.requests, r, r1, a);
    }
    assert Owned(n.table, n.requests, id);
  }

  lemma ExpireExpiry(n: Node, r: Route, r1: Route, now: int)
    requires InvBut(n, {RouteTimer(r.rid)}) && r in n.table && r1.rid == r.rid
    ensures var timers := Arm(n.timers, RouteTimer(r.rid), Due(now, DELETE_PERIOD));
      ExpiryOk(WithRoute(n.table, r1), timers, n.invalidSince[r.rid := now])
  {
    hide Find, Covers, TableOk, TimersOk, RequestsOk;
    var id, since := RouteTimer(r.rid), n.invalidSince[r.rid := now];
    var timers := Arm(n.timers, id, Due(now, DELETE_PERIOD));
    forall s, e | s in WithRoute(n.table, r1) && e in timers && e.id == RouteTimer(s.rid) && !s.valid
      ensures s.rid in since && e.due >= Due(since[s.rid], DELETE_PERIOD)
    {
      ArmMembers(n.timers, id, Due(now, DELETE_PERIOD), e);
      WithRouteMembers(n.table, r1, s);
    }
  }

  /** A valid entry becomes invalid, and its alarm is armed for the end of the delete period. */
  lemma ExpireKeeps(n: Node, r: Route, now: int)
    requires InvBut(n, {RouteTimer(r.rid)}) && r in n.table && r.action == UnsetValidEntry
    requires ById(n.table, r.rid) == Some(r)
    ensures Keeps(n, RouteAlarm(n, r.rid, now), {})
  {
    hide Find, Waiting, Covers, ById, TimersOk, ExpiryOk, RequestsOk, TableOk, Due;
    var r1 := r.(valid := false, action := DestroyRoute);
    EntryOk(n.table, n.nextId, r);
    WithRouteKeepsTable(n.table, n.nextId, r, r1);
    ExpireQueue(n, r, r1, Due(now, DELETE_PERIOD));
    ExpireExpiry(n, r, r1, now);
    forall a
      ensures Find(WithRoute(n.table, r1), a).Some? <==> Find(n.table, a).Some?
    {
      EditFinds(n.table, n.nextId, r, r1, a);
    }
  }

  lemma RouteAlarmKeeps(n: Node, rid: nat, start: int, now: int)
    requires InvBut(n, {RouteTimer(rid)}) && Ripe(n, rid, start) && start <= now
    ensures Keeps(n, RouteAlarm(n, rid, now), {})
  {
    hide HeldOk, Find, Ripe;
    ByIdIn(n.table, rid);
    match ById(n.table, rid)
    case None =>
    case Some(r) =>
      EntryOk(n.table, n.nextId, r);
      if r.action == UnsetValidEntry {
        ExpireKeeps(n, r, now);
      } else {
        DestroyKeeps(n, r, start, now);
      }
  }

  /** Giving up drops exactly the packets held for the destination. */
  lemma GiveUpKeeps(n: Node, q: Request)
    requires InvBut(n, {RequestTimer(q.eid)}) && q in n.requests
    ensures Keeps(n, DropPackets(DeleteRequest(n, q.eid), q.dst), {})
  {
    hide Find, TableOk, RequestsOk, TimersOk, ExpiryOk, Waiting;
    var m := n.(held := NotFor(n.held, q.dst), dropped := n.dropped + IdsFor(n.held, q.dst));
    DropKeepsIds(n.held, q.dst);
    Verdicts(n.dropped, IdsFor(n.held, q.dst));
    forall h
      ensures h in m.held <==> h in n.held && h.dst != q.dst
    {
      DropKeepsOthers(n.held, q.dst, h);
    }
    DeleteKeeps(m, {RequestTimer(q.eid)}, q);
  }

  lemma RetryKeeps(n: Node, q: Request, now: int)
    requires InvBut(n, {RequestTimer(q.eid)}) && q in n.requests && RequestById(n.requests, q.eid) == Some(q)
    requires 0 <= q.tries < RREQ_RETRIES
    ensures Keeps(n, RequestAlarm(n, q.eid, now), {})
  {
    hide InvBut, HeldOk, Find, UpdateRoute, FindRoute, WithRequest, RequestById;
    var id, q1 := RequestTimer(q.eid), q.(tries := q.tries + 1);
    RenewKeeps(n, {id}, q, q1);
    var n0 := n.(requests := WithRequest(n.requests, q1));
    UpdateKeeps(n0, {id}, q.dst, 0, now);
    var n1 := UpdateRoute(n0, q.dst, 0, now);
    RearmKeeps(n1, q1, Due(now, BackoffTime(q1.tries)));
    var n2 := n1.(timers := Arm(n1.timers, id, Due(now, BackoffTime(q1.tries))));
    FindRouteKeeps(n2, q.dst, q1.tries, now);
    var n3 := FindRoute(n2, q.dst, q1.tries, now);
    assert n3.requests == n2.requests by { RetryLogs(n2, q.dst, q1.tries, now); }
    RenewKeeps(n3, {}, q1, q1.(id := n3.rreqId));
  }

  lemma RetryLogs(n: Node, dst: Addr, tries: nat, now: int)
    requires tries > 0
    ensures var m := FindRoute(n, dst, tries, now);
      m == n.(seqNum := m.seqNum, rreqId := m.rreqId, sent := m.sent)
  {
  }

  lemma RearmKeeps(n: Node, q: Request, due: int)
    requires InvBut(n, {RequestTimer(q.eid)}) && q in n.requests
    ensures Keeps(n, n.(timers := Arm(n.timers, RequestTimer(q.eid), due)), {})
  {
    hide Find, TableOk, RequestsOk, Waiting;
    assert Owned(n.table, n.requests, RequestTimer(q.eid));
    var id := RequestTimer(q.eid);
    ArmKeeps(n.timers, id, due);
    forall e
      ensures e in Arm(n.timers, id, due) <==> e == Armed(id, due) || (e in n.timers && e.id != id)
    {
      ArmMembers(n.timers, id, due, e);
    }
  }

  lemma RequestAlarmKeeps(n: Node, eid: nat, now: int)
    requires InvBut(n, {RequestTimer(eid)})
    ensures Keeps(n, RequestAlarm(n, eid, now), {})
  {
    hide HeldOk, Find, DeleteRequest, DropPackets;
    RequestByIdIn(n.requests, eid);
    match RequestById(n.requests, eid)
    case None =>
    case Some(q) =>
      if q.tries < 0 {
        DeleteKeeps(n, {RequestTimer(eid)}, q);
      } else if q.tries + 1 > RREQ_RETRIES {
        GiveUpKeeps(n, q);
      } else {
        RetryKeeps(n, q, now);
      }
  }
}
