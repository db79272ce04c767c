/** What every event of a node does to its alarms, and whole runs with the alarms in the red-black queue. */
module EventOps {
  import opened Config
  import opened Routes
  import opened Timevals
  import opened RbModel
  import opened AlarmSpec
  import opened Node
  import opened NodeInv
  import opened NodeSteps
  import opened NodeRuns
  import opened Callbacks
  import opened Join
  import opened Wrappers
  import Alarm

  // ----- The operations of each step -----

  function AddOps(n: Node, r: Route, now: int): Ops {
    if Find(n.table, r.dst).Some? then [] else [SetOp(r, ACTIVE_ROUTE_TIMEOUT, now)]
  }

  function TouchOps(n: Node, from: Addr, now: int): Ops {
    match Find(n.table, from)
    case Some(r) => [SetOp(r, ACTIVE_ROUTE_TIMEOUT, now)]
    case None => AddOps(n.(nextId := n.nextId + 1), NewRoute(n.nextId, from).(nextHop := from), now)
  }

  function RoutingOps(n: Node, dst: Addr, orig: Addr, now: int): Ops {
    if !Routable(n, dst) then []
    else
      var n1 := if dst == n.ip then n else RefreshTo(n, dst, now);
      (if dst == n.ip then [] else RefreshOps(n, dst, now)) + (if orig == 0 then [] else RefreshOps(n1, orig, now))
  }

  function PushOps(n: Node, tries: int, now: int): Ops
    requires tries >= -1
  {
    [Rearm(RequestTimer(n.nextId), Due(now, if tries < 0 then PATH_DISCOVERY_TIME else BackoffTime(tries)))]
  }

  function ReverseOps(n: Node, from: Addr, p: Message, life: Option<nat>, now: int): Ops
    requires p.Rreq?
  {
    match Find(n.table, p.orig)
    case Some(r) => if life.Some? then [SetOp(r, life.value, now)] else []
    case None =>
      var r := NewRoute(n.nextId, p.orig).(seqNum := p.origSeq, nextHop := from, hops := p.hops, seqValid := true);
      var first := SetOp(r, if life.Some? then life.value else 0, now);
      [first] + AddOps(n.(nextId := n.nextId + 1, timers := Arm(n.timers, first.id, first.due)), r, now)
  }

  function RreqOps(n: Node, from: Addr, p: Message, life: Option<nat>, now: int): Ops
    requires p.Rreq?
  {
    var n1 := TouchPrevHop(n, from, now);
    TouchOps(n, from, now) +
    if Contains(n1.requests, p.id, p.dest) then []
    else PushOps(n1, -1, now) + ReverseOps(PushRequest(n1, p.id, p.dest, -1, now), from, p, life, now)
  }

  function ForwardOps(n: Node, from: Addr, p: Message, now: int): Ops
    requires p.Rrep?
  {
    if Find(n.table, p.dest).Some? then []
    else AddOps(n.(nextId := n.nextId + 1),
                NewRoute(n.nextId, p.dest).(nextHop := from, seqNum := p.destSeq, seqValid := true), now)
  }

  function AnsweredOps(n: Node, id: U32, dst: Addr): Ops {
    match OldEnough(n.requests, id, dst)
    case None => []
    case Some(q) => [Disarm(RequestTimer(q.eid))]
  }

  function PassOps(n: Node, from: Addr, p: Message, hops: U8, life: Lifetimes, now: int): Ops
    requires p.Rrep?
  {
    match Find(n.table, p.orig)
    case None => []
    case Some(back) =>
      var next := back.nextHop;
      var n2 := if p.dest == next then n else NotePrecursor(n, p.dest, next);
      if life.next.None? then []
      else match Find(n2.table, next) case None => [] case Some(r) => [SetOp(r, life.next.value, now)]
  }

  function RrepOps(n: Node, from: Addr, p: Message, life: Lifetimes, now: int): Ops
    requires p.Rrep?
  {
    var n1 := TouchPrevHop(n, from, now);
    var hops := (p.hops + 1) % 0x100;
    var n2 := ForwardRoute(n1, from, p, now);
    TouchOps(n, from, now) + ForwardOps(n1, from, p, now) +
    match Find(n2.table, p.dest)
    case None => []
    case Some(r) =>
      if Find(n1.table, p.dest).Some? && !Supersedes(r, p, hops) then []
      else
        var r1 := r.(seqNum := p.destSeq, seqValid := true, nextHop := from, hops := hops);
        var n3 := SetLifetime(n2.(table := WithRoute(n2.table, r1)), r1, life.forward, now);
        [SetOp(r1, life.forward, now)] +
        if n.ip == p.orig then AnsweredOps(n3, n3.rreqId, p.dest) else PassOps(n3, from, p, hops, life, now)
  }

  function OutputOps(n: Node, dest: Addr, now: int): Ops {
    if dest == n.broadcast then []
    else if Routable(n, dest) then RoutingOps(n, dest, 0, now)
    else if Waiting(n.requests, dest) then []
    else PushOps(n, 0, now)
  }

  /** An alarm run as one list: each alarm leaves the queue, and then its callback acts. */
  function Flat<K>(ids: seq<K>, script: seq<seq<Op<K>>>): seq<Op<K>>
    requires |ids| == |script|
    decreases ids
  {
    if ids == [] then [] else [Disarm(ids[0])] + script[0] + Flat(ids[1..], script[1..])
  }

  /** What an event does to the queue. */
  function EventOps(n: Node, e: Event, now: int): Ops
    requires Timely(n, e, now)
  {
    match e
    case OutputPacket(_, dest) => OutputOps(n, dest, now)
    case ForwardPacket(_, dest, orig) => if dest == n.broadcast then [] else RoutingOps(n, dest, orig, now)
    case Packet(from, p, reverse, life) =>
      if from == n.ip then []
      else if p.Rreq? then RreqOps(n, from, p, reverse, now)
      else RrepOps(n, from, p, life, now)
    case RunAlarms(clocks) =>
      var ids := DueLatestFirst(n.timers, now);
      Flat(ids, FireScript(n, ids, clocks))
  }

  // ----- Steps and their operations -----

  function Number(id: TimerId): nat {
    match id case RouteTimer(rid) => rid case RequestTimer(eid) => eid
  }

  /** The alarms of a node are numbered below its counter. */
  ghost predicate Numbered(n: Node) {
    forall id :: Owned(n.table, n.requests, id) ==> Number(id) < n.nextId
  }

  /** An alarm that the node has numbered, and a delay of milliseconds that fits a word. */
  ghost predicate Fits(op: Op<TimerId>, nextId: nat, now: int) {
    Number(op.id) < nextId && Worded(op, now)
  }

  /** The step from `n` to `m` does `ops` to the queue. */
  ghost predicate Does(n: Node, m: Node, ops: Ops, now: int) {
    && m.timers == Apply(n.timers, ops) && n.nextId <= m.nextId
    && (Numbered(n) ==> Numbered(m) && forall op :: op in ops ==> Fits(op, m.nextId, now))
  }

  lemma DoesThen(n: Node, a: Node, m: Node, first: Ops, more: Ops, now: int)
    requires Does(n, a, first, now) && Does(a, m, more, now)
    ensures Does(n, m, first + more, now)
  {
    hide Numbered;
    ApplyMore(n.timers, first, more);
    forall op | op in first + more && Numbered(n)
      ensures Fits(op, m.nextId, now)
    {
      assert op in first ==> Fits(op, a.nextId, now);
    }
  }

  /** Nothing is armed, and no entry is new. */
  lemma DoesNothing(n: Node, m: Node, now: int)
    requires m.timers == n.timers && n.nextId <= m.nextId && NoneNew(n, m)
    ensures Does(n, m, [], now)
  {
    hide Owned;
  }

  lemma DoesOne(n: Node, m: Node, op: Op<TimerId>, now: int)
    requires m.timers == ApplyOne(n.timers, op) && n.nextId <= m.nextId && Fits(op, m.nextId, now)
    requires forall id :: Owned(m.table, m.requests, id) ==> Owned(n.table, n.requests, id) || Number(id) < m.nextId
    ensures Does(n, m, [op], now)
  {
    hide Owned, ApplyOne, Fits;
    ApplySingle(n.timers, op);
  }

  lemma SetDoes(n: Node, r: Route, ms: U32, now: int)
    requires r in n.table
    ensures Does(n, SetLifetime(n, r, ms, now), [SetOp(r, ms, now)], now)
  {
    hide WithRoute, Arm;
    SetNoneNew(n, r, ms, now);
    ApplySingle(n.timers, SetOp(r, ms, now));
    assert Owned(n.table, n.requests, RouteTimer(r.rid));
  }

  lemma AddDoes(n: Node, r: Route, now: int)
    requires r.rid < n.nextId
    ensures Does(n, AddRoute(n, r, now), AddOps(n, r, now), now)
  {
    hide Find, Arm, ProcessRoute;
    var m := AddRoute(n, r, now);
    assert m.requests == n.requests && m.nextId == n.nextId by { AddLeaves(n, r, now); }
    if Find(n.table, r.dst).Some? {
      DoesNothing(n, n, now);
    } else {
      AddLeaves(n, r, now);
      DoesOne(n, m, SetOp(r, ACTIVE_ROUTE_TIMEOUT, now), now);
    }
  }

  lemma AddLeaves(n: Node, r: Route, now: int)
    ensures var m := AddRoute(n, r, now);
      && m.requests == n.requests && m.nextId == n.nextId
      && (Find(n.table, r.dst).None? ==>
            && m.timers == Arm(n.timers, RouteTimer(r.rid), Due(now, ACTIVE_ROUTE_TIMEOUT))
            && m.table == [r.(valid := true, action := UnsetValidEntry)] + n.table)
  {
    hide Find, Arm;
  }

  lemma TouchDoes(n: Node, from: Addr, now: int)
    ensures Does(n, TouchPrevHop(n, from, now), TouchOps(n, from, now), now)
  {
    hide Find, AddRoute, AddOps, Does, SetLifetime, SetOp, Covers;
    FindMatches(n.table, from);
    match Find(n.table, from)
    case Some(r) => SetDoes(n, r, ACTIVE_ROUTE_TIMEOUT, now);
    case None =>
      var n1, r := n.(nextId := n.nextId + 1), NewRoute(n.nextId, from).(nextHop := from);
      DoesNothing(n, n1, now);
      AddDoes(n1, r, now);
      DoesThen(n, n1, AddRoute(n1, r, now), [], AddOps(n1, r, now), now);
      assert [] + AddOps(n1, r, now) == AddOps(n1, r, now);
  }

  lemma RefreshDoes(n: Node, a: Addr, now: int)
    ensures Does(n, RefreshTo(n, a, now), RefreshOps(n, a, now), now)
  {
    RefreshIsOps(n, a, now);
    RefreshAsked(n, a, now);
    assert RefreshTo(n, a, now).nextId == n.nextId by { hide Find, Arm, WithRoute; }
    hide RefreshTo, RefreshOps, Owned;
  }

  lemma RoutingDoes(n: Node, dst: Addr, orig: Addr, now: int)
    ensures Does(n, UpdateRoute(n, dst, orig, now), RoutingOps(n, dst, orig, now), now)
  {
    hide RefreshTo, RefreshOps, Does, Find, Routable;
    Nothing(n, now);
    if Routable(n, dst) {
      var n1 := if dst == n.ip then n else RefreshTo(n, dst, now);
      var first := if dst == n.ip then [] else RefreshOps(n, dst, now);
      RefreshDoes(n, dst, now);
      RefreshDoes(n1, orig, now);
      Nothing(n1, now);
      DoesThen(n, n1, UpdateRoute(n, dst, orig, now), first, if orig == 0 then [] else RefreshOps(n1, orig, now), now);
    }
  }

  lemma Nothing(n: Node, now: int)
    ensures Does(n, n, [], now)
  {
    DoesNothing(n, n, now);
  }

  lemma PushDoes(n: Node, id: U32, dst: Addr, tries: int, now: int)
    requires tries >= -1
    ensures Does(n, PushRequest(n, id, dst, tries, now), PushOps(n, tries, now), now)
  {
    hide Arm, BackoffTime;
    var m := PushRequest(n, id, dst, tries, now);
    forall i | Owned(m.table, m.requests, i)
      ensures Owned(n.table, n.requests, i) || Number(i) < m.nextId
    {
      PushedOwner(n.table, n.requests, m.requests[0], i);
    }
    DoesOne(n, m, PushOps(n, tries, now)[0], now);
  }

  /** Only what is known of a route changes. */
  lemma EditDoes(n: Node, r0: Route, r1: Route, now: int)
    requires r0 in n.table && r1.rid == r0.rid
    ensures Does(n, n.(table := WithRoute(n.table, r1)), [], now)
  {
    var m := n.(table := WithRoute(n.table, r1));
    forall id
      ensures Owned(m.table, m.requests, id) ==> Owned(n.table, n.requests, id)
    {
      EditOwners(n.table, n.requests, r0, r1, id);
    }
    DoesNothing(n, m, now);
  }

  lemma EditSetDoes(n: Node, r0: Route, r1: Route, ms: U32, now: int)
    requires r0 in n.table && r1.rid == r0.rid
    ensures Does(n, SetLifetime(n.(table := WithRoute(n.table, r1)), r1, ms, now), [SetOp(r1, ms, now)], now)
  {
    EditDoes(n, r0, r1, now);
    WithRouteMembers(n.table, r1, r1);
    hide Does, SetLifetime, WithRoute, SetOp;
    var n1 := n.(table := WithRoute(n.table, r1));
    SetDoes(n1, r1, ms, now);
    DoesThen(n, n1, SetLifetime(n1, r1, ms, now), [], [SetOp(r1, ms, now)], now);
    assert [] + [SetOp(r1, ms, now)] == [SetOp(r1, ms, now)];
  }

  lemma ReverseDoes(n: Node, from: Addr, p: Message, life: Option<nat>, now: int)
    requires p.Rreq? && (life.Some? ==> life.value < 0x1_0000_0000)
    ensures Does(n, ReverseRoute(n, from, p, life, now), ReverseOps(n, from, p, life, now), now)
  {
    hide Find, Does, AddRoute, AddOps, SetLifetime, WithRoute, Arm, Covers;
    FindMatches(n.table, p.orig);
    match Find(n.table, p.orig)
    case Some(r) =>
      var r1 := r.(seqValid := true, nextHop := from, hops := p.hops,
                   seqNum := if Signed(r.seqNum) < Signed(p.origSeq) then p.origSeq else r.seqNum);
      EditDoes(n, r, r1, now);
      if life.Some? {
        EditSetDoes(n, r, r1, life.value, now);
      }
    case None =>
      var r := NewRoute(n.nextId, p.orig).(seqNum := p.origSeq, nextHop := from, hops := p.hops, seqValid := true);
      var first := SetOp(r, if life.Some? then life.value else 0, now);
      var n1 := n.(nextId := n.nextId + 1, timers := Arm(n.timers, first.id, first.due));
      FirstDoes(n, r, if life.Some? then life.value else 0, now);
      AddDoes(n1, r, now);
      DoesThen(n, n1, AddRoute(n1, r, now), [first], AddOps(n1, r, now), now);
  }

  lemma FirstDoes(n: Node, r: Route, ms: U32, now: int)
    requires r.rid == n.nextId
    ensures var op := SetOp(r, ms, now); Does(n, n.(nextId := n.nextId + 1, timers := Arm(n.timers, op.id, op.due)), [op], now)
  {
    hide Arm;
    var op := SetOp(r, ms, now);
    DoesOne(n, n.(nextId := n.nextId + 1, timers := Arm(n.timers, op.id, op.due)), op, now);
  }

  lemma NoteDoes(n: Node, a: Addr, precursor: Addr, now: int)
    ensures Does(n, NotePrecursor(n, a, precursor), [], now)
  {
    hide Find, Does, WithRoute, Covers;
    Nothing(n, now);
    FindMatches(n.table, a);
    match Find(n.table, a)
    case None =>
    case Some(r) => EditDoes(n, r, AddPrecursor(r, precursor), now);
  }

  lemma AnswerDoes(n: Node, from: Addr, p: Message, now: int)
    requires p.Rreq? && Answers(n, p)
    ensures Does(n, AnswerRreq(n, from, p), [], now)
  {
    if p.dest == n.ip {
      DoesNothing(n, AnswerRreq(n, from, p), now);
    } else {
      hide Does, WithRoute, Find;
      var toDest := Find(n.table, p.dest).value;
      var n1 := NotePrecursor(n, p.dest, from);
      NoteDoes(n, p.dest, from, now);
      NoteDoes(n1, p.orig, toDest.nextHop, now);
      DoesThen(n, n1, NotePrecursor(n1, p.orig, toDest.nextHop), [], [], now);
    }
  }

  lemma SendDoes(n: Node, m: Message, now: int)
    ensures Does(n, n.(sent := n.sent + [m]), [], now)
  {
    DoesNothing(n, n.(sent := n.sent + [m]), now);
  }

  lemma RreqDoes(n: Node, from: Addr, p: Message, life: Option<nat>, now: int)
    requires p.Rreq? && (life.Some? ==> life.value < 0x1_0000_0000)
    ensures Does(n, ProcessRreq(n, from, p, life, now), RreqOps(n, from, p, life, now), now)
  {
    hide TouchPrevHop, TouchOps, PushRequest, PushOps, ReverseRoute, ReverseOps, Contains, Answers, AnswerRreq, Does;
    var n1 := TouchPrevHop(n, from, now);
    TouchDoes(n, from, now);
    if Contains(n1.requests, p.id, p.dest) {
      assert TouchOps(n, from, now) + [] == TouchOps(n, from, now);
    } else {
      var n2 := PushRequest(n1, p.id, p.dest, -1, now);
      var n3 := ReverseRoute(n2, from, p, life, now);
      var m := ProcessRreq(n, from, p, life, now);
      var rest := ReverseOps(n2, from, p, life, now);
      PushDoes(n1, p.id, p.dest, -1, now);
      ReverseDoes(n2, from, p, life, now);
      if Answers(n3, p) {
        AnswerDoes(n3, from, p, now);
      } else if p.ttl > 1 {
        SendDoes(n3, Relayed(p), now);
      } else {
        Nothing(n3, now);
      }
      DoesThen(n2, n3, m, rest, [], now);
      assert rest + [] == rest;
      DoesThen(n1, n2, m, PushOps(n1, -1, now), rest, now);
      DoesThen(n, n1, m, TouchOps(n, from, now), PushOps(n1, -1, now) + rest, now);
    }
  }

  lemma ForwardDoes(n: Node, from: Addr, p: Message, now: int)
    requires p.Rrep?
    ensures Does(n, ForwardRoute(n, from, p, now), ForwardOps(n, from, p, now), now)
  {
    hide Find, AddRoute, AddOps, Does;
    Nothing(n, now);
    if Find(n.table, p.dest).None? {
      var n1 := n.(nextId := n.nextId + 1);
      var r := NewRoute(n.nextId, p.dest).(nextHop := from, seqNum := p.destSeq, seqValid := true);
      DoesNothing(n, n1, now);
      AddDoes(n1, r, now);
      DoesThen(n, n1, AddRoute(n1, r, now), [], AddOps(n1, r, now), now);
      assert [] + AddOps(n1, r, now) == AddOps(n1, r, now);
    }
  }

  lemma AnsweredDoes(n: Node, id: U32, dst: Addr, now: int)
    ensures Does(n, Answered(n, id, dst), AnsweredOps(n, id, dst), now)
  {
    OldEnoughIn(n.requests, id, dst);
    match OldEnough(n.requests, id, dst)
    case None => Nothing(n, now);
    case Some(q) =>
      var m := DeleteRequest(n, q.eid);
      hide OldEnough, Cancel, WithoutRequest, Apply;
      forall i
        ensures Owned(m.table, m.requests, i) ==> Owned(n.table, n.requests, i)
      {
        WithoutOwner(n.table, n.requests, q.eid, i);
      }
      assert Owned(n.table, n.requests, RequestTimer(q.eid));
      ApplySingle(n.timers, Disarm(RequestTimer(q.eid)));
  }

  lemma PassDoes(n: Node, from: Addr, p: Message, hops: U8, life: Lifetimes, now: int)
    requires p.Rrep? && (life.next.Some? ==> life.next.value < 0x1_0000_0000)
    ensures Does(n, PassOn(n, from, p, hops, life, now), PassOps(n, from, p, hops, life, now), now)
  {
    hide Find, Does, SetLifetime, NotePrecursor, Covers;
    Nothing(n, now);
    match Find(n.table, p.orig)
    case None =>
    case Some(back) =>
      var next := back.nextHop;
      var r := Rrep(next, (p.ttl + 0xFF) % 0x100, hops, p.dest, p.destSeq, p.orig);
      var n1 := n.(sent := n.sent + [r]);
      var n2 := if p.dest == next then n1 else NotePrecursor(n1, p.dest, next);
      SendDoes(n, r, now);
      Nothing(n1, now);
      NoteDoes(n1, p.dest, next, now);
      var none: Ops := [];
      DoesThen(n, n1, n2, none, none, now);
      assert none + none == none;
      SameNote(n, n1, p.dest, next);
      FindMatches(n2.table, next);
      var ops := PassOps(n, from, p, hops, life, now);
      var n3 := match life.next
        case None => n2
        case Some(ms) => (match Find(n2.table, next) case None => n2 case Some(r) => SetLifetime(n2, r, ms, now));
      Nothing(n2, now);
      if life.next.Some? && Find(n2.table, next).Some? {
        SetDoes(n2, Find(n2.table, next).value, life.next.value, now);
      }
      DoesThen(n, n2, n3, [], ops, now);
      NoteDoes(n3, from, next, now);
      DoesThen(n, n3, NotePrecursor(n3, from, next), [] + ops, [], now);
      assert [] + ops + [] == ops;
  }

  lemma SameNote(n: Node, m: Node, a: Addr, precursor: Addr)
    requires m.table == n.table
    ensures NotePrecursor(m, a, precursor).table == NotePrecursor(n, a, precursor).table
  {
    hide Find, WithRoute;
  }

  lemma RrepDoes(n: Node, from: Addr, p: Message, life: Lifetimes, now: int)
    requires p.Rrep? && life.forward < 0x1_0000_0000 && (life.next.Some? ==> life.next.value < 0x1_0000_0000)
    ensures Does(n, ProcessRrep(n, from, p, life, now), RrepOps(n, from, p, life, now), now)
  {
    hide Find, TouchPrevHop, TouchOps, ForwardRoute, ForwardOps, SetLifetime, WithRoute, Supersedes, Answered, AnsweredOps,
      PassOn, PassOps, Does, Covers;
    var n1, hops := TouchPrevHop(n, from, now), (p.hops + 1) % 0x100;
    var n2, m := ForwardRoute(n1, from, p, now), ProcessRrep(n, from, p, life, now);
    var first := TouchOps(n, from, now) + ForwardOps(n1, from, p, now);
    TouchDoes(n, from, now);
    ForwardDoes(n1, from, p, now);
    DoesThen(n, n1, n2, TouchOps(n, from, now), ForwardOps(n1, from, p, now), now);
    FindMatches(n2.table, p.dest);
    assert first + [] == first;
    TookIp(n, from, p, now);
    if Find(n2.table, p.dest).Some? {
      var r := Find(n2.table, p.dest).value;
      var r1 := r.(seqNum := p.destSeq, seqValid := true, nextHop := from, hops := hops);
      var n3 := SetLifetime(n2.(table := WithRoute(n2.table, r1)), r1, life.forward, now);
      if !(Find(n1.table, p.dest).Some? && !Supersedes(r, p, hops)) {
        EditSetDoes(n2, r, r1, life.forward, now);
        AnsweredDoes(n3, n3.rreqId, p.dest, now);
        PassDoes(n3, from, p, hops, life, now);
        var last := if n.ip == p.orig then AnsweredOps(n3, n3.rreqId, p.dest) else PassOps(n3, from, p, hops, life, now);
        DoesThen(n2, n3, m, [SetOp(r1, life.forward, now)], last, now);
        DoesThen(n, n2, m, first, [SetOp(r1, life.forward, now)] + last, now);
      }
    }
  }

  lemma TookIp(n: Node, from: Addr, p: Message, now: int)
    requires p.Rrep?
    ensures ForwardRoute(TouchPrevHop(n, from, now), from, p, now).ip == n.ip
  {
    hide Find, Arm, WithRoute;
  }

  lemma AskDoes(n: Node, dest: Addr, now: int)
    ensures Does(n, FindRoute(n, dest, 0, now), PushOps(n, 0, now), now)
  {
    hide PushRequest, PushOps, Does, RingTtl;
    var n1 := n.(seqNum := Increment(n.seqNum), rreqId := Increment(n.rreqId));
    DoesNothing(n, n1, now);
    PushDoes(n1, n1.rreqId, dest, 0, now);
    var n2, m := PushRequest(n1, n1.rreqId, dest, 0, now), FindRoute(n, dest, 0, now);
    SendDoes(n2, m.sent[|n2.sent|], now);
    var ops := PushOps(n1, 0, now);
    assert ops == PushOps(n, 0, now) by { SamePush(n, n1, now); }
    DoesThen(n, n1, n2, [], ops, now);
    DoesThen(n, n2, m, [] + ops, [], now);
    assert [] + ops + [] == ops;
  }

  lemma SamePush(n: Node, m: Node, now: int)
    requires m.nextId == n.nextId
    ensures PushOps(m, 0, now) == PushOps(n, 0, now)
  {
  }

  lemma OutputDoes(n: Node, id: U32, dest: Addr, now: int)
    ensures Does(n, Output(n, id, dest, now), OutputOps(n, dest, now), now)
  {
    hide UpdateRoute, RoutingOps, FindRoute, PushOps, Waiting, Routable, Does;
    var n0, m := n.(handed := n.handed + [id]), Output(n, id, dest, now);
    var ops := OutputOps(n, dest, now);
    DoesNothing(n, n0, now);
    SameRouting(n, n0, dest, 0, now);
    if dest == n.broadcast {
      DoesNothing(n, m, now);
    } else if Routable(n, dest) {
      var n1 := UpdateRoute(n0, dest, 0, now);
      RoutingDoes(n0, dest, 0, now);
      DoesThen(n, n0, n1, [], ops, now);
      DoesNothing(n1, m, now);
      DoesThen(n, n1, m, [] + ops, [], now);
    } else {
      var n1 := n0.(held := [Held(id, dest)] + n0.held);
      DoesNothing(n, n1, now);
      if !Waiting(n.requests, dest) {
        AskDoes(n1, dest, now);
        SamePush(n, n1, now);
        DoesThen(n, n1, m, [], ops, now);
      }
    }
    assert [] + ops + [] == ops && [] + ops == ops;
  }

  lemma SameRouting(n: Node, m: Node, dst: Addr, orig: Addr, now: int)
    requires m == n.(handed := m.handed)
    ensures Routable(m, dst) == Routable(n, dst) && RoutingOps(m, dst, orig, now) == RoutingOps(n, dst, orig, now)
  {
    RefreshIgnores(n, m.handed, dst, now);
    SameRefresh(n, m, dst, now);
    var n1, m1 := if dst == n.ip then n else RefreshTo(n, dst, now), if dst == n.ip then m else RefreshTo(m, dst, now);
    SameRefresh(n1, m1, orig, now);
    hide Find, RefreshTo, RefreshOps;
  }

  lemma SameRefresh(n: Node, m: Node, a: Addr, now: int)
    requires m == n.(handed := m.handed)
    ensures RefreshOps(m, a, now) == RefreshOps(n, a, now)
  {
    hide Find, Arm;
  }

  lemma ForwardPacketDoes(n: Node, id: U32, dest: Addr, orig: Addr, now: int)
    ensures Does(n, Forward(n, id, dest, orig, now),
                 if dest == n.broadcast then [] else RoutingOps(n, dest, orig, now), now)
  {
    hide UpdateRoute, RoutingOps, Routable, Does;
    var n0, m := n.(handed := n.handed + [id]), Forward(n, id, dest, orig, now);
    var ops := RoutingOps(n, dest, orig, now);
    SameRouting(n, n0, dest, orig, now);
    if dest == n.broadcast {
      DoesNothing(n, m, now);
    } else {
      var n1 := UpdateRoute(n0, dest, orig, now);
      DoesNothing(n, n0, now);
      RoutingDoes(n0, dest, orig, now);
      DoesThen(n, n0, n1, [], ops, now);
      DoesNothing(n1, m, now);
      DoesThen(n, n1, m, [] + ops, [], now);
      assert [] + ops + [] == ops;
    }
  }

  // ----- Alarm runs -----

  lemma FireLeaves(n: Node, id: TimerId, now: int)
    ensures Fire(n, id, now).nextId == n.nextId
  {
    hide Arm, Cancel, Find, WithRoute, UpdateRoute;
    if id.RequestTimer? && RequestById(n.requests, id.eid).Some? {
      var q := RequestById(n.requests, id.eid).value;
      UpdateLeaves(n.(requests := WithRequest(n.requests, q.(tries := q.tries + 1))), q.dst, 0, now);
    }
  }

  lemma {:induction false} RunDoes(n: Node, ids: seq<TimerId>, clocks: seq<int>)
    requires |ids| == |clocks| && Numbered(n) && forall id :: id in ids ==> Number(id) < n.nextId
    ensures var m, ops := FireAll(n, ids, clocks), Flat(ids, FireScript(n, ids, clocks));
      && m.timers == Apply(n.timers, ops) && m.nextId == n.nextId && Numbered(m)
      && forall op :: op in ops ==> Number(op.id) < n.nextId
    decreases ids
  {
    hide Fire, FireOps, Owned, Cancel, ApplyOne, Number;
    if ids != [] {
      var id, n0 := ids[0], n.(timers := Cancel(n.timers, ids[0]));
      var m := Fire(n0, id, clocks[0]);
      FireAsked(n0, id, clocks[0]);
      FireIsOps(n0, id, clocks[0]);
      FireLeaves(n0, id, clocks[0]);
      RunDoes(m, ids[1..], clocks[1..]);
      var own, script := FireOps(n0, id, clocks[0]), FireScript(n, ids, clocks);
      var rest := Flat(ids[1..], FireScript(m, ids[1..], clocks[1..]));
      assert script[0] == own && script[1..] == FireScript(m, ids[1..], clocks[1..]);
      CancelOp(n.timers, id);
      ApplyMore(n.timers, [Disarm(id)], own);
      ApplyMore(n.timers, [Disarm(id)] + own, rest);
    }
  }

  lemma CancelOp(q: seq<Armed<TimerId>>, id: TimerId)
    ensures Apply(q, [Disarm(id)]) == Cancel(q, id)
  {
    ApplySingle(q, Disarm(id));
  }

  // ----- Every event -----

  /** Lifetimes are 32-bit words. */
  predicate WordLifetimes(e: Event) {
    e.Packet? ==>
      && (e.reverse.Some? ==> e.reverse.value < 0x1_0000_0000)
      && e.life.forward < 0x1_0000_0000 && (e.life.next.Some? ==> e.life.next.value < 0x1_0000_0000)
  }

  lemma PacketDoes(n: Node, e: Event, now: int)
    requires !e.RunAlarms? && WordLifetimes(e)
    ensures Does(n, React(n, e, now), EventOps(n, e, now), now)
  {
    hide Output, OutputOps, Forward, RoutingOps, ProcessRreq, RreqOps, ProcessRrep, RrepOps, Does;
    match e
    case OutputPacket(id, dest) => OutputDoes(n, id, dest, now);
    case ForwardPacket(id, dest, orig) => ForwardPacketDoes(n, id, dest, orig, now);
    case Packet(from, p, reverse, life) =>
      if from == n.ip {
        Nothing(n, now);
      } else if p.Rreq? {
        RreqDoes(n, from, p, reverse, now);
      } else {
        RrepDoes(n, from, p, life, now);
      }
  }

  lemma InvNumbered(n: Node)
    requires Inv(n)
    ensures Numbered(n)
  {
  }

  lemma DueNumbered(n: Node, now: int)
    requires Inv(n)
    ensures forall id :: id in DueLatestFirst(n.timers, now) ==> Number(id) < n.nextId
  {
    InvNumbered(n);
    var ids, k := DueLatestFirst(n.timers, now), Slot(n.timers, now);
    forall id | id in ids
      ensures Number(id) < n.nextId
    {
      var i :| 0 <= i < |ids| && ids[i] == id;
      assert n.timers[k - 1 - i].id == id;
      assert Pending(n.timers, id);
    }
  }

  /** Every event of a node does to its alarms what its list of operations says, and names none that the
      node has not numbered by then. */
  lemma ReactIsOps(n: Node, e: Event, now: int)
    requires Inv(n) && Timely(n, e, now) && WordLifetimes(e)
    ensures var m, ops := React(n, e, now), EventOps(n, e, now);
      && m.timers == Apply(n.timers, ops) && n.nextId <= m.nextId
      && forall op :: op in ops ==> Number(op.id) < m.nextId && (!e.RunAlarms? ==> Worded(op, now))
  {
    InvNumbered(n);
    if e.RunAlarms? {
      DueNumbered(n, now);
      hide InvBut, Numbered, FireAll, FireScript, Flat, DueLatestFirst;
      RunDoes(n, DueLatestFirst(n.timers, now), e.clocks);
    } else {
      hide InvBut, Numbered, React, EventOps, Apply;
      PacketDoes(n, e, now);
    }
  }

  // ----- Events with the red-black queue -----

  ghost function AlarmsBelow(k: nat): (ids: set<TimerId>)
    ensures forall id :: id in ids <==> Number(id) < k
  {
    (set i | 0 <= i < k :: RouteTimer(i)) + (set i | 0 <= i < k :: RequestTimer(i))
  }

  /** Every alarm numbered below `k` has an initialised block of its own. */
  ghost predicate Blocks(block: TimerId -> RbNode, blocks: set<RbNode>, k: nat) {
    OneToOne(block, AlarmsBelow(k)) && forall id :: Number(id) < k ==> block(id) in blocks
  }

  lemma FewerBlocks(block: TimerId -> RbNode, blocks: set<RbNode>, j: nat, k: nat)
    requires Blocks(block, blocks, k) && j <= k
    ensures Blocks(block, blocks, j)
  {
  }

  function Stamp(t: int): (r: Timeval)
    ensures r.Normal() && r.Micros() == t
  {
    Timeval(t / USEC_PER_SEC, t % USEC_PER_SEC)
  }

  function Stamps(clocks: seq<int>): (r: seq<Timeval>)
    ensures |r| == |clocks| && (forall i :: 0 <= i < |r| ==> r[i].Normal()) && Readings(r) == clocks
  {
    seq(|clocks|, i requires 0 <= i < |clocks| => Stamp(clocks[i]))
  }

  lemma PendingWithin(n: Node, k: nat)
    requires Inv(n) && n.nextId <= k
    ensures Within(n.timers, AlarmsBelow(k))
  {
    InvNumbered(n);
    hide Numbered;
    forall e | e in n.timers
      ensures Number(e.id) < k
    {
      var i :| 0 <= i < |n.timers| && n.timers[i] == e;
      assert Pending(n.timers, e.id);
      BelowNext(n, e.id);
    }
  }

  lemma BelowNext(n: Node, id: TimerId)
    requires Numbered(n) && Owned(n.table, n.requests, id)
    ensures Number(id) < n.nextId
  {
  }

  lemma BlocksBound(n: Node, block: TimerId -> RbNode, blocks: set<RbNode>, k: nat)
    requires Inv(n) && n.nextId <= k && Blocks(block, blocks, k)
    ensures Bound(n, block, blocks)
  {
    PendingWithin(n, k);
    hide InvBut;
  }

  /** What the queue is asked for an event other than an alarm run, and what it then holds. */
  lemma EventFits(n: Node, e: Event, at: int, block: TimerId -> RbNode, blocks: set<RbNode>)
    requires Inv(n) && !e.RunAlarms? && WordLifetimes(e) && Blocks(block, blocks, React(n, e, at).nextId)
    ensures var calls := AskAll(EventOps(n, e, at), block, Stamp(at));
      && Alarm.Callable(calls, blocks)
      && Apply(Renamed(n.timers, block), Alarm.Meanings(calls)) == Renamed(React(n, e, at).timers, block)
  {
    hide InvBut, React, EventOps, AskAll, Alarm.Callable, Alarm.Meanings, OpsWithin, Worded, Renamed, Apply, RenamedOps;
    ReactIsOps(n, e, at);
    var m, ops := React(n, e, at), EventOps(n, e, at);
    PendingWithin(n, m.nextId);
    OpsMean(ops, m.nextId, block, blocks, at);
    OpsRenamed(n.timers, ops, block, AlarmsBelow(m.nextId));
  }

  lemma OpsMean(ops: Ops, k: nat, block: TimerId -> RbNode, blocks: set<RbNode>, at: int)
    requires Blocks(block, blocks, k) && forall op :: op in ops ==> Number(op.id) < k && Worded(op, at)
    ensures var calls := AskAll(ops, block, Stamp(at));
      Alarm.Meanings(calls) == RenamedOps(ops, block) && Alarm.Callable(calls, blocks)
    ensures OpsWithin(ops, AlarmsBelow(k))
  {
    hide Ask, RenamedOp, Worded, OneToOne, Number;
    forall i | 0 <= i < |ops|
      ensures var call := Ask(ops[i], block, Stamp(at));
        call.Sane() && call.Meaning() == RenamedOp(ops[i], block) && call.block in blocks
    {
      assert ops[i] in ops;
      AskMeans(ops[i], block, Stamp(at));
    }
  }

  /** If the heap queue holds a node's alarms before an event, it holds them after it. */
  method HandleEvent(queue: Alarm.AlarmQueue, n: Node, e: Event, at: int, block: TimerId -> RbNode)
    requires queue.Valid() && queue.View() == Renamed(n.timers, block)
    requires Inv(n) && Timely(n, e, at) && WordLifetimes(e) && Blocks(block, queue.due.Keys, React(n, e, at).nextId)
    modifies queue`due, queue`history, queue.root, queue.due.Keys
    ensures queue.Valid() && queue.due.Keys == old(queue.due.Keys) && (old(queue.Recorded()) ==> queue.Recorded())
    ensures queue.View() == Renamed(React(n, e, at).timers, block)
  {
    if e.RunAlarms? {
      ReactIsOps(n, e, at);
      BlocksBound(n, block, queue.due.Keys, React(n, e, at).nextId);
      assert React(n, RunAlarms(Readings(Stamps(e.clocks))), Stamp(at).Micros()) == React(n, e, at);
      hide InvBut, React, Bound, Blocks, Renamed, Alarm.NextWait;
      var ran, next := RunCallbacks(queue, n, block, Stamp(at), Stamps(e.clocks), Stamp(at));
    } else {
      EventFits(n, e, at, block, queue.due.Keys);
      hide InvBut, React, EventOps, Blocks, Renamed, AskAll, Apply;
      queue.Perform(AskAll(EventOps(n, e, at), block, Stamp(at)));
    }
  }

  ghost predicate WordRun(run: seq<Timed>) {
    forall i :: 0 <= i < |run| ==> WordLifetimes(run[i].e)
  }

  lemma {:induction false} RunCounts(n: Node, run: seq<Timed>)
    requires Inv(n) && Runs(n, run) && WordRun(run)
    ensures n.nextId <= Outcome(n, run).nextId
    decreases run
  {
    hide InvBut, React, Timely, EventOps, WordLifetimes;
    if run != [] {
      StepKeeps(n, run[0].e, run[0].at);
      ReactIsOps(n, run[0].e, run[0].at);
      RunCounts(React(n, run[0].e, run[0].at), run[1..]);
    }
  }

  /** Over every run of packets, messages and alarm runs the heap queue holds the alarms of the node. */
  method RunEvents(queue: Alarm.AlarmQueue, n: Node, run: seq<Timed>, block: TimerId -> RbNode)
    requires queue.Valid() && queue.View() == Renamed(n.timers, block)
    requires Inv(n) && Runs(n, run) && WordRun(run) && Blocks(block, queue.due.Keys, Outcome(n, run).nextId)
    modifies queue`due, queue`history, queue.root, queue.due.Keys
    ensures queue.Valid() && queue.due.Keys == old(queue.due.Keys) && (old(queue.Recorded()) ==> queue.Recorded())
    ensures queue.View() == Renamed(Outcome(n, run).timers, block)
  {
    var m, rest := n, run;
    hide InvBut, React, Timely, Blocks, Renamed, WordLifetimes;
    while rest != []
      invariant queue.Valid() && queue.due.Keys == old(queue.due.Keys) && (old(queue.Recorded()) ==> queue.Recorded())
      invariant Inv(m) && Runs(m, rest) && WordRun(rest) && Outcome(m, rest) == Outcome(n, run)
      invariant queue.View() == Renamed(m.timers, block)
      decreases |rest|
    {
      var e, at := rest[0].e, rest[0].at;
      var next := React(m, e, at);
      StepKeeps(m, e, at);
      RunCounts(next, rest[1..]);
      FewerBlocks(block, queue.due.Keys, next.nextId, Outcome(n, run).nextId);
      HandleEvent(queue, m, e, at, block);
      m, rest := next, rest[1..];
    }
  }
}
