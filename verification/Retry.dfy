/** The retry machine of `rreq_fifo.c` over whole runs, for every retry limit. */
module Retry {
  import opened Config
  import opened Routes
  import opened AlarmSpec
  import opened Node
  import opened NodeInv
  import opened NodeSteps
  import opened NodeRuns
  import opened Wrappers

  // ----- Runs, callback by callback -----

  /** Something other than an alarm run happens, or one alarm leaves the queue and its callback runs. */
  datatype Micro = Happens(e: Event, at: int) | Fires(id: TimerId, at: int)

  ghost predicate Plain(us: seq<Micro>) {
    forall u :: u in us && u.Happens? ==> !u.e.RunAlarms?
  }

  function Act(n: Node, u: Micro, retries: nat): Node
    requires u.Happens? ==> !u.e.RunAlarms?
  {
    match u
    case Happens(e, at) => React(n, e, at)
    case Fires(id, at) =>
      var n0 := n.(timers := Cancel(n.timers, id));
      match id
      case RouteTimer(rid) => RouteAlarm(n0, rid, at)
      case RequestTimer(eid) => RetryUpTo(n0, eid, at, retries)
  }

  function Acts(n: Node, us: seq<Micro>, retries: nat): Node
    requires Plain(us)
  {
    if us == [] then n else Act(Acts(n, us[..|us| - 1], retries), us[|us| - 1], retries)
  }

  lemma {:induction false} ActsFront(n: Node, us: seq<Micro>, retries: nat)
    requires us != [] && Plain(us)
    ensures Acts(n, us, retries) == Acts(Act(n, us[0], retries), us[1..], retries)
  {
    hide Act;
    if |us| > 1 {
      ActsFront(n, us[..|us| - 1], retries);
      assert us[..|us| - 1][1..] == us[1..][..|us| - 2];
    }
  }

  function Firings(ids: seq<TimerId>, clocks: seq<int>): (us: seq<Micro>)
    requires |ids| == |clocks|
    ensures Plain(us)
  {
    if ids == [] then [] else [Fires(ids[0], clocks[0])] + Firings(ids[1..], clocks[1..])
  }

  /** An alarm run is its callbacks, one after the other. */
  lemma {:induction false} RunIsFirings(n: Node, ids: seq<TimerId>, clocks: seq<int>)
    requires |ids| == |clocks|
    ensures FireAll(n, ids, clocks) == Acts(n, Firings(ids, clocks), RREQ_RETRIES)
    decreases ids
  {
    hide RouteAlarm, RetryUpTo;
    if ids != [] {
      var us := Firings(ids, clocks);
      ActsFront(n, us, RREQ_RETRIES);
      assert us[1..] == Firings(ids[1..], clocks[1..]);
      RunIsFirings(Act(n, us[0], RREQ_RETRIES), ids[1..], clocks[1..]);
    }
  }

  // ----- What leaves a request alone -----

  /** The alarm of `eid` is pending for `due`, or not pending at all. */
  ghost predicate OwnDue(timers: seq<Armed<TimerId>>, eid: nat, pending: bool, due: int) {
    forall e :: e in timers && e.id == RequestTimer(eid) <==> pending && e == Armed(RequestTimer(eid), due)
  }

  /** The state of the request `eid`: its entry, if it is still there, and its alarm. */
  ghost predicate Mine(n: Node, eid: nat, o: Option<Request>, due: int) {
    RequestById(n.requests, eid) == o && eid < n.nextId && OwnDue(n.timers, eid, o.Some?, due)
  }

  lemma ArmOther(timers: seq<Armed<TimerId>>, id: TimerId, at: int, eid: nat, pending: bool, due: int)
    requires OwnDue(timers, eid, pending, due) && id != RequestTimer(eid)
    ensures OwnDue(Arm(timers, id, at), eid, pending, due)
  {
    forall e
      ensures e in Arm(timers, id, at) && e.id == RequestTimer(eid) <==> pending && e == Armed(RequestTimer(eid), due)
    {
      ArmMembers(timers, id, at, e);
    }
  }

  lemma CancelOther(timers: seq<Armed<TimerId>>, id: TimerId, eid: nat, pending: bool, due: int)
    requires OwnDue(timers, eid, pending, due) && id != RequestTimer(eid)
    ensures OwnDue(Cancel(timers, id), eid, pending, due)
  {
    forall e
      ensures e in Cancel(timers, id) && e.id == RequestTimer(eid) <==> pending && e == Armed(RequestTimer(eid), due)
    {
      CancelMembers(timers, id, e);
    }
  }

  lemma {:induction false} WithoutOther(requests: seq<Request>, other: nat, eid: nat)
    requires other != eid
    ensures RequestById(WithoutRequest(requests, other), eid) == RequestById(requests, eid)
  {
    if requests != [] {
      WithoutOther(requests[1..], other, eid);
    }
  }

  lemma {:induction false} WithoutOwn(requests: seq<Request>, eid: nat)
    ensures RequestById(WithoutRequest(requests, eid), eid).None?
  {
    if requests != [] {
      WithoutOwn(requests[1..], eid);
    }
  }

  lemma {:induction false} WithById(requests: seq<Request>, q: Request, eid: nat)
    ensures var o := RequestById(requests, eid);
      RequestById(WithRequest(requests, q), eid) == if o.Some? && q.eid == eid then Some(q) else o
  {
    if requests != [] {
      WithById(requests[1..], q, eid);
    }
  }

  lemma SetMine(n: Node, r: Route, ms: nat, now: int, eid: nat, o: Option<Request>, due: int)
    requires Mine(n, eid, o, due)
    ensures Mine(SetLifetime(n, r, ms, now), eid, o, due)
  {
    ArmOther(n.timers, RouteTimer(r.rid), Due(now, ms), eid, o.Some?, due);
  }

  lemma AddMine(n: Node, r: Route, now: int, eid: nat, o: Option<Request>, due: int)
    requires Mine(n, eid, o, due)
    ensures Mine(AddRoute(n, r, now), eid, o, due)
  {
    hide Find, OwnDue, Arm;
    ArmOther(n.timers, RouteTimer(r.rid), Due(now, ACTIVE_ROUTE_TIMEOUT), eid, o.Some?, due);
  }

  lemma PushMine(n: Node, id: U32, dst: Addr, tries: int, now: int, eid: nat, o: Option<Request>, due: int)
    requires Mine(n, eid, o, due) && tries >= -1
    ensures Mine(PushRequest(n, id, dst, tries, now), eid, o, due)
  {
    hide OwnDue, Arm;
    var ms := if tries < 0 then PATH_DISCOVERY_TIME else BackoffTime(tries);
    ArmOther(n.timers, RequestTimer(n.nextId), Due(now, ms), eid, o.Some?, due);
  }

  lemma DeleteMine(n: Node, other: nat, eid: nat, o: Option<Request>, due: int)
    requires Mine(n, eid, o, due) && other != eid
    ensures Mine(DeleteRequest(n, other), eid, o, due)
  {
    CancelOther(n.timers, RequestTimer(other), eid, o.Some?, due);
    WithoutOther(n.requests, other, eid);
  }

  lemma RefreshMine(n: Node, a: Addr, now: int, eid: nat, o: Option<Request>, due: int)
    requires Mine(n, eid, o, due)
    ensures Mine(RefreshTo(n, a, now), eid, o, due)
  {
    hide Find, Mine, SetLifetime;
    match Find(n.table, a)
    case None =>
    case Some(r) =>
      SetMine(n, r, ACTIVE_ROUTE_TIMEOUT, now, eid, o, due);
      var n1 := SetLifetime(n, r, ACTIVE_ROUTE_TIMEOUT, now);
      if Find(n1.table, r.nextHop).Some? {
        SetMine(n1, Find(n1.table, r.nextHop).value, ACTIVE_ROUTE_TIMEOUT, now, eid, o, due);
      }
  }

  lemma UpdateMine(n: Node, dst: Addr, orig: Addr, now: int, eid: nat, o: Option<Request>, due: int)
    requires Mine(n, eid, o, due)
    ensures Mine(UpdateRoute(n, dst, orig, now), eid, o, due)
  {
    hide Find, Mine, RefreshTo;
    RefreshMine(n, dst, now, eid, o, due);
    RefreshMine(if dst == n.ip then n else RefreshTo(n, dst, now), orig, now, eid, o, due);
  }

  lemma TouchMine(n: Node, from: Addr, now: int, eid: nat, o: Option<Request>, due: int)
    requires Mine(n, eid, o, due)
    ensures Mine(TouchPrevHop(n, from, now), eid, o, due)
  {
    hide Find, SetLifetime, AddRoute, OwnDue;
    match Find(n.table, from)
    case Some(r) => SetMine(n, r, ACTIVE_ROUTE_TIMEOUT, now, eid, o, due);
    case None => AddMine(n.(nextId := n.nextId + 1), NewRoute(n.nextId, from).(nextHop := from), now, eid, o, due);
  }

  lemma ReverseMine(n: Node, from: Addr, p: Message, life: Option<nat>, now: int, eid: nat, o: Option<Request>, due: int)
    requires p.Rreq? && Mine(n, eid, o, due)
    ensures Mine(ReverseRoute(n, from, p, life, now), eid, o, due)
  {
    hide Find, SetLifetime, AddRoute, OwnDue, Arm;
    match Find(n.table, p.orig)
    case Some(r) =>
      var r1 := r.(seqValid := true, nextHop := from, hops := p.hops,
                   seqNum := if Signed(r.seqNum) < Signed(p.origSeq) then p.origSeq else r.seqNum);
      if life.Some? {
        SetMine(n.(table := WithRoute(n.table, r1)), r1, life.value, now, eid, o, due);
      }
    case None =>
      var r := NewRoute(n.nextId, p.orig).(seqNum := p.origSeq, nextHop := from, hops := p.hops, seqValid := true);
      var at := Due(now, match life case Some(ms) => ms case None => 0);
      ArmOther(n.timers, RouteTimer(r.rid), at, eid, o.Some?, due);
      AddMine(n.(nextId := n.nextId + 1, timers := Arm(n.timers, RouteTimer(r.rid), at)), r, now, eid, o, due);
  }

  lemma RreqMine(n: Node, from: Addr, p: Message, life: Option<nat>, now: int, eid: nat, o: Option<Request>, due: int)
    requires p.Rreq? && Mine(n, eid, o, due)
    ensures Mine(ProcessRreq(n, from, p, life, now), eid, o, due)
  {
    hide Find, TouchPrevHop, PushRequest, ReverseRoute, Contains, OwnDue;
    TouchMine(n, from, now, eid, o, due);
    var n1 := TouchPrevHop(n, from, now);
    PushMine(n1, p.id, p.dest, -1, now, eid, o, due);
    ReverseMine(PushRequest(n1, p.id, p.dest, -1, now), from, p, life, now, eid, o, due);
  }

  lemma PassOnMine(n: Node, from: Addr, p: Message, hops: U8, life: Lifetimes, now: int, eid: nat, o: Option<Request>, due: int)
    requires p.Rrep? && Mine(n, eid, o, due)
    ensures Mine(PassOn(n, from, p, hops, life, now), eid, o, due)
  {
    hide Find, SetLifetime, OwnDue;
    if Find(n.table, p.orig).Some? {
      var next := Find(n.table, p.orig).value.nextHop;
      var n1 := n.(sent := n.sent + [Rrep(next, (p.ttl + 0xFF) % 0x100, hops, p.dest, p.destSeq, p.orig)]);
      var n2 := if p.dest == next then n1 else NotePrecursor(n1, p.dest, next);
      if life.next.Some? && Find(n2.table, next).Some? {
        SetMine(n2, Find(n2.table, next).value, life.next.value, now, eid, o, due);
      }
    }
  }

  /** A reply either removes the request, or leaves it as it is. */
  lemma RrepMine(n: Node, from: Addr, p: Message, life: Lifetimes, now: int, eid: nat, o: Option<Request>, due: int)
    requires p.Rrep? && Mine(n, eid, o, due)
    requires o.Some? ==> RequestById(ProcessRrep(n, from, p, life, now).requests, eid).Some?
    ensures Mine(ProcessRrep(n, from, p, life, now), eid, o, due)
  {
    hide Find, TouchPrevHop, AddRoute, SetLifetime, Supersedes, PassOn, OwnDue, WithoutRequest, OldEnough, RequestById;
    TouchMine(n, from, now, eid, o, due);
    var n1 := TouchPrevHop(n, from, now);
    AddMine(n1.(nextId := n1.nextId + 1), NewRoute(n1.nextId, p.dest).(nextHop := from, seqNum := p.destSeq, seqValid := true),
            now, eid, o, due);
    var n2 := ForwardRoute(n1, from, p, now);
    if Find(n2.table, p.dest).Some? {
      var hops := (p.hops + 1) % 0x100;
      var r1 := Find(n2.table, p.dest).value.(seqNum := p.destSeq, seqValid := true, nextHop := from, hops := hops);
      var n2' := n2.(table := WithRoute(n2.table, r1));
      SetMine(n2', r1, life.forward, now, eid, o, due);
      var n3 := SetLifetime(n2', r1, life.forward, now);
      PassOnMine(n3, from, p, hops, life, now, eid, o, due);
      match OldEnough(n3.requests, n3.rreqId, p.dest)
      case None =>
      case Some(q) =>
        OldEnoughIn(n3.requests, n3.rreqId, p.dest);
        WithoutOwn(n3.requests, eid);
        ByIdAbsent(n3.requests, eid);
        if q.eid != eid {
          DeleteMine(n3, q.eid, eid, o, due);
        }
    }
  }

  lemma ByIdAbsent(requests: seq<Request>, eid: nat)
    ensures RequestById(requests, eid).None? <==> forall q :: q in requests ==> q.eid != eid
  {
    RequestByIdIn(requests, eid);
  }

  lemma FindRouteMine(n: Node, dest: Addr, tries: nat, now: int, eid: nat, o: Option<Request>, due: int)
    requires Mine(n, eid, o, due)
    ensures Mine(FindRoute(n, dest, tries, now), eid, o, due)
  {
    hide PushRequest, OwnDue;
    var n1 := n.(seqNum := Increment(n.seqNum), rreqId := Increment(n.rreqId));
    PushMine(n1, n1.rreqId, dest, 0, now, eid, o, due);
  }

  /** What happens apart from alarms leaves a request alone, unless a reply removes it. */
  lemma ReactMine(n: Node, e: Event, now: int, eid: nat, o: Option<Request>, due: int)
    requires Mine(n, eid, o, due) && !e.RunAlarms?
    requires e.Packet? && e.p.Rrep? && o.Some? ==> RequestById(React(n, e, now).requests, eid).Some?
    ensures Mine(React(n, e, now), eid, o, due)
  {
    hide Find, UpdateRoute, FindRoute, Routable, Waiting, ProcessRreq, ProcessRrep, OwnDue;
    match e
    case OutputPacket(id, dest) =>
      UpdateMine(n.(handed := n.handed + [id]), dest, 0, now, eid, o, due);
      FindRouteMine(n.(handed := n.handed + [id], held := [Held(id, dest)] + n.held), dest, 0, now, eid, o, due);
    case ForwardPacket(id, dest, orig) => UpdateMine(n.(handed := n.handed + [id]), dest, orig, now, eid, o, due);
    case Packet(from, p, reverse, life) =>
      if from != n.ip {
        if p.Rreq? {
          RreqMine(n, from, p, reverse, now, eid, o, due);
        } else {
          RrepMine(n, from, p, life, now, eid, o, due);
        }
      }
  }

  /** The callbacks of other alarms leave a request alone. */
  lemma FireMine(n: Node, id: TimerId, at: int, retries: nat, eid: nat, o: Option<Request>, due: int)
    requires Mine(n, eid, o, due) && id != RequestTimer(eid)
    ensures Mine(Act(n, Fires(id, at), retries), eid, o, due)
  {
    CancelOther(n.timers, id, eid, o.Some?, due);
    var n0 := n.(timers := Cancel(n.timers, id));
    match id
    case RouteTimer(rid) =>
      hide Find, ById, Arm, Cancel, OwnDue;
      ArmOther(n0.timers, id, Due(at, DELETE_PERIOD), eid, o.Some?, due);
      CancelOther(n0.timers, id, eid, o.Some?, due);
    case RequestTimer(other) => OtherMine(n0, other, at, retries, eid, o, due);
  }

  lemma OtherMine(n: Node, other: nat, at: int, retries: nat, eid: nat, o: Option<Request>, due: int)
    requires Mine(n, eid, o, due) && other != eid
    ensures Mine(RetryUpTo(n, other, at, retries), eid, o, due)
  {
    hide RequestById, WithRequest, UpdateRoute, FindRoute, DeleteRequest, Arm, OwnDue;
    RequestByIdIn(n.requests, other);
    match RequestById(n.requests, other)
    case None =>
    case Some(q) =>
      DeleteMine(n, other, eid, o, due);
      var q1 := q.(tries := q.tries + 1);
      if 0 <= q.tries < retries {
        WithById(n.requests, q1, eid);
        var n0 := n.(requests := WithRequest(n.requests, q1));
        UpdateMine(n0, q.dst, 0, at, eid, o, due);
        var n1 := UpdateRoute(n0, q.dst, 0, at);
        ArmOther(n1.timers, RequestTimer(other), Due(at, BackoffTime(q1.tries)), eid, o.Some?, due);
        var n2 := n1.(timers := Arm(n1.timers, RequestTimer(other), Due(at, BackoffTime(q1.tries))));
        FindRouteMine(n2, q.dst, q1.tries, at, eid, o, due);
        WithById(FindRoute(n2, q.dst, q1.tries, at).requests, q1.(id := FindRoute(n2, q.dst, q1.tries, at).rreqId), eid);
      }
  }

  // ----- The request's own callback -----

  lemma ArmOwn(timers: seq<Armed<TimerId>>, eid: nat, due: int)
    ensures OwnDue(Arm(timers, RequestTimer(eid), due), eid, true, due)
  {
    forall e
      ensures e in Arm(timers, RequestTimer(eid), due) && e.id == RequestTimer(eid) <==> e == Armed(RequestTimer(eid), due)
    {
      ArmMembers(timers, RequestTimer(eid), due, e);
    }
  }

  /** One more try: one more RREQ is broadcast, and the next wait begins. */
  lemma TryAgain(n: Node, q: Request, at: int, retries: nat)
    requires Mine(n, q.eid, Some(q), at) && 0 <= q.tries < retries
    ensures var m := Act(n, Fires(RequestTimer(q.eid), at), retries);
      && Mine(m, q.eid, Some(q.(tries := q.tries + 1, id := m.rreqId)), Due(at, BackoffTime(q.tries + 1)))
      && m.rreqId == (n.rreqId + 1) % 0x1_0000_0000 && m.seqNum == (n.seqNum + 1) % 0x1_0000_0000
      && m.sent == n.sent + [Rreq(Ring(q.tries + 1), 5, 0, m.rreqId, q.dst, 0, n.ip, m.seqNum)]
  {
    hide RequestById, WithRequest, UpdateRoute, Arm, OwnDue, Cancel, BackoffTime, RingTtl, Ring;
    OwnRings(q.tries + 1);
    var q1, due := q.(tries := q.tries + 1), Due(at, BackoffTime(q.tries + 1));
    var n0 := n.(timers := Cancel(n.timers, RequestTimer(q.eid)), requests := WithRequest(n.requests, q1));
    WithById(n.requests, q1, q.eid);
    UpdateLeaves(n0, q.dst, 0, at);
    var n1 := UpdateRoute(n0, q.dst, 0, at);
    ArmOwn(n1.timers, q.eid, due);
    var n2 := n1.(timers := Arm(n1.timers, RequestTimer(q.eid), due));
    var n3 := FindRoute(n2, q.dst, q1.tries, at);
    WithById(n3.requests, q1.(id := n3.rreqId), q.eid);
  }

  /** The last wait is over: nothing is broadcast, and the request is gone. */
  lemma GiveUp(n: Node, q: Request, at: int, retries: nat)
    requires Mine(n, q.eid, Some(q), at) && q.tries == retries
    ensures var m := Act(n, Fires(RequestTimer(q.eid), at), retries);
      && Mine(m, q.eid, None, 0) && m.sent == n.sent
      && m.held == NotFor(n.held, q.dst) && m.dropped == n.dropped + IdsFor(n.held, q.dst)
  {
    hide RequestById;
    WithoutOwn(n.requests, q.eid);
    var timers := Cancel(n.timers, RequestTimer(q.eid));
    forall e | e in Cancel(timers, RequestTimer(q.eid))
      ensures e.id != RequestTimer(q.eid)
    {
      CancelMembers(timers, RequestTimer(q.eid), e);
    }
  }

  // ----- The whole life of a request -----

  /** The alarm of `eid` only ever rings at its deadline. */
  ghost predicate OnTime(n: Node, us: seq<Micro>, eid: nat, retries: nat)
    requires Plain(us)
  {
    us != [] ==>
      && OnTime(n, us[..|us| - 1], eid, retries)
      && var u := us[|us| - 1];
         u.Fires? && u.id == RequestTimer(eid) ==> Armed(u.id, u.at) in Acts(n, us[..|us| - 1], retries).timers
  }

  /** No reply removes the request. */
  ghost predicate Unanswered(n: Node, us: seq<Micro>, eid: nat, retries: nat)
    requires Plain(us)
  {
    us != [] ==>
      && Unanswered(n, us[..|us| - 1], eid, retries)
      && var u, m := us[|us| - 1], Acts(n, us[..|us| - 1], retries);
         u.Happens? && u.e.Packet? && u.e.p.Rrep? && RequestById(m.requests, eid).Some? ==>
           RequestById(Act(m, u, retries).requests, eid).Some?
  }

  /** One ringing of the request's alarm: when, and what it broadcast. */
  datatype Round = Round(at: int, broadcast: seq<Message>)

  function Rounds(n: Node, us: seq<Micro>, eid: nat, retries: nat): seq<Round>
    requires Plain(us)
  {
    if us == [] then []
    else
      var m, u := Acts(n, us[..|us| - 1], retries), us[|us| - 1];
      Rounds(n, us[..|us| - 1], eid, retries) +
      if u.Fires? && u.id == RequestTimer(eid) then [Round(u.at, More(m.sent, Act(m, u, retries).sent))] else []
  }

  /** What `after` has behind `before`. */
  function More(before: seq<Message>, after: seq<Message>): seq<Message> {
    if |before| <= |after| then after[|before|..] else []
  }

  /** The end of wait number `k`. */
  function Deadline(start: int, k: nat): int {
    start + 1000 * NET_TRAVERSAL_TIME * (Pow2(k + 1) - 1)
  }

  /** A round asks once more for `dst` with the ring of that try, at the end of its wait. */
  ghost predicate RoundOk(r: Round, i: nat, dst: Addr, start: int, retries: nat) {
    && r.at == Deadline(start, i)
    && if i < retries then
         && |r.broadcast| == 1 && r.broadcast[0].Rreq?
         && r.broadcast[0].dest == dst && r.broadcast[0].hops == 0 && r.broadcast[0].ttl == Ring(i + 1)
       else r.broadcast == []
  }

  /** After `f` rounds: still waiting, or given up. */
  ghost predicate LifeOk(m: Node, rounds: seq<Round>, eid: nat, dst: Addr, start: int, retries: nat) {
    var f, o := |rounds|, RequestById(m.requests, eid);
    && f <= retries + 1
    && (forall i {:trigger RoundOk(rounds[i], i, dst, start, retries)} ::
          0 <= i < f ==> RoundOk(rounds[i], i, dst, start, retries))
    && if f <= retries then
         o.Some? && o.value.eid == eid && o.value.dst == dst && o.value.tries == f && Mine(m, eid, o, Deadline(start, f))
       else Mine(m, eid, None, 0)
  }

  lemma {:induction false} PowGrows(k: nat, retries: nat)
    requires k <= retries
    ensures Pow2(k) <= Pow2(retries)
  {
    if k < retries {
      PowGrows(k, retries - 1);
    }
  }

  /** While they fit a word, the waits double. */
  lemma NextDeadline(start: int, k: nat, retries: nat)
    requires k + 1 <= retries && Pow2(retries) * NET_TRAVERSAL_TIME < 0x1_0000_0000
    ensures Due(Deadline(start, k), BackoffTime(k + 1)) == Deadline(start, k + 1)
  {
    PowGrows(k + 1, retries);
    assert BackoffTime(k + 1) == Pow2(k + 1) * NET_TRAVERSAL_TIME;
  }

  /** The request is broadcast when it is made, with the smallest ring. */
  ghost predicate AskedFirst(n: Node, n1: Node, dst: Addr) {
    && |n1.sent| == |n.sent| + 1 && n1.sent[..|n.sent|] == n.sent
    && var p := n1.sent[|n.sent|]; p.Rreq? && p.dest == dst && p.orig == n.ip && p.hops == 0 && p.ttl == 3
  }

  lemma FindRouteAsks(n: Node, dst: Addr, start: int)
    ensures AskedFirst(n, FindRoute(n, dst, 0, start), dst)
  {
    hide Arm, BackoffTime;
  }

  /** Unless a reply removes it, a request of ours is broadcast once when it is made and once at the end
      of each of the first `retries` waits, which double; at the end of the next one it is given up. */
  lemma {:induction false} Lifecycle(n: Node, dst: Addr, start: int, us: seq<Micro>, retries: nat)
    requires Pow2(retries) * NET_TRAVERSAL_TIME < 0x1_0000_0000
    requires Plain(us)
    requires var n1 := FindRoute(n, dst, 0, start);
      OnTime(n1, us, n.nextId, retries) && Unanswered(n1, us, n.nextId, retries)
    ensures var n1 := FindRoute(n, dst, 0, start);
      && AskedFirst(n, n1, dst)
      && LifeOk(Acts(n1, us, retries), Rounds(n1, us, n.nextId, retries), n.nextId, dst, start, retries)
  {
    hide AskedFirst;
    FindRouteAsks(n, dst, start);
    var n1, eid := FindRoute(n, dst, 0, start), n.nextId;
    if us == [] {
      LifeBegins(n, dst, start, retries);
    } else {
      var before, u := us[..|us| - 1], us[|us| - 1];
      Lifecycle(n, dst, start, before, retries);
      var m, rounds := Acts(n1, before, retries), Rounds(n1, before, eid, retries);
      if u.Fires? && u.id == RequestTimer(eid) {
        LifeRound(m, rounds, eid, dst, start, retries, u.at);
      } else {
        LifeStays(m, rounds, eid, dst, start, retries, u);
      }
    }
  }

  lemma LifeBegins(n: Node, dst: Addr, start: int, retries: nat)
    ensures LifeOk(FindRoute(n, dst, 0, start), [], n.nextId, dst, start, retries)
  {
    ArmOwn(n.timers, n.nextId, Due(start, BackoffTime(0)));
    assert BackoffTime(0) == NET_TRAVERSAL_TIME;
    assert Pow2(1) == 2;
  }

  lemma LifeStays(m: Node, rounds: seq<Round>, eid: nat, dst: Addr, start: int, retries: nat, u: Micro)
    requires LifeOk(m, rounds, eid, dst, start, retries) && !(u.Fires? && u.id == RequestTimer(eid))
    requires u.Happens? ==> !u.e.RunAlarms?
    requires u.Happens? && u.e.Packet? && u.e.p.Rrep? && RequestById(m.requests, eid).Some? ==>
      RequestById(Act(m, u, retries).requests, eid).Some?
    ensures LifeOk(Act(m, u, retries), rounds, eid, dst, start, retries)
  {
    hide RoundOk, React, RequestById, RouteAlarm, RetryUpTo;
    var o, due := RequestById(m.requests, eid), if |rounds| <= retries then Deadline(start, |rounds|) else 0;
    match u
    case Happens(e, at) => ReactMine(m, e, at, eid, o, due);
    case Fires(id, at) => FireMine(m, id, at, retries, eid, o, due);
  }

  lemma LifeRound(m: Node, rounds: seq<Round>, eid: nat, dst: Addr, start: int, retries: nat, at: int)
    requires Pow2(retries) * NET_TRAVERSAL_TIME < 0x1_0000_0000
    requires LifeOk(m, rounds, eid, dst, start, retries) && Armed(RequestTimer(eid), at) in m.timers
    ensures var m1 := Act(m, Fires(RequestTimer(eid), at), retries);
      LifeOk(m1, rounds + [Round(at, More(m.sent, m1.sent))], eid, dst, start, retries)
  {
    hide RequestById, RetryUpTo, BackoffTime, Pow2, Ring;
    var f := |rounds|;
    var m1 := Act(m, Fires(RequestTimer(eid), at), retries);
    var more := rounds + [Round(at, More(m.sent, m1.sent))];
    assert f <= retries && at == Deadline(start, f);
    var q := RequestById(m.requests, eid).value;
    if f < retries {
      TryAgain(m, q, at, retries);
      NextDeadline(start, f, retries);
    } else {
      GiveUp(m, q, at, retries);
    }
    assert RoundOk(more[f], f, dst, start, retries);
    forall i | 0 <= i < |more|
      ensures RoundOk(more[i], i, dst, start, retries)
    {
      assert i < f ==> more[i] == rounds[i] && RoundOk(rounds[i], i, dst, start, retries);
    }
  }

  // ----- The request of somebody else -----

  /** The entry is there with its one deadline, or its alarm has rung, at that time and without a word. */
  ghost predicate ForeignOk(m: Node, rounds: seq<Round>, q: Request, start: int) {
    if rounds == [] then Mine(m, q.eid, Some(q), Due(start, PATH_DISCOVERY_TIME))
    else Mine(m, q.eid, None, 0) && rounds == [Round(Due(start, PATH_DISCOVERY_TIME), [])]
  }

  lemma ForeignRound(m: Node, q: Request, start: int, retries: nat)
    requires q.tries < 0 && Mine(m, q.eid, Some(q), Due(start, PATH_DISCOVERY_TIME))
    ensures var at := Due(start, PATH_DISCOVERY_TIME);
      var m1 := Act(m, Fires(RequestTimer(q.eid), at), retries);
      Mine(m1, q.eid, None, 0) && m1.sent == m.sent && m1.held == m.held
  {
    hide RequestById;
    WithoutOwn(m.requests, q.eid);
    var timers := Cancel(m.timers, RequestTimer(q.eid));
    forall e | e in Cancel(timers, RequestTimer(q.eid))
      ensures e.id != RequestTimer(q.eid)
    {
      CancelMembers(timers, RequestTimer(q.eid), e);
    }
  }

  lemma ForeignStays(m: Node, rounds: seq<Round>, q: Request, start: int, retries: nat, u: Micro)
    requires ForeignOk(m, rounds, q, start) && !(u.Fires? && u.id == RequestTimer(q.eid))
    requires u.Happens? ==> !u.e.RunAlarms?
    requires u.Happens? && u.e.Packet? && u.e.p.Rrep? && RequestById(m.requests, q.eid).Some? ==>
      RequestById(Act(m, u, retries).requests, q.eid).Some?
    ensures ForeignOk(Act(m, u, retries), rounds, q, start)
  {
    hide React, RequestById, RouteAlarm, RetryUpTo;
    var o := if rounds == [] then Some(q) else None;
    var due := if rounds == [] then Due(start, PATH_DISCOVERY_TIME) else 0;
    match u
    case Happens(e, at) => ReactMine(m, e, at, q.eid, o, due);
    case Fires(other, at) => FireMine(m, other, at, retries, q.eid, o, due);
  }

  lemma ForeignRings(m: Node, rounds: seq<Round>, q: Request, start: int, retries: nat, at: int)
    requires q.tries < 0 && ForeignOk(m, rounds, q, start) && Armed(RequestTimer(q.eid), at) in m.timers
    ensures var m1 := Act(m, Fires(RequestTimer(q.eid), at), retries);
      ForeignOk(m1, rounds + [Round(at, More(m.sent, m1.sent))], q, start)
  {
    assert rounds == [] && at == Due(start, PATH_DISCOVERY_TIME);
    hide Act, Mine;
    ForeignRound(m, q, start, retries);
    assert More(m.sent, m.sent) == [];
    assert rounds + [Round(at, [])] == [Round(at, [])];
  }

  lemma ForeignBegins(n: Node, id: U32, dst: Addr, start: int)
    ensures ForeignOk(PushRequest(n, id, dst, -1, start), [], Request(n.nextId, id, dst, -1), start)
  {
    ArmOwn(n.timers, n.nextId, Due(start, PATH_DISCOVERY_TIME));
  }

  /** A RREQ of somebody else stays buffered for exactly the path discovery time, unless a reply to a
      request of our own for the same destination removes it. */
  lemma {:induction false} ForeignLifecycle(n: Node, id: U32, dst: Addr, start: int, us: seq<Micro>, retries: nat)
    requires Plain(us)
    requires var n1 := PushRequest(n, id, dst, -1, start);
      OnTime(n1, us, n.nextId, retries) && Unanswered(n1, us, n.nextId, retries)
    ensures var n1 := PushRequest(n, id, dst, -1, start);
      ForeignOk(Acts(n1, us, retries), Rounds(n1, us, n.nextId, retries), Request(n.nextId, id, dst, -1), start)
  {
    hide PushRequest, Act, ForeignOk;
    var n1, q := PushRequest(n, id, dst, -1, start), Request(n.nextId, id, dst, -1);
    if us == [] {
      ForeignBegins(n, id, dst, start);
    } else {
      var before, u := us[..|us| - 1], us[|us| - 1];
      ForeignLifecycle(n, id, dst, start, before, retries);
      var m, rounds := Acts(n1, before, retries), Rounds(n1, before, q.eid, retries);
      if u.Fires? && u.id == RequestTimer(q.eid) {
        ForeignRings(m, rounds, q, start, retries, u.at);
      } else {
        ForeignStays(m, rounds, q, start, retries, u);
        assert rounds + [] == rounds;
      }
    }
  }

  // ----- Whole runs -----

  /** A run of the node, callback by callback. */
  function MicrosOf(n: Node, run: seq<Timed>): (us: seq<Micro>)
    requires Runs(n, run)
    ensures Plain(us)
    decreases run
  {
    if run == [] then []
    else
      var e, at := run[0].e, run[0].at;
      (if e.RunAlarms? then Firings(DueLatestFirst(n.timers, at), e.clocks) else [Happens(e, at)])
      + MicrosOf(React(n, e, at), run[1..])
  }

  lemma {:induction false} ActsMore(n: Node, a: seq<Micro>, b: seq<Micro>, retries: nat)
    requires Plain(a) && Plain(b)
    ensures Plain(a + b) && Acts(n, a + b, retries) == Acts(Acts(n, a, retries), b, retries)
  {
    hide Act;
    if b == [] {
      assert a + b == a;
    } else {
      var c, last := b[..|b| - 1], b[|b| - 1];
      ActsMore(n, a, c, retries);
      assert (a + b)[..|a + b| - 1] == a + c && (a + b)[|a + b| - 1] == last;
    }
  }

  lemma {:induction false} RunIsMicros(n: Node, run: seq<Timed>)
    requires Runs(n, run)
    ensures Outcome(n, run) == Acts(n, MicrosOf(n, run), RREQ_RETRIES)
    decreases run
  {
    hide RouteAlarm, RetryUpTo, FireAll, Output, Forward, Receive;
    if run != [] {
      var e, at := run[0].e, run[0].at;
      var m := React(n, e, at);
      var us := if e.RunAlarms? then Firings(DueLatestFirst(n.timers, at), e.clocks) else [Happens(e, at)];
      assert Acts(n, us, RREQ_RETRIES) == m by {
        if e.RunAlarms? {
          RunIsFirings(n, DueLatestFirst(n.timers, at), e.clocks);
        } else {
          assert us[..0] == [];
        }
      }
      ActsMore(n, us, MicrosOf(m, run[1..]), RREQ_RETRIES);
      RunIsMicros(m, run[1..]);
    }
  }

  /** If the alarm of `eid` is among those of an alarm run, its callback runs when it is due. */
  ghost predicate Punctual(n: Node, e: Event, now: int, eid: nat)
    requires Timely(n, e, now)
  {
    e.RunAlarms? ==>
      var ids := DueLatestFirst(n.timers, now);
      forall i :: 0 <= i < |ids| && ids[i] == RequestTimer(eid) ==> Armed(ids[i], e.clocks[i]) in n.timers
  }

  /** The event does not remove the request as an answer. */
  ghost predicate LeavesOpen(n: Node, e: Event, now: int, eid: nat)
    requires Timely(n, e, now)
  {
    e.Packet? && e.p.Rrep? && RequestById(n.requests, eid).Some? ==> RequestById(React(n, e, now).requests, eid).Some?
  }

  ghost predicate Undisturbed(n: Node, run: seq<Timed>, eid: nat)
    requires Runs(n, run)
    decreases run
  {
    run != [] ==>
      && Punctual(n, run[0].e, run[0].at, eid) && LeavesOpen(n, run[0].e, run[0].at, eid)
      && Undisturbed(React(n, run[0].e, run[0].at), run[1..], eid)
  }

  lemma {:induction false} OnTimeMore(n: Node, a: seq<Micro>, b: seq<Micro>, eid: nat, retries: nat)
    requires Plain(a) && Plain(b) && OnTime(n, a, eid, retries) && OnTime(Acts(n, a, retries), b, eid, retries)
    requires Unanswered(n, a, eid, retries) && Unanswered(Acts(n, a, retries), b, eid, retries)
    ensures Plain(a + b) && OnTime(n, a + b, eid, retries) && Unanswered(n, a + b, eid, retries)
  {
    hide Act;
    if b == [] {
      assert a + b == a;
    } else {
      var c, last := b[..|b| - 1], b[|b| - 1];
      OnTimeMore(n, a, c, eid, retries);
      ActsMore(n, a, c, retries);
      assert (a + b)[..|a + b| - 1] == a + c && (a + b)[|a + b| - 1] == last;
    }
  }

  /** Firings of other alarms. */
  lemma {:induction false} OthersOnTime(n: Node, ids: seq<TimerId>, clocks: seq<int>, eid: nat, retries: nat)
    requires |ids| == |clocks| && RequestTimer(eid) !in ids
    ensures OnTime(n, Firings(ids, clocks), eid, retries) && Unanswered(n, Firings(ids, clocks), eid, retries)
    decreases ids
  {
    hide Act;
    if ids != [] {
      var u := Fires(ids[0], clocks[0]);
      OthersOnTime(Act(n, u, retries), ids[1..], clocks[1..], eid, retries);
      OneFiring(n, u, eid, retries);
      OnTimeMore(n, [u], Firings(ids[1..], clocks[1..]), eid, retries);
    }
  }

  lemma OneFiring(n: Node, u: Micro, eid: nat, retries: nat)
    requires u.Fires? && (u.id == RequestTimer(eid) ==> Armed(u.id, u.at) in n.timers)
    ensures Plain([u]) && Acts(n, [u], retries) == Act(n, u, retries)
    ensures OnTime(n, [u], eid, retries) && Unanswered(n, [u], eid, retries)
  {
    hide Act;
    assert [u][..0] == [];
  }

  /** In an alarm run the request's alarm rings once at most, with the deadline it had at the start. */
  lemma {:induction false} RunOnTime(n: Node, ids: seq<TimerId>, clocks: seq<int>, eid: nat, o: Option<Request>,
                                     due: int, retries: nat)
    requires |ids| == |clocks| && Mine(n, eid, o, due)
    requires forall i, j :: 0 <= i < j < |ids| ==> ids[i] != ids[j]
    requires forall i :: 0 <= i < |ids| && ids[i] == RequestTimer(eid) ==> o.Some? && clocks[i] == due
    ensures OnTime(n, Firings(ids, clocks), eid, retries) && Unanswered(n, Firings(ids, clocks), eid, retries)
    decreases ids
  {
    hide Act;
    if ids != [] {
      var u := Fires(ids[0], clocks[0]);
      if ids[0] == RequestTimer(eid) {
        OthersOnTime(Act(n, u, retries), ids[1..], clocks[1..], eid, retries);
      } else {
        FireMine(n, ids[0], clocks[0], retries, eid, o, due);
        RunOnTime(Act(n, u, retries), ids[1..], clocks[1..], eid, o, due, retries);
      }
      OneFiring(n, u, eid, retries);
      OnTimeMore(n, [u], Firings(ids[1..], clocks[1..]), eid, retries);
    }
  }

  /** The request's own alarm, ringing when it is due, leaves the request in one state or another. */
  lemma OwnMine(n: Node, q: Request, due: int) returns (o: Option<Request>, next: int)
    requires Mine(n, q.eid, Some(q), due) && q.tries <= RREQ_RETRIES
    ensures Mine(Act(n, Fires(RequestTimer(q.eid), due), RREQ_RETRIES), q.eid, o, next)
  {
    hide Act, Mine, BackoffTime;
    if q.tries < 0 {
      ForeignRound(n, q, due - 1000 * PATH_DISCOVERY_TIME, RREQ_RETRIES);
      o, next := None, 0;
    } else if q.tries < RREQ_RETRIES {
      TryAgain(n, q, due, RREQ_RETRIES);
      o := Some(q.(tries := q.tries + 1, id := Act(n, Fires(RequestTimer(q.eid), due), RREQ_RETRIES).rreqId));
      next := Due(due, BackoffTime(q.tries + 1));
    } else {
      GiveUp(n, q, due, RREQ_RETRIES);
      o, next := None, 0;
    }
  }

  lemma {:induction false} OthersMine(n: Node, ids: seq<TimerId>, clocks: seq<int>, eid: nat, o: Option<Request>, due: int)
    requires |ids| == |clocks| && Mine(n, eid, o, due) && RequestTimer(eid) !in ids
    ensures Mine(Acts(n, Firings(ids, clocks), RREQ_RETRIES), eid, o, due)
    decreases ids
  {
    hide Act, Mine;
    if ids != [] {
      var us := Firings(ids, clocks);
      FireMine(n, ids[0], clocks[0], RREQ_RETRIES, eid, o, due);
      ActsFront(n, us, RREQ_RETRIES);
      assert us[1..] == Firings(ids[1..], clocks[1..]);
      OthersMine(Act(n, us[0], RREQ_RETRIES), ids[1..], clocks[1..], eid, o, due);
    }
  }

  lemma {:induction false} FiredMine(n: Node, ids: seq<TimerId>, clocks: seq<int>, eid: nat, o: Option<Request>, due: int)
    returns (p: Option<Request>, next: int)
    requires |ids| == |clocks| && Mine(n, eid, o, due)
    requires o.Some? ==> o.value.eid == eid && o.value.tries <= RREQ_RETRIES
    requires forall i, j :: 0 <= i < j < |ids| ==> ids[i] != ids[j]
    requires forall i :: 0 <= i < |ids| && ids[i] == RequestTimer(eid) ==> o.Some? && clocks[i] == due
    ensures Mine(Acts(n, Firings(ids, clocks), RREQ_RETRIES), eid, p, next)
    decreases ids
  {
    hide Act, Mine;
    p, next := o, due;
    if ids != [] {
      var us := Firings(ids, clocks);
      ActsFront(n, us, RREQ_RETRIES);
      assert us[1..] == Firings(ids[1..], clocks[1..]);
      var m := Act(n, us[0], RREQ_RETRIES);
      if ids[0] == RequestTimer(eid) {
        p, next := OwnMine(n, o.value, due);
        OthersMine(m, ids[1..], clocks[1..], eid, p, next);
      } else {
        FireMine(n, ids[0], clocks[0], RREQ_RETRIES, eid, o, due);
        p, next := FiredMine(m, ids[1..], clocks[1..], eid, o, due);
      }
    }
  }

  /** One event of a run: what it is as callbacks, and that they are on time. */
  lemma EventOnTime(n: Node, e: Event, now: int, eid: nat, o: Option<Request>, due: int)
    returns (us: seq<Micro>, p: Option<Request>, next: int)
    requires Inv(n) && Mine(n, eid, o, due) && Timely(n, e, now) && Punctual(n, e, now, eid) && LeavesOpen(n, e, now, eid)
    ensures us == if e.RunAlarms? then Firings(DueLatestFirst(n.timers, now), e.clocks) else [Happens(e, now)]
    ensures Plain(us) && OnTime(n, us, eid, RREQ_RETRIES) && Unanswered(n, us, eid, RREQ_RETRIES)
    ensures Acts(n, us, RREQ_RETRIES) == React(n, e, now) && Mine(React(n, e, now), eid, p, next)
  {
    if e.RunAlarms? {
      var ids := DueLatestFirst(n.timers, now);
      DueExactly(n.timers, now);
      RequestByIdIn(n.requests, eid);
      forall i | 0 <= i < |ids| && ids[i] == RequestTimer(eid)
        ensures o.Some? && e.clocks[i] == due
      {
        assert Armed(ids[i], e.clocks[i]) in n.timers;
      }
      hide InvBut, Mine, FireAll, Acts;
      us := Firings(ids, e.clocks);
      RunOnTime(n, ids, e.clocks, eid, o, due, RREQ_RETRIES);
      RunIsFirings(n, ids, e.clocks);
      p, next := FiredMine(n, ids, e.clocks, eid, o, due);
    } else {
      us, p, next := [Happens(e, now)], o, due;
      assert us[..0] == [];
      ReactMine(n, e, now, eid, o, due);
    }
  }

  lemma {:induction false} RunUndisturbed(n: Node, run: seq<Timed>, eid: nat, o: Option<Request>, due: int)
    requires Inv(n) && Mine(n, eid, o, due) && Runs(n, run) && Undisturbed(n, run, eid)
    ensures OnTime(n, MicrosOf(n, run), eid, RREQ_RETRIES) && Unanswered(n, MicrosOf(n, run), eid, RREQ_RETRIES)
    decreases run
  {
    hide InvBut, Mine, React, Timely, Punctual, LeavesOpen, OnTime, Unanswered;
    if run == [] {
      NothingOnTime(n, eid);
    } else {
      var e, at := run[0].e, run[0].at;
      var us, p, next := EventOnTime(n, e, at, eid, o, due);
      StepKeeps(n, e, at);
      RunUndisturbed(React(n, e, at), run[1..], eid, p, next);
      OnTimeMore(n, us, MicrosOf(React(n, e, at), run[1..]), eid, RREQ_RETRIES);
    }
  }

  lemma NothingOnTime(n: Node, eid: nat)
    ensures OnTime(n, [], eid, RREQ_RETRIES) && Unanswered(n, [], eid, RREQ_RETRIES)
  {
  }

  /** The life of a request over any run of the node: packets, messages and alarm runs in any order, its
      own alarm ringing when it is due, and no reply removing it. */
  lemma RunLifecycle(n: Node, dst: Addr, start: int, run: seq<Timed>)
    requires Inv(n) && !Waiting(n.requests, dst)
    requires Runs(FindRoute(n, dst, 0, start), run) && Undisturbed(FindRoute(n, dst, 0, start), run, n.nextId)
    ensures var n1 := FindRoute(n, dst, 0, start);
      && AskedFirst(n, n1, dst)
      && LifeOk(Outcome(n1, run), Rounds(n1, MicrosOf(n1, run), n.nextId, RREQ_RETRIES), n.nextId, dst, start, RREQ_RETRIES)
  {
    var n1, eid := FindRoute(n, dst, 0, start), n.nextId;
    assert Inv(n1) by { FindRouteKeeps(n, dst, 0, start); }
    LifeBegins(n, dst, start, RREQ_RETRIES);
    assert Pow2(RREQ_RETRIES) == 4;
    hide InvBut, FindRoute, Mine, Runs, Undisturbed, OnTime, Unanswered, Outcome, MicrosOf, RoundOk, AskedFirst;
    RunUndisturbed(n1, run, eid, RequestById(n1.requests, eid), Deadline(start, 0));
    RunIsMicros(n1, run);
    Lifecycle(n, dst, start, MicrosOf(n1, run), RREQ_RETRIES);
  }
}
