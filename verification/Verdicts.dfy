/** What becomes of a packet taken from the kernel, and which routes it keeps alive. */
module Verdicts {
  import opened Config
  import opened Routes
  import opened AlarmSpec
  import opened Node
  import opened NodeInv
  import opened NodeSteps
  import opened NodeRuns
  import opened Sights
  import opened Wrappers

  /** The table has a usable entry for the address, or it is our own. */
  ghost predicate Reachable(n: Node, a: Addr) {
    a == n.ip || exists r :: r in n.table && r.dst == a && r.valid
  }

  lemma ReachableIsRoutable(n: Node, a: Addr)
    requires Inv(n)
    ensures Reachable(n, a) <==> Routable(n, a)
  {
    hide Find;
    FindExact(n.table, n.nextId, a);
    forall r | r in n.table && r.dst == a
      ensures Find(n.table, a) == Some(r)
    {
      EntryOk(n.table, n.nextId, r);
      FindIsLookup(n.table, 0, a, r);
    }
  }

  /** A packet of our own is accepted at once exactly if it is for everybody, for us, or for a destination
      with a valid entry.  Otherwise it is held, and a RREQ goes out unless one of ours for the destination
      is waited for. */
  lemma OutputVerdict(n: Node, id: U32, dest: Addr, now: int)
    requires Inv(n)
    ensures var m := React(n, OutputPacket(id, dest), now);
      && m.handed == n.handed + [id] && m.dropped == n.dropped
      && (dest == n.broadcast || Reachable(n, dest) ==>
            m.accepted == n.accepted + [id] && m.held == n.held && m.sent == n.sent && m.requests == n.requests)
      && (dest != n.broadcast && !Reachable(n, dest) ==>
            && m.accepted == n.accepted && m.held == [Held(id, dest)] + n.held && m.table == n.table
            && Waiting(m.requests, dest)
            && (Waiting(n.requests, dest) ==> m.sent == n.sent && m.requests == n.requests && m.timers == n.timers)
            && (!Waiting(n.requests, dest) ==>
                  && m.rreqId == (n.rreqId + 1) % 0x1_0000_0000 && m.seqNum == (n.seqNum + 1) % 0x1_0000_0000
                  && m.sent == n.sent + [Rreq(3, 5, 0, m.rreqId, dest, 0, n.ip, m.seqNum)]))
  {
    ReachableIsRoutable(n, dest);
    hide InvBut, Find, UpdateRoute, Waiting, Routable, Reachable, Arm, BackoffTime;
    var n0 := n.(handed := n.handed + [id]);
    UpdateLeaves(n0, dest, 0, now);
    assert dest != n.broadcast ==> Routable(n0, dest) == Routable(n, dest) by { SameRoutable(n, n0, dest); }
    PushedWaits(n.requests, Request(n.nextId, Increment(n.rreqId), dest, 0), dest);
  }

  lemma SameRoutable(n: Node, m: Node, a: Addr)
    requires m.table == n.table && m.ip == n.ip
    ensures Routable(m, a) == Routable(n, a)
  {
  }

  /** A packet that passes through is always accepted, and nothing is sent. */
  lemma ForwardVerdict(n: Node, id: U32, dest: Addr, orig: Addr, now: int)
    ensures var m := React(n, ForwardPacket(id, dest, orig), now);
      && m.handed == n.handed + [id] && m.accepted == n.accepted + [id] && m.dropped == n.dropped && m.held == n.held
      && m.sent == n.sent && m.requests == n.requests
  {
    hide UpdateRoute;
    UpdateLeaves(n.(handed := n.handed + [id]), dest, orig, now);
  }

  // ----- Routes in use -----

  /** The entry of `b`, or that of its next hop. */
  predicate InUse(n: Node, b: Addr, a: Addr) {
    var s := See(n, b, 0);
    s.Sight? && (a == b || a == s.nextHop)
  }

  /** An entry in use is valid for the active route timeout. */
  function UsedSight(s: Sight, used: bool, now: int, due: int): Sight {
    if used && s.Sight? then s.(valid := true, rings := due == now + 1000 * ACTIVE_ROUTE_TIMEOUT) else s
  }

  lemma RefreshSees(n: Node, b: Addr, now: int, a: Addr, due: int)
    requires Tabled(n)
    ensures var m := RefreshTo(n, b, now);
      Tabled(m) && See(m, a, due) == UsedSight(See(n, a, due), InUse(n, b, a), now, due)
  {
    hide TableOk, Find, SetLifetime, Covers;
    match Find(n.table, b)
    case None =>
    case Some(r) =>
      var n1 := SetLifetime(n, r, ACTIVE_ROUTE_TIMEOUT, now);
      SetSees(n, b, ACTIVE_ROUTE_TIMEOUT, now, a, due);
      SetSees(n, b, ACTIVE_ROUTE_TIMEOUT, now, r.nextHop, due);
      if r.nextHop != b && Find(n1.table, r.nextHop).Some? {
        SetSees(n1, r.nextHop, ACTIVE_ROUTE_TIMEOUT, now, a, due);
      }
  }

  /** Which entries a routed packet uses: those of its destination, unless that is us, and of its originator,
      if it has one, and those of their next hops. */
  predicate Uses(n: Node, dest: Addr, orig: Addr, a: Addr) {
    (dest != n.ip && InUse(n, dest, a)) || (orig != 0 && InUse(n, orig, a))
  }

  lemma RoutedSees(n: Node, dest: Addr, orig: Addr, now: int, a: Addr, due: int)
    requires Tabled(n)
    ensures var m := UpdateRoute(n, dest, orig, now);
      && Tabled(m)
      && See(m, a, due) == UsedSight(See(n, a, due), Routable(n, dest) && Uses(n, dest, orig, a), now, due)
  {
    hide TableOk, Find, RefreshTo, See, Routable;
    if Routable(n, dest) {
      var n1 := if dest == n.ip then n else RefreshTo(n, dest, now);
      RefreshSees(n, dest, now, a, due);
      RefreshSees(n, dest, now, orig, 0);
      RefreshSees(n1, orig, now, a, due);
    }
  }

  /** A packet of our own that has a valid entry keeps alive exactly the routes it uses. */
  lemma OutputKeepsAlive(n: Node, id: U32, dest: Addr, now: int, a: Addr, due: int)
    requires Inv(n)
    ensures See(React(n, OutputPacket(id, dest), now), a, due) ==
      UsedSight(See(n, a, due), dest != n.broadcast && Reachable(n, dest) && Uses(n, dest, 0, a), now, due)
  {
    ReachableIsRoutable(n, dest);
    assert Tabled(n);
    hide InvBut, TableOk, Find, UpdateRoute, Waiting, Reachable, Routable, See, Uses, FindRoute;
    var n0 := n.(handed := n.handed + [id]);
    LogSees(n, n0, dest, 0, a, due);
    RoutedSees(n0, dest, 0, now, a, due);
    var n1 := n0.(held := [Held(id, dest)] + n0.held);
    AskingSees(n1, dest, now, a, due);
    AcceptSees(n0, id, a, due);
    AcceptSees(UpdateRoute(n0, dest, 0, now), id, a, due);
    HoldSees(n, n1, a, due);
  }

  lemma LogSees(n: Node, m: Node, dest: Addr, orig: Addr, a: Addr, due: int)
    requires m == n.(handed := m.handed)
    ensures See(m, a, due) == See(n, a, due) && Uses(m, dest, orig, a) == Uses(n, dest, orig, a)
    ensures Routable(m, dest) == Routable(n, dest)
  {
  }

  lemma AcceptSees(n: Node, id: U32, a: Addr, due: int)
    ensures See(n.(accepted := n.accepted + [id]), a, due) == See(n, a, due)
  {
  }

  lemma HoldSees(n: Node, m: Node, a: Addr, due: int)
    requires m.table == n.table && m.timers == n.timers
    ensures See(m, a, due) == See(n, a, due)
  {
  }

  lemma AskingSees(n: Node, dest: Addr, now: int, a: Addr, due: int)
    ensures See(FindRoute(n, dest, 0, now), a, due) == See(n, a, due)
  {
    hide Find, Arm, BackoffTime, RingTtl;
    if Find(n.table, a).Some? {
      ArmMembers(n.timers, RequestTimer(n.nextId), Due(now, BackoffTime(0)),
                 Armed(RouteTimer(Find(n.table, a).value.rid), due));
    }
  }

  /** So does one that passes through, for its originator as well. */
  lemma ForwardKeepsAlive(n: Node, id: U32, dest: Addr, orig: Addr, now: int, a: Addr, due: int)
    requires Inv(n)
    ensures See(React(n, ForwardPacket(id, dest, orig), now), a, due) ==
      UsedSight(See(n, a, due), dest != n.broadcast && Reachable(n, dest) && Uses(n, dest, orig, a), now, due)
  {
    ReachableIsRoutable(n, dest);
    assert Tabled(n);
    hide InvBut, TableOk, Find, UpdateRoute, Reachable, Routable, See, Uses;
    var n0 := n.(handed := n.handed + [id]);
    LogSees(n, n0, dest, orig, a, due);
    RoutedSees(n0, dest, orig, now, a, due);
    AcceptSees(n0, id, a, due);
    AcceptSees(UpdateRoute(n0, dest, orig, now), id, a, due);
  }

  /** A callback of a request touches routes only when it tries again although there is a valid one: then
      it keeps alive those that a packet to the destination would use. */
  lemma RetryKeepsAlive(n: Node, eid: nat, now: int, a: Addr, due: int)
    requires Tabled(n)
    ensures var o := RequestById(n.requests, eid);
      See(Fire(n, RequestTimer(eid), now), a, due) ==
        UsedSight(See(n, a, due),
                  o.Some? && 0 <= o.value.tries < RREQ_RETRIES && Reached(n, o.value.dst) && Uses(n, o.value.dst, 0, a),
                  now, due)
  {
    hide TableOk, Find, UpdateRoute, See, Uses, RequestById, WithRequest, WithoutRequest, Arm, Cancel, FindRoute, BackoffTime;
    match RequestById(n.requests, eid)
    case None =>
    case Some(q) =>
      if q.tries < 0 || q.tries >= RREQ_RETRIES {
        DisarmSees(n, eid, a, due);
        var n1 := DeleteRequest(n, eid);
        HoldSees(n1, DropPackets(n1, q.dst), a, due);
      } else {
        var q1 := q.(tries := q.tries + 1);
        var n0 := n.(requests := WithRequest(n.requests, q1));
        var n1 := UpdateRoute(n0, q.dst, 0, now);
        RoutedSees(n0, q.dst, 0, now, a, due);
        RequestSees(n, n0, q.dst, a, due);
        ReachedIsRoutable(n0, q.dst);
        var n2 := n1.(timers := Arm(n1.timers, RequestTimer(eid), Due(now, BackoffTime(q1.tries))));
        RearmSees(n1, eid, Due(now, BackoffTime(q1.tries)), a, due);
        var n3 := FindRoute(n2, q.dst, q1.tries, now);
        RetrySees(n2, q.dst, q1.tries, now, a, due);
        HoldSees(n3, n3.(requests := WithRequest(n3.requests, q1.(id := n3.rreqId))), a, due);
      }
  }

  /** Our own address, or one with a valid entry. */
  predicate Reached(n: Node, a: Addr) {
    var s := See(n, a, 0);
    a == n.ip || (s.Sight? && s.valid)
  }

  lemma ReachedIsRoutable(n: Node, a: Addr)
    ensures Reached(n, a) == Routable(n, a)
  {
    hide Find;
  }

  lemma RequestSees(n: Node, m: Node, dst: Addr, a: Addr, due: int)
    requires m == n.(requests := m.requests)
    ensures See(m, a, due) == See(n, a, due) && Uses(m, dst, 0, a) == Uses(n, dst, 0, a) && Reached(m, dst) == Reached(n, dst)
  {
    hide Find;
  }

  lemma RearmSees(n: Node, eid: nat, at: int, a: Addr, due: int)
    ensures See(n.(timers := Arm(n.timers, RequestTimer(eid), at)), a, due) == See(n, a, due)
  {
    hide Find, Arm;
    if Find(n.table, a).Some? {
      ArmMembers(n.timers, RequestTimer(eid), at, Armed(RouteTimer(Find(n.table, a).value.rid), due));
    }
  }

  lemma DisarmSees(n: Node, eid: nat, a: Addr, due: int)
    ensures See(DeleteRequest(n, eid), a, due) == See(n, a, due)
  {
    hide Find, Cancel, WithoutRequest;
    if Find(n.table, a).Some? {
      CancelMembers(n.timers, RequestTimer(eid), Armed(RouteTimer(Find(n.table, a).value.rid), due));
    }
  }

  lemma RetrySees(n: Node, dest: Addr, tries: nat, now: int, a: Addr, due: int)
    requires tries > 0
    ensures See(FindRoute(n, dest, tries, now), a, due) == See(n, a, due)
  {
    hide RingTtl;
  }
}
