/** What the smallest changes of a node's state do, entry by entry and alarm by alarm. */
module Effects {
  import opened Config
  import opened Routes
  import opened AlarmSpec
  import opened Node
  import opened NodeInv
  import opened NodeSteps
  import opened NodeView
  import opened Freshness
  import opened Wrappers

  /** The alarm `id` is pending for `due`. */
  predicate Rings(n: Node, id: TimerId, due: int) {
    Armed(id, due) in n.timers
  }

  /** A lifetime makes one entry valid and moves its alarm; every other entry and every other deadline
      stays what it was. */
  lemma LifetimeSet(n: Node, r: Route, ms: nat, now: int, s: Route, id: TimerId, due: int)
    requires Inv(n) && r in n.table && s in n.table
    ensures var m := SetLifetime(n, r, ms, now);
      && Find(m.table, s.dst) == Some(if s.dst == r.dst then r.(valid := true, action := UnsetValidEntry) else s)
      && (Rings(m, id, due) <==> if id == RouteTimer(r.rid) then due == now + 1000 * ms else Rings(n, id, due))
  {
    hide InvBut;
    var r1 := r.(valid := true, action := UnsetValidEntry);
    EditFind(n, r, r1, s);
    ArmMembers(n.timers, RouteTimer(r.rid), Due(now, ms), Armed(id, due));
  }

  lemma EditFind(n: Node, r: Route, r1: Route, s: Route)
    requires Inv(n) && r in n.table && s in n.table && r1.rid == r.rid && r1.dst == r.dst && r1.prefix == r.prefix
    ensures Find(WithRoute(n.table, r1), s.dst) == Some(if s.dst == r.dst then r1 else s)
  {
    SameEntry(n, s, r);
    forall x | x in n.table && x.rid == r1.rid
      ensures x == r
    {
      SameEntry(n, x, r);
    }
    FindAfterEdit(n.table, r1, s.dst);
  }

  /** A buffered request is found from then on, one of ours is waited for, and its alarm ends the wait
      that its tries call for; nothing else changes. */
  lemma RequestPushed(n: Node, id: U32, dst: Addr, tries: int, now: int, i: U32, a: Addr, t: TimerId, due: int)
    requires tries >= -1
    ensures var m := PushRequest(n, id, dst, tries, now);
      && (Contains(m.requests, i, a) <==> Contains(n.requests, i, a) || (i == id && a == dst))
      && (Waiting(m.requests, a) <==> Waiting(n.requests, a) || (tries >= 0 && a == dst))
      && (Rings(m, t, due) <==>
            if t == RequestTimer(n.nextId)
            then due == now + 1000 * if tries < 0 then PATH_DISCOVERY_TIME else BackoffTime(tries)
            else Rings(n, t, due))
  {
    hide BackoffTime;
    var q := Request(n.nextId, id, dst, tries);
    PushedWaits(n.requests, q, a);
    PushedFound(n.requests, q, i, a);
    ArmMembers(n.timers, RequestTimer(n.nextId), Due(now, if tries < 0 then PATH_DISCOVERY_TIME else BackoffTime(tries)),
               Armed(t, due));
  }

  lemma PushedFound(requests: seq<Request>, q: Request, i: U32, a: Addr)
    ensures Contains([q] + requests, i, a) <==> Contains(requests, i, a) || (i == q.id && a == q.dst)
  {
    var more := [q] + requests;
    assert more[0] == q;
    if Contains(requests, i, a) {
      var k :| 0 <= k < |requests| && requests[k].id == i && requests[k].dst == a;
      assert more[k + 1] == requests[k];
    }
  }

  /** A node that asks knows its own RREQ again: a copy that comes back while the entry is buffered
      changes no request and sends nothing. */
  lemma OwnAskKnown(n: Node, dest: Addr, now: int, from: Addr, life: Option<nat>, later: int)
    requires Inv(n) && !Waiting(n.requests, dest)
    ensures var m := FindRoute(n, dest, 0, now);
      && |m.sent| == |n.sent| + 1 && m.sent[..|n.sent|] == n.sent
      && var p := m.sent[|n.sent|];
         && p.Rreq? && p.dest == dest && p.orig == n.ip && p.hops == 0
         && Contains(m.requests, p.id, p.dest) && Waiting(m.requests, dest)
         && ProcessRreq(m, from, p, life, later).requests == m.requests
         && ProcessRreq(m, from, p, life, later).sent == m.sent
  {
    var m := FindRoute(n, dest, 0, now);
    assert m.requests[0].id == m.rreqId && m.requests[0].dst == dest;
    hide InvBut, HeldOk, ProcessRreq, Waiting;
    FindRouteKeeps(n, dest, 0, now);
    RreqSeen(m, from, m.sent[|n.sent|], life, later);
  }

  /** The alarm of a route, once out of the queue: a valid entry becomes invalid and its alarm is armed
      for the delete period; an invalid one goes, and its alarm with it.  Every other entry and every
      other deadline stays. */
  lemma RouteRings(n: Node, r: Route, now: int, s: Route, id: TimerId, due: int)
    requires Inv(n) && r in n.table && s in n.table
    ensures var m := RouteAlarm(n.(timers := Cancel(n.timers, RouteTimer(r.rid))), r.rid, now);
      && (s.dst != r.dst ==> Find(m.table, s.dst) == Some(s))
      && Find(m.table, r.dst) == (if r.valid then Some(r.(valid := false, action := DestroyRoute)) else None)
      && (Rings(m, id, due) <==>
            if id == RouteTimer(r.rid) then r.valid && due == now + 1000 * DELETE_PERIOD else Rings(n, id, due))
  {
    var own, q := RouteTimer(r.rid), Cancel(n.timers, RouteTimer(r.rid));
    EntryOk(n.table, n.nextId, r);
    Identified(n, r);
    hide InvBut, Covers, ById;
    CancelMembers(n.timers, own, Armed(id, due));
    CancelMembers(q, own, Armed(id, due));
    ArmMembers(q, own, Due(now, DELETE_PERIOD), Armed(id, due));
    var r1 := r.(valid := false, action := DestroyRoute);
    EditFind(n, r, r1, s);
    EditFind(n, r, r1, r);
    GoneFind(n, r, s);
  }

  lemma Identified(n: Node, r: Route)
    requires Inv(n) && r in n.table
    ensures ById(n.table, r.rid) == Some(r)
  {
    hide InvBut;
    ByIdIn(n.table, r.rid);
    SameEntry(n, r, ById(n.table, r.rid).value);
  }

  lemma GoneFind(n: Node, r: Route, s: Route)
    requires Inv(n) && r in n.table && s in n.table
    ensures var t := WithoutRoute(n.table, r.rid);
      Find(t, r.dst).None? && (s.dst != r.dst ==> Find(t, s.dst) == Some(s))
  {
    var t := WithoutRoute(n.table, r.rid);
    SameEntry(n, r, s);
    FindMatches(t, r.dst);
    FindMatches(t, s.dst);
    forall x
      ensures x in t <==> x in n.table && x.rid != r.rid
    {
      WithoutRouteMembers(n.table, r.rid, x);
    }
    forall x | x in n.table
      ensures (Covers(x, r.dst) <==> x == r) && (Covers(x, s.dst) <==> x == s)
    {
      EntryOk(n.table, n.nextId, x);
      SameEntry(n, x, r);
      SameEntry(n, x, s);
    }
  }
}
