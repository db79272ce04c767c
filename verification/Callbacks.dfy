/** What the daemon's alarm callbacks do to the alarm queue: they re-arm alarms, and the only one they
    disarm is their own.  This is what `do_alarm_run` needs of them. */
module Callbacks {
  import opened Config
  import opened Routes
  import opened AlarmSpec
  import opened Node
  import opened NodeInv
  import opened NodeRuns
  import opened Wrappers

  type Ops = seq<Op<TimerId>>

  function SetOp(r: Route, ms: nat, now: int): Op<TimerId> {
    Rearm(RouteTimer(r.rid), Due(now, ms))
  }

  function RefreshOps(n: Node, a: Addr, now: int): Ops {
    match Find(n.table, a)
    case None => []
    case Some(r) =>
      [SetOp(r, ACTIVE_ROUTE_TIMEOUT, now)] +
      if r.nextHop == a then []
      else match Find(SetLifetime(n, r, ACTIVE_ROUTE_TIMEOUT, now).table, r.nextHop)
        case None => []
        case Some(h) => [SetOp(h, ACTIVE_ROUTE_TIMEOUT, now)]
  }

  function UpdateOps(n: Node, dst: Addr, now: int): Ops {
    if Routable(n, dst) && dst != n.ip then RefreshOps(n, dst, now) else []
  }

  function RouteOps(n: Node, rid: nat, now: int): Ops {
    match ById(n.table, rid)
    case None => []
    case Some(r) =>
      if r.action == UnsetValidEntry then [Rearm(RouteTimer(rid), Due(now, DELETE_PERIOD))]
      else if r.action == DestroyRoute then [Disarm(RouteTimer(rid))]
      else []
  }

  function RequestOps(n: Node, eid: nat, now: int): Ops {
    match RequestById(n.requests, eid)
    case None => []
    case Some(q) =>
      if q.tries < 0 || q.tries + 1 > RREQ_RETRIES then [Disarm(RequestTimer(eid))]
      else UpdateOps(n, q.dst, now) + [Rearm(RequestTimer(eid), Due(now, BackoffTime(q.tries + 1)))]
  }

  /** What the callback of `id` does to the queue. */
  function FireOps(n: Node, id: TimerId, now: int): Ops {
    match id
    case RouteTimer(rid) => RouteOps(n, rid, now)
    case RequestTimer(eid) => RequestOps(n, eid, now)
  }

  /** What the callbacks of a run do, one after the other. */
  function FireScript(n: Node, ids: seq<TimerId>, clocks: seq<int>): (script: seq<Ops>)
    requires |ids| == |clocks|
    ensures |script| == |ids|
    decreases ids
  {
    if ids == [] then []
    else
      var n0 := n.(timers := Cancel(n.timers, ids[0]));
      [FireOps(n0, ids[0], clocks[0])] + FireScript(Fire(n0, ids[0], clocks[0]), ids[1..], clocks[1..])
  }

  lemma {:induction false} ApplyMore(q: seq<Armed<TimerId>>, a: Ops, b: Ops)
    ensures Apply(q, a + b) == Apply(Apply(q, a), b)
    decreases a
  {
    if a == [] {
      assert a + b == b;
    } else {
      assert (a + b)[1..] == a[1..] + b;
      ApplyMore(ApplyOne(q, a[0]), a[1..], b);
    }
  }

  lemma ApplySingle(q: seq<Armed<TimerId>>, op: Op<TimerId>)
    ensures Apply(q, [op]) == ApplyOne(q, op)
  {
    assert [op][1..] == [];
  }

  lemma RefreshIsOps(n: Node, a: Addr, now: int)
    ensures RefreshTo(n, a, now).timers == Apply(n.timers, RefreshOps(n, a, now))
  {
    hide Find, Arm;
    match Find(n.table, a)
    case None =>
    case Some(r) =>
      var first := SetOp(r, ACTIVE_ROUTE_TIMEOUT, now);
      ApplySingle(n.timers, first);
      var n1 := SetLifetime(n, r, ACTIVE_ROUTE_TIMEOUT, now);
      match Find(n1.table, r.nextHop)
      case None => assert RefreshOps(n, a, now) == [first];
      case Some(h) =>
        var second := SetOp(h, ACTIVE_ROUTE_TIMEOUT, now);
        ApplySingle(n1.timers, second);
        ApplyMore(n.timers, [first], [second]);
        assert RefreshOps(n, a, now) == if r.nextHop == a then [first] else [first] + [second];
  }

  lemma UpdateIsOps(n: Node, dst: Addr, now: int)
    ensures UpdateRoute(n, dst, 0, now).timers == Apply(n.timers, UpdateOps(n, dst, now))
  {
    hide Find, RefreshTo, RefreshOps;
    RefreshIsOps(n, dst, now);
  }

  /** A callback's effect on the queue is its list of operations, and it disarms no alarm but its own. */
  lemma FireIsOps(n: Node, id: TimerId, now: int)
    ensures Fire(n, id, now).timers == Apply(n.timers, FireOps(n, id, now))
    ensures forall op :: op in FireOps(n, id, now) && op.Disarm? ==> op.id == id
  {
    OwnDisarm(n, id, now);
    hide FireOps;
    FireTimers(n, id, now);
  }

  lemma FireTimers(n: Node, id: TimerId, now: int)
    ensures Fire(n, id, now).timers == Apply(n.timers, FireOps(n, id, now))
  {
    match id
    case RouteTimer(rid) =>
      hide Arm, Cancel, ById;
      ApplySingle(n.timers, Rearm(id, Due(now, DELETE_PERIOD)));
      ApplySingle(n.timers, Disarm(id));
    case RequestTimer(eid) => RequestIsOps(n, eid, now);
  }

  lemma RequestIsOps(n: Node, eid: nat, now: int)
    ensures RequestAlarm(n, eid, now).timers == Apply(n.timers, RequestOps(n, eid, now))
  {
    hide Arm, Cancel, RequestById, UpdateRoute, UpdateOps, WithRequest, WithoutRequest;
    ApplySingle(n.timers, Disarm(RequestTimer(eid)));
    match RequestById(n.requests, eid)
    case None =>
    case Some(q) =>
      var q1 := q.(tries := q.tries + 1);
      var n0 := n.(requests := WithRequest(n.requests, q1));
      assert UpdateOps(n0, q.dst, now) == UpdateOps(n, q.dst, now) by { SameOps(n, n0, q.dst, now); }
      UpdateIsOps(n0, q.dst, now);
      if 0 <= q.tries < RREQ_RETRIES {
        var last := Rearm(RequestTimer(eid), Due(now, BackoffTime(q1.tries)));
        ApplySingle(Apply(n.timers, UpdateOps(n, q.dst, now)), last);
        ApplyMore(n.timers, UpdateOps(n, q.dst, now), [last]);
      }
  }

  lemma SameOps(n: Node, m: Node, dst: Addr, now: int)
    requires m == n.(requests := m.requests)
    ensures UpdateOps(m, dst, now) == UpdateOps(n, dst, now)
  {
    hide Find;
  }

  lemma OwnDisarm(n: Node, id: TimerId, now: int)
    ensures forall op :: op in FireOps(n, id, now) && op.Disarm? ==> op.id == id
  {
    hide Find, ById, RequestById, RefreshTo;
    if id.RequestTimer? {
      match RequestById(n.requests, id.eid)
      case None =>
      case Some(q) => assert forall op :: op in UpdateOps(n, q.dst, now) ==> op.Rearm?;
    }
  }

  /** An alarm run of the daemon is a run of the queue with the callbacks' script, and no callback
      disarms an alarm of another. */
  lemma {:induction false} FireAllIsRun(n: Node, ids: seq<TimerId>, clocks: seq<int>)
    requires |ids| == |clocks|
    ensures FireAll(n, ids, clocks).timers == RunAll(n.timers, ids, FireScript(n, ids, clocks))
    ensures Relinks(ids, FireScript(n, ids, clocks))
    decreases ids
  {
    hide Fire, FireOps, Apply, Cancel;
    if ids != [] {
      var n0 := n.(timers := Cancel(n.timers, ids[0]));
      var m := Fire(n0, ids[0], clocks[0]);
      var script, rest := FireScript(n, ids, clocks), FireScript(m, ids[1..], clocks[1..]);
      FireIsOps(n0, ids[0], clocks[0]);
      FireAllIsRun(m, ids[1..], clocks[1..]);
      assert script[1..] == rest;
      forall i, j {:trigger script[i][j]} | 0 <= i < |ids| && 0 <= j < |script[i]|
        ensures script[i][j].Disarm? ==> script[i][j].id == ids[i]
      {
        if i == 0 {
          assert script[0][j] in FireOps(n0, ids[0], clocks[0]);
        } else {
          assert script[i][j] == rest[i - 1][j];
          assert ids[i] == ids[1..][i - 1];
        }
      }
    }
  }

  /** In every reachable state, each alarm of a run of this daemon is in the queue when its turn comes. */
  lemma RunFindsAlarms(n: Node, clocks: seq<int>, now: int)
    requires Inv(n) && Timely(n, RunAlarms(clocks), now)
    ensures var ids := DueLatestFirst(n.timers, now);
      var script := FireScript(n, ids, clocks);
      && Relinks(ids, script) && EachLinked(n.timers, ids, script)
      && React(n, RunAlarms(clocks), now).timers == RunAll(n.timers, ids, script)
  {
    hide FireAll, FireScript, TableOk, RequestsOk, ExpiryOk, EachLinked, RunAll, Conserved, Owned;
    var ids := DueLatestFirst(n.timers, now);
    DueExactly(n.timers, now);
    FireAllIsRun(n, ids, clocks);
    RunFindsEachLinked(n.timers, ids, FireScript(n, ids, clocks));
  }
}
