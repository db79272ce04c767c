/** Whole runs of a node: packets, messages and alarm runs in any order. */
module NodeRuns {
  import opened Config
  import opened Routes
  import opened AlarmSpec
  import opened Node
  import opened NodeInv
  import opened NodeSteps
  import opened Wrappers

  // ----- What a callback leaves to the others of its run -----

  /** No entry of `m` has become invalid since `n`. */
  ghost predicate Fresher(n: Node, m: Node) {
    m.invalidSince == n.invalidSince && forall r :: r in m.table && !r.valid ==> r in n.table
  }

  lemma RefreshFresher(n: Node, a: Addr, now: int)
    ensures Fresher(n, RefreshTo(n, a, now))
  {
    hide Find, Arm;
    match Find(n.table, a)
    case None =>
    case Some(r) =>
      var n1 := SetLifetime(n, r, ACTIVE_ROUTE_TIMEOUT, now);
      SetFresher(n, r, ACTIVE_ROUTE_TIMEOUT, now);
      if r.nextHop != a && Find(n1.table, r.nextHop).Some? {
        SetFresher(n1, Find(n1.table, r.nextHop).value, ACTIVE_ROUTE_TIMEOUT, now);
      }
  }

  lemma SetFresher(n: Node, r: Route, ms: nat, now: int)
    ensures Fresher(n, SetLifetime(n, r, ms, now))
  {
    var r1 := r.(valid := true, action := UnsetValidEntry);
    forall s | s in WithRoute(n.table, r1) && !s.valid
      ensures s in n.table
    {
      WithRouteMembers(n.table, r1, s);
    }
  }

  lemma UpdateFresher(n: Node, dst: Addr, orig: Addr, now: int)
    ensures Fresher(n, UpdateRoute(n, dst, orig, now))
  {
    hide Find, RefreshTo;
    RefreshFresher(n, dst, now);
    RefreshFresher(if dst == n.ip then n else RefreshTo(n, dst, now), orig, now);
  }

  lemma RequestFresher(n: Node, eid: nat, now: int)
    ensures Fresher(n, RequestAlarm(n, eid, now))
  {
    hide Find, UpdateRoute, RequestById, WithRequest, WithoutRequest;
    match RequestById(n.requests, eid)
    case None =>
    case Some(q) =>
      var q1 := q.(tries := q.tries + 1);
      UpdateFresher(n.(requests := WithRequest(n.requests, q1)), q.dst, 0, now);
  }

  lemma StaysRipe(n: Node, id: TimerId, rid: nat, start: int, now: int)
    requires Ripe(n, rid, start) && id != RouteTimer(rid)
    ensures Ripe(Fire(n.(timers := Cancel(n.timers, id)), id, now), rid, start)
  {
    hide Find, Cancel, Arm, RequestAlarm;
    var n0 := n.(timers := Cancel(n.timers, id));
    match id
    case RequestTimer(eid) => RequestFresher(n0, eid, now);
    case RouteTimer(other) =>
      ByIdIn(n.table, other);
      if ById(n.table, other).Some? {
        var r1 := ById(n.table, other).value.(valid := false, action := DestroyRoute);
        forall s
          ensures s in WithRoute(n.table, r1) && s.rid == rid ==> s in n.table
          ensures s in WithoutRoute(n.table, other) ==> s in n.table
        {
          WithRouteMembers(n.table, r1, s);
          WithoutRouteMembers(n.table, other, s);
        }
      }
  }

  // ----- An alarm run -----

  ghost predicate AllRipe(n: Node, ids: seq<TimerId>, start: int) {
    forall rid {:trigger Ripe(n, rid, start)} :: RouteTimer(rid) in ids ==> Ripe(n, rid, start)
  }

  lemma FireKeeps(n: Node, id: TimerId, start: int, now: int)
    requires Inv(n) && start <= now && (id.RouteTimer? ==> Ripe(n, id.rid, start))
    ensures Keeps(n, Fire(n.(timers := Cancel(n.timers, id)), id, now), {})
  {
    var n0 := n.(timers := Cancel(n.timers, id));
    assert Keeps(n, n0, {id}) by { LeaveKeeps(n, id); }
    assert id.RouteTimer? ==> Ripe(n0, id.rid, start);
    hide InvBut, HeldOk, Ripe, RouteAlarm, RequestAlarm;
    match id
    case RouteTimer(rid) => RouteAlarmKeeps(n0, rid, start, now);
    case RequestTimer(eid) => RequestAlarmKeeps(n0, eid, now);
  }

  lemma {:induction false} FireAllKeeps(n: Node, ids: seq<TimerId>, clocks: seq<int>, start: int)
    requires Inv(n) && |ids| == |clocks| && AllRipe(n, ids, start)
    requires forall i, j :: 0 <= i < j < |ids| ==> ids[i] != ids[j]
    requires forall i :: 0 <= i < |clocks| ==> clocks[i] >= start
    ensures Keeps(n, FireAll(n, ids, clocks), {})
    decreases ids
  {
    hide InvBut, HeldOk, Ripe, Fire;
    if ids != [] {
      var id := ids[0];
      assert id.RouteTimer? ==> Ripe(n, id.rid, start);
      FireKeeps(n, id, start, clocks[0]);
      var m := Fire(n.(timers := Cancel(n.timers, id)), id, clocks[0]);
      forall rid | RouteTimer(rid) in ids[1..]
        ensures Ripe(m, rid, start)
      {
        StaysRipe(n, id, rid, start, clocks[0]);
      }
      FireAllKeeps(m, ids[1..], clocks[1..], start);
    }
  }

  /** When a run starts, an invalid entry whose alarm is due has been invalid long enough. */
  lemma DueRipe(n: Node, now: int)
    requires Inv(n)
    ensures AllRipe(n, DueLatestFirst(n.timers, now), now)
  {
    hide Find, TableOk, RequestsOk;
    var ids, k := DueLatestFirst(n.timers, now), Slot(n.timers, now);
    forall rid | RouteTimer(rid) in ids
      ensures Ripe(n, rid, now)
    {
      var i :| 0 <= i < |ids| && ids[i] == RouteTimer(rid);
      assert n.timers[k - 1 - i] in n.timers && n.timers[k - 1 - i].id == RouteTimer(rid);
    }
  }

  lemma AlarmsKeep(n: Node, clocks: seq<int>, now: int)
    requires Inv(n) && Timely(n, RunAlarms(clocks), now)
    ensures Keeps(n, FireAll(n, DueLatestFirst(n.timers, now), clocks), {})
  {
    hide HeldOk, Find, TableOk, RequestsOk, Ripe;
    DueRipe(n, now);
    DueExactly(n.timers, now);
    FireAllKeeps(n, DueLatestFirst(n.timers, now), clocks, now);
  }

  // ----- Whole runs -----

  datatype Timed = Timed(e: Event, at: int)

  /** Every alarm run of the history has its clock readings. */
  ghost predicate Runs(n: Node, run: seq<Timed>)
    decreases run
  {
    run != [] ==> Timely(n, run[0].e, run[0].at) && Runs(React(n, run[0].e, run[0].at), run[1..])
  }

  function Outcome(n: Node, run: seq<Timed>): Node
    requires Runs(n, run)
    decreases run
  {
    if run == [] then n else Outcome(React(n, run[0].e, run[0].at), run[1..])
  }

  lemma StepKeeps(n: Node, e: Event, now: int)
    requires Inv(n) && Timely(n, e, now)
    ensures Inv(React(n, e, now))
    ensures HeldOk(n) && (e.OutputPacket? ==> Settled(n, e.dest)) ==> HeldOk(React(n, e, now))
  {
    hide InvBut, HeldOk, Find, Output, Forward, ProcessRreq, ProcessRrep, FireAll, Settled;
    match e
    case OutputPacket(id, dest) => OutputKeeps(n, id, dest, now);
    case ForwardPacket(id, dest, orig) => ForwardKeeps(n, id, dest, orig, now);
    case Packet(from, p, reverse, life) =>
      if p.Rreq? {
        RreqKeeps(n, from, p, reverse, now);
      } else {
        RrepKeeps(n, from, p, life, now);
      }
    case RunAlarms(clocks) => AlarmsKeep(n, clocks, now);
  }

  /** From the start of the daemon on, the invariant holds whatever happens and whenever. */
  lemma {:induction false} RunKeepsInv(n: Node, run: seq<Timed>)
    requires Inv(n) && Runs(n, run)
    ensures Inv(Outcome(n, run))
    decreases run
  {
    hide InvBut, HeldOk, React, Timely;
    if run != [] {
      StepKeeps(n, run[0].e, run[0].at);
      RunKeepsInv(React(n, run[0].e, run[0].at), run[1..]);
    }
  }

  /** Every packet of the run finds no expired entry for its destination. */
  ghost predicate AllSettled(n: Node, run: seq<Timed>)
    requires Runs(n, run)
    decreases run
  {
    run != [] ==>
      && (run[0].e.OutputPacket? ==> Settled(n, run[0].e.dest))
      && AllSettled(React(n, run[0].e, run[0].at), run[1..])
  }

  lemma {:induction false} RunKeepsHeld(n: Node, run: seq<Timed>)
    requires Inv(n) && HeldOk(n) && Runs(n, run) && AllSettled(n, run)
    ensures HeldOk(Outcome(n, run))
    decreases run
  {
    hide InvBut, HeldOk, React, Timely, Settled;
    if run != [] {
      StepKeeps(n, run[0].e, run[0].at);
      RunKeepsHeld(React(n, run[0].e, run[0].at), run[1..]);
    }
  }
}
