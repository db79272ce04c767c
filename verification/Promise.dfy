/** When a held packet is left without a request for it. */
module Promise {
  import opened Config
  import opened Routes
  import opened AlarmSpec
  import opened Node
  import opened NodeInv
  import opened NodeSteps
  import opened NodeRuns
  import opened Sights
  import opened Replies
  import opened Wrappers

  ghost predicate Covered(held: seq<Held>, requests: seq<Request>) {
    forall h :: h in held ==> Waiting(requests, h.dst)
  }

  /** Every held packet has a request of ours out, which will be answered or given up. */
  ghost predicate Promised(n: Node) {
    Covered(n.held, n.requests)
  }

  /** A RREP for us strands held packets: the table knew the destination before, so nothing is released;
      the RREP is taken over; and the request it ends is ours, while packets are held for it. */
  ghost predicate Strands(n: Node, e: Event) {
    && e.Packet? && e.p.Rrep? && e.from != n.ip && e.p.orig == n.ip
    && Find(n.table, e.p.dest).Some?
    && TakesOver(n, e.from, e.p)
    && (var q := OldEnough(n.requests, n.rreqId, e.p.dest);
        q.Some? && q.value.tries >= 0)
    && exists h :: h in n.held && h.dst == e.p.dest
  }

  // ----- Packets and requests that come and go -----

  lemma FewerCovered(held: seq<Held>, fewer: seq<Held>, requests: seq<Request>)
    requires Covered(held, requests) && forall h :: h in fewer ==> h in held
    ensures Covered(fewer, requests)
  {
  }

  lemma PushCovered(held: seq<Held>, requests: seq<Request>, q: Request)
    requires Covered(held, requests)
    ensures Covered(held, [q] + requests)
  {
    forall h | h in held
      ensures Waiting([q] + requests, h.dst)
    {
      PushedWaits(requests, q, h.dst);
    }
  }

  /** Without request `q` all is covered exactly if it was not ours, or nothing is held for it. */
  lemma WithoutCovered(held: seq<Held>, requests: seq<Request>, nextId: nat, q: Request)
    requires Covered(held, requests) && RequestsOk(requests, nextId) && q in requests
    ensures Covered(held, WithoutRequest(requests, q.eid)) <==> q.tries < 0 || forall h :: h in held ==> h.dst != q.dst
  {
    forall p | p in requests && p.eid == q.eid
      ensures p == q
    {
      UniqueRequest(requests, nextId, p, q);
    }
    forall h | h in held && (q.tries < 0 || h.dst != q.dst)
      ensures Waiting(WithoutRequest(requests, q.eid), h.dst)
    {
      WithoutWaits(requests, q, h.dst);
    }
    if q.tries >= 0 {
      GoneUncovered(requests, nextId, q);
    }
  }

  lemma GoneUncovered(requests: seq<Request>, nextId: nat, q: Request)
    requires RequestsOk(requests, nextId) && q in requests && q.tries >= 0
    ensures !Waiting(WithoutRequest(requests, q.eid), q.dst)
  {
    var rest := WithoutRequest(requests, q.eid);
    if Waiting(rest, q.dst) {
      WaitingMember(rest, q.dst);
      var p :| p in rest && p.tries >= 0 && p.dst == q.dst;
      WithoutMembers(requests, q.eid, p);
      OwnedOnce(requests, p, q);
    }
  }

  lemma OwnedOnce(requests: seq<Request>, p: Request, q: Request)
    requires AllApart(requests) && p in requests && q in requests && p.tries >= 0 && q.tries >= 0 && p.dst == q.dst
    ensures p == q
  {
    var i :| 0 <= i < |requests| && requests[i] == p;
    var j :| 0 <= j < |requests| && requests[j] == q;
    OwnedAt(requests, i, j);
  }

  lemma OwnedAt(requests: seq<Request>, i: nat, j: nat)
    requires AllApart(requests) && i < |requests| && j < |requests|
    requires requests[i].tries >= 0 && requests[j].tries >= 0 && requests[i].dst == requests[j].dst
    ensures i == j
  {
  }

  lemma RenewCovered(held: seq<Held>, requests: seq<Request>, q: Request)
    requires Covered(held, requests) && q.tries >= 0 && forall p :: p in requests && p.eid == q.eid ==> p.dst == q.dst
    ensures var t := WithRequest(requests, q);
      Covered(held, t) && forall p :: p in t && p.eid == q.eid ==> p.dst == q.dst
  {
    WithRequestAt(requests, q);
    var t := WithRequest(requests, q);
    forall h | h in held
      ensures Waiting(t, h.dst)
    {
      var i :| 0 <= i < |requests| && requests[i].tries >= 0 && requests[i].dst == h.dst;
      assert requests[i] in requests && t[i].tries >= 0 && t[i].dst == h.dst;
    }
  }

  // ----- What the parts of a step hold -----

  /** Routes come and go without a change to the requests. */
  predicate SameRequests(n: Node, m: Node) {
    m.requests == n.requests && m.rreqId == n.rreqId && m.ip == n.ip
  }

  lemma AddHolds(n: Node, r: Route, now: int, h: Held)
    ensures var m := AddRoute(n, r, now);
      && SameRequests(n, m)
      && (h in m.held <==> h in n.held && (Find(n.table, r.dst).Some? || !Covers(r, h.dst)))
  {
    hide Find, Arm, Covers;
    RouteKeepsOthers(n.held, r.(valid := true, action := UnsetValidEntry), h);
    assert Covers(r.(valid := true, action := UnsetValidEntry), h.dst) == Covers(r, h.dst) by { SameCover(r, h.dst); }
  }

  lemma SameCover(r: Route, a: Addr)
    ensures Covers(r.(valid := true, action := UnsetValidEntry), a) == Covers(r, a)
  {
  }

  lemma NewCovers(rid: nat, dst: Addr, next: Addr, a: Addr)
    ensures Covers(NewRoute(rid, dst).(nextHop := next), a) <==> a == dst
  {
  }

  lemma TouchHolds(n: Node, from: Addr, now: int, h: Held)
    ensures var m := TouchPrevHop(n, from, now);
      && SameRequests(n, m)
      && (h in m.held <==> h in n.held && (Find(n.table, from).Some? || h.dst != from))
  {
    hide Find, AddRoute, Covers;
    if Find(n.table, from).None? {
      NewCovers(n.nextId, from, from, h.dst);
      AddHolds(n.(nextId := n.nextId + 1), NewRoute(n.nextId, from).(nextHop := from), now, h);
    }
  }

  lemma TouchRequests(n: Node, from: Addr, now: int)
    ensures SameRequests(n, TouchPrevHop(n, from, now))
  {
    TouchHolds(n, from, now, Held(0, 0));
  }

  lemma ReverseHolds(n: Node, from: Addr, p: Message, life: Option<nat>, now: int)
    requires p.Rreq?
    ensures var m := ReverseRoute(n, from, p, life, now);
      m.requests == n.requests && forall h :: h in m.held ==> h in n.held
  {
    hide Find, AddRoute, Arm, WithRoute;
    var r := NewRoute(n.nextId, p.orig).(seqNum := p.origSeq, nextHop := from, hops := p.hops, seqValid := true);
    var at := Due(now, match life case Some(ms) => ms case None => 0);
    var n1 := n.(nextId := n.nextId + 1, timers := Arm(n.timers, RouteTimer(r.rid), at));
    AddHolds(n1, r, now, Held(0, 0));
    forall h
      ensures h in AddRoute(n1, r, now).held ==> h in n.held
    {
      AddHolds(n1, r, now, h);
    }
  }

  lemma RreqPromises(n: Node, from: Addr, p: Message, life: Option<nat>, now: int)
    requires p.Rreq? && Promised(n)
    ensures Promised(ProcessRreq(n, from, p, life, now))
  {
    hide Find, TouchPrevHop, ReverseRoute, Contains, Answers, Covered;
    var n1 := TouchPrevHop(n, from, now);
    TouchRequests(n, from, now);
    assert Covered(n1.held, n.requests) by {
      forall h
        ensures h in n1.held ==> h in n.held
      {
        TouchHolds(n, from, now, h);
      }
      FewerCovered(n.held, n1.held, n.requests);
    }
    if !Contains(n1.requests, p.id, p.dest) {
      var n2 := PushRequest(n1, p.id, p.dest, -1, now);
      PushCovered(n1.held, n1.requests, Request(n1.nextId, p.id, p.dest, -1));
      ReverseHolds(n2, from, p, life, now);
      FewerCovered(n2.held, ReverseRoute(n2, from, p, life, now).held, n2.requests);
    }
  }

  // ----- A RREP -----

  lemma ForwardHolds(n: Node, from: Addr, p: Message, now: int, h: Held)
    requires p.Rrep?
    ensures var m := ForwardRoute(n, from, p, now);
      && SameRequests(n, m)
      && (h in m.held <==> h in n.held && (Find(n.table, p.dest).Some? || h.dst != p.dest))
  {
    hide Find, AddRoute, Covers;
    if Find(n.table, p.dest).None? {
      var r := NewRoute(n.nextId, p.dest).(nextHop := from, seqNum := p.destSeq, seqValid := true);
      assert Covers(r, h.dst) <==> h.dst == p.dest by { NewCovered(n.nextId, p, from, h.dst); }
      AddHolds(n.(nextId := n.nextId + 1), r, now, h);
    }
  }

  lemma NewCovered(rid: nat, p: Message, from: Addr, a: Addr)
    requires p.Rrep?
    ensures Covers(NewRoute(rid, p.dest).(nextHop := from, seqNum := p.destSeq, seqValid := true), a) <==> a == p.dest
  {
  }

  lemma PassHolds(n: Node, from: Addr, p: Message, hops: U8, life: Lifetimes, now: int)
    requires p.Rrep?
    ensures var m := PassOn(n, from, p, hops, life, now); m.held == n.held && m.requests == n.requests
  {
    hide Find, WithRoute, Arm;
  }

  lemma WayHolds(n: Node, from: Addr, p: Message, life: Lifetimes, now: int)
    requires p.Rrep?
    ensures WithWay(n, from, p, life, now).held == ForwardRoute(TouchPrevHop(n, from, now), from, p, now).held
  {
    hide Find, WithRoute, Arm, TouchPrevHop, ForwardRoute;
  }

  lemma AnsweredHolds(n: Node, id: U32, dst: Addr)
    ensures var m, q := Answered(n, id, dst), OldEnough(n.requests, id, dst);
      m.held == n.held && m.requests == if q.Some? then WithoutRequest(n.requests, q.value.eid) else n.requests
  {
    hide OldEnough, WithoutRequest, Cancel;
  }

  /** The packets held after the two routes are known, and the request that is then ended, if any. */
  lemma RrepHolds(n: Node, from: Addr, p: Message, life: Lifetimes, now: int)
    requires p.Rrep? && Inv(n)
    ensures var m, n1 := ProcessRrep(n, from, p, life, now), TouchPrevHop(n, from, now);
      && (forall h :: h in m.held <==>
            && h in n.held && (Find(n.table, from).Some? || h.dst != from)
            && (Find(n1.table, p.dest).Some? || h.dst != p.dest))
      && m.requests ==
         (var q := OldEnough(n.requests, n.rreqId, p.dest);
          if n.ip == p.orig && q.Some? && TakesOver(n, from, p)
          then WithoutRequest(n.requests, q.value.eid) else n.requests)
  {
    assert Tabled(n);
    hide Find, TouchPrevHop, ForwardRoute, PassOn, OldEnough, WithoutRequest, TakesOver, InvBut, Answered, ProcessRrep, WithWay,
      TableOk;
    var n1, w := TouchPrevHop(n, from, now), WithWay(n, from, p, life, now);
    RrepParts(n, from, p, life, now);
    WayLeaves(n, from, p, life, now);
    WayHolds(n, from, p, life, now);
    AnsweredHolds(w, n.rreqId, p.dest);
    PassHolds(w, from, p, (p.hops + 1) % 0x100, life, now);
    forall h
      ensures h in w.held <==>
        && h in n.held && (Find(n.table, from).Some? || h.dst != from)
        && (Find(n1.table, p.dest).Some? || h.dst != p.dest)
    {
      TouchHolds(n, from, now, h);
      ForwardHolds(n1, from, p, now, h);
    }
  }

  /** A RREP keeps every held packet's request, exactly if it does not strand one. */
  lemma RrepPromises(n: Node, from: Addr, p: Message, life: Lifetimes, now: int, e: Event)
    requires p.Rrep? && Inv(n) && Promised(n) && from != n.ip && e.Packet? && e.p == p && e.from == from
    ensures Promised(ProcessRrep(n, from, p, life, now)) <==> !Strands(n, e)
  {
    hide Find, TouchPrevHop, ProcessRrep, TakesOver, OldEnough, WithoutRequest, Waiting, HeldOk;
    var m, n1 := ProcessRrep(n, from, p, life, now), TouchPrevHop(n, from, now);
    RrepHolds(n, from, p, life, now);
    TouchKeeps(n, from, now);
    FewerCovered(n.held, m.held, n.requests);
    OldEnoughIn(n.requests, n.rreqId, p.dest);
    match OldEnough(n.requests, n.rreqId, p.dest)
    case None =>
    case Some(q) =>
      WithoutCovered(m.held, n.requests, n.nextId, q);
  }

  // ----- Packets from the kernel -----

  /** Queuing always leaves a request out, whatever the table holds. */
  lemma OutputPromises(n: Node, id: U32, dest: Addr, now: int)
    requires Promised(n)
    ensures Promised(Output(n, id, dest, now))
  {
    hide Find, UpdateRoute, Waiting;
    var n0 := n.(handed := n.handed + [id]);
    UpdateLeaves(n0, dest, 0, now);
    if dest != n.broadcast && !Routable(n, dest) && !Waiting(n.requests, dest) {
      var q := Request(n.nextId, Increment(n.rreqId), dest, 0);
      PushCovered(n.held, n.requests, q);
      PushedWaits(n.requests, q, dest);
    }
  }

  lemma ForwardPromises(n: Node, id: U32, dest: Addr, orig: Addr, now: int)
    requires Promised(n)
    ensures Promised(Forward(n, id, dest, orig, now))
  {
    hide UpdateRoute, Waiting;
    UpdateLeaves(n.(handed := n.handed + [id]), dest, orig, now);
  }

  // ----- Alarms -----

  /** A callback keeps every held packet's request, or drops the packet. */
  lemma FirePromises(n: Node, id: TimerId, now: int)
    requires Promised(n) && RequestsOk(n.requests, n.nextId)
    ensures Promised(Fire(n, id, now))
  {
    hide Waiting, Find, Arm, Cancel, WithRoute, RequestAlarm;
    match id
    case RouteTimer(_) =>
    case RequestTimer(eid) => RequestPromises(n, eid, now);
  }

  lemma RequestPromises(n: Node, eid: nat, now: int)
    requires Promised(n) && RequestsOk(n.requests, n.nextId)
    ensures Promised(RequestAlarm(n, eid, now))
  {
    hide Waiting, Covered, UpdateRoute, Arm, Cancel, RequestById, WithRequest, WithoutRequest, NotFor;
    RequestByIdIn(n.requests, eid);
    match RequestById(n.requests, eid)
    case None =>
    case Some(q) =>
      forall p | p in n.requests && p.eid == eid
        ensures p == q
      {
        UniqueRequest(n.requests, n.nextId, p, q);
      }
      if q.tries < 0 {
        WithoutCovered(n.held, n.requests, n.nextId, q);
      } else if q.tries + 1 > RREQ_RETRIES {
        DropCovered(n.held, n.requests, n.nextId, q);
      } else {
        var q1 := q.(tries := q.tries + 1);
        var n0 := n.(requests := WithRequest(n.requests, q1));
        RenewCovered(n.held, n.requests, q1);
        UpdateLeaves(n0, q.dst, 0, now);
        RenewCovered(n.held, n0.requests, q1.(id := Increment(n.rreqId)));
      }
  }

  lemma DropCovered(held: seq<Held>, requests: seq<Request>, nextId: nat, q: Request)
    requires Covered(held, requests) && RequestsOk(requests, nextId) && q in requests
    ensures Covered(NotFor(held, q.dst), WithoutRequest(requests, q.eid))
  {
    forall h
      ensures h in NotFor(held, q.dst) <==> h in held && h.dst != q.dst
    {
      DropKeepsOthers(held, q.dst, h);
    }
    FewerCovered(held, NotFor(held, q.dst), requests);
    WithoutCovered(NotFor(held, q.dst), requests, nextId, q);
  }

  lemma {:induction false} FireAllPromises(n: Node, ids: seq<TimerId>, clocks: seq<int>, start: int)
    requires Inv(n) && Promised(n) && |ids| == |clocks| && AllRipe(n, ids, start)
    requires forall i, j :: 0 <= i < j < |ids| ==> ids[i] != ids[j]
    requires forall i :: 0 <= i < |clocks| ==> clocks[i] >= start
    ensures Promised(FireAll(n, ids, clocks))
    decreases ids
  {
    if ids != [] {
      var id, n0 := ids[0], n.(timers := Cancel(n.timers, ids[0]));
      assert RequestsOk(n.requests, n.nextId);
      hide InvBut, HeldOk, Ripe, Fire, Covered, RequestsOk, Cancel;
      assert id.RouteTimer? ==> Ripe(n, id.rid, start);
      FireKeeps(n, id, start, clocks[0]);
      FirePromises(n0, id, clocks[0]);
      var m := Fire(n0, id, clocks[0]);
      forall rid | RouteTimer(rid) in ids[1..]
        ensures Ripe(m, rid, start)
      {
        StaysRipe(n, id, rid, start, clocks[0]);
      }
      FireAllPromises(m, ids[1..], clocks[1..], start);
    }
  }

  lemma AlarmsPromise(n: Node, clocks: seq<int>, now: int)
    requires Inv(n) && Promised(n) && Timely(n, RunAlarms(clocks), now)
    ensures Promised(FireAll(n, DueLatestFirst(n.timers, now), clocks))
  {
    hide HeldOk, Find, TableOk, RequestsOk, Ripe, Promised;
    DueRipe(n, now);
    DueExactly(n.timers, now);
    FireAllPromises(n, DueLatestFirst(n.timers, now), clocks, now);
  }

  // ----- Events and runs -----

  /** An event leaves every held packet with a request of ours out, if and only if it strands none. */
  lemma ReactPromises(n: Node, e: Event, now: int)
    requires Inv(n) && Promised(n) && Timely(n, e, now)
    ensures Promised(React(n, e, now)) <==> !Strands(n, e)
  {
    hide InvBut, Promised, Output, Forward, ProcessRreq, ProcessRrep, FireAll, Find, TouchPrevHop, Supersedes, OldEnough;
    match e
    case OutputPacket(id, dest) => OutputPromises(n, id, dest, now);
    case ForwardPacket(id, dest, orig) => ForwardPromises(n, id, dest, orig, now);
    case RunAlarms(clocks) => AlarmsPromise(n, clocks, now);
    case Packet(from, p, reverse, life) =>
      if from != n.ip {
        if p.Rreq? {
          RreqPromises(n, from, p, reverse, now);
        } else {
          RrepPromises(n, from, p, life, now, e);
        }
      }
  }

  /** In every state the run passes through, each held packet has a request of ours out. */
  ghost predicate AlwaysPromised(n: Node, run: seq<Timed>)
    requires Runs(n, run)
    decreases run
  {
    Promised(n) && (run != [] ==> AlwaysPromised(React(n, run[0].e, run[0].at), run[1..]))
  }

  ghost predicate NoneStranded(n: Node, run: seq<Timed>)
    requires Runs(n, run)
    decreases run
  {
    run != [] ==>
      && !Strands(n, run[0].e)
      && NoneStranded(React(n, run[0].e, run[0].at), run[1..])
  }

  lemma {:induction false} RunPromises(n: Node, run: seq<Timed>)
    requires Inv(n) && Promised(n) && Runs(n, run)
    ensures AlwaysPromised(n, run) <==> NoneStranded(n, run)
    decreases run
  {
    hide InvBut, Promised, React, Timely, Strands;
    if run != [] {
      var m := React(n, run[0].e, run[0].at);
      StepKeeps(n, run[0].e, run[0].at);
      ReactPromises(n, run[0].e, run[0].at);
      if Promised(m) {
        RunPromises(m, run[1..]);
      } else {
        assert !AlwaysPromised(m, run[1..]);
      }
    }
  }

  /** From the start of the daemon on, held packets always have a request of ours out, if and only if no
      RREP of the run strands one. */
  lemma HeldArePromised(ip: Addr, broadcast: Addr, run: seq<Timed>)
    requires Runs(Initial(ip, broadcast), run)
    ensures AlwaysPromised(Initial(ip, broadcast), run) <==> NoneStranded(Initial(ip, broadcast), run)
  {
    hide Runs, AlwaysPromised, NoneStranded, InvBut;
    InitialInv(ip, broadcast);
    RunPromises(Initial(ip, broadcast), run);
  }
}
