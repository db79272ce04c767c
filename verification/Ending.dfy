/** Which request a RREP ends. */
module Ending {
  import opened Config
  import opened Routes
  import opened AlarmSpec
  import opened Node
  import opened NodeInv
  import opened NodeSteps
  import opened NodeRuns
  import opened NodeView
  import opened Freshness
  import opened Promise
  import opened Sights
  import opened Replies
  import opened Retry
  import opened Wrappers

  /** Request `k` may be ended by a RREP for its destination: its id is not above ours, and no newer entry
      for the same destination, ours or somebody else's, has an id that is not above ours. */
  ghost predicate InFront(requests: seq<Request>, k: nat, id: U32)
    requires k < |requests|
  {
    && requests[k].id <= id
    && forall j :: 0 <= j < k ==> requests[j].dst != requests[k].dst || requests[j].id > id
  }

  /** `rreq_fifo_del` picks the first entry old enough. */
  lemma {:induction false} PickedIsInFront(requests: seq<Request>, k: nat, id: U32)
    requires k < |requests| && forall i, j :: 0 <= i < j < |requests| ==> requests[i].eid != requests[j].eid
    ensures OldEnough(requests, id, requests[k].dst) == Some(requests[k]) <==> InFront(requests, k, id)
  {
    var q, first := requests[k], requests[0];
    if k == 0 {
      OldEnoughIn(requests[1..], id, q.dst);
    } else if first.id <= id && first.dst == q.dst {
      assert first.eid != q.eid;
    } else {
      PickedIsInFront(requests[1..], k - 1, id);
      assert InFront(requests, k, id) <==> InFront(requests[1..], k - 1, id) by {
        forall j | 0 <= j < k && InFront(requests[1..], k - 1, id)
          ensures requests[j].dst != q.dst || requests[j].id > id
        {
          assert j > 0 ==> requests[j] == requests[1..][j - 1];
        }
        forall j | 0 <= j < k - 1 && InFront(requests, k, id)
          ensures requests[1..][j].dst != q.dst || requests[1..][j].id > id
        {
          assert requests[1..][j] == requests[j + 1];
        }
      }
    }
  }

  lemma EidsApart(requests: seq<Request>)
    requires AllApart(requests)
    ensures forall i, j :: 0 <= i < j < |requests| ==> requests[i].eid != requests[j].eid
  {
    forall i, j | 0 <= i < j < |requests|
      ensures requests[i].eid != requests[j].eid
    {
      assert Apart(requests[i], requests[j]);
    }
  }

  /** The RREP is for us and taken over. */
  ghost predicate TakenOver(n: Node, from: Addr, p: Message)
    requires p.Rrep?
  {
    from != n.ip && p.orig == n.ip && TakesOver(n, from, p)
  }

  /** A RREP ends a request of ours if and only if it is taken over, and the request stands in front of all
      others for the destination that have an id up to ours. */
  lemma RrepEnds(n: Node, from: Addr, p: Message, reverse: Option<nat>, life: Lifetimes, now: int, k: nat)
    requires p.Rrep? && Inv(n) && k < |n.requests| && n.requests[k].dst == p.dest
    ensures n.requests[k] !in React(n, Packet(from, p, reverse, life), now).requests <==>
      TakenOver(n, from, p) && InFront(n.requests, k, n.rreqId)
  {
    EidsApart(n.requests);
    PickedIsInFront(n.requests, k, n.rreqId);
    OldEnoughIn(n.requests, n.rreqId, p.dest);
    var o := OldEnough(n.requests, n.rreqId, p.dest);
    if o.Some? {
      Gone(n.requests, o.value, n.requests[k]);
    }
    assert RequestsOk(n.requests, n.nextId);
    assert n.requests[k] in n.requests;
    hide InvBut, TakenOver, ProcessRrep, OldEnough, InFront, WithoutRequest;
    if from == n.ip {
      assert !TakenOver(n, from, p) by { NotOurs(n, from, p); }
    } else {
      RrepRequests(n, from, p, life, now);
    }
  }

  lemma NotOurs(n: Node, from: Addr, p: Message)
    requires p.Rrep? && from == n.ip
    ensures !TakenOver(n, from, p)
  {
  }

  lemma RrepRequests(n: Node, from: Addr, p: Message, life: Lifetimes, now: int)
    requires p.Rrep? && Inv(n) && from != n.ip
    ensures ProcessRrep(n, from, p, life, now).requests ==
      var q := OldEnough(n.requests, n.rreqId, p.dest);
      if q.Some? && TakenOver(n, from, p) then WithoutRequest(n.requests, q.value.eid) else n.requests
  {
    hide InvBut, Find, TouchPrevHop, Supersedes, ProcessRrep, OldEnough, WithoutRequest;
    RrepHolds(n, from, p, life, now);
  }

  lemma Gone(requests: seq<Request>, r: Request, q: Request)
    requires forall i, j :: 0 <= i < j < |requests| ==> requests[i].eid != requests[j].eid
    requires r in requests && q in requests
    ensures q !in WithoutRequest(requests, r.eid) <==> r == q
  {
    WithoutMembers(requests, r.eid, q);
    if r.eid == q.eid {
      SameEid(requests, r, q);
    }
  }

  lemma SameEid(requests: seq<Request>, p: Request, q: Request)
    requires forall i, j :: 0 <= i < j < |requests| ==> requests[i].eid != requests[j].eid
    requires p in requests && q in requests && p.eid == q.eid
    ensures p == q
  {
    var i :| 0 <= i < |requests| && requests[i] == p;
    var j :| 0 <= j < |requests| && requests[j] == q;
  }

  // ----- A request that outlives its answer -----

  /** Node 1 asks for node 9; somebody else's RREQ for node 9 comes by, with a lower id; and the answer
      comes. */
  function OutlivingRun(): seq<Timed> {
    [Timed(OutputPacket(7, 9), 0),
     Timed(Packet(5, Rreq(1, 0, 0, 0, 9, 0, 5, 1), None, Lifetimes(0, None)), 1),
     Timed(Packet(5, Rrep(1, 64, 0, 9, 3, 1), None, Lifetimes(3000, None)), 2)]
  }

  function Mine0(): Request {
    Request(0, 1, 9, 0)
  }

  /** Our request is out, and its alarm is pending. */
  ghost predicate Asked0(n: Node) {
    Inv(n) && n.ip == 1 && n.rreqId == 1 && Find(n.table, 9).None? && Mine(n, 0, Some(Mine0()), 2_800_000)
  }

  lemma ThenAsked()
    ensures var n := React(Initial(1, 255), OutlivingRun()[0].e, 0); Asked0(n) && n.requests == [Mine0()]
  {
    var n0 := Initial(1, 255);
    var n1 := n0.(handed := [7], held := [Held(7, 9)]);
    InitialInv(1, 255);
    assert React(n0, OutlivingRun()[0].e, 0) == FindRoute(n1, 9, 0, 0);
    assert FindRoute(n1, 9, 0, 0).requests == [Mine0()];
    assert RequestById([Mine0()], 0) == Some(Mine0());
    hide InvBut, React, OwnDue, BackoffTime, Arm;
    StepKeeps(n0, OutlivingRun()[0].e, 0);
    LifeBegins(n1, 9, 0, RREQ_RETRIES);
    assert Deadline(0, 0) == 2_800_000;
  }

  lemma ThenHeard(n: Node)
    requires Asked0(n) && n.requests == [Mine0()]
    ensures var m := React(n, OutlivingRun()[1].e, 1);
      Asked0(m) && |m.requests| == 2 && m.requests[0].id == 0 && m.requests[0].dst == 9 && m.requests[1] == Mine0()
  {
    hide InvBut, Mine, TouchPrevHop, ReverseRoute, Find, Toward, HeldOk, Arm, Answers, AnswerRreq;
    var p := OutlivingRun()[1].e.p;
    StepKeeps(n, OutlivingRun()[1].e, 1);
    ReactMine(n, OutlivingRun()[1].e, 1, 0, Some(Mine0()), 2_800_000);
    RreqFresh(n, 5, p, None, 1);
    HeardRequests(n, p);
    NoWay(n.table, 9);
    NoWay(React(n, OutlivingRun()[1].e, 1).table, 9);
  }

  lemma NoWay(table: seq<Route>, a: Addr)
    ensures Toward(table, a).NoHop? <==> Find(table, a).None?
  {
  }

  lemma HeardRequests(n: Node, p: Message)
    requires p.Rreq? && n.requests == [Mine0()] && (p.id != 1 || p.dest != 9)
    ensures var m := ProcessRreq(n, 5, p, None, 1);
      && |m.requests| == 2 && m.requests[0].id == p.id && m.requests[0].dst == p.dest && m.requests[1] == Mine0()
      && m.rreqId == n.rreqId
  {
    hide TouchPrevHop, ReverseRoute, Find, Arm, Answers;
    RreqFrame(n, 5, p, None, 1);
    RreqFrame(PushRequest(TouchPrevHop(n, 5, 1), p.id, p.dest, -1, 1), 5, p, None, 1);
    TouchRequests(n, 5, 1);
    ReverseId(PushRequest(TouchPrevHop(n, 5, 1), p.id, p.dest, -1, 1), p);
    assert !Contains(n.requests, p.id, p.dest);
  }

  lemma ReverseId(n: Node, p: Message)
    requires p.Rreq?
    ensures ReverseRoute(n, 5, p, None, 1).rreqId == n.rreqId
  {
    hide Find, WithRoute, Arm;
  }

  /** A RREP for us, for a destination that was unknown, leaves a valid route to it. */
  lemma AnswerValid(n: Node, from: Addr, p: Message, life: Lifetimes, now: int)
    requires p.Rrep? && Inv(n) && Find(n.table, p.dest).None? && p.orig == n.ip
    ensures var m := ProcessRrep(n, from, p, life, now); Find(m.table, p.dest).Some? && Find(m.table, p.dest).value.valid
  {
    hide InvBut, HeldOk, TouchPrevHop, ForwardRoute, Answered, PassOn, WithRoute, Find, Arm;
    TouchKeeps(n, from, now);
    TouchRequests(n, from, now);
    var n1 := TouchPrevHop(n, from, now);
    ForwardRouteKeeps(n1, from, p, now);
    var n2 := ForwardRoute(n1, from, p, now);
    FindIn(n2, {}, p.dest);
    var r, hops := Find(n2.table, p.dest).value, (p.hops + 1) % 0x100;
    assert Find(n1.table, p.dest).None? || !r.seqValid by { TouchedUnknown(n, from, p, now); }
    var r1 := r.(seqNum := p.destSeq, seqValid := true, nextHop := from, hops := hops);
    EditKeeps(n2, {}, r, r1);
    var n2' := n2.(table := WithRoute(n2.table, r1));
    var r2 := r1.(valid := true, action := UnsetValidEntry);
    EditFinds(n2'.table, n2'.nextId, r1, r2, p.dest);
    var n3 := SetLifetime(n2', r1, life.forward, now);
    AnsweredFrame(n3, n3.rreqId, p.dest);
    ForwardHolds(n1, from, p, now, Held(0, 0));
  }

  lemma ThenAnswered(n: Node)
    requires Asked0(n) && |n.requests| == 2 && n.requests[0].id == 0 && n.requests[0].dst == 9 && n.requests[1] == Mine0()
    ensures var m := React(n, OutlivingRun()[2].e, 2);
      && Find(m.table, 9).Some? && Find(m.table, 9).value.valid && Mine(m, 0, Some(Mine0()), 2_800_000)
  {
    hide InvBut, Find, ProcessRrep, Mine, InFront;
    var e := OutlivingRun()[2].e;
    assert !InFront(n.requests, 1, 1) by { Behind(n.requests); }
    RrepEnds(n, 5, e.p, None, e.life, 2, 1);
    AnswerValid(n, 5, e.p, e.life, 2);
    RequestByIdIn(React(n, e, 2).requests, 0);
    ReactMine(n, e, 2, 0, Some(Mine0()), 2_800_000);
  }

  lemma Behind(requests: seq<Request>)
    requires |requests| == 2 && requests[0].id == 0 && requests[0].dst == 9 && requests[1] == Mine0()
    ensures !InFront(requests, 1, 1)
  {
    assert requests[0].dst == requests[1].dst;
  }

  /** The RREP is taken over, but it ends the request of somebody else.  Ours stays, and when its alarm
      rings the node asks again for a destination it has a valid route to. */
  lemma AsksAgain()
    ensures var run, start := OutlivingRun(), Initial(1, 255);
      && Runs(start, run)
      && var n := Outcome(start, run);
         && Find(n.table, 9).Some? && Find(n.table, 9).value.valid && Armed(RequestTimer(0), 2_800_000) in n.timers
         && var m := Act(n, Fires(RequestTimer(0), 2_800_000), RREQ_RETRIES);
            m.sent == n.sent + [Rreq(5, 5, 0, m.rreqId, 9, 0, n.ip, m.seqNum)]
  {
    hide React, Act, Find, Mine, InvBut, Initial, Runs, Outcome;
    var run, n0 := OutlivingRun(), Initial(1, 255);
    ThenAsked();
    var n1 := React(n0, run[0].e, 0);
    ThenHeard(n1);
    var n2 := React(n1, run[1].e, 1);
    ThenAnswered(n2);
    var n3 := React(n2, run[2].e, 2);
    TryAgain(n3, Mine0(), 2_800_000, RREQ_RETRIES);
    StillArmed(n3);
    ThreeSteps(n0, run[0], run[1], run[2]);
  }

  lemma StillArmed(n: Node)
    requires Mine(n, 0, Some(Mine0()), 2_800_000)
    ensures Armed(RequestTimer(0), 2_800_000) in n.timers
  {
  }

  lemma ThreeSteps(n: Node, a: Timed, b: Timed, d: Timed)
    requires !a.e.RunAlarms? && !b.e.RunAlarms? && !d.e.RunAlarms?
    ensures Runs(n, [a, b, d]) && Outcome(n, [a, b, d]) == React(React(React(n, a.e, a.at), b.e, b.at), d.e, d.at)
  {
    hide React;
    TwoSteps(React(n, a.e, a.at), b, d);
    assert [a, b, d][1..] == [b, d];
  }
}
