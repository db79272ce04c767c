/** Every RREQ that a node broadcasts in its own name for one destination while a request is out. */
module Asking {
  import opened Config
  import opened Routes
  import opened AlarmSpec
  import opened Node
  import opened NodeInv
  import opened NodeSteps
  import opened NodeRuns
  import opened NodeView
  import opened Retry
  import opened Wrappers

  /** One RREQ for the destination: when, which, and the how-manieth of all RREQs the node has made. */
  datatype Ask = Ask(at: int, m: Message, nth: nat)

  /** The message asks for `dst` in our name, and is not merely the RREQ being handled, passed on. */
  predicate Asks(r: Message, ip: Addr, dst: Addr, u: Micro) {
    && r.Rreq? && r.orig == ip && r.dest == dst
    && !(u.Happens? && u.e.Packet? && u.e.p.Rreq? && u.e.p.ttl > 1 && r == Relayed(u.e.p))
  }

  function AsksAmong(ms: seq<Message>, ip: Addr, dst: Addr, u: Micro, nth: nat): seq<Ask> {
    if ms == [] then []
    else (if Asks(ms[0], ip, dst, u) then [Ask(u.at, ms[0], nth)] else []) + AsksAmong(ms[1..], ip, dst, u, nth)
  }

  /** How many RREQs of its own a step makes: what it sends, unless it handles a message. */
  function MadeBy(m: Node, u: Micro, retries: nat): nat
    requires u.Happens? ==> !u.e.RunAlarms?
  {
    if u.Happens? && u.e.Packet? then 0 else |More(m.sent, Act(m, u, retries).sent)|
  }

  function Made(n: Node, us: seq<Micro>, retries: nat): nat
    requires Plain(us)
  {
    if us == [] then 0
    else Made(n, us[..|us| - 1], retries) + MadeBy(Acts(n, us[..|us| - 1], retries), us[|us| - 1], retries)
  }

  /** All that a run asks for `dst`; one RREQ was made before it. */
  function AskLog(n: Node, us: seq<Micro>, dst: Addr, retries: nat): seq<Ask>
    requires Plain(us)
  {
    if us == [] then []
    else
      var m, u := Acts(n, us[..|us| - 1], retries), us[|us| - 1];
      AskLog(n, us[..|us| - 1], dst, retries)
      + AsksAmong(More(m.sent, Act(m, u, retries).sent), m.ip, dst, u, 1 + Made(n, us, retries))
  }

  // ----- RREQ ids -----

  /** Nothing is asked for by these steps. */
  predicate SameIds(n: Node, m: Node) {
    m.rreqId == n.rreqId && m.ip == n.ip
  }

  lemma TouchIds(n: Node, from: Addr, now: int)
    ensures SameIds(n, TouchPrevHop(n, from, now))
  {
    hide Find, WithRoute, Arm;
  }

  lemma ReverseIds(n: Node, from: Addr, p: Message, life: Option<nat>, now: int)
    requires p.Rreq?
    ensures SameIds(n, ReverseRoute(n, from, p, life, now))
  {
    hide Find, WithRoute, Arm;
  }

  lemma AnswerIds(n: Node, from: Addr, p: Message)
    requires p.Rreq? && Answers(n, p)
    ensures SameIds(n, AnswerRreq(n, from, p))
  {
    hide Find, WithRoute;
  }

  lemma RreqIds(n: Node, from: Addr, p: Message, life: Option<nat>, now: int)
    requires p.Rreq?
    ensures SameIds(n, ProcessRreq(n, from, p, life, now))
  {
    hide TouchPrevHop, ReverseRoute, Answers, AnswerRreq, Contains, Arm;
    var n1 := TouchPrevHop(n, from, now);
    var n2 := PushRequest(n1, p.id, p.dest, -1, now);
    var n3 := ReverseRoute(n2, from, p, life, now);
    TouchIds(n, from, now);
    ReverseIds(n2, from, p, life, now);
    if Answers(n3, p) {
      AnswerIds(n3, from, p);
    }
  }

  lemma ForwardIds(n: Node, from: Addr, p: Message, now: int)
    requires p.Rrep?
    ensures SameIds(n, ForwardRoute(n, from, p, now))
  {
    hide Find, Arm;
  }

  lemma PassIds(n: Node, from: Addr, p: Message, hops: U8, life: Lifetimes, now: int)
    requires p.Rrep?
    ensures SameIds(n, PassOn(n, from, p, hops, life, now))
  {
    hide Find, WithRoute, Arm;
  }

  lemma AnsweredIds(n: Node, id: U32, dst: Addr)
    ensures SameIds(n, Answered(n, id, dst))
  {
    hide OldEnough, WithoutRequest, Cancel;
  }

  lemma RrepIds(n: Node, from: Addr, p: Message, life: Lifetimes, now: int)
    requires p.Rrep?
    ensures SameIds(n, ProcessRrep(n, from, p, life, now))
  {
    hide TouchPrevHop, ForwardRoute, Supersedes, PassOn, Answered, Find, WithRoute, Arm;
    var n1, hops := TouchPrevHop(n, from, now), (p.hops + 1) % 0x100;
    var n2 := ForwardRoute(n1, from, p, now);
    TouchIds(n, from, now);
    ForwardIds(n1, from, p, now);
    if Find(n2.table, p.dest).Some? {
      var r1 := Find(n2.table, p.dest).value.(seqNum := p.destSeq, seqValid := true, nextHop := from, hops := hops);
      var n3 := SetLifetime(n2.(table := WithRoute(n2.table, r1)), r1, life.forward, now);
      PassIds(n3, from, p, hops, life, now);
      AnsweredIds(n3, n3.rreqId, p.dest);
    }
  }

  /** Every RREQ the node makes counts its id up by one, in 32 bits, and nothing else changes it. */
  lemma StepIds(m: Node, u: Micro, retries: nat)
    requires u.Happens? ==> !u.e.RunAlarms?
    ensures var m1 := Act(m, u, retries);
      && m1.rreqId == (m.rreqId + MadeBy(m, u, retries)) % 0x1_0000_0000 && MadeBy(m, u, retries) <= 1
      && m1.ip == m.ip
  {
    hide UpdateRoute, Waiting, Routable, RingTtl, BackoffTime, Arm, Cancel, ById, WithRoute, RequestById, ProcessRreq,
      ProcessRrep, WithRequest, WithoutRequest;
    match u
    case Happens(OutputPacket(id, dest), at) => UpdateLeaves(m.(handed := m.handed + [id]), dest, 0, at);
    case Happens(ForwardPacket(id, dest, orig), at) => UpdateLeaves(m.(handed := m.handed + [id]), dest, orig, at);
    case Happens(Packet(from, p, reverse, life), at) =>
      if p.Rreq? {
        RreqIds(m, from, p, reverse, at);
      } else {
        RrepIds(m, from, p, life, at);
      }
    case Fires(id, at) => FireIds(m, id, at, retries);
  }

  lemma FireIds(m: Node, id: TimerId, at: int, retries: nat)
    ensures var m1, u := Act(m, Fires(id, at), retries), Fires(id, at);
      && m1.rreqId == (m.rreqId + MadeBy(m, u, retries)) % 0x1_0000_0000 && MadeBy(m, u, retries) <= 1
      && m1.ip == m.ip
  {
    hide UpdateRoute, RingTtl, BackoffTime, Arm, Cancel, ById, WithRoute, RequestById, WithRequest, WithoutRequest;
    var n0 := m.(timers := Cancel(m.timers, id));
    if id.RequestTimer? && RequestById(m.requests, id.eid).Some? {
      var q := RequestById(m.requests, id.eid).value;
      UpdateLeaves(n0.(requests := WithRequest(n0.requests, q.(tries := q.tries + 1))), q.dst, 0, at);
    }
  }

  lemma {:induction false} RunIds(n: Node, us: seq<Micro>, retries: nat)
    requires Plain(us)
    ensures var m := Acts(n, us, retries);
      m.rreqId == (n.rreqId + Made(n, us, retries)) % 0x1_0000_0000 && Made(n, us, retries) <= |us| && m.ip == n.ip
  {
    hide Act, MadeBy;
    if us != [] {
      RunIds(n, us[..|us| - 1], retries);
      StepIds(Acts(n, us[..|us| - 1], retries), us[|us| - 1], retries);
    }
  }

  // ----- One request for one destination -----

  /** No request of ours for `dst` but `eid`. */
  ghost predicate Sole(requests: seq<Request>, eid: nat, dst: Addr) {
    forall q :: q in requests && q.tries >= 0 && q.dst == dst ==> q.eid == eid
  }

  /** The step asks for nothing in our name that is for `dst`, and adds no request for it. */
  ghost predicate Quiet(n: Node, m: Node, eid: nat, dst: Addr, u: Micro) {
    && (m.sent == n.sent || exists r :: !Asks(r, n.ip, dst, u) && m.sent == n.sent + [r])
    && (Sole(n.requests, eid, dst) ==> Sole(m.requests, eid, dst))
  }

  lemma QuietLog(n: Node, m: Node, eid: nat, dst: Addr, u: Micro)
    requires Quiet(n, m, eid, dst, u)
    ensures forall nth :: AsksAmong(More(n.sent, m.sent), n.ip, dst, u, nth) == []
  {
    if m.sent != n.sent {
      var r :| !Asks(r, n.ip, dst, u) && m.sent == n.sent + [r];
      assert More(n.sent, m.sent) == [r] && [r][1..] == [];
    }
  }

  lemma SentMore(n: Node, m: Node, r: Message, eid: nat, dst: Addr, u: Micro)
    requires m.sent == n.sent + [r] && !Asks(r, n.ip, dst, u)
    requires Sole(n.requests, eid, dst) ==> Sole(m.requests, eid, dst)
    ensures Quiet(n, m, eid, dst, u)
  {
  }

  lemma SoleWithout(requests: seq<Request>, other: nat, eid: nat, dst: Addr)
    requires Sole(requests, eid, dst)
    ensures Sole(WithoutRequest(requests, other), eid, dst)
  {
    forall q | q in WithoutRequest(requests, other)
      ensures q in requests
    {
      WithoutMembers(requests, other, q);
    }
  }

  lemma SoleWith(requests: seq<Request>, q1: Request, eid: nat, dst: Addr)
    requires Sole(requests, eid, dst) && (q1.tries >= 0 && q1.dst == dst ==> q1.eid == eid)
    ensures Sole(WithRequest(requests, q1), eid, dst)
  {
    WithRequestAt(requests, q1);
    var t := WithRequest(requests, q1);
    forall q | q in t && q.tries >= 0 && q.dst == dst
      ensures q.eid == eid
    {
      var i :| 0 <= i < |t| && t[i] == q;
      assert requests[i] in requests;
    }
  }

  lemma OutputQuiet(n: Node, id: U32, dest: Addr, at: int, eid: nat, dst: Addr)
    requires Waiting(n.requests, dst)
    ensures Quiet(n, Output(n, id, dest, at), eid, dst, Happens(OutputPacket(id, dest), at))
  {
    hide UpdateRoute, Waiting, Routable, RingTtl, BackoffTime, Arm;
    var m, u := Output(n, id, dest, at), Happens(OutputPacket(id, dest), at);
    UpdateLeaves(n.(handed := n.handed + [id]), dest, 0, at);
    if m.sent != n.sent {
      SentMore(n, m, m.sent[|n.sent|], eid, dst, u);
    }
  }

  lemma RreqQuiet(n: Node, from: Addr, p: Message, reverse: Option<nat>, life: Lifetimes, at: int, eid: nat, dst: Addr)
    requires p.Rreq?
    ensures Quiet(n, ProcessRreq(n, from, p, reverse, at), eid, dst, Happens(Packet(from, p, reverse, life), at))
  {
    hide TouchPrevHop, ReverseRoute, Contains, Answers, Find, WithRoute, BackoffTime, Arm, Relayed;
    var m, u := ProcessRreq(n, from, p, reverse, at), Happens(Packet(from, p, reverse, life), at);
    RreqFrame(n, from, p, reverse, at);
    var n1 := TouchPrevHop(n, from, at);
    var n2 := PushRequest(n1, p.id, p.dest, -1, at);
    RreqFrame(n2, from, p, reverse, at);
    if m.sent != n.sent {
      SentMore(n, m, m.sent[|n.sent|], eid, dst, u);
    }
  }

  lemma PassSends(n: Node, from: Addr, p: Message, hops: U8, life: Lifetimes, now: int)
    requires p.Rrep?
    ensures var m := PassOn(n, from, p, hops, life, now);
      m.requests == n.requests && (m.sent == n.sent || exists r: Message :: r.Rrep? && m.sent == n.sent + [r])
  {
    hide Find, WithRoute, Arm;
    if Find(n.table, p.orig).Some? {
      var next := Find(n.table, p.orig).value.nextHop;
      var r := Rrep(next, (p.ttl + 0xFF) % 0x100, hops, p.dest, p.destSeq, p.orig);
      assert PassOn(n, from, p, hops, life, now).sent == n.sent + [r];
    }
  }

  lemma ForwardSends(n: Node, from: Addr, p: Message, now: int)
    requires p.Rrep?
    ensures var m := ForwardRoute(n, from, p, now); m.requests == n.requests && m.sent == n.sent
  {
    hide Find, Arm;
  }

  lemma RrepQuiet(n: Node, from: Addr, p: Message, reverse: Option<nat>, life: Lifetimes, at: int, eid: nat, dst: Addr)
    requires p.Rrep?
    ensures Quiet(n, ProcessRrep(n, from, p, life, at), eid, dst, Happens(Packet(from, p, reverse, life), at))
  {
    hide TouchPrevHop, ForwardRoute, Supersedes, OldEnough, PassOn, Find, WithRoute, WithoutRequest, Arm, Cancel, Sole;
    var m, u := ProcessRrep(n, from, p, life, at), Happens(Packet(from, p, reverse, life), at);
    TouchFrame(n, from, at);
    var n1 := TouchPrevHop(n, from, at);
    ForwardSends(n1, from, p, at);
    var n2 := ForwardRoute(n1, from, p, at);
    if Find(n2.table, p.dest).Some? {
      var hops := (p.hops + 1) % 0x100;
      var r1 := Find(n2.table, p.dest).value.(seqNum := p.destSeq, seqValid := true, nextHop := from, hops := hops);
      var n3 := SetLifetime(n2.(table := WithRoute(n2.table, r1)), r1, life.forward, at);
      PassSends(n3, from, p, hops, life, at);
      forall other | Sole(n.requests, eid, dst)
        ensures Sole(WithoutRequest(n.requests, other), eid, dst)
      {
        SoleWithout(n.requests, other, eid, dst);
      }
    }
  }

  lemma ReactQuiet(n: Node, e: Event, at: int, eid: nat, dst: Addr)
    requires !e.RunAlarms? && Waiting(n.requests, dst)
    ensures Quiet(n, React(n, e, at), eid, dst, Happens(e, at))
  {
    hide Quiet, Waiting, Output, UpdateRoute, ProcessRreq, ProcessRrep;
    match e
    case OutputPacket(id, dest) => OutputQuiet(n, id, dest, at, eid, dst);
    case ForwardPacket(id, dest, orig) => ForwardQuiet(n, id, dest, orig, at, eid, dst);
    case Packet(from, p, reverse, life) =>
      if from == n.ip {
        NothingQuiet(n, n, eid, dst, Happens(e, at));
      } else if p.Rreq? {
        RreqQuiet(n, from, p, reverse, life, at, eid, dst);
      } else {
        RrepQuiet(n, from, p, reverse, life, at, eid, dst);
      }
  }

  lemma ForwardQuiet(n: Node, id: U32, dest: Addr, orig: Addr, at: int, eid: nat, dst: Addr)
    ensures Quiet(n, Forward(n, id, dest, orig, at), eid, dst, Happens(ForwardPacket(id, dest, orig), at))
  {
    hide UpdateRoute;
    UpdateLeaves(n.(handed := n.handed + [id]), dest, orig, at);
  }

  lemma NothingQuiet(n: Node, m: Node, eid: nat, dst: Addr, u: Micro)
    requires m.sent == n.sent && m.requests == n.requests
    ensures Quiet(n, m, eid, dst, u)
  {
  }

  /** The callbacks of other alarms ask for other destinations. */
  lemma FireQuiet(n: Node, id: TimerId, at: int, retries: nat, eid: nat, dst: Addr)
    requires id != RequestTimer(eid) && Sole(n.requests, eid, dst)
    ensures Quiet(n, Act(n, Fires(id, at), retries), eid, dst, Fires(id, at))
  {
    var n0 := n.(timers := Cancel(n.timers, id));
    match id
    case RouteTimer(rid) =>
      hide Arm, Cancel, ById, WithRoute;
      NothingQuiet(n, RouteAlarm(n0, rid, at), eid, dst, Fires(id, at));
    case RequestTimer(other) => OtherQuiet(n0, other, at, retries, eid, dst);
  }

  lemma OtherQuiet(n: Node, other: nat, at: int, retries: nat, eid: nat, dst: Addr)
    requires other != eid && Sole(n.requests, eid, dst)
    ensures Quiet(n, RetryUpTo(n, other, at, retries), eid, dst, Fires(RequestTimer(other), at))
  {
    RequestByIdIn(n.requests, other);
    hide RequestById, WithRequest, WithoutRequest, UpdateRoute, Arm, Cancel, BackoffTime, RingTtl;
    var u := Fires(RequestTimer(other), at);
    match RequestById(n.requests, other)
    case None =>
    case Some(q) =>
      SoleWithout(n.requests, other, eid, dst);
      if 0 <= q.tries < retries {
        assert q.dst != dst;
        var q1 := q.(tries := q.tries + 1);
        var n0 := n.(requests := WithRequest(n.requests, q1));
        SoleWith(n.requests, q1, eid, dst);
        UpdateLeaves(n0, q.dst, 0, at);
        var m := RetryUpTo(n, other, at, retries);
        SoleWith(n0.requests, q1.(id := m.rreqId), eid, dst);
        SentMore(n, m, m.sent[|n.sent|], eid, dst, u);
      }
  }

  // ----- The request's own callback -----

  lemma OwnAsks(n: Node, q: Request, at: int, retries: nat, nth: nat)
    requires Mine(n, q.eid, Some(q), at) && 0 <= q.tries < retries && Sole(n.requests, q.eid, q.dst)
    ensures var m, u := Act(n, Fires(RequestTimer(q.eid), at), retries), Fires(RequestTimer(q.eid), at);
      && Sole(m.requests, q.eid, q.dst) && MadeBy(n, u, retries) == 1
      && AsksAmong(More(n.sent, m.sent), n.ip, q.dst, u, nth) ==
         [Ask(at, Rreq(Ring(q.tries + 1), 5, 0, (n.rreqId + 1) % 0x1_0000_0000, q.dst, 0, n.ip, m.seqNum), nth)]
  {
    TryAgain(n, q, at, retries);
    hide RequestById, WithRequest, UpdateRoute, Arm, Cancel, BackoffTime, RingTtl, OwnDue, Ring;
    var m, u := Act(n, Fires(RequestTimer(q.eid), at), retries), Fires(RequestTimer(q.eid), at);
    OneAsk(n.sent, m.sent, m.sent[|n.sent|], n.ip, q.dst, u, nth);
    hide AsksAmong, More, Asks;
    OwnSole(n, q, at, retries);
  }

  lemma OneAsk(before: seq<Message>, sent: seq<Message>, r: Message, ip: Addr, dst: Addr, u: Micro, nth: nat)
    requires sent == before + [r] && Asks(r, ip, dst, u)
    ensures More(before, sent) == [r] && AsksAmong(More(before, sent), ip, dst, u, nth) == [Ask(u.at, r, nth)]
  {
    assert More(before, sent) == [r] && [r][1..] == [];
    assert AsksAmong([], ip, dst, u, nth) == [];
  }

  lemma OwnSole(n: Node, q: Request, at: int, retries: nat)
    requires RequestById(n.requests, q.eid) == Some(q) && 0 <= q.tries < retries && Sole(n.requests, q.eid, q.dst)
    ensures Sole(Act(n, Fires(RequestTimer(q.eid), at), retries).requests, q.eid, q.dst)
  {
    hide RequestById, WithRequest, UpdateRoute, Arm, Cancel, BackoffTime, RingTtl, Sole;
    var m, q1 := Act(n, Fires(RequestTimer(q.eid), at), retries), q.(tries := q.tries + 1);
    var n0 := n.(timers := Cancel(n.timers, RequestTimer(q.eid)), requests := WithRequest(n.requests, q1));
    SoleWith(n.requests, q1, q.eid, q.dst);
    UpdateLeaves(n0, q.dst, 0, at);
    SoleWith(n0.requests, q1.(id := m.rreqId), q.eid, q.dst);
  }

  // ----- The whole life of a request -----

  /** When a request asks for the `k`-th time; the first time is number 0. */
  function AskTime(start: int, k: nat): int {
    start + 1000 * NET_TRAVERSAL_TIME * (Pow2(k) - 1)
  }

  /** The RREQ asks for `dst` in the name of `n`, with the ring and at the time of that try, and its id is
      that of `n`, counted up with every RREQ made since. */
  ghost predicate AskOk(a: Ask, k: nat, dst: Addr, start: int, n: Node) {
    && a.at == AskTime(start, k) && a.m.Rreq? && a.m.dest == dst && a.m.orig == n.ip
    && a.m.hops == 0 && a.m.ttl == Ring(k) && a.m.flags == 5 && a.m.destSeq == 0
    && a.m.id == (n.rreqId + a.nth) % 0x1_0000_0000
  }

  /** After `f` waits the node has asked for `dst` once at the end of each but the last wait that a request
      may have, and once at the start, each time with the next ring and a later id, and not once besides as
      long as the request is there.  It has made `made` RREQs in all. */
  ghost predicate ScheduleOk(log: seq<Ask>, f: nat, dst: Addr, start: int, retries: nat, n: Node, made: nat) {
    && (f <= retries ==> |log| == f + 1)
    && (f > retries ==> |log| >= retries + 1)
    && (forall k {:trigger AskOk(log[k], k, dst, start, n)} :: 0 <= k <= retries && k <= f ==> AskOk(log[k], k, dst, start, n))
    && (forall k :: 0 <= k < |log| ==> log[k].nth <= made)
    && (forall j, k :: 0 <= j < k <= retries && k <= f ==> log[j].nth < log[k].nth)
  }

  /** The first RREQ of a request, and all that the run asks after it. */
  function WholeLog(n: Node, dst: Addr, start: int, us: seq<Micro>, retries: nat): seq<Ask>
    requires Plain(us)
  {
    var n1 := FindRoute(n, dst, 0, start);
    [Ask(start, n1.sent[|n.sent|], 1)] + AskLog(n1, us, dst, retries)
  }

  /** RREQs of one request carry different ids unless the id has run through all words in between. */
  lemma IdsDiffer(log: seq<Ask>, f: nat, dst: Addr, start: int, retries: nat, n: Node, made: nat, j: nat, k: nat)
    requires ScheduleOk(log, f, dst, start, retries, n, made) && j < k <= retries && k <= f
    ensures log[j].m.Rreq? && log[k].m.Rreq?
    ensures log[j].m.id == log[k].m.id <==> (log[k].nth - log[j].nth) % 0x1_0000_0000 == 0
    ensures made < 0x1_0000_0000 ==> log[j].m.id != log[k].m.id
  {
    assert AskOk(log[j], j, dst, start, n) && AskOk(log[k], k, dst, start, n);
    assert log[j].nth >= 0;
  }

  lemma LogGrows(log: seq<Ask>, more: seq<Ask>, f: nat, dst: Addr, start: int, retries: nat, n: Node, made: nat, m1: nat)
    requires ScheduleOk(log, f, dst, start, retries, n, made) && (more == [] || f > retries) && made <= m1
    requires forall k :: 0 <= k < |more| ==> more[k].nth <= m1
    ensures ScheduleOk(log + more, f, dst, start, retries, n, m1)
  {
    forall k | 0 <= k <= retries && k <= f
      ensures AskOk((log + more)[k], k, dst, start, n)
    {
      assert AskOk(log[k], k, dst, start, n);
    }
  }

  lemma LogRound(log: seq<Ask>, more: seq<Ask>, f: nat, dst: Addr, start: int, retries: nat, n: Node, made: nat)
    requires ScheduleOk(log, f, dst, start, retries, n, made) && f < retries
    requires |more| == 1 && AskOk(more[0], f + 1, dst, start, n) && more[0].nth == made + 1
    ensures ScheduleOk(log + more, f + 1, dst, start, retries, n, made + 1)
  {
    forall k | 0 <= k <= retries && k <= f + 1
      ensures AskOk((log + more)[k], k, dst, start, n)
    {
      if k <= f {
        assert AskOk(log[k], k, dst, start, n);
      }
    }
  }

  lemma LogEnds(log: seq<Ask>, more: seq<Ask>, dst: Addr, start: int, retries: nat, n: Node, made: nat)
    requires ScheduleOk(log, retries, dst, start, retries, n, made) && more == []
    ensures ScheduleOk(log + more, retries + 1, dst, start, retries, n, made)
  {
    assert log + more == log;
  }

  lemma Sooner(n: Node, us: seq<Micro>, eid: nat, retries: nat)
    requires us != [] && Plain(us) && OnTime(n, us, eid, retries) && Unanswered(n, us, eid, retries)
    ensures Plain(us[..|us| - 1])
    ensures OnTime(n, us[..|us| - 1], eid, retries) && Unanswered(n, us[..|us| - 1], eid, retries)
    ensures var u := us[|us| - 1];
      && (u.Happens? ==> !u.e.RunAlarms?)
      && (u.Fires? && u.id == RequestTimer(eid) ==> Armed(u.id, u.at) in Acts(n, us[..|us| - 1], retries).timers)
  {
    hide Acts;
  }

  lemma FirstAsk(n: Node, dst: Addr, start: int, retries: nat)
    requires !Waiting(n.requests, dst)
    ensures ScheduleOk(WholeLog(n, dst, start, [], retries), 0, dst, start, retries, n, 1)
    ensures Sole(FindRoute(n, dst, 0, start).requests, n.nextId, dst)
  {
    hide Arm, BackoffTime;
    WaitingMember(n.requests, dst);
    var log := WholeLog(n, dst, start, [], retries);
    assert log == [log[0]];
    assert AskOk(log[0], 0, dst, start, n);
  }

  /** What is known while the request lives: its rounds, the log, and the counter of ids. */
  ghost predicate AskingOk(m: Node, rounds: seq<Round>, eid: nat, dst: Addr, start: int, retries: nat, log: seq<Ask>, n: Node,
                           made: nat)
  {
    && LifeOk(m, rounds, eid, dst, start, retries) && ScheduleOk(log, |rounds|, dst, start, retries, n, made)
    && (|rounds| <= retries ==> Sole(m.requests, eid, dst))
    && m.rreqId == (n.rreqId + made) % 0x1_0000_0000 && m.ip == n.ip
  }

  lemma AskingFrom(m: Node, rounds: seq<Round>, eid: nat, dst: Addr, start: int, retries: nat, log: seq<Ask>, n: Node,
                   n1: Node, since: nat)
    requires LifeOk(m, rounds, eid, dst, start, retries) && ScheduleOk(log, |rounds|, dst, start, retries, n, 1 + since)
    requires |rounds| <= retries ==> Sole(m.requests, eid, dst)
    requires n1.rreqId == (n.rreqId + 1) % 0x1_0000_0000 && n1.ip == n.ip
    requires m.rreqId == (n1.rreqId + since) % 0x1_0000_0000 && m.ip == n1.ip
    ensures AskingOk(m, rounds, eid, dst, start, retries, log, n, 1 + since)
  {
  }

  lemma NthAmong(ms: seq<Message>, ip: Addr, dst: Addr, u: Micro, nth: nat)
    ensures forall a :: a in AsksAmong(ms, ip, dst, u, nth) ==> a.nth == nth
  {
  }

  lemma OtherStep(m: Node, rounds: seq<Round>, eid: nat, dst: Addr, start: int, retries: nat, u: Micro, log: seq<Ask>, n: Node,
                  made: nat)
    requires AskingOk(m, rounds, eid, dst, start, retries, log, n, made) && !(u.Fires? && u.id == RequestTimer(eid))
    requires u.Happens? ==> !u.e.RunAlarms?
    ensures var m1, made1 := Act(m, u, retries), made + MadeBy(m, u, retries);
      && ScheduleOk(log + AsksAmong(More(m.sent, m1.sent), m.ip, dst, u, made1), |rounds|, dst, start, retries, n, made1)
      && (|rounds| <= retries ==> Sole(m1.requests, eid, dst))
  {
    var m1, made1 := Act(m, u, retries), made + MadeBy(m, u, retries);
    NthAmong(More(m.sent, m1.sent), m.ip, dst, u, made1);
    if |rounds| <= retries {
      RequestByIdIn(m.requests, eid);
      WaitingMember(m.requests, dst);
      hide React, RouteAlarm, RetryUpTo, Sole, RoundOk, RequestById, Waiting, ScheduleOk, AsksAmong;
      match u {
        case Happens(e, at) => ReactQuiet(m, e, at, eid, dst);
        case Fires(id, at) => FireQuiet(m, id, at, retries, eid, dst);
      }
      QuietLog(m, m1, eid, dst, u);
    }
    assert ScheduleOk(log, |rounds|, dst, start, retries, n, made);
    hide *;
    LogGrows(log, AsksAmong(More(m.sent, m1.sent), m.ip, dst, u, made1), |rounds|, dst, start, retries, n, made, made1);
  }

  lemma OwnRound(m: Node, rounds: seq<Round>, eid: nat, dst: Addr, start: int, retries: nat, at: int, log: seq<Ask>, n: Node,
                 made: nat)
    requires AskingOk(m, rounds, eid, dst, start, retries, log, n, made) && Armed(RequestTimer(eid), at) in m.timers
    ensures var u := Fires(RequestTimer(eid), at);
      var m1, made1 := Act(m, u, retries), made + MadeBy(m, u, retries);
      && ScheduleOk(log + AsksAmong(More(m.sent, m1.sent), m.ip, dst, u, made1), |rounds| + 1, dst, start, retries, n, made1)
      && (|rounds| + 1 <= retries ==> Sole(m1.requests, eid, dst))
  {
    hide RequestById, RetryUpTo, Pow2, Ring, Sole, ScheduleOk, RoundOk, AsksAmong;
    var f, u := |rounds|, Fires(RequestTimer(eid), at);
    var m1 := Act(m, u, retries);
    assert f <= retries && at == Deadline(start, f);
    var q := RequestById(m.requests, eid).value;
    if f < retries {
      OwnAsks(m, q, at, retries, made + 1);
      LogRound(log, AsksAmong(More(m.sent, m1.sent), m.ip, dst, u, made + 1), f, dst, start, retries, n, made);
    } else {
      GiveUp(m, q, at, retries);
      assert More(m.sent, m1.sent) == [];
      NoneAsk(m.ip, dst, u, made);
      LogEnds(log, [], dst, start, retries, n, made);
    }
  }

  lemma NoneAsk(ip: Addr, dst: Addr, u: Micro, nth: nat)
    ensures AsksAmong([], ip, dst, u, nth) == []
  {
  }

  /** What the last step adds to the state, the rounds and the log. */
  lemma LastStep(n: Node, dst: Addr, start: int, us: seq<Micro>, eid: nat, retries: nat)
    requires us != [] && Plain(us)
    ensures var n1, before, u := FindRoute(n, dst, 0, start), us[..|us| - 1], us[|us| - 1];
      && Plain(before) && (u.Happens? ==> !u.e.RunAlarms?)
      && (var m := Acts(n1, before, retries);
          var m1 := Act(m, u, retries);
          && Acts(n1, us, retries) == m1 && Made(n1, us, retries) == Made(n1, before, retries) + MadeBy(m, u, retries)
          && |Rounds(n1, us, eid, retries)| ==
             |Rounds(n1, before, eid, retries)| + (if u.Fires? && u.id == RequestTimer(eid) then 1 else 0)
          && WholeLog(n, dst, start, us, retries) ==
             WholeLog(n, dst, start, before, retries)
             + AsksAmong(More(m.sent, m1.sent), m.ip, dst, u, 1 + Made(n1, us, retries)))
  {
    hide FindRoute, Act, AsksAmong, More, MadeBy;
  }

  lemma FirstId(n: Node, dst: Addr, start: int)
    ensures var n1 := FindRoute(n, dst, 0, start); n1.rreqId == (n.rreqId + 1) % 0x1_0000_0000 && n1.ip == n.ip
  {
    hide Arm, BackoffTime, RingTtl;
  }

  /** What the run asks for `dst` is what the schedule says. */
  ghost predicate Scheduled(n: Node, dst: Addr, start: int, us: seq<Micro>, retries: nat)
    requires Plain(us)
  {
    var n1 := FindRoute(n, dst, 0, start);
    var f, made := |Rounds(n1, us, n.nextId, retries)|, 1 + Made(n1, us, retries);
    && made <= 1 + |us|
    && ScheduleOk(WholeLog(n, dst, start, us, retries), f, dst, start, retries, n, made)
    && (f <= retries ==> Sole(Acts(n1, us, retries).requests, n.nextId, dst))
  }

  lemma ScheduledFirst(n: Node, dst: Addr, start: int, retries: nat)
    requires !Waiting(n.requests, dst)
    ensures Scheduled(n, dst, start, [], retries)
  {
    FirstAsk(n, dst, start, retries);
  }

  lemma ScheduledNext(n: Node, dst: Addr, start: int, us: seq<Micro>, retries: nat, u: Micro, m: Node, rounds: seq<Round>,
                      since: nat)
    requires us != [] && Plain(us) && Plain(us[..|us| - 1]) && Scheduled(n, dst, start, us[..|us| - 1], retries)
    requires var n1, before := FindRoute(n, dst, 0, start), us[..|us| - 1];
      && u == us[|us| - 1] && m == Acts(n1, before, retries) && rounds == Rounds(n1, before, n.nextId, retries)
      && since == Made(n1, before, retries)
    requires LifeOk(m, rounds, n.nextId, dst, start, retries)
    requires u.Fires? && u.id == RequestTimer(n.nextId) ==> Armed(u.id, u.at) in m.timers
    ensures Scheduled(n, dst, start, us, retries)
  {
    hide *;
    var n1, eid, log := FindRoute(n, dst, 0, start), n.nextId, WholeLog(n, dst, start, us[..|us| - 1], retries);
    LastPlain(us);
    var m1 := Act(m, u, retries);
    var since1 := since + MadeBy(m, u, retries);
    LastStep(n, dst, start, us, eid, retries);
    FirstId(n, dst, start);
    RunIds(n1, us[..|us| - 1], retries);
    RunIds(n1, us, retries);
    ScheduledGives(n, dst, start, us[..|us| - 1], retries, n1, m, log, |rounds|, since);
    var own := u.Fires? && u.id == RequestTimer(eid);
    var log1 := log + AsksAmong(More(m.sent, m1.sent), m.ip, dst, u, 1 + since1);
    AskingFrom(m, rounds, eid, dst, start, retries, log, n, n1, since);
    if own {
      OwnRound(m, rounds, eid, dst, start, retries, u.at, log, n, 1 + since);
      ScheduledIs(n, dst, start, us, retries, n1, m1, log1, |rounds| + 1, since1);
    } else {
      OtherStep(m, rounds, eid, dst, start, retries, u, log, n, 1 + since);
      ScheduledIs(n, dst, start, us, retries, n1, m1, log1, |rounds|, since1);
    }
  }

  lemma LastPlain(us: seq<Micro>)
    requires us != [] && Plain(us)
    ensures var u := us[|us| - 1]; u.Happens? ==> !u.e.RunAlarms?
  {
  }

  lemma ScheduledGives(n: Node, dst: Addr, start: int, us: seq<Micro>, retries: nat, n1: Node, m: Node, log: seq<Ask>, f: nat,
                       since: nat)
    requires Plain(us) && n1 == FindRoute(n, dst, 0, start) && m == Acts(n1, us, retries)
    requires since == Made(n1, us, retries) && log == WholeLog(n, dst, start, us, retries)
    requires f == |Rounds(n1, us, n.nextId, retries)| && Scheduled(n, dst, start, us, retries)
    ensures ScheduleOk(log, f, dst, start, retries, n, 1 + since) && (f <= retries ==> Sole(m.requests, n.nextId, dst))
  {
    hide FindRoute, Acts, Made, WholeLog, Rounds, ScheduleOk, Sole;
  }

  lemma ScheduledIs(n: Node, dst: Addr, start: int, us: seq<Micro>, retries: nat, n1: Node, m: Node, log: seq<Ask>, f: nat,
                    since: nat)
    requires Plain(us) && n1 == FindRoute(n, dst, 0, start) && m == Acts(n1, us, retries)
    requires since == Made(n1, us, retries) <= |us| && log == WholeLog(n, dst, start, us, retries)
    requires f == |Rounds(n1, us, n.nextId, retries)|
    requires ScheduleOk(log, f, dst, start, retries, n, 1 + since) && (f <= retries ==> Sole(m.requests, n.nextId, dst))
    ensures Scheduled(n, dst, start, us, retries)
  {
    hide FindRoute, Acts, Made, WholeLog, Rounds, ScheduleOk, Sole;
  }

  /** Unless a reply removes it, a request of ours for a destination that none was out for makes the node
      ask exactly `retries + 1` times for it, at the doubling times, with widening rings and later ids, and
      while it is there nothing else makes the node ask for that destination. */
  lemma {:induction false} AsksOnSchedule(n: Node, dst: Addr, start: int, us: seq<Micro>, retries: nat)
    requires Pow2(retries) * NET_TRAVERSAL_TIME < 0x1_0000_0000 && Plain(us) && !Waiting(n.requests, dst)
    requires var n1 := FindRoute(n, dst, 0, start);
      OnTime(n1, us, n.nextId, retries) && Unanswered(n1, us, n.nextId, retries)
    ensures Scheduled(n, dst, start, us, retries)
  {
    hide Scheduled, FindRoute, Act, OnTime, Unanswered, LifeOk, Acts, Rounds, Made, Waiting, Pow2, AskedFirst;
    var n1 := FindRoute(n, dst, 0, start);
    if us == [] {
      ScheduledFirst(n, dst, start, retries);
    } else {
      var before := us[..|us| - 1];
      Sooner(n1, us, n.nextId, retries);
      AsksOnSchedule(n, dst, start, before, retries);
      Lifecycle(n, dst, start, before, retries);
      ScheduledNext(n, dst, start, us, retries, us[|us| - 1], Acts(n1, before, retries),
                    Rounds(n1, before, n.nextId, retries), Made(n1, before, retries));
    }
  }

  /** The same over any run of the node: packets, messages and alarm runs in any order. */
  lemma RunAsksOnSchedule(n: Node, dst: Addr, start: int, run: seq<Timed>)
    requires Inv(n) && !Waiting(n.requests, dst)
    requires Runs(FindRoute(n, dst, 0, start), run) && Undisturbed(FindRoute(n, dst, 0, start), run, n.nextId)
    ensures var n1 := FindRoute(n, dst, 0, start);
      var us := MicrosOf(n1, run);
      && Scheduled(n, dst, start, us, RREQ_RETRIES)
      && ByNumbers(WholeLog(n, dst, start, us, RREQ_RETRIES), |Rounds(n1, us, n.nextId, RREQ_RETRIES)|, start)
  {
    var n1, eid := FindRoute(n, dst, 0, start), n.nextId;
    FindRouteKeeps(n, dst, 0, start);
    LifeBegins(n, dst, start, RREQ_RETRIES);
    assert Pow2(RREQ_RETRIES) == 4;
    hide InvBut, FindRoute, Mine, Runs, Undisturbed, OnTime, Unanswered, MicrosOf, RoundOk, ScheduleOk, HeldOk, Scheduled,
      ByNumbers;
    RunUndisturbed(n1, run, eid, RequestById(n1.requests, eid), Deadline(start, 0));
    var us := MicrosOf(n1, run);
    AsksOnSchedule(n, dst, start, us, RREQ_RETRIES);
    TimesByNumbers(n, us, dst, start);
  }

  /** The daemon asks at once with time to live 3, after 2.8 seconds with 5, and after 8.4 seconds with 7. */
  ghost predicate ByNumbers(log: seq<Ask>, f: nat, start: int) {
    && |log| >= 1 && log[0].at == start && log[0].m.Rreq? && log[0].m.ttl == 3
    && (f >= 1 ==> |log| >= 2 && log[1].at == start + 2_800_000 && log[1].m.Rreq? && log[1].m.ttl == 5)
    && (f >= 2 ==> |log| >= 3 && log[2].at == start + 8_400_000 && log[2].m.Rreq? && log[2].m.ttl == 7)
    && (f <= 2 ==> |log| == f + 1)
  }

  lemma TimesByNumbers(n: Node, us: seq<Micro>, dst: Addr, start: int)
    requires Plain(us) && Scheduled(n, dst, start, us, RREQ_RETRIES)
    ensures ByNumbers(WholeLog(n, dst, start, us, RREQ_RETRIES),
                      |Rounds(FindRoute(n, dst, 0, start), us, n.nextId, RREQ_RETRIES)|, start)
  {
    hide FindRoute, WholeLog, Rounds, Made, Acts, Sole;
    var log := WholeLog(n, dst, start, us, RREQ_RETRIES);
    var f := |Rounds(FindRoute(n, dst, 0, start), us, n.nextId, RREQ_RETRIES)|;
    assert AskOk(log[0], 0, dst, start, n);
    assert f >= 1 ==> AskOk(log[1], 1, dst, start, n);
    assert f >= 2 ==> AskOk(log[2], 2, dst, start, n);
    assert Pow2(0) == 1 && Pow2(1) == 2 && Pow2(2) == 4;
  }
}
