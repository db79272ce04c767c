/** One node: `logic.c`, `rreq_fifo.c`, `packets_fifo.c`, `routing_table.c`, `msh_route.c` and
    `manage_output_packet` as functions on the daemon's state. */
module Node {
  import opened Config
  import opened Routes
  import opened AlarmSpec
  import opened Wrappers

  /** `struct rreq_fifo`: `tries` is -1 for a RREQ of somebody else. */
  datatype Request = Request(eid: nat, id: U32, dst: Addr, tries: int)

  /** `struct packets_fifo`: a packet the kernel holds for us. */
  datatype Held = Held(id: U32, dst: Addr)

  datatype TimerId = RouteTimer(rid: nat) | RequestTimer(eid: nat)

  /** An outgoing AODV packet. */
  datatype Message =
    | Rreq(ttl: U8, flags: U8, hops: U8, id: U32, dest: Addr, destSeq: U32, orig: Addr, origSeq: U32)
    | Rrep(to: Addr, ttl: U8, hops: U8, dest: Addr, destSeq: U32, orig: Addr)

  const DEFAULT_TTL: U8 := 64
  const GRATUITOUS_FLAG: U8 := 4
  const UNKNOWN_SEQ_FLAG: U8 := 1

  predicate DestOnly(flags: U8) {
    flags / 2 % 2 == 1
  }

  /** The global `data`.  `sent`, `accepted`, `dropped` and `handed` log AODV packets sent, verdicts
      given and packets taken from the kernel; `invalidSince` and `destroyed` log route expiry. */
  datatype Node = Node(
    ip: Addr, broadcast: Addr, seqNum: U32, rreqId: U32,
    table: seq<Route>, requests: seq<Request>, held: seq<Held>, timers: seq<Armed<TimerId>>, nextId: nat,
    sent: seq<Message>, handed: seq<U32>, accepted: seq<U32>, dropped: seq<U32>,
    invalidSince: map<nat, int>, destroyed: seq<Destruction>)

  datatype Destruction = Destruction(rid: nat, invalidAt: int, at: int)

  function Initial(ip: Addr, broadcast: Addr): Node {
    Node(ip, broadcast, 0, 0, [], [], [], [], 0, [], [], [], [], map[], [])
  }

  /** `set_alarm_time` and `add_alarm`: milliseconds from now. */
  function Due(now: int, ms: nat): int {
    now + 1000 * ms
  }

  // ----- packets_fifo.c -----

  function Matching(held: seq<Held>, r: Route): seq<U32> {
    if held == [] then []
    else if Covers(r, held[0].dst) then [held[0].id] + Matching(held[1..], r)
    else Matching(held[1..], r)
  }

  function NotMatching(held: seq<Held>, r: Route): seq<Held> {
    if held == [] then []
    else if Covers(r, held[0].dst) then NotMatching(held[1..], r)
    else [held[0]] + NotMatching(held[1..], r)
  }

  /** `packets_fifo_process_route`: packets the route covers are accepted, the others stay in order. */
  function ProcessRoute(n: Node, r: Route): Node {
    n.(held := NotMatching(n.held, r), accepted := n.accepted + Matching(n.held, r))
  }

  function IdsFor(held: seq<Held>, dst: Addr): seq<U32> {
    if held == [] then []
    else if held[0].dst == dst then [held[0].id] + IdsFor(held[1..], dst)
    else IdsFor(held[1..], dst)
  }

  function NotFor(held: seq<Held>, dst: Addr): seq<Held> {
    if held == [] then []
    else if held[0].dst == dst then NotFor(held[1..], dst)
    else [held[0]] + NotFor(held[1..], dst)
  }

  /** `packets_fifo_drop_packets`. */
  function DropPackets(n: Node, dst: Addr): Node {
    n.(held := NotFor(n.held, dst), dropped := n.dropped + IdsFor(n.held, dst))
  }

  // ----- routing_table.c and msh_route.c -----

  /** `msh_route_set_lifetime`. */
  function SetLifetime(n: Node, r: Route, ms: nat, now: int): Node {
    n.(table := WithRoute(n.table, r.(valid := true, action := UnsetValidEntry)),
       timers := Arm(n.timers, RouteTimer(r.rid), Due(now, ms)))
  }

  /** `routing_table_add` of a route that is not in the table yet. */
  function AddRoute(n: Node, r: Route, now: int): Node {
    if Find(n.table, r.dst).Some? then n
    else
      var r' := r.(valid := true, action := UnsetValidEntry);
      ProcessRoute(n.(table := [r'] + n.table, timers := Arm(n.timers, RouteTimer(r.rid), Due(now, ACTIVE_ROUTE_TIMEOUT))), r')
  }

  /** The part of a step that creates or refreshes the route to the previous hop. */
  function TouchPrevHop(n: Node, from: Addr, now: int): Node {
    match Find(n.table, from)
    case Some(r) => SetLifetime(n, r, ACTIVE_ROUTE_TIMEOUT, now)
    case None => AddRoute(n.(nextId := n.nextId + 1), NewRoute(n.nextId, from).(nextHop := from), now)
  }

  /** The route to `a` and the one to its next hop, if any, are in use. */
  function RefreshTo(n: Node, a: Addr, now: int): Node {
    match Find(n.table, a)
    case None => n
    case Some(r) =>
      var n1 := SetLifetime(n, r, ACTIVE_ROUTE_TIMEOUT, now);
      if r.nextHop == a then n1
      else match Find(n1.table, r.nextHop)
        case None => n1
        case Some(h) => SetLifetime(n1, h, ACTIVE_ROUTE_TIMEOUT, now)
  }

  predicate Routable(n: Node, dst: Addr) {
    dst == n.ip || (Find(n.table, dst).Some? && Find(n.table, dst).value.valid)
  }

  /** `routing_table_update_route`: its result is `Routable(n, dst)`. */
  function UpdateRoute(n: Node, dst: Addr, orig: Addr, now: int): Node {
    if !Routable(n, dst) then n
    else
      var n1 := if dst == n.ip then n else RefreshTo(n, dst, now);
      if orig == 0 then n1 else RefreshTo(n1, orig, now)
  }

  // ----- rreq_fifo.c -----

  /** `rreq_fifo_contains`. */
  predicate Contains(requests: seq<Request>, id: U32, dst: Addr) {
    exists i :: 0 <= i < |requests| && requests[i].id == id && requests[i].dst == dst
  }

  /** `rreq_fifo_waiting_response_for`. */
  predicate Waiting(requests: seq<Request>, dst: Addr) {
    exists i :: 0 <= i < |requests| && requests[i].tries >= 0 && requests[i].dst == dst
  }

  /** `rreq_fifo_push` for `tries == -1`, `rreq_fifo_push_owned` otherwise. */
  function PushRequest(n: Node, id: U32, dst: Addr, tries: int, now: int): Node
    requires tries >= -1
  {
    var ms := if tries < 0 then PATH_DISCOVERY_TIME else BackoffTime(tries);
    n.(requests := [Request(n.nextId, id, dst, tries)] + n.requests,
       timers := Arm(n.timers, RequestTimer(n.nextId), Due(now, ms)),
       nextId := n.nextId + 1)
  }

  function WithoutRequest(requests: seq<Request>, eid: nat): seq<Request> {
    if requests == [] then []
    else if requests[0].eid == eid then WithoutRequest(requests[1..], eid)
    else [requests[0]] + WithoutRequest(requests[1..], eid)
  }

  function WithRequest(requests: seq<Request>, q: Request): seq<Request> {
    if requests == [] then []
    else [if requests[0].eid == q.eid then q else requests[0]] + WithRequest(requests[1..], q)
  }

  function RequestById(requests: seq<Request>, eid: nat): Option<Request> {
    if requests == [] then None
    else if requests[0].eid == eid then Some(requests[0])
    else RequestById(requests[1..], eid)
  }

  /** `__rreq_fifo_entry_delete`. */
  function DeleteRequest(n: Node, eid: nat): Node {
    n.(requests := WithoutRequest(n.requests, eid), timers := Cancel(n.timers, RequestTimer(eid)))
  }

  /** The entry `rreq_fifo_del` picks: the newest for `dst` with an id up to `id`. */
  function OldEnough(requests: seq<Request>, id: U32, dst: Addr): Option<Request> {
    if requests == [] then None
    else if requests[0].id <= id && requests[0].dst == dst then Some(requests[0])
    else OldEnough(requests[1..], id, dst)
  }

  /** `rreq_fifo_del`. */
  function Answered(n: Node, id: U32, dst: Addr): Node {
    match OldEnough(n.requests, id, dst)
    case None => n
    case Some(q) => DeleteRequest(n, q.eid)
  }

  // ----- logic.c -----

  /** `aodv_find_route`, always called without an invalid route. */
  function FindRoute(n: Node, dest: Addr, tries: nat, now: int): Node {
    var n1 := n.(seqNum := Increment(n.seqNum), rreqId := Increment(n.rreqId));
    var n2 := if tries == 0 then PushRequest(n1, n1.rreqId, dest, 0, now) else n1;
    n2.(sent := n2.sent + [Rreq(RingTtl(0, tries), GRATUITOUS_FLAG + UNKNOWN_SEQ_FLAG, 0, n1.rreqId, dest, 0, n.ip, n1.seqNum)])
  }

  /** `manage_output_packet`. */
  function Output(n: Node, id: U32, dest: Addr, now: int): Node {
    var n0 := n.(handed := n.handed + [id]);
    if dest == n.broadcast || Routable(n, dest) then
      var n1 := if dest == n.broadcast then n0 else UpdateRoute(n0, dest, 0, now);
      n1.(accepted := n1.accepted + [id])
    else
      var n1 := n0.(held := [Held(id, dest)] + n0.held);
      if Waiting(n1.requests, dest) then n1 else FindRoute(n1, dest, 0, now)
  }

  /** `manage_forward_packet`: always accepted. */
  function Forward(n: Node, id: U32, dest: Addr, orig: Addr, now: int): Node {
    var n0 := n.(handed := n.handed + [id]);
    var n1 := if dest == n.broadcast then n0 else UpdateRoute(n0, dest, orig, now);
    n1.(accepted := n1.accepted + [id])
  }

  /** The part of `aodv_process_rreq` that records the way back to the originator; `life` is the
      lifetime it may get. */
  function ReverseRoute(n: Node, from: Addr, p: Message, life: Option<nat>, now: int): Node
    requires p.Rreq?
  {
    match Find(n.table, p.orig)
    case Some(r) =>
      var r1 := r.(seqValid := true, nextHop := from, hops := p.hops,
                   seqNum := if Signed(r.seqNum) < Signed(p.origSeq) then p.origSeq else r.seqNum);
      var n1 := n.(table := WithRoute(n.table, r1));
      (match life case Some(ms) => SetLifetime(n1, r1, ms, now) case None => n1)
    case None =>
      var r := NewRoute(n.nextId, p.orig).(seqNum := p.origSeq, nextHop := from, hops := p.hops, seqValid := true);
      var ms := match life case Some(ms) => ms case None => 0;
      AddRoute(n.(nextId := n.nextId + 1, timers := Arm(n.timers, RouteTimer(r.rid), Due(now, ms))), r, now)
  }

  /** Whether `aodv_answer_to_rreq` answers at all. */
  predicate Answers(n: Node, p: Message)
    requires p.Rreq?
  {
    p.dest == n.ip || (Find(n.table, p.dest).Some? && Signed(p.destSeq) >= Signed(n.seqNum) && !DestOnly(p.flags))
  }

  /** `aodv_answer_to_rreq`: only the destination itself sends its answer. */
  function AnswerRreq(n: Node, from: Addr, p: Message): Node
    requires p.Rreq? && Answers(n, p)
  {
    if p.dest == n.ip then
      var seqNum := if p.destSeq == n.seqNum then Increment(n.seqNum) else n.seqNum;
      n.(seqNum := seqNum, sent := n.sent + [Rrep(from, DEFAULT_TTL, 0, n.ip, seqNum, p.orig)])
    else
      var toDest := Find(n.table, p.dest).value;
      var n1 := n.(table := WithRoute(n.table, AddPrecursor(toDest, from)));
      match Find(n1.table, p.orig)
      case None => n1
      case Some(r) => n1.(table := WithRoute(n1.table, AddPrecursor(r, toDest.nextHop)))
  }

  /** A RREQ as it is broadcast again. */
  function Relayed(p: Message): Message
    requires p.Rreq? && p.ttl > 1
  {
    Rreq(p.ttl - 1, p.flags, (p.hops + 1) % 0x100, p.id, p.dest, p.destSeq, p.orig, p.origSeq)
  }

  /** `aodv_process_rreq`. */
  function ProcessRreq(n: Node, from: Addr, p: Message, life: Option<nat>, now: int): Node
    requires p.Rreq?
  {
    var n1 := TouchPrevHop(n, from, now);
    if Contains(n1.requests, p.id, p.dest) then n1
    else
      var n2 := PushRequest(n1, p.id, p.dest, -1, now);
      var n3 := ReverseRoute(n2, from, p, life, now);
      if Answers(n3, p) then AnswerRreq(n3, from, p)
      else if p.ttl > 1 then n3.(sent := n3.sent + [Relayed(p)])
      else n3
  }

  /** The forward route a RREP sets up, created if there is none. */
  function ForwardRoute(n: Node, from: Addr, p: Message, now: int): Node
    requires p.Rrep?
  {
    if Find(n.table, p.dest).Some? then n
    else AddRoute(n.(nextId := n.nextId + 1),
                  NewRoute(n.nextId, p.dest).(nextHop := from, seqNum := p.destSeq, seqValid := true), now)
  }

  /** When a RREP, counted to `hops`, replaces what the table says. */
  predicate Supersedes(r: Route, p: Message, hops: U8)
    requires p.Rrep?
  {
    || !r.seqValid
    || Signed(p.destSeq) > Signed(r.seqNum)
    || (p.destSeq == r.seqNum && !r.valid)
    || hops == r.hops
  }

  /** The lifetimes a RREP may give: to the forward route, and to the route to the next hop. */
  datatype Lifetimes = Lifetimes(forward: nat, next: Option<nat>)

  /** Sending a RREP on towards the originator. */
  function PassOn(n: Node, from: Addr, p: Message, hops: U8, life: Lifetimes, now: int): Node
    requires p.Rrep?
  {
    match Find(n.table, p.orig)
    case None => n
    case Some(back) =>
      var next := back.nextHop;
      var n1 := n.(sent := n.sent + [Rrep(next, (p.ttl + 0xFF) % 0x100, hops, p.dest, p.destSeq, p.orig)]);
      var n2 := if p.dest == next then n1 else NotePrecursor(n1, p.dest, next);
      var n3 := match life.next
        case None => n2
        case Some(ms) => (match Find(n2.table, next) case None => n2 case Some(r) => SetLifetime(n2, r, ms, now));
      NotePrecursor(n3, from, next)
  }

  /** `msh_route_add_precursor` on the route to `a`. */
  function NotePrecursor(n: Node, a: Addr, precursor: Addr): Node {
    match Find(n.table, a)
    case None => n
    case Some(r) => n.(table := WithRoute(n.table, AddPrecursor(r, precursor)))
  }

  /** `aodv_process_rrep`. */
  function ProcessRrep(n: Node, from: Addr, p: Message, life: Lifetimes, now: int): Node
    requires p.Rrep?
  {
    var n1 := TouchPrevHop(n, from, now);
    var hops := (p.hops + 1) % 0x100;
    var created := Find(n1.table, p.dest).None?;
    var n2 := ForwardRoute(n1, from, p, now);
    match Find(n2.table, p.dest)
    case None => n2
    case Some(r) =>
      if !created && !Supersedes(r, p, hops) then n2
      else
        var r1 := r.(seqNum := p.destSeq, seqValid := true, nextHop := from, hops := hops);
        var n3 := SetLifetime(n2.(table := WithRoute(n2.table, r1)), r1, life.forward, now);
        if n.ip == p.orig then Answered(n3, n3.rreqId, p.dest)
        else PassOn(n3, from, p, hops, life, now)
  }

  /** `aodv_process_packet` of a packet that passed `aodv_pkt_check`: our own are ignored. */
  function Receive(n: Node, from: Addr, p: Message, reverse: Option<nat>, life: Lifetimes, now: int): Node {
    if from == n.ip then n
    else if p.Rreq? then ProcessRreq(n, from, p, reverse, now)
    else ProcessRrep(n, from, p, life, now)
  }

  // ----- Alarms -----

  /** `__msh_route_alarm_cb`. */
  function RouteAlarm(n: Node, rid: nat, now: int): Node {
    match ById(n.table, rid)
    case None => n
    case Some(r) =>
      if r.action == UnsetValidEntry then
        n.(table := WithRoute(n.table, r.(valid := false, action := DestroyRoute)),
           timers := Arm(n.timers, RouteTimer(rid), Due(now, DELETE_PERIOD)),
           invalidSince := n.invalidSince[rid := now])
      else if r.action == DestroyRoute then
        var since := if rid in n.invalidSince then n.invalidSince[rid] else now;
        n.(table := WithoutRoute(n.table, rid),
           timers := Cancel(n.timers, RouteTimer(rid)),
           destroyed := n.destroyed + [Destruction(rid, since, now)])
      else n
  }

  /** `__rreq_fifo_alarm_cb`. */
  function RequestAlarm(n: Node, eid: nat, now: int): Node {
    RetryUpTo(n, eid, now, RREQ_RETRIES)
  }

  function RetryUpTo(n: Node, eid: nat, now: int, retries: nat): Node {
    match RequestById(n.requests, eid)
    case None => n
    case Some(q) =>
      if q.tries < 0 then DeleteRequest(n, eid)
      else if q.tries + 1 > retries then DropPackets(DeleteRequest(n, eid), q.dst)
      else
        var q1 := q.(tries := q.tries + 1);
        var n1 := UpdateRoute(n.(requests := WithRequest(n.requests, q1)), q.dst, 0, now);
        var n2 := n1.(timers := Arm(n1.timers, RequestTimer(eid), Due(now, BackoffTime(q1.tries))));
        var n3 := FindRoute(n2, q.dst, q1.tries, now);
        n3.(requests := WithRequest(n3.requests, q1.(id := n3.rreqId)))
  }

  /** An alarm that has left the queue runs its callback. */
  function Fire(n: Node, id: TimerId, now: int): Node {
    match id
    case RouteTimer(rid) => RouteAlarm(n, rid, now)
    case RequestTimer(eid) => RequestAlarm(n, eid, now)
  }

  /** The second loop of `do_alarm_run`; the clock stands at `clocks[i]` for the `i`-th callback. */
  function FireAll(n: Node, ids: seq<TimerId>, clocks: seq<int>): Node
    requires |ids| == |clocks|
    decreases ids
  {
    if ids == [] then n
    else FireAll(Fire(n.(timers := Cancel(n.timers, ids[0])), ids[0], clocks[0]), ids[1..], clocks[1..])
  }

  // ----- Runs -----

  datatype Event =
    | OutputPacket(id: U32, dest: Addr)
    | ForwardPacket(id: U32, dest: Addr, orig: Addr)
    | Packet(from: Addr, p: Message, reverse: Option<nat>, life: Lifetimes)
    | RunAlarms(clocks: seq<int>)

  /** What a callback run needs: one clock reading for every due alarm, none earlier than the start. */
  predicate Timely(n: Node, e: Event, now: int) {
    e.RunAlarms? ==>
      && |e.clocks| == |DueLatestFirst(n.timers, now)|
      && forall i :: 0 <= i < |e.clocks| ==> e.clocks[i] >= now
  }

  function React(n: Node, e: Event, now: int): Node
    requires Timely(n, e, now)
  {
    match e
    case OutputPacket(id, dest) => Output(n, id, dest, now)
    case ForwardPacket(id, dest, orig) => Forward(n, id, dest, orig, now)
    case Packet(from, p, reverse, life) => Receive(n, from, p, reverse, life, now)
    case RunAlarms(clocks) => FireAll(n, DueLatestFirst(n.timers, now), clocks)
  }
}
