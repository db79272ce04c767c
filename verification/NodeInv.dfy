/** What every reachable state of a node satisfies. */
module NodeInv {
  import opened Config
  import opened Routes
  import opened AlarmSpec
  import opened Node
  import opened Wrappers

  // ----- The parts of the invariant -----

  /** Destinations are pairwise distinct, and every entry has a next action that fits its flag. */
  ghost predicate TableOk(table: seq<Route>, nextId: nat) {
    && Uncovered(table) && SamePrefix(table, 0)
    && (forall i, j :: 0 <= i < j < |table| ==> table[i].rid != table[j].rid)
    && (forall r :: r in table ==> r.rid < nextId && RouteOk(r))
  }

  /** The flag is set exactly when the next action is to unset it. */
  ghost predicate RouteOk(r: Route) {
    r.action != NoAction && (r.valid <==> r.action == UnsetValidEntry)
  }

  /** At most one request of our own per destination, its tries within bounds; those of others are
      pairwise distinct. */
  ghost predicate RequestsOk(requests: seq<Request>, nextId: nat) {
    && (forall q :: q in requests ==> q.eid < nextId && -1 <= q.tries <= RREQ_RETRIES)
    && AllApart(requests)
  }

  ghost predicate AllApart(requests: seq<Request>) {
    forall i, j :: 0 <= i < j < |requests| ==> Apart(requests[i], requests[j])
  }

  ghost predicate Apart(p: Request, q: Request) {
    && p.eid != q.eid
    && (p.tries >= 0 && q.tries >= 0 ==> p.dst != q.dst)
    && (p.tries < 0 && q.tries < 0 ==> p.id != q.id || p.dst != q.dst)
  }

  /** The alarms that exist: one per route and one per request. */
  ghost predicate Owned(table: seq<Route>, requests: seq<Request>, id: TimerId) {
    match id
    case RouteTimer(rid) => exists r :: r in table && r.rid == rid
    case RequestTimer(eid) => exists q :: q in requests && q.eid == eid
  }

  /** The queue holds exactly the alarms that exist, but for those in `out`. */
  ghost predicate TimersOk(table: seq<Route>, requests: seq<Request>, timers: seq<Armed<TimerId>>, out: set<TimerId>) {
    && Sorted(timers) && Distinct(timers)
    && forall id :: Pending(timers, id) <==> Owned(table, requests, id) && id !in out
  }

  /** An invalid route is not destroyed before its time. */
  ghost predicate ExpiryOk(table: seq<Route>, timers: seq<Armed<TimerId>>, since: map<nat, int>) {
    forall r, e :: r in table && e in timers && e.id == RouteTimer(r.rid) && !r.valid ==>
      r.rid in since && e.due >= Due(since[r.rid], DELETE_PERIOD)
  }

  ghost predicate DestroyedLate(destroyed: seq<Destruction>) {
    forall d :: d in destroyed ==> d.at >= Due(d.invalidAt, DELETE_PERIOD)
  }

  function HeldIds(held: seq<Held>): seq<U32> {
    if held == [] then [] else [held[0].id] + HeldIds(held[1..])
  }

  /** Every packet taken from the kernel is either held or has had its one verdict. */
  ghost predicate Conserved(n: Node) {
    multiset(n.handed) == multiset(n.accepted) + multiset(n.dropped) + multiset(HeldIds(n.held))
  }

  ghost predicate InvBut(n: Node, out: set<TimerId>) {
    && TableOk(n.table, n.nextId)
    && RequestsOk(n.requests, n.nextId)
    && TimersOk(n.table, n.requests, n.timers, out)
    && ExpiryOk(n.table, n.timers, n.invalidSince)
    && DestroyedLate(n.destroyed)
    && Conserved(n)
  }

  ghost predicate Inv(n: Node) {
    InvBut(n, {})
  }

  lemma InitialInv(ip: Addr, broadcast: Addr)
    ensures Inv(Initial(ip, broadcast))
  {
  }

  // ----- Lists -----

  lemma FindExact(table: seq<Route>, nextId: nat, a: Addr)
    requires TableOk(table, nextId)
    ensures Find(table, a).Some? ==> Find(table, a).value in table && Find(table, a).value.dst == a
    ensures Find(table, a).None? <==> forall r :: r in table ==> r.dst != a
  {
    FindMatches(table, a);
    assert forall r :: r in table ==> r.prefix == 0;
  }

  lemma {:induction false} WithRouteMembers(table: seq<Route>, r1: Route, r: Route)
    ensures r in WithRoute(table, r1) <==>
      (r in table && r.rid != r1.rid) || (r == r1 && exists s :: s in table && s.rid == r1.rid)
  {
    var t := WithRoute(table, r1);
    if r in t {
      var i :| 0 <= i < |t| && t[i] == r;
      assert table[i] in table;
    }
    if r in table && r.rid != r1.rid {
      var i :| 0 <= i < |table| && table[i] == r;
      assert t[i] == r;
    }
    if r == r1 && exists s :: s in table && s.rid == r1.rid {
      var s :| s in table && s.rid == r1.rid;
      var i :| 0 <= i < |table| && table[i] == s;
      assert t[i] == r1;
    }
  }

  /** An entry may change anything but its destination and identity. */
  lemma WithRouteKeepsTable(table: seq<Route>, nextId: nat, r0: Route, r1: Route)
    requires TableOk(table, nextId) && r0 in table
    requires r1.rid == r0.rid && r1.dst == r0.dst && r1.prefix == 0 && RouteOk(r1)
    ensures TableOk(WithRoute(table, r1), nextId)
    ensures var t := WithRoute(table, r1);
      forall i :: 0 <= i < |table| ==> t[i].dst == table[i].dst && t[i].rid == table[i].rid
  {
    var t := WithRoute(table, r1);
    EditedAlike(table, nextId, r0, r1);
    EditUncovered(table, t);
    EditEntries(table, nextId, r1);
    hide Covers, RouteOk, WithRoute, Uncovered;
  }

  lemma EditEntries(table: seq<Route>, nextId: nat, r1: Route)
    requires forall r :: r in table ==> r.rid < nextId && RouteOk(r)
    requires RouteOk(r1)
    ensures forall r :: r in WithRoute(table, r1) ==> r.rid < nextId && RouteOk(r)
  {
    hide RouteOk, WithRoute;
    forall r | r in WithRoute(table, r1)
      ensures r.rid < nextId && RouteOk(r)
    {
      WithRouteMembers(table, r1, r);
    }
  }

  lemma EditedAlike(table: seq<Route>, nextId: nat, r0: Route, r1: Route)
    requires TableOk(table, nextId) && r0 in table
    requires r1.rid == r0.rid && r1.dst == r0.dst && r1.prefix == 0
    ensures var t := WithRoute(table, r1);
      forall i :: 0 <= i < |table| ==>
        t[i].dst == table[i].dst && t[i].rid == table[i].rid && t[i].prefix == table[i].prefix == 0
  {
    hide Covers, RouteOk;
    var k :| 0 <= k < |table| && table[k] == r0;
  }

  lemma EditUncovered(table: seq<Route>, t: seq<Route>)
    requires Uncovered(table) && |t| == |table|
    requires forall i :: 0 <= i < |table| ==> t[i].dst == table[i].dst && t[i].prefix == table[i].prefix
    ensures Uncovered(t)
  {
    hide Covers;
    forall i, j | 0 <= i < j < |t|
      ensures !Covers(t[j], t[i].dst)
    {
      assert !Covers(table[j], table[i].dst);
      SameCovers(table[j], t[j], table[i].dst);
    }
  }

  lemma SameCovers(r: Route, s: Route, a: Addr)
    requires r.dst == s.dst && r.prefix == s.prefix
    ensures Covers(r, a) == Covers(s, a)
  {
  }

  lemma {:induction false} FindAfterEdit(table: seq<Route>, r1: Route, a: Addr)
    requires forall s :: s in table && s.rid == r1.rid ==> s.dst == r1.dst && s.prefix == r1.prefix
    ensures Find(WithRoute(table, r1), a) ==
      match Find(table, a) case None => None case Some(r) => Some(if r.rid == r1.rid then r1 else r)
  {
    if table != [] {
      FindAfterEdit(table[1..], r1, a);
      assert WithRoute(table, r1)[1..] == WithRoute(table[1..], r1);
      assert table[0] in table;
    }
  }

  // ----- Packets -----

  lemma {:induction false} RouteKeepsIds(held: seq<Held>, r: Route)
    ensures multiset(HeldIds(held)) == multiset(Matching(held, r)) + multiset(HeldIds(NotMatching(held, r)))
  {
    hide Covers;
    if held != [] {
      RouteKeepsIds(held[1..], r);
    }
  }

  lemma {:induction false} RouteKeepsOthers(held: seq<Held>, r: Route, h: Held)
    ensures h in NotMatching(held, r) <==> h in held && !Covers(r, h.dst)
  {
    hide Covers;
    if held != [] {
      RouteKeepsOthers(held[1..], r, h);
    }
  }

  lemma {:induction false} DropKeepsIds(held: seq<Held>, dst: Addr)
    ensures multiset(HeldIds(held)) == multiset(IdsFor(held, dst)) + multiset(HeldIds(NotFor(held, dst)))
  {
    if held != [] {
      DropKeepsIds(held[1..], dst);
    }
  }

  lemma {:induction false} DropKeepsOthers(held: seq<Held>, dst: Addr, h: Held)
    ensures h in NotFor(held, dst) <==> h in held && h.dst != dst
  {
    if held != [] {
      DropKeepsOthers(held[1..], dst, h);
    }
  }

  lemma Verdicts(log: seq<U32>, more: seq<U32>)
    ensures multiset(log + more) == multiset(log) + multiset(more)
  {
  }

  /** What a held packet waits for: there is no entry for its destination, and a request of ours is out. */
  ghost predicate Owed(n: Node, h: Held) {
    Find(n.table, h.dst).None? && Waiting(n.requests, h.dst)
  }

  ghost predicate HeldOk(n: Node) {
    forall h :: h in n.held ==> Owed(n, h)
  }

  // ----- The primitive changes of state -----

  /** No route alarm is missing from the queue. */
  ghost predicate NoRoutes(out: set<TimerId>) {
    forall id :: id in out ==> id.RequestTimer?
  }

  lemma EditOwners(table: seq<Route>, requests: seq<Request>, r0: Route, r1: Route, id: TimerId)
    requires r0 in table && r1.rid == r0.rid
    ensures Owned(WithRoute(table, r1), requests, id) <==> Owned(table, requests, id)
  {
    if id.RouteTimer? {
      if Owned(table, requests, id) {
        var r :| r in table && r.rid == id.rid;
        WithRouteMembers(table, r1, if r.rid == r1.rid then r1 else r);
      }
      if Owned(WithRoute(table, r1), requests, id) {
        var r :| r in WithRoute(table, r1) && r.rid == id.rid;
        WithRouteMembers(table, r1, r);
      }
    }
  }

  lemma EditFinds(table: seq<Route>, nextId: nat, r0: Route, r1: Route, a: Addr)
    requires TableOk(table, nextId) && r0 in table && r1.rid == r0.rid && r1.dst == r0.dst && r1.prefix == 0
    ensures Find(WithRoute(table, r1), a).Some? <==> Find(table, a).Some?
    ensures Find(WithRoute(table, r1), r1.dst) == Some(r1)
  {
    forall s | s in table && s.rid == r1.rid
      ensures s == r0
    {
    }
    assert SamePrefix(table, 0) ==> forall s :: s in table ==> s.prefix == 0;
    FindAfterEdit(table, r1, a);
    FindAfterEdit(table, r1, r1.dst);
    FindIsLookup(table, 0, r1.dst, r0);
  }

  lemma EditExpiry(table: seq<Route>, timers: seq<Armed<TimerId>>, since: map<nat, int>, r0: Route, r1: Route)
    requires ExpiryOk(table, timers, since) && r0 in table && r1.rid == r0.rid && (r1.valid || r1.valid == r0.valid)
    ensures ExpiryOk(WithRoute(table, r1), timers, since)
  {
    forall r, e | r in WithRoute(table, r1) && e in timers && e.id == RouteTimer(r.rid) && !r.valid
      ensures r.rid in since && e.due >= Due(since[r.rid], DELETE_PERIOD)
    {
      WithRouteMembers(table, r1, r);
      assert r == r1 ==> RouteTimer(r0.rid) == e.id;
    }
  }

  /** An entry changes, but for its destination, its flag and its next action. */
  lemma EditKeeps(n: Node, out: set<TimerId>, r0: Route, r1: Route)
    requires InvBut(n, out) && r0 in n.table
    requires r1.rid == r0.rid && r1.dst == r0.dst && r1.prefix == r0.prefix
    requires RouteOk(r1) && (r1.valid || r1.valid == r0.valid)
    ensures var m := n.(table := WithRoute(n.table, r1));
      && InvBut(m, out) && (HeldOk(n) ==> HeldOk(m)) && r1 in m.table
      && (forall a :: Find(m.table, a).Some? <==> Find(n.table, a).Some?)
      && Find(m.table, r1.dst) == Some(r1)
  {
    var t := WithRoute(n.table, r1);
    assert r0.prefix == 0;
    WithRouteKeepsTable(n.table, n.nextId, r0, r1);
    EditExpiry(n.table, n.timers, n.invalidSince, r0, r1);
    forall id
      ensures Owned(t, n.requests, id) <==> Owned(n.table, n.requests, id)
    {
      EditOwners(n.table, n.requests, r0, r1, id);
    }
    forall a
      ensures Find(t, a).Some? <==> Find(n.table, a).Some?
      ensures Find(t, r1.dst) == Some(r1)
    {
      EditFinds(n.table, n.nextId, r0, r1, a);
    }
    WithRouteMembers(n.table, r1, r1);
  }

  /** Arming the alarm of a valid entry. */
  lemma ArmRouteKeeps(n: Node, out: set<TimerId>, r: Route, due: int)
    requires InvBut(n, out) && r in n.table && r.valid && RouteTimer(r.rid) !in out
    ensures InvBut(n.(timers := Arm(n.timers, RouteTimer(r.rid), due)), out)
  {
    var id := RouteTimer(r.rid);
    var timers := Arm(n.timers, id, due);
    assert Owned(n.table, n.requests, id);
    ArmKeeps(n.timers, id, due);
    forall s, e | s in n.table && e in timers && e.id == RouteTimer(s.rid) && !s.valid
      ensures s.rid in n.invalidSince && e.due >= Due(n.invalidSince[s.rid], DELETE_PERIOD)
    {
      ArmMembers(n.timers, id, due, e);
    }
  }

  lemma SetLifetimeKeeps(n: Node, out: set<TimerId>, r: Route, ms: nat, now: int)
    requires InvBut(n, out) && r in n.table && NoRoutes(out)
    ensures var m := SetLifetime(n, r, ms, now);
      && InvBut(m, out) && (HeldOk(n) ==> HeldOk(m))
      && (forall a :: Find(m.table, a).Some? <==> Find(n.table, a).Some?)
  {
    var r1 := r.(valid := true, action := UnsetValidEntry);
    EditKeeps(n, out, r, r1);
    ArmRouteKeeps(n.(table := WithRoute(n.table, r1)), out, r1, Due(now, ms));
  }

  lemma FindNew(table: seq<Route>, nextId: nat, r: Route, a: Addr)
    requires TableOk(table, nextId) && r.prefix == 0
    ensures Find([r] + table, a).Some? <==> r.dst == a || Find(table, a).Some?
    ensures Find([r] + table, a) == if r.dst == a then Some(r) else Find(table, a)
  {
    assert ([r] + table)[1..] == table;
  }

  lemma NewOwner(table: seq<Route>, requests: seq<Request>, r: Route, id: TimerId)
    ensures Owned([r] + table, requests, id) <==> id == RouteTimer(r.rid) || Owned(table, requests, id)
  {
    if id.RouteTimer? {
      assert r in [r] + table;
      if Owned(table, requests, id) {
        var s :| s in table && s.rid == id.rid;
        assert s in [r] + table;
      }
    }
  }

  lemma NewEntryKeeps(n: Node, out: set<TimerId>, r: Route, timers: seq<Armed<TimerId>>, due: int)
    requires InvBut(n, out) && NoRoutes(out) && r.rid == n.nextId && r.prefix == 0 && Find(n.table, r.dst).None?
    requires r.valid && RouteOk(r) && Sorted(timers) && Distinct(timers)
    requires forall e :: e in timers ==> e in n.timers || e.id == RouteTimer(r.rid)
    requires forall id :: id != RouteTimer(r.rid) ==> (Pending(timers, id) <==> Pending(n.timers, id))
    ensures var t, q := [r] + n.table, Arm(timers, RouteTimer(r.rid), due);
      TableOk(t, n.nextId + 1) && TimersOk(t, n.requests, q, out) && ExpiryOk(t, q, n.invalidSince)
  {
    var t, q := [r] + n.table, Arm(timers, RouteTimer(r.rid), due);
    AddKeepsUncovered(n.table, r);
    ArmKeeps(timers, RouteTimer(r.rid), due);
    forall id
      ensures Pending(q, id) <==> Owned(t, n.requests, id) && id !in out
    {
      NewOwner(n.table, n.requests, r, id);
    }
    forall s, e | s in t && e in q && e.id == RouteTimer(s.rid) && !s.valid
      ensures s.rid in n.invalidSince && e.due >= Due(n.invalidSince[s.rid], DELETE_PERIOD)
    {
      ArmMembers(timers, RouteTimer(r.rid), due, e);
    }
  }

  /** A packet the new route covers is accepted, and the others keep waiting. */
  lemma ProcessKeeps(n: Node, r: Route)
    requires r.prefix == 0
    ensures Conserved(n) ==> Conserved(ProcessRoute(n, r))
    ensures (forall h :: h in n.held && h.dst != r.dst ==> Owed(n, h)) ==> HeldOk(ProcessRoute(n, r))
  {
    RouteKeepsIds(n.held, r);
    Verdicts(n.accepted, Matching(n.held, r));
    forall h
      ensures h in NotMatching(n.held, r) <==> h in n.held && h.dst != r.dst
    {
      RouteKeepsOthers(n.held, r, h);
    }
  }

  lemma AddRouteKeeps(n: Node, out: set<TimerId>, r: Route, timers: seq<Armed<TimerId>>, now: int)
    requires InvBut(n, out) && NoRoutes(out) && r.rid == n.nextId && r.prefix == 0 && Find(n.table, r.dst).None?
    requires Sorted(timers) && Distinct(timers)
    requires forall e :: e in timers ==> e in n.timers || e.id == RouteTimer(r.rid)
    requires forall id :: id != RouteTimer(r.rid) ==> (Pending(timers, id) <==> Pending(n.timers, id))
    ensures var m := AddRoute(n.(nextId := n.nextId + 1, timers := timers), r, now);
      && InvBut(m, out) && (HeldOk(n) ==> HeldOk(m))
      && (forall a :: Find(m.table, a).Some? <==> a == r.dst || Find(n.table, a).Some?)
  {
    var r1 := r.(valid := true, action := UnsetValidEntry);
    assert TableOk(n.table, n.nextId);
    hide InvBut, HeldOk, TableOk, Find, Arm, Covers;
    NewEntryKeeps(n, out, r1, timers, Due(now, ACTIVE_ROUTE_TIMEOUT));
    var m := n.(nextId := n.nextId + 1, table := [r1] + n.table,
                timers := Arm(timers, RouteTimer(r.rid), Due(now, ACTIVE_ROUTE_TIMEOUT)));
    forall a
      ensures Find(m.table, a).Some? <==> a == r.dst || Find(n.table, a).Some?
    {
      FindNew(n.table, n.nextId, r1, a);
    }
    ProcessKeeps(m, r1);
  }

  // ----- Requests -----

  lemma PushKeeps(n: Node, out: set<TimerId>, id: U32, dst: Addr, tries: int, now: int)
    requires InvBut(n, out) && -1 <= tries <= RREQ_RETRIES && RequestTimer(n.nextId) !in out
    requires tries >= 0 ==> !Waiting(n.requests, dst)
    requires tries < 0 ==> !Contains(n.requests, id, dst)
    ensures var m := PushRequest(n, id, dst, tries, now);
      && InvBut(m, out) && (HeldOk(n) ==> HeldOk(m))
      && (forall a :: Waiting(m.requests, a) <==> Waiting(n.requests, a) || (tries >= 0 && a == dst))
  {
    var q := Request(n.nextId, id, dst, tries);
    var requests := [q] + n.requests;
    var timers := PushRequest(n, id, dst, tries, now).timers;
    var due := Due(now, if tries < 0 then PATH_DISCOVERY_TIME else BackoffTime(tries));
    ArmKeeps(n.timers, RequestTimer(n.nextId), due);
    forall p | p in n.requests
      ensures Apart(q, p)
    {
      var i :| 0 <= i < |n.requests| && n.requests[i] == p;
    }
    forall i, j | 0 <= i < j < |requests|
      ensures Apart(requests[i], requests[j])
    {
    }
    forall a
      ensures Owned(n.table, requests, a) <==> a == RequestTimer(q.eid) || Owned(n.table, n.requests, a)
    {
      PushedOwner(n.table, n.requests, q, a);
    }
    forall a
      ensures Waiting(requests, a) <==> Waiting(n.requests, a) || (tries >= 0 && a == dst)
    {
      PushedWaits(n.requests, q, a);
    }
    forall r, e | r in n.table && e in timers && e.id == RouteTimer(r.rid) && !r.valid
      ensures r.rid in n.invalidSince && e.due >= Due(n.invalidSince[r.rid], DELETE_PERIOD)
    {
      ArmMembers(n.timers, RequestTimer(n.nextId), due, e);
    }
  }

  lemma PushedOwner(table: seq<Route>, requests: seq<Request>, q: Request, id: TimerId)
    ensures Owned(table, [q] + requests, id) <==> id == RequestTimer(q.eid) || Owned(table, requests, id)
  {
    if id.RequestTimer? {
      assert q in [q] + requests;
      if Owned(table, requests, id) {
        var p :| p in requests && p.eid == id.eid;
        assert p in [q] + requests;
      }
    }
  }

  lemma PushedWaits(requests: seq<Request>, q: Request, a: Addr)
    ensures Waiting([q] + requests, a) <==> Waiting(requests, a) || (q.tries >= 0 && q.dst == a)
  {
    var more := [q] + requests;
    assert more[0] == q;
    if Waiting(requests, a) {
      var i :| 0 <= i < |requests| && requests[i].tries >= 0 && requests[i].dst == a;
      assert more[i + 1] == requests[i];
    }
  }

  lemma {:induction false} WithoutMembers(requests: seq<Request>, eid: nat, q: Request)
    ensures q in WithoutRequest(requests, eid) <==> q in requests && q.eid != eid
  {
    if requests != [] {
      WithoutMembers(requests[1..], eid, q);
    }
  }

  lemma {:induction false} WithoutApart(requests: seq<Request>, eid: nat)
    requires AllApart(requests)
    ensures AllApart(WithoutRequest(requests, eid))
  {
    if requests != [] {
      var rest := requests[1..];
      WithoutApart(rest, eid);
      var t := WithoutRequest(rest, eid);
      forall j | 0 <= j < |t|
        ensures Apart(requests[0], t[j])
      {
        WithoutMembers(rest, eid, t[j]);
        var k :| 0 <= k < |rest| && rest[k] == t[j];
        assert Apart(requests[0], requests[k + 1]);
      }
    }
  }

  lemma WaitingMember(requests: seq<Request>, a: Addr)
    ensures Waiting(requests, a) <==> exists q :: q in requests && q.tries >= 0 && q.dst == a
  {
    if exists q :: q in requests && q.tries >= 0 && q.dst == a {
      var q :| q in requests && q.tries >= 0 && q.dst == a;
      var i :| 0 <= i < |requests| && requests[i] == q;
    }
  }

  lemma WithoutWaits(requests: seq<Request>, q: Request, a: Addr)
    requires Waiting(requests, a) && (q.tries < 0 || q.dst != a) && forall p :: p in requests && p.eid == q.eid ==> p == q
    ensures Waiting(WithoutRequest(requests, q.eid), a)
  {
    WaitingMember(requests, a);
    var p :| p in requests && p.tries >= 0 && p.dst == a;
    WithoutMembers(requests, q.eid, p);
    WaitingMember(WithoutRequest(requests, q.eid), a);
  }

  lemma SameRequest(requests: seq<Request>, i: nat, j: nat)
    requires AllApart(requests) && i < |requests| && j < |requests| && requests[i].eid == requests[j].eid
    ensures i == j
  {
  }

  lemma UniqueRequest(requests: seq<Request>, nextId: nat, p: Request, q: Request)
    requires RequestsOk(requests, nextId) && p in requests && q in requests && p.eid == q.eid
    ensures p == q
  {
    var i :| 0 <= i < |requests| && requests[i] == p;
    var j :| 0 <= j < |requests| && requests[j] == q;
    SameRequest(requests, i, j);
  }

  /** A request goes, and with it its alarm. */
  lemma DeleteKeeps(n: Node, out: set<TimerId>, q: Request)
    requires InvBut(n, out) && q in n.requests && out <= {RequestTimer(q.eid)}
    ensures var m := DeleteRequest(n, q.eid);
      Inv(m) && (HeldOk(n) && (q.tries < 0 || forall h :: h in n.held ==> h.dst != q.dst) ==> HeldOk(m))
  {
    var requests, timers := WithoutRequest(n.requests, q.eid), Cancel(n.timers, RequestTimer(q.eid));
    forall p | p in requests
      ensures p in n.requests
    {
      WithoutMembers(n.requests, q.eid, p);
    }
    WithoutApart(n.requests, q.eid);
    CancelKeeps(n.timers, RequestTimer(q.eid));
    forall id
      ensures Owned(n.table, requests, id) <==> id != RequestTimer(q.eid) && Owned(n.table, n.requests, id)
    {
      WithoutOwner(n.table, n.requests, q.eid, id);
    }
    forall r, e | r in n.table && e in timers && e.id == RouteTimer(r.rid) && !r.valid
      ensures r.rid in n.invalidSince && e.due >= Due(n.invalidSince[r.rid], DELETE_PERIOD)
    {
      CancelMembers(n.timers, RequestTimer(q.eid), e);
    }
    forall p | p in n.requests && p.eid == q.eid
      ensures p == q
    {
      UniqueRequest(n.requests, n.nextId, p, q);
    }
    forall h | h in n.held && Waiting(n.requests, h.dst) && (q.tries < 0 || h.dst != q.dst)
      ensures Waiting(requests, h.dst)
    {
      WithoutWaits(n.requests, q, h.dst);
    }
  }

  lemma WithoutOwner(table: seq<Route>, requests: seq<Request>, eid: nat, id: TimerId)
    ensures Owned(table, WithoutRequest(requests, eid), id) <==> id != RequestTimer(eid) && Owned(table, requests, id)
  {
    if id.RequestTimer? {
      if Owned(table, requests, id) && id.eid != eid {
        var p :| p in requests && p.eid == id.eid;
        WithoutMembers(requests, eid, p);
      }
      if Owned(table, WithoutRequest(requests, eid), id) {
        var p :| p in WithoutRequest(requests, eid) && p.eid == id.eid;
        WithoutMembers(requests, eid, p);
      }
    }
  }

  lemma {:induction false} WithRequestAt(requests: seq<Request>, q: Request)
    ensures var t := WithRequest(requests, q);
      && |t| == |requests|
      && forall i {:trigger t[i]} :: 0 <= i < |t| ==> t[i] == if requests[i].eid == q.eid then q else requests[i]
  {
    if requests != [] {
      WithRequestAt(requests[1..], q);
    }
  }

  lemma RenewedAt(requests: seq<Request>, nextId: nat, q0: Request, q1: Request) returns (k: nat)
    requires RequestsOk(requests, nextId) && q0 in requests && q1.eid == q0.eid
    ensures k < |requests| && requests[k] == q0 && WithRequest(requests, q1) == requests[k := q1]
  {
    var t := WithRequest(requests, q1);
    WithRequestAt(requests, q1);
    k :| 0 <= k < |requests| && requests[k] == q0;
    forall i | 0 <= i < |t|
      ensures t[i] == if i == k then q1 else requests[i]
    {
      if requests[i].eid == q1.eid {
        SameRequest(requests, i, k);
      }
    }
  }

  lemma RenewedApart(requests: seq<Request>, k: nat, q1: Request)
    requires AllApart(requests) && k < |requests| && requests[k].eid == q1.eid && requests[k].dst == q1.dst
    requires requests[k].tries >= 0 && q1.tries >= 0
    ensures AllApart(requests[k := q1])
  {
    var t := requests[k := q1];
    forall i, j | 0 <= i < j < |t|
      ensures Apart(t[i], t[j])
    {
      assert Apart(requests[i], requests[j]);
    }
  }

  /** A request of ours keeps its identity and destination, and its tries within bounds. */
  lemma RenewKeeps(n: Node, out: set<TimerId>, q0: Request, q1: Request)
    requires InvBut(n, out) && q0 in n.requests && q1.eid == q0.eid && q1.dst == q0.dst
    requires q0.tries >= 0 && 0 <= q1.tries <= RREQ_RETRIES
    ensures var m := n.(requests := WithRequest(n.requests, q1));
      InvBut(m, out) && (HeldOk(n) ==> HeldOk(m)) && q1 in m.requests
  {
    hide Apart, Covers, Find;
    var t := WithRequest(n.requests, q1);
    var k := RenewedAt(n.requests, n.nextId, q0, q1);
    RenewedApart(n.requests, k, q1);
    RenewedOwners(n.table, n.requests, t, k, q1);
    forall h | h in n.held && Waiting(n.requests, h.dst)
      ensures Waiting(t, h.dst)
    {
      var i :| 0 <= i < |n.requests| && n.requests[i].tries >= 0 && n.requests[i].dst == h.dst;
      assert t[i].tries >= 0 && t[i].dst == h.dst;
    }
  }

  lemma RenewedOwners(table: seq<Route>, requests: seq<Request>, t: seq<Request>, k: nat, q1: Request)
    requires k < |requests| && |t| == |requests| && requests[k].eid == q1.eid
    requires forall i :: 0 <= i < |t| ==> t[i] == if i == k then q1 else requests[i]
    ensures forall id :: Owned(table, t, id) <==> Owned(table, requests, id)
  {
    forall id
      ensures Owned(table, t, id) <==> Owned(table, requests, id)
    {
      if id.RequestTimer? {
        if Owned(table, requests, id) {
          var p :| p in requests && p.eid == id.eid;
          var i :| 0 <= i < |requests| && requests[i] == p;
          assert t[i] in t && t[i].eid == id.eid;
        }
        if Owned(table, t, id) {
          var p :| p in t && p.eid == id.eid;
          var i :| 0 <= i < |t| && t[i] == p;
          assert requests[i] in requests && requests[i].eid == id.eid;
        }
      }
    }
  }
}
