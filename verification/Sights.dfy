/** What a node's table and alarms say of one address: the fields of its entry, and when its alarm rings. */
module Sights {
  import opened Config
  import opened Routes
  import opened AlarmSpec
  import opened Node
  import opened NodeInv
  import opened NodeSteps
  import opened Wrappers

  /** An entry; `rings` if its alarm is pending for the instant in question. */
  datatype Sight =
    | Nothing
    | Sight(nextHop: Addr, hops: U8, seqNum: U32, seqValid: bool, valid: bool, precursors: set<Addr>, rings: bool)

  function SightOf(r: Route, rings: bool): Sight {
    Sight(r.nextHop, r.hops, r.seqNum, r.seqValid, r.valid, (set x | x in r.precursors), rings)
  }

  function See(n: Node, a: Addr, due: int): Sight {
    match Find(n.table, a)
    case None => Nothing
    case Some(r) => SightOf(r, Armed(RouteTimer(r.rid), due) in n.timers)
  }

  ghost predicate Tabled(n: Node) {
    TableOk(n.table, n.nextId)
  }

  lemma FoundOk(n: Node, b: Addr)
    requires Tabled(n) && Find(n.table, b).Some?
    ensures var r := Find(n.table, b).value;
      r in n.table && r.dst == b && r.prefix == 0 && RouteOk(r) && r.rid < n.nextId
  {
    FindExact(n.table, n.nextId, b);
  }

  lemma FoundApart(n: Node, a: Addr, b: Addr)
    requires Tabled(n) && Find(n.table, a).Some? && Find(n.table, b).Some?
    ensures a == b <==> Find(n.table, a).value.rid == Find(n.table, b).value.rid
  {
    FoundOk(n, a);
    FoundOk(n, b);
    var r, s := Find(n.table, a).value, Find(n.table, b).value;
    var i :| 0 <= i < |n.table| && n.table[i] == r;
    var j :| 0 <= j < |n.table| && n.table[j] == s;
    if r.rid == s.rid {
      SameRid(n.table, n.nextId, i, j);
    }
  }

  lemma SameRid(table: seq<Route>, nextId: nat, i: nat, j: nat)
    requires TableOk(table, nextId) && i < |table| && j < |table| && table[i].rid == table[j].rid
    ensures i == j
  {
  }

  // ----- The primitive changes -----

  /** The entry for `b` is replaced by one for the same destination. */
  lemma EditSees(n: Node, b: Addr, r1: Route, a: Addr, due: int)
    requires Tabled(n) && Find(n.table, b).Some?
    requires r1.rid == Find(n.table, b).value.rid && r1.dst == b && r1.prefix == 0 && RouteOk(r1)
    ensures var m := n.(table := WithRoute(n.table, r1));
      && Tabled(m) && Find(m.table, b) == Some(r1)
      && See(m, a, due) == if a == b then SightOf(r1, See(n, b, due).rings) else See(n, a, due)
  {
    FoundOk(n, b);
    var r := Find(n.table, b).value;
    WithRouteKeepsTable(n.table, n.nextId, r, r1);
    forall s | s in n.table && s.rid == r1.rid
      ensures s == r
    {
      var i :| 0 <= i < |n.table| && n.table[i] == r;
      var j :| 0 <= j < |n.table| && n.table[j] == s;
      SameRid(n.table, n.nextId, i, j);
    }
    hide TableOk, Covers, WithRoute;
    FindAfterEdit(n.table, r1, a);
    FindAfterEdit(n.table, r1, b);
    if Find(n.table, a).Some? {
      FoundApart(n, a, b);
    }
  }

  /** A lifetime makes the entry valid and sets its alarm. */
  lemma SetSees(n: Node, b: Addr, ms: nat, now: int, a: Addr, due: int)
    requires Tabled(n) && Find(n.table, b).Some?
    ensures var m := SetLifetime(n, Find(n.table, b).value, ms, now);
      && Tabled(m)
      && See(m, a, due) ==
         if a == b then See(n, b, due).(valid := true, rings := due == now + 1000 * ms) else See(n, a, due)
  {
    hide TableOk, Covers, WithRoute, Find, Arm;
    FoundOk(n, b);
    var r := Find(n.table, b).value;
    var r1 := r.(valid := true, action := UnsetValidEntry);
    EditSees(n, b, r1, a, due);
    var n1 := n.(table := WithRoute(n.table, r1));
    if Find(n1.table, a).Some? {
      FoundApart(n1, a, b);
      ArmMembers(n.timers, RouteTimer(r.rid), Due(now, ms), Armed(RouteTimer(Find(n1.table, a).value.rid), due));
    }
  }

  /** A precursor enters the list of one entry. */
  lemma NoteSees(n: Node, b: Addr, x: Addr, a: Addr, due: int)
    requires Tabled(n)
    ensures var m, s := NotePrecursor(n, b, x), See(n, a, due);
      Tabled(m) && See(m, a, due) == if a == b && s.Sight? then s.(precursors := s.precursors + {x}) else s
  {
    hide TableOk, Covers, WithRoute, Find;
    match Find(n.table, b)
    case None =>
    case Some(r) =>
      FoundOk(n, b);
      EditSees(n, b, AddPrecursor(r, x), a, due);
      assert (set y | y in AddPrecursor(r, x).precursors) == (set y | y in r.precursors) + {x};
  }

  /** A new entry is valid, and its alarm rings after the active route timeout. */
  lemma NewSees(n: Node, r: Route, now: int, a: Addr, due: int)
    requires TableOk(n.table, r.rid) && r.rid < n.nextId && r.prefix == 0 && Find(n.table, r.dst).None?
    ensures var m := AddRoute(n, r, now);
      && Tabled(m)
      && See(m, a, due) ==
         if a == r.dst then SightOf(r.(valid := true), due == now + 1000 * ACTIVE_ROUTE_TIMEOUT) else See(n, a, due)
  {
    hide Arm;
    var r1 := r.(valid := true, action := UnsetValidEntry);
    var t := [r1] + n.table;
    assert t[1..] == n.table;
    NewTabled(n.table, r1, n.nextId);
    if Find(n.table, a).Some? {
      FindExact(n.table, r.rid, a);
    }
    if Find(t, a).Some? {
      ArmMembers(n.timers, RouteTimer(r.rid), Due(now, ACTIVE_ROUTE_TIMEOUT), Armed(RouteTimer(Find(t, a).value.rid), due));
    }
  }

  lemma NewTabled(table: seq<Route>, r: Route, nextId: nat)
    requires TableOk(table, r.rid) && r.rid < nextId && r.prefix == 0 && RouteOk(r) && Find(table, r.dst).None?
    ensures TableOk([r] + table, nextId)
  {
    FindExact(table, r.rid, r.dst);
    var t := [r] + table;
    forall i, j | 0 <= i < j < |t|
      ensures !Covers(t[j], t[i].dst) && t[i].rid != t[j].rid
    {
      assert t[j] == table[j - 1] && table[j - 1] in table;
      if i > 0 {
        assert t[i] == table[i - 1];
        assert !Covers(table[j - 1], table[i - 1].dst);
      }
    }
  }

  // ----- The previous hop -----

  /** What is known of `a` once the previous hop has been heard: its own entry is valid for the active
      route timeout, and without a sequence number if it is new. */
  function Near(n: Node, from: Addr, a: Addr, now: int, due: int): Sight {
    var s := See(n, a, due);
    if a != from then s
    else if s.Nothing? then Sight(from, 0, 0, false, true, {}, due == now + 1000 * ACTIVE_ROUTE_TIMEOUT)
    else s.(valid := true, rings := due == now + 1000 * ACTIVE_ROUTE_TIMEOUT)
  }

  lemma TouchSees(n: Node, from: Addr, now: int, a: Addr, due: int)
    requires Tabled(n)
    ensures var m := TouchPrevHop(n, from, now); Tabled(m) && See(m, a, due) == Near(n, from, a, now, due)
  {
    hide TableOk, Find, AddRoute, SetLifetime, Covers;
    match Find(n.table, from)
    case Some(r) => SetSees(n, from, ACTIVE_ROUTE_TIMEOUT, now, a, due);
    case None =>
      var n1 := n.(nextId := n.nextId + 1);
      NewSees(n1, NewRoute(n.nextId, from).(nextHop := from), now, a, due);
      assert See(n1, a, due) == See(n, a, due);
  }
}
