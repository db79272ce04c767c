/** `msh_route.c` and the list inside `routing_table.c`. */
module Routes {
  import opened Config
  import opened Wrappers

  type Addr = U32

  /** What the alarm of a route does next. */
  datatype Action = NoAction | UnsetValidEntry | DestroyRoute

  /** `struct msh_route`; `rid` stands for the object's identity. */
  datatype Route = Route(rid: nat, dst: Addr, prefix: nat, nextHop: Addr, hops: U8, seqNum: U32, seqValid: bool,
                         valid: bool, action: Action, precursors: seq<Addr>)

  /** `msh_route_alloc`. */
  function NewRoute(rid: nat, dst: Addr): Route {
    Route(rid, dst, 0, 0, 0, 0, false, false, NoAction, [])
  }

  /** `msh_route_compare` with `RTFIND_BY_DEST_LONGEST_PREFIX_MATCHING`: equal above the `prefix` lowest bits. */
  predicate Covers(entry: Route, addr: Addr) {
    addr / Pow2(entry.prefix) == entry.dst / Pow2(entry.prefix)
  }

  /** `routing_table_find`: the first entry that covers the address. */
  function Find(table: seq<Route>, addr: Addr): Option<Route> {
    if table == [] then None
    else if Covers(table[0], addr) then Some(table[0])
    else Find(table[1..], addr)
  }

  /** The table with `r` in the place of the entry of the same identity. */
  function WithRoute(table: seq<Route>, r: Route): (t: seq<Route>)
    ensures |t| == |table|
    ensures forall i {:trigger t[i]} :: 0 <= i < |t| ==> t[i] == if table[i].rid == r.rid then r else table[i]
  {
    if table == [] then [] else [if table[0].rid == r.rid then r else table[0]] + WithRoute(table[1..], r)
  }

  function WithoutRoute(table: seq<Route>, rid: nat): (t: seq<Route>) {
    if table == [] then []
    else if table[0].rid == rid then WithoutRoute(table[1..], rid)
    else [table[0]] + WithoutRoute(table[1..], rid)
  }

  function ById(table: seq<Route>, rid: nat): Option<Route> {
    if table == [] then None
    else if table[0].rid == rid then Some(table[0])
    else ById(table[1..], rid)
  }

  /** `msh_route_add_precursor`: a new one goes in front. */
  function AddPrecursor(r: Route, a: Addr): Route {
    if a in r.precursors then r else r.(precursors := [a] + r.precursors)
  }

  // ----- The table as a map -----

  /** `routing_table_add` never lets an entry in that an older one covers. */
  ghost predicate Uncovered(table: seq<Route>) {
    forall i, j :: 0 <= i < j < |table| ==> !Covers(table[j], table[i].dst)
  }

  ghost predicate SamePrefix(table: seq<Route>, prefix: nat) {
    forall i :: 0 <= i < |table| ==> table[i].prefix == prefix
  }

  lemma UncoveredDistinct(table: seq<Route>)
    requires Uncovered(table)
    ensures forall i, j :: 0 <= i < j < |table| ==> table[i].dst != table[j].dst
  {
  }

  /** With one prefix size, at most one entry matches an address. */
  lemma AtMostOneMatch(table: seq<Route>, prefix: nat, a: Addr, i: nat, j: nat)
    requires Uncovered(table) && SamePrefix(table, prefix) && i < |table| && j < |table|
    requires Covers(table[i], a) && Covers(table[j], a)
    ensures i == j
  {
  }

  /** The first match is a match, and there is none only if nothing matches. */
  lemma {:induction false} FindMatches(table: seq<Route>, a: Addr)
    ensures Find(table, a).Some? ==> Find(table, a).value in table && Covers(Find(table, a).value, a)
    ensures Find(table, a).None? <==> forall r :: r in table ==> !Covers(r, a)
  {
    if table != [] {
      FindMatches(table[1..], a);
      assert forall r :: r in table <==> r == table[0] || r in table[1..];
    }
  }

  /** With one prefix size, searching the table is looking the address up in a map: the first match
      is the only one, and so also the one of longest prefix. */
  lemma FindIsLookup(table: seq<Route>, prefix: nat, a: Addr, r: Route)
    requires Uncovered(table) && SamePrefix(table, prefix)
    ensures Find(table, a) == Some(r) <==> r in table && Covers(r, a)
  {
    FindMatches(table, a);
    if r in table && Covers(r, a) {
      var f := Find(table, a).value;
      var i :| 0 <= i < |table| && table[i] == r;
      var j :| 0 <= j < |table| && table[j] == f;
      AtMostOneMatch(table, prefix, a, i, j);
    }
  }

  /** A new entry that nothing covers keeps the table in order. */
  lemma AddKeepsUncovered(table: seq<Route>, r: Route)
    requires Uncovered(table) && Find(table, r.dst).None?
    ensures Uncovered([r] + table)
  {
    FindMatches(table, r.dst);
  }

  lemma {:induction false} WithoutRouteMembers(table: seq<Route>, rid: nat, r: Route)
    ensures r in WithoutRoute(table, rid) <==> r in table && r.rid != rid
  {
    if table != [] {
      WithoutRouteMembers(table[1..], rid, r);
      assert r in table <==> r == table[0] || r in table[1..];
    }
  }

  lemma {:induction false} WithoutKeepsUncovered(table: seq<Route>, rid: nat)
    requires Uncovered(table)
    ensures Uncovered(WithoutRoute(table, rid))
  {
    if table != [] {
      WithoutKeepsUncovered(table[1..], rid);
      var t := WithoutRoute(table[1..], rid);
      forall j | 0 <= j < |t|
        ensures !Covers(t[j], table[0].dst)
      {
        WithoutRouteMembers(table[1..], rid, t[j]);
        var k :| 0 <= k < |table[1..]| && table[1..][k] == t[j];
        assert table[k + 1] == t[j];
      }
    }
  }
}
