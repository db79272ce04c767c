/** What the invariant says of every reachable state of a node. */
module NodeFacts {
  import opened Config
  import opened Routes
  import opened AlarmSpec
  import opened Node
  import opened NodeInv
  import opened NodeSteps
  import opened NodeRuns
  import opened Wrappers

  /** The state after a run from the start of the daemon. */
  function Reached(ip: Addr, broadcast: Addr, run: seq<Timed>): Node
    requires Runs(Initial(ip, broadcast), run)
  {
    Outcome(Initial(ip, broadcast), run)
  }

  lemma ReachedInv(ip: Addr, broadcast: Addr, run: seq<Timed>)
    requires Runs(Initial(ip, broadcast), run)
    ensures Inv(Reached(ip, broadcast, run))
  {
    hide InvBut;
    InitialInv(ip, broadcast);
    RunKeepsInv(Initial(ip, broadcast), run);
  }

  /** The two-stage life of a route: every entry has its alarm pending, it is valid exactly when that
      alarm is to make it invalid, and none is destroyed less than the delete period after it was last
      marked invalid. */
  lemma RoutesExpire(ip: Addr, broadcast: Addr, run: seq<Timed>)
    requires Runs(Initial(ip, broadcast), run)
    ensures var n := Reached(ip, broadcast, run);
      && (forall r :: r in n.table ==> Pending(n.timers, RouteTimer(r.rid)))
      && (forall r :: r in n.table ==> (r.valid <==> r.action == UnsetValidEntry) && (!r.valid <==> r.action == DestroyRoute))
      && (forall d :: d in n.destroyed ==> d.at >= d.invalidAt + 1000 * DELETE_PERIOD)
  {
    hide Runs, Outcome;
    ReachedInv(ip, broadcast, run);
    var n := Reached(ip, broadcast, run);
    forall r | r in n.table
      ensures Pending(n.timers, RouteTimer(r.rid))
      ensures (r.valid <==> r.action == UnsetValidEntry) && (!r.valid <==> r.action == DestroyRoute)
    {
      EntryOk(n.table, n.nextId, r);
      assert Owned(n.table, n.requests, RouteTimer(r.rid));
    }
  }

  /** Destinations are pairwise distinct, and a search finds an entry exactly if it is there. */
  lemma TableIsMap(ip: Addr, broadcast: Addr, run: seq<Timed>, a: Addr, r: Route)
    requires Runs(Initial(ip, broadcast), run)
    ensures var n := Reached(ip, broadcast, run);
      && (forall i, j :: 0 <= i < j < |n.table| ==> n.table[i].dst != n.table[j].dst)
      && (Find(n.table, a) == Some(r) <==> r in n.table && r.dst == a)
  {
    hide Runs, Outcome;
    ReachedInv(ip, broadcast, run);
    var n := Reached(ip, broadcast, run);
    UncoveredDistinct(n.table);
    FindIsLookup(n.table, 0, a, r);
  }

  /** One request of ours at most per destination, tries within the retry limit, the others marked and
      pairwise distinct, and an alarm pending for each. */
  lemma RequestsBuffered(ip: Addr, broadcast: Addr, run: seq<Timed>)
    requires Runs(Initial(ip, broadcast), run)
    ensures var n := Reached(ip, broadcast, run);
      && (forall q :: q in n.requests ==> q.tries == -1 || 0 <= q.tries <= RREQ_RETRIES)
      && (forall q :: q in n.requests ==> Pending(n.timers, RequestTimer(q.eid)))
      && (forall i, j :: 0 <= i < j < |n.requests| && n.requests[i].tries >= 0 && n.requests[j].tries >= 0 ==>
           n.requests[i].dst != n.requests[j].dst)
      && (forall i, j :: 0 <= i < j < |n.requests| && n.requests[i].tries == n.requests[j].tries == -1 ==>
           (n.requests[i].id, n.requests[i].dst) != (n.requests[j].id, n.requests[j].dst))
  {
    hide Runs, Outcome;
    ReachedInv(ip, broadcast, run);
    var n := Reached(ip, broadcast, run);
    forall q | q in n.requests
      ensures Pending(n.timers, RequestTimer(q.eid))
    {
      assert Owned(n.table, n.requests, RequestTimer(q.eid));
    }
    forall i, j | 0 <= i < j < |n.requests|
      ensures Apart(n.requests[i], n.requests[j])
    {
    }
  }

  // ----- Packets -----

  /** Every packet id taken from the kernel is held, accepted or dropped, as often as it was taken. */
  lemma PacketsConserved(ip: Addr, broadcast: Addr, run: seq<Timed>, id: U32)
    requires Runs(Initial(ip, broadcast), run)
    ensures var n := Reached(ip, broadcast, run);
      multiset(n.handed)[id] == multiset(n.accepted)[id] + multiset(n.dropped)[id] + multiset(HeldIds(n.held))[id]
  {
    hide Runs, Outcome;
    ReachedInv(ip, broadcast, run);
  }

  /** Indices into a list of length `n`, in order. */
  ghost predicate Ascending(s: seq<nat>, n: nat) {
    (forall i :: 0 <= i < |s| ==> s[i] < n) && (forall i, j :: 0 <= i < j < |s| ==> s[i] < s[j])
  }

  function Shift(s: seq<nat>): (t: seq<nat>)
    ensures |t| == |s| && forall i :: 0 <= i < |t| ==> t[i] == s[i] + 1
  {
    seq(|s|, i requires 0 <= i < |s| => s[i] + 1)
  }

  /** `taken` points at the covered packets, whose ids are `ids`. */
  ghost predicate Takes(held: seq<Held>, r: Route, ids: seq<U32>, taken: seq<nat>) {
    && Ascending(taken, |held|) && |taken| == |ids|
    && forall i :: 0 <= i < |taken| ==> Covers(r, held[taken[i]].dst) && ids[i] == held[taken[i]].id
  }

  /** `kept` points at the packets that are not covered. */
  ghost predicate Leaves(held: seq<Held>, r: Route, rest: seq<Held>, kept: seq<nat>) {
    && Ascending(kept, |held|) && |kept| == |rest|
    && forall i :: 0 <= i < |kept| ==> !Covers(r, held[kept[i]].dst) && rest[i] == held[kept[i]]
  }

  lemma ShiftTakes(held: seq<Held>, r: Route, ids: seq<U32>, t: seq<nat>)
    requires held != [] && Takes(held[1..], r, ids, t)
    ensures Takes(held, r, ids, Shift(t))
  {
    hide Covers;
  }

  lemma FrontTakes(held: seq<Held>, r: Route, ids: seq<U32>, t: seq<nat>)
    requires held != [] && Takes(held, r, ids, t) && Covers(r, held[0].dst) && forall i :: 0 <= i < |t| ==> t[i] > 0
    ensures Takes(held, r, [held[0].id] + ids, [0] + t)
  {
    hide Covers;
  }

  lemma ShiftLeaves(held: seq<Held>, r: Route, rest: seq<Held>, k: seq<nat>)
    requires held != [] && Leaves(held[1..], r, rest, k)
    ensures Leaves(held, r, rest, Shift(k))
  {
    hide Covers;
  }

  lemma FrontLeaves(held: seq<Held>, r: Route, rest: seq<Held>, k: seq<nat>)
    requires held != [] && Leaves(held, r, rest, k) && !Covers(r, held[0].dst) && forall i :: 0 <= i < |k| ==> k[i] > 0
    ensures Leaves(held, r, [held[0]] + rest, [0] + k)
  {
    hide Covers;
  }

  /** A new route accepts exactly the packets it covers, in their order, and keeps the others in theirs. */
  lemma {:induction false} RouteSorts(held: seq<Held>, r: Route) returns (taken: seq<nat>, kept: seq<nat>)
    ensures Takes(held, r, Matching(held, r), taken) && Leaves(held, r, NotMatching(held, r), kept)
    ensures |taken| + |kept| == |held|
  {
    if held == [] {
      taken, kept := [], [];
    } else {
      hide Covers, Takes, Leaves;
      var t, k := RouteSorts(held[1..], r);
      ShiftTakes(held, r, Matching(held[1..], r), t);
      ShiftLeaves(held, r, NotMatching(held[1..], r), k);
      taken, kept := Shift(t), Shift(k);
      if Covers(r, held[0].dst) {
        FrontTakes(held, r, Matching(held[1..], r), taken);
        taken := [0] + taken;
      } else {
        FrontLeaves(held, r, NotMatching(held[1..], r), kept);
        kept := [0] + kept;
      }
    }
  }

  // ----- Held packets -----

  /** The request at `i` is ours and for `dst`, and no other is. */
  ghost predicate OnlyOne(requests: seq<Request>, dst: Addr, i: nat) {
    i < |requests| && forall j :: 0 <= j < |requests| ==> (requests[j].tries >= 0 && requests[j].dst == dst <==> j == i)
  }

  /** If packets are queued only while there is no entry at all for their destination, then each held
      packet has no entry and exactly one request of ours out. */
  lemma HeldAreOwed(ip: Addr, broadcast: Addr, run: seq<Timed>, h: Held)
    requires Runs(Initial(ip, broadcast), run) && AllSettled(Initial(ip, broadcast), run)
    requires h in Reached(ip, broadcast, run).held
    ensures var n := Reached(ip, broadcast, run);
      && Find(n.table, h.dst).None?
      && exists i :: OnlyOne(n.requests, h.dst, i)
  {
    hide Runs, Outcome, AllSettled;
    ReachedInv(ip, broadcast, run);
    InitialInv(ip, broadcast);
    RunKeepsHeld(Initial(ip, broadcast), run);
    var n := Reached(ip, broadcast, run);
    assert Owed(n, h);
    var i :| 0 <= i < |n.requests| && n.requests[i].tries >= 0 && n.requests[i].dst == h.dst;
    forall j | 0 <= j < |n.requests|
      ensures n.requests[j].tries >= 0 && n.requests[j].dst == h.dst <==> j == i
    {
      assert i < j ==> Apart(n.requests[i], n.requests[j]);
      assert j < i ==> Apart(n.requests[j], n.requests[i]);
    }
    assert OnlyOne(n.requests, h.dst, i);
  }

  /** The two ways a held packet leaves: a route to its destination is added, and it is accepted, or the
      last try is over, and it is dropped. */
  lemma RouteReleases(n: Node, r: Route, now: int, h: Held)
    requires r.prefix == 0 && Find(n.table, r.dst).None? && h in n.held
    ensures var m := AddRoute(n, r, now);
      if h.dst == r.dst then h !in m.held && h.id in m.accepted[|n.accepted|..] else h in m.held
  {
    hide Find;
    var r1 := r.(valid := true, action := UnsetValidEntry);
    RouteKeepsOthers(n.held, r1, h);
    if h.dst == r.dst {
      var i :| 0 <= i < |n.held| && n.held[i] == h;
      MatchingIn(n.held, r1, i);
    }
  }

  lemma {:induction false} MatchingIn(held: seq<Held>, r: Route, i: nat)
    requires i < |held| && Covers(r, held[i].dst)
    ensures held[i].id in Matching(held, r)
  {
    hide Covers;
    if i > 0 {
      MatchingIn(held[1..], r, i - 1);
    }
  }

  lemma {:induction false} IdsForIn(held: seq<Held>, dst: Addr, i: nat)
    requires i < |held| && held[i].dst == dst
    ensures held[i].id in IdsFor(held, dst)
  {
    if i > 0 {
      IdsForIn(held[1..], dst, i - 1);
    }
  }

  lemma GiveUpReleases(n: Node, q: Request, now: int, h: Held)
    requires RequestById(n.requests, q.eid) == Some(q) && q.tries == RREQ_RETRIES && h in n.held
    ensures var m := RequestAlarm(n, q.eid, now);
      if h.dst == q.dst then h !in m.held && h.id in m.dropped[|n.dropped|..] else h in m.held
  {
    DropKeepsOthers(n.held, q.dst, h);
    if h.dst == q.dst {
      var i :| 0 <= i < |n.held| && n.held[i] == h;
      IdsForIn(n.held, q.dst, i);
    }
  }

  // ----- A packet that is queued while the table holds an expired entry for its destination -----

  /** A neighbour is heard, its route expires, a packet for it is queued, and the neighbour replies. */
  function StrandingRun(): seq<Timed> {
    [Timed(Packet(5, Rreq(1, 0, 0, 9, 8, 0, 5, 1), None, Lifetimes(0, None)), 0),
     Timed(RunAlarms([3_000_000]), 3_000_000),
     Timed(OutputPacket(77, 5), 3_000_001),
     Timed(Packet(5, Rrep(1, 64, 0, 5, 2, 1), None, Lifetimes(3000, None)), 3_100_000)]
  }

  function Heard(): Node {
    var r := Route(0, 5, 0, 5, 0, 1, true, true, UnsetValidEntry, []);
    Initial(1, 255).(table := [r], nextId := 2, requests := [Request(1, 9, 8, -1)],
                     timers := [Armed(RouteTimer(0), 3_000_000), Armed(RequestTimer(1), 5_600_000)])
  }

  function Expired(): Node {
    var n := Heard();
    n.(table := [n.table[0].(valid := false, action := DestroyRoute)],
       timers := [Armed(RouteTimer(0), 5_000_000), Armed(RequestTimer(1), 5_600_000)],
       invalidSince := map[0 := 3_000_000])
  }

  lemma HeardFirst()
    ensures React(Initial(1, 255), StrandingRun()[0].e, 0) == Heard()
  {
    var p, n := StrandingRun()[0].e.p, Initial(1, 255);
    var r := NewRoute(0, 5).(nextHop := 5, valid := true, action := UnsetValidEntry);
    var n1 := TouchPrevHop(n, 5, 0);
    assert n1 == n.(nextId := 1, table := [r], timers := [Armed(RouteTimer(0), 3_000_000)]);
    var n2 := PushRequest(n1, 9, 8, -1, 0);
    assert n2.timers == [Armed(RouteTimer(0), 3_000_000), Armed(RequestTimer(1), 5_600_000)];
    var n3 := ReverseRoute(n2, 5, p, None, 0);
    assert n3 == Heard();
    assert !Covers(n3.table[0], 8);
  }

  lemma ThenExpired()
    ensures DueLatestFirst(Heard().timers, 3_000_000) == [RouteTimer(0)]
    ensures React(Heard(), StrandingRun()[1].e, 3_000_000) == Expired()
  {
    var n := Heard();
    SlotUnique(n.timers, 3_000_000, 1);
    assert DueLatestFirst(n.timers, 3_000_000) == [RouteTimer(0)];
    var n0 := n.(timers := Cancel(n.timers, RouteTimer(0)));
    assert n0.timers == [Armed(RequestTimer(1), 5_600_000)];
    var n1 := Fire(n0, RouteTimer(0), 3_000_000);
    assert n1.timers == Expired().timers;
    assert n1.table == Expired().table;
    assert FireAll(n, [RouteTimer(0)], [3_000_000]) == FireAll(n1, [], []) by {
      assert [RouteTimer(0)][1..] == [] && [3_000_000][1..] == [];
    }
  }

  function Queued(): Node {
    var n := Expired();
    n.(seqNum := 1, rreqId := 1, nextId := 3, handed := [77], held := [Held(77, 5)],
       requests := [Request(2, 1, 5, 0)] + n.requests,
       timers := [Armed(RouteTimer(0), 5_000_000), Armed(RequestTimer(1), 5_600_000), Armed(RequestTimer(2), 5_800_001)],
       sent := [Rreq(3, 5, 0, 1, 5, 0, 1, 1)])
  }

  lemma ThenQueued()
    ensures React(Expired(), StrandingRun()[2].e, 3_000_001) == Queued()
  {
    var n := Expired();
    assert !Routable(n, 5);
    assert !Waiting(n.requests, 5);
    assert BackoffTime(0) == 2800;
    assert Arm(n.timers, RequestTimer(2), 5_800_001) == Queued().timers;
  }

  /** The reply revives the old entry, which releases nothing, and ends the request: the packet stays
      held with no request out for it, although there is a valid route. */
  lemma PacketStranded()
    ensures var run := StrandingRun();
      && Runs(Initial(1, 255), run)
      && var n := Reached(1, 255, run);
         n.held == [Held(77, 5)] && Routable(n, 5) && !Waiting(n.requests, 5)
  {
    var run := StrandingRun();
    HeardFirst();
    ThenExpired();
    ThenQueued();
    var n := React(Queued(), run[3].e, 3_100_000);
    assert n.held == [Held(77, 5)] && Routable(n, 5) && !Waiting(n.requests, 5) by { ThenStranded(); }
    hide React;
    assert Outcome(n, run[4..]) == n && Runs(n, run[4..]);
    assert run[3..][1..] == run[4..] && run[2..][1..] == run[3..] && run[1..][1..] == run[2..];
    assert Runs(Queued(), run[3..]) && Outcome(Queued(), run[3..]) == n;
    assert Runs(Expired(), run[2..]) && Outcome(Expired(), run[2..]) == n;
    assert Runs(Heard(), run[1..]) && Outcome(Heard(), run[1..]) == n;
  }

  /** The old entry, as the reply leaves it. */
  function Revived(): Node {
    var r := Queued().table[0].(valid := true, action := UnsetValidEntry, seqNum := 2, hops := 1);
    SetLifetime(Queued().(table := [r], timers := Arm(Queued().timers, RouteTimer(0), 6_100_000)), r, 3000, 3_100_000)
  }

  lemma ThenRevived()
    ensures ProcessRrep(Queued(), 5, StrandingRun()[3].e.p, Lifetimes(3000, None), 3_100_000) == Answered(Revived(), 1, 5)
  {
    hide Arm, Answered;
    var n, p := Queued(), StrandingRun()[3].e.p;
    var r := n.table[0].(valid := true, action := UnsetValidEntry);
    var n1 := TouchPrevHop(n, 5, 3_100_000);
    assert n1 == n.(table := [r], timers := Arm(n.timers, RouteTimer(0), 6_100_000));
    assert Find(n1.table, 5) == Some(r) && Supersedes(r, p, 1);
    var r1 := r.(seqNum := 2, hops := 1);
    assert r1 == r.(seqNum := p.destSeq, seqValid := true, nextHop := 5, hops := 1);
    assert WithRoute(n1.table, r1) == [r1];
  }

  lemma ThenStranded()
    ensures var n := React(Queued(), StrandingRun()[3].e, 3_100_000);
      n.held == [Held(77, 5)] && Routable(n, 5) && !Waiting(n.requests, 5)
  {
    hide Arm, ProcessRrep;
    ThenRevived();
    var n := Revived();
    assert n.held == [Held(77, 5)] && Routable(n, 5);
    assert OldEnough(n.requests, 1, 5) == Some(Request(2, 1, 5, 0));
    assert WithoutRequest(n.requests, 2) == [Request(1, 9, 8, -1)];
  }
}
