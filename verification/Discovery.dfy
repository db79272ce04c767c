/** What one discovery builds, whatever the order of deliveries and whatever is lost. */
module Discovery {
  import opened Config
  import opened Routes
  import opened Node
  import opened NodeInv
  import opened NodeView
  import opened NodeSteps
  import opened Network
  import opened NetworkInv

  // ----- Every run -----

  lemma AskerOk(c: Setup, now: int)
    requires SetupOk(c)
    ensures var o := FindRoute(c.boot[c.orig], c.dest, 0, now);
      && NodeOk(c, c.orig, o) && o.table == [] && Contains(o.requests, DiscoveryId(c), c.dest)
  {
    hide HeldOk;
    assert Blank(c.boot[c.orig], c.orig);
    FindRouteKeeps(c.boot[c.orig], c.dest, 0, now);
    var o := FindRoute(c.boot[c.orig], c.dest, 0, now);
    assert o.requests[0].id == DiscoveryId(c) && o.requests[0].dst == c.dest;
  }

  lemma StartNode(c: Setup, now: int, x: Addr)
    requires SetupOk(c) && x in c.all
    ensures var n := Start(c, now).nodes[x];
      && NodeOk(c, x, n) && Toward(n.table, c.orig).NoHop? && Toward(n.table, c.dest).NoHop?
      && (Contains(n.requests, DiscoveryId(c), c.dest) <==> x == c.orig)
  {
    hide FindRoute;
    AskerOk(c, now);
    assert Blank(c.boot[x], x);
  }

  lemma StartFlight(c: Setup, now: int) returns (ask: Message)
    requires SetupOk(c)
    ensures ask.Rreq? && ask.ttl == c.ttl && ask.hops == 0 && ask.id == DiscoveryId(c)
    ensures ask.dest == c.dest && ask.destSeq == 0 && ask.orig == c.orig
    ensures ask.flags == GRATUITOUS_FLAG + UNKNOWN_SEQ_FLAG && ask.origSeq == Increment(c.boot[c.orig].seqNum)
    ensures Start(c, now).flight == Copies(c.all, c.orig, ask)
  {
    assert Blank(c.boot[c.orig], c.orig);
    var o := FindRoute(c.boot[c.orig], c.dest, 0, now);
    ask := WithTtl(o.sent[|o.sent| - 1], c.ttl);
    OutgoingOne(c, c.orig, ask);
  }

  lemma StartCopy(c: Setup, now: int, p: Copy)
    requires SetupOk(c) && p in Start(c, now).flight
    ensures p.to in c.all && p.to != c.orig && p.from == c.orig
    ensures p.m.Rreq? && p.m.ttl == c.ttl && p.m.hops == 0 && p.m.id == DiscoveryId(c)
    ensures p.m.dest == c.dest && p.m.destSeq == 0 && p.m.orig == c.orig
  {
    var ask := StartFlight(c, now);
    CopiesIn(c.all, c.orig, ask, p);
  }

  lemma StartAt(c: Setup, now: int, x: Addr)
    requires SetupOk(c) && x in Start(c, now).nodes
    ensures var s := Start(c, now);
      && NodeOk(c, x, s.nodes[x]) && BackOk(c, s, x) && FwdOk(c, s, x) && CleanNode(c, s, x)
      && (Seen(c, s, x) <==> x == c.orig)
  {
    StartNode(c, now, x);
    hide NodeOk, Start, Contains, Toward;
  }

  lemma StartCopyOk(c: Setup, now: int, p: Copy)
    requires SetupOk(c) && p in Start(c, now).flight
    ensures CopyOk(c, Start(c, now), p) && CleanCopy(c, p) && p.m.Rreq?
  {
    StartCopy(c, now, p);
    hide Contains, Toward, FindRoute, Copies, Outgoing;
  }

  lemma StartKeys(c: Setup, now: int)
    requires SetupOk(c)
    ensures forall x :: x in Start(c, now).nodes <==> x in c.all
  {
  }

  lemma StartOk(c: Setup, now: int)
    requires SetupOk(c)
    ensures NetInv(c, Start(c, now)) && Clean(c, Start(c, now))
  {
    hide NodeOk, BackOk, FwdOk, CleanNode, CopyOk, CleanCopy, Start, Contains, Toward;
    var s := Start(c, now);
    assert forall x :: x in s.nodes <==> x in c.all by { StartKeys(c, now); }
    forall x | x in s.nodes
      ensures NodeOk(c, x, s.nodes[x]) && BackOk(c, s, x) && FwdOk(c, s, x) && CleanNode(c, s, x)
    {
      StartAt(c, now, x);
    }
    StartAt(c, now, c.orig);
    forall p | p in s.flight
      ensures CopyOk(c, s, p) && CleanCopy(c, p) && p.m.Rreq?
    {
      StartCopyOk(c, now, p);
    }
    NoneIsOne(s.flight);
    assert AtMostOneReply(s.flight);
  }

  lemma NoneIsOne(flight: seq<Copy>)
    requires NoReply(flight)
    ensures AtMostOneReply(flight)
  {
  }

  lemma {:induction false} RunKeeps(c: Setup, s: Net, moves: seq<Move>)
    requires NetInv(c, s) && CanRun(c, s, moves)
    ensures NetInv(c, Ran(c, s, moves))
    decreases moves
  {
    hide NetInv, Moved, Possible, Clean;
    if moves != [] {
      MoveKeeps(c, s, moves[0]);
      RunKeeps(c, Moved(c, s, moves[0]), moves[1..]);
    }
  }

  /** No move of the run delivers a copy that misleads its receiver. */
  ghost predicate NoneMisled(c: Setup, s: Net, moves: seq<Move>)
    requires CanRun(c, s, moves)
    decreases moves
  {
    moves != [] ==>
      && !(moves[0].Deliver? && Misled(c, s, s.flight[moves[0].i]))
      && NoneMisled(c, Moved(c, s, moves[0]), moves[1..])
  }

  lemma {:induction false} RunInexact(c: Setup, s: Net, moves: seq<Move>)
    requires NetInv(c, s) && !ExactNodes(c, s) && CanRun(c, s, moves)
    ensures !ExactNodes(c, Ran(c, s, moves))
    decreases moves
  {
    hide NetInv, Moved, Possible, ExactNodes;
    if moves != [] {
      MoveKeeps(c, s, moves[0]);
      MoveInexact(c, s, moves[0]);
      RunInexact(c, Moved(c, s, moves[0]), moves[1..]);
    }
  }

  /** After a run the hop counts are exact if and only if no copy misled its receiver. */
  lemma {:induction false} RunExact(c: Setup, s: Net, moves: seq<Move>)
    requires NetInv(c, s) && ExactNodes(c, s) && CanRun(c, s, moves)
    ensures ExactNodes(c, Ran(c, s, moves)) <==> NoneMisled(c, s, moves)
    decreases moves
  {
    hide NetInv, Moved, Possible, ExactNodes, Misled;
    if moves != [] {
      var t := Moved(c, s, moves[0]);
      MoveKeeps(c, s, moves[0]);
      assert moves[0].Deliver? ==> s.flight[moves[0].i].to in s.nodes by { CanMove(c, s, moves); }
      MoveExact(c, s, moves[0]);
      if ExactNodes(c, t) {
        RunExact(c, t, moves[1..]);
      } else {
        RunInexact(c, t, moves[1..]);
      }
    }
  }

  lemma CanMove(c: Setup, s: Net, moves: seq<Move>)
    requires moves != [] && CanRun(c, s, moves)
    ensures Possible(s, moves[0])
    ensures moves[0].i < |s.flight| && (moves[0].Deliver? ==> s.flight[moves[0].i].to in s.nodes)
  {
  }

  // ----- Following next hops -----

  /** From `x`, the next hops stored for `goal` lead there in exactly `k` steps. */
  ghost predicate ReachesIn(s: Net, goal: Addr, x: Addr, k: nat)
    decreases k
  {
    if k == 0 then x == goal
    else
      && x != goal && x in s.nodes && Toward(s.nodes[x].table, goal).Hop?
      && ReachesIn(s, goal, Toward(s.nodes[x].table, goal).next, k - 1)
  }

  /** Where `j` steps lead. */
  function Walk(s: Net, goal: Addr, x: Addr, j: nat): Addr
    decreases j
  {
    if j == 0 || x !in s.nodes || Toward(s.nodes[x].table, goal).NoHop? then x
    else Walk(s, goal, Toward(s.nodes[x].table, goal).next, j - 1)
  }

  lemma {:induction false} ReachesOnce(s: Net, goal: Addr, x: Addr, k: nat, l: nat)
    requires ReachesIn(s, goal, x, k) && ReachesIn(s, goal, x, l)
    ensures k == l
    decreases k
  {
    if k > 0 && l > 0 {
      ReachesOnce(s, goal, Toward(s.nodes[x].table, goal).next, k - 1, l - 1);
    }
  }

  lemma {:induction false} WalkReaches(s: Net, goal: Addr, x: Addr, k: nat, j: nat)
    requires ReachesIn(s, goal, x, k) && j <= k
    ensures ReachesIn(s, goal, Walk(s, goal, x, j), k - j)
    decreases j
  {
    if j > 0 {
      WalkReaches(s, goal, Toward(s.nodes[x].table, goal).next, k - 1, j - 1);
    }
  }

  /** On the way to the goal no node comes twice. */
  lemma NoCycle(s: Net, goal: Addr, x: Addr, k: nat, i: nat, j: nat)
    requires ReachesIn(s, goal, x, k) && i < j <= k
    ensures Walk(s, goal, x, i) != Walk(s, goal, x, j)
  {
    WalkReaches(s, goal, x, k, i);
    WalkReaches(s, goal, x, k, j);
    if Walk(s, goal, x, i) == Walk(s, goal, x, j) {
      ReachesOnce(s, goal, Walk(s, goal, x, i), k - i, k - j);
    }
  }

  /** The way back of a node that has heard the RREQ ends at the originator.  It takes one step more
      than the hop count, less the hop count of the last node before the originator. */
  lemma {:induction false} WayBack(c: Setup, s: Net, x: Addr) returns (k: nat, last: Addr)
    requires NetInv(c, s) && x in s.nodes && x != c.orig && Seen(c, s, x)
    ensures ReachesIn(s, c.orig, x, k) && last in s.nodes && last != c.orig && Seen(c, s, last)
    ensures Back(c, s, x).Hop? && Back(c, s, last).Hop? && Back(c, s, last).next == c.orig
    ensures k > 0 && Walk(s, c.orig, x, k - 1) == last
    ensures k + Back(c, s, last).hops == Back(c, s, x).hops + 1
    decreases Rank(c, s, x)
  {
    hide Contains, NodeOk, FwdOk, CopyOk, Clean;
    assert BackOk(c, s, x);
    var b := Back(c, s, x);
    if b.next == c.orig {
      k, last := 1, x;
      assert ReachesIn(s, c.orig, c.orig, 0);
    } else {
      k, last := WayBack(c, s, b.next);
      k := k + 1;
    }
  }

  /** The way back takes exactly one step more than the hop count if and only if its last node, next to
      the originator, heard the RREQ with hop count zero. */
  lemma WayBackExact(c: Setup, s: Net, x: Addr) returns (last: Addr)
    requires NetInv(c, s) && x in s.nodes && x != c.orig && Seen(c, s, x)
    ensures last in s.nodes && Back(c, s, x).Hop? && Back(c, s, last).Hop? && Back(c, s, last).next == c.orig
    ensures exists k: nat :: ReachesIn(s, c.orig, x, k + 1) && Walk(s, c.orig, x, k) == last
    ensures ReachesIn(s, c.orig, x, Back(c, s, x).hops + 1) <==> Back(c, s, last).hops == 0
  {
    hide NetInv, Seen, Toward;
    var k;
    k, last := WayBack(c, s, x);
    assert ReachesIn(s, c.orig, x, (k - 1) + 1) && Walk(s, c.orig, x, k - 1) == last;
    if ReachesIn(s, c.orig, x, Back(c, s, x).hops + 1) {
      ReachesOnce(s, c.orig, x, k, Back(c, s, x).hops + 1);
    }
  }

  /** From every node that has heard the RREQ, the originator is as many steps away as it counts hops,
      and one. */
  ghost predicate TreeExact(c: Setup, s: Net) {
    forall x {:trigger Back(c, s, x)} :: x in s.nodes && x != c.orig && Seen(c, s, x) ==>
      Back(c, s, x).Hop? && ReachesIn(s, c.orig, x, Back(c, s, x).hops + 1)
  }

  lemma ExactIsTree(c: Setup, s: Net)
    requires NetInv(c, s)
    ensures TreeExact(c, s) <==> ExactNodes(c, s)
  {
    hide NetInv, Contains, Toward, ReachesIn, Walk;
    forall x | x in s.nodes && x != c.orig && Seen(c, s, x) && ExactNodes(c, s)
      ensures Back(c, s, x).Hop? && ReachesIn(s, c.orig, x, Back(c, s, x).hops + 1)
    {
      var k, last := WayBack(c, s, x);
      assert CleanNode(c, s, last);
    }
    forall x | x in s.nodes && TreeExact(c, s)
      ensures CleanNode(c, s, x)
    {
      if !CleanNode(c, s, x) {
        NextReached(c, s, x);
        ReachesOnce(s, c.orig, x, 1, Back(c, s, x).hops + 1);
      }
    }
  }

  lemma NextReached(c: Setup, s: Net, x: Addr)
    requires x in s.nodes && x != c.orig && Back(c, s, x).Hop? && Back(c, s, x).next == c.orig
    ensures ReachesIn(s, c.orig, x, 1)
  {
    assert ReachesIn(s, c.orig, c.orig, 0);
  }

  /** The reverse routes of a discovery form a tree, in every run: each node that has heard the RREQ
      reaches the originator, in as many steps as it counts hops, and one, less what the last node on
      the way counts, and no node comes twice on the way. */
  lemma ReverseTree(c: Setup, now: int, moves: seq<Move>, x: Addr) returns (k: nat, last: Addr)
    requires SetupOk(c) && CanRun(c, Start(c, now), moves)
    requires var s := Ran(c, Start(c, now), moves); x in s.nodes && x != c.orig && Seen(c, s, x)
    ensures var s := Ran(c, Start(c, now), moves);
      && k > 0 && ReachesIn(s, c.orig, x, k) && last == Walk(s, c.orig, x, k - 1) && last in s.nodes
      && Back(c, s, x).Hop? && Back(c, s, last).Hop? && k == Back(c, s, x).hops + 1 - Back(c, s, last).hops
      && forall i, j :: 0 <= i < j <= k ==> Walk(s, c.orig, x, i) != Walk(s, c.orig, x, j)
  {
    hide NetInv, Start, CanRun, Ran, Clean, ReachesIn, Walk, Seen;
    StartOk(c, now);
    RunKeeps(c, Start(c, now), moves);
    var s := Ran(c, Start(c, now), moves);
    k, last := WayBack(c, s, x);
    forall i, j | 0 <= i < j <= k
      ensures Walk(s, c.orig, x, i) != Walk(s, c.orig, x, j)
    {
      NoCycle(s, c.orig, x, k, i, j);
    }
  }

  /** Every node that has heard the RREQ reaches the originator in exactly its hop count and one step, if
      and only if no move of the run misled a node. */
  lemma ReverseExact(c: Setup, now: int, moves: seq<Move>)
    requires SetupOk(c) && CanRun(c, Start(c, now), moves)
    ensures TreeExact(c, Ran(c, Start(c, now), moves)) <==> NoneMisled(c, Start(c, now), moves)
  {
    hide NetInv, Start, CanRun, Ran, NoneMisled, TreeExact, ExactNodes;
    StartOk(c, now);
    assert ExactNodes(c, Start(c, now));
    RunKeeps(c, Start(c, now), moves);
    RunExact(c, Start(c, now), moves);
    ExactIsTree(c, Ran(c, Start(c, now), moves));
  }

  // ----- The forward chain -----

  lemma {:induction false} WayForward(c: Setup, s: Net, x: Addr)
    requires NetInv(c, s) && x in s.nodes && Fwd(c, s, x).Hop?
    ensures ReachesIn(s, c.dest, x, Fwd(c, s, x).hops)
    decreases Fwd(c, s, x).hops
  {
    hide Contains, NodeOk, BackOk, CopyOk, Clean;
    assert FwdOk(c, s, x);
    var f := Fwd(c, s, x);
    if f.next == c.dest {
      assert ReachesIn(s, c.dest, c.dest, 0);
    } else {
      WayForward(c, s, f.next);
    }
  }

  /** Every node that knows a way to the destination reaches it in exactly its hop count of steps. */
  lemma ForwardChain(c: Setup, now: int, moves: seq<Move>, x: Addr)
    requires SetupOk(c) && CanRun(c, Start(c, now), moves)
    requires var s := Ran(c, Start(c, now), moves); x in s.nodes && Fwd(c, s, x).Hop?
    ensures var s := Ran(c, Start(c, now), moves);
      ReachesIn(s, c.dest, x, Fwd(c, s, x).hops)
  {
    hide NetInv, Start, CanRun, Ran, ReachesIn, Clean;
    StartOk(c, now);
    RunKeeps(c, Start(c, now), moves);
    WayForward(c, Ran(c, Start(c, now), moves), x);
  }

  /** The originator counts as many hops to the destination as the destination to it, and one. */
  ghost predicate CountsAgree(c: Setup, s: Net)
    requires c.orig in s.nodes && c.dest in s.nodes
  {
    Fwd(c, s, c.orig).Hop? ==> Back(c, s, c.dest).Hop? && Fwd(c, s, c.orig).hops == Back(c, s, c.dest).hops + 1
  }

  lemma MoveAgrees(c: Setup, s: Net, mv: Move)
    requires NetInv(c, s) && Possible(s, mv) && CountsAgree(c, s)
    ensures c.orig in Moved(c, s, mv).nodes && c.dest in Moved(c, s, mv).nodes && CountsAgree(c, Moved(c, s, mv))
  {
    hide Contains, Toward, NodeOk, BackOk, Clean, Receive;
    if mv.Deliver? {
      var p, rest, t := s.flight[mv.i], Without(s.flight, mv.i), Moved(c, s, mv);
      CopyFacts(c, s, mv.i);
      if p.m.Rrep? {
        ReplyHappens(c, s, mv);
        ReplyGrows(c, s, t, p, rest);
      } else if Seen(c, s, p.to) {
        SeenGrows(c, s, mv);
      } else {
        FreshHappens(c, s, mv);
        FreshGrows(c, s, t, p, rest);
      }
    }
  }

  lemma {:induction false} RunAgrees(c: Setup, s: Net, moves: seq<Move>)
    requires NetInv(c, s) && CountsAgree(c, s) && CanRun(c, s, moves)
    ensures NetInv(c, Ran(c, s, moves)) && CountsAgree(c, Ran(c, s, moves))
    decreases moves
  {
    hide Moved, Possible, CountsAgree, Clean, NodeOk, BackOk, FwdOk, CopyOk;
    if moves != [] {
      MoveKeeps(c, s, moves[0]);
      MoveAgrees(c, s, moves[0]);
      RunAgrees(c, Moved(c, s, moves[0]), moves[1..]);
    }
  }

  /** On arrival of the RREP the two ends agree, in every run. */
  lemma EndsAgree(c: Setup, now: int, moves: seq<Move>)
    requires SetupOk(c) && CanRun(c, Start(c, now), moves)
    ensures var s := Ran(c, Start(c, now), moves);
      c.orig in s.nodes && c.dest in s.nodes && CountsAgree(c, s)
  {
    hide CanRun, Ran, Clean, NodeOk, BackOk, FwdOk, CopyOk;
    StartOk(c, now);
    var s := Start(c, now);
    StartKeys(c, now);
    StartNode(c, now, c.orig);
    hide Start;
    RunAgrees(c, s, moves);
  }
}
