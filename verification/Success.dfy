/** When a discovery succeeds: nodes relay, the destination answers, and the answer finds its way. */
module Success {
  import opened Config
  import opened Routes
  import opened Node
  import opened NodeInv
  import opened NodeView
  import opened Network
  import opened NetworkInv
  import opened Discovery

  lemma StaysBehind<T>(s: seq<T>, i: nat, x: T)
    requires i < |s| && x in s && x != s[i]
    ensures x in Without(s, i)
  {
    var k :| 0 <= k < |s| && s[k] == x;
    assert Without(s, i)[if k < i then k else k - 1] == x;
  }

  // ----- The answer arrives -----

  /** Once the destination has heard the RREQ, a RREP is on its way until the originator has it. */
  ghost predicate ReplyComes(c: Setup, s: Net)
    requires c.dest in s.nodes && c.orig in s.nodes
  {
    Seen(c, s, c.dest) && Fwd(c, s, c.orig).NoHop? ==> exists p :: p in s.flight && p.m.Rrep?
  }

  lemma MoveReply(c: Setup, s: Net, mv: Move)
    requires NetInv(c, s) && Possible(s, mv) && ReplyComes(c, s) && !(mv.Lose? && s.flight[mv.i].m.Rrep?)
    ensures c.dest in Moved(c, s, mv).nodes && c.orig in Moved(c, s, mv).nodes && ReplyComes(c, Moved(c, s, mv))
  {
    hide Contains, Toward, NodeOk, BackOk, FwdOk, CopyOk, Clean, Without, Receive;
    var p, rest, t := s.flight[mv.i], Without(s.flight, mv.i), Moved(c, s, mv);
    CopyFacts(c, s, mv.i);
    if Seen(c, s, c.dest) && Fwd(c, s, c.orig).NoHop? && p.m.Rreq? {
      var q :| q in s.flight && q.m.Rrep?;
      StaysBehind(s.flight, mv.i, q);
    }
    if mv.Deliver? {
      if p.m.Rrep? {
        ReplyHappens(c, s, mv);
        assert p.to != c.orig ==> ForwardedReply(c, s, p) in t.flight;
      } else if Seen(c, s, p.to) {
        SeenGrows(c, s, mv);
      } else {
        FreshHappens(c, s, mv);
        if p.to == c.dest {
          OutgoingOne(c, c.dest, FreshOut(c, s.nodes[p.to], p, t.nodes[p.to].seqNum)[0]);
        }
      }
    }
  }

  ghost predicate NoReplyLost(c: Setup, s: Net, moves: seq<Move>)
    requires CanRun(c, s, moves)
    decreases moves
  {
    moves != [] ==>
      && !(moves[0].Lose? && s.flight[moves[0].i].m.Rrep?)
      && NoReplyLost(c, Moved(c, s, moves[0]), moves[1..])
  }

  lemma {:induction false} RunReply(c: Setup, s: Net, moves: seq<Move>)
    requires NetInv(c, s) && ReplyComes(c, s) && CanRun(c, s, moves) && NoReplyLost(c, s, moves)
    ensures var t := Ran(c, s, moves);
      NetInv(c, t) && c.dest in t.nodes && c.orig in t.nodes && ReplyComes(c, t)
    decreases moves
  {
    hide Moved, Possible, Clean, NodeOk, BackOk, FwdOk, CopyOk, ReplyComes;
    if moves != [] {
      CanMove(c, s, moves);
      MoveKeeps(c, s, moves[0]);
      MoveReply(c, s, moves[0]);
      RunReply(c, Moved(c, s, moves[0]), moves[1..]);
    }
  }

  /** If no RREP is lost, then when nothing is in flight any more the originator knows a way to the
      destination if and only if the destination has heard the RREQ. */
  lemma ReplyArrives(c: Setup, now: int, moves: seq<Move>)
    requires SetupOk(c) && CanRun(c, Start(c, now), moves) && NoReplyLost(c, Start(c, now), moves)
    requires Ran(c, Start(c, now), moves).flight == []
    ensures var s := Ran(c, Start(c, now), moves);
      c.orig in s.nodes && c.dest in s.nodes && (Fwd(c, s, c.orig).Hop? <==> Seen(c, s, c.dest))
  {
    hide CanRun, Ran, Clean, NodeOk, BackOk, FwdOk, CopyOk, NoReplyLost;
    StartOk(c, now);
    var s := Start(c, now);
    StartKeys(c, now);
    assert !Seen(c, s, c.dest) by { StartAt(c, now, c.dest); }
    hide Start, Toward, Contains;
    RunReply(c, s, moves);
    HeardIsAnswered(c, Ran(c, s, moves));
  }

  lemma HeardIsAnswered(c: Setup, s: Net)
    requires NetInv(c, s) && s.flight == [] && c.dest in s.nodes && c.orig in s.nodes && ReplyComes(c, s)
    ensures Fwd(c, s, c.orig).Hop? <==> Seen(c, s, c.dest)
  {
    hide Clean, NodeOk, BackOk, CopyOk, Toward, Contains;
    assert FwdOk(c, s, c.orig);
  }

  // ----- The RREQ spreads -----

  /** Which nodes hear which: `(y, x)` if what `y` broadcasts reaches `x`. */
  type Links = set<(Addr, Addr)>

  /** The originator has broadcast the RREQ; so has every node that has heard it, except the destination
      and those that heard it with its time to live at an end. */
  ghost predicate Passes(c: Setup, s: Net, y: Addr)
    requires y in s.nodes
  {
    y == c.orig || (y != c.dest && Seen(c, s, y) && Back(c, s, y).Hop? && Back(c, s, y).hops + 1 < c.ttl)
  }

  ghost predicate Hears(c: Setup, s: Net, y: Addr, x: Addr)
    requires x in s.nodes
  {
    x == c.orig || Seen(c, s, x) || exists p :: p in s.flight && p.m.Rreq? && p.from == y && p.to == x
  }

  ghost predicate Spreads(c: Setup, s: Net, links: Links) {
    forall y, x {:trigger Hears(c, s, y, x)} ::
      y in s.nodes && x in s.nodes && y != x && (y, x) in links && Passes(c, s, y) ==> Hears(c, s, y, x)
  }

  /** What `x` had heard or was about to hear from `y`, it still has or is. */
  lemma StillHears(c: Setup, s: Net, mv: Move, y: Addr, x: Addr)
    requires NetInv(c, s) && Possible(s, mv) && x in s.nodes && Hears(c, s, y, x)
    requires mv.Lose? ==> var p := s.flight[mv.i]; !(p.m.Rreq? && p.from == y && p.to == x)
    ensures x in Moved(c, s, mv).nodes && Hears(c, Moved(c, s, mv), y, x)
  {
    hide Contains, Toward, NodeOk, BackOk, FwdOk, CopyOk, Clean, Without, Receive;
    var p, rest, t := s.flight[mv.i], Without(s.flight, mv.i), Moved(c, s, mv);
    CopyFacts(c, s, mv.i);
    if mv.Deliver? {
      DeliverGrows(c, s, mv);
      GrowsKeys(c, s, t, p.to);
    }
    if x != c.orig && !Seen(c, s, x) {
      var q :| q in s.flight && q.m.Rreq? && q.from == y && q.to == x;
      if q != p {
        StaysBehind(s.flight, mv.i, q);
        assert q in t.flight;
      }
    }
  }

  /** A node that hears the RREQ first broadcasts it, if its time to live allows. */
  lemma Relays(c: Setup, s: Net, mv: Move, x: Addr)
    requires NetInv(c, s) && mv.Deliver? && Possible(s, mv) && x in s.nodes
    requires var p := s.flight[mv.i]; p.m.Rreq? && !Seen(c, s, p.to) && p.to != c.orig && p.to != c.dest && x != p.to
    requires var y, t := s.flight[mv.i].to, Moved(c, s, mv); y in t.nodes && Passes(c, t, y)
    ensures x in Moved(c, s, mv).nodes && Hears(c, Moved(c, s, mv), s.flight[mv.i].to, x)
  {
    hide Contains, Toward, NodeOk, BackOk, FwdOk, Clean, Without, Receive, Swallows;
    var p, t := s.flight[mv.i], Moved(c, s, mv);
    CopyFacts(c, s, mv.i);
    FreshHappens(c, s, mv);
    Unknown(c, s, p.to);
    Unswallowed(s.nodes[p.to], p.from, p.m);
    OutgoingOne(c, p.to, Relayed(p.m));
    CopiesIn(c.all, p.to, Relayed(p.m), Copy(x, p.to, Relayed(p.m)));
    assert Copy(x, p.to, Relayed(p.m)) in t.flight;
  }

  lemma MoveSpreads(c: Setup, s: Net, mv: Move, links: Links)
    requires NetInv(c, s) && Possible(s, mv) && Spreads(c, s, links)
    requires mv.Lose? ==> var p := s.flight[mv.i]; !(p.m.Rreq? && (p.from, p.to) in links)
    ensures Spreads(c, Moved(c, s, mv), links)
  {
    hide NetInv, Seen, Toward, Hears, Moved;
    var p, t := s.flight[mv.i], Moved(c, s, mv);
    forall y, x | y in t.nodes && x in t.nodes && y != x && (y, x) in links && Passes(c, t, y)
      ensures Hears(c, t, y, x)
    {
      SamePassers(c, s, mv, y, x);
      if Passes(c, s, y) {
        assert Hears(c, s, y, x);
        StillHears(c, s, mv, y, x);
      } else {
        Relays(c, s, mv, x);
      }
    }
  }

  ghost predicate FirstHears(c: Setup, s: Net, mv: Move, y: Addr)
    requires Possible(s, mv) && y in s.nodes
  {
    && mv.Deliver? && s.flight[mv.i].to == y && s.flight[mv.i].m.Rreq?
    && !Seen(c, s, y) && y != c.orig && y != c.dest
  }

  /** A node that did not pass on the RREQ before and does now has just heard it. */
  lemma SamePassers(c: Setup, s: Net, mv: Move, y: Addr, x: Addr)
    requires NetInv(c, s) && Possible(s, mv)
    requires y in Moved(c, s, mv).nodes && x in Moved(c, s, mv).nodes && Passes(c, Moved(c, s, mv), y)
    ensures y in s.nodes && x in s.nodes
    ensures Passes(c, s, y) || FirstHears(c, s, mv, y)
  {
    hide Contains, Toward, NodeOk, BackOk, FwdOk, CopyOk, Clean, Without, Receive;
    if mv.Deliver? {
      CopyFacts(c, s, mv.i);
      DeliverGrows(c, s, mv);
      GrowsKeys(c, s, Moved(c, s, mv), s.flight[mv.i].to);
    }
  }

  /** No copy of the RREQ is lost over a link. */
  ghost predicate Carried(c: Setup, s: Net, moves: seq<Move>, links: Links)
    requires CanRun(c, s, moves)
    decreases moves
  {
    moves != [] ==>
      && (moves[0].Lose? ==> var p := s.flight[moves[0].i]; !(p.m.Rreq? && (p.from, p.to) in links))
      && Carried(c, Moved(c, s, moves[0]), moves[1..], links)
  }

  lemma {:induction false} RunSpreads(c: Setup, s: Net, moves: seq<Move>, links: Links)
    requires NetInv(c, s) && Spreads(c, s, links) && CanRun(c, s, moves) && Carried(c, s, moves, links)
    ensures NetInv(c, Ran(c, s, moves)) && Spreads(c, Ran(c, s, moves), links)
    decreases moves
  {
    hide Moved, NetInv, Spreads;
    if moves != [] {
      CanMove(c, s, moves);
      MoveKeeps(c, s, moves[0]);
      MoveSpreads(c, s, moves[0], links);
      RunSpreads(c, Moved(c, s, moves[0]), moves[1..], links);
    }
  }

  // ----- How far it spreads -----

  /** As long as the destination has not heard the RREQ, a node's hop count and one is the length of a way
      to the originator over different nodes, none of them the destination. */
  lemma {:induction false} WayNodes(c: Setup, s: Net, x: Addr) returns (way: set<Addr>)
    requires NetInv(c, s) && x in s.nodes && (x == c.orig || Seen(c, s, x))
    requires c.dest in s.nodes && !Seen(c, s, c.dest) && ExactNodes(c, s)
    ensures |way| == Rank(c, s, x) + 1 && c.dest !in way
    ensures forall z :: z in way ==> z in s.nodes && Rank(c, s, z) <= Rank(c, s, x)
    decreases Rank(c, s, x)
  {
    hide Contains, Toward, NodeOk, FwdOk, CopyOk;
    if x == c.orig {
      way := {x};
    } else {
      assert BackOk(c, s, x) && CleanNode(c, s, x);
      var rest := WayNodes(c, s, Back(c, s, x).next);
      assert x !in rest;
      way := rest + {x};
    }
  }

  ghost function Members(all: seq<Addr>): set<Addr> {
    set x | x in all
  }

  lemma {:induction false} AllCard(all: seq<Addr>)
    requires forall i, j :: 0 <= i < j < |all| ==> all[i] != all[j]
    ensures |Members(all)| == |all|
  {
    if all == [] {
      assert Members(all) == {};
    } else {
      AllCard(all[1..]);
      assert all[0] !in all[1..];
      assert Members(all) == Members(all[1..]) + {all[0]};
    }
  }

  lemma Fewer<T>(a: set<T>, b: set<T>, x: T)
    requires a <= b && x in b && x !in a
    ensures |a| < |b|
  {
    assert b == a + (b - a);
    assert x in b - a;
  }

  /** So every node passes the RREQ on if its time to live is the number of the other nodes. */
  lemma FarEnough(c: Setup, s: Net, x: Addr)
    requires NetInv(c, s) && x in s.nodes && (x == c.orig || Seen(c, s, x))
    requires c.dest in s.nodes && !Seen(c, s, c.dest) && ExactNodes(c, s) && c.ttl >= |c.all| - 1
    ensures Passes(c, s, x)
  {
    hide Contains, Toward, NodeOk, FwdOk, CopyOk;
    var way := WayNodes(c, s, x);
    var all := Members(c.all);
    AllCard(c.all);
    assert c.dest in all;
    Fewer(way, all, c.dest);
    assert BackOk(c, s, x);
  }

  /** A way from the originator over links. */
  ghost predicate Path(c: Setup, links: Links, path: seq<Addr>) {
    && path != [] && path[0] == c.orig
    && (forall i :: 0 <= i < |path| ==> path[i] in c.all)
    && (forall i :: 0 < i < |path| ==> path[i - 1] != path[i] && (path[i - 1], path[i]) in links)
  }

  lemma {:induction false} AlongPath(c: Setup, s: Net, links: Links, path: seq<Addr>, i: nat)
    requires NetInv(c, s) && Spreads(c, s, links) && s.flight == [] && Path(c, links, path) && i < |path|
    requires c.dest in s.nodes && !Seen(c, s, c.dest) && ExactNodes(c, s) && c.ttl >= |c.all| - 1
    ensures path[i] in s.nodes && (path[i] == c.orig || Seen(c, s, path[i]))
  {
    assert path[i] in s.nodes;
    hide NetInv, Seen, Passes, ExactNodes;
    if i > 0 {
      AlongPath(c, s, links, path, i - 1);
      FarEnough(c, s, path[i - 1]);
      assert Hears(c, s, path[i - 1], path[i]);
    }
  }

  lemma HeardBefore(c: Setup, s: Net)
    requires NetInv(c, s) && c.dest in s.nodes && !Seen(c, s, c.dest)
    ensures c.orig in s.nodes && ExactNodes(c, s)
  {
    hide Contains, Toward, NodeOk, BackOk, CopyOk;
    assert FwdOk(c, s, c.orig);
  }

  /** If the destination can be reached over links that carry every copy, and the time to live is not less
      than the number of the other nodes, then the destination has heard the RREQ when nothing is in
      flight any more. */
  lemma DestinationHears(c: Setup, now: int, moves: seq<Move>, links: Links, path: seq<Addr>)
    requires SetupOk(c) && CanRun(c, Start(c, now), moves) && Carried(c, Start(c, now), moves, links)
    requires Ran(c, Start(c, now), moves).flight == [] && c.ttl >= |c.all| - 1
    requires Path(c, links, path) && path[|path| - 1] == c.dest
    ensures c.dest in Ran(c, Start(c, now), moves).nodes && Seen(c, Ran(c, Start(c, now), moves), c.dest)
  {
    assert path != [];
    hide CanRun, Ran, NetInv, Start, Seen, Spreads, Path;
    StartOk(c, now);
    StartSpreads(c, now, links);
    RunSpreads(c, Start(c, now), moves, links);
    var s := Ran(c, Start(c, now), moves);
    DestIn(c, s);
    if !Seen(c, s, c.dest) {
      HeardBefore(c, s);
      AlongPath(c, s, links, path, |path| - 1);
    }
  }

  lemma DestIn(c: Setup, s: Net)
    requires NetInv(c, s)
    ensures c.dest in s.nodes && c.orig in s.nodes && c.dest != c.orig
  {
  }

  lemma StartSpreads(c: Setup, now: int, links: Links)
    requires SetupOk(c)
    ensures Spreads(c, Start(c, now), links)
  {
    hide Contains, Toward;
    var s := Start(c, now);
    StartKeys(c, now);
    var ask := StartFlight(c, now);
    forall y, x | y in s.nodes && x in s.nodes && y != x && Passes(c, s, y)
      ensures Hears(c, s, y, x)
    {
      StartAt(c, now, y);
      CopiesIn(c.all, c.orig, ask, Copy(x, c.orig, ask));
    }
  }

  /** A discovery over links that carry the RREQ, without a lost RREP, ends with the originator knowing
      the way to the destination, whatever the order of the deliveries. */
  lemma DiscoverySucceeds(c: Setup, now: int, moves: seq<Move>, links: Links, path: seq<Addr>)
    requires SetupOk(c) && CanRun(c, Start(c, now), moves)
    requires Carried(c, Start(c, now), moves, links) && NoReplyLost(c, Start(c, now), moves)
    requires Ran(c, Start(c, now), moves).flight == [] && c.ttl >= |c.all| - 1
    requires Path(c, links, path) && path[|path| - 1] == c.dest
    ensures var s := Ran(c, Start(c, now), moves);
      c.orig in s.nodes && Fwd(c, s, c.orig).Hop? && ReachesIn(s, c.dest, c.orig, Fwd(c, s, c.orig).hops)
  {
    hide CanRun, Ran, Start, Seen, Carried, NoReplyLost, Path, Toward, ReachesIn;
    DestinationHears(c, now, moves, links, path);
    ReplyArrives(c, now, moves);
    ForwardChain(c, now, moves, c.orig);
  }
}
