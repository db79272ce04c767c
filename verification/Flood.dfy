/** A flood ends: every delivery and every loss lowers a number that bounds what is still to come. */
module Flood {
  import opened Config
  import opened Routes
  import opened Node
  import opened NodeInv
  import opened NodeView
  import opened Network
  import opened NetworkInv
  import opened Discovery

  /** What a RREQ with that time to live may still cause among `n` nodes. */
  function Weight(n: nat, ttl: nat): (w: nat)
    ensures w >= 1
  {
    if ttl == 0 then 1 else n * Weight(n, ttl - 1) + Weight(n, ttl - 1)
  }

  /** What a copy may still cause: for a RREP, the hops that are left. */
  function Cost(c: Setup, s: Net, p: Copy): (k: nat)
    ensures k >= 1
  {
    if p.m.Rreq? then Weight(|c.all|, p.m.ttl)
    else if p.to in s.nodes then Rank(c, s, p.to) + 1
    else 1
  }

  function Total(c: Setup, s: Net, flight: seq<Copy>): nat {
    if flight == [] then 0 else Cost(c, s, flight[0]) + Total(c, s, flight[1..])
  }

  /** The answer of the destination is still to come until it has heard the RREQ. */
  ghost function Potential(c: Setup, s: Net): nat
    requires c.dest in s.nodes
  {
    Total(c, s, s.flight) + if Seen(c, s, c.dest) then 0 else 0x100
  }

  lemma {:induction false} TotalSum(c: Setup, s: Net, a: seq<Copy>, b: seq<Copy>)
    ensures Total(c, s, a + b) == Total(c, s, a) + Total(c, s, b)
  {
    if a == [] {
      assert a + b == b;
    } else {
      TotalSum(c, s, a[1..], b);
      assert (a + b)[1..] == a[1..] + b;
    }
  }

  lemma TotalWithout(c: Setup, s: Net, flight: seq<Copy>, i: nat)
    requires i < |flight|
    ensures Total(c, s, flight) == Cost(c, s, flight[i]) + Total(c, s, Without(flight, i))
  {
    var a, b := flight[..i], flight[i + 1..];
    TotalSum(c, s, a, b);
    TotalSum(c, s, a, [flight[i]] + b);
    assert flight == a + ([flight[i]] + b);
    assert ([flight[i]] + b)[1..] == b;
  }

  lemma {:induction false} TotalSame(c: Setup, s: Net, t: Net, flight: seq<Copy>)
    requires forall p :: p in flight ==> Cost(c, t, p) == Cost(c, s, p)
    ensures Total(c, t, flight) == Total(c, s, flight)
  {
    if flight != [] {
      TotalSame(c, s, t, flight[1..]);
    }
  }

  lemma {:induction false} CopiesCost(c: Setup, s: Net, all: seq<Addr>, from: Addr, m: Message)
    requires m.Rreq?
    ensures Total(c, s, Copies(all, from, m)) <= |all| * Weight(|c.all|, m.ttl)
  {
    hide Weight;
    if all != [] {
      var rest, w := Copies(all[1..], from, m), Weight(|c.all|, m.ttl);
      var p := Copy(all[0], from, m);
      CopiesCost(c, s, all[1..], from, m);
      assert Total(c, s, Copies(all, from, m)) <= w + Total(c, s, rest) by {
        TotalSum(c, s, [p], rest);
        TotalOne(c, s, p);
        assert [] + rest == rest;
      }
      OneMore(|all|, w);
    }
  }

  lemma OneMore(k: nat, w: nat)
    requires k > 0
    ensures k * w == (k - 1) * w + w
  {
  }

  lemma TotalOne(c: Setup, s: Net, p: Copy)
    ensures Total(c, s, [p]) == Cost(c, s, p) && Total(c, s, []) == 0
  {
    assert [p][1..] == [];
  }

  /** What a node has learnt does not change what a copy costs. */
  lemma CostSame(c: Setup, s: Net, t: Net, y: Addr, p: Copy)
    requires NetInv(c, s) && Grows(c, s, t, y) && CopyOk(c, s, p)
    ensures Cost(c, t, p) == Cost(c, s, p)
  {
    hide Contains, Toward, NodeOk, BackOk, FwdOk, Clean, Weight;
  }

  lemma RestSame(c: Setup, s: Net, t: Net, y: Addr, rest: seq<Copy>)
    requires NetInv(c, s) && Grows(c, s, t, y) && forall p :: p in rest ==> p in s.flight
    ensures Total(c, t, rest) == Total(c, s, rest)
  {
    hide Contains, Toward, NodeOk, BackOk, FwdOk, Clean, Grows, CopyOk, Cost;
    forall p | p in rest
      ensures Cost(c, t, p) == Cost(c, s, p)
    {
      assert CopyOk(c, s, p);
      CostSame(c, s, t, y, p);
    }
    TotalSame(c, s, t, rest);
  }

  lemma FreshDescends(c: Setup, s: Net, mv: Move)
    requires NetInv(c, s) && mv.Deliver? && Possible(s, mv)
    requires s.flight[mv.i].m.Rreq? && !Seen(c, s, s.flight[mv.i].to)
    ensures var t := Moved(c, s, mv); c.dest in t.nodes && Potential(c, t) < Potential(c, s)
  {
    hide Contains, Toward, NodeOk, BackOk, FwdOk, CopyOk, Moved, Clean, Grows, Total, Weight;
    var p, rest, t := s.flight[mv.i], Without(s.flight, mv.i), Moved(c, s, mv);
    CopyFacts(c, s, mv.i);
    FreshHappens(c, s, mv);
    FreshGrows(c, s, t, p, rest);
    RestSame(c, s, t, p.to, rest);
    TotalWithout(c, s, s.flight, mv.i);
    var out := Outgoing(c, p.to, FreshOut(c, s.nodes[p.to], p, t.nodes[p.to].seqNum));
    FreshCosts(c, s, t, p, rest);
    hide FreshOut, Outgoing, Swallows, CleanNode;
    TotalSum(c, t, rest, out);
  }

  /** The answer costs less than the destination's silence did, and the copies less than the RREQ they
      come from. */
  lemma FreshCosts(c: Setup, s: Net, t: Net, p: Copy, rest: seq<Copy>)
    requires NetInv(c, s) && CopyOk(c, s, p) && p in s.flight && p.to in s.nodes && p.m.Rreq?
    requires FreshStep(c, s, t, p, rest) && BackOk(c, t, p.to)
    ensures var cost := Total(c, t, Outgoing(c, p.to, FreshOut(c, s.nodes[p.to], p, t.nodes[p.to].seqNum)));
      cost < if p.to == c.dest then 0x100 + Weight(|c.all|, p.m.ttl) else Weight(|c.all|, p.m.ttl)
  {
    if p.to == c.dest {
      AnswerCosts(c, s, t, p, rest);
    } else {
      hide Total, Weight, Outgoing, Swallows, NetInv, CopyOk;
      RelayCosts(c, t, p, FreshOut(c, s.nodes[p.to], p, t.nodes[p.to].seqNum));
    }
  }

  lemma AnswerCosts(c: Setup, s: Net, t: Net, p: Copy, rest: seq<Copy>)
    requires NetInv(c, s) && CopyOk(c, s, p) && p in s.flight && p.to in s.nodes && p.m.Rreq? && p.to == c.dest
    requires FreshStep(c, s, t, p, rest) && BackOk(c, t, p.to)
    ensures Total(c, t, Outgoing(c, p.to, FreshOut(c, s.nodes[p.to], p, t.nodes[p.to].seqNum))) < 0x100
  {
    hide Contains, Toward, NodeOk, BackOk, FwdOk, CopyOk, Clean, Total, Cost;
    var r := Rrep(p.from, DEFAULT_TTL, 0, c.dest, t.nodes[p.to].seqNum, c.orig);
    OutgoingOne(c, p.to, r);
    TotalOne(c, t, Copy(p.from, p.to, r));
    AnswerOk(c, s, t, p, rest, Copy(p.from, p.to, r));
    ReplyCheap(c, t, Copy(p.from, p.to, r));
  }

  lemma RelayCosts(c: Setup, t: Net, p: Copy, ms: seq<Message>)
    requires p.m.Rreq? && (ms == [] || (p.m.ttl > 1 && ms == [Relayed(p.m)]))
    ensures Total(c, t, Outgoing(c, p.to, ms)) < Weight(|c.all|, p.m.ttl)
  {
    if ms == [] {
      OutgoingNone(c, p.to);
    } else {
      OutgoingOne(c, p.to, ms[0]);
      hide Total, Weight;
      CopiesCost(c, t, c.all, p.to, ms[0]);
      WeightDrops(|c.all|, p.m.ttl);
    }
  }

  lemma WeightDrops(n: nat, ttl: nat)
    requires ttl > 0
    ensures n * Weight(n, ttl - 1) < Weight(n, ttl)
  {
  }

  /** An answer has no longer way than the time to live allows. */
  lemma ReplyCheap(c: Setup, t: Net, q: Copy)
    requires c.dest in t.nodes && c.dest != c.orig && BackOk(c, t, c.dest) && CopyOk(c, t, q) && q.m.Rrep?
    ensures Cost(c, t, q) < 0x100
  {
    hide Contains, Toward;
  }

  lemma ReplyDescends(c: Setup, s: Net, mv: Move)
    requires NetInv(c, s) && mv.Deliver? && Possible(s, mv) && s.flight[mv.i].m.Rrep?
    ensures var t := Moved(c, s, mv); c.dest in t.nodes && Potential(c, t) < Potential(c, s)
  {
    hide Contains, Toward, NodeOk, BackOk, FwdOk, Moved, Clean, Total;
    var p, rest, t := s.flight[mv.i], Without(s.flight, mv.i), Moved(c, s, mv);
    CopyFacts(c, s, mv.i);
    ReplyHappens(c, s, mv);
    ReplyGrows(c, s, t, p, rest);
    RestSame(c, s, t, p.to, rest);
    TotalWithout(c, s, s.flight, mv.i);
    if p.to != c.orig {
      ReplyNearer(c, s, p);
      var q := ForwardedReply(c, s, p);
      TotalSum(c, t, rest, [q]);
      TotalOne(c, t, q);
      assert Rank(c, t, q.to) == Rank(c, s, q.to);
    }
  }

  lemma SeenDescends(c: Setup, s: Net, mv: Move)
    requires NetInv(c, s) && mv.Deliver? && Possible(s, mv)
    requires s.flight[mv.i].m.Rreq? && Seen(c, s, s.flight[mv.i].to)
    ensures var t := Moved(c, s, mv); c.dest in t.nodes && Potential(c, t) < Potential(c, s)
  {
    hide Contains, Toward, NodeOk, BackOk, FwdOk, CopyOk, Moved, Clean, Total;
    var p, rest, t := s.flight[mv.i], Without(s.flight, mv.i), Moved(c, s, mv);
    CopyFacts(c, s, mv.i);
    SeenGrows(c, s, mv);
    RestSame(c, s, t, p.to, rest);
    TotalWithout(c, s, s.flight, mv.i);
  }

  lemma LossDescends(c: Setup, s: Net, i: nat)
    requires NetInv(c, s) && i < |s.flight|
    ensures var t := Moved(c, s, Lose(i)); c.dest in t.nodes && Potential(c, t) < Potential(c, s)
  {
    hide Contains, Toward, NodeOk, BackOk, FwdOk, CopyOk, Clean, Total;
    var t, rest := Moved(c, s, Lose(i)), Without(s.flight, i);
    WithoutIn(s.flight, i);
    assert Grows(c, s, t, c.orig);
    RestSame(c, s, t, c.orig, rest);
    TotalWithout(c, s, s.flight, i);
  }

  lemma MoveDescends(c: Setup, s: Net, mv: Move)
    requires NetInv(c, s) && Possible(s, mv)
    ensures var t := Moved(c, s, mv); c.dest in t.nodes && Potential(c, t) < Potential(c, s)
  {
    hide NetInv, Moved, Contains, Potential;
    match mv
    case Lose(i) => LossDescends(c, s, i);
    case Deliver(i, _, _, _) =>
      if s.flight[i].m.Rrep? {
        ReplyDescends(c, s, mv);
      } else if Seen(c, s, s.flight[i].to) {
        SeenDescends(c, s, mv);
      } else {
        FreshDescends(c, s, mv);
      }
  }

  lemma {:induction false} RunBounded(c: Setup, s: Net, moves: seq<Move>)
    requires NetInv(c, s) && CanRun(c, s, moves)
    ensures c.dest in s.nodes && |moves| <= Potential(c, s)
    decreases moves
  {
    hide Moved, Possible, Clean, Potential, NodeOk, BackOk, FwdOk, CopyOk;
    if moves != [] {
      MoveKeeps(c, s, moves[0]);
      MoveDescends(c, s, moves[0]);
      RunBounded(c, Moved(c, s, moves[0]), moves[1..]);
    }
  }

  /** However copies are delivered and lost, the discovery is over after so many moves. */
  lemma FloodEnds(c: Setup, now: int, moves: seq<Move>)
    requires SetupOk(c) && CanRun(c, Start(c, now), moves)
    ensures |moves| <= |c.all| * Weight(|c.all|, c.ttl) + 0x100
  {
    hide NetInv, Clean, CanRun, Weight, Start, Seen, Total;
    var s := Start(c, now);
    StartOk(c, now);
    RunBounded(c, s, moves);
    var ask := StartFlight(c, now);
    CopiesCost(c, s, c.all, c.orig, ask);
  }

  // ----- What the originator broadcasts -----

  /** The originator has asked once, and may have passed on an echo once after the answer came. */
  ghost predicate EchoedOnce(c: Setup, s: Net)
    requires c.orig in s.nodes
  {
    Asked(s.nodes[c.orig].sent) <=
      AskedBefore(c, c.orig) + 1 + if Fwd(c, s, c.orig).Hop? && Seen(c, s, c.orig) then 1 else 0
  }

  /** A delivery makes the originator broadcast only if it takes the RREQ for a new one. */
  lemma OriginatorSends(c: Setup, s: Net, mv: Move)
    requires NetInv(c, s) && mv.Deliver? && Possible(s, mv) && s.flight[mv.i].to == c.orig
    ensures c.orig in s.nodes && c.orig in Moved(c, s, mv).nodes
    ensures var p, n, m := s.flight[mv.i], s.nodes[c.orig], Moved(c, s, mv).nodes[c.orig];
      Asked(m.sent) <= Asked(n.sent) + if p.m.Rreq? && !Seen(c, s, c.orig) then 1 else 0
  {
    hide Contains, Toward, ProcessRreq, ProcessRrep, InvBut, HeldOk, Clean, BackOk, FwdOk, Outgoing, Swallows, Without;
    var p := s.flight[mv.i];
    CopyFacts(c, s, mv.i);
    var n, m := s.nodes[p.to], Moved(c, s, mv).nodes[p.to];
    if p.m.Rrep? {
      ReplyReaches(c, s, mv.i);
      RrepEffect(n, p.from, p.m, mv.life, mv.now);
      assert m.sent == n.sent;
    } else if Seen(c, s, p.to) {
      RreqSeen(n, p.from, p.m, mv.reverse, mv.now);
    } else {
      RreqFresh(n, p.from, p.m, mv.reverse, mv.now);
      var out := FreshOut(c, n, p, m.seqNum);
      assert m.sent == n.sent + out;
      if out != [] {
        assert out == [out[0]];
        AskedMore(n.sent, out[0]);
      } else {
        assert m.sent == n.sent;
      }
    }
  }

  lemma MoveEchoes(c: Setup, s: Net, mv: Move)
    requires NetInv(c, s) && Possible(s, mv) && c.orig in s.nodes && EchoedOnce(c, s)
    ensures c.orig in Moved(c, s, mv).nodes && EchoedOnce(c, Moved(c, s, mv))
  {
    hide Contains, Toward, NodeOk, BackOk, FwdOk, Clean, Receive, Without, Asked;
    var p, t := s.flight[mv.i], Moved(c, s, mv);
    if mv.Deliver? && p.to == c.orig {
      CopyFacts(c, s, mv.i);
      OriginatorSends(c, s, mv);
      if p.m.Rrep? {
        assert Fwd(c, s, c.orig).NoHop?;
      } else if Seen(c, s, c.orig) {
        SeenGrows(c, s, mv);
      } else {
        FreshHappens(c, s, mv);
      }
    }
  }

  lemma {:induction false} RunEchoes(c: Setup, s: Net, moves: seq<Move>)
    requires NetInv(c, s) && c.orig in s.nodes && EchoedOnce(c, s) && CanRun(c, s, moves)
    ensures c.orig in Ran(c, s, moves).nodes && EchoedOnce(c, Ran(c, s, moves))
    decreases moves
  {
    hide NetInv, Moved, Possible, EchoedOnce;
    if moves != [] {
      CanMove(c, s, moves);
      MoveKeeps(c, s, moves[0]);
      MoveEchoes(c, s, moves[0]);
      RunEchoes(c, Moved(c, s, moves[0]), moves[1..]);
    }
  }

  lemma StartEchoes(c: Setup, now: int)
    requires SetupOk(c)
    ensures c.orig in Start(c, now).nodes && EchoedOnce(c, Start(c, now))
  {
    hide Toward, Contains, Asked;
    var n := c.boot[c.orig];
    var o := FindRoute(n, c.dest, 0, now);
    assert o.sent == n.sent + [o.sent[|n.sent|]];
    AskedMore(n.sent, o.sent[|n.sent|]);
  }

  /** Hop count and time to live of every RREQ copy in flight add up to the first time to live; every
      node but the originator broadcasts the RREQ at most once, and the originator at most twice: when
      it asks, and if it takes up an echo. */
  lemma FloodBounded(c: Setup, now: int, moves: seq<Move>, p: Copy, x: Addr)
    requires SetupOk(c) && CanRun(c, Start(c, now), moves)
    ensures var s := Ran(c, Start(c, now), moves);
      && (p in s.flight && p.m.Rreq? ==> p.m.hops + p.m.ttl == c.ttl && p.m.id == DiscoveryId(c) && p.m.dest == c.dest)
      && (x in s.nodes ==> Asked(s.nodes[x].sent) <= AskedBefore(c, x) + if x == c.orig then 2 else 1)
  {
    hide Start, CanRun, Ran, Clean, BackOk, FwdOk, Toward, Contains;
    StartOk(c, now);
    RunKeeps(c, Start(c, now), moves);
    StartEchoes(c, now);
    RunEchoes(c, Start(c, now), moves);
    var s := Ran(c, Start(c, now), moves);
    assert p in s.flight ==> CopyOk(c, s, p);
    assert x in s.nodes ==> NodeOk(c, x, s.nodes[x]);
  }
}
