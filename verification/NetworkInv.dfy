/** Every delivery and every loss keeps what the discovery has built. */
module NetworkInv {
  import opened Config
  import opened Routes
  import opened Node
  import opened NodeInv
  import opened NodeView
  import opened NodeSteps
  import opened Network

  // ----- Messages in flight -----

  lemma {:induction false} CopiesIn(all: seq<Addr>, from: Addr, m: Message, p: Copy)
    ensures p in Copies(all, from, m) <==> p.to in all && p.to != from && p.from == from && p.m == m
  {
    if all != [] {
      CopiesIn(all[1..], from, m, p);
    }
  }

  lemma OutgoingOne(c: Setup, from: Addr, m: Message)
    ensures Outgoing(c, from, [m]) == if m.Rreq? then Copies(c.all, from, m) else [Copy(m.to, from, m)]
  {
    assert [m][1..] == [];
    assert Outgoing(c, from, []) == [];
  }

  lemma OutgoingNone(c: Setup, from: Addr)
    ensures Outgoing(c, from, []) == []
  {
  }

  ghost predicate NoReply(flight: seq<Copy>) {
    forall p :: p in flight ==> p.m.Rreq?
  }

  lemma WithoutIn<T>(s: seq<T>, i: nat)
    requires i < |s|
    ensures forall p :: p in Without(s, i) ==> p in s
  {
  }

  lemma RestReplies(flight: seq<Copy>, i: nat)
    requires i < |flight| && AtMostOneReply(flight)
    ensures AtMostOneReply(Without(flight, i))
    ensures flight[i].m.Rrep? ==> NoReply(Without(flight, i))
  {
    var rest := Without(flight, i);
    forall a, b | 0 <= a < b < |rest|
      ensures !(rest[a].m.Rrep? && rest[b].m.Rrep?)
    {
      assert rest[a] == flight[if a < i then a else a + 1] && rest[b] == flight[if b < i then b else b + 1];
    }
    forall a | 0 <= a < |rest| && flight[i].m.Rrep?
      ensures rest[a].m.Rreq?
    {
      var a' := if a < i then a else a + 1;
      assert rest[a] == flight[a'];
      assert !flight[a'].m.Rrep?;
    }
  }

  lemma MoreReplies(rest: seq<Copy>, out: seq<Copy>)
    requires AtMostOneReply(rest) && AtMostOneReply(out) && (NoReply(rest) || NoReply(out))
    ensures AtMostOneReply(rest + out)
  {
    var all := rest + out;
    forall i, j | 0 <= i < j < |all|
      ensures !(all[i].m.Rrep? && all[j].m.Rrep?)
    {
      if i < |rest| <= j {
        assert all[i] in rest && all[j] in out;
      }
    }
  }

  // ----- A node that has learnt more -----

  /** Only `y` changes: what it knew it still knows, and the ways it had it still has. */
  ghost predicate Grows(c: Setup, s: Net, t: Net, y: Addr) {
    && y in s.nodes && y in t.nodes && t.nodes == s.nodes[y := t.nodes[y]]
    && (y != c.orig && Seen(c, s, y) ==> Seen(c, t, y) && Back(c, t, y) == Back(c, s, y))
    && (Fwd(c, s, y).Hop? ==> Fwd(c, t, y) == Fwd(c, s, y))
  }

  lemma GrowsBack(c: Setup, s: Net, t: Net, y: Addr, x: Addr)
    requires Grows(c, s, t, y) && x in s.nodes && BackOk(c, s, x) && (x != y || Seen(c, s, x))
    ensures BackOk(c, t, x)
  {
    hide Contains, Toward;
  }

  lemma GrowsFwd(c: Setup, s: Net, t: Net, y: Addr, x: Addr)
    requires Grows(c, s, t, y) && x in s.nodes && c.dest in s.nodes && c.dest != c.orig
    requires FwdOk(c, s, x) && (x != y || Fwd(c, s, x) == Fwd(c, t, x))
    ensures FwdOk(c, t, x)
  {
    hide Contains, Toward;
  }

  lemma GrowsRreq(c: Setup, s: Net, t: Net, y: Addr, p: Copy)
    requires Grows(c, s, t, y) && c.dest in s.nodes && p.m.Rreq? && CopyOk(c, s, p)
    ensures CopyOk(c, t, p)
  {
    hide Contains, Toward;
  }

  lemma GrowsRrep(c: Setup, s: Net, t: Net, y: Addr, p: Copy)
    requires Grows(c, s, t, y) && c.dest in s.nodes && c.dest != c.orig && p.m.Rrep? && CopyOk(c, s, p)
    requires Fwd(c, t, y) == Fwd(c, s, y)
    requires forall x {:trigger FwdOk(c, s, x)} :: x in s.nodes ==> FwdOk(c, s, x)
    ensures CopyOk(c, t, p)
  {
    hide Contains, Toward;
    forall x | x in t.nodes && Fwd(c, t, x).Hop?
      ensures Rank(c, t, x) > Rank(c, t, p.to)
    {
      assert FwdOk(c, s, x) && Fwd(c, s, x).Hop?;
    }
  }

  /** The pieces of the invariant after `y` has handled a copy. */
  lemma Assemble(c: Setup, s: Net, t: Net, y: Addr, rest: seq<Copy>, out: seq<Copy>)
    requires NetInv(c, s) && Grows(c, s, t, y)
    requires (forall p :: p in rest ==> p in s.flight) && t.flight == rest + out
    requires NodeOk(c, y, t.nodes[y]) && BackOk(c, t, y) && FwdOk(c, t, y)
    requires forall p :: p in out ==> CopyOk(c, t, p)
    requires AtMostOneReply(t.flight) && (Fwd(c, t, y) == Fwd(c, s, y) || NoReply(rest))
    requires Fwd(c, t, c.orig).NoHop? ==> Seen(c, t, c.orig) && Clean(c, t)
    ensures NetInv(c, t)
  {
    hide Contains, Toward, NodeOk, BackOk, FwdOk, CopyOk, Grows, Clean;
    assert forall x :: x in t.nodes <==> x in s.nodes by { GrowsKeys(c, s, t, y); }
    forall x | x in t.nodes
      ensures NodeOk(c, x, t.nodes[x]) && BackOk(c, t, x) && FwdOk(c, t, x)
    {
      assert x in s.nodes && BackOk(c, s, x) && FwdOk(c, s, x) && NodeOk(c, x, s.nodes[x]);
      if x != y {
        GrowsKeys(c, s, t, y);
        GrowsBack(c, s, t, y, x);
        GrowsFwd(c, s, t, y, x);
      }
    }
    forall p | p in t.flight
      ensures CopyOk(c, t, p)
    {
      if p in rest {
        assert CopyOk(c, s, p);
        if p.m.Rreq? {
          GrowsRreq(c, s, t, y, p);
        } else {
          GrowsRrep(c, s, t, y, p);
        }
      }
    }
  }

  lemma GrowsKeys(c: Setup, s: Net, t: Net, y: Addr)
    requires Grows(c, s, t, y)
    ensures forall x :: x in t.nodes <==> x in s.nodes
    ensures forall x :: x in s.nodes && x != y ==> t.nodes[x] == s.nodes[x]
  {
  }

  // ----- What stays clean -----

  lemma StaysClean(c: Setup, s: Net, t: Net, y: Addr, p: Copy, rest: seq<Copy>, out: seq<Copy>)
    requires Clean(c, s) && Grows(c, s, t, y)
    requires (forall q :: q in rest ==> q in s.flight) && t.flight == rest + out && p in s.flight
    requires y != c.orig && !Seen(c, s, y) && Seen(c, t, y) ==> p.m.Rreq? && Back(c, t, y) == Hop(p.from, p.m.hops)
    requires forall q :: q in out && q.m.Rreq? ==> q.from != c.orig
    ensures Clean(c, t)
  {
    hide Contains, Toward;
    assert CleanCopy(c, p);
    forall x | x in t.nodes
      ensures CleanNode(c, t, x)
    {
      assert x in s.nodes && CleanNode(c, s, x);
    }
    forall q | q in t.flight
      ensures CleanCopy(c, q)
    {
      assert q in rest ==> CleanCopy(c, q);
    }
  }

  // ----- Losses -----

  lemma LossKeeps(c: Setup, s: Net, i: nat)
    requires NetInv(c, s) && i < |s.flight|
    ensures NetInv(c, Moved(c, s, Lose(i)))
  {
    hide Contains, Toward, NodeOk, BackOk, FwdOk, CleanCopy;
    var t, rest := Moved(c, s, Lose(i)), Without(s.flight, i);
    WithoutIn(s.flight, i);
    assert AtMostOneReply(s.flight);
    RestReplies(s.flight, i);
    assert s.nodes[c.orig := s.nodes[c.orig]] == s.nodes;
    forall x | x in t.nodes
      ensures BackOk(c, t, x) && FwdOk(c, t, x) && (Clean(c, s) ==> CleanNode(c, t, x))
    {
      assert BackOk(c, s, x) && FwdOk(c, s, x) && (Clean(c, s) ==> CleanNode(c, s, x));
      SameNodes(c, s, t, x);
    }
    forall p | p in t.flight
      ensures CopyOk(c, t, p)
    {
      assert CopyOk(c, s, p);
      SameCopy(c, s, t, p);
    }
  }

  lemma SameCopy(c: Setup, s: Net, t: Net, p: Copy)
    requires s.nodes == t.nodes && c.dest in s.nodes && CopyOk(c, s, p)
    ensures CopyOk(c, t, p)
  {
    hide Contains, Toward;
    if p.m.Rrep? {
      forall x | x in t.nodes && Fwd(c, t, x).Hop?
        ensures Rank(c, t, x) > Rank(c, t, p.to)
      {
        assert Fwd(c, s, x).Hop?;
      }
    }
  }

  lemma SameNodes(c: Setup, s: Net, t: Net, x: Addr)
    requires s.nodes == t.nodes && x in s.nodes && c.dest in s.nodes
    ensures BackOk(c, t, x) == BackOk(c, s, x) && FwdOk(c, t, x) == FwdOk(c, s, x) && CleanNode(c, t, x) == CleanNode(c, s, x)
  {
    hide Contains, Toward;
  }

  // ----- Deliveries of a RREQ -----

  /** What is known of a copy that is delivered. */
  lemma CopyFacts(c: Setup, s: Net, i: nat)
    requires NetInv(c, s) && i < |s.flight|
    ensures var p := s.flight[i];
      && CopyOk(c, s, p) && NodeOk(c, p.to, s.nodes[p.to]) && NodeOk(c, p.from, s.nodes[p.from])
      && BackOk(c, s, p.to) && FwdOk(c, s, p.to) && BackOk(c, s, p.from) && FwdOk(c, s, p.from)
      && BackOk(c, s, c.dest) && FwdOk(c, s, c.orig)
      && (forall q :: q in Without(s.flight, i) ==> q in s.flight)
      && AtMostOneReply(Without(s.flight, i)) && (p.m.Rrep? ==> NoReply(Without(s.flight, i)))
  {
    hide Contains, Toward, NodeOk, BackOk, FwdOk, RreqOk, RrepOk, Clean;
    var p := s.flight[i];
    assert CopyOk(c, s, p);
    WithoutIn(s.flight, i);
    assert AtMostOneReply(s.flight);
    RestReplies(s.flight, i);
    assert NodeOk(c, p.to, s.nodes[p.to]) && NodeOk(c, p.from, s.nodes[p.from]);
    assert BackOk(c, s, p.to) && FwdOk(c, s, p.to) && BackOk(c, s, p.from) && FwdOk(c, s, p.from);
    assert BackOk(c, s, c.dest) && FwdOk(c, s, c.orig);
  }

  /** A RREQ that is buffered changes nothing. */
  lemma SeenKeeps(c: Setup, s: Net, mv: Move)
    requires NetInv(c, s) && mv.Deliver? && Possible(s, mv)
    requires s.flight[mv.i].m.Rreq? && Seen(c, s, s.flight[mv.i].to)
    ensures NetInv(c, Moved(c, s, mv))
  {
    hide Contains, Toward, ProcessRreq, HeldOk, InvBut, Clean;
    var p, rest, t := s.flight[mv.i], Without(s.flight, mv.i), Moved(c, s, mv);
    CopyFacts(c, s, mv.i);
    var n := s.nodes[p.to];
    RreqKeeps(n, p.from, p.m, mv.reverse, mv.now);
    RreqSeen(n, p.from, p.m, mv.reverse, mv.now);
    SeenGrows(c, s, mv);
    assert t.flight == rest + [];
    GrowsBack(c, s, t, p.to, p.to);
    GrowsFwd(c, s, t, p.to, p.to);
    if Clean(c, s) {
      StaysClean(c, s, t, p.to, p, rest, []);
    }
    Assemble(c, s, t, p.to, rest, []);
  }

  lemma SeenGrows(c: Setup, s: Net, mv: Move)
    requires NetInv(c, s) && mv.Deliver? && Possible(s, mv)
    requires s.flight[mv.i].m.Rreq? && Seen(c, s, s.flight[mv.i].to)
    ensures var y, t := s.flight[mv.i].to, Moved(c, s, mv);
      && Grows(c, s, t, y) && Fwd(c, t, y) == Fwd(c, s, y) && (forall x :: x in t.nodes ==> Seen(c, t, x) == Seen(c, s, x))
      && t.flight == Without(s.flight, mv.i)
  {
    hide Contains, Toward, ProcessRreq, InvBut, Clean;
    var p, t := s.flight[mv.i], Moved(c, s, mv);
    CopyFacts(c, s, mv.i);
    RreqSeen(s.nodes[p.to], p.from, p.m, mv.reverse, mv.now);
    assert Emitted(s.nodes[p.to], t.nodes[p.to]) == [];
    assert t.flight == Without(s.flight, mv.i) + [];
  }

  lemma Unknown(c: Setup, s: Net, x: Addr)
    requires NetInv(c, s) && x in s.nodes && x != c.orig && !Seen(c, s, x)
    ensures Fwd(c, s, x).NoHop?
  {
    hide Contains, Toward, NodeOk, BackOk, CopyOk, Clean;
    assert FwdOk(c, s, x);
  }

  lemma Unswallowed(n: Node, from: Addr, p: Message)
    requires p.Rreq? && Toward(n.table, p.dest).NoHop? && p.dest != from && p.dest != p.orig
    ensures !Swallows(n, from, p)
  {
  }

  /** What node `n`, which hears the RREQ first, sends; `seqNum` is its own number afterwards. */
  function FreshOut(c: Setup, n: Node, p: Copy, seqNum: U32): seq<Message>
    requires p.m.Rreq?
  {
    if p.to == c.dest then [Rrep(p.from, DEFAULT_TTL, 0, c.dest, seqNum, c.orig)]
    else if p.m.ttl > 1 && !Swallows(n, p.from, p.m) then [Relayed(p.m)]
    else []
  }

  ghost predicate FreshStep(c: Setup, s: Net, t: Net, p: Copy, rest: seq<Copy>)
    requires p.to in s.nodes && p.m.Rreq?
  {
    && p.to in t.nodes && t.nodes == s.nodes[p.to := t.nodes[p.to]]
    && NodeOk(c, p.to, t.nodes[p.to])
    && !Seen(c, s, p.to) && Seen(c, t, p.to)
    && Back(c, t, p.to) == Hop(p.from, p.m.hops) && Fwd(c, t, p.to) == Fwd(c, s, p.to)
    && t.flight == rest + Outgoing(c, p.to, FreshOut(c, s.nodes[p.to], p, t.nodes[p.to].seqNum))
  }

  lemma AskedMore(sent: seq<Message>, m: Message)
    ensures Asked(sent + [m]) == Asked(sent) + if m.Rreq? then 1 else 0
  {
    assert (sent + [m])[..|sent|] == sent;
  }

  lemma FreshHappens(c: Setup, s: Net, mv: Move)
    requires NetInv(c, s) && mv.Deliver? && Possible(s, mv)
    requires s.flight[mv.i].m.Rreq? && !Seen(c, s, s.flight[mv.i].to)
    ensures FreshStep(c, s, Moved(c, s, mv), s.flight[mv.i], Without(s.flight, mv.i))
  {
    hide Contains, ProcessRreq, HeldOk, InvBut, Clean, Toward, Outgoing, Swallows;
    var p, rest, t := s.flight[mv.i], Without(s.flight, mv.i), Moved(c, s, mv);
    CopyFacts(c, s, mv.i);
    var n, m := s.nodes[p.to], t.nodes[p.to];
    RreqKeeps(n, p.from, p.m, mv.reverse, mv.now);
    RreqFresh(n, p.from, p.m, mv.reverse, mv.now);
    var out := FreshOut(c, s.nodes[p.to], p, m.seqNum);
    assert m.sent == n.sent + out;
    assert Emitted(n, m) == out;
    assert Asked(m.sent) <= Asked(n.sent) + 1 by {
      if out == [] {
        assert m.sent == n.sent;
      } else {
        assert out == [out[0]];
        AskedMore(n.sent, out[0]);
      }
    }
    assert Seen(c, t, p.to);
  }

  /** The copies of a relayed RREQ, and the answer of the destination. */
  lemma FreshCopies(c: Setup, s: Net, t: Net, p: Copy, rest: seq<Copy>, q: Copy)
    requires NetInv(c, s) && p in s.flight && CopyOk(c, s, p) && p.m.Rreq? && FreshStep(c, s, t, p, rest)
    requires q in Outgoing(c, p.to, FreshOut(c, s.nodes[p.to], p, t.nodes[p.to].seqNum))
    ensures q.from == p.to && (q.m.Rreq? ==> p.to != c.dest && q.m == Relayed(p.m) && p.m.ttl > 1)
    ensures CopyOk(c, t, q)
  {
    assert p.to in s.nodes;
    hide Contains, Toward, NodeOk, BackOk, FwdOk, CopyOk, Clean, NetInv, Swallows;
    var y := p.to;
    if y == c.dest {
      var r := FreshOut(c, s.nodes[p.to], p, t.nodes[y].seqNum)[0];
      OutgoingOne(c, y, r);
      AnswerOk(c, s, t, p, rest, q);
    } else if p.m.ttl > 1 && !Swallows(s.nodes[y], p.from, p.m) {
      OutgoingOne(c, y, Relayed(p.m));
      CopiesIn(c.all, y, Relayed(p.m), q);
      RelayedOk(c, s, t, p, rest, q);
    }
  }

  lemma RelayedOk(c: Setup, s: Net, t: Net, p: Copy, rest: seq<Copy>, q: Copy)
    requires NetInv(c, s) && CopyOk(c, s, p) && p.m.Rreq? && FreshStep(c, s, t, p, rest)
    requires p.to != c.dest && p.m.ttl > 1 && q.to in c.all && q.to != p.to && q.from == p.to && q.m == Relayed(p.m)
    ensures CopyOk(c, t, q)
  {
    hide Contains, Toward, NodeOk, BackOk, FwdOk, Clean;
    assert q.to in s.nodes;
  }

  lemma AnswerOk(c: Setup, s: Net, t: Net, p: Copy, rest: seq<Copy>, q: Copy)
    requires NetInv(c, s) && p in s.flight && CopyOk(c, s, p) && p.m.Rreq? && FreshStep(c, s, t, p, rest)
    requires p.to == c.dest && q == Copy(p.from, c.dest, Rrep(p.from, DEFAULT_TTL, 0, c.dest, t.nodes[p.to].seqNum, c.orig))
    ensures CopyOk(c, t, q)
  {
    hide Contains, Toward, NodeOk, BackOk;
    forall x | x in s.nodes
      ensures Fwd(c, s, x).NoHop? && Fwd(c, t, x).NoHop?
    {
      assert FwdOk(c, s, x);
    }
    assert CleanCopy(c, p);
  }

  lemma FreshGrows(c: Setup, s: Net, t: Net, p: Copy, rest: seq<Copy>)
    requires NetInv(c, s) && CopyOk(c, s, p) && p.m.Rreq? && FreshStep(c, s, t, p, rest)
    ensures Grows(c, s, t, p.to) && BackOk(c, t, p.to) && FwdOk(c, t, p.to)
  {
    hide Contains, Toward, NodeOk, Clean;
    assert FwdOk(c, s, p.to);
    GrowsFwd(c, s, t, p.to, p.to);
  }

  lemma FreshReplies(c: Setup, s: Net, t: Net, p: Copy, rest: seq<Copy>)
    requires NetInv(c, s) && CopyOk(c, s, p) && p.m.Rreq? && FreshStep(c, s, t, p, rest)
    requires AtMostOneReply(rest) && forall q :: q in rest ==> q in s.flight
    ensures AtMostOneReply(t.flight)
  {
    hide Contains, Toward, NodeOk, BackOk, FwdOk, Clean;
    var out := FreshOut(c, s.nodes[p.to], p, t.nodes[p.to].seqNum);
    if p.to == c.dest {
      OutgoingOne(c, p.to, out[0]);
      forall q | q in rest
        ensures q.m.Rreq?
      {
        assert CopyOk(c, s, q);
      }
    } else if out != [] {
      OutgoingOne(c, p.to, out[0]);
      forall q | q in Outgoing(c, p.to, out)
        ensures q.m.Rreq?
      {
        CopiesIn(c.all, p.to, out[0], q);
      }
    }
    MoreReplies(rest, Outgoing(c, p.to, out));
  }

  /** A RREQ that is new to the node. */
  lemma FreshKeeps(c: Setup, s: Net, mv: Move)
    requires NetInv(c, s) && mv.Deliver? && Possible(s, mv)
    requires s.flight[mv.i].m.Rreq? && !Seen(c, s, s.flight[mv.i].to)
    ensures NetInv(c, Moved(c, s, mv))
  {
    hide Contains, Toward, NodeOk, BackOk, FwdOk, CopyOk, Moved, Clean, FreshOut;
    var p, rest, t := s.flight[mv.i], Without(s.flight, mv.i), Moved(c, s, mv);
    CopyFacts(c, s, mv.i);
    FreshHappens(c, s, mv);
    FreshGrows(c, s, t, p, rest);
    FreshReplies(c, s, t, p, rest);
    var out := Outgoing(c, p.to, FreshOut(c, s.nodes[p.to], p, t.nodes[p.to].seqNum));
    forall q | q in out
      ensures CopyOk(c, t, q) && q.from == p.to
    {
      FreshCopies(c, s, t, p, rest, q);
    }
    if p.to != c.orig && Clean(c, s) {
      StaysClean(c, s, t, p.to, p, rest, out);
    }
    Assemble(c, s, t, p.to, rest, out);
  }

  // ----- Deliveries of a RREP -----

  ghost predicate ReplyStep(c: Setup, s: Net, t: Net, p: Copy, rest: seq<Copy>)
    requires p.to in s.nodes && p.m.Rrep?
  {
    && p.to in t.nodes && t.nodes == s.nodes[p.to := t.nodes[p.to]]
    && NodeOk(c, p.to, t.nodes[p.to]) && p.m.hops < 0xFF
    && Fwd(c, t, p.to) == Hop(p.from, p.m.hops + 1)
    && (p.to == c.orig ==> t.flight == rest)
    && (p.to != c.orig ==>
         && Seen(c, t, p.to) == Seen(c, s, p.to) && Back(c, t, p.to) == Back(c, s, p.to) && Back(c, s, p.to).Hop?
         && t.flight == rest + [ForwardedReply(c, s, p)])
  }

  function ForwardedReply(c: Setup, s: Net, p: Copy): Copy
    requires p.to in s.nodes && p.m.Rrep? && Back(c, s, p.to).Hop? && p.m.hops < 0xFF
  {
    var next := Back(c, s, p.to).next;
    Copy(next, p.to, Rrep(next, (p.m.ttl + 0xFF) % 0x100, p.m.hops + 1, c.dest, p.m.destSeq, c.orig))
  }

  /** What is known of the node a RREP reaches. */
  lemma ReplyReaches(c: Setup, s: Net, i: nat)
    requires NetInv(c, s) && i < |s.flight| && s.flight[i].m.Rrep?
    ensures var p := s.flight[i];
      && p.to in s.nodes && NodeOk(c, p.to, s.nodes[p.to]) && p.from != p.to
      && p.m.dest == c.dest && p.m.orig == c.orig && p.m.hops < 0xFF && Fwd(c, s, p.to).NoHop?
      && (p.to != c.orig ==> Back(c, s, p.to).Hop?) && c.dest != c.orig
  {
    hide Contains, Toward, Clean, NodeOk, AtMostOneReply;
    CopyFacts(c, s, i);
  }

  lemma ReplyHappens(c: Setup, s: Net, mv: Move)
    requires NetInv(c, s) && mv.Deliver? && Possible(s, mv) && s.flight[mv.i].m.Rrep?
    ensures ReplyStep(c, s, Moved(c, s, mv), s.flight[mv.i], Without(s.flight, mv.i))
  {
    hide NetInv, Contains, Toward, ProcessRrep, HeldOk, InvBut, Outgoing, Without;
    var p, rest, t := s.flight[mv.i], Without(s.flight, mv.i), Moved(c, s, mv);
    ReplyReaches(c, s, mv.i);
    var n, m := s.nodes[p.to], t.nodes[p.to];
    RrepKeeps(n, p.from, p.m, mv.life, mv.now);
    RrepEffect(n, p.from, p.m, mv.life, mv.now);
    if p.to == c.orig {
      assert Emitted(n, m) == [];
      OutgoingNone(c, p.to);
      assert t.flight == rest + [];
    } else {
      var r := ForwardedReply(c, s, p).m;
      assert m.sent == n.sent + [r];
      assert Emitted(n, m) == [r];
      AskedMore(n.sent, r);
      OutgoingOne(c, p.to, r);
    }
  }

  /** While a RREP is in flight the originator has no way to the destination, so all is clean. */
  lemma ReplyClean(c: Setup, s: Net, p: Copy)
    requires NetInv(c, s) && CopyOk(c, s, p) && p.m.Rrep?
    ensures Fwd(c, s, c.orig).NoHop? && Clean(c, s)
  {
    hide Contains, Toward, NodeOk, BackOk, FwdOk, Clean;
    assert Rank(c, s, c.orig) == 0;
  }

  /** Each forward shortens the way that is left by exactly one hop. */
  lemma ReplyNearer(c: Setup, s: Net, p: Copy)
    requires NetInv(c, s) && CopyOk(c, s, p) && p.m.Rrep? && p.to != c.orig
    ensures Back(c, s, p.to).Hop?
    ensures var next := Back(c, s, p.to).next;
      && next in s.nodes && next != p.to && next != c.dest && (next == c.orig || Seen(c, s, next))
      && Rank(c, s, next) + 1 == Rank(c, s, p.to)
  {
    hide Contains, Toward, NodeOk, FwdOk;
    assert BackOk(c, s, p.to);
    ReplyClean(c, s, p);
    assert CleanNode(c, s, p.to);
  }

  lemma ForwardedOk(c: Setup, s: Net, t: Net, p: Copy, rest: seq<Copy>)
    requires NetInv(c, s) && CopyOk(c, s, p) && p.m.Rrep? && p.to != c.orig && ReplyStep(c, s, t, p, rest)
    ensures CopyOk(c, t, ForwardedReply(c, s, p))
  {
    hide Contains, Toward, NodeOk, BackOk, FwdOk, Clean;
    ReplyNearer(c, s, p);
    var q := ForwardedReply(c, s, p);
    assert Fwd(c, s, q.to).NoHop?;
    forall x | x in t.nodes && Fwd(c, t, x).Hop?
      ensures Rank(c, t, x) > Rank(c, t, q.to)
    {
      assert x != p.to ==> Fwd(c, s, x).Hop?;
    }
  }

  lemma ReplyGrows(c: Setup, s: Net, t: Net, p: Copy, rest: seq<Copy>)
    requires NetInv(c, s) && CopyOk(c, s, p) && p.m.Rrep? && ReplyStep(c, s, t, p, rest)
    ensures Grows(c, s, t, p.to) && BackOk(c, t, p.to) && FwdOk(c, t, p.to)
  {
    hide Contains, Toward, NodeOk, Clean;
    assert BackOk(c, s, p.to);
    if p.to != c.orig && Seen(c, s, p.to) {
      GrowsBack(c, s, t, p.to, p.to);
    }
  }

  lemma ReplyKeeps(c: Setup, s: Net, mv: Move)
    requires NetInv(c, s) && mv.Deliver? && Possible(s, mv) && s.flight[mv.i].m.Rrep?
    ensures NetInv(c, Moved(c, s, mv))
  {
    hide Contains, Toward, NodeOk, BackOk, FwdOk, CopyOk, Moved, Clean;
    var p, rest, t := s.flight[mv.i], Without(s.flight, mv.i), Moved(c, s, mv);
    CopyFacts(c, s, mv.i);
    ReplyHappens(c, s, mv);
    ReplyGrows(c, s, t, p, rest);
    ReplyClean(c, s, p);
    var out := if p.to == c.orig then [] else [ForwardedReply(c, s, p)];
    if p.to != c.orig {
      ForwardedOk(c, s, t, p, rest);
    }
    assert t.flight == rest + out;
    StaysClean(c, s, t, p.to, p, rest, out);
    MoreReplies(rest, out);
    Assemble(c, s, t, p.to, rest, out);
  }

  /** Every delivery and every loss keeps the invariant. */
  lemma MoveKeeps(c: Setup, s: Net, mv: Move)
    requires NetInv(c, s) && Possible(s, mv)
    ensures NetInv(c, Moved(c, s, mv))
  {
    hide Moved, Clean, Contains, NodeOk, BackOk, FwdOk, CopyOk;
    match mv
    case Lose(i) => LossKeeps(c, s, i);
    case Deliver(i, _, _, _) =>
      assert s.flight[i].to in s.nodes;
      if s.flight[i].m.Rrep? {
        ReplyKeeps(c, s, mv);
      } else if Seen(c, s, s.flight[i].to) {
        SeenKeeps(c, s, mv);
      } else {
        FreshKeeps(c, s, mv);
      }
  }

  // ----- When a hop count goes wrong -----

  /** The originator passed on a RREQ it had heard, and the copy is the first the node hears. */
  ghost predicate Misled(c: Setup, s: Net, p: Copy)
    requires p.to in s.nodes
  {
    p.m.Rreq? && p.from == c.orig && p.m.hops != 0 && !Seen(c, s, p.to)
  }

  /** What a delivery teaches the node it reaches. */
  lemma DeliverGrows(c: Setup, s: Net, mv: Move)
    requires NetInv(c, s) && mv.Deliver? && Possible(s, mv)
    ensures var p, t := s.flight[mv.i], Moved(c, s, mv);
      && Grows(c, s, t, p.to)
      && (p.m.Rreq? && !Seen(c, s, p.to) ==> Seen(c, t, p.to) && Back(c, t, p.to) == Hop(p.from, p.m.hops))
      && (p.to != c.orig && Seen(c, t, p.to) && !Seen(c, s, p.to) ==> p.m.Rreq?)
  {
    hide Contains, Toward, NodeOk, BackOk, FwdOk, Clean, Moved, CopyOk;
    var p, rest, t := s.flight[mv.i], Without(s.flight, mv.i), Moved(c, s, mv);
    CopyFacts(c, s, mv.i);
    if p.m.Rrep? {
      ReplyHappens(c, s, mv);
      ReplyGrows(c, s, t, p, rest);
    } else if Seen(c, s, p.to) {
      SeenGrows(c, s, mv);
    } else {
      FreshHappens(c, s, mv);
      FreshGrows(c, s, t, p, rest);
    }
  }

  lemma LossExact(c: Setup, s: Net, i: nat)
    requires NetInv(c, s) && i < |s.flight| && ExactNodes(c, s)
    ensures ExactNodes(c, Moved(c, s, Lose(i)))
  {
    hide NodeOk, BackOk, FwdOk, Clean, CopyOk, CleanNode;
    var t := Moved(c, s, Lose(i));
    forall x | x in t.nodes
      ensures CleanNode(c, t, x)
    {
      assert CleanNode(c, s, x);
      SameNodes(c, s, t, x);
    }
  }

  lemma LearntExact(c: Setup, s: Net, t: Net, p: Copy, x: Addr)
    requires Grows(c, s, t, p.to) && p.from != p.to && x in s.nodes && CleanNode(c, s, x)
    requires p.m.Rreq? && !Seen(c, s, p.to) ==> Seen(c, t, p.to) && Back(c, t, p.to) == Hop(p.from, p.m.hops)
    requires p.to != c.orig && Seen(c, t, p.to) && !Seen(c, s, p.to) ==> p.m.Rreq?
    ensures x in t.nodes && (CleanNode(c, t, x) <==> !(x == p.to && Misled(c, s, p)))
  {
    hide Contains, Toward;
  }

  /** The hop counts stay exact exactly if the copy delivered does not mislead its receiver. */
  lemma MoveExact(c: Setup, s: Net, mv: Move)
    requires NetInv(c, s) && Possible(s, mv) && ExactNodes(c, s)
    ensures ExactNodes(c, Moved(c, s, mv)) <==> !(mv.Deliver? && Misled(c, s, s.flight[mv.i]))
  {
    hide NetInv, CleanNode, Misled, Seen, Moved, Grows;
    match mv
    case Lose(i) => LossExact(c, s, i);
    case Deliver(i, _, _, _) =>
      var p, t := s.flight[i], Moved(c, s, mv);
      CopyFacts(c, s, i);
      DeliverGrows(c, s, mv);
      GrowsKeys(c, s, t, p.to);
      forall x | x in t.nodes
        ensures CleanNode(c, t, x) <==> !(x == p.to && Misled(c, s, p))
      {
        assert CleanNode(c, s, x);
        LearntExact(c, s, t, p, x);
      }
  }

  /** A hop count that is wrong stays wrong. */
  lemma MoveInexact(c: Setup, s: Net, mv: Move)
    requires NetInv(c, s) && Possible(s, mv) && !ExactNodes(c, s)
    ensures !ExactNodes(c, Moved(c, s, mv))
  {
    hide Contains, Toward, NodeOk, BackOk, FwdOk, Clean, CopyOk;
    var t := Moved(c, s, mv);
    var x :| x in s.nodes && !CleanNode(c, s, x);
    if mv.Deliver? {
      DeliverGrows(c, s, mv);
      GrowsKeys(c, s, t, s.flight[mv.i].to);
    }
    assert x in t.nodes && !CleanNode(c, t, x);
  }
}
