/** A run in which the originator takes up an echo of its own RREQ. */
module EchoExample {
  import opened Config
  import opened Routes
  import opened Node
  import opened NodeInv
  import opened NodeView
  import opened Network
  import opened NetworkInv
  import opened Discovery
  import opened Wrappers

  /** Node 1 looks for node 2; nodes 3 and 4 are in the way. */
  function Four(): Setup {
    var boot := map[1 := Initial(1, 255), 2 := Initial(2, 255), 3 := Initial(3, 255), 4 := Initial(4, 255)];
    Setup([1, 2, 3, 4], 1, 2, 3, boot)
  }

  /** All that the steps need to know of it. */
  ghost predicate IsFour(c: Setup) {
    c.all == [1, 2, 3, 4] && c.orig == 1 && c.dest == 2 && DiscoveryId(c) == 1
  }

  function Get(i: nat): Move {
    Deliver(i, None, Lifetimes(0, None), 0)
  }

  function Ask(ttl: U8, hops: U8): Message {
    Rreq(ttl, 5, hops, 1, 2, 0, 1, 1)
  }

  /** Node 2 answers, node 3 passes the RREQ on, the answer arrives, the RREQ comes back from node 3,
      and node 4 hears it from node 1. */
  function EchoMoves(): seq<Move> {
    [Get(0), Get(0), Get(1), Get(1), Get(5)]
  }

  lemma Broadcasts(c: Setup, m: Message)
    requires m.Rreq? && c.all == [1, 2, 3, 4]
    ensures Outgoing(c, 1, [m]) == [Copy(2, 1, m), Copy(3, 1, m), Copy(4, 1, m)]
    ensures Outgoing(c, 3, [m]) == [Copy(1, 3, m), Copy(2, 3, m), Copy(4, 3, m)]
  {
    OutgoingOne(c, 1, m);
    OutgoingOne(c, 3, m);
    assert Copies([], 1, m) == [] && Copies([], 3, m) == [];
    assert Copies([4], 1, m) == [Copy(4, 1, m)] && Copies([4], 3, m) == [Copy(4, 3, m)];
    assert [3, 4][1..] == [4] && [2, 3, 4][1..] == [3, 4] && [1, 2, 3, 4][1..] == [2, 3, 4];
    assert Copies([3, 4], 1, m) == [Copy(3, 1, m), Copy(4, 1, m)] && Copies([3, 4], 3, m) == [Copy(4, 3, m)];
  }

  function Answer(seqNum: U32): Copy {
    Copy(1, 2, Rrep(1, DEFAULT_TTL, 0, 2, seqNum, 1))
  }

  /** Only node `y` changes. */
  ghost predicate Only(s: Net, t: Net, y: Addr) {
    y in s.nodes && y in t.nodes && t.nodes == s.nodes[y := t.nodes[y]]
  }

  lemma Answers2(c: Setup, s: Net) returns (seqNum: U32)
    requires IsFour(c) && NetInv(c, s) && 2 in s.nodes && !Seen(c, s, 2)
    requires s.flight == [Copy(2, 1, Ask(3, 0)), Copy(3, 1, Ask(3, 0)), Copy(4, 1, Ask(3, 0))]
    ensures var t := Moved(c, s, Get(0));
      t.flight == [Copy(3, 1, Ask(3, 0)), Copy(4, 1, Ask(3, 0)), Answer(seqNum)] && Only(s, t, 2)
  {
    hide NetInv, Moved, Contains, NodeOk;
    FreshHappens(c, s, Get(0));
    seqNum := Moved(c, s, Get(0)).nodes[2].seqNum;
    OutgoingOne(c, 2, Answer(seqNum).m);
  }

  lemma Passed3(c: Setup, s: Net, t: Net)
    requires IsFour(c) && NetInv(c, s) && 3 in s.nodes && 3 in t.nodes && !Seen(c, s, 3)
    ensures FreshOut(c, s.nodes[3], Copy(3, 1, Ask(3, 0)), t.nodes[3].seqNum) == [Ask(2, 1)]
  {
    Unknown(c, s, 3);
    Unswallowed(s.nodes[3], 1, Ask(3, 0));
    hide NetInv, Swallows, Seen;
    assert Relayed(Ask(3, 0)) == Ask(2, 1);
  }

  lemma Relays3(c: Setup, s: Net, r: Copy)
    requires IsFour(c) && NetInv(c, s) && 3 in s.nodes && !Seen(c, s, 3)
    requires s.flight == [Copy(3, 1, Ask(3, 0)), Copy(4, 1, Ask(3, 0)), r]
    ensures var t := Moved(c, s, Get(0));
      && t.flight == [Copy(4, 1, Ask(3, 0)), r, Copy(1, 3, Ask(2, 1)), Copy(2, 3, Ask(2, 1)), Copy(4, 3, Ask(2, 1))]
      && Only(s, t, 3)
  {
    var t, p := Moved(c, s, Get(0)), Copy(3, 1, Ask(3, 0));
    assert Without(s.flight, 0) == [Copy(4, 1, Ask(3, 0)), r];
    hide NetInv, Moved, Seen, FreshStep, Only, Outgoing, FreshOut, Without, Ask, DiscoveryId;
    FreshHappens(c, s, Get(0));
    FreshNodes(c, s, t, p, [Copy(4, 1, Ask(3, 0)), r]);
    Passed3(c, s, t);
    Broadcasts(c, Ask(2, 1));
    TwoAndThree(Copy(4, 1, Ask(3, 0)), r, Copy(1, 3, Ask(2, 1)), Copy(2, 3, Ask(2, 1)), Copy(4, 3, Ask(2, 1)));
  }

  lemma TwoAndThree<T>(a: T, b: T, d: T, e: T, f: T)
    ensures [a, b] + [d, e, f] == [a, b, d, e, f]
  {
  }

  lemma FreshNodes(c: Setup, s: Net, t: Net, p: Copy, rest: seq<Copy>)
    requires p.to in s.nodes && p.m.Rreq? && FreshStep(c, s, t, p, rest)
    ensures Only(s, t, p.to)
    ensures t.flight == rest + Outgoing(c, p.to, FreshOut(c, s.nodes[p.to], p, t.nodes[p.to].seqNum))
  {
  }

  lemma Arrives1(c: Setup, s: Net, seqNum: U32)
    requires IsFour(c) && NetInv(c, s) && 1 in s.nodes
    requires s.nodes[1].requests == [Request(0, 1, 2, 0)] && s.nodes[1].rreqId == 1 && s.nodes[1].seqNum == 1
    requires s.flight ==
      [Copy(4, 1, Ask(3, 0)), Answer(seqNum), Copy(1, 3, Ask(2, 1)), Copy(2, 3, Ask(2, 1)), Copy(4, 3, Ask(2, 1))]
    ensures var t := Moved(c, s, Get(1));
      && t.flight == [Copy(4, 1, Ask(3, 0)), Copy(1, 3, Ask(2, 1)), Copy(2, 3, Ask(2, 1)), Copy(4, 3, Ask(2, 1))]
      && Only(s, t, 1) && !Seen(c, t, 1) && t.nodes[1].seqNum == 1
  {
    hide NodeOk, Outgoing, Toward, BackOk, FwdOk, Clean, ProcessRrep;
    ReplyHappens(c, s, Get(1));
    CopyFacts(c, s, 1);
    assert NodeOk(c, 1, s.nodes[1]) && CopyOk(c, s, Answer(seqNum));
    Originator(c, 1, s.nodes[1]);
    RrepEffect(s.nodes[1], 2, Answer(seqNum).m, Lifetimes(0, None), 0);
    RrepAnswers(s.nodes[1], 2, Answer(seqNum).m, Lifetimes(0, None), 0, Request(0, 1, 2, 0));
    assert Moved(c, s, Get(1)).nodes[1].requests == [];
  }

  lemma Originator(c: Setup, x: Addr, n: Node)
    requires NodeOk(c, x, n)
    ensures Inv(n) && n.ip == x
  {
  }

  lemma Echoes1(c: Setup, s: Net)
    requires IsFour(c) && NetInv(c, s) && 1 in s.nodes && !Seen(c, s, 1) && s.nodes[1].seqNum == 1
    requires s.flight == [Copy(4, 1, Ask(3, 0)), Copy(1, 3, Ask(2, 1)), Copy(2, 3, Ask(2, 1)), Copy(4, 3, Ask(2, 1))]
    ensures var t := Moved(c, s, Get(1));
      && t.flight == [Copy(4, 1, Ask(3, 0)), Copy(2, 3, Ask(2, 1)), Copy(4, 3, Ask(2, 1)),
                      Copy(2, 1, Ask(1, 2)), Copy(3, 1, Ask(1, 2)), Copy(4, 1, Ask(1, 2))]
      && Only(s, t, 1)
  {
    hide NetInv, Moved, Contains, NodeOk, Outgoing;
    FreshHappens(c, s, Get(1));
    assert !Swallows(s.nodes[1], 3, Ask(2, 1));
    Broadcasts(c, Ask(1, 2));
    assert Relayed(Ask(2, 1)) == Ask(1, 2);
  }

  lemma Hears4(c: Setup, s: Net)
    requires IsFour(c) && NetInv(c, s) && 4 in s.nodes && !Seen(c, s, 4)
    requires |s.flight| == 6 && s.flight[5] == Copy(4, 1, Ask(1, 2))
    ensures var t := Moved(c, s, Get(5));
      4 in t.nodes && Seen(c, t, 4) && Back(c, t, 4) == Hop(1, 2)
  {
    hide NetInv, Moved, Contains, NodeOk, Outgoing, Toward;
    FreshHappens(c, s, Get(5));
  }

  lemma OnlyOthers(s: Net, t: Net, y: Addr, x: Addr)
    requires Only(s, t, y) && x in s.nodes && x != y
    ensures x in t.nodes && t.nodes[x] == s.nodes[x]
  {
  }

  lemma FourOk()
    ensures SetupOk(Four()) && IsFour(Four())
    ensures forall x :: x in Start(Four(), 0).nodes <==> x in Four().all
    ensures 1 in Four().all && 2 in Four().all && 3 in Four().all && 4 in Four().all
  {
    hide FindRoute, Outgoing, Copies;
    var all := Four().all;
    assert all[0] == 1 && all[1] == 2 && all[2] == 3 && all[3] == 4;
    BlankStart(1);
    BlankStart(2);
    BlankStart(3);
    BlankStart(4);
    hide Blank, Initial;
  }

  lemma BlankStart(x: Addr)
    ensures Blank(Initial(x, 255), x)
  {
    InitialInv(x, 255);
  }

  lemma Asker1()
    requires SetupOk(Four()) && 1 in Start(Four(), 0).nodes
    ensures var n := Start(Four(), 0).nodes[1]; n.requests == [Request(0, 1, 2, 0)] && n.rreqId == 1 && n.seqNum == 1
  {
    hide Outgoing, Copies;
  }

  lemma Begin(c: Setup)
    requires c == Four() && SetupOk(c) && IsFour(c)
    ensures var s := Start(c, 0);
      && NetInv(c, s) && 1 in s.nodes && 2 in s.nodes && 3 in s.nodes && 4 in s.nodes
      && !Seen(c, s, 2) && !Seen(c, s, 3) && !Seen(c, s, 4)
      && s.flight == [Copy(2, 1, Ask(3, 0)), Copy(3, 1, Ask(3, 0)), Copy(4, 1, Ask(3, 0))]
      && s.nodes[1].requests == [Request(0, 1, 2, 0)] && s.nodes[1].rreqId == 1 && s.nodes[1].seqNum == 1
  {
    FourOk();
    Asker1();
    var ask := StartFlight(c, 0);
    assert ask == Ask(3, 0);
    hide NetInv, Clean, Contains, Start, NodeOk, FindRoute, Outgoing, Copies, Seen, Toward, Four, SetupOk;
    StartOk(c, 0);
    StartAt(c, 0, 2);
    StartAt(c, 0, 3);
    StartAt(c, 0, 4);
    Broadcasts(c, ask);
    OutgoingOne(c, 1, ask);
  }

  /** After an echo a hop count may be wrong: node 4 reaches the originator in one step, not in three. */
  lemma EchoMisleads()
    ensures SetupOk(Four()) && CanRun(Four(), Start(Four(), 0), EchoMoves())
    ensures var s := Ran(Four(), Start(Four(), 0), EchoMoves());
      && 4 in s.nodes && Seen(Four(), s, 4) && Back(Four(), s, 4) == Hop(1, 2)
      && ReachesIn(s, 1, 4, 1) && !ReachesIn(s, 1, 4, 3)
  {
    hide NetInv, Clean, Start, Seen, Moved, NodeOk, Four, SetupOk;
    var c := Four();
    FourOk();
    Begin(c);
    var s0 := Start(c, 0);
    var seqNum := Answers2(c, s0);
    MoveKeeps(c, s0, Get(0));
    var s1 := Moved(c, s0, Get(0));
    OnlyOthers(s0, s1, 2, 1);
    OnlyOthers(s0, s1, 2, 3);
    OnlyOthers(s0, s1, 2, 4);
    SeenSame(c, s0, s1, 3);
    Relays3(c, s1, Answer(seqNum));
    MoveKeeps(c, s1, Get(0));
    var s2 := Moved(c, s1, Get(0));
    OnlyOthers(s1, s2, 3, 1);
    OnlyOthers(s1, s2, 3, 4);
    Arrives1(c, s2, seqNum);
    MoveKeeps(c, s2, Get(1));
    var s3 := Moved(c, s2, Get(1));
    OnlyOthers(s2, s3, 1, 4);
    Echoes1(c, s3);
    MoveKeeps(c, s3, Get(1));
    var s4 := Moved(c, s3, Get(1));
    OnlyOthers(s3, s4, 1, 4);
    SeenSame(c, s0, s4, 4);
    Hears4(c, s4);
    var s5 := Moved(c, s4, Get(5));
    Unfold(s0, s1, s2, s3, s4, s5);
    assert ReachesIn(s5, 1, 1, 0);
    assert ReachesIn(s5, 1, 4, 1);
    if ReachesIn(s5, 1, 4, 3) {
      ReachesOnce(s5, 1, 4, 1, 3);
    }
  }

  lemma SeenSame(c: Setup, s: Net, t: Net, x: Addr)
    requires x in s.nodes && x in t.nodes && t.nodes[x] == s.nodes[x]
    ensures Seen(c, t, x) == Seen(c, s, x)
  {
  }

  lemma Unfold(s0: Net, s1: Net, s2: Net, s3: Net, s4: Net, s5: Net)
    requires Possible(s0, Get(0)) && s1 == Moved(Four(), s0, Get(0))
    requires Possible(s1, Get(0)) && s2 == Moved(Four(), s1, Get(0))
    requires Possible(s2, Get(1)) && s3 == Moved(Four(), s2, Get(1))
    requires Possible(s3, Get(1)) && s4 == Moved(Four(), s3, Get(1))
    requires Possible(s4, Get(5)) && s5 == Moved(Four(), s4, Get(5))
    ensures CanRun(Four(), s0, EchoMoves()) && Ran(Four(), s0, EchoMoves()) == s5
  {
    hide Moved, Possible;
    var c, ms := Four(), EchoMoves();
    assert ms[5..] == [] && ms[4..][1..] == ms[5..] && ms[3..][1..] == ms[4..];
    assert ms[2..][1..] == ms[3..] && ms[1..][1..] == ms[2..];
    assert CanRun(c, s5, ms[5..]) && Ran(c, s5, ms[5..]) == s5;
    assert CanRun(c, s4, ms[4..]) && Ran(c, s4, ms[4..]) == s5;
    assert CanRun(c, s3, ms[3..]) && Ran(c, s3, ms[3..]) == s5;
    assert CanRun(c, s2, ms[2..]) && Ran(c, s2, ms[2..]) == s5;
    assert CanRun(c, s1, ms[1..]) && Ran(c, s1, ms[1..]) == s5;
  }
}
