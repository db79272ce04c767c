/** One route discovery among any number of nodes: every node runs the daemon's own functions, and
    the messages in flight arrive in any order, or never. */
module Network {
  import opened Config
  import opened Routes
  import opened Node
  import opened NodeInv
  import opened NodeView
  import opened NodeSteps
  import opened Wrappers

  /** The nodes, who looks for whom, the time to live of the first RREQ, and the state each node is in. */
  datatype Setup = Setup(all: seq<Addr>, orig: Addr, dest: Addr, ttl: U8, boot: map<Addr, Node>)

  /** No node knows a route or has a RREQ buffered; sequence numbers, RREQ ids, held packets and what
      was sent before are arbitrary. */
  ghost predicate Blank(n: Node, x: Addr) {
    Inv(n) && n.ip == x && n.table == [] && n.requests == []
  }

  ghost predicate SetupOk(c: Setup) {
    && (forall i, j :: 0 <= i < j < |c.all| ==> c.all[i] != c.all[j])
    && (forall x :: x in c.all ==> x in c.boot)
    && (forall x {:trigger Blank(c.boot[x], x)} :: x in c.all ==> Blank(c.boot[x], x))
    && c.orig in c.all && c.dest in c.all && c.orig != c.dest && c.ttl >= 1
  }

  /** The id the originator gives its RREQ. */
  function DiscoveryId(c: Setup): U32 {
    if c.orig in c.boot then Increment(c.boot[c.orig].rreqId) else 0
  }

  /** One copy of a message on its way to one node. */
  datatype Copy = Copy(to: Addr, from: Addr, m: Message)

  datatype Net = Net(nodes: map<Addr, Node>, flight: seq<Copy>)

  /** A broadcast reaches the other nodes, each by a copy of its own; which of them hear it is left to
      the losses. */
  function Copies(all: seq<Addr>, from: Addr, m: Message): seq<Copy> {
    if all == [] then []
    else (if all[0] == from then [] else [Copy(all[0], from, m)]) + Copies(all[1..], from, m)
  }

  function Outgoing(c: Setup, from: Addr, ms: seq<Message>): seq<Copy> {
    if ms == [] then []
    else (if ms[0].Rreq? then Copies(c.all, from, ms[0]) else [Copy(ms[0].to, from, ms[0])]) + Outgoing(c, from, ms[1..])
  }

  function WithTtl(m: Message, ttl: U8): Message
    requires m.Rreq?
  {
    Rreq(ttl, m.flags, m.hops, m.id, m.dest, m.destSeq, m.orig, m.origSeq)
  }

  /** The originator asks. */
  function Start(c: Setup, now: int): Net
    requires SetupOk(c)
  {
    var o := FindRoute(c.boot[c.orig], c.dest, 0, now);
    var ask := WithTtl(o.sent[|o.sent| - 1], c.ttl);
    Net((map x | x in c.all :: if x == c.orig then o else c.boot[x]), Outgoing(c, c.orig, [ask]))
  }

  /** A copy arrives, with whatever lifetimes and clock, or is lost. */
  datatype Move =
    | Deliver(i: nat, reverse: Option<nat>, life: Lifetimes, now: int)
    | Lose(i: nat)

  predicate Possible(s: Net, mv: Move) {
    mv.i < |s.flight| && (mv.Deliver? ==> s.flight[mv.i].to in s.nodes)
  }

  function Without<T>(s: seq<T>, i: nat): seq<T>
    requires i < |s|
  {
    s[..i] + s[i + 1..]
  }

  function Moved(c: Setup, s: Net, mv: Move): Net
    requires Possible(s, mv)
  {
    var p, rest := s.flight[mv.i], Without(s.flight, mv.i);
    match mv
    case Lose(_) => s.(flight := rest)
    case Deliver(_, reverse, life, now) =>
      var n := s.nodes[p.to];
      var m := Receive(n, p.from, p.m, reverse, life, now);
      Net(s.nodes[p.to := m], rest + Outgoing(c, p.to, Emitted(n, m)))
  }

  ghost predicate CanRun(c: Setup, s: Net, moves: seq<Move>)
    decreases moves
  {
    moves != [] ==> Possible(s, moves[0]) && CanRun(c, Moved(c, s, moves[0]), moves[1..])
  }

  function Ran(c: Setup, s: Net, moves: seq<Move>): Net
    requires CanRun(c, s, moves)
    decreases moves
  {
    if moves == [] then s else Ran(c, Moved(c, s, moves[0]), moves[1..])
  }

  // ----- What the discovery has built -----

  /** Node `x` has the RREQ buffered. */
  ghost predicate Seen(c: Setup, s: Net, x: Addr)
    requires x in s.nodes
  {
    Contains(s.nodes[x].requests, DiscoveryId(c), c.dest)
  }

  function Back(c: Setup, s: Net, x: Addr): Hop
    requires x in s.nodes
  {
    Toward(s.nodes[x].table, c.orig)
  }

  function Fwd(c: Setup, s: Net, x: Addr): Hop
    requires x in s.nodes
  {
    Toward(s.nodes[x].table, c.dest)
  }

  /** How far the originator is, by the hop counts. */
  function Rank(c: Setup, s: Net, x: Addr): nat
    requires x in s.nodes
  {
    if x == c.orig then 0 else match Back(c, s, x) case NoHop => 0 case Hop(_, h) => h + 1
  }

  function Asked(ms: seq<Message>): nat {
    if ms == [] then 0 else (if ms[|ms| - 1].Rreq? then 1 else 0) + Asked(ms[..|ms| - 1])
  }

  /** How many RREQs node `x` had broadcast before. */
  function AskedBefore(c: Setup, x: Addr): nat {
    if x in c.boot then Asked(c.boot[x].sent) else 0
  }

  // ----- The invariant -----

  ghost predicate NodeOk(c: Setup, x: Addr, n: Node) {
    && Inv(n) && n.ip == x
    && (x != c.orig ==>
         Asked(n.sent) <= AskedBefore(c, x) + if Contains(n.requests, DiscoveryId(c), c.dest) then 1 else 0)
  }

  /** The way back of a node leads one hop nearer, to the originator or to a node that has the RREQ too. */
  ghost predicate BackOk(c: Setup, s: Net, x: Addr)
    requires x in s.nodes
  {
    x != c.orig && Seen(c, s, x) ==>
      var b := Back(c, s, x);
      && b.Hop? && b.hops < c.ttl && b.next in s.nodes && b.next != c.dest
      && (b.next != c.orig ==> Seen(c, s, b.next) && Back(c, s, b.next).Hop? && Back(c, s, b.next).hops + 1 == b.hops)
  }

  /** The way to the destination leads one hop nearer, to the destination or to a node that has one too. */
  ghost predicate FwdOk(c: Setup, s: Net, x: Addr)
    requires x in s.nodes && c.dest in s.nodes
  {
    Fwd(c, s, x).Hop? ==>
      var f := Fwd(c, s, x);
      && x != c.dest && (x == c.orig || Seen(c, s, x)) && Seen(c, s, c.dest) && f.next in s.nodes
      && (f.next == c.dest ==> f.hops == 1)
      && (f.next != c.dest ==> Fwd(c, s, f.next).Hop? && Fwd(c, s, f.next).hops + 1 == f.hops)
  }

  ghost predicate CopyOk(c: Setup, s: Net, p: Copy)
    requires c.dest in s.nodes
  {
    && p.to in s.nodes && p.from in s.nodes && p.from != p.to
    && if p.m.Rreq? then RreqOk(c, s, p) else RrepOk(c, s, p)
  }

  ghost predicate RreqOk(c: Setup, s: Net, p: Copy)
    requires p.m.Rreq? && p.from in s.nodes
  {
    && p.m.id == DiscoveryId(c) && p.m.dest == c.dest && p.m.orig == c.orig && p.m.destSeq == 0
    && p.m.ttl >= 1 && p.m.hops + p.m.ttl == c.ttl && p.from != c.dest
    && (p.from != c.orig ==> Seen(c, s, p.from) && Back(c, s, p.from).Hop? && p.m.hops == Back(c, s, p.from).hops + 1)
  }

  ghost predicate RrepOk(c: Setup, s: Net, p: Copy)
    requires p.m.Rrep? && p.from in s.nodes && p.to in s.nodes && c.dest in s.nodes
  {
    && p.m.dest == c.dest && p.m.orig == c.orig && Seen(c, s, c.dest)
    && p.to != c.dest && (p.to == c.orig || Seen(c, s, p.to)) && Fwd(c, s, p.to).NoHop?
    && (p.from == c.dest ==> p.m.hops == 0)
    && (p.from != c.dest ==> Fwd(c, s, p.from).Hop? && Fwd(c, s, p.from).hops == p.m.hops)
    && p.m.hops + Rank(c, s, p.to) + 1 == Rank(c, s, c.dest)
    && forall x {:trigger Fwd(c, s, x)} :: x in s.nodes && Fwd(c, s, x).Hop? ==> Rank(c, s, x) > Rank(c, s, p.to)
  }

  /** The originator has sent its RREQ itself, and not passed on one it heard. */
  ghost predicate CleanCopy(c: Setup, p: Copy) {
    p.m.Rreq? && p.from == c.orig ==> p.m.hops == 0
  }

  /** A node next to the originator on the way back has heard the RREQ with hop count zero. */
  ghost predicate CleanNode(c: Setup, s: Net, x: Addr)
    requires x in s.nodes
  {
    x != c.orig && Seen(c, s, x) && Back(c, s, x).Hop? && Back(c, s, x).next == c.orig ==> Back(c, s, x).hops == 0
  }

  ghost predicate ExactNodes(c: Setup, s: Net) {
    forall x {:trigger CleanNode(c, s, x)} :: x in s.nodes ==> CleanNode(c, s, x)
  }

  ghost predicate Clean(c: Setup, s: Net) {
    ExactNodes(c, s) && forall p {:trigger CleanCopy(c, p)} :: p in s.flight ==> CleanCopy(c, p)
  }

  ghost predicate AtMostOneReply(flight: seq<Copy>) {
    forall i, j :: 0 <= i < j < |flight| ==> !(flight[i].m.Rrep? && flight[j].m.Rrep?)
  }

  ghost predicate NetInv(c: Setup, s: Net) {
    && SetupOk(c)
    && (forall x :: x in s.nodes <==> x in c.all)
    && (forall x {:trigger NodeOk(c, x, s.nodes[x])} :: x in s.nodes ==> NodeOk(c, x, s.nodes[x]))
    && (forall x {:trigger BackOk(c, s, x)} :: x in s.nodes ==> BackOk(c, s, x))
    && (forall x {:trigger FwdOk(c, s, x)} :: x in s.nodes ==> FwdOk(c, s, x))
    && (forall p {:trigger CopyOk(c, s, p)} :: p in s.flight ==> CopyOk(c, s, p))
    && AtMostOneReply(s.flight)
    && (Fwd(c, s, c.orig).NoHop? ==> Seen(c, s, c.orig) && Clean(c, s))
  }
}
