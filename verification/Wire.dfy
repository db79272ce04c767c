/** `aodv/packet.c`: the RREQ and RREP structures laid over the bytes of a packet, on either kind of
    host. */
module Wire {
  import opened Config

  type Byte = U8

  datatype Host = LittleEndian | BigEndian

  const AODV_RREQ := 1
  const AODV_RREP := 2
  const AODV_RERR := 3
  const AODV_RREP_ACK := 4

  const RREQ_SIZE := 24
  const RREP_SIZE := 20

  // ----- Words in memory -----

  /** Network order. */
  function BigBytes(v: U32): (s: seq<Byte>)
    ensures |s| == 4
  {
    var q1 := v / 0x100;
    var q2 := q1 / 0x100;
    [q2 / 0x100, q2 % 0x100, q1 % 0x100, v % 0x100]
  }

  function Swap(s: seq<Byte>): (r: seq<Byte>)
    requires |s| == 4
    ensures |r| == 4
  {
    [s[3], s[2], s[1], s[0]]
  }

  /** How the host keeps a word. */
  function Store(h: Host, v: U32): (s: seq<Byte>)
    ensures |s| == 4
  {
    if h.BigEndian? then BigBytes(v) else Swap(BigBytes(v))
  }

  function BigValue(s: seq<Byte>): U32
    requires |s| == 4
  {
    var a: int, b: int, c: int, d: int := s[0], s[1], s[2], s[3];
    ((a * 0x100 + b) * 0x100 + c) * 0x100 + d
  }

  function Load(h: Host, s: seq<Byte>): U32
    requires |s| == 4
  {
    BigValue(if h.BigEndian? then s else Swap(s))
  }

  /** `htonl`, and `ntohl`: the number whose host bytes are the network bytes of `v`. */
  function Htonl(h: Host, v: U32): U32 {
    Load(h, BigBytes(v))
  }

  lemma BigRoundTrip(v: U32)
    ensures BigValue(BigBytes(v)) == v
  {
  }

  lemma BigRoundTripBytes(s: seq<Byte>)
    requires |s| == 4
    ensures BigBytes(BigValue(s)) == s
  {
    var v := BigValue(s);
    var a: int, b: int, c: int, d: int := s[0], s[1], s[2], s[3];
    assert v / 0x100 == (a * 0x100 + b) * 0x100 + c;
    assert v / 0x100 / 0x100 == a * 0x100 + b;
  }

  lemma LoadStore(h: Host, v: U32)
    ensures Load(h, Store(h, v)) == v
  {
    BigRoundTrip(v);
  }

  lemma StoreLoad(h: Host, s: seq<Byte>)
    requires |s| == 4
    ensures Store(h, Load(h, s)) == s
  {
    BigRoundTripBytes(if h.BigEndian? then s else Swap(s));
  }

  /** Converting to network order leaves the network bytes in memory, on either host. */
  lemma HtonlStores(h: Host, v: U32)
    ensures Store(h, Htonl(h, v)) == BigBytes(v)
  {
    StoreLoad(h, BigBytes(v));
  }

  /** Converting back reads the network bytes. */
  lemma NtohlLoads(h: Host, s: seq<Byte>)
    requires |s| == 4
    ensures Htonl(h, Load(h, s)) == BigValue(s)
  {
    var v := Load(h, s);
    BigRoundTripBytes(s);
    BigRoundTripBytes(Swap(s));
    BigRoundTrip(v);
  }

  lemma HtonlTwice(h: Host, v: U32)
    ensures Htonl(h, Htonl(h, v)) == v
  {
    NtohlLoads(h, BigBytes(v));
    BigRoundTrip(v);
  }

  // ----- The first word: bit fields -----

  /** A word of bit fields, most significant byte first: compilers fill it from the most significant
      bit on big-endian hosts and from the least significant bit on little-endian ones. */
  function RreqFirst(h: Host, flags: U8, hops: U8): (s: seq<Byte>)
    ensures |s| == 4
  {
    if h.BigEndian? then
      Store(h, AODV_RREQ * 0x100_0000 + flags % 32 * 0x8_0000 + hops)       // type:8 flags:5 reserved:11 hop_count:8
    else
      Store(h, AODV_RREQ + flags % 32 * 0x800 + hops * 0x100_0000)          // type:8 reserved2:3 flags:5 reserved:8 hop_count:8
  }

  function RrepFirst(h: Host, flags: U8, prefix: U8, hops: U8): (s: seq<Byte>)
    ensures |s| == 4
  {
    if h.BigEndian? then
      Store(h, AODV_RREP * 0x100_0000 + flags % 4 * 0x40_0000 + prefix % 32 * 0x100 + hops)
    else
      Store(h, AODV_RREP + flags % 4 * 0x4000 + prefix % 32 * 0x1_0000 + hops * 0x100_0000)
  }

  lemma Digits(a: Byte, b: Byte, c: Byte, d: Byte)
    ensures var v: int := a as int * 0x100_0000 + b as int * 0x1_0000 + c as int * 0x100 + d as int;
      0 <= v < 0x1_0000_0000 && BigBytes(v) == [a, b, c, d]
  {
    BigRoundTripBytes([a, b, c, d]);
  }

  /** Section 5.1 of RFC 3561: type, then J R G D U above three reserved bits, eight more, hop count. */
  lemma RreqFirstLayout(h: Host, flags: U8, hops: U8)
    requires flags < 32
    ensures RreqFirst(h, flags, hops) == [AODV_RREQ, flags * 8, 0, hops]
  {
    hide BigBytes;
    assert flags % 32 == flags;
    Digits(AODV_RREQ, flags * 8, 0, hops);
    Digits(hops, 0, flags * 8, AODV_RREQ);
  }

  /** Section 5.2 of RFC 3561: type, then R A above nine reserved bits, prefix size, hop count. */
  lemma RrepFirstLayout(h: Host, flags: U8, prefix: U8, hops: U8)
    requires flags < 4 && prefix < 32
    ensures RrepFirst(h, flags, prefix, hops) == [AODV_RREP, flags * 64, prefix, hops]
  {
    hide BigBytes;
    assert flags % 4 == flags && prefix % 32 == prefix;
    Digits(AODV_RREP, flags * 64, prefix, hops);
    Digits(hops, prefix, flags * 64, AODV_RREP);
  }

  // ----- Whole packets -----

  datatype Rreq = Rreq(flags: U8, hops: U8, id: U32, dest: U32, destSeq: U32, orig: U32, origSeq: U32) {
    predicate InRange() { flags < 32 }
  }

  datatype Rrep = Rrep(flags: U8, prefix: U8, hops: U8, dest: U32, destSeq: U32, orig: U32, lifetime: U32) {
    predicate InRange() { flags < 4 && prefix < 32 }
  }

  /** The packets of RFC 3561, sections 5.1 and 5.2. */
  function RreqOnWire(p: Rreq): (s: seq<Byte>)
    requires p.InRange()
    ensures |s| == RREQ_SIZE
  {
    [AODV_RREQ, p.flags * 8, 0, p.hops] + BigBytes(p.id) + BigBytes(p.dest) + BigBytes(p.destSeq)
    + BigBytes(p.orig) + BigBytes(p.origSeq)
  }

  function RrepOnWire(p: Rrep): (s: seq<Byte>)
    requires p.InRange()
    ensures |s| == RREP_SIZE
  {
    [AODV_RREP, p.flags * 64, p.prefix, p.hops] + BigBytes(p.dest) + BigBytes(p.destSeq)
    + BigBytes(p.orig) + BigBytes(p.lifetime)
  }

  /** The word at byte `4 * i`. */
  function Word(s: seq<Byte>, i: nat): seq<Byte>
    requires 4 * i + 4 <= |s|
  {
    s[4 * i..4 * i + 4]
  }

  function ReadRreq(h: Host, s: seq<Byte>): Rreq
    requires |s| >= RREQ_SIZE
  {
    Rreq(s[1] / 8, s[3], Load(h, Word(s, 1)), Load(h, Word(s, 2)), Load(h, Word(s, 3)),
         Load(h, Word(s, 4)), Load(h, Word(s, 5)))
  }

  function ReadRrep(h: Host, s: seq<Byte>): Rrep
    requires |s| >= RREP_SIZE
  {
    Rrep(s[1] / 64, s[2] % 32, s[3], Load(h, Word(s, 1)), Load(h, Word(s, 2)), Load(h, Word(s, 3)), Load(h, Word(s, 4)))
  }

  /** Words 1 to `n` converted between host and network order, the rest as it was. */
  function Converted(h: Host, s: seq<Byte>, n: nat): (r: seq<Byte>)
    requires n > 0 ==> 4 * n + 4 <= |s|
    ensures |r| == |s|
  {
    if n == 0 then s
    else
      var r := Converted(h, s, n - 1);
      r[..4 * n] + Store(h, Htonl(h, Load(h, Word(s, n)))) + r[4 * n + 4..]
  }

  /** How many words after the first `aodv_pkt_check` converts. */
  function WordsOf(s: seq<Byte>): nat {
    if s == [] then 0 else if s[0] == AODV_RREQ then 5 else if s[0] == AODV_RREP then 4 else 0
  }

  /** What `aodv_pkt_check` accepts. */
  predicate Accepts(s: seq<Byte>) {
    && |s| >= 1
    && (s[0] == AODV_RREQ ==> |s| >= RREQ_SIZE)
    && (s[0] == AODV_RREP ==> |s| >= RREP_SIZE)
    && (s[0] == AODV_RERR ==> |s| >= 12 && s[3] != 0 && |s| == 4 + 8 * s[3] as int)
    && (s[0] == AODV_RREP_ACK ==> |s| >= 2)
    && AODV_RREQ <= s[0] <= AODV_RREP_ACK
  }

  function Checked(h: Host, s: seq<Byte>): (r: seq<Byte>)
    ensures |r| == |s|
  {
    if Accepts(s) then Converted(h, s, WordsOf(s)) else s
  }

  lemma {:induction false} ConvertedWord(h: Host, s: seq<Byte>, n: nat, i: nat)
    requires (n > 0 ==> 4 * n + 4 <= |s|) && 4 * i + 4 <= |s|
    ensures Word(Converted(h, s, n), i) == if 1 <= i <= n then Store(h, Htonl(h, Load(h, Word(s, i)))) else Word(s, i)
  {
    if n > 0 {
      ConvertedWord(h, s, n - 1, i);
      SpliceWord(Converted(h, s, n - 1), n, Store(h, Htonl(h, Load(h, Word(s, n)))), i);
    }
  }

  /** Replacing one word leaves the others. */
  lemma SpliceWord(r: seq<Byte>, n: nat, w: seq<Byte>, i: nat)
    requires 4 * n + 4 <= |r| && 4 * i + 4 <= |r| && |w| == 4
    ensures Word(r[..4 * n] + w + r[4 * n + 4..], i) == if i == n then w else Word(r, i)
  {
  }

  /** Bytes outside the converted words stay. */
  lemma {:induction false} ConvertedRest(h: Host, s: seq<Byte>, n: nat, k: nat)
    requires (n > 0 ==> 4 * n + 4 <= |s|) && k < |s| && (k < 4 || k >= 4 * n + 4)
    ensures Converted(h, s, n)[k] == s[k]
  {
    if n > 0 {
      ConvertedRest(h, s, n - 1, k);
    }
  }

  /** Two packets agree when they agree on the first word, on each converted word and behind them. */
  lemma SameBytes(s: seq<Byte>, r: seq<Byte>, n: nat)
    requires |s| == |r| && (n > 0 ==> 4 * n + 4 <= |s|)
    requires forall k :: 0 <= k < |s| && (k < 4 || k >= 4 * n + 4) ==> s[k] == r[k]
    requires forall i {:trigger Word(s, i)} :: 1 <= i <= n ==> Word(s, i) == Word(r, i)
    ensures s == r
  {
    forall k | 0 <= k < |s|
      ensures s[k] == r[k]
    {
      if 4 <= k < 4 * n + 4 {
        assert Word(s, k / 4) == Word(r, k / 4);
        assert s[k] == Word(s, k / 4)[k % 4] && r[k] == Word(r, k / 4)[k % 4];
      }
    }
  }

  /** Converting twice gives every byte back. */
  lemma ConvertTwice(h: Host, s: seq<Byte>, n: nat)
    requires n > 0 ==> 4 * n + 4 <= |s|
    ensures Converted(h, Converted(h, s, n), n) == s
  {
    var r := Converted(h, s, n);
    var q := Converted(h, r, n);
    forall k | 0 <= k < |s| && (k < 4 || k >= 4 * n + 4)
      ensures q[k] == s[k]
    {
      ConvertedRest(h, s, n, k);
      ConvertedRest(h, r, n, k);
    }
    forall i | 1 <= i <= n
      ensures Word(q, i) == Word(s, i)
    {
      ConvertedWord(h, s, n, i);
      ConvertedWord(h, r, n, i);
      var v := Load(h, Word(s, i));
      LoadStore(h, Htonl(h, v));
      HtonlTwice(h, v);
      StoreLoad(h, Word(s, i));
    }
    SameBytes(q, s, n);
  }

  // ----- What a receiver reads -----

  lemma RreqWords(p: Rreq)
    requires p.InRange()
    ensures var s := RreqOnWire(p);
      && Word(s, 1) == BigBytes(p.id) && Word(s, 2) == BigBytes(p.dest) && Word(s, 3) == BigBytes(p.destSeq)
      && Word(s, 4) == BigBytes(p.orig) && Word(s, 5) == BigBytes(p.origSeq)
  {
  }

  lemma RrepWords(p: Rrep)
    requires p.InRange()
    ensures var s := RrepOnWire(p);
      && Word(s, 1) == BigBytes(p.dest) && Word(s, 2) == BigBytes(p.destSeq)
      && Word(s, 3) == BigBytes(p.orig) && Word(s, 4) == BigBytes(p.lifetime)
  {
  }

  /** A converted word reads as the number on the wire. */
  lemma ConvertedReads(h: Host, s: seq<Byte>, n: nat, i: nat, v: U32)
    requires 4 * n + 4 <= |s| && 1 <= i <= n && Word(s, i) == BigBytes(v)
    ensures Load(h, Word(Converted(h, s, n), i)) == v
  {
    ConvertedWord(h, s, n, i);
    NtohlLoads(h, Word(s, i));
    BigRoundTrip(v);
    LoadStore(h, v);
  }

  /** Checking a built RREQ recovers its fields, whatever the byte order of the receiver. */
  lemma RreqRecovered(h: Host, p: Rreq)
    requires p.InRange()
    ensures Accepts(RreqOnWire(p)) && ReadRreq(h, Checked(h, RreqOnWire(p))) == p
  {
    hide BigBytes, Load, Converted;
    var s := RreqOnWire(p);
    RreqWords(p);
    ConvertedReads(h, s, 5, 1, p.id);
    ConvertedReads(h, s, 5, 2, p.dest);
    ConvertedReads(h, s, 5, 3, p.destSeq);
    ConvertedReads(h, s, 5, 4, p.orig);
    ConvertedReads(h, s, 5, 5, p.origSeq);
    ConvertedRest(h, s, 5, 1);
    ConvertedRest(h, s, 5, 3);
  }

  /** Checking a built RREP recovers its fields, whatever the byte order of the receiver. */
  lemma RrepRecovered(h: Host, p: Rrep)
    requires p.InRange()
    ensures Accepts(RrepOnWire(p)) && ReadRrep(h, Checked(h, RrepOnWire(p))) == p
  {
    hide BigBytes, Load, Converted;
    var s := RrepOnWire(p);
    RrepWords(p);
    ConvertedReads(h, s, 4, 1, p.dest);
    ConvertedReads(h, s, 4, 2, p.destSeq);
    ConvertedReads(h, s, 4, 3, p.orig);
    ConvertedReads(h, s, 4, 4, p.lifetime);
    ConvertedRest(h, s, 4, 1);
    ConvertedRest(h, s, 4, 2);
    ConvertedRest(h, s, 4, 3);
  }

  /** Preparing an accepted packet for sending gives back the bytes it came with. */
  lemma PrepareUndoesCheck(h: Host, s: seq<Byte>)
    requires Accepts(s)
    ensures Converted(h, Checked(h, s), WordsOf(s)) == s
  {
    ConvertTwice(h, s, WordsOf(s));
  }

  /** Changing the hop count in between changes that byte on the wire and nothing else. */
  lemma {:induction false} HopByte(h: Host, s: seq<Byte>, n: nat, hops: Byte)
    requires (n > 0 ==> 4 * n + 4 <= |s|) && |s| >= 4
    ensures Converted(h, s[3 := hops], n) == Converted(h, s, n)[3 := hops]
  {
    hide Load, Store, Htonl;
    if n > 0 {
      var w := Store(h, Htonl(h, Load(h, Word(s, n))));
      HopByte(h, s, n - 1, hops);
      assert Word(s[3 := hops], n) == Word(s, n);
      SpliceHop(Converted(h, s, n - 1), n, w, hops);
    }
  }

  lemma SpliceHop(r: seq<Byte>, n: nat, w: seq<Byte>, hops: Byte)
    requires 0 < n && 4 * n + 4 <= |r| && |w| == 4
    ensures r[3 := hops][..4 * n] + w + r[3 := hops][4 * n + 4..] == (r[..4 * n] + w + r[4 * n + 4..])[3 := hops]
  {
  }

  /** A RREQ that is checked, counted one hop further and prepared goes out as the same RREQ with
      the new hop count. */
  lemma RreqForwarded(h: Host, p: Rreq, hops: U8)
    requires p.InRange()
    ensures Converted(h, Checked(h, RreqOnWire(p))[3 := hops], 5) == RreqOnWire(p.(hops := hops))
  {
    hide BigBytes, Converted;
    var s := RreqOnWire(p);
    HopByte(h, Checked(h, s), 5, hops);
    PrepareUndoesCheck(h, s);
  }

  /** The same for a RREP. */
  lemma RrepForwarded(h: Host, p: Rrep, hops: U8)
    requires p.InRange()
    ensures Converted(h, Checked(h, RrepOnWire(p))[3 := hops], 4) == RrepOnWire(p.(hops := hops))
  {
    hide BigBytes, Converted;
    var s := RrepOnWire(p);
    HopByte(h, Checked(h, s), 4, hops);
    PrepareUndoesCheck(h, s);
  }

  // ----- The functions of packet.c, in place -----

  method SetWord(payload: array<Byte>, i: nat, w: seq<Byte>)
    requires 4 * i + 4 <= payload.Length && |w| == 4
    modifies payload
    ensures payload[..] == old(payload[..])[..4 * i] + w + old(payload[..])[4 * i + 4..]
  {
    payload[4 * i], payload[4 * i + 1], payload[4 * i + 2], payload[4 * i + 3] := w[0], w[1], w[2], w[3];
  }

  /** The next word of a payload that is filled from the front. */
  method NextWord(payload: array<Byte>, i: nat, w: seq<Byte>, ghost before: seq<Byte>)
    requires 4 * i + 4 <= payload.Length && |w| == 4 && payload[..4 * i] == before
    modifies payload
    ensures payload[..4 * i + 4] == before + w
  {
    SetWord(payload, i, w);
  }

  /** `word = htonl(word)`, the same as `ntohl`. */
  method ConvertWord(h: Host, payload: array<Byte>, i: nat, ghost s: seq<Byte>)
    requires 1 <= i && 4 * i + 4 <= payload.Length == |s| && payload[..] == Converted(h, s, i - 1)
    modifies payload
    ensures payload[..] == Converted(h, s, i)
  {
    ConvertedWord(h, s, i - 1, i);
    SetWord(payload, i, Store(h, Htonl(h, Load(h, Word(payload[..], i)))));
  }

  /** `aodv_pkt_build_rreq`: the struct's fields take the low bits of the arguments. */
  method BuildRreq(h: Host, p: Rreq) returns (payload: array<Byte>)
    ensures fresh(payload) && payload[..] == RreqOnWire(p.(flags := p.flags % 32))
  {
    hide Store, Htonl, RreqFirst, RreqOnWire;
    payload := new Byte[RREQ_SIZE](_ => 0);
    NextWord(payload, 0, RreqFirst(h, p.flags, p.hops), []);
    NextWord(payload, 1, Store(h, Htonl(h, p.id)), payload[..4]);
    NextWord(payload, 2, Store(h, Htonl(h, p.dest)), payload[..8]);
    NextWord(payload, 3, Store(h, Htonl(h, p.destSeq)), payload[..12]);
    NextWord(payload, 4, Store(h, Htonl(h, p.orig)), payload[..16]);
    NextWord(payload, 5, Store(h, Htonl(h, p.origSeq)), payload[..20]);
    assert payload[..] == payload[..RREQ_SIZE];
    RreqBuilt(h, p);
  }

  lemma RreqBuilt(h: Host, p: Rreq)
    ensures RreqFirst(h, p.flags, p.hops) + Store(h, Htonl(h, p.id)) + Store(h, Htonl(h, p.dest))
      + Store(h, Htonl(h, p.destSeq)) + Store(h, Htonl(h, p.orig)) + Store(h, Htonl(h, p.origSeq))
      == RreqOnWire(p.(flags := p.flags % 32))
  {
    hide BigBytes, Store, Htonl;
    RreqFirstLayout(h, p.flags % 32, p.hops);
    HtonlStores(h, p.id);
    HtonlStores(h, p.dest);
    HtonlStores(h, p.destSeq);
    HtonlStores(h, p.orig);
    HtonlStores(h, p.origSeq);
  }

  /** `aodv_pkt_build_rrep`. */
  method BuildRrep(h: Host, p: Rrep) returns (payload: array<Byte>)
    ensures fresh(payload) && payload[..] == RrepOnWire(p.(flags := p.flags % 4, prefix := p.prefix % 32))
  {
    hide Store, Htonl, RrepFirst, RrepOnWire;
    payload := new Byte[RREP_SIZE](_ => 0);
    NextWord(payload, 0, RrepFirst(h, p.flags, p.prefix, p.hops), []);
    NextWord(payload, 1, Store(h, Htonl(h, p.dest)), payload[..4]);
    NextWord(payload, 2, Store(h, Htonl(h, p.destSeq)), payload[..8]);
    NextWord(payload, 3, Store(h, Htonl(h, p.orig)), payload[..12]);
    NextWord(payload, 4, Store(h, Htonl(h, p.lifetime)), payload[..16]);
    assert payload[..] == payload[..RREP_SIZE];
    RrepBuilt(h, p);
  }

  lemma RrepBuilt(h: Host, p: Rrep)
    ensures RrepFirst(h, p.flags, p.prefix, p.hops) + Store(h, Htonl(h, p.dest)) + Store(h, Htonl(h, p.destSeq))
      + Store(h, Htonl(h, p.orig)) + Store(h, Htonl(h, p.lifetime))
      == RrepOnWire(p.(flags := p.flags % 4, prefix := p.prefix % 32))
  {
    hide BigBytes, Store, Htonl;
    RrepFirstLayout(h, p.flags % 4, p.prefix % 32, p.hops);
    HtonlStores(h, p.dest);
    HtonlStores(h, p.destSeq);
    HtonlStores(h, p.orig);
    HtonlStores(h, p.lifetime);
  }

  /** `aodv_pkt_check`: accepts by type and size, and turns the words of a RREQ or RREP to host order.
      Of an empty datagram the type read is whatever byte lies `behind` it; it is refused in any case. */
  method Check(h: Host, payload: array<Byte>, behind: Byte) returns (ok: bool)
    modifies payload
    ensures ok == Accepts(old(payload[..])) && payload[..] == Checked(h, old(payload[..]))
  {
    ghost var s := payload[..];
    var kind := if payload.Length > 0 then payload[0] else behind;
    match kind as int
    case 1 =>
      if RREQ_SIZE <= payload.Length {
        PrepareRreq(h, payload);
        return true;
      }
      return false;
    case 2 =>
      if RREP_SIZE <= payload.Length {
        PrepareRrep(h, payload);
        return true;
      }
      return false;
    case 3 =>
      if payload.Length >= 4 + 8 {
        if payload[3] == 0 {
          return false;
        }
        return payload.Length == 4 + 8 * payload[3] as int;
      }
      return false;
    case 4 => return 2 <= payload.Length;
    case _ => return false;
  }

  /** `aodv_pkt_prepare_rreq`. */
  method PrepareRreq(h: Host, payload: array<Byte>)
    requires payload.Length >= RREQ_SIZE
    modifies payload
    ensures payload[..] == Converted(h, old(payload[..]), 5)
  {
    ghost var s := payload[..];
    ConvertWord(h, payload, 1, s);
    ConvertWord(h, payload, 2, s);
    ConvertWord(h, payload, 3, s);
    ConvertWord(h, payload, 4, s);
    ConvertWord(h, payload, 5, s);
  }

  /** `aodv_pkt_prepare_rrep`. */
  method PrepareRrep(h: Host, payload: array<Byte>)
    requires payload.Length >= RREP_SIZE
    modifies payload
    ensures payload[..] == Converted(h, old(payload[..]), 4)
  {
    ghost var s := payload[..];
    ConvertWord(h, payload, 1, s);
    ConvertWord(h, payload, 2, s);
    ConvertWord(h, payload, 3, s);
    ConvertWord(h, payload, 4, s);
  }
}
