/** `aodv/configuration_parameters.c`.  Times are in milliseconds. */
module Config {

  type U8 = x: int | 0 <= x < 0x100
  type U32 = x: int | 0 <= x < 0x1_0000_0000

  const ACTIVE_ROUTE_TIMEOUT: U32 := 3000
  const ALLOWED_HELLO_LOSS: U32 := 2
  const RREQ_RETRIES: U32 := 2
  const HELLO_INTERVAL: U32 := 1000
  const NET_DIAMETER: U32 := 35
  const TTL_START: U32 := 3
  const TTL_INCREMENT: U32 := 2
  const TTL_THRESHOLD: U32 := 7
  const NODE_TRAVERSAL_TIME: U32 := 40
  const NET_TRAVERSAL_TIME: U32 := 2 * NODE_TRAVERSAL_TIME * NET_DIAMETER
  const PATH_DISCOVERY_TIME: U32 := 2 * NET_TRAVERSAL_TIME
  const DELETE_PERIOD: U32 := ALLOWED_HELLO_LOSS * HELLO_INTERVAL

  function Pow2(k: nat): (r: nat)
    ensures r >= 1
  {
    if k == 0 then 1 else 2 * Pow2(k - 1)
  }

  /** A 32-bit product. */
  function BackoffTime(prevTries: nat): U32 {
    Pow2(prevTries) * NET_TRAVERSAL_TIME % 0x1_0000_0000
  }

  /** The time to live of a new RREQ, as it is stored in a packet's byte. */
  function RingTtl(hops: U8, prevTries: nat): U8 {
    var reach := hops + TTL_START + prevTries * TTL_INCREMENT;
    (if prevTries == 0 then hops + TTL_START else if reach > TTL_THRESHOLD then NET_DIAMETER else reach) % 0x100
  }

  /** The rings widen from try to try exactly for the hop counts whose first ring is no wider than the
      net diameter, as it is stored. */
  lemma RingsWiden(hops: U8)
    ensures (forall t: nat :: RingTtl(hops, t) <= RingTtl(hops, t + 1)) <==> hops <= 32 || hops >= 253
  {
    assert RingTtl(hops, 0) == (hops + 3) % 0x100;
    assert hops >= 3 ==> RingTtl(hops, 0 + 1) == NET_DIAMETER;
  }

  /** Within the threshold each try reaches two hops further than the one before; the first beyond it, and
      all after that, reach across the net. */
  lemma RingSteps(hops: U8, tries: nat)
    ensures RingTtl(hops, 0) == (hops + 3) % 0x100
    ensures RingTtl(hops, tries + 1) == if hops + 3 + 2 * (tries + 1) <= 7 then RingTtl(hops, tries) + 2 else 35
  {
  }

  /** The rings of a search that starts next door: 3, 5, 7, and then the whole net. */
  function Ring(k: nat): U8 {
    if k <= 2 then 3 + 2 * k else 35
  }

  lemma OwnRings(k: nat)
    ensures RingTtl(0, k) == Ring(k)
  {
  }

  /** The waits start at 2.8 seconds and double, in 32 bits. */
  lemma WaitsDouble(k: nat)
    ensures BackoffTime(0) == 2800
    ensures BackoffTime(k + 1) == 2 * BackoffTime(k) % 0x1_0000_0000
  {
    assert Pow2(k + 1) == 2 * Pow2(k);
    var w := Pow2(k) * NET_TRAVERSAL_TIME;
    assert 2 * w % 0x1_0000_0000 == 2 * (w % 0x1_0000_0000) % 0x1_0000_0000;
  }

  /** A 32-bit word compared as a signed number. */
  function Signed(v: U32): int {
    if v < 0x8000_0000 then v else v - 0x1_0000_0000
  }

  function Increment(v: U32): U32 {
    if v == 0xFFFF_FFFF then 0 else v + 1
  }

  /** Counting up wraps at 32 bits; the signed value of a word is the one in range with the same remainder. */
  lemma WordsWrap(v: U32)
    ensures Increment(v) == (v + 1) % 0x1_0000_0000
    ensures -0x8000_0000 <= Signed(v) < 0x8000_0000 && Signed(v) % 0x1_0000_0000 == v
  {
  }
}
