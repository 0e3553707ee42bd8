/** The 32-bit numbers the passthrough puts on the wire between Rust and C.
    Access-unit ids and source epochs both count 1, 2, ..., 2^32-1, 1, ...:
    zero is skipped, because the C side reads it as "none". The proofs count
    with unbounded naturals and map them to 32 bits with `Wire`. */
module WireNumbers {

  const TWO_31: int := 0x8000_0000
  const TWO_32: int := 0x1_0000_0000

  /** How many distinct non-zero 32-bit numbers there are. */
  const CYCLE: int := 0xFFFF_FFFF

  type Byte = b: int | 0 <= b < 256

  type U32 = x: int | 0 <= x < TWO_32

  /** The 32-bit number of the n-th thing counted, counting from zero. */
  function Wire(n: nat): (w: U32)
    ensures w != 0
  {
    n % CYCLE + 1
  }

  /** `x.wrapping_add(1).max(1)`, and `if (++x == 0) x = 1`. */
  function NextWire(x: U32): (y: U32)
    ensures y != 0
  {
    var sum := (x + 1) % TWO_32;
    if sum < 1 then 1 else sum
  }

  /** `a.wrapping_sub(b)`. */
  function WrappingSub(a: U32, b: U32): (d: U32) {
    (a - b) % TWO_32
  }

  /** `(a.wrapping_sub(b) as i32) >= 0`. */
  predicate WireAtOrAfter(a: U32, b: U32) {
    WrappingSub(a, b) < TWO_31
  }

  lemma WireSuccessor(n: nat)
    ensures NextWire(Wire(n)) == Wire(n + 1)
  {
  }

  /** Two counts closer together than the cycle have different images. */
  lemma WireInjective(m: nat, n: nat)
    requires m - n < CYCLE && n - m < CYCLE
    ensures Wire(m) == Wire(n) <==> m == n
  {
  }

  /** Quotient and remainder are unique. */
  lemma ModIs(x: int, q: int, r: int)
    requires x == q * CYCLE + r && 0 <= r < CYCLE
    ensures x % CYCLE == r
  {
  }

  /** The wrapping distance between two counts d apart: the residue of d, one
      more when the way from m to m + d crosses the skipped zero. */
  lemma WireDistance(m: nat, d: int)
    requires m + d >= 0
    ensures var r := d % CYCLE;
            WrappingSub(Wire(m + d), Wire(m)) == if m % CYCLE + r < CYCLE then r else r + 1
  {
  }

  /** Within 2^31-2 either way, comparing the 32-bit ids is comparing the
      counts. Section 3.2 of RFC 1982 allows one step more, 2^31-1; it has no
      skipped zero. */
  lemma WireOrder(m: nat, n: nat)
    requires -(TWO_31 - 2) <= n - m <= TWO_31 - 2
    ensures WireAtOrAfter(Wire(n), Wire(m)) <==> m <= n
  {
    WireDistance(m, n - m);
  }

  /** Whether two counts d apart are ordered rightly whatever the first is. */
  ghost predicate OrderedAtDistance(d: int) {
    forall m: nat :: m + d >= 0 ==> (WireAtOrAfter(Wire(m + d), Wire(m)) <==> d >= 0)
  }

  /** Exactly the distances at which the comparison can be trusted: the ids
      repeat every 2^32-1, and going forward over the skipped zero costs one. */
  lemma WireOrderExact(d: int)
    ensures OrderedAtDistance(d) <==>
            if d >= 0 then d % CYCLE <= TWO_31 - 2 else 1 <= (-d) % CYCLE <= TWO_31 - 1
  {
    var r := d % CYCLE;
    assert d == d / CYCLE * CYCLE + r;
    if d < 0 {
      assert -d == -(d / CYCLE) * CYCLE - r;
      if r == 0 { ModIs(-d, -(d / CYCLE), 0); } else { ModIs(-d, -(d / CYCLE) - 1, CYCLE - r); }
    }
    // One start from which m + d does not cross the zero, one from which it does.
    var k: nat := if d < 0 then -d else 0;
    var low, high := k * CYCLE, k * CYCLE + (CYCLE - 1);
    ModIs(low, k, 0);
    ModIs(high, k, CYCLE - 1);
    assert low + d >= 0 by { assert k * CYCLE >= k; }
    WireDistance(low, d);
    WireDistance(high, d);
    forall m: nat | m + d >= 0
      ensures WrappingSub(Wire(m + d), Wire(m)) == if m % CYCLE + r < CYCLE then r else r + 1
    {
      WireDistance(m, d);
    }
    if OrderedAtDistance(d) {
      assert WireAtOrAfter(Wire(low + d), Wire(low)) <==> d >= 0;
      assert WireAtOrAfter(Wire(high + d), Wire(high)) <==> d >= 0;
    }
  }
}
