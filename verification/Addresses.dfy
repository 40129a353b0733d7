/** Unmapped source addresses and the shard they hash to (internal/autoblock/detect.go). */
module Addresses {
  /** The sixteen address bytes, read as one big-endian number. */
  type Addr = nat

  const SHARD_COUNT: nat := 256

  function Pow256(n: nat): (r: nat)
    ensures r > 0
  {
    if n == 0 then 1 else 256 * Pow256(n - 1)
  }

  function AddrByte(a: Addr, i: nat): bv32
    requires i < 16
  {
    ((a / Pow256(15 - i)) % 256) as bv32
  }

  function Mix(h: bv32, c: bv32): bv32 {
    (h ^ c) * 16777619
  }

  function Fold(h: bv32): (i: nat)
    ensures i < SHARD_COUNT
  {
    (h & 0xFF) as int
  }

  /** FNV-1a over the first `n` bytes. */
  function Fnv(a: Addr, n: nat): bv32
    requires n <= 16
  {
    if n == 0 then 2166136261 else Mix(Fnv(a, n - 1), AddrByte(a, n - 1))
  }

  function ShardOf(a: Addr): (i: nat)
    ensures i < SHARD_COUNT
  {
    Fold(Fnv(a, 16))
  }

  lemma {:induction false} SamePrefix(a: Addr, b: Addr, n: nat)
    requires n <= 16 && forall i :: 0 <= i < n ==> AddrByte(a, i) == AddrByte(b, i)
    ensures Fnv(a, n) == Fnv(b, n)
  {
    if n > 0 {
      SamePrefix(a, b, n - 1);
    }
  }

  lemma ByteFits(a: Addr)
    ensures AddrByte(a, 15) & 0xFF == AddrByte(a, 15)
  {
  }

  lemma FoldIsInjective(g: bv32, h: bv32)
    requires g & 0xFF != h & 0xFF
    ensures Fold(g) != Fold(h)
  {
  }

  /** The last byte decides the low byte of the hash: the factor is odd. */
  lemma MixSpreads(h: bv32, c: bv32, d: bv32)
    requires c != d && c & 0xFF == c && d & 0xFF == d
    ensures Mix(h, c) & 0xFF != Mix(h, d) & 0xFF
  {
  }

  /** Addresses that differ in their last byte alone, such as those of one /24,
      lie in different shards. */
  lemma NeighboursAreSpread(a: Addr, b: Addr)
    requires forall i :: 0 <= i < 15 ==> AddrByte(a, i) == AddrByte(b, i)
    requires AddrByte(a, 15) != AddrByte(b, 15)
    ensures ShardOf(a) != ShardOf(b)
  {
    SamePrefix(a, b, 15);
    ByteFits(a);
    ByteFits(b);
    MixSpreads(Fnv(a, 15), AddrByte(a, 15), AddrByte(b, 15));
    FoldIsInjective(Fnv(a, 16), Fnv(b, 16));
  }

  method ShardIndex(a: Addr) returns (i: nat)
    ensures i == ShardOf(a)
  {
    var h: bv32 := 2166136261;
    var n := 0;
    while n < 16
      invariant n <= 16 && h == Fnv(a, n)
    {
      h := Mix(h, AddrByte(a, n));
      n := n + 1;
    }
    i := Fold(h);
  }
}
