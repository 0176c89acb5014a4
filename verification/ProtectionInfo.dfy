/** T10 protection information: generating and checking it (block/t10-pi.c). */
module ProtectionInfo {
  import opened Seqs
  import opened Arith

  type Byte = bv8
  type Checksum = seq<Byte> -> nat

  datatype PiTuple = PiTuple(guard: nat, app: nat, ref: nat)

  const APP_ESCAPE: nat := 0xFFFF
  const REF_ESCAPE: nat := 0xFFFF_FFFF

  function Lower32(seed: nat): nat {
    seed % 0x1_0000_0000
  }

  function NextSeed(seed: nat): nat {
    (seed + 1) % U64
  }

  function SeedAfter(seed: nat, k: nat): nat
    decreases k
  {
    if k == 0 then seed else SeedAfter(NextSeed(seed), k - 1)
  }

  lemma TurnedOver(x: nat)
    ensures (U64 + x) % U64 == x % U64
  {
  }

  lemma {:induction false} SeedAfterIs(seed: nat, k: nat)
    requires seed < U64
    ensures SeedAfter(seed, k) == (seed + k) % U64
    decreases k
  {
    if k > 0 {
      SeedAfterIs(NextSeed(seed), k - 1);
      if seed + 1 == U64 {
        TurnedOver(k - 1);
      }
    }
  }

  lemma {:induction false} SeedAfterStep(seed: nat, k: nat)
    ensures SeedAfter(seed, k + 1) == NextSeed(SeedAfter(seed, k))
    decreases k
  {
    if k > 0 {
      SeedAfterStep(NextSeed(seed), k - 1);
    }
  }

  /** The data is a whole number of intervals. */
  ghost predicate Whole(data: seq<Byte>, interval: nat)
    decreases |data|
  {
    0 < interval && (data == [] || (interval <= |data| && Whole(data[interval..], interval)))
  }

  function Count(data: seq<Byte>, interval: nat): nat
    requires 0 < interval
    decreases |data|
  {
    if |data| < interval then 0 else 1 + Count(data[interval..], interval)
  }

  /** The bytes that a loop over `size` bytes by intervals looks at: the last interval is looked at as a whole. */
  function Span(size: nat, interval: nat): nat
    requires 0 < interval
    decreases size
  {
    if size == 0 then 0 else interval + Span(After(size, interval), interval)
  }

  /** What is left of `size` bytes after one interval. */
  function After(size: nat, interval: nat): nat {
    if size <= interval then 0 else size - interval
  }

  lemma {:induction false} SpanWhole(mem: seq<Byte>, size: nat, interval: nat)
    requires 0 < interval && Span(size, interval) <= |mem|
    ensures Whole(mem[..Span(size, interval)], interval)
    decreases size
  {
    if size != 0 {
      SpanWhole(mem[interval..], After(size, interval), interval);
      SpanNext(mem, size, interval);
    }
  }

  lemma SpanNext(mem: seq<Byte>, size: nat, interval: nat)
    requires 0 < interval && 0 < size && Span(size, interval) <= |mem|
    ensures interval <= |mem| && Span(After(size, interval), interval) <= |mem[interval..]|
    ensures mem[..Span(size, interval)][..interval] == mem[..interval]
    ensures mem[..Span(size, interval)][interval..] == mem[interval..][..Span(After(size, interval), interval)]
  {
  }

  lemma {:induction false} MultipleSpans(k: nat, interval: nat)
    requires 0 < interval
    ensures Span(k * interval, interval) == k * interval
    decreases k
  {
    if k > 0 {
      assert k * interval == (k - 1) * interval + interval;
      MultipleSpans(k - 1, interval);
      assert After(k * interval, interval) == (k - 1) * interval;
    }
  }

  lemma {:induction false} SpanIsMultiple(size: nat, interval: nat) returns (k: nat)
    requires 0 < interval
    ensures Span(size, interval) == k * interval && size <= Span(size, interval) < size + interval
    decreases size
  {
    k := 0;
    if size != 0 {
      k := SpanIsMultiple(After(size, interval), interval);
      k := k + 1;
    }
  }

  /** It looks at the bytes given and no others exactly when they are a whole number of intervals. */
  lemma SpanExactly(size: nat, interval: nat)
    requires 0 < interval
    ensures size <= Span(size, interval) < size + interval
    ensures Span(size, interval) == size <==> exists k: nat :: size == k * interval
  {
    var k := SpanIsMultiple(size, interval);
    if n: nat :| size == n * interval {
      MultipleSpans(n, interval);
    }
  }

  /** What `t10_pi_generate` writes for one interval. */
  function Protect(fn: Checksum, kind: nat, seed: nat, block: seq<Byte>): PiTuple {
    PiTuple(fn(block), 0, if kind == 1 then Lower32(seed) else 0)
  }

  function Escaped(kind: nat, t: PiTuple): bool {
    if kind == 1 || kind == 2 then t.app == APP_ESCAPE
    else kind == 3 && t.app == APP_ESCAPE && t.ref == REF_ESCAPE
  }

  /** What `t10_pi_verify` demands of one tuple. */
  function Accepts(fn: Checksum, kind: nat, seed: nat, block: seq<Byte>, t: PiTuple): bool {
    Escaped(kind, t) || ((kind == 1 || kind == 2 ==> t.ref == Lower32(seed)) && t.guard == fn(block))
  }

  /** Tuples for a whole buffer. */
  function Generate(fn: Checksum, kind: nat, interval: nat, seed: nat, data: seq<Byte>): seq<PiTuple>
    requires 0 < interval
    decreases |data|
  {
    if |data| < interval then []
    else [Protect(fn, kind, seed, data[..interval])] + Generate(fn, kind, interval, NextSeed(seed), data[interval..])
  }

  /** A whole buffer is accepted against its tuples. */
  function Verify(fn: Checksum, kind: nat, interval: nat, seed: nat, data: seq<Byte>, prot: seq<PiTuple>): bool
    requires 0 < interval
    decreases |data|
  {
    if |data| < interval then true
    else
      && prot != [] && Accepts(fn, kind, seed, data[..interval], prot[0])
      && Verify(fn, kind, interval, NextSeed(seed), data[interval..], prot[1..])
  }

  /** Block `k` of the data. */
  function Block(data: seq<Byte>, interval: nat, k: nat): seq<Byte>
    requires (k + 1) * interval <= |data|
  {
    data[k * interval..(k + 1) * interval]
  }

  lemma {:induction false} WholeCount(data: seq<Byte>, interval: nat)
    requires 0 < interval && Whole(data, interval)
    ensures |data| == Count(data, interval) * interval
    decreases |data|
  {
    if data != [] {
      WholeCount(data[interval..], interval);
      var c := Count(data[interval..], interval);
      assert (c + 1) * interval == c * interval + interval;
    }
  }

  /**
   * Verification accepts what generation wrote, for types 1 and 3, whatever the checksum. For type 2 it does
   * so only if there is nothing to check, or one interval whose reference tag happens to be zero.
   */
  lemma {:induction false} RoundTrip(fn: Checksum, kind: nat, interval: nat, seed: nat, data: seq<Byte>)
    requires 0 < interval
    ensures Verify(fn, kind, interval, seed, data, Generate(fn, kind, interval, seed, data)) <==>
      kind != 2 || AllZeroRefs(seed, Count(data, interval))
    decreases |data|
  {
    if interval <= |data| {
      var g := Generate(fn, kind, interval, seed, data);
      assert g[1..] == Generate(fn, kind, interval, NextSeed(seed), data[interval..]);
      RoundTrip(fn, kind, interval, NextSeed(seed), data[interval..]);
    }
  }

  /** The reference tags of `n` intervals from `seed` on are all zero. */
  predicate AllZeroRefs(seed: nat, n: nat)
    decreases n
  {
    n == 0 || (Lower32(seed) == 0 && AllZeroRefs(NextSeed(seed), n - 1))
  }

  lemma ZeroRefsExactly(seed: nat, n: nat)
    requires seed < U64
    ensures AllZeroRefs(seed, n) <==> n == 0 || (n == 1 && Lower32(seed) == 0)
  {
    if 2 <= n && Lower32(seed) == 0 {
      assert Lower32(NextSeed(seed)) == 1;
    }
  }

  /** A buffer is accepted exactly when every tuple is escaped or has the right guard and reference tag. */
  lemma {:induction false} VerifyMeans(fn: Checksum, kind: nat, interval: nat, seed: nat, data: seq<Byte>,
      prot: seq<PiTuple>)
    requires 0 < interval && Whole(data, interval) && |prot| == Count(data, interval)
    ensures |data| == Count(data, interval) * interval
    ensures Verify(fn, kind, interval, seed, data, prot) <==>
      forall k :: 0 <= k < |prot| ==> TupleFits(fn, kind, interval, seed, data, prot, k)
    decreases |data|
  {
    WholeCount(data, interval);
    if data != [] {
      var rest, next := data[interval..], NextSeed(seed);
      VerifyMeans(fn, kind, interval, next, rest, prot[1..]);
      assert TupleFits(fn, kind, interval, seed, data, prot, 0) ==
             Accepts(fn, kind, seed, data[..interval], prot[0]) by {
        BlockFits(data, interval, 0);
        assert data[0..interval] == data[..interval];
      }
      forall k | 0 < k < |prot|
        ensures TupleFits(fn, kind, interval, seed, data, prot, k) ==
                TupleFits(fn, kind, interval, next, rest, prot[1..], k - 1)
      {
        BlockFits(data, interval, k);
        BlockTail(data, interval, k);
      }
      assert forall k :: 0 <= k < |prot[1..]| ==>
        (TupleFits(fn, kind, interval, next, rest, prot[1..], k) ==
         TupleFits(fn, kind, interval, seed, data, prot, k + 1));
    }
  }

  ghost predicate TupleFits(fn: Checksum, kind: nat, interval: nat, seed: nat, data: seq<Byte>, prot: seq<PiTuple>,
      k: nat) {
    && k < |prot| && (k + 1) * interval <= |data|
    && Accepts(fn, kind, SeedAfter(seed, k), Block(data, interval, k), prot[k])
  }

  lemma BlockFits(data: seq<Byte>, interval: nat, k: nat)
    requires 0 < interval && |data| == Count(data, interval) * interval && k < Count(data, interval)
    ensures (k + 1) * interval <= |data| && k * interval + interval == (k + 1) * interval
  {
    var c := Count(data, interval);
    assert (c - k - 1) * interval >= 0;
    assert c * interval == (k + 1) * interval + (c - k - 1) * interval;
  }

  lemma BlockTail(data: seq<Byte>, interval: nat, k: nat)
    requires 0 < k && 0 < interval && (k + 1) * interval <= |data|
    ensures interval <= |data| && k * interval == (k - 1) * interval + interval && k * interval <= |data[interval..]|
    ensures Block(data[interval..], interval, k - 1) == Block(data, interval, k)
  {
    assert (k + 1) * interval == k * interval + interval;
    assert k * interval == (k - 1) * interval + interval;
    assert 0 <= (k - 1) * interval;
  }

  // Segments

  function Join(segs: seq<seq<Byte>>): seq<Byte> {
    if segs == [] then [] else segs[0] + Join(segs[1..])
  }

  lemma {:induction false} GenerateSplits(fn: Checksum, kind: nat, interval: nat, seed: nat, a: seq<Byte>, b: seq<Byte>)
    requires Whole(a, interval)
    ensures Generate(fn, kind, interval, seed, a + b) ==
      Generate(fn, kind, interval, seed, a) + Generate(fn, kind, interval, SeedAfter(seed, Count(a, interval)), b)
    decreases |a|
  {
    if a == [] {
      assert a + b == b;
    } else {
      assert (a + b)[..interval] == a[..interval] && (a + b)[interval..] == a[interval..] + b;
      GenerateSplits(fn, kind, interval, NextSeed(seed), a[interval..], b);
      Assoc([Protect(fn, kind, seed, a[..interval])], Generate(fn, kind, interval, NextSeed(seed), a[interval..]),
            Generate(fn, kind, interval, SeedAfter(seed, Count(a, interval)), b));
    }
  }

  lemma {:induction false} VerifySplits(fn: Checksum, kind: nat, interval: nat, seed: nat, a: seq<Byte>, b: seq<Byte>,
      prot: seq<PiTuple>)
    requires Whole(a, interval) && Count(a, interval) <= |prot|
    ensures Verify(fn, kind, interval, seed, a + b, prot) <==>
      && Verify(fn, kind, interval, seed, a, prot)
      && Verify(fn, kind, interval, SeedAfter(seed, Count(a, interval)), b, prot[Count(a, interval)..])
    decreases |a|
  {
    if a == [] {
      assert a + b == b;
      assert prot[0..] == prot;
    } else {
      assert (a + b)[..interval] == a[..interval] && (a + b)[interval..] == a[interval..] + b;
      VerifySplits(fn, kind, interval, NextSeed(seed), a[interval..], b, prot[1..]);
      assert prot[1..][Count(a[interval..], interval)..] == prot[Count(a, interval)..];
    }
  }
}
