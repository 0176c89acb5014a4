/** `struct blk_integrity_iter` and its drivers, writing and reading tuples in place. */
module IntegrityIter {
  import opened Seqs
  import opened ProtectionInfo

  class Iter {
    const fn: Checksum
    const interval: nat
    const prot: array<PiTuple>
    var at: nat // how far prot_buf has advanced
    var seed: nat
    var data: seq<Byte> // memory from data_buf on
    var dataSize: nat

    constructor (fn: Checksum, interval: nat, prot: array<PiTuple>, seed: nat)
      ensures this.fn == fn && this.interval == interval && this.prot == prot && this.seed == seed && at == 0
    {
      this.fn, this.interval, this.prot, this.seed := fn, interval, prot, seed;
      at, data, dataSize := 0, [], 0;
    }

    /** What the loop over the current data looks at is there, and so are its tuples. */
    ghost predicate Fits()
      reads this
    {
      && 0 < interval && Span(dataSize, interval) <= |data|
      && at + Count(data[..Span(dataSize, interval)], interval) <= prot.Length
    }

    /** `t10_pi_generate` over the current data. */
    method T10Generate(kind: nat)
      requires Fits()
      modifies this`at, this`seed, this`data, prot
      ensures var covered := old(data)[..Span(dataSize, interval)];
        && at == old(at) + Count(covered, interval) && seed == SeedAfter(old(seed), Count(covered, interval))
        && |Generate(fn, kind, interval, old(seed), covered)| == Count(covered, interval)
        && prot[..] == Patch(old(prot[..]), old(at), Generate(fn, kind, interval, old(seed), covered))
    {
      ghost var covered := data[..Span(dataSize, interval)];
      ghost var written: seq<PiTuple>, rest, was := [], covered, prot[..];
      AheadAtFirst(data, dataSize, interval);
      GenerateLength(fn, kind, interval, seed, covered);
      var i := 0;
      while i < dataSize
        invariant 0 < interval && Ahead(data, Left(dataSize, i), interval, rest) && at == old(at) + |written|
        invariant Progress(fn, kind, interval, old(seed), covered, written, seed, rest)
        invariant prot[..] == Patch(was, old(at), written)
      {
        ProgressOn(fn, kind, interval, old(seed), covered, written, seed, rest);
        written, rest := written + [Protect(fn, kind, seed, rest[..interval])], rest[interval..];
        GenerateOne(kind, was, old(at), written);
        i := i + interval;
      }
    }

    /** One interval; `written` are the tuples up to and with it. */
    method GenerateOne(kind: nat, ghost was: seq<PiTuple>, ghost from: nat, ghost written: seq<PiTuple>)
      requires 0 < interval <= |data| && |was| == prot.Length && at + 1 == from + |written| <= prot.Length
      requires written != []
      requires written[|written| - 1] == Protect(fn, kind, seed, data[..interval])
      requires prot[..] == Patch(was, from, written[..|written| - 1])
      modifies this`at, this`seed, this`data, prot
      ensures at == old(at) + 1 && seed == NextSeed(old(seed)) && data == old(data)[interval..]
      ensures prot[..] == Patch(was, from, written)
    {
      var t := PiTuple(fn(data[..interval]), 0, if kind == 1 then Lower32(seed) else 0);
      PatchNext(was, from, written[..|written| - 1], t);
      assert written[..|written| - 1] + [t] == written;
      Store(t);
      data := data[interval..];
      at := at + 1;
      seed := NextSeed(seed);
    }

    method Store(t: PiTuple)
      requires at < prot.Length
      modifies prot
      ensures prot[..] == old(prot[..])[at := t]
    {
      prot[at] := t;
    }

    /** `t10_pi_verify` over the current data; false stands for -EILSEQ. */
    method T10Verify(kind: nat) returns (ok: bool)
      requires Fits()
      modifies this`at, this`seed, this`data
      ensures var covered := old(data)[..Span(dataSize, interval)];
        && ok == Verify(fn, kind, interval, old(seed), covered, prot[..][old(at)..])
        && (ok ==> at == old(at) + Count(covered, interval) && seed == SeedAfter(old(seed), Count(covered, interval)))
    {
      ghost var covered := data[..Span(dataSize, interval)];
      ghost var n, tuples, rest := Count(covered, interval), prot[..], covered;
      AheadAtFirst(data, dataSize, interval);
      var i := 0;
      while i < dataSize
        invariant 0 < interval && Ahead(data, Left(dataSize, i), interval, rest) && old(at) <= at
        invariant at + Count(rest, interval) == old(at) + n
        invariant seed == SeedAfter(old(seed), at - old(at))
        invariant Verify(fn, kind, interval, old(seed), covered, tuples[old(at)..]) ==
                  Verify(fn, kind, interval, seed, rest, tuples[at..])
      {
        SeedAfterStep(old(seed), at - old(at));
        assert tuples[at..][1..] == tuples[at + 1..];
        ok := VerifyOne(kind);
        if !ok {
          return;
        }
        rest := rest[interval..];
        data := data[interval..];
        at := at + 1;
        seed := NextSeed(seed);
        i := i + interval;
      }
      ok := true;
    }

    /** One interval against the tuple at the cursor. */
    method VerifyOne(kind: nat) returns (ok: bool)
      requires 0 < interval <= |data| && at < prot.Length
      ensures ok == Accepts(fn, kind, seed, data[..interval], prot[at])
    {
      var t := prot[at];
      var skip := false;
      if kind == 1 || kind == 2 {
        if t.app == APP_ESCAPE {
          skip := true;
        } else if t.ref != Lower32(seed) {
          return false;
        }
      } else if kind == 3 {
        skip := t.app == APP_ESCAPE && t.ref == REF_ESCAPE;
      }
      ok := skip || t.guard == fn(data[..interval]);
    }

    /** `bio_integrity_process` with a generate function: segment by segment as if what they cover were whole. */
    method ProcessGenerate(kind: nat, segs: seq<Seg>)
      requires 0 < interval && AllMapped(segs, interval) && at + Count(Covered(segs, interval), interval) <= prot.Length
      modifies this`at, this`seed, this`data, this`dataSize, prot
      ensures var covered := Covered(segs, interval);
        && at == old(at) + Count(covered, interval)
        && |Generate(fn, kind, interval, old(seed), covered)| == Count(covered, interval)
        && prot[..] == Patch(old(prot[..]), old(at), Generate(fn, kind, interval, old(seed), covered))
    {
      ghost var total, was := Covered(segs, interval), prot[..];
      ghost var written: seq<PiTuple> := [];
      GenerateLength(fn, kind, interval, seed, total);
      assert segs[0..] == segs;
      for i := 0 to |segs|
        invariant at == old(at) + |written|
        invariant at + Count(Covered(segs[i..], interval), interval) == old(at) + Count(total, interval)
        invariant written + Generate(fn, kind, interval, seed, Covered(segs[i..], interval)) ==
                  Generate(fn, kind, interval, old(seed), total)
        invariant prot[..] == Patch(was, old(at), written)
      {
        ghost var part := Generate(fn, kind, interval, seed, segs[i].Covers(interval));
        NextSegment(fn, kind, interval, seed, segs, i, written);
        NextData(kind, segs[i], was, old(at), written);
        written := written + part;
      }
    }

    method NextData(kind: nat, seg: Seg, ghost was: seq<PiTuple>, ghost from: nat, ghost written: seq<PiTuple>)
      requires 0 < interval && seg.Mapped(interval) && at + Count(seg.Covers(interval), interval) <= prot.Length
      requires |was| == prot.Length && at == from + |written| && prot[..] == Patch(was, from, written)
      modifies this`at, this`seed, this`data, this`dataSize, prot
      ensures var covered := seg.Covers(interval);
        && at == old(at) + Count(covered, interval) && seed == SeedAfter(old(seed), Count(covered, interval))
        && |Generate(fn, kind, interval, old(seed), covered)| == Count(covered, interval)
        && prot[..] == Patch(was, from, written + Generate(fn, kind, interval, old(seed), covered))
    {
      data, dataSize := seg.mem, seg.size;
      T10Generate(kind);
      PatchTwice(was, from, written, Generate(fn, kind, interval, old(seed), seg.Covers(interval)));
    }

    /** `bio_integrity_process` with a verify function: it stops at the first segment that is refused. */
    method ProcessVerify(kind: nat, segs: seq<Seg>) returns (ok: bool)
      requires 0 < interval && AllMapped(segs, interval) && at + Count(Covered(segs, interval), interval) <= prot.Length
      modifies this`at, this`seed, this`data, this`dataSize
      ensures ok == Verify(fn, kind, interval, old(seed), Covered(segs, interval), prot[..][old(at)..])
    {
      ghost var tuples, total := prot[..], at + Count(Covered(segs, interval), interval);
      ghost var goal := Verify(fn, kind, interval, seed, Covered(segs, interval), tuples[at..]);
      assert segs[0..] == segs;
      for i := 0 to |segs|
        invariant at + Count(Covered(segs[i..], interval), interval) == total
        invariant Verify(fn, kind, interval, seed, Covered(segs[i..], interval), tuples[at..]) == goal
      {
        NextVerified(fn, kind, interval, seed, segs, i, tuples, at);
        ok := VerifyNext(kind, segs[i]);
        if !ok {
          return;
        }
      }
      ok := true;
    }

    method VerifyNext(kind: nat, seg: Seg) returns (ok: bool)
      requires 0 < interval && seg.Mapped(interval) && at + Count(seg.Covers(interval), interval) <= prot.Length
      modifies this`at, this`seed, this`data, this`dataSize
      ensures var covered := seg.Covers(interval);
        && ok == Verify(fn, kind, interval, old(seed), covered, prot[..][old(at)..])
        && (ok ==> at == old(at) + Count(covered, interval) && seed == SeedAfter(old(seed), Count(covered, interval)))
    {
      data, dataSize := seg.mem, seg.size;
      ok := T10Verify(kind);
    }
  }

  /** The tuples written so far and those of the rest are those of the whole. */
  ghost predicate Progress(fn: Checksum, kind: nat, interval: nat, seed0: nat, covered: seq<Byte>,
      written: seq<PiTuple>, seed: nat, rest: seq<Byte>)
    requires 0 < interval
  {
    && seed == SeedAfter(seed0, |written|) && |written| + Count(rest, interval) == Count(covered, interval)
    && written + Generate(fn, kind, interval, seed, rest) == Generate(fn, kind, interval, seed0, covered)
  }

  lemma {:induction false} ProgressOn(fn: Checksum, kind: nat, interval: nat, seed0: nat, covered: seq<Byte>,
      written: seq<PiTuple>, seed: nat, rest: seq<Byte>)
    requires 0 < interval <= |rest| && Progress(fn, kind, interval, seed0, covered, written, seed, rest)
    ensures |written| < Count(covered, interval)
    ensures Progress(fn, kind, interval, seed0, covered, written + [Protect(fn, kind, seed, rest[..interval])],
                     NextSeed(seed), rest[interval..])
  {
    SeedAfterStep(seed0, |written|);
    Assoc(written, [Protect(fn, kind, seed, rest[..interval])],
          Generate(fn, kind, interval, NextSeed(seed), rest[interval..]));
  }

  /** A segment: the memory it starts and how many bytes of it are the bio's. */
  datatype Seg = Seg(mem: seq<Byte>, size: nat) {
    ghost predicate Mapped(interval: nat)
      requires 0 < interval
    {
      Span(size, interval) <= |mem|
    }

    /** The bytes the loops look at. */
    function Covers(interval: nat): seq<Byte>
      requires 0 < interval && Mapped(interval)
    {
      mem[..Span(size, interval)]
    }
  }

  ghost predicate AllMapped(segs: seq<Seg>, interval: nat)
    requires 0 < interval
  {
    forall i :: 0 <= i < |segs| ==> segs[i].Mapped(interval)
  }

  function Covered(segs: seq<Seg>, interval: nat): seq<Byte>
    requires 0 < interval && AllMapped(segs, interval)
  {
    if segs == [] then [] else segs[0].Covers(interval) + Covered(segs[1..], interval)
  }

  /** Segments of whole intervals are covered as the bytes they hold. */
  lemma {:induction false} WholeSegments(segs: seq<Seg>, interval: nat, bytes: seq<seq<Byte>>)
    requires 0 < interval && AllMapped(segs, interval) && |bytes| == |segs|
    requires forall i :: 0 <= i < |segs| ==>
      && segs[i].size <= |segs[i].mem| && bytes[i] == segs[i].mem[..segs[i].size]
      && exists k: nat :: segs[i].size == k * interval
    ensures Covered(segs, interval) == Join(bytes)
    decreases |segs|
  {
    if segs != [] {
      SpanExactly(segs[0].size, interval);
      WholeSegments(segs[1..], interval, bytes[1..]);
    }
  }

  /** `rest` is what a loop over `left` more bytes from here on looks at. */
  ghost predicate Ahead(data: seq<Byte>, left: nat, interval: nat, rest: seq<Byte>)
    requires 0 < interval
    decreases left
  {
    if left == 0 then rest == []
    else
      && interval <= |rest| && interval <= |data| && rest[..interval] == data[..interval]
      && Ahead(data[interval..], After(left, interval), interval, rest[interval..])
  }

  lemma {:induction false} AheadAtFirst(data: seq<Byte>, size: nat, interval: nat)
    requires 0 < interval && Span(size, interval) <= |data|
    ensures Ahead(data, size, interval, data[..Span(size, interval)])
    decreases size
  {
    if size != 0 {
      AheadAtFirst(data[interval..], After(size, interval), interval);
      SpanNext(data, size, interval);
    }
  }

  function Left(size: nat, i: nat): nat {
    if i < size then size - i else 0
  }

  /** `s` with `w` written over it at `k`. */
  ghost function Patch(s: seq<PiTuple>, k: nat, w: seq<PiTuple>): (r: seq<PiTuple>)
    requires k + |w| <= |s|
    ensures |r| == |s|
  {
    s[..k] + w + s[k + |w|..]
  }

  lemma PatchNext(s: seq<PiTuple>, k: nat, w: seq<PiTuple>, t: PiTuple)
    requires k + |w| < |s|
    ensures Patch(s, k, w)[k + |w| := t] == Patch(s, k, w + [t])
  {
  }

  lemma PatchTwice(s: seq<PiTuple>, k: nat, a: seq<PiTuple>, b: seq<PiTuple>)
    requires k + |a| + |b| <= |s|
    ensures Patch(Patch(s, k, a), k + |a|, b) == Patch(s, k, a + b)
  {
  }

  lemma {:induction false} NextSegment(fn: Checksum, kind: nat, interval: nat, seed: nat, segs: seq<Seg>, i: nat,
      written: seq<PiTuple>)
    requires 0 < interval && AllMapped(segs, interval) && i < |segs|
    ensures var here, later := segs[i].Covers(interval), Covered(segs[i + 1..], interval);
      && |Generate(fn, kind, interval, seed, here)| == Count(here, interval)
      && written + Generate(fn, kind, interval, seed, Covered(segs[i..], interval)) ==
         written + Generate(fn, kind, interval, seed, here) +
         Generate(fn, kind, interval, SeedAfter(seed, Count(here, interval)), later)
      && Count(Covered(segs[i..], interval), interval) == Count(here, interval) + Count(later, interval)
  {
    var here, later := segs[i].Covers(interval), Covered(segs[i + 1..], interval);
    assert segs[i..][1..] == segs[i + 1..];
    SpanWhole(segs[i].mem, segs[i].size, interval);
    GenerateLength(fn, kind, interval, seed, here);
    GenerateSplits(fn, kind, interval, seed, here, later);
    CountSplits(here, later, interval);
    Assoc(written, Generate(fn, kind, interval, seed, here),
          Generate(fn, kind, interval, SeedAfter(seed, Count(here, interval)), later));
  }

  lemma {:induction false} NextVerified(fn: Checksum, kind: nat, interval: nat, seed: nat, segs: seq<Seg>, i: nat,
      tuples: seq<PiTuple>, at: nat)
    requires 0 < interval && AllMapped(segs, interval) && i < |segs|
    requires at + Count(Covered(segs[i..], interval), interval) <= |tuples|
    ensures var here, later := segs[i].Covers(interval), Covered(segs[i + 1..], interval);
      && Count(Covered(segs[i..], interval), interval) == Count(here, interval) + Count(later, interval)
      && (Verify(fn, kind, interval, seed, Covered(segs[i..], interval), tuples[at..]) <==>
          Verify(fn, kind, interval, seed, here, tuples[at..]) &&
          Verify(fn, kind, interval, SeedAfter(seed, Count(here, interval)), later,
                 tuples[at + Count(here, interval)..]))
  {
    var here, later := segs[i].Covers(interval), Covered(segs[i + 1..], interval);
    assert segs[i..][1..] == segs[i + 1..];
    SpanWhole(segs[i].mem, segs[i].size, interval);
    CountSplits(here, later, interval);
    VerifySplits(fn, kind, interval, seed, here, later, tuples[at..]);
    assert tuples[at..][Count(here, interval)..] == tuples[at + Count(here, interval)..];
  }

  lemma {:induction false} GenerateLength(fn: Checksum, kind: nat, interval: nat, seed: nat, data: seq<Byte>)
    requires 0 < interval
    ensures |Generate(fn, kind, interval, seed, data)| == Count(data, interval)
    decreases |data|
  {
    if interval <= |data| {
      GenerateLength(fn, kind, interval, NextSeed(seed), data[interval..]);
    }
  }

  lemma {:induction false} CountSplits(a: seq<Byte>, b: seq<Byte>, interval: nat)
    requires Whole(a, interval)
    ensures Count(a + b, interval) == Count(a, interval) + Count(b, interval)
    decreases |a|
  {
    if a == [] {
      assert a + b == b;
    } else {
      assert (a + b)[interval..] == a[interval..] + b;
      CountSplits(a[interval..], b, interval);
    }
  }
}
