/** The core-file writing helpers of fs/coredump.c. */
module CoreFile {
  import opened Arith

  type Byte = bv8

  const PAGE_SIZE: nat := 4096

  function Zeros(n: nat): (z: seq<Byte>)
    ensures |z| == n
  {
    seq(n, _ => 0 as Byte)
  }

  lemma ZerosAdd(a: nat, b: nat)
    ensures Zeros(a) + Zeros(b) == Zeros(a + b)
  {
  }

  predicate IsPow2(n: nat) {
    n == 1 || (n > 1 && n % 2 == 0 && IsPow2(n / 2))
  }

  /** Bytes up to the next multiple of `align`. */
  function Padding(at: nat, align: nat): (n: nat)
    requires 0 < align
    ensures n < align
  {
    if at % align == 0 then 0 else align - at % align
  }

  /**
   * `struct coredump_params` with its file. `content` is what reading the file back up to the file position
   * gives, a skipped stretch reading as zeros. `takes(k)` is how many bytes the k-th write accepts; none means an
   * error, an interruption, or a seek that fails.
   */
  class Core {
    const limit: nat
    const canSeek: bool
    const takes: nat -> nat
    var written: nat
    var pos: nat
    var content: seq<Byte>
    var writes: nat

    ghost predicate Valid()
      reads this
    {
      written == pos == |content| <= limit
    }

    /** No write or seek from the w-th to before the next one has failed. */
    ghost predicate Clean(w: nat)
      reads this
    {
      forall k :: w <= k < writes ==> 0 < takes(k)
    }

    /**
     * An attempt that began at the w-th write to make the file `size` long: it succeeds unless a write or the limit
     * stops it.
     */
    ghost predicate Ends(ok: bool, w: nat, size: nat)
      reads this
    {
      w <= writes && (ok <==> size <= limit && Clean(w))
    }

    constructor (limit: nat, canSeek: bool, takes: nat -> nat)
      ensures Valid() && content == [] && writes == 0
      ensures this.limit == limit && this.canSeek == canSeek && this.takes == takes
    {
      this.limit, this.canSeek, this.takes := limit, canSeek, takes;
      written, pos, content, writes := 0, 0, [], 0;
    }

    /** `dump_emit`: all of the bytes, in as many writes as it takes, or a failure that leaves a front part. */
    method DumpEmit(bytes: seq<Byte>) returns (ok: bool)
      requires Valid()
      modifies this
      ensures Valid() && old(content) <= content
      ensures Ends(ok, old(writes), |old(content)| + |bytes|)
      ensures ok ==> content == old(content) + bytes
      ensures !ok ==> content <= old(content) + bytes
    {
      if written + |bytes| > limit {
        assert old(content) <= old(content) + bytes;
        return false;
      }
      var left := bytes;
      while left != []
        invariant Valid() && content + left == old(content) + bytes && old(content) <= content
        invariant old(writes) <= writes && Clean(old(writes)) && |old(content)| + |bytes| <= limit
        decreases |left|
      {
        var n := takes(writes);
        writes := writes + 1;
        if n == 0 {
          assert content <= content + left;
          assert takes(writes - 1) == 0;
          return false;
        }
        if n > |left| {
          n := |left|;
        }
        assert content + left == (content + left[..n]) + left[n..];
        content := content + left[..n];
        pos := pos + n;
        written := written + n;
        left := left[n..];
      }
      ok := true;
    }

    /** `dump_skip`: by seeking, or by writing pages of zeros; the file reads the same. */
    method DumpSkip(nr: nat) returns (ok: bool)
      requires Valid()
      modifies this
      ensures Valid() && old(content) <= content
      ensures Ends(ok, old(writes), |old(content)| + nr)
      ensures ok ==> content == old(content) + Zeros(nr)
    {
      if canSeek {
        if written + nr > limit {
          return false;
        }
        var n := takes(writes);
        writes := writes + 1;
        if n == 0 {
          assert takes(writes - 1) == 0;
          return false;
        }
        content := content + Zeros(nr);
        pos := pos + nr;
        written := written + nr;
        return true;
      }
      var left: nat := nr;
      assert Zeros(0) == [];
      while left > PAGE_SIZE
        invariant Valid() && left <= nr && content == old(content) + Zeros(nr - left)
        invariant old(writes) <= writes && Clean(old(writes))
        decreases left
      {
        var res := DumpEmit(Zeros(PAGE_SIZE));
        if !res {
          return false;
        }
        ZerosAdd(nr - left, PAGE_SIZE);
        left := left - PAGE_SIZE;
      }
      ok := DumpEmit(Zeros(left));
      ZerosAdd(nr - left, left);
    }

    /** `dump_align`: refused unless the alignment is a power of two. */
    method DumpAlign(align: nat) returns (ok: bool)
      requires Valid() && 0 < align
      modifies this
      ensures Valid() && old(content) <= content
      ensures IsPow2(align) ==> Ends(ok, old(writes), |old(content)| + Padding(|old(content)|, align))
      ensures !IsPow2(align) ==> !ok && content == old(content)
      ensures ok ==> content == old(content) + Zeros(Padding(|old(content)|, align)) && |content| % align == 0
    {
      if !IsPow2(align) {
        return false;
      }
      var mod := written % align;
      if mod == 0 {
        assert Zeros(0) == [];
        return true;
      }
      ok := DumpSkip(align - mod);
      PadAligns(old(written), align);
    }
  }

  lemma PadAligns(at: nat, align: nat)
    requires 0 < align
    ensures (at + Padding(at, align)) % align == 0
  {
    if at % align != 0 {
      var q := at / align;
      assert (q + 1) * align == q * align + align;
      DivModUnique(at + Padding(at, align), align, q + 1, 0);
    }
  }
}
