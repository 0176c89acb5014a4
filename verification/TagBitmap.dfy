/** How the tags of block/blk-mq-tag.c lie in the words of a bitmap. */
module TagLayout {
  import opened Arith

  const BITS_PER_LONG: nat := 64

  /** `1 << bits`. */
  function Pow2(bits: nat): (p: nat)
    ensures 0 < p
  {
    if bits == 0 then 1 else 2 * Pow2(bits - 1)
  }

  /** Tags in word `i` when `depth` tags are laid out `perWord` at a time. */
  function WordDepth(depth: nat, perWord: nat, i: nat): nat {
    if depth <= i * perWord then 0 else if depth - i * perWord < perWord then depth - i * perWord else perWord
  }

  /** `ALIGN(depth, perWord) / perWord`. */
  function WordCount(depth: nat, perWord: nat): nat
    requires 0 < perWord
  {
    (depth + perWord - 1) / perWord
  }

  function IndexOf(tag: nat, perWord: nat): nat
    requires 0 < perWord
  {
    tag / perWord
  }

  function TagOf(index: nat, bit: nat, perWord: nat): nat {
    index * perWord + bit
  }

  lemma Ceiling(depth: nat, n: nat)
    requires 0 < n
    ensures (WordCount(depth, n) - 1) * n < depth <= WordCount(depth, n) * n || (depth == 0 && WordCount(depth, n) == 0)
  {
    var x := depth + n - 1;
    var q := x / n;
    assert x == q * n + x % n;
    assert (q - 1) * n == q * n - n;
    if depth == 0 {
      DivModUnique(x, n, 0, n - 1);
    }
  }

  /** Tag to word and bit is a bijection between the tags and the bits in use. */
  lemma TagPlace(depth: nat, n: nat, tag: nat)
    requires 0 < n && tag < depth
    ensures IndexOf(tag, n) < WordCount(depth, n) && Wrap(tag, n) < WordDepth(depth, n, IndexOf(tag, n))
    ensures TagOf(IndexOf(tag, n), Wrap(tag, n), n) == tag
  {
    var i, c := IndexOf(tag, n), WordCount(depth, n);
    assert tag == i * n + Wrap(tag, n);
    Ceiling(depth, n);
    Below(i, c, n, tag);
  }

  lemma Below(i: nat, c: nat, n: nat, tag: nat)
    requires i * n <= tag < c * n
    ensures i < c
  {
    assert i >= c ==> (i - c) * n >= 0 && i * n == (i - c) * n + c * n;
  }

  lemma PlaceTag(depth: nat, n: nat, i: nat, b: nat)
    requires 0 < n && b < WordDepth(depth, n, i)
    ensures TagOf(i, b, n) < depth && IndexOf(TagOf(i, b, n), n) == i && Wrap(TagOf(i, b, n), n) == b
  {
    DivModUnique(i * n + b, n, i, b);
  }

  function SumDepths(depth: nat, n: nat, k: nat): nat {
    if k == 0 then 0 else SumDepths(depth, n, k - 1) + WordDepth(depth, n, k - 1)
  }

  lemma {:induction false} SumDepthsTo(depth: nat, n: nat, k: nat)
    requires 0 < n
    ensures SumDepths(depth, n, k) == if k * n < depth then k * n else depth
  {
    if k > 0 {
      SumDepthsTo(depth, n, k - 1);
      assert (k - 1) * n == k * n - n;
    }
  }

  /** The words hold exactly `depth` tags between them. */
  lemma DepthsSum(depth: nat, n: nat)
    requires 0 < n
    ensures SumDepths(depth, n, WordCount(depth, n)) == depth
  {
    SumDepthsTo(depth, n, WordCount(depth, n));
    Ceiling(depth, n);
  }

  // Bits of a word

  datatype Word = Word(depth: nat, bits: seq<bool>)

  /** `find_next_zero_bit`: the first clear bit from `from` on and below `end`, or `end`. */
  function NextZero(bits: seq<bool>, end: nat, from: nat): (k: nat)
    requires end <= |bits|
    ensures k <= end && (from <= k || k == end)
    ensures k < end ==> !bits[k]
    ensures forall j :: from <= j < k ==> bits[j]
    decreases end - from
  {
    if end <= from then end else if !bits[from] then from else NextZero(bits, end, from + 1)
  }

  /** `bitmap_weight`. */
  function Weight(bits: seq<bool>, end: nat): nat
    requires end <= |bits|
  {
    if end == 0 then 0 else Weight(bits, end - 1) + (if bits[end - 1] then 1 else 0)
  }

  /** A whole bitmap: `depth` tags in words of `perWord`. */
  datatype Map = Map(depth: nat, perWord: nat, words: seq<Word>) {
    ghost predicate Valid() {
      && 0 < perWord <= BITS_PER_LONG && |words| == WordCount(depth, perWord)
      && forall i :: 0 <= i < |words| ==>
          words[i].depth == WordDepth(depth, perWord, i) && |words[i].bits| == BITS_PER_LONG
    }

    ghost predicate Busy(tag: nat)
      requires Valid() && tag < depth
    {
      TagPlace(depth, perWord, tag);
      words[IndexOf(tag, perWord)].bits[Wrap(tag, perWord)]
    }

    /** The tags handed out. */
    ghost function BusySet(): set<nat>
      requires Valid()
    {
      set t | 0 <= t < depth && Busy(t)
    }

    ghost predicate AllBusy()
      requires Valid()
    {
      forall t: nat :: t < depth ==> Busy(t)
    }
  }

  function SetBit(m: Map, i: nat, b: nat, v: bool): Map
    requires i < |m.words| && b < |m.words[i].bits|
  {
    m.(words := m.words[i := m.words[i].(bits := m.words[i].bits[b := v])])
  }

  /** Changing one bit changes whether one tag is busy. */
  lemma SetBitBusy(m: Map, i: nat, b: nat, v: bool)
    requires m.Valid() && i < |m.words| && b < m.words[i].depth
    ensures b < |m.words[i].bits| && SetBit(m, i, b, v).Valid()
    ensures var t := TagOf(i, b, m.perWord);
      && t < m.depth
      && SetBit(m, i, b, v).BusySet() == if v then m.BusySet() + {t} else m.BusySet() - {t}
  {
    var m', t := SetBit(m, i, b, v), TagOf(i, b, m.perWord);
    PlaceTag(m.depth, m.perWord, i, b);
    forall x: nat | x < m.depth
      ensures m'.Busy(x) == if x == t then v else m.Busy(x)
    {
      TagPlace(m.depth, m.perWord, x);
    }
  }
}
