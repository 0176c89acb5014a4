/** `struct blk_mq_bitmap_tags` and `struct blk_mq_tags`, updated in place. */
module TagSet {
  import opened Arith
  import opened TagLayout

  const BT_WAIT_QUEUES: nat := 8
  const BT_WAIT_BATCH: nat := 8

  /** Tags per word in `bt_alloc`: a tag space of four or more is spread over at least four words. */
  method ChooseWordSize(depth: nat) returns (bits: nat, perWord: nat)
    ensures perWord == Pow2(bits) && perWord <= BITS_PER_LONG
    ensures 4 <= depth ==> 4 * perWord <= depth && (perWord == BITS_PER_LONG || depth < 8 * perWord)
    ensures depth < 4 ==> perWord == BITS_PER_LONG
  {
    bits, perWord := 6, BITS_PER_LONG;
    assert Pow2(6) == 64 by {
      assert Pow2(3) == 8;
    }
    if 4 <= depth {
      while perWord * 4 > depth
        invariant perWord == Pow2(bits) && perWord <= BITS_PER_LONG
        invariant perWord == BITS_PER_LONG || depth < 8 * perWord
        decreases bits
      {
        bits := bits - 1;
        perWord := perWord / 2;
      }
    }
  }

  const CLEAR: seq<bool> := seq(BITS_PER_LONG, _ => false)

  /** The words of `bt_alloc`, with the depths `bt_update_count` gives them. */
  method LayOut(depth: nat, perWord: nat) returns (words: seq<Word>)
    requires 0 < perWord <= BITS_PER_LONG
    ensures Map(depth, perWord, words).Valid() && Map(depth, perWord, words).BusySet() == {}
  {
    words := [];
    var left, nr := depth, (depth + perWord - 1) / perWord;
    for i := 0 to nr
      invariant |words| == i && left == if i * perWord < depth then depth - i * perWord else 0
      invariant forall j :: 0 <= j < i ==> words[j] == Word(WordDepth(depth, perWord, j), CLEAR)
    {
      var d := if left < perWord then left else perWord;
      words := words + [Word(d, CLEAR)];
      left := left - d;
      assert (i + 1) * perWord == i * perWord + perWord;
    }
    NothingBusy(Map(depth, perWord, words));
  }

  lemma NothingBusy(m: Map)
    requires m.Valid() && forall j :: 0 <= j < |m.words| ==> m.words[j].bits == CLEAR
    ensures m.BusySet() == {}
  {
    forall t: nat | t < m.depth
      ensures !m.Busy(t)
    {
      TagPlace(m.depth, m.perWord, t);
    }
  }

  class Bitmap {
    var bitsPerWord: nat
    var tags: Map
    var wakeCnt: nat
    var wakeIndex: nat
    var waitCnt: seq<nat>

    ghost predicate Valid()
      reads this
    {
      && tags.Valid() && tags.perWord == Pow2(bitsPerWord)
      && wakeIndex < BT_WAIT_QUEUES && |waitCnt| == BT_WAIT_QUEUES
      && 0 < wakeCnt && forall i :: 0 <= i < BT_WAIT_QUEUES ==> 0 < waitCnt[i] <= wakeCnt
    }

    /** `bt_alloc` and `bt_update_count`. */
    constructor (depth: nat)
      ensures Valid() && tags.depth == depth && tags.BusySet() == {}
    {
      var bits, perWord := ChooseWordSize(depth);
      var words := LayOut(depth, perWord);
      var cnt := BT_WAIT_BATCH;
      if cnt > depth / BT_WAIT_QUEUES {
        cnt := if depth / BT_WAIT_QUEUES < 1 then 1 else depth / BT_WAIT_QUEUES;
      }
      bitsPerWord, tags := bits, Map(depth, perWord, words);
      wakeCnt, wakeIndex, waitCnt := cnt, 0, seq(BT_WAIT_QUEUES, _ => cnt);
    }

    /** `__bt_get_word` with nobody else at the word: from `lastTag` to the end, then from the start. */
    method GetWord(index: nat, lastTag: nat) returns (bit: int)
      requires Valid() && index < |tags.words| && (lastTag == 0 || lastTag < tags.words[index].depth)
      modifies this`tags
      ensures Valid()
      ensures bit < 0 ==> tags == old(tags)
      ensures bit < 0 ==> forall b :: 0 <= b < tags.words[index].depth ==> tags.words[index].bits[b]
      ensures bit >= 0 ==> bit < old(tags).words[index].depth && !old(tags).words[index].bits[bit]
      ensures bit >= 0 ==> tags == SetBit(old(tags), index, bit, true)
    {
      var word := tags.words[index];
      var last: nat, end: nat, wrap := lastTag, word.depth, lastTag != 0;
      var tag: nat := NextZero(word.bits, end, last);
      while tag >= end
        invariant end <= word.depth <= |word.bits| && tag <= end && tags == old(tags) && Valid()
        invariant tag < end ==> end <= |word.bits| && !word.bits[tag]
        invariant wrap ==> last == lastTag && end == word.depth
        invariant !wrap && lastTag == 0 ==> last == 0 && end == word.depth
        invariant !wrap && lastTag != 0 ==> last == 0 && end == lastTag
        invariant tag == NextZero(word.bits, end, last)
        invariant !wrap ==> forall b :: end <= b < word.depth ==> word.bits[b]
        decreases wrap
      {
        if !wrap {
          return -1;
        }
        wrap, last := false, 0;
        end := lastTag;
        tag := NextZero(word.bits, end, last);
      }
      SetBitBusy(tags, index, tag, true);
      tags := SetBit(tags, index, tag, true);
      bit := tag;
    }

    /** One word of the search: a tag of it, or every tag of it is busy. */
    method TryWord(index: nat, last: nat) returns (tag: int)
      requires Valid() && index < |tags.words| && (last == 0 || last < tags.words[index].depth)
      modifies this`tags
      ensures Valid() && Found(old(tags), tags, tag)
      ensures tag < 0 ==> Full(tags, index)
    {
      var bit := GetWord(index, last);
      if bit < 0 {
        return -1;
      }
      FoundBit(old(tags), index, bit);
      tag := TagOf(index, bit, tags.perWord);
    }

    /** The loop of `__bt_get` over the words, starting at tag `cache`. */
    method Search(cache: nat) returns (tag: int)
      requires Valid() && (cache < tags.depth || tags.depth == 0)
      modifies this`tags
      ensures Valid() && Found(old(tags), tags, tag)
      ensures tag < 0 ==> tags.AllBusy()
    {
      StartPlace(tags, cache);
      var last: nat, index: nat := Wrap(cache, tags.perWord), IndexOf(cache, tags.perWord);
      ghost var start := index;
      var i, count := 0, |tags.words|;
      while i < count
        invariant 0 <= i <= count == |tags.words| && Valid() && tags == old(tags)
        invariant i < count ==> start < count && index == if start + i < count then start + i else start + i - count
        invariant last == 0 || (i == 0 && (0 < count ==> last < tags.words[index].depth))
        invariant forall k :: 0 <= k < count && Turn(start, k, count) < i ==> Full(tags, k)
      {
        tag := TryWord(index, last);
        if tag >= 0 {
          return;
        }
        last := 0;
        index := index + 1;
        if index >= count {
          index := 0;
        }
        i := i + 1;
      }
      RoundFull(tags, start);
      tag := -1;
    }

    /**
     * `__bt_get` with nobody else at the bitmap: any clear bit will do, it fails only when there is none, and
     * the cached tag moves on only past the tag it named.
     */
    method Get(mayQueue: bool, cache: nat) returns (tag: int, cache': nat)
      requires Valid() && (cache < tags.depth || tags.depth == 0)
      modifies this`tags
      ensures Valid() && Found(old(tags), tags, tag)
      ensures !mayQueue ==> tag < 0 && cache' == cache
      ensures mayQueue && tag < 0 ==> tags.AllBusy() && cache' == 0
      ensures tag >= 0 ==>
        cache' == if tag != cache then cache else if cache + 1 >= tags.depth - 1 then 0 else cache + 1
      ensures 0 < tags.depth ==> cache' < tags.depth
    {
      if !mayQueue {
        return -1, cache;
      }
      tag := Search(cache);
      if tag < 0 {
        return tag, 0;
      }
      cache' := cache;
      if tag == cache {
        cache' := tag + 1;
        if cache' >= tags.depth - 1 {
          cache' := 0;
        }
      }
    }

    /** `bt_wake_ptr`: the first wait queue with a sleeper, going round from wake_index. */
    method WakePtr(sleeping: seq<bool>) returns (q: int)
      requires Valid() && |sleeping| == BT_WAIT_QUEUES
      modifies this`wakeIndex
      ensures Valid()
      ensures q < 0 ==> wakeIndex == old(wakeIndex) && forall i :: 0 <= i < BT_WAIT_QUEUES ==> !sleeping[i]
      ensures q >= 0 ==> q < BT_WAIT_QUEUES && wakeIndex == q && sleeping[q]
      ensures q >= 0 ==> forall i :: 0 <= i < BT_WAIT_QUEUES ==>
        Turn(old(wakeIndex), i, BT_WAIT_QUEUES) < Turn(old(wakeIndex), q, BT_WAIT_QUEUES) ==> !sleeping[i]
    {
      var w := wakeIndex;
      for i := 0 to BT_WAIT_QUEUES
        invariant w == if wakeIndex + i < BT_WAIT_QUEUES then wakeIndex + i else wakeIndex + i - BT_WAIT_QUEUES
        invariant Valid() && wakeIndex == old(wakeIndex)
        invariant forall k :: 0 <= k < BT_WAIT_QUEUES && Turn(wakeIndex, k, BT_WAIT_QUEUES) < i ==> !sleeping[k]
      {
        if sleeping[w] {
          wakeIndex := w;
          return w;
        }
        w := (w + 1) % BT_WAIT_QUEUES;
      }
      q := -1;
    }

    /**
     * `bt_clear_tag`: the tag is free again, and every wake_cnt-th free on a queue with sleepers wakes that
     * queue and moves on to the next.
     */
    method ClearTag(tag: nat, sleeping: seq<bool>) returns (woken: int)
      requires Valid() && tag < tags.depth && |sleeping| == BT_WAIT_QUEUES
      modifies this
      ensures Valid() && tags.depth == old(tags).depth && tags.perWord == old(tags).perWord && wakeCnt == old(wakeCnt)
      ensures tags.BusySet() == old(tags).BusySet() - {tag}
      ensures woken < 0 || (woken < BT_WAIT_QUEUES && sleeping[woken] && old(waitCnt)[woken] == 1)
      ensures woken >= 0 ==> waitCnt == old(waitCnt)[woken := wakeCnt] && wakeIndex == (woken + 1) % BT_WAIT_QUEUES
      ensures woken < 0 && waitCnt != old(waitCnt) ==>
        sleeping[wakeIndex] && waitCnt == old(waitCnt)[wakeIndex := old(waitCnt)[wakeIndex] - 1]
      ensures waitCnt == old(waitCnt) && woken < 0 ==> forall i :: 0 <= i < BT_WAIT_QUEUES ==> !sleeping[i]
    {
      TagPlace(tags.depth, tags.perWord, tag);
      var i, b := IndexOf(tag, tags.perWord), Wrap(tag, tags.perWord);
      SetBitBusy(tags, i, b, false);
      tags := SetBit(tags, i, b, false);
      var q := WakePtr(sleeping);
      if q < 0 {
        return -1;
      }
      var cnt := waitCnt[q] - 1;
      woken := -1;
      if cnt == 0 {
        cnt := wakeCnt;
        wakeIndex := (wakeIndex + 1) % BT_WAIT_QUEUES;
        woken := q;
      }
      waitCnt := waitCnt[q := cnt];
    }

    /** `bt_has_free_tags`. */
    method HasFreeTags() returns (ret: bool)
      requires Valid()
      ensures ret <==> !tags.AllBusy()
    {
      for i := 0 to |tags.words|
        invariant forall k :: 0 <= k < i ==> Full(tags, k)
      {
        var w := tags.words[i];
        var b := NextZero(w.bits, w.depth, 0);
        if b < w.depth {
          FoundBit(tags, i, b);
          return true;
        }
      }
      EveryWordFull(tags);
      ret := false;
    }

    /** `bt_unused_tags`. */
    method UnusedTags() returns (free: nat)
      requires Valid()
      ensures free == tags.depth - |tags.BusySet()|
    {
      var used := 0;
      for i := 0 to |tags.words|
        invariant used == |BusyBelow(tags, i)|
      {
        BusyInWord(tags, i, tags.words[i].depth);
        BusyStep(tags, i);
        used := used + Weight(tags.words[i].bits, tags.words[i].depth);
      }
      BusyAll(tags);
      free := tags.depth - used;
    }
  }

  /** From `m` to `m'` a free tag was taken, or, when `tag` is negative, nothing was. */
  ghost predicate Found(m: Map, m': Map, tag: int)
    requires m.Valid() && m'.Valid()
  {
    && m'.depth == m.depth && m'.perWord == m.perWord
    && if tag < 0 then m' == m
       else tag < m.depth && tag !in m.BusySet() && m'.BusySet() == m.BusySet() + {tag}
  }

  lemma StartPlace(m: Map, cache: nat)
    requires m.Valid() && (cache < m.depth || m.depth == 0)
    ensures m.depth == 0 ==> |m.words| == 0
    ensures 0 < m.depth ==>
      IndexOf(cache, m.perWord) < |m.words| && Wrap(cache, m.perWord) < m.words[IndexOf(cache, m.perWord)].depth
  {
    Ceiling(m.depth, m.perWord);
    if 0 < m.depth {
      TagPlace(m.depth, m.perWord, cache);
    }
  }

  ghost predicate Full(m: Map, i: nat)
    requires m.Valid()
  {
    i < |m.words| && forall b :: 0 <= b < m.words[i].depth ==> m.words[i].bits[b]
  }

  /** When word `k` comes up in a turn over `c` words that starts at `start`. */
  function Turn(start: nat, k: nat, c: nat): int {
    if start <= k then k - start else k + c - start
  }

  lemma FoundBit(m: Map, i: nat, b: nat)
    requires m.Valid() && i < |m.words| && b < m.words[i].depth && !m.words[i].bits[b]
    ensures var t := TagOf(i, b, m.perWord);
      && t < m.depth && t !in m.BusySet() && SetBit(m, i, b, true).Valid()
      && SetBit(m, i, b, true).BusySet() == m.BusySet() + {t}
  {
    SetBitBusy(m, i, b, true);
    PlaceTag(m.depth, m.perWord, i, b);
  }

  /** A full turn over the words, starting anywhere, has seen every tag. */
  lemma RoundFull(m: Map, start: nat)
    requires m.Valid() && (|m.words| > 0 ==> start < |m.words|)
    requires forall k :: 0 <= k < |m.words| && Turn(start, k, |m.words|) < |m.words| ==> Full(m, k)
    ensures m.AllBusy()
  {
    forall t: nat | t < m.depth
      ensures m.Busy(t)
    {
      TagPlace(m.depth, m.perWord, t);
      assert Full(m, IndexOf(t, m.perWord));
    }
  }

  lemma EveryWordFull(m: Map)
    requires m.Valid() && forall k :: 0 <= k < |m.words| ==> Full(m, k)
    ensures m.AllBusy()
  {
    RoundFull(m, 0);
  }

  // Counting busy tags

  /** Busy tags of the first `k` words. */
  ghost function BusyBelow(m: Map, k: nat): set<nat>
    requires m.Valid()
  {
    set t | 0 <= t < m.depth && m.Busy(t) && IndexOf(t, m.perWord) < k
  }

  /** Busy tags among the first `b` bits of word `k`. */
  ghost function BusyIn(m: Map, k: nat, b: nat): set<nat>
    requires m.Valid()
  {
    set t | 0 <= t < m.depth && m.Busy(t) && IndexOf(t, m.perWord) == k && Wrap(t, m.perWord) < b
  }

  lemma {:induction false} BusyInWord(m: Map, k: nat, b: nat)
    requires m.Valid() && k < |m.words| && b <= m.words[k].depth
    ensures |BusyIn(m, k, b)| == Weight(m.words[k].bits, b)
  {
    if b == 0 {
      assert BusyIn(m, k, b) == {};
    } else {
      BusyInWord(m, k, b - 1);
      PlaceTag(m.depth, m.perWord, k, b - 1);
      var t := TagOf(k, b - 1, m.perWord);
      forall x | x in BusyIn(m, k, b)
        ensures x in BusyIn(m, k, b - 1) || x == t
      {
        TagPlace(m.depth, m.perWord, x);
      }
      if m.words[k].bits[b - 1] {
        assert BusyIn(m, k, b) == BusyIn(m, k, b - 1) + {t};
      } else {
        assert BusyIn(m, k, b) == BusyIn(m, k, b - 1);
      }
    }
  }

  lemma BusyStep(m: Map, k: nat)
    requires m.Valid() && k < |m.words|
    ensures |BusyBelow(m, k + 1)| == |BusyBelow(m, k)| + |BusyIn(m, k, m.words[k].depth)|
  {
    var below, here := BusyBelow(m, k), BusyIn(m, k, m.words[k].depth);
    forall t | t in BusyBelow(m, k + 1)
      ensures t in below + here
    {
      TagPlace(m.depth, m.perWord, t);
    }
    assert BusyBelow(m, k + 1) == below + here;
    assert below !! here;
  }

  lemma BusyAll(m: Map)
    requires m.Valid()
    ensures BusyBelow(m, 0) == {} && BusyBelow(m, |m.words|) == m.BusySet()
    ensures |m.BusySet()| <= m.depth
  {
    forall t | t in m.BusySet()
      ensures t in BusyBelow(m, |m.words|)
    {
      TagPlace(m.depth, m.perWord, t);
    }
    FewerThan(m.BusySet(), m.depth);
  }

  lemma {:induction false} FewerThan(s: set<nat>, n: nat)
    requires forall t :: t in s ==> t < n
    ensures |s| <= n
  {
    if n == 0 {
      assert s == {};
    } else {
      FewerThan(s - {n - 1}, n - 1);
    }
  }
}
