/** The search for a free tag while other CPUs take and return tags (block/blk-mq-tag.c). */
module TagSearch {
  import opened Arith
  import opened TagLayout
  import opened TagSet

  /** The bitmap as the search meets it: at its k-th look, which is a `find_next_zero_bit` or a `test_and_set_bit`. */
  type Sights = nat -> Map

  ghost predicate Shows(seen: Sights, depth: nat, perWord: nat) {
    forall k :: seen(k).Valid() && seen(k).depth == depth && seen(k).perWord == perWord
  }

  /** Bit `b` of word `w` is set; there is nothing to find outside the map. */
  function Bit(m: Map, w: nat, b: nat): bool {
    w < |m.words| && b < |m.words[w].bits| ==> m.words[w].bits[b]
  }

  /** `find_next_zero_bit` on a word of the map. */
  function NextFree(m: Map, w: nat, hi: nat, lo: nat): (k: nat)
    ensures k <= hi && (lo <= k || k == hi) && (k < hi ==> !Bit(m, w, k))
    ensures forall b :: lo <= b < k ==> Bit(m, w, b)
    decreases hi - lo
  {
    if hi <= lo then hi else if !Bit(m, w, lo) then lo else NextFree(m, w, hi, lo + 1)
  }

  lemma {:induction false} NextFreeIs(m: Map, w: nat, hi: nat, lo: nat)
    requires w < |m.words| && hi <= |m.words[w].bits|
    ensures NextFree(m, w, hi, lo) == NextZero(m.words[w].bits, hi, lo)
    decreases hi - lo
  {
    if lo < hi {
      NextFreeIs(m, w, hi, lo + 1);
    }
  }

  datatype Look = Hit(bit: nat, next: nat) | Miss(next: nat)

  /** The loop of `__bt_get_word` from `lo` to `hi`: a bit lost to another CPU is passed over. */
  ghost function Scan(seen: Sights, k: nat, w: nat, lo: nat, hi: nat): Look
    decreases hi - lo
  {
    var tag := NextFree(seen(k), w, hi, lo);
    if tag >= hi then Miss(k + 1)
    else if !Bit(seen(k + 1), w, tag) then Hit(tag, k + 2)
    else Scan(seen, k + 2, w, tag + 1, hi)
  }

  /** A stretch of a word that is scanned once. */
  datatype Pass = Pass(word: nat, lo: nat, hi: nat)

  datatype Outcome = Got(word: nat, bit: nat, next: nat) | Nothing(next: nat)

  ghost function Search(seen: Sights, k: nat, passes: seq<Pass>): Outcome
    decreases |passes|
  {
    if passes == [] then Nothing(k)
    else
      match Scan(seen, k, passes[0].word, passes[0].lo, passes[0].hi)
      case Hit(bit, next) => Got(passes[0].word, bit, next)
      case Miss(next) => Search(seen, next, passes[1..])
  }

  /** A word is scanned from the last tag to its end, and then from its start to the last tag. */
  function WordPasses(w: nat, depth: nat, last: nat): seq<Pass> {
    [Pass(w, last, depth)] + if last != 0 then [Pass(w, 0, last)] else []
  }

  function NextWord(index: nat, count: nat): nat {
    if index + 1 >= count then 0 else index + 1
  }

  /** `left` words from `index` on, around the map. */
  function Round(depth: nat, perWord: nat, index: nat, last: nat, left: nat): seq<Pass>
    requires 0 < perWord
    decreases left
  {
    if left == 0 then []
    else
      WordPasses(index, WordDepth(depth, perWord, index), last) +
      Round(depth, perWord, NextWord(index, WordCount(depth, perWord)), 0, left - 1)
  }

  // What a search that finds nothing has seen

  lemma {:induction false} ScanSaw(seen: Sights, k: nat, w: nat, lo: nat, hi: nat, b: nat) returns (j: nat)
    requires Scan(seen, k, w, lo, hi).Miss? && lo <= b < hi
    ensures k <= j && Bit(seen(j), w, b)
    decreases hi - lo
  {
    var tag := NextFree(seen(k), w, hi, lo);
    if b < tag {
      j := k;
    } else if b == tag {
      j := k + 1;
    } else {
      j := ScanSaw(seen, k + 2, w, tag + 1, hi, b);
    }
  }

  lemma {:induction false} ScanHit(seen: Sights, k: nat, w: nat, lo: nat, hi: nat)
    requires Scan(seen, k, w, lo, hi).Hit?
    ensures var r := Scan(seen, k, w, lo, hi);
      && lo <= r.bit < hi && k + 2 <= r.next && !Bit(seen(r.next - 1), w, r.bit)
    decreases hi - lo
  {
    var tag := NextFree(seen(k), w, hi, lo);
    if Bit(seen(k + 1), w, tag) {
      ScanHit(seen, k + 2, w, tag + 1, hi);
    }
  }

  lemma {:induction false} SearchSaw(seen: Sights, k: nat, passes: seq<Pass>, i: nat, b: nat) returns (j: nat)
    requires Search(seen, k, passes).Nothing?
    requires i < |passes| && passes[i].lo <= b < passes[i].hi
    ensures Bit(seen(j), passes[i].word, b)
    decreases |passes|
  {
    var p := passes[0];
    if i == 0 {
      j := ScanSaw(seen, k, p.word, p.lo, p.hi, b);
    } else {
      j := SearchSaw(seen, Scan(seen, k, p.word, p.lo, p.hi).next, passes[1..], i - 1, b);
    }
  }

  // A round covers every tag once

  ghost predicate In(p: Pass, w: nat, b: nat) {
    p.word == w && p.lo <= b < p.hi
  }

  lemma WordCovered(w: nat, depth: nat, last: nat, b: nat) returns (i: nat)
    requires b < depth
    ensures i < |WordPasses(w, depth, last)| && In(WordPasses(w, depth, last)[i], w, b)
  {
    i := if last <= b then 0 else 1;
  }

  lemma {:induction false} RoundCovers(depth: nat, perWord: nat, index: nat, last: nat, left: nat, w: nat, b: nat)
    returns (i: nat)
    requires 0 < perWord && index < WordCount(depth, perWord) && w < WordCount(depth, perWord)
    requires Turn(index, w, WordCount(depth, perWord)) < left <= WordCount(depth, perWord)
    requires b < WordDepth(depth, perWord, w)
    ensures i < |Round(depth, perWord, index, last, left)| && In(Round(depth, perWord, index, last, left)[i], w, b)
    decreases left
  {
    var first := WordPasses(index, WordDepth(depth, perWord, index), last);
    if w == index {
      i := WordCovered(w, WordDepth(depth, perWord, w), last, b);
    } else {
      i := RoundCovers(depth, perWord, NextWord(index, WordCount(depth, perWord)), 0, left - 1, w, b);
      i := |first| + i;
    }
  }

  /** The passes stay within the words, and within the words whose turn it is. */
  lemma {:induction false} RoundInside(depth: nat, perWord: nat, index: nat, last: nat, left: nat, i: nat)
    requires 0 < perWord && left <= WordCount(depth, perWord) && (0 < left ==> index < WordCount(depth, perWord))
    requires 0 < left ==> last <= WordDepth(depth, perWord, index)
    requires i < |Round(depth, perWord, index, last, left)|
    ensures var p, c := Round(depth, perWord, index, last, left)[i], WordCount(depth, perWord);
      p.word < c && p.hi <= WordDepth(depth, perWord, p.word) && Turn(index, p.word, c) < left
    decreases left
  {
    var first := WordPasses(index, WordDepth(depth, perWord, index), last);
    if i >= |first| {
      RoundInside(depth, perWord, NextWord(index, WordCount(depth, perWord)), 0, left - 1, i - |first|);
    }
  }

  /** No bit is scanned twice. */
  lemma {:induction false} RoundOnce(depth: nat, perWord: nat, index: nat, last: nat, left: nat, i: nat, j: nat, b: nat)
    requires 0 < perWord && left <= WordCount(depth, perWord) && (0 < left ==> index < WordCount(depth, perWord))
    requires 0 < left ==> last <= WordDepth(depth, perWord, index)
    requires i < j < |Round(depth, perWord, index, last, left)|
    ensures var r := Round(depth, perWord, index, last, left);
      !(In(r[i], r[i].word, b) && In(r[j], r[i].word, b))
    decreases left
  {
    var first := WordPasses(index, WordDepth(depth, perWord, index), last);
    var next := NextWord(index, WordCount(depth, perWord));
    if |first| <= i {
      RoundOnce(depth, perWord, next, 0, left - 1, i - |first|, j - |first|, b);
    } else if |first| <= j {
      RoundInside(depth, perWord, next, 0, left - 1, j - |first|);
    }
  }

  /** The passes of `__bt_get` from tag `cache` on. */
  function Passes(depth: nat, perWord: nat, cache: nat): seq<Pass>
    requires 0 < perWord
  {
    Round(depth, perWord, IndexOf(cache, perWord), Wrap(cache, perWord), WordCount(depth, perWord))
  }

  ghost predicate Starts(depth: nat, perWord: nat, cache: nat) {
    0 < perWord && (cache < depth || depth == 0)
  }

  lemma StartsInside(depth: nat, perWord: nat, cache: nat)
    requires Starts(depth, perWord, cache)
    ensures depth == 0 ==> WordCount(depth, perWord) == 0
    ensures 0 < depth ==> IndexOf(cache, perWord) < WordCount(depth, perWord)
    ensures 0 < depth ==> Wrap(cache, perWord) < WordDepth(depth, perWord, IndexOf(cache, perWord))
  {
    Ceiling(depth, perWord);
    if 0 < depth {
      TagPlace(depth, perWord, cache);
    }
  }

  lemma {:induction false} RoundRanges(depth: nat, perWord: nat, index: nat, last: nat, left: nat, i: nat)
    requires 0 < perWord && (0 < left ==> last <= WordDepth(depth, perWord, index))
    requires i < |Round(depth, perWord, index, last, left)|
    ensures Round(depth, perWord, index, last, left)[i].lo <= Round(depth, perWord, index, last, left)[i].hi
    decreases left
  {
    var first := WordPasses(index, WordDepth(depth, perWord, index), last);
    if |first| <= i {
      RoundRanges(depth, perWord, NextWord(index, WordCount(depth, perWord)), 0, left - 1, i - |first|);
    }
  }

  lemma PassesInside(depth: nat, perWord: nat, cache: nat, i: nat)
    requires Starts(depth, perWord, cache) && i < |Passes(depth, perWord, cache)|
    ensures var p := Passes(depth, perWord, cache)[i];
      && p.word < WordCount(depth, perWord) && p.lo <= p.hi <= WordDepth(depth, perWord, p.word)
  {
    StartsInside(depth, perWord, cache);
    RoundInside(depth, perWord, IndexOf(cache, perWord), Wrap(cache, perWord), WordCount(depth, perWord), i);
    RoundRanges(depth, perWord, IndexOf(cache, perWord), Wrap(cache, perWord), WordCount(depth, perWord), i);
  }

  lemma PassesCover(depth: nat, perWord: nat, cache: nat, t: nat) returns (i: nat)
    requires Starts(depth, perWord, cache) && t < depth
    ensures i < |Passes(depth, perWord, cache)|
    ensures In(Passes(depth, perWord, cache)[i], IndexOf(t, perWord), Wrap(t, perWord))
  {
    StartsInside(depth, perWord, cache);
    TagPlace(depth, perWord, t);
    i := RoundCovers(depth, perWord, IndexOf(cache, perWord), Wrap(cache, perWord), WordCount(depth, perWord),
      IndexOf(t, perWord), Wrap(t, perWord));
  }

  /** `__bt_get` past the fair-share check, while the bitmap changes under it. */
  ghost function Find(seen: Sights, depth: nat, perWord: nat, cache: nat): Outcome
    requires Shows(seen, depth, perWord) && Starts(depth, perWord, cache)
  {
    Search(seen, 0, Passes(depth, perWord, cache))
  }

  /** A search that finds nothing has seen every tag busy: a tag that is free all the while is not missed. */
  lemma {:induction false} NothingMeansSeenBusy(seen: Sights, depth: nat, perWord: nat, cache: nat, t: nat)
    returns (k: nat)
    requires Shows(seen, depth, perWord) && Starts(depth, perWord, cache) && t < depth
    requires Find(seen, depth, perWord, cache).Nothing?
    ensures seen(k).Busy(t)
  {
    var i := PassesCover(depth, perWord, cache, t);
    k := SearchSaw(seen, 0, Passes(depth, perWord, cache), i, Wrap(t, perWord));
    BitIsBusy(seen(k), t);
  }

  lemma BitIsBusy(m: Map, t: nat)
    requires m.Valid() && t < m.depth
    ensures Bit(m, IndexOf(t, m.perWord), Wrap(t, m.perWord)) <==> m.Busy(t)
  {
    TagPlace(m.depth, m.perWord, t);
  }

  lemma {:induction false} SearchGot(seen: Sights, k: nat, passes: seq<Pass>) returns (i: nat)
    requires Search(seen, k, passes).Got?
    ensures var o := Search(seen, k, passes);
      && i < |passes| && In(passes[i], o.word, o.bit) && 0 < o.next && o.word < |seen(o.next - 1).words|
      && o.bit < |seen(o.next - 1).words[o.word].bits| && !Bit(seen(o.next - 1), o.word, o.bit)
    decreases |passes|
  {
    var p := passes[0];
    if Scan(seen, k, p.word, p.lo, p.hi).Hit? {
      ScanHit(seen, k, p.word, p.lo, p.hi);
      i := 0;
    } else {
      i := SearchGot(seen, Scan(seen, k, p.word, p.lo, p.hi).next, passes[1..]);
      i := i + 1;
    }
  }

  /** The tag that is found was free at the `test_and_set_bit` that took it. */
  lemma {:induction false} FoundWasFree(seen: Sights, depth: nat, perWord: nat, cache: nat)
    requires Shows(seen, depth, perWord) && Starts(depth, perWord, cache) && Find(seen, depth, perWord, cache).Got?
    ensures var o := Find(seen, depth, perWord, cache);
      && o.word < WordCount(depth, perWord) && o.bit < WordDepth(depth, perWord, o.word) && 0 < o.next
      && TagOf(o.word, o.bit, perWord) < depth && !seen(o.next - 1).Busy(TagOf(o.word, o.bit, perWord))
  {
    var o := Find(seen, depth, perWord, cache);
    var i := SearchGot(seen, 0, Passes(depth, perWord, cache));
    PassesInside(depth, perWord, cache, i);
    PlaceTag(depth, perWord, o.word, o.bit);
  }

  // When a search can find nothing although some tag is free at every moment

  ghost predicate Misses(seen: Sights, depth: nat, perWord: nat, cache: nat) {
    && Shows(seen, depth, perWord) && Starts(depth, perWord, cache)
    && Find(seen, depth, perWord, cache).Nothing? && forall k :: !seen(k).AllBusy()
  }

  /** All tags are busy but one. */
  function AllBut(depth: nat, perWord: nat, t: nat): Map
    requires 0 < perWord
  {
    Map(depth, perWord, seq(WordCount(depth, perWord), (i: nat) => Word(WordDepth(depth, perWord, i),
      seq(BITS_PER_LONG, (b: nat) => !(i == IndexOf(t, perWord) && b == Wrap(t, perWord))))))
  }

  lemma AllButOne(depth: nat, perWord: nat, t: nat)
    requires 0 < perWord <= BITS_PER_LONG && t < depth
    ensures AllBut(depth, perWord, t).Valid() && !AllBut(depth, perWord, t).AllBusy()
  {
    AllButBusy(depth, perWord, t, t);
  }

  lemma AllButBusy(depth: nat, perWord: nat, t: nat, x: nat)
    requires 0 < perWord <= BITS_PER_LONG && x < depth && AllBut(depth, perWord, t).Valid()
    ensures AllBut(depth, perWord, t).Busy(x) <==>
      (IndexOf(x, perWord) != IndexOf(t, perWord) || Wrap(x, perWord) != Wrap(t, perWord))
  {
    TagPlace(depth, perWord, x);
  }

  /** First `y` is free, and after the j-th look `x` instead. */
  function Swapped(depth: nat, perWord: nat, x: nat, y: nat, j: nat): Sights
    requires 0 < perWord
  {
    (k: nat) => if k <= j then AllBut(depth, perWord, y) else AllBut(depth, perWord, x)
  }

  ghost predicate Taken(m: Map, p: Pass) {
    forall b :: p.lo <= b < p.hi ==> Bit(m, p.word, b)
  }

  lemma TakenBut(depth: nat, perWord: nat, t: nat, p: Pass)
    requires 0 < perWord <= BITS_PER_LONG && p.word < WordCount(depth, perWord)
    requires p.hi <= WordDepth(depth, perWord, p.word) && !In(p, IndexOf(t, perWord), Wrap(t, perWord))
    ensures Taken(AllBut(depth, perWord, t), p)
  {
  }

  lemma {:induction false} ScanTaken(seen: Sights, k: nat, p: Pass)
    requires Taken(seen(k), p)
    ensures Scan(seen, k, p.word, p.lo, p.hi) == Miss(k + 1)
  {
  }

  /** Each pass meets only bits that are taken; it is one look then. */
  ghost predicate TakenInTurn(seen: Sights, k: nat, passes: seq<Pass>)
    decreases |passes|
  {
    passes == [] || (Taken(seen(k), passes[0]) && TakenInTurn(seen, k + 1, passes[1..]))
  }

  lemma {:induction false} SearchTaken(seen: Sights, k: nat, passes: seq<Pass>)
    requires TakenInTurn(seen, k, passes)
    ensures Search(seen, k, passes) == Nothing(k + |passes|)
    decreases |passes|
  {
    if passes != [] {
      ScanTaken(seen, k, passes[0]);
      SearchTaken(seen, k + 1, passes[1..]);
    }
  }

  lemma {:induction false} SearchOn(seen: Sights, k: nat, a: seq<Pass>, b: seq<Pass>)
    requires Search(seen, k, a).Nothing?
    ensures Search(seen, k, a + b) == Search(seen, Search(seen, k, a).next, b)
    decreases |a|
  {
    if a == [] {
      assert a + b == b;
    } else {
      var next := Scan(seen, k, a[0].word, a[0].lo, a[0].hi).next;
      SearchOn(seen, next, a[1..], b);
      assert (a + b)[1..] == a[1..] + b;
    }
  }

  lemma {:induction false} FreeIs(m: Map, w: nat, hi: nat, lo: nat, b: nat)
    requires lo <= b < hi && !Bit(m, w, b) && forall j :: lo <= j < b ==> Bit(m, w, j)
    ensures NextFree(m, w, hi, lo) == b
    decreases b - lo
  {
    if lo < b {
      FreeIs(m, w, hi, lo + 1, b);
    }
  }

  /** The pass with `x`: it finds `y` if that is there too, but loses it, and `x` is behind by then. */
  lemma {:induction false} ScanSwapped(seen: Sights, depth: nat, perWord: nat, x: nat, y: nat, p: Pass, j: nat)
    requires 0 < perWord <= BITS_PER_LONG && seen == Swapped(depth, perWord, x, y, j)
    requires p.word < WordCount(depth, perWord) && p.lo <= p.hi <= WordDepth(depth, perWord, p.word)
    requires In(p, IndexOf(x, perWord), Wrap(x, perWord)) && x != y
    requires In(p, IndexOf(y, perWord), Wrap(y, perWord)) ==> Wrap(x, perWord) < Wrap(y, perWord)
    ensures Scan(seen, j, p.word, p.lo, p.hi).Miss? && j < Scan(seen, j, p.word, p.lo, p.hi).next
  {
    if In(p, IndexOf(y, perWord), Wrap(y, perWord)) {
      var b := Wrap(y, perWord);
      FreeIs(AllBut(depth, perWord, y), p.word, p.hi, p.lo, b);
      TakenBut(depth, perWord, x, Pass(p.word, b + 1, p.hi));
      ScanTaken(seen, j + 2, Pass(p.word, b + 1, p.hi));
    } else {
      TakenBut(depth, perWord, y, p);
      ScanTaken(seen, j, p);
    }
  }

  /** The passes before that with `x`, while `y` is free, and those after it, while `x` is. */
  lemma {:induction false} BeforeTaken(depth: nat, perWord: nat, cache: nat, x: nat, y: nat, i: nat, j: nat, n: nat)
    requires Starts(depth, perWord, cache) && perWord <= BITS_PER_LONG && y < depth
    requires n <= i <= j < |Passes(depth, perWord, cache)|
    requires In(Passes(depth, perWord, cache)[j], IndexOf(y, perWord), Wrap(y, perWord))
    ensures TakenInTurn(Swapped(depth, perWord, x, y, i), n, Passes(depth, perWord, cache)[n..i])
    decreases i - n
  {
    if n < i {
      Elsewhere(depth, perWord, cache, y, n, j);
      BeforeTaken(depth, perWord, cache, x, y, i, j, n + 1);
      assert Passes(depth, perWord, cache)[n..i][1..] == Passes(depth, perWord, cache)[n + 1..i];
    }
  }

  lemma {:induction false} AfterTaken(depth: nat, perWord: nat, cache: nat, x: nat, y: nat, i: nat, n: nat, k: nat)
    requires Starts(depth, perWord, cache) && perWord <= BITS_PER_LONG && x < depth
    requires i < n <= |Passes(depth, perWord, cache)| && i < k
    requires In(Passes(depth, perWord, cache)[i], IndexOf(x, perWord), Wrap(x, perWord))
    ensures TakenInTurn(Swapped(depth, perWord, x, y, i), k, Passes(depth, perWord, cache)[n..])
    decreases |Passes(depth, perWord, cache)| - n
  {
    if n < |Passes(depth, perWord, cache)| {
      Elsewhere(depth, perWord, cache, x, n, i);
      AfterTaken(depth, perWord, cache, x, y, i, n + 1, k + 1);
      assert Passes(depth, perWord, cache)[n..][1..] == Passes(depth, perWord, cache)[n + 1..];
    }
  }

  lemma SwappedShows(depth: nat, perWord: nat, x: nat, y: nat, i: nat)
    requires 0 < perWord <= BITS_PER_LONG && x < depth && y < depth
    ensures Shows(Swapped(depth, perWord, x, y, i), depth, perWord)
    ensures forall k :: !Swapped(depth, perWord, x, y, i)(k).AllBusy()
  {
    AllButOne(depth, perWord, x);
    AllButOne(depth, perWord, y);
  }

  lemma {:induction false} MissAndTaken(seen: Sights, k: nat, passes: seq<Pass>, rest: seq<Pass>)
    requires passes != [] && rest == passes[1..]
    requires Scan(seen, k, passes[0].word, passes[0].lo, passes[0].hi).Miss?
    requires TakenInTurn(seen, Scan(seen, k, passes[0].word, passes[0].lo, passes[0].hi).next, rest)
    ensures Search(seen, k, passes).Nothing?
  {
    SearchTaken(seen, Scan(seen, k, passes[0].word, passes[0].lo, passes[0].hi).next, rest);
  }

  lemma {:induction false} ThreeParts(seen: Sights, passes: seq<Pass>, i: nat, p: Pass)
    requires i < |passes| && p == passes[i] && TakenInTurn(seen, 0, passes[..i])
    requires Scan(seen, i, p.word, p.lo, p.hi).Miss?
    requires TakenInTurn(seen, Scan(seen, i, p.word, p.lo, p.hi).next, passes[i + 1..])
    ensures Search(seen, 0, passes).Nothing?
  {
    SearchTaken(seen, 0, passes[..i]);
    MissAndTaken(seen, i, passes[i..], passes[i + 1..]);
    SearchOn(seen, 0, passes[..i], passes[i..]);
    assert passes[..i] + passes[i..] == passes;
  }

  lemma SwappedMisses(depth: nat, perWord: nat, cache: nat, x: nat, y: nat, i: nat, j: nat)
    requires Starts(depth, perWord, cache) && perWord <= BITS_PER_LONG && x < depth && y < depth && x != y
    requires i <= j < |Passes(depth, perWord, cache)|
    requires In(Passes(depth, perWord, cache)[i], IndexOf(x, perWord), Wrap(x, perWord))
    requires In(Passes(depth, perWord, cache)[j], IndexOf(y, perWord), Wrap(y, perWord))
    requires i == j ==> Wrap(x, perWord) < Wrap(y, perWord)
    ensures Misses(Swapped(depth, perWord, x, y, i), depth, perWord, cache)
  {
    var seen, passes := Swapped(depth, perWord, x, y, i), Passes(depth, perWord, cache);
    SwappedShows(depth, perWord, x, y, i);
    PassesInside(depth, perWord, cache, i);
    if i < j {
      NotIn(depth, perWord, cache, y, i, j);
    }
    ScanSwapped(seen, depth, perWord, x, y, passes[i], i);
    BeforeTaken(depth, perWord, cache, x, y, i, j, 0);
    assert passes[0..i] == passes[..i];
    AfterTaken(depth, perWord, cache, x, y, i, i + 1, Scan(seen, i, passes[i].word, passes[i].lo, passes[i].hi).next);
    ThreeParts(seen, passes, i, passes[i]);
  }

  lemma NotIn(depth: nat, perWord: nat, cache: nat, t: nat, n: nat, j: nat)
    requires Starts(depth, perWord, cache) && t < depth && n != j
    requires n < |Passes(depth, perWord, cache)| && j < |Passes(depth, perWord, cache)|
    requires In(Passes(depth, perWord, cache)[j], IndexOf(t, perWord), Wrap(t, perWord))
    ensures !In(Passes(depth, perWord, cache)[n], IndexOf(t, perWord), Wrap(t, perWord))
  {
    StartsInside(depth, perWord, cache);
    var first, second := if n < j then n else j, if n < j then j else n;
    RoundOnce(depth, perWord, IndexOf(cache, perWord), Wrap(cache, perWord), WordCount(depth, perWord), first, second,
      Wrap(t, perWord));
  }

  /** A pass without the free tag. */
  lemma Elsewhere(depth: nat, perWord: nat, cache: nat, t: nat, n: nat, j: nat)
    requires Starts(depth, perWord, cache) && perWord <= BITS_PER_LONG && t < depth && n != j
    requires n < |Passes(depth, perWord, cache)| && j < |Passes(depth, perWord, cache)|
    requires In(Passes(depth, perWord, cache)[j], IndexOf(t, perWord), Wrap(t, perWord))
    ensures Taken(AllBut(depth, perWord, t), Passes(depth, perWord, cache)[n])
  {
    NotIn(depth, perWord, cache, t, n, j);
    PassesInside(depth, perWord, cache, n);
    TakenBut(depth, perWord, t, Passes(depth, perWord, cache)[n]);
  }

  lemma TwoTagsMiss(depth: nat, perWord: nat, cache: nat) returns (seen: Sights)
    requires Starts(depth, perWord, cache) && perWord <= BITS_PER_LONG && 2 <= depth
    ensures Misses(seen, depth, perWord, cache)
  {
    var i := PassesCover(depth, perWord, cache, 0);
    var j := PassesCover(depth, perWord, cache, 1);
    TagPlace(depth, perWord, 0);
    TagPlace(depth, perWord, 1);
    if i < j || (i == j && Wrap(0, perWord) < Wrap(1, perWord)) {
      SwappedMisses(depth, perWord, cache, 0, 1, i, j);
      seen := Swapped(depth, perWord, 0, 1, i);
    } else {
      SwappedMisses(depth, perWord, cache, 1, 0, j, i);
      seen := Swapped(depth, perWord, 1, 0, j);
    }
  }

  lemma {:induction false} FewerCannotMiss(seen: Sights, depth: nat, perWord: nat, cache: nat)
    requires Shows(seen, depth, perWord) && Starts(depth, perWord, cache) && depth < 2
    requires Find(seen, depth, perWord, cache).Nothing?
    ensures exists k :: seen(k).AllBusy()
  {
    var k := 0;
    if depth == 1 {
      k := NothingMeansSeenBusy(seen, depth, perWord, cache, 0);
    }
    assert seen(k).AllBusy();
  }

  /**
   * With two tags or more, and with no fewer, other CPUs can make a search fail although at every moment some tag is
   * free: the promise that a failure means exhaustion is one for a search that is alone.
   */
  lemma CanMissExactly(depth: nat, perWord: nat, cache: nat)
    requires Starts(depth, perWord, cache) && perWord <= BITS_PER_LONG
    ensures (exists seen :: Misses(seen, depth, perWord, cache)) <==> 2 <= depth
  {
    if 2 <= depth {
      var seen := TwoTagsMiss(depth, perWord, cache);
    } else if seen :| Misses(seen, depth, perWord, cache) {
      FewerCannotMiss(seen, depth, perWord, cache);
    }
  }

  // The code

  /** What is left of the search of a word: up to `hi`, and then again from the start up to `again`. */
  ghost function Rest(seen: Sights, k: nat, w: nat, lo: nat, hi: nat, again: nat): Outcome {
    match Scan(seen, k, w, lo, hi)
    case Hit(bit, next) => Got(w, bit, next)
    case Miss(next) =>
      if again == 0 then Nothing(next)
      else
        match Scan(seen, next, w, 0, again)
        case Hit(bit, after) => Got(w, bit, after)
        case Miss(after) => Nothing(after)
  }

  lemma {:induction false} OnePass(seen: Sights, k: nat, w: nat, lo: nat, hi: nat)
    ensures Search(seen, k, [Pass(w, lo, hi)]) == Rest(seen, k, w, lo, hi, 0)
  {
    assert [Pass(w, lo, hi)][1..] == [];
  }

  lemma {:induction false} WordRest(seen: Sights, k: nat, w: nat, depth: nat, last: nat)
    ensures Search(seen, k, WordPasses(w, depth, last)) == Rest(seen, k, w, last, depth, last)
  {
    var passes := WordPasses(w, depth, last);
    if last != 0 {
      assert passes[1..] == [Pass(w, 0, last)];
      OnePass(seen, Scan(seen, k, w, last, depth).next, w, 0, last);
    } else {
      assert passes[1..] == [];
    }
  }

  lemma {:induction false} RestStep(seen: Sights, k: nat, w: nat, lo: nat, hi: nat, again: nat)
    ensures var tag := NextFree(seen(k), w, hi, lo);
      Rest(seen, k, w, lo, hi, again) ==
      if tag >= hi then (if again == 0 then Nothing(k + 1) else Rest(seen, k + 1, w, 0, again, 0))
      else if !Bit(seen(k + 1), w, tag) then Got(w, tag, k + 2)
      else Rest(seen, k + 2, w, tag + 1, hi, again)
  {
  }

  ghost function Seen(bit: int, w: nat, next: nat): Outcome {
    if bit < 0 then Nothing(next) else Got(w, bit, next)
  }

  ghost predicate Wide(seen: Sights, w: nat, depth: nat) {
    forall k :: w < |seen(k).words| && depth <= |seen(k).words[w].bits|
  }

  /** `__bt_get_word` among other CPUs. */
  method GetWord(seen: Sights, k: nat, w: nat, depth: nat, lastTag: nat) returns (bit: int, next: nat)
    requires Wide(seen, w, depth) && lastTag <= depth
    ensures Search(seen, k, WordPasses(w, depth, lastTag)) == Seen(bit, w, next)
  {
    WordRest(seen, k, w, depth, lastTag);
    var last: nat, end: nat, wrap := lastTag, depth, lastTag != 0;
    ghost var goal, again := Search(seen, k, WordPasses(w, depth, lastTag)), lastTag;
    next := k;
    while true
      invariant last <= end <= depth && again == if wrap then lastTag else 0
      invariant Rest(seen, next, w, last, end, again) == goal
      decreases wrap, end - last
    {
      NextFreeIs(seen(next), w, end, last);
      RestStep(seen, next, w, last, end, again);
      var tag := NextZero(seen(next).words[w].bits, end, last);
      if tag >= end {
        next := next + 1;
        if !wrap {
          return -1, next;
        }
        wrap, end, last, again := false, lastTag, 0, 0;
      } else {
        last := tag + 1;
        var taken := seen(next + 1).words[w].bits[tag];
        next := next + 2;
        if !taken {
          return tag, next;
        }
      }
    }
  }

  /** `__bt_get` among other CPUs, past the fair-share check. */
  method Get(seen: Sights, depth: nat, perWord: nat, cache: nat) returns (tag: int, ghost next: nat)
    requires Shows(seen, depth, perWord) && Starts(depth, perWord, cache)
    ensures tag < 0 <==> Find(seen, depth, perWord, cache).Nothing?
    ensures tag >= 0 ==> tag < depth && 0 < next && !seen(next - 1).Busy(tag)
  {
    StartsInside(depth, perWord, cache);
    var index: nat, last: nat, k: nat := IndexOf(cache, perWord), Wrap(cache, perWord), 0;
    var left: nat := WordCount(depth, perWord);
    while left > 0
      invariant left <= WordCount(depth, perWord)
      invariant 0 < left ==> index < WordCount(depth, perWord) && last <= WordDepth(depth, perWord, index)
      invariant Search(seen, k, Round(depth, perWord, index, last, left)) == Find(seen, depth, perWord, cache)
    {
      var bit, after := GetWord(seen, k, index, WordDepth(depth, perWord, index), last);
      NextRound(seen, k, depth, perWord, index, last, left, bit, after);
      if bit >= 0 {
        FoundWasFree(seen, depth, perWord, cache);
        return TagOf(index, bit, perWord), after;
      }
      k, last, left := after, 0, left - 1;
      index := NextWord(index, WordCount(depth, perWord));
    }
    return -1, 0;
  }

  lemma {:induction false} NextRound(seen: Sights, k: nat, depth: nat, perWord: nat, index: nat, last: nat, left: nat,
      bit: int, after: nat)
    requires 0 < perWord && 0 < left
    requires Search(seen, k, WordPasses(index, WordDepth(depth, perWord, index), last)) == Seen(bit, index, after)
    ensures Search(seen, k, Round(depth, perWord, index, last, left)) ==
      if bit >= 0 then Got(index, bit, after)
      else Search(seen, after, Round(depth, perWord, NextWord(index, WordCount(depth, perWord)), 0, left - 1))
  {
    var first := WordPasses(index, WordDepth(depth, perWord, index), last);
    var rest := Round(depth, perWord, NextWord(index, WordCount(depth, perWord)), 0, left - 1);
    if bit < 0 {
      SearchOn(seen, k, first, rest);
    } else {
      SearchGotBefore(seen, k, first, rest);
    }
  }

  lemma {:induction false} SearchGotBefore(seen: Sights, k: nat, a: seq<Pass>, b: seq<Pass>)
    requires Search(seen, k, a).Got?
    ensures Search(seen, k, a + b) == Search(seen, k, a)
    decreases |a|
  {
    var p := a[0];
    if Scan(seen, k, p.word, p.lo, p.hi).Miss? {
      SearchGotBefore(seen, Scan(seen, k, p.word, p.lo, p.hi).next, a[1..], b);
      assert (a + b)[1..] == a[1..] + b;
    }
  }
}
