/** Physical segments of a bio list: how they are counted and how they are mapped. */
module Segments {

  /** What bio_for_each_segment yields: a stretch of memory. */
  datatype Bvec = Bvec(addr: nat, len: nat)

  /** Queue limits. `joins` is BIOVEC_PHYS_MERGEABLE and BIOVEC_SEG_BOUNDARY, `high` a page above the bounce limit. */
  datatype Queue = Queue(
    cluster: bool,
    maxSegmentSize: nat,
    maxSegments: nat,
    joins: (Bvec, Bvec) -> bool,
    high: Bvec -> bool
  )

  type Segment = seq<Bvec>

  function Size(s: Segment): nat {
    if s == [] then 0 else Size(s[..|s| - 1]) + s[|s| - 1].len
  }

  function Last<T>(s: seq<T>): T
    requires s != []
  {
    s[|s| - 1]
  }

  function Flatten(segs: seq<Segment>): seq<Bvec> {
    if segs == [] then [] else Flatten(segs[..|segs| - 1]) + Last(segs)
  }

  /** The mapper extends the current entry by `b`. */
  predicate MapJoins(q: Queue, s: Segment, b: Bvec)
    requires s != []
  {
    q.cluster && Size(s) + b.len <= q.maxSegmentSize && q.joins(Last(s), b)
  }

  /** The counter does so only when neither the segment nor `b` is in high memory. */
  predicate CountJoins(q: Queue, s: Segment, b: Bvec)
    requires s != []
  {
    !q.high(b) && !q.high(s[0]) && MapJoins(q, s, b)
  }

  /** One step of a greedy pass. */
  function Grow(segs: seq<Segment>, b: Bvec, join: bool): seq<Segment>
    requires join ==> segs != []
  {
    if join then segs[..|segs| - 1] + [Last(segs) + [b]] else segs + [[b]]
  }

  /** Segments as `__blk_recalc_rq_segments` cuts them. */
  function CountSegs(q: Queue, bs: seq<Bvec>): seq<Segment>
    ensures forall i :: 0 <= i < |CountSegs(q, bs)| ==> CountSegs(q, bs)[i] != []
  {
    if bs == [] then []
    else
      var segs := CountSegs(q, bs[..|bs| - 1]);
      Grow(segs, Last(bs), segs != [] && CountJoins(q, Last(segs), Last(bs)))
  }

  /** Entries as `__blk_bios_map_sg` cuts them. */
  function MapSegs(q: Queue, bs: seq<Bvec>): seq<Segment>
    ensures forall i :: 0 <= i < |MapSegs(q, bs)| ==> MapSegs(q, bs)[i] != []
  {
    if bs == [] then []
    else
      var segs := MapSegs(q, bs[..|bs| - 1]);
      Grow(segs, Last(bs), segs != [] && MapJoins(q, Last(segs), Last(bs)))
  }

  /** A segment the hardware accepts: one stretch, or joined stretches within the size limit. */
  ghost predicate Sound(q: Queue, s: Segment) {
    && s != []
    && (|s| > 1 ==> q.cluster && Size(s) <= q.maxSegmentSize)
    && forall i, j :: 0 <= i && j == i + 1 && j < |s| ==> q.joins(s[i], s[j])
  }

  ghost predicate Cuts(q: Queue, segs: seq<Segment>, bs: seq<Bvec>) {
    Flatten(segs) == bs && forall i :: 0 <= i < |segs| ==> Sound(q, segs[i])
  }

  lemma SizeSnoc(s: Segment, b: Bvec)
    ensures Size(s + [b]) == Size(s) + b.len
  {
    assert (s + [b])[..|s|] == s;
  }

  lemma FlattenSnoc(segs: seq<Segment>, s: Segment)
    ensures Flatten(segs + [s]) == Flatten(segs) + s
  {
    assert (segs + [s])[..|segs|] == segs;
  }

  lemma GrowFlattens(segs: seq<Segment>, b: Bvec, join: bool)
    requires join ==> segs != []
    ensures Flatten(Grow(segs, b, join)) == Flatten(segs) + [b]
  {
    if join {
      var init := segs[..|segs| - 1];
      assert segs == init + [Last(segs)];
      FlattenSnoc(init, Last(segs) + [b]);
    } else {
      FlattenSnoc(segs, [b]);
    }
  }

  lemma GrowSound(q: Queue, s: Segment, b: Bvec)
    requires Sound(q, s) && MapJoins(q, s, b)
    ensures Sound(q, s + [b])
  {
    SizeSnoc(s, b);
  }

  lemma GrowCuts(q: Queue, segs: seq<Segment>, bs: seq<Bvec>, b: Bvec, join: bool)
    requires Cuts(q, segs, bs) && (join ==> segs != [] && MapJoins(q, Last(segs), b))
    ensures Cuts(q, Grow(segs, b, join), bs + [b])
  {
    GrowFlattens(segs, b, join);
    if join {
      GrowSound(q, Last(segs), b);
    } else {
      assert Sound(q, [b]);
    }
  }

  lemma {:induction false} CountCuts(q: Queue, bs: seq<Bvec>)
    ensures Cuts(q, CountSegs(q, bs), bs)
  {
    if bs != [] {
      var init := bs[..|bs| - 1];
      CountCuts(q, init);
      var segs := CountSegs(q, init);
      GrowCuts(q, segs, init, Last(bs), segs != [] && CountJoins(q, Last(segs), Last(bs)));
      assert bs == init + [Last(bs)];
    }
  }

  /** The entries emitted flatten to exactly the data, and every joined entry respects the size limit. */
  lemma {:induction false} MapCuts(q: Queue, bs: seq<Bvec>)
    ensures Cuts(q, MapSegs(q, bs), bs)
  {
    if bs != [] {
      var init := bs[..|bs| - 1];
      MapCuts(q, init);
      var segs := MapSegs(q, init);
      GrowCuts(q, segs, init, Last(bs), segs != [] && MapJoins(q, Last(segs), Last(bs)));
      assert bs == init + [Last(bs)];
    }
  }

  // The mapper stays ahead of every other way to cut the data

  ghost predicate Ahead(m: seq<Segment>, segs: seq<Segment>) {
    |m| < |segs| || (|m| == |segs| && (m != [] ==> Size(Last(m)) <= Size(Last(segs))))
  }

  /** The cut without the last stretch of data. */
  function Shrink(segs: seq<Segment>): seq<Segment>
    requires segs != [] && Last(segs) != []
  {
    var init := segs[..|segs| - 1];
    if |Last(segs)| == 1 then init else init + [Last(segs)[..|Last(segs)| - 1]]
  }

  lemma SoundPrefix(q: Queue, s: Segment)
    requires Sound(q, s) && |s| > 1
    ensures Sound(q, s[..|s| - 1])
    ensures Size(s) == Size(s[..|s| - 1]) + Last(s).len && q.joins(s[|s| - 2], Last(s))
  {
  }

  lemma ShrinkCuts(q: Queue, segs: seq<Segment>, bs: seq<Bvec>)
    requires Cuts(q, segs, bs) && segs != []
    ensures bs != [] && Last(bs) == Last(Last(segs))
    ensures Cuts(q, Shrink(segs), bs[..|bs| - 1])
  {
    var init, s := segs[..|segs| - 1], Last(segs);
    assert Sound(q, s);
    if |s| == 1 {
      assert bs[..|bs| - 1] == Flatten(init);
    } else {
      SoundPrefix(q, s);
      FlattenSnoc(init, s[..|s| - 1]);
      assert bs[..|bs| - 1] == Flatten(init) + s[..|s| - 1];
    }
  }

  lemma LastOfCut(q: Queue, segs: seq<Segment>, bs: seq<Bvec>)
    requires Cuts(q, segs, bs) && bs != []
    ensures segs != [] && Last(segs) != [] && Last(Last(segs)) == Last(bs)
  {
    assert segs != [];
    assert Sound(q, Last(segs));
  }

  /** If the cut joins the last stretch, the mapper, being ahead, either joins it too or starts a later entry. */
  lemma StaysAhead(q: Queue, m: seq<Segment>, segs: seq<Segment>, bs: seq<Bvec>)
    requires bs != [] && Cuts(q, segs, bs)
    requires Cuts(q, m, bs[..|bs| - 1]) && segs != [] && Last(segs) != [] && Ahead(m, Shrink(segs))
    ensures Ahead(Grow(m, Last(bs), m != [] && Last(m) != [] && MapJoins(q, Last(m), Last(bs))), segs)
  {
    var s, b := Last(segs), Last(bs);
    assert Sound(q, s);
    ShrinkCuts(q, segs, bs);
    if m != [] {
      assert Sound(q, Last(m));
      SizeSnoc(Last(m), b);
      LastOfCut(q, m, bs[..|bs| - 1]);
      LastOfCut(q, Shrink(segs), bs[..|bs| - 1]);
    }
    SizeSnoc([], b);
    if |s| > 1 {
      SoundPrefix(q, s);
    }
  }

  /** Greedy is optimal: no sound cut of the same data has fewer segments than the mapper emits. */
  lemma {:induction false} MapIsLeast(q: Queue, segs: seq<Segment>, bs: seq<Bvec>)
    requires Cuts(q, segs, bs)
    ensures Ahead(MapSegs(q, bs), segs)
    decreases |bs|
  {
    if bs != [] {
      LastOfCut(q, segs, bs);
      ShrinkCuts(q, segs, bs);
      MapIsLeast(q, Shrink(segs), bs[..|bs| - 1]);
      MapCuts(q, bs[..|bs| - 1]);
      StaysAhead(q, MapSegs(q, bs[..|bs| - 1]), segs, bs);
    }
  }

  /** The mapper emits at most as many entries as were counted, although it ignores high memory. */
  lemma MapWithinCount(q: Queue, bs: seq<Bvec>)
    ensures |MapSegs(q, bs)| <= |CountSegs(q, bs)|
  {
    CountCuts(q, bs);
    MapIsLeast(q, CountSegs(q, bs), bs);
  }
}
