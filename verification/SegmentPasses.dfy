/** The two passes of block/blk-merge.c over a list of bios. */
module SegmentPasses {
  import opened Segments

  datatype Bio = Bio(vecs: seq<Bvec>, frontSize: nat, backSize: nat, physSegments: nat, segValid: bool)

  /** A scatterlist entry. */
  datatype Sg = Sg(addr: nat, length: nat)

  /** The stretches of memory of a bio list, in order. */
  function Data(bios: seq<Bio>): seq<Bvec> {
    if bios == [] then [] else Data(bios[..|bios| - 1]) + Last(bios).vecs
  }

  function Max(a: nat, b: nat): nat {
    if a < b then b else a
  }

  /** Size of the segment being built, zero before the first. */
  function OpenSize(segs: seq<Segment>): nat {
    if segs == [] then 0 else Size(Last(segs))
  }

  function FrontSize(segs: seq<Segment>, front: nat): nat {
    if segs == [] then front else Max(front, Size(segs[0]))
  }

  lemma DataPrefix(bios: seq<Bio>, i: nat)
    requires i < |bios|
    ensures Data(bios[..i + 1]) == Data(bios[..i]) + bios[i].vecs
  {
    assert bios[..i + 1][..i] == bios[..i];
  }

  /** The local variables of the counting loop after the stretches `bs`. */
  ghost predicate Counting(q: Queue, bs: seq<Bvec>, nr: nat, segSize: nat, prev: Bvec, highPrev: bool, front: nat,
      front0: nat) {
    var segs := CountSegs(q, bs);
    && nr == |segs| && segSize == OpenSize(segs)
    && (segs == [] ==> highPrev)
    && (segs != [] ==> prev == Last(Last(segs)) && highPrev == q.high(Last(segs)[0]))
    && front == if nr > 1 then FrontSize(segs, front0) else front0
  }

  lemma CountStep(q: Queue, bs: seq<Bvec>, b: Bvec)
    ensures var segs := CountSegs(q, bs);
      CountSegs(q, bs + [b]) == Grow(segs, b, segs != [] && CountJoins(q, Last(segs), b))
  {
    assert (bs + [b])[..|bs|] == bs;
  }

  lemma MapStep(q: Queue, bs: seq<Bvec>, b: Bvec)
    ensures var segs := MapSegs(q, bs);
      MapSegs(q, bs + [b]) == Grow(segs, b, segs != [] && MapJoins(q, Last(segs), b))
  {
    assert (bs + [b])[..|bs|] == bs;
  }

  lemma JoinedStep(segs: seq<Segment>, b: Bvec)
    requires segs != [] && segs[0] != [] && Last(segs) != []
    ensures var g := Grow(segs, b, true);
      && |g| == |segs| && Last(Last(g)) == b && Last(g)[0] == Last(segs)[0]
      && OpenSize(g) == OpenSize(segs) + b.len && (|segs| > 1 ==> g[0] == segs[0])
  {
    SizeSnoc(Last(segs), b);
  }

  lemma OpenedStep(segs: seq<Segment>, b: Bvec)
    ensures var g := Grow(segs, b, false);
      && |g| == |segs| + 1 && Last(g) == [b] && OpenSize(g) == b.len && (segs != [] ==> g[0] == segs[0])
  {
    SizeSnoc([], b);
  }

  /** One round of the counting loop. */
  method CountOne(q: Queue, b: Bvec, nr0: nat, segSize0: nat, prev0: Bvec, highPrev0: bool, front0: nat,
                  ghost bs: seq<Bvec>, ghost first: nat)
    returns (nr: nat, segSize: nat, prev: Bvec, highPrev: bool, front: nat)
    requires Counting(q, bs, nr0, segSize0, prev0, highPrev0, front0, first)
    ensures Counting(q, bs + [b], nr, segSize, prev, highPrev, front, first)
  {
    nr, segSize, highPrev, front := nr0, segSize0, highPrev0, front0;
    ghost var segs := CountSegs(q, bs);
    CountStep(q, bs, b);
    var high := q.high(b);
    if !high && !highPrev && q.cluster && segSize + b.len <= q.maxSegmentSize && q.joins(prev0, b) {
      JoinedStep(segs, b);
      segSize := segSize + b.len;
      prev := b;
    } else {
      OpenedStep(segs, b);
      if nr == 1 && segSize > front {
        front := segSize;
      }
      nr := nr + 1;
      prev := b;
      segSize := b.len;
      highPrev := high;
    }
  }

  /**
   * `__blk_recalc_rq_segments`: the number of segments, and the first and last bio's idea of the size of
   * the segments at the ends.
   */
  method RecalcRqSegments(q: Queue, bios: seq<Bio>) returns (nr: nat, front: nat, back: nat)
    requires bios != []
    ensures var segs := CountSegs(q, Data(bios));
      nr == |segs| && front == FrontSize(segs, bios[0].frontSize) && back == Max(Last(bios).backSize, OpenSize(segs))
  {
    front := bios[0].frontSize;
    ghost var first := front;
    var segSize: nat, prev, highPrev := 0, Bvec(0, 0), true;
    nr := 0;
    for i := 0 to |bios|
      invariant Counting(q, Data(bios[..i]), nr, segSize, prev, highPrev, front, first)
    {
      DataPrefix(bios, i);
      var vecs := bios[i].vecs;
      ghost var before := Data(bios[..i]);
      assert before + vecs[..0] == before;
      for j := 0 to |vecs|
        invariant Counting(q, before + vecs[..j], nr, segSize, prev, highPrev, front, first)
      {
        assert before + vecs[..j + 1] == before + vecs[..j] + [vecs[j]];
        nr, segSize, prev, highPrev, front :=
          CountOne(q, vecs[j], nr, segSize, prev, highPrev, front, before + vecs[..j], first);
      }
      assert before + vecs[..|vecs|] == Data(bios[..i + 1]);
    }
    assert bios[..|bios|] == bios;
    if nr == 1 && segSize > front {
      front := segSize;
    }
    back := Last(bios).backSize;
    if segSize > back {
      back := segSize;
    }
  }

  /** `blk_recount_segments` for a bio taken out of its list. */
  function Recount(q: Queue, b: Bio): Bio {
    var segs := CountSegs(q, b.vecs);
    b.(physSegments := |segs|, frontSize := FrontSize(segs, b.frontSize),
       backSize := Max(b.backSize, OpenSize(segs)), segValid := true)
  }

  method RecountSegments(q: Queue, b: Bio) returns (r: Bio)
    ensures r == Recount(q, b)
  {
    var nr, front, back := RecalcRqSegments(q, [b]);
    assert Data([b]) == b.vecs by {
      assert [b][..0] == [];
    }
    r := b.(physSegments := nr, frontSize := front, backSize := back, segValid := true);
  }

  // Mapping

  /** Entries for a cut: where each segment starts and how long it is. */
  function Entries(segs: seq<Segment>): seq<Sg>
    requires forall i :: 0 <= i < |segs| ==> segs[i] != []
  {
    seq(|segs|, i requires 0 <= i < |segs| => Sg(segs[i][0].addr, Size(segs[i])))
  }

  ghost predicate Mapped(q: Queue, bs: seq<Bvec>, list: seq<Sg>, nsegs: nat, prev: Bvec) {
    var segs := MapSegs(q, bs);
    && nsegs == |segs| <= |list| && list[..nsegs] == Entries(segs)
    && (segs != [] ==> prev == Last(Last(segs)))
  }

  lemma EntriesJoined(segs: seq<Segment>, b: Bvec)
    requires segs != [] && forall i :: 0 <= i < |segs| ==> segs[i] != []
    ensures var e := Entries(segs); var k := |segs| - 1;
      Entries(Grow(segs, b, true)) == e[k := Sg(e[k].addr, e[k].length + b.len)]
  {
    SizeSnoc(Last(segs), b);
  }

  lemma EntriesOpened(segs: seq<Segment>, b: Bvec)
    requires forall i :: 0 <= i < |segs| ==> segs[i] != []
    ensures Entries(Grow(segs, b, false)) == Entries(segs) + [Sg(b.addr, b.len)]
  {
    SizeSnoc([], b);
  }

  lemma {:induction false} MapGrows(q: Queue, bs: seq<Bvec>, k: nat)
    requires k <= |bs|
    ensures |MapSegs(q, bs[..k])| <= |MapSegs(q, bs)|
    decreases |bs| - k
  {
    if k < |bs| {
      MapStep(q, bs[..k], bs[k]);
      assert bs[..k + 1] == bs[..k] + [bs[k]];
      MapGrows(q, bs, k + 1);
    } else {
      assert bs[..k] == bs;
    }
  }

  /** `__blk_segment_map_sg`. */
  method SegmentMapSg(q: Queue, b: Bvec, list: array<Sg>, nsegs0: nat, prev0: Bvec, ghost bs: seq<Bvec>)
    returns (nsegs: nat, prev: Bvec)
    requires Mapped(q, bs, list[..], nsegs0, prev0) && |MapSegs(q, bs + [b])| <= list.Length
    modifies list
    ensures Mapped(q, bs + [b], list[..], nsegs, prev)
  {
    nsegs, prev := nsegs0, b;
    ghost var segs := MapSegs(q, bs);
    MapStep(q, bs, b);
    if nsegs > 0 && q.cluster && list[nsegs - 1].length + b.len <= q.maxSegmentSize && q.joins(prev0, b) {
      assert list[nsegs - 1] == Entries(segs)[nsegs - 1];
      EntriesJoined(segs, b);
      list[nsegs - 1] := list[nsegs - 1].(length := list[nsegs - 1].length + b.len);
    } else {
      assert nsegs > 0 ==> list[nsegs - 1] == Entries(segs)[nsegs - 1];
      EntriesOpened(segs, b);
      list[nsegs] := Sg(b.addr, b.len);
      nsegs := nsegs + 1;
    }
  }

  lemma RoomFor(q: Queue, bs: seq<Bvec>, before: seq<Bvec>, b: Bvec)
    requires before + [b] <= bs
    ensures |MapSegs(q, before + [b])| <= |MapSegs(q, bs)|
  {
    assert bs[..|before| + 1] == before + [b];
    MapGrows(q, bs, |before| + 1);
  }

  lemma NextVec(before: seq<Bvec>, vecs: seq<Bvec>, bs: seq<Bvec>, j: nat)
    requires j < |vecs| && before + vecs <= bs
    ensures before + vecs[..j + 1] == (before + vecs[..j]) + [vecs[j]] <= bs
  {
    assert before + vecs[..j + 1] <= before + vecs;
  }

  /** The stretches of one bio. */
  method MapVecs(q: Queue, vecs: seq<Bvec>, list: array<Sg>, nsegs0: nat, prev0: Bvec,
                 ghost before: seq<Bvec>, ghost bs: seq<Bvec>)
    returns (nsegs: nat, prev: Bvec)
    requires Mapped(q, before, list[..], nsegs0, prev0)
    requires before + vecs <= bs && |MapSegs(q, bs)| <= list.Length
    modifies list
    ensures Mapped(q, before + vecs, list[..], nsegs, prev)
  {
    nsegs, prev := nsegs0, prev0;
    assert before + vecs[..0] == before;
    for j := 0 to |vecs|
      invariant Mapped(q, before + vecs[..j], list[..], nsegs, prev)
    {
      ghost var done := before + vecs[..j];
      NextVec(before, vecs, bs, j);
      RoomFor(q, bs, done, vecs[j]);
      nsegs, prev := SegmentMapSg(q, vecs[j], list, nsegs, prev, done);
    }
    assert vecs[..|vecs|] == vecs;
  }

  /** `__blk_bios_map_sg`: a list with room for the segments counted is never overrun. */
  method BiosMapSg(q: Queue, bios: seq<Bio>, list: array<Sg>) returns (nsegs: nat)
    requires |CountSegs(q, Data(bios))| <= list.Length
    modifies list
    ensures nsegs == |MapSegs(q, Data(bios))| <= |CountSegs(q, Data(bios))|
    ensures list[..nsegs] == Entries(MapSegs(q, Data(bios)))
  {
    MapWithinCount(q, Data(bios));
    nsegs := 0;
    var prev := Bvec(0, 0);
    for i := 0 to |bios|
      invariant Mapped(q, Data(bios[..i]), list[..], nsegs, prev)
    {
      DataPrefix(bios, i);
      DataWhole(bios, i + 1);
      nsegs, prev := MapVecs(q, bios[i].vecs, list, nsegs, prev, Data(bios[..i]), Data(bios));
    }
    assert bios[..|bios|] == bios;
  }

  lemma {:induction false} DataWhole(bios: seq<Bio>, i: nat)
    requires i <= |bios|
    ensures Data(bios[..i]) <= Data(bios)
    decreases |bios| - i
  {
    if i < |bios| {
      DataPrefix(bios, i);
      DataWhole(bios, i + 1);
    } else {
      assert bios[..i] == bios;
    }
  }
}
