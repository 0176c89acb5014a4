/** Appending bios to requests and merging requests, and what that does to nr_phys_segments. */
module MergeHistory {
  import opened Segments
  import opened SegmentPasses
  import opened Seqs

  datatype Req = Req(bios: seq<Bio>, nr: nat)

  /** A bio with data whose cached counts, when marked valid, are right. */
  ghost predicate Measured(q: Queue, b: Bio) {
    && b.vecs != []
    && (b.segValid ==>
        var segs := CountSegs(q, b.vecs);
        && b.physSegments == |segs|
        && FrontSize(segs, b.frontSize) == b.frontSize && Max(b.backSize, OpenSize(segs)) == b.backSize)
  }

  /** `bio_phys_segments` counts only when the cached count is not valid. */
  function Counted(q: Queue, b: Bio): Bio {
    if b.segValid then b else Recount(q, b)
  }

  /** `blk_rq_append_bio` on an empty request. */
  function Start(q: Queue, b: Bio): Req {
    Req([Counted(q, b)], Counted(q, b).physSegments)
  }

  function SetLast(bios: seq<Bio>, b: Bio): seq<Bio>
    requires bios != []
  {
    bios[..|bios| - 1] + [b]
  }

  datatype Outcome = Outcome(ok: bool, req: Req)

  /** `blk_rq_append_bio` through `ll_back_merge_fn`; `fits` and `integrity` stand for the checks on other limits. */
  function Append(q: Queue, r: Req, b: Bio, fits: bool, integrity: bool): Outcome
    requires r.bios != []
  {
    if !fits then Outcome(false, r)
    else
      var bios := SetLast(r.bios, Counted(q, Last(r.bios)));
      var b' := Counted(q, b);
      if r.nr + b'.physSegments > q.maxSegments || !integrity then Outcome(false, r.(bios := bios))
      else Outcome(true, Req(bios + [b'], r.nr + b'.physSegments))
  }

  /** `bio_attempt_front_merge` through `ll_front_merge_fn`. */
  function Prepend(q: Queue, r: Req, b: Bio, fits: bool, integrity: bool): Outcome
    requires r.bios != []
  {
    if !fits then Outcome(false, r)
    else
      var bios := r.bios[0 := Counted(q, r.bios[0])];
      var b' := Counted(q, b);
      if r.nr + b'.physSegments > q.maxSegments || !integrity then Outcome(false, r.(bios := bios))
      else Outcome(true, Req([b'] + bios, r.nr + b'.physSegments))
  }

  /** `blk_phys_contig_segment`, for bios with data. */
  predicate Contig(q: Queue, b: Bio, nxt: Bio)
    requires b.vecs != [] && nxt.vecs != []
  {
    q.cluster && b.backSize + nxt.frontSize <= q.maxSegmentSize && q.joins(Last(b.vecs), nxt.vecs[0])
  }

  ghost predicate HasData(r: Req) {
    r.bios != [] && forall i :: 0 <= i < |r.bios| ==> r.bios[i].vecs != []
  }

  /** The sizes `ll_merge_requests_fn` writes, whether or not the merge then happens. */
  function ResizeFront(r: Req, size: nat, contig: bool): Req
    requires r.bios != []
  {
    if contig && r.nr == 1 then r.(bios := r.bios[0 := r.bios[0].(frontSize := size)]) else r
  }

  function ResizeBack(r: Req, size: nat, contig: bool): Req
    requires r.bios != []
  {
    if contig && r.nr == 1 then r.(bios := SetLast(r.bios, Last(r.bios).(backSize := size))) else r
  }

  datatype MergeOutcome = MergeOutcome(ok: bool, req: Req, next: Req)

  /** `attempt_merge`; `admitted` stands for the checks before the segments are looked at. */
  function Merge(q: Queue, r: Req, next: Req, admitted: bool, integrity: bool): MergeOutcome
    requires r.bios != [] && next.bios != [] && Last(r.bios).vecs != [] && next.bios[0].vecs != []
    requires 0 < r.nr
  {
    if !admitted then MergeOutcome(false, r, next)
    else
      var size := Last(r.bios).backSize + next.bios[0].frontSize;
      var contig := Contig(q, Last(r.bios), next.bios[0]);
      var r', next' := ResizeFront(r, size, contig), ResizeBack(next, size, contig);
      var total := r.nr + next.nr - (if contig then 1 else 0);
      if total > q.maxSegments || !integrity then MergeOutcome(false, r', next')
      else MergeOutcome(true, Req(r'.bios + next'.bios, total), next'.(bios := []))
  }

  // The cut of a request's data that its count stands for

  ghost predicate Backed(q: Queue, r: Req, segs: seq<Segment>) {
    && HasData(r)
    && Cuts(q, segs, Data(r.bios)) && |segs| == r.nr && segs != []
    && Size(segs[0]) <= r.bios[0].frontSize
    && Size(Last(segs)) <= Last(r.bios).backSize
  }

  lemma {:induction false} FlattenConcat(s: seq<Segment>, t: seq<Segment>)
    ensures Flatten(s + t) == Flatten(s) + Flatten(t)
  {
    if t == [] {
      assert s + t == s;
    } else {
      var init := t[..|t| - 1];
      FlattenConcat(s, init);
      assert s + t == (s + init) + [Last(t)];
      FlattenSnoc(s + init, Last(t));
      Assoc(Flatten(s), Flatten(init), Last(t));
    }
  }

  lemma {:induction false} DataConcat(a: seq<Bio>, b: seq<Bio>)
    ensures Data(a + b) == Data(a) + Data(b)
  {
    if b == [] {
      assert a + b == a;
    } else {
      var init := b[..|b| - 1];
      DataConcat(a, init);
      assert (a + b)[..|a + b| - 1] == a + init;
      Assoc(Data(a), Data(init), Last(b).vecs);
    }
  }

  /** Only the stretches of memory of a list matter for its data. */
  lemma {:induction false} DataOfVecs(a: seq<Bio>, b: seq<Bio>)
    requires |a| == |b| && forall i :: 0 <= i < |a| ==> a[i].vecs == b[i].vecs
    ensures Data(a) == Data(b)
  {
    if a != [] {
      DataOfVecs(a[..|a| - 1], b[..|b| - 1]);
    }
  }

  lemma {:induction false} SizeConcat(s: Segment, t: Segment)
    ensures Size(s + t) == Size(s) + Size(t)
  {
    if t == [] {
      assert s + t == s;
    } else {
      SizeConcat(s, t[..|t| - 1]);
      assert s + t == (s + t[..|t| - 1]) + [Last(t)];
      SizeSnoc(s + t[..|t| - 1], Last(t));
    }
  }

  lemma DataSingle(b: Bio)
    ensures Data([b]) == b.vecs
  {
    assert [b][..0] == [];
  }

  lemma StartBacked(q: Queue, b: Bio)
    requires Measured(q, b)
    ensures Backed(q, Start(q, b), CountSegs(q, b.vecs))
  {
    CountCuts(q, b.vecs);
    DataSingle(Counted(q, b));
    LastOfCut(q, CountSegs(q, b.vecs), b.vecs);
  }

  /** The tail recount of `ll_back_merge_fn` raises sizes only. */
  lemma TailRecountBacked(q: Queue, r: Req, segs: seq<Segment>)
    requires Backed(q, r, segs)
    ensures Backed(q, Recounted(q, r), segs)
  {
    DataOfVecs(r.bios, SetLast(r.bios, Counted(q, Last(r.bios))));
  }

  lemma CutsConcat(q: Queue, s: seq<Segment>, bs: seq<Bvec>, t: seq<Segment>, cs: seq<Bvec>)
    requires Cuts(q, s, bs) && Cuts(q, t, cs)
    ensures Cuts(q, s + t, bs + cs)
  {
    FlattenConcat(s, t);
    forall i | 0 <= i < |s + t|
      ensures Sound(q, (s + t)[i])
    {
      assert (s + t)[i] == if i < |s| then s[i] else t[i - |s|];
    }
  }

  lemma EndsOfConcat<T>(s: seq<T>, t: seq<T>)
    requires s != [] && t != []
    ensures (s + t)[0] == s[0] && Last(s + t) == Last(t)
  {
  }

  /** One list after the other, segments kept apart. */
  lemma JoinBacked(q: Queue, r: Req, s: seq<Segment>, next: Req, t: seq<Segment>)
    requires Backed(q, r, s) && Backed(q, next, t)
    ensures Backed(q, Req(r.bios + next.bios, r.nr + next.nr), s + t)
  {
    var both := r.bios + next.bios;
    assert Cuts(q, s + t, Data(both)) by {
      DataConcat(r.bios, next.bios);
      CutsConcat(q, s, Data(r.bios), t, Data(next.bios));
    }
    EndsOfConcat(s, t);
    EndsOfConcat(r.bios, next.bios);
  }

  /** The last segment of one cut and the first of the next become one. */
  function Glue(s: seq<Segment>, t: seq<Segment>): seq<Segment>
    requires s != [] && t != []
  {
    s[..|s| - 1] + [Last(s) + t[0]] + t[1..]
  }

  lemma FlattenCons(t: seq<Segment>)
    requires t != []
    ensures Flatten(t) == t[0] + Flatten(t[1..])
  {
    assert [t[0]] + t[1..] == t;
    FlattenConcat([t[0]], t[1..]);
    FlattenSnoc([], t[0]);
    assert [] + [t[0]] == [t[0]];
  }

  lemma GlueFlattens(s: seq<Segment>, t: seq<Segment>)
    requires s != [] && t != []
    ensures Flatten(Glue(s, t)) == Flatten(s) + Flatten(t)
  {
    var init, joined := s[..|s| - 1], Last(s) + t[0];
    FlattenConcat(init + [joined], t[1..]);
    FlattenSnoc(init, joined);
    FlattenCons(t);
    assert Flatten(init) + joined + Flatten(t[1..]) == (Flatten(init) + Last(s)) + (t[0] + Flatten(t[1..]));
  }

  lemma JunctionSound(q: Queue, s: Segment, t: Segment)
    requires Sound(q, s) && Sound(q, t)
    requires q.cluster && Size(s) + Size(t) <= q.maxSegmentSize && q.joins(Last(s), t[0])
    ensures Sound(q, s + t)
  {
    SizeConcat(s, t);
  }

  lemma FirstOfCut(q: Queue, segs: seq<Segment>, bs: seq<Bvec>)
    requires Cuts(q, segs, bs) && segs != []
    ensures bs != [] && segs[0] != [] && segs[0][0] == bs[0]
  {
    FlattenCons(segs);
    assert Sound(q, segs[0]);
  }

  lemma DataEnds(r: Req)
    requires HasData(r)
    ensures Data(r.bios) != []
    ensures Last(Data(r.bios)) == Last(Last(r.bios).vecs)
    ensures Data(r.bios)[0] == r.bios[0].vecs[0]
  {
    DataConcat([r.bios[0]], r.bios[1..]);
    assert [r.bios[0]] + r.bios[1..] == r.bios;
    DataSingle(r.bios[0]);
  }

  lemma GlueCuts(q: Queue, s: seq<Segment>, bs: seq<Bvec>, t: seq<Segment>, cs: seq<Bvec>)
    requires Cuts(q, s, bs) && Cuts(q, t, cs) && s != [] && t != []
    requires Sound(q, Last(s) + t[0])
    ensures Cuts(q, Glue(s, t), bs + cs)
  {
    GlueFlattens(s, t);
    var g := Glue(s, t);
    forall i | 0 <= i < |g|
      ensures Sound(q, g[i])
    {
      assert g[i] == if i < |s| - 1 then s[i] else if i == |s| - 1 then Last(s) + t[0] else t[i - |s| + 1];
    }
  }

  /** Why the decrement is right: the front and back sizes bound the two segments that become one. */
  lemma ContigGlues(q: Queue, r: Req, s: seq<Segment>, next: Req, t: seq<Segment>)
    requires Backed(q, r, s) && Backed(q, next, t) && Contig(q, Last(r.bios), next.bios[0])
    ensures Cuts(q, Glue(s, t), Data(r.bios) + Data(next.bios))
    ensures Size(Last(s) + t[0]) <= Last(r.bios).backSize + next.bios[0].frontSize
  {
    DataEnds(r);
    DataEnds(next);
    LastOfCut(q, s, Data(r.bios));
    FirstOfCut(q, t, Data(next.bios));
    assert Sound(q, Last(s)) && Sound(q, t[0]);
    SizeConcat(Last(s), t[0]);
    JunctionSound(q, Last(s), t[0]);
    GlueCuts(q, s, Data(r.bios), t, Data(next.bios));
  }

  /** The sizes written by `ll_merge_requests_fn` stay upper bounds even if the merge is then refused. */
  lemma ResizeBacked(q: Queue, r: Req, s: seq<Segment>, size: nat)
    requires Backed(q, r, s)
    ensures Last(r.bios).backSize <= size ==> Backed(q, ResizeFront(r, size, true), s)
    ensures r.bios[0].frontSize <= size ==> Backed(q, ResizeBack(r, size, true), s)
  {
    if r.nr == 1 {
      assert s[0] == Last(s);
      DataOfVecs(r.bios, ResizeFront(r, size, true).bios);
      DataOfVecs(r.bios, ResizeBack(r, size, true).bios);
    }
  }

  lemma GlueEnds(s: seq<Segment>, t: seq<Segment>)
    requires s != [] && t != []
    ensures Glue(s, t)[0] == if |s| == 1 then Last(s) + t[0] else s[0]
    ensures Last(Glue(s, t)) == if |t| == 1 then Last(s) + t[0] else Last(t)
    ensures |Glue(s, t)| == |s| + |t| - 1
  {
  }

  lemma GlueSizes(q: Queue, r: Req, s: seq<Segment>, next: Req, t: seq<Segment>, size: nat)
    requires Backed(q, r, s) && Backed(q, next, t) && Size(Last(s) + t[0]) <= size
    ensures Size(Glue(s, t)[0]) <= ResizeFront(r, size, true).bios[0].frontSize
    ensures Size(Last(Glue(s, t))) <= Last(ResizeBack(next, size, true).bios).backSize
  {
    GlueEnds(s, t);
  }

  lemma ResizeKeepsData(r: Req, size: nat)
    requires HasData(r)
    ensures HasData(ResizeFront(r, size, true)) && Data(ResizeFront(r, size, true).bios) == Data(r.bios)
    ensures HasData(ResizeBack(r, size, true)) && Data(ResizeBack(r, size, true).bios) == Data(r.bios)
  {
    DataOfVecs(r.bios, ResizeFront(r, size, true).bios);
    DataOfVecs(r.bios, ResizeBack(r, size, true).bios);
  }

  lemma HasDataConcat(r: Req, next: Req, nr: nat)
    requires HasData(r) && HasData(next)
    ensures HasData(Req(r.bios + next.bios, nr))
  {
  }

  lemma GlueData(r: Req, next: Req, size: nat, nr: nat)
    requires HasData(r) && HasData(next)
    ensures var whole := Req(ResizeFront(r, size, true).bios + ResizeBack(next, size, true).bios, nr);
      HasData(whole) && Data(whole.bios) == Data(r.bios) + Data(next.bios)
  {
    var r', next' := ResizeFront(r, size, true), ResizeBack(next, size, true);
    ResizeKeepsData(r, size);
    ResizeKeepsData(next, size);
    DataConcat(r'.bios, next'.bios);
    HasDataConcat(r', next', nr);
  }

  lemma BackedEnds(q: Queue, a: Req, b: Req, nr: nat, segs: seq<Segment>)
    requires a.bios != [] && b.bios != [] && HasData(Req(a.bios + b.bios, nr))
    requires Cuts(q, segs, Data(a.bios + b.bios)) && |segs| == nr && segs != []
    requires Size(segs[0]) <= a.bios[0].frontSize && Size(Last(segs)) <= Last(b.bios).backSize
    ensures Backed(q, Req(a.bios + b.bios, nr), segs)
  {
    EndsOfConcat(a.bios, b.bios);
  }

  lemma GlueOf(q: Queue, r: Req, s: seq<Segment>, next: Req, t: seq<Segment>, size: nat) returns (g: seq<Segment>)
    requires Backed(q, r, s) && Backed(q, next, t) && Contig(q, Last(r.bios), next.bios[0])
    requires size == Last(r.bios).backSize + next.bios[0].frontSize
    ensures Cuts(q, g, Data(r.bios) + Data(next.bios)) && |g| == r.nr + next.nr - 1 > 0
    ensures Size(g[0]) <= ResizeFront(r, size, true).bios[0].frontSize
    ensures Size(Last(g)) <= Last(ResizeBack(next, size, true).bios).backSize
  {
    g := Glue(s, t);
    ContigGlues(q, r, s, next, t);
    GlueEnds(s, t);
    GlueSizes(q, r, s, next, t, size);
  }

  lemma GlueBacked(q: Queue, r: Req, s: seq<Segment>, next: Req, t: seq<Segment>, size: nat)
    returns (g: seq<Segment>)
    requires Backed(q, r, s) && Backed(q, next, t) && Contig(q, Last(r.bios), next.bios[0])
    requires size == Last(r.bios).backSize + next.bios[0].frontSize
    ensures Backed(q, Req(ResizeFront(r, size, true).bios + ResizeBack(next, size, true).bios, r.nr + next.nr - 1), g)
  {
    g := GlueOf(q, r, s, next, t, size);
    GlueData(r, next, size, r.nr + next.nr - 1);
    BackedEnds(q, ResizeFront(r, size, true), ResizeBack(next, size, true), r.nr + next.nr - 1, g);
  }

  // Whole histories

  lemma TailRecountKeepsData(q: Queue, bios: seq<Bio>)
    requires bios != []
    ensures Data(SetLast(bios, Counted(q, Last(bios)))) == Data(bios)
  {
    DataOfVecs(bios, SetLast(bios, Counted(q, Last(bios))));
  }

  function Recounted(q: Queue, r: Req): Req
    requires r.bios != []
  {
    r.(bios := SetLast(r.bios, Counted(q, Last(r.bios))))
  }

  lemma AppendIs(q: Queue, r: Req, b: Bio, fits: bool, integrity: bool)
    requires r.bios != []
    ensures var o, r' := Append(q, r, b, fits, integrity), Recounted(q, r);
      o.req == if !fits then r else if !o.ok then r' else Req(r'.bios + Start(q, b).bios, r'.nr + Start(q, b).nr)
  {
  }

  lemma AppendBacked(q: Queue, r: Req, s: seq<Segment>, b: Bio, fits: bool, integrity: bool) returns (s': seq<Segment>)
    requires Backed(q, r, s) && Measured(q, b)
    ensures Backed(q, Append(q, r, b, fits, integrity).req, s')
  {
    AppendIs(q, r, b, fits, integrity);
    TailRecountBacked(q, r, s);
    if fits && Append(q, r, b, fits, integrity).ok {
      s' := s + CountSegs(q, b.vecs);
      StartBacked(q, b);
      JoinBacked(q, Recounted(q, r), s, Start(q, b), CountSegs(q, b.vecs));
    } else {
      s' := s;
    }
  }

  function HeadCounted(q: Queue, r: Req): Req
    requires r.bios != []
  {
    r.(bios := r.bios[0 := Counted(q, r.bios[0])])
  }

  /** The head recount of `ll_front_merge_fn` raises sizes only. */
  lemma HeadRecountBacked(q: Queue, r: Req, segs: seq<Segment>)
    requires Backed(q, r, segs)
    ensures Backed(q, HeadCounted(q, r), segs)
  {
    DataOfVecs(r.bios, HeadCounted(q, r).bios);
  }

  lemma PrependIs(q: Queue, r: Req, b: Bio, fits: bool, integrity: bool)
    requires r.bios != []
    ensures var o, r' := Prepend(q, r, b, fits, integrity), HeadCounted(q, r);
      o.req == if !fits then r else if !o.ok then r' else Req(Start(q, b).bios + r'.bios, Start(q, b).nr + r'.nr)
  {
  }

  lemma PrependBacked(q: Queue, r: Req, s: seq<Segment>, b: Bio, fits: bool, integrity: bool) returns (s': seq<Segment>)
    requires Backed(q, r, s) && Measured(q, b)
    ensures Backed(q, Prepend(q, r, b, fits, integrity).req, s')
  {
    PrependIs(q, r, b, fits, integrity);
    HeadRecountBacked(q, r, s);
    if fits && Prepend(q, r, b, fits, integrity).ok {
      s' := CountSegs(q, b.vecs) + s;
      StartBacked(q, b);
      JoinBacked(q, Start(q, b), CountSegs(q, b.vecs), HeadCounted(q, r), s);
    } else {
      s' := s;
    }
  }

  /** A bio accepted in front goes before the data; a refused one leaves it as it was. */
  lemma PrependConcatenates(q: Queue, r: Req, b: Bio, fits: bool, integrity: bool)
    requires r.bios != []
    ensures var o := Prepend(q, r, b, fits, integrity);
      Data(o.req.bios) == (if o.ok then b.vecs else []) + Data(r.bios)
  {
    var bios := HeadCounted(q, r).bios;
    DataOfVecs(r.bios, bios);
    DataConcat([Counted(q, b)], bios);
    DataSingle(Counted(q, b));
  }

  /** An accepted bio goes to the end of the list; a refused one leaves the data as it was. */
  lemma AppendConcatenates(q: Queue, r: Req, b: Bio, fits: bool, integrity: bool)
    requires r.bios != []
    ensures var o := Append(q, r, b, fits, integrity);
      Data(o.req.bios) == Data(r.bios) + (if o.ok then b.vecs else [])
  {
    var bios := SetLast(r.bios, Counted(q, Last(r.bios)));
    TailRecountKeepsData(q, r.bios);
    DataConcat(bios, [Counted(q, b)]);
    DataSingle(Counted(q, b));
  }

  lemma MergeIs(q: Queue, r: Req, next: Req, integrity: bool)
    requires r.bios != [] && next.bios != [] && Last(r.bios).vecs != [] && next.bios[0].vecs != []
    requires 0 < r.nr && Merge(q, r, next, true, integrity).ok
    ensures var size := Last(r.bios).backSize + next.bios[0].frontSize;
      Merge(q, r, next, true, integrity).req == if Contig(q, Last(r.bios), next.bios[0])
        then Req(ResizeFront(r, size, true).bios + ResizeBack(next, size, true).bios, r.nr + next.nr - 1)
        else Req(r.bios + next.bios, r.nr + next.nr)
  {
  }

  lemma MergeBacked(q: Queue, r: Req, s: seq<Segment>, next: Req, t: seq<Segment>, integrity: bool)
    returns (s': seq<Segment>)
    requires Backed(q, r, s) && Backed(q, next, t) && Merge(q, r, next, true, integrity).ok
    ensures Backed(q, Merge(q, r, next, true, integrity).req, s')
  {
    MergeIs(q, r, next, integrity);
    if Contig(q, Last(r.bios), next.bios[0]) {
      s' := GlueBacked(q, r, s, next, t, Last(r.bios).backSize + next.bios[0].frontSize);
    } else {
      s' := s + t;
      JoinBacked(q, r, s, next, t);
    }
  }

  lemma RefusedMergeBacked(q: Queue, r: Req, s: seq<Segment>, next: Req, t: seq<Segment>, admitted: bool,
      integrity: bool)
    requires Backed(q, r, s) && Backed(q, next, t) && !Merge(q, r, next, admitted, integrity).ok
    ensures Backed(q, Merge(q, r, next, admitted, integrity).req, s)
    ensures Backed(q, Merge(q, r, next, admitted, integrity).next, t)
  {
    var size := Last(r.bios).backSize + next.bios[0].frontSize;
    ResizeBacked(q, r, s, size);
    ResizeBacked(q, next, t, size);
  }

  /** A merge appends the second list to the first; a refused one leaves both as they were. */
  lemma MergeConcatenates(q: Queue, r: Req, next: Req, admitted: bool, integrity: bool)
    requires HasData(r) && HasData(next) && 0 < r.nr
    ensures var o := Merge(q, r, next, admitted, integrity);
      if o.ok then Data(o.req.bios) == Data(r.bios) + Data(next.bios) && |o.req.bios| == |r.bios| + |next.bios|
      else Data(o.req.bios) == Data(r.bios) && Data(o.next.bios) == Data(next.bios)
  {
    var size := Last(r.bios).backSize + next.bios[0].frontSize;
    var contig := Contig(q, Last(r.bios), next.bios[0]);
    ResizeKeepsData(r, size);
    ResizeKeepsData(next, size);
    DataConcat(ResizeFront(r, size, contig).bios, ResizeBack(next, size, contig).bios);
  }

  // Whole histories over a pool of requests; one whose bios were taken over is empty

  datatype Action =
    | Begin(b: Bio)
    | AppendTo(i: nat, b: Bio, fits: bool, integrity: bool)
    | PrependTo(i: nat, b: Bio, fits: bool, integrity: bool)
    | MergeInto(i: nat, j: nat, admitted: bool, integrity: bool)

  ghost predicate Enabled(q: Queue, pool: seq<Req>, a: Action) {
    match a
    case Begin(b) => Measured(q, b)
    case AppendTo(i, b, _, _) => i < |pool| && HasData(pool[i]) && Measured(q, b)
    case PrependTo(i, b, _, _) => i < |pool| && HasData(pool[i]) && Measured(q, b)
    case MergeInto(i, j, _, _) =>
      i < |pool| && j < |pool| && i != j && HasData(pool[i]) && HasData(pool[j]) && 0 < pool[i].nr
  }

  ghost function Apply(q: Queue, pool: seq<Req>, a: Action): seq<Req>
    requires Enabled(q, pool, a)
  {
    match a
    case Begin(b) => pool + [Start(q, b)]
    case AppendTo(i, b, fits, integrity) => pool[i := Append(q, pool[i], b, fits, integrity).req]
    case PrependTo(i, b, fits, integrity) => pool[i := Prepend(q, pool[i], b, fits, integrity).req]
    case MergeInto(i, j, admitted, integrity) =>
      var o := Merge(q, pool[i], pool[j], admitted, integrity);
      pool[i := o.req][j := o.next]
  }

  ghost predicate Legal(q: Queue, pool: seq<Req>, run: seq<Action>)
    decreases |run|
  {
    run == [] || (Enabled(q, pool, run[0]) && Legal(q, Apply(q, pool, run[0]), run[1..]))
  }

  ghost function Exec(q: Queue, pool: seq<Req>, run: seq<Action>): seq<Req>
    requires Legal(q, pool, run)
    decreases |run|
  {
    if run == [] then pool else Exec(q, Apply(q, pool, run[0]), run[1..])
  }

  /** The one way to exceed the limit: a request that is still the single bio it began with. */
  ghost predicate TooBigFromTheStart(q: Queue, r: Req) {
    |r.bios| == 1 && |CountSegs(q, r.bios[0].vecs)| > q.maxSegments
  }

  ghost predicate Good(q: Queue, r: Req) {
    && (|r.bios| == 1 ==> r.nr == |CountSegs(q, r.bios[0].vecs)|)
    && (|r.bios| > 1 ==> r.nr <= q.maxSegments)
    && (r.bios != [] ==> exists s :: Backed(q, r, s))
  }

  lemma StartGood(q: Queue, b: Bio)
    requires Measured(q, b)
    ensures Good(q, Start(q, b))
  {
    StartBacked(q, b);
  }

  lemma AppendGood(q: Queue, r: Req, b: Bio, fits: bool, integrity: bool)
    requires Good(q, r) && r.bios != [] && Measured(q, b)
    ensures Good(q, Append(q, r, b, fits, integrity).req)
  {
    var s :| Backed(q, r, s);
    var s' := AppendBacked(q, r, s, b, fits, integrity);
  }

  lemma PrependGood(q: Queue, r: Req, b: Bio, fits: bool, integrity: bool)
    requires Good(q, r) && r.bios != [] && Measured(q, b)
    ensures Good(q, Prepend(q, r, b, fits, integrity).req)
  {
    var s :| Backed(q, r, s);
    var s' := PrependBacked(q, r, s, b, fits, integrity);
  }

  lemma MergedGood(q: Queue, r: Req, next: Req, integrity: bool)
    requires Good(q, r) && Good(q, next) && HasData(r) && HasData(next) && 0 < r.nr
    requires Merge(q, r, next, true, integrity).ok
    ensures Good(q, Merge(q, r, next, true, integrity).req)
  {
    var s :| Backed(q, r, s);
    var t :| Backed(q, next, t);
    var s' := MergeBacked(q, r, s, next, t, integrity);
  }

  lemma RefusedMergeGood(q: Queue, r: Req, next: Req, admitted: bool, integrity: bool)
    requires Good(q, r) && Good(q, next) && HasData(r) && HasData(next) && 0 < r.nr
    requires !Merge(q, r, next, admitted, integrity).ok
    ensures Good(q, Merge(q, r, next, admitted, integrity).req)
    ensures Good(q, Merge(q, r, next, admitted, integrity).next)
  {
    var s :| Backed(q, r, s);
    var t :| Backed(q, next, t);
    RefusedMergeBacked(q, r, s, next, t, admitted, integrity);
  }

  ghost predicate AllGood(q: Queue, pool: seq<Req>) {
    forall i :: 0 <= i < |pool| ==> Good(q, pool[i])
  }

  lemma SetGood(q: Queue, pool: seq<Req>, i: nat, r: Req)
    requires AllGood(q, pool) && i < |pool| && Good(q, r)
    ensures AllGood(q, pool[i := r])
  {
  }

  lemma MergeStepGood(q: Queue, pool: seq<Req>, i: nat, j: nat, admitted: bool, integrity: bool)
    requires AllGood(q, pool) && Enabled(q, pool, MergeInto(i, j, admitted, integrity))
    ensures var o := Merge(q, pool[i], pool[j], admitted, integrity); Good(q, o.req) && Good(q, o.next)
  {
    assert Good(q, pool[i]) && Good(q, pool[j]);
    if Merge(q, pool[i], pool[j], admitted, integrity).ok {
      MergedGood(q, pool[i], pool[j], integrity);
    } else {
      RefusedMergeGood(q, pool[i], pool[j], admitted, integrity);
    }
  }

  lemma StepKeepsGood(q: Queue, pool: seq<Req>, a: Action)
    requires AllGood(q, pool) && Enabled(q, pool, a)
    ensures AllGood(q, Apply(q, pool, a))
  {
    match a
    case Begin(b) => StartGood(q, b);
    case AppendTo(i, b, fits, integrity) =>
      AppendGood(q, pool[i], b, fits, integrity);
      SetGood(q, pool, i, Append(q, pool[i], b, fits, integrity).req);
    case PrependTo(i, b, fits, integrity) =>
      PrependGood(q, pool[i], b, fits, integrity);
      SetGood(q, pool, i, Prepend(q, pool[i], b, fits, integrity).req);
    case MergeInto(i, j, admitted, integrity) =>
      var o := Merge(q, pool[i], pool[j], admitted, integrity);
      MergeStepGood(q, pool, i, j, admitted, integrity);
      SetGood(q, pool, i, o.req);
      SetGood(q, pool[i := o.req], j, o.next);
  }

  lemma {:induction false} RunKeepsGood(q: Queue, pool: seq<Req>, run: seq<Action>)
    requires AllGood(q, pool) && Legal(q, pool, run)
    ensures AllGood(q, Exec(q, pool, run))
    decreases |run|
  {
    if run != [] {
      StepKeepsGood(q, pool, run[0]);
      RunKeepsGood(q, Apply(q, pool, run[0]), run[1..]);
    }
  }

  /**
   * After any history of appends and merges, mapping a request takes at most nr_phys_segments entries, and
   * nr_phys_segments is within the queue's limit unless the request began, and stayed, too big.
   */
  lemma HistorySound(q: Queue, run: seq<Action>, i: nat)
    requires Legal(q, [], run) && i < |Exec(q, [], run)| && Exec(q, [], run)[i].bios != []
    ensures var r := Exec(q, [], run)[i];
      && |MapSegs(q, Data(r.bios))| <= r.nr
      && (r.nr <= q.maxSegments <==> !TooBigFromTheStart(q, r))
  {
    RunKeepsGood(q, [], run);
    var r := Exec(q, [], run)[i];
    assert Good(q, r);
    var s :| Backed(q, r, s);
    MapIsLeast(q, s, Data(r.bios));
  }

  /** A bio of more segments than the limit can always begin a request, which then exceeds it. */
  lemma TooBigCanStart(q: Queue, b: Bio)
    requires Measured(q, b) && |CountSegs(q, b.vecs)| > q.maxSegments
    ensures Legal(q, [], [Begin(b)])
    ensures var pool := Exec(q, [], [Begin(b)]);
      |pool| == 1 && TooBigFromTheStart(q, pool[0]) && pool[0].nr > q.maxSegments
  {
    assert [Begin(b)][1..] == [];
    assert [] + [Start(q, b)] == [Start(q, b)];
    StartGood(q, b);
  }

  /** The BUG_ON of `blk_bio_map_sg` cannot fire on a bio whose count is valid. */
  lemma CountedBioFits(q: Queue, b: Bio)
    requires Measured(q, b) && b.segValid
    ensures |MapSegs(q, b.vecs)| <= b.physSegments
  {
    MapWithinCount(q, b.vecs);
  }
}
