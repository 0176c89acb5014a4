/** `struct request` as block/blk-merge.c and blk_rq_append_bio update it. */
module BlockRequest {
  import opened Segments
  import opened SegmentPasses
  import opened MergeHistory

  function Bytes(vecs: seq<Bvec>): nat {
    if vecs == [] then 0 else vecs[0].len + Bytes(vecs[1..])
  }

  /** `blk_phys_contig_segment`. The last stretch is found by its length being all that is left of the bio. */
  method PhysContigSegment(q: Queue, bio: Bio, nxt: Bio) returns (ret: bool)
    requires bio.vecs != [] && nxt.vecs != []
    requires forall i :: 0 <= i < |bio.vecs| ==> 0 < bio.vecs[i].len
    ensures ret == Contig(q, bio, nxt)
  {
    if !q.cluster || bio.backSize + nxt.frontSize > q.maxSegmentSize {
      return false;
    }
    var i, left := 0, Bytes(bio.vecs);
    assert bio.vecs[0..] == bio.vecs;
    while bio.vecs[i].len != left
      invariant 0 <= i < |bio.vecs| && left == Bytes(bio.vecs[i..])
      decreases |bio.vecs| - i
    {
      assert bio.vecs[i..][1..] == bio.vecs[i + 1..];
      left := left - bio.vecs[i].len;
      i := i + 1;
    }
    assert bio.vecs[i..][1..] == bio.vecs[i + 1..];
    ret := q.joins(bio.vecs[i], nxt.vecs[0]);
  }

  class Request {
    var bios: seq<Bio>
    var nrPhysSegments: nat

    function Value(): Req
      reads this
    {
      Req(bios, nrPhysSegments)
    }

    method EnsureCounted(q: Queue, b: Bio) returns (r: Bio)
      ensures r == Counted(q, b)
    {
      if b.segValid {
        return b;
      }
      r := RecountSegments(q, b);
    }

    /** `blk_rq_append_bio`, with `ll_back_merge_fn` and `ll_new_hw_segment`. */
    method AppendBio(q: Queue, b: Bio, fits: bool, integrity: bool) returns (ok: bool)
      modifies this
      ensures old(bios) == [] ==> ok && Value() == Start(q, b)
      ensures old(bios) != [] ==> Outcome(ok, Value()) == Append(q, old(Value()), b, fits, integrity)
    {
      if bios == [] {
        var c := EnsureCounted(q, b);
        bios, nrPhysSegments := [c], c.physSegments;
        return true;
      }
      if !fits {
        return false;
      }
      var tail := EnsureCounted(q, Last(bios));
      var c := EnsureCounted(q, b);
      bios := bios[|bios| - 1 := tail];
      assert bios == SetLast(old(bios), tail);
      if nrPhysSegments + c.physSegments > q.maxSegments || !integrity {
        return false;
      }
      nrPhysSegments := nrPhysSegments + c.physSegments;
      bios := bios + [c];
      ok := true;
    }

    /** `bio_attempt_front_merge`, with `ll_front_merge_fn` and `ll_new_hw_segment`. */
    method PrependBio(q: Queue, b: Bio, fits: bool, integrity: bool) returns (ok: bool)
      requires bios != []
      modifies this
      ensures Outcome(ok, Value()) == Prepend(q, old(Value()), b, fits, integrity)
    {
      if !fits {
        return false;
      }
      var c := EnsureCounted(q, b);
      var head := EnsureCounted(q, bios[0]);
      bios := bios[0 := head];
      if nrPhysSegments + c.physSegments > q.maxSegments || !integrity {
        return false;
      }
      nrPhysSegments := nrPhysSegments + c.physSegments;
      bios := [c] + bios;
      ok := true;
    }

    /** `attempt_merge` with `ll_merge_requests_fn`: on success `next` gives up its bios. */
    method AttemptMerge(q: Queue, next: Request, admitted: bool, integrity: bool) returns (ok: bool)
      requires this != next && HasData(Value()) && HasData(next.Value()) && 0 < nrPhysSegments
      requires forall i :: 0 <= i < |Last(bios).vecs| ==> 0 < Last(bios).vecs[i].len
      modifies this, next
      ensures MergeOutcome(ok, Value(), next.Value()) ==
        Merge(q, old(Value()), old(next.Value()), admitted, integrity)
    {
      if !admitted {
        return false;
      }
      var segSize := Last(bios).backSize + next.bios[0].frontSize;
      var total := nrPhysSegments + next.nrPhysSegments;
      var contig := PhysContigSegment(q, Last(bios), next.bios[0]);
      if contig {
        if nrPhysSegments == 1 {
          bios := bios[0 := bios[0].(frontSize := segSize)];
        }
        if next.nrPhysSegments == 1 {
          var k := |next.bios| - 1;
          next.bios := next.bios[k := next.bios[k].(backSize := segSize)];
          assert next.bios == SetLast(old(next.bios), Last(old(next.bios)).(backSize := segSize));
        }
        total := total - 1;
      }
      if total > q.maxSegments || !integrity {
        return false;
      }
      nrPhysSegments := total;
      bios := bios + next.bios;
      next.bios := [];
      ok := true;
    }
  }
}
