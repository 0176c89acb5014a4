/** Tags as requests see them: normal tags above the reserved ones. */
module TagProtocol {
  import opened Arith
  import opened TagLayout
  import opened TagSet

  class Tags {
    const nrTags: nat
    const nrReserved: nat
    const normal: Bitmap
    const reserved: Bitmap

    ghost predicate Valid()
      reads this, normal, reserved
    {
      && normal != reserved && normal.Valid() && reserved.Valid()
      && nrReserved <= nrTags && normal.tags.depth == nrTags - nrReserved && reserved.tags.depth == nrReserved
    }

    /** The tags handed out, as the requests know them. */
    ghost function Outstanding(): set<nat>
      requires Valid()
      reads this, normal, reserved
    {
      Shifted(normal.tags.BusySet(), nrReserved) + reserved.tags.BusySet()
    }

    constructor (total: nat, reservedTags: nat)
      requires reservedTags <= total
      ensures Valid() && nrTags == total && nrReserved == reservedTags && Outstanding() == {}
      ensures fresh(normal) && fresh(reserved)
    {
      nrTags, nrReserved := total, reservedTags;
      var n := new Bitmap(total - reservedTags);
      var r := new Bitmap(reservedTags);
      normal, reserved := n, r;
    }

    /**
     * `blk_mq_get_tag` for a caller that does not sleep: a tag nobody holds, from the range asked for, or a
     * failure that means the range is exhausted or the fair share used up.
     */
    method GetTag(fromReserved: bool, mayQueue: bool, lastTag: nat) returns (ok: bool, tag: nat, lastTag': nat)
      requires Valid() && (lastTag < nrTags - nrReserved || nrTags == nrReserved)
      modifies normal, reserved
      ensures Valid()
      ensures ok ==> tag !in old(Outstanding()) && Outstanding() == old(Outstanding()) + {tag}
      ensures ok ==> if fromReserved then tag < nrReserved else nrReserved <= tag < nrTags
      ensures !ok ==> Outstanding() == old(Outstanding())
      ensures !ok && fromReserved ==> forall t: nat :: t < nrReserved ==> t in Outstanding()
      ensures !ok && !fromReserved && mayQueue ==> forall t: nat :: nrReserved <= t < nrTags ==> t in Outstanding()
      ensures lastTag' < nrTags - nrReserved || nrTags == nrReserved
    {
      lastTag' := lastTag;
      if fromReserved {
        if nrReserved == 0 {
          return false, 0, lastTag;
        }
        var t, _ := reserved.Get(true, 0);
        BelowShift(normal.tags, nrReserved);
        if t < 0 {
          return false, 0, lastTag;
        }
        return true, t, lastTag;
      }
      var t;
      t, lastTag' := normal.Get(mayQueue, lastTag);
      if t < 0 {
        ShiftedAll(normal.tags, nrReserved, nrTags);
        return false, 0, lastTag';
      }
      ShiftedAdd(old(normal.tags.BusySet()), nrReserved, t);
      assert t + nrReserved !in reserved.tags.BusySet();
      return true, t + nrReserved, lastTag';
    }

    /** `blk_mq_put_tag`. */
    method PutTag(tag: nat, sleeping: seq<bool>, lastTag: nat) returns (lastTag': nat)
      requires Valid() && tag < nrTags && |sleeping| == BT_WAIT_QUEUES
      requires lastTag < nrTags - nrReserved || nrTags == nrReserved
      modifies normal, reserved
      ensures Valid() && Outstanding() == old(Outstanding()) - {tag}
      ensures lastTag' == if nrReserved <= tag then tag - nrReserved else lastTag
      ensures lastTag' < nrTags - nrReserved || nrTags == nrReserved
    {
      lastTag' := lastTag;
      if tag >= nrReserved {
        var _ := normal.ClearTag(tag - nrReserved, sleeping);
        ShiftedRemove(old(normal.tags.BusySet()), nrReserved, tag);
        lastTag' := tag - nrReserved;
      } else {
        BelowShift(normal.tags, nrReserved);
        var _ := reserved.ClearTag(tag, sleeping);
      }
    }
  }

  ghost function Shifted(s: set<nat>, off: nat): set<nat> {
    set t | t in s :: t + off
  }

  lemma ShiftedAdd(s: set<nat>, off: nat, t: nat)
    requires t !in s
    ensures Shifted(s + {t}, off) == Shifted(s, off) + {t + off} && t + off !in Shifted(s, off)
  {
  }

  lemma ShiftedRemove(s: set<nat>, off: nat, tag: nat)
    requires off <= tag
    ensures Shifted(s - {tag - off}, off) == Shifted(s, off) - {tag}
  {
    forall x | x in Shifted(s, off) - {tag}
      ensures x in Shifted(s - {tag - off}, off)
    {
      var t :| t in s && t + off == x;
      assert t in s - {tag - off};
    }
  }

  lemma BelowShift(m: Map, off: nat)
    requires m.Valid()
    ensures forall t :: t in Shifted(m.BusySet(), off) ==> off <= t
  {
  }

  lemma ShiftedAll(m: Map, off: nat, total: nat)
    requires m.Valid() && off <= total && m.depth == total - off
    ensures m.AllBusy() ==> forall t: nat :: off <= t < total ==> t in Shifted(m.BusySet(), off)
  {
    forall t: nat | m.AllBusy() && off <= t < total
      ensures t in Shifted(m.BusySet(), off)
    {
      assert m.Busy(t - off);
      assert t - off in m.BusySet();
    }
  }

  // Any number of CPUs at the bitmap at once: the atomic operations in any order

  datatype State = State(bitmap: Map, held: seq<nat>)

  datatype Action =
    | TestAndSet(index: nat, bit: nat) // a search that has come to this bit
    | Clear(k: nat) // the holder of the k-th tag held gives it back

  ghost predicate Enabled(s: State, a: Action)
    requires s.bitmap.Valid()
  {
    match a
    case TestAndSet(i, b) => i < |s.bitmap.words| && b < s.bitmap.words[i].depth
    case Clear(k) => k < |s.held| && s.held[k] < s.bitmap.depth
  }

  ghost function Apply(s: State, a: Action): State
    requires s.bitmap.Valid() && Enabled(s, a)
  {
    match a
    case TestAndSet(i, b) =>
      if s.bitmap.words[i].bits[b] then s
      else State(SetBit(s.bitmap, i, b, true), s.held + [TagOf(i, b, s.bitmap.perWord)])
    case Clear(k) =>
      TagPlace(s.bitmap.depth, s.bitmap.perWord, s.held[k]);
      State(SetBit(s.bitmap, IndexOf(s.held[k], s.bitmap.perWord), Wrap(s.held[k], s.bitmap.perWord), false),
            s.held[..k] + s.held[k + 1..])
  }

  /** No tag is held twice, and the bits set are those of the tags held. */
  ghost predicate Exclusive(s: State) {
    && s.bitmap.Valid()
    && (forall i, j :: 0 <= i < j < |s.held| ==> s.held[i] != s.held[j])
    && (forall t :: t in s.held <==> t in s.bitmap.BusySet())
  }

  lemma TestAndSetKeeps(s: State, i: nat, b: nat)
    requires Exclusive(s) && Enabled(s, TestAndSet(i, b))
    ensures Exclusive(Apply(s, TestAndSet(i, b)))
  {
    if !s.bitmap.words[i].bits[b] {
      FoundBit(s.bitmap, i, b);
      var t := TagOf(i, b, s.bitmap.perWord);
      assert forall x :: x in s.held + [t] <==> x in s.held || x == t;
    }
  }

  lemma ClearKeeps(s: State, k: nat)
    requires Exclusive(s) && Enabled(s, Clear(k))
    ensures Exclusive(Apply(s, Clear(k)))
  {
    var t := s.held[k];
    TagPlace(s.bitmap.depth, s.bitmap.perWord, t);
    SetBitBusy(s.bitmap, IndexOf(t, s.bitmap.perWord), Wrap(t, s.bitmap.perWord), false);
    var held := s.held[..k] + s.held[k + 1..];
    forall x | x in s.held && x != t
      ensures x in held
    {
      var i :| 0 <= i < |s.held| && s.held[i] == x;
      assert held[if i < k then i else i - 1] == x;
    }
  }

  ghost predicate Legal(s: State, run: seq<Action>)
    decreases |run|
  {
    run == [] || (s.bitmap.Valid() && Enabled(s, run[0]) && Legal(Apply(s, run[0]), run[1..]))
  }

  ghost function Exec(s: State, run: seq<Action>): State
    requires Legal(s, run)
    decreases |run|
  {
    if run == [] then s else Exec(Apply(s, run[0]), run[1..])
  }

  /** However allocations and frees interleave, the tags held are pairwise distinct and are the busy ones. */
  lemma {:induction false} HeldOnce(s: State, run: seq<Action>)
    requires Exclusive(s) && Legal(s, run)
    ensures Exclusive(Exec(s, run))
    decreases |run|
  {
    if run != [] {
      match run[0] {
        case TestAndSet(i, b) => TestAndSetKeeps(s, i, b);
        case Clear(k) => ClearKeeps(s, k);
      }
      HeldOnce(Apply(s, run[0]), run[1..]);
    }
  }
}
