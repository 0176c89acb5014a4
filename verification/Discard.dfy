/** Splitting a discard into aligned ranges, and waiting for all of them (block/blk-lib.c). */
module Discard {
  import opened Arith

  datatype Range = Range(sector: nat, count: nat)

  const UINT_MAX: nat := 0xFFFF_FFFF
  const UINT_MAX_SECTORS: nat := 0x7F_FFFF // UINT_MAX >> 9

  datatype Error = ENXIO | EOPNOTSUPP

  /** The queue limits `blkdev_issue_discard` reads; `alignment` may be negative for a misaligned device. */
  datatype Limits = Limits(discard: bool, secure: bool, granularityBytes: nat, alignmentBytes: int, maxSectors: nat)

  function Granularity(q: Limits): (g: nat)
    ensures 0 < g
  {
    if q.granularityBytes / 512 < 1 then 1 else q.granularityBytes / 512
  }

  /** The alignment in sectors, taken modulo the granularity as a 32-bit unsigned number. */
  function Alignment(q: Limits): (a: nat)
    ensures a < Granularity(q)
  {
    ((q.alignmentBytes / 512) % (UINT_MAX + 1)) % Granularity(q)
  }

  /** The limit rounded down to whole granules. */
  function MaxSectors(q: Limits): (m: nat)
    ensures m <= UINT_MAX_SECTORS && m <= q.maxSectors && m % Granularity(q) == 0
    ensures forall k: nat :: k <= UINT_MAX_SECTORS && k <= q.maxSectors && k % Granularity(q) == 0 ==> k <= m
  {
    var m := if q.maxSectors < UINT_MAX_SECTORS then q.maxSectors else UINT_MAX_SECTORS;
    RoundedDown(m, Granularity(q));
    MostGranules(m, Granularity(q));
    m - m % Granularity(q)
  }

  lemma MostGranules(m: nat, g: nat)
    requires 0 < g
    ensures forall k: nat :: k <= m && k % g == 0 ==> k <= m - m % g
  {
    forall k: nat | k <= m && k % g == 0 ensures k <= m - m % g {
      assert k == (k / g) * g && m == (m / g) * g + m % g;
      FewerTimes(k / g, m / g, g);
    }
  }

  lemma FewerTimes(a: int, b: int, g: nat)
    requires a * g < b * g + g
    ensures a * g <= b * g
  {
    var d := a - b;
    assert a * g == b * g + d * g;
    assert d >= 1 ==> d * g >= g;
    assert d <= 0 ==> d * g <= 0;
  }

  lemma RoundedDown(m: nat, g: nat)
    requires 0 < g
    ensures 0 <= m - m % g <= m && (m - m % g) % g == 0
  {
    var k := m / g;
    assert m == k * g + m % g;
    DivModUnique(m - m % g, g, k, 0);
  }

  /** The ranges follow one another without gaps from `from` to `to`. */
  ghost predicate Covers(rs: seq<Range>, from: nat, to: nat) {
    if rs == [] then from == to
    else
      var r := rs[|rs| - 1];
      0 < r.count && r.sector + r.count == to && Covers(rs[..|rs| - 1], from, r.sector)
  }

  /** Every boundary between two ranges is aligned, and no range is longer than the limit. */
  ghost predicate Aligned(rs: seq<Range>, g: nat, al: nat, max: nat)
    requires 0 < g
  {
    && (forall i :: 0 <= i < |rs| ==> rs[i].count <= max)
    && (forall i :: 0 <= i < |rs| - 1 ==> (rs[i].sector + rs[i].count) % g == al)
  }

  /** The last aligned sector at or before `end`. */
  function AlignDown(end: nat, g: nat, al: nat): nat
    requires al < g && al <= end
  {
    ((end - al) / g) * g + al
  }

  lemma AlignDownBounds(end: nat, g: nat, al: nat)
    requires al < g && al <= end
    ensures AlignDown(end, g, al) <= end < AlignDown(end, g, al) + g
    ensures AlignDown(end, g, al) % g == al
  {
    var q := (end - al) / g;
    assert end - al == q * g + (end - al) % g;
    DivModUnique(q * g + al, g, q, al);
  }

  lemma AtLeastOneGranule(max: nat, g: nat)
    requires 0 < max && 0 < g && max % g == 0
    ensures g <= max
  {
    var q := max / g;
    assert max == q * g;
    assert q <= 0 ==> q * g <= 0;
    assert q >= 1 ==> q * g >= g;
  }

  /** One range: all that is left, a full range, or the part of a full range up to the last aligned sector. */
  method NextRange(sector: nat, left: nat, g: nat, al: nat, max: nat) returns (count: nat)
    requires 0 < left && al < g && 0 < max && max % g == 0
    ensures 0 < count <= left && count <= max
    ensures count < left ==> (sector + count) % g == al
    ensures left <= max ==> count == left
    ensures max < left ==> max - g < count
  {
    AtLeastOneGranule(max, g);
    count := if left < max then left else max;
    var end := sector + count;
    if count < left && end % g != al {
      AlignDownBounds(end, g, al);
      end := ((end - al) / g) * g + al;
      count := end - sector;
    }
  }

  lemma Extend(rs: seq<Range>, from: nat, at: nat, count: nat, g: nat, al: nat, max: nat)
    requires 0 < g && Covers(rs, from, at) && Aligned(rs, g, al, max) && 0 < count <= max
    requires rs != [] ==> (rs[|rs| - 1].sector + rs[|rs| - 1].count) % g == al
    ensures Covers(rs + [Range(at, count)], from, at + count) && Aligned(rs + [Range(at, count)], g, al, max)
  {
    assert (rs + [Range(at, count)])[..|rs|] == rs;
  }

  /**
   * The loop of `blkdev_issue_discard`. `bioOk` says which bio allocations succeed; when one fails the
   * ranges issued so far cover a front part of the request.
   */
  method SplitDiscard(sector: nat, nrSects: nat, g: nat, al: nat, max: nat, bioOk: nat -> bool)
    returns (rs: seq<Range>, end: nat)
    requires al < g && 0 < max && max % g == 0
    ensures Covers(rs, sector, end) && Aligned(rs, g, al, max)
    ensures end <= sector + nrSects && (end < sector + nrSects ==> !bioOk(|rs|))
    ensures forall i :: 0 <= i < |rs| ==> bioOk(i)
  {
    rs, end := [], sector;
    var left := nrSects;
    while left > 0
      invariant end + left == sector + nrSects && Covers(rs, sector, end)
      invariant Aligned(rs, g, al, max)
      invariant forall i :: 0 <= i < |rs| ==> bioOk(i)
      invariant 0 < left && rs != [] ==> (rs[|rs| - 1].sector + rs[|rs| - 1].count) % g == al
      decreases left
    {
      if !bioOk(|rs|) {
        break;
      }
      var count := NextRange(end, left, g, al, max);
      Extend(rs, sector, end, count, g, al, max);
      rs := rs + [Range(end, count)];
      end := end + count;
      left := left - count;
    }
  }

  lemma {:induction false} CoversOrder(rs: seq<Range>, from: nat, to: nat)
    requires Covers(rs, from, to)
    ensures from <= to
  {
    if rs != [] {
      CoversOrder(rs[..|rs| - 1], from, rs[|rs| - 1].sector);
    }
  }

  lemma {:induction false} CoverInside(rs: seq<Range>, from: nat, to: nat)
    requires Covers(rs, from, to)
    ensures forall i, j :: 0 <= i < j < |rs| ==> rs[i].sector + rs[i].count <= rs[j].sector
    ensures forall i :: 0 <= i < |rs| ==> from <= rs[i].sector && rs[i].sector + rs[i].count <= to
  {
    if rs != [] {
      var init, r := rs[..|rs| - 1], rs[|rs| - 1];
      CoverInside(init, from, r.sector);
      CoversOrder(init, from, r.sector);
    }
  }

  lemma {:induction false} CoverHits(rs: seq<Range>, from: nat, to: nat, x: nat) returns (i: nat)
    requires Covers(rs, from, to) && from <= x < to
    ensures i < |rs| && rs[i].sector <= x < rs[i].sector + rs[i].count
  {
    var init, r := rs[..|rs| - 1], rs[|rs| - 1];
    if x < r.sector {
      i := CoverHits(init, from, r.sector, x);
    } else {
      i := |rs| - 1;
    }
  }

  /** A sector lies in one of the ranges exactly when it was asked for, and in one only. */
  lemma CoverIsExact(rs: seq<Range>, from: nat, to: nat, x: nat)
    requires Covers(rs, from, to)
    ensures from <= x < to <==> exists i :: 0 <= i < |rs| && rs[i].sector <= x < rs[i].sector + rs[i].count
    ensures forall i, j :: 0 <= i < j < |rs| ==> rs[i].sector + rs[i].count <= rs[j].sector
  {
    CoverInside(rs, from, to);
    if from <= x < to {
      var i := CoverHits(rs, from, to, x);
    }
  }

  /** Where ranges that start at `from` end. */
  function End(rs: seq<Range>, from: nat): nat {
    if rs == [] then from else rs[|rs| - 1].sector + rs[|rs| - 1].count
  }

  datatype Outcome = Refused(error: Error) | Issued(ranges: seq<Range>, enomem: bool)

  /** `blkdev_issue_discard` up to the wait: every byte count given to a bio fits its 32-bit field. */
  method IssueDiscard(hasQueue: bool, q: Limits, sector: nat, nrSects: nat, secure: bool, bioOk: nat -> bool)
    returns (o: Outcome)
    ensures o.Refused? <==> !hasQueue || !q.discard || MaxSectors(q) == 0 || (secure && !q.secure)
    ensures o.Refused? ==> o.error == if hasQueue then EOPNOTSUPP else ENXIO
    ensures o.Issued? ==> Aligned(o.ranges, Granularity(q), Alignment(q), MaxSectors(q))
    ensures o.Issued? ==> Covers(o.ranges, sector, End(o.ranges, sector)) && End(o.ranges, sector) <= sector + nrSects
    ensures o.Issued? ==> (o.enomem <==> End(o.ranges, sector) < sector + nrSects)
    ensures o.Issued? ==> (forall i :: 0 <= i < |o.ranges| ==> bioOk(i)) && (o.enomem ==> !bioOk(|o.ranges|))
    ensures o.Issued? ==> forall i :: 0 <= i < |o.ranges| ==> o.ranges[i].count * 512 <= UINT_MAX
  {
    if !hasQueue {
      return Refused(ENXIO);
    }
    if !q.discard {
      return Refused(EOPNOTSUPP);
    }
    var max := MaxSectors(q);
    if max == 0 || (secure && !q.secure) {
      return Refused(EOPNOTSUPP);
    }
    var rs, end := SplitDiscard(sector, nrSects, Granularity(q), Alignment(q), max, bioOk);
    o := Issued(rs, end < sector + nrSects);
  }
}

/** `struct bio_batch`: how the issuer of a discard learns that its bios have ended, and what it returns. */
module BioBatch {
  import opened Discard

  const EOPNOTSUPP_CODE: int := -95
  const EIO: int := -5
  const ENOMEM: int := -12

  datatype Issuer =
    | Issuing
    | Waiting // in wait_for_completion_io
    | Released // its own drop was the last
    | Returned(ret: int, enomem: bool)

  /**
   * Bios in flight; those whose end_io has seen to the flag and not yet dropped the count; whether one has dropped it
   * to zero and not yet called complete(). `zeros` counts the times the count dropped to zero, `woken` the calls.
   */
  datatype State = State(done: int, uptodate: bool, submitted: nat, inFlight: nat, ending: nat, completing: bool,
      issuer: Issuer, zeros: nat, woken: nat, errors: seq<int>)

  datatype Action =
    | Submit
    | EndFlag(err: int) // clear_bit, if the error is not ignored
    | EndDrop // atomic_dec_and_test
    | Complete
    | LastDrop // the issuer's own atomic_dec_and_test
    | Return(enomem: bool) // test_bit

  predicate Enabled(s: State, a: Action) {
    match a
    case Submit => s.issuer.Issuing?
    case EndFlag(_) => 0 < s.inFlight
    case EndDrop => 0 < s.ending
    case Complete => s.completing
    case LastDrop => s.issuer.Issuing?
    case Return(_) => s.issuer.Released? || (s.issuer.Waiting? && 0 < s.woken)
  }

  predicate Fatal(err: int) {
    err != 0 && err != EOPNOTSUPP_CODE
  }

  function Apply(s: State, a: Action): State
    requires Enabled(s, a)
  {
    var zeros := if s.done == 1 then s.zeros + 1 else s.zeros;
    match a
    case Submit => s.(done := s.done + 1, submitted := s.submitted + 1, inFlight := s.inFlight + 1)
    case EndFlag(err) =>
      s.(inFlight := s.inFlight - 1, ending := s.ending + 1, errors := s.errors + [err],
         uptodate := s.uptodate && !Fatal(err))
    case EndDrop =>
      s.(done := s.done - 1, ending := s.ending - 1, zeros := zeros, completing := s.completing || s.done == 1)
    case Complete => s.(completing := false, woken := s.woken + 1)
    case LastDrop => s.(done := s.done - 1, zeros := zeros, issuer := if s.done == 1 then Released else Waiting)
    case Return(enomem) =>
      s.(issuer := Returned(if !s.uptodate then EIO else if enomem then ENOMEM else 0, enomem))
  }

  const START := State(1, true, 0, 0, 0, false, Issuing, 0, 0, [])

  ghost predicate SomeFatal(errors: seq<int>) {
    exists i :: 0 <= i < |errors| && Fatal(errors[i])
  }

  /** What a discard whose bios ended with these errors has to return. */
  ghost function Result(errors: seq<int>, enomem: bool): int {
    if SomeFatal(errors) then EIO else if enomem then ENOMEM else 0
  }

  ghost predicate Inv(s: State) {
    && s.done == s.inFlight + s.ending + (if s.issuer.Issuing? then 1 else 0)
    && s.zeros == (if s.done == 0 then 1 else 0)
    && |s.errors| + s.inFlight == s.submitted
    && (s.uptodate <==> !SomeFatal(s.errors))
    && match s.issuer {
         case Issuing => s.woken == 0 && !s.completing
         case Waiting => s.woken + (if s.completing then 1 else 0) == s.zeros
         case Released => s.done == 0 && s.woken == 0 && !s.completing
         case Returned(ret, enomem) => s.done == 0 && !s.completing && ret == Result(s.errors, enomem)
       }
  }

  lemma OneMoreError(errors: seq<int>, err: int)
    ensures SomeFatal(errors + [err]) <==> SomeFatal(errors) || Fatal(err)
  {
    var more := errors + [err];
    assert more[|errors|] == err;
    assert forall i :: 0 <= i < |errors| ==> more[i] == errors[i];
  }

  lemma StepKeeps(s: State, a: Action)
    requires Inv(s) && Enabled(s, a)
    ensures Inv(Apply(s, a))
  {
    if a.EndFlag? {
      OneMoreError(s.errors, a.err);
    }
  }

  ghost predicate Legal(s: State, run: seq<Action>)
    decreases |run|
  {
    run == [] || (Enabled(s, run[0]) && Legal(Apply(s, run[0]), run[1..]))
  }

  ghost function Exec(s: State, run: seq<Action>): State
    requires Legal(s, run)
    decreases |run|
  {
    if run == [] then s else Exec(Apply(s, run[0]), run[1..])
  }

  lemma {:induction false} RunKeeps(s: State, run: seq<Action>)
    requires Inv(s) && Legal(s, run)
    ensures Inv(Exec(s, run))
    decreases |run|
  {
    if run != [] {
      StepKeeps(s, run[0]);
      RunKeeps(Apply(s, run[0]), run[1..]);
    }
  }

  /**
   * However completions and submissions interleave, the count reaches zero once, and only after the last
   * submission and every completion.
   */
  lemma ZeroOnce(run: seq<Action>)
    requires Legal(START, run)
    ensures var s := Exec(START, run);
      && (s.zeros == 1 <==> !s.issuer.Issuing? && s.inFlight == s.ending == 0) && s.zeros <= 1
  {
    RunKeeps(START, run);
  }

  /** An issuer that has to wait is woken, once, by the completion that dropped the count to zero. */
  lemma WaiterWoken(run: seq<Action>)
    requires Legal(START, run)
    ensures var s := Exec(START, run);
      s.issuer.Waiting? ==>
        && s.woken <= 1 && (s.woken == 1 <==> s.inFlight == s.ending == 0 && !s.completing)
        && (s.woken == 0 ==> 0 < s.inFlight || 0 < s.ending || s.completing)
  {
    RunKeeps(START, run);
  }

  /**
   * A discard returns only after every bio it submitted has ended and will not touch the batch, which lies on its
   * stack, any more. It has then seen every failure: the result is -EIO exactly if a bio failed for good, and else
   * -ENOMEM exactly if one could not be had.
   */
  lemma ReturnMeans(run: seq<Action>)
    requires Legal(START, run) && Exec(START, run).issuer.Returned?
    ensures var s := Exec(START, run);
      && |s.errors| == s.submitted && s.issuer.ret == Result(s.errors, s.issuer.enomem)
      && forall a :: !Enabled(s, a)
  {
    RunKeeps(START, run);
  }

  /** With the bios of `IssueDiscard`: one for each range, and -ENOMEM for a range that is missing. */
  lemma DiscardResult(o: Outcome, run: seq<Action>, sector: nat, nrSects: nat)
    requires o.Issued? && (o.enomem <==> End(o.ranges, sector) < sector + nrSects)
    requires Legal(START, run) && Exec(START, run).issuer.Returned?
    requires Exec(START, run).submitted == |o.ranges| && Exec(START, run).issuer.enomem == o.enomem
    ensures var s := Exec(START, run);
      && |s.errors| == |o.ranges|
      && (s.issuer.ret == 0 <==> sector + nrSects <= End(o.ranges, sector) && !SomeFatal(s.errors))
      && (s.issuer.ret == EIO <==> SomeFatal(s.errors))
  {
    ReturnMeans(run);
  }
}
