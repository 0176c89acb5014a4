/**
 * The rate bound for operations. Their counter is 32 bits wide and can wrap, but only after a product of rate and time
 * has wrapped 64 bits, and the time that takes allows more operations than the counter forgets.
 */
module ThrottleOps {
  import opened Arith
  import opened ThrottleRate

  /** The part of a product that 64 bits do not hold. */
  function Whole(rate: nat, time: nat): (w: nat)
    ensures w <= rate * time < w + U64
  {
    Div(rate * time, U64) * U64
  }

  lemma ShareOfRest(rate: nat, time: nat, hz: nat)
    requires 0 < hz
    ensures Share(rate, time, hz) * hz + Whole(rate, time) <= rate * time
    ensures rate * time < Share(rate, time, hz) * hz + hz + Whole(rate, time)
  {
    var p := rate * time;
    assert p % U64 == p - Div(p, U64) * U64;
  }

  lemma WholeGrows(rate: nat, a: nat, b: nat)
    requires a <= b
    ensures Whole(rate, a) <= Whole(rate, b)
    ensures Whole(rate, a) == Whole(rate, b) || Whole(rate, a) + U64 <= Whole(rate, b)
  {
    MulMono(rate, a, b);
  }

  /**
   * As for bytes, but the slice may owe what whole products allowed, and a `high` counter has a turn of 2^32 operations
   * to spare.
   */
  ghost predicate Paid(hz: nat, slice: nat, rate: nat, s0: nat, total: int, used: int, start: nat, end: nat, now: nat,
                       whole: nat, high: bool) {
    && s0 <= start <= now && start <= end && used <= total && whole <= rate * (now - start)
    && (total - used) * hz + (if high then U32 * hz else 0) <= rate * (start - s0) + whole
    && total * hz <= rate * (end - s0)
    && total * hz <= rate * (now - s0 + slice)
  }

  lemma PaidLater(hz: nat, slice: nat, rate: nat, s0: nat, total: int, used: int, start: nat, end: nat, now: nat,
                  whole: nat, high: bool, end': nat, now': nat, whole': nat, high': bool)
    requires Paid(hz, slice, rate, s0, total, used, start, end, now, whole, high) && hz < U32
    requires (end <= end' || now' + slice <= end') && now <= now' && whole <= whole' <= rate * (now' - start)
    requires high' ==> high || whole + U64 <= whole'
    ensures Paid(hz, slice, rate, s0, total, used, start, end', now', whole', high')
  {
    MulMono(rate, now - s0 + slice, now' - s0 + slice);
    if end <= end' {
      MulMono(rate, end - s0, end' - s0);
    } else {
      MulMono(rate, now' - s0 + slice, end' - s0);
    }
  }

  lemma PaidRestart(hz: nat, slice: nat, rate: nat, s0: nat, total: nat, used: int, start: nat, end: nat, now: nat,
                    whole: nat, high: bool, now': nat)
    requires Paid(hz, slice, rate, s0, total, used, start, end, now, whole, high) && now <= now' && end < now'
    ensures Paid(hz, slice, rate, s0, total, 0, now', now' + slice, now', 0, false)
  {
    MulMono(rate, end - s0, now' - s0);
    MulMono(rate, now' - s0, now' - s0 + slice);
    assert rate * 0 == 0;
  }

  lemma PaidCharge(hz: nat, slice: nat, rate: nat, s0: nat, total: int, used: int, start: nat, end: nat, now: nat,
                   whole: nat, high: bool)
    requires Paid(hz, slice, rate, s0, total, used, start, end, now, whole, high)
    requires (used + 1) * hz + whole <= rate * (now - start + slice) && now + slice <= end
    ensures Paid(hz, slice, rate, s0, total + 1, used + 1, start, end, now, whole, high)
  {
    assert (total + 1) * hz == (total - used) * hz + (used + 1) * hz;
    assert rate * (start - s0) + rate * (now - start + slice) == rate * (now - s0 + slice);
    MulMono(rate, now - s0 + slice, end - s0);
  }

  /** A counter that wraps was high, and what it forgets was paid for. */
  lemma PaidWrap(hz: nat, slice: nat, rate: nat, s0: nat, total: int, start: nat, end: nat, now: nat, whole: nat)
    requires Paid(hz, slice, rate, s0, total, U32 - 1, start, end, now, whole, true) && now + slice <= end
    ensures Paid(hz, slice, rate, s0, total + 1, 0, start, end, now, whole, false)
  {
    assert (total + 1) * hz == (total - (U32 - 1)) * hz + U32 * hz;
    assert rate * (start - s0) + rate * (now - start) == rate * (now - s0);
    MulMono(rate, now - s0, now - s0 + slice);
    MulMono(rate, now - s0, end - s0);
  }

  lemma Distribute(k: int, a: int, b: int, sum: int)
    requires sum == a + b
    ensures k * sum == k * a + k * b
  {
  }

  lemma OwedAfterTrim(hz: nat, total: int, used: nat, gone: nat, whole: nat, dropWhole: nat, before: int, dropped: int,
                      high: bool, high': bool)
    requires (total - used) * hz + (if high then U32 * hz else 0) <= before + whole && hz < U32
    requires gone * hz + dropWhole <= dropped && whole <= dropWhole && (high' ==> high || whole + U64 <= dropWhole)
    ensures (total - Less(used, gone)) * hz + (if high' then U32 * hz else 0) <= before + dropped
  {
    var forgot := used - Less(used, gone);
    assert (total - Less(used, gone)) * hz == (total - used) * hz + forgot * hz;
    MulMono(hz, forgot, gone);
  }

  lemma PaidTrim(hz: nat, slice: nat, rate: nat, s0: nat, total: int, used: nat, start: nat, end: nat, now: nat,
                 whole: nat, high: bool, gone: nat, drop: nat, dropWhole: nat, end': nat, later: nat, high': bool)
    requires Paid(hz, slice, rate, s0, total, used, start, end, now, whole, high) && hz < U32
    requires now <= later && start + drop <= later && later + slice <= end'
    requires gone * hz + dropWhole <= rate * drop && whole <= dropWhole
    requires high' ==> high || whole + U64 <= dropWhole
    ensures Paid(hz, slice, rate, s0, total, Less(used, gone), start + drop, end', later, 0, high')
  {
    OwedAfterTrim(hz, total, used, gone, whole, dropWhole, rate * (start - s0), rate * drop, high, high');
    Distribute(rate, start - s0, drop, start + drop - s0);
    MulMono(rate, now - s0 + slice, later - s0 + slice);
    MulMono(rate, later - s0 + slice, end' - s0);
    MulMono(rate, 0, later - (start + drop));
  }

  // A group's operations

  /** More than a slice allows is on the counter, and the counter will be used again. */
  ghost predicate High(c: Limits, l: Lane, now: nat)
    requires c.Valid()
  {
    now <= l.end && c.iops * c.Slice() + c.hz <= l.ios * c.hz
  }

  /** What whole products have allowed since the slice started. */
  ghost function Owed(c: Limits, l: Lane, now: nat): nat
    requires c.Valid() && l.start <= now
  {
    Whole(c.iops, PastSlices(l, now, c.Slice()))
  }

  ghost predicate LanePaid(c: Limits, l: Lane, s0: nat, total: nat, now: nat)
    requires c.Valid()
  {
    l.ios < U32 && l.start <= now &&
    Paid(c.hz, c.Slice(), c.iops, s0, total, l.ios, l.start, l.end, now, Owed(c, l, now), High(c, l, now))
  }

  ghost predicate OpsOk(c: Limits, m: Meter)
    requires c.Valid()
  {
    && (m.started ==> LanePaid(c, m.lane, m.s0, m.ios, m.now))
    && (!m.started ==> m.lane == ZEROED && m.ios == 0)
  }

  lemma FullIsHigh(c: Limits, l: Lane, now: nat)
    requires c.Valid() && l.ios == U32 - 1 && now <= l.end
    ensures High(c, l, now)
  {
    MulMono(c.iops, 10 * c.Slice(), c.hz);
    assert c.iops * (10 * c.Slice()) == 10 * (c.iops * c.Slice());
    MulMono(c.hz, c.iops, U32 - 1);
    MulMono(c.hz, 10, U32 - 1);
  }

  lemma OwedGrows(c: Limits, l: Lane, now: nat, later: nat)
    requires c.Valid() && l.start <= now <= later
    ensures PastSlices(l, now, c.Slice()) <= PastSlices(l, later, c.Slice())
    ensures Owed(c, l, now) <= Owed(c, l, later) <= c.iops * (later - l.start)
    ensures Owed(c, l, now) == Owed(c, l, later) || Owed(c, l, now) + U64 <= Owed(c, l, later)
  {
    PastGrows(l, now, later, c.Slice());
    WholeGrows(c.iops, PastSlices(l, now, c.Slice()), PastSlices(l, later, c.Slice()));
    MulMono(c.iops, PastSlices(l, later, c.Slice()), later - l.start);
  }

  lemma PastGrows(l: Lane, now: nat, later: nat, slice: nat)
    requires 0 < slice && l.start <= now <= later
    ensures PastSlices(l, now, slice) <= PastSlices(l, later, slice)
  {
    var a, b := Div(now - l.start, slice), Div(later - l.start, slice);
    if b < a {
      MulMono(slice, b + 1, a);
    }
    MulMono(slice, a, b);
  }

  /** The rounded time is at most the whole slices passed and one more. */
  lemma RoundedPast(c: Limits, l: Lane, now: nat)
    requires c.Valid() && l.start <= now
    ensures PastSlices(l, now, c.Slice()) <= ElapsedRounded(c, l, now) <= PastSlices(l, now, c.Slice()) + c.Slice()
  {
    var slice, elapsed := c.Slice(), now - l.start;
    var q := Div(elapsed, slice);
    if elapsed == 0 {
      Multiple(slice, 1);
    } else {
      var k := Div(elapsed + slice - 1, slice);
      if q + 1 < k {
        MulMono(slice, q + 2, k);
      }
      MulMono(slice, k, q + 1);
    }
  }

  /** Renewing the slice, extended or started anew, keeps the account. */
  lemma RenewPays(c: Limits, m: Meter, now: nat)
    requires c.Valid() && OpsOk(c, m) && m.now <= now
    ensures now + c.Slice() <= Renewed(c, m.lane, now).end
    ensures LanePaid(c, Renewed(c, m.lane, now), if m.started then m.s0 else now, m.ios, now)
  {
    var r := Renewed(c, m.lane, now);
    if Used(m.lane, now) || !m.started {
      assert r.start == now && r.ios == 0;
      assert PastSlices(r, now, c.Slice()) == 0 by {
        MulMono(c.Slice(), 0, Div(0, c.Slice()));
      }
      NothingOwed(c.iops);
      assert 0 <= c.iops * c.Slice();
      if m.started {
        PaidRestart(c.hz, c.Slice(), c.iops, m.s0, m.ios, m.lane.ios, m.lane.start, m.lane.end, m.now,
                    Owed(c, m.lane, m.now), High(c, m.lane, m.now), now);
      } else {
        assert 0 <= c.iops * (r.end - now);
      }
    } else {
      OwedGrows(c, m.lane, m.now, now);
      PaidLater(c.hz, c.Slice(), c.iops, m.s0, m.ios, m.lane.ios, m.lane.start, m.lane.end, m.now,
                Owed(c, m.lane, m.now), High(c, m.lane, m.now), r.end, now, Owed(c, r, now), High(c, r, now));
    }
  }

  lemma NothingOwed(rate: nat)
    ensures Whole(rate, 0) == 0
  {
    assert rate * 0 == 0;
  }

  lemma AskPays(c: Limits, m: Meter, size: nat, now: nat)
    requires c.Valid() && !c.Unlimited() && OpsOk(c, m) && m.now <= now
    ensures OpsOk(c, Asked(c, m, size, now))
  {
    RenewPays(c, m, now);
    var r, l := Renewed(c, m.lane, now), MayDispatch(c, m.lane, size, now).lane;
    PaidLater(c.hz, c.Slice(), c.iops, if m.started then m.s0 else now, m.ios, r.ios, r.start, r.end, now,
              Owed(c, r, now), High(c, r, now), l.end, now, Owed(c, l, now), High(c, l, now));
  }

  /** The charged counter with what is owed stays within the rate for the time passed and one slice. */
  lemma GrantWithinOwed(c: Limits, r: Lane, now: nat)
    requires c.Valid() && r.start <= now && r.ios + 1 <= Share(c.iops, ElapsedRounded(c, r, now), c.hz)
    ensures (r.ios + 1) * c.hz + Owed(c, r, now) <= c.iops * (PastSlices(r, now, c.Slice()) + c.Slice())
    ensures (r.ios + 1) * c.hz + Owed(c, r, now) <= c.iops * (now - r.start + c.Slice())
  {
    var rounded, past := ElapsedRounded(c, r, now), PastSlices(r, now, c.Slice());
    RoundedPast(c, r, now);
    ShareOfRest(c.iops, rounded, c.hz);
    WholeGrows(c.iops, past, rounded);
    MulMono(c.hz, r.ios + 1, Share(c.iops, rounded, c.hz));
    MulMono(c.iops, rounded, past + c.Slice());
    MulMono(c.iops, past + c.Slice(), now - r.start + c.Slice());
  }

  /** The account of a slice right after a charge: nothing to spare, and the counter within the time passed. */
  ghost predicate JustCharged(c: Limits, l: Lane, s0: nat, total: nat, now: nat)
    requires c.Valid()
  {
    l.ios < U32 && l.start <= now &&
    Paid(c.hz, c.Slice(), c.iops, s0, total, l.ios, l.start, l.end, now, Owed(c, l, now), false) &&
    l.ios * c.hz + Owed(c, l, now) <= c.iops * (PastSlices(l, now, c.Slice()) + c.Slice())
  }

  lemma ChargePays(c: Limits, r: Lane, s0: nat, total: nat, size: nat, now: nat)
    requires c.Valid() && LanePaid(c, r, s0, total, now) && now + c.Slice() <= r.end
    requires (r.ios + 1) % U32 <= IosAllowed(c, r, now)
    ensures JustCharged(c, Charge(r, size), s0, total + 1, now)
  {
    var owed, high := Owed(c, r, now), High(c, r, now);
    if r.ios == U32 - 1 {
      FullIsHigh(c, r, now);
      PaidWrap(c.hz, c.Slice(), c.iops, s0, total, r.start, r.end, now, owed);
      MulMono(c.iops, PastSlices(r, now, c.Slice()), PastSlices(r, now, c.Slice()) + c.Slice());
    } else {
      GrantWithinOwed(c, r, now);
      PaidCharge(c.hz, c.Slice(), c.iops, s0, total, r.ios, r.start, r.end, now, owed, high);
    }
  }

  /** After a trim the counter is low, unless a product has wrapped since it was charged. */
  lemma LowAfterTrim(c: Limits, l: Lane, now: nat, later: nat)
    requires c.Valid() && l.start <= now <= later && Owed(c, l, now) == Owed(c, l, later)
    requires l.ios * c.hz + Owed(c, l, now) <= c.iops * (PastSlices(l, now, c.Slice()) + c.Slice())
    ensures Less(l.ios, Share(c.iops, PastSlices(l, later, c.Slice()), c.hz)) * c.hz < c.iops * c.Slice() + c.hz
  {
    var slice := c.Slice();
    var before, past := PastSlices(l, now, slice), PastSlices(l, later, slice);
    OwedGrows(c, l, now, later);
    ShareOfRest(c.iops, past, c.hz);
    MulMono(c.iops, before, past);
    Distribute(c.iops, before, slice, before + slice);
    LessTimes(l.ios, Share(c.iops, past, c.hz), c.hz);
    assert 0 <= c.iops * slice;
  }

  lemma LessTimes(a: nat, b: nat, k: nat)
    ensures Less(a, b) * k == if b <= a then a * k - b * k else 0
  {
  }

  lemma PastNone(l: Lane, now: nat, slice: nat)
    requires 0 < slice && l.start <= now < l.start + slice
    ensures PastSlices(l, now, slice) == 0
  {
    var q := Div(now - l.start, slice);
    if 0 < q {
      MulMono(slice, 1, q);
    }
  }

  lemma TrimPays(c: Limits, l: Lane, s0: nat, total: nat, now: nat, later: nat)
    requires c.Valid() && JustCharged(c, l, s0, total, now) && now <= later
    ensures LanePaid(c, Trim(c, l, later), s0, total, later)
  {
    var slice, t := c.Slice(), Trim(c, l, later);
    var past := PastSlices(l, later, slice);
    var gone := Share(c.iops, past, c.hz);
    OwedGrows(c, l, now, later);
    if Owed(c, l, now) == Owed(c, l, later) {
      LowAfterTrim(c, l, now, later);
    }
    if Used(l, later) || t.start == l.start {
      TrimStays(c, l, later);
      PaidLater(c.hz, slice, c.iops, s0, total, l.ios, l.start, l.end, now, Owed(c, l, now), false,
                t.end, later, Owed(c, l, later), High(c, t, later));
    } else {
      ShareOfRest(c.iops, past, c.hz);
      PastNone(t, later, slice);
      NothingOwed(c.iops);
      PaidTrim(c.hz, slice, c.iops, s0, total, l.ios, l.start, l.end, now, Owed(c, l, now), false,
               gone, past, Owed(c, l, later), t.end, later, High(c, t, later));
    }
  }

  /** A trim that does not move the slice takes nothing, because nothing is to be taken. */
  lemma TrimStays(c: Limits, l: Lane, later: nat)
    requires c.Valid() && l.start <= later && (Used(l, later) || Trim(c, l, later).start == l.start)
    ensures Trim(c, l, later).ios == l.ios && Trim(c, l, later).start == l.start
    ensures !Used(l, later) ==> Less(l.ios, Share(c.iops, PastSlices(l, later, c.Slice()), c.hz)) == l.ios
    ensures Trim(c, l, later).end == l.end || later + c.Slice() <= Trim(c, l, later).end
  {
    if PastSlices(l, later, c.Slice()) == 0 {
      assert c.iops * 0 == 0;
    }
  }

  lemma GrantPays(c: Limits, m: Meter, size: nat, now: nat)
    requires c.Valid() && !c.Unlimited() && OpsOk(c, m) && m.now <= now && MayDispatch(c, m.lane, size, now).ok
    ensures JustCharged(c, Charge(Renewed(c, m.lane, now), size), if m.started then m.s0 else now, m.ios + 1, now)
  {
    RenewPays(c, m, now);
    GrantMeans(c, m.lane, size, now);
    ChargePays(c, Renewed(c, m.lane, now), if m.started then m.s0 else now, m.ios, size, now);
  }

  lemma DispatchPays(c: Limits, m: Meter, size: nat, now: nat, later: nat)
    requires c.Valid() && !c.Unlimited() && OpsOk(c, m) && Enabled(c, m, Dispatch(size, now, later))
    ensures OpsOk(c, Apply(c, m, Dispatch(size, now, later)))
  {
    GrantPays(c, m, size, now);
    GrantMeans(c, m.lane, size, now);
    TrimPays(c, Charge(Renewed(c, m.lane, now), size), if m.started then m.s0 else now, m.ios + 1, now, later);
  }

  lemma {:induction false} OpsInRuns(c: Limits, m: Meter, run: seq<Action>)
    requires c.Valid() && !c.Unlimited() && OpsOk(c, m) && Legal(c, m, run)
    ensures OpsOk(c, Exec(c, m, run))
    decreases |run|
  {
    if run != [] {
      match run[0] {
        case Ask(size, now) => AskPays(c, m, size, now);
        case Dispatch(size, now, later) => DispatchPays(c, m, size, now, later);
      }
      OpsInRuns(c, Apply(c, m, run[0]), run[1..]);
    }
  }

  /**
   * The bound of bytes holds of operations too, in every run: neither products that overflow 64 bits nor the wrap of
   * the 32-bit counter let a group exceed it.
   */
  lemma IosRateBound(c: Limits, run: seq<Action>)
    requires c.Valid() && !c.Unlimited() && Legal(c, NEW, run)
    ensures var m := Exec(c, NEW, run);
      m.started ==> m.s0 <= m.now && m.ios * c.hz <= c.iops * (m.now - m.s0 + c.Slice())
  {
    OpsInRuns(c, NEW, run);
  }
}
