/** Token slices of block/blk-throttle.c for one group and direction. */
module ThrottleRate {
  import opened Arith

  /** Tick rate and limits; an unlimited rate is the largest number of its type. */
  datatype Limits = Limits(hz: nat, bps: nat, iops: nat) {
    predicate Valid() {
      10 <= hz < U32 && 0 < bps < U64 && 0 < iops < U32
    }

    /** `throtl_slice`. */
    function Slice(): (s: nat)
      ensures 10 <= hz ==> 0 < s
    {
      hz / 10
    }

    predicate Unlimited() {
      bps == U64 - 1 && iops == U32 - 1
    }
  }

  /** bytes_disp, io_disp, slice_start and slice_end. */
  datatype Lane = Lane(bytes: nat, ios: nat, start: nat, end: nat)

  const ZEROED := Lane(0, 0, 0, 0)

  function Div(a: nat, b: nat): (q: nat)
    requires 0 < b
    ensures q * b <= a < q * b + b
  {
    QuotientBelow(a, b);
    a / b
  }

  function RoundUp(n: nat, to: nat): (r: nat)
    requires 0 < to
    ensures n <= r < n + to
  {
    Div(n + to - 1, to) * to
  }

  /** `throtl_slice_used`. */
  predicate Used(l: Lane, now: nat) {
    !(l.start <= now <= l.end)
  }

  /** `throtl_start_new_slice`. */
  function StartSlice(c: Limits, now: nat): Lane {
    Lane(0, 0, now, now + c.Slice())
  }

  function Extend(c: Limits, l: Lane, to: nat): Lane
    requires c.Valid()
  {
    if l.end < to then l.(end := RoundUp(to, c.Slice())) else l
  }

  function Elapsed(l: Lane, now: nat): nat
    requires l.start <= now
  {
    now - l.start
  }

  /** Elapsed time in whole slices, at least one. */
  function ElapsedRounded(c: Limits, l: Lane, now: nat): nat
    requires c.Valid() && l.start <= now
  {
    RoundUp(if now == l.start then c.Slice() else now - l.start, c.Slice())
  }

  /** What a rate per second allows in `time` ticks. The product is taken in 64 bits, which can only lower it. */
  function Share(rate: nat, time: nat, hz: nat): (n: nat)
    requires 0 < hz
    ensures n * hz <= rate * time && n * hz < U64
  {
    var p := rate * time;
    WrapDown(p);
    Div(p % U64, hz)
  }

  lemma WrapDown(p: nat)
    ensures 0 <= p % U64 <= p
  {
  }

  lemma QuotientBelow(w: nat, hz: nat)
    requires 0 < hz
    ensures 0 <= w / hz && (w / hz) * hz <= w < (w / hz) * hz + hz
  {
    var q := w / hz;
    assert w == q * hz + w % hz;
    assert q <= -1 ==> q * hz <= -1 * hz;
  }

  function BytesAllowed(c: Limits, l: Lane, now: nat): nat
    requires c.Valid() && l.start <= now
  {
    Share(c.bps, ElapsedRounded(c, l, now), c.hz)
  }

  function IosAllowed(c: Limits, l: Lane, now: nat): nat
    requires c.Valid() && l.start <= now
  {
    var t := Share(c.iops, ElapsedRounded(c, l, now), c.hz);
    if t > U32 - 1 then U32 - 1 else t
  }

  datatype Answer = Answer(ok: bool, wait: nat)

  /** `tg_with_in_bps_limit`. */
  function WithinBps(c: Limits, l: Lane, size: nat, now: nat): Answer
    requires c.Valid() && l.start <= now
  {
    var allowed := BytesAllowed(c, l, now);
    var sum := (l.bytes + size) % U64;
    if sum <= allowed then Answer(true, 0)
    else
      var w := Div(((sum - allowed) * c.hz) % U64, c.bps);
      Answer(false, (if w == 0 then 1 else w) + ElapsedRounded(c, l, now) - Elapsed(l, now))
  }

  /** `tg_with_in_iops_limit`. */
  function WithinIops(c: Limits, l: Lane, now: nat): Answer
    requires c.Valid() && l.start <= now
  {
    var next := (l.ios + 1) % U32;
    if next <= IosAllowed(c, l, now) then Answer(true, 0)
    else
      var w := Div((next * c.hz) % U32, c.iops) + 1;
      Answer(false, if w > Elapsed(l, now) then w - Elapsed(l, now) else 1)
  }

  /** The slice `tg_may_dispatch` decides on: a new one if the last is used up, else one that reaches far enough. */
  function Renewed(c: Limits, l: Lane, now: nat): (r: Lane)
    requires c.Valid()
    ensures r.start <= now
  {
    if Used(l, now) then StartSlice(c, now) else Extend(c, l, now + c.Slice())
  }

  datatype Decision = Decision(ok: bool, wait: nat, lane: Lane)

  /** `tg_may_dispatch`. */
  function MayDispatch(c: Limits, l: Lane, size: nat, now: nat): Decision
    requires c.Valid()
  {
    if c.Unlimited() then Decision(true, 0, l)
    else
      var r := Renewed(c, l, now);
      var b := WithinBps(c, r, size, now);
      var i := if b.ok then WithinIops(c, r, now) else Answer(true, 0);
      if b.ok && i.ok then Decision(true, 0, r)
      else
        var wait := if b.wait < i.wait then i.wait else b.wait;
        Decision(false, wait, Extend(c, r, now + wait))
  }

  /** A refusal names a wait, and asking again at the same time gives the same answer and changes nothing. */
  lemma RefusedAgain(c: Limits, l: Lane, size: nat, now: nat)
    requires c.Valid() && !MayDispatch(c, l, size, now).ok
    ensures MayDispatch(c, l, size, now).wait >= 1
    ensures MayDispatch(c, MayDispatch(c, l, size, now).lane, size, now) == MayDispatch(c, l, size, now)
  {
    var r := Renewed(c, l, now);
    var d := MayDispatch(c, l, size, now);
    assert now <= r.end <= d.lane.end && d.lane.start == r.start;
    var r' := Renewed(c, d.lane, now);
    assert r'.start == r.start && r'.bytes == r.bytes && r'.ios == r.ios;
  }

  /** `throtl_charge_bio`. */
  function Charge(l: Lane, size: nat): Lane {
    l.(bytes := (l.bytes + size) % U64, ios := (l.ios + 1) % U32)
  }

  function Less(a: nat, b: nat): nat {
    if b <= a then a - b else 0
  }

  /** The time of the whole slices that have passed. */
  function PastSlices(l: Lane, now: nat, slice: nat): (t: nat)
    requires 0 < slice && l.start <= now
    ensures t <= now - l.start
  {
    Div(now - l.start, slice) * slice
  }

  /** `throtl_trim_slice`: whole slices that have passed are forgotten with what they allowed. */
  function Trim(c: Limits, l: Lane, now: nat): Lane
    requires c.Valid()
  {
    if Used(l, now) then l
    else
      var l1 := l.(end := RoundUp(now + c.Slice(), c.Slice()));
      var past := PastSlices(l, now, c.Slice());
      var bytes := Share(c.bps, past, c.hz);
      var ios := Share(c.iops, past, c.hz);
      if past == 0 || (bytes == 0 && ios == 0) then l1
      else l1.(bytes := Less(l.bytes, bytes), ios := Less(l.ios, ios), start := l.start + past)
  }

  // The rate bound, for bytes and for operations alike

  /**
   * `total` units were dispatched at times from `s0` to `now` with a limit of `rate` per second; the lane still counts
   * `used` of them. What it has forgotten was allowed before the slice started.
   */
  ghost predicate Metered(hz: nat, slice: nat, rate: nat, s0: nat, total: int, used: int, start: nat, end: nat,
      now: nat) {
    && s0 <= start <= now && start <= end && used <= total
    && (total - used) * hz <= rate * (start - s0)
    && total * hz <= rate * (end - s0)
    && total * hz <= rate * (now - s0 + slice)
  }

  lemma MulMono(k: nat, a: int, b: int)
    requires a <= b
    ensures k * a <= k * b
  {
    assert k * b - k * a == k * (b - a);
    assert 0 <= k * (b - a);
  }

  lemma MeterLater(hz: nat, slice: nat, rate: nat, s0: nat, total: int, used: int, start: nat, end: nat, now: nat,
      end': nat, now': nat)
    requires Metered(hz, slice, rate, s0, total, used, start, end, now) && end <= end' && now <= now'
    ensures Metered(hz, slice, rate, s0, total, used, start, end', now')
  {
    MulMono(rate, end - s0, end' - s0);
    MulMono(rate, now - s0 + slice, now' - s0 + slice);
  }

  /** A used slice is replaced: by then all that was dispatched has been allowed. */
  lemma MeterRestart(hz: nat, slice: nat, rate: nat, s0: nat, total: int, used: int, start: nat, end: nat, now: nat,
      now': nat)
    requires Metered(hz, slice, rate, s0, total, used, start, end, now) && now <= now' && end < now' && 0 <= total
    ensures Metered(hz, slice, rate, s0, total, 0, now', now' + slice, now')
  {
    MulMono(rate, end - s0, now' - s0);
    MulMono(rate, now' - s0, now' - s0 + slice);
  }

  /** A unit within the allowance of the slice is charged. */
  lemma MeterCharge(hz: nat, slice: nat, rate: nat, s0: nat, total: int, used: int, start: nat, end: nat, now: nat,
      n: nat)
    requires Metered(hz, slice, rate, s0, total, used, start, end, now)
    requires (used + n) * hz <= rate * (now - start + slice) && now + slice <= end
    ensures Metered(hz, slice, rate, s0, total + n, used + n, start, end, now)
  {
    assert (total + n) * hz == (total - used) * hz + (used + n) * hz;
    assert rate * (start - s0) + rate * (now - start + slice) == rate * (now - s0 + slice);
    MulMono(rate, now - s0 + slice, end - s0);
  }

  /** Trimming forgets no more than the slices dropped have allowed. */
  lemma MeterTrim(hz: nat, slice: nat, rate: nat, s0: nat, total: int, used: int, start: nat, end: nat, now: nat,
      gone: nat, drop: nat, end': nat)
    requires Metered(hz, slice, rate, s0, total, used, start, end, now) && now + slice <= end'
    requires start + drop <= now && gone * hz <= rate * drop && 0 <= used
    ensures Metered(hz, slice, rate, s0, total, Less(used, gone), start + drop, end', now)
  {
    var used' := Less(used, gone);
    assert (total - used') * hz == (total - used) * hz + (used - used') * hz;
    MulMono(hz, used - used', gone);
    assert rate * (start + drop - s0) == rate * (start - s0) + rate * drop;
    MulMono(rate, now - s0 + slice, end' - s0);
  }

  // Whole runs of a group without children

  /** The lane, the time, when its first slice started, and all it has ever been charged. */
  datatype Meter = Meter(lane: Lane, now: nat, started: bool, s0: nat, bytes: nat, ios: nat)

  const NEW := Meter(ZEROED, 0, false, 0, 0, 0)

  datatype Action =
    | Ask(size: nat, now: nat) // tg_may_dispatch, whatever it says
    | Dispatch(size: nat, now: nat, later: nat) // tg_may_dispatch said yes; charged and trimmed a little later

  predicate Enabled(c: Limits, m: Meter, a: Action)
    requires c.Valid()
  {
    match a
    case Ask(size, now) => m.now <= now && size < U32
    case Dispatch(size, now, later) => m.now <= now <= later && size < U32 && MayDispatch(c, m.lane, size, now).ok
  }

  function Asked(c: Limits, m: Meter, size: nat, now: nat): Meter
    requires c.Valid()
  {
    m.(lane := MayDispatch(c, m.lane, size, now).lane, now := now, started := true,
       s0 := if m.started then m.s0 else now)
  }

  function Apply(c: Limits, m: Meter, a: Action): Meter
    requires c.Valid() && Enabled(c, m, a)
  {
    match a
    case Ask(size, now) => Asked(c, m, size, now)
    case Dispatch(size, now, later) =>
      var m1 := Asked(c, m, size, now);
      m1.(lane := Trim(c, Charge(m1.lane, size), later), now := later, bytes := m.bytes + size, ios := m.ios + 1)
  }

  ghost predicate BytesOk(c: Limits, m: Meter)
    requires c.Valid()
  {
    && m.lane.bytes * c.hz < U64
    && (m.started ==> Metered(c.hz, c.Slice(), c.bps, m.s0, m.bytes, m.lane.bytes, m.lane.start, m.lane.end, m.now))
    && (!m.started ==> m.lane == ZEROED && m.bytes == 0)
  }

  /** What renewing the slice does to a meter of either kind. */
  lemma RenewMeters(c: Limits, rate: nat, m: Meter, total: nat, used: nat, now: nat)
    requires c.Valid() && m.now <= now && (!m.started ==> m.lane == ZEROED && total == used == 0)
    requires m.started ==> Metered(c.hz, c.Slice(), rate, m.s0, total, used, m.lane.start, m.lane.end, m.now)
    ensures var r := Renewed(c, m.lane, now);
      && now + c.Slice() <= r.end
      && Metered(c.hz, c.Slice(), rate, if m.started then m.s0 else now, total,
                 if Used(m.lane, now) then 0 else used, r.start, r.end, now)
  {
    var r := Renewed(c, m.lane, now);
    if !m.started {
      assert r.start == now;
      assert 0 <= rate * (r.end - now) && 0 <= rate * c.Slice();
    } else if Used(m.lane, now) {
      MeterRestart(c.hz, c.Slice(), rate, m.s0, total, used, m.lane.start, m.lane.end, m.now, now);
    } else {
      MeterLater(c.hz, c.Slice(), rate, m.s0, total, used, m.lane.start, m.lane.end, m.now, r.end, now);
    }
  }

  lemma AskMeters(c: Limits, rate: nat, m: Meter, total: nat, used: nat, size: nat, now: nat)
    requires c.Valid() && !c.Unlimited() && m.now <= now && (!m.started ==> m.lane == ZEROED && total == used == 0)
    requires m.started ==> Metered(c.hz, c.Slice(), rate, m.s0, total, used, m.lane.start, m.lane.end, m.now)
    ensures var d := MayDispatch(c, m.lane, size, now);
      Metered(c.hz, c.Slice(), rate, if m.started then m.s0 else now, total,
              if Used(m.lane, now) then 0 else used, d.lane.start, d.lane.end, now)
  {
    RenewMeters(c, rate, m, total, used, now);
    var r, d := Renewed(c, m.lane, now), MayDispatch(c, m.lane, size, now);
    MeterLater(c.hz, c.Slice(), rate, if m.started then m.s0 else now, total, if Used(m.lane, now) then 0 else used,
               r.start, r.end, now, d.lane.end, now);
  }

  lemma AskBytes(c: Limits, m: Meter, size: nat, now: nat)
    requires c.Valid() && !c.Unlimited() && BytesOk(c, m) && m.now <= now
    ensures BytesOk(c, Asked(c, m, size, now))
  {
    AskMeters(c, c.bps, m, m.bytes, m.lane.bytes, size, now);
  }

  /** The allowance of a slice is at most the rate for the time passed and one slice more. */
  lemma AllowanceBound(c: Limits, l: Lane, rate: nat, now: nat)
    requires c.Valid() && l.start <= now
    ensures Share(rate, ElapsedRounded(c, l, now), c.hz) * c.hz <= rate * (now - l.start + c.Slice())
  {
    var rounded := ElapsedRounded(c, l, now);
    RoundedBound(c, l, now);
    MulMono(rate, rounded, now - l.start + c.Slice());
    assert Share(rate, rounded, c.hz) * c.hz <= rate * rounded;
  }

  lemma RoundedBound(c: Limits, l: Lane, now: nat)
    requires c.Valid() && l.start <= now
    ensures ElapsedRounded(c, l, now) <= now - l.start + c.Slice()
  {
    var slice := c.Slice();
    if now == l.start {
      assert 1 * slice == slice;
      Multiple(slice, 1);
    }
  }

  lemma Multiple(n: nat, k: nat)
    requires 0 < n
    ensures RoundUp(k * n, n) == k * n
  {
    var q := Div(k * n + n - 1, n);
    if q < k {
      MulMono(n, q + 1, k);
    } else if k < q {
      MulMono(n, k + 1, q);
    }
  }

  /** The byte counter never comes near 64 bits. */
  lemma NoByteWrap(c: Limits, bytes: nat, size: nat)
    requires c.Valid() && bytes * c.hz < U64 && size < U32
    ensures (bytes + size) % U64 == bytes + size
  {
    MulMono(bytes, 10, c.hz);
  }

  lemma TrimMeters(c: Limits, rate: nat, l: Lane, s0: nat, total: nat, used: nat, now: nat, later: nat)
    requires c.Valid() && now <= later && Metered(c.hz, c.Slice(), rate, s0, total, used, l.start, l.end, now)
    ensures var t := Trim(c, l, later);
      var gone := if t.start == l.start then 0 else Share(rate, t.start - l.start, c.hz);
      l.start <= t.start && Metered(c.hz, c.Slice(), rate, s0, total, Less(used, gone), t.start, t.end, later)
  {
    MeterLater(c.hz, c.Slice(), rate, s0, total, used, l.start, l.end, now, l.end, later);
    var t := Trim(c, l, later);
    if !Used(l, later) {
      var drop := t.start - l.start;
      var gone := if drop == 0 then 0 else Share(rate, drop, c.hz);
      assert rate * 0 == 0;
      MeterTrim(c.hz, c.Slice(), rate, s0, total, used, l.start, l.end, later, gone, drop, t.end);
    }
  }

  /** A trim that moves the slice takes from both counters what the dropped time allowed. */
  lemma TrimTakes(c: Limits, l: Lane, now: nat)
    requires c.Valid()
    ensures var t := Trim(c, l, now);
      && l.start <= t.start
      && t.bytes == Less(l.bytes, if t.start == l.start then 0 else Share(c.bps, t.start - l.start, c.hz))
      && t.ios == Less(l.ios, if t.start == l.start then 0 else Share(c.iops, t.start - l.start, c.hz))
  {
  }

  /** A granted dispatch was decided on the renewed slice and fits both allowances. */
  lemma GrantMeans(c: Limits, l: Lane, size: nat, now: nat)
    requires c.Valid() && !c.Unlimited() && MayDispatch(c, l, size, now).ok
    ensures var r := Renewed(c, l, now);
      && MayDispatch(c, l, size, now).lane == r
      && (r.bytes + size) % U64 <= BytesAllowed(c, r, now)
      && (r.ios + 1) % U32 <= IosAllowed(c, r, now)
  {
  }

  lemma MeterWithin(hz: nat, slice: nat, rate: nat, s0: nat, total: int, used: int, start: nat, end: nat, now: nat,
      n: nat, allowed: nat)
    requires Metered(hz, slice, rate, s0, total, used, start, end, now) && now + slice <= end
    requires used + n <= allowed && allowed * hz < U64 && allowed * hz <= rate * (now - start + slice)
    ensures (used + n) * hz < U64 && (used + n) * hz <= rate * (now - start + slice)
    ensures Metered(hz, slice, rate, s0, total + n, used + n, start, end, now)
  {
    MulMono(hz, used + n, allowed);
    MeterCharge(hz, slice, rate, s0, total, used, start, end, now, n);
  }

  lemma RenewedBytes(c: Limits, l: Lane, now: nat)
    requires c.Valid() && l.bytes * c.hz < U64
    ensures Renewed(c, l, now).bytes * c.hz < U64
  {
  }

  lemma ChargeBytes(c: Limits, m: Meter, size: nat, now: nat)
    requires c.Valid() && !c.Unlimited() && BytesOk(c, m) && m.now <= now && size < U32
    requires MayDispatch(c, m.lane, size, now).ok
    ensures var r := Renewed(c, m.lane, now);
      && Charge(r, size).bytes == r.bytes + size && (r.bytes + size) * c.hz < U64
      && Metered(c.hz, c.Slice(), c.bps, if m.started then m.s0 else now, m.bytes + size, r.bytes + size, r.start,
                 r.end, now)
  {
    GrantMeans(c, m.lane, size, now);
    RenewMeters(c, c.bps, m, m.bytes, m.lane.bytes, now);
    var r := Renewed(c, m.lane, now);
    RenewedBytes(c, m.lane, now);
    NoByteWrap(c, r.bytes, size);
    AllowanceBound(c, r, c.bps, now);
    MeterWithin(c.hz, c.Slice(), c.bps, if m.started then m.s0 else now, m.bytes, r.bytes, r.start, r.end, now, size,
                BytesAllowed(c, r, now));
  }

  lemma LessBytes(a: nat, b: nat, hz: nat)
    requires b <= a && a * hz < U64
    ensures b * hz < U64
  {
    MulMono(hz, b, a);
  }

  lemma DispatchBytes(c: Limits, m: Meter, size: nat, now: nat, later: nat)
    requires c.Valid() && !c.Unlimited() && BytesOk(c, m) && Enabled(c, m, Dispatch(size, now, later))
    ensures BytesOk(c, Apply(c, m, Dispatch(size, now, later)))
  {
    ChargeBytes(c, m, size, now);
    GrantMeans(c, m.lane, size, now);
    var charged := Charge(Renewed(c, m.lane, now), size);
    TrimMeters(c, c.bps, charged, if m.started then m.s0 else now, m.bytes + size, charged.bytes, now, later);
    TrimTakes(c, charged, later);
    LessBytes(charged.bytes, Trim(c, charged, later).bytes, c.hz);
  }

  ghost predicate Legal(c: Limits, m: Meter, run: seq<Action>)
    requires c.Valid()
    decreases |run|
  {
    run == [] || (Enabled(c, m, run[0]) && Legal(c, Apply(c, m, run[0]), run[1..]))
  }

  ghost function Exec(c: Limits, m: Meter, run: seq<Action>): Meter
    requires c.Valid() && Legal(c, m, run)
    decreases |run|
  {
    if run == [] then m else Exec(c, Apply(c, m, run[0]), run[1..])
  }

  lemma {:induction false} BytesInRuns(c: Limits, m: Meter, run: seq<Action>)
    requires c.Valid() && !c.Unlimited() && BytesOk(c, m) && Legal(c, m, run)
    ensures BytesOk(c, Exec(c, m, run))
    decreases |run|
  {
    if run != [] {
      match run[0] {
        case Ask(size, now) => AskBytes(c, m, size, now);
        case Dispatch(size, now, later) => DispatchBytes(c, m, size, now, later);
      }
      BytesInRuns(c, Apply(c, m, run[0]), run[1..]);
    }
  }

  /**
   * Over a whole run, across every start, extension, trim and expiry of slices, a limited group has dispatched at
   * most its rate for the time since its first slice and one slice more. No product overflow is excluded.
   */
  lemma BytesRateBound(c: Limits, run: seq<Action>)
    requires c.Valid() && !c.Unlimited() && Legal(c, NEW, run)
    ensures var m := Exec(c, NEW, run);
      m.started ==> m.s0 <= m.now && m.bytes * c.hz <= c.bps * (m.now - m.s0 + c.Slice())
  {
    BytesInRuns(c, NEW, run);
  }
}
