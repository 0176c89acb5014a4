/** What one slow group is told at three moments (block/blk-throttle.c). */
module ThrottleTimes {
  import opened Arith
  import Rate = ThrottleRate

  lemma RoundIs(n: nat, to: nat, k: nat)
    requires 0 < to && k * to - to < n <= k * to
    ensures Rate.RoundUp(n, to) == k * to
  {
    DivModUnique(n + to - 1, to, k, n + to - 1 - k * to);
  }

  lemma ShareIs(rate: nat, time: nat, hz: nat, n: nat)
    requires 0 < hz && n * hz <= rate * time < n * hz + hz && rate * time < U64
    ensures Rate.Share(rate, time, hz) == n
  {
    QuotientIs(rate * time, hz, n);
  }

  /** The answer, from the slice that is looked at, its age in whole slices and what they allow. */
  lemma Allowed(c: Rate.Limits, l: Rate.Lane, size: nat, now: nat, r: Rate.Lane, aged: nat, bytes: nat)
    requires c.Valid() && !c.Unlimited() && Rate.Renewed(c, l, now) == r && Rate.ElapsedRounded(c, r, now) == aged
    requires Rate.Share(c.bps, aged, c.hz) == bytes && r.bytes + size <= bytes < U64
    requires r.ios == 0 && 0 < Rate.Share(c.iops, aged, c.hz)
    ensures Rate.MayDispatch(c, l, size, now) == Rate.Decision(true, 0, r)
  {
    assert (r.bytes + size) % U64 == r.bytes + size;
  }

  lemma QuotientIs(a: nat, b: nat, q: nat)
    requires 0 < b && q * b <= a < q * b + b
    ensures Rate.Div(a, b) == q
  {
    DivModUnique(a, b, q, a - q * b);
  }

  /** A slice that has just started counts as one whole slice. */
  lemma NewAge(c: Rate.Limits, l: Rate.Lane, now: nat)
    requires c.Valid() && l.start == now
    ensures Rate.ElapsedRounded(c, l, now) == c.Slice()
  {
    RoundIs(c.Slice(), c.Slice(), 1);
  }

  lemma AgeIs(c: Rate.Limits, l: Rate.Lane, now: nat, k: nat)
    requires c.Valid() && l.start < now && k * c.Slice() - c.Slice() < now - l.start <= k * c.Slice()
    ensures Rate.ElapsedRounded(c, l, now) == k * c.Slice()
  {
    RoundIs(now - l.start, c.Slice(), k);
  }

  lemma RenewedIs(c: Rate.Limits, l: Rate.Lane, now: nat, k: nat)
    requires c.Valid() && l.start <= now <= l.end < now + c.Slice()
    requires k * c.Slice() - c.Slice() < now + c.Slice() <= k * c.Slice()
    ensures Rate.Renewed(c, l, now) == l.(end := k * c.Slice())
  {
    RoundIs(now + c.Slice(), c.Slice(), k);
  }

  lemma BytesDenied(c: Rate.Limits, r: Rate.Lane, size: nat, now: nat, aged: nat, bytes: nat, over: nat, wait: nat)
    requires c.Valid() && r.start <= now && Rate.ElapsedRounded(c, r, now) == aged
    requires Rate.Share(c.bps, aged, c.hz) == bytes < r.bytes + size < U64
    requires (r.bytes + size - bytes) * c.hz == over < U64 && Rate.Div(over, c.bps) == wait > 0
    ensures Rate.WithinBps(c, r, size, now) == Rate.Answer(false, wait + aged - Rate.Elapsed(r, now))
  {
    assert (r.bytes + size) % U64 == r.bytes + size;
    assert over % U64 == over;
  }

  /** A refusal for bytes, and the slice it leaves. */
  lemma Denied(c: Rate.Limits, l: Rate.Lane, size: nat, now: nat, r: Rate.Lane, wait: nat)
    requires c.Valid() && !c.Unlimited() && Rate.Renewed(c, l, now) == r
    requires Rate.WithinBps(c, r, size, now) == Rate.Answer(false, wait)
    ensures Rate.MayDispatch(c, l, size, now) == Rate.Decision(false, wait, Rate.Extend(c, r, now + wait))
  {
  }

  /** A thousand ticks and ten thousand bytes a second, and no limit on operations. */
  ghost predicate Slow(c: Rate.Limits) {
    c.hz == 1000 && c.bps == 10000 && c.iops == U32 - 1
  }

  lemma FirstSlice(c: Rate.Limits, r: Rate.Lane, size: nat, aged: nat, bytes: nat, over: nat, wait: nat)
    requires c.Valid() && aged == c.Slice() && r.start < aged && r.bytes == 0 && bytes < size < U64
    requires c.bps * aged == bytes * c.hz < U64 && over == (size - bytes) * c.hz == wait * c.bps < U64 && 0 < wait
    ensures Rate.WithinBps(c, r, size, r.start) == Rate.Answer(false, wait + aged)
  {
    NewAge(c, r, r.start);
    ShareIs(c.bps, aged, c.hz, bytes);
    QuotientIs(over, c.bps, wait);
    BytesDenied(c, r, size, r.start, aged, bytes, over, wait);
  }

  lemma RefusedAtFirst(c: Rate.Limits, l: Rate.Lane)
    requires Slow(c) && l == Rate.ZEROED
    ensures Rate.MayDispatch(c, l, 1500, 1) == Rate.Decision(false, 150, Rate.Lane(0, 0, 1, 200))
  {
    var r := Rate.Lane(0, 0, 1, 101);
    FirstSlice(c, r, 1500, 100, 1000, 500000, 50);
    Denied(c, l, 1500, 1, r, 150);
    RoundIs(151, c.Slice(), 2);
  }

  lemma TrimIs(c: Rate.Limits, l: Rate.Lane, now: nat, k: nat, n: nat, bytes: nat, ios: nat)
    requires c.Valid() && l.start <= now <= l.end
    requires Rate.RoundUp(now + c.Slice(), c.Slice()) == k * c.Slice() && Rate.Div(now - l.start, c.Slice()) == n
    requires 0 < n * c.Slice() && Rate.Share(c.bps, n * c.Slice(), c.hz) == bytes > 0
    requires Rate.Share(c.iops, n * c.Slice(), c.hz) == ios
    ensures Rate.Trim(c, l, now) ==
      Rate.Lane(Rate.Less(l.bytes, bytes), Rate.Less(l.ios, ios), l.start + n * c.Slice(), k * c.Slice())
  {
  }

  lemma Trimmed(c: Rate.Limits, l: Rate.Lane)
    requires Slow(c) && l == Rate.Lane(1500, 1, 1, 300)
    ensures Rate.Trim(c, l, 151) == Rate.Lane(500, 0, 101, 300)
  {
    RoundIs(251, c.Slice(), 3);
    QuotientIs(150, c.Slice(), 1);
    ShareIs(c.bps, 100, c.hz, 1000);
    ShareIs(c.iops, 100, c.hz, 429496729);
    TrimIs(c, l, 151, 3, 1, 1000, 429496729);
  }

  lemma GrantedWhenDue(c: Rate.Limits, l: Rate.Lane)
    requires Slow(c) && l == Rate.Lane(0, 0, 1, 200)
    ensures Rate.MayDispatch(c, l, 1500, 151) == Rate.Decision(true, 0, Rate.Lane(0, 0, 1, 300))
  {
    RenewedIs(c, l, 151, 3);
    var r := Rate.Lane(0, 0, 1, 300);
    AgeIs(c, r, 151, 2);
    ShareIs(c.bps, 200, c.hz, 2000);
    ShareIs(c.iops, 200, c.hz, 858993459);
    Allowed(c, l, 1500, 151, r, 200, 2000);
  }

  lemma GrantedAtOnce(c: Rate.Limits, l: Rate.Lane)
    requires Slow(c) && l == Rate.Lane(500, 0, 101, 300)
    ensures Rate.MayDispatch(c, l, 100, 151).ok
  {
    AgeIs(c, l, 151, 1);
    ShareIs(c.bps, 100, c.hz, 1000);
    ShareIs(c.iops, 100, c.hz, 429496729);
    Allowed(c, l, 100, 151, l, 100, 1000);
  }
}

/** A run of one throttled group in which a bio overtakes another. */
module ThrottleWitness {
  import opened Arith
  import opened ThrottleData
  import opened ThrottleFifo
  import opened ThrottleOrder
  import opened ThrottleQnodes
  import opened ThrottleState
  import opened ThrottleTimes
  import Rate = ThrottleRate

  const ALONE: seq<nat> := [1]
  const OWN := Qnode(0, false)

  function Fresh(h: Half): Track {
    Track(h, [], [], [], [])
  }

  /** A device with one slow group refuses its first bio. */
  method Hold(b: Bio) returns (d: ThrotlData, ghost h: Half)
    requires b.tg == 0 && b.size == 1500
    ensures fresh(d) && d.Valid() && d.up == ALONE && Slow(d.limits[0][0]) && Idle(ALONE, h) && HalfOk(ALONE, h)
    ensures Enabled(ALONE, Fresh(h), Queue(b, OWN)) && d.half[0] == Submit(ALONE, h, OWN, b)
    ensures d.lane[0][0] == Rate.Lane(0, 0, 1, 200) && d.tree.time[0] <= 151 && Idle(ALONE, d.half[1])
  {
    var slow := Rate.Limits(1000, 10000, U32 - 1);
    d := new ThrotlData(ALONE, [[slow], [slow]]);
    h := d.half[0];
    RefusedAtFirst(slow, Rate.ZEROED);
    var held, at := d.BlkThrotlBio(b, 0, 1);
  }

  /** At tick 151 it may go. */
  method Pass(d: ThrotlData)
    requires d.Valid() && d.up == ALONE && Slow(d.limits[0][0]) && d.lane[0][0] == Rate.Lane(0, 0, 1, 200)
    requires d.half[0].queued[0] == [OWN] && Held(d.half[0].bios, OWN) != [] && Front(d.half[0], 0).size == 1500
    requires d.half[0].nr == [1] && Idle(ALONE, d.half[1])
    modifies d
    ensures d.Valid() && d.lane[0][0] == Rate.Lane(500, 0, 101, 300) && d.half[0].nr == [0]
    ensures d.half[0].queued[1] != []
    ensures CanDispatch(ALONE, old(d.half[0]), 0) && d.half[0] == DispatchOne(ALONE, old(d.half[0]), 0)
  {
    GrantedAndTrimmed(d.limits[0][0], d.lane[0][0]);
    TakeAlone(d);
    var ok := d.TryDispatch(0, 0, 151);
    IdleInv(d.up, d.half, d.tree, d.refs, 0);
  }

  method TakeAlone(d: ThrotlData)
    requires d.Valid() && d.up == ALONE && 0 < d.half[0].nr[0]
    modifies d`tree
    ensures d.ValidBut(0)
  {
    assert Busy(d.half, 0);
    var g := d.TakeFirst(1);
  }

  lemma GrantedAndTrimmed(c: Rate.Limits, l: Rate.Lane)
    requires Slow(c) && l == Rate.Lane(0, 0, 1, 200)
    ensures Rate.MayDispatch(c, l, 1500, 151).ok && Granted(c, l, 1500, 151) == Rate.Lane(500, 0, 101, 300)
  {
    GrantedWhenDue(c, l);
    Trimmed(c, Rate.Lane(1500, 1, 1, 300));
  }

  /** So may a second, smaller one, at once. */
  method LetThrough(d: ThrotlData, c: Bio)
    requires d.Valid() && d.up == ALONE && Slow(d.limits[0][0]) && d.lane[0][0] == Rate.Lane(500, 0, 101, 300)
    requires c.tg == 0 && c.size == 100 && d.half[0].nr == [0]
    modifies d
    ensures d.Valid() && d.half == old(d.half)
  {
    GrantedAtOnce(d.limits[0][0], d.lane[0][0]);
    var held, at := d.BlkThrotlBio(c, 0, 151);
  }

  /** The first bio is held back and passed to the device; the order model takes the same steps. */
  method Begin(b: Bio) returns (d: ThrotlData, ghost h: Half, ghost h1: Half)
    requires b.tg == 0 && b.size == 1500
    ensures fresh(d) && d.Valid() && d.up == ALONE && Slow(d.limits[0][0]) && Idle(ALONE, h) && HalfOk(ALONE, h)
    ensures Steps(Fresh(h), Queue(b, OWN), Track(h1, [b], [], [], []))
    ensures Steps(Track(h1, [b], [], [], []), Up(0), Track(d.half[0], [b], [], [], []))
    ensures d.lane[0][0] == Rate.Lane(500, 0, 101, 300) && d.half[0].nr == [0] && d.half[0].queued[1] != []
  {
    d, h := Hold(b);
    h1 := d.half[0];
    FirstQueued(ALONE, h, OWN, b);
    Pass(d);
    FirstSteps(h, h1, d.half[0], b);
  }

  lemma FirstSteps(h: Half, h1: Half, h2: Half, b: Bio)
    requires Enabled(ALONE, Fresh(h), Queue(b, OWN)) && h1 == Submit(ALONE, h, OWN, b)
    requires CanDispatch(ALONE, h1, 0) && h2 == DispatchOne(ALONE, h1, 0)
    ensures Steps(Fresh(h), Queue(b, OWN), Track(h1, [b], [], [], []))
    ensures Steps(Track(h1, [b], [], [], []), Up(0), Track(h2, [b], [], [], []))
  {
    assert [] + [b] == [b];
  }

  ghost predicate Steps(t: Track, a: Action, t': Track) {
    Enabled(ALONE, t, a) && Apply(ALONE, t, a) == t'
  }

  /** A second bio is let through and issued while the first waits on the device's queue. */
  method Overtaking(b: Bio, c: Bio) returns (d: ThrotlData, ghost h: Half)
    requires b.tg == c.tg == 0 && b.size == 1500 && c.size == 100
    ensures fresh(d) && d.Valid() && d.up == ALONE && Slow(d.limits[0][0]) && Idle(ALONE, h) && HalfOk(ALONE, h)
    ensures var run := [Queue(b, OWN), Up(0), Straight(c, 1), Send(0)];
      Legal(ALONE, Fresh(h), run) && Exec(ALONE, Fresh(h), run) == Track(d.half[0], [b, c], [], [], [c])
  {
    ghost var h1;
    d, h, h1 := Begin(b);
    LetThrough(d, c);
    QueueRun(h, h1, d.half[0], b, c);
  }

  lemma QueueRun(h: Half, h1: Half, h2: Half, b: Bio, c: Bio)
    requires Steps(Fresh(h), Queue(b, OWN), Track(h1, [b], [], [], []))
    requires Steps(Track(h1, [b], [], [], []), Up(0), Track(h2, [b], [], [], []))
    requires c.tg == 0 && h2.nr == [0] && |h2.queued| == 2
    ensures var run := [Queue(b, OWN), Up(0), Straight(c, 1), Send(0)];
      Legal(ALONE, Fresh(h), run) && Exec(ALONE, Fresh(h), run) == Track(h2, [b, c], [], [], [c])
  {
    var t1, t2 := Track(h1, [b], [], [], []), Track(h2, [b], [], [], []);
    OneSent(ALONE, t2, b, c);
    AfterTwo(ALONE, Fresh(h), Queue(b, OWN), t1, Up(0), t2, [Straight(c, 1), Send(0)]);
    assert [Queue(b, OWN), Up(0)] + [Straight(c, 1), Send(0)] == [Queue(b, OWN), Up(0), Straight(c, 1), Send(0)];
  }

  /** And while the first is on the list of a worker that has dropped the lock: nothing waits on any queue then. */
  method OvertakingTheWorker(b: Bio, c: Bio) returns (d: ThrotlData, ghost h: Half)
    requires b.tg == c.tg == 0 && b.size == 1500 && c.size == 100
    ensures fresh(d) && d.Valid() && d.up == ALONE && Slow(d.limits[0][0]) && Idle(ALONE, h) && HalfOk(ALONE, h)
    ensures var run := [Queue(b, OWN), Up(0), Out(0), Straight(c, 1), Send(1), Send(0)];
      Legal(ALONE, Fresh(h), run) && Exec(ALONE, Fresh(h), run) == Track(d.half[0], [b, c], [], [], [c, b])
  {
    ghost var h1;
    d, h, h1 := Begin(b);
    ghost var h2 := d.half[0];
    HeldIsFirst(h, h1, h2, b);
    PopAlone(d, b);
    LetThrough(d, c);
    WorkerRun(h, h1, h2, d.half[0], b, c);
  }

  lemma WorkerRun(h: Half, h1: Half, h2: Half, h3: Half, b: Bio, c: Bio)
    requires Steps(Fresh(h), Queue(b, OWN), Track(h1, [b], [], [], []))
    requires Steps(Track(h1, [b], [], [], []), Up(0), Track(h2, [b], [], [], []))
    requires Steps(Track(h2, [b], [], [], []), Out(0), Track(h3, [b], [b], [0], []))
    requires c.tg == 0 && h3.nr == [0] && |h3.queued| == 2
    ensures var run := [Queue(b, OWN), Up(0), Out(0), Straight(c, 1), Send(1), Send(0)];
      Legal(ALONE, Fresh(h), run) && Exec(ALONE, Fresh(h), run) == Track(h3, [b, c], [], [], [c, b])
  {
    var t1, t2, t3 := Track(h1, [b], [], [], []), Track(h2, [b], [], [], []), Track(h3, [b], [b], [0], []);
    BothSent(ALONE, t3, b, c);
    AfterOne(ALONE, t2, Out(0), t3, [Straight(c, 1), Send(1), Send(0)]);
    AfterTwo(ALONE, Fresh(h), Queue(b, OWN), t1, Up(0), t2, [Out(0)] + [Straight(c, 1), Send(1), Send(0)]);
    assert [Queue(b, OWN), Up(0)] + ([Out(0)] + [Straight(c, 1), Send(1), Send(0)]) ==
           [Queue(b, OWN), Up(0), Out(0), Straight(c, 1), Send(1), Send(0)];
  }

  /** The worker takes the bio from the device's queue. */
  method PopAlone(d: ThrotlData, ghost b: Bio)
    requires d.Valid() && d.up == ALONE && d.half[0].queued[1] != []
    requires Held(d.half[0].bios, d.half[0].queued[1][0]) != [] && Front(d.half[0], 1) == b
    modifies d`half, d`refs
    ensures d.Valid() && d.half[0].nr == old(d.half[0].nr)
    ensures Steps(Track(old(d.half[0]), [b], [], [], []), Out(0), Track(d.half[0], [b], [b], [0], []))
  {
    var popped := d.PopOne(0);
    assert [] + [b] == [b] && [] + [0] == [0];
  }

  lemma HeldIsFirst(h: Half, h1: Half, h2: Half, b: Bio)
    requires Idle(ALONE, h) && HalfOk(ALONE, h) && b.tg == 0
    requires Steps(Fresh(h), Queue(b, OWN), Track(h1, [b], [], [], []))
    requires Steps(Track(h1, [b], [], [], []), Up(0), Track(h2, [b], [], [], [])) && h2.queued[1] != []
    ensures Held(h2.bios, h2.queued[1][0]) != [] && Front(h2, 1) == b
  {
    var t1, t2 := Track(h1, [b], [], [], []), Track(h2, [b], [], [], []);
    SafeStart(h, b, t1, t2);
    OnlyOne(ALONE, t2, b);
  }

  lemma SafeStart(h: Half, b: Bio, t1: Track, t2: Track)
    requires Idle(ALONE, h) && HalfOk(ALONE, h) && Steps(Fresh(h), Queue(b, OWN), t1) && Steps(t1, Up(0), t2)
    requires t2.h.queued[1] != []
    ensures Safe(ALONE, t2, 0) && Held(t2.h.bios, t2.h.queued[1][0]) != []
  {
    NothingWaits(ALONE, h.bios, 0, 0);
    StepKeepsSafe(ALONE, Fresh(h), Queue(b, OWN), 0);
    StepKeepsSafe(ALONE, t1, Up(0), 0);
    ListTg(ALONE, t2.h, 1);
  }

  /** The bio on the device's queue is the one that was held back. */
  lemma OnlyOne(up: seq<nat>, t: Track, b: Bio)
    requires |up| == 1 && Safe(up, t, 0) && b.tg == 0 && t.submitted == [b] && t.issued == t.out == []
    requires t.h.queued[1] != [] && Held(t.h.bios, t.h.queued[1][0]) != []
    ensures Front(t.h, 1) == b
  {
    IssueOrder(up, t.h, 0);
    assert Fits(up, t.h.queued[1][0], Front(t.h, 1));
    OnlyAppend([], b, 0);
    assert [] + [b] == [b];
    assert Waiting(up, t.h.bios, 0) == [b];
  }

  lemma BothSent(up: seq<nat>, t: Track, b: Bio, c: Bio)
    requires IsTree(up) && t == Track(t.h, [b], [b], [0], []) && Enabled(up, t, Straight(c, 1))
    ensures Legal(up, t, [Straight(c, 1), Send(1), Send(0)])
    ensures Exec(up, t, [Straight(c, 1), Send(1), Send(0)]) == Track(t.h, [b, c], [], [], [c, b])
  {
    var t1, t2 := Track(t.h, [b, c], [b, c], [0, 1], []), Track(t.h, [b, c], [b], [0], [c]);
    assert [b] + [c] == [b, c] && [0] + [1] == [0, 1] && [] + [c] == [c] && [c] + [b] == [c, b];
    assert Drop([b, c], 1) == [b] && Drop([0, 1], 1) == [0] && Drop([b], 0) == [] && Drop([0], 0) == [];
    RunOne(up, t2, Send(0));
    AfterTwo(up, t, Straight(c, 1), t1, Send(1), t2, [Send(0)]);
    assert [Straight(c, 1), Send(1)] + [Send(0)] == [Straight(c, 1), Send(1), Send(0)];
  }

  lemma OneSent(up: seq<nat>, t: Track, b: Bio, c: Bio)
    requires IsTree(up) && t == Track(t.h, [b], [], [], []) && Enabled(up, t, Straight(c, 1))
    ensures Legal(up, t, [Straight(c, 1), Send(0)])
    ensures Exec(up, t, [Straight(c, 1), Send(0)]) == Track(t.h, [b, c], [], [], [c])
  {
    var t1 := Track(t.h, [b, c], [c], [1], []);
    assert [b] + [c] == [b, c] && [] + [c] == [c] && [] + [1] == [1];
    assert Drop([c], 0) == [] && Drop([1], 0) == [];
    RunOne(up, t1, Send(0));
    AfterOne(up, t, Straight(c, 1), t1, [Send(0)]);
    assert [Straight(c, 1)] + [Send(0)] == [Straight(c, 1), Send(0)];
  }

  lemma AfterOne(up: seq<nat>, t: Track, a: Action, t1: Track, rest: seq<Action>)
    requires IsTree(up) && Enabled(up, t, a) && Apply(up, t, a) == t1 && Legal(up, t1, rest)
    ensures Legal(up, t, [a] + rest) && Exec(up, t, [a] + rest) == Exec(up, t1, rest)
  {
    RunOn(up, t, a, rest);
  }

  lemma AfterTwo(up: seq<nat>, t: Track, a: Action, t1: Track, a1: Action, t2: Track, rest: seq<Action>)
    requires IsTree(up) && Enabled(up, t, a) && Apply(up, t, a) == t1
    requires Enabled(up, t1, a1) && Apply(up, t1, a1) == t2 && Legal(up, t2, rest)
    ensures Legal(up, t, [a, a1] + rest) && Exec(up, t, [a, a1] + rest) == Exec(up, t2, rest)
  {
    RunOn(up, t1, a1, rest);
    RunOn(up, t, a, [a1] + rest);
    assert [a] + ([a1] + rest) == [a, a1] + rest;
  }
}
