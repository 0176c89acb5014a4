/** Every interleaving of submitters, completers and the one reader of a ring. */
module AioProtocol {
  import opened Arith
  import opened Sums
  import opened AioSizing
  import opened AioContext

  /** Who holds completion_lock, and the head it has read. `base` counts the events read before that. */
  datatype Lock = Free | Completing(head: nat, base: nat) | Refilling(head: nat, base: nat)

  /** The holder of ring_lock inside `aio_read_events_ring`. `end` counts the events up to its tail. */
  datatype Reader = Idle | Reading(head: nat, tail: nat, want: int, got: seq<Event>, end: nat)

  datatype State = State(
    c: Ctx,
    lock: Lock,
    reader: Reader,
    log: seq<Event>, // every event completed, in order
    delivered: seq<Event> // every batch returned, in order
  )

  datatype Action =
    | Get(cpu: nat) // get_reqs_available, when it succeeds
    | Put(cpu: nat) // a request given up before it was started
    | Store(ev: Event) // aio_complete: event and tail written, head read
    | Count(cpu: nat) // aio_complete: completed_events and refill
    | Sample // user_refill_reqs_available: head read
    | UserRefill(cpu: nat) // user_refill_reqs_available: refill
    | ReadStart(want: int)
    | ReadCopy(n: nat) // as much as one page holds, or less
    | ReadFault // copy_to_user failed: nothing is returned
    | ReadFinish
    | UserWrite(head: nat, tail: nat, slots: seq<Event>) // the ring is mapped writable

  ghost predicate Enabled(s: State, a: Action)
    requires s.c.Shaped()
  {
    match a
    case Get(cpu) => cpu < |s.c.cpu| && GetReqs(s.c, cpu).Took?
    case Put(cpu) => cpu < |s.c.cpu| && Busy(s) < s.c.inFlight
    case Store(_) => s.lock.Free? && 0 < s.c.inFlight
    case Count(cpu) => s.lock.Completing? && cpu < |s.c.cpu| && 0 < s.c.inFlight
    case Sample => s.lock.Free? && 0 < s.c.completed
    case UserRefill(cpu) => s.lock.Refilling? && cpu < |s.c.cpu|
    case ReadStart(_) => s.reader.Idle?
    case ReadCopy(n) =>
      && s.reader.Reading? && s.reader.head < s.c.nrEvents && s.reader.tail < s.c.nrEvents
      && 0 < n <= Avail(s.c.nrEvents, s.reader.head, s.reader.tail)
      && |s.reader.got| + n <= s.reader.want
    case ReadFault => s.reader.Reading?
    case ReadFinish => s.reader.Reading? && (|s.reader.got| >= s.reader.want || s.reader.head == s.reader.tail)
    case UserWrite(_, _, slots) => |slots| == s.c.nrEvents
  }

  /** A request being completed still holds its slot. */
  function Busy(s: State): nat {
    if s.lock.Completing? then 1 else 0
  }

  ghost function Apply(s: State, a: Action): State
    requires s.c.Shaped() && Enabled(s, a)
  {
    match a
    case Get(cpu) => s.(c := GetReqs(s.c, cpu).ctx)
    case Put(cpu) => s.(c := PutReqs(s.c.(inFlight := s.c.inFlight - 1), cpu, 1))
    case Store(ev) => s.(c := StoreEvent(s.c, ev), log := s.log + [ev],
                         lock := Completing(s.c.head, |s.delivered|))
    case Count(cpu) => s.(c := CountCompletion(s.c, cpu, s.lock.head), lock := Free)
    case Sample => s.(lock := Refilling(s.c.head, |s.delivered|))
    case UserRefill(cpu) => s.(c := Refill(s.c, cpu, s.lock.head), lock := Free)
    case ReadStart(want) =>
      if s.c.head == s.c.ringTail then s
      else s.(reader := Reading(Wrap(s.c.head, s.c.nrEvents), Wrap(s.c.ringTail, s.c.nrEvents), want, [], |s.log|))
    case ReadCopy(n) =>
      var r := s.reader;
      s.(reader := r.(head := Wrap(r.head + n, s.c.nrEvents), got := r.got + s.c.slots[r.head..r.head + n]))
    case ReadFault => s.(reader := Idle)
    case ReadFinish => s.(c := s.c.(head := s.reader.head), delivered := s.delivered + s.reader.got, reader := Idle)
    case UserWrite(head, tail, slots) => s.(c := s.c.(head := head, ringTail := tail, slots := slots))
  }

  ghost predicate Legal(s: State, run: seq<Action>)
    decreases |run|
  {
    run == [] || (s.c.Shaped() && Enabled(s, run[0]) && Legal(Apply(s, run[0]), run[1..]))
  }

  ghost function Exec(s: State, run: seq<Action>): State
    requires Legal(s, run)
    decreases |run|
  {
    if run == [] then s else Exec(Apply(s, run[0]), run[1..])
  }

  /** The context as `ioctx_alloc` leaves it. */
  ghost predicate Fresh(s: State, requested: nat, lim: Limits)
    requires requested < U32 && lim.Valid()
  {
    var z := IoctxAlloc(requested, lim);
    && z.Sized?
    && s.c.nrEvents == z.nrEvents && s.c.reqBatch == z.reqBatch
    && |s.c.slots| == z.nrEvents
    && s.c.available == z.nrEvents - 1
    && |s.c.cpu| == lim.cpus && (forall i :: 0 <= i < |s.c.cpu| ==> s.c.cpu[i] == 0)
    && s.c.inFlight == s.c.completed == s.c.tail == s.c.head == s.c.ringTail == 0
    && s.lock == Free && s.reader == Idle && s.log == [] && s.delivered == []
  }

  // Slot conservation, whatever the user writes into the ring

  ghost predicate SlotsKept(s: State) {
    && s.c.Shaped() && s.c.Conserved()
    && (s.lock.Completing? ==> 0 < s.c.inFlight)
    && (s.reader.Reading? ==> s.reader.head < s.c.nrEvents && s.reader.tail < s.c.nrEvents)
  }

  lemma MovesKeepSlots(s: State, a: Action)
    requires SlotsKept(s) && Enabled(s, a) && (a.Get? || a.Put? || a.Count? || a.UserRefill?)
    ensures SlotsKept(Apply(s, a))
  {
    match a
    case Get(cpu) => GetConserves(s.c, cpu);
    case Put(cpu) => PutConserves(s.c.(inFlight := s.c.inFlight - 1), cpu, 1);
    case Count(cpu) => CountConserves(s.c, cpu, s.lock.head);
    case UserRefill(cpu) => RefillConserves(s.c, cpu, s.lock.head);
  }

  lemma SlotsKeptStep(s: State, a: Action)
    requires SlotsKept(s) && Enabled(s, a)
    ensures SlotsKept(Apply(s, a))
  {
    if a.Get? || a.Put? || a.Count? || a.UserRefill? {
      MovesKeepSlots(s, a);
    }
  }

  lemma FreshKeepsSlots(s: State, requested: nat, lim: Limits)
    requires requested < U32 && lim.Valid() && Fresh(s, requested, lim)
    ensures SlotsKept(s)
  {
    RingFits(Doubled(requested, lim.cpus));
    SumUpTo(s.c.cpu, 0);
  }

  lemma {:induction false} SlotsKeptInRuns(s: State, run: seq<Action>)
    requires SlotsKept(s) && Legal(s, run)
    ensures SlotsKept(Exec(s, run))
    decreases |run|
  {
    if run != [] {
      SlotsKeptStep(s, run[0]);
      SlotsKeptInRuns(Apply(s, run[0]), run[1..]);
    }
  }

  /** In every run from a new context no slot is lost and no CPU hoards two batches. */
  lemma SlotConservation(s: State, run: seq<Action>, requested: nat, lim: Limits)
    requires requested < U32 && lim.Valid() && Fresh(s, requested, lim) && Legal(s, run)
    ensures Exec(s, run).c.Conserved()
  {
    FreshKeepsSlots(s, requested, lim);
    SlotsKeptInRuns(s, run);
  }

  // Overflow freedom and delivery, when only the reader moves head

  /** Events published but not yet returned to a reader. */
  function Unread(s: State): int {
    |s.log| - |s.delivered|
  }

  /** The ring holds the unread events, in order, in the slots from head to tail. */
  ghost predicate Queue(s: State)
    requires s.c.Shaped()
  {
    && |s.delivered| <= |s.log| && s.delivered == s.log[..|s.delivered|]
    && s.c.head == Wrap(|s.delivered|, s.c.nrEvents)
    && s.c.tail == s.c.ringTail == Wrap(|s.log|, s.c.nrEvents)
    && Unread(s) <= s.c.completed + Busy(s)
    && Holds(s.c, s.log, |s.delivered|)
  }

  ghost predicate Holds(c: Ctx, log: seq<Event>, from: nat)
    requires c.Shaped()
  {
    forall p :: from <= p < |log| ==> c.slots[Wrap(p, c.nrEvents)] == log[p]
  }

  /** A head read under completion_lock may be old, but what it lets free was read by then. */
  ghost predicate Sampled(s: State)
    requires s.c.Shaped()
  {
    !s.lock.Free? ==>
      && s.lock.head == Wrap(s.lock.base, s.c.nrEvents)
      && s.lock.base <= |s.delivered|
      && |s.log| - s.lock.base <= s.c.completed + Busy(s)
  }

  /** What the reader has copied so far continues what was delivered before. */
  ghost predicate Copied(nrEvents: nat, log: seq<Event>, delivered: seq<Event>, r: Reader)
    requires 0 < nrEvents
  {
    r.Reading? ==>
      var at := |delivered| + |r.got|;
      && at <= r.end <= |log|
      && delivered + r.got == log[..at]
      && r.head == Wrap(at, nrEvents)
      && r.tail == Wrap(r.end, nrEvents)
  }

  ghost predicate Inv(s: State) {
    SlotsKept(s) && Queue(s) && Sampled(s) && Copied(s.c.nrEvents, s.log, s.delivered, s.reader)
  }

  lemma UnreadFits(s: State)
    requires Inv(s)
    ensures Unread(s) + s.c.inFlight - Busy(s) <= s.c.nrEvents - 1
  {
  }

  lemma {:induction false} StoreHolds(c: Ctx, log: seq<Event>, from: nat, ev: Event)
    requires c.Shaped() && Holds(c, log, from)
    requires from <= |log| < from + c.nrEvents && c.tail == Wrap(|log|, c.nrEvents)
    ensures StoreEvent(c, ev).Shaped() && Holds(StoreEvent(c, ev), log + [ev], from)
  {
    var c' := StoreEvent(c, ev);
    forall p | from <= p < |log| + 1
      ensures c'.slots[Wrap(p, c.nrEvents)] == (log + [ev])[p]
    {
      if p < |log| {
        WrapGap(p, |log|, c.nrEvents);
      }
    }
  }

  lemma StoreKeepsInv(s: State, ev: Event)
    requires Inv(s) && Enabled(s, Store(ev))
    ensures Inv(Apply(s, Store(ev)))
  {
    SlotsKeptStep(s, Store(ev));
    StoreHolds(s.c, s.log, |s.delivered|, ev);
    WrapStep(|s.log|, s.c.nrEvents);
  }

  lemma RefillKeepsCover(c: Ctx, cpu: nat, base: nat, end: nat)
    requires c.Shaped() && cpu < |c.cpu|
    requires base <= end < base + c.nrEvents && c.tail == Wrap(end, c.nrEvents)
    requires end - base <= c.completed
    ensures Refill(c, cpu, Wrap(base, c.nrEvents)).completed == end - base
  {
    WrapGap(base, end, c.nrEvents);
    WrapSmall(Wrap(base, c.nrEvents), c.nrEvents);
  }

  lemma CountKeepsInv(s: State, cpu: nat)
    requires Inv(s) && Enabled(s, Count(cpu))
    ensures Inv(Apply(s, Count(cpu)))
  {
    SlotsKeptStep(s, Count(cpu));
    var c' := s.c.(inFlight := s.c.inFlight - 1, completed := s.c.completed + 1);
    RefillKeepsCover(c', cpu, s.lock.base, |s.log|);
    var s' := Apply(s, Count(cpu));
    assert Holds(s'.c, s.log, |s.delivered|);
  }

  lemma UserRefillKeepsInv(s: State, cpu: nat)
    requires Inv(s) && Enabled(s, UserRefill(cpu))
    ensures Inv(Apply(s, UserRefill(cpu)))
  {
    SlotsKeptStep(s, UserRefill(cpu));
    RefillKeepsCover(s.c, cpu, s.lock.base, |s.log|);
    var s' := Apply(s, UserRefill(cpu));
    assert Holds(s'.c, s.log, |s.delivered|);
  }

  lemma ReadStartKeepsInv(s: State, want: int)
    requires Inv(s) && Enabled(s, ReadStart(want))
    ensures Inv(Apply(s, ReadStart(want)))
  {
    SlotsKeptStep(s, ReadStart(want));
    WrapSmall(s.c.head, s.c.nrEvents);
    WrapSmall(s.c.ringTail, s.c.nrEvents);
    assert s.delivered + [] == s.delivered;
  }

  lemma SlotIsLog(c: Ctx, log: seq<Event>, from: nat, at: nat, k: nat)
    requires c.Shaped() && Holds(c, log, from)
    requires from <= at && at + k < |log| && Wrap(at, c.nrEvents) + k < c.nrEvents
    ensures c.slots[Wrap(at, c.nrEvents) + k] == log[at + k]
  {
    WrapAdd(at, k, c.nrEvents);
    WrapSmall(Wrap(at, c.nrEvents) + k, c.nrEvents);
    assert c.slots[Wrap(at + k, c.nrEvents)] == log[at + k];
  }

  /** A stretch of slots that does not pass the end of the ring is a stretch of the completion log. */
  lemma CopyIsLog(c: Ctx, log: seq<Event>, from: nat, at: nat, n: nat)
    requires c.Shaped() && Holds(c, log, from)
    requires from <= at && at + n <= |log|
    requires Wrap(at, c.nrEvents) + n <= c.nrEvents
    ensures c.slots[Wrap(at, c.nrEvents)..Wrap(at, c.nrEvents) + n] == log[at..at + n]
  {
    var part := c.slots[Wrap(at, c.nrEvents)..Wrap(at, c.nrEvents) + n];
    forall k | 0 <= k < |part|
      ensures part[k] == log[at..at + n][k]
    {
      SlotIsLog(c, log, from, at, k);
    }
  }

  /** A copy stays on this side of the tail the reader saw. */
  lemma CopyStops(nrEvents: nat, at: nat, end: nat, n: nat)
    requires at <= end < at + nrEvents
    requires n <= Avail(nrEvents, Wrap(at, nrEvents), Wrap(end, nrEvents))
    ensures Wrap(at, nrEvents) + n <= nrEvents && at + n <= end
    ensures Wrap(Wrap(at, nrEvents) + n, nrEvents) == Wrap(at + n, nrEvents)
  {
    WrapGap(at, end, nrEvents);
    WrapAdd(at, n, nrEvents);
  }

  lemma Extends(log: seq<Event>, delivered: seq<Event>, got: seq<Event>, n: nat)
    requires |delivered| + |got| + n <= |log|
    requires delivered + got == log[..|delivered| + |got|]
    ensures var at := |delivered| + |got|;
      delivered + (got + log[at..at + n]) == log[..at + n]
  {
    var at := |delivered| + |got|;
    assert delivered + (got + log[at..at + n]) == (delivered + got) + log[at..at + n];
  }

  lemma CopyContinues(c: Ctx, log: seq<Event>, delivered: seq<Event>, r: Reader, n: nat)
    requires c.Shaped() && r.Reading? && Holds(c, log, |delivered|)
    requires |log| < |delivered| + c.nrEvents && Copied(c.nrEvents, log, delivered, r)
    requires n <= Avail(c.nrEvents, r.head, r.tail)
    ensures r.head + n <= c.nrEvents
    ensures Copied(c.nrEvents, log, delivered,
                   r.(head := Wrap(r.head + n, c.nrEvents), got := r.got + c.slots[r.head..r.head + n]))
  {
    var at := |delivered| + |r.got|;
    CopyStops(c.nrEvents, at, r.end, n);
    CopyIsLog(c, log, |delivered|, at, n);
    Extends(log, delivered, r.got, n);
  }

  lemma ReaderKeepsRing(s: State, r: Reader)
    requires Inv(s) && SlotsKept(s.(reader := r)) && Copied(s.c.nrEvents, s.log, s.delivered, r)
    ensures Inv(s.(reader := r))
  {
  }

  lemma ReadCopyKeepsInv(s: State, n: nat)
    requires Inv(s) && Enabled(s, ReadCopy(n))
    ensures Inv(Apply(s, ReadCopy(n)))
  {
    ReadCopyContinues(s, n);
    var r := s.reader.(head := Wrap(s.reader.head + n, s.c.nrEvents),
                       got := s.reader.got + s.c.slots[s.reader.head..s.reader.head + n]);
    ReaderKeepsRing(s, r);
  }

  lemma ReadCopyContinues(s: State, n: nat)
    requires Inv(s) && Enabled(s, ReadCopy(n))
    ensures s.reader.head + n <= s.c.nrEvents
    ensures var r := s.reader.(head := Wrap(s.reader.head + n, s.c.nrEvents),
                               got := s.reader.got + s.c.slots[s.reader.head..s.reader.head + n]);
      Apply(s, ReadCopy(n)) == s.(reader := r) && Copied(s.c.nrEvents, s.log, s.delivered, r)
  {
    UnreadFits(s);
    CopyContinues(s.c, s.log, s.delivered, s.reader, n);
  }

  lemma ReadFinishKeepsInv(s: State)
    requires Inv(s) && Enabled(s, ReadFinish)
    ensures Inv(Apply(s, ReadFinish))
  {
    SlotsKeptStep(s, ReadFinish);
    var s' := Apply(s, ReadFinish);
    forall p | |s'.delivered| <= p < |s.log|
      ensures s'.c.slots[Wrap(p, s.c.nrEvents)] == s.log[p]
    {
      assert s.c.slots[Wrap(p, s.c.nrEvents)] == s.log[p];
    }
  }

  /** Moving free slots about leaves the ring alone. */
  lemma CountersKeepInv(s: State, c': Ctx)
    requires Inv(s) && SlotsKept(s.(c := c'))
    requires c'.(available := s.c.available, cpu := s.c.cpu, inFlight := s.c.inFlight) == s.c
    ensures Inv(s.(c := c'))
  {
  }

  lemma InvStep(s: State, a: Action)
    requires Inv(s) && Enabled(s, a) && !a.UserWrite?
    ensures Inv(Apply(s, a))
  {
    match a
    case Get(_) =>
      SlotsKeptStep(s, a);
      CountersKeepInv(s, Apply(s, a).c);
    case Put(_) =>
      SlotsKeptStep(s, a);
      CountersKeepInv(s, Apply(s, a).c);
    case Store(ev) => StoreKeepsInv(s, ev);
    case Count(cpu) => CountKeepsInv(s, cpu);
    case UserRefill(cpu) => UserRefillKeepsInv(s, cpu);
    case ReadStart(want) => ReadStartKeepsInv(s, want);
    case ReadCopy(n) => ReadCopyKeepsInv(s, n);
    case ReadFinish => ReadFinishKeepsInv(s);
    case Sample =>
    case ReadFault =>
  }

  lemma {:induction false} InvInRuns(s: State, run: seq<Action>)
    requires Inv(s) && Legal(s, run)
    requires forall a :: a in run ==> !a.UserWrite?
    ensures Inv(Exec(s, run))
    decreases |run|
  {
    if run != [] {
      InvStep(s, run[0]);
      InvInRuns(Apply(s, run[0]), run[1..]);
    }
  }

  lemma FreshInv(s: State, requested: nat, lim: Limits)
    requires requested < U32 && lim.Valid() && Fresh(s, requested, lim)
    ensures Inv(s)
  {
    FreshKeepsSlots(s, requested, lim);
    WrapSmall(0, s.c.nrEvents);
  }

  /** The ring never overflows: a completion never lands on an event that is still unread. */
  lemma NoOverflow(s: State, run: seq<Action>, requested: nat, lim: Limits)
    requires requested < U32 && lim.Valid() && Fresh(s, requested, lim) && Legal(s, run)
    requires forall a :: a in run ==> !a.UserWrite?
    ensures var t := Exec(s, run);
      && 0 <= Unread(t) <= t.c.completed + Busy(t) <= t.c.nrEvents - 1
      && forall p :: t.lock.Free? && 0 < t.c.inFlight && |t.delivered| <= p < |t.log| ==>
          Wrap(p, t.c.nrEvents) != t.c.tail
  {
    FreshInv(s, requested, lim);
    InvInRuns(s, run);
    var t := Exec(s, run);
    forall p | t.lock.Free? && 0 < t.c.inFlight && |t.delivered| <= p < |t.log|
      ensures Wrap(p, t.c.nrEvents) != t.c.tail
    {
      WrapGap(p, |t.log|, t.c.nrEvents);
    }
  }

  /** Delivery is in order and exactly once: the batches returned are a prefix of the completions. */
  lemma FifoDelivery(s: State, run: seq<Action>, requested: nat, lim: Limits)
    requires requested < U32 && lim.Valid() && Fresh(s, requested, lim) && Legal(s, run)
    requires forall a :: a in run ==> !a.UserWrite?
    ensures Exec(s, run).delivered <= Exec(s, run).log
  {
    FreshInv(s, requested, lim);
    InvInRuns(s, run);
  }

  // The capacity promised to io_setup

  /** Slots hidden on other CPUs and below one batch are less than half of the ring. */
  lemma HiddenSlots(nrEvents: nat, batch: nat, cpus: nat, wanted: nat, available: nat, onCpus: nat, used: nat)
    requires 0 < batch && 0 < cpus
    requires 2 * wanted + 2 <= nrEvents && batch * (4 * cpus) <= nrEvents - 1
    requires available < batch && onCpus <= (cpus - 1) * (2 * batch - 1)
    requires available + onCpus + used == nrEvents - 1
    ensures wanted < used
  {
    var p := batch * cpus;
    assert batch * (4 * cpus) == 4 * p;
    assert (cpus - 1) * (2 * batch - 1) == 2 * p - cpus - 2 * batch + 1;
  }

  /** If no slot is found even after a refill, every completed event counted is still unread. */
  lemma NoSlotMeansUnread(t: State, cpu: nat)
    requires Inv(t) && NoSlotFor(t, cpu)
    ensures t.c.cpu[cpu] == 0 && t.c.available < t.c.reqBatch
    ensures t.c.completed == Unread(t)
  {
    if t.c.completed > 0 {
      RefillKeepsCover(t.c, cpu, |t.delivered|, |t.log|);
    }
  }

  /** `aio_get_req` on this CPU, with both attempts uninterrupted, finds no slot. */
  ghost predicate NoSlotFor(t: State, cpu: nat) {
    t.c.Shaped() && cpu < |t.c.cpu| && t.lock.Free? && GetReq(t.c, cpu).NoSlot?
  }

  lemma DoubledExact(requested: nat, cpus: nat)
    requires requested < U32 / 2 && cpus < 0x1000_0000
    ensures 2 * requested <= Doubled(requested, cpus) && 8 * cpus <= Doubled(requested, cpus)
  {
    var n := 2 * (if requested < 4 * cpus then 4 * cpus else requested);
    DivModUnique(n, U32, 0, n);
  }

  lemma SizedIs(requested: nat, lim: Limits)
    requires requested < U32 && lim.Valid() && IoctxAlloc(requested, lim).Sized?
    ensures var z, n := IoctxAlloc(requested, lim), Doubled(requested, lim.cpus);
      n + 2 <= z.nrEvents && z.reqBatch == ReqBatch(z.nrEvents, lim.cpus)
  {
    RingFits(Doubled(requested, lim.cpus));
  }

  lemma SizedForRequest(requested: nat, lim: Limits)
    requires requested < U32 / 2 && lim.Valid() && IoctxAlloc(requested, lim).Sized?
    ensures var z := IoctxAlloc(requested, lim);
      2 * requested + 2 <= z.nrEvents && z.reqBatch * (4 * lim.cpus) <= z.nrEvents - 1
  {
    SizedIs(requested, lim);
    DoubledExact(requested, lim.cpus);
    BatchQuarter(IoctxAlloc(requested, lim).nrEvents, lim.cpus);
  }

  /**
   * A request is refused only when more requests are in flight or unread than were asked for, wherever
   * the free slots are. This needs the doubling not to wrap.
   */
  lemma Capacity(s: State, run: seq<Action>, requested: nat, lim: Limits, cpu: nat)
    requires requested < U32 / 2 && lim.Valid() && Fresh(s, requested, lim) && Legal(s, run)
    requires forall a :: a in run ==> !a.UserWrite?
    requires NoSlotFor(Exec(s, run), cpu)
    ensures Exec(s, run).c.inFlight + Unread(Exec(s, run)) > requested
  {
    var t := Exec(s, run);
    SizesFixed(s, run);
    SizedForRequest(requested, lim);
    assert Inv(t) by {
      FreshInv(s, requested, lim);
      InvInRuns(s, run);
    }
    NoSlotMeansUnread(t, cpu);
    SumBound(t.c.cpu, cpu, 2 * t.c.reqBatch - 1);
    HiddenSlots(t.c.nrEvents, t.c.reqBatch, |t.c.cpu|, requested, t.c.available, Sum(t.c.cpu),
                t.c.inFlight + t.c.completed);
  }

  lemma {:induction false} SizesFixed(s: State, run: seq<Action>)
    requires Legal(s, run)
    ensures var t := Exec(s, run);
      && t.c.nrEvents == s.c.nrEvents && t.c.reqBatch == s.c.reqBatch && |t.c.cpu| == |s.c.cpu|
    decreases |run|
  {
    if run != [] {
      SizesFixed(Apply(s, run[0]), run[1..]);
    }
  }

  /** Requests on one CPU until it finds no slot. */
  lemma {:induction false} Exhaust(s: State, cpu: nat) returns (run: seq<Action>)
    requires Inv(s) && cpu < |s.c.cpu|
    requires s.c.completed == 0 && s.log == s.delivered == [] && s.lock.Free?
    ensures Legal(s, run) && forall a :: a in run ==> !a.UserWrite?
    ensures var t := Exec(s, run);
      && Inv(t) && NoSlotFor(t, cpu)
      && t.c.nrEvents == s.c.nrEvents && t.log == t.delivered == []
    decreases s.c.available + Sum(s.c.cpu)
  {
    if GetReqs(s.c, cpu).NoSlot? {
      run := [];
    } else {
      InvStep(s, Get(cpu));
      var s' := Apply(s, Get(cpu));
      var rest := Exhaust(s', cpu);
      run := [Get(cpu)] + rest;
      assert run[1..] == rest;
    }
  }

  /** When the doubling wraps, the promise fails: some run refuses a request long before `requested`. */
  lemma CapacityLostOnWrap(s: State, requested: nat, lim: Limits) returns (run: seq<Action>)
    requires U32 / 2 <= requested < U32 && lim.Valid() && Fresh(s, requested, lim)
    ensures Refuses(s, run, 0) && Exec(s, run).c.inFlight + Unread(Exec(s, run)) <= requested
  {
    FreshInv(s, requested, lim);
    run := Exhaust(s, 0);
    var n := Doubled(requested, lim.cpus);
    RingFits(n);
  }

  /** A run in which only the reader moves head, and after which a request on this CPU finds no slot. */
  ghost predicate Refuses(s: State, run: seq<Action>, cpu: nat) {
    Legal(s, run) && (forall a :: a in run ==> !a.UserWrite?) && NoSlotFor(Exec(s, run), cpu)
  }

  /** A context refuses only when more is in use than it was made for, exactly if the doubling does not wrap. */
  lemma CapacityExact(s: State, requested: nat, lim: Limits)
    requires requested < U32 && lim.Valid() && Fresh(s, requested, lim)
    ensures (forall run, cpu :: Refuses(s, run, cpu) ==>
                requested < Exec(s, run).c.inFlight + Unread(Exec(s, run))) <==> requested < U32 / 2
  {
    if requested < U32 / 2 {
      forall run, cpu | Refuses(s, run, cpu) ensures requested < Exec(s, run).c.inFlight + Unread(Exec(s, run)) {
        Capacity(s, run, requested, lim, cpu);
      }
    } else {
      var run := CapacityLostOnWrap(s, requested, lim);
      assert Refuses(s, run, 0);
    }
  }

  /** There are such contexts: 2^31 + 100 events asked for on one CPU give a ring of 255. */
  lemma WrappedContext(slot: Event) returns (s: State, lim: Limits)
    ensures lim.Valid() && Fresh(s, U32 / 2 + 100, lim) && s.c.nrEvents == 255
  {
    lim := Limits(1, 192, 65536, 0);
    assert Doubled(U32 / 2 + 100, 1) == 200;
    assert RingPages(200) == 2 && RingEvents(2) == 255 && ReqBatch(255, 1) == 63;
    s := State(Ctx(255, 63, 254, [0], 0, 0, 0, 0, 0, seq(255, _ => slot)), Free, Idle, [], []);
  }
}
