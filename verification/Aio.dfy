/** Sizing of a completion ring: `ioctx_alloc` and `aio_setup_ring`. */
module AioSizing {
  import opened Arith

  const PAGE_SIZE: nat := 4096
  const RING_HEADER: nat := 32 // sizeof(struct aio_ring)
  const EVENT_SIZE: nat := 32 // sizeof(struct io_event)
  const EVENTS_PER_PAGE: nat := PAGE_SIZE / EVENT_SIZE
  const EVENTS_FIRST_PAGE: nat := (PAGE_SIZE - RING_HEADER) / EVENT_SIZE
  const EVENTS_OFFSET: nat := EVENTS_PER_PAGE - EVENTS_FIRST_PAGE

  datatype Error = EINVAL | EAGAIN

  /** What `ioctx_alloc` reads from its surroundings. */
  datatype Limits = Limits(cpus: nat, kiocbSize: nat, maxNr: nat, nr: nat) {
    predicate Valid() {
      0 < cpus < 0x1000_0000 && 0 < kiocbSize
    }
  }

  datatype Sizing = Refused(error: Error) | Sized(nrPages: nat, nrEvents: nat, reqBatch: nat)

  /** The doubled request, in the 32-bit arithmetic of the source. */
  function Doubled(requested: nat, cpus: nat): nat {
    (2 * (if requested < 4 * cpus then 4 * cpus else requested)) % U32
  }

  /** `aio_setup_ring`: pages for `n` events, two more and the header. */
  function RingPages(n: nat): nat {
    (RING_HEADER + EVENT_SIZE * (n + 2) + PAGE_SIZE - 1) / PAGE_SIZE
  }

  function RingEvents(nrPages: nat): int {
    (PAGE_SIZE * nrPages - RING_HEADER) / EVENT_SIZE
  }

  function ReqBatch(nrEvents: nat, cpus: nat): nat
    requires 0 < nrEvents && 0 < cpus
  {
    var batch := (nrEvents - 1) / (4 * cpus);
    if batch < 1 then 1 else batch
  }

  /** The ring fills its pages up to the header. */
  lemma RingFits(n: nat)
    ensures RingEvents(RingPages(n)) == EVENTS_PER_PAGE * RingPages(n) - EVENTS_OFFSET
    ensures n + 2 <= RingEvents(RingPages(n))
  {
    var q := RingPages(n);
    assert EVENTS_PER_PAGE == 128 && EVENTS_OFFSET == 1;
    DivModUnique(PAGE_SIZE * q - RING_HEADER, EVENT_SIZE, 128 * q - 1, 0);
  }

  /** One batch for every CPU is at most a quarter of the ring. */
  lemma BatchQuarter(nrEvents: nat, cpus: nat)
    requires 0 < cpus && 4 * cpus < nrEvents
    ensures 1 <= ReqBatch(nrEvents, cpus)
    ensures ReqBatch(nrEvents, cpus) * (4 * cpus) <= nrEvents - 1
  {
    var x, d := nrEvents - 1, 4 * cpus;
    var q := x / d;
    assert x == q * d + x % d;
    assert q < 1 ==> q * d <= 0;
  }

  /** `ioctx_alloc`, up to the point where the counters are set. */
  function IoctxAlloc(requested: nat, lim: Limits): Sizing
    requires requested < U32 && lim.Valid()
  {
    var n := Doubled(requested, lim.cpus);
    if n > 0x1000_0000 / EVENT_SIZE || n > 0x1000_0000 / lim.kiocbSize then Refused(EINVAL)
    else if n == 0 || n > 2 * lim.maxNr then Refused(EAGAIN)
    else
      RingFits(n);
      var nrEvents := RingEvents(RingPages(n));
      if lim.nr + n > 2 * lim.maxNr then Refused(EAGAIN)
      else Sized(RingPages(n), nrEvents, ReqBatch(nrEvents, lim.cpus))
  }
}

/** One `kioctx` as a value, and what each function of fs/aio.c does to it. */
module AioContext {
  import opened Arith
  import opened Sums

  datatype Event = Event(obj: int, data: int, res: int, res2: int)

  datatype Ctx = Ctx(
    nrEvents: nat,
    reqBatch: nat,
    available: nat, // the global reqs_available
    cpu: seq<nat>, // reqs_available of each CPU
    inFlight: nat, // requests that hold a slot
    completed: nat, // completed_events
    tail: nat,
    head: nat, // ring->head, writable by the user
    ringTail: nat, // ring->tail, writable by the user
    slots: seq<Event> // the events of the ring pages
  ) {
    ghost predicate Shaped() {
      0 < reqBatch && 0 < |cpu| && tail < nrEvents == |slots|
    }

    /** Every slot but one is free, held by a request, or not yet known to be read. */
    ghost predicate Conserved() {
      && available + Sum(cpu) + inFlight + completed == nrEvents - 1
      && forall i :: 0 <= i < |cpu| ==> cpu[i] < 2 * reqBatch
    }
  }

  /** `put_reqs_available`: whole batches go back to the global counter until less than two are left. */
  function PutReqs(c: Ctx, cpu: nat, nr: nat): Ctx
    requires 0 < c.reqBatch && cpu < |c.cpu|
  {
    var k := c.cpu[cpu] + nr;
    var kept := if k < 2 * c.reqBatch then k else c.reqBatch + k % c.reqBatch;
    KeptWithin(k, c.reqBatch);
    c.(cpu := c.cpu[cpu := kept], available := c.available + (k - kept))
  }

  lemma KeptWithin(k: nat, batch: nat)
    requires 0 < batch
    ensures 2 * batch <= k ==> batch + k % batch <= k
  {
    if 2 * batch <= k {
      var q := k / batch;
      assert k == q * batch + k % batch;
      assert q < 1 ==> q * batch <= 0;
      assert q >= 1 ==> q * batch >= batch;
    }
  }

  datatype Taken = NoSlot | Took(ctx: Ctx)

  /** `get_reqs_available`, one slot for a new request. */
  function GetReqs(c: Ctx, cpu: nat): Taken
    requires 0 < c.reqBatch && cpu < |c.cpu|
  {
    if c.cpu[cpu] > 0 then
      Took(c.(cpu := c.cpu[cpu := c.cpu[cpu] - 1], inFlight := c.inFlight + 1))
    else if c.available < c.reqBatch then NoSlot
    else
      Took(c.(available := c.available - c.reqBatch, cpu := c.cpu[cpu := c.reqBatch - 1],
              inFlight := c.inFlight + 1))
  }

  /** Slots from `h` round to `t`. */
  function Dist(nrEvents: nat, h: nat, t: nat): nat
    requires h < nrEvents && t < nrEvents
  {
    if h <= t then t - h else nrEvents - (h - t)
  }

  /** Events between `head`, as the user may have left it, and `tail`. */
  function EventsInRing(nrEvents: nat, head: nat, tail: nat): nat
    requires tail < nrEvents
  {
    Dist(nrEvents, Wrap(head, nrEvents), tail)
  }

  /** `refill_reqs_available`: frees the slots of completed events that are no longer in the ring. */
  function Refill(c: Ctx, cpu: nat, head: nat): Ctx
    requires 0 < c.reqBatch && cpu < |c.cpu| && c.tail < c.nrEvents
  {
    var inRing := EventsInRing(c.nrEvents, head, c.tail);
    if inRing < c.completed then
      PutReqs(c.(completed := inRing), cpu, c.completed - inRing)
    else c
  }

  /** `user_refill_reqs_available`. */
  function UserRefill(c: Ctx, cpu: nat): Ctx
    requires 0 < c.reqBatch && cpu < |c.cpu| && c.tail < c.nrEvents
  {
    if c.completed > 0 then Refill(c, cpu, c.head) else c
  }

  /** `aio_get_req` with both attempts on one CPU and nothing in between. */
  function GetReq(c: Ctx, cpu: nat): Taken
    requires 0 < c.reqBatch && cpu < |c.cpu| && c.tail < c.nrEvents
  {
    if GetReqs(c, cpu).Took? then GetReqs(c, cpu) else GetReqs(UserRefill(c, cpu), cpu)
  }

  /** `aio_complete` up to the point where the new tail is published. */
  function StoreEvent(c: Ctx, ev: Event): Ctx
    requires c.tail < c.nrEvents == |c.slots|
  {
    var tail := if c.tail + 1 >= c.nrEvents then 0 else c.tail + 1;
    c.(slots := c.slots[c.tail := ev], tail := tail, ringTail := tail)
  }

  /** The rest of `aio_complete`: the slot becomes a completed one, and a stale `head` may free some. */
  function CountCompletion(c: Ctx, cpu: nat, head: nat): Ctx
    requires 0 < c.reqBatch && cpu < |c.cpu| && c.tail < c.nrEvents && 0 < c.inFlight
  {
    var c' := c.(inFlight := c.inFlight - 1, completed := c.completed + 1);
    if c'.completed > 1 then Refill(c', cpu, head) else c'
  }

  /** How far `aio_read_events_ring` may copy at once, pages aside: to the tail or the end of the ring. */
  function Avail(nrEvents: nat, head: nat, tail: nat): nat
    requires head < nrEvents && tail < nrEvents
  {
    (if head <= tail then tail else nrEvents) - head
  }

  // What these steps keep

  lemma PutConserves(c: Ctx, cpu: nat, nr: nat)
    requires 0 < c.reqBatch && cpu < |c.cpu|
    requires c.available + Sum(c.cpu) + nr + c.inFlight + c.completed == c.nrEvents - 1
    requires forall i :: 0 <= i < |c.cpu| ==> c.cpu[i] < 2 * c.reqBatch
    ensures PutReqs(c, cpu, nr).Conserved()
  {
    var k := c.cpu[cpu] + nr;
    var kept := if k < 2 * c.reqBatch then k else c.reqBatch + k % c.reqBatch;
    KeptWithin(k, c.reqBatch);
    SumUpdate(c.cpu, cpu, kept);
  }

  lemma GetConserves(c: Ctx, cpu: nat)
    requires 0 < c.reqBatch && cpu < |c.cpu| && c.Conserved()
    requires GetReqs(c, cpu).Took?
    ensures GetReqs(c, cpu).ctx.Conserved()
  {
    if c.cpu[cpu] > 0 {
      SumUpdate(c.cpu, cpu, c.cpu[cpu] - 1);
    } else {
      SumUpdate(c.cpu, cpu, c.reqBatch - 1);
    }
  }

  lemma RefillConserves(c: Ctx, cpu: nat, head: nat)
    requires 0 < c.reqBatch && cpu < |c.cpu| && c.tail < c.nrEvents && c.Conserved()
    ensures Refill(c, cpu, head).Conserved()
  {
    var inRing := EventsInRing(c.nrEvents, head, c.tail);
    if inRing < c.completed {
      PutConserves(c.(completed := inRing), cpu, c.completed - inRing);
    }
  }

  lemma CountConserves(c: Ctx, cpu: nat, head: nat)
    requires 0 < c.reqBatch && cpu < |c.cpu| && c.tail < c.nrEvents && 0 < c.inFlight && c.Conserved()
    ensures CountCompletion(c, cpu, head).Conserved()
  {
    RefillConserves(c.(inFlight := c.inFlight - 1, completed := c.completed + 1), cpu, head);
  }
}
