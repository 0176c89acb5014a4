/** How the slots of a ring lie in its pages. */
module AioPages {
  import opened Arith
  import opened AioSizing
  import opened AioContext

  function PageOf(i: nat): nat {
    (i + EVENTS_OFFSET) / EVENTS_PER_PAGE
  }

  function IndexOf(i: nat): nat {
    (i + EVENTS_OFFSET) % EVENTS_PER_PAGE
  }

  ghost predicate Shaped(pages: seq<seq<Event>>, nrEvents: nat) {
    && nrEvents == EVENTS_PER_PAGE * |pages| - EVENTS_OFFSET
    && forall i :: 0 <= i < |pages| ==> |pages[i]| == EVENTS_PER_PAGE
  }

  /** Every slot lies in a page of the ring, clear of the header. */
  lemma SlotLocation(nrPages: nat, i: nat)
    requires i < EVENTS_PER_PAGE * nrPages - EVENTS_OFFSET
    ensures PageOf(i) < nrPages && IndexOf(i) < EVENTS_PER_PAGE
    ensures PageOf(i) == 0 ==> EVENT_SIZE * IndexOf(i) >= RING_HEADER
  {
  }

  /** No two slots share a place. */
  lemma SlotsDistinct(i: nat, j: nat)
    requires PageOf(i) == PageOf(j) && IndexOf(i) == IndexOf(j)
    ensures i == j
  {
  }

  lemma SamePage(i: nat, k: nat)
    requires IndexOf(i) + k < EVENTS_PER_PAGE
    ensures PageOf(i + k) == PageOf(i) && IndexOf(i + k) == IndexOf(i) + k
  {
    DivModUnique(i + k + EVENTS_OFFSET, EVENTS_PER_PAGE, PageOf(i), IndexOf(i) + k);
  }

  ghost function SlotIn(pages: seq<seq<Event>>, nrEvents: nat, i: nat): Event
    requires Shaped(pages, nrEvents) && i < nrEvents
  {
    SlotLocation(|pages|, i);
    pages[PageOf(i)][IndexOf(i)]
  }

  /** The ring without its pages. */
  ghost function Flat(pages: seq<seq<Event>>, nrEvents: nat): seq<Event>
    requires Shaped(pages, nrEvents)
  {
    seq(nrEvents, i requires 0 <= i < nrEvents => SlotIn(pages, nrEvents, i))
  }

  /** Writing one event in its page changes its own slot and no other. */
  lemma FlatStore(pages: seq<seq<Event>>, nrEvents: nat, t: nat, ev: Event)
    requires Shaped(pages, nrEvents) && t < nrEvents
    requires PageOf(t) < |pages| && IndexOf(t) < EVENTS_PER_PAGE
    ensures var pages' := pages[PageOf(t) := pages[PageOf(t)][IndexOf(t) := ev]];
      Shaped(pages', nrEvents) && Flat(pages', nrEvents) == Flat(pages, nrEvents)[t := ev]
  {
    var pages' := pages[PageOf(t) := pages[PageOf(t)][IndexOf(t) := ev]];
    forall i | 0 <= i < nrEvents
      ensures SlotIn(pages', nrEvents, i) == if i == t then ev else SlotIn(pages, nrEvents, i)
    {
      SlotLocation(|pages|, i);
      if PageOf(i) == PageOf(t) && IndexOf(i) == IndexOf(t) {
        SlotsDistinct(i, t);
      }
    }
  }

  /** A stretch of one page is a stretch of the ring. */
  lemma FlatCopy(pages: seq<seq<Event>>, nrEvents: nat, h: nat, n: nat)
    requires Shaped(pages, nrEvents) && h + n <= nrEvents && h < nrEvents
    requires PageOf(h) < |pages| && IndexOf(h) + n <= EVENTS_PER_PAGE
    ensures pages[PageOf(h)][IndexOf(h)..IndexOf(h) + n] == Flat(pages, nrEvents)[h..h + n]
  {
    var part := pages[PageOf(h)][IndexOf(h)..IndexOf(h) + n];
    forall k | 0 <= k < |part|
      ensures part[k] == Flat(pages, nrEvents)[h..h + n][k]
    {
      SamePage(h, k);
    }
  }
}

/** `struct kioctx` and the functions of fs/aio.c that update it in place. */
module AioKioctx {
  import opened Arith
  import opened AioSizing
  import opened AioContext
  import Pages = AioPages

  class Kioctx {
    const nrEvents: nat
    const reqBatch: nat
    var available: nat
    var cpu: seq<nat>
    var completed: nat
    var tail: nat
    var head: nat
    var ringTail: nat
    var pages: seq<seq<Event>>
    ghost var inFlight: nat

    ghost predicate Valid()
      reads this
    {
      0 < reqBatch && 0 < |cpu| && tail < nrEvents && Pages.Shaped(pages, nrEvents)
    }

    /** The context as a value. */
    ghost function Value(): Ctx
      requires Valid()
      reads this
    {
      Ctx(nrEvents, reqBatch, available, cpu, inFlight, completed, tail, head, ringTail,
          Pages.Flat(pages, nrEvents))
    }

    method PutReqsAvailable(c: nat, nr: nat)
      requires Valid() && c < |cpu|
      modifies this`cpu, this`available
      ensures Valid() && Value() == PutReqs(old(Value()), c, nr)
    {
      ghost var k := cpu[c] + nr;
      cpu := cpu[c := cpu[c] + nr];
      while cpu[c] >= reqBatch * 2
        invariant c < |cpu| == |old(cpu)| && cpu == old(cpu)[c := cpu[c]]
        invariant cpu[c] == k || (cpu[c] >= reqBatch && k >= 2 * reqBatch)
        invariant cpu[c] % reqBatch == k % reqBatch
        invariant available + cpu[c] == old(available) + k
        decreases cpu[c]
      {
        BatchOff(cpu[c], reqBatch);
        cpu := cpu[c := cpu[c] - reqBatch];
        available := available + reqBatch;
      }
      if k >= 2 * reqBatch {
        BatchOff(cpu[c], reqBatch);
        DivModUnique(cpu[c] - reqBatch, reqBatch, 0, cpu[c] - reqBatch);
      }
    }

    method GetReqsAvailable(c: nat) returns (ret: bool)
      requires Valid() && c < |cpu|
      modifies this`cpu, this`available, this`inFlight
      ensures Valid() && ret == GetReqs(old(Value()), c).Took?
      ensures Value() == if ret then GetReqs(old(Value()), c).ctx else old(Value())
    {
      if cpu[c] == 0 {
        if available < reqBatch {
          return false;
        }
        available := available - reqBatch;
        cpu := cpu[c := cpu[c] + reqBatch];
      }
      cpu := cpu[c := cpu[c] - 1];
      inFlight := inFlight + 1;
      ret := true;
    }

    method RefillReqsAvailable(c: nat, ringHead: nat)
      requires Valid() && c < |cpu|
      modifies this`cpu, this`available, this`completed
      ensures Valid() && Value() == Refill(old(Value()), c, ringHead)
    {
      var h := ringHead % nrEvents;
      assert h == Wrap(ringHead, nrEvents);
      var eventsInRing := if h <= tail then tail - h else nrEvents - (h - tail);
      var freed := if eventsInRing < completed then completed - eventsInRing else 0;
      if freed == 0 {
        return;
      }
      completed := completed - freed;
      PutReqsAvailable(c, freed);
    }

    method UserRefillReqsAvailable(c: nat)
      requires Valid() && c < |cpu|
      modifies this`cpu, this`available, this`completed
      ensures Valid() && Value() == UserRefill(old(Value()), c)
    {
      if completed > 0 {
        RefillReqsAvailable(c, head);
      }
    }

    /** `kiocbAllocated` is the outcome of the allocation that follows a successful reservation. */
    method AioGetReq(c: nat, kiocbAllocated: bool) returns (ok: bool)
      requires Valid() && c < |cpu|
      modifies this`cpu, this`available, this`completed, this`inFlight
      ensures Valid() && ok == (GetReq(old(Value()), c).Took? && kiocbAllocated)
      ensures ok ==> Value() == GetReq(old(Value()), c).ctx
      ensures !ok && GetReq(old(Value()), c).NoSlot? ==> Value() == UserRefill(old(Value()), c)
      ensures !ok && GetReq(old(Value()), c).Took? ==>
        Value() == PutReqs(GetReq(old(Value()), c).ctx.(inFlight := old(inFlight)), c, 1)
    {
      var got := GetReqsAvailable(c);
      if !got {
        UserRefillReqsAvailable(c);
        got := GetReqsAvailable(c);
        if !got {
          return false;
        }
      }
      if !kiocbAllocated {
        inFlight := inFlight - 1;
        PutReqsAvailable(c, 1);
        return false;
      }
      ok := true;
    }

    method AioComplete(c: nat, event: Event)
      requires Valid() && c < |cpu| && 0 < inFlight
      modifies this
      ensures Valid() && Value() == CountCompletion(StoreEvent(old(Value()), event), c, old(head))
    {
      Pages.SlotLocation(|pages|, tail);
      Pages.FlatStore(pages, nrEvents, tail, event);
      var pos := tail + EVENTS_OFFSET;
      var newTail := tail + 1;
      if newTail >= nrEvents {
        newTail := 0;
      }
      var page := pages[pos / EVENTS_PER_PAGE];
      pages := pages[pos / EVENTS_PER_PAGE := page[pos % EVENTS_PER_PAGE := event]];
      tail := newTail;
      ringTail := newTail;
      inFlight := inFlight - 1;
      completed := completed + 1;
      if completed > 1 {
        RefillReqsAvailable(c, head);
      }
    }

    /**
     * Copies out up to `nr` events and moves head. `copyOk` says which copies to user space succeed; when
     * one fails the call returns an error and head stays.
     */
    method AioReadEventsRing(nr: int, copyOk: nat -> bool) returns (ret: int, events: seq<Event>)
      requires Valid()
      modifies this`head
      ensures Valid()
      ensures var copies := Copies(nrEvents, Wrap(old(head), nrEvents), Wrap(ringTail, nrEvents), nr);
        ret < 0 <==> old(head) != ringTail && Faults(copyOk, copies)
      ensures ret < 0 ==> head == old(head)
      ensures ret >= 0 ==> ret == |events| == Wanted(old(Value()), nr)
      ensures ret >= 0 ==> events == Round(Value().slots, Wrap(old(head), nrEvents), |events|)
      ensures ret >= 0 && old(head) == ringTail ==> head == old(head)
      ensures ret >= 0 && old(head) != ringTail ==> head == Wrap(Wrap(old(head), nrEvents) + ret, nrEvents)
    {
      if head == ringTail {
        return 0, [];
      }
      var h0, t := head % nrEvents, ringTail % nrEvents;
      assert h0 == Wrap(head, nrEvents) && t == Wrap(ringTail, nrEvents);
      WrapSmall(h0, nrEvents);
      var fault, h, got := CopyEvents(h0, t, nr, copyOk);
      if fault {
        return -14, []; // -EFAULT
      }
      head := h;
      return |got|, got;
    }

    /** One copy: what is there and wanted, up to the end of the ring and of the page. */
    method CopyPage(h: nat, t: nat, want: int) returns (part: seq<Event>)
      requires Valid() && h < nrEvents && t < nrEvents && h != t && 0 < want
      ensures |part| == Chunk(nrEvents, h, t, want) <= Dist(nrEvents, h, t) && h + |part| <= nrEvents
      ensures part == Value().slots[h..h + |part|]
    {
      var avail := (if h <= t then t else nrEvents) - h;
      avail := if avail < want then avail else want;
      Pages.SlotLocation(|pages|, h);
      var pos := h + EVENTS_OFFSET;
      var index := pos % EVENTS_PER_PAGE;
      avail := if avail < EVENTS_PER_PAGE - index then avail else EVENTS_PER_PAGE - index;
      Pages.FlatCopy(pages, nrEvents, h, avail);
      part := pages[pos / EVENTS_PER_PAGE][index..index + avail];
    }

    /** One round of the copy loop. */
    method CopyNext(ghost h0: nat, events: seq<Event>, h: nat, t: nat, nr: int, ghost copies: nat, ghost needed: nat)
      returns (events': seq<Event>, h': nat)
      requires Valid() && h0 < nrEvents && t < nrEvents && |events| < nr && h != t
      requires Progress(Value().slots, h0, events, h) && Remaining(nrEvents, h, t, nr - |events|, copies, needed)
      ensures Progress(Value().slots, h0, events', h') && |events| < |events'| <= nr
      ensures Remaining(nrEvents, h', t, nr - |events'|, copies + 1, needed)
      ensures |events'| + Dist(nrEvents, h', t) == |events| + Dist(nrEvents, h, t)
    {
      OneCopy(nrEvents, h, t, nr - |events|, copies, needed);
      var part := CopyPage(h, t, nr - |events|);
      Advance(Value().slots, h0, events, h, t, |part|);
      events' := events + part;
      h' := Wrap(h + |part|, nrEvents);
    }

    /** The copy loop of `aio_read_events_ring`, page by page. */
    method CopyEvents(h0: nat, t: nat, nr: int, copyOk: nat -> bool)
      returns (fault: bool, h: nat, events: seq<Event>)
      requires Valid() && h0 < nrEvents && t < nrEvents
      ensures fault <==> Faults(copyOk, Copies(nrEvents, h0, t, nr))
      ensures !fault ==> |events| == Least(EventsInRing(nrEvents, h0, t), nr)
      ensures !fault ==> events == Round(Value().slots, h0, |events|)
      ensures !fault ==> h == Wrap(h0 + |events|, nrEvents)
    {
      h, events, fault := h0, [], false;
      ghost var slots := Value().slots;
      ghost var total, needed := EventsInRing(nrEvents, h0, t), Copies(nrEvents, h0, t, nr);
      var copies: nat := 0;
      WrapSmall(h0, nrEvents);
      while |events| < nr && h != t
        invariant Progress(slots, h0, events, h) && |events| <= (if nr < 0 then 0 else nr)
        invariant |events| + Dist(nrEvents, h, t) == total
        invariant Remaining(nrEvents, h, t, nr - |events|, copies, needed) && !Faults(copyOk, copies)
        decreases total - |events|
      {
        if !copyOk(copies) {
          OneCopy(nrEvents, h, t, nr - |events|, copies, needed);
          fault := true;
          return;
        }
        events, h := CopyNext(h0, events, h, t, nr, copies, needed);
        copies := copies + 1;
      }
      AllCopies(nrEvents, h, t, nr - |events|, copies, needed);
    }
  }

  /** After `copies` copies the read needs the rest of `needed`. */
  ghost predicate Remaining(nrEvents: nat, h: nat, t: nat, want: int, copies: nat, needed: nat) {
    h < nrEvents && t < nrEvents && copies + Copies(nrEvents, h, t, want) == needed
  }

  lemma OneCopy(nrEvents: nat, h: nat, t: nat, want: int, copies: nat, needed: nat)
    requires Remaining(nrEvents, h, t, want, copies, needed) && h != t && 0 < want
    ensures copies < needed
    ensures var n := Chunk(nrEvents, h, t, want);
      Remaining(nrEvents, Wrap(h + n, nrEvents), t, want - n, copies + 1, needed)
  {
  }

  lemma AllCopies(nrEvents: nat, h: nat, t: nat, want: int, copies: nat, needed: nat)
    requires Remaining(nrEvents, h, t, want, copies, needed) && (h == t || want <= 0)
    ensures copies == needed
  {
  }

  /** One of the first `n` copies fails. */
  ghost predicate Faults(copyOk: nat -> bool, n: nat) {
    exists k :: 0 <= k < n && !copyOk(k)
  }

  /** As much as is there and wanted, up to the end of the ring and of the page. */
  function Chunk(nrEvents: nat, h: nat, t: nat, want: int): (n: nat)
    requires h < nrEvents && t < nrEvents && h != t && 0 < want
    ensures 0 < n <= want
  {
    var avail := (if h <= t then t else nrEvents) - h;
    var room := EVENTS_PER_PAGE - (h + EVENTS_OFFSET) % EVENTS_PER_PAGE;
    var n := if avail < want then avail else want;
    if n < room then n else room
  }

  /** How many copies to user space a read makes. */
  function Copies(nrEvents: nat, h: nat, t: nat, want: int): nat
    requires h < nrEvents && t < nrEvents
    decreases if want < 0 then 0 else want
  {
    if want <= 0 || h == t then 0
    else
      var n := Chunk(nrEvents, h, t, want);
      1 + Copies(nrEvents, Wrap(h + n, nrEvents), t, want - n)
  }

  lemma BatchOff(k: nat, batch: nat)
    requires 0 < batch <= k
    ensures (k - batch) % batch == k % batch
  {
    assert (k / batch - 1) * batch == (k / batch) * batch - batch;
    DivModUnique(k - batch, batch, k / batch - 1, k % batch);
  }

  function Least(a: nat, b: int): nat {
    if b < 0 then 0 else if a < b then a else b
  }

  /** How many events a read of `nr` returns from a ring in state `c`. */
  ghost function Wanted(c: Ctx, nr: int): nat
    requires 0 < c.nrEvents
  {
    if c.head == c.ringTail then 0
    else Least(EventsInRing(c.nrEvents, c.head, Wrap(c.ringTail, c.nrEvents)), nr)
  }

  /** `n` slots from `from` on, round the end of the ring. */
  ghost function Round(slots: seq<Event>, from: nat, n: nat): seq<Event>
    requires 0 < |slots|
  {
    seq(n, k requires 0 <= k < n => slots[Wrap(from + k, |slots|)])
  }

  ghost predicate Progress(slots: seq<Event>, h0: nat, events: seq<Event>, h: nat)
  {
    h < |slots| && h == Wrap(h0 + |events|, |slots|) && events == Round(slots, h0, |events|)
  }

  lemma AdvanceAt(slots: seq<Event>, from: nat, h: nat, k: nat)
    requires h + k < |slots| && h == Wrap(from, |slots|)
    ensures Wrap(from + k, |slots|) == h + k
  {
    WrapAdd(from, k, |slots|);
    WrapSmall(h + k, |slots|);
  }

  lemma Advance(slots: seq<Event>, h0: nat, events: seq<Event>, h: nat, t: nat, n: nat)
    requires t < |slots| && Progress(slots, h0, events, h)
    requires h + n <= |slots| && n <= Dist(|slots|, h, t)
    ensures var h' := (h + n) % |slots|;
      && Progress(slots, h0, events + slots[h..h + n], h')
      && Dist(|slots|, h', t) == Dist(|slots|, h, t) - n
  {
    var got := events + slots[h..h + n];
    forall k | 0 <= k < |got|
      ensures got[k] == Round(slots, h0, |got|)[k]
    {
      if |events| <= k {
        AdvanceAt(slots, h0 + |events|, h, k - |events|);
      }
    }
    WrapAdd(h0 + |events|, n, |slots|);
    if h + n == |slots| {
      DivModUnique(h + n, |slots|, 1, 0);
    } else {
      WrapSmall(h + n, |slots|);
    }
  }
}
