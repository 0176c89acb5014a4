/** `struct deadline_data`, updated in place. */
module DeadlineData {
  import opened Options
  import opened DeadlineLists
  import opened DeadlineSched

  class Scheduler {
    const cfg: Settings
    var read: Lane // sort_list[READ], fifo_list[READ] and next_rq[READ]
    var write: Lane
    var batching: nat
    var starved: nat

    /** The scheduler as a value at time `now`. */
    ghost function Value(now: int): Dd
      reads this
    {
      Dd(read, write, batching, starved, now)
    }

    function Of(d: Dir): Lane
      reads this
    {
      if d.Read? then read else write
    }

    constructor (settings: Settings)
      ensures cfg == settings && forall now :: Init(Value(now))
    {
      cfg := settings;
      read, write := Lane([], [], None), Lane([], [], None);
      batching, starved := 0, 0;
    }

    method Put(d: Dir, l: Lane)
      modifies this`read, this`write
      ensures Of(d) == l && forall e :: e != d ==> Of(e) == old(Of(e))
    {
      if d.Read? {
        read := l;
      } else {
        write := l;
      }
    }

    /** `deadline_add_request`. */
    method AddRequest(d: Dir, id: nat, pos: nat, now: int)
      modifies this`read, this`write
      ensures Of(d) == Add(old(Of(d)), id, pos, now + cfg.Expire(d))
      ensures forall e :: e != d ==> Of(e) == old(Of(e))
    {
      var l := Of(d);
      l := l.(sort := Insert(l.sort, Entry(id, pos)));
      l := l.(fifo := l.fifo + [Entry(id, now + cfg.Expire(d))]);
      Put(d, l);
    }

    /** `deadline_remove_request`. */
    method RemoveRequest(d: Dir, id: nat)
      modifies this`read, this`write
      ensures Of(d) == Remove(old(Of(d)), id) && forall e :: e != d ==> Of(e) == old(Of(e))
    {
      var l := Of(d);
      l := l.(fifo := Without(l.fifo, id));
      if l.next == Some(id) {
        l := l.(next := Latter(l.sort, id));
      }
      l := l.(sort := Without(l.sort, id));
      Put(d, l);
    }

    /** `deadline_merged_request`: only a front merge moves a request on the sort list. */
    method MergedRequest(d: Dir, id: nat, pos: nat, front: bool)
      modifies this`read, this`write
      ensures Of(d) == if front then Reposition(old(Of(d)), id, pos) else old(Of(d))
      ensures forall e :: e != d ==> Of(e) == old(Of(e))
    {
      if front {
        var l := Of(d);
        l := l.(sort := Without(l.sort, id));
        l := l.(sort := Insert(l.sort, Entry(id, pos)));
        Put(d, l);
      }
    }

    /** `deadline_merged_requests`: `req` moves behind `next` on the fifo before `next` is removed. */
    method MergedRequests(d: Dir, req: nat, next: nat)
      requires req != next && Ahead(Of(d).fifo, req) < |Of(d).fifo| && Ahead(Of(d).fifo, next) < |Of(d).fifo|
      modifies this`read, this`write
      ensures Of(d) == MergeNext(old(Of(d)), req, next) && forall e :: e != d ==> Of(e) == old(Of(e))
    {
      var l := Of(d);
      var f := l.fifo;
      var time := f[Ahead(f, next)].key;
      if time < f[Ahead(f, req)].key {
        f := MoveBehind(f, req, next, time);
        Put(d, l.(fifo := f));
      }
      assert Without(f, next) == Absorb(l.fifo, req, next);
      RemoveRequest(d, next);
    }

    /** `deadline_move_request`. */
    method MoveRequest(d: Dir, id: nat, ghost now: int)
      requires Distinct(Of(d).sort)
      modifies this`read, this`write
      ensures Value(now) == Send(old(Value(now)), d, id)
    {
      LatterQueued(Of(d).sort, id);
      read := read.(next := None);
      write := write.(next := None);
      var l := Of(d);
      Put(d, l.(next := Latter(l.sort, id)));
      RemoveRequest(d, id);
      ghost var other := if d.Read? then Write else Read;
      assert Of(other) == old(Of(other)).(next := None);
    }

    /** `deadline_dispatch_requests`; the request sent is returned with its direction. */
    method DispatchRequests(now: int) returns (ret: bool, d: Dir, id: nat)
      requires Distinct(read.sort) && Distinct(write.sort)
      modifies this
      ensures ret == Dispatch(cfg, old(Value(now))).Sent?
      ensures !ret ==> Value(now) == old(Value(now))
      ensures ret ==> var o := Dispatch(cfg, old(Value(now)));
        d == o.dir && id == o.id && Value(now) == o.dd
    {
      d := if write.next.Some? then Write else Read;
      if Of(d).next.Some? && batching < cfg.fifoBatch {
        ret, id := true, Of(d).next.value;
        SendRequest(d, id, now);
      } else {
        id := 0;
        ret, d := ChooseDirection();
        if ret {
          id := StartBatch(d, now);
        }
      }
    }

    /** The direction of a new batch: reads, unless there are none or they have starved writes for long enough. */
    method ChooseDirection() returns (ret: bool, d: Dir)
      modifies this`starved
      ensures ret == (read.fifo != [] || write.fifo != [])
      ensures ret ==> Of(d).fifo != []
      ensures d == if read.fifo == [] && write.fifo != [] then Write
                   else if read.fifo != [] && write.fifo != [] && old(starved) >= cfg.writesStarved then Write else Read
      ensures starved == if d == Write then 0 else if ret && write.fifo != [] then old(starved) + 1 else old(starved)
    {
      var anyReads, anyWrites := read.fifo != [], write.fifo != [];
      ret, d := true, Read;
      if anyReads {
        if anyWrites {
          starved := starved + 1;
          if starved - 1 >= cfg.writesStarved {
            d, starved := Write, 0;
          }
        }
      } else if anyWrites {
        d, starved := Write, 0;
      } else {
        ret := false;
      }
    }

    method StartBatch(d: Dir, now: int) returns (id: nat)
      requires Distinct(Of(d).sort) && Of(d).fifo != []
      modifies this`read, this`write, this`batching
      ensures Outcome.Sent(d, id, true, Value(now)) == SelectFrom(old(Value(now)), d, old(starved))
    {
      var expired := Of(d).fifo[0].key <= now;
      if expired || Of(d).next.None? {
        id := Of(d).fifo[0].id;
      } else {
        id := Of(d).next.value;
      }
      batching := 0;
      SendRequest(d, id, now);
    }

    method SendRequest(d: Dir, id: nat, ghost now: int)
      requires Distinct(Of(d).sort)
      modifies this`read, this`write, this`batching
      ensures Value(now) == Send(old(Value(now)).(batching := old(batching) + 1), d, id)
    {
      batching := batching + 1;
      MoveRequest(d, id, now);
    }
  }

  lemma AheadAt(h: seq<Entry>, k: nat)
    requires k < |h| && forall i :: 0 <= i < k ==> h[i].id != h[k].id
    ensures Ahead(h, h[k].id) == k
  {
  }

  lemma DropBehind(g: seq<Entry>, k: nat, e: Entry)
    requires k < |g| && Ahead(g, g[k].id) == k
    ensures Without(g[..k + 1] + [e] + g[k + 1..], g[k].id) == g[k := e]
  {
    Spliced(g, k, e);
    AheadAt(g[..k + 1] + [e] + g[k + 1..], k);
  }

  lemma Spliced(g: seq<Entry>, k: nat, e: Entry)
    requires k < |g|
    ensures var h := g[..k + 1] + [e] + g[k + 1..];
      && (forall i :: 0 <= i <= k ==> h[i] == g[i])
      && h[..k] + h[k + 1..] == g[k := e]
  {
  }

  /**
   * `req` leaves its place and follows `next`, with its deadline. Taking `next` out then is putting `req` in its place.
   */
  method MoveBehind(f: seq<Entry>, req: nat, next: nat, time: int) returns (f': seq<Entry>)
    requires req != next && Ahead(f, next) < |f| && time == KeyOf(f, next)
    ensures Without(f', next) == TakeOver(f, req, next)
  {
    WithoutOther(f, req, next);
    var g := Without(f, req);
    var k := Ahead(g, next);
    DropBehind(g, k, Entry(req, time));
    f' := g[..k + 1] + [Entry(req, time)] + g[k + 1..];
  }
}
