/** Deadline I/O scheduler (block/deadline-iosched.c): state, operations, and what every run keeps. */
module DeadlineSched {
  import opened Options
  import opened DeadlineLists

  datatype Dir = Read | Write

  /** One direction: sort_list, fifo_list and next_rq. */
  datatype Lane = Lane(sort: seq<Entry>, fifo: seq<Entry>, next: Option<nat>)

  datatype Settings = Settings(readExpire: nat, writeExpire: nat, fifoBatch: nat, writesStarved: nat) {
    function Expire(d: Dir): nat {
      if d.Read? then readExpire else writeExpire
    }
  }

  /** `struct deadline_data`, with the time of the last operation. */
  datatype Dd = Dd(read: Lane, write: Lane, batching: nat, starved: nat, now: int) {
    function Of(d: Dir): Lane {
      if d.Read? then read else write
    }

    function Set(d: Dir, l: Lane): Dd {
      if d.Read? then this.(read := l) else this.(write := l)
    }
  }

  // One lane

  function Latter(s: seq<Entry>, id: nat): Option<nat> {
    var k := Ahead(s, id);
    if k + 1 < |s| then Some(s[k + 1].id) else None
  }

  /** `deadline_remove_request`. */
  function Remove(l: Lane, id: nat): Lane {
    Lane(Without(l.sort, id), Without(l.fifo, id), if l.next == Some(id) then Latter(l.sort, id) else l.next)
  }

  /** `deadline_add_request`. */
  function Add(l: Lane, id: nat, pos: nat, time: int): Lane {
    l.(sort := Insert(l.sort, Entry(id, pos)), fifo := l.fifo + [Entry(id, time)])
  }

  /** `deadline_merged_request` after a front merge moved the start of `id` to `pos`. */
  function Reposition(l: Lane, id: nat, pos: nat): Lane {
    l.(sort := Insert(Without(l.sort, id), Entry(id, pos)))
  }

  /** `deadline_merged_requests`. */
  function MergeNext(l: Lane, req: nat, next: nat): Lane
    requires Ahead(l.fifo, req) < |l.fifo| && Ahead(l.fifo, next) < |l.fifo| && req != next
  {
    Remove(l, next).(fifo := Absorb(l.fifo, req, next))
  }

  ghost predicate LaneOk(l: Lane) {
    && Distinct(l.sort) && Ordered(l.sort) && Distinct(l.fifo) && Ordered(l.fifo)
    && (forall x :: Has(l.sort, x) <==> Has(l.fifo, x))
    && (l.next.Some? ==> Has(l.fifo, l.next.value))
  }

  lemma HasAhead(f: seq<Entry>, id: nat)
    ensures Has(f, id) <==> Ahead(f, id) < |f|
  {
  }

  lemma LatterQueued(s: seq<Entry>, id: nat)
    requires Distinct(s)
    ensures var n := Latter(s, id);
      n.Some? ==> n.value != id && Has(s, n.value)
  {
  }

  lemma RemoveOk(l: Lane, id: nat)
    requires LaneOk(l)
    ensures LaneOk(Remove(l, id))
  {
    WithoutMoves(l.sort, id);
    WithoutMoves(l.fifo, id);
    LatterQueued(l.sort, id);
  }

  lemma AddOk(l: Lane, id: nat, pos: nat, time: int)
    requires LaneOk(l) && !Has(l.fifo, id)
    requires forall i :: 0 <= i < |l.fifo| ==> l.fifo[i].key <= time
    ensures LaneOk(Add(l, id, pos, time))
  {
    InsertKeeps(l.sort, Entry(id, pos));
    AppendKeeps(l.fifo, Entry(id, time));
  }

  lemma RepositionOk(l: Lane, id: nat, pos: nat)
    requires LaneOk(l) && Has(l.fifo, id)
    ensures LaneOk(Reposition(l, id, pos))
  {
    WithoutMoves(l.sort, id);
    InsertKeeps(Without(l.sort, id), Entry(id, pos));
  }

  lemma MergeNextOk(l: Lane, req: nat, next: nat)
    requires LaneOk(l) && Has(l.fifo, req) && Has(l.fifo, next) && req != next
    ensures Ahead(l.fifo, req) < |l.fifo| && Ahead(l.fifo, next) < |l.fifo|
    ensures LaneOk(MergeNext(l, req, next))
  {
    HasAhead(l.fifo, req);
    HasAhead(l.fifo, next);
    RemoveOk(l, next);
    WithoutMoves(l.fifo, next);
    WithoutMoves(l.sort, next);
    if KeyOf(l.fifo, next) < KeyOf(l.fifo, req) {
      TakeOverKeeps(l.fifo, req, next);
    }
  }

  // Dispatch

  datatype Outcome = Nothing | Sent(dir: Dir, id: nat, selected: bool, dd: Dd)

  /** `deadline_move_request`: `id` leaves both indexes and its successor is next. */
  function Send(dd: Dd, d: Dir, id: nat): Dd {
    var cleared := dd.(read := dd.read.(next := None), write := dd.write.(next := None));
    cleared.Set(d, Remove(dd.Of(d), id).(next := Latter(dd.Of(d).sort, id)))
  }

  /** The request a new batch in direction `d` starts with. */
  function Pick(l: Lane, now: int): nat
    requires l.fifo != []
  {
    if l.fifo[0].key <= now || l.next.None? then l.fifo[0].id else l.next.value
  }

  function SelectFrom(dd: Dd, d: Dir, starved: nat): Outcome
    requires dd.Of(d).fifo != []
  {
    var id := Pick(dd.Of(d), dd.now);
    Sent(d, id, true, Send(dd.(batching := 1, starved := starved), d, id))
  }

  /** `deadline_dispatch_requests`. */
  function Dispatch(cfg: Settings, dd: Dd): Outcome {
    var d := if dd.write.next.Some? then Write else Read;
    var rq := dd.Of(d).next;
    if rq.Some? && dd.batching < cfg.fifoBatch then
      Sent(d, rq.value, false, Send(dd.(batching := dd.batching + 1), d, rq.value))
    else if dd.read.fifo != [] then
      if dd.write.fifo != [] then
        if dd.starved >= cfg.writesStarved then SelectFrom(dd, Write, 0)
        else SelectFrom(dd, Read, dd.starved + 1)
      else SelectFrom(dd, Read, dd.starved)
    else if dd.write.fifo != [] then SelectFrom(dd, Write, 0)
    else Nothing
  }

  // Runs

  datatype Action =
    | AddRequest(dir: Dir, id: nat, pos: nat)
    | FrontMerge(dir: Dir, id: nat, pos: nat)
    | MergeRequests(dir: Dir, req: nat, next: nat)
    | Tick(now: int)
    | DispatchOne

  ghost predicate Enabled(dd: Dd, a: Action) {
    match a
    case AddRequest(_, id, _) => !Has(dd.read.fifo, id) && !Has(dd.write.fifo, id)
    case FrontMerge(d, id, _) => Has(dd.Of(d).fifo, id)
    case MergeRequests(d, req, next) => Has(dd.Of(d).fifo, req) && Has(dd.Of(d).fifo, next) && req != next
    case Tick(now) => dd.now <= now
    case DispatchOne => true
  }

  ghost function Apply(cfg: Settings, dd: Dd, a: Action): Dd
    requires Enabled(dd, a)
  {
    match a
    case AddRequest(d, id, pos) => dd.Set(d, Add(dd.Of(d), id, pos, dd.now + cfg.Expire(d)))
    case FrontMerge(d, id, pos) => dd.Set(d, Reposition(dd.Of(d), id, pos))
    case MergeRequests(d, req, next) =>
      HasAhead(dd.Of(d).fifo, req);
      HasAhead(dd.Of(d).fifo, next);
      dd.Set(d, MergeNext(dd.Of(d), req, next))
    case Tick(now) => dd.(now := now)
    case DispatchOne => var o := Dispatch(cfg, dd); if o.Nothing? then dd else o.dd
  }

  ghost predicate NotAfter(f: seq<Entry>, t: int) {
    forall i :: 0 <= i < |f| ==> f[i].key <= t
  }

  /** The indexes agree, next_rq is set in one direction at most, and no expiry time is too far ahead. */
  ghost predicate Inv(cfg: Settings, dd: Dd) {
    && LaneOk(dd.read) && LaneOk(dd.write)
    && (dd.read.next.None? || dd.write.next.None?)
    && (dd.read.next.Some? || dd.write.next.Some? ==> 1 <= dd.batching)
    && dd.starved <= cfg.writesStarved
    && NotAfter(dd.read.fifo, dd.now + cfg.readExpire) && NotAfter(dd.write.fifo, dd.now + cfg.writeExpire)
  }

  ghost predicate Init(dd: Dd) {
    dd.read == dd.write == Lane([], [], None) && dd.batching == dd.starved == 0
  }

  lemma NotAfterWithout(f: seq<Entry>, id: nat, t: int)
    requires NotAfter(f, t)
    ensures NotAfter(Without(f, id), t)
  {
  }

  lemma SendKeeps(cfg: Settings, dd: Dd, d: Dir, id: nat)
    requires Inv(cfg, dd) && 1 <= dd.batching && Has(dd.Of(d).fifo, id)
    ensures Inv(cfg, Send(dd, d, id))
  {
    var l := dd.Of(d);
    RemoveOk(l.(next := None), id);
    WithoutMoves(l.sort, id);
    WithoutMoves(l.fifo, id);
    LatterQueued(l.sort, id);
    NotAfterWithout(l.fifo, id, dd.now + cfg.Expire(d));
  }

  lemma PickQueued(l: Lane, now: int)
    requires LaneOk(l) && l.fifo != []
    ensures Has(l.fifo, Pick(l, now))
  {
    assert Has(l.fifo, l.fifo[0].id);
  }

  lemma SelectKeeps(cfg: Settings, dd: Dd, d: Dir, starved: nat)
    requires Inv(cfg, dd) && dd.Of(d).fifo != [] && starved <= cfg.writesStarved
    ensures var o := SelectFrom(dd, d, starved);
      Has(dd.Of(d).fifo, o.id) && Inv(cfg, o.dd)
  {
    PickQueued(dd.Of(d), dd.now);
    var dd' := dd.(batching := 1, starved := starved);
    SendKeeps(cfg, dd', d, Pick(dd.Of(d), dd.now));
  }

  /** What is dispatched was queued; nothing is dispatched exactly when nothing is queued. */
  lemma DispatchKeeps(cfg: Settings, dd: Dd)
    requires Inv(cfg, dd)
    ensures var o := Dispatch(cfg, dd);
      && (o.Nothing? <==> dd.read.fifo == dd.write.fifo == [])
      && (o.Sent? ==> Has(dd.Of(o.dir).fifo, o.id) && Inv(cfg, o.dd))
  {
    var d := if dd.write.next.Some? then Write else Read;
    if dd.Of(d).next.Some? && dd.batching < cfg.fifoBatch {
      SendKeeps(cfg, dd.(batching := dd.batching + 1), d, dd.Of(d).next.value);
    } else if dd.read.fifo != [] {
      if dd.write.fifo != [] {
        if dd.starved >= cfg.writesStarved {
          SelectKeeps(cfg, dd, Write, 0);
        } else {
          SelectKeeps(cfg, dd, Read, dd.starved + 1);
        }
      } else {
        SelectKeeps(cfg, dd, Read, dd.starved);
      }
    } else if dd.write.fifo != [] {
      SelectKeeps(cfg, dd, Write, 0);
    }
  }

  lemma AddKeeps(cfg: Settings, dd: Dd, d: Dir, id: nat, pos: nat)
    requires Inv(cfg, dd) && Enabled(dd, AddRequest(d, id, pos))
    ensures Inv(cfg, Apply(cfg, dd, AddRequest(d, id, pos)))
  {
    var time := dd.now + cfg.Expire(d);
    AddOk(dd.Of(d), id, pos, time);
    NotAfterAppend(dd.Of(d).fifo, Entry(id, time), time);
  }

  lemma NotAfterAppend(f: seq<Entry>, e: Entry, t: int)
    requires NotAfter(f, t) && e.key <= t
    ensures NotAfter(f + [e], t)
  {
  }

  lemma NotAfterAbsorb(f: seq<Entry>, req: nat, next: nat, t: int)
    requires NotAfter(f, t) && Ahead(f, req) < |f| && Ahead(f, next) < |f| && req != next
    ensures NotAfter(Absorb(f, req, next), t)
  {
    NotAfterWithout(f, next, t);
    NotAfterWithout(f, req, t);
    WithoutOther(f, req, next);
  }

  lemma MergeKeeps(cfg: Settings, dd: Dd, d: Dir, req: nat, next: nat)
    requires Inv(cfg, dd) && Enabled(dd, MergeRequests(d, req, next))
    ensures Inv(cfg, Apply(cfg, dd, MergeRequests(d, req, next)))
  {
    MergeNextOk(dd.Of(d), req, next);
    NotAfterAbsorb(dd.Of(d).fifo, req, next, dd.now + cfg.Expire(d));
  }

  lemma InvStep(cfg: Settings, dd: Dd, a: Action)
    requires Inv(cfg, dd) && Enabled(dd, a)
    ensures Inv(cfg, Apply(cfg, dd, a))
  {
    match a
    case AddRequest(d, id, pos) => AddKeeps(cfg, dd, d, id, pos);
    case FrontMerge(d, id, pos) => RepositionOk(dd.Of(d), id, pos);
    case MergeRequests(d, req, next) => MergeKeeps(cfg, dd, d, req, next);
    case Tick(_) =>
    case DispatchOne => DispatchKeeps(cfg, dd);
  }

  ghost predicate Legal(cfg: Settings, dd: Dd, run: seq<Action>)
    decreases |run|
  {
    run == [] || (Enabled(dd, run[0]) && Legal(cfg, Apply(cfg, dd, run[0]), run[1..]))
  }

  ghost function Exec(cfg: Settings, dd: Dd, run: seq<Action>): Dd
    requires Legal(cfg, dd, run)
    decreases |run|
  {
    if run == [] then dd else Exec(cfg, Apply(cfg, dd, run[0]), run[1..])
  }

  /** In every reachable state the two indexes of a direction hold the same requests, in order. */
  lemma {:induction false} IndexesAgree(cfg: Settings, dd: Dd, run: seq<Action>)
    requires Inv(cfg, dd) && Legal(cfg, dd, run)
    ensures Inv(cfg, Exec(cfg, dd, run))
    decreases |run|
  {
    if run != [] {
      InvStep(cfg, dd, run[0]);
      IndexesAgree(cfg, Apply(cfg, dd, run[0]), run[1..]);
    }
  }

  lemma InitInv(cfg: Settings, dd: Dd)
    requires Init(dd)
    ensures Inv(cfg, dd)
  {
  }

  // Writes are starved for a bounded number of reads

  function BatchSize(cfg: Settings): nat {
    if cfg.fifoBatch < 1 then 1 else cfg.fifoBatch
  }

  /** Reads the present batch may still send. */
  function LeftInBatch(cfg: Settings, dd: Dd): nat {
    if dd.read.next.Some? && dd.batching < cfg.fifoBatch then cfg.fifoBatch - dd.batching else 0
  }

  /** Reads that may still be sent before a queued write is. */
  function Budget(cfg: Settings, dd: Dd): int {
    (cfg.writesStarved - dd.starved) * BatchSize(cfg) + LeftInBatch(cfg, dd)
  }

  /** Every operation of the run leaves a write queued, and what is dispatched is a read. */
  ghost predicate OnlyReads(cfg: Settings, dd: Dd, run: seq<Action>)
    requires Legal(cfg, dd, run)
    decreases |run|
  {
    run == [] ||
    (&& dd.write.fifo != []
     && (run[0].DispatchOne? ==> Dispatch(cfg, dd).Sent? && Dispatch(cfg, dd).dir == Read)
     && OnlyReads(cfg, Apply(cfg, dd, run[0]), run[1..]))
  }

  function Dispatches(run: seq<Action>): nat {
    if run == [] then 0 else (if run[0].DispatchOne? then 1 else 0) + Dispatches(run[1..])
  }

  lemma ReadSpendsBudget(cfg: Settings, dd: Dd)
    requires Inv(cfg, dd) && dd.write.fifo != []
    requires Dispatch(cfg, dd).Sent? && Dispatch(cfg, dd).dir == Read
    ensures Budget(cfg, Dispatch(cfg, dd).dd) + 1 <= Budget(cfg, dd)
  {
    var b := BatchSize(cfg);
    var left := cfg.writesStarved - dd.starved;
    assert (left - 1) * b == left * b - b;
  }

  lemma OthersKeepBatch(cfg: Settings, dd: Dd, a: Action)
    requires Enabled(dd, a) && !a.DispatchOne?
    ensures var dd' := Apply(cfg, dd, a);
      dd'.starved == dd.starved && dd'.batching == dd.batching && (dd'.read.next.Some? ==> dd.read.next.Some?)
  {
  }

  lemma SameBatchBudget(cfg: Settings, dd: Dd, dd': Dd)
    requires dd'.starved == dd.starved && dd'.batching == dd.batching && (dd'.read.next.Some? ==> dd.read.next.Some?)
    ensures Budget(cfg, dd') <= Budget(cfg, dd)
  {
  }

  lemma OthersKeepBudget(cfg: Settings, dd: Dd, a: Action)
    requires Enabled(dd, a) && !a.DispatchOne?
    ensures Budget(cfg, Apply(cfg, dd, a)) <= Budget(cfg, dd)
  {
    OthersKeepBatch(cfg, dd, a);
    SameBatchBudget(cfg, dd, Apply(cfg, dd, a));
  }

  lemma BudgetBounds(cfg: Settings, dd: Dd)
    requires Inv(cfg, dd)
    ensures 0 <= Budget(cfg, dd) < (cfg.writesStarved + 1) * BatchSize(cfg)
  {
    var b := BatchSize(cfg);
    var left := cfg.writesStarved - dd.starved;
    assert 0 <= left * b;
    assert cfg.writesStarved * b - left * b == dd.starved * b;
    assert 0 <= dd.starved * b;
    assert (cfg.writesStarved + 1) * b == cfg.writesStarved * b + b;
  }

  lemma {:induction false} ReadsWithinBudget(cfg: Settings, dd: Dd, run: seq<Action>)
    requires Inv(cfg, dd) && Legal(cfg, dd, run) && OnlyReads(cfg, dd, run)
    ensures Dispatches(run) <= Budget(cfg, dd)
    decreases |run|
  {
    if run == [] {
      BudgetBounds(cfg, dd);
    } else {
      var dd' := Apply(cfg, dd, run[0]);
      InvStep(cfg, dd, run[0]);
      ReadsWithinBudget(cfg, dd', run[1..]);
      if run[0].DispatchOne? {
        ReadSpendsBudget(cfg, dd);
      } else {
        OthersKeepBudget(cfg, dd, run[0]);
      }
    }
  }

  /** While a write stays queued, fewer than (writes_starved + 1) batches of reads go before a write does. */
  lemma WriteStarvationBound(cfg: Settings, dd: Dd, run: seq<Action>)
    requires Inv(cfg, dd) && Legal(cfg, dd, run) && OnlyReads(cfg, dd, run)
    ensures Dispatches(run) < (cfg.writesStarved + 1) * BatchSize(cfg)
  {
    ReadsWithinBudget(cfg, dd, run);
    BudgetBounds(cfg, dd);
  }

  // An expired request is served

  /** The run keeps `id` queued in direction `d`. */
  ghost predicate Waits(cfg: Settings, dd: Dd, run: seq<Action>, d: Dir, id: nat)
    requires Legal(cfg, dd, run)
    decreases |run|
  {
    Has(dd.Of(d).fifo, id) && (run == [] || Waits(cfg, Apply(cfg, dd, run[0]), run[1..], d, id))
  }

  /** New batches the run starts in direction `d`. */
  ghost function Selections(cfg: Settings, dd: Dd, run: seq<Action>, d: Dir): nat
    requires Legal(cfg, dd, run)
    decreases |run|
  {
    if run == [] then 0
    else
      (if Selects(cfg, dd, run[0], d) then 1 else 0) + Selections(cfg, Apply(cfg, dd, run[0]), run[1..], d)
  }

  predicate Selects(cfg: Settings, dd: Dd, a: Action, d: Dir) {
    a.DispatchOne? && Dispatch(cfg, dd).Sent? && Dispatch(cfg, dd).selected && Dispatch(cfg, dd).dir == d
  }

  ghost predicate Expired(dd: Dd, d: Dir, id: nat) {
    Ahead(dd.Of(d).fifo, id) < |dd.Of(d).fifo| && KeyOf(dd.Of(d).fifo, id) <= dd.now
  }

  /** The others only ever leave from ahead of a waiting request, and its time is never put off. */
  lemma MergeMovesUp(l: Lane, req: nat, next: nat, id: nat)
    requires LaneOk(l) && Has(l.fifo, req) && Has(l.fifo, next) && req != next && Has(l.fifo, id) && id != next
    requires Ahead(l.fifo, req) < |l.fifo| && Ahead(l.fifo, next) < |l.fifo| && Ahead(l.fifo, id) < |l.fifo|
    ensures var g := Absorb(l.fifo, req, next);
      Ahead(g, id) < |g| && Ahead(g, id) <= Ahead(l.fifo, id) && KeyOf(g, id) <= KeyOf(l.fifo, id)
  {
    var g := Absorb(l.fifo, req, next);
    if KeyOf(l.fifo, next) < KeyOf(l.fifo, req) {
      TakeOverKeeps(l.fifo, req, next);
      TakeOverKey(l.fifo, req, next, id);
      HasAhead(g, id);
    } else {
      WithoutMoves(l.fifo, next);
      WithoutAhead(l.fifo, next, id);
      WithoutKey(l.fifo, next, id);
    }
  }

  lemma TakeOverKey(f: seq<Entry>, req: nat, next: nat, id: nat)
    requires Distinct(f) && Ordered(f) && Has(f, req) && Has(f, next) && req != next && Has(f, id) && id != next
    requires KeyOf(f, next) < KeyOf(f, req)
    ensures var g := TakeOver(f, req, next);
      Ahead(g, id) < |g| && KeyOf(g, id) <= KeyOf(f, id)
  {
    var w := Without(f, req);
    WithoutMoves(f, req);
    WithoutOther(f, req, next);
    ReplaceKeeps(w, Ahead(w, next), req);
    HasAhead(TakeOver(f, req, next), id);
    if id != req {
      WithoutKey(f, req, id);
    }
  }

  lemma SendMovesUp(dd: Dd, d: Dir, sent: nat, e: Dir, id: nat)
    requires LaneOk(dd.Of(e)) && Has(dd.Of(e).fifo, id) && Has(Send(dd, d, sent).Of(e).fifo, id)
    requires Has(dd.Of(d).fifo, sent)
    ensures var f, g := dd.Of(e).fifo, Send(dd, d, sent).Of(e).fifo;
      && Ahead(f, id) < |f| && Ahead(g, id) < |g| && KeyOf(g, id) == KeyOf(f, id)
      && Ahead(g, id) <= Ahead(f, id)
      && (d == e && Ahead(f, sent) < Ahead(f, id) ==> Ahead(g, id) == Ahead(f, id) - 1)
  {
    var f := dd.Of(e).fifo;
    HasAhead(f, id);
    if d == e {
      WithoutMoves(f, sent);
      WithoutAhead(f, sent, id);
      WithoutKey(f, sent, id);
    }
  }

  /** A selection in the direction of an expired request takes the head of its fifo. */
  lemma SelectionTakesHead(cfg: Settings, dd: Dd, d: Dir, id: nat)
    requires Inv(cfg, dd) && Expired(dd, d, id) && Selects(cfg, dd, DispatchOne, d)
    ensures Dispatch(cfg, dd).id == dd.Of(d).fifo[0].id
  {
    var f := dd.Of(d).fifo;
    assert f[0].key <= f[Ahead(f, id)].key;
  }

  /** A dispatch changes the fifos as `Send` does, and not the time. */
  lemma DispatchIsSend(cfg: Settings, dd: Dd)
    requires Dispatch(cfg, dd).Sent?
    ensures var o := Dispatch(cfg, dd);
      o.dd == Send(dd.(batching := o.dd.batching, starved := o.dd.starved), o.dir, o.id)
  {
  }

  lemma SendIgnores(dd: Dd, batching: nat, starved: nat, e: Dir, id: nat, d: Dir)
    ensures var sent := Send(dd.(batching := batching, starved := starved), e, id);
      sent.Of(d).fifo == Send(dd, e, id).Of(d).fifo && sent.now == dd.now
  {
  }

  lemma DispatchSends(cfg: Settings, dd: Dd, d: Dir)
    requires Dispatch(cfg, dd).Sent?
    ensures var o := Dispatch(cfg, dd);
      o.dd.Of(d).fifo == Send(dd, o.dir, o.id).Of(d).fifo && o.dd.now == dd.now
  {
    var o := Dispatch(cfg, dd);
    DispatchIsSend(cfg, dd);
    SendIgnores(dd, o.dd.batching, o.dd.starved, o.dir, o.id, d);
  }

  lemma DispatchMovesUp(cfg: Settings, dd: Dd, d: Dir, id: nat)
    requires Inv(cfg, dd) && Expired(dd, d, id) && Dispatch(cfg, dd).Sent?
    requires Has(Dispatch(cfg, dd).dd.Of(d).fifo, id)
    ensures var dd' := Dispatch(cfg, dd).dd;
      && Expired(dd', d, id)
      && Ahead(dd'.Of(d).fifo, id) + (if Selects(cfg, dd, DispatchOne, d) then 1 else 0) <= Ahead(dd.Of(d).fifo, id)
  {
    var o := Dispatch(cfg, dd);
    var f := dd.Of(d).fifo;
    assert Has(dd.Of(o.dir).fifo, o.id) by {
      DispatchKeeps(cfg, dd);
    }
    DispatchSends(cfg, dd, d);
    HasAhead(f, id);
    SendMovesUp(dd, o.dir, o.id, d, id);
    if Selects(cfg, dd, DispatchOne, d) {
      SelectionTakesHead(cfg, dd, d, id);
      HeadLeaves(cfg, dd, d, id);
    }
  }

  lemma HeadLeaves(cfg: Settings, dd: Dd, d: Dir, id: nat)
    requires Inv(cfg, dd) && Dispatch(cfg, dd).Sent? && Dispatch(cfg, dd).dir == d && dd.Of(d).fifo != []
    requires Dispatch(cfg, dd).id == dd.Of(d).fifo[0].id && Has(Dispatch(cfg, dd).dd.Of(d).fifo, id)
    ensures Ahead(dd.Of(d).fifo, Dispatch(cfg, dd).id) == 0
    ensures id != dd.Of(d).fifo[0].id && 0 < Ahead(dd.Of(d).fifo, id)
  {
    DispatchSends(cfg, dd, d);
    WithoutMoves(dd.Of(d).fifo, dd.Of(d).fifo[0].id);
  }

  lemma AddMovesUp(cfg: Settings, dd: Dd, d: Dir, x: nat, pos: nat, id: nat)
    requires Inv(cfg, dd) && Enabled(dd, AddRequest(d, x, pos)) && Expired(dd, d, id)
    ensures var dd' := Apply(cfg, dd, AddRequest(d, x, pos));
      Expired(dd', d, id) && Ahead(dd'.Of(d).fifo, id) <= Ahead(dd.Of(d).fifo, id)
  {
    HasAhead(dd.Of(d).fifo, id);
    AppendKeeps(dd.Of(d).fifo, Entry(x, dd.now + cfg.Expire(d)));
  }

  lemma MergedMovesUp(cfg: Settings, dd: Dd, d: Dir, req: nat, next: nat, id: nat)
    requires Inv(cfg, dd) && Enabled(dd, MergeRequests(d, req, next)) && Expired(dd, d, id)
    requires Has(Apply(cfg, dd, MergeRequests(d, req, next)).Of(d).fifo, id)
    ensures var dd' := Apply(cfg, dd, MergeRequests(d, req, next));
      Expired(dd', d, id) && Ahead(dd'.Of(d).fifo, id) <= Ahead(dd.Of(d).fifo, id)
  {
    HasAhead(dd.Of(d).fifo, id);
    MergeNextOk(dd.Of(d), req, next);
    MergeLeaves(dd.Of(d), req, next, id);
    MergeMovesUp(dd.Of(d), req, next, id);
  }

  lemma StepMovesUp(cfg: Settings, dd: Dd, a: Action, d: Dir, id: nat)
    requires Inv(cfg, dd) && Enabled(dd, a) && Expired(dd, d, id) && Has(Apply(cfg, dd, a).Of(d).fifo, id)
    ensures var dd' := Apply(cfg, dd, a);
      && Expired(dd', d, id)
      && Ahead(dd'.Of(d).fifo, id) + (if Selects(cfg, dd, a, d) then 1 else 0) <= Ahead(dd.Of(d).fifo, id)
  {
    HasAhead(dd.Of(d).fifo, id);
    match a
    case AddRequest(e, x, pos) =>
      if d == e {
        AddMovesUp(cfg, dd, d, x, pos, id);
      }
    case MergeRequests(e, req, next) =>
      if d == e {
        MergedMovesUp(cfg, dd, d, req, next, id);
      }
    case DispatchOne =>
      if Dispatch(cfg, dd).Sent? {
        DispatchMovesUp(cfg, dd, d, id);
      }
    case _ =>
  }

  lemma MergeLeaves(l: Lane, req: nat, next: nat, id: nat)
    requires LaneOk(l) && Has(l.fifo, req) && Has(l.fifo, next) && req != next
    requires Ahead(l.fifo, req) < |l.fifo| && Ahead(l.fifo, next) < |l.fifo|
    requires Has(Absorb(l.fifo, req, next), id)
    ensures id != next
  {
    if KeyOf(l.fifo, next) < KeyOf(l.fifo, req) {
      TakeOverKeeps(l.fifo, req, next);
    } else {
      WithoutMoves(l.fifo, next);
    }
  }

  /** An expired request with k ahead of it is gone after k + 1 batch selections of its direction. */
  lemma {:induction false} ExpiryService(cfg: Settings, dd: Dd, run: seq<Action>, d: Dir, id: nat)
    requires Inv(cfg, dd) && Expired(dd, d, id) && Legal(cfg, dd, run) && Waits(cfg, dd, run, d, id)
    ensures Selections(cfg, dd, run, d) <= Ahead(dd.Of(d).fifo, id)
    decreases |run|
  {
    if run != [] {
      InvStep(cfg, dd, run[0]);
      StepMovesUp(cfg, dd, run[0], d, id);
      ExpiryService(cfg, Apply(cfg, dd, run[0]), run[1..], d, id);
    }
  }
}
