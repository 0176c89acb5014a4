/** A device's throttle data, updated in place: queueing, dispatch and drain (block/blk-throttle.c). */
module ThrottleData {
  import opened Arith
  import opened Options
  import opened ThrottlePending
  import opened ThrottleQnodes
  import opened ThrottleState
  import Rate = ThrottleRate

  /** `throtl_start_new_slice_with_credit`, when the parent's slice is used up. */
  function Credit(c: Rate.Limits, parent: Rate.Lane, childStart: nat, now: nat): Rate.Lane {
    if Rate.Used(parent, now) then
      Rate.Lane(0, 0, if parent.start <= childStart then childStart else parent.start, now + c.Slice())
    else parent
  }

  /** The slices of all groups after a bio of `g` was charged and its slice gave the parent credit. */
  function ChargeLanes(up: seq<nat>, limits: seq<Rate.Limits>, lanes: seq<Rate.Lane>, g: nat, size: nat,
      now: nat): (r: seq<Rate.Lane>)
    requires |limits| == |lanes| == |up| && g < |up| && g < up[g]
    ensures |r| == |lanes| && r[g] == Rate.Charge(lanes[g], size)
    ensures forall x :: 0 <= x < |r| && x != g && x != up[g] ==> r[x] == lanes[x]
  {
    var charged := lanes[g := Rate.Charge(lanes[g], size)];
    var p := up[g];
    if p < |up| then charged[p := Credit(limits[p], charged[p], charged[g].start, now)] else charged
  }

  /** And after the slice was trimmed. */
  function DispatchLanes(up: seq<nat>, limits: seq<Rate.Limits>, lanes: seq<Rate.Lane>, g: nat, size: nat,
      now: nat): (r: seq<Rate.Lane>)
    requires |limits| == |lanes| == |up| && g < |up| && g < up[g] && limits[g].Valid()
    ensures |r| == |lanes| && r[g] == Rate.Trim(limits[g], Rate.Charge(lanes[g], size), now)
    ensures forall x :: 0 <= x < |r| && x != g && x != up[g] ==> r[x] == lanes[x]
  {
    var credited := ChargeLanes(up, limits, lanes, g, size, now);
    credited[g := Rate.Trim(limits[g], credited[g], now)]
  }

  /** The slice of a group after a bio the rate allows was dispatched at once. */
  function Granted(c: Rate.Limits, l: Rate.Lane, size: nat, now: nat): Rate.Lane
    requires c.Valid()
  {
    Rate.Trim(c, Rate.Charge(Rate.MayDispatch(c, l, size, now).lane, size), now)
  }

  /**
   * A bio of group `s` passed every group up to and without `g`: each allowed it and was charged. But for `g`, no
   * other slice has changed.
   */
  ghost predicate PassedTo(up: seq<nat>, limits: seq<Rate.Limits>, lanes: seq<Rate.Lane>, lanes': seq<Rate.Lane>,
      s: nat, g: nat, size: nat, now: nat)
    requires |limits| == |lanes| == |lanes'| == |up| && forall x :: 0 <= x < |up| ==> limits[x].Valid()
  {
    forall x :: 0 <= x < |up| && x != g ==>
      if x < g && Reach(up, s, x) then
        Rate.MayDispatch(limits[x], lanes[x], size, now).ok && lanes'[x] == Granted(limits[x], lanes[x], size, now)
      else lanes'[x] == lanes[x]
  }

  /** Bios of `g` in one direction may have gone up; all else stands. */
  ghost predicate Upward(up: seq<nat>, half: seq<Half>, half': seq<Half>, tree: Pending, tree': Pending, rw: nat,
      g: nat)
    requires g < |up| && rw < |half|
  {
    && |half'| == |half| && half' == half[rw := half'[rw]]
    && Kept(up, half[rw], half'[rw], g, up[g])
    && OthersKept(up, tree, tree', Above(up, up[g]), Above(up, up[g]))
  }

  lemma UpwardTrans(up: seq<nat>, half: seq<Half>, half1: seq<Half>, half2: seq<Half>, tree: Pending, tree1: Pending,
      tree2: Pending, rw: nat, g: nat)
    requires g < |up| && rw < |half| && Upward(up, half, half1, tree, tree1, rw, g)
    requires Upward(up, half1, half2, tree1, tree2, rw, g)
    ensures Upward(up, half, half2, tree, tree2, rw, g)
  {
    KeptTrans(up, half[rw], half1[rw], half2[rw], g, up[g]);
    OthersTrans(up, tree, tree1, tree2, Above(up, up[g]), Above(up, up[g]));
  }

  predicate FrontOk(h: Half, g: nat) {
    g < |h.queued| && (h.queued[g] != [] ==> Held(h.bios, h.queued[g][0]) != [])
  }

  /** `throtl_peek_queued`. */
  function Peek(h: Half, g: nat): Option<Bio> {
    if g < |h.queued| && h.queued[g] != [] && Held(h.bios, h.queued[g][0]) != [] then Some(Front(h, g)) else None
  }

  /** A group with bios queued is only asked about the first of them. */
  predicate MayAsk(h: Half, g: nat, bio: Bio) {
    g < |h.nr| && (0 < h.nr[g] ==> Peek(h, g) == Some(bio))
  }

  /** How long the first bio of `g` has to wait; forever if there is none. */
  function WaitFor(c: Rate.Limits, l: Rate.Lane, h: Half, g: nat, now: nat): nat
    requires c.Valid() && FrontOk(h, g)
  {
    if h.queued[g] == [] then U64 - 1 else Rate.MayDispatch(c, l, Front(h, g).size, now).wait
  }

  /** The slice of `g` after its first bio, if any, was asked for. */
  function AskedFor(c: Rate.Limits, l: Rate.Lane, h: Half, g: nat, now: nat): Rate.Lane
    requires c.Valid() && FrontOk(h, g)
  {
    if h.queued[g] == [] then l else Rate.MayDispatch(c, l, Front(h, g).size, now).lane
  }

  /** The first bio a group gets in one direction is the one it waits with. */
  lemma FirstQueued(up: seq<nat>, h: Half, q: Qnode, b: Bio)
    requires HalfOk(up, h) && q.tg < |up| && Home(up, q) < |up| && h.nr[Home(up, q)] == 0
    ensures var h', g := Submit(up, h, q, b), Home(up, q);
      FrontOk(h', g) && h'.queued[g] == [q] && Front(h', g) == b
  {
    EmptyIffUncounted(up, h, Home(up, q));
  }

  lemma RefusedWaits(c: Rate.Limits, l: Rate.Lane, h: Half, g: nat, now: nat)
    requires c.Valid() && FrontOk(h, g)
    requires h.queued[g] != [] ==> !Rate.MayDispatch(c, l, Front(h, g).size, now).ok
    ensures 1 <= WaitFor(c, l, h, g, now)
  {
    if h.queued[g] != [] {
      Rate.RefusedAgain(c, l, Front(h, g).size, now);
    }
  }

  /** One slice is replaced. */
  function WithLane(lane: seq<seq<Rate.Lane>>, rw: nat, g: nat, l: Rate.Lane): seq<seq<Rate.Lane>>
    requires rw < |lane| && g < |lane[rw]|
  {
    lane[rw := lane[rw][g := l]]
  }

  lemma WithLaneAgain(lane: seq<seq<Rate.Lane>>, rw: nat, g: nat, l: Rate.Lane, l': Rate.Lane)
    requires rw < |lane| && g < |lane[rw]|
    ensures WithLane(WithLane(lane, rw, g, l), rw, g, l') == WithLane(lane, rw, g, l')
    ensures WithLane(lane, rw, g, lane[rw][g]) == lane
  {
    assert lane[rw][g := l][g := l'] == lane[rw][g := l'];
    assert lane[rw][g := lane[rw][g]] == lane[rw];
  }

  /** `nr` bios of `g` in one direction went up since `half` and `tree`. */
  ghost predicate Sent(up: seq<nat>, half: seq<Half>, half': seq<Half>, tree: Pending, tree': Pending, rw: nat,
      g: nat, nr: nat)
    requires g < |up| && rw < |half|
  {
    && Upward(up, half, half', tree, tree', rw, g) && half'[rw].nr[g] + nr == half[rw].nr[g]
    && (nr == 0 ==> half' == half && tree' == tree)
  }

  lemma SentNone(up: seq<nat>, half: seq<Half>, tree: Pending, rw: nat, g: nat)
    requires g < |up| && rw < |half| && |half[rw].queued| == |up| + 1 && |half[rw].nr| == |up|
    requires |tree.order| == |up| + 1
    ensures Sent(up, half, half, tree, tree, rw, g, 0)
  {
  }

  lemma SentOne(up: seq<nat>, half: seq<Half>, half1: seq<Half>, half2: seq<Half>, tree: Pending, tree1: Pending,
      tree2: Pending, rw: nat, g: nat, nr: nat)
    requires g < |up| && rw < |half| && Sent(up, half, half1, tree, tree1, rw, g, nr)
    requires Upward(up, half1, half2, tree1, tree2, rw, g) && half2[rw].nr[g] + 1 == half1[rw].nr[g]
    ensures Sent(up, half, half2, tree, tree2, rw, g, nr + 1)
  {
    UpwardTrans(up, half, half1, half2, tree, tree1, tree2, rw, g);
  }

  /** The slices of groups other than `g` stay as they were. */
  ghost predicate OnlyLane(lane: seq<seq<Rate.Lane>>, lane': seq<seq<Rate.Lane>>, g: nat) {
    && |lane'| == |lane|
    && (forall rw :: 0 <= rw < |lane| ==> |lane'[rw]| == |lane[rw]|)
    && (forall rw, x :: 0 <= rw < |lane| && 0 <= x < |lane[rw]| && x != g ==> lane'[rw][x] == lane[rw][x])
  }

  ghost predicate Ticks(clock: nat -> nat, end: nat) {
    forall i: nat, j: nat :: i <= j ==> clock(i) <= clock(j) <= end
  }

  ghost function TimeLeft(clock: nat -> nat, end: nat, i: nat): nat
    requires Ticks(clock, end)
  {
    assert clock(i) <= clock(i) <= end;
    end - clock(i)
  }

  lemma {:induction false} TicksFrom(clock: nat -> nat, end: nat, i: nat)
    requires Ticks(clock, end)
    ensures clock(0) <= clock(i) <= end
    ensures TimeLeft(clock, end, i + 1) < TimeLeft(clock, end, i) || clock(i + 1) == clock(i)
  {
    assert clock(0) <= clock(i) <= clock(i + 1) <= end;
  }

  function Least(a: nat, b: nat): nat {
    if a < b then a else b
  }

  const GRP_QUANTUM: nat := 8
  const QUANTUM: nat := 32

  class ThrotlData {
    const up: seq<nat>
    const limits: seq<seq<Rate.Limits>> // of each direction and group
    var half: seq<Half> // READ and WRITE
    var lane: seq<seq<Rate.Lane>>
    var tree: Pending
    var refs: seq<nat>
    var wasEmpty: seq<bool>

    ghost predicate Shaped()
      reads this
    {
      && |limits| == |lane| == 2 && |wasEmpty| == |up|
      && (forall rw :: 0 <= rw < 2 ==> |lane[rw]| == |limits[rw]| == |up|)
      && (forall rw, g :: 0 <= rw < 2 && 0 <= g < |up| ==> limits[rw][g].Valid())
    }

    /** The state between steps, while group `but` may be off its tree with bios left. */
    ghost predicate ValidBut(but: nat)
      reads this
    {
      Shaped() && Inv(up, half, tree, refs, but)
    }

    ghost predicate Valid()
      reads this
    {
      ValidBut(|up|)
    }

    /** Groups given by the parent of each, children first, with their limits; nothing is queued. */
    constructor (up: seq<nat>, limits: seq<seq<Rate.Limits>>)
      requires IsTree(up) && |limits| == 2 && |limits[0]| == |limits[1]| == |up|
      requires forall rw, g :: 0 <= rw < 2 && 0 <= g < |up| ==> limits[rw][g].Valid()
      ensures Valid() && this.up == up && this.limits == limits && Idle(up, half[0]) && Idle(up, half[1])
      ensures forall rw, g :: 0 <= rw < 2 && 0 <= g < |up| ==> lane[rw][g] == Rate.ZEROED
    {
      this.up := up;
      this.limits := limits;
      var h := Half(seq(|up| + 1, i => []), map[], seq(|up|, i => 0), 0);
      half := [h, h];
      lane := seq(2, i => seq(|up|, j => Rate.ZEROED));
      tree := Pending(seq(|up| + 1, i => []), seq(|up| + 1, i => None), seq(|up|, i => 0), seq(|up|, i => false));
      refs := seq(|up|, i => 0);
      wasEmpty := seq(|up|, i => false);
      new;
      FreshHalf(up, half[0]);
      FreshTree(up, tree);
      DrainedIdle(up, half[0]);
    }

    // The slice of a group, in place

    method SetLane(rw: nat, g: nat, l: Rate.Lane)
      requires Shaped() && rw < 2 && g < |up|
      modifies this`lane
      ensures Shaped() && lane == WithLane(old(lane), rw, g, l)
    {
      lane := lane[rw := lane[rw][g := l]];
    }

    method StartNewSlice(g: nat, rw: nat, now: nat)
      requires Shaped() && rw < 2 && g < |up|
      modifies this`lane
      ensures Shaped() && lane == WithLane(old(lane), rw, g, Rate.StartSlice(limits[rw][g], now))
    {
      SetLane(rw, g, lane[rw][g].(bytes := 0, ios := 0, start := now, end := now + limits[rw][g].Slice()));
    }

    method ExtendSlice(g: nat, rw: nat, to: nat)
      requires Shaped() && rw < 2 && g < |up|
      modifies this`lane
      ensures Shaped()
      ensures lane[rw][g].end < to + limits[rw][g].Slice() && to <= lane[rw][g].end
      ensures lane == WithLane(old(lane), rw, g, old(lane[rw][g]).(end := lane[rw][g].end))
      ensures old(lane[rw][g].end) < to ==> lane[rw][g] == Rate.Extend(limits[rw][g], old(lane[rw][g]), to)
    {
      SetLane(rw, g, lane[rw][g].(end := Rate.RoundUp(to, limits[rw][g].Slice())));
    }

    method TrimSlice(g: nat, rw: nat, now: nat)
      requires Shaped() && rw < 2 && g < |up|
      modifies this`lane
      ensures Shaped() && lane == WithLane(old(lane), rw, g, Rate.Trim(limits[rw][g], old(lane[rw][g]), now))
    {
      var c, l := limits[rw][g], lane[rw][g];
      if l.start <= now <= l.end {
        var slice := c.Slice();
        l := l.(end := Rate.RoundUp(now + slice, slice));
        var nrSlices := Rate.Div(now - l.start, slice);
        if nrSlices != 0 {
          SlicesPass(nrSlices, slice);
          var bytesTrim := Rate.Share(c.bps, nrSlices * slice, c.hz);
          var ioTrim := Rate.Share(c.iops, nrSlices * slice, c.hz);
          if bytesTrim != 0 || ioTrim != 0 {
            l := l.(bytes := if l.bytes >= bytesTrim then l.bytes - bytesTrim else 0);
            l := l.(ios := if l.ios >= ioTrim then l.ios - ioTrim else 0);
            l := l.(start := l.start + nrSlices * slice);
          }
        }
      }
      SetLane(rw, g, l);
    }

    method WithinIopsLimit(g: nat, rw: nat, now: nat) returns (ok: bool, wait: nat)
      requires Shaped() && rw < 2 && g < |up| && lane[rw][g].start <= now
      ensures Rate.Answer(ok, wait) == Rate.WithinIops(limits[rw][g], lane[rw][g], now)
    {
      var c, l := limits[rw][g], lane[rw][g];
      var elapsed := now - l.start;
      var elapsedRnd := Rate.RoundUp(if elapsed == 0 then c.Slice() else elapsed, c.Slice());
      var tmp := Rate.Share(c.iops, elapsedRnd, c.hz);
      var ioAllowed := if tmp > U32 - 1 then U32 - 1 else tmp;
      var next := (l.ios + 1) % U32;
      if next <= ioAllowed {
        return true, 0;
      }
      wait := Rate.Div((next * c.hz) % U32, c.iops) + 1;
      wait := if wait > elapsed then wait - elapsed else 1;
      return false, wait;
    }

    method WithinBpsLimit(g: nat, rw: nat, size: nat, now: nat) returns (ok: bool, wait: nat)
      requires Shaped() && rw < 2 && g < |up| && lane[rw][g].start <= now
      ensures Rate.Answer(ok, wait) == Rate.WithinBps(limits[rw][g], lane[rw][g], size, now)
    {
      var c, l := limits[rw][g], lane[rw][g];
      var elapsed := now - l.start;
      var elapsedRnd := Rate.RoundUp(if elapsed == 0 then c.Slice() else elapsed, c.Slice());
      var bytesAllowed := Rate.Share(c.bps, elapsedRnd, c.hz);
      var sum := (l.bytes + size) % U64;
      if sum <= bytesAllowed {
        return true, 0;
      }
      wait := Rate.Div(((sum - bytesAllowed) * c.hz) % U64, c.bps);
      if wait == 0 {
        wait := 1;
      }
      wait := wait + (elapsedRnd - elapsed);
      return false, wait;
    }

    method Renew(g: nat, rw: nat, now: nat)
      requires Shaped() && rw < 2 && g < |up|
      modifies this`lane
      ensures Shaped() && lane == WithLane(old(lane), rw, g, Rate.Renewed(limits[rw][g], old(lane[rw][g]), now))
    {
      var l, slice := lane[rw][g], limits[rw][g].Slice();
      if !(l.start <= now <= l.end) {
        StartNewSlice(g, rw, now);
      } else if l.end < now + slice {
        ExtendSlice(g, rw, now + slice);
      } else {
        WithLaneAgain(lane, rw, g, l, l);
      }
    }

    /** The group may dispatch this bio now, or should wait. What is required is what its `BUG_ON` demands. */
    method TgMayDispatch(g: nat, rw: nat, bio: Bio, now: nat) returns (ok: bool, wait: nat)
      requires Shaped() && g < |up| && |half| == 2 && rw < 2 && MayAsk(half[rw], g, bio)
      modifies this`lane
      ensures Shaped()
      ensures Rate.Decision(ok, wait, lane[rw][g]) == Rate.MayDispatch(limits[rw][g], old(lane[rw][g]), bio.size, now)
      ensures lane == WithLane(old(lane), rw, g, lane[rw][g])
    {
      WithLaneAgain(lane, rw, g, lane[rw][g], lane[rw][g]);
      if limits[rw][g].bps == U64 - 1 && limits[rw][g].iops == U32 - 1 {
        return true, 0;
      }
      Renew(g, rw, now);
      ok, wait := AskBoth(g, rw, bio.size, now);
      if !ok && lane[rw][g].end < now + wait {
        ghost var l := lane[rw][g];
        ExtendSlice(g, rw, now + wait);
        WithLaneAgain(old(lane), rw, g, l, lane[rw][g]);
      }
    }

    /** The longer of the two waits; operations are not looked at when bytes refuse. */
    method AskBoth(g: nat, rw: nat, size: nat, now: nat) returns (ok: bool, wait: nat)
      requires Shaped() && g < |up| && rw < 2 && lane[rw][g].start <= now
      ensures var c, l := limits[rw][g], lane[rw][g];
        && ok == (Rate.WithinBps(c, l, size, now).ok && Rate.WithinIops(c, l, now).ok)
        && wait == if ok then 0 else if Rate.WithinBps(c, l, size, now).ok then Rate.WithinIops(c, l, now).wait
                   else Rate.WithinBps(c, l, size, now).wait
    {
      var bpsOk, bpsWait := WithinBpsLimit(g, rw, size, now);
      var iopsOk, iopsWait := true, 0;
      if bpsOk {
        iopsOk, iopsWait := WithinIopsLimit(g, rw, now);
      }
      if bpsOk && iopsOk {
        return true, 0;
      }
      return false, if bpsWait < iopsWait then iopsWait else bpsWait;
    }

    method ChargeBio(g: nat, rw: nat, size: nat)
      requires Shaped() && g < |up| && rw < 2
      modifies this`lane
      ensures Shaped() && lane == WithLane(old(lane), rw, g, Rate.Charge(old(lane[rw][g]), size))
    {
      var l := lane[rw][g];
      SetLane(rw, g, l.(bytes := (l.bytes + size) % U64, ios := (l.ios + 1) % U32));
    }

    // Queues

    method QnodeAddBio(bio: Bio, q: Qnode, rw: nat)
      requires |half| == 2 && rw < 2 && q.tg < |up| == |refs| && Home(up, q) < |half[rw].queued|
      modifies this`half, this`refs
      ensures half == old(half)[rw := QnodeAdd(up, old(half[rw]), q, bio)]
      ensures refs == AddRef(old(refs), q.tg, q !in old(half[rw].queued[Home(up, q)]))
    {
      var k, h := Home(up, q), half[rw];
      h := h.(bios := h.bios[q := Held(h.bios, q) + [bio]]);
      if q !in h.queued[k] {
        h := h.(queued := h.queued[k := h.queued[k] + [q]]);
        refs := refs[q.tg := refs[q.tg] + 1];
      }
      half := half[rw := h];
    }

    /** The first bio of a service queue, if any; `put` is the group to put when its qnode emptied. */
    method PopQueued(rw: nat, k: nat) returns (bio: Option<Bio>, put: Option<nat>)
      requires |half| == 2 && rw < 2 && k < |half[rw].queued|
      requires half[rw].queued[k] != [] ==> Held(half[rw].bios, half[rw].queued[k][0]) != []
      modifies this`half
      ensures old(half[rw].queued[k]) == [] ==> bio == None && put == None && half == old(half)
      ensures old(half[rw].queued[k]) != [] ==>
        && half == old(half)[rw := Pop(old(half[rw]), k)] && bio == Some(Front(old(half[rw]), k))
        && put == if |Held(old(half[rw].bios), old(half[rw].queued[k][0]))| == 1
                  then Some(old(half[rw].queued[k][0].tg)) else None
    {
      var h := half[rw];
      if h.queued[k] == [] {
        return None, None;
      }
      var q := h.queued[k][0];
      var bios := Held(h.bios, q);
      bio := Some(bios[0]);
      h := h.(bios := h.bios[q := bios[1..]]);
      if |bios| == 1 {
        h := h.(queued := h.queued[k := h.queued[k][1..]]);
        put := Some(q.tg);
      } else {
        h := h.(queued := h.queued[k := h.queued[k][1..] + [q]]);
        put := None;
      }
      half := half[rw := h];
    }

    method AddBioTg(bio: Bio, q: Qnode, g: nat, rw: nat)
      requires Shaped() && |half| == 2 && rw < 2 && q.tg < |up| == |refs| && g < |up| && Home(up, q) == g
      requires |half[rw].queued| == |up| + 1 && |half[rw].nr| == |up| && IsTree(up) && PendingOk(up, tree)
      modifies this`half, this`refs, this`tree, this`wasEmpty
      ensures Shaped()
      ensures half == old(half)[rw := QnodeAdd(up, old(half[rw]), q, bio).(
        nr := old(half[rw].nr)[g := old(half[rw].nr[g]) + 1])]
      ensures refs == AddRef(old(refs), q.tg, q !in old(half[rw].queued[g]))
      ensures tree == Enqueue(up, old(tree), g)
      ensures wasEmpty == if old(half[rw].nr[g]) == 0 then old(wasEmpty)[g := true] else old(wasEmpty)
    {
      if half[rw].nr[g] == 0 {
        wasEmpty := wasEmpty[g := true];
      }
      QnodeAddBio(bio, q, rw);
      var h := half[rw];
      half := half[rw := h.(nr := h.nr[g := h.nr[g] + 1])];
      tree := Enqueue(up, tree, g);
    }

    method TakeBio(rw: nat, g: nat) returns (bio: Bio, put: Option<nat>)
      requires |half| == 2 && rw < 2 && CanDispatch(up, half[rw], g)
      modifies this`half
      ensures half == old(half)[rw := Take(old(half[rw]), g)] && bio == Front(old(half[rw]), g)
      ensures put == if |Held(old(half[rw].bios), old(half[rw].queued[g][0]))| == 1
                     then Some(old(half[rw].queued[g][0].tg)) else None
    {
      var popped: Option<Bio>;
      popped, put := PopQueued(rw, g);
      bio := popped.value;
      var h := half[rw];
      half := half[rw := h.(nr := h.nr[g := h.nr[g] - 1])];
    }

    method PassBio(bio: Bio, g: nat, rw: nat, now: nat)
      requires Shaped() && |half| == 2 && rw < 2 && g < |up| == |refs| && IsTree(up) && PendingOk(up, tree)
      requires |half[rw].queued| == |up| + 1 && |half[rw].nr| == |up| && (up[g] == |up| ==> 0 < half[rw].total)
      modifies this
      ensures Shaped()
      ensures half == old(half)[rw := Pass(up, old(half[rw]), g, bio)]
      ensures refs == AddRef(old(refs), g, Qnode(g, true) !in old(half[rw].queued[up[g]]))
      ensures tree == DispatchTree(up, old(tree), g)
      ensures lane == if up[g] < |up| then old(lane)[rw := old(lane[rw])[up[g] :=
                        Credit(limits[rw][up[g]], old(lane[rw][up[g]]), old(lane[rw][g].start), now)]] else old(lane)
    {
      var p := up[g];
      if p < |up| {
        AddBioTg(bio, Qnode(g, true), p, rw);
        SetLane(rw, p, Credit(limits[rw][p], lane[rw][p], lane[rw][g].start, now));
      } else {
        QnodeAddBio(bio, Qnode(g, true), rw);
        var h := half[rw];
        half := half[rw := h.(total := h.total - 1)];
      }
    }

    method Transfer(g: nat, rw: nat, now: nat) returns (ghost size: nat, put: Option<nat>)
      requires Shaped() && |half| == 2 && rw < 2 && CanDispatch(up, half[rw], g) && IsTree(up) && PendingOk(up, tree)
      requires |refs| == |up|
      modifies this
      ensures Shaped() && size == Front(old(half[rw]), g).size
      ensures half == old(half)[rw := DispatchOne(up, old(half[rw]), g)]
      ensures tree == DispatchTree(up, old(tree), g)
      ensures refs == AddRef(old(refs), g, Qnode(g, true) !in Pop(old(half[rw]), g).queued[up[g]])
      ensures lane == old(lane)[rw := ChargeLanes(up, limits[rw], old(lane[rw]), g, size, now)]
      ensures put == if |Held(old(half[rw].bios), old(half[rw].queued[g][0]))| == 1
                     then Some(old(half[rw].queued[g][0].tg)) else None
    {
      var bio;
      bio, put := TakeBio(rw, g);
      size := bio.size;
      ChargeBio(g, rw, bio.size);
      PassBio(bio, g, rw, now);
    }

    method MoveUp(g: nat, rw: nat, now: nat)
      requires Shaped() && |half| == 2 && rw < 2 && CanDispatch(up, half[rw], g) && IsTree(up) && PendingOk(up, tree)
      requires |refs| == |up| && 0 < refs[half[rw].queued[g][0].tg]
      modifies this
      ensures Shaped()
      ensures half == old(half)[rw := DispatchOne(up, old(half[rw]), g)]
      ensures tree == DispatchTree(up, old(tree), g)
      ensures refs == DispatchRefs(up, old(half[rw]), g, old(refs))
      ensures lane == old(lane)[rw :=
        DispatchLanes(up, limits[rw], old(lane[rw]), g, Front(old(half[rw]), g).size, now)]
    {
      var size, put := Transfer(g, rw, now);
      TrimSlice(g, rw, now);
      if put.Some? {
        refs := refs[put.value := refs[put.value] - 1];
      }
    }

    /** The first bio of `g` goes to its parent's queue, or to the device's to be issued. */
    method TgDispatchOneBio(g: nat, rw: nat, now: nat)
      requires ValidBut(g) && g < |up| && rw < 2 && half[rw].queued[g] != []
      modifies this
      ensures ValidBut(g) && Ready(up, old(half[rw]), g)
      ensures half == old(half)[rw := DispatchOne(up, old(half[rw]), g)]
      ensures tree == DispatchTree(up, old(tree), g)
      ensures lane == old(lane)[rw :=
        DispatchLanes(up, limits[rw], old(lane[rw]), g, Front(old(half[rw]), g).size, now)]
    {
      ReadyToDispatch(up, half[rw], g);
      ReadyCan(up, half[rw], g);
      DispatchInv(up, half, tree, refs, rw, g);
      RefHeld(half[rw], half[rw].queued[g][0]);
      MoveUp(g, rw, now);
    }

    /** All bios of `g` in one direction go up. */
    method DrainGroup(g: nat, rw: nat, now: nat)
      requires ValidBut(g) && g < |up| && rw < 2
      modifies this
      ensures ValidBut(g) && half[rw].nr[g] == 0
      ensures Kept(up, old(half[rw]), half[rw], g, up[g]) && half[1 - rw] == old(half[1 - rw])
      ensures OthersKept(up, old(tree), tree, Above(up, up[g]), Above(up, up[g]))
    {
      while half[rw].queued[g] != []
        invariant ValidBut(g)
        invariant Kept(up, old(half[rw]), half[rw], g, up[g]) && half[1 - rw] == old(half[1 - rw])
        invariant OthersKept(up, old(tree), tree, Above(up, up[g]), Above(up, up[g]))
        decreases half[rw].nr[g]
      {
        ReadyToDispatch(up, half[rw], g);
        DispatchKept(up, half[rw], g);
        DispatchTreeKept(up, tree, g);
        TgDispatchOneBio(g, rw, now);
      }
      EmptyIffUncounted(up, half[rw], g);
    }

    /** The pending child of `k` with the least dispatch time is taken off the tree. */
    method TakeFirst(k: nat) returns (g: nat)
      requires Valid() && k <= |up| && tree.order[k] != []
      modifies this`tree
      ensures g < |up| && up[g] == k && ValidBut(g) && !tree.on[g]
      ensures forall i :: 0 <= i < |old(tree.order[k])| ==> tree.time[g] <= tree.time[old(tree.order[k])[i]]
      ensures old(First(tree, k)) == Some(g) && tree == Dequeue(up, CacheFirst(old(tree), k), g)
      ensures |tree.order[k]| < |old(tree.order[k])| && OthersKept(up, old(tree), tree, k, k)
    {
      FirstIsLeast(up, tree, k);
      CacheInv(up, half, tree, refs, k);
      g := First(tree, k).value;
      tree := CacheFirst(tree, k);
      DequeueInv(up, half, tree, refs, g);
      DequeueKeeps(up, tree, g);
      tree := Dequeue(up, tree, g);
    }

    /** The first pending child of `k` is taken off the tree and drained. */
    method DrainFirst(k: nat, now: nat)
      requires Valid() && k <= |up| && tree.order[k] != []
      modifies this
      ensures Valid() && SqKept(up, old(half), half, k) && OthersKept(up, old(tree), tree, k, Above(up, k))
      ensures |tree.order[k]| < |old(tree.order[k])|
    {
      var g := TakeFirst(k);
      DrainBoth(g, now);
      IdleInv(up, half, tree, refs, g);
    }

    method DrainBoth(g: nat, now: nat)
      requires ValidBut(g) && g < |up|
      modifies this
      ensures ValidBut(g) && !Busy(half, g) && SqKept(up, old(half), half, up[g])
      ensures OthersKept(up, old(tree), tree, Above(up, up[g]), Above(up, up[g]))
    {
      DrainGroup(g, 0, now);
      DrainOther(g, now, old(half), old(tree));
    }

    method DrainOther(g: nat, now: nat, ghost half0: seq<Half>, ghost tree0: Pending)
      requires ValidBut(g) && g < |up| && half[0].nr[g] == 0 && |half0| == 2 && half[1] == half0[1]
      requires Kept(up, half0[0], half[0], g, up[g])
      requires OthersKept(up, tree0, tree, Above(up, up[g]), Above(up, up[g]))
      modifies this
      ensures ValidBut(g) && !Busy(half, g) && SqKept(up, half0, half, up[g])
      ensures OthersKept(up, tree0, tree, Above(up, up[g]), Above(up, up[g]))
    {
      ghost var half1, tree1 := half, tree;
      DrainGroup(g, 1, now);
      BothKept(up, half0, half1, half, g);
      OthersTrans(up, tree0, tree1, tree, Above(up, up[g]), Above(up, up[g]));
    }

    /** All bios of the children of `k` go to `k`, and no child is left pending. */
    method TgDrainBios(k: nat, now: nat)
      requires Valid() && k <= |up|
      modifies this
      ensures Valid() && tree.order[k] == []
      ensures forall g :: 0 <= g < |up| && up[g] == k ==> !Busy(half, g)
      ensures SqKept(up, old(half), half, k) && OthersKept(up, old(tree), tree, k, Above(up, k))
    {
      while First(tree, k).Some?
        invariant Valid()
        invariant SqKept(up, old(half), half, k) && OthersKept(up, old(tree), tree, k, Above(up, k))
        decreases |tree.order[k]|
      {
        FirstIsLeast(up, tree, k);
        DrainFirst(k, now);
      }
      FirstIsLeast(up, tree, k);
      forall g | 0 <= g < |up| && up[g] == k ensures !Busy(half, g) {
        NoneBusy(up, half, tree, refs, g);
      }
    }

    method PopOne(rw: nat) returns (bio: Bio)
      requires Valid() && rw < 2 && half[rw].queued[|up|] != []
      modifies this`half, this`refs
      ensures Held(old(half[rw].bios), old(half[rw].queued[|up|][0])) != []
      ensures Valid() && half == old(half)[rw := Pop(old(half[rw]), |up|)] && bio == Front(old(half[rw]), |up|)
    {
      IssueInv(up, half, tree, refs, rw);
      var popped, put := PopQueued(rw, |up|);
      if put.Some? {
        refs := refs[put.value := refs[put.value] - 1];
      }
      bio := popped.value;
    }

    /** The bios that reached the device are taken off its queue. */
    method PopAll(rw: nat) returns (taken: seq<Bio>)
      requires Valid() && rw < 2
      modifies this`half, this`refs
      ensures Valid() && half[rw].queued[|up|] == [] && half == old(half)[rw := half[rw]]
      ensures half[rw].nr == old(half[rw].nr) && half[rw].total == old(half[rw].total)
      ensures multiset(taken) == LoadOf(old(half[rw]), |up|)
    {
      taken := [];
      while half[rw].queued[|up|] != []
        invariant Valid() && half == old(half)[rw := half[rw]]
        invariant half[rw].nr == old(half[rw].nr) && half[rw].total == old(half[rw].total)
        invariant multiset(taken) + LoadOf(half[rw], |up|) == LoadOf(old(half[rw]), |up|)
        decreases |LoadOf(half[rw], |up|)|
      {
        PopLoad(up, half[rw], |up|, |up|);
        var bio := PopOne(rw);
        taken := taken + [bio];
      }
    }

    /**
     * The first half of `blk_throtl_dispatch_work_fn`, under the lock: all reads and then all writes that reached the
     * device are put on the worker's list, which it then issues from the front without the lock.
     */
    method TakeDispatched() returns (list: seq<Bio>, ghost nrReads: nat)
      requires Valid()
      modifies this`half, this`refs
      ensures Valid() && half[0].queued[|up|] == half[1].queued[|up|] == []
      ensures half[0].nr == old(half[0].nr) && half[1].nr == old(half[1].nr)
      ensures nrReads <= |list| && multiset(list[..nrReads]) == LoadOf(old(half[0]), |up|)
      ensures multiset(list[nrReads..]) == LoadOf(old(half[1]), |up|)
    {
      var first := PopAll(0);
      var second := PopAll(1);
      list, nrReads := first + second, |first|;
      assert list[..nrReads] == first && list[nrReads..] == second;
    }

    /** The walk, children before parents, and then the device itself. */
    method DrainTree(now: nat)
      requires Valid()
      modifies this
      ensures Valid() && DrainedTo(up, old(half), half, |up| + 1) && QuietTo(up, tree, |up| + 1)
    {
      for k := 0 to |up|
        invariant Valid() && DrainedTo(up, old(half), half, k) && QuietTo(up, tree, k)
      {
        ghost var half1, tree1 := half, tree;
        TgDrainBios(k, now);
        DrainStep(up, old(half), half1, half, k);
        QuietStep(up, tree1, tree, k);
      }
      ghost var half1, tree1 := half, tree;
      TgDrainBios(|up|, now);
      DrainStep(up, old(half), half1, half, |up|);
      QuietStep(up, tree1, tree, |up|);
    }

    /** Every queued bio is issued, once, and nothing is left queued, counted, pending or referenced. */
    method BlkThrotlDrain(now: nat) returns (issuedReads: seq<Bio>, issuedWrites: seq<Bio>)
      requires Valid()
      modifies this
      ensures Valid() && Idle(up, half[0]) && Idle(up, half[1])
      ensures forall g :: 0 <= g < |up| ==> refs[g] == 0 && !tree.on[g]
      ensures multiset(issuedReads) == All(old(half[0]), |up| + 1)
      ensures multiset(issuedWrites) == All(old(half[1]), |up| + 1)
    {
      DrainTree(now);
      DrainedNone(up, old(half), half);
      AllAtTop(up, half[0]);
      AllAtTop(up, half[1]);
      issuedReads := PopAll(0);
      issuedWrites := PopAll(1);
      DrainedIdle(up, half[0]);
      DrainedIdle(up, half[1]);
      forall g | 0 <= g < |up| ensures refs[g] == 0 && !tree.on[g] {
        NoRefs(up, half, refs, g);
        QuietMeans(up, tree, g);
      }
    }

    // Dispatch by rate

    /** Group `g` has bios in this direction and the rate refuses the first of them. */
    ghost predicate Refused(g: nat, rw: nat, now: nat)
      requires ValidBut(g) && g < |up| && rw < 2
      reads this
    {
      half[rw].queued[g] != [] ==>
        Held(half[rw].bios, half[rw].queued[g][0]) != [] &&
        !Rate.MayDispatch(limits[rw][g], lane[rw][g], Front(half[rw], g).size, now).ok
    }

    /** The first bio of `g` goes up if the rate allows it now: one step of the group's meter. */
    method TryDispatch(g: nat, rw: nat, now: nat) returns (ok: bool)
      requires ValidBut(g) && g < |up| && rw < 2 && half[rw].queued[g] != []
      modifies this
      ensures ValidBut(g) && half == old(half)[rw := half[rw]] && lane == old(lane)[rw := lane[rw]]
      ensures Held(old(half[rw].bios), old(half[rw].queued[g][0])) != []
      ensures ok == Rate.MayDispatch(limits[rw][g], old(lane[rw][g]), Front(old(half[rw]), g).size, now).ok
      ensures ok ==>
        && CanDispatch(up, old(half[rw]), g) && half[rw] == DispatchOne(up, old(half[rw]), g)
        && Upward(up, old(half), half, old(tree), tree, rw, g) && half[rw].nr[g] + 1 == old(half[rw].nr[g])
        && lane[rw][g] == Granted(limits[rw][g], old(lane[rw][g]), Front(old(half[rw]), g).size, now)
      ensures !ok ==> half == old(half) && tree == old(tree) && Refused(g, rw, now)
    {
      ReadyToDispatch(up, half[rw], g);
      var bio := Front(half[rw], g);
      ghost var l := lane[rw][g];
      var wait;
      ok, wait := TgMayDispatch(g, rw, bio, now);
      if ok {
        DispatchFront(g, rw, now);
      } else {
        Rate.RefusedAgain(limits[rw][g], l, bio.size, now);
      }
    }

    method DispatchFront(g: nat, rw: nat, now: nat)
      requires ValidBut(g) && g < |up| && rw < 2 && Ready(up, half[rw], g)
      modifies this
      ensures ValidBut(g) && half == old(half)[rw := half[rw]] && lane == old(lane)[rw := lane[rw]]
      ensures CanDispatch(up, old(half[rw]), g) && half[rw] == DispatchOne(up, old(half[rw]), g)
      ensures Upward(up, old(half), half, old(tree), tree, rw, g) && half[rw].nr[g] + 1 == old(half[rw].nr[g])
      ensures lane[rw][g] ==
        Rate.Trim(limits[rw][g], Rate.Charge(old(lane[rw][g]), Front(old(half[rw]), g).size), now)
    {
      ReadyCan(up, half[rw], g);
      DispatchKept(up, half[rw], g);
      DispatchTreeKept(up, tree, g);
      TgDispatchOneBio(g, rw, now);
    }

    /** One more of them. */
    method DispatchNext(g: nat, rw: nat, now: nat, ghost half0: seq<Half>, ghost tree0: Pending,
        ghost nr: nat)
      returns (ok: bool)
      requires ValidBut(g) && g < |up| && rw < 2 && half[rw].queued[g] != []
      requires |half0| == 2 && Sent(up, half0, half, tree0, tree, rw, g, nr)
      modifies this
      ensures ValidBut(g) && lane[1 - rw] == old(lane[1 - rw])
      ensures ok ==> Sent(up, half0, half, tree0, tree, rw, g, nr + 1)
      ensures !ok ==> Sent(up, half0, half, tree0, tree, rw, g, nr) && Refused(g, rw, now)
    {
      ghost var half1, tree1 := half, tree;
      ok := TryDispatch(g, rw, now);
      if ok {
        SentOne(up, half0, half1, half, tree0, tree1, tree, rw, g, nr);
      }
    }

    /** Bios of `g` go up as long as the rate allows, at most `max` of them. */
    method DispatchDirection(g: nat, rw: nat, max: nat, now: nat) returns (nr: nat)
      requires ValidBut(g) && g < |up| && rw < 2 && 0 < max
      modifies this
      ensures ValidBut(g) && lane[1 - rw] == old(lane[1 - rw]) && nr <= max
      ensures Sent(up, old(half), half, old(tree), tree, rw, g, nr)
      ensures nr < max ==> Refused(g, rw, now)
    {
      nr := 0;
      SentNone(up, half, tree, rw, g);
      while half[rw].queued[g] != [] && nr < max
        invariant ValidBut(g) && lane[1 - rw] == old(lane[1 - rw]) && nr <= max
        invariant Sent(up, old(half), half, old(tree), tree, rw, g, nr)
        decreases max - nr
      {
        var ok := DispatchNext(g, rw, now, old(half), old(tree), nr);
        if !ok {
          return;
        }
        nr := nr + 1;
      }
    }

    /** A turn of a group: up to 6 reads and 2 writes go up, and fewer only if there are no more or the rate refuses. */
    method DispatchTg(g: nat, now: nat) returns (nrReads: nat, nrWrites: nat)
      requires ValidBut(g) && g < |up|
      modifies this
      ensures ValidBut(g) && nrReads <= 6 && nrWrites <= 2 && SqKept(up, old(half), half, up[g])
      ensures half[0].nr[g] + nrReads == old(half[0].nr[g]) && half[1].nr[g] + nrWrites == old(half[1].nr[g])
      ensures OthersKept(up, old(tree), tree, Above(up, up[g]), Above(up, up[g]))
      ensures nrReads < 6 ==> Refused(g, 0, now)
      ensures nrWrites < 2 ==> Refused(g, 1, now)
      ensures nrReads == nrWrites == 0 ==> half == old(half) && tree == old(tree)
    {
      var maxReads := GRP_QUANTUM * 3 / 4;
      nrReads := DispatchDirection(g, 0, maxReads, now);
      ghost var half1, tree1 := half, tree;
      nrWrites := DispatchDirection(g, 1, GRP_QUANTUM - maxReads, now);
      OneKept(up, old(half), half1, half, g);
      OthersTrans(up, old(tree), tree1, tree, Above(up, up[g]), Above(up, up[g]));
    }

    method WaitOf(g: nat, rw: nat, now: nat) returns (wait: nat)
      requires Shaped() && |half| == 2 && rw < 2 && HalfOk(up, half[rw]) && g < |up|
      modifies this`lane
      ensures Shaped() && FrontOk(half[rw], g)
      ensures lane == WithLane(old(lane), rw, g, AskedFor(limits[rw][g], old(lane[rw][g]), half[rw], g, now))
      ensures wait == WaitFor(limits[rw][g], old(lane[rw][g]), half[rw], g, now)
    {
      wait := U64 - 1;
      WithLaneAgain(lane, rw, g, lane[rw][g], lane[rw][g]);
      if half[rw].queued[g] != [] {
        ReadyToDispatch(up, half[rw], g);
        var ok;
        ok, wait := TgMayDispatch(g, rw, Front(half[rw], g), now);
      }
    }

    method WaitsOf(g: nat, now: nat) returns (readWait: nat, writeWait: nat)
      requires Shaped() && |half| == 2 && HalfOk(up, half[0]) && HalfOk(up, half[1]) && g < |up|
      modifies this`lane
      ensures Shaped() && FrontOk(half[0], g) && FrontOk(half[1], g) && OnlyLane(old(lane), lane, g)
      ensures lane[0][g] == AskedFor(limits[0][g], old(lane[0][g]), half[0], g, now)
      ensures lane[1][g] == AskedFor(limits[1][g], old(lane[1][g]), half[1], g, now)
      ensures readWait == WaitFor(limits[0][g], old(lane[0][g]), half[0], g, now)
      ensures writeWait == WaitFor(limits[1][g], old(lane[1][g]), half[1], g, now)
    {
      readWait := WaitOf(g, 0, now);
      writeWait := WaitOf(g, 1, now);
    }

    /** The group is pending again, under the time its first bio may go. */
    method UpdateDisptime(g: nat, now: nat) returns (wait: nat)
      requires ValidBut(g) && g < |up|
      modifies this`lane, this`tree, this`wasEmpty
      ensures Valid() && tree == Requeue(up, old(tree), g, now + wait) && tree.time[g] == now + wait
      ensures wasEmpty == old(wasEmpty)[g := false]
      ensures FrontOk(half[0], g) && FrontOk(half[1], g) && OnlyLane(old(lane), lane, g)
      ensures lane[0][g] == AskedFor(limits[0][g], old(lane[0][g]), half[0], g, now)
      ensures lane[1][g] == AskedFor(limits[1][g], old(lane[1][g]), half[1], g, now)
      ensures wait == Least(WaitFor(limits[0][g], old(lane[0][g]), half[0], g, now),
                            WaitFor(limits[1][g], old(lane[1][g]), half[1], g, now))
    {
      var readWait, writeWait := WaitsOf(g, now);
      wait := Least(readWait, writeWait);
      Repend(g, now + wait);
    }

    method Repend(g: nat, at: nat)
      requires ValidBut(g) && g < |up|
      modifies this`tree, this`wasEmpty
      ensures Valid() && tree == Requeue(up, old(tree), g, at) && tree.time[g] == at
      ensures wasEmpty == old(wasEmpty)[g := false]
    {
      RequeueInv(up, half, tree, refs, g, g, at);
      RequeueKeeps(up, tree, g, at);
      tree := Requeue(up, tree, g, at);
      wasEmpty := wasEmpty[g := false];
    }

    /** After its turn a group with bios left is pending again, later than now if the rate refused them all. */
    method Settle(g: nat, nr: nat, now: nat)
      requires ValidBut(g) && g < |up| && (nr == 0 ==> !tree.on[g] && Refused(g, 0, now) && Refused(g, 1, now))
      modifies this`lane, this`tree, this`wasEmpty
      ensures Valid() && up[g] <= |up|
      ensures nr == 0 ==> DueAt(up, tree, up[g], now) == old(DueAt(up, tree, up[g], now))
    {
      if half[0].nr[g] > 0 || half[1].nr[g] > 0 {
        if nr == 0 {
          SettleRefused(g, now);
        } else {
          var wait := UpdateDisptime(g, now);
        }
      } else {
        IdleInv(up, half, tree, refs, g);
      }
    }

    method SettleRefused(g: nat, now: nat)
      requires ValidBut(g) && g < |up| && !tree.on[g] && Refused(g, 0, now) && Refused(g, 1, now)
      requires half[0].nr[g] > 0 || half[1].nr[g] > 0
      modifies this`lane, this`tree, this`wasEmpty
      ensures Valid() && up[g] <= |up| && DueAt(up, tree, up[g], now) == old(DueAt(up, tree, up[g], now))
    {
      RefusedWaits(limits[0][g], lane[0][g], half[0], g, now);
      RefusedWaits(limits[1][g], lane[1][g], half[1], g, now);
      ghost var t := tree;
      var wait := UpdateDisptime(g, now);
      RequeueDue(up, t, g, now + wait, now);
    }

    /** The first pending child of `k`, which is due, has its turn. */
    method SelectFirst(k: nat, now: nat) returns (nr: nat)
      requires Valid() && k <= |up| && First(tree, k).Some?
      requires First(tree, k).value < |tree.time| && tree.time[First(tree, k).value] <= now
      modifies this
      ensures Valid() && nr <= GRP_QUANTUM && SqKept(up, old(half), half, k)
      ensures nr == 0 ==> DueAt(up, tree, k, now) < old(DueAt(up, tree, k, now))
    {
      TakeDue(up, tree, k, now);
      ghost var due := DueAt(up, tree, k, now);
      var g := TakeFirst(k);
      assert DueAt(up, tree, k, now) == due - 1;
      nr := Turn(g, now);
    }

    method Turn(g: nat, now: nat) returns (nr: nat)
      requires ValidBut(g) && g < |up| && !tree.on[g]
      modifies this
      ensures Valid() && nr <= GRP_QUANTUM && up[g] <= |up| && SqKept(up, old(half), half, up[g])
      ensures nr == 0 ==> DueAt(up, tree, up[g], now) == old(DueAt(up, tree, up[g], now))
    {
      var nrReads, nrWrites := DispatchTg(g, now);
      nr := nrReads + nrWrites;
      Settle(g, nr, now);
    }

    /**
     * Children of `k` that are due have their turns, least dispatch time first, until enough bios went up. The clock is
     * read for each child; it does not go back, and not past `end` during the call. `now` is its last reading.
     */
    method SelectDispatch(k: nat, clock: nat -> nat, ghost end: nat) returns (nr: nat, now: nat)
      requires Valid() && k <= |up| && Ticks(clock, end)
      modifies this
      ensures Valid() && SqKept(up, old(half), half, k) && nr < QUANTUM + GRP_QUANTUM && clock(0) <= now <= end
      ensures nr < QUANTUM ==> NoneDue(tree, k, now)
    {
      var round: nat := 0;
      SqSame(up, half, k);
      TicksFrom(clock, end, 0);
      nr, now := 0, clock(0);
      while nr < QUANTUM
        invariant Valid() && SqKept(up, old(half), half, k) && nr < QUANTUM + GRP_QUANTUM && clock(0) <= now <= end
        decreases QUANTUM + GRP_QUANTUM - nr, TimeLeft(clock, end, round), DueAt(up, tree, k, clock(round))
      {
        now := clock(round);
        TicksFrom(clock, end, round);
        var due, n := SelectDue(k, now, old(half));
        if !due {
          return;
        }
        nr, round := nr + n, round + 1;
      }
    }

    /** The first pending child of `k`, if one is due. */
    method SelectDue(k: nat, now: nat, ghost half0: seq<Half>) returns (due: bool, nr: nat)
      requires Valid() && k <= |up| && SqKept(up, half0, half, k)
      modifies this
      ensures Valid() && SqKept(up, half0, half, k) && nr <= GRP_QUANTUM
      ensures !due ==> NoneDue(tree, k, now)
      ensures due && nr == 0 ==> DueAt(up, tree, k, now) < old(DueAt(up, tree, k, now))
    {
      FirstIsLeast(up, tree, k);
      if First(tree, k).None? || now < tree.time[First(tree, k).value] {
        return false, 0;
      }
      ghost var half1 := half;
      nr := SelectFirst(k, now);
      SqTrans(up, half0, half1, half, k);
      due := true;
    }

    // A new bio

    /**
     * A bio climbs from its group as long as nothing is queued ahead of it and the rates allow. It is queued at the
     * first group that stops it, behind the levels it passed, or else may be issued by its caller.
     */
    method BlkThrotlBio(bio: Bio, rw: nat, now: nat) returns (throttled: bool, ghost at: Qnode)
      requires Valid() && bio.tg < |up| && rw < 2
      modifies this
      ensures Valid()
      ensures !throttled ==>
        && half == old(half) && tree == old(tree) && refs == old(refs)
        && EmptyBelow(up, old(half[rw].nr), bio.tg, |up|)
        && PassedTo(up, limits[rw], old(lane[rw]), lane[rw], bio.tg, |up|, bio.size, now)
      ensures throttled ==>
        && Entry(up, bio.tg, at) && Home(up, at) < |up| && EmptyBelow(up, old(half[rw].nr), bio.tg, Home(up, at))
        && half == old(half)[rw := Submit(up, old(half[rw]), at, bio)]
        && PassedTo(up, limits[rw], old(lane[rw]), lane[rw], bio.tg, Home(up, at), bio.size, now)
        && (old(half[rw].nr[Home(up, at)]) == 0 ==>
             var d := Rate.MayDispatch(limits[rw][Home(up, at)], old(lane[rw][Home(up, at)]), bio.size, now);
             !d.ok && lane[rw][Home(up, at)] == d.lane && tree.time[Home(up, at)] <= now + d.wait)
    {
      var s := bio.tg;
      var g, q := s, Qnode(s, false);
      ClimbStart(up, half[rw].nr, s);
      PassStart(up, limits[rw], lane[rw], s, bio.size, now);
      while half[rw].nr[g] == 0
        invariant Valid() && half == old(half) && tree == old(tree) && refs == old(refs)
        invariant g < |up| && Entry(up, s, q) && Home(up, q) == g && EmptyBelow(up, half[rw].nr, s, g)
        invariant lane == old(lane)[rw := lane[rw]] && lane[rw][g] == old(lane[rw][g])
        invariant PassedTo(up, limits[rw], old(lane[rw]), lane[rw], s, g, bio.size, now)
        decreases |up| - g
      {
        var ok := ClimbPast(bio, s, g, rw, now, old(lane[rw]));
        if !ok {
          break;
        }
        q := Qnode(g, true);
        g := up[g];
        if g == |up| {
          return false, q;
        }
      }
      at := q;
      throttled := true;
      if half[rw].nr[g] == 0 {
        Rate.RefusedAgain(limits[rw][g], old(lane[rw][g]), bio.size, now);
      }
      ghost var lanes := lane[rw];
      QueueBio(bio, q, g, rw, now);
      PassedOnly(up, limits[rw], old(lane[rw]), lanes, lane[rw], s, g, bio.size, now);
    }

    /** One group on the way up, since the slices stood at `lanes`. */
    method ClimbPast(bio: Bio, s: nat, g: nat, rw: nat, now: nat, ghost lanes: seq<Rate.Lane>) returns (ok: bool)
      requires Valid() && rw < 2 && g < |up| && half[rw].nr[g] == 0 && |lanes| == |up| && lane[rw][g] == lanes[g]
      requires Reach(up, s, g) && EmptyBelow(up, half[rw].nr, s, g)
      requires PassedTo(up, limits[rw], lanes, lane[rw], s, g, bio.size, now)
      modifies this`lane
      ensures Valid() && lane == old(lane)[rw := lane[rw]]
      ensures ok ==>
        && Reach(up, s, up[g]) && EmptyBelow(up, half[rw].nr, s, up[g])
        && PassedTo(up, limits[rw], lanes, lane[rw], s, up[g], bio.size, now)
        && (up[g] < |up| ==> lane[rw][up[g]] == lanes[up[g]])
      ensures !ok ==>
        && PassedTo(up, limits[rw], lanes, lane[rw], s, g, bio.size, now)
        && !Rate.MayDispatch(limits[rw][g], lanes[g], bio.size, now).ok
        && lane[rw][g] == Rate.MayDispatch(limits[rw][g], lanes[g], bio.size, now).lane
    {
      ghost var was := lane[rw];
      ok := LetPass(bio, g, rw, now);
      PassedSet(up, limits[rw], lanes, was, s, g, bio.size, now, lane[rw][g]);
      if ok {
        ClimbOne(up, half[rw].nr, s, g);
        PassOne(up, limits[rw], lanes, lane[rw], s, g, bio.size, now);
      }
    }

    /** A bio is charged to a group that allows it, and the group's slice trimmed. */
    method LetPass(bio: Bio, g: nat, rw: nat, now: nat) returns (ok: bool)
      requires Shaped() && g < |up| && |half| == 2 && rw < 2 && g < |half[rw].nr| && half[rw].nr[g] == 0
      modifies this`lane
      ensures Shaped() && lane == WithLane(old(lane), rw, g, lane[rw][g])
      ensures ok == Rate.MayDispatch(limits[rw][g], old(lane[rw][g]), bio.size, now).ok
      ensures ok ==> lane[rw][g] == Granted(limits[rw][g], old(lane[rw][g]), bio.size, now)
      ensures !ok ==> lane[rw][g] == Rate.MayDispatch(limits[rw][g], old(lane[rw][g]), bio.size, now).lane
    {
      var wait;
      ok, wait := TgMayDispatch(g, rw, bio, now);
      if ok {
        ghost var l := lane[rw][g];
        ChargeBio(g, rw, bio.size);
        ghost var l' := lane[rw][g];
        TrimSlice(g, rw, now);
        WithLaneAgain(old(lane), rw, g, l, l');
        WithLaneAgain(old(lane), rw, g, l', lane[rw][g]);
      }
    }

    method QueueBio(bio: Bio, q: Qnode, g: nat, rw: nat, now: nat)
      requires Valid() && rw < 2 && g < |up| && q.tg < |up| && Home(up, q) == g
      modifies this
      ensures Valid() && half == old(half)[rw := Submit(up, old(half[rw]), q, bio)] && OnlyLane(old(lane), lane, g)
      ensures old(half[rw].nr[g]) == 0 ==>
        var d := Rate.MayDispatch(limits[rw][g], old(lane[rw][g]), bio.size, now);
        lane[rw][g] == d.lane && tree.time[g] <= now + d.wait
    {
      ghost var first := half[rw].nr[g] == 0;
      if first {
        FirstQueued(up, half[rw], q, bio);
      }
      SubmitInv(up, half, tree, refs, rw, q, bio);
      AddQueued(bio, q, g, rw);
      if wasEmpty[g] {
        Retime(g, rw, now, first);
      }
    }

    method Retime(g: nat, rw: nat, now: nat, ghost first: bool)
      requires Valid() && rw < 2 && g < |up| && (first ==> half[rw].queued[g] != [] && FrontOk(half[rw], g))
      modifies this`lane, this`tree, this`wasEmpty
      ensures Valid() && OnlyLane(old(lane), lane, g)
      ensures first ==>
        var d := Rate.MayDispatch(limits[rw][g], old(lane[rw][g]), Front(half[rw], g).size, now);
        lane[rw][g] == d.lane && tree.time[g] <= now + d.wait
    {
      var wait := UpdateDisptime(g, now);
    }

    method AddQueued(bio: Bio, q: Qnode, g: nat, rw: nat)
      requires Shaped() && |half| == 2 && rw < 2 && q.tg < |up| == |refs| && g < |up| && Home(up, q) == g
      requires |half[rw].queued| == |up| + 1 && |half[rw].nr| == |up| && IsTree(up) && PendingOk(up, tree)
      modifies this`half, this`refs, this`tree, this`wasEmpty
      ensures Shaped()
      ensures half == old(half)[rw := Submit(up, old(half[rw]), q, bio)]
      ensures refs == AddRef(old(refs), q.tg, q !in old(half[rw].queued[g]))
      ensures tree == Enqueue(up, old(tree), g)
      ensures old(half[rw].nr[g]) == 0 ==> wasEmpty[g]
    {
      half := half[rw := half[rw].(total := half[rw].total + 1)];
      AddBioTg(bio, q, g, rw);
    }
  }

  lemma SlicesPass(n: nat, slice: nat)
    requires 0 < n && 0 < slice
    ensures 0 < n * slice
  {
  }

  lemma PassStart(up: seq<nat>, limits: seq<Rate.Limits>, lanes: seq<Rate.Lane>, s: nat, size: nat, now: nat)
    requires |limits| == |lanes| == |up| && forall x :: 0 <= x < |up| ==> limits[x].Valid()
    ensures PassedTo(up, limits, lanes, lanes, s, s, size, now)
  {
    forall x | 0 <= x < s ensures !Reach(up, s, x) {
      if Reach(up, s, x) {
        ReachAbove(up, s, x);
      }
    }
  }

  lemma PassedSet(up: seq<nat>, limits: seq<Rate.Limits>, lanes: seq<Rate.Lane>, lanes': seq<Rate.Lane>, s: nat,
      g: nat, size: nat, now: nat, l: Rate.Lane)
    requires |limits| == |lanes| == |lanes'| == |up| && (forall x :: 0 <= x < |up| ==> limits[x].Valid()) && g < |up|
    requires PassedTo(up, limits, lanes, lanes', s, g, size, now)
    ensures PassedTo(up, limits, lanes, lanes'[g := l], s, g, size, now)
  {
  }

  lemma PassedOnly(up: seq<nat>, limits: seq<Rate.Limits>, lanes: seq<Rate.Lane>, lanes1: seq<Rate.Lane>,
      lanes2: seq<Rate.Lane>, s: nat, g: nat, size: nat, now: nat)
    requires |limits| == |lanes| == |lanes1| == |lanes2| == |up| && (forall x :: 0 <= x < |up| ==> limits[x].Valid())
    requires PassedTo(up, limits, lanes, lanes1, s, g, size, now)
    requires forall x :: 0 <= x < |up| && x != g ==> lanes2[x] == lanes1[x]
    ensures PassedTo(up, limits, lanes, lanes2, s, g, size, now)
  {
  }

  /** One more group on the way up. */
  lemma PassOne(up: seq<nat>, limits: seq<Rate.Limits>, lanes: seq<Rate.Lane>, lanes': seq<Rate.Lane>, s: nat, g: nat,
      size: nat, now: nat)
    requires |limits| == |lanes| == |lanes'| == |up| && (forall x :: 0 <= x < |up| ==> limits[x].Valid())
    requires IsTree(up) && g < |up| && Reach(up, s, g) && PassedTo(up, limits, lanes, lanes', s, g, size, now)
    requires Rate.MayDispatch(limits[g], lanes[g], size, now).ok && lanes'[g] == Granted(limits[g], lanes[g], size, now)
    ensures PassedTo(up, limits, lanes, lanes', s, up[g], size, now)
    ensures up[g] < |up| ==> lanes'[up[g]] == lanes[up[g]]
  {
    forall x | g < x < up[g] ensures !Reach(up, s, x) {
      if Reach(up, s, x) {
        ReachLine(up, s, g, x);
      }
    }
  }
}
