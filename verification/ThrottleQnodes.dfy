/**
 * Bios waiting in a tree of throttle groups, in one direction (block/blk-throttle.c). Groups are numbered so that
 * children come before their parent; the number after the last group is the device's own service queue.
 */
module ThrottleQnodes {
  import opened Sums

  /** A bio of group `tg`. */
  datatype Bio = Bio(id: nat, size: nat, tg: nat)

  /** Each group has a qnode for its own bios and one for the bios it passes to its parent. */
  datatype Qnode = Qnode(tg: nat, onParent: bool)

  /** The lists of qnodes on each service queue, the bios on each qnode, nr_queued of each group and of the device. */
  datatype Half = Half(queued: seq<seq<Qnode>>, bios: map<Qnode, seq<Bio>>, nr: seq<nat>, total: nat)

  ghost predicate IsTree(up: seq<nat>) {
    forall g :: 0 <= g < |up| ==> g < up[g] <= |up|
  }

  /** `x` is `s` or above it, up to the device. */
  ghost predicate Reach(up: seq<nat>, s: nat, x: nat)
    decreases |up| - s
  {
    s == x || (s < |up| && s < up[s] <= |up| && Reach(up, up[s], x))
  }

  /** The way up is a line: of two groups above `s`, the higher is above the lower. */
  lemma {:induction false} ReachLine(up: seq<nat>, s: nat, g: nat, x: nat)
    requires IsTree(up) && Reach(up, s, g) && Reach(up, s, x) && g < x
    ensures g < |up| && Reach(up, up[g], x) && up[g] <= x
    decreases |up| - s
  {
    if s == g {
      ReachAbove(up, up[g], x);
    } else {
      ReachAbove(up, up[s], g);
      ReachLine(up, up[s], g, x);
    }
  }

  lemma {:induction false} ReachAbove(up: seq<nat>, s: nat, x: nat)
    requires Reach(up, s, x)
    ensures s <= x
    decreases |up| - s
  {
    if s != x {
      ReachAbove(up, up[s], x);
    }
  }

  lemma {:induction false} ReachNext(up: seq<nat>, s: nat, g: nat)
    requires IsTree(up) && Reach(up, s, g) && g < |up|
    ensures Reach(up, s, up[g])
    decreases |up| - s
  {
    if s != g {
      ReachAbove(up, up[s], g);
      ReachNext(up, up[s], g);
    }
  }

  function Held(bios: map<Qnode, seq<Bio>>, q: Qnode): seq<Bio> {
    if q in bios then bios[q] else []
  }

  /** The service queue a qnode is listed on. */
  function Home(up: seq<nat>, q: Qnode): nat
    requires q.tg < |up|
  {
    if q.onParent then up[q.tg] else q.tg
  }

  ghost predicate Unique(list: seq<Qnode>) {
    forall i, j :: 0 <= i < j < |list| ==> list[i] != list[j]
  }

  ghost predicate ListOk(up: seq<nat>, bios: map<Qnode, seq<Bio>>, list: seq<Qnode>, k: nat) {
    Unique(list) && forall q :: q in list ==> q.tg < |up| && Home(up, q) == k && Held(bios, q) != []
  }

  /** A qnode is listed, once and on its own service queue, if and only if it holds bios. */
  ghost predicate Placed(up: seq<nat>, h: Half) {
    && |h.queued| == |up| + 1 && |h.nr| == |up|
    && (forall k {:trigger ListOk(up, h.bios, h.queued[k], k)} :: 0 <= k <= |up| ==> ListOk(up, h.bios, h.queued[k], k))
    && (forall q :: Held(h.bios, q) != [] ==> q.tg < |up| && Home(up, q) <= |up| && q in h.queued[Home(up, q)])
  }

  /** The bios on a list of qnodes. */
  ghost function Load(bios: map<Qnode, seq<Bio>>, list: seq<Qnode>): multiset<Bio> {
    if list == [] then multiset{} else multiset(Held(bios, list[0])) + Load(bios, list[1..])
  }

  ghost function LoadOf(h: Half, k: nat): multiset<Bio>
    requires k < |h.queued|
  {
    Load(h.bios, h.queued[k])
  }

  /** Every counter agrees with the bios it stands for. */
  ghost predicate Counted(h: Half) {
    && |h.nr| < |h.queued|
    && (forall k {:trigger LoadOf(h, k)} :: 0 <= k < |h.nr| ==> h.nr[k] == |LoadOf(h, k)|)
    && h.total == Sum(h.nr)
  }

  /** `throtl_qnode_add_bio`. */
  function QnodeAdd(up: seq<nat>, h: Half, q: Qnode, b: Bio): Half
    requires q.tg < |up| && Home(up, q) < |h.queued|
  {
    var k := Home(up, q);
    h.(bios := h.bios[q := Held(h.bios, q) + [b]],
       queued := if q in h.queued[k] then h.queued else h.queued[k := h.queued[k] + [q]])
  }

  /** `throtl_pop_queued`: the first qnode gives a bio and goes to the end, or off the list if it has no more. */
  function Pop(h: Half, k: nat): Half
    requires k < |h.queued| && h.queued[k] != [] && Held(h.bios, h.queued[k][0]) != []
  {
    var q, rest := h.queued[k][0], h.queued[k][1..];
    var left := Held(h.bios, q)[1..];
    h.(bios := h.bios[q := left], queued := h.queued[k := if left == [] then rest else rest + [q]])
  }

  function Front(h: Half, k: nat): Bio
    requires k < |h.queued| && h.queued[k] != [] && Held(h.bios, h.queued[k][0]) != []
  {
    Held(h.bios, h.queued[k][0])[0]
  }

  // Loads under the changes of one qnode

  lemma {:induction false} LoadSame(bios: map<Qnode, seq<Bio>>, bios': map<Qnode, seq<Bio>>, list: seq<Qnode>)
    requires forall q :: q in list ==> Held(bios', q) == Held(bios, q)
    ensures Load(bios', list) == Load(bios, list)
  {
    if list != [] {
      LoadSame(bios, bios', list[1..]);
    }
  }

  lemma {:induction false} LoadAppend(bios: map<Qnode, seq<Bio>>, list: seq<Qnode>, q: Qnode)
    ensures Load(bios, list + [q]) == Load(bios, list) + multiset(Held(bios, q))
  {
    if list == [] {
      assert ([q])[1..] == [];
      assert list + [q] == [q];
    } else {
      assert (list + [q])[1..] == list[1..] + [q];
      LoadAppend(bios, list[1..], q);
    }
  }

  lemma {:induction false} LoadBump(bios: map<Qnode, seq<Bio>>, list: seq<Qnode>, q: Qnode, b: Bio)
    requires Unique(list) && q in list
    ensures Load(bios[q := Held(bios, q) + [b]], list) == Load(bios, list) + multiset{b}
  {
    var bios' := bios[q := Held(bios, q) + [b]];
    var rest := list[1..];
    if list[0] == q {
      assert q !in rest;
      LoadSame(bios, bios', rest);
      assert multiset(Held(bios', q)) == multiset(Held(bios, q)) + multiset{b};
      Swap(multiset(Held(bios, q)), multiset{b}, Load(bios, rest));
    } else {
      LoadBump(bios, rest, q, b);
      Later(multiset(Held(bios, list[0])), Load(bios, rest), multiset{b});
    }
  }

  lemma Swap(a: multiset<Bio>, x: multiset<Bio>, c: multiset<Bio>)
    ensures a + x + c == a + c + x
  {
  }

  lemma Later(a: multiset<Bio>, c: multiset<Bio>, x: multiset<Bio>)
    ensures a + (c + x) == a + c + x
  {
  }

  lemma LoadNew(bios: map<Qnode, seq<Bio>>, list: seq<Qnode>, q: Qnode, b: Bio)
    requires q !in list && Held(bios, q) == []
    ensures Load(bios[q := Held(bios, q) + [b]], list + [q]) == Load(bios, list) + multiset{b}
  {
    var bios' := bios[q := Held(bios, q) + [b]];
    LoadSame(bios, bios', list);
    LoadAppend(bios', list, q);
    assert Held(bios', q) == [b];
  }

  lemma AddLoad(up: seq<nat>, h: Half, q: Qnode, b: Bio, k: nat)
    requires Placed(up, h) && q.tg < |up| && Home(up, q) <= |up| && k <= |up|
    ensures LoadOf(QnodeAdd(up, h, q, b), k) == LoadOf(h, k) + (if k == Home(up, q) then multiset{b} else multiset{})
  {
    var h' := QnodeAdd(up, h, q, b);
    assert ListOk(up, h.bios, h.queued[k], k);
    if k != Home(up, q) {
      LoadSame(h.bios, h'.bios, h.queued[k]);
    } else if q in h.queued[k] {
      LoadBump(h.bios, h.queued[k], q, b);
    } else {
      assert Held(h.bios, q) == [];
      LoadNew(h.bios, h.queued[k], q, b);
    }
  }

  lemma AddList(up: seq<nat>, h: Half, q: Qnode, b: Bio, k: nat)
    requires Placed(up, h) && q.tg < |up| && Home(up, q) <= |up| && k <= |up|
    ensures ListOk(up, QnodeAdd(up, h, q, b).bios, QnodeAdd(up, h, q, b).queued[k], k)
  {
    assert ListOk(up, h.bios, h.queued[k], k);
  }

  lemma AddPlaced(up: seq<nat>, h: Half, q: Qnode, b: Bio)
    requires Placed(up, h) && q.tg < |up| && Home(up, q) <= |up|
    ensures Placed(up, QnodeAdd(up, h, q, b))
  {
    var h' := QnodeAdd(up, h, q, b);
    forall k | 0 <= k <= |up| ensures ListOk(up, h'.bios, h'.queued[k], k) {
      AddList(up, h, q, b, k);
    }
    forall x | Held(h'.bios, x) != [] ensures x.tg < |up| && Home(up, x) <= |up| && x in h'.queued[Home(up, x)] {
      assert x != q ==> Held(h.bios, x) != [];
    }
  }

  lemma PopLoad(up: seq<nat>, h: Half, k: nat, j: nat)
    requires Placed(up, h) && k <= |up| && j <= |up| && h.queued[k] != []
    ensures Held(h.bios, h.queued[k][0]) != []
    ensures LoadOf(h, j) == LoadOf(Pop(h, k), j) + (if j == k then multiset{Front(h, k)} else multiset{})
  {
    assert ListOk(up, h.bios, h.queued[k], k) && ListOk(up, h.bios, h.queued[j], j);
    var q, rest := h.queued[k][0], h.queued[k][1..];
    var had := Held(h.bios, q);
    var bios' := h.bios[q := had[1..]];
    if j != k {
      LoadSame(h.bios, bios', h.queued[j]);
    } else {
      assert q !in rest;
      LoadSame(h.bios, bios', rest);
      LoadAppend(bios', rest, q);
      assert had == [had[0]] + had[1..];
    }
  }

  lemma PopList(up: seq<nat>, h: Half, k: nat, j: nat)
    requires Placed(up, h) && k <= |up| && j <= |up| && h.queued[k] != [] && Held(h.bios, h.queued[k][0]) != []
    ensures ListOk(up, Pop(h, k).bios, Pop(h, k).queued[j], j)
  {
    assert ListOk(up, h.bios, h.queued[k], k) && ListOk(up, h.bios, h.queued[j], j);
    var rest := h.queued[k][1..];
    assert h.queued[k][0] !in rest;
  }

  lemma PopPlaced(up: seq<nat>, h: Half, k: nat)
    requires Placed(up, h) && k <= |up| && h.queued[k] != [] && Held(h.bios, h.queued[k][0]) != []
    ensures Placed(up, Pop(h, k))
  {
    var h' := Pop(h, k);
    forall j | 0 <= j <= |up| ensures ListOk(up, h'.bios, h'.queued[j], j) {
      PopList(up, h, k, j);
    }
    assert ListOk(up, h.bios, h.queued[k], k);
    forall x | Held(h'.bios, x) != [] ensures x.tg < |up| && Home(up, x) <= |up| && x in h'.queued[Home(up, x)] {
      assert Held(h.bios, x) != [];
      assert h.queued[k] == [h.queued[k][0]] + h.queued[k][1..];
    }
  }

  // A bio moves up one level

  /** One bio, or none. */
  ghost function When(p: bool, b: Bio): multiset<Bio> {
    if p then multiset{b} else multiset{}
  }

  /** The first bio of group `g` is taken off its queue. */
  function Take(h: Half, g: nat): Half
    requires g < |h.queued| && h.queued[g] != [] && Held(h.bios, h.queued[g][0]) != [] && g < |h.nr| && 0 < h.nr[g]
  {
    Pop(h, g).(nr := h.nr[g := h.nr[g] - 1])
  }

  /** A bio of group `g` is queued on the parent, or on the device, which then has one less to wait for. */
  function Pass(up: seq<nat>, h: Half, g: nat, b: Bio): Half
    requires g < |up| && up[g] <= |up| && |up| == |h.nr| && |h.queued| == |up| + 1 && (up[g] == |up| ==> 0 < h.total)
  {
    var h1 := QnodeAdd(up, h, Qnode(g, true), b);
    if up[g] < |up| then h1.(nr := h1.nr[up[g] := h1.nr[up[g]] + 1]) else h1.(total := h1.total - 1)
  }

  /** `tg_dispatch_one_bio`, as far as queues and counters go. */
  function DispatchOne(up: seq<nat>, h: Half, g: nat): Half
    requires g < |up| && up[g] <= |up| && |up| == |h.nr| && |h.queued| == |up| + 1
    requires h.queued[g] != [] && Held(h.bios, h.queued[g][0]) != [] && 0 < h.nr[g] && g < up[g]
    requires up[g] == |up| ==> 0 < h.total
  {
    Pass(up, Take(h, g), g, Front(h, g))
  }

  ghost predicate HalfOk(up: seq<nat>, h: Half) {
    IsTree(up) && Placed(up, h) && Counted(h)
  }

  lemma {:induction false} SumAtLeast(s: seq<nat>, i: nat)
    requires i < |s|
    ensures s[i] <= Sum(s)
  {
    if i > 0 {
      SumAtLeast(s[1..], i - 1);
    }
  }

  /** A group with a qnode listed has a bio at its front and is counted, and so is the device: no counter underflows. */
  lemma ReadyToDispatch(up: seq<nat>, h: Half, g: nat)
    requires HalfOk(up, h) && g < |up| && h.queued[g] != []
    ensures Held(h.bios, h.queued[g][0]) != [] && 0 < h.nr[g] <= h.total
    ensures Front(h, g) in LoadOf(h, g)
  {
    PopLoad(up, h, g, g);
    SumAtLeast(h.nr, g);
  }

  lemma DispatchLoad(up: seq<nat>, h: Half, g: nat, k: nat)
    requires HalfOk(up, h) && g < |up| && h.queued[g] != [] && k <= |up|
    requires Held(h.bios, h.queued[g][0]) != [] && 0 < h.nr[g] <= h.total
    ensures LoadOf(DispatchOne(up, h, g), k) + When(k == g, Front(h, g)) == LoadOf(h, k) + When(k == up[g], Front(h, g))
  {
    PopPlaced(up, h, g);
    PopLoad(up, h, g, k);
    var h1 := Pop(h, g).(nr := h.nr[g := h.nr[g] - 1]);
    PlacedNr(up, Pop(h, g), h1.nr);
    AddLoad(up, h1, Qnode(g, true), Front(h, g), k);
  }

  lemma PlacedNr(up: seq<nat>, h: Half, nr: seq<nat>)
    requires Placed(up, h) && |nr| == |up|
    ensures Placed(up, h.(nr := nr))
  {
  }

  lemma DispatchPlaced(up: seq<nat>, h: Half, g: nat)
    requires HalfOk(up, h) && g < |up| && h.queued[g] != []
    requires Held(h.bios, h.queued[g][0]) != [] && 0 < h.nr[g] <= h.total
    ensures Placed(up, DispatchOne(up, h, g))
  {
    PopPlaced(up, h, g);
    var h1 := Pop(h, g).(nr := h.nr[g := h.nr[g] - 1]);
    PlacedNr(up, Pop(h, g), h1.nr);
    AddPlaced(up, h1, Qnode(g, true), Front(h, g));
    var h2 := QnodeAdd(up, h1, Qnode(g, true), Front(h, g));
    PlacedNr(up, h2, DispatchOne(up, h, g).nr);
  }

  lemma Sizes(now: multiset<Bio>, was: multiset<Bio>, b: Bio, out: bool, in': bool)
    requires now + When(out, b) == was + When(in', b)
    ensures |now| + (if out then 1 else 0) == |was| + (if in' then 1 else 0)
  {
    assert |now + When(out, b)| == |now| + (if out then 1 else 0);
    assert |was + When(in', b)| == |was| + (if in' then 1 else 0);
  }

  lemma DispatchSize(up: seq<nat>, h: Half, g: nat, k: nat)
    requires HalfOk(up, h) && g < |up| && h.queued[g] != [] && k <= |up|
    requires Held(h.bios, h.queued[g][0]) != [] && 0 < h.nr[g] <= h.total
    ensures |LoadOf(DispatchOne(up, h, g), k)| + (if k == g then 1 else 0) ==
            |LoadOf(h, k)| + (if k == up[g] then 1 else 0)
  {
    DispatchLoad(up, h, g, k);
    Sizes(LoadOf(DispatchOne(up, h, g), k), LoadOf(h, k), Front(h, g), k == g, k == up[g]);
  }

  lemma DispatchNr(up: seq<nat>, h: Half, g: nat, k: nat)
    requires g < |up| && g < up[g] <= |up| && |up| == |h.nr| && |h.queued| == |up| + 1
    requires h.queued[g] != [] && Held(h.bios, h.queued[g][0]) != [] && 0 < h.nr[g] <= h.total && k < |up|
    ensures |DispatchOne(up, h, g).nr| == |up|
    ensures DispatchOne(up, h, g).nr[k] + (if k == g then 1 else 0) == h.nr[k] + (if k == up[g] then 1 else 0)
  {
  }

  lemma DispatchTotal(up: seq<nat>, h: Half, g: nat)
    requires g < |up| && g < up[g] <= |up| && |up| == |h.nr| && |h.queued| == |up| + 1 && h.total == Sum(h.nr)
    requires h.queued[g] != [] && Held(h.bios, h.queued[g][0]) != [] && 0 < h.nr[g] <= h.total
    ensures DispatchOne(up, h, g).total == Sum(DispatchOne(up, h, g).nr)
  {
    var nr1 := h.nr[g := h.nr[g] - 1];
    SumUpdate(h.nr, g, h.nr[g] - 1);
    if up[g] < |up| {
      SumUpdate(nr1, up[g], nr1[up[g]] + 1);
    }
  }

  lemma DispatchCounts(up: seq<nat>, h: Half, g: nat)
    requires HalfOk(up, h) && g < |up| && h.queued[g] != []
    requires Held(h.bios, h.queued[g][0]) != [] && 0 < h.nr[g] <= h.total
    ensures Counted(DispatchOne(up, h, g))
  {
    var h' := DispatchOne(up, h, g);
    forall k | 0 <= k < |up| ensures h'.nr[k] == |LoadOf(h', k)| {
      DispatchSize(up, h, g, k);
      DispatchNr(up, h, g, k);
    }
    DispatchTotal(up, h, g);
  }

  lemma DispatchKeeps(up: seq<nat>, h: Half, g: nat)
    requires HalfOk(up, h) && g < |up| && h.queued[g] != []
    requires Held(h.bios, h.queued[g][0]) != [] && 0 < h.nr[g] <= h.total
    ensures HalfOk(up, DispatchOne(up, h, g))
  {
    DispatchPlaced(up, h, g);
    DispatchCounts(up, h, g);
  }

  // A bio enters the tree, or leaves it for the device

  /** A bio is queued on a group and counted there and for the device. */
  function Submit(up: seq<nat>, h: Half, q: Qnode, b: Bio): Half
    requires q.tg < |up| && Home(up, q) < |up| && |up| == |h.nr| && |h.queued| == |up| + 1
  {
    var k := Home(up, q);
    QnodeAdd(up, h, q, b).(nr := h.nr[k := h.nr[k] + 1], total := h.total + 1)
  }

  lemma SubmitKeeps(up: seq<nat>, h: Half, q: Qnode, b: Bio)
    requires HalfOk(up, h) && q.tg < |up| && Home(up, q) < |up|
    ensures HalfOk(up, Submit(up, h, q, b))
  {
    var h', h1 := Submit(up, h, q, b), QnodeAdd(up, h, q, b);
    AddPlaced(up, h, q, b);
    PlacedNr(up, h1, h'.nr);
    forall k | 0 <= k < |up| ensures h'.nr[k] == |LoadOf(h', k)| {
      SubmitSize(up, h, q, b, k);
    }
    SumUpdate(h.nr, Home(up, q), h.nr[Home(up, q)] + 1);
  }

  lemma SubmitSize(up: seq<nat>, h: Half, q: Qnode, b: Bio, k: nat)
    requires Placed(up, h) && q.tg < |up| && Home(up, q) < |up| && k <= |up|
    ensures |LoadOf(Submit(up, h, q, b), k)| == |LoadOf(h, k)| + (if k == Home(up, q) then 1 else 0)
  {
    AddLoad(up, h, q, b, k);
  }

  lemma IssueKeeps(up: seq<nat>, h: Half)
    requires HalfOk(up, h) && h.queued[|up|] != []
    ensures Held(h.bios, h.queued[|up|][0]) != [] && HalfOk(up, Pop(h, |up|))
  {
    PopLoad(up, h, |up|, |up|);
    PopPlaced(up, h, |up|);
    var h' := Pop(h, |up|);
    forall k | 0 <= k < |up| ensures h'.nr[k] == |LoadOf(h', k)| {
      PopLoad(up, h, |up|, k);
    }
  }

  // All the bios on the first `k` service queues

  ghost function All(h: Half, k: nat): multiset<Bio>
    requires k <= |h.queued|
  {
    if k == 0 then multiset{} else All(h, k - 1) + LoadOf(h, k - 1)
  }

  lemma {:induction false} AllMoved(h: Half, h': Half, b: Bio, from: nat, to: nat, k: nat)
    requires k <= |h.queued| == |h'.queued|
    requires forall j :: 0 <= j < k ==> LoadOf(h', j) + When(j == from, b) == LoadOf(h, j) + When(j == to, b)
    ensures All(h', k) + When(from < k, b) == All(h, k) + When(to < k, b)
  {
    if k > 0 {
      AllMoved(h, h', b, from, to, k - 1);
      Regroup(All(h', k - 1), LoadOf(h', k - 1), When(from < k - 1, b), When(k - 1 == from, b),
              All(h, k - 1), LoadOf(h, k - 1), When(to < k - 1, b), When(k - 1 == to, b));
      WhenSplits(from, k, b);
      WhenSplits(to, k, b);
    }
  }

  lemma WhenSplits(i: nat, k: nat, b: Bio)
    requires 0 < k
    ensures When(i < k - 1, b) + When(k - 1 == i, b) == When(i < k, b)
  {
  }

  /** Bio `b` goes from one service queue to another and all else stays. */
  ghost predicate Moved(h: Half, h': Half, b: Bio, from: nat, to: nat) {
    && |h'.queued| == |h.queued|
    && forall j {:trigger LoadOf(h', j)} :: 0 <= j < |h.queued| ==>
         LoadOf(h', j) + When(j == from, b) == LoadOf(h, j) + When(j == to, b)
  }

  lemma MovedAll(h: Half, h': Half, b: Bio, from: nat, to: nat)
    requires Moved(h, h', b, from, to) && from < |h.queued| && to < |h.queued|
    ensures All(h', |h'.queued|) == All(h, |h.queued|)
  {
    AllMoved(h, h', b, from, to, |h.queued|);
    Cancel(All(h', |h.queued|), All(h, |h.queued|), multiset{b});
  }

  lemma Cancel(a: multiset<Bio>, b: multiset<Bio>, x: multiset<Bio>)
    requires a + x == b + x
    ensures a == b
  {
    assert a == (a + x) - x;
    assert b == (b + x) - x;
  }

  /** Dispatching moves the first bio up one level and loses none. */
  lemma DispatchMoves(up: seq<nat>, h: Half, g: nat)
    requires HalfOk(up, h) && g < |up| && h.queued[g] != []
    requires Held(h.bios, h.queued[g][0]) != [] && 0 < h.nr[g] <= h.total
    ensures Moved(h, DispatchOne(up, h, g), Front(h, g), g, up[g])
  {
    var h', b := DispatchOne(up, h, g), Front(h, g);
    forall j | 0 <= j < |up| + 1 ensures LoadOf(h', j) + When(j == g, b) == LoadOf(h, j) + When(j == up[g], b) {
      DispatchLoad(up, h, g, j);
    }
  }

  lemma Regroup(a: multiset<Bio>, b: multiset<Bio>, x: multiset<Bio>, y: multiset<Bio>,
                a': multiset<Bio>, b': multiset<Bio>, x': multiset<Bio>, y': multiset<Bio>)
    requires a + x == a' + x' && b + y == b' + y'
    ensures (a + b) + (x + y) == (a' + b') + (x' + y')
  {
    assert (a + b) + (x + y) == (a + x) + (b + y);
    assert (a' + b') + (x' + y') == (a' + x') + (b' + y');
  }

  /** Groups that are not counted hold nothing. */
  lemma {:induction false} AllEmpty(h: Half, k: nat)
    requires k <= |h.nr| < |h.queued|
    requires forall j :: 0 <= j < k ==> |LoadOf(h, j)| == 0
    ensures All(h, k) == multiset{}
  {
    if k > 0 {
      AllEmpty(h, k - 1);
      assert |LoadOf(h, k - 1)| == 0;
    }
  }

  lemma EmptyIffUncounted(up: seq<nat>, h: Half, k: nat)
    requires HalfOk(up, h) && k < |up|
    ensures h.nr[k] == 0 <==> h.queued[k] == []
  {
    if h.queued[k] != [] {
      ReadyToDispatch(up, h, k);
    }
    assert h.nr[k] == |LoadOf(h, k)|;
  }

  // References: a listed qnode holds one on its group

  ghost function Bit(h: Half, q: Qnode): nat {
    if Held(h.bios, q) != [] then 1 else 0
  }

  ghost function RefsOf(h: Half, g: nat): nat {
    Bit(h, Qnode(g, false)) + Bit(h, Qnode(g, true))
  }

  lemma AddRefs(up: seq<nat>, h: Half, q: Qnode, b: Bio, g: nat)
    requires Placed(up, h) && q.tg < |up| && Home(up, q) <= |up|
    ensures RefsOf(QnodeAdd(up, h, q, b), g) ==
            RefsOf(h, g) + (if g == q.tg && q !in h.queued[Home(up, q)] then 1 else 0)
  {
    assert ListOk(up, h.bios, h.queued[Home(up, q)], Home(up, q));
  }

  lemma PopRefs(h: Half, k: nat, g: nat)
    requires k < |h.queued| && h.queued[k] != [] && Held(h.bios, h.queued[k][0]) != []
    ensures var q := h.queued[k][0];
      RefsOf(h, g) == RefsOf(Pop(h, k), g) + (if g == q.tg && |Held(h.bios, q)| == 1 then 1 else 0)
  {
  }
}
