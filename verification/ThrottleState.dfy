/** What holds of a device's throttle groups between steps: both directions, pending trees and references. */
module ThrottleState {
  import opened Options
  import opened Sums
  import opened ThrottlePending
  import opened ThrottleQnodes

  /** Each listed qnode holds exactly one reference on its group. */
  ghost predicate RefsOk(up: seq<nat>, half: seq<Half>, refs: seq<nat>)
    requires |half| == 2
  {
    |refs| == |up| && forall g :: 0 <= g < |up| ==> refs[g] == RefsOf(half[0], g) + RefsOf(half[1], g)
  }

  ghost predicate Busy(half: seq<Half>, g: nat)
    requires |half| == 2 && g < |half[0].nr| && g < |half[1].nr|
  {
    0 < half[0].nr[g] || 0 < half[1].nr[g]
  }

  /** Every group with bios is pending, but for the one that is being dispatched. */
  ghost predicate ActiveBut(up: seq<nat>, half: seq<Half>, on: seq<bool>, but: nat)
    requires |half| == 2 && |half[0].nr| == |half[1].nr| == |on| == |up|
  {
    forall g :: 0 <= g < |up| && g != but && Busy(half, g) ==> on[g]
  }

  ghost predicate Inv(up: seq<nat>, half: seq<Half>, tree: Pending, refs: seq<nat>, but: nat) {
    && |half| == 2 && HalfOk(up, half[0]) && HalfOk(up, half[1])
    && PendingOk(up, tree)
    && RefsOk(up, half, refs)
    && ActiveBut(up, half, tree.on, but)
  }

  function AddRef(refs: seq<nat>, g: nat, p: bool): seq<nat>
    requires g < |refs|
  {
    if p then refs[g := refs[g] + 1] else refs
  }

  function DropRef(refs: seq<nat>, g: nat, p: bool): seq<nat>
    requires g < |refs|
  {
    if p && 0 < refs[g] then refs[g := refs[g] - 1] else refs
  }

  /** A bio is to be dispatched from `g`: all counters stand above zero. */
  ghost predicate Ready(up: seq<nat>, h: Half, g: nat) {
    && HalfOk(up, h) && g < |up| && h.queued[g] != []
    && Held(h.bios, h.queued[g][0]) != [] && 0 < h.nr[g] <= h.total
  }

  ghost predicate CanDispatch(up: seq<nat>, h: Half, g: nat) {
    && g < |up| == |h.nr| && g < up[g] <= |up| && |h.queued| == |up| + 1
    && h.queued[g] != [] && h.queued[g][0].tg < |up| && Held(h.bios, h.queued[g][0]) != []
    && 0 < h.nr[g] <= h.total
  }

  lemma ReadyCan(up: seq<nat>, h: Half, g: nat)
    requires Ready(up, h, g)
    ensures CanDispatch(up, h, g)
  {
    ListTg(up, h, g);
  }

  /**
   * The references after a dispatch: one taken if the qnode on the parent was not listed, one put if the other emptied.
   */
  ghost function DispatchRefs(up: seq<nat>, h: Half, g: nat, refs: seq<nat>): seq<nat>
    requires CanDispatch(up, h, g) && |refs| == |up|
  {
    var q := h.queued[g][0];
    var h1 := Pop(h, g);
    DropRef(AddRef(refs, g, Qnode(g, true) !in h1.queued[up[g]]), q.tg, |Held(h.bios, q)| == 1)
  }

  lemma ListTg(up: seq<nat>, h: Half, k: nat)
    requires Placed(up, h) && k <= |up| && h.queued[k] != []
    ensures h.queued[k][0].tg < |up| && Held(h.bios, h.queued[k][0]) != []
  {
    assert ListOk(up, h.bios, h.queued[k], k);
    assert h.queued[k][0] in h.queued[k];
  }

  lemma DispatchRefsAt(up: seq<nat>, h: Half, g: nat, x: nat)
    requires Ready(up, h, g)
    ensures var q := h.queued[g][0];
      RefsOf(DispatchOne(up, h, g), x) + (if x == q.tg && |Held(h.bios, q)| == 1 then 1 else 0) ==
      RefsOf(h, x) + (if x == g && Qnode(g, true) !in Pop(h, g).queued[up[g]] then 1 else 0)
  {
    PopRefs(h, g, x);
    PopPlaced(up, h, g);
    AddRefs(up, Pop(h, g), Qnode(g, true), Front(h, g), x);
  }

  lemma RefHeld(h: Half, q: Qnode)
    requires Held(h.bios, q) != []
    ensures 0 < RefsOf(h, q.tg)
  {
    assert q == Qnode(q.tg, q.onParent);
    assert Bit(h, q) == 1;
  }

  lemma RefsAt(refs: seq<nat>, g: nat, taken: bool, t: nat, put: bool, x: nat)
    requires g < |refs| && t < |refs| && x < |refs| && 0 < refs[t]
    ensures |DropRef(AddRef(refs, g, taken), t, put)| == |refs|
    ensures DropRef(AddRef(refs, g, taken), t, put)[x] + (if x == t && put then 1 else 0) ==
            refs[x] + (if x == g && taken then 1 else 0)
  {
  }

  lemma DispatchRefAt(up: seq<nat>, h: Half, g: nat, refs: seq<nat>, x: nat)
    requires Ready(up, h, g) && CanDispatch(up, h, g) && |refs| == |up| && x < |up| && 0 < refs[h.queued[g][0].tg]
    ensures |DispatchRefs(up, h, g, refs)| == |refs|
    ensures DispatchRefs(up, h, g, refs)[x] + RefsOf(h, x) == refs[x] + RefsOf(DispatchOne(up, h, g), x)
  {
    var q := h.queued[g][0];
    RefsAt(refs, g, Qnode(g, true) !in Pop(h, g).queued[up[g]], q.tg, |Held(h.bios, q)| == 1, x);
    DispatchRefsAt(up, h, g, x);
  }

  /** References change with the listed qnodes of one direction. */
  lemma RefsFollow(up: seq<nat>, half: seq<Half>, refs: seq<nat>, rw: nat, h': Half, refs': seq<nat>)
    requires |half| == 2 && rw < 2 && RefsOk(up, half, refs) && |refs'| == |up|
    requires forall x :: 0 <= x < |up| ==> refs'[x] + RefsOf(half[rw], x) == refs[x] + RefsOf(h', x)
    ensures RefsOk(up, half[rw := h'], refs')
  {
    var half' := half[rw := h'];
    forall x | 0 <= x < |up| ensures refs'[x] == RefsOf(half'[0], x) + RefsOf(half'[1], x) {
      assert refs[x] == RefsOf(half[0], x) + RefsOf(half[1], x);
    }
  }

  lemma DispatchRefsOk(up: seq<nat>, half: seq<Half>, refs: seq<nat>, rw: nat, g: nat)
    requires |half| == 2 && rw < 2 && Ready(up, half[rw], g) && CanDispatch(up, half[rw], g) && RefsOk(up, half, refs)
    ensures RefsOk(up, half[rw := DispatchOne(up, half[rw], g)], DispatchRefs(up, half[rw], g, refs))
  {
    var h := half[rw];
    ListTg(up, h, g);
    RefHeld(h, h.queued[g][0]);
    DispatchRefAt(up, h, g, refs, g);
    forall x | 0 <= x < |up|
      ensures DispatchRefs(up, h, g, refs)[x] + RefsOf(h, x) == refs[x] + RefsOf(DispatchOne(up, h, g), x)
    {
      DispatchRefAt(up, h, g, refs, x);
    }
    RefsFollow(up, half, refs, rw, DispatchOne(up, h, g), DispatchRefs(up, h, g, refs));
  }

  ghost function DispatchTree(up: seq<nat>, tree: Pending, g: nat): Pending
    requires PendingOk(up, tree) && g < |up| && IsTree(up)
  {
    if up[g] < |up| then Enqueue(up, tree, up[g]) else tree
  }

  lemma DispatchActive(up: seq<nat>, half: seq<Half>, tree: Pending, rw: nat, g: nat)
    requires |half| == 2 && rw < 2 && Ready(up, half[rw], g) && HalfOk(up, half[0]) && HalfOk(up, half[1])
    requires PendingOk(up, tree) && ActiveBut(up, half, tree.on, g)
    ensures PendingOk(up, DispatchTree(up, tree, g))
    ensures |DispatchOne(up, half[rw], g).nr| == |up|
    ensures ActiveBut(up, half[rw := DispatchOne(up, half[rw], g)], DispatchTree(up, tree, g).on, g)
  {
    if up[g] < |up| {
      EnqueueKeeps(up, tree, up[g]);
    }
    DispatchPlaced(up, half[rw], g);
    var half' := half[rw := DispatchOne(up, half[rw], g)];
    forall x | 0 <= x < |up| && x != g && Busy(half', x) ensures DispatchTree(up, tree, g).on[x] {
      DispatchNr(up, half[rw], g, x);
      assert x != up[g] ==> Busy(half, x);
    }
  }

  /** A dispatch from a group that was taken off its tree keeps everything. */
  lemma DispatchInv(up: seq<nat>, half: seq<Half>, tree: Pending, refs: seq<nat>, rw: nat, g: nat)
    requires Inv(up, half, tree, refs, g) && rw < 2 && Ready(up, half[rw], g) && CanDispatch(up, half[rw], g)
    ensures Inv(up, half[rw := DispatchOne(up, half[rw], g)], DispatchTree(up, tree, g),
                DispatchRefs(up, half[rw], g, refs), g)
  {
    DispatchKeeps(up, half[rw], g);
    DispatchRefsOk(up, half, refs, rw, g);
    DispatchActive(up, half, tree, rw, g);
  }

  // A bio is queued

  lemma SubmitActive(up: seq<nat>, half: seq<Half>, tree: Pending, rw: nat, q: Qnode, b: Bio)
    requires |half| == 2 && rw < 2 && HalfOk(up, half[0]) && HalfOk(up, half[1]) && q.tg < |up| && Home(up, q) < |up|
    requires PendingOk(up, tree) && ActiveBut(up, half, tree.on, |up|)
    ensures PendingOk(up, Enqueue(up, tree, Home(up, q)))
    ensures ActiveBut(up, half[rw := Submit(up, half[rw], q, b)], Enqueue(up, tree, Home(up, q)).on, |up|)
  {
    var k := Home(up, q);
    EnqueueKeeps(up, tree, k);
    var half' := half[rw := Submit(up, half[rw], q, b)];
    forall x | 0 <= x < |up| && Busy(half', x) ensures Enqueue(up, tree, k).on[x] {
      assert x != k ==> Busy(half, x);
    }
  }

  lemma SubmitRefsOk(up: seq<nat>, half: seq<Half>, refs: seq<nat>, rw: nat, q: Qnode, b: Bio)
    requires |half| == 2 && rw < 2 && HalfOk(up, half[rw]) && q.tg < |up| && Home(up, q) < |up|
    requires RefsOk(up, half, refs)
    ensures RefsOk(up, half[rw := Submit(up, half[rw], q, b)], AddRef(refs, q.tg, q !in half[rw].queued[Home(up, q)]))
  {
    var h' := Submit(up, half[rw], q, b);
    var refs' := AddRef(refs, q.tg, q !in half[rw].queued[Home(up, q)]);
    forall x | 0 <= x < |up| ensures refs'[x] + RefsOf(half[rw], x) == refs[x] + RefsOf(h', x) {
      AddRefs(up, half[rw], q, b, x);
    }
    RefsFollow(up, half, refs, rw, h', refs');
  }

  lemma SubmitInv(up: seq<nat>, half: seq<Half>, tree: Pending, refs: seq<nat>, rw: nat, q: Qnode, b: Bio)
    requires Inv(up, half, tree, refs, |up|) && rw < 2 && q.tg < |up| && Home(up, q) < |up|
    ensures Inv(up, half[rw := Submit(up, half[rw], q, b)], Enqueue(up, tree, Home(up, q)),
                AddRef(refs, q.tg, q !in half[rw].queued[Home(up, q)]), |up|)
  {
    SubmitKeeps(up, half[rw], q, b);
    SubmitRefsOk(up, half, refs, rw, q, b);
    SubmitActive(up, half, tree, rw, q, b);
  }

  // A bio is issued

  lemma IssueInv(up: seq<nat>, half: seq<Half>, tree: Pending, refs: seq<nat>, rw: nat)
    requires Inv(up, half, tree, refs, |up|) && rw < 2 && half[rw].queued[|up|] != []
    ensures half[rw].queued[|up|][0].tg < |up| && Held(half[rw].bios, half[rw].queued[|up|][0]) != []
    ensures var q := half[rw].queued[|up|][0];
      && 0 < refs[q.tg]
      && Inv(up, half[rw := Pop(half[rw], |up|)], tree, DropRef(refs, q.tg, |Held(half[rw].bios, q)| == 1), |up|)
  {
    ListTg(up, half[rw], |up|);
    IssueKeeps(up, half[rw]);
    IssueRefs(up, half, refs, rw);
    var half' := half[rw := Pop(half[rw], |up|)];
    forall x | 0 <= x < |up| && Busy(half', x) ensures tree.on[x] {
      assert Busy(half, x);
    }
  }

  lemma IssueRefs(up: seq<nat>, half: seq<Half>, refs: seq<nat>, rw: nat)
    requires |half| == 2 && rw < 2 && RefsOk(up, half, refs) && |half[rw].queued| == |up| + 1
    requires half[rw].queued[|up|] != []
    requires half[rw].queued[|up|][0].tg < |up| && Held(half[rw].bios, half[rw].queued[|up|][0]) != []
    ensures var q := half[rw].queued[|up|][0];
      && 0 < refs[q.tg]
      && RefsOk(up, half[rw := Pop(half[rw], |up|)], DropRef(refs, q.tg, |Held(half[rw].bios, q)| == 1))
  {
    var q, h' := half[rw].queued[|up|][0], Pop(half[rw], |up|);
    RefHeld(half[rw], q);
    var refs' := DropRef(refs, q.tg, |Held(half[rw].bios, q)| == 1);
    forall x | 0 <= x < |up| ensures refs'[x] + RefsOf(half[rw], x) == refs[x] + RefsOf(h', x) {
      PopRefs(half[rw], |up|, x);
    }
    RefsFollow(up, half, refs, rw, h', refs');
  }

  // Draining

  /** No bio is lost, and the counts of groups other than `g` and its parent stand. */
  ghost predicate Kept(up: seq<nat>, h: Half, h': Half, g: nat, p: nat) {
    && |h.queued| == |h'.queued| == |up| + 1 && |h.nr| == |h'.nr| == |up|
    && All(h', |up| + 1) == All(h, |up| + 1)
    && forall x :: 0 <= x < |up| && x != g && x != p ==> h'.nr[x] == h.nr[x]
  }

  lemma KeptTrans(up: seq<nat>, h: Half, h1: Half, h2: Half, g: nat, p: nat)
    requires Kept(up, h, h1, g, p) && Kept(up, h1, h2, g, p)
    ensures Kept(up, h, h2, g, p)
  {
  }

  lemma DispatchAll(up: seq<nat>, h: Half, g: nat)
    requires Ready(up, h, g)
    ensures |DispatchOne(up, h, g).queued| == |up| + 1
    ensures All(DispatchOne(up, h, g), |up| + 1) == All(h, |up| + 1)
  {
    var h' := DispatchOne(up, h, g);
    DispatchMoves(up, h, g);
    MovedAll(h, h', Front(h, g), g, up[g]);
  }

  lemma DispatchKept(up: seq<nat>, h: Half, g: nat)
    requires Ready(up, h, g)
    ensures Kept(up, h, DispatchOne(up, h, g), g, up[g]) && DispatchOne(up, h, g).nr[g] == h.nr[g] - 1
  {
    DispatchAll(up, h, g);
    DispatchPlaced(up, h, g);
    forall x | 0 <= x < |up| && x != g && x != up[g] ensures DispatchOne(up, h, g).nr[x] == h.nr[x] {
      DispatchNr(up, h, g, x);
    }
    DispatchNr(up, h, g, g);
  }

  /** The trees other than `k` stay as they were. */
  ghost predicate OthersKept(up: seq<nat>, tree: Pending, tree': Pending, k: nat, j: nat) {
    && |tree.order| == |tree'.order| == |up| + 1
    && forall i :: 0 <= i <= |up| && i != k && i != j ==> tree'.order[i] == tree.order[i]
  }

  /** The tree that a dispatch from a child of `k` puts `k` on. */
  function Above(up: seq<nat>, k: nat): nat {
    if k < |up| then up[k] else |up| + 1
  }

  lemma DispatchTreeKept(up: seq<nat>, tree: Pending, g: nat)
    requires PendingOk(up, tree) && g < |up| && IsTree(up)
    ensures OthersKept(up, tree, DispatchTree(up, tree, g), Above(up, up[g]), Above(up, up[g]))
  {
    if up[g] < |up| {
      EnqueueKeeps(up, tree, up[g]);
    }
  }

  /** A group is taken off its tree to be dispatched. */
  lemma DequeueInv(up: seq<nat>, half: seq<Half>, tree: Pending, refs: seq<nat>, g: nat)
    requires Inv(up, half, tree, refs, |up|) && g < |up| && tree.on[g]
    ensures up[g] <= |up| && Inv(up, half, Dequeue(up, tree, g), refs, g)
    ensures |Dequeue(up, tree, g).order[up[g]]| == |tree.order[up[g]]| - 1
    ensures OthersKept(up, tree, Dequeue(up, tree, g), up[g], up[g])
  {
    DequeueKeeps(up, tree, g);
    RemoveLength(tree.order[up[g]], g);
    forall x | 0 <= x < |up| && x != g && Busy(half, x) ensures Dequeue(up, tree, g).on[x] {
      assert tree.on[x];
    }
  }

  /** A group without bios may be off its tree. */
  lemma IdleInv(up: seq<nat>, half: seq<Half>, tree: Pending, refs: seq<nat>, g: nat)
    requires Inv(up, half, tree, refs, g) && (g < |up| && Busy(half, g) ==> tree.on[g])
    ensures Inv(up, half, tree, refs, |up|)
  {
  }

  lemma CacheInv(up: seq<nat>, half: seq<Half>, tree: Pending, refs: seq<nat>, k: nat)
    requires Inv(up, half, tree, refs, |up|) && k <= |up|
    ensures Inv(up, half, CacheFirst(tree, k), refs, |up|)
  {
    CacheKeeps(up, tree, k);
  }

  /** Where no child is pending, no child has a bio. */
  lemma NoneBusy(up: seq<nat>, half: seq<Half>, tree: Pending, refs: seq<nat>, g: nat)
    requires Inv(up, half, tree, refs, |up|) && g < |up| && up[g] <= |up| && tree.order[up[g]] == []
    ensures !Busy(half, g)
  {
  }

  /** Bios of the children of `k` may have moved to `k`; every other group stands as it did. */
  ghost predicate SqKept(up: seq<nat>, half: seq<Half>, half': seq<Half>, k: nat) {
    && |half| == |half'| == 2
    && HalfKept(up, half[0], half'[0], k) && HalfKept(up, half[1], half'[1], k)
  }

  ghost predicate HalfKept(up: seq<nat>, h: Half, h': Half, k: nat) {
    && |h.queued| == |h'.queued| == |up| + 1 && |h.nr| == |h'.nr| == |up|
    && All(h', |up| + 1) == All(h, |up| + 1)
    && forall x :: 0 <= x < |up| && up[x] != k && x != k ==> h'.nr[x] == h.nr[x]
  }

  lemma OneKept(up: seq<nat>, half: seq<Half>, half1: seq<Half>, half2: seq<Half>, g: nat)
    requires |half| == |half1| == |half2| == 2 && g < |up|
    requires Kept(up, half[0], half1[0], g, up[g]) && half1[1] == half[1]
    requires Kept(up, half1[1], half2[1], g, up[g]) && half2[0] == half1[0]
    ensures SqKept(up, half, half2, up[g])
  {
  }

  lemma BothKept(up: seq<nat>, half: seq<Half>, half1: seq<Half>, half2: seq<Half>, g: nat)
    requires |half| == |half1| == |half2| == 2 && g < |up|
    requires Kept(up, half[0], half1[0], g, up[g]) && half1[1] == half[1] && half1[0].nr[g] == 0
    requires Kept(up, half1[1], half2[1], g, up[g]) && half2[0] == half1[0] && half2[1].nr[g] == 0
    ensures SqKept(up, half, half2, up[g]) && !Busy(half2, g)
  {
  }

  lemma SqSame(up: seq<nat>, half: seq<Half>, k: nat)
    requires |half| == 2 && |half[0].queued| == |half[1].queued| == |up| + 1 && |half[0].nr| == |half[1].nr| == |up|
    ensures SqKept(up, half, half, k)
  {
  }

  lemma SqTrans(up: seq<nat>, half: seq<Half>, half1: seq<Half>, half2: seq<Half>, k: nat)
    requires SqKept(up, half, half1, k) && SqKept(up, half1, half2, k)
    ensures SqKept(up, half, half2, k)
  {
  }

  lemma OthersTrans(up: seq<nat>, t0: Pending, t1: Pending, t2: Pending, k: nat, j: nat)
    requires OthersKept(up, t0, t1, k, j) && (OthersKept(up, t1, t2, k, k) || OthersKept(up, t1, t2, j, j))
    ensures OthersKept(up, t0, t2, k, j)
  {
  }

  ghost predicate NoneCounted(h: Half) {
    forall g :: 0 <= g < |h.nr| ==> h.nr[g] == 0
  }

  /** The walk has drained the service queues before `k`, and no bio is lost. */
  ghost predicate DrainedTo(up: seq<nat>, half: seq<Half>, half': seq<Half>, k: nat) {
    && |half| == |half'| == 2
    && DrainedHalf(up, half[0], half'[0], k) && DrainedHalf(up, half[1], half'[1], k)
  }

  ghost predicate DrainedHalf(up: seq<nat>, h: Half, h': Half, k: nat) {
    && |h.queued| == |h'.queued| == |up| + 1 && |h'.nr| == |up|
    && All(h', |up| + 1) == All(h, |up| + 1)
    && forall g :: 0 <= g < |up| && up[g] < k ==> h'.nr[g] == 0
  }

  lemma DrainStep(up: seq<nat>, half: seq<Half>, half1: seq<Half>, half2: seq<Half>, k: nat)
    requires IsTree(up) && DrainedTo(up, half, half1, k) && SqKept(up, half1, half2, k)
    requires forall g :: 0 <= g < |up| && up[g] == k ==> !Busy(half2, g)
    ensures DrainedTo(up, half, half2, k + 1)
  {
    forall g | 0 <= g < |up| && up[g] < k + 1 ensures half2[0].nr[g] == 0 && half2[1].nr[g] == 0 {
      assert up[g] == k ==> !Busy(half2, g);
    }
  }

  /** No child is pending on the service queues before `k`. */
  ghost predicate QuietTo(up: seq<nat>, tree: Pending, k: nat) {
    |tree.order| == |up| + 1 && forall j :: 0 <= j < k && j <= |up| ==> tree.order[j] == []
  }

  lemma QuietStep(up: seq<nat>, tree: Pending, tree': Pending, k: nat)
    requires IsTree(up) && k <= |up| && QuietTo(up, tree, k) && OthersKept(up, tree, tree', k, Above(up, k))
    requires tree'.order[k] == []
    ensures QuietTo(up, tree', k + 1)
  {
  }

  lemma QuietMeans(up: seq<nat>, tree: Pending, g: nat)
    requires IsTree(up) && PendingOk(up, tree) && QuietTo(up, tree, |up| + 1) && g < |up|
    ensures !tree.on[g]
  {
  }

  lemma DrainedNone(up: seq<nat>, half: seq<Half>, half': seq<Half>)
    requires IsTree(up) && DrainedTo(up, half, half', |up| + 1)
    ensures NoneCounted(half'[0]) && NoneCounted(half'[1])
  {
  }

  /** Once no group is counted, all bios wait at the device, and it counts none. */
  lemma AllAtTop(up: seq<nat>, h: Half)
    requires HalfOk(up, h) && NoneCounted(h)
    ensures All(h, |up| + 1) == LoadOf(h, |up|) && h.total == 0
  {
    forall g | 0 <= g < |up| ensures |LoadOf(h, g)| == 0 {
      assert h.nr[g] == |LoadOf(h, g)|;
    }
    AllEmpty(h, |up|);
    assert All(h, |up| + 1) == All(h, |up|) + LoadOf(h, |up|);
    SumUpTo(h.nr, 0);
  }

  /** A direction with no bios has no listed qnodes and no references. */
  lemma NothingHeld(up: seq<nat>, h: Half, q: Qnode)
    requires HalfOk(up, h) && NoneCounted(h) && h.queued[|up|] == []
    ensures Held(h.bios, q) == []
  {
    if Held(h.bios, q) != [] {
      var k := Home(up, q);
      if k < |up| {
        EmptyIffUncounted(up, h, k);
      }
    }
  }

  ghost predicate Idle(up: seq<nat>, h: Half) {
    && |h.nr| == |up| && |h.queued| == |up| + 1 && h.total == 0 && NoneCounted(h)
    && (forall q :: Held(h.bios, q) == [])
    && (forall k :: 0 <= k <= |up| ==> h.queued[k] == [])
  }

  lemma DrainedIdle(up: seq<nat>, h: Half)
    requires HalfOk(up, h) && NoneCounted(h) && h.queued[|up|] == []
    ensures Idle(up, h)
  {
    AllAtTop(up, h);
    forall q ensures Held(h.bios, q) == [] {
      NothingHeld(up, h, q);
    }
    forall k | 0 <= k <= |up| ensures h.queued[k] == [] {
      if k < |up| {
        EmptyIffUncounted(up, h, k);
      }
    }
  }

  lemma NoRefs(up: seq<nat>, half: seq<Half>, refs: seq<nat>, g: nat)
    requires |half| == 2 && Idle(up, half[0]) && Idle(up, half[1]) && RefsOk(up, half, refs) && g < |up|
    ensures refs[g] == 0
  {
    assert refs[g] == RefsOf(half[0], g) + RefsOf(half[1], g);
  }

  // Dispatch by rate

  lemma RequeueInv(up: seq<nat>, half: seq<Half>, tree: Pending, refs: seq<nat>, but: nat, g: nat, at: nat)
    requires Inv(up, half, tree, refs, but) && (but == g || but == |up|) && g < |up|
    ensures up[g] <= |up| && Inv(up, half, Requeue(up, tree, g, at), refs, |up|)
  {
    RequeueKeeps(up, tree, g, at);
    forall x | 0 <= x < |up| && Busy(half, x) ensures Requeue(up, tree, g, at).on[x] {
      assert x != g ==> tree.on[x];
    }
  }

  // The way up of a new bio

  /** No group from `s` up to and without `g` has bios queued in this direction. */
  ghost predicate EmptyBelow(up: seq<nat>, nr: seq<nat>, s: nat, g: nat)
    requires |nr| == |up|
  {
    forall x :: 0 <= x < |up| && x < g && Reach(up, s, x) ==> nr[x] == 0
  }

  lemma ClimbStart(up: seq<nat>, nr: seq<nat>, s: nat)
    requires |nr| == |up|
    ensures EmptyBelow(up, nr, s, s)
  {
    forall x | 0 <= x < s ensures !Reach(up, s, x) {
      if Reach(up, s, x) {
        ReachAbove(up, s, x);
      }
    }
  }

  lemma ClimbOne(up: seq<nat>, nr: seq<nat>, s: nat, g: nat)
    requires |nr| == |up| && IsTree(up) && Reach(up, s, g) && g < |up| && EmptyBelow(up, nr, s, g) && nr[g] == 0
    ensures Reach(up, s, up[g]) && EmptyBelow(up, nr, s, up[g])
  {
    ReachNext(up, s, g);
    forall x | 0 <= x < |up| && x < up[g] && Reach(up, s, x) ensures nr[x] == 0 {
      if g < x {
        ReachLine(up, s, g, x);
      }
    }
  }

  /** The qnode a bio of group `s` is queued on: its own, or the one of the last group it passed. */
  ghost predicate Entry(up: seq<nat>, s: nat, q: Qnode) {
    && q.tg < |up| && Home(up, q) <= |up| && Reach(up, s, q.tg) && Reach(up, s, Home(up, q))
    && (!q.onParent ==> q.tg == s)
  }

  lemma FreshHalf(up: seq<nat>, h: Half)
    requires IsTree(up) && h.queued == seq(|up| + 1, i => []) && h.bios == map[] && h.nr == seq(|up|, i => 0)
    requires h.total == 0
    ensures HalfOk(up, h)
  {
    SumUpTo(h.nr, 0);
    forall k | 0 <= k <= |up| ensures ListOk(up, h.bios, h.queued[k], k) {
      assert h.queued[k] == [];
    }
  }

  lemma FreshTree(up: seq<nat>, t: Pending)
    requires t.order == seq(|up| + 1, i => []) && t.first == seq(|up| + 1, i => None)
    requires t.on == seq(|up|, i => false) && |t.time| == |up|
    ensures PendingOk(up, t)
  {
    forall k | 0 <= k <= |up| ensures TreeOk(up, t, k) {
      assert t.order[k] == [];
    }
  }
}
