/** The pending trees of block/blk-throttle.c: children with bios, by dispatch time, with the first one cached. */
module ThrottlePending {
  import opened Options

  /** A tree per service queue in key order, its cached first node, and disptime and the pending flag of each group. */
  datatype Pending = Pending(order: seq<seq<nat>>, first: seq<Option<nat>>, time: seq<nat>, on: seq<bool>)

  predicate InRange(list: seq<nat>, n: nat) {
    forall i :: 0 <= i < |list| ==> list[i] < n
  }

  ghost predicate Sorted(list: seq<nat>, time: seq<nat>) {
    && InRange(list, |time|)
    && (forall i, j :: 0 <= i < j < |list| ==> list[i] != list[j])
    && (forall i, j :: 0 <= i < j < |list| ==> time[list[i]] <= time[list[j]])
  }

  ghost predicate Belongs(up: seq<nat>, on: seq<bool>, g: nat, k: nat)
    requires |up| == |on|
  {
    g < |up| && up[g] == k && on[g]
  }

  ghost predicate TreeOk(up: seq<nat>, t: Pending, k: nat)
    requires k < |t.order| && k < |t.first| && |up| == |t.on|
  {
    && (forall i :: 0 <= i < |t.order[k]| ==> Belongs(up, t.on, t.order[k][i], k))
    && Sorted(t.order[k], t.time)
    && (t.first[k].Some? ==> t.order[k] != [] && t.first[k].value == t.order[k][0])
  }

  /** The trees are sorted, caches are right, and a group is flagged exactly when its parent's tree holds it. */
  ghost predicate PendingOk(up: seq<nat>, t: Pending) {
    && |t.order| == |t.first| == |up| + 1 && |t.time| == |t.on| == |up|
    && (forall k :: 0 <= k <= |up| ==> InRange(t.order[k], |up|))
    && (forall k :: 0 <= k <= |up| ==> TreeOk(up, t, k))
    && (forall g :: 0 <= g < |up| && t.on[g] ==> up[g] <= |up| && g in t.order[up[g]])
  }

  /** Equal keys go to the right. */
  function Insert(list: seq<nat>, time: seq<nat>, g: nat): (r: seq<nat>)
    requires g < |time| && InRange(list, |time|)
    ensures forall x :: x in r <==> x == g || x in list
  {
    if list == [] || time[g] < time[list[0]] then [g] + list
    else
      var r := Insert(list[1..], time, g);
      assert list == [list[0]] + list[1..];
      [list[0]] + r
  }

  function Remove(list: seq<nat>, g: nat): (r: seq<nat>)
    ensures forall x :: x in r ==> x in list
    ensures forall x :: x in list && x != g ==> x in r
  {
    if list == [] then []
    else if list[0] == g then list[1..]
    else [list[0]] + Remove(list[1..], g)
  }

  /** `throtl_enqueue_tg`, with `tg_service_queue_add`: a node that went left all the way becomes the cached first. */
  function Enqueue(up: seq<nat>, t: Pending, g: nat): Pending
    requires g < |up| && up[g] < |t.order| && up[g] < |t.first| && g < |t.time| && g < |t.on|
    requires InRange(t.order[up[g]], |t.time|)
  {
    if t.on[g] then t
    else
      var k := up[g];
      var list := Insert(t.order[k], t.time, g);
      t.(order := t.order[k := list], on := t.on[g := true],
         first := if t.order[k] == [] || t.time[g] < t.time[t.order[k][0]] then t.first[k := Some(g)] else t.first)
  }

  /** `throtl_dequeue_tg`, with `throtl_rb_erase`. */
  function Dequeue(up: seq<nat>, t: Pending, g: nat): Pending
    requires g < |up| && up[g] < |t.order| && up[g] < |t.first| && g < |t.time| && g < |t.on|
  {
    if !t.on[g] then t
    else
      var k := up[g];
      t.(order := t.order[k := Remove(t.order[k], g)], on := t.on[g := false],
         first := if t.first[k] == Some(g) then t.first[k := None] else t.first)
  }

  /** `throtl_rb_first`: the cached first, or the leftmost node, which is then cached. */
  function First(t: Pending, k: nat): Option<nat>
    requires k < |t.order| && k < |t.first|
  {
    if t.order[k] == [] then None
    else if t.first[k].Some? then t.first[k]
    else Some(t.order[k][0])
  }

  function CacheFirst(t: Pending, k: nat): Pending
    requires k < |t.order| && k < |t.first|
  {
    t.(first := t.first[k := First(t, k)])
  }

  lemma {:induction false} InsertSorted(list: seq<nat>, time: seq<nat>, g: nat)
    requires Sorted(list, time) && g < |time| && g !in list
    ensures Sorted(Insert(list, time, g), time)
  {
    if list != [] && time[list[0]] <= time[g] {
      var rest := list[1..];
      InsertSorted(rest, time, g);
      var r := Insert(rest, time, g);
      forall i | 0 <= i < |r| ensures r[i] != list[0] && time[list[0]] <= time[r[i]] {
        assert r[i] in r;
      }
      PrependSorted(list[0], r, time);
    } else if list != [] {
      PrependSorted(g, list, time);
    }
  }

  lemma PrependSorted(g: nat, list: seq<nat>, time: seq<nat>)
    requires Sorted(list, time) && g < |time|
    requires forall i :: 0 <= i < |list| ==> list[i] != g && time[g] <= time[list[i]]
    ensures Sorted([g] + list, time)
  {
  }

  lemma {:induction false} RemoveSorted(list: seq<nat>, time: seq<nat>, g: nat)
    requires Sorted(list, time)
    ensures Sorted(Remove(list, g), time) && g !in Remove(list, g)
  {
    if list != [] {
      var rest := list[1..];
      if list[0] == g {
        assert g !in rest;
      } else {
        RemoveSorted(rest, time, g);
        var r := Remove(rest, g);
        forall i | 0 <= i < |r| ensures r[i] != list[0] && time[list[0]] <= time[r[i]] {
          assert r[i] in r;
        }
        PrependSorted(list[0], r, time);
      }
    }
  }

  lemma {:induction false} RemoveLength(list: seq<nat>, g: nat)
    requires g in list
    ensures |Remove(list, g)| == |list| - 1
  {
    if list[0] != g {
      RemoveLength(list[1..], g);
    }
  }

  /** The first group returned has the least dispatch time on its service queue, and there is one if any is pending. */
  lemma FirstIsLeast(up: seq<nat>, t: Pending, k: nat)
    requires PendingOk(up, t) && k <= |up|
    ensures First(t, k).None? <==> t.order[k] == []
    ensures First(t, k).Some? ==>
      var g := First(t, k).value;
      && g in t.order[k] && g < |up| && up[g] == k && t.on[g]
      && forall i :: 0 <= i < |t.order[k]| ==> t.time[g] <= t.time[t.order[k][i]]
  {
    assert TreeOk(up, t, k);
  }

  lemma CacheKeeps(up: seq<nat>, t: Pending, k: nat)
    requires PendingOk(up, t) && k <= |up|
    ensures PendingOk(up, CacheFirst(t, k))
  {
    var t' := CacheFirst(t, k);
    forall j | 0 <= j <= |up| ensures TreeOk(up, t', j) {
      assert TreeOk(up, t, j);
    }
  }

  lemma EnqueueTree(up: seq<nat>, t: Pending, g: nat, k: nat)
    requires PendingOk(up, t) && g < |up| && up[g] <= |up| && !t.on[g] && k <= |up|
    ensures TreeOk(up, Enqueue(up, t, g), k)
  {
    assert TreeOk(up, t, k);
    if k == up[g] {
      assert g !in t.order[k];
      InsertSorted(t.order[k], t.time, g);
      var r := Insert(t.order[k], t.time, g);
      forall i | 0 <= i < |r| ensures Belongs(up, t.on[g := true], r[i], k) {
        assert r[i] in r;
      }
    }
  }

  lemma EnqueueKeeps(up: seq<nat>, t: Pending, g: nat)
    requires PendingOk(up, t) && g < |up| && up[g] <= |up|
    ensures PendingOk(up, Enqueue(up, t, g)) && Enqueue(up, t, g).on == t.on[g := true]
    ensures forall k :: 0 <= k <= |up| && k != up[g] ==> Enqueue(up, t, g).order[k] == t.order[k]
  {
    if !t.on[g] {
      var t' := Enqueue(up, t, g);
      forall k | 0 <= k <= |up| ensures TreeOk(up, t', k) && InRange(t'.order[k], |up|) {
        EnqueueTree(up, t, g, k);
      }
    }
  }

  lemma DequeueTree(up: seq<nat>, t: Pending, g: nat, k: nat)
    requires PendingOk(up, t) && g < |up| && up[g] <= |up| && t.on[g] && k <= |up|
    ensures TreeOk(up, Dequeue(up, t, g), k) && g !in Dequeue(up, t, g).order[k]
  {
    assert TreeOk(up, t, k);
    if k == up[g] {
      RemoveSorted(t.order[k], t.time, g);
      var r := Remove(t.order[k], g);
      forall i | 0 <= i < |r| ensures Belongs(up, t.on[g := false], r[i], k) {
        assert r[i] in r;
      }
    }
  }

  lemma DequeueKeeps(up: seq<nat>, t: Pending, g: nat)
    requires PendingOk(up, t) && g < |up| && up[g] <= |up|
    ensures PendingOk(up, Dequeue(up, t, g)) && Dequeue(up, t, g).on == t.on[g := false]
    ensures forall k :: 0 <= k <= |up| && k != up[g] ==> Dequeue(up, t, g).order[k] == t.order[k]
  {
    if t.on[g] {
      forall k | 0 <= k <= |up| ensures TreeOk(up, Dequeue(up, t, g), k) && g !in Dequeue(up, t, g).order[k] {
        DequeueTree(up, t, g, k);
      }
    }
  }

  /** The key of a group that is not pending can change. */
  lemma RetimeKeeps(up: seq<nat>, t: Pending, g: nat, at: nat)
    requires PendingOk(up, t) && g < |up| && !t.on[g]
    ensures PendingOk(up, t.(time := t.time[g := at]))
  {
    var t' := t.(time := t.time[g := at]);
    forall k | 0 <= k <= |up| ensures TreeOk(up, t', k) {
      assert TreeOk(up, t, k);
    }
  }

  // How many children are due

  ghost function Due(list: seq<nat>, time: seq<nat>, now: nat): nat
    requires InRange(list, |time|)
  {
    if list == [] then 0 else (if time[list[0]] <= now then 1 else 0) + Due(list[1..], time, now)
  }

  lemma {:induction false} DueRemove(list: seq<nat>, time: seq<nat>, g: nat, now: nat)
    requires InRange(list, |time|) && g in list && time[g] <= now
    ensures InRange(Remove(list, g), |time|) && Due(Remove(list, g), time, now) == Due(list, time, now) - 1
  {
    if list[0] != g {
      DueRemove(list[1..], time, g, now);
    }
  }

  lemma {:induction false} DueInsert(list: seq<nat>, time: seq<nat>, g: nat, now: nat)
    requires InRange(list, |time|) && g < |time| && now < time[g]
    ensures InRange(Insert(list, time, g), |time|) && Due(Insert(list, time, g), time, now) == Due(list, time, now)
  {
    if list != [] && time[list[0]] <= time[g] {
      DueInsert(list[1..], time, g, now);
    }
  }

  lemma {:induction false} DueSame(list: seq<nat>, time: seq<nat>, g: nat, at: nat, now: nat)
    requires InRange(list, |time|) && g < |time| && g !in list
    ensures Due(list, time[g := at], now) == Due(list, time, now)
  {
    if list != [] {
      DueSame(list[1..], time, g, at, now);
    }
  }

  /** `tg_update_disptime`: the group is put back under its new key. */
  function Requeue(up: seq<nat>, t: Pending, g: nat, at: nat): Pending
    requires PendingOk(up, t) && g < |up| && up[g] <= |up|
  {
    DequeueKeeps(up, t, g);
    var t1 := Dequeue(up, t, g);
    RetimeKeeps(up, t1, g, at);
    Enqueue(up, t1.(time := t1.time[g := at]), g)
  }

  lemma RequeueKeeps(up: seq<nat>, t: Pending, g: nat, at: nat)
    requires PendingOk(up, t) && g < |up| && up[g] <= |up|
    ensures PendingOk(up, Requeue(up, t, g, at)) && Requeue(up, t, g, at).on == t.on[g := true]
    ensures g < |Requeue(up, t, g, at).time| && Requeue(up, t, g, at).time[g] == at
  {
    DequeueKeeps(up, t, g);
    var t1 := Dequeue(up, t, g);
    RetimeKeeps(up, t1, g, at);
    EnqueueKeeps(up, t1.(time := t1.time[g := at]), g);
  }

  /** No child of `k` that is pending is due. */
  ghost predicate NoneDue(t: Pending, k: nat, now: nat) {
    k < |t.order| && forall i :: 0 <= i < |t.order[k]| ==> t.order[k][i] < |t.time| && now < t.time[t.order[k][i]]
  }

  ghost function DueAt(up: seq<nat>, t: Pending, k: nat, now: nat): nat
    requires PendingOk(up, t) && k <= |up|
  {
    Due(t.order[k], t.time, now)
  }

  /** A due group that is taken off, or put back with a later key, is due no more. */
  lemma DequeueDue(up: seq<nat>, t: Pending, g: nat, now: nat)
    requires PendingOk(up, t) && g < |up| && up[g] <= |up| && t.on[g] && t.time[g] <= now
    ensures PendingOk(up, Dequeue(up, t, g)) && DueAt(up, Dequeue(up, t, g), up[g], now) == DueAt(up, t, up[g], now) - 1
  {
    DequeueKeeps(up, t, g);
    DueRemove(t.order[up[g]], t.time, g, now);
  }

  lemma RequeueDue(up: seq<nat>, t: Pending, g: nat, at: nat, now: nat)
    requires PendingOk(up, t) && g < |up| && up[g] <= |up| && !t.on[g] && now < at
    ensures PendingOk(up, Requeue(up, t, g, at))
    ensures DueAt(up, Requeue(up, t, g, at), up[g], now) == DueAt(up, t, up[g], now)
  {
    RequeueKeeps(up, t, g, at);
    assert g !in t.order[up[g]] by {
      assert TreeOk(up, t, up[g]);
    }
    DueSame(t.order[up[g]], t.time, g, at, now);
    DueInsert(t.order[up[g]], t.time[g := at], g, now);
  }

  lemma TakeDue(up: seq<nat>, t: Pending, k: nat, now: nat)
    requires PendingOk(up, t) && k <= |up| && First(t, k).Some?
    requires First(t, k).value < |t.time| && t.time[First(t, k).value] <= now
    ensures var g := First(t, k).value;
      && g < |up| && up[g] == k && PendingOk(up, Dequeue(up, CacheFirst(t, k), g))
      && DueAt(up, Dequeue(up, CacheFirst(t, k), g), k, now) == DueAt(up, t, k, now) - 1
  {
    FirstIsLeast(up, t, k);
    CacheKeeps(up, t, k);
    DequeueDue(up, CacheFirst(t, k), First(t, k).value, now);
  }
}
