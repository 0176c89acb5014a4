/** The order in which the bios of one group leave the tree (block/blk-throttle.c). */
module ThrottleFifo {
  import opened Seqs
  import opened ThrottleQnodes
  import opened ThrottleState

  type Bios = map<Qnode, seq<Bio>>

  /** The bios of group `s` among these. */
  ghost function Only(list: seq<Bio>, s: nat): seq<Bio> {
    if list == [] then [] else (if list[0].tg == s then [list[0]] else []) + Only(list[1..], s)
  }

  lemma {:induction false} OnlyConcat(a: seq<Bio>, b: seq<Bio>, s: nat)
    ensures Only(a + b, s) == Only(a, s) + Only(b, s)
  {
    if a == [] {
      assert a + b == b;
    } else {
      assert (a + b)[1..] == a[1..] + b;
      OnlyConcat(a[1..], b, s);
      Assoc(if a[0].tg == s then [a[0]] else [], Only(a[1..], s), Only(b, s));
    }
  }

  lemma OnlyAppend(a: seq<Bio>, b: Bio, s: nat)
    ensures Only(a + [b], s) == if b.tg == s then Only(a, s) + [b] else Only(a, s)
  {
    OnlyConcat(a, [b], s);
    assert [b][1..] == [];
  }

  /** The bios of group `s` on the qnode that group `x` uses on its parent. */
  ghost function Step(bios: Bios, s: nat, x: nat): seq<Bio> {
    Only(Held(bios, Qnode(x, true)), s)
  }

  /** The bios of group `s` that have passed group `x`, nearest to the device first. */
  ghost function Line(up: seq<nat>, bios: Bios, s: nat, x: nat): seq<Bio>
    requires IsTree(up)
    decreases |up| - x
  {
    if x >= |up| then [] else Line(up, bios, s, up[x]) + Step(bios, s, x)
  }

  /** All the waiting bios of group `s`, nearest to the device first. */
  ghost function Waiting(up: seq<nat>, bios: Bios, s: nat): seq<Bio>
    requires IsTree(up)
  {
    Line(up, bios, s, s) + Only(Held(bios, Qnode(s, false)), s)
  }

  ghost predicate Fits(up: seq<nat>, q: Qnode, b: Bio) {
    b.tg < |up| && Reach(up, b.tg, q.tg) && (!q.onParent ==> b.tg == q.tg)
  }

  /** Bios are on qnodes of the groups above theirs. */
  ghost predicate Sourced(up: seq<nat>, bios: Bios) {
    forall q, i :: 0 <= i < |Held(bios, q)| ==> Fits(up, q, Held(bios, q)[i])
  }

  lemma {:induction false} LineFrame(up: seq<nat>, bios: Bios, bios': Bios, s: nat, x: nat)
    requires IsTree(up) && forall y :: x <= y < |up| ==> Step(bios', s, y) == Step(bios, s, y)
    ensures Line(up, bios', s, x) == Line(up, bios, s, x)
    decreases |up| - x
  {
    if x < |up| {
      LineFrame(up, bios, bios', s, up[x]);
    }
  }

  /** What changes at the head of the line above `c` changes it for those below. */
  lemma {:induction false} LineFrom(up: seq<nat>, bios: Bios, bios': Bios, s: nat, x: nat, c: nat, head: seq<Bio>)
    requires IsTree(up) && Reach(up, x, c) && Line(up, bios, s, c) == head + Line(up, bios', s, c)
    requires forall y :: x <= y < c ==> Step(bios', s, y) == Step(bios, s, y)
    ensures Line(up, bios, s, x) == head + Line(up, bios', s, x)
    decreases |up| - x
  {
    if x != c {
      ReachAbove(up, up[x], c);
      LineFrom(up, bios, bios', s, up[x], c, head);
      Assoc(head, Line(up, bios', s, up[x]), Step(bios', s, x));
    }
  }

  lemma {:induction false} LineBelow(up: seq<nat>, bios: Bios, bios': Bios, s: nat, x: nat, c: nat)
    requires IsTree(up) && Reach(up, x, c) && Line(up, bios', s, c) == Line(up, bios, s, c)
    requires forall y :: x <= y < c ==> Step(bios', s, y) == Step(bios, s, y)
    ensures Line(up, bios', s, x) == Line(up, bios, s, x)
    decreases |up| - x
  {
    if x != c {
      ReachAbove(up, up[x], c);
      LineBelow(up, bios, bios', s, up[x], c);
    }
  }

  /** Where nothing waits below `x`, the line from below ends at `x`. */
  lemma {:induction false} LineTail(up: seq<nat>, bios: Bios, s: nat, z: nat, x: nat)
    requires IsTree(up) && Reach(up, s, z) && Reach(up, z, x)
    requires forall y :: 0 <= y < x && Reach(up, s, y) ==> Step(bios, s, y) == []
    ensures Line(up, bios, s, z) == Line(up, bios, s, x)
    decreases |up| - z
  {
    if z != x {
      ReachAbove(up, up[z], x);
      ReachNext(up, s, z);
      LineTail(up, bios, s, up[z], x);
    }
  }

  // A bio moves up

  /** The bios after the first of qnode `q` goes to the end of qnode `t`. */
  ghost function Move(bios: Bios, q: Qnode, t: Qnode): Bios
    requires Held(bios, q) != []
  {
    var bios1 := bios[q := Held(bios, q)[1..]];
    bios1[t := Held(bios1, t) + [Held(bios, q)[0]]]
  }

  lemma MoveOther(bios: Bios, q: Qnode, t: Qnode, r: Qnode, s: nat)
    requires Held(bios, q) != [] && q != t && (Held(bios, q)[0].tg != s || (r != q && r != t))
    ensures Only(Held(Move(bios, q, t), r), s) == Only(Held(bios, r), s)
  {
    var had := Held(bios, q);
    assert had == [had[0]] + had[1..];
    if r == t {
      OnlyAppend(Held(bios, t), had[0], s);
    }
  }

  /** Moving a bio of another group changes nothing for `s`. */
  lemma MoveForOthers(up: seq<nat>, bios: Bios, q: Qnode, t: Qnode, s: nat)
    requires IsTree(up) && Held(bios, q) != [] && q != t && Held(bios, q)[0].tg != s
    ensures Waiting(up, Move(bios, q, t), s) == Waiting(up, bios, s)
  {
    forall y | s <= y < |up| ensures Step(Move(bios, q, t), s, y) == Step(bios, s, y) {
      MoveOther(bios, q, t, Qnode(y, true), s);
    }
    LineFrame(up, bios, Move(bios, q, t), s, s);
    MoveOther(bios, q, t, Qnode(s, false), s);
  }

  /** The line above `g` gets the bio that moved up from `g`. */
  lemma MoveLine(up: seq<nat>, bios: Bios, q: Qnode, g: nat)
    requires IsTree(up) && Held(bios, q) != [] && g < |up| && q != Qnode(g, true) && (q.onParent ==> q.tg < g)
    ensures var b := Held(bios, q)[0];
      Line(up, Move(bios, q, Qnode(g, true)), b.tg, g) == Line(up, bios, b.tg, g) + [b]
  {
    var b, t := Held(bios, q)[0], Qnode(g, true);
    var bios', s := Move(bios, q, t), b.tg;
    forall y | up[g] <= y < |up| ensures Step(bios', s, y) == Step(bios, s, y) {
      MoveOther(bios, q, t, Qnode(y, true), s);
    }
    LineFrame(up, bios, bios', s, up[g]);
    OnlyAppend(Held(bios, t), b, s);
    Assoc(Line(up, bios, s, up[g]), Step(bios, s, g), [b]);
  }

  /** From a group's own qnode. */
  lemma MoveOwn(up: seq<nat>, bios: Bios, g: nat)
    requires IsTree(up) && g < |up| && Held(bios, Qnode(g, false)) != [] && Held(bios, Qnode(g, false))[0].tg == g
    ensures Waiting(up, Move(bios, Qnode(g, false), Qnode(g, true)), g) == Waiting(up, bios, g)
  {
    var q, t := Qnode(g, false), Qnode(g, true);
    var had := Held(bios, q);
    MoveLine(up, bios, q, g);
    Assoc(Line(up, bios, g, g), [had[0]], Only(had[1..], g));
  }

  lemma MoveChildLine(up: seq<nat>, bios: Bios, c: nat)
    requires IsTree(up) && c < |up| && up[c] < |up| && Held(bios, Qnode(c, true)) != []
    ensures var b := Held(bios, Qnode(c, true))[0];
      Line(up, Move(bios, Qnode(c, true), Qnode(up[c], true)), b.tg, c) == Line(up, bios, b.tg, c)
  {
    var q, t := Qnode(c, true), Qnode(up[c], true);
    var had := Held(bios, q);
    var s, bios' := had[0].tg, Move(bios, q, t);
    MoveLine(up, bios, q, up[c]);
    assert Held(bios', q) == had[1..];
    Assoc(Line(up, bios, s, up[c]), [had[0]], Only(had[1..], s));
  }

  lemma MoveChildSteps(bios: Bios, c: nat, p: nat, s: nat)
    requires c < p && Held(bios, Qnode(c, true)) != []
    ensures forall y :: s <= y < c ==> Step(Move(bios, Qnode(c, true), Qnode(p, true)), s, y) == Step(bios, s, y)
  {
    var q, t := Qnode(c, true), Qnode(p, true);
    forall y | s <= y < c ensures Step(Move(bios, q, t), s, y) == Step(bios, s, y) {
      MoveOther(bios, q, t, Qnode(y, true), s);
    }
  }

  /** From the qnode of child `c`. */
  lemma MoveChild(up: seq<nat>, bios: Bios, c: nat, s: nat)
    requires IsTree(up) && c < |up| && up[c] < |up| && Held(bios, Qnode(c, true)) != []
    requires s == Held(bios, Qnode(c, true))[0].tg && Reach(up, s, c)
    ensures Waiting(up, Move(bios, Qnode(c, true), Qnode(up[c], true)), s) == Waiting(up, bios, s)
  {
    var q, t := Qnode(c, true), Qnode(up[c], true);
    MoveChildLine(up, bios, c);
    MoveChildSteps(bios, c, up[c], s);
    MoveOther(bios, q, t, Qnode(s, false), s);
    LineBelow(up, bios, Move(bios, q, t), s, s, c);
  }

  lemma MoveSourced(up: seq<nat>, bios: Bios, q: Qnode, t: Qnode)
    requires Sourced(up, bios) && Held(bios, q) != [] && q != t && t.onParent
    requires Reach(up, Held(bios, q)[0].tg, t.tg)
    ensures Sourced(up, Move(bios, q, t))
  {
    var bios', had, b := Move(bios, q, t), Held(bios, t), Held(bios, q)[0];
    assert Fits(up, q, b);
    forall r, i | 0 <= i < |Held(bios', r)| ensures Fits(up, r, Held(bios', r)[i]) {
      if r == q {
        assert Fits(up, q, Held(bios, q)[i + 1]);
      } else if r != t || i < |had| {
        assert Fits(up, r, Held(bios, r)[i]);
      }
    }
  }

  /** A dispatch leaves the waiting bios of every group in the same order. */
  lemma DispatchOrder(up: seq<nat>, h: Half, g: nat, s: nat)
    requires Ready(up, h, g) && CanDispatch(up, h, g) && Sourced(up, h.bios)
    ensures Sourced(up, DispatchOne(up, h, g).bios)
    ensures Waiting(up, DispatchOne(up, h, g).bios, s) == Waiting(up, h.bios, s)
  {
    var q, t := h.queued[g][0], Qnode(g, true);
    assert ListOk(up, h.bios, h.queued[g], g);
    assert DispatchOne(up, h, g).bios == Move(h.bios, q, t);
    var b := Held(h.bios, q)[0];
    if q.onParent {
      ReachNext(up, b.tg, q.tg);
    }
    MoveSourced(up, h.bios, q, t);
    if b.tg != s {
      MoveForOthers(up, h.bios, q, t, s);
    } else if q.onParent {
      MoveChild(up, h.bios, q.tg, s);
    } else {
      MoveOwn(up, h.bios, g);
    }
  }

  // A bio is issued from the device's queue

  lemma IssueStep(bios: Bios, q: Qnode, r: Qnode, s: nat)
    requires Held(bios, q) != [] && (Held(bios, q)[0].tg != s || r != q)
    ensures Only(Held(bios[q := Held(bios, q)[1..]], r), s) == Only(Held(bios, r), s)
  {
  }

  /** The bio issued is the first waiting of its group; no other group is touched. */
  lemma IssueOrder(up: seq<nat>, h: Half, s: nat)
    requires HalfOk(up, h) && Sourced(up, h.bios) && h.queued[|up|] != [] && Held(h.bios, h.queued[|up|][0]) != []
    ensures var b := Front(h, |up|);
      Waiting(up, h.bios, s) == (if b.tg == s then [b] else []) + Waiting(up, Pop(h, |up|).bios, s)
  {
    var q, bios := h.queued[|up|][0], h.bios;
    assert ListOk(up, h.bios, h.queued[|up|], |up|);
    assert Fits(up, q, Held(bios, q)[0]);
    var bios' := bios[q := Held(bios, q)[1..]];
    IssueStep(bios, q, Qnode(s, false), s);
    if Front(h, |up|).tg != s {
      forall y | s <= y < |up| ensures Step(bios', s, y) == Step(bios, s, y) {
        IssueStep(bios, q, Qnode(y, true), s);
      }
      LineFrame(up, bios, bios', s, s);
    } else {
      IssueLine(up, bios, q.tg, s);
      Assoc([Front(h, |up|)], Line(up, bios', s, s), Only(Held(bios', Qnode(s, false)), s));
    }
  }

  lemma IssueLine(up: seq<nat>, bios: Bios, c: nat, s: nat)
    requires IsTree(up) && c < |up| && up[c] == |up| && Held(bios, Qnode(c, true)) != []
    requires s == Held(bios, Qnode(c, true))[0].tg && Reach(up, s, c)
    ensures var q := Qnode(c, true);
      Line(up, bios, s, s) == [Held(bios, q)[0]] + Line(up, bios[q := Held(bios, q)[1..]], s, s)
  {
    var q := Qnode(c, true);
    var had := Held(bios, q);
    var bios' := bios[q := had[1..]];
    assert Line(up, bios, s, |up|) == Line(up, bios', s, |up|) == [];
    assert Line(up, bios, s, c) == [] + Only(had, s);
    assert Line(up, bios', s, c) == [] + Only(had[1..], s);
    forall y | s <= y < c ensures Step(bios', s, y) == Step(bios, s, y) {
      IssueStep(bios, q, Qnode(y, true), s);
    }
    LineFrom(up, bios, bios', s, s, c, [had[0]]);
  }

  lemma IssueSourced(up: seq<nat>, bios: Bios, q: Qnode)
    requires Sourced(up, bios) && Held(bios, q) != []
    ensures Sourced(up, bios[q := Held(bios, q)[1..]])
  {
    var bios' := bios[q := Held(bios, q)[1..]];
    forall r, i | 0 <= i < |Held(bios', r)| ensures Fits(up, r, Held(bios', r)[i]) {
      assert Fits(up, r, Held(bios, r)[if r == q then i + 1 else i]);
    }
  }

  // A bio is queued

  lemma AddStep(bios: Bios, q: Qnode, b: Bio, r: Qnode, s: nat)
    ensures Only(Held(bios[q := Held(bios, q) + [b]], r), s) ==
            Only(Held(bios, r), s) + (if r == q && b.tg == s then [b] else [])
  {
    OnlyAppend(Held(bios, q), b, s);
  }

  lemma SubmitElsewhere(up: seq<nat>, bios: Bios, q: Qnode, b: Bio, s: nat)
    requires IsTree(up) && (b.tg != s || !q.onParent)
    ensures Line(up, bios[q := Held(bios, q) + [b]], s, s) == Line(up, bios, s, s)
  {
    var bios' := bios[q := Held(bios, q) + [b]];
    forall y | s <= y < |up| ensures Step(bios', s, y) == Step(bios, s, y) {
      AddStep(bios, q, b, Qnode(y, true), s);
    }
    LineFrame(up, bios, bios', s, s);
  }

  /** On a path that is empty up to where the bio is queued, it is the last of its group. */
  lemma SubmitOrder(up: seq<nat>, h: Half, q: Qnode, b: Bio, s: nat)
    requires HalfOk(up, h) && b.tg < |up| && Entry(up, b.tg, q) && EmptyBelow(up, h.nr, b.tg, Home(up, q))
    ensures Waiting(up, h.bios[q := Held(h.bios, q) + [b]], s) ==
            Waiting(up, h.bios, s) + (if b.tg == s then [b] else [])
  {
    var bios, bios' := h.bios, h.bios[q := Held(h.bios, q) + [b]];
    AddStep(bios, q, b, Qnode(s, false), s);
    if b.tg != s || !q.onParent {
      SubmitElsewhere(up, bios, q, b, s);
    } else {
      EmptyQnodes(up, h, q, s);
      SubmitLine(up, bios, q.tg, b);
    }
  }

  /** No qnode on the path below where the bio is queued holds any. */
  lemma EmptyQnodes(up: seq<nat>, h: Half, q: Qnode, s: nat)
    requires HalfOk(up, h) && s < |up| && Entry(up, s, q) && q.onParent && EmptyBelow(up, h.nr, s, Home(up, q))
    ensures Held(h.bios, Qnode(s, false)) == []
    ensures forall y :: 0 <= y < q.tg && Reach(up, s, y) ==> Held(h.bios, Qnode(y, true)) == []
  {
    ReachAbove(up, s, q.tg);
    EmptyIffUncounted(up, h, s);
    forall y | 0 <= y < q.tg && Reach(up, s, y) ensures Held(h.bios, Qnode(y, true)) == [] {
      ReachLine(up, s, y, q.tg);
      ReachNext(up, s, y);
      EmptyIffUncounted(up, h, up[y]);
    }
  }

  lemma SubmitLine(up: seq<nat>, bios: Bios, x: nat, b: Bio)
    requires IsTree(up) && x < |up| && Reach(up, b.tg, x)
    requires forall y :: 0 <= y < x && Reach(up, b.tg, y) ==> Held(bios, Qnode(y, true)) == []
    ensures var q := Qnode(x, true);
      Line(up, bios[q := Held(bios, q) + [b]], b.tg, b.tg) == Line(up, bios, b.tg, b.tg) + [b]
  {
    var q, s := Qnode(x, true), b.tg;
    var bios' := bios[q := Held(bios, q) + [b]];
    LineTail(up, bios, s, s, x);
    LineTail(up, bios', s, s, x);
    forall y | up[x] <= y < |up| ensures Step(bios', s, y) == Step(bios, s, y) {
      AddStep(bios, q, b, Qnode(y, true), s);
    }
    LineFrame(up, bios, bios', s, up[x]);
    AddStep(bios, q, b, q, s);
    Assoc(Line(up, bios, s, up[x]), Step(bios, s, x), [b]);
  }

  lemma SubmitSourced(up: seq<nat>, bios: Bios, q: Qnode, b: Bio)
    requires Sourced(up, bios) && Fits(up, q, b)
    ensures Sourced(up, bios[q := Held(bios, q) + [b]])
  {
    var had := Held(bios, q);
    var bios' := bios[q := had + [b]];
    forall r, i | 0 <= i < |Held(bios', r)| ensures Fits(up, r, Held(bios', r)[i]) {
      if r != q || i < |had| {
        assert Fits(up, r, Held(bios, r)[i]);
      }
    }
  }
}
