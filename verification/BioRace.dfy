/**
 * What goes wrong when `bio_endio` calls overlap: the test of BIO_UPTODATE and the drop of bi_remaining are two
 * steps, and a failure recorded between them is lost.
 */
module BioRace {
  import opened Options
  import opened BioChain
  import opened BioErrors
  import opened BioSerial

  lemma Tail(s: State, run: seq<Action>)
    requires Legal(s, run) && run != []
    ensures Forest(s) && Enabled(s, run[0]) && Legal(Apply(s, run[0]), run[1..])
    ensures Exec(s, run) == Exec(Apply(s, run[0]), run[1..])
  {
  }

  lemma Cons(s: State, a: Action, rest: seq<Action>)
    requires Forest(s) && Enabled(s, a) && Legal(Apply(s, a), rest)
    ensures Legal(s, [a] + rest) && Exec(s, [a] + rest) == Exec(Apply(s, a), rest)
  {
    assert ([a] + rest)[1..] == rest;
  }

  lemma ConsConcat(s: State, a: seq<Action>, b: seq<Action>)
    requires a != [] && Forest(s) && Enabled(s, a[0]) && Legal(Apply(s, a[0]), a[1..] + b)
    ensures Legal(s, a + b) && Exec(s, a + b) == Exec(Apply(s, a[0]), a[1..] + b)
  {
    Cons(s, a[0], a[1..] + b);
    assert [a[0]] + (a[1..] + b) == a + b;
  }

  lemma {:induction false} Concat(s: State, a: seq<Action>, b: seq<Action>)
    requires Legal(s, a) && Legal(Exec(s, a), b)
    ensures Legal(s, a + b) && Exec(s, a + b) == Exec(Exec(s, a), b)
    decreases |a|
  {
    if a == [] {
      assert a + b == b;
    } else {
      Tail(s, a);
      Concat(Apply(s, a[0]), a[1..], b);
      ConsConcat(s, a, b);
    }
  }

  lemma Single(s: State, a: Action)
    requires Forest(s) && Enabled(s, a)
    ensures Legal(s, [a]) && Exec(s, [a]) == Apply(s, a)
  {
    Cons(s, a, []);
    assert [a] + [] == [a];
  }

  lemma Pair(s: State, a: Action, b: Action)
    requires Forest(s) && Enabled(s, a) && Forest(Apply(s, a)) && Enabled(Apply(s, a), b)
    ensures Legal(s, [a, b]) && Exec(s, [a, b]) == Apply(Apply(s, a), b)
  {
    Single(s, a);
    Single(Apply(s, a), b);
    Concat(s, [a], [b]);
    assert [a] + [b] == [a, b];
  }

  lemma ArriveRun(s: State, src: Source, x: nat)
    requires Inv(s) && At(s, src) == Some(x) && x < |s.bios| && StatusOf(s, src).Entered?
    ensures Legal(s, [Check(src), Drop(src)]) && Exec(s, [Check(src), Drop(src)]) == Arrive(s, src, x)
  {
    CheckInv(s, src, x);
    DropAfterCheck(s, src, x);
    Pair(s, Check(src), Drop(src));
  }

  lemma ArriveInv(s: State, src: Source, x: nat)
    requires Inv(s) && At(s, src) == Some(x) && x < |s.bios| && StatusOf(s, src).Entered?
    ensures Inv(Arrive(s, src, x)) && SameTree(s, Arrive(s, src, x))
  {
    CheckInv(s, src, x);
    DropAfterCheck(s, src, x);
    DropInv(CheckAt(s, src, x), src, x);
  }

  /** `y` is `x` or chained below it. */
  ghost predicate Under(s: State, y: nat, x: nat)
    requires Forest(s) && y < |s.bios|
    decreases s.rank[y]
  {
    y == x || (s.bios[y].parent.Some? && Under(s, s.bios[y].parent.value, x))
  }

  lemma {:induction false} SameUnder(s: State, t: State, y: nat, x: nat)
    requires Forest(s) && SameTree(s, t) && y < |s.bios|
    ensures Forest(t) && (Under(t, y, x) <==> Under(s, y, x))
    decreases s.rank[y]
  {
    if y != x && s.bios[y].parent.Some? {
      SameUnder(s, t, s.bios[y].parent.value, x);
    }
  }

  lemma {:induction false} UnderRank(s: State, y: nat, x: nat)
    requires Forest(s) && y < |s.bios| && x < |s.bios| && Under(s, y, x)
    ensures s.rank[x] <= s.rank[y] && RootOf(s, y) == RootOf(s, x)
    decreases s.rank[y]
  {
    if y != x {
      UnderRank(s, s.bios[y].parent.value, x);
    }
  }

  /** Nothing is inside `bio_endio` but the sources `a` and `b`. */
  ghost predicate QuietBut(s: State, a: Source, b: Source) {
    forall y :: 0 <= y < |s.bios| ==>
      && (a != Own(y) && b != Own(y) ==> s.bios[y].own.Waiting? || s.bios[y].own.Arrived?)
      && (a != Up(y) && b != Up(y) ==> s.bios[y].up.Waiting? || s.bios[y].up.Arrived?)
  }

  /** The source `late` has tested BIO_UPTODATE of `x` and found it set, but not yet dropped its count. */
  ghost predicate Held(s: State, late: Source, x: nat) {
    Inv(s) && x < |s.bios| && At(s, late) == Some(x) && StatusOf(s, late) == Checked(0)
  }

  /** What a call below `x` does not touch. */
  ghost predicate Within(s: State, t: State, x: nat)
    requires Forest(s)
  {
    && SameTree(s, t) && Onward(s, t)
    && forall y :: 0 <= y < |s.bios| && !Under(s, y, x) ==> t.bios[y] == s.bios[y]
  }

  lemma WithinTrans(s: State, t: State, u: State, x: nat)
    requires Forest(s) && Within(s, t, x) && Forest(t) && Within(t, u, x)
    ensures Within(s, u, x)
  {
    forall y | 0 <= y < |s.bios| && !Under(s, y, x)
      ensures u.bios[y] == s.bios[y]
    {
      SameUnder(s, t, y, x);
    }
  }

  /** A call inside `bio_endio` at `z`, below `x`, while `late` is held up at `x`. */
  ghost predicate Passing(s: State, src: Source, z: nat, late: Source, x: nat) {
    && Held(s, late, x) && At(s, src) == Some(z) && z < |s.bios| && Under(s, z, x)
    && StatusOf(s, src).Entered? && QuietBut(s, src, late)
    && (src.Up? ==> Under(s, src.c, x))
  }

  lemma ArriveHeld(s: State, src: Source, z: nat, late: Source, x: nat)
    requires Passing(s, src, z, late, x)
    ensures var t := Arrive(s, src, z);
      && Held(t, late, x)
      && (t.bios[z].up.Entered? ==> z != x && s.bios[z].parent.Some? && Up(z) != late)
  {
    var t := Arrive(s, src, z);
    var y := if late.Own? then late.b else late.c;
    ArriveInv(s, src, z);
    Clear(s, src, z);
    ArriveEffect(s, src, z, z);
    ArriveEffect(s, src, z, y);
    SourceDue(t, late, x);
  }

  lemma ArriveStays(s: State, src: Source, z: nat, late: Source, x: nat, y: nat)
    requires Passing(s, src, z, late, x) && y < |s.bios|
    ensures var t := Arrive(s, src, z); var a, b := s.bios[y], t.bios[y];
      && |t.bios| == |s.bios| && b.result == a.result && (b.own.Waiting? <==> a.own.Waiting?)
      && (!Under(s, y, x) ==> b == a)
  {
    Clear(s, src, z);
    ArriveEffect(s, src, z, y);
  }

  lemma ArriveWithin(s: State, src: Source, z: nat, late: Source, x: nat)
    requires Passing(s, src, z, late, x)
    ensures Within(s, Arrive(s, src, z), x)
  {
    var t := Arrive(s, src, z);
    ArriveInv(s, src, z);
    forall y | 0 <= y < |s.bios|
      ensures t.bios[y].result == s.bios[y].result && (t.bios[y].own.Waiting? <==> s.bios[y].own.Waiting?)
      ensures !Under(s, y, x) ==> t.bios[y] == s.bios[y]
    {
      ArriveStays(s, src, z, late, x, y);
    }
  }

  lemma ArriveQuiet(s: State, src: Source, z: nat, late: Source, x: nat)
    requires Passing(s, src, z, late, x)
    ensures var t := Arrive(s, src, z);
      && |t.bios| == |s.bios| && QuietBut(t, Up(z), late)
      && (!t.bios[z].up.Entered? ==> QuietBut(t, late, late))
  {
    var t := Arrive(s, src, z);
    Clear(s, src, z);
    ArriveEffect(s, src, z, z);
    forall y | 0 <= y < |s.bios|
      ensures t.bios[y].own == (if src == Own(y) then Arrived else s.bios[y].own)
      ensures y != z ==> t.bios[y].up == if src == Up(y) then Arrived else s.bios[y].up
    {
      ArriveEffect(s, src, z, y);
    }
  }

  /** A call that started below `x` runs to its end without getting past `x`. */
  lemma {:induction false} FinishBelow(s: State, src: Source, z: nat, late: Source, x: nat) returns (run: seq<Action>)
    requires Passing(s, src, z, late, x)
    ensures Legal(s, run)
    ensures Held(Exec(s, run), late, x) && Within(s, Exec(s, run), x) && QuietBut(Exec(s, run), late, late)
    decreases s.rank[z]
  {
    ArriveRun(s, src, z);
    ArriveHeld(s, src, z, late, x);
    ArriveWithin(s, src, z, late, x);
    ArriveQuiet(s, src, z, late, x);
    var t := Arrive(s, src, z);
    run := [Check(src), Drop(src)];
    if t.bios[z].up.Entered? {
      var p := s.bios[z].parent.value;
      SameUnder(s, t, z, x);
      SameUnder(s, t, p, x);
      var rest := FinishBelow(t, Up(z), p, late, x);
      Concat(s, run, rest);
      WithinTrans(s, t, Exec(t, rest), x);
      run := run + rest;
    }
  }

  /** Every bio that was started was given the outcome `out`. */
  ghost predicate Following(s: State, out: nat -> int) {
    forall y :: 0 <= y < |s.bios| && !s.bios[y].own.Waiting? ==> s.bios[y].result == Some(out(y))
  }

  /** The tree is the same, and nothing outside `x` has changed. */
  ghost predicate Beyond(s: State, t: State, x: nat)
    requires Forest(s)
  {
    SameTree(s, t) && forall y :: 0 <= y < |s.bios| && !Under(s, y, x) ==> t.bios[y] == s.bios[y]
  }

  lemma BeyondTrans(s: State, t: State, u: State, x: nat)
    requires Forest(s) && Beyond(s, t, x) && Forest(t) && Beyond(t, u, x)
    ensures Beyond(s, u, x)
  {
    forall y | 0 <= y < |s.bios| && !Under(s, y, x)
      ensures u.bios[y] == s.bios[y]
    {
      SameUnder(s, t, y, x);
    }
  }

  ghost predicate Waits(s: State, late: Source, x: nat, out: nat -> int) {
    Held(s, late, x) && QuietBut(s, late, late) && Following(s, out)
  }

  lemma {:induction false} StartKeeps(s: State, b: nat, late: Source, x: nat, out: nat -> int)
    requires Forest(s) && b < |s.bios| && s.bios[b].own.Waiting? && QuietBut(s, late, late) && Following(s, out)
    requires Under(s, b, x)
    requires Enabled(s, Start(b, out(b)))
    ensures var t := Apply(s, Start(b, out(b)));
      QuietBut(t, Own(b), late) && Following(t, out) && Beyond(s, t, x) && Started(s, t)
  {
  }

  lemma {:induction false} StartPasses(s: State, b: nat, late: Source, x: nat, out: nat -> int)
    requires Waits(s, late, x, out) && b < |s.bios| && Under(s, b, x) && s.bios[b].own.Waiting?
    ensures var t := Apply(s, Start(b, out(b)));
      Passing(t, Own(b), b, late, x) && Following(t, out) && Beyond(s, t, x) && Started(s, t)
  {
    StartKeeps(s, b, late, x, out);
    StartHeld(s, b, late, x, out(b));
    SameUnder(s, Apply(s, Start(b, out(b))), b, x);
  }

  lemma StartHeld(s: State, b: nat, late: Source, x: nat, err: int)
    requires Held(s, late, x) && Enabled(s, Start(b, err))
    ensures var t := Apply(s, Start(b, err));
      Held(t, late, x) && At(t, Own(b)) == Some(b) && StatusOf(t, Own(b)).Entered?
  {
    StartInv(s, b, err);
  }

  /** No completion is undone. */
  ghost predicate Started(s: State, t: State) {
    |t.bios| == |s.bios| && forall y :: 0 <= y < |s.bios| && !s.bios[y].own.Waiting? ==> !t.bios[y].own.Waiting?
  }

  lemma {:induction false} WithinFollows(s: State, t: State, x: nat, out: nat -> int)
    requires Forest(s) && Within(s, t, x) && Following(s, out)
    ensures Following(t, out) && Beyond(s, t, x) && Started(s, t)
  {
  }

  lemma {:induction false} CompleteOne(s: State, b: nat, late: Source, x: nat, out: nat -> int)
    returns (run: seq<Action>)
    requires Waits(s, late, x, out) && b < |s.bios| && Under(s, b, x) && s.bios[b].own.Waiting?
    ensures Legal(s, run)
    ensures var t := Exec(s, run);
      Waits(t, late, x, out) && Beyond(s, t, x) && Started(s, t) && !t.bios[b].own.Waiting?
  {
    var a := Start(b, out(b));
    var s1 := Apply(s, a);
    StartPasses(s, b, late, x, out);
    var rest := FinishBelow(s1, Own(b), b, late, x);
    Single(s, a);
    Concat(s, [a], rest);
    run := [a] + rest;
    WithinFollows(s1, Exec(s1, rest), x, out);
    BeyondTrans(s, s1, Exec(s1, rest), x);
  }

  /** Everything below `x` among the first `k` bios has been started. */
  ghost predicate StartedTo(s: State, k: nat, x: nat)
    requires Forest(s)
  {
    k <= |s.bios| && forall y :: 0 <= y < k && Under(s, y, x) ==> !s.bios[y].own.Waiting?
  }

  lemma SkipOne(s: State, k: nat, x: nat)
    requires Forest(s) && StartedTo(s, k, x) && k < |s.bios| && !(Under(s, k, x) && s.bios[k].own.Waiting?)
    ensures StartedTo(s, k + 1, x)
  {
  }

  lemma OneMore(s: State, t: State, k: nat, x: nat)
    requires Forest(s) && SameTree(s, t) && Forest(t) && Started(s, t) && StartedTo(s, k, x) && k < |s.bios|
    requires !t.bios[k].own.Waiting?
    ensures StartedTo(t, k + 1, x)
  {
    forall y | 0 <= y < k + 1 && Under(t, y, x)
      ensures !t.bios[y].own.Waiting?
    {
      SameUnder(s, t, y, x);
    }
  }

  lemma {:induction false} CompleteNext(s: State, k: nat, late: Source, x: nat, out: nat -> int)
    returns (run: seq<Action>)
    requires Waits(s, late, x, out) && StartedTo(s, k, x) && k < |s.bios|
    ensures Legal(s, run)
    ensures var t := Exec(s, run);
      Waits(t, late, x, out) && Beyond(s, t, x) && StartedTo(t, k + 1, x)
  {
    if Under(s, k, x) && s.bios[k].own.Waiting? {
      run := CompleteOne(s, k, late, x, out);
      OneMore(s, Exec(s, run), k, x);
    } else {
      run := [];
      SkipOne(s, k, x);
    }
  }

  lemma {:induction false} CompleteBelow(s: State, k: nat, late: Source, x: nat, out: nat -> int)
    returns (run: seq<Action>)
    requires Waits(s, late, x, out) && StartedTo(s, k, x)
    ensures Legal(s, run)
    ensures var t := Exec(s, run);
      Waits(t, late, x, out) && Beyond(s, t, x) && StartedTo(t, |t.bios|, x)
    decreases |s.bios| - k
  {
    run := [];
    if k < |s.bios| {
      run := CompleteNext(s, k, late, x, out);
      var t := Exec(s, run);
      var rest := CompleteBelow(t, k + 1, late, x, out);
      Concat(s, run, rest);
      BeyondTrans(s, t, Exec(t, rest), x);
      run := run + rest;
    }
  }

  /** Once everything below `c` has completed and nothing is on its way there, `c` is done. */
  lemma {:induction false} Settled(s: State, c: nat, m: nat)
    requires Inv(s) && c < |s.bios| && (forall y :: 0 <= y < |s.bios| ==> s.rank[y] <= m)
    requires forall y :: 0 <= y < |s.bios| && Under(s, y, c) ==> s.bios[y].own.Arrived?
    requires forall y :: 0 <= y < |s.bios| && Under(s, y, c) ==> s.bios[y].up.Waiting? || s.bios[y].up.Arrived?
    ensures s.bios[c].remaining == 0
    decreases m - s.rank[c]
  {
    forall d | d in Pending(s, c)
      ensures false
    {
      forall y | 0 <= y < |s.bios| && Under(s, y, d)
        ensures Under(s, y, c)
      {
        UnderTrans(s, y, d, c);
      }
      assert Under(s, d, c);
      assert Passed(s.bios[d]);
      Settled(s, d, m);
    }
    assert Pending(s, c) == {};
  }

  /** Once every bio of a tree has completed and no call is under way in it, the root's end_io has run. */
  lemma EndsWhenAllComplete(s: State, r: nat)
    requires Inv(s) && r < |s.bios| && s.bios[r].parent.None?
    requires forall y :: 0 <= y < |s.bios| && RootOf(s, y) == r ==>
      s.bios[y].own.Arrived? && (s.bios[y].up.Waiting? || s.bios[y].up.Arrived?)
    ensures |s.bios[r].ended| == 1
  {
    forall y | 0 <= y < |s.bios| && Under(s, y, r)
      ensures RootOf(s, y) == r
    {
      UnderRank(s, y, r);
    }
    Settled(s, r, MaxOf(s.rank));
    assert Passed(s.bios[r]);
  }

  lemma {:induction false} UnderTrans(s: State, y: nat, d: nat, c: nat)
    requires Forest(s) && y < |s.bios| && d < |s.bios| && Under(s, y, d) && Under(s, d, c)
    ensures Under(s, y, c)
    decreases s.rank[y]
  {
    if y != d {
      UnderTrans(s, s.bios[y].parent.value, d, c);
    }
  }

  function MaxOf(r: seq<nat>): (m: nat)
    ensures forall i :: 0 <= i < |r| ==> r[i] <= m
  {
    if r == [] then 0 else var m := MaxOf(r[..|r| - 1]); if m < r[|r| - 1] then r[|r| - 1] else m
  }

  lemma ChildSettled(s: State, late: Source, x: nat, c: nat)
    requires Held(s, late, x) && QuietBut(s, late, late) && StartedTo(s, |s.bios|, x)
    requires c < |s.bios| && s.bios[c].parent == Some(x) && late != Up(c)
    ensures s.bios[c].up.Arrived?
  {
    forall y | 0 <= y < |s.bios| && Under(s, y, c)
      ensures s.bios[y].own.Arrived? && (s.bios[y].up.Waiting? || s.bios[y].up.Arrived?)
    {
      UnderRank(s, y, c);
      UnderTrans(s, y, c, x);
      NotBelowSibling(s, late, x, c, y);
    }
    Settled(s, c, MaxOf(s.rank));
    assert Passed(s.bios[c]);
  }

  lemma NotBelowSibling(s: State, late: Source, x: nat, c: nat, y: nat)
    requires Forest(s) && x < |s.bios| && At(s, late) == Some(x) && c < |s.bios| && s.bios[c].parent == Some(x)
    requires late != Up(c) && y < |s.bios| && Under(s, y, c)
    ensures late != Own(y) && late != Up(y)
  {
    UnderRank(s, y, c);
    if late == Up(y) {
      UnderRank(s, x, c);
    }
  }

  /** With everything below `x` complete, the held source is the last one. */
  lemma LastOne(s: State, late: Source, x: nat)
    requires Held(s, late, x) && QuietBut(s, late, late) && StartedTo(s, |s.bios|, x)
    ensures s.bios[x].remaining == 1
  {
    forall c | c in Pending(s, x)
      ensures late == Up(c)
    {
      if late != Up(c) {
        ChildSettled(s, late, x, c);
      }
    }
    assert Under(s, x, x);
    if late.Own? {
      assert Pending(s, x) == {};
    } else {
      assert Pending(s, x) == {late.c};
    }
  }

  lemma DropLast(s: State, late: Source, x: nat, y: nat)
    requires Held(s, late, x) && s.bios[x].remaining == 1 && y < |s.bios|
    ensures var t := DropAt(s, late, x); var a, b := s.bios[y], t.bios[y];
      && |t.bios| == |s.bios| && t.rank == s.rank && b.parent == a.parent && b.result == a.result
      && b.uptodate == a.uptodate
      && b.own == (if late == Own(y) then Arrived else a.own)
      && b.up == (if late == Up(y) then Arrived
                  else if y == x && a.parent.Some? then Entered(0) else a.up)
      && b.ended == a.ended + (if y == x && a.parent.None? then [0] else [])
      && (y != x && late != Up(y) ==> b == a)
  {
    assert Passed(s.bios[x]);
  }

  ghost predicate FreshBio(b: Bio) {
    b.own.Waiting? && b.uptodate && b.result.None?
  }

  ghost predicate FreshBeyond(s: State, x: nat)
    requires Forest(s)
  {
    forall y :: 0 <= y < |s.bios| && !Under(s, y, x) ==> FreshBio(s.bios[y])
  }

  lemma {:induction false} LevelDrop(s: State, late: Source, x: nat, p: nat, out: nat -> int)
    requires Waits(s, late, x, out) && s.bios[x].remaining == 1 && s.bios[x].parent == Some(p) && FreshBeyond(s, x)
    ensures var t := DropAt(s, late, x);
      && Inv(t) && SameTree(s, t) && t.bios[x].up == Entered(0)
      && QuietBut(t, Up(x), Up(x)) && Following(t, out) && FreshBeyond(t, x)
  {
    var t := DropAt(s, late, x);
    DropInv(s, late, x);
    forall y | 0 <= y < |s.bios|
      ensures t.bios[y].result == s.bios[y].result && t.bios[y].uptodate == s.bios[y].uptodate
      ensures t.bios[y].own == (if late == Own(y) then Arrived else s.bios[y].own)
      ensures t.bios[y].up == if late == Up(y) then Arrived else if y == x then Entered(0) else s.bios[y].up
      ensures Under(t, y, x) <==> Under(s, y, x)
      ensures late == Own(y) ==> Under(s, y, x)
    {
      DropLast(s, late, x, y);
      SameUnder(s, t, y, x);
    }
  }

  lemma {:induction false} LevelCheck(t: State, x: nat, p: nat, out: nat -> int)
    requires Inv(t) && x < |t.bios| && t.bios[x].parent == Some(p) && t.bios[x].up == Entered(0)
    requires QuietBut(t, Up(x), Up(x)) && Following(t, out) && FreshBeyond(t, x)
    ensures var u := CheckAt(t, Up(x), p);
      SameTree(t, u) && Waits(u, Up(x), p, out) && FreshBeyond(u, p)
  {
    if Under(t, p, x) {
      UnderRank(t, p, x);
    }
    CheckHolds(t, x, p);
    var u := CheckAt(t, Up(x), p);
    forall y | 0 <= y < |t.bios| && !Under(u, y, p)
      ensures FreshBio(u.bios[y])
    {
      SameUnder(t, u, y, p);
      if Under(t, y, x) {
        assert Under(t, x, p);
        UnderTrans(t, y, x, p);
      }
    }
  }

  /** The held source finishes `x` and is held again, still without an error, at the parent. */
  lemma {:induction false} NextLevel(s: State, late: Source, x: nat, p: nat, out: nat -> int)
    requires Waits(s, late, x, out) && s.bios[x].remaining == 1 && s.bios[x].parent == Some(p) && FreshBeyond(s, x)
    ensures p < |s.bios| && Legal(s, [Drop(late), Check(Up(x))])
    ensures var t := Exec(s, [Drop(late), Check(Up(x))]);
      SameTree(s, t) && Waits(t, Up(x), p, out) && FreshBeyond(t, p)
  {
    var t := DropAt(s, late, x);
    LevelDrop(s, late, x, p, out);
    LevelCheck(t, x, p, out);
    Pair(s, Drop(late), Check(Up(x)));
  }

  lemma CheckHolds(t: State, x: nat, p: nat)
    requires Inv(t) && x < |t.bios| && t.bios[x].parent == Some(p) && t.bios[x].up == Entered(0) && t.bios[p].uptodate
    ensures var u := CheckAt(t, Up(x), p);
      && u == t.(bios := t.bios[x := t.bios[x].(up := Checked(0))])
      && Held(u, Up(x), p) && SameTree(t, u)
  {
    CheckInv(t, Up(x), p);
  }

  /** All of the tree of `r` has completed as `out` says, and its end_io was told of no error. */
  ghost predicate Lost(t: State, r: nat, out: nat -> int) {
    && Inv(t) && r < |t.bios| && t.bios[r].ended == [0]
    && forall y :: 0 <= y < |t.bios| && RootOf(t, y) == r ==> t.bios[y].own.Arrived? && t.bios[y].result == Some(out(y))
  }

  lemma {:induction false} FinishRoot(s: State, late: Source, r: nat, out: nat -> int)
    requires Waits(s, late, r, out) && s.bios[r].remaining == 1 && s.bios[r].parent.None?
    ensures Legal(s, [Drop(late)]) && SameTree(s, Exec(s, [Drop(late)])) && Lost(Exec(s, [Drop(late)]), r, out)
  {
    var t := DropAt(s, late, r);
    Single(s, Drop(late));
    DropInv(s, late, r);
    DropLast(s, late, r, r);
    assert Passed(s.bios[r]);
    forall y | 0 <= y < |t.bios| && RootOf(t, y) == r
      ensures t.bios[y].own.Arrived? && t.bios[y].result == Some(out(y))
    {
      DropLast(s, late, r, y);
      DoneBelow(t, y);
    }
  }

  /** From any bio that a source is held at, the loss can be carried to the root. */
  lemma {:induction false} Rise(s: State, late: Source, x: nat, out: nat -> int) returns (run: seq<Action>)
    requires Waits(s, late, x, out) && FreshBeyond(s, x)
    ensures Legal(s, run) && SameTree(s, Exec(s, run)) && Lost(Exec(s, run), RootOf(s, x), out)
    decreases s.rank[x]
  {
    run := CompleteBelow(s, 0, late, x, out);
    var t := Exec(s, run);
    LastOne(t, late, x);
    KeepFresh(s, t, x);
    SameRoot(s, t, x);
    var rest;
    if t.bios[x].parent.None? {
      FinishRoot(t, late, x, out);
      rest := [Drop(late)];
    } else {
      var p := t.bios[x].parent.value;
      NextLevel(t, late, x, p, out);
      var step := [Drop(late), Check(Up(x))];
      var u := Exec(t, step);
      SameRoot(t, u, p);
      var more := Rise(u, Up(x), p, out);
      Concat(t, step, more);
      rest := step + more;
    }
    Concat(s, run, rest);
    run := run + rest;
  }

  lemma KeepFresh(s: State, t: State, x: nat)
    requires Forest(s) && FreshBeyond(s, x) && Beyond(s, t, x) && Forest(t)
    ensures FreshBeyond(t, x)
  {
    forall y | 0 <= y < |t.bios| && !Under(t, y, x)
      ensures FreshBio(t.bios[y])
    {
      SameUnder(s, t, y, x);
    }
  }

  /** A forest built by `bio_chain` of which nothing has completed yet. */
  ghost predicate Built(s: State) {
    Inv(s) && forall y :: 0 <= y < |s.bios| ==> FreshBio(s.bios[y])
  }

  /**
   * If some bio of the tree succeeds, there is an interleaving in which every bio completes with its own
   * outcome and the root is told of no error, however many of the others fail.
   */
  lemma {:induction false} ErrorCanBeLost(s: State, v: nat, out: nat -> int) returns (run: seq<Action>)
    requires Built(s) && v < |s.bios| && out(v) == 0
    ensures Legal(s, run) && SameTree(s, Exec(s, run)) && Lost(Exec(s, run), RootOf(s, v), out)
  {
    HoldFirst(s, v, out);
    var first := [Start(v, 0), Check(Own(v))];
    var s2 := Exec(s, first);
    var rest := Rise(s2, Own(v), v, out);
    Concat(s, first, rest);
    SameRoot(s, s2, v);
    run := first + rest;
  }

  lemma {:induction false} HoldFirst(s: State, v: nat, out: nat -> int)
    requires Built(s) && v < |s.bios| && out(v) == 0
    ensures Legal(s, [Start(v, 0), Check(Own(v))])
    ensures var t := Exec(s, [Start(v, 0), Check(Own(v))]);
      SameTree(s, t) && Waits(t, Own(v), v, out) && FreshBeyond(t, v)
  {
    var a := Start(v, 0);
    var s1 := Apply(s, a);
    StartInv(s, v, 0);
    CheckInv(s1, Own(v), v);
    Pair(s, a, Check(Own(v)));
    BuiltQuiet(s);
    assert Under(CheckAt(s1, Own(v), v), v, v);
  }

  lemma BuiltQuiet(s: State)
    requires Built(s)
    ensures forall y :: 0 <= y < |s.bios| ==> s.bios[y].up.Waiting?
  {
    forall y | 0 <= y < |s.bios|
      ensures s.bios[y].up.Waiting?
    {
      assert Passed(s.bios[y]);
      assert s.bios[y].remaining > 0;
    }
  }

  /** The run completes bios of this forest, each bio of the tree of `r` as `out` says, and `r` has ended. */
  ghost predicate Completes(s: State, run: seq<Action>, r: nat, out: nat -> int) {
    && Forest(s) && Legal(s, run) && SameTree(s, Exec(s, run)) && r < |s.bios| && Exec(s, run).bios[r].ended != []
    && forall y :: 0 <= y < |s.bios| && RootOf(s, y) == r && Exec(s, run).bios[y].result.Some? ==>
        Exec(s, run).bios[y].result.value == out(y)
  }

  /** The error the root's end_io receives says whether any bio of the tree failed. */
  ghost predicate LawHolds(s: State, run: seq<Action>, r: nat, out: nat -> int)
    requires Completes(s, run, r, out)
  {
    Exec(s, run).bios[r].ended[0] != 0 <==> SomeBio(s, r, out, true)
  }

  /** Some bio of the tree of `r` is to fail, or to succeed. */
  ghost predicate SomeBio(s: State, r: nat, out: nat -> int, failed: bool)
    requires Forest(s)
  {
    exists y :: 0 <= y < |s.bios| && RootOf(s, y) == r && (out(y) != 0) == failed
  }

  lemma BuiltGood(s: State)
    requires Built(s)
    ensures Good(s)
  {
    BuiltQuiet(s);
    forall x, f | 0 <= x < |s.bios|
      ensures !Says(s.bios[x], f)
    {
      assert Passed(s.bios[x]);
      assert s.bios[x].remaining > 0;
    }
  }

  lemma {:induction false} EndedTellsOutcome(s: State, run: seq<Action>, r: nat, out: nat -> int)
    requires Built(s) && Completes(s, run, r, out)
    ensures SomeBio(s, r, out, Exec(s, run).bios[r].ended[0] != 0)
  {
    BuiltGood(s);
    ReportedErrorHappened(s, run, r);
    var t := Exec(s, run);
    var f := t.bios[r].ended[0] != 0;
    var y :| Tells(t, r, f, y);
    SameRoot(s, t, y);
  }

  lemma {:induction false} LostBreaksLaw(s: State, v: nat, out: nat -> int) returns (run: seq<Action>)
    requires Built(s) && v < |s.bios| && out(v) == 0 && SomeBio(s, RootOf(s, v), out, true)
    ensures Completes(s, run, RootOf(s, v), out) && !LawHolds(s, run, RootOf(s, v), out)
  {
    run := ErrorCanBeLost(s, v, out);
    var r, t := RootOf(s, v), Exec(s, run);
    forall y | 0 <= y < |s.bios| && RootOf(s, y) == r
      ensures t.bios[y].result == Some(out(y))
    {
      SameRoot(s, t, y);
    }
  }

  /**
   * Over all interleavings the root is told the truth if and only if the bios of its tree all fail or all
   * succeed.
   */
  lemma {:induction false} ErrorLawExact(s: State, r: nat, out: nat -> int)
    requires Built(s) && r < |s.bios|
    ensures (forall run :: Completes(s, run, r, out) ==> LawHolds(s, run, r, out)) <==>
      !(SomeBio(s, r, out, true) && SomeBio(s, r, out, false))
  {
    if SomeBio(s, r, out, true) && SomeBio(s, r, out, false) {
      var v :| 0 <= v < |s.bios| && RootOf(s, v) == r && out(v) == 0;
      var run := LostBreaksLaw(s, v, out);
    } else {
      forall run | Completes(s, run, r, out)
        ensures LawHolds(s, run, r, out)
      {
        EndedTellsOutcome(s, run, r, out);
      }
    }
  }
}
