/** Which error the end_io of a chain receives. */
module BioErrors {
  import opened Options
  import opened BioChain

  /** Some bio of the tree of `r` was completed with an error, or without one. */
  ghost predicate Told(s: State, r: nat, failed: bool)
    requires Forest(s)
  {
    exists y :: Tells(s, r, failed, y)
  }

  ghost predicate Tells(s: State, r: nat, failed: bool, y: nat)
    requires Forest(s)
  {
    y < |s.bios| && RootOf(s, y) == r && s.bios[y].result.Some? && (s.bios[y].result.value != 0) == failed
  }

  predicate Carries(st: Status, failed: bool) {
    (st.Entered? || st.Checked?) && (st.err != 0) == failed
  }

  /** The record of a bio speaks of an error, or of its absence. */
  predicate Says(b: Bio, failed: bool) {
    || Carries(b.own, failed) || Carries(b.up, failed)
    || (failed && !b.uptodate)
    || exists i :: 0 <= i < |b.ended| && (b.ended[i] != 0) == failed
  }

  /** Nothing is said of a tree that did not happen in it. */
  ghost predicate Honest(s: State)
    requires Forest(s)
  {
    forall x, f :: 0 <= x < |s.bios| && Says(s.bios[x], f) ==> Told(s, RootOf(s, x), f)
  }

  lemma ToldKept(s: State, t: State, r: nat, f: bool)
    requires Forest(s) && Told(s, r, f) && SameTree(s, t)
    requires forall y :: 0 <= y < |s.bios| && s.bios[y].result.Some? ==> t.bios[y].result == s.bios[y].result
    ensures Forest(t) && Told(t, r, f)
  {
    var y :| Tells(s, r, f, y);
    SameRoot(s, t, y);
    assert Tells(t, r, f, y);
  }

  ghost predicate SaidIn(s: State, r: nat, f: bool)
    requires Forest(s)
  {
    exists z :: 0 <= z < |s.bios| && RootOf(s, z) == r && Says(s.bios[z], f)
  }

  ghost predicate Traced(s: State, t: State)
    requires Forest(s)
  {
    && |t.bios| == |s.bios|
    && (forall y :: 0 <= y < |s.bios| ==> t.bios[y].result == s.bios[y].result)
    && (forall x, f :: 0 <= x < |s.bios| && Says(t.bios[x], f) ==> SaidIn(s, RootOf(s, x), f))
  }

  /** A step within one tree: what a record says afterwards was said in its tree before. */
  lemma HonestFrame(s: State, t: State)
    requires Forest(s) && Honest(s) && SameTree(s, t) && Traced(s, t)
    ensures Forest(t) && Honest(t)
  {
    assert Forest(t);
    forall x, f | 0 <= x < |t.bios| && Says(t.bios[x], f)
      ensures Told(t, RootOf(t, x), f)
    {
      var z :| 0 <= z < |s.bios| && RootOf(s, z) == RootOf(s, x) && Says(s.bios[z], f);
      ToldKept(s, t, RootOf(s, z), f);
      SameRoot(s, t, x);
    }
  }

  lemma StartHonest(s: State, b: nat, err: int)
    requires Inv(s) && Honest(s) && Enabled(s, Start(b, err))
    requires Unstarted(s)
    ensures Inv(Apply(s, Start(b, err))) && Honest(Apply(s, Start(b, err)))
  {
    var t := Apply(s, Start(b, err));
    StartInv(s, b, err);
    assert SameTree(s, t);
    forall x, f | 0 <= x < |t.bios| && Says(t.bios[x], f)
      ensures Told(t, RootOf(t, x), f)
    {
      SameRoot(s, t, x);
      if x == b && f == (err != 0) {
        assert Tells(t, RootOf(t, b), f, b);
      } else {
        assert Says(s.bios[x], f);
        ToldKept(s, t, RootOf(s, x), f);
      }
    }
  }

  /** The tree of a source is the tree of the bio it completes. */
  lemma SourceRoot(s: State, src: Source, x: nat)
    requires Forest(s) && At(s, src) == Some(x) && x < |s.bios|
    ensures var y := if src.Own? then src.b else src.c;
      y < |s.bios| && RootOf(s, y) == RootOf(s, x)
  {
  }

  lemma CheckSays(s: State, src: Source, x: nat, y: nat, f: bool)
    requires x < |s.bios| && y < |s.bios| && At(s, src) == Some(x) && StatusOf(s, src).Entered?
    requires Says(CheckAt(s, src, x).bios[y], f)
    ensures var z := if src.Own? then src.b else src.c;
      Says(s.bios[y], f) || (y == x && Says(s.bios[z], f)) || (y == z && (Says(s.bios[x], f) || Says(s.bios[z], f)))
  {
  }

  lemma CheckTraced(s: State, src: Source, x: nat, y: nat, f: bool)
    requires Forest(s) && At(s, src) == Some(x) && x < |s.bios| && StatusOf(s, src).Entered? && y < |s.bios|
    ensures var t := CheckAt(s, src, x);
      && |t.bios| == |s.bios| && t.bios[y].result == s.bios[y].result
      && (Says(t.bios[y], f) ==> SaidIn(s, RootOf(s, y), f))
  {
    SourceRoot(s, src, x);
    if Says(CheckAt(s, src, x).bios[y], f) {
      CheckSays(s, src, x, y, f);
    }
  }

  lemma CheckAllTraced(s: State, src: Source, x: nat)
    requires Forest(s) && At(s, src) == Some(x) && x < |s.bios| && StatusOf(s, src).Entered?
    ensures Traced(s, CheckAt(s, src, x))
  {
    var t := CheckAt(s, src, x);
    forall y, f | 0 <= y < |s.bios|
      ensures t.bios[y].result == s.bios[y].result && (Says(t.bios[y], f) ==> SaidIn(s, RootOf(s, y), f))
    {
      CheckTraced(s, src, x, y, f);
    }
  }

  lemma CheckHonest(s: State, src: Source, x: nat)
    requires Inv(s) && Honest(s) && At(s, src) == Some(x) && x < |s.bios| && StatusOf(s, src).Entered?
    ensures Inv(CheckAt(s, src, x)) && Honest(CheckAt(s, src, x))
  {
    CheckInv(s, src, x);
    CheckAllTraced(s, src, x);
    HonestFrame(s, CheckAt(s, src, x));
  }

  lemma DropSays(s: State, src: Source, x: nat, y: nat, f: bool)
    requires x < |s.bios| && y < |s.bios| && At(s, src) == Some(x) && StatusOf(s, src).Checked?
    requires Says(DropAt(s, src, x).bios[y], f)
    ensures var z := if src.Own? then src.b else src.c;
      Says(s.bios[y], f) || (y == x && Says(s.bios[z], f))
  {
    var z := if src.Own? then src.b else src.c;
    if !Says(s.bios[y], f) && y == x {
      assert Carries(StatusOf(s, src), f);
    }
  }

  lemma DropTraced(s: State, src: Source, x: nat, y: nat, f: bool)
    requires Forest(s) && At(s, src) == Some(x) && x < |s.bios| && StatusOf(s, src).Checked? && y < |s.bios|
    ensures var t := DropAt(s, src, x);
      && |t.bios| == |s.bios| && t.bios[y].result == s.bios[y].result
      && (Says(t.bios[y], f) ==> SaidIn(s, RootOf(s, y), f))
  {
    SourceRoot(s, src, x);
    if Says(DropAt(s, src, x).bios[y], f) {
      DropSays(s, src, x, y, f);
    }
  }

  lemma DropHonest(s: State, src: Source, x: nat)
    requires Inv(s) && Honest(s) && At(s, src) == Some(x) && x < |s.bios| && StatusOf(s, src).Checked?
    ensures Inv(DropAt(s, src, x)) && Honest(DropAt(s, src, x))
  {
    var t := DropAt(s, src, x);
    DropInv(s, src, x);
    forall y, f | 0 <= y < |s.bios|
      ensures t.bios[y].result == s.bios[y].result && (Says(t.bios[y], f) ==> SaidIn(s, RootOf(s, y), f))
    {
      DropTraced(s, src, x, y, f);
    }
    HonestFrame(s, t);
  }

  // Building the tree

  lemma {:induction false} ChainRoot(s: State, b: nat, p: nat, y: nat)
    requires Inv(s) && Enabled(s, Chain(b, p)) && y < |s.bios|
    ensures Forest(Apply(s, Chain(b, p)))
    ensures RootOf(Apply(s, Chain(b, p)), y) == if RootOf(s, y) == b then RootOf(s, p) else RootOf(s, y)
    decreases s.rank[y] + (if RootOf(s, y) == b then 1 + s.rank[p] else 0)
  {
    ChainForest(s, b, p);
    ChainEffect(s, b, p, y);
    if y == b {
      ChainRoot(s, b, p, p);
    } else if s.bios[y].parent.Some? {
      ChainRoot(s, b, p, s.bios[y].parent.value);
    }
  }

  lemma ChainHonest(s: State, b: nat, p: nat)
    requires Inv(s) && Honest(s) && Enabled(s, Chain(b, p))
    ensures Inv(Apply(s, Chain(b, p))) && Honest(Apply(s, Chain(b, p)))
  {
    ChainInv(s, b, p);
    var t := Apply(s, Chain(b, p));
    forall x, f | 0 <= x < |t.bios| && Says(t.bios[x], f)
      ensures Told(t, RootOf(t, x), f)
    {
      ChainEffect(s, b, p, x);
      ChainRoot(s, b, p, x);
      assert Says(s.bios[x], f);
      var y :| Tells(s, RootOf(s, x), f, y);
      ChainRoot(s, b, p, y);
      ChainEffect(s, b, p, y);
      assert Tells(t, RootOf(t, x), f, y);
    }
  }

  lemma {:induction false} InitRoot(s: State, y: nat)
    requires Inv(s) && y < |s.bios|
    ensures Forest(Apply(s, Init)) && RootOf(Apply(s, Init), y) == RootOf(s, y)
    decreases s.rank[y]
  {
    InitInv(s);
    if s.bios[y].parent.Some? {
      InitRoot(s, s.bios[y].parent.value);
    }
  }

  lemma InitHonest(s: State)
    requires Inv(s) && Honest(s)
    ensures Inv(Apply(s, Init)) && Honest(Apply(s, Init))
  {
    InitInv(s);
    var t := Apply(s, Init);
    forall x, f | 0 <= x < |t.bios| && Says(t.bios[x], f)
      ensures Told(t, RootOf(t, x), f)
    {
      InitRoot(s, x);
      var y :| Tells(s, RootOf(s, x), f, y);
      InitRoot(s, y);
      assert Tells(t, RootOf(t, x), f, y);
    }
  }

  ghost predicate Unstarted(s: State) {
    forall x :: 0 <= x < |s.bios| && s.bios[x].own.Waiting? ==> s.bios[x].result.None?
  }

  ghost predicate Good(s: State) {
    Inv(s) && Honest(s) && Unstarted(s)
  }

  lemma WaitingKept(s: State, a: Action, x: nat)
    requires Forest(s) && Enabled(s, a) && x < |s.bios|
    ensures var t := Apply(s, a);
      && |s.bios| <= |t.bios| <= |s.bios| + 1
      && (t.bios[x].own.Waiting? ==> s.bios[x].own.Waiting? && t.bios[x].result == s.bios[x].result)
  {
    match a
    case Chain(b, p) => ChainEffect(s, b, p, x);
    case _ =>
  }

  lemma UnstartedStep(s: State, a: Action)
    requires Forest(s) && Unstarted(s) && Enabled(s, a)
    ensures Unstarted(Apply(s, a))
  {
    var t := Apply(s, a);
    forall x | 0 <= x < |t.bios| && t.bios[x].own.Waiting?
      ensures t.bios[x].result.None?
    {
      if x < |s.bios| {
        WaitingKept(s, a, x);
      }
    }
  }

  lemma GoodStep(s: State, a: Action)
    requires Good(s) && Enabled(s, a)
    ensures Good(Apply(s, a))
  {
    UnstartedStep(s, a);
    match a
    case Init => InitHonest(s);
    case Chain(b, p) => ChainHonest(s, b, p);
    case Start(b, err) => StartHonest(s, b, err);
    case Check(src) => CheckHonest(s, src, At(s, src).value);
    case Drop(src) => DropHonest(s, src, At(s, src).value);
  }

  lemma {:induction false} GoodInRuns(s: State, run: seq<Action>)
    requires Good(s) && Legal(s, run)
    ensures Good(Exec(s, run))
    decreases |run|
  {
    if run != [] {
      GoodStep(s, run[0]);
      GoodInRuns(Apply(s, run[0]), run[1..]);
    }
  }

  /**
   * In every interleaving, a root that receives an error has a failed bio below it, and one that receives
   * none has a bio that succeeded. So when all of the tree failed, or none of it, the root gets it right.
   */
  lemma ReportedErrorHappened(s: State, run: seq<Action>, r: nat)
    requires Good(s) && Legal(s, run) && r < |Exec(s, run).bios| && Exec(s, run).bios[r].ended != []
    ensures Forest(Exec(s, run)) && Exec(s, run).bios[r].parent.None?
    ensures Told(Exec(s, run), r, Exec(s, run).bios[r].ended[0] != 0)
  {
    GoodInRuns(s, run);
    var t := Exec(s, run);
    assert Passed(t.bios[r]);
    assert Says(t.bios[r], t.bios[r].ended[0] != 0);
  }
}
