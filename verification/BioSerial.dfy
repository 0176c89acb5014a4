/** `bio_endio` calls that run one after the other: the root hears of every failure. */
module BioSerial {
  import opened Options
  import opened BioChain
  import opened BioErrors

  /** One round of the loop of `bio_endio`. */
  function Arrive(s: State, src: Source, x: nat): State
    requires x < |s.bios| && StatusOf(s, src).Entered?
  {
    DropAfterCheck(s, src, x);
    DropAt(CheckAt(s, src, x), src, x)
  }

  lemma DropAfterCheck(s: State, src: Source, x: nat)
    requires x < |s.bios| && StatusOf(s, src).Entered?
    ensures |CheckAt(s, src, x).bios| == |s.bios| && StatusOf(CheckAt(s, src, x), src).Checked?
    ensures At(CheckAt(s, src, x), src) == At(s, src)
  {
  }

  lemma ArriveGood(s: State, src: Source, x: nat)
    requires Inv(s) && Honest(s) && At(s, src) == Some(x) && x < |s.bios| && StatusOf(s, src).Entered?
    ensures Inv(Arrive(s, src, x)) && Honest(Arrive(s, src, x)) && SameTree(s, Arrive(s, src, x))
  {
    CheckHonest(s, src, x);
    CheckInv(s, src, x);
    DropAfterCheck(s, src, x);
    DropHonest(CheckAt(s, src, x), src, x);
    DropInv(CheckAt(s, src, x), src, x);
  }

  /** The error a source carries on after the test of BIO_UPTODATE. */
  function Merged(b: Bio, e: int): int {
    if e != 0 then e else if b.uptodate then 0 else EIO
  }

  lemma ArriveEffect(s: State, src: Source, x: nat, y: nat)
    requires x < |s.bios| && StatusOf(s, src).Entered? && y < |s.bios| && At(s, src) == Some(x)
    requires s.bios[x].up.Waiting? && (src.Up? ==> src.c != x)
    ensures var t := Arrive(s, src, x); var a, b := s.bios[y], t.bios[y]; var e := StatusOf(s, src).err;
      && |t.bios| == |s.bios| && t.rank == s.rank && b.parent == a.parent && b.result == a.result
      && b.remaining == a.remaining - (if y == x then 1 else 0)
      && b.uptodate == (a.uptodate && (y == x ==> e == 0))
      && b.own == (if src == Own(y) then Arrived else a.own)
      && b.up == (if src == Up(y) then Arrived
                  else if y == x && b.remaining == 0 && a.parent.Some? then Entered(Merged(a, e)) else a.up)
      && b.ended == a.ended + (if y == x && b.remaining == 0 && a.parent.None? then [Merged(a, e)] else [])
  {
  }

  /** The failures that have reached bio `x`. */
  ghost predicate Reached(s: State, x: nat)
    requires x < |s.bios|
  {
    || (s.bios[x].own.Arrived? && s.bios[x].result.Some? && s.bios[x].result.value != 0)
    || exists c :: ReachedFrom(s, x, c)
  }

  ghost predicate ReachedFrom(s: State, x: nat, c: nat) {
    c < |s.bios| && s.bios[c].parent == Some(x) && s.bios[c].up.Arrived? && !s.bios[c].uptodate
  }

  /** BIO_UPTODATE is exact, and every end_io call agreed with it. */
  ghost predicate Exact(s: State) {
    forall x :: 0 <= x < |s.bios| ==>
      && (!s.bios[x].uptodate <==> Reached(s, x))
      && (forall i :: 0 <= i < |s.bios[x].ended| ==> (s.bios[x].ended[i] != 0 <==> !s.bios[x].uptodate))
      && (s.bios[x].own.Arrived? ==> s.bios[x].result.Some?)
  }

  /** A source that is the only one in `bio_endio`, and carries the truth about where it comes from. */
  ghost predicate Alone(s: State, src: Source) {
    && StatusOf(s, src).Entered?
    && (src.Own? ==> s.bios[src.b].result == Some(StatusOf(s, src).err))
    && (src.Up? ==> (StatusOf(s, src).err != 0 <==> !s.bios[src.c].uptodate))
    && forall y :: 0 <= y < |s.bios| ==>
        && (src != Own(y) ==> s.bios[y].own.Waiting? || s.bios[y].own.Arrived?)
        && (src != Up(y) ==> s.bios[y].up.Waiting? || s.bios[y].up.Arrived?)
  }

  ghost predicate Quiet(s: State) {
    forall y :: 0 <= y < |s.bios| ==>
      && (s.bios[y].own.Waiting? || s.bios[y].own.Arrived?)
      && (s.bios[y].up.Waiting? || s.bios[y].up.Arrived?)
  }

  lemma Clear(s: State, src: Source, x: nat)
    requires Inv(s) && At(s, src) == Some(x) && x < |s.bios| && StatusOf(s, src).Entered?
    ensures s.bios[x].up.Waiting? && (src.Up? ==> src.c != x) && 0 < s.bios[x].remaining && s.bios[x].ended == []
  {
    SourceDue(s, src, x);
    assert Passed(s.bios[x]);
  }

  lemma ReachedKept(s: State, src: Source, x: nat, y: nat)
    requires Inv(s) && At(s, src) == Some(x) && x < |s.bios| && Alone(s, src) && y < |s.bios|
    ensures var t := Arrive(s, src, x);
      && |t.bios| == |s.bios|
      && (Reached(t, y) <==> Reached(s, y) || (y == x && StatusOf(s, src).err != 0))
  {
    var t := Arrive(s, src, x);
    Clear(s, src, x);
    ArriveEffect(s, src, x, y);
    forall c: nat
      ensures ReachedFrom(t, y, c) <==> ReachedFrom(s, y, c) || (src == Up(c) && y == x && StatusOf(s, src).err != 0)
    {
      if c < |s.bios| {
        ArriveEffect(s, src, x, c);
      }
    }
    if src.Up? && y == x && StatusOf(s, src).err != 0 {
      assert ReachedFrom(t, y, src.c);
    }
    if Reached(s, y) && exists c :: ReachedFrom(s, y, c) {
      var c :| ReachedFrom(s, y, c);
      assert ReachedFrom(t, y, c);
    }
  }

  lemma ArriveExactAt(s: State, src: Source, x: nat, y: nat)
    requires Inv(s) && Exact(s) && At(s, src) == Some(x) && x < |s.bios| && Alone(s, src) && y < |s.bios|
    ensures var t := Arrive(s, src, x); var b := t.bios[y];
      && |t.bios| == |s.bios|
      && (!b.uptodate <==> Reached(t, y))
      && (forall i :: 0 <= i < |b.ended| ==> (b.ended[i] != 0 <==> !b.uptodate))
      && (b.own.Arrived? ==> b.result.Some?)
  {
    Clear(s, src, x);
    ArriveEffect(s, src, x, y);
    ReachedKept(s, src, x, y);
  }

  lemma ArriveExact(s: State, src: Source, x: nat)
    requires Inv(s) && Exact(s) && At(s, src) == Some(x) && x < |s.bios| && Alone(s, src)
    ensures Exact(Arrive(s, src, x))
  {
    var t := Arrive(s, src, x);
    forall y | 0 <= y < |t.bios|
      ensures !t.bios[y].uptodate <==> Reached(t, y)
      ensures forall i :: 0 <= i < |t.bios[y].ended| ==> (t.bios[y].ended[i] != 0 <==> !t.bios[y].uptodate)
      ensures t.bios[y].own.Arrived? ==> t.bios[y].result.Some?
    {
      ArriveEffect(s, src, x, x) by {
        Clear(s, src, x);
      }
      ArriveExactAt(s, src, x, y);
    }
  }

  /** After a round the source has stopped, or it is the chained completion of the bio that just finished. */
  lemma AfterArrive(s: State, src: Source, x: nat)
    requires Inv(s) && Exact(s) && At(s, src) == Some(x) && x < |s.bios| && Alone(s, src)
    ensures var t := Arrive(s, src, x);
      && |t.bios| == |s.bios|
      && (t.bios[x].up.Entered? ==> s.bios[x].parent.Some? && Alone(t, Up(x)))
      && (!t.bios[x].up.Entered? ==> Quiet(t))
  {
    var t := Arrive(s, src, x);
    Clear(s, src, x);
    ArriveEffect(s, src, x, x);
    forall y | 0 <= y < |s.bios|
      ensures y != x ==> t.bios[y].own.Waiting? || t.bios[y].own.Arrived?
      ensures y != x ==> t.bios[y].up.Waiting? || t.bios[y].up.Arrived?
      ensures t.bios[x].own.Waiting? || t.bios[x].own.Arrived?
    {
      ArriveEffect(s, src, x, y);
    }
  }

  /** The loop of `bio_endio` from the bio that `src` completes upwards. */
  ghost function Climb(s: State, src: Source): State
    requires Inv(s) && Honest(s) && Exact(s) && Alone(s, src) && At(s, src).Some? && At(s, src).value < |s.bios|
    decreases s.rank[At(s, src).value]
  {
    var x := At(s, src).value;
    ArriveGood(s, src, x);
    ArriveExact(s, src, x);
    AfterArrive(s, src, x);
    var t := Arrive(s, src, x);
    if t.bios[x].up.Entered? then Climb(t, Up(x)) else t
  }

  /** No bio is started, and no result is changed. */
  ghost predicate Onward(s: State, t: State) {
    && |t.bios| == |s.bios|
    && forall y :: 0 <= y < |s.bios| ==>
        t.bios[y].result == s.bios[y].result && (t.bios[y].own.Waiting? <==> s.bios[y].own.Waiting?)
  }

  lemma {:induction false} ClimbSettles(s: State, src: Source)
    requires Inv(s) && Honest(s) && Exact(s) && Alone(s, src) && At(s, src).Some? && At(s, src).value < |s.bios|
    ensures var t := Climb(s, src);
      Inv(t) && Honest(t) && Exact(t) && Quiet(t) && SameTree(s, t) && Onward(s, t)
    decreases s.rank[At(s, src).value]
  {
    var x := At(s, src).value;
    ArriveGood(s, src, x);
    ArriveExact(s, src, x);
    AfterArrive(s, src, x);
    var t := Arrive(s, src, x);
    Clear(s, src, x);
    forall y | 0 <= y < |s.bios|
      ensures t.bios[y].result == s.bios[y].result && (t.bios[y].own.Waiting? <==> s.bios[y].own.Waiting?)
    {
      ArriveEffect(s, src, x, y);
    }
    if t.bios[x].up.Entered? {
      ClimbSettles(t, Up(x));
    }
  }

  // Serial runs

  ghost predicate Serial(s: State) {
    Inv(s) && Honest(s) && Unstarted(s) && Exact(s) && Quiet(s)
  }

  datatype Call = NewBio | ChainTo(b: nat, parent: nat) | Endio(b: nat, err: int)

  function ActionOf(c: Call): Action {
    match c
    case NewBio => Init
    case ChainTo(b, p) => Chain(b, p)
    case Endio(b, err) => Start(b, err)
  }

  lemma StartAlone(s: State, b: nat, err: int)
    requires Serial(s) && Enabled(s, Start(b, err))
    ensures var t := Apply(s, Start(b, err));
      && Inv(t) && Honest(t) && Unstarted(t) && Exact(t) && Alone(t, Own(b))
  {
    var t := Apply(s, Start(b, err));
    GoodStep(s, Start(b, err));
    forall x | 0 <= x < |t.bios|
      ensures !t.bios[x].uptodate <==> Reached(t, x)
    {
      assert forall c :: ReachedFrom(t, x, c) <==> ReachedFrom(s, x, c);
      assert Reached(t, x) <==> Reached(s, x);
    }
  }

  ghost function CallEffect(s: State, c: Call): State
    requires Serial(s) && Enabled(s, ActionOf(c))
  {
    match c
    case Endio(b, err) =>
      StartAlone(s, b, err);
      Climb(Apply(s, Start(b, err)), Own(b))
    case _ => Apply(s, ActionOf(c))
  }

  lemma EndioSerial(s: State, b: nat, err: int)
    requires Serial(s) && Enabled(s, Start(b, err))
    ensures Serial(CallEffect(s, Endio(b, err)))
  {
    StartAlone(s, b, err);
    ClimbSettles(Apply(s, Start(b, err)), Own(b));
  }

  lemma ChainSerial(s: State, b: nat, p: nat)
    requires Serial(s) && Enabled(s, Chain(b, p))
    ensures Serial(Apply(s, Chain(b, p)))
  {
    var t := Apply(s, Chain(b, p));
    GoodStep(s, Chain(b, p));
    assert Passed(s.bios[b]);
    forall x | 0 <= x < |t.bios|
      ensures t.bios[x].(parent := s.bios[x].parent, remaining := s.bios[x].remaining) == s.bios[x]
      ensures Reached(t, x) <==> Reached(s, x)
    {
      ChainEffect(s, b, p, x);
      ChainReached(s, b, p, x);
    }
  }

  lemma ChainReached(s: State, b: nat, p: nat, x: nat)
    requires Inv(s) && Enabled(s, Chain(b, p)) && x < |s.bios|
    ensures Reached(Apply(s, Chain(b, p)), x) <==> Reached(s, x)
  {
    var t := Apply(s, Chain(b, p));
    assert Passed(s.bios[b]);
    forall c: nat ensures ReachedFrom(t, x, c) <==> ReachedFrom(s, x, c) {
      if c < |s.bios| {
        ChainEffect(s, b, p, c);
      }
    }
  }

  lemma InitSerial(s: State)
    requires Serial(s)
    ensures Serial(Apply(s, Init))
  {
    var t := Apply(s, Init);
    GoodStep(s, Init);
    forall x | 0 <= x < |t.bios|
      ensures !t.bios[x].uptodate <==> Reached(t, x)
    {
      assert forall c :: ReachedFrom(t, x, c) <==> ReachedFrom(s, x, c);
      if x < |s.bios| {
        assert Reached(t, x) <==> Reached(s, x);
      } else {
        assert forall c :: !ReachedFrom(s, x, c);
      }
    }
  }

  lemma CallSerial(s: State, c: Call)
    requires Serial(s) && Enabled(s, ActionOf(c))
    ensures Serial(CallEffect(s, c))
  {
    match c
    case NewBio => InitSerial(s);
    case ChainTo(b, p) => ChainSerial(s, b, p);
    case Endio(b, err) => EndioSerial(s, b, err);
  }

  ghost predicate LegalCalls(s: State, run: seq<Call>)
    decreases |run|
  {
    run == [] || (Serial(s) && Enabled(s, ActionOf(run[0])) && LegalCalls(CallEffect(s, run[0]), run[1..]))
  }

  ghost function AfterCalls(s: State, run: seq<Call>): State
    requires LegalCalls(s, run)
    decreases |run|
  {
    if run == [] then s else AfterCalls(CallEffect(s, run[0]), run[1..])
  }

  lemma {:induction false} SerialInRuns(s: State, run: seq<Call>)
    requires Serial(s) && LegalCalls(s, run)
    ensures Serial(AfterCalls(s, run))
    decreases |run|
  {
    if run != [] {
      CallSerial(s, run[0]);
      SerialInRuns(CallEffect(s, run[0]), run[1..]);
    }
  }

  /** In a finished tree a cleared BIO_UPTODATE has reached the root. */
  lemma {:induction false} FailureClimbs(s: State, y: nat)
    requires Inv(s) && Exact(s) && y < |s.bios| && s.bios[RootOf(s, y)].remaining == 0 && !s.bios[y].uptodate
    ensures !s.bios[RootOf(s, y)].uptodate
    decreases s.rank[y]
  {
    if s.bios[y].parent.Some? {
      var p := s.bios[y].parent.value;
      DoneBelow(s, p);
      DoneMeansArrived(s, p);
      assert ReachedFrom(s, p, y);
      FailureClimbs(s, p);
    }
  }

  /** With calls one after the other, the root's end_io receives an error exactly when some bio failed. */
  lemma SerialErrorLaw(s: State, run: seq<Call>, r: nat)
    requires Serial(s) && LegalCalls(s, run)
    requires r < |AfterCalls(s, run).bios| && AfterCalls(s, run).bios[r].ended != []
    ensures Serial(AfterCalls(s, run))
    ensures AfterCalls(s, run).bios[r].ended[0] != 0 <==> Told(AfterCalls(s, run), r, true)
  {
    SerialInRuns(s, run);
    var t := AfterCalls(s, run);
    assert Passed(t.bios[r]);
    var e := t.bios[r].ended[0];
    if e != 0 {
      assert Says(t.bios[r], true);
    } else if Told(t, r, true) {
      var y :| Tells(t, r, true, y);
      DoneBelow(t, y);
      assert Reached(t, y);
      FailureClimbs(t, y);
    }
  }
}
