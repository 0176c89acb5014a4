/**
 * Chained bio completion (block/bio.c) with every atomic operation of `bio_endio` a step of its own.
 *
 * A bio waits for its own completion and for every bio chained to it. Each of these is a source that enters
 * `bio_endio` at the bio, tests or clears BIO_UPTODATE, and then drops bi_remaining.
 */
module BioChain {
  import opened Options

  /** How far a source has got at the bio it completes, and the error it carries. */
  datatype Status = Waiting | Entered(err: int) | Checked(err: int) | Arrived

  const EIO: int := -5

  datatype Bio = Bio(
    parent: Option<nat>, // bi_private of a chained bio
    remaining: int, // bi_remaining
    uptodate: bool, // BIO_UPTODATE
    own: Status, // the completion of this bio itself
    up: Status, // the chained completion of this bio at its parent
    result: Option<int>, // the error this bio was completed with
    ended: seq<int> // errors that its own bi_end_io was called with
  )

  /** `rank` grows from parent to child. */
  datatype State = State(bios: seq<Bio>, rank: seq<nat>)

  ghost predicate Forest(s: State) {
    && |s.rank| == |s.bios|
    && forall x :: 0 <= x < |s.bios| && s.bios[x].parent.Some? ==>
        s.bios[x].parent.value < |s.bios| && s.rank[s.bios[x].parent.value] < s.rank[x]
  }

  ghost function RootOf(s: State, x: nat): (r: nat)
    requires Forest(s) && x < |s.bios|
    ensures r < |s.bios| && s.bios[r].parent.None?
    decreases s.rank[x]
  {
    if s.bios[x].parent.None? then x else RootOf(s, s.bios[x].parent.value)
  }

  /** Chained bios that have not yet dropped their parent's count. */
  ghost function Pending(s: State, x: nat): set<nat> {
    set c | 0 <= c < |s.bios| && s.bios[c].parent == Some(x) && s.bios[c].up != Arrived
  }

  function OwnDue(b: Bio): nat {
    if b.own.Arrived? then 0 else 1
  }

  /** bi_remaining counts the sources still to arrive. */
  ghost predicate Counted(s: State) {
    forall x :: 0 <= x < |s.bios| ==> s.bios[x].remaining == OwnDue(s.bios[x]) + |Pending(s, x)|
  }

  /** A bio goes on to its parent, or to its bi_end_io, once and only when its count is zero. */
  ghost predicate Passed(b: Bio) {
    && (b.parent.Some? ==> b.ended == [] && (b.up.Waiting? <==> b.remaining > 0))
    && (b.parent.None? ==> b.up.Waiting? && |b.ended| == if b.remaining > 0 then 0 else 1)
  }

  ghost predicate Inv(s: State) {
    Forest(s) && Counted(s) && forall x :: 0 <= x < |s.bios| ==> Passed(s.bios[x])
  }

  // Steps

  datatype Source = Own(b: nat) | Up(c: nat)

  datatype Action =
    | Init // bio_init
    | Chain(b: nat, parent: nat) // bio_chain
    | Start(b: nat, err: int) // bio_endio is called on b
    | Check(src: Source)
    | Drop(src: Source)

  /** The bio a source completes. */
  function At(s: State, src: Source): Option<nat> {
    match src
    case Own(b) => if b < |s.bios| then Some(b) else None
    case Up(c) => if c < |s.bios| then s.bios[c].parent else None
  }

  function StatusOf(s: State, src: Source): Status {
    match src
    case Own(b) => if b < |s.bios| then s.bios[b].own else Waiting
    case Up(c) => if c < |s.bios| then s.bios[c].up else Waiting
  }

  function SetStatus(s: State, src: Source, st: Status): State {
    match src
    case Own(b) => if b < |s.bios| then s.(bios := s.bios[b := s.bios[b].(own := st)]) else s
    case Up(c) => if c < |s.bios| then s.(bios := s.bios[c := s.bios[c].(up := st)]) else s
  }

  function Edit(s: State, x: nat, b: Bio): State
    requires x < |s.bios|
  {
    s.(bios := s.bios[x := b])
  }

  ghost predicate Enabled(s: State, a: Action)
    requires Forest(s)
  {
    match a
    case Init => true
    case Chain(b, p) =>
      && b < |s.bios| && p < |s.bios| && s.bios[b].parent.None? && RootOf(s, p) != b
      && s.bios[b].remaining > 0 && s.bios[p].remaining > 0
    case Start(b, _) => b < |s.bios| && s.bios[b].own.Waiting?
    case Check(src) => At(s, src).Some? && At(s, src).value < |s.bios| && StatusOf(s, src).Entered?
    case Drop(src) => At(s, src).Some? && At(s, src).value < |s.bios| && StatusOf(s, src).Checked?
  }

  function CheckAt(s: State, src: Source, x: nat): State
    requires x < |s.bios| && StatusOf(s, src).Entered?
  {
    var e := StatusOf(s, src).err;
    if e != 0 then SetStatus(Edit(s, x, s.bios[x].(uptodate := false)), src, Checked(e))
    else SetStatus(s, src, Checked(if s.bios[x].uptodate then 0 else EIO))
  }

  /** `atomic_dec_and_test`, and what the last source does. */
  function DropAt(s: State, src: Source, x: nat): State
    requires x < |s.bios| && StatusOf(s, src).Checked?
  {
    var e := StatusOf(s, src).err;
    var s1 := SetStatus(s, src, Arrived);
    var b := s1.bios[x].(remaining := s.bios[x].remaining - 1);
    var b' := if b.remaining != 0 then b
              else if b.parent.Some? then b.(up := Entered(e))
              else b.(ended := b.ended + [e]);
    Edit(s1, x, b')
  }

  ghost function Apply(s: State, a: Action): State
    requires Forest(s) && Enabled(s, a)
  {
    match a
    case Init => State(s.bios + [Bio(None, 1, true, Waiting, Waiting, None, [])], s.rank + [0])
    case Chain(b, p) =>
      var s1 := Edit(s, b, s.bios[b].(parent := Some(p)));
      Edit(s1, p, s1.bios[p].(remaining := s.bios[p].remaining + 1)).(rank := Raised(s, b, p))
    case Start(b, err) => Edit(s, b, s.bios[b].(own := Entered(err), result := Some(err)))
    case Check(src) => CheckAt(s, src, At(s, src).value)
    case Drop(src) => DropAt(s, src, At(s, src).value)
  }

  /** Ranks after chaining the root `b` below `p`. */
  ghost function Raised(s: State, b: nat, p: nat): seq<nat>
    requires Forest(s) && p < |s.bios|
  {
    seq(|s.rank|, x requires 0 <= x < |s.rank| =>
      if RootOf(s, x) == b then s.rank[x] + s.rank[p] + 1 else s.rank[x])
  }

  // What every step keeps

  ghost predicate SameTree(s: State, t: State) {
    && |t.bios| == |s.bios| && t.rank == s.rank
    && forall x :: 0 <= x < |s.bios| ==> t.bios[x].parent == s.bios[x].parent
  }

  lemma {:induction false} SameRoot(s: State, t: State, x: nat)
    requires Forest(s) && SameTree(s, t) && x < |s.bios|
    ensures Forest(t) && RootOf(t, x) == RootOf(s, x)
    decreases s.rank[x]
  {
    if s.bios[x].parent.Some? {
      SameRoot(s, t, s.bios[x].parent.value);
    }
  }

  lemma SamePending(s: State, t: State, x: nat)
    requires SameTree(s, t)
    requires forall c :: 0 <= c < |s.bios| ==> (t.bios[c].up.Arrived? <==> s.bios[c].up.Arrived?)
    ensures Pending(t, x) == Pending(s, x)
  {
  }

  /** A source still on its way keeps the count of its bio above zero. */
  lemma SourceDue(s: State, src: Source, x: nat)
    requires Inv(s) && At(s, src) == Some(x) && x < |s.bios| && !StatusOf(s, src).Arrived?
    ensures 0 < s.bios[x].remaining
  {
    if src.Up? {
      assert src.c in Pending(s, x);
    }
  }

  /** A step that lets no source arrive. */
  ghost predicate Alike(a: Bio, b: Bio) {
    && b.parent == a.parent && b.remaining == a.remaining && b.ended == a.ended
    && (b.own.Arrived? <==> a.own.Arrived?)
    && (b.up.Arrived? <==> a.up.Arrived?) && (b.up.Waiting? <==> a.up.Waiting?)
  }

  lemma AlikeInv(s: State, t: State)
    requires Inv(s) && |t.bios| == |s.bios| && t.rank == s.rank
    requires forall y :: 0 <= y < |s.bios| ==> Alike(s.bios[y], t.bios[y])
    ensures Inv(t) && SameTree(s, t)
  {
    forall y | 0 <= y < |t.bios|
      ensures t.bios[y].remaining == OwnDue(t.bios[y]) + |Pending(t, y)|
    {
      SamePending(s, t, y);
    }
  }

  lemma CheckAlike(s: State, src: Source, x: nat, y: nat)
    requires x < |s.bios| && StatusOf(s, src).Entered? && y < |s.bios|
    ensures var t := CheckAt(s, src, x);
      |t.bios| == |s.bios| && t.rank == s.rank && Alike(s.bios[y], t.bios[y])
  {
  }

  lemma CheckInv(s: State, src: Source, x: nat)
    requires Inv(s) && At(s, src) == Some(x) && x < |s.bios| && StatusOf(s, src).Entered?
    ensures Inv(CheckAt(s, src, x)) && SameTree(s, CheckAt(s, src, x))
  {
    var t := CheckAt(s, src, x);
    forall y | 0 <= y < |s.bios|
      ensures |t.bios| == |s.bios| && t.rank == s.rank && Alike(s.bios[y], t.bios[y])
    {
      CheckAlike(s, src, x, y);
    }
    AlikeInv(s, t);
  }

  /** What a drop does to each bio. */
  lemma DropEffect(s: State, src: Source, x: nat, y: nat)
    requires x < |s.bios| && StatusOf(s, src).Checked? && y < |s.bios| && s.bios[x].up.Waiting?
    ensures var t := DropAt(s, src, x); var b, a := t.bios[y], s.bios[y];
      && |t.bios| == |s.bios| && t.rank == s.rank
      && b.parent == a.parent && b.remaining == a.remaining - (if y == x then 1 else 0)
      && (b.own.Arrived? <==> a.own.Arrived? || src == Own(y))
      && (b.up.Arrived? <==> a.up.Arrived? || src == Up(y))
      && (b.up.Waiting? <==> a.up.Waiting? && src != Up(y) && !(y == x && b.remaining == 0 && a.parent.Some?))
      && |b.ended| == |a.ended| + (if y == x && b.remaining == 0 && a.parent.None? then 1 else 0)
  {
  }

  lemma DropPending(s: State, src: Source, x: nat, y: nat)
    requires At(s, src) == Some(x) && x < |s.bios| && StatusOf(s, src).Checked? && s.bios[x].up.Waiting?
    ensures var t := DropAt(s, src, x);
      Pending(t, y) == if src.Up? && y == x then Pending(s, y) - {src.c} else Pending(s, y)
  {
    var t := DropAt(s, src, x);
    forall c | 0 <= c < |s.bios|
      ensures |t.bios| == |s.bios| && t.bios[c].parent == s.bios[c].parent
      ensures t.bios[c].up.Arrived? <==> s.bios[c].up.Arrived? || src == Up(c)
    {
      DropEffect(s, src, x, c);
    }
  }

  lemma DropCounts(s: State, src: Source, x: nat, y: nat)
    requires Inv(s) && At(s, src) == Some(x) && x < |s.bios| && StatusOf(s, src).Checked? && y < |s.bios|
    requires s.bios[x].up.Waiting?
    ensures var t := DropAt(s, src, x);
      y < |t.bios| && t.bios[y].remaining == OwnDue(t.bios[y]) + |Pending(t, y)|
  {
    DropEffect(s, src, x, y);
    DropPending(s, src, x, y);
    if src.Up? && y == x {
      assert src.c in Pending(s, y);
    }
  }

  lemma DropPasses(s: State, src: Source, x: nat, y: nat)
    requires Inv(s) && At(s, src) == Some(x) && x < |s.bios| && StatusOf(s, src).Checked? && y < |s.bios|
    ensures var t := DropAt(s, src, x);
      y < |t.bios| && Passed(t.bios[y])
  {
    SourceDue(s, src, x);
    DropEffect(s, src, x, y);
  }

  lemma DropInv(s: State, src: Source, x: nat)
    requires Inv(s) && At(s, src) == Some(x) && x < |s.bios| && StatusOf(s, src).Checked?
    ensures Inv(DropAt(s, src, x)) && SameTree(s, DropAt(s, src, x))
  {
    var t := DropAt(s, src, x);
    SourceDue(s, src, x);
    assert Passed(s.bios[x]);
    forall y | 0 <= y < |t.bios|
      ensures y < |s.bios| && t.bios[y].parent == s.bios[y].parent && t.rank == s.rank
      ensures t.bios[y].remaining == OwnDue(t.bios[y]) + |Pending(t, y)| && Passed(t.bios[y])
    {
      DropEffect(s, src, x, y);
      DropCounts(s, src, x, y);
      DropPasses(s, src, x, y);
    }
  }

  lemma StartInv(s: State, b: nat, err: int)
    requires Inv(s) && Enabled(s, Start(b, err))
    ensures Inv(Apply(s, Start(b, err)))
  {
    AlikeInv(s, Apply(s, Start(b, err)));
  }

  lemma InitInv(s: State)
    requires Inv(s)
    ensures Inv(Apply(s, Init))
  {
    var t := Apply(s, Init);
    forall x | 0 <= x < |t.bios|
      ensures t.bios[x].remaining == OwnDue(t.bios[x]) + |Pending(t, x)|
    {
      if x < |s.bios| {
        assert Pending(t, x) == Pending(s, x);
      } else {
        assert Pending(t, x) == {};
      }
    }
  }

  lemma ChainForest(s: State, b: nat, p: nat)
    requires Inv(s) && Enabled(s, Chain(b, p))
    ensures Forest(Apply(s, Chain(b, p)))
  {
    var t := Apply(s, Chain(b, p));
    forall x | 0 <= x < |t.bios| && t.bios[x].parent.Some?
      ensures t.rank[t.bios[x].parent.value] < t.rank[x]
    {
      if x != b {
        assert RootOf(s, x) == RootOf(s, s.bios[x].parent.value);
      }
    }
  }

  lemma ChainEffect(s: State, b: nat, p: nat, x: nat)
    requires Forest(s) && Enabled(s, Chain(b, p)) && x < |s.bios|
    ensures var t := Apply(s, Chain(b, p));
      && b != p && |t.bios| == |s.bios|
      && t.bios[x] == s.bios[x].(parent := if x == b then Some(p) else s.bios[x].parent,
                                 remaining := s.bios[x].remaining + (if x == p then 1 else 0))
  {
  }

  lemma ChainPendingAt(s: State, b: nat, p: nat, x: nat, c: nat)
    requires Inv(s) && Enabled(s, Chain(b, p))
    ensures c in Pending(Apply(s, Chain(b, p)), x) <==> c in Pending(s, x) || (x == p && c == b)
  {
    assert Passed(s.bios[b]);
    if c < |s.bios| {
      ChainEffect(s, b, p, c);
    }
  }

  lemma ChainPending(s: State, b: nat, p: nat, x: nat)
    requires Inv(s) && Enabled(s, Chain(b, p))
    ensures Pending(Apply(s, Chain(b, p)), x) == if x == p then Pending(s, p) + {b} else Pending(s, x)
  {
    forall c: nat
      ensures c in Pending(Apply(s, Chain(b, p)), x) <==> c in Pending(s, x) || (x == p && c == b)
    {
      ChainPendingAt(s, b, p, x, c);
    }
  }

  lemma ChainCounts(s: State, b: nat, p: nat, x: nat)
    requires Inv(s) && Enabled(s, Chain(b, p)) && x < |s.bios|
    ensures var t := Apply(s, Chain(b, p));
      && x < |t.bios| && Passed(t.bios[x])
      && t.bios[x].remaining == OwnDue(t.bios[x]) + |Pending(t, x)|
  {
    ChainEffect(s, b, p, x);
    ChainPending(s, b, p, x);
    assert Passed(s.bios[x]);
    assert b !in Pending(s, p);
  }

  lemma ChainInv(s: State, b: nat, p: nat)
    requires Inv(s) && Enabled(s, Chain(b, p))
    ensures Inv(Apply(s, Chain(b, p)))
  {
    ChainForest(s, b, p);
    var t := Apply(s, Chain(b, p));
    forall x | 0 <= x < |t.bios|
      ensures t.bios[x].remaining == OwnDue(t.bios[x]) + |Pending(t, x)| && Passed(t.bios[x])
    {
      ChainCounts(s, b, p, x);
    }
  }

  lemma InvStep(s: State, a: Action)
    requires Inv(s) && Enabled(s, a)
    ensures Inv(Apply(s, a))
  {
    match a
    case Init => InitInv(s);
    case Chain(b, p) => ChainInv(s, b, p);
    case Start(b, err) => StartInv(s, b, err);
    case Check(src) => CheckInv(s, src, At(s, src).value);
    case Drop(src) => DropInv(s, src, At(s, src).value);
  }

  ghost predicate Legal(s: State, run: seq<Action>)
    decreases |run|
  {
    run == [] || (Forest(s) && Enabled(s, run[0]) && Legal(Apply(s, run[0]), run[1..]))
  }

  ghost function Exec(s: State, run: seq<Action>): State
    requires Legal(s, run)
    decreases |run|
  {
    if run == [] then s else Exec(Apply(s, run[0]), run[1..])
  }

  lemma {:induction false} InvInRuns(s: State, run: seq<Action>)
    requires Inv(s) && Legal(s, run)
    ensures Inv(Exec(s, run))
    decreases |run|
  {
    if run != [] {
      InvStep(s, run[0]);
      InvInRuns(Apply(s, run[0]), run[1..]);
    }
  }

  /** A bio whose count is zero has completed, and so has every bio chained to it. */
  lemma DoneMeansArrived(s: State, x: nat)
    requires Inv(s) && x < |s.bios| && s.bios[x].remaining == 0
    ensures s.bios[x].own.Arrived?
    ensures forall c :: 0 <= c < |s.bios| && s.bios[c].parent == Some(x) ==>
      s.bios[c].up.Arrived? && s.bios[c].remaining <= 0
  {
    forall c | 0 <= c < |s.bios| && s.bios[c].parent == Some(x)
      ensures s.bios[c].up.Arrived?
    {
      assert Pending(s, x) == {};
      assert c !in Pending(s, x);
    }
  }

  lemma {:induction false} DoneBelow(s: State, y: nat)
    requires Inv(s) && y < |s.bios| && s.bios[RootOf(s, y)].remaining == 0
    ensures s.bios[y].remaining == 0 && s.bios[y].own.Arrived?
    decreases s.rank[y]
  {
    if s.bios[y].parent.Some? {
      var p := s.bios[y].parent.value;
      DoneBelow(s, p);
      DoneMeansArrived(s, p);
      assert s.bios[y].remaining == OwnDue(s.bios[y]) + |Pending(s, y)|;
    }
    DoneMeansArrived(s, y);
  }

  /**
   * In every run, however the calls interleave, the end_io of a root has run at most once, and when it has,
   * every bio of the tree has completed.
   */
  lemma EndsOnceAfterAll(s: State, run: seq<Action>, r: nat, y: nat)
    requires Inv(s) && Legal(s, run)
    requires r < |Exec(s, run).bios| && y < |Exec(s, run).bios| && Exec(s, run).bios[r].ended != []
    ensures var t := Exec(s, run);
      && |t.bios[r].ended| == 1 && Forest(t)
      && (RootOf(t, y) == r ==> t.bios[y].own.Arrived?)
  {
    InvInRuns(s, run);
    var t := Exec(s, run);
    if RootOf(t, y) == r {
      DoneBelow(t, y);
    }
  }
}
