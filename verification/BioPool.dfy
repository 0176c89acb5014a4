/** bios updated in place by block/bio.c. */
module BioPool {
  import opened Options
  import opened BioChain
  import opened BioErrors
  import opened BioSerial

  /** The fields of `struct bio` that completion uses, and the calls its bi_end_io has received. */
  datatype Live = Live(parent: Option<nat>, remaining: int, uptodate: bool, ended: seq<int>)

  function View(b: Bio): Live {
    Live(b.parent, b.remaining, b.uptodate, b.ended)
  }

  ghost predicate Shows(live: seq<Live>, s: State) {
    |live| == |s.bios| && forall i :: 0 <= i < |live| ==> live[i] == View(s.bios[i])
  }

  class Pool {
    var live: seq<Live>
    ghost var trace: State // the same bios with how far each completion has got

    ghost predicate Valid()
      reads this
    {
      Serial(trace) && Shows(live, trace)
    }

    constructor ()
      ensures Valid() && live == []
    {
      live, trace := [], State([], []);
      new;
      EmptySerial(trace);
    }

    /** `bio_init` of a new bio. */
    method BioInit() returns (b: nat)
      requires Valid()
      modifies this
      ensures Valid() && trace == CallEffect(old(trace), NewBio) && b == |old(live)|
    {
      InitSerial(trace);
      b := |live|;
      live := live + [Live(None, 1, true, [])];
      trace := CallEffect(trace, NewBio);
    }

    /** `bio_chain`. */
    method BioChainTo(b: nat, parent: nat)
      requires Valid() && Enabled(trace, Chain(b, parent))
      modifies this
      ensures Valid() && trace == CallEffect(old(trace), ChainTo(b, parent))
    {
      ChainSerial(trace, b, parent);
      live := live[b := live[b].(parent := Some(parent))];
      live := live[parent := live[parent].(remaining := live[parent].remaining + 1)];
      trace := CallEffect(trace, ChainTo(b, parent));
      forall x | 0 <= x < |live|
        ensures live[x] == View(trace.bios[x])
      {
        ChainEffect(old(trace), b, parent, x);
      }
    }

    /** One round of `bio_endio` at `bio`: whether the call goes on to the parent, and with which error. */
    method Round(bio: nat, error: int, ghost src: Source) returns (err: int, more: bool)
      requires Shows(live, trace) && Climbing(trace, src, bio, error)
      modifies this
      ensures trace == Arrive(old(trace), src, bio) && Shows(live, trace)
      ensures err == Merged(old(trace).bios[bio], error)
      ensures more == (old(live)[bio].remaining == 1 && old(live)[bio].parent.Some?)
    {
      ghost var before := trace;
      Clear(trace, src, bio);
      var l := live[bio];
      assert l.remaining > 0; // the BUG_ON of bio_endio
      err, more := error, false;
      if err != 0 {
        l := l.(uptodate := false);
      } else if !l.uptodate {
        err := EIO;
      }
      l := l.(remaining := l.remaining - 1);
      if l.remaining == 0 {
        if l.parent.Some? {
          more := true;
        } else {
          l := l.(ended := l.ended + [err]);
        }
      }
      live := live[bio := l];
      ArriveShows(live, before, src, bio);
      trace := Arrive(trace, src, bio);
    }

    /** `bio_endio`: the loop climbs as long as it is the last to arrive. */
    method BioEndio(b: nat, error: int)
      requires Valid() && Enabled(trace, Start(b, error))
      modifies this
      ensures Valid() && trace == CallEffect(old(trace), Endio(b, error))
    {
      EndioSerial(trace, b, error);
      StartAlone(trace, b, error);
      ghost var target := CallEffect(trace, Endio(b, error));
      trace := Apply(trace, Start(b, error));
      ghost var src := Own(b);
      var bio, err, more := b, error, true;
      while more
        invariant Shows(live, trace)
        invariant more ==> Climbing(trace, src, bio, err)
        invariant (if more then Climb(trace, src) else trace) == target
        decreases if more then 1 + trace.rank[bio] else 0
      {
        ClimbStep(trace, src, bio, err);
        var parent := live[bio].parent;
        err, more := Round(bio, err, src);
        if more {
          src := Up(bio);
          bio := parent.value;
        }
      }
    }
  }

  lemma EmptySerial(s: State)
    requires s.bios == [] && s.rank == []
    ensures Serial(s)
  {
  }

  /** Inside the loop: `src` is at `bio` with error `err`. */
  ghost predicate Climbing(s: State, src: Source, bio: nat, err: int) {
    && Inv(s) && Honest(s) && Exact(s) && Alone(s, src)
    && At(s, src) == Some(bio) && bio < |s.bios| && StatusOf(s, src) == Entered(err)
  }

  lemma ClimbStep(s: State, src: Source, bio: nat, err: int)
    requires Climbing(s, src, bio, err)
    ensures s.bios[bio].remaining > 0
    ensures var t := Arrive(s, src, bio);
      && SameTree(s, t)
      && if s.bios[bio].remaining == 1 && s.bios[bio].parent.Some? then
           && Climbing(t, Up(bio), s.bios[bio].parent.value, Merged(s.bios[bio], err))
           && Climb(s, src) == Climb(t, Up(bio))
         else Climb(s, src) == t
  {
    Clear(s, src, bio);
    ArriveEffect(s, src, bio, bio);
    ArriveGood(s, src, bio);
    ArriveExact(s, src, bio);
    AfterArrive(s, src, bio);
  }

  lemma ArriveShows(live: seq<Live>, s: State, src: Source, bio: nat)
    requires Inv(s) && At(s, src) == Some(bio) && bio < |s.bios| && StatusOf(s, src).Entered?
    requires |live| == |s.bios| && forall y :: 0 <= y < |live| && y != bio ==> live[y] == View(s.bios[y])
    requires var b, e := s.bios[bio], StatusOf(s, src).err;
      && live[bio].parent == b.parent && live[bio].remaining == b.remaining - 1
      && live[bio].uptodate == (b.uptodate && e == 0)
      && live[bio].ended == b.ended + (if b.remaining == 1 && b.parent.None? then [Merged(b, e)] else [])
    ensures Shows(live, Arrive(s, src, bio))
  {
    Clear(s, src, bio);
    ArriveEffect(s, src, bio, bio);
    forall y | 0 <= y < |live|
      ensures live[y] == View(Arrive(s, src, bio).bios[y])
    {
      ArriveEffect(s, src, bio, y);
    }
  }
}
