/** Runs of one direction of a device: when the bios of a group are issued in the order they came. */
module ThrottleOrder {
  import opened Seqs
  import opened ThrottleFifo
  import opened ThrottleQnodes
  import opened ThrottleState

  /**
   * The queues; all bios submitted, in the order of `queue_lock`; those that left the queues and are in the hands of
   * somebody who will issue them without the lock, with whose hands they are; and all that were issued, in order.
   */
  datatype Track = Track(h: Half, submitted: seq<Bio>, out: seq<Bio>, hands: seq<nat>, issued: seq<Bio>)

  datatype Action =
    | Queue(b: Bio, q: Qnode) // blk_throtl_bio holds the bio back
    | Straight(b: Bio, who: nat) // blk_throtl_bio lets the bio through; its submitter is to issue it
    | Up(g: nat) // tg_dispatch_one_bio
    | Out(who: nat) // throtl_pop_queued on the device's queue, by the worker or by a drain
    | Send(j: nat) // generic_make_request; everybody issues the bios in its hands in order

  ghost predicate Enabled(up: seq<nat>, t: Track, a: Action) {
    |t.h.nr| == |up| && |t.h.queued| == |up| + 1 &&
    match a
    case Queue(b, q) =>
      b.tg < |up| && Entry(up, b.tg, q) && Home(up, q) < |up| && EmptyBelow(up, t.h.nr, b.tg, Home(up, q))
    case Straight(b, who) => b.tg < |up| && EmptyBelow(up, t.h.nr, b.tg, |up|) && who !in t.hands
    case Up(g) => CanDispatch(up, t.h, g)
    case Out(_) => t.h.queued[|up|] != [] && Held(t.h.bios, t.h.queued[|up|][0]) != []
    case Send(j) => j < |t.out| == |t.hands| && forall i :: 0 <= i < j ==> t.hands[i] != t.hands[j]
  }

  function Drop<T>(s: seq<T>, j: nat): seq<T>
    requires j < |s|
  {
    s[..j] + s[j + 1..]
  }

  ghost function Apply(up: seq<nat>, t: Track, a: Action): Track
    requires Enabled(up, t, a)
  {
    match a
    case Queue(b, q) => t.(h := Submit(up, t.h, q, b), submitted := t.submitted + [b])
    case Straight(b, who) => t.(submitted := t.submitted + [b], out := t.out + [b], hands := t.hands + [who])
    case Up(g) => t.(h := DispatchOne(up, t.h, g))
    case Out(who) => t.(h := Pop(t.h, |up|), out := t.out + [Front(t.h, |up|)], hands := t.hands + [who])
    case Send(j) => t.(out := Drop(t.out, j), hands := Drop(t.hands, j), issued := t.issued + [t.out[j]])
  }

  /** The bios of group `s` that are not issued yet: in somebody's hands, then in the tree. */
  ghost function Pending(up: seq<nat>, t: Track, s: nat): seq<Bio>
    requires IsTree(up)
  {
    Only(t.out, s) + Waiting(up, t.h.bios, s)
  }

  ghost predicate InOrder(up: seq<nat>, t: Track, s: nat)
    requires IsTree(up)
  {
    Only(t.submitted, s) == Only(t.issued, s) + Pending(up, t, s)
  }

  /** No two pairs of hands have bios of group `s`. */
  ghost predicate OneHand(t: Track, s: nat) {
    && |t.hands| == |t.out|
    && forall i, j :: 0 <= i < |t.out| && 0 <= j < |t.out| && t.out[i].tg == s && t.out[j].tg == s ==>
         t.hands[i] == t.hands[j]
  }

  ghost predicate Sound(up: seq<nat>, t: Track) {
    HalfOk(up, t.h) && Sourced(up, t.h.bios) && |t.hands| == |t.out|
  }

  ghost predicate Safe(up: seq<nat>, t: Track, s: nat) {
    Sound(up, t) && OneHand(t, s) && InOrder(up, t, s)
  }

  /**
   * What a step under the lock has to find: a bio of group `s` is let through when none of the group is pending, and
   * leaves the device's queue only into the hands that have the others.
   */
  ghost predicate Guarded(up: seq<nat>, t: Track, a: Action, s: nat)
    requires IsTree(up) && Enabled(up, t, a)
  {
    match a
    case Straight(b, _) => b.tg == s ==> Pending(up, t, s) == []
    case Out(who) => Front(t.h, |up|).tg == s ==> Owned(t, who, s)
    case _ => true
  }

  ghost predicate Owned(t: Track, who: nat, s: nat) {
    forall i :: 0 <= i < |t.out| && i < |t.hands| && t.out[i].tg == s ==> t.hands[i] == who
  }

  // Steps

  lemma {:induction false} OnlyNone(list: seq<Bio>, s: nat)
    requires forall i :: 0 <= i < |list| ==> list[i].tg != s
    ensures Only(list, s) == []
  {
    if list != [] {
      OnlyNone(list[1..], s);
    }
  }

  lemma {:induction false} OnlySome(list: seq<Bio>, s: nat) returns (i: nat)
    requires Only(list, s) != []
    ensures i < |list| && list[i].tg == s
  {
    if list[0].tg == s {
      i := 0;
    } else {
      i := OnlySome(list[1..], s);
      i := i + 1;
    }
  }

  lemma OnlyAround(list: seq<Bio>, j: nat, s: nat)
    requires j < |list|
    ensures Only(list, s) == Only(list[..j], s) + ((if list[j].tg == s then [list[j]] else []) + Only(list[j + 1..], s))
    ensures Only(Drop(list, j), s) == Only(list[..j], s) + Only(list[j + 1..], s)
  {
    assert list == list[..j] + list[j..] && list[j..][1..] == list[j + 1..];
    OnlyConcat(list[..j], list[j..], s);
    OnlyConcat(list[..j], list[j + 1..], s);
  }

  /** The bio sent from hands that have all of its group is the first of the group. */
  lemma SendTakesFirst(t: Track, j: nat, s: nat)
    requires OneHand(t, s) && j < |t.out| && forall i :: 0 <= i < j ==> t.hands[i] != t.hands[j]
    ensures Only(t.out, s) == (if t.out[j].tg == s then [t.out[j]] else []) + Only(Drop(t.out, j), s)
  {
    OnlyAround(t.out, j, s);
    if t.out[j].tg == s {
      OnlyNone(t.out[..j], s);
    }
  }

  lemma QueueInOrder(up: seq<nat>, t: Track, b: Bio, q: Qnode, s: nat)
    requires HalfOk(up, t.h) && Enabled(up, t, Queue(b, q)) && InOrder(up, t, s)
    ensures InOrder(up, Apply(up, t, Queue(b, q)), s)
    ensures Pending(up, Apply(up, t, Queue(b, q)), s) == Pending(up, t, s) + (if b.tg == s then [b] else [])
  {
    SubmitOrder(up, t.h, q, b, s);
    OnlyAppend(t.submitted, b, s);
    var added := if b.tg == s then [b] else [];
    Assoc(Only(t.out, s), Waiting(up, t.h.bios, s), added);
    Assoc(Only(t.issued, s), Pending(up, t, s), added);
  }

  lemma StraightInOrder(up: seq<nat>, t: Track, b: Bio, who: nat, s: nat)
    requires IsTree(up) && Enabled(up, t, Straight(b, who)) && InOrder(up, t, s) && Guarded(up, t, Straight(b, who), s)
    ensures InOrder(up, Apply(up, t, Straight(b, who)), s)
    ensures Pending(up, Apply(up, t, Straight(b, who)), s) == Pending(up, t, s) + (if b.tg == s then [b] else [])
  {
    var w := Waiting(up, t.h.bios, s);
    OnlyAppend(t.submitted, b, s);
    OnlyAppend(t.out, b, s);
    if b.tg == s {
      LetIn(Only(t.submitted, s), Only(t.issued, s), Only(t.out, s), w, b);
    } else {
      assert Pending(up, t, s) + [] == Pending(up, t, s);
    }
  }

  lemma LetIn(submitted: seq<Bio>, issued: seq<Bio>, o: seq<Bio>, w: seq<Bio>, b: Bio)
    requires submitted == issued + (o + w) && o + w == []
    ensures submitted + [b] == issued + ((o + [b]) + w) && (o + [b]) + w == (o + w) + [b]
  {
    assert o == [] && w == [];
  }

  lemma OutPending(up: seq<nat>, h: Half, out: seq<Bio>, s: nat)
    requires HalfOk(up, h) && Sourced(up, h.bios) && h.queued[|up|] != [] && Held(h.bios, h.queued[|up|][0]) != []
    ensures Only(out + [Front(h, |up|)], s) + Waiting(up, Pop(h, |up|).bios, s) ==
            Only(out, s) + Waiting(up, h.bios, s)
  {
    IssueOrder(up, h, s);
    TakenInHand(out, Front(h, |up|), s, Waiting(up, h.bios, s), Waiting(up, Pop(h, |up|).bios, s));
  }

  lemma TakenInHand(out: seq<Bio>, b: Bio, s: nat, w: seq<Bio>, w': seq<Bio>)
    requires w == (if b.tg == s then [b] else []) + w'
    ensures Only(out + [b], s) + w' == Only(out, s) + w
  {
    OnlyAppend(out, b, s);
    Assoc(Only(out, s), [b], w');
  }

  lemma OutInOrder(up: seq<nat>, t: Track, who: nat, s: nat)
    requires Sound(up, t) && Enabled(up, t, Out(who)) && InOrder(up, t, s)
    ensures InOrder(up, Apply(up, t, Out(who)), s)
    ensures Pending(up, Apply(up, t, Out(who)), s) == Pending(up, t, s)
  {
    OutPending(up, t.h, t.out, s);
  }

  lemma SendInOrder(up: seq<nat>, t: Track, j: nat, s: nat)
    requires IsTree(up) && OneHand(t, s) && Enabled(up, t, Send(j)) && InOrder(up, t, s)
    ensures InOrder(up, Apply(up, t, Send(j)), s)
    ensures Pending(up, t, s) == (if t.out[j].tg == s then [t.out[j]] else []) + Pending(up, Apply(up, t, Send(j)), s)
  {
    SendTakesFirst(t, j, s);
    var gone := if t.out[j].tg == s then [t.out[j]] else [];
    Assoc(gone, Only(Drop(t.out, j), s), Waiting(up, t.h.bios, s));
    OnlyAppend(t.issued, t.out[j], s);
    Assoc(Only(t.issued, s), gone, Pending(up, Apply(up, t, Send(j)), s));
  }

  /** Every step that meets the guard keeps a group's submitted bios equal to those issued and then those pending. */
  lemma StepInOrder(up: seq<nat>, t: Track, a: Action, s: nat)
    requires Safe(up, t, s) && Enabled(up, t, a) && Guarded(up, t, a, s)
    ensures InOrder(up, Apply(up, t, a), s)
  {
    match a {
      case Queue(b, q) => QueueInOrder(up, t, b, q, s);
      case Straight(b, who) => StraightInOrder(up, t, b, who, s);
      case Up(g) => DispatchOrder(up, t.h, g, s);
      case Out(who) => OutInOrder(up, t, who, s);
      case Send(j) => SendInOrder(up, t, j, s);
    }
  }

  lemma StepKeepsSound(up: seq<nat>, t: Track, a: Action)
    requires Sound(up, t) && Enabled(up, t, a)
    ensures Sound(up, Apply(up, t, a))
  {
    match a {
      case Queue(b, q) =>
        SubmitKeeps(up, t.h, q, b);
        SubmitSourced(up, t.h.bios, q, b);
      case Straight(b, who) =>
      case Up(g) =>
        DispatchKeeps(up, t.h, g);
        DispatchOrder(up, t.h, g, g);
      case Out(who) =>
        IssueKeeps(up, t.h);
        IssueSourced(up, t.h.bios, t.h.queued[|up|][0]);
      case Send(j) =>
    }
  }

  lemma {:induction false} OnlyHas(list: seq<Bio>, i: nat, s: nat)
    requires i < |list| && list[i].tg == s
    ensures list[i] in Only(list, s)
  {
    if i > 0 {
      OnlyHas(list[1..], i - 1, s);
    }
  }

  lemma StepKeepsOneHand(up: seq<nat>, t: Track, a: Action, s: nat)
    requires IsTree(up) && OneHand(t, s) && Enabled(up, t, a) && Guarded(up, t, a, s)
    ensures OneHand(Apply(up, t, a), s)
  {
    if a.Straight? && a.b.tg == s {
      forall i | 0 <= i < |t.out| ensures t.out[i].tg != s {
        if t.out[i].tg == s {
          OnlyHas(t.out, i, s);
        }
      }
    } else if a.Send? {
      DropOneHand(t, a.j, s);
    }
  }

  lemma DropOneHand(t: Track, j: nat, s: nat)
    requires OneHand(t, s) && j < |t.out|
    ensures OneHand(t.(out := Drop(t.out, j), hands := Drop(t.hands, j)), s)
  {
    assert forall i :: 0 <= i < |t.out| - 1 ==>
      && Drop(t.out, j)[i] == t.out[if i < j then i else i + 1]
      && Drop(t.hands, j)[i] == t.hands[if i < j then i else i + 1];
  }

  lemma StepKeepsSafe(up: seq<nat>, t: Track, a: Action, s: nat)
    requires Safe(up, t, s) && Enabled(up, t, a) && Guarded(up, t, a, s)
    ensures Safe(up, Apply(up, t, a), s)
  {
    StepKeepsSound(up, t, a);
    StepKeepsOneHand(up, t, a, s);
    StepInOrder(up, t, a, s);
  }

  // What breaks the order, and for good

  ghost predicate Prefix(t: Track, s: nat) {
    Only(t.issued, s) <= Only(t.submitted, s)
  }

  /** The bio of group `s` issued in place `k` is not the one submitted in that place. */
  ghost predicate Overtaken(t: Track, s: nat, k: nat) {
    k < |Only(t.issued, s)| && k < |Only(t.submitted, s)| && Only(t.issued, s)[k] != Only(t.submitted, s)[k]
  }

  lemma OnlyGrows(list: seq<Bio>, b: Bio, s: nat)
    ensures Only(list, s) <= Only(list + [b], s)
  {
    OnlyAppend(list, b, s);
  }

  lemma StaysOvertaken(up: seq<nat>, t: Track, a: Action, s: nat, k: nat)
    requires Enabled(up, t, a) && Overtaken(t, s, k)
    ensures Overtaken(Apply(up, t, a), s, k)
  {
    match a {
      case Queue(b, q) => OnlyGrows(t.submitted, b, s);
      case Straight(b, who) => OnlyGrows(t.submitted, b, s);
      case Up(g) =>
      case Out(who) =>
      case Send(j) => OnlyGrows(t.issued, t.out[j], s);
    }
  }

  /** A bio of group `s` that waits or is in somebody's hands is not submitted again. */
  ghost predicate Once(up: seq<nat>, t: Track, a: Action, s: nat)
    requires IsTree(up)
  {
    (a.Queue? || a.Straight?) && a.b.tg == s ==> a.b !in Pending(up, t, s)
  }

  ghost predicate Apart(p: seq<Bio>) {
    forall i, j :: 0 <= i < j < |p| ==> p[i] != p[j]
  }

  lemma StepKeepsApart(up: seq<nat>, t: Track, a: Action, s: nat)
    requires Safe(up, t, s) && Enabled(up, t, a) && Guarded(up, t, a, s) && Once(up, t, a, s)
    requires Apart(Pending(up, t, s))
    ensures Apart(Pending(up, Apply(up, t, a), s))
  {
    match a {
      case Queue(b, q) => QueueInOrder(up, t, b, q, s);
      case Straight(b, who) => StraightInOrder(up, t, b, who, s);
      case Up(g) => DispatchOrder(up, t.h, g, s);
      case Out(who) => OutInOrder(up, t, who, s);
      case Send(j) =>
        SendInOrder(up, t, j, s);
        ApartTail(if t.out[j].tg == s then [t.out[j]] else [], Pending(up, Apply(up, t, a), s));
    }
  }

  lemma ApartTail(gone: seq<Bio>, p: seq<Bio>)
    requires Apart(gone + p)
    ensures Apart(p)
  {
    forall i, j | 0 <= i < j < |p| ensures p[i] != p[j] {
      assert (gone + p)[|gone| + i] == p[i] && (gone + p)[|gone| + j] == p[j];
    }
  }

  /** What can still be pending of a group when the way up is free: bios in hands, and on the device's own queue. */
  lemma StraightPending(up: seq<nat>, t: Track, s: nat, top: nat)
    requires HalfOk(up, t.h) && s < |up| && EmptyBelow(up, t.h.nr, s, |up|)
    requires top < |up| && up[top] == |up| && Reach(up, s, top)
    ensures Pending(up, t, s) == Only(t.out, s) + Only(Held(t.h.bios, Qnode(top, true)), s)
  {
    ReachNext(up, s, top);
    EmptyQnodes(up, t.h, Qnode(top, true), s);
    LineTail(up, t.h.bios, s, s, top);
  }

  // Whole runs

  ghost predicate Legal(up: seq<nat>, t: Track, run: seq<Action>)
    requires IsTree(up)
    decreases |run|
  {
    run == [] || (Enabled(up, t, run[0]) && Legal(up, Apply(up, t, run[0]), run[1..]))
  }

  ghost function Exec(up: seq<nat>, t: Track, run: seq<Action>): Track
    requires IsTree(up) && Legal(up, t, run)
    decreases |run|
  {
    if run == [] then t else Exec(up, Apply(up, t, run[0]), run[1..])
  }

  lemma RunOne(up: seq<nat>, t: Track, a: Action)
    requires IsTree(up) && Enabled(up, t, a)
    ensures Legal(up, t, [a]) && Exec(up, t, [a]) == Apply(up, t, a)
  {
    assert [a][1..] == [];
  }

  lemma RunOn(up: seq<nat>, t: Track, a: Action, rest: seq<Action>)
    requires IsTree(up) && Enabled(up, t, a) && Legal(up, Apply(up, t, a), rest)
    ensures Legal(up, t, [a] + rest) && Exec(up, t, [a] + rest) == Exec(up, Apply(up, t, a), rest)
  {
    assert ([a] + rest)[1..] == rest;
  }

  /** Every step of the run meets the guard of group `s`. */
  ghost predicate AllGuarded(up: seq<nat>, t: Track, run: seq<Action>, s: nat)
    requires IsTree(up) && Legal(up, t, run)
    decreases |run|
  {
    run == [] || (Guarded(up, t, run[0], s) && AllGuarded(up, Apply(up, t, run[0]), run[1..], s))
  }

  ghost predicate AllOnce(up: seq<nat>, t: Track, run: seq<Action>, s: nat)
    requires IsTree(up) && Legal(up, t, run)
    decreases |run|
  {
    run == [] || (Once(up, t, run[0], s) && AllOnce(up, Apply(up, t, run[0]), run[1..], s))
  }

  ghost predicate AllSends(run: seq<Action>) {
    forall i :: 0 <= i < |run| ==> run[i].Send?
  }

  lemma {:induction false} SendsGuarded(up: seq<nat>, t: Track, run: seq<Action>, s: nat)
    requires IsTree(up) && Legal(up, t, run) && AllSends(run)
    ensures AllGuarded(up, t, run, s)
    decreases |run|
  {
    if run != [] {
      SendsGuarded(up, Apply(up, t, run[0]), run[1..], s);
    }
  }

  lemma {:induction false} OrderInRuns(up: seq<nat>, t: Track, run: seq<Action>, s: nat)
    requires Safe(up, t, s) && Legal(up, t, run) && AllGuarded(up, t, run, s)
    ensures Safe(up, Exec(up, t, run), s)
    decreases |run|
  {
    if run != [] {
      StepKeepsSafe(up, t, run[0], s);
      OrderInRuns(up, Apply(up, t, run[0]), run[1..], s);
    }
  }

  /** An order once broken stays broken. */
  lemma {:induction false} OvertakenInRuns(up: seq<nat>, t: Track, run: seq<Action>, s: nat, k: nat)
    requires IsTree(up) && Legal(up, t, run) && Overtaken(t, s, k)
    ensures Overtaken(Exec(up, t, run), s, k)
    decreases |run|
  {
    if run != [] {
      StaysOvertaken(up, t, run[0], s, k);
      OvertakenInRuns(up, Apply(up, t, run[0]), run[1..], s, k);
    }
  }

  /** However the bios in hands are issued from here on, the order of group `s` is kept. */
  ghost predicate SafeHere(up: seq<nat>, t: Track, s: nat)
    requires IsTree(up)
  {
    forall more :: AllSends(more) && Legal(up, t, more) ==> Prefix(Exec(up, t, more), s)
  }

  /** And so at every point of a run. */
  ghost predicate AlwaysSafe(up: seq<nat>, t: Track, run: seq<Action>, s: nat)
    requires IsTree(up) && Legal(up, t, run)
    decreases |run|
  {
    SafeHere(up, t, s) && (run != [] ==> AlwaysSafe(up, Apply(up, t, run[0]), run[1..], s))
  }

  lemma SafeIsSafe(up: seq<nat>, t: Track, s: nat)
    requires Safe(up, t, s)
    ensures SafeHere(up, t, s)
  {
    forall more | AllSends(more) && Legal(up, t, more) ensures Prefix(Exec(up, t, more), s) {
      SendsGuarded(up, t, more, s);
      OrderInRuns(up, t, more, s);
    }
  }

  /** A bio let through past others of its group can be issued before them. */
  lemma StraightBreaks(up: seq<nat>, t: Track, b: Bio, who: nat)
    requires Safe(up, t, b.tg) && Enabled(up, t, Straight(b, who)) && Once(up, t, Straight(b, who), b.tg)
    requires Pending(up, t, b.tg) != []
    ensures var t' := Apply(up, t, Straight(b, who));
      Enabled(up, t', Send(|t.out|)) && Overtaken(Apply(up, t', Send(|t.out|)), b.tg, |Only(t.issued, b.tg)|)
  {
    OnlyAppend(t.submitted, b, b.tg);
    OnlyAppend(t.issued, b, b.tg);
    assert Pending(up, t, b.tg)[0] in Pending(up, t, b.tg);
  }

  /**
   * A bio let through and issued at once keeps what its group has issued a prefix of what it submitted exactly when
   * none of the group was pending.
   */
  lemma StraightPrefix(up: seq<nat>, t: Track, b: Bio, who: nat)
    requires Safe(up, t, b.tg) && Enabled(up, t, Straight(b, who)) && Once(up, t, Straight(b, who), b.tg)
    ensures var t' := Apply(up, t, Straight(b, who));
      Enabled(up, t', Send(|t.out|)) && (Prefix(Apply(up, t', Send(|t.out|)), b.tg) <==> Pending(up, t, b.tg) == [])
  {
    if Pending(up, t, b.tg) == [] {
      StepKeepsSafe(up, t, Straight(b, who), b.tg);
      StepKeepsSafe(up, Apply(up, t, Straight(b, who)), Send(|t.out|), b.tg);
    } else {
      StraightBreaks(up, t, b, who);
    }
  }

  /** The last bio taken is of group `s`, alone of it in its hands, and not the next of the group to be issued. */
  ghost predicate OutOfTurn(t: Track, s: nat) {
    && |t.out| == |t.hands| > 0
    && var at := |t.out| - 1;
      && t.out[at].tg == s && |Only(t.issued, s)| < |Only(t.submitted, s)|
      && t.out[at] != Only(t.submitted, s)[|Only(t.issued, s)|]
      && forall i :: 0 <= i < at && t.hands[i] == t.hands[at] ==> t.out[i].tg != s
  }

  lemma {:induction false} FirstInHand(hands: seq<nat>, at: nat) returns (j: nat)
    requires at < |hands|
    ensures j <= at && hands[j] == hands[at] && forall i :: 0 <= i < j ==> hands[i] != hands[j]
  {
    if i: nat :| i < at && hands[i] == hands[at] {
      j := FirstInHand(hands, i);
    } else {
      j := at;
    }
  }

  /** Issuing what was in those hands before changes nothing of that. */
  lemma OthersFirst(up: seq<nat>, t: Track, j: nat, s: nat)
    requires OutOfTurn(t, s) && Enabled(up, t, Send(j)) && j < |t.out| - 1 && t.hands[j] == t.hands[|t.out| - 1]
    ensures var t' := Apply(up, t, Send(j));
      OutOfTurn(t', s) && Only(t'.issued, s) == Only(t.issued, s) && t'.h == t.h && |t'.out| == |t.out| - 1
  {
    OnlyAppend(t.issued, t.out[j], s);
    var t' := Apply(up, t, Send(j));
    var at := |t.out| - 1;
    assert t'.out[at - 1] == t.out[at] && t'.hands[at - 1] == t.hands[at];
    forall i | 0 <= i < at - 1 && t'.hands[i] == t'.hands[at - 1] ensures t'.out[i].tg != s {
      var k := if i < j then i else i + 1;
      assert t'.hands[i] == t.hands[k] && t'.out[i] == t.out[k];
    }
  }

  lemma LastOvertakes(up: seq<nat>, t: Track, s: nat)
    requires OutOfTurn(t, s) && Enabled(up, t, Send(|t.out| - 1))
    ensures Overtaken(Apply(up, t, Send(|t.out| - 1)), s, |Only(t.issued, s)|)
  {
    OnlyAppend(t.issued, t.out[|t.out| - 1], s);
  }

  lemma MoreSends(up: seq<nat>, t: Track, j: nat, more: seq<Action>)
    requires IsTree(up) && Enabled(up, t, Send(j)) && AllSends(more) && Legal(up, Apply(up, t, Send(j)), more)
    ensures AllSends([Send(j)] + more) && Legal(up, t, [Send(j)] + more)
    ensures Exec(up, t, [Send(j)] + more) == Exec(up, Apply(up, t, Send(j)), more)
  {
    RunOn(up, t, Send(j), more);
  }

  /** It can be issued as soon as its holder has issued what was in its hands before. */
  lemma {:induction false} LastCanGo(up: seq<nat>, t: Track, s: nat) returns (more: seq<Action>)
    requires IsTree(up) && |t.h.nr| == |up| && |t.h.queued| == |up| + 1 && OutOfTurn(t, s)
    ensures AllSends(more) && Legal(up, t, more) && Overtaken(Exec(up, t, more), s, |Only(t.issued, s)|)
    decreases |t.out|
  {
    var j := FirstInHand(t.hands, |t.out| - 1);
    if j < |t.out| - 1 {
      OthersFirst(up, t, j, s);
      more := LastCanGo(up, Apply(up, t, Send(j)), s);
    } else {
      LastOvertakes(up, t, s);
      more := [];
    }
    MoreSends(up, t, j, more);
    more := [Send(j)] + more;
  }

  /** A bio taken from the device's queue while others of its group are in other hands can be issued before them. */
  lemma OutBreaks(up: seq<nat>, t: Track, who: nat, s: nat)
    requires Safe(up, t, s) && Enabled(up, t, Out(who)) && Apart(Pending(up, t, s)) && !Guarded(up, t, Out(who), s)
    ensures OutOfTurn(Apply(up, t, Out(who)), s)
  {
    var b := Front(t.h, |up|);
    var i :| 0 <= i < |t.out| && i < |t.hands| && t.out[i].tg == s && t.hands[i] != who;
    OnlyHas(t.out, i, s);
    IssueOrder(up, t.h, s);
    var o, w := Only(t.out, s), Waiting(up, t.h.bios, s);
    assert Pending(up, t, s)[0] == o[0] && Pending(up, t, s)[|o|] == w[0] == b;
  }

  /** A step that does not meet the guard can break the order. */
  lemma UnguardedBreaks(up: seq<nat>, t: Track, a: Action, s: nat) returns (more: seq<Action>)
    requires Safe(up, t, s) && Apart(Pending(up, t, s)) && Enabled(up, t, a) && Once(up, t, a, s)
    requires !Guarded(up, t, a, s)
    ensures AllSends(more) && Legal(up, Apply(up, t, a), more)
    ensures Overtaken(Exec(up, Apply(up, t, a), more), s, |Only(t.issued, s)|)
  {
    var t' := Apply(up, t, a);
    if a.Straight? {
      StraightBreaks(up, t, a.b, a.who);
      RunOne(up, t', Send(|t.out|));
      more := [Send(|t.out|)];
    } else {
      OutBreaks(up, t, a.who, s);
      StepKeepsSound(up, t, a);
      more := LastCanGo(up, t', s);
    }
  }

  lemma {:induction false} SafeExactly(up: seq<nat>, t: Track, run: seq<Action>, s: nat)
    requires Safe(up, t, s) && Apart(Pending(up, t, s)) && Legal(up, t, run) && AllOnce(up, t, run, s)
    ensures AlwaysSafe(up, t, run, s) <==> AllGuarded(up, t, run, s)
    decreases |run|
  {
    SafeIsSafe(up, t, s);
    if run != [] {
      if Guarded(up, t, run[0], s) {
        StepKeepsSafe(up, t, run[0], s);
        StepKeepsApart(up, t, run[0], s);
        SafeExactly(up, Apply(up, t, run[0]), run[1..], s);
      } else {
        var more := UnguardedBreaks(up, t, run[0], s);
        assert !Prefix(Exec(up, Apply(up, t, run[0]), more), s);
        assert !SafeHere(up, Apply(up, t, run[0]), s);
      }
    }
  }

  lemma {:induction false} NothingWaits(up: seq<nat>, bios: Bios, s: nat, x: nat)
    requires IsTree(up) && forall q :: Held(bios, q) == []
    ensures Line(up, bios, s, x) == []
    decreases |up| - x
  {
    if x < |up| {
      NothingWaits(up, bios, s, up[x]);
    }
  }

  ghost predicate New(up: seq<nat>, t: Track) {
    IsTree(up) && Idle(up, t.h) && HalfOk(up, t.h) && t.submitted == t.issued == t.out == [] && t.hands == []
  }

  /**
   * Over every run from an idle device in which each step under the lock meets the guard of a group, what the group
   * has issued is a prefix of what it submitted, however the issues are timed. And these are all such runs: a step that
   * does not meet the guard can be followed by issues that break the order.
   */
  lemma GroupFifo(up: seq<nat>, t: Track, run: seq<Action>, s: nat)
    requires New(up, t) && Legal(up, t, run)
    ensures AllGuarded(up, t, run, s) ==> Prefix(Exec(up, t, run), s)
    ensures AllOnce(up, t, run, s) ==> (AlwaysSafe(up, t, run, s) <==> AllGuarded(up, t, run, s))
  {
    NothingWaits(up, t.h.bios, s, s);
    if AllGuarded(up, t, run, s) {
      OrderInRuns(up, t, run, s);
    }
    if AllOnce(up, t, run, s) {
      SafeExactly(up, t, run, s);
    }
  }
}
