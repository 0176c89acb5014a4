module Arith {
  const U64: nat := 0x1_0000_0000_0000_0000
  const U32: nat := 0x1_0000_0000

  /** Euclidean division has one quotient and one remainder. */
  lemma DivModUnique(x: int, n: int, q: int, r: int)
    requires n > 0 && 0 <= r < n
    requires x == q * n + r
    ensures x / n == q && x % n == r
  {
    var d := x / n - q;
    assert d * n == r - x % n by {
      assert x == (x / n) * n + x % n;
      assert d * n == (x / n) * n - q * n;
    }
    assert d >= 1 ==> d * n >= n;
    assert d <= -1 ==> d * n <= -n;
  }

  /** The slot of a ring of `n` that running index `p` falls on. */
  function Wrap(p: nat, n: nat): (r: nat)
    requires 0 < n
    ensures r < n
  {
    p % n
  }

  lemma WrapSmall(p: nat, n: nat)
    requires p < n
    ensures Wrap(p, n) == p
  {
    DivModUnique(p, n, 0, p);
  }

  lemma WrapStep(p: nat, n: nat)
    requires 0 < n
    ensures Wrap(p + 1, n) == if Wrap(p, n) + 1 == n then 0 else Wrap(p, n) + 1
  {
    var q, r := p / n, p % n;
    if r + 1 == n {
      assert (q + 1) * n == q * n + n;
      DivModUnique(p + 1, n, q + 1, 0);
    } else {
      DivModUnique(p + 1, n, q, r + 1);
    }
  }

  /** From index `a` to index `b`, less than one turn apart. */
  lemma WrapGap(a: nat, b: nat, n: nat)
    requires 0 < n && a <= b < a + n
    ensures b - a ==
      if Wrap(a, n) <= Wrap(b, n) then Wrap(b, n) - Wrap(a, n) else n - (Wrap(a, n) - Wrap(b, n))
  {
    var q, r := a / n, a % n;
    if r + (b - a) < n {
      DivModUnique(b, n, q, r + (b - a));
    } else {
      assert (q + 1) * n == q * n + n;
      DivModUnique(b, n, q + 1, r + (b - a) - n);
    }
  }

  lemma WrapAdd(a: nat, k: nat, n: nat)
    requires 0 < n
    ensures Wrap(Wrap(a, n) + k, n) == Wrap(a + k, n)
  {
    var q := a / n;
    var t := a % n + k;
    assert (q + t / n) * n == q * n + (t / n) * n;
    DivModUnique(a + k, n, q + t / n, t % n);
  }
}

module Sums {
  function Sum(s: seq<nat>): nat {
    if s == [] then 0 else s[0] + Sum(s[1..])
  }

  lemma {:induction false} SumUpdate(s: seq<nat>, i: nat, v: nat)
    requires i < |s|
    ensures Sum(s[i := v]) == Sum(s) - s[i] + v
  {
    if i == 0 {
      assert s[0 := v][1..] == s[1..];
    } else {
      assert s[i := v][1..] == s[1..][i - 1 := v];
      SumUpdate(s[1..], i - 1, v);
    }
  }

  lemma {:induction false} SumBound(s: seq<nat>, c: nat, m: nat)
    requires c < |s| && s[c] == 0
    requires forall i :: 0 <= i < |s| ==> s[i] <= m
    ensures Sum(s) <= (|s| - 1) * m
  {
    SumUpTo(s[..c], m);
    SumUpTo(s[c + 1..], m);
    SumConcat(s[..c], s[c..]);
    assert s[..c] + s[c..] == s;
    assert s[c..][1..] == s[c + 1..];
    assert c * m + (|s| - c - 1) * m == (|s| - 1) * m;
  }

  lemma {:induction false} SumUpTo(s: seq<nat>, m: nat)
    requires forall i :: 0 <= i < |s| ==> s[i] <= m
    ensures Sum(s) <= |s| * m
  {
    if s != [] {
      SumUpTo(s[1..], m);
      assert |s| * m == (|s| - 1) * m + m;
    }
  }

  lemma {:induction false} SumConcat(s: seq<nat>, t: seq<nat>)
    ensures Sum(s + t) == Sum(s) + Sum(t)
  {
    if s == [] {
      assert s + t == t;
    } else {
      assert (s + t)[1..] == s[1..] + t;
      SumConcat(s[1..], t);
    }
  }
}

module Options {
  datatype Option<T> = None | Some(value: T)
}

module Seqs {
  lemma Assoc<T>(a: seq<T>, b: seq<T>, c: seq<T>)
    ensures a + b + c == a + (b + c)
  {
  }
}
