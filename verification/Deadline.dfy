/** Lists of requests ordered by a key: the expiry time on the fifo, the start sector on the sort list. */
module DeadlineLists {

  datatype Entry = Entry(id: nat, key: int)

  ghost predicate Distinct(f: seq<Entry>) {
    forall i, j :: 0 <= i < j < |f| ==> f[i].id != f[j].id
  }

  ghost predicate Ordered(f: seq<Entry>) {
    forall i, j :: 0 <= i < j < |f| ==> f[i].key <= f[j].key
  }

  ghost predicate Has(f: seq<Entry>, id: nat) {
    exists i :: 0 <= i < |f| && f[i].id == id
  }

  /** How many entries are ahead of `id`, or the whole length when it is not there. */
  function Ahead(f: seq<Entry>, id: nat): (k: nat)
    ensures k <= |f|
    ensures k < |f| ==> f[k].id == id
    ensures forall i :: 0 <= i < k ==> f[i].id != id
  {
    if f == [] || f[0].id == id then 0 else 1 + Ahead(f[1..], id)
  }

  lemma AheadIsIndex(f: seq<Entry>, i: nat)
    requires Distinct(f) && i < |f|
    ensures Ahead(f, f[i].id) == i
  {
  }

  function Without(f: seq<Entry>, id: nat): seq<Entry> {
    var k := Ahead(f, id);
    if k < |f| then f[..k] + f[k + 1..] else f
  }

  /** Taking one request off moves everyone behind it up by one, and no one else. */
  lemma WithoutMoves(f: seq<Entry>, id: nat)
    requires Distinct(f)
    ensures Distinct(Without(f, id)) && (Ordered(f) ==> Ordered(Without(f, id)))
    ensures forall x :: Has(Without(f, id), x) <==> Has(f, x) && x != id
  {
    var k, g := Ahead(f, id), Without(f, id);
    assert forall i :: 0 <= i < |g| ==> g[i] == f[if i < k then i else i + 1];
    forall x | Has(f, x) && x != id
      ensures Has(g, x)
    {
      var i :| 0 <= i < |f| && f[i].id == x;
      assert g[if i < k then i else i - 1].id == x;
    }
  }

  lemma WithoutAhead(f: seq<Entry>, id: nat, x: nat)
    requires Distinct(f) && x != id && Has(f, x)
    ensures Ahead(Without(f, id), x) == if Ahead(f, id) < Ahead(f, x) then Ahead(f, x) - 1 else Ahead(f, x)
  {
    var k, g := Ahead(f, id), Without(f, id);
    var i := Ahead(f, x);
    WithoutMoves(f, id);
    assert g[if i < k then i else i - 1].id == x;
    AheadIsIndex(g, if i < k then i else i - 1);
  }

  lemma AppendKeeps(f: seq<Entry>, e: Entry)
    requires Distinct(f) && !Has(f, e.id)
    ensures Distinct(f + [e])
    ensures Ordered(f) && (forall i :: 0 <= i < |f| ==> f[i].key <= e.key) ==> Ordered(f + [e])
    ensures forall x :: Has(f + [e], x) <==> Has(f, x) || x == e.id
    ensures forall x :: Has(f, x) ==> Ahead(f + [e], x) == Ahead(f, x)
  {
    var g := f + [e];
    forall x | Has(f, x) || x == e.id
      ensures Has(g, x)
    {
      if x == e.id {
        assert g[|f|].id == x;
      } else {
        var i :| 0 <= i < |f| && f[i].id == x;
        assert g[i].id == x;
      }
    }
    forall x | Has(f, x)
      ensures Ahead(g, x) == Ahead(f, x)
    {
      assert g[Ahead(f, x)].id == x;
    }
  }

  /** Where an entry with this key goes: behind every entry that is not above it. */
  function Place(f: seq<Entry>, key: int): (p: nat)
    ensures p <= |f|
    ensures forall i :: 0 <= i < p ==> f[i].key <= key
    ensures p < |f| ==> key < f[p].key
  {
    if f == [] || key < f[0].key then 0 else 1 + Place(f[1..], key)
  }

  /** `elv_rb_add`. */
  function Insert(f: seq<Entry>, e: Entry): seq<Entry> {
    var p := Place(f, e.key);
    f[..p] + [e] + f[p..]
  }

  lemma InsertAt(f: seq<Entry>, e: Entry)
    ensures |Insert(f, e)| == |f| + 1
    ensures forall i :: 0 <= i <= |f| ==>
      Insert(f, e)[i] == if i < Place(f, e.key) then f[i] else if i == Place(f, e.key) then e else f[i - 1]
  {
  }

  lemma InsertHas(f: seq<Entry>, e: Entry, x: nat)
    ensures Has(Insert(f, e), x) <==> Has(f, x) || x == e.id
  {
    var p, g := Place(f, e.key), Insert(f, e);
    InsertAt(f, e);
    if x == e.id {
      assert g[p].id == x;
    } else if Has(f, x) {
      var i :| 0 <= i < |f| && f[i].id == x;
      assert g[if i < p then i else i + 1].id == x;
    }
  }

  lemma InsertKeeps(f: seq<Entry>, e: Entry)
    requires Distinct(f) && Ordered(f) && !Has(f, e.id)
    ensures Distinct(Insert(f, e)) && Ordered(Insert(f, e))
    ensures forall x :: Has(Insert(f, e), x) <==> Has(f, x) || x == e.id
  {
    InsertAt(f, e);
    forall x: nat ensures Has(Insert(f, e), x) <==> Has(f, x) || x == e.id {
      InsertHas(f, e, x);
    }
  }

  function KeyOf(f: seq<Entry>, id: nat): int
    requires Ahead(f, id) < |f|
  {
    f[Ahead(f, id)].key
  }

  /** `req` takes the place and the key of `next`, whose entry goes. */
  function TakeOver(f: seq<Entry>, req: nat, next: nat): seq<Entry>
    requires Ahead(f, next) < |f| && req != next
  {
    WithoutOther(f, req, next);
    var g := Without(f, req);
    g[Ahead(g, next) := Entry(req, KeyOf(f, next))]
  }

  lemma WithoutOther(f: seq<Entry>, id: nat, x: nat)
    requires x != id && Ahead(f, x) < |f|
    ensures Ahead(Without(f, id), x) < |Without(f, id)|
  {
    var k, i := Ahead(f, id), Ahead(f, x);
    if k < |f| {
      assert Without(f, id)[if i < k then i else i - 1].id == x;
    }
  }

  /** `deadline_merged_requests` on the fifo: `req` takes over from `next` when that expires first. */
  function Absorb(f: seq<Entry>, req: nat, next: nat): seq<Entry>
    requires Ahead(f, req) < |f| && Ahead(f, next) < |f| && req != next
  {
    if KeyOf(f, next) < KeyOf(f, req) then TakeOver(f, req, next) else Without(f, next)
  }

  lemma WithoutKey(f: seq<Entry>, id: nat, x: nat)
    requires Distinct(f) && x != id && Has(f, x)
    ensures Ahead(f, x) < |f| && Ahead(Without(f, id), x) < |Without(f, id)|
    ensures KeyOf(Without(f, id), x) == KeyOf(f, x)
  {
    WithoutOther(f, id, x);
    WithoutAhead(f, id, x);
  }

  lemma ReplaceKeeps(g: seq<Entry>, k: nat, req: nat)
    requires Distinct(g) && Ordered(g) && k < |g| && !Has(g, req)
    ensures var h := g[k := Entry(req, g[k].key)];
      && Distinct(h) && Ordered(h)
      && (forall x :: Has(h, x) <==> x == req || (Has(g, x) && x != g[k].id))
      && Ahead(h, req) == k
      && (forall x :: Has(h, x) && x != req ==> Ahead(h, x) == Ahead(g, x))
  {
    var h := g[k := Entry(req, g[k].key)];
    AheadIsIndex(h, k);
    forall x | Has(g, x) && x != g[k].id
      ensures Has(h, x) && Ahead(h, x) == Ahead(g, x)
    {
      var i := Ahead(g, x);
      assert h[i].id == x;
      AheadIsIndex(h, i);
    }
    assert h[k].id == req;
  }

  /** Merging two requests keeps the fifo in time order and moves no one back. */
  lemma TakeOverKeeps(f: seq<Entry>, req: nat, next: nat)
    requires Distinct(f) && Ordered(f) && Has(f, req) && Has(f, next) && req != next
    requires KeyOf(f, next) < KeyOf(f, req)
    ensures var g := TakeOver(f, req, next);
      && Distinct(g) && Ordered(g)
      && (forall x :: Has(g, x) <==> Has(f, x) && x != next)
      && (forall x :: Has(g, x) ==> Ahead(g, x) <= Ahead(f, x))
  {
    var w, k := Without(f, req), Ahead(f, next);
    WithoutMoves(f, req);
    WithoutOther(f, req, next);
    WithoutKey(f, req, next);
    WithoutAhead(f, req, next);
    ReplaceKeeps(w, Ahead(w, next), req);
    var g := TakeOver(f, req, next);
    forall x | Has(g, x)
      ensures Ahead(g, x) <= Ahead(f, x)
    {
      if x != req {
        WithoutAhead(f, req, x);
      }
    }
  }
}
