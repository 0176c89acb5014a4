/** The two passes of `elf_fdpic_core_dump`: offsets announced first, bytes written after. */
module CoreLayout {
  import opened Arith
  import opened Options
  import opened CoreFile

  const PN_XNUM: nat := 0xFFFF
  const NOTE_HEADER: nat := 12 // sizeof(struct elf_note)

  datatype Note = Note(name: seq<Byte>, header: seq<Byte>, desc: seq<Byte>) {
    predicate Valid() {
      |header| == NOTE_HEADER
    }
  }

  /** A mapping: its pages, where a missing page reads as zeros, and whether `maydump` lets it be dumped. */
  datatype Page = Present(bytes: seq<Byte>) | Missing
  datatype Vma = Vma(start: nat, pages: seq<Page>, dump: bool) {
    predicate Valid() {
      forall i :: 0 <= i < |pages| ==> pages[i].Present? ==> |pages[i].bytes| == PAGE_SIZE
    }

    function Size(): nat {
      |pages| * PAGE_SIZE
    }
  }

  datatype Phdr = NotePhdr(offset: nat, filesz: nat) | LoadPhdr(offset: nat, vaddr: nat, filesz: nat, memsz: nat)

  /** Header sizes and encodings of an ELF class. */
  datatype Abi = Abi(ehdrSize: nat, phdrSize: nat, shdrSize: nat, encode: Phdr -> seq<Byte>) {
    ghost predicate Valid() {
      ehdrSize % 4 == 0 && phdrSize % 4 == 0 && forall p :: |encode(p)| == phdrSize
    }
  }

  function RoundUp(n: nat, to: nat): nat
    requires 0 < to
  {
    n + Padding(n, to)
  }

  /** `notesize`. */
  function NoteSize(n: Note): nat {
    NOTE_HEADER + RoundUp(|n.name| + 1, 4) + RoundUp(|n.desc|, 4)
  }

  function Padded(bytes: seq<Byte>): seq<Byte> {
    bytes + Zeros(Padding(|bytes|, 4))
  }

  /** What `writenote` puts in the file at a position that is a multiple of four. */
  function NoteBytes(n: Note): seq<Byte> {
    n.header + Padded(n.name + [0 as Byte]) + Padded(n.desc)
  }

  lemma NoteFills(n: Note)
    requires n.Valid()
    ensures |NoteBytes(n)| == NoteSize(n) && NoteSize(n) % 4 == 0
  {
    PadAligns(|n.name| + 1, 4);
    PadAligns(|n.desc|, 4);
    FoursAdd(NOTE_HEADER, RoundUp(|n.name| + 1, 4));
    FoursAdd(NOTE_HEADER + RoundUp(|n.name| + 1, 4), RoundUp(|n.desc|, 4));
    assert |Padded(n.name + [0 as Byte])| == RoundUp(|n.name| + 1, 4) && |Padded(n.desc)| == RoundUp(|n.desc|, 4);
  }

  function NotesSize(ns: seq<Note>): nat {
    if ns == [] then 0 else NotesSize(ns[..|ns| - 1]) + NoteSize(ns[|ns| - 1])
  }

  function NotesBytes(ns: seq<Note>): seq<Byte> {
    if ns == [] then [] else NotesBytes(ns[..|ns| - 1]) + NoteBytes(ns[|ns| - 1])
  }

  lemma FoursAdd(a: nat, b: nat)
    requires a % 4 == 0 && b % 4 == 0
    ensures (a + b) % 4 == 0
  {
  }

  lemma {:induction false} NotesFill(ns: seq<Note>)
    requires forall i :: 0 <= i < |ns| ==> ns[i].Valid()
    ensures |NotesBytes(ns)| == NotesSize(ns) && NotesSize(ns) % 4 == 0
  {
    if ns != [] {
      var init, last := ns[..|ns| - 1], ns[|ns| - 1];
      NotesFill(init);
      NoteFills(last);
      FoursAdd(NotesSize(init), NoteSize(last));
      assert NotesBytes(ns) == NotesBytes(init) + NoteBytes(last);
    }
  }

  // Mappings

  function PageBytes(p: Page): seq<Byte> {
    if p.Present? then p.bytes else Zeros(PAGE_SIZE)
  }

  function PagesBytes(ps: seq<Page>): seq<Byte> {
    if ps == [] then [] else PagesBytes(ps[..|ps| - 1]) + PageBytes(ps[|ps| - 1])
  }

  function Dumped(v: Vma): seq<Byte> {
    if v.dump then PagesBytes(v.pages) else []
  }

  function FileSize(v: Vma): nat {
    if v.dump then v.Size() else 0
  }

  function DataBytes(vs: seq<Vma>): seq<Byte> {
    if vs == [] then [] else DataBytes(vs[..|vs| - 1]) + Dumped(vs[|vs| - 1])
  }

  /** `elf_core_vma_data_size`. */
  function DataSize(vs: seq<Vma>): nat {
    if vs == [] then 0 else DataSize(vs[..|vs| - 1]) + FileSize(vs[|vs| - 1])
  }

  lemma {:induction false} PagesFill(ps: seq<Page>)
    requires forall i :: 0 <= i < |ps| ==> ps[i].Present? ==> |ps[i].bytes| == PAGE_SIZE
    ensures |PagesBytes(ps)| == |ps| * PAGE_SIZE
  {
    if ps != [] {
      PagesFill(ps[..|ps| - 1]);
    }
  }

  lemma {:induction false} DataFills(vs: seq<Vma>)
    requires forall i :: 0 <= i < |vs| ==> vs[i].Valid()
    ensures |DataBytes(vs)| == DataSize(vs)
  {
    if vs != [] {
      DataFills(vs[..|vs| - 1]);
      PagesFill(vs[|vs| - 1].pages);
    }
  }

  /** The program header of mapping `i`: its data starts where the data of the mappings before it ends. */
  function LoadHeader(vs: seq<Vma>, dataoff: nat, i: nat): Phdr
    requires i < |vs|
  {
    LoadPhdr(dataoff + DataSize(vs[..i]), vs[i].start, FileSize(vs[i]), vs[i].Size())
  }

  function HeadersBytes(abi: Abi, vs: seq<Vma>, dataoff: nat, k: nat): seq<Byte>
    requires k <= |vs|
  {
    if k == 0 then [] else HeadersBytes(abi, vs, dataoff, k - 1) + abi.encode(LoadHeader(vs, dataoff, k - 1))
  }

  lemma {:induction false} HeadersFill(abi: Abi, vs: seq<Vma>, dataoff: nat, k: nat)
    requires abi.Valid() && k <= |vs|
    ensures |HeadersBytes(abi, vs, dataoff, k)| == k * abi.phdrSize
  {
    if k > 0 {
      HeadersFill(abi, vs, dataoff, k - 1);
      assert (k - 1) * abi.phdrSize + abi.phdrSize == k * abi.phdrSize;
    }
  }

  /** The first pass: what is announced, from the number of mappings the mm claims to have. */
  datatype Plan = Plan(segs: nat, noteOffset: nat, noteSize: nat, dataoff: nat, shoff: nat)

  function MakePlan(abi: Abi, notes: seq<Note>, vs: seq<Vma>, mapCount: nat): Plan {
    var segs := mapCount + 1;
    var noteOffset := abi.ehdrSize + segs * abi.phdrSize;
    var dataoff := RoundUp(noteOffset + NotesSize(notes), PAGE_SIZE);
    Plan(segs, noteOffset, NotesSize(notes), dataoff, dataoff + DataSize(vs))
  }

  /** The file up to the notes, and as a whole. */
  function Front(abi: Abi, ehdr: seq<Byte>, vs: seq<Vma>, p: Plan): seq<Byte> {
    ehdr + abi.encode(NotePhdr(p.noteOffset, p.noteSize)) + HeadersBytes(abi, vs, p.dataoff, |vs|)
  }

  lemma TimesFour(k: nat, n: nat)
    requires n % 4 == 0
    ensures (k * n) % 4 == 0
  {
    var q := n / 4;
    assert k * n == (k * q) * 4;
    DivModUnique(k * n, 4, k * q, 0);
  }

  lemma SameTimes(a: nat, b: nat, n: nat)
    requires 0 < n
    ensures a * n == b * n <==> a == b
  {
    var d := a - b;
    assert a * n - b * n == d * n;
    assert d >= 1 ==> d * n > 0;
    assert d <= -1 ==> d * n < 0;
  }

  lemma FrontLength(abi: Abi, ehdr: seq<Byte>, vs: seq<Vma>, p: Plan)
    requires abi.Valid() && |ehdr| == abi.ehdrSize
    ensures |Front(abi, ehdr, vs, p)| == abi.ehdrSize + (|vs| + 1) * abi.phdrSize
    ensures |Front(abi, ehdr, vs, p)| % 4 == 0
  {
    HeadersFill(abi, vs, p.dataoff, |vs|);
    OneMoreTime(|vs|, abi.phdrSize);
    TimesFour(|vs| + 1, abi.phdrSize);
    FoursAdd(abi.ehdrSize, (|vs| + 1) * abi.phdrSize);
  }

  lemma OneMoreTime(k: nat, n: nat)
    ensures (k + 1) * n == k * n + n
  {
  }

  /** The notes start where they were announced to exactly when the mm's mapping count is right. */
  lemma NotesStart(abi: Abi, ehdr: seq<Byte>, notes: seq<Note>, vs: seq<Vma>, mapCount: nat)
    requires abi.Valid() && |ehdr| == abi.ehdrSize && 0 < abi.phdrSize
    ensures var p := MakePlan(abi, notes, vs, mapCount);
      |Front(abi, ehdr, vs, p)| == p.noteOffset <==> |vs| == mapCount
  {
    FrontLength(abi, ehdr, vs, MakePlan(abi, notes, vs, mapCount));
    SameTimes(|vs| + 1, mapCount + 1, abi.phdrSize);
  }

  // Notes of threads

  /** What `elf_dump_thread_status` finds: the status, and floating-point and extended registers if there are any. */
  datatype Thread = Thread(status: Note, fp: Option<Note>, xfp: Option<Note>) {
    /** The notes that are filled in and whose sizes are announced. */
    function Filled(): seq<Note> {
      [status] + (if fp.Some? then [fp.value] else []) + (if xfp.Some? then [xfp.value] else [])
    }

    /** The slots: each kind has its own. One that is not filled in has no name, and writing it faults. */
    function Slots(): (s: seq<Option<Note>>)
      ensures |s| == 3
    {
      [Some(status), fp, xfp]
    }

    function NumNotes(): (n: nat)
      ensures n <= 3
    {
      1 + (if fp.Some? then 1 else 0) + (if xfp.Some? then 1 else 0)
    }

    /** The slots that are written out: as many, from the first on, as were filled in. */
    function Written(): seq<Option<Note>> {
      Slots()[..NumNotes()]
    }
  }

  function FilledNotes(own: seq<Note>, threads: seq<Thread>): seq<Note> {
    if threads == [] then own else FilledNotes(own, threads[..|threads| - 1]) + threads[|threads| - 1].Filled()
  }

  function Somes(notes: seq<Note>): seq<Option<Note>> {
    seq(|notes|, i requires 0 <= i < |notes| => Some(notes[i]))
  }

  /** What the second pass is to write for the dumper's own notes and the threads. */
  function WrittenSlots(own: seq<Note>, threads: seq<Thread>): seq<Option<Note>> {
    if threads == [] then Somes(own)
    else WrittenSlots(own, threads[..|threads| - 1]) + threads[|threads| - 1].Written()
  }

  /** Extended registers without plain ones leave a hole. */
  predicate HasHole(t: Thread) {
    t.xfp.Some? && t.fp.None?
  }

  lemma ThreadAgrees(t: Thread)
    ensures |t.Written()| == |Somes(t.Filled())| && (t.Written() == Somes(t.Filled()) <==> !HasHole(t))
    ensures None in t.Written() <==> HasHole(t)
  {
    if HasHole(t) {
      assert t.Written()[1] == None && Somes(t.Filled())[1].Some?;
    } else {
      assert t.Written() == Somes(t.Filled());
    }
  }

  lemma SomesConcat(a: seq<Note>, b: seq<Note>)
    ensures Somes(a + b) == Somes(a) + Somes(b)
  {
  }

  lemma SameParts<T>(a: seq<T>, b: seq<T>, c: seq<T>, d: seq<T>)
    requires |b| == |d|
    ensures a + b == c + d <==> a == c && b == d
  {
    if a + b == c + d {
      assert a == (a + b)[..|a|] && c == (c + d)[..|c|];
      assert b == (a + b)[|a|..] && d == (c + d)[|c|..];
    }
  }

  /** The slots written are the notes announced, and none of them is blank, exactly when no thread has a hole. */
  lemma {:induction false} ThreadNotesAgree(own: seq<Note>, threads: seq<Thread>)
    ensures WrittenSlots(own, threads) == Somes(FilledNotes(own, threads)) <==>
            forall i :: 0 <= i < |threads| ==> !HasHole(threads[i])
    ensures None in WrittenSlots(own, threads) <==> exists i :: 0 <= i < |threads| && HasHole(threads[i])
  {
    if threads != [] {
      var init, last := threads[..|threads| - 1], threads[|threads| - 1];
      ThreadNotesAgree(own, init);
      ThreadAgrees(last);
      SomesConcat(FilledNotes(own, init), last.Filled());
      SameParts(WrittenSlots(own, init), last.Written(), Somes(FilledNotes(own, init)), Somes(last.Filled()));
      assert (forall i :: 0 <= i < |threads| ==> !HasHole(threads[i])) <==>
             (forall i :: 0 <= i < |init| ==> !HasHole(init[i])) && !HasHole(last);
    }
  }

  lemma SomesInjective(a: seq<Note>, b: seq<Note>)
    requires Somes(a) == Somes(b)
    ensures a == b
  {
    assert |a| == |Somes(a)| == |b|;
    forall i | 0 <= i < |a| ensures a[i] == b[i] {
      assert Somes(a)[i] == Some(a[i]) && Somes(b)[i] == Some(b[i]);
    }
  }

  /** Notes that can be written without a fault are the ones announced. */
  lemma {:induction false} WrittenAreFilled(own: seq<Note>, threads: seq<Thread>, written: seq<Note>)
    requires WrittenSlots(own, threads) == Somes(written)
    ensures written == FilledNotes(own, threads)
  {
    ThreadNotesAgree(own, threads);
    assert None !in Somes(written);
    SomesInjective(written, FilledNotes(own, threads));
  }
}

/** The second pass. */
module CoreDump {
  import opened CoreFile
  import opened CoreLayout

  method EmitPadded(core: Core, bytes: seq<Byte>) returns (ok: bool)
    requires core.Valid() && |core.content| % 4 == 0
    modifies core
    ensures core.Valid() && core.Ends(ok, old(core.writes), |old(core.content)| + |Padded(bytes)|)
    ensures ok ==> core.content == old(core.content) + Padded(bytes) && |core.content| % 4 == 0
  {
    assert IsPow2(4);
    PadFrom(|core.content|, |bytes|);
    ok := core.DumpEmit(bytes);
    if !ok { return; }
    ok := core.DumpAlign(4);
    assert old(core.content) + bytes + Zeros(Padding(|bytes|, 4)) == old(core.content) + Padded(bytes);
  }

  /** `writenote`. */
  method WriteNote(core: Core, n: Note) returns (ok: bool)
    requires core.Valid() && n.Valid() && |core.content| % 4 == 0
    modifies core
    ensures core.Valid() && core.Ends(ok, old(core.writes), |old(core.content)| + |NoteBytes(n)|)
    ensures ok ==> core.content == old(core.content) + NoteBytes(n)
  {
    ghost var before := core.content;
    FoursAdd(|before|, NOTE_HEADER);
    NoteIs(before, n);
    ok := core.DumpEmit(n.header);
    if !ok { return; }
    ok := EmitPadded(core, n.name + [0 as Byte]);
    if !ok { return; }
    ok := EmitPadded(core, n.desc);
  }

  /** Padding depends only on the distance from an aligned position. */
  lemma PadFrom(at: nat, n: nat)
    requires at % 4 == 0
    ensures Padding(at + n, 4) == Padding(n, 4)
  {
  }

  lemma NoteIs(before: seq<Byte>, n: Note)
    ensures before + n.header + Padded(n.name + [0 as Byte]) + Padded(n.desc) == before + NoteBytes(n)
    ensures |NoteBytes(n)| == |n.header| + |Padded(n.name + [0 as Byte])| + |Padded(n.desc)|
  {
  }

  lemma NotesStep(before: seq<Byte>, ns: seq<Note>, i: nat)
    requires i < |ns|
    ensures before + NotesBytes(ns[..i]) + NoteBytes(ns[i]) == before + NotesBytes(ns[..i + 1])
  {
    assert ns[..i + 1][..i] == ns[..i];
  }

  lemma {:induction false} NotesGrow(ns: seq<Note>, i: nat)
    requires i < |ns|
    ensures NotesSize(ns[..i]) + NoteSize(ns[i]) <= NotesSize(ns)
    decreases |ns|
  {
    var init := ns[..|ns| - 1];
    if i < |init| {
      NotesGrow(init, i);
      assert init[..i] == ns[..i];
    }
  }

  /** The note after the first `i`, on a file that held `before` when they were begun. */
  method WriteNextNote(core: Core, ghost before: seq<Byte>, ns: seq<Note>, i: nat) returns (ok: bool)
    requires core.Valid() && |before| % 4 == 0 && i < |ns| && forall j :: 0 <= j < |ns| ==> ns[j].Valid()
    requires core.content == before + NotesBytes(ns[..i])
    modifies core
    ensures core.Valid() && core.Ends(ok, old(core.writes), |before| + NotesSize(ns[..i]) + NoteSize(ns[i]))
    ensures NotesSize(ns[..i]) + NoteSize(ns[i]) <= NotesSize(ns)
    ensures ok ==> core.content == before + NotesBytes(ns[..i + 1])
  {
    NotesFill(ns[..i]);
    NoteFills(ns[i]);
    NotesGrow(ns, i);
    FoursAdd(|before|, NotesSize(ns[..i]));
    NotesStep(before, ns, i);
    ok := WriteNote(core, ns[i]);
  }

  method WriteNotes(core: Core, ns: seq<Note>) returns (ok: bool)
    requires core.Valid() && |core.content| % 4 == 0 && forall i :: 0 <= i < |ns| ==> ns[i].Valid()
    modifies core
    ensures core.Valid() && core.Ends(ok, old(core.writes), |old(core.content)| + NotesSize(ns))
    ensures ok ==> core.content == old(core.content) + NotesBytes(ns)
  {
    assert NotesBytes(ns[..0]) == [];
    for i := 0 to |ns|
      invariant core.Valid() && core.content == old(core.content) + NotesBytes(ns[..i])
      invariant old(core.writes) <= core.writes && core.Clean(old(core.writes))
    {
      ok := WriteNextNote(core, old(core.content), ns, i);
      if !ok { return; }
    }
    assert ns[..|ns|] == ns;
    NotesFill(ns);
    ok := true;
  }

  lemma PagesStep(before: seq<Byte>, ps: seq<Page>, i: nat)
    requires i < |ps|
    ensures before + PagesBytes(ps[..i]) + PageBytes(ps[i]) == before + PagesBytes(ps[..i + 1])
  {
    assert ps[..i + 1][..i] == ps[..i];
  }

  lemma {:induction false} PagesGrow(ps: seq<Page>, i: nat)
    requires i <= |ps|
    ensures |PagesBytes(ps[..i])| <= |PagesBytes(ps)|
    decreases |ps|
  {
    if i < |ps| {
      PagesGrow(ps[..|ps| - 1], i);
      assert ps[..|ps| - 1][..i] == ps[..i];
    } else {
      assert ps[..i] == ps;
    }
  }

  /** The page loop of `elf_fdpic_dump_segments`. */
  method DumpPages(core: Core, ps: seq<Page>) returns (ok: bool)
    requires core.Valid()
    modifies core
    ensures core.Valid() && core.Ends(ok, old(core.writes), |old(core.content)| + |PagesBytes(ps)|)
    ensures ok ==> core.content == old(core.content) + PagesBytes(ps)
  {
    assert PagesBytes(ps[..0]) == [];
    for i := 0 to |ps|
      invariant core.Valid() && core.content == old(core.content) + PagesBytes(ps[..i])
      invariant old(core.writes) <= core.writes && core.Clean(old(core.writes))
    {
      PagesStep(old(core.content), ps, i);
      PagesGrow(ps, i + 1);
      if ps[i].Present? {
        ok := core.DumpEmit(ps[i].bytes);
      } else {
        ok := core.DumpSkip(PAGE_SIZE);
      }
      if !ok { return; }
    }
    assert ps[..|ps|] == ps;
    ok := true;
  }

  lemma DataStep(before: seq<Byte>, vs: seq<Vma>, i: nat)
    requires i < |vs|
    ensures before + DataBytes(vs[..i]) + Dumped(vs[i]) == before + DataBytes(vs[..i + 1])
  {
    assert vs[..i + 1][..i] == vs[..i];
  }

  lemma {:induction false} DataGrow(vs: seq<Vma>, i: nat)
    requires i <= |vs|
    ensures |DataBytes(vs[..i])| <= |DataBytes(vs)|
    decreases |vs|
  {
    if i < |vs| {
      DataGrow(vs[..|vs| - 1], i);
      assert vs[..|vs| - 1][..i] == vs[..i];
    } else {
      assert vs[..i] == vs;
    }
  }

  /** `elf_fdpic_dump_segments`. */
  method DumpSegments(core: Core, vs: seq<Vma>) returns (ok: bool)
    requires core.Valid()
    modifies core
    ensures core.Valid() && core.Ends(ok, old(core.writes), |old(core.content)| + |DataBytes(vs)|)
    ensures ok ==> core.content == old(core.content) + DataBytes(vs)
  {
    assert DataBytes(vs[..0]) == [];
    for i := 0 to |vs|
      invariant core.Valid() && core.content == old(core.content) + DataBytes(vs[..i])
      invariant old(core.writes) <= core.writes && core.Clean(old(core.writes))
    {
      DataStep(old(core.content), vs, i);
      DataGrow(vs, i + 1);
      if vs[i].dump {
        ok := DumpPages(core, vs[i].pages);
        if !ok { return; }
      }
    }
    assert vs[..|vs|] == vs;
    ok := true;
  }

  lemma {:induction false} HeadersGrow(abi: Abi, vs: seq<Vma>, dataoff: nat, i: nat, k: nat)
    requires i <= k <= |vs|
    ensures |HeadersBytes(abi, vs, dataoff, i)| <= |HeadersBytes(abi, vs, dataoff, k)|
    decreases k
  {
    if i < k {
      HeadersGrow(abi, vs, dataoff, i, k - 1);
    }
  }

  lemma HeadersStep(before: seq<Byte>, abi: Abi, vs: seq<Vma>, dataoff: nat, i: nat)
    requires i < |vs|
    ensures before + HeadersBytes(abi, vs, dataoff, i) + abi.encode(LoadHeader(vs, dataoff, i)) ==
            before + HeadersBytes(abi, vs, dataoff, i + 1)
    ensures DataSize(vs[..i + 1]) == DataSize(vs[..i]) + FileSize(vs[i])
  {
    assert vs[..i + 1][..i] == vs[..i];
  }

  /** The program headers of the mappings, with a running offset. */
  method WriteHeaders(core: Core, abi: Abi, vs: seq<Vma>, dataoff: nat) returns (ok: bool, offset: nat)
    requires core.Valid()
    modifies core
    ensures core.Valid()
    ensures core.Ends(ok, old(core.writes), |old(core.content)| + |HeadersBytes(abi, vs, dataoff, |vs|)|)
    ensures ok ==> core.content == old(core.content) + HeadersBytes(abi, vs, dataoff, |vs|)
    ensures ok ==> offset == dataoff + DataSize(vs)
  {
    offset := dataoff;
    for i := 0 to |vs|
      invariant core.Valid() && offset == dataoff + DataSize(vs[..i])
      invariant core.content == old(core.content) + HeadersBytes(abi, vs, dataoff, i)
      invariant old(core.writes) <= core.writes && core.Clean(old(core.writes))
    {
      HeadersStep(old(core.content), abi, vs, dataoff, i);
      HeadersGrow(abi, vs, dataoff, i + 1, |vs|);
      var sz := vs[i].Size();
      var filesz := if vs[i].dump then sz else 0;
      assert LoadPhdr(offset, vs[i].start, filesz, sz) == LoadHeader(vs, dataoff, i);
      ok := core.DumpEmit(abi.encode(LoadPhdr(offset, vs[i].start, filesz, sz)));
      if !ok { return; }
      offset := offset + filesz;
    }
    assert vs[..|vs|] == vs;
    ok := true;
  }

  /** The file up to where the data of the mappings starts. */
  ghost function Head(abi: Abi, ehdr: seq<Byte>, notes: seq<Note>, vs: seq<Vma>, p: Plan): seq<Byte> {
    Front(abi, ehdr, vs, p) + (NotesBytes(notes) + Zeros(Padding(p.noteOffset + p.noteSize, PAGE_SIZE)))
  }

  /** The file a dump that runs to its end leaves behind. */
  ghost function Image(abi: Abi, ehdr: seq<Byte>, shdr: seq<Byte>, notes: seq<Note>, vs: seq<Vma>, p: Plan): seq<Byte> {
    Head(abi, ehdr, notes, vs, p) + DataBytes(vs) + Tail(shdr, p)
  }

  ghost function Tail(shdr: seq<Byte>, p: Plan): seq<Byte> {
    if p.segs >= PN_XNUM then shdr else []
  }

  lemma HeadLength(abi: Abi, ehdr: seq<Byte>, notes: seq<Note>, vs: seq<Vma>)
    requires abi.Valid() && |ehdr| == abi.ehdrSize && forall i :: 0 <= i < |notes| ==> notes[i].Valid()
    ensures var p := MakePlan(abi, notes, vs, |vs|);
      && |Front(abi, ehdr, vs, p)| == p.noteOffset && |NotesBytes(notes)| == p.noteSize
      && |Head(abi, ehdr, notes, vs, p)| == p.dataoff
  {
    FrontLength(abi, ehdr, vs, MakePlan(abi, notes, vs, |vs|));
    NotesFill(notes);
  }

  /** The ELF header and all program headers. */
  method WriteFront(core: Core, abi: Abi, ehdr: seq<Byte>, vs: seq<Vma>, p: Plan) returns (ok: bool, offset: nat)
    requires core.Valid() && core.content == []
    modifies core
    ensures core.Valid() && core.Ends(ok, old(core.writes), |Front(abi, ehdr, vs, p)|)
    ensures ok ==> core.content == Front(abi, ehdr, vs, p) && offset == p.dataoff + DataSize(vs)
  {
    offset := 0;
    assert [] + ehdr == ehdr;
    ok := core.DumpEmit(ehdr);
    if !ok { return; }
    ok := core.DumpEmit(abi.encode(NotePhdr(p.noteOffset, p.noteSize)));
    if !ok { return; }
    ok, offset := WriteHeaders(core, abi, vs, p.dataoff);
  }

  ghost function NotesPadded(notes: seq<Note>, pad: nat): seq<Byte> {
    NotesBytes(notes) + Zeros(pad)
  }

  /** Notes, and zeros up to the page the data starts on. */
  method WriteNotesAndPad(core: Core, notes: seq<Note>, dataoff: nat) returns (ok: bool)
    requires core.Valid() && |core.content| % 4 == 0 && (forall i :: 0 <= i < |notes| ==> notes[i].Valid())
    requires |core.content| + NotesSize(notes) <= dataoff
    modifies core
    ensures core.Valid() && core.Ends(ok, old(core.writes), dataoff)
    ensures ok ==>
      core.content == old(core.content) + NotesPadded(notes, dataoff - (|old(core.content)| + NotesSize(notes)))
  {
    NotesFill(notes);
    ok := WriteNotes(core, notes);
    if !ok { return; }
    ghost var after := core.content;
    ok := core.DumpSkip(dataoff - core.written);
    assert ok ==> core.content == after + Zeros(dataoff - |after|);
  }

  /** The mappings, and the section header that holds the real number of segments when that is needed. */
  method WriteData(core: Core, vs: seq<Vma>, shdr: seq<Byte>, extended: bool) returns (ok: bool)
    requires core.Valid()
    modifies core
    ensures core.Valid()
    ensures core.Ends(ok, old(core.writes), |old(core.content) + DataBytes(vs) + if extended then shdr else []|)
    ensures ok ==> core.content == old(core.content) + DataBytes(vs) + if extended then shdr else []
  {
    ok := DumpSegments(core, vs);
    if ok && extended {
      ok := core.DumpEmit(shdr);
    }
  }

  /**
   * `elf_fdpic_core_dump` from the point where the notes are collected. It succeeds exactly when the image is within
   * the limit and no write fails. `warned` is whether the sanity check on the final file position complains.
   */
  method ElfCoreDump(core: Core, abi: Abi, ehdr: seq<Byte>, shdr: seq<Byte>, notes: seq<Note>, vs: seq<Vma>,
      mapCount: nat)
    returns (ok: bool, warned: bool)
    requires core.Valid() && core.content == [] && abi.Valid() && |ehdr| == abi.ehdrSize && |shdr| == abi.shdrSize
    requires (forall i :: 0 <= i < |notes| ==> notes[i].Valid()) && mapCount == |vs|
    modifies core
    ensures core.Valid()
    ensures core.Ends(ok, old(core.writes), |Image(abi, ehdr, shdr, notes, vs, MakePlan(abi, notes, vs, mapCount))|)
    ensures ok ==> core.content == Image(abi, ehdr, shdr, notes, vs, MakePlan(abi, notes, vs, mapCount))
    ensures ok ==> warned == (core.pos != MakePlan(abi, notes, vs, mapCount).shoff)
  {
    var p := MakePlan(abi, notes, vs, mapCount);
    var phnum := if p.segs > PN_XNUM then PN_XNUM else p.segs;
    warned := false;
    HeadLength(abi, ehdr, notes, vs);
    assert |Front(abi, ehdr, vs, p)| % 4 == 0 by {
      FrontLength(abi, ehdr, vs, p);
    }
    var offset;
    ok, offset := WriteFront(core, abi, ehdr, vs, p);
    if !ok { return; }
    ok := WriteNotesAndPad(core, notes, p.dataoff);
    if !ok { return; }
    assert core.content == Head(abi, ehdr, notes, vs, p);
    ok := WriteData(core, vs, shdr, phnum == PN_XNUM);
    warned := core.pos != offset;
  }

  // What the image says

  lemma {:induction false} DataAt(vs: seq<Vma>, i: nat)
    requires (forall k :: 0 <= k < |vs| ==> vs[k].Valid()) && i < |vs|
    ensures DataSize(vs[..i]) + FileSize(vs[i]) <= DataSize(vs) == |DataBytes(vs)|
    ensures DataBytes(vs)[DataSize(vs[..i])..DataSize(vs[..i]) + FileSize(vs[i])] == Dumped(vs[i])
    decreases |vs|
  {
    var init := vs[..|vs| - 1];
    DataFills(vs);
    DataFills(init);
    PagesFill(vs[|vs| - 1].pages);
    if i < |vs| - 1 {
      DataAt(init, i);
      assert init[..i] == vs[..i];
    }
  }

  lemma Inner(a: seq<Byte>, b: seq<Byte>, c: seq<Byte>, from: nat, n: nat)
    requires from + n <= |b|
    ensures |a| + from + n <= |a + b + c| && (a + b + c)[|a| + from..|a| + from + n] == b[from..from + n]
  {
  }

  lemma InnerIs(a: seq<Byte>, b: seq<Byte>, c: seq<Byte>, start: nat, from: nat, n: nat, what: seq<Byte>)
    requires |a| == start && from + n <= |b| && b[from..from + n] == what
    ensures start + from + n <= |a + b + c| && (a + b + c)[start + from..start + from + n] == what
  {
    Inner(a, b, c, from, n);
  }

  /** The note bytes fill exactly the range the PT_NOTE header announces. */
  lemma NotesInRange(abi: Abi, ehdr: seq<Byte>, shdr: seq<Byte>, notes: seq<Note>, vs: seq<Vma>)
    requires abi.Valid() && |ehdr| == abi.ehdrSize && forall i :: 0 <= i < |notes| ==> notes[i].Valid()
    ensures var p := MakePlan(abi, notes, vs, |vs|); var image := Image(abi, ehdr, shdr, notes, vs, p);
      && p.noteOffset + p.noteSize <= |image|
      && image[p.noteOffset..p.noteOffset + p.noteSize] == NotesBytes(notes)
  {
    var p := MakePlan(abi, notes, vs, |vs|);
    HeadLength(abi, ehdr, notes, vs);
    NotesAt(abi, ehdr, shdr, notes, vs, p);
  }

  /**
   * With the plan made from the notes announced and the image from the notes written, which do not fault, the range
   * holds the notes announced.
   */
  lemma ThreadNotesInRange(abi: Abi, ehdr: seq<Byte>, shdr: seq<Byte>, own: seq<Note>, threads: seq<Thread>,
      written: seq<Note>, vs: seq<Vma>)
    requires abi.Valid() && |ehdr| == abi.ehdrSize && WrittenSlots(own, threads) == Somes(written)
    requires forall i :: 0 <= i < |written| ==> written[i].Valid()
    ensures var p := MakePlan(abi, FilledNotes(own, threads), vs, |vs|);
      var image := Image(abi, ehdr, shdr, written, vs, p);
      && p.noteOffset + p.noteSize <= |image|
      && image[p.noteOffset..p.noteOffset + p.noteSize] == NotesBytes(FilledNotes(own, threads))
  {
    WrittenAreFilled(own, threads, written);
    NotesInRange(abi, ehdr, shdr, written, vs);
  }

  lemma NotesAt(abi: Abi, ehdr: seq<Byte>, shdr: seq<Byte>, notes: seq<Note>, vs: seq<Vma>, p: Plan)
    requires |Front(abi, ehdr, vs, p)| == p.noteOffset && |NotesBytes(notes)| == p.noteSize
    ensures var image := Image(abi, ehdr, shdr, notes, vs, p);
      p.noteOffset + p.noteSize <= |image| && image[p.noteOffset..p.noteOffset + p.noteSize] == NotesBytes(notes)
  {
    NotesInside(Front(abi, ehdr, vs, p), NotesBytes(notes), Zeros(Padding(p.noteOffset + p.noteSize, PAGE_SIZE)),
                DataBytes(vs), Tail(shdr, p), p.noteOffset, p.noteSize);
  }

  lemma NotesInside(front: seq<Byte>, notes: seq<Byte>, pad: seq<Byte>, data: seq<Byte>, tail: seq<Byte>, from: nat,
      n: nat)
    requires |front| == from && |notes| == n
    ensures var image := front + (notes + pad) + data + tail;
      from + n <= |image| && image[from..from + n] == notes
  {
    Inner(front, notes, pad + data + tail, 0, |notes|);
    Regroup(front, notes, pad, data, tail);
  }

  lemma Regroup(a: seq<Byte>, b: seq<Byte>, c: seq<Byte>, d: seq<Byte>, e: seq<Byte>)
    ensures a + (b + c) + d + e == a + b + (c + d + e)
  {
  }

  /** Every mapping that is dumped is found at the offset its program header gives. */
  lemma MappingAtOffset(abi: Abi, ehdr: seq<Byte>, shdr: seq<Byte>, notes: seq<Note>, vs: seq<Vma>, i: nat)
    requires abi.Valid() && |ehdr| == abi.ehdrSize && (forall k :: 0 <= k < |notes| ==> notes[k].Valid())
    requires (forall k :: 0 <= k < |vs| ==> vs[k].Valid()) && i < |vs|
    ensures var p := MakePlan(abi, notes, vs, |vs|); var image := Image(abi, ehdr, shdr, notes, vs, p);
      var h := LoadHeader(vs, p.dataoff, i);
      && h.offset + h.filesz <= |image|
      && image[h.offset..h.offset + h.filesz] == Dumped(vs[i])
  {
    var p := MakePlan(abi, notes, vs, |vs|);
    HeadLength(abi, ehdr, notes, vs);
    MappingAt(abi, ehdr, shdr, notes, vs, i, p);
  }

  lemma MappingAt(abi: Abi, ehdr: seq<Byte>, shdr: seq<Byte>, notes: seq<Note>, vs: seq<Vma>, i: nat, p: Plan)
    requires |Head(abi, ehdr, notes, vs, p)| == p.dataoff && (forall k :: 0 <= k < |vs| ==> vs[k].Valid()) && i < |vs|
    ensures var image, h := Image(abi, ehdr, shdr, notes, vs, p), LoadHeader(vs, p.dataoff, i);
      h.offset + h.filesz <= |image| && image[h.offset..h.offset + h.filesz] == Dumped(vs[i])
  {
    MappingIn(Head(abi, ehdr, notes, vs, p), Tail(shdr, p), vs, i);
  }

  lemma MappingIn(head: seq<Byte>, tail: seq<Byte>, vs: seq<Vma>, i: nat)
    requires (forall k :: 0 <= k < |vs| ==> vs[k].Valid()) && i < |vs|
    ensures var image, h := head + DataBytes(vs) + tail, LoadHeader(vs, |head|, i);
      h.offset + h.filesz <= |image| && image[h.offset..h.offset + h.filesz] == Dumped(vs[i])
  {
    DataAt(vs, i);
    InnerIs(head, DataBytes(vs), tail, |head|, DataSize(vs[..i]), FileSize(vs[i]), Dumped(vs[i]));
  }

  /** The final position is the running offset exactly when there are fewer than PN_XNUM segments. */
  lemma FinalPosition(abi: Abi, ehdr: seq<Byte>, shdr: seq<Byte>, notes: seq<Note>, vs: seq<Vma>)
    requires abi.Valid() && |ehdr| == abi.ehdrSize && |shdr| == abi.shdrSize && 0 < abi.shdrSize
    requires (forall k :: 0 <= k < |notes| ==> notes[k].Valid()) && (forall k :: 0 <= k < |vs| ==> vs[k].Valid())
    ensures var p := MakePlan(abi, notes, vs, |vs|);
      |Image(abi, ehdr, shdr, notes, vs, p)| == p.shoff <==> |vs| + 1 < PN_XNUM
  {
    HeadLength(abi, ehdr, notes, vs);
    DataFills(vs);
  }
}
