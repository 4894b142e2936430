/**
  The global offset table of ARC links (arc-got.h) as functions on values: which entries a request
  allocates, what is patched into them, and which dynamic relocs are made for them.
 */
module ArcGotModel {
  import opened Bytes

  datatype GotType = Unknown | Normal | TlsGd | TlsIe | TlsLe
  datatype Existing = NoEntries | ModAndOff | OffOnly
  /** A hash table entry, or a local symbol of an input. */
  datatype Sym = Global(id: nat) | Local(input: nat, index: nat)

  /** An entry of some symbol's list. */
  datatype Entry = Entry(sym: Sym, typ: GotType, offset: nat, processed: bool, created: bool, existing: Existing)

  datatype DynKind = Relative | GlobDat | DtpMod | DtpOff | TpOff
  /** A dynamic reloc made for entry number owner. */
  datatype DynReloc = DynReloc(owner: nat, pos: nat, kind: DynKind, dynIndx: nat, addend: nat)

  /** A value written for entry number owner, whose symbol resolved so. */
  datatype Patched = Patched(owner: nat, value: nat, to: Resolution)

  /**
    entries are all entries in the order of allocation; patches tells what was written for which, in
    order, and words what stands in the table, which starts as zeros. rel counts the dynamic relocs for
    which space is reserved.
   */
  datatype Got = Got(
    base: nat, size: nat, rel: nat, entries: seq<Entry>, patches: seq<Patched>, words: map<nat, nat>, dyn: seq<DynReloc>)

  function EmptyGot(base: nat): Got { Got(base, base, 0, [], [], map[], []) }

  /** bfd_get_32 */
  function WordAt(words: map<nat, nat>, pos: nat): nat {
    if pos in words then words[pos] else 0
  }

  /** got_entry_for_type, as a position among all entries. */
  function Find(es: seq<Entry>, sym: Sym, typ: GotType): (r: Option<nat>)
    ensures r.Some? ==> r.value < |es| && es[r.value].sym == sym && es[r.value].typ == typ
    ensures r.None? ==> forall i :: 0 <= i < |es| ==> es[i].sym != sym || es[i].typ != typ
  {
    if es == [] then None
    else
      var r := Find(es[..|es| - 1], sym, typ);
      if r.Some? then r
      else if es[|es| - 1].sym == sym && es[|es| - 1].typ == typ then Some(|es| - 1)
      else None
  }

  function Words(t: GotType): nat {
    if t == TlsGd then 2 else 1
  }

  function ExistingFor(t: GotType): Existing {
    match t
    case TlsGd => ModAndOff
    case TlsIe => OffOnly
    case TlsLe => OffOnly
    case _ => NoEntries
  }

  /** How many dynamic relocs a word of an entry has space reserved for. */
  function RelocPerWord(pic: bool, sym: Sym, t: GotType): nat {
    if t == Normal && !pic && !sym.Global? then 0 else 1
  }

  /** One use of ADD_SYMBOL_REF_SEC_AND_RELOC; it fails when a global symbol cannot be made dynamic. */
  function AddWord(g: Got, pic: bool, sym: Sym, t: GotType, recorded: bool): (Got, bool) {
    var g1 := g.(rel := g.rel + RelocPerWord(pic, sym, t));
    if sym.Global? && !recorded then (g1, false) else (g1.(size := g1.size + 4), true)
  }

  /** arc_fill_got_info_for_reloc; first and second say whether recording the symbol works each time. */
  function Request(g: Got, pic: bool, sym: Sym, t: GotType, first: bool, second: bool): (Got, bool) {
    if Find(g.entries, sym, t).Some? then (g, true)
    else if t == Unknown then (g, false)
    else
      var (g1, ok1) := AddWord(g, pic, sym, t, first);
      if !ok1 then (g1, false)
      else
        var (g2, ok2) := if t == TlsGd then AddWord(g1, pic, sym, t, second) else (g1, true);
        if !ok2 then (g2, false)
        else (g2.(entries := g2.entries + [Entry(sym, t, g.size, false, false, ExistingFor(t))]), true)
  }

  /** Where the value of an entry is patched in. */
  function PatchPos(e: Entry): nat {
    e.offset + if e.existing == ModAndOff then 4 else 0
  }

  /**
    What the symbol resolves to: its value, the address of its section or of the thread-local one, and
    what is added to thread-local offsets in a static link.
   */
  datatype Resolution = Resolution(value: nat, section: nat, bias: nat)

  /** The 32-bit word for an entry. */
  function WordFor(t: GotType, to: Resolution): nat {
    (match t
     case Normal => to.value + to.section
     case TlsIe => to.value - to.section + to.bias
     case _ => to.value - to.section) % 0x1_0000_0000
  }

  /**
    What the program finds in the word: the address of the symbol; or how far behind the start of the
    thread-local section it is, or behind what the thread pointer points to.
   */
  predicate Means(t: GotType, to: Resolution, word: nat) {
    match t
    case Normal => word == (to.section + to.value) % 0x1_0000_0000
    case TlsIe => (to.section + word) % 0x1_0000_0000 == (to.value + to.bias) % 0x1_0000_0000
    case _ => (to.section + word) % 0x1_0000_0000 == to.value % 0x1_0000_0000
  }

  lemma WordMeans(t: GotType, to: Resolution)
    ensures Means(t, to, WordFor(t, to))
  {
    var x := match t
             case Normal => to.value + to.section
             case TlsIe => to.value - to.section + to.bias
             case _ => to.value - to.section;
    var n := x / 0x1_0000_0000;
    assert to.section + x == 0x1_0000_0000 * n + (to.section + WordFor(t, to));
  }

  /** Whether a word is written: tlsResolved for a general-dynamic entry, weak for an undefined weak symbol. */
  predicate Writes(t: GotType, tlsResolved: bool, weak: bool) {
    match t
    case TlsGd => tlsResolved
    case TlsIe => true
    case Normal => !weak
    case _ => false
  }

  /**
    relocate_fix_got_relocs_for_got_info on entry i: resolved when the symbol needs no dynamic linking.
   */
  function Patch(g: Got, i: nat, resolved: bool, tlsResolved: bool, weak: bool, to: Resolution): Got
    requires i < |g.entries|
  {
    var e := g.entries[i];
    if e.typ == TlsLe || !resolved || e.processed then g
    else
      var g1 := g.(entries := g.entries[i := e.(processed := true)]);
      if !Writes(e.typ, tlsResolved, weak) then g1
      else
        g1.(patches := g.patches + [Patched(i, WordFor(e.typ, to), to)],
            words := g.words[PatchPos(e) := WordFor(e.typ, to)])
  }

  /** The dynamic relocs of create_got_dynrelocs_for_single_entry for an entry that has none yet. */
  function RelocsFor(e: Entry, i: nat, words: map<nat, nat>, pic: bool, symbolic: bool, dynIndx: int, defRegular: bool)
    : seq<DynReloc>
  {
    var index := if e.sym.Global? && dynIndx >= 0 then dynIndx else 0;
    var kind := if e.typ == TlsIe then TpOff else DtpOff;
    var addend := if e.typ == TlsIe then WordAt(words, e.offset) else 0;
    if e.typ == Normal then
      if pic && e.sym.Global? && (symbolic || dynIndx == -1) && defRegular then [DynReloc(i, e.offset, Relative, 0, 0)]
      else if e.sym.Global? && dynIndx != -1 then [DynReloc(i, e.offset, GlobDat, index, 0)]
      else []
    else if e.existing == ModAndOff then
      [DynReloc(i, e.offset, DtpMod, index, 0), DynReloc(i, e.offset + 4, kind, index, addend)]
    else if e.existing == OffOnly then [DynReloc(i, e.offset, kind, index, addend)]
    else []
  }

  function Emit(g: Got, i: nat, pic: bool, symbolic: bool, dynIndx: int, defRegular: bool): Got
    requires i < |g.entries|
  {
    var e := g.entries[i];
    if e.created || (e.typ != Normal && e.existing == NoEntries) then g
    else
      g.(entries := g.entries[i := e.(created := true)],
         dyn := g.dyn + RelocsFor(e, i, g.words, pic, symbolic, dynIndx, defRegular))
  }

  // ----- the invariant -----

  function WordsBefore(es: seq<Entry>, n: nat): nat
    requires n <= |es|
  {
    if n == 0 then 0 else WordsBefore(es, n - 1) + Words(es[n - 1].typ)
  }

  function Reserved(es: seq<Entry>, n: nat, pic: bool): nat
    requires n <= |es|
  {
    if n == 0 then 0
    else Reserved(es, n - 1, pic) + Words(es[n - 1].typ) * RelocPerWord(pic, es[n - 1].sym, es[n - 1].typ)
  }

  /** The part of what is reserved that belongs to entries whose relocs have been made. */
  function Used(es: seq<Entry>, n: nat, pic: bool): nat
    requires n <= |es|
  {
    if n == 0 then 0
    else
      Used(es, n - 1, pic)
      + if es[n - 1].created then Words(es[n - 1].typ) * RelocPerWord(pic, es[n - 1].sym, es[n - 1].typ) else 0
  }

  /** Entries stand one behind the other, each of a known type. */
  predicate Laid(g: Got) {
    && g.size == g.base + 4 * WordsBefore(g.entries, |g.entries|)
    && forall i :: 0 <= i < |g.entries| ==> EntryOk(g, i)
  }

  predicate EntryOk(g: Got, i: nat)
    requires i < |g.entries|
  {
    var e := g.entries[i];
    e.offset == g.base + 4 * WordsBefore(g.entries, i) && e.typ != Unknown && e.existing == ExistingFor(e.typ)
  }

  /** No symbol has two entries of one type. */
  predicate Single(es: seq<Entry>) {
    forall i, j :: 0 <= i < j < |es| ==> es[i].sym != es[j].sym || es[i].typ != es[j].typ
  }

  /** No entry was written twice, and those that were are marked. */
  predicate PatchedOnce(g: Got) {
    && (forall k :: 0 <= k < |g.patches| ==> g.patches[k].owner < |g.entries| && g.entries[g.patches[k].owner].processed)
    && (forall k, l :: 0 <= k < l < |g.patches| ==> g.patches[k].owner != g.patches[l].owner)
  }

  function PatchedPos(g: Got, k: nat): nat
    requires PatchedOnce(g) && k < |g.patches|
  {
    PatchPos(g.entries[g.patches[k].owner])
  }

  predicate PatchedHere(g: Got, p: nat) {
    exists k :: 0 <= k < |g.patches| && g.patches[k].owner < |g.entries| && PatchPos(g.entries[g.patches[k].owner]) == p
  }

  /** What was written for an entry means what its type says of its symbol. */
  predicate PatchesMean(g: Got) {
    forall k :: 0 <= k < |g.patches| ==>
      g.patches[k].owner < |g.entries| && Means(g.entries[g.patches[k].owner].typ, g.patches[k].to, g.patches[k].value)
  }

  /** A dynamic reloc is of the kind that its word of an entry of this type needs. */
  predicate DynFits(e: Entry, d: DynReloc) {
    match e.typ
    case Normal => d.pos == e.offset && (d.kind == Relative || d.kind == GlobDat) && d.addend == 0
    case TlsGd =>
      d.addend == 0 && ((d.kind == DtpMod && d.pos == e.offset) || (d.kind == DtpOff && d.pos == e.offset + 4))
    case TlsIe => d.kind == TpOff && d.pos == e.offset
    case _ => d.kind == DtpOff && d.pos == e.offset && d.addend == 0
  }

  /** Entry i has a dynamic reloc of this kind. */
  predicate HasDyn(g: Got, i: nat, kind: DynKind) {
    exists k :: 0 <= k < |g.dyn| && g.dyn[k].owner == i && g.dyn[k].kind == kind
  }

  /** Each reloc fits its entry, and once a thread-local entry has been seen to it has all it needs. */
  predicate DynMeans(g: Got) {
    && (forall k :: 0 <= k < |g.dyn| ==> g.dyn[k].owner < |g.entries| && DynFits(g.entries[g.dyn[k].owner], g.dyn[k]))
    && (forall i :: 0 <= i < |g.entries| && g.entries[i].created ==>
          && (g.entries[i].typ == TlsGd ==> HasDyn(g, i, DtpMod) && HasDyn(g, i, DtpOff))
          && (g.entries[i].typ == TlsIe ==> HasDyn(g, i, TpOff)))
  }

  /** Every word written is still there, and nothing else is. */
  ghost predicate WordsOk(g: Got)
    requires PatchedOnce(g)
  {
    && (forall k :: 0 <= k < |g.patches| ==> PatchedPos(g, k) in g.words && g.words[PatchedPos(g, k)] == g.patches[k].value)
    && (forall p :: p in g.words ==> exists k :: 0 <= k < |g.patches| && PatchedPos(g, k) == p)
  }

  /** p is a word of entry i. */
  predicate WordOf(g: Got, i: nat, p: nat) {
    i < |g.entries| && (p == g.entries[i].offset || (g.entries[i].typ == TlsGd && p == g.entries[i].offset + 4))
  }

  /** Dynamic relocs are for words of their own entries, which are marked, and no two for one word. */
  predicate DynOk(g: Got) {
    && (forall k :: 0 <= k < |g.dyn| ==> WordOf(g, g.dyn[k].owner, g.dyn[k].pos) && g.entries[g.dyn[k].owner].created)
    && (forall k, l :: 0 <= k < l < |g.dyn| ==> g.dyn[k].owner != g.dyn[l].owner || g.dyn[k].pos != g.dyn[l].pos)
  }

  ghost predicate GotOk(g: Got, pic: bool) {
    && Laid(g) && Single(g.entries) && PatchedOnce(g) && WordsOk(g) && DynOk(g) && PatchesMean(g) && DynMeans(g)
    && g.rel == Reserved(g.entries, |g.entries|, pic) && |g.dyn| <= Used(g.entries, |g.entries|, pic)
  }

  // ----- slots -----

  lemma {:induction false} WordsGrow(es: seq<Entry>, a: nat, b: nat)
    requires a < b <= |es|
    ensures WordsBefore(es, a) + Words(es[a].typ) <= WordsBefore(es, b)
    decreases b - a
  {
    if a + 1 < b {
      WordsGrow(es, a, b - 1);
    }
  }

  function SlotStart(g: Got, i: nat): nat
    requires i < |g.entries|
  {
    g.entries[i].offset
  }

  function SlotEnd(g: Got, i: nat): nat
    requires i < |g.entries|
  {
    g.entries[i].offset + 4 * Words(g.entries[i].typ)
  }

  /** Different entries have different words, inside what the table grew by. */
  lemma SlotsDisjoint(g: Got, i: nat, j: nat)
    requires Laid(g) && i < j < |g.entries|
    ensures g.base <= SlotStart(g, i) < SlotEnd(g, i) <= SlotStart(g, j) < SlotEnd(g, j) <= g.size
  {
    assert EntryOk(g, i) && EntryOk(g, j);
    WordsGrow(g.entries, i, j);
    WordsGrow(g.entries, j, |g.entries|);
  }

  /** Every byte the table grew by belongs to an entry. */
  lemma {:induction false} SlotsTile(g: Got, p: nat, n: nat) returns (i: nat)
    requires Laid(g) && n <= |g.entries| && g.base <= p < g.base + 4 * WordsBefore(g.entries, n)
    ensures i < n && SlotStart(g, i) <= p < SlotEnd(g, i)
  {
    assert EntryOk(g, n - 1);
    if p < g.base + 4 * WordsBefore(g.entries, n - 1) {
      i := SlotsTile(g, p, n - 1);
    } else {
      i := n - 1;
    }
  }

  /** p lies in the words of some entry. */
  predicate Covered(g: Got, p: nat) {
    exists i :: 0 <= i < |g.entries| && SlotStart(g, i) <= p < SlotEnd(g, i)
  }

  /** A word is the word of one entry only. */
  lemma WordsOwned(g: Got, i: nat, j: nat, p: nat)
    requires Laid(g) && WordOf(g, i, p) && WordOf(g, j, p)
    ensures i == j
  {
    if i < j {
      SlotsDisjoint(g, i, j);
    } else if j < i {
      SlotsDisjoint(g, j, i);
    }
  }

  // ----- every step keeps it -----

  lemma {:induction false} SumsSame(es: seq<Entry>, es': seq<Entry>, n: nat, pic: bool)
    requires n <= |es| && n <= |es'|
    requires forall i :: 0 <= i < n ==> es[i].typ == es'[i].typ && es[i].sym == es'[i].sym
    ensures WordsBefore(es, n) == WordsBefore(es', n) && Reserved(es, n, pic) == Reserved(es', n, pic)
  {
    if n > 0 {
      SumsSame(es, es', n - 1, pic);
    }
  }

  lemma {:induction false} UsedSame(es: seq<Entry>, es': seq<Entry>, n: nat, pic: bool)
    requires n <= |es| && n <= |es'|
    requires forall i :: 0 <= i < n ==> es[i].typ == es'[i].typ && es[i].sym == es'[i].sym && es[i].created == es'[i].created
    ensures Used(es, n, pic) == Used(es', n, pic)
  {
    if n > 0 {
      UsedSame(es, es', n - 1, pic);
    }
  }

  lemma {:induction false} UsedMarks(es: seq<Entry>, i: nat, n: nat, pic: bool)
    requires i < n <= |es| && !es[i].created
    ensures Used(es[i := es[i].(created := true)], n, pic)
            == Used(es, n, pic) + Words(es[i].typ) * RelocPerWord(pic, es[i].sym, es[i].typ)
    decreases n
  {
    var es' := es[i := es[i].(created := true)];
    if i == n - 1 {
      UsedSame(es, es', i, pic);
    } else {
      UsedMarks(es, i, n - 1, pic);
    }
  }

  lemma {:induction false} UsedBelow(es: seq<Entry>, n: nat, pic: bool)
    requires n <= |es|
    ensures Used(es, n, pic) <= Reserved(es, n, pic)
  {
    if n > 0 {
      UsedBelow(es, n - 1, pic);
    }
  }

  /** Entries keep symbol, type and place when only marks change. */
  lemma LaidSame(g: Got, g': Got)
    requires Laid(g) && |g'.entries| == |g.entries| && g'.base == g.base && g'.size == g.size
    requires forall i :: 0 <= i < |g.entries| ==>
               g'.entries[i] == g.entries[i].(processed := g'.entries[i].processed, created := g'.entries[i].created)
    ensures Laid(g') && (Single(g.entries) ==> Single(g'.entries))
  {
    SumsSame(g.entries, g'.entries, |g.entries|, true);
    forall i | 0 <= i < |g'.entries|
      ensures EntryOk(g', i)
    {
      assert EntryOk(g, i);
      SumsSame(g.entries, g'.entries, i, true);
    }
  }

  /** A request that succeeds keeps the table in order. */
  lemma RequestOk(g: Got, pic: bool, sym: Sym, t: GotType, first: bool, second: bool)
    requires GotOk(g, pic) && Request(g, pic, sym, t, first, second).1
    ensures GotOk(Request(g, pic, sym, t, first, second).0, pic)
    ensures Find(Request(g, pic, sym, t, first, second).0.entries, sym, t).Some?
  {
    hide Laid, Single, PatchedOnce, WordsOk, DynOk, PatchesMean, DynMeans, Find, Reserved, Used, ExistingFor;
    if Find(g.entries, sym, t).None? {
      var g' := Request(g, pic, sym, t, first, second).0;
      var n := |g.entries|;
      assert g'.entries[..n] == g.entries;
      SumsMore(g.entries, g'.entries[n], pic);
      LaidMore(g, g');
      MarksMore(g, g');
      MeansMore(g, g');
      SingleMore(g.entries, g'.entries[n]);
      FindLast(g.entries, g'.entries[n]);
    }
  }

  lemma FindLast(es: seq<Entry>, e: Entry)
    ensures Find(es + [e], e.sym, e.typ).Some?
  {
    assert (es + [e])[..|es|] == es;
  }

  lemma SumsMore(es: seq<Entry>, e: Entry, pic: bool)
    ensures var es' := es + [e];
            && Reserved(es', |es'|, pic) == Reserved(es, |es|, pic) + Words(e.typ) * RelocPerWord(pic, e.sym, e.typ)
            && Used(es', |es'|, pic) >= Used(es, |es|, pic)
  {
    var es' := es + [e];
    SumsSame(es, es', |es|, pic);
    UsedSame(es, es', |es|, pic);
  }

  lemma SingleMore(es: seq<Entry>, e: Entry)
    requires Single(es) && Find(es, e.sym, e.typ).None?
    ensures Single(es + [e])
  {
  }

  lemma LaidMore(g: Got, g': Got)
    requires Laid(g) && |g'.entries| == |g.entries| + 1 && g'.entries[..|g.entries|] == g.entries && g'.base == g.base
    requires var e := g'.entries[|g.entries|];
             e.offset == g.size && g'.size == g.size + 4 * Words(e.typ) && e.typ != Unknown && e.existing == ExistingFor(e.typ)
    ensures Laid(g')
  {
    var n := |g.entries|;
    SumsSame(g.entries, g'.entries, n, true);
    forall i | 0 <= i < |g'.entries|
      ensures EntryOk(g', i)
    {
      if i < n {
        assert EntryOk(g, i) && g'.entries[i] == g'.entries[..n][i];
        SumsSame(g.entries, g'.entries, i, true);
      }
    }
  }

  lemma MeansMore(g: Got, g': Got)
    requires |g'.entries| == |g.entries| + 1 && g'.entries[..|g.entries|] == g.entries && !g'.entries[|g.entries|].created
    requires g'.patches == g.patches && g'.dyn == g.dyn && PatchesMean(g) && DynMeans(g)
    ensures PatchesMean(g') && DynMeans(g')
  {
    hide Means, DynFits;
    forall i | 0 <= i < |g.entries|
      ensures g'.entries[i] == g.entries[i]
    {
      assert g'.entries[i] == g'.entries[..|g.entries|][i];
    }
    assert forall i: nat, kind :: HasDyn(g', i, kind) == HasDyn(g, i, kind);
  }

  /** Marks do not change what was made. */
  lemma MeansSame(g: Got, g': Got)
    requires |g'.entries| == |g.entries| && g'.dyn == g.dyn && DynMeans(g)
    requires forall i :: 0 <= i < |g.entries| ==> g'.entries[i] == g.entries[i].(processed := g'.entries[i].processed)
    ensures DynMeans(g')
  {
    hide HasDyn;
    HasDynSame(g, g');
  }

  lemma HasDynSame(g: Got, g': Got)
    requires g'.dyn == g.dyn
    ensures forall i: nat, kind :: HasDyn(g', i, kind) == HasDyn(g, i, kind)
  {
  }

  lemma PatchMeans(g: Got, i: nat, resolved: bool, tlsResolved: bool, weak: bool, to: Resolution)
    requires i < |g.entries| && PatchesMean(g)
    ensures PatchesMean(Patch(g, i, resolved, tlsResolved, weak, to))
  {
    hide Means, WordFor;
    WordMeans(g.entries[i].typ, to);
  }

  lemma EmitMeans(g: Got, pic: bool, i: nat, symbolic: bool, dynIndx: int, defRegular: bool)
    requires Laid(g) && i < |g.entries| && DynMeans(g) && PatchesMean(g)
    ensures var g' := Emit(g, i, pic, symbolic, dynIndx, defRegular); DynMeans(g') && PatchesMean(g')
  {
    hide Means, DynFits, HasDyn;
    var g' := Emit(g, i, pic, symbolic, dynIndx, defRegular);
    if g' != g {
      assert EntryOk(g, i);
      var rs := RelocsFor(g.entries[i], i, g.words, pic, symbolic, dynIndx, defRegular);
      RelocsFit(g.entries[i], i, g.words, pic, symbolic, dynIndx, defRegular);
      forall j, kind | 0 <= j < |g.entries|
        ensures HasDyn(g, j, kind) ==> HasDyn(g', j, kind)
        ensures j == i && (exists k :: 0 <= k < |rs| && rs[k].kind == kind) ==> HasDyn(g', j, kind)
      {
        HasDynMore(g, g', rs, i, j, kind);
      }
      forall k | 0 <= k < |g'.dyn|
        ensures g'.dyn[k].owner < |g'.entries| && DynFits(g'.entries[g'.dyn[k].owner], g'.dyn[k])
      {
        FitsMarked(g.entries[i], g'.dyn[k]);
      }
    }
  }

  lemma FitsMarked(e: Entry, d: DynReloc)
    ensures DynFits(e.(created := true), d) == DynFits(e, d)
  {
  }

  lemma HasDynMore(g: Got, g': Got, rs: seq<DynReloc>, i: nat, j: nat, kind: DynKind)
    requires g'.dyn == g.dyn + rs && forall k :: 0 <= k < |rs| ==> rs[k].owner == i
    ensures HasDyn(g, j, kind) ==> HasDyn(g', j, kind)
    ensures j == i && (exists k :: 0 <= k < |rs| && rs[k].kind == kind) ==> HasDyn(g', j, kind)
  {
    if k :| 0 <= k < |g.dyn| && g.dyn[k].owner == j && g.dyn[k].kind == kind {
      assert g'.dyn[k] == g.dyn[k];
    }
    if k :| 0 <= k < |rs| && rs[k].kind == kind {
      assert g'.dyn[|g.dyn| + k] == rs[k];
    }
  }

  lemma RelocsFit(e: Entry, i: nat, words: map<nat, nat>, pic: bool, symbolic: bool, dynIndx: int, defRegular: bool)
    requires e.typ != Unknown && e.existing == ExistingFor(e.typ)
    ensures var rs := RelocsFor(e, i, words, pic, symbolic, dynIndx, defRegular);
            && (forall k :: 0 <= k < |rs| ==> rs[k].owner == i && DynFits(e, rs[k]))
            && (e.typ == TlsGd ==> |rs| == 2 && rs[0].kind == DtpMod && rs[1].kind == DtpOff)
            && (e.typ == TlsIe ==> |rs| == 1 && rs[0].kind == TpOff && rs[0].addend == WordAt(words, e.offset))
  {
  }

  lemma MarksMore(g: Got, g': Got)
    requires |g'.entries| == |g.entries| + 1 && g'.entries[..|g.entries|] == g.entries
    requires g'.patches == g.patches && g'.words == g.words && g'.dyn == g.dyn
    ensures PatchedOnce(g) ==> PatchedOnce(g')
    ensures PatchedOnce(g) && WordsOk(g) ==> WordsOk(g')
    ensures DynOk(g) ==> DynOk(g')
  {
    forall i | 0 <= i < |g.entries|
      ensures g'.entries[i] == g.entries[i]
    {
      assert g'.entries[i] == g'.entries[..|g.entries|][i];
    }
    if PatchedOnce(g) && WordsOk(g) {
      forall k | 0 <= k < |g.patches|
        ensures PatchedPos(g', k) == PatchedPos(g, k)
      {
      }
    }
  }

  /** Where words were written does not change with the marks. */
  lemma PlacesSame(g: Got, g': Got)
    requires |g'.entries| == |g.entries| && PatchedOnce(g) && PatchedOnce(g') && |g.patches| <= |g'.patches|
    requires forall i :: 0 <= i < |g.entries| ==>
               g'.entries[i] == g.entries[i].(processed := g'.entries[i].processed, created := g'.entries[i].created)
    requires forall k :: 0 <= k < |g.patches| ==> g'.patches[k] == g.patches[k]
    ensures forall k :: 0 <= k < |g.patches| ==> PatchedPos(g', k) == PatchedPos(g, k)
  {
  }

  lemma PatchPosIsWord(g: Got, i: nat)
    requires Laid(g) && i < |g.entries|
    ensures WordOf(g, i, PatchPos(g.entries[i]))
  {
    assert EntryOk(g, i);
  }

  /** A word that is written for an entry not written before is none of those written before. */
  lemma FreshWord(g: Got, i: nat, k: nat)
    requires Laid(g) && PatchedOnce(g) && i < |g.entries| && !g.entries[i].processed && k < |g.patches|
    ensures PatchedPos(g, k) != PatchPos(g.entries[i])
  {
    PatchPosIsWord(g, i);
    PatchPosIsWord(g, g.patches[k].owner);
    if PatchedPos(g, k) == PatchPos(g.entries[i]) {
      WordsOwned(g, i, g.patches[k].owner, PatchPos(g.entries[i]));
    }
  }

  lemma PatchWords(g: Got, i: nat, resolved: bool, tlsResolved: bool, weak: bool, to: Resolution)
    requires Laid(g) && PatchedOnce(g) && WordsOk(g) && i < |g.entries|
    ensures var g' := Patch(g, i, resolved, tlsResolved, weak, to); PatchedOnce(g') && WordsOk(g')
  {
    hide Laid, WordFor, PatchPos;
    var g' := Patch(g, i, resolved, tlsResolved, weak, to);
    if g' != g {
      assert !g.entries[i].processed;
      MarkedOnce(g, g', i);
      PatchPosSame(g, g', i);
      PlacesSame(g, g');
      if g'.patches == g.patches {
        EmitWords(g, g');
      } else {
        forall k | 0 <= k < |g.patches|
          ensures PatchedPos(g, k) != PatchPos(g.entries[i])
        {
          FreshWord(g, i, k);
        }
        WordsMore(g, g', PatchPos(g.entries[i]), WordFor(g.entries[i].typ, to));
      }
    }
  }

  lemma MarkedOnce(g: Got, g': Got, i: nat)
    requires PatchedOnce(g) && i < |g.entries| && !g.entries[i].processed
    requires g'.entries == g.entries[i := g.entries[i].(processed := true)]
    requires g'.patches == g.patches || exists v, to :: g'.patches == g.patches + [Patched(i, v, to)]
    ensures PatchedOnce(g')
  {
  }

  lemma PatchPosSame(g: Got, g': Got, i: nat)
    requires i < |g.entries| && g'.entries == g.entries[i := g.entries[i].(processed := true)]
    ensures PatchPos(g'.entries[i]) == PatchPos(g.entries[i])
  {
  }

  lemma WordsMore(g: Got, g': Got, p: nat, v: nat)
    requires PatchedOnce(g) && WordsOk(g) && PatchedOnce(g') && |g'.patches| == |g.patches| + 1
    requires forall k :: 0 <= k < |g.patches| ==>
               g'.patches[k] == g.patches[k] && PatchedPos(g', k) == PatchedPos(g, k) && PatchedPos(g, k) != p
    requires PatchedPos(g', |g.patches|) == p && g'.patches[|g.patches|].value == v && g'.words == g.words[p := v]
    ensures WordsOk(g')
  {
    hide PatchedOnce;
    forall q | q in g'.words
      ensures exists k :: 0 <= k < |g'.patches| && PatchedPos(g', k) == q
    {
      if q == p {
        assert PatchedPos(g', |g.patches|) == q;
      } else {
        var k :| 0 <= k < |g.patches| && PatchedPos(g, k) == q;
        assert PatchedPos(g', k) == q;
      }
    }
  }

  lemma PatchOk(g: Got, pic: bool, i: nat, resolved: bool, tlsResolved: bool, weak: bool, to: Resolution)
    requires GotOk(g, pic) && i < |g.entries|
    ensures GotOk(Patch(g, i, resolved, tlsResolved, weak, to), pic)
  {
    hide WordsOk, PatchesMean, DynMeans;
    PatchWords(g, i, resolved, tlsResolved, weak, to);
    PatchMeans(g, i, resolved, tlsResolved, weak, to);
    MeansSame(g, Patch(g, i, resolved, tlsResolved, weak, to));
    var g' := Patch(g, i, resolved, tlsResolved, weak, to);
    LaidSame(g, g');
    SumsSame(g.entries, g'.entries, |g.entries|, pic);
    UsedSame(g.entries, g'.entries, |g.entries|, pic);
  }

  lemma EmitOk(g: Got, pic: bool, i: nat, symbolic: bool, dynIndx: int, defRegular: bool)
    requires GotOk(g, pic) && i < |g.entries|
    ensures GotOk(Emit(g, i, pic, symbolic, dynIndx, defRegular), pic)
  {
    hide WordsOk, PatchesMean, DynMeans;
    EmitMeans(g, pic, i, symbolic, dynIndx, defRegular);
    var g' := Emit(g, i, pic, symbolic, dynIndx, defRegular);
    if g' != g {
      EmitWords(g, g');
      assert EntryOk(g, i);
      LaidSame(g, g');
      SumsSame(g.entries, g'.entries, |g.entries|, pic);
      UsedMarks(g.entries, i, |g.entries|, pic);
      NewRelocs(g, pic, i, symbolic, dynIndx, defRegular);
    }
  }

  lemma EmitWords(g: Got, g': Got)
    requires |g'.entries| == |g.entries| && PatchedOnce(g) && WordsOk(g) && g'.patches == g.patches && g'.words == g.words
    requires PatchedOnce(g')
    requires forall i :: 0 <= i < |g.entries| ==>
               g'.entries[i] == g.entries[i].(processed := g'.entries[i].processed, created := g'.entries[i].created)
    ensures WordsOk(g')
  {
    PlacesSame(g, g');
  }

  /** What is made for an entry fits into what was reserved for it. */
  lemma NewRelocs(g: Got, pic: bool, i: nat, symbolic: bool, dynIndx: int, defRegular: bool)
    requires Laid(g) && i < |g.entries| && DynOk(g) && !g.entries[i].created
    ensures var e := g.entries[i];
            |RelocsFor(e, i, g.words, pic, symbolic, dynIndx, defRegular)| <= Words(e.typ) * RelocPerWord(pic, e.sym, e.typ)
    ensures DynOk(g.(entries := g.entries[i := g.entries[i].(created := true)],
                     dyn := g.dyn + RelocsFor(g.entries[i], i, g.words, pic, symbolic, dynIndx, defRegular)))
  {
    var e := g.entries[i];
    assert EntryOk(g, i);
    var rs := RelocsFor(e, i, g.words, pic, symbolic, dynIndx, defRegular);
    forall k | 0 <= k < |g.dyn|
      ensures g.dyn[k].owner != i
    {
    }
    assert forall k :: 0 <= k < |rs| ==> rs[k].owner == i && WordOf(g, i, rs[k].pos);
  }

  // ----- whole links -----

  datatype Op =
    | Req(sym: Sym, typ: GotType, first: bool, second: bool)
    | Fix(index: nat, resolved: bool, tlsResolved: bool, weak: bool, to: Resolution)
    | Dyn(index: nat, symbolic: bool, dynIndx: int, defRegular: bool)

  /** One operation; one on an entry that is not there does nothing. */
  function Step(g: Got, pic: bool, op: Op): (Got, bool) {
    match op
    case Req(sym, t, first, second) => Request(g, pic, sym, t, first, second)
    case Fix(i, resolved, tlsResolved, weak, to) =>
      (if i < |g.entries| then Patch(g, i, resolved, tlsResolved, weak, to) else g, true)
    case Dyn(i, symbolic, dynIndx, defRegular) =>
      (if i < |g.entries| then Emit(g, i, pic, symbolic, dynIndx, defRegular) else g, true)
  }

  /** A run up to the first operation that fails. */
  function Run(g: Got, pic: bool, ops: seq<Op>): (Got, bool)
    decreases |ops|
  {
    if ops == [] then (g, true)
    else
      var (g1, ok) := Step(g, pic, ops[0]);
      if ok then Run(g1, pic, ops[1..]) else (g1, false)
  }

  lemma {:induction false} RunOk(g: Got, pic: bool, ops: seq<Op>)
    requires GotOk(g, pic) && Run(g, pic, ops).1
    ensures GotOk(Run(g, pic, ops).0, pic) && Run(g, pic, ops).0.base == g.base
    decreases |ops|
  {
    hide GotOk, Request, Patch, Emit;
    if ops != [] {
      match ops[0] {
        case Req(sym, t, first, second) =>
          RequestOk(g, pic, sym, t, first, second);
          RequestBase(g, pic, sym, t, first, second);
        case Fix(i, resolved, tlsResolved, weak, to) =>
          if i < |g.entries| {
            PatchOk(g, pic, i, resolved, tlsResolved, weak, to);
            PatchBase(g, i, resolved, tlsResolved, weak, to);
          }
        case Dyn(i, symbolic, dynIndx, defRegular) =>
          if i < |g.entries| {
            EmitOk(g, pic, i, symbolic, dynIndx, defRegular);
            EmitBase(g, i, pic, symbolic, dynIndx, defRegular);
          }
      }
      RunOk(Step(g, pic, ops[0]).0, pic, ops[1..]);
    }
  }

  lemma RequestBase(g: Got, pic: bool, sym: Sym, t: GotType, first: bool, second: bool)
    ensures Request(g, pic, sym, t, first, second).0.base == g.base
  {
  }

  lemma PatchBase(g: Got, i: nat, resolved: bool, tlsResolved: bool, weak: bool, to: Resolution)
    requires i < |g.entries|
    ensures Patch(g, i, resolved, tlsResolved, weak, to).base == g.base
  {
  }

  lemma EmitBase(g: Got, i: nat, pic: bool, symbolic: bool, dynIndx: int, defRegular: bool)
    requires i < |g.entries|
    ensures Emit(g, i, pic, symbolic, dynIndx, defRegular).base == g.base
  {
  }

  /**
    Over any run of requests, patches and reloc creations that succeed: a symbol has one entry of a
    type at most; the words of the entries tile what the table grew by; each is patched once at most,
    in its own words, where the value stays, and all else is zero; the value is the address or the
    thread-local offset of the symbol; and the dynamic relocs made are of the kinds their entries need,
    for different words, and fit into the space reserved for them.
   */
  lemma GotAllocation(base: nat, pic: bool, ops: seq<Op>)
    requires Run(EmptyGot(base), pic, ops).1
    ensures var g := Run(EmptyGot(base), pic, ops).0;
            && Single(g.entries)
            && (forall i, j :: 0 <= i < j < |g.entries| ==> SlotEnd(g, i) <= SlotStart(g, j))
            && (forall p :: base <= p < g.size ==> Covered(g, p))
            && (forall i :: 0 <= i < |g.entries| ==> base <= SlotStart(g, i) && SlotEnd(g, i) <= g.size)
            && (forall k :: 0 <= k < |g.patches| ==>
                  g.patches[k].owner < |g.entries| && WordOf(g, g.patches[k].owner, PatchPos(g.entries[g.patches[k].owner])))
            && (forall k, l :: 0 <= k < l < |g.patches| ==> g.patches[k].owner != g.patches[l].owner)
            && (forall k :: 0 <= k < |g.patches| ==>
                  WordAt(g.words, PatchPos(g.entries[g.patches[k].owner])) == g.patches[k].value)
            && (forall k :: 0 <= k < |g.patches| ==> Means(g.entries[g.patches[k].owner].typ, g.patches[k].to, g.patches[k].value))
            && (forall p :: PatchedHere(g, p) || WordAt(g.words, p) == 0)
            && DynMeans(g)
            && (forall k, l :: 0 <= k < l < |g.dyn| ==> g.dyn[k].pos != g.dyn[l].pos)
            && |g.dyn| <= g.rel
  {
    hide Run, GotOk, Single, Laid, PatchedOnce, WordsOk, DynOk, DynMeans, Means, WordOf, WordAt, PatchPos, PatchedHere;
    EmptyOk(base, pic);
    RunOk(EmptyGot(base), pic, ops);
    var g := Run(EmptyGot(base), pic, ops).0;
    OkParts(g, pic);
    forall i, j | 0 <= i < j < |g.entries|
      ensures SlotEnd(g, i) <= SlotStart(g, j)
    {
      SlotsDisjoint(g, i, j);
    }
    forall i | 0 <= i < |g.entries|
      ensures base <= SlotStart(g, i) && SlotEnd(g, i) <= g.size
    {
      SlotInside(g, i);
    }
    forall p | base <= p < g.size
      ensures Covered(g, p)
    {
      var i := SlotsTile(g, p, |g.entries|);
      assert 0 <= i < |g.entries| && SlotStart(g, i) <= p < SlotEnd(g, i);
    }
    PatchesInside(g);
    WordsThere(g);
    forall p
      ensures PatchedHere(g, p) || WordAt(g.words, p) == 0
    {
      ElseZero(g, p);
    }
    DynDistinct(g);
    UsedBelow(g.entries, |g.entries|, pic);
  }

  lemma EmptyOk(base: nat, pic: bool)
    ensures GotOk(EmptyGot(base), pic)
  {
  }

  lemma OkParts(g: Got, pic: bool)
    requires GotOk(g, pic)
    ensures Laid(g) && Single(g.entries) && PatchedOnce(g) && WordsOk(g) && DynOk(g) && PatchesMean(g) && DynMeans(g)
    ensures g.size == g.base + 4 * WordsBefore(g.entries, |g.entries|)
    ensures g.rel == Reserved(g.entries, |g.entries|, pic) && |g.dyn| <= Used(g.entries, |g.entries|, pic)
  {
  }

  lemma SlotInside(g: Got, i: nat)
    requires Laid(g) && i < |g.entries|
    ensures g.base <= SlotStart(g, i) && SlotEnd(g, i) <= g.size
  {
    assert EntryOk(g, i);
    WordsGrow(g.entries, i, |g.entries|);
  }

  lemma PatchesInside(g: Got)
    requires Laid(g) && PatchedOnce(g)
    ensures forall k :: 0 <= k < |g.patches| ==>
              g.patches[k].owner < |g.entries| && WordOf(g, g.patches[k].owner, PatchPos(g.entries[g.patches[k].owner]))
    ensures forall k, l :: 0 <= k < l < |g.patches| ==> g.patches[k].owner != g.patches[l].owner
  {
    forall k | 0 <= k < |g.patches|
      ensures g.patches[k].owner < |g.entries| && WordOf(g, g.patches[k].owner, PatchPos(g.entries[g.patches[k].owner]))
    {
      assert EntryOk(g, g.patches[k].owner);
    }
  }

  lemma WordsThere(g: Got)
    requires PatchedOnce(g) && WordsOk(g)
    ensures forall k :: 0 <= k < |g.patches| ==>
              g.patches[k].owner < |g.entries| && WordAt(g.words, PatchPos(g.entries[g.patches[k].owner])) == g.patches[k].value
  {
    hide PatchPos;
    forall k | 0 <= k < |g.patches|
      ensures WordAt(g.words, PatchPos(g.entries[g.patches[k].owner])) == g.patches[k].value
    {
      assert PatchedPos(g, k) in g.words;
    }
  }

  lemma ElseZero(g: Got, p: nat)
    requires PatchedOnce(g) && WordsOk(g)
    ensures PatchedHere(g, p) || WordAt(g.words, p) == 0
  {
    hide PatchPos;
    if p in g.words {
      var k :| 0 <= k < |g.patches| && PatchedPos(g, k) == p;
      assert g.patches[k].owner < |g.entries|;
    }
  }

  lemma DynDistinct(g: Got)
    requires Laid(g) && DynOk(g)
    ensures forall k, l :: 0 <= k < l < |g.dyn| ==> g.dyn[k].pos != g.dyn[l].pos
  {
    hide Laid;
    forall k, l | 0 <= k < l < |g.dyn|
      ensures g.dyn[k].pos != g.dyn[l].pos
    {
      if g.dyn[k].pos == g.dyn[l].pos {
        WordsOwned(g, g.dyn[k].owner, g.dyn[l].owner, g.dyn[k].pos);
      }
    }
  }
}
