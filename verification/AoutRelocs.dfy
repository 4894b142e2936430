/**
  Extended relocs of a.out (aoutx.h): how a partial link rewrites them in place and what a final
  link computes from them, and when doing the one and then the other is doing the other alone.
 */
module AoutRelocs {
  import opened Bytes
  import opened AoutModel
  import opened AoutSlots
  import opened AoutLinker

  const WORD := 0x1_0000_0000
  /** Symbol numbers and addends are stored in three and in four bytes. */
  const INDEX_MOD := 0x100_0000
  const HOWTO_COUNT := 27
  const RELOC_BASE10 := 14
  const RELOC_BASE22 := 16

  /** A reloc record; addr and addend are words. */
  datatype Reloc = Reloc(addr: nat, index: nat, extern: bool, typ: nat, addend: nat)

  function Word(x: int): nat { x % WORD }

  predicate BaseRelative(typ: nat) { RELOC_BASE10 <= typ <= RELOC_BASE22 }

  /** DISP8 to WDISP22, PC10, PC22 and JMP_TBL. */
  predicate PcRelative(typ: nat) { 3 <= typ <= 7 || 17 <= typ <= 19 }

  /** PC10 and PC22, whose addend leaves out the place within the section. */
  predicate PcrelOffset(typ: nat) { 17 <= typ <= 18 }

  // ----- sections by number -----

  function SectionFor(inp: Input, k: OutKind): Section {
    match k
    case OutText => inp.text
    case OutData => inp.data
    case OutBss => inp.bss
    case OutOther => ABS_SECTION
  }

  /** aout_reloc_index_to_section; None is an abort. */
  function IndexKind(index: nat): Option<OutKind> {
    var t := index / 2 % 16 * 2;
    if t == 4 then Some(OutText)
    else if t == 6 then Some(OutData)
    else if t == 8 then Some(OutBss)
    else if t == 2 || t == 0 then Some(OutOther)
    else None
  }

  function KindIndex(k: OutKind): nat {
    match k
    case OutText => 4
    case OutData => 6
    case OutBss => 8
    case OutOther => 2
  }

  // ----- a partial link -----

  predicate HasValue(k: Kind) { k.Defined? || k.DefWeak? }

  function ValueOf(k: Kind): int
    requires HasValue(k)
  {
    k.value + k.section.outVma + k.section.outOffset
  }

  /** The hash entry a reloc speaks of; base relative relocs never look at it. */
  function HashOf(symHashes: seq<Option<nat>>, r: Reloc): Option<nat>
    requires r.extern ==> r.index < |symHashes|
  {
    if r.extern && !BaseRelative(r.typ) then symHashes[r.index] else None
  }

  /** Reloc r of an input can be looked up. */
  predicate RelocOk(inp: Input, symHashes: seq<Option<nat>>, hs: map<nat, Entry>, symbolMap: seq<int>, r: Reloc) {
    && |symHashes| == |symbolMap| == |inp.syms|
    && (r.extern || BaseRelative(r.typ) ==> r.index < |symHashes|)
    && (forall k :: 0 <= k < |symHashes| && symHashes[k].Some? ==> symHashes[k].value in hs)
  }

  /** A reloc against a symbol that is kept as one: its new number, after forcing the symbol out if need be. */
  function KeepSymbol(o: Options, l: Link, h: Option<nat>, slot: int): (Link, int)
    requires WellLinked(l.hashes) && (h.Some? ==> h.value in l.hashes)
  {
    if slot != -1 then (l, slot)
    else if h.None? then (l, 0)
    else
      var l' := Force(o, l, h.value);
      (l', if h.value in l'.hashes then l'.hashes[h.value].indx else 0)
  }

  function PcShift(isec: Section, typ: nat): int {
    if PcRelative(typ) && !PcrelOffset(typ) then isec.outVma + isec.outOffset - isec.vma else 0
  }

  /** One turn of the loop in a partial link; None is an unsupported type or an abort. */
  function PartialOne(o: Options, l: Link, inp: Input, isec: Section, symHashes: seq<Option<nat>>, symbolMap: seq<int>, r: Reloc)
    : (x: Option<(Link, Reloc)>)
    requires WellLinked(l.hashes) && RelocOk(inp, symHashes, l.hashes, symbolMap, r)
  {
    if r.typ >= HOWTO_COUNT then None
    else
      var h := HashOf(symHashes, r);
      var addr := Word(r.addr + isec.outOffset);
      if r.extern || BaseRelative(r.typ) then
        if h.Some? && HasValue(l.hashes[h.value].kind) then
          var k := l.hashes[h.value].kind;
          Some((l, Reloc(addr, KindIndex(k.section.outKind), false, r.typ, Word(r.addend + ValueOf(k) - PcShift(isec, r.typ)))))
        else
          var (l', index) := KeepSymbol(o, l, h, symbolMap[r.index]);
          Some((l', Reloc(addr, index % INDEX_MOD, r.extern, r.typ, Word(r.addend - PcShift(isec, r.typ)))))
      else
        match IndexKind(r.index)
        case None => None
        case Some(k) =>
          var s := SectionFor(inp, k);
          Some((l, r.(addr := addr, addend := Word(r.addend + s.outVma + s.outOffset - s.vma - PcShift(isec, r.typ)))))
  }

  // ----- a final link -----

  /** The value of a symbol in a final link; an undefined one counts as 0. */
  function ExternValue(k: Option<Kind>): int {
    if k.Some? && HasValue(k.value) then ValueOf(k.value) else 0
  }

  /** What the loop computes as relocation; None is an abort. */
  function FinalRelocation(hs: map<nat, Entry>, inp: Input, isec: Section, symHashes: seq<Option<nat>>, r: Reloc): Option<int>
    requires r.extern || BaseRelative(r.typ) ==> r.index < |symHashes| == |inp.syms|
    requires forall k :: 0 <= k < |symHashes| && symHashes[k].Some? ==> symHashes[k].value in hs
  {
    if r.extern then
      var h := symHashes[r.index];
      Some(ExternValue(if h.Some? then Some(hs[h.value].kind) else None))
    else if BaseRelative(r.typ) then
      var sym := inp.syms[r.index];
      var s := PlainSection(inp, sym.typ);
      if s.None? then None else Some(s.value.outVma + s.value.outOffset + sym.value - s.value.vma)
    else
      match IndexKind(r.index)
      case None => None
      case Some(k) =>
        var s := SectionFor(inp, k);
        Some(s.outVma + s.outOffset - s.vma + if PcRelative(r.typ) then isec.vma else 0)
  }

  /** _bfd_final_link_relocate: what is installed in the contents of the section. */
  function Installed(isec: Section, r: Reloc, relocation: int): nat {
    Word(relocation + r.addend
         - (if PcRelative(r.typ) then isec.outVma + isec.outOffset else 0)
         - (if PcRelative(r.typ) && PcrelOffset(r.typ) then r.addr else 0))
  }

  /** The address in the output at which it is installed. */
  function InstalledAt(isec: Section, r: Reloc): nat {
    Word(isec.outVma + isec.outOffset + r.addr)
  }

  // ----- partial then final -----

  /** A section of an input of the partial link, seen from the final link in which the result p is an input. */
  function Through(s: Section, p: Input): Section {
    var q := SectionFor(p, s.outKind);
    Section(s.vma, q.outVma, s.outOffset + q.outOffset, q.outKind)
  }

  /** The partial link put s where the final link finds it. */
  predicate Lands(s: Section, p: Input) {
    s.outVma == SectionFor(p, s.outKind).vma
  }

  /** The input as a direct final link has it. */
  function Direct(inp: Input, p: Input): Input {
    inp.(text := Through(inp.text, p), data := Through(inp.data, p), bss := Through(inp.bss, p))
  }

  /** Text goes to text, data to data and bss to bss. */
  predicate Straight(inp: Input, p: Input) {
    && inp.text.outKind == OutText && inp.data.outKind == OutData && inp.bss.outKind == OutBss
    && Lands(inp.text, p) && Lands(inp.data, p) && Lands(inp.bss, p)
  }

  lemma WordDiff(a: int, b: int)
    ensures Word(a) == Word(b) <==> (a - b) % WORD == 0
    ensures Word(Word(a) + b) == Word(a + b)
  {
    WordEqual(a, b);
    WordAdd(a, b);
  }

  lemma WordEqual(a: int, b: int)
    ensures Word(a) == Word(b) <==> (a - b) % WORD == 0
  {
    var n := a / WORD - b / WORD;
    assert a - b == WORD * n + (Word(a) - Word(b));
  }

  lemma WordAdd(a: int, b: int)
    ensures Word(Word(a) + b) == Word(a + b)
  {
    var n := a / WORD;
    assert a + b == WORD * n + (Word(a) + b);
  }

  /** Wherever it came from, the reloc ends up at the same address. */
  lemma AddressComposes(isec: Section, p: Input, r: Reloc, r': Reloc)
    requires Lands(isec, p) && r'.addr == Word(r.addr + isec.outOffset)
    ensures InstalledAt(SectionFor(p, isec.outKind), r') == InstalledAt(Through(isec, p), r)
  {
    var q := SectionFor(p, isec.outKind);
    WordDiff(r.addr + isec.outOffset, q.outVma + q.outOffset);
  }

  /** The difference between the two ways, for each shape of reloc. */
  lemma Difference(isec: Section, p: Input, r: Reloc, r': Reloc, moved: int, viaPartial: int, direct: int)
    requires r'.typ == r.typ && r'.addr == Word(r.addr + isec.outOffset)
    requires r'.addend == Word(r.addend + moved - PcShift(isec, r.typ)) && Lands(isec, p)
    ensures var q := SectionFor(p, isec.outKind);
            var lag := viaPartial + moved - direct;
            Installed(q, r', viaPartial) == Installed(Through(isec, p), r, direct)
            <==> (lag - if PcRelative(r.typ) && !PcrelOffset(r.typ) then isec.outVma - isec.vma else 0) % WORD == 0
  {
    var q := SectionFor(p, isec.outKind);
    var far := if PcRelative(r.typ) then q.outVma + q.outOffset else 0;
    var near := if PcRelative(r.typ) then q.outVma + q.outOffset + isec.outOffset else 0;
    var at' := if PcRelative(r.typ) && PcrelOffset(r.typ) then r'.addr else 0;
    var at := if PcRelative(r.typ) && PcrelOffset(r.typ) then r.addr else 0;
    var a := r.addend + moved - PcShift(isec, r.typ);
    WordDiff(a, viaPartial - far - at');
    WordDiff(r.addr + isec.outOffset, 0);
    var whole := a + viaPartial - far - at';
    var exact := a + viaPartial - far - if PcRelative(r.typ) && PcrelOffset(r.typ) then r.addr + isec.outOffset else 0;
    SameWord(whole, exact, if PcRelative(r.typ) && PcrelOffset(r.typ) then r.addr + isec.outOffset else 0, at');
    WordDiff(exact, direct + r.addend - near - at);
  }

  lemma SameWord(whole: int, exact: int, big: int, small: int)
    requires whole - exact == big - small && Word(big) == Word(small)
    ensures Word(whole) == Word(exact)
  {
    WordDiff(big, small);
    WordDiff(whole, exact);
  }

  function MovedKind(k: Kind, p: Input): Kind
    requires HasValue(k)
  {
    if k.Defined? then Defined(k.value, Through(k.section, p)) else DefWeak(k.value, Through(k.section, p))
  }

  /** The symbol of a reloc that the partial link had no value for, or None for a section. */
  predicate Resolved(l: Link, symHashes: seq<Option<nat>>, r: Reloc)
    requires r.extern ==> r.index < |symHashes|
    requires forall k :: 0 <= k < |symHashes| && symHashes[k].Some? ==> symHashes[k].value in l.hashes
  {
    r.extern && symHashes[r.index].Some? && HasValue(l.hashes[symHashes[r.index].value].kind)
  }

  /** The links a reloc is followed through: the partial one, the final one after it, and the direct one. */
  datatype Links = Links(
    partial: Link, symHashes: seq<Option<nat>>, symbolMap: seq<int>,
    result: Input, finalHashes: map<nat, Entry>, finalSyms: seq<Option<nat>>,
    directHashes: map<nat, Entry>)

  predicate LinksOk(x: Links, inp: Input, r: Reloc) {
    && WellLinked(x.partial.hashes) && RelocOk(inp, x.symHashes, x.partial.hashes, x.symbolMap, r)
    && RelocOk(inp, x.symHashes, x.directHashes, x.symbolMap, r)
    && |x.finalSyms| == |x.result.syms|
    && forall k :: 0 <= k < |x.finalSyms| && x.finalSyms[k].Some? ==> x.finalSyms[k].value in x.finalHashes
  }

  function KindIn(hs: map<nat, Entry>, h: Option<nat>): Option<Kind>
    requires h.Some? ==> h.value in hs
  {
    if h.Some? then Some(hs[h.value].kind) else None
  }

  /**
    The symbol means the same both ways: what the partial link resolved is where the direct link has
    it, and what it kept as a symbol has the value in the final link that it has in the direct one.
   */
  predicate SameSymbol(x: Links, inp: Input, r: Reloc, r': Reloc)
    requires LinksOk(x, inp, r) && r.extern
  {
    if Resolved(x.partial, x.symHashes, r) then
      var k := x.partial.hashes[x.symHashes[r.index].value].kind;
      Lands(k.section, x.result) && KindIn(x.directHashes, x.symHashes[r.index]) == Some(MovedKind(k, x.result))
    else
      && r'.index < |x.finalSyms|
      && ExternValue(KindIn(x.finalHashes, x.finalSyms[r'.index])) == ExternValue(KindIn(x.directHashes, x.symHashes[r.index]))
  }

  /**
    When the two ways agree. A section's place enters a pc-relative reloc twice, and the two forms of
    addend leave out different parts of it.
   */
  predicate Composes(x: Links, inp: Input, isec: Section, r: Reloc)
    requires LinksOk(x, inp, r)
  {
    || !PcRelative(r.typ)
    || (if Resolved(x.partial, x.symHashes, r) then (if PcrelOffset(r.typ) then isec.outVma else isec.vma) % WORD == 0
        else r.extern == PcrelOffset(r.typ) || (isec.outVma - isec.vma) % WORD == 0)
  }

  /**
    A reloc rewritten by a partial link and then finished by a final link installs what a direct
    final link installs, at the same address, exactly when Composes holds.
   */
  lemma PartialThenFinal(o: Options, x: Links, inp: Input, isec: Section, r: Reloc)
    requires LinksOk(x, inp, r) && Straight(inp, x.result) && Lands(isec, x.result) && !BaseRelative(r.typ)
    requires PartialOne(o, x.partial, inp, isec, x.symHashes, x.symbolMap, r).Some?
    requires r.extern ==> SameSymbol(x, inp, r, PartialOne(o, x.partial, inp, isec, x.symHashes, x.symbolMap, r).value.1)
    ensures var r' := PartialOne(o, x.partial, inp, isec, x.symHashes, x.symbolMap, r).value.1;
            var q := SectionFor(x.result, isec.outKind);
            && (r'.extern ==> r'.index < |x.finalSyms|) && !BaseRelative(r'.typ)
            && var via := FinalRelocation(x.finalHashes, x.result, q, x.finalSyms, r');
            var dir := FinalRelocation(x.directHashes, Direct(inp, x.result), Through(isec, x.result), x.symHashes, r);
            && via.Some? && dir.Some?
            && InstalledAt(q, r') == InstalledAt(Through(isec, x.result), r)
            && (Installed(q, r', via.value) == Installed(Through(isec, x.result), r, dir.value) <==> Composes(x, inp, isec, r))
  {
    hide Installed, InstalledAt, WellLinked, PartialOne, FinalRelocation, Composes, Straight, SameSymbol, Lands;
    var moved := Lag(o, x, inp, isec, r);
    var r' := PartialOne(o, x.partial, inp, isec, x.symHashes, x.symbolMap, r).value.1;
    var q := SectionFor(x.result, isec.outKind);
    AddressComposes(isec, x.result, r, r');
    var via := FinalRelocation(x.finalHashes, x.result, q, x.finalSyms, r');
    var dir := FinalRelocation(x.directHashes, Direct(inp, x.result), Through(isec, x.result), x.symHashes, r);
    Difference(isec, x.result, r, r', moved, via.value, dir.value);
    ComposesLag(x, inp, isec, r);
  }

  /** By how much the two ways differ before the addend's own correction. */
  function LagOf(x: Links, inp: Input, isec: Section, r: Reloc): int
    requires LinksOk(x, inp, r)
  {
    if !PcRelative(r.typ) then 0
    else if Resolved(x.partial, x.symHashes, r) then isec.outVma
    else if r.extern then 0
    else isec.outVma - isec.vma
  }

  lemma ComposesLag(x: Links, inp: Input, isec: Section, r: Reloc)
    requires LinksOk(x, inp, r)
    ensures Composes(x, inp, isec, r)
            <==> (LagOf(x, inp, isec, r)
                  - if PcRelative(r.typ) && !PcrelOffset(r.typ) then isec.outVma - isec.vma else 0) % WORD == 0
  {
    hide LinksOk;
    assert (isec.vma - isec.outVma) % WORD == 0 <==> (isec.outVma - isec.vma) % WORD == 0 by {
      WordEqual(isec.vma, isec.outVma);
      WordEqual(isec.outVma, isec.vma);
    }
  }

  /** What the partial link adds to the addend, and what is then left between the two ways. */
  lemma Lag(o: Options, x: Links, inp: Input, isec: Section, r: Reloc) returns (moved: int)
    requires LinksOk(x, inp, r) && Straight(inp, x.result) && Lands(isec, x.result) && !BaseRelative(r.typ)
    requires PartialOne(o, x.partial, inp, isec, x.symHashes, x.symbolMap, r).Some?
    requires r.extern ==> SameSymbol(x, inp, r, PartialOne(o, x.partial, inp, isec, x.symHashes, x.symbolMap, r).value.1)
    ensures var r' := PartialOne(o, x.partial, inp, isec, x.symHashes, x.symbolMap, r).value.1;
            var q := SectionFor(x.result, isec.outKind);
            && (r'.extern ==> r'.index < |x.finalSyms|) && r'.typ == r.typ
            && r'.addr == Word(r.addr + isec.outOffset) && r'.addend == Word(r.addend + moved - PcShift(isec, r.typ))
            && var via := FinalRelocation(x.finalHashes, x.result, q, x.finalSyms, r');
            var dir := FinalRelocation(x.directHashes, Direct(inp, x.result), Through(isec, x.result), x.symHashes, r);
            && via.Some? && dir.Some? && via.value + moved - dir.value == LagOf(x, inp, isec, r)
  {
    if Resolved(x.partial, x.symHashes, r) {
      moved := ValueOf(x.partial.hashes[x.symHashes[r.index].value].kind);
      LagResolved(o, x, inp, isec, r);
    } else if r.extern {
      moved := 0;
      LagKept(o, x, inp, isec, r);
    } else {
      moved := LagSection(o, x, inp, isec, r);
    }
  }

  lemma LagResolved(o: Options, x: Links, inp: Input, isec: Section, r: Reloc)
    requires LinksOk(x, inp, r) && Lands(isec, x.result) && !BaseRelative(r.typ) && Resolved(x.partial, x.symHashes, r)
    requires PartialOne(o, x.partial, inp, isec, x.symHashes, x.symbolMap, r).Some?
    requires SameSymbol(x, inp, r, PartialOne(o, x.partial, inp, isec, x.symHashes, x.symbolMap, r).value.1)
    ensures var r' := PartialOne(o, x.partial, inp, isec, x.symHashes, x.symbolMap, r).value.1;
            var moved := ValueOf(x.partial.hashes[x.symHashes[r.index].value].kind);
            var q := SectionFor(x.result, isec.outKind);
            && !r'.extern && r'.typ == r.typ
            && r'.addr == Word(r.addr + isec.outOffset) && r'.addend == Word(r.addend + moved - PcShift(isec, r.typ))
            && var via := FinalRelocation(x.finalHashes, x.result, q, x.finalSyms, r');
            var dir := FinalRelocation(x.directHashes, Direct(inp, x.result), Through(isec, x.result), x.symHashes, r);
            && via.Some? && dir.Some? && via.value + moved - dir.value == LagOf(x, inp, isec, r)
  {
    hide WellLinked, Word, PcShift, KeepSymbol;
    var k := x.partial.hashes[x.symHashes[r.index].value].kind;
    KindIndexed(k.section.outKind);
    assert HashOf(x.symHashes, r) == x.symHashes[r.index];
  }

  lemma KindIndexed(k: OutKind)
    ensures IndexKind(KindIndex(k)) == Some(k)
  {
  }

  lemma LagKept(o: Options, x: Links, inp: Input, isec: Section, r: Reloc)
    requires LinksOk(x, inp, r) && Lands(isec, x.result) && !BaseRelative(r.typ) && r.extern && !Resolved(x.partial, x.symHashes, r)
    requires PartialOne(o, x.partial, inp, isec, x.symHashes, x.symbolMap, r).Some?
    requires SameSymbol(x, inp, r, PartialOne(o, x.partial, inp, isec, x.symHashes, x.symbolMap, r).value.1)
    ensures var r' := PartialOne(o, x.partial, inp, isec, x.symHashes, x.symbolMap, r).value.1;
            var q := SectionFor(x.result, isec.outKind);
            && r'.extern && r'.index < |x.finalSyms| && r'.typ == r.typ
            && r'.addr == Word(r.addr + isec.outOffset) && r'.addend == Word(r.addend - PcShift(isec, r.typ))
            && var via := FinalRelocation(x.finalHashes, x.result, q, x.finalSyms, r');
            var dir := FinalRelocation(x.directHashes, Direct(inp, x.result), Through(isec, x.result), x.symHashes, r);
            && via.Some? && dir.Some? && via.value - dir.value == LagOf(x, inp, isec, r)
  {
    hide WellLinked, Word, PcShift, KeepSymbol;
    assert HashOf(x.symHashes, r) == x.symHashes[r.index];
  }

  lemma LagSection(o: Options, x: Links, inp: Input, isec: Section, r: Reloc) returns (moved: int)
    requires LinksOk(x, inp, r) && Straight(inp, x.result) && Lands(isec, x.result) && !BaseRelative(r.typ) && !r.extern
    requires PartialOne(o, x.partial, inp, isec, x.symHashes, x.symbolMap, r).Some?
    ensures var r' := PartialOne(o, x.partial, inp, isec, x.symHashes, x.symbolMap, r).value.1;
            var q := SectionFor(x.result, isec.outKind);
            && !r'.extern && r'.typ == r.typ
            && r'.addr == Word(r.addr + isec.outOffset) && r'.addend == Word(r.addend + moved - PcShift(isec, r.typ))
            && var via := FinalRelocation(x.finalHashes, x.result, q, x.finalSyms, r');
            var dir := FinalRelocation(x.directHashes, Direct(inp, x.result), Through(isec, x.result), x.symHashes, r);
            && via.Some? && dir.Some? && via.value + moved - dir.value == LagOf(x, inp, isec, r)
  {
    hide WellLinked, Word, PcShift, KeepSymbol, IndexKind;
    var s := SectionFor(inp, IndexKind(r.index).value);
    moved := s.outVma + s.outOffset - s.vma;
    assert HashOf(x.symHashes, r) == None;
  }

  // ----- a whole section -----

  lemma ForceKeeps(o: Options, l: Link, inp: Input, isec: Section, symHashes: seq<Option<nat>>, symbolMap: seq<int>, r: Reloc)
    requires WellLinked(l.hashes) && RelocOk(inp, symHashes, l.hashes, symbolMap, r)
    requires PartialOne(o, l, inp, isec, symHashes, symbolMap, r).Some?
    ensures var l' := PartialOne(o, l, inp, isec, symHashes, symbolMap, r).value.0;
            WellLinked(l'.hashes) && SameKinds(l.hashes, l'.hashes) && l'.hashes.Keys == l.hashes.Keys
  {
    hide WellLinked, SameKinds, Force, IndexKind;
    KindsRefl(l.hashes);
    var h := HashOf(symHashes, r);
    if h.Some? {
      ForceKinds(o, l, h.value);
    }
  }

  lemma ForceKinds(o: Options, l: Link, h: nat)
    requires WellLinked(l.hashes) && h in l.hashes
    ensures var l' := Force(o, l, h);
            WellLinked(l'.hashes) && SameKinds(l.hashes, l'.hashes) && l'.hashes.Keys == l.hashes.Keys && h in l'.hashes
  {
    hide WellLinked, SameKinds, WriteOther;
    KindsRefl(l.hashes);
    if l.hashes[h].indx < 0 {
      var e := l.hashes[h].(indx := -2, written := false);
      SetEntryKinds(l, h, e);
      OtherKinds(o, SetEntry(l, h, e), h);
      KindsTrans(l.hashes, SetEntry(l, h, e).hashes, WriteOther(o, SetEntry(l, h, e), h).hashes);
    }
  }

  lemma OtherKinds(o: Options, l: Link, h: nat)
    requires WellLinked(l.hashes) && h in l.hashes
    ensures var l' := WriteOther(o, l, h);
            WellLinked(l'.hashes) && SameKinds(l.hashes, l'.hashes) && l'.hashes.Keys == l.hashes.Keys
  {
    assert LinkOk(l.hashes, h);
    hide WellLinked, SameKinds;
    KindsRefl(l.hashes);
    var g := if l.hashes[h].kind.Warning? then l.hashes[h].kind.link else h;
    var e := l.hashes[g];
    SetEntryKinds(l, g, e.(written := true));
    SetEntryKinds(l, g, e.(written := true, indx := l.count));
  }

  lemma KindsTrans(a: map<nat, Entry>, b: map<nat, Entry>, c: map<nat, Entry>)
    requires SameKinds(a, b) && SameKinds(b, c)
    ensures SameKinds(a, c) && a.Keys == b.Keys == c.Keys
  {
  }

  predicate RelocsOk(inp: Input, symHashes: seq<Option<nat>>, hs: map<nat, Entry>, symbolMap: seq<int>, rs: seq<Reloc>) {
    forall i :: 0 <= i < |rs| ==> RelocOk(inp, symHashes, hs, symbolMap, rs[i])
  }

  lemma RelocsKept(inp: Input, symHashes: seq<Option<nat>>, hs: map<nat, Entry>, hs': map<nat, Entry>, symbolMap: seq<int>,
                   rs: seq<Reloc>)
    requires RelocsOk(inp, symHashes, hs, symbolMap, rs) && hs.Keys == hs'.Keys
    ensures RelocsOk(inp, symHashes, hs', symbolMap, rs)
  {
    forall i | 0 <= i < |rs|
      ensures RelocOk(inp, symHashes, hs', symbolMap, rs[i])
    {
      assert RelocOk(inp, symHashes, hs, symbolMap, rs[i]);
    }
  }

  /** The first n relocs of a section in a partial link. */
  function PartialTo(o: Options, l: Link, inp: Input, isec: Section, symHashes: seq<Option<nat>>, symbolMap: seq<int>,
                     rs: seq<Reloc>, n: nat): (x: Option<(Link, seq<Reloc>)>)
    requires n <= |rs| && WellLinked(l.hashes) && RelocsOk(inp, symHashes, l.hashes, symbolMap, rs)
    ensures x.Some? ==> WellLinked(x.value.0.hashes) && RelocsOk(inp, symHashes, x.value.0.hashes, symbolMap, rs)
                        && |x.value.1| == n
  {
    if n == 0 then Some((l, []))
    else
      match PartialTo(o, l, inp, isec, symHashes, symbolMap, rs, n - 1)
      case None => None
      case Some((l1, done)) =>
        assert RelocOk(inp, symHashes, l1.hashes, symbolMap, rs[n - 1]);
        var x := PartialOne(o, l1, inp, isec, symHashes, symbolMap, rs[n - 1]);
        if x.None? then None
        else
          ForceKeeps(o, l1, inp, isec, symHashes, symbolMap, rs[n - 1]);
          RelocsKept(inp, symHashes, l1.hashes, x.value.0.hashes, symbolMap, rs);
          Some((x.value.0, done + [x.value.1]))
  }

  /** Reloc i of the result is reloc i rewritten, in a state in which no symbol has changed its meaning. */
  lemma {:induction false} PartialAt(o: Options, l: Link, inp: Input, isec: Section, symHashes: seq<Option<nat>>,
                                     symbolMap: seq<int>, rs: seq<Reloc>, n: nat, i: nat) returns (l1: Link)
    requires i < n <= |rs| && WellLinked(l.hashes) && RelocsOk(inp, symHashes, l.hashes, symbolMap, rs)
    requires PartialTo(o, l, inp, isec, symHashes, symbolMap, rs, n).Some?
    ensures WellLinked(l1.hashes) && SameKinds(l.hashes, l1.hashes) && RelocsOk(inp, symHashes, l1.hashes, symbolMap, rs)
    ensures var x := PartialOne(o, l1, inp, isec, symHashes, symbolMap, rs[i]);
            x.Some? && x.value.1 == PartialTo(o, l, inp, isec, symHashes, symbolMap, rs, n).value.1[i]
    decreases n
  {
    hide WellLinked, SameKinds, PartialOne, RelocsOk;
    if i < n - 1 {
      l1 := PartialAt(o, l, inp, isec, symHashes, symbolMap, rs, n - 1, i);
    } else {
      l1 := PartialTo(o, l, inp, isec, symHashes, symbolMap, rs, i).value.0;
      PartialKinds(o, l, inp, isec, symHashes, symbolMap, rs, i);
      RelocsAt(inp, symHashes, l1.hashes, symbolMap, rs, i);
    }
  }

  lemma RelocsAt(inp: Input, symHashes: seq<Option<nat>>, hs: map<nat, Entry>, symbolMap: seq<int>, rs: seq<Reloc>, i: nat)
    requires RelocsOk(inp, symHashes, hs, symbolMap, rs) && i < |rs|
    ensures RelocOk(inp, symHashes, hs, symbolMap, rs[i])
  {
  }

  lemma {:induction false} PartialKinds(o: Options, l: Link, inp: Input, isec: Section, symHashes: seq<Option<nat>>,
                                        symbolMap: seq<int>, rs: seq<Reloc>, n: nat)
    requires n <= |rs| && WellLinked(l.hashes) && RelocsOk(inp, symHashes, l.hashes, symbolMap, rs)
    requires PartialTo(o, l, inp, isec, symHashes, symbolMap, rs, n).Some?
    ensures SameKinds(l.hashes, PartialTo(o, l, inp, isec, symHashes, symbolMap, rs, n).value.0.hashes)
    decreases n
  {
    hide WellLinked, SameKinds, PartialOne, RelocsOk;
    KindsRefl(l.hashes);
    if n > 0 {
      PartialKinds(o, l, inp, isec, symHashes, symbolMap, rs, n - 1);
      var l1 := PartialTo(o, l, inp, isec, symHashes, symbolMap, rs, n - 1).value.0;
      RelocsAt(inp, symHashes, l1.hashes, symbolMap, rs, n - 1);
      ForceKeeps(o, l1, inp, isec, symHashes, symbolMap, rs[n - 1]);
      KindsTrans(l.hashes, l1.hashes, PartialOne(o, l1, inp, isec, symHashes, symbolMap, rs[n - 1]).value.0.hashes);
    }
  }

  /** aout_link_input_section_ext in a partial link: the records are rewritten where they are. */
  method RelocateSection(linker: Linker, inp: Input, isec: Section, symHashes: seq<Option<nat>>, symbolMap: seq<int>,
                         relocs: array<Reloc>) returns (ok: bool)
    requires WellLinked(linker.hashes) && RelocsOk(inp, symHashes, linker.hashes, symbolMap, relocs[..])
    modifies linker, relocs
    ensures var x := PartialTo(linker.options, old(linker.Abs()), inp, isec, symHashes, symbolMap, old(relocs[..]), relocs.Length);
            ok == x.Some? && (ok ==> linker.Abs() == x.value.0 && relocs[..] == x.value.1)
  {
    hide WellLinked, PartialOne, RelocsOk, SameKinds;
    ghost var l0, rs := linker.Abs(), relocs[..];
    for i := 0 to relocs.Length
      invariant relocs[i..] == rs[i..]
      invariant PartialTo(linker.options, l0, inp, isec, symHashes, symbolMap, rs, i) == Some((linker.Abs(), relocs[..i]))
    {
      ghost var l := linker.Abs();
      assert relocs[i] == relocs[i..][0] == rs[i];
      RelocsAt(inp, symHashes, l.hashes, symbolMap, rs, i);
      var r;
      ok, r := RelocateOne(linker, inp, isec, symHashes, symbolMap, relocs[i]);
      if !ok {
        Stuck(linker.options, l0, inp, isec, symHashes, symbolMap, rs, i + 1, relocs.Length);
        return;
      }
      relocs[i] := r;
      assert relocs[i + 1..] == rs[i..][1..];
      assert relocs[..i + 1] == relocs[..i] + [r];
    }
    assert relocs[..relocs.Length] == relocs[..];
    ok := true;
  }

  lemma {:induction false} Stuck(o: Options, l: Link, inp: Input, isec: Section, symHashes: seq<Option<nat>>,
                                 symbolMap: seq<int>, rs: seq<Reloc>, i: nat, n: nat)
    requires i <= n <= |rs| && WellLinked(l.hashes) && RelocsOk(inp, symHashes, l.hashes, symbolMap, rs)
    requires PartialTo(o, l, inp, isec, symHashes, symbolMap, rs, i) == None
    ensures PartialTo(o, l, inp, isec, symHashes, symbolMap, rs, n) == None
    decreases n
  {
    hide WellLinked, PartialOne, RelocsOk;
    if i < n {
      Stuck(o, l, inp, isec, symHashes, symbolMap, rs, i, n - 1);
    }
  }

  /** The body of that loop. */
  method RelocateOne(linker: Linker, inp: Input, isec: Section, symHashes: seq<Option<nat>>, symbolMap: seq<int>, r: Reloc)
    returns (ok: bool, r': Reloc)
    requires WellLinked(linker.hashes) && RelocOk(inp, symHashes, linker.hashes, symbolMap, r)
    modifies linker
    ensures var x := PartialOne(linker.options, old(linker.Abs()), inp, isec, symHashes, symbolMap, r);
            ok == x.Some? && (ok ==> linker.Abs() == x.value.0 && r' == x.value.1)
  {
    hide WellLinked, Force, IndexKind;
    r' := r;
    if r.typ >= HOWTO_COUNT {
      return false, r;
    }
    var relocation: int := 0;
    if r.extern || BaseRelative(r.typ) {
      var h := if BaseRelative(r.typ) then None else symHashes[r.index];
      if h.Some? && HasValue(linker.hashes[h.value].kind) {
        var k := linker.hashes[h.value].kind;
        r' := r'.(extern := false, index := KindIndex(k.section.outKind));
        relocation := ValueOf(k);
      } else {
        var index := symbolMap[r.index];
        if index == -1 {
          if h.Some? {
            index := linker.ForceOut(h.value);
          } else {
            index := 0;
          }
        }
        r' := r'.(index := index % INDEX_MOD);
      }
    } else {
      var k := IndexKind(r.index);
      if k.None? {
        return false, r;
      }
      var s := SectionFor(inp, k.value);
      relocation := s.outVma + s.outOffset - s.vma;
    }
    if PcRelative(r.typ) && !PcrelOffset(r.typ) {
      relocation := relocation - (isec.outVma + isec.outOffset - isec.vma);
    }
    r' := r'.(addr := Word(r.addr + isec.outOffset), addend := Word(r.addend + relocation));
    ok := true;
  }

  // ----- symbols that are kept -----

  /**
    The number a kept reloc gets is that of a slot written for its symbol, also when the symbol had
    been stripped and is forced out for it.
   */
  lemma KeptSlot(o: Options, l: Link, base: nat, inp: Input, isec: Section, symHashes: seq<Option<nat>>, symbolMap: seq<int>, r: Reloc)
    requires Numbered(l, base) && RelocOk(inp, symHashes, l.hashes, symbolMap, r) && r.typ < HOWTO_COUNT
    requires r.extern && !BaseRelative(r.typ) && symHashes[r.index].Some?
    requires var k := l.hashes[symHashes[r.index].value].kind; Writable(k) && !HasValue(k)
    requires symbolMap[r.index] >= -1 && Holds(inp, symHashes, l.owners, r.index, symbolMap[r.index])
    requires l.count < INDEX_MOD
    ensures WellLinked(l.hashes)
    ensures var (l', r') := PartialOne(o, l, inp, isec, symHashes, symbolMap, r).value;
            && Numbered(l', base) && r'.index < |l'.owners|
            && (l'.owners[r'.index] == OfLocal(inp.id, r.index) || l'.owners[r'.index] == OfGlobal(symHashes[r.index].value))
  {
    hide WellLinked, Slots, Filled, AllNamed, Force, Writable, Numbered;
    NumberedLinked(l, base);
    var h := symHashes[r.index].value;
    ForceNumbered(o, l, h, base);
    ForceCount(o, l, h, base);
    SlotsOf(l, base);
  }

  lemma NumberedLinked(l: Link, base: nat)
    requires Numbered(l, base)
    ensures WellLinked(l.hashes)
  {
  }

  lemma SlotsOf(l: Link, base: nat)
    requires Numbered(l, base)
    ensures |l.owners| == l.count
  {
    SlotsCount(l);
  }

  /** Forcing a symbol out takes one slot at most. */
  lemma ForceCount(o: Options, l: Link, h: nat, base: nat)
    requires Numbered(l, base) && h in l.hashes
    ensures WellLinked(l.hashes)
    ensures var l' := Force(o, l, h); |l'.owners| <= l.count + 1 && l.owners <= l'.owners
  {
    NumberedLinked(l, base);
    SlotsOf(l, base);
    hide Numbered, WellLinked;
    if l.hashes[h].indx < 0 {
      SetEntryKinds(l, h, l.hashes[h].(indx := -2, written := false));
    }
  }
}
