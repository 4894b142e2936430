/**
  Types and values of the symbols in the output of the a.out linker, read from its file slot by slot:
  they say of a symbol what the relocs against it say, and in what section it is.
 */
module AoutValues {
  import opened Bytes
  import opened AoutModel
  import opened AoutSlots
  import opened AoutRelocs

  /** RELOC_32: no part of the place enters. */
  const RELOC_32 := 2

  // ----- where the symbol of a turn ends up -----

  /** The pass over an input when it comes to symbol i. */
  function TurnOf(o: Options, inp: Input, l: Link, symHashes: seq<Option<nat>>, i: nat): (st: Pass)
    requires PassOk(inp, Start(o, inp, l, symHashes)) && i <= |inp.syms|
    ensures PassOk(inp, st)
  {
    Steps(o, inp, Start(o, inp, l, symHashes), 0, i)
  }

  /** Symbol i is copied on its own account: not as the target of an indirect or warning symbol before it. */
  predicate CopiedAt(o: Options, inp: Input, l: Link, symHashes: seq<Option<nat>>, i: nat)
    requires PassOk(inp, Start(o, inp, l, symHashes)) && i < |inp.syms|
  {
    var t := TurnOf(o, inp, l, symHashes, i);
    !t.pass && |StepSym(o, inp, t, i).out| == |t.out| + 1
  }

  /** Symbol i is passed through behind an indirect or warning symbol. */
  predicate PassedAt(o: Options, inp: Input, l: Link, symHashes: seq<Option<nat>>, i: nat)
    requires PassOk(inp, Start(o, inp, l, symHashes)) && i < |inp.syms|
  {
    var t := TurnOf(o, inp, l, symHashes, i);
    t.pass && t.symbolMap[i] != -1
  }

  /** What the file holds in the slot that the map gives symbol i, and what that slot was written for. */
  predicate SlotReads(o: Options, inp: Input, l: Link, symHashes: seq<Option<nat>>, base: nat, i: nat, owner: Owner, sym: Nlist)
    requires PassOk(inp, Start(o, inp, l, symHashes)) && i < |inp.syms|
  {
    var st := WriteSymbols(o, inp, l, symHashes);
    && |st.symbolMap| == |inp.syms| && 0 <= st.symbolMap[i] < |st.link.owners|
    && st.link.owners[st.symbolMap[i]] == owner
    && Pos(base, st.symbolMap[i]) in st.link.file && st.link.file[Pos(base, st.symbolMap[i])] == sym
  }

  lemma {:induction false} StepsJoin(o: Options, inp: Input, st: Pass, i: nat, j: nat, n: nat)
    requires i <= j <= n <= |inp.syms| && PassOk(inp, st)
    ensures PassOk(inp, Steps(o, inp, st, i, j))
    ensures Steps(o, inp, st, i, n) == Steps(o, inp, Steps(o, inp, st, i, j), j, n)
    decreases j - i
  {
    hide PassOk, StepSym, SameKinds;
    if i < j {
      StepOk(o, inp, st, i);
      StepsJoin(o, inp, StepSym(o, inp, st, i), i + 1, j, n);
    }
  }

  /** What later turns leave alone. */
  lemma {:induction false} StepsKeep(o: Options, inp: Input, st: Pass, i: nat, n: nat)
    requires i <= n <= |inp.syms| && PassOk(inp, st) && Slots(st.link)
    ensures var st' := Steps(o, inp, st, i, n);
            && Slots(st'.link) && st.out <= st'.out && st.link.owners <= st'.link.owners
            && st'.link.count - |st'.out| == st.link.count - |st.out|
            && st'.link.symoff == st.link.symoff && st'.link.file == st.link.file
            && |st'.symbolMap| == |st.symbolMap| && (forall k :: 0 <= k < i ==> st'.symbolMap[k] == st.symbolMap[k])
            && |st'.symHashes| == |st.symHashes| && (forall k :: n <= k < |st.symHashes| ==> st'.symHashes[k] == st.symHashes[k])
    decreases n - i
  {
    hide WellLinked, StepSym, Slots, SameKinds, CopyFaithful, Holds;
    if i < n {
      StepSlots(o, inp, st, i);
      StepOk(o, inp, st, i);
      StepsKeep(o, inp, StepSym(o, inp, st, i), i + 1, n);
    }
  }

  /** A symbol emitted in turn i is in the file, in the slot that was next. */
  lemma EmittedReads(o: Options, inp: Input, l: Link, symHashes: seq<Option<nat>>, base: nat, i: nat)
    requires Numbered(l, base) && PassOk(inp, Start(o, inp, l, symHashes)) && i < |inp.syms|
    requires var t := TurnOf(o, inp, l, symHashes, i);
             var t1 := StepSym(o, inp, t, i);
             |t1.out| == |t.out| + 1 && |t1.symbolMap| == |inp.syms| && t1.symbolMap[i] == t.link.count
             && t1.link.count == t.link.count + 1
    ensures var t := TurnOf(o, inp, l, symHashes, i);
            var t1 := StepSym(o, inp, t, i);
            && t.link.count < |t1.link.owners|
            && SlotReads(o, inp, l, symHashes, base, i, t1.link.owners[t.link.count], t1.out[|t.out|])
            && (t.symHashes[i] == symHashes[i])
  {
    hide WellLinked, Slots, Filled, SameKinds, Put, Steps, AllNamed, StepSym, PassOk;
    var st0 := Start(o, inp, l, symHashes);
    SlotsCount(l);
    EmitSlots(l, OfFile(inp.id));
    StepsKeep(o, inp, st0, 0, i);
    StepsKeep(o, inp, st0, 0, i + 1);
    StepsJoin(o, inp, st0, 0, i, i + 1);
    StepsJoin(o, inp, st0, 0, i + 1, |inp.syms|);
    var t := TurnOf(o, inp, l, symHashes, i);
    OneStep(o, inp, t, i);
    var t1 := StepSym(o, inp, t, i);
    StepsKeep(o, inp, t1, i + 1, |inp.syms|);
    var st := Steps(o, inp, st0, 0, |inp.syms|);
    SlotsCount(t1.link);
    SlotsCount(st.link);
    FilledSame(l, st.link, base, l.count);
    PutReads(st.link, base, l.count, st.out, t.link.count);
    WriteIs(o, inp, l, symHashes);
    PassSizes(inp, st0);
    assert st.out[|t.out|] == t1.out[|t.out|];
  }

  lemma PassSizes(inp: Input, st: Pass)
    requires PassOk(inp, st)
    ensures |st.symbolMap| == |st.symHashes| == |inp.syms|
    ensures forall k :: 0 <= k < |st.symHashes| && st.symHashes[k].Some? ==> st.symHashes[k].value in st.link.hashes
  {
  }

  lemma OneStep(o: Options, inp: Input, st: Pass, i: nat)
    requires i < |inp.syms| && PassOk(inp, st)
    ensures Steps(o, inp, st, i, i + 1) == StepSym(o, inp, st, i) && PassOk(inp, StepSym(o, inp, st, i))
  {
    hide PassOk, StepSym, SameKinds;
    StepOk(o, inp, st, i);
  }

  lemma WriteIs(o: Options, inp: Input, l: Link, symHashes: seq<Option<nat>>)
    requires PassOk(inp, Start(o, inp, l, symHashes))
    ensures var st := Steps(o, inp, Start(o, inp, l, symHashes), 0, |inp.syms|);
            var st' := WriteSymbols(o, inp, l, symHashes);
            && st'.symbolMap == st.symbolMap && st'.link.owners == st.link.owners
            && st'.link.file == Put(st.link.file, st.link.symoff, st.out)
  {
    hide PassOk, Steps, Start, Put;
  }

  // ----- what a turn emits -----

  lemma {:induction false} ResolveSame(hs: map<nat, Entry>, hs': map<nat, Entry>, h: nat)
    requires WellLinked(hs) && WellLinked(hs') && h in hs && h in hs' && SameKinds(hs, hs')
    ensures Resolve(hs, h) == Resolve(hs', h)
    decreases h
  {
    if Follows(hs[h].kind) {
      assert LinkOk(hs, h) && LinkOk(hs', h);
      ResolveSame(hs, hs', hs[h].kind.link);
    }
  }

  /** The kind of what a symbol of the input resolves to. */
  function KindHere(hs: map<nat, Entry>, h: Option<nat>): Option<Kind>
    requires WellLinked(hs) && (h.Some? ==> h.value in hs)
  {
    if h.None? then None else Some(hs[Resolve(hs, h.value)].kind)
  }

  function OwnerOf(inp: Input, h: Option<nat>, i: nat): Owner {
    if h.None? then OfLocal(inp.id, i) else OfGlobal(h.value)
  }

  /** sym is a copy of symbol i of type and value as c says, but for the total of a header group. */
  predicate CopyBy(inp: Input, i: nat, c: Copy, sym: Nlist)
    requires i < |inp.syms|
  {
    CopiedAs(inp, i, sym) && (c.typ != N_BINCL ==> sym.typ == c.typ && sym.value == c.value)
  }

  lemma CopyOutIs(inp: Input, st: Pass, i: nat, name: Name, outName: Name, c: Copy, owner: Owner)
    requires i < |inp.syms| == |st.symbolMap|
    ensures var st' := CopyOut(inp, st, i, name, outName, c, owner);
            && |st'.out| == |st.out| + 1 && CopyBy(inp, i, c, st'.out[|st.out|])
            && |st'.symbolMap| == |st.symbolMap| && st'.symbolMap[i] == st.link.count
            && st'.link.count == st.link.count + 1 && st'.link.owners == st.link.owners + [owner]
  {
    hide GroupMark, GroupSum;
  }

  lemma TurnCopies(o: Options, inp: Input, t: Pass, i: nat)
    requires i < |inp.syms| && PassOk(inp, t) && !t.pass && |t.link.owners| == t.link.count
    requires |StepSym(o, inp, t, i).out| == |t.out| + 1
    ensures |t.symHashes| == |inp.syms| && WellLinked(t.link.hashes)
    ensures t.symHashes[i].Some? ==> t.symHashes[i].value in t.link.hashes
    ensures var t1 := StepSym(o, inp, t, i);
            && |t1.symbolMap| == |inp.syms| && t1.symbolMap[i] == t.link.count && t1.link.count == t.link.count + 1
            && t.link.count < |t1.link.owners| && t1.link.owners[t.link.count] == OwnerOf(inp, t.symHashes[i], i)
            && CopyBy(inp, i, CopyOf(inp, inp.syms[i], KindHere(t.link.hashes, t.symHashes[i])), t1.out[|t.out|])
  {
    hide WellLinked, CopyOf, Stripped, Discarded, Resolve, CopyOut, CopyBy, IsSet;
    var sym := inp.syms[i];
    var st0 := t.(symbolMap := t.symbolMap[i := -1]);
    match t.symHashes[i] {
      case None =>
        var c := CopyOf(inp, sym, None);
        CopyOutIs(inp, st0.(pass := c.pass, skipNext := c.skipNext), i, sym.name, sym.name, c, OfLocal(inp.id, i));
      case Some(h) =>
        var e := t.link.hashes[h];
        var name := if e.kind.Warning? then sym.name else e.name;
        var r := Resolve(t.link.hashes, h);
        var c := CopyOf(inp, sym, Some(t.link.hashes[r].kind));
        var st1 := st0.(symHashes := t.symHashes[i := Some(r)], pass := c.pass, skipNext := c.skipNext,
                        link := SetEntry(t.link, h, e.(written := true, indx := t.link.count)));
        CopyOutIs(inp, st1, i, name, if o.keepMemory then name else e.name, c, OfGlobal(h));
    }
  }

  lemma TurnKinds(o: Options, inp: Input, l: Link, symHashes: seq<Option<nat>>, i: nat)
    requires PassOk(inp, Start(o, inp, l, symHashes)) && i <= |inp.syms|
    ensures var t := TurnOf(o, inp, l, symHashes, i);
            WellLinked(l.hashes) && WellLinked(t.link.hashes) && SameKinds(l.hashes, t.link.hashes)
  {
    hide Steps, SameKinds, WellLinked;
  }

  /** A copied symbol is found in its slot, which was written for it. */
  lemma CopiedReads(o: Options, inp: Input, l: Link, symHashes: seq<Option<nat>>, base: nat, i: nat) returns (sym: Nlist)
    requires Numbered(l, base) && PassOk(inp, Start(o, inp, l, symHashes)) && i < |inp.syms|
    requires CopiedAt(o, inp, l, symHashes, i)
    ensures |symHashes| == |inp.syms| && WellLinked(l.hashes)
    ensures symHashes[i].Some? ==> symHashes[i].value in l.hashes
    ensures SlotReads(o, inp, l, symHashes, base, i, OwnerOf(inp, symHashes[i], i), sym)
    ensures CopyBy(inp, i, CopyOf(inp, inp.syms[i], KindHere(l.hashes, symHashes[i])), sym)
  {
    hide WellLinked, Slots, SameKinds, Steps, StepSym, PassOk, CopyOf, CopyBy, Resolve, SlotReads, Filled, AllNamed, Follows;
    var st0 := Start(o, inp, l, symHashes);
    var t := TurnOf(o, inp, l, symHashes, i);
    SlotsCount(l);
    EmitSlots(l, OfFile(inp.id));
    StepsKeep(o, inp, st0, 0, i);
    SlotsCount(t.link);
    PassSizes(inp, st0);
    TurnCopies(o, inp, t, i);
    EmittedReads(o, inp, l, symHashes, base, i);
    TurnKinds(o, inp, l, symHashes, i);
    sym := StepSym(o, inp, t, i).out[|t.out|];
    if symHashes[i].Some? {
      KindsKeys(l.hashes, t.link.hashes);
      ResolveSame(l.hashes, t.link.hashes, symHashes[i].value);
      KindSame(l.hashes, t.link.hashes, Resolve(l.hashes, symHashes[i].value));
    }
  }

  lemma KindSame(hs: map<nat, Entry>, hs': map<nat, Entry>, h: nat)
    requires SameKinds(hs, hs') && h in hs && h in hs'
    ensures hs[h].kind == hs'[h].kind
  {
  }

  // ----- what it means -----

  /** The number by which a reloc names the section of a symbol of this type. */
  function SectionIndex(typ: bv8): nat {
    if typ == N_WEAKT then KindIndex(OutText)
    else if typ == N_WEAKD then KindIndex(OutData)
    else if typ == N_WEAKB then KindIndex(OutBss)
    else if typ == N_WEAKA then KindIndex(OutOther)
    else if IsSet(typ) then
      if typ & N_TYPE == N_SETT then KindIndex(OutText)
      else if typ & N_TYPE == N_SETD then KindIndex(OutData)
      else if typ & N_TYPE == N_SETB then KindIndex(OutBss)
      else KindIndex(OutOther)
    else (typ & N_TYPE) as nat
  }

  /** A reloc against the section of a symbol of this type. */
  function AgainstSection(typ: bv8): Reloc {
    Reloc(0, SectionIndex(typ), false, RELOC_32, 0)
  }

  /** A symbol of a section of its input is where a reloc against that section, with the symbol's value for addend, points. */
  lemma PlacedSymbol(o: Options, inp: Input, l: Link, symHashes: seq<Option<nat>>, base: nat, i: nat, isec: Section)
    returns (sym: Nlist)
    requires Numbered(l, base) && PassOk(inp, Start(o, inp, l, symHashes)) && i < |inp.syms|
    requires CopiedAt(o, inp, l, symHashes, i) && PlainSection(inp, inp.syms[i].typ).Some? && inp.syms[i].typ != N_BINCL
    ensures |symHashes| == |inp.syms| && WellLinked(l.hashes)
    ensures forall k :: 0 <= k < |symHashes| && symHashes[k].Some? ==> symHashes[k].value in l.hashes
    ensures SlotReads(o, inp, l, symHashes, base, i, OwnerOf(inp, symHashes[i], i), sym) && CopiedAs(inp, i, sym)
    ensures sym.typ == inp.syms[i].typ
    ensures var to := FinalRelocation(l.hashes, inp, isec, symHashes, AgainstSection(inp.syms[i].typ));
            to.Some? && sym.value == Vma(to.value + inp.syms[i].value)
  {
    PassSizes(inp, Start(o, inp, l, symHashes));
    hide PassOk, Numbered, CopiedAt, SlotReads, WellLinked, Resolve;
    sym := CopiedReads(o, inp, l, symHashes, base, i);
    SectionIndexIs(inp, inp.syms[i].typ);
  }

  lemma SectionIndexIs(inp: Input, typ: bv8)
    ensures PlainSection(inp, typ).Some? || SetSection(inp, typ).Some? ==> IndexKind(SectionIndex(typ)).Some?
    ensures PlainSection(inp, typ).Some? ==> SectionFor(inp, IndexKind(SectionIndex(typ)).value) == PlainSection(inp, typ).value
    ensures PlainSection(inp, typ).None? && SetSection(inp, typ).Some? ==>
              SectionFor(inp, IndexKind(SectionIndex(typ)).value) == SetSection(inp, typ).value
  {
  }

  /** So is a local symbol of a set. */
  lemma SetSymbol(o: Options, inp: Input, l: Link, symHashes: seq<Option<nat>>, base: nat, i: nat, isec: Section)
    returns (sym: Nlist)
    requires Numbered(l, base) && PassOk(inp, Start(o, inp, l, symHashes)) && i < |inp.syms|
    requires CopiedAt(o, inp, l, symHashes, i)
    requires |symHashes| == |inp.syms| && symHashes[i].None?
    requires var typ := inp.syms[i].typ; SetSection(inp, typ).Some? && PlainSection(inp, typ).None? && typ & N_STAB == 0
    ensures WellLinked(l.hashes) && forall k :: 0 <= k < |symHashes| && symHashes[k].Some? ==> symHashes[k].value in l.hashes
    ensures SlotReads(o, inp, l, symHashes, base, i, OfLocal(inp.id, i), sym) && CopiedAs(inp, i, sym)
    ensures sym.typ == inp.syms[i].typ
    ensures var to := FinalRelocation(l.hashes, inp, isec, symHashes, AgainstSection(inp.syms[i].typ));
            to.Some? && sym.value == Vma(to.value + inp.syms[i].value)
  {
    PassSizes(inp, Start(o, inp, l, symHashes));
    hide PassOk, Numbered, CopiedAt, SlotReads, WellLinked, Resolve;
    sym := CopiedReads(o, inp, l, symHashes, base, i);
    SectionIndexIs(inp, inp.syms[i].typ);
  }

  /** In which section a link that reads a symbol of this type takes it to be. */
  function TypeKind(typ: bv8): Option<OutKind> {
    var at := k => Section(0, 0, 0, k);
    match PlainSection(Input(0, [], [], at(OutText), at(OutData), at(OutBss)), typ)
    case None => None
    case Some(s) => Some(s.outKind)
  }

  /** N_EXT is the lowest bit, and in the numbers of the weak types that bit tells one section from another. */
  predicate Confused(k: Kind, external: bool) {
    k.DefWeak? && external && (k.section.outKind == OutData || k.section.outKind == OutOther)
  }

  predicate External(typ: bv8) {
    typ & N_EXT != 0 || typ == N_SETT || typ == N_SETD || typ == N_SETB || typ == N_SETA
  }

  /**
    A symbol that its input does not place, such as an undefined or common one, is written with the
    value a reloc against it gets, and with a type that is read as the section of its definition exactly
    when that definition is not a weak one of data or of no section and the symbol external.
   */
  lemma ResolvedSymbol(o: Options, inp: Input, l: Link, symHashes: seq<Option<nat>>, base: nat, i: nat) returns (sym: Nlist)
    requires Numbered(l, base) && PassOk(inp, Start(o, inp, l, symHashes)) && i < |inp.syms|
    requires CopiedAt(o, inp, l, symHashes, i)
    requires |symHashes| == |inp.syms| && symHashes[i].Some? && symHashes[i].value in l.hashes && WellLinked(l.hashes)
    requires HasValue(l.hashes[Resolve(l.hashes, symHashes[i].value)].kind)
    requires var typ := inp.syms[i].typ; PlainSection(inp, typ).None? && typ & N_STAB == 0 && typ != N_WARNING
    ensures SlotReads(o, inp, l, symHashes, base, i, OfGlobal(symHashes[i].value), sym) && CopiedAs(inp, i, sym)
    ensures var k := l.hashes[Resolve(l.hashes, symHashes[i].value)].kind;
            && sym.value == Vma(ExternValue(Some(k)))
            && (TypeKind(sym.typ) == Some(k.section.outKind) <==> !Confused(k, External(inp.syms[i].typ)))
  {
    hide PassOk, Numbered, CopiedAt, SlotReads, WellLinked, Resolve, DefinedType;
    sym := CopiedReads(o, inp, l, symHashes, base, i);
    var k := l.hashes[Resolve(l.hashes, symHashes[i].value)].kind;
    var typ := inp.syms[i].typ;
    TypeIs(typ, k);
    NotBincl(typ, DefinedType(k));
  }

  function NewType(typ: bv8, defined: bv8): bv8 {
    ((if typ == N_SETT || typ == N_SETD || typ == N_SETB || typ == N_SETA then typ | N_EXT else typ) & !N_TYPE) | defined
  }

  lemma NotBincl(typ: bv8, defined: bv8)
    requires typ & N_STAB == 0 && defined & N_STAB == 0
    ensures NewType(typ, defined) != N_BINCL
  {
  }

  lemma TypeBits(typ: bv8, defined: bv8)
    requires typ & N_STAB == 0
    ensures NewType(typ, defined) == defined | (if External(typ) then N_EXT else 0)
  {
  }

  function LowType(defined: bv8, external: bool): bv8 {
    defined | if external then N_EXT else 0
  }

  lemma LowTypeKind(k: Kind, external: bool)
    requires HasValue(k)
    ensures TypeKind(LowType(DefinedType(k), external)) == Some(k.section.outKind) <==> !Confused(k, external)
    ensures DefinedType(k) & N_STAB == 0
  {
  }

  lemma TypeIs(typ: bv8, k: Kind)
    requires typ & N_STAB == 0 && HasValue(k)
    ensures TypeKind(NewType(typ, DefinedType(k))) == Some(k.section.outKind) <==> !Confused(k, External(typ))
    ensures DefinedType(k) & N_STAB == 0
  {
    hide TypeKind, Confused;
    LowTypeKind(k, External(typ));
    TypeBits(typ, DefinedType(k));
  }

  /** What becomes of a symbol that has no definition anywhere. */
  lemma UndefinedSymbol(o: Options, inp: Input, l: Link, symHashes: seq<Option<nat>>, base: nat, i: nat) returns (sym: Nlist)
    requires Numbered(l, base) && PassOk(inp, Start(o, inp, l, symHashes)) && i < |inp.syms|
    requires CopiedAt(o, inp, l, symHashes, i)
    requires |symHashes| == |inp.syms| && symHashes[i].Some? && symHashes[i].value in l.hashes && WellLinked(l.hashes)
    requires !HasValue(l.hashes[Resolve(l.hashes, symHashes[i].value)].kind)
    requires var typ := inp.syms[i].typ;
             PlainSection(inp, typ).None? && typ & N_STAB == 0 && typ != N_WARNING && typ & N_TYPE != N_INDR
    ensures SlotReads(o, inp, l, symHashes, base, i, OfGlobal(symHashes[i].value), sym) && CopiedAs(inp, i, sym)
    ensures match l.hashes[Resolve(l.hashes, symHashes[i].value)].kind
            case Common(size) => sym.typ == inp.syms[i].typ && sym.value == size
            case UndefWeak => sym.typ == N_WEAKU && sym.value == 0
            case _ => sym.typ == inp.syms[i].typ && sym.value == 0
  {
    hide PassOk, Numbered, CopiedAt, SlotReads, WellLinked, Resolve;
    sym := CopiedReads(o, inp, l, symHashes, base, i);
    NoStab(inp.syms[i].typ);
  }

  lemma NoStab(typ: bv8)
    requires typ & N_STAB == 0
    ensures typ != N_BINCL && N_WEAKU != N_BINCL
  {
  }

  /** A debugging symbol that is in no section is copied as it is, but for the start of a header group. */
  lemma StabSymbol(o: Options, inp: Input, l: Link, symHashes: seq<Option<nat>>, base: nat, i: nat) returns (sym: Nlist)
    requires Numbered(l, base) && PassOk(inp, Start(o, inp, l, symHashes)) && i < |inp.syms|
    requires CopiedAt(o, inp, l, symHashes, i)
    requires PlainSection(inp, inp.syms[i].typ).None? && inp.syms[i].typ & N_STAB != 0
    ensures |symHashes| == |inp.syms|
    ensures SlotReads(o, inp, l, symHashes, base, i, OwnerOf(inp, symHashes[i], i), sym) && CopiedAs(inp, i, sym)
    ensures sym.typ == inp.syms[i].typ && sym.value == inp.syms[i].value
  {
    hide PassOk, Numbered, CopiedAt, SlotReads, WellLinked, Resolve;
    sym := CopiedReads(o, inp, l, symHashes, base, i);
    BinclPlaced(inp);
  }

  lemma BinclPlaced(inp: Input)
    ensures PlainSection(inp, N_BINCL).Some? && N_WARNING & N_STAB == 0
  {
  }

  /** The target of an indirect or warning symbol is written exactly as it was. */
  lemma PassedSymbol(o: Options, inp: Input, l: Link, symHashes: seq<Option<nat>>, base: nat, i: nat)
    requires Numbered(l, base) && PassOk(inp, Start(o, inp, l, symHashes)) && i < |inp.syms|
    requires PassedAt(o, inp, l, symHashes, i)
    ensures SlotReads(o, inp, l, symHashes, base, i, OfLocal(inp.id, i), inp.syms[i])
  {
    hide WellLinked, Slots, SameKinds, Steps, PassOk, SlotReads, Filled, AllNamed;
    var st0 := Start(o, inp, l, symHashes);
    var t := TurnOf(o, inp, l, symHashes, i);
    SlotsCount(l);
    EmitSlots(l, OfFile(inp.id));
    StepsKeep(o, inp, st0, 0, i);
    SlotsCount(t.link);
    PassSizes(inp, t);
    EmittedReads(o, inp, l, symHashes, base, i);
  }

  // ----- symbols no input accounted for -----

  /** What the file holds in the slot of h. */
  predicate EntryReads(l: Link, base: nat, h: nat, sym: Nlist) {
    HasSlot(l, h) && Pos(base, l.hashes[h].indx) in l.file && l.file[Pos(base, l.hashes[h].indx)] == sym
  }

  /**
    A symbol that aout_link_write_other_symbol writes, in the closing traversal or for a reloc, is
    external, has the value a reloc against it gets, and is read as of its section under the same
    condition.
   */
  lemma OtherReads(o: Options, l: Link, h: nat, base: nat)
    requires Numbered(l, base) && h in l.hashes && Writable(l.hashes[h].kind) && !l.hashes[h].written
    requires l.hashes[h].indx != -2 ==> o.strip != StripAll && (o.strip == StripSome ==> l.hashes[h].name in o.keep)
    ensures WellLinked(l.hashes)
    ensures var e := l.hashes[h];
            var sym := OtherNlist(e);
            && EntryReads(WriteOther(o, l, h), base, h, sym) && sym.name == e.name
            && (HasValue(e.kind) ==>
                  && sym.value == Vma(ExternValue(Some(e.kind)))
                  && (TypeKind(sym.typ) == Some(e.kind.section.outKind) <==> !Confused(e.kind, true)))
            && (e.kind.Common? ==> sym.value == e.kind.size && TypeKind(sym.typ) == None && sym.typ & N_EXT != 0)
            && (e.kind.Undefined? ==> sym.value == 0 && TypeKind(sym.typ) == None && sym.typ & N_EXT != 0)
            && (e.kind.UndefWeak? ==> sym.value == 0 && sym.typ == N_WEAKU)
  {
    SlotsCount(l);
    var e := l.hashes[h];
    OtherTypes(e);
    hide WellLinked, Filled, AllNamed, Slots, OtherNlist, DefinedType, TypeKind;
    FilledNext(l, base);
  }

  lemma FilledNext(l: Link, base: nat)
    requires Filled(l, base, l.count)
    ensures l.symoff == Pos(base, l.count)
  {
  }

  lemma OtherTypes(e: Entry)
    requires Writable(e.kind)
    ensures var sym := OtherNlist(e);
            && sym.name == e.name
            && (HasValue(e.kind) ==>
                  && sym.value == Vma(ExternValue(Some(e.kind)))
                  && (TypeKind(sym.typ) == Some(e.kind.section.outKind) <==> !Confused(e.kind, true)))
            && (e.kind.Common? ==> sym.value == e.kind.size && TypeKind(sym.typ) == None && sym.typ & N_EXT != 0)
            && (e.kind.Undefined? ==> sym.value == 0 && TypeKind(sym.typ) == None && sym.typ & N_EXT != 0)
            && (e.kind.UndefWeak? ==> sym.value == 0 && sym.typ == N_WEAKU)
  {
    if HasValue(e.kind) {
      LowTypeKind(e.kind, true);
    }
  }

  /** The symbol for the file itself stands at the start of its text. */
  lemma FileSymbolReads(o: Options, inp: Input, l: Link, symHashes: seq<Option<nat>>, base: nat, isec: Section)
    requires Numbered(l, base) && PassOk(inp, Start(o, inp, l, symHashes)) && FileSymbol(o, inp)
    ensures |symHashes| == |inp.syms|
    ensures forall k :: 0 <= k < |symHashes| && symHashes[k].Some? ==> symHashes[k].value in l.hashes
    ensures var st := WriteSymbols(o, inp, l, symHashes);
            && l.count < |st.link.owners| && st.link.owners[l.count] == OfFile(inp.id) && Pos(base, l.count) in st.link.file
            && var sym := st.link.file[Pos(base, l.count)];
            var to := FinalRelocation(l.hashes, inp, isec, symHashes, AgainstSection(N_TEXT));
            && sym.name == inp.filename && sym.typ == N_TEXT && sym.other == 0 && sym.desc == 0
            && to.Some? && sym.value == Vma(to.value + inp.text.vma)
  {
    hide WellLinked, Slots, Filled, SameKinds, Put, Steps, AllNamed, StepSym;
    var st0 := Start(o, inp, l, symHashes);
    SlotsCount(l);
    EmitSlots(l, OfFile(inp.id));
    PassSizes(inp, st0);
    StepsKeep(o, inp, st0, 0, |inp.syms|);
    var st := Steps(o, inp, st0, 0, |inp.syms|);
    FilledSame(l, st.link, base, l.count);
    SlotsCount(st.link);
    PutReads(st.link, base, l.count, st.out, l.count);
    WriteIs(o, inp, l, symHashes);
    SectionIndexIs(inp, N_TEXT);
    TextPlaced(inp);
    assert st.out[0] == st0.out[0];
  }

  lemma TextPlaced(inp: Input)
    ensures PlainSection(inp, N_TEXT) == Some(inp.text)
  {
  }

  // ----- which symbols are copied -----

  /** The options let a symbol of this type and name through. */
  predicate Wanted(o: Options, typ: bv8, name: Name) {
    || o.strip == StripNone
    || (o.strip == StripDebugger && typ & N_STAB == 0)
    || (o.strip == StripSome && name in o.keep)
  }

  /** A local symbol is kept unless it is to be discarded; those of sets always are. */
  predicate WantedLocal(o: Options, typ: bv8, name: Name) {
    || IsSet(typ) || o.discard == DiscardNone || o.discard == DiscardSecMerge
    || (o.discard == DiscardL && !(typ & N_STAB == 0 && name != [] && name[0] == o.localPrefix))
  }

  /** In a turn that looks at it, a symbol is copied exactly if it is wanted and, with a hash entry, was not written before. */
  lemma TurnDecides(o: Options, inp: Input, t: Pass, i: nat)
    requires i < |inp.syms| && PassOk(inp, t) && !t.pass && !t.skipNext && t.symbolMap[i] != -1
    ensures var sym := inp.syms[i];
            var out := StepSym(o, inp, t, i).out;
            && (out == t.out || |out| == |t.out| + 1)
            && (|out| == |t.out| + 1 <==>
                  match t.symHashes[i]
                  case None => Wanted(o, sym.typ, sym.name) && WantedLocal(o, sym.typ, sym.name)
                  case Some(h) =>
                    && !t.link.hashes[h].written
                    && Wanted(o, sym.typ, if t.link.hashes[h].kind.Warning? then sym.name else t.link.hashes[h].name))
  {
    hide WellLinked, CopyOf, Resolve, CopyOut;
    var sym := inp.syms[i];
    var st0 := t.(symbolMap := t.symbolMap[i := -1]);
    match t.symHashes[i] {
      case None =>
        var c := CopyOf(inp, sym, None);
        LocalType(inp, sym);
        CopyOutIs(inp, st0.(pass := c.pass, skipNext := c.skipNext), i, sym.name, sym.name, c, OfLocal(inp.id, i));
      case Some(h) =>
        var e := t.link.hashes[h];
        var name := if e.kind.Warning? then sym.name else e.name;
        var r := Resolve(t.link.hashes, h);
        var c := CopyOf(inp, sym, Some(t.link.hashes[r].kind));
        var st1 := st0.(symHashes := t.symHashes[i := Some(r)], pass := c.pass, skipNext := c.skipNext,
                        link := SetEntry(t.link, h, e.(written := true, indx := t.link.count)));
        CopyOutIs(inp, st1, i, name, if o.keepMemory then name else e.name, c, OfGlobal(h));
    }
  }

  lemma LocalType(inp: Input, sym: Nlist)
    ensures CopyOf(inp, sym, None).typ == sym.typ
  {
  }

  /** With everything stripped an input writes nothing. */
  lemma StripAllWritesNothing(o: Options, inp: Input, l: Link, symHashes: seq<Option<nat>>)
    requires PassOk(inp, Start(o, inp, l, symHashes)) && o.strip == StripAll
    ensures WriteSymbols(o, inp, l, symHashes).out == []
  {
    hide PassOk, Steps;
    StepsNothing(o, inp, Start(o, inp, l, symHashes), 0);
  }

  lemma {:induction false} StepsNothing(o: Options, inp: Input, st: Pass, i: nat)
    requires i <= |inp.syms| && PassOk(inp, st) && o.strip == StripAll && !st.pass && st.out == []
    ensures Steps(o, inp, st, i, |inp.syms|).out == []
    decreases |inp.syms| - i
  {
    hide WellLinked, SameKinds, CopyOf, Resolve, CopyOut;
    if i < |inp.syms| {
      StepOk(o, inp, st, i);
      StepsNothing(o, inp, StepSym(o, inp, st, i), i + 1);
    }
  }
}
