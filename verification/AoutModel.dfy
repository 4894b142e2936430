/**
  The symbol pass of the a.out linker (aoutx.h) as functions on values: which symbols of an input
  are copied to the output, in which slot each lands, and how repeated header groups shrink.
 */
module AoutModel {
  import opened Bytes

  type Name = seq<byte>

  const N_EXT: bv8 := 0x01
  const N_ABS: bv8 := 0x02
  const N_TEXT: bv8 := 0x04
  const N_DATA: bv8 := 0x06
  const N_BSS: bv8 := 0x08
  const N_INDR: bv8 := 0x0a
  const N_WEAKU: bv8 := 0x0d
  const N_WEAKA: bv8 := 0x0e
  const N_WEAKT: bv8 := 0x0f
  const N_WEAKD: bv8 := 0x10
  const N_WEAKB: bv8 := 0x11
  const N_SETA: bv8 := 0x14
  const N_SETT: bv8 := 0x16
  const N_SETD: bv8 := 0x18
  const N_SETB: bv8 := 0x1a
  const N_WARNING: bv8 := 0x1e
  const N_TYPE: bv8 := 0x1e
  const N_STAB: bv8 := 0xe0
  const N_BINCL: bv8 := 0x82
  const N_EINCL: bv8 := 0xa2
  const N_EXCL: bv8 := 0xc2

  const NLIST_SIZE := 12
  const VMA_MOD := 0x1_0000_0000_0000_0000

  datatype OutKind = OutText | OutData | OutBss | OutOther
  datatype Section = Section(vma: nat, outVma: nat, outOffset: nat, outKind: OutKind)

  const ABS_SECTION := Section(0, 0, 0, OutOther)

  datatype Kind =
    | New | Undefined | UndefWeak
    | Defined(value: nat, section: Section) | DefWeak(value: nat, section: Section)
    | Common(size: nat) | Indirect(link: nat) | Warning(link: nat)

  /** A linker hash table entry; indx is -1 until it has a slot, or -2 while it must be given one. */
  datatype Entry = Entry(name: Name, kind: Kind, written: bool, indx: int)

  datatype Nlist = Nlist(typ: bv8, other: byte, desc: nat, name: Name, value: nat)

  datatype Input = Input(id: nat, filename: Name, syms: seq<Nlist>, text: Section, data: Section, bss: Section)

  datatype Strip = StripNone | StripDebugger | StripSome | StripAll
  datatype Discard = DiscardNone | DiscardSecMerge | DiscardL | DiscardAll
  datatype Options = Options(strip: Strip, discard: Discard, keep: set<Name>, localPrefix: byte, keepMemory: bool)

  /** What an output slot was written for. */
  datatype Owner = OfFile(input: nat) | OfLocal(input: nat, index: nat) | OfGlobal(h: nat)

  /** The linker across inputs. owners says what each output slot was written for. */
  datatype Link = Link(
    hashes: map<nat, Entry>,
    includes: map<Name, seq<nat>>,
    count: nat,                     // obj_aout_external_sym_count of the output
    symoff: nat,
    file: map<nat, Nlist>,          // output symbol table, by file position
    owners: seq<Owner>)

  /** The pass over one input; out is the part of output_syms filled so far. */
  datatype Pass = Pass(
    link: Link,
    symbolMap: seq<int>,
    symHashes: seq<Option<nat>>,
    pass: bool,
    skipNext: bool,
    out: seq<Nlist>)

  function Vma(x: int): nat {
    x % VMA_MOD
  }

  /** Links only lead to older entries, so following them ends; a warning stands for a real symbol. */
  predicate WellLinked(hs: map<nat, Entry>) {
    forall h :: h in hs ==> LinkOk(hs, h)
  }

  predicate LinkOk(hs: map<nat, Entry>, h: nat)
    requires h in hs
  {
    match hs[h].kind
    case Indirect(l) => l < h && l in hs
    case Warning(l) => l < h && l in hs && !hs[l].kind.Warning?
    case _ => true
  }

  predicate Follows(k: Kind) { k.Indirect? || k.Warning? }

  function Resolve(hs: map<nat, Entry>, h: nat): (r: nat)
    requires WellLinked(hs) && h in hs
    ensures r in hs && !Follows(hs[r].kind)
    decreases h
  {
    if Follows(hs[h].kind) then
      assert LinkOk(hs, h);
      Resolve(hs, hs[h].kind.link)
    else h
  }

  // ----- stab groups -----

  function SignedChar(c: byte): int {
    if c < 128 then c as int else c as int - 256
  }

  predicate IsDigit(c: byte) { 48 <= c <= 57 }

  const OPEN_PAREN: byte := 40

  function SkipDigits(s: Name, i: nat): (j: nat)
    requires i <= |s|
    ensures i <= j <= |s|
    decreases |s| - i
  {
    if i < |s| && IsDigit(s[i]) then SkipDigits(s, i + 1) else i
  }

  /** The characters of a stab string, without the file number after an open parenthesis. */
  function StabSum(s: Name, i: nat, acc: nat): nat
    requires i <= |s|
    decreases |s| - i
  {
    if i == |s| then acc
    else if s[i] == OPEN_PAREN then StabSum(s, SkipDigits(s, i + 1), Vma(acc + SignedChar(s[i])))
    else StabSum(s, i + 1, Vma(acc + SignedChar(s[i])))
  }

  /** The first scan at an N_BINCL: the sum over what lies directly inside the group. */
  function GroupSum(syms: seq<Nlist>, j: nat, nest: nat, acc: nat): nat
    requires j <= |syms|
    decreases |syms| - j
  {
    if j == |syms| then acc
    else if syms[j].typ == N_EINCL then
      if nest == 0 then acc else GroupSum(syms, j + 1, nest - 1, acc)
    else if syms[j].typ == N_BINCL then GroupSum(syms, j + 1, nest + 1, acc)
    else if nest == 0 then GroupSum(syms, j + 1, nest, StabSum(syms[j].name, 0, acc))
    else GroupSum(syms, j + 1, nest, acc)
  }

  /** The second scan: what lies directly inside the group, and its end, will not be copied. */
  function GroupMark(syms: seq<Nlist>, m: seq<int>, j: nat, nest: nat): (r: seq<int>)
    requires j <= |syms| == |m|
    ensures |r| == |m|
    ensures forall k :: 0 <= k < |m| ==> r[k] == m[k] || r[k] == -1
    ensures forall k :: 0 <= k < j ==> r[k] == m[k]
    decreases |syms| - j
  {
    if j == |syms| then m
    else if syms[j].typ == N_EINCL then
      if nest == 0 then m[j := -1] else GroupMark(syms, m, j + 1, nest - 1)
    else if syms[j].typ == N_BINCL then GroupMark(syms, m, j + 1, nest + 1)
    else if nest == 0 then GroupMark(syms, m[j := -1], j + 1, nest)
    else GroupMark(syms, m, j + 1, nest)
  }

  // ----- one symbol -----

  predicate Stripped(o: Options, typ: bv8, name: Name) {
    match o.strip
    case StripNone => false
    case StripDebugger => typ & N_STAB != 0
    case StripSome => name !in o.keep
    case StripAll => true
  }

  predicate Discarded(o: Options, typ: bv8, name: Name) {
    match o.discard
    case DiscardNone => false
    case DiscardSecMerge => false
    case DiscardL => typ & N_STAB == 0 && name != [] && name[0] == o.localPrefix
    case DiscardAll => true
  }

  predicate IsSet(typ: bv8) {
    typ & N_TYPE == N_SETT || typ & N_TYPE == N_SETD || typ & N_TYPE == N_SETB || typ & N_TYPE == N_SETA
  }

  function PlainSection(inp: Input, typ: bv8): Option<Section> {
    if typ & N_TYPE == N_TEXT || typ == N_WEAKT then Some(inp.text)
    else if typ & N_TYPE == N_DATA || typ == N_WEAKD then Some(inp.data)
    else if typ & N_TYPE == N_BSS || typ == N_WEAKB then Some(inp.bss)
    else if typ & N_TYPE == N_ABS || typ == N_WEAKA then Some(ABS_SECTION)
    else None
  }

  function SetSection(inp: Input, typ: bv8): Option<Section> {
    if typ & N_TYPE == N_SETT then Some(inp.text)
    else if typ & N_TYPE == N_SETD then Some(inp.data)
    else if typ & N_TYPE == N_SETB then Some(inp.bss)
    else if typ & N_TYPE == N_SETA then Some(ABS_SECTION)
    else None
  }

  function Relocated(sec: Section, value: nat): nat {
    Vma(sec.outVma + sec.outOffset + value - sec.vma)
  }

  function DefinedValue(k: Kind): nat
    requires k.Defined? || k.DefWeak?
  {
    Vma(k.value + k.section.outVma + k.section.outOffset)
  }

  /** The type of a global that has a definition, by output section and strength. */
  function DefinedType(k: Kind): bv8
    requires k.Defined? || k.DefWeak?
  {
    match k.section.outKind
    case OutText => if k.Defined? then N_TEXT else N_WEAKT
    case OutData => if k.Defined? then N_DATA else N_WEAKD
    case OutBss => if k.Defined? then N_BSS else N_WEAKB
    case OutOther => if k.Defined? then N_ABS else N_WEAKA
  }

  /** Type and value a symbol is copied with, and whether the next one is passed through or skipped. */
  datatype Copy = Copy(typ: bv8, value: nat, pass: bool, skipNext: bool)

  /** r is the kind of the entry the symbol resolves to, or None for a local symbol. */
  function CopyOf(inp: Input, sym: Nlist, r: Option<Kind>): Copy {
    var typ := sym.typ;
    var plain := PlainSection(inp, typ);
    if plain.Some? then Copy(typ, Relocated(plain.value, sym.value), false, false)
    else if (typ & N_TYPE == N_INDR && (r.None? || !(r.value.Defined? || r.value.DefWeak? || r.value.Common?)))
            || typ == N_WARNING then Copy(typ, sym.value, true, false)
    else if typ & N_STAB != 0 then Copy(typ, sym.value, false, false)
    else
      var skip := typ & N_TYPE == N_INDR;
      match r
      case None =>
        var sec := SetSection(inp, typ);
        Copy(typ, if sec.Some? then Relocated(sec.value, sym.value) else 0, false, skip)
      case Some(k) =>
        if k.Defined? || k.DefWeak? then
          var t := if typ == N_SETT || typ == N_SETD || typ == N_SETB || typ == N_SETA then typ | N_EXT else typ;
          Copy((t & !N_TYPE) | DefinedType(k), DefinedValue(k), false, skip)
        else if k.Common? then Copy(typ, k.size, false, skip)
        else if k.UndefWeak? then Copy(N_WEAKU, 0, false, skip)
        else Copy(typ, 0, false, skip)
  }

  function Emit(st: Pass, i: nat, sym: Nlist, owner: Owner): (st': Pass)
    requires i < |st.symbolMap|
  {
    st.(link := st.link.(count := st.link.count + 1, owners := st.link.owners + [owner]),
        symbolMap := st.symbolMap[i := st.link.count],
        out := st.out + [sym])
  }

  function SetEntry(l: Link, h: nat, e: Entry): Link {
    l.(hashes := l.hashes[h := e])
  }

  /** The N_BINCL branch: the type to copy with, the total as value, and the updated pass. */
  function Include(inp: Input, st: Pass, i: nat, name: Name): (r: (Pass, bv8, nat))
    requires |st.symbolMap| == |inp.syms| && i < |inp.syms|
    ensures |r.0.symbolMap| == |st.symbolMap|
    ensures r.0 == st.(link := st.link.(includes := r.0.link.includes), symbolMap := r.0.symbolMap)
    ensures forall k :: 0 <= k < |st.symbolMap| ==>
              r.0.symbolMap[k] == st.symbolMap[k] || (k > i && r.0.symbolMap[k] == -1)
  {
    var total := GroupSum(inp.syms, i + 1, 0, 0);
    var seen := if name in st.link.includes then st.link.includes[name] else [];
    if total in seen then
      (st.(symbolMap := GroupMark(inp.syms, st.symbolMap, i + 1, 0)), N_EXCL, total)
    else
      (st.(link := st.link.(includes := st.link.includes[name := [total] + seen])), N_BINCL, total)
  }

  predicate PassOk(inp: Input, st: Pass) {
    && |st.symbolMap| == |st.symHashes| == |inp.syms|
    && WellLinked(st.link.hashes)
    && (forall k :: 0 <= k < |st.symHashes| && st.symHashes[k].Some? ==> st.symHashes[k].value in st.link.hashes)
  }

  /**
    The end of the loop body for a symbol that is copied: name is what header groups are known by,
    outName what goes to the string table.
   */
  function CopyOut(inp: Input, st: Pass, i: nat, name: Name, outName: Name, c: Copy, owner: Owner): (st': Pass)
    requires i < |inp.syms| == |st.symbolMap|
  {
    var sym := inp.syms[i];
    if c.typ == N_BINCL then
      var (st1, typ, total) := Include(inp, st, i, name);
      Emit(st1, i, Nlist(typ, sym.other, sym.desc, outName, total), owner)
    else Emit(st, i, Nlist(c.typ, sym.other, sym.desc, outName, c.value), owner)
  }

  /** A symbol with no hash entry that was not passed through. */
  function StepLocal(o: Options, inp: Input, st: Pass, i: nat): (st': Pass)
    requires i < |inp.syms| == |st.symbolMap|
  {
    var sym := inp.syms[i];
    if Stripped(o, sym.typ, sym.name) then st
    else
      var c := CopyOf(inp, sym, None);
      var st1 := st.(pass := c.pass, skipNext := c.skipNext);
      if !IsSet(c.typ) && Discarded(o, c.typ, sym.name) then st1.(pass := false)
      else CopyOut(inp, st1, i, sym.name, sym.name, c, OfLocal(inp.id, i))
  }

  /** A symbol with hash entry h. */
  function StepGlobal(o: Options, inp: Input, st: Pass, i: nat, h: nat): (st': Pass)
    requires i < |inp.syms| && PassOk(inp, st) && h in st.link.hashes
  {
    var sym := inp.syms[i];
    var e := st.link.hashes[h];
    var name := if e.kind.Warning? then sym.name else e.name;
    var r := Resolve(st.link.hashes, h);
    var st0 := st.(symHashes := st.symHashes[i := Some(r)]);
    if e.written then
      st0.(symbolMap := st0.symbolMap[i := e.indx],
           skipNext := sym.typ & N_TYPE == N_INDR || sym.typ == N_WARNING)
    else if Stripped(o, sym.typ, name) then st0.(link := SetEntry(st.link, h, e.(written := true)))
    else
      var c := CopyOf(inp, sym, Some(st.link.hashes[r].kind));
      var st1 := st0.(pass := c.pass, skipNext := c.skipNext,
                      link := SetEntry(st.link, h, e.(written := true, indx := st.link.count)));
      CopyOut(inp, st1, i, name, if o.keepMemory then name else e.name, c, OfGlobal(h))
  }

  /** One turn of the main loop. */
  function StepSym(o: Options, inp: Input, st: Pass, i: nat): (st': Pass)
    requires i < |inp.syms| && PassOk(inp, st)
  {
    if st.symbolMap[i] == -1 then st
    else
      var st0 := st.(symbolMap := st.symbolMap[i := -1]);
      var sym := inp.syms[i];
      if st.pass then Emit(st0.(pass := false), i, sym, OfLocal(inp.id, i))
      else if st.skipNext then st0.(skipNext := false)
      else
        match st.symHashes[i]
        case None => StepLocal(o, inp, st0, i)
        case Some(h) => StepGlobal(o, inp, st0, i, h)
  }

  /** The main loop from symbol i on. */
  function Steps(o: Options, inp: Input, st: Pass, i: nat, n: nat): (st': Pass)
    requires i <= n <= |inp.syms| && PassOk(inp, st)
    ensures PassOk(inp, st') && SameKinds(st.link.hashes, st'.link.hashes)
    decreases n - i
  {
    if i == n then st
    else
      var st1 := StepSym(o, inp, st, i);
      StepOk(o, inp, st, i);
      Steps(o, inp, st1, i + 1, n)
  }

  /** The hash table keeps its entries, their names and their kinds. */
  ghost predicate SameKinds(hs: map<nat, Entry>, hs': map<nat, Entry>) {
    && hs.Keys == hs'.Keys
    && forall h :: h in hs ==> hs'[h].kind == hs[h].kind && hs'[h].name == hs[h].name
  }

  lemma SetEntryKinds(l: Link, h: nat, e: Entry)
    requires WellLinked(l.hashes) && h in l.hashes && e.kind == l.hashes[h].kind && e.name == l.hashes[h].name
    ensures WellLinked(SetEntry(l, h, e).hashes) && SameKinds(l.hashes, SetEntry(l, h, e).hashes)
  {
    var hs' := SetEntry(l, h, e).hashes;
    forall x | x in hs'
      ensures LinkOk(hs', x)
    {
      assert LinkOk(l.hashes, x);
    }
  }

  lemma StepOk(o: Options, inp: Input, st: Pass, i: nat)
    requires i < |inp.syms| && PassOk(inp, st)
    ensures PassOk(inp, StepSym(o, inp, st, i))
    ensures SameKinds(st.link.hashes, StepSym(o, inp, st, i).link.hashes)
  {
    hide WellLinked, SameKinds, CopyOf, Stripped, Discarded, Resolve, GroupMark, GroupSum;
    KindsRefl(st.link.hashes);
    if st.symbolMap[i] != -1 && !st.pass && !st.skipNext && st.symHashes[i].Some? {
      var h := st.symHashes[i].value;
      var e := st.link.hashes[h];
      SetEntryKinds(st.link, h, e.(written := true));
      SetEntryKinds(st.link, h, e.(written := true, indx := st.link.count));
      KindsKeys(st.link.hashes, SetEntry(st.link, h, e.(written := true)).hashes);
    }
  }

  lemma KindsRefl(hs: map<nat, Entry>)
    ensures SameKinds(hs, hs)
  {
  }

  lemma KindsKeys(hs: map<nat, Entry>, hs': map<nat, Entry>)
    requires SameKinds(hs, hs')
    ensures hs.Keys == hs'.Keys
  {
  }

  // ----- a whole input -----

  predicate FileSymbol(o: Options, inp: Input) {
    o.strip != StripAll && (o.strip != StripSome || inp.filename in o.keep) && o.discard != DiscardAll
  }

  function Start(o: Options, inp: Input, l: Link, symHashes: seq<Option<nat>>): (st: Pass)
    ensures |st.symbolMap| == |inp.syms| && st.symHashes == symHashes && st.link.hashes == l.hashes
  {
    var zeros := seq(|inp.syms|, _ => 0);
    if FileSymbol(o, inp) then
      Pass(l.(count := l.count + 1, owners := l.owners + [OfFile(inp.id)]), zeros, symHashes, false, false,
           [Nlist(N_TEXT, 0, 0, inp.filename, Vma(inp.text.outVma + inp.text.outOffset))])
    else Pass(l, zeros, symHashes, false, false, [])
  }

  /** bfd_write of the buffered symbols at symoff. */
  function Put(file: map<nat, Nlist>, at: nat, syms: seq<Nlist>): (file': map<nat, Nlist>) {
    if syms == [] then file
    else Put(file, at, syms[..|syms| - 1])[at + NLIST_SIZE * (|syms| - 1) := syms[|syms| - 1]]
  }

  /** aout_link_write_symbols */
  function WriteSymbols(o: Options, inp: Input, l: Link, symHashes: seq<Option<nat>>): (st: Pass)
    requires PassOk(inp, Start(o, inp, l, symHashes))
  {
    var st := Steps(o, inp, Start(o, inp, l, symHashes), 0, |inp.syms|);
    st.(link := st.link.(file := Put(st.link.file, st.link.symoff, st.out),
                         symoff := st.link.symoff + NLIST_SIZE * |st.out|))
  }

  // ----- symbols no input accounted for -----

  /** Whether aout_link_write_other_symbol has something to write for a symbol of this kind. */
  predicate Writable(k: Kind) {
    !k.New? && !k.Indirect? && !k.Warning?
  }

  function OtherNlist(e: Entry): Nlist
    requires Writable(e.kind)
  {
    match e.kind
    case Undefined => Nlist(N_EXT, 0, 0, e.name, 0)
    case Defined(_, _) => Nlist(DefinedType(e.kind) | N_EXT, 0, 0, e.name, DefinedValue(e.kind))
    case DefWeak(_, _) => Nlist(DefinedType(e.kind) | N_EXT, 0, 0, e.name, DefinedValue(e.kind))
    case Common(size) => Nlist(N_EXT, 0, 0, e.name, size)
    case UndefWeak => Nlist(N_WEAKU, 0, 0, e.name, 0)
  }

  /** aout_link_write_other_symbol */
  function WriteOther(o: Options, l: Link, h: nat): (l': Link)
    requires WellLinked(l.hashes) && h in l.hashes
  {
    assert LinkOk(l.hashes, h);
    var g := if l.hashes[h].kind.Warning? then l.hashes[h].kind.link else h;
    var e := l.hashes[g];
    if l.hashes[h].kind.Warning? && e.kind.New? then l
    else if e.written then l
    else
      var l1 := SetEntry(l, g, e.(written := true));
      if e.indx != -2 && (o.strip == StripAll || (o.strip == StripSome && e.name !in o.keep)) then l1
      else if !Writable(e.kind) then l1
      else
        SetEntry(l, g, e.(written := true, indx := l.count))
        .(count := l.count + 1, owners := l.owners + [OfGlobal(g)],
          file := l.file[l.symoff := OtherNlist(e)], symoff := l.symoff + NLIST_SIZE)
  }

  /** A reloc of a partial link needs a slot for h although it was stripped. */
  function Force(o: Options, l: Link, h: nat): (l': Link)
    requires WellLinked(l.hashes) && h in l.hashes
  {
    if l.hashes[h].indx < 0 then
      var l1 := SetEntry(l, h, l.hashes[h].(indx := -2, written := false));
      SetEntryKinds(l, h, l.hashes[h].(indx := -2, written := false));
      WriteOther(o, l1, h)
    else l
  }
}
