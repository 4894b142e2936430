/**
  Opening an archive and walking its members: for any bytes the walk ends and the element cache
  changes nothing; for an archive that was written, it gives back the members in order (archive.c).
 */
module ArWalk {
  import opened Bytes
  import opened Ascii
  import opened ArHeader
  import opened ArNames
  import opened ArMap
  import opened ArMapWrite
  import opened ArMapRead
  import opened ArFile

  /** A file position is a signed 64-bit number. */
  const FILE_LIMIT := 0x8000_0000_0000_0000

  /** What opening an archive finds out. */
  datatype Ardata = Ardata(hasMap: bool, symdefs: seq<Carsym>, names: Option<Text>, first: nat)

  // ----- opening -----

  /** The map member at the start: its symbols, and where what follows it starts. */
  datatype Armap = Armap(symdefs: seq<Carsym>, next: nat)

  /** "__.SYMDEF/      ", as old Linux archives have it. */
  const OLD_NAME: Text := SpacePad(SYMDEF + [SLASH], 16)
  /** "#1/20           ", as Mach-O archives have it. */
  const MACHO_NAME: Text := SpacePad(BSD44 + [50, 48], 16)

  predicate BsdMapName(file: Text)
    requires |file| >= SARMAG + 16
  {
    var name := file[SARMAG..SARMAG + 16];
    || name == BSD_NAME || name == OLD_NAME
    || (name == MACHO_NAME && |file| >= SARMAG + HDR + 20 && SYMDEF <= file[SARMAG + HDR..SARMAG + HDR + 20])
  }

  /** The bytes of the member whose header was read. */
  function Content(file: Text, e: Elt): Option<Text>
    requires e.origin <= |file|
  {
    if e.origin + e.size > |file| then None else Some(file[e.origin..e.origin + e.size])
  }

  function ReadBsdMap(f: Format, file: Text): Option<Armap>
    requires FormatOk(f)
  {
    var e := ReadHdr(file, SARMAG, None, f.target.maxName);
    if e.None? || Content(file, e.value).None? then None
    else
      var syms := SlurpBsd(f.big, Content(file, e.value).value);
      if syms.None? then None else Some(Armap(syms.value, Even(e.value.origin + e.value.size)))
  }

  /** A second map, as PE archives have one, is passed over; the mask there has 32 bits. */
  function SecondMap(f: Format, file: Text, at: nat): nat
    requires FormatOk(f)
  {
    var e := ReadHdr(file, at, None, f.target.maxName);
    if e.Some? && file[at] == SLASH && file[at + 1] == SPACE then at + (e.value.size + HDR + 1) % WORD32 / 2 * 2 else at
  }

  function ReadWideMap(f: Format, file: Text, width: nat): Option<Armap>
    requires FormatOk(f)
  {
    var e := ReadHdr(file, SARMAG, None, f.target.maxName);
    if e.None? || Content(file, e.value).None? then None
    else
      var syms := SlurpWide(width, Content(file, e.value).value);
      if syms.None? then None
      else
        var next := Even(e.value.origin + e.value.size);
        Some(Armap(syms.value, if width == 4 then SecondMap(f, file, next) else next))
  }

  /** bfd_slurp_armap, or the reader of 64-bit targets; None is failure, Some(None) is no map. */
  function SlurpArmap(f: Format, file: Text): Option<Option<Armap>>
    requires FormatOk(f) && |file| >= SARMAG
  {
    if |file| == SARMAG then Some(None)
    else if |file| < SARMAG + 16 then None
    else
      var name := file[SARMAG..SARMAG + 16];
      if name == COFF_NAME then Wrap(ReadWideMap(f, file, 4))
      else if name == WIDE_NAME then Wrap(ReadWideMap(f, file, 8))
      else if f.mapKind.MapWide? then Some(None)
      else if name == MACHO_NAME && |file| < SARMAG + HDR + 20 then None
      else if BsdMapName(file) then Wrap(ReadBsdMap(f, file))
      else Some(None)
  }

  function Wrap(m: Option<Armap>): Option<Option<Armap>> {
    if m.None? then None else Some(m)
  }

  /** _bfd_slurp_extended_name_table: the repaired names, and where what follows them starts. */
  function SlurpNames(f: Format, file: Text, at: nat): Option<(Option<Text>, nat)>
    requires FormatOk(f)
  {
    if at + 16 > |file| || (file[at..at + 16] != BSD_TABLE && file[at..at + 16] != SVR4_TABLE) then Some((None, at))
    else
      var e := ReadHdr(file, at, None, f.target.maxName);
      if e.None? || Content(file, e.value).None? then None
      else Some((Some(Repaired(Content(file, e.value).value)), Even(e.value.origin + e.value.size)))
  }

  /** bfd_generic_archive_p for a non-thin archive. */
  function Open(f: Format, file: Text): Option<Ardata>
    requires FormatOk(f)
  {
    if |file| < SARMAG || file[..SARMAG] != ARMAG then None
    else
      match SlurpArmap(f, file)
      case None => None
      case Some(m) =>
        match SlurpNames(f, file, if m.Some? then m.value.next else SARMAG)
        case None => None
        case Some((names, first)) => Some(Ardata(m.Some?, if m.Some? then m.value.symdefs else [], names, first))
  }

  // ----- walking -----

  /** Where the member after e starts, in the arithmetic of file positions; None stops a loop. */
  function NextStart(e: Elt): (r: Option<nat>)
    ensures r.Some? ==> e.origin <= r.value < WORD64
  {
    var start := (e.origin + e.size) % WORD64;
    var padded := (start + start % 2) % WORD64;
    if padded < e.origin then None else Some(padded)
  }

  /** The members from position pos on. */
  function Walk(file: Text, names: Option<Text>, maxName: nat, pos: nat): (es: seq<Elt>)
    requires maxName <= 16
    decreases |file| - pos
  {
    match ReadHdr(file, pos, names, maxName)
    case None => []
    case Some(e) => [e] + if NextStart(e).Some? then Walk(file, names, maxName, NextStart(e).value) else []
  }

  /** Whatever the bytes: members found start further and further on, at least a header apart. */
  lemma {:induction false} WalkAdvances(file: Text, names: Option<Text>, maxName: nat, pos: nat)
    requires maxName <= 16
    ensures var es := Walk(file, names, maxName, pos);
            && (es != [] ==> pos + HDR * |es| <= |file|)
            && (forall i :: 0 <= i < |es| ==> pos + HDR * (i + 1) <= es[i].origin <= |file|)
            && (forall i :: 0 < i < |es| ==> es[i - 1].origin + HDR <= es[i].origin)
    decreases |file| - pos
  {
    var r := ReadHdr(file, pos, names, maxName);
    if r.Some? && NextStart(r.value).Some? {
      WalkAdvances(file, names, maxName, NextStart(r.value).value);
    }
  }

  /** An archive open for reading, with its cache of elements by position. */
  class Reader {
    const file: Text
    const names: Option<Text>
    const maxName: nat
    const first: nat
    var cache: map<nat, Elt>

    /** What the cache holds is what a fresh read would give. */
    ghost predicate Valid()
      reads this
    {
      && maxName <= 16 && |file| < FILE_LIMIT
      && forall p :: p in cache ==> ReadHdr(file, p, names, maxName) == Some(cache[p])
    }

    constructor (file: Text, names: Option<Text>, maxName: nat, first: nat)
      requires maxName <= 16 && |file| < FILE_LIMIT
      ensures Valid() && cache == map[]
      ensures this.file == file && this.names == names && this.maxName == maxName && this.first == first
    {
      this.file, this.names, this.maxName, this.first := file, names, maxName, first;
      cache := map[];
    }

    lemma Bounded()
      requires Valid()
      ensures maxName <= 16
    {
    }

    /** _bfd_get_elt_at_filepos; a position that is negative as a file position cannot be sought to. */
    method GetEltAt(filePos: nat) returns (r: Option<Elt>)
      requires Valid()
      modifies this
      ensures Valid() && r == ReadHdr(file, filePos, names, maxName)
      ensures old(cache.Keys) <= cache.Keys && forall p :: p in old(cache) ==> cache[p] == old(cache)[p]
    {
      if filePos in cache {
        return Some(cache[filePos]);
      }
      if filePos >= FILE_LIMIT {
        return None;
      }
      r := ReadHdr(file, filePos, names, maxName);
      if r.Some? {
        cache := cache[filePos := r.value];
      }
    }

    /** bfd_generic_openr_next_archived_file */
    method OpenNext(last: Option<Elt>) returns (r: Option<Elt>)
      requires Valid()
      modifies this
      ensures Valid()
      ensures r == Next(last)
    {
      hide ReadHdr, Valid;
      Bounded();
      var fileStart := first;
      if last.Some? {
        fileStart := (last.value.origin + last.value.size) % WORD64;
        fileStart := (fileStart + fileStart % 2) % WORD64;
        if fileStart < last.value.origin {
          return None;
        }
      }
      r := GetEltAt(fileStart);
    }

    ghost function Next(last: Option<Elt>): (r: Option<Elt>)
      requires maxName <= 16
      ensures r.Some? ==> r.value.origin <= |file| && (last.Some? ==> last.value.origin < r.value.origin)
    {
      match last
      case None => ReadHdr(file, first, names, maxName)
      case Some(e) => if NextStart(e).Some? then ReadHdr(file, NextStart(e).value, names, maxName) else None
    }

    /** What is left to walk when r was found last. */
    ghost function Rest(r: Option<Elt>): seq<Elt>
      requires maxName <= 16
    {
      match r
      case None => []
      case Some(e) => [e] + if NextStart(e).Some? then Walk(file, names, maxName, NextStart(e).value) else []
    }

    lemma RestStep(e: Elt)
      requires maxName <= 16
      ensures Rest(Some(e)) == [e] + Rest(Next(Some(e)))
      ensures Walk(file, names, maxName, first) == Rest(Next(None))
    {
      hide ReadHdr, NextStart;
    }

    /** Calling it until there are no more gives the members of the walk, and the calls end. */
    method OpenAll() returns (es: seq<Elt>)
      requires Valid()
      modifies this
      ensures Valid() && es == Walk(file, names, maxName, first)
    {
      hide ReadHdr, Valid, Next, Rest, Walk;
      Bounded();
      es := [];
      RestStep(Elt([], 0, 0, 0));
      var elt := OpenNext(None);
      while elt.Some?
        invariant Valid() && (elt.Some? ==> elt.value.origin <= |file|)
        invariant Walk(file, names, maxName, first) == es + Rest(elt)
        decreases if elt.Some? then |file| - elt.value.origin + 1 else 0
      {
        RestStep(elt.value);
        es := es + [elt.value];
        elt := OpenNext(elt);
      }
      RestNone();
    }

    lemma RestNone()
      requires maxName <= 16
      ensures Rest(None) == []
    {
    }
  }
}
