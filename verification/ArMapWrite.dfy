/**
  Writing the symbol map. Each writer first walks the members to see whether every position fits in
  four bytes, turns to the 64-bit format if one does not, and then walks them again as it writes.
 */
module ArMapWrite {
  import opened Bytes
  import opened Ascii
  import opened ArHeader
  import opened ArMap

  datatype MapKind = MapBsd(big: bool) | MapCoff | MapWide

  datatype MapResult = Written | FileTruncated

  /** "__.SYMDEF", "/" and "/SYM64/", each in a field of sixteen characters. */
  const BSD_NAME: Text := SpacePad([95, 95, 46, 83, 89, 77, 68, 69, 70], 16)
  const COFF_NAME: Text := SpacePad([47], 16)
  const WIDE_NAME: Text := SpacePad([47, 83, 89, 77, 54, 52, 47], 16)

  function MapSize(kind: MapKind, m: seq<Orl>): nat {
    match kind
    case MapBsd(_) => BSD_SYMDEF_SIZE * |m| + Even(StringsSize(m)) + 8
    case MapCoff => Even(4 * |m| + 4 + StringsSize(m))
    case MapWide => 8 * |m| + 8 + StringsSize(m) + Pad8(StringsSize(m) + 8 * |m| + 8)
  }

  /** The counts the writers keep in 32-bit variables stay below their bounds. */
  predicate MapFits(m: seq<Orl>, elength: nat) {
    8 * |m| + StringsSize(m) + elength + 16 < WORD32
  }

  /** Where the first member goes: behind the magic, the map and elength bytes of name table. */
  function First(size: nat, elength: nat): nat {
    size + elength + HDR + SARMAG
  }

  function Reckoned(kind: MapKind, thin: bool, slots: seq<Slot>, first: nat, k: nat): nat
    requires k <= |slots|
  {
    match kind
    case MapBsd(_) => BsdPosition(slots, first, k)
    case MapCoff => CoffPosition(thin, slots, first, k)
    case MapWide => Position64(thin, slots, first, k)
  }

  /** The positions the writer of one format works out for the symbols. */
  function ReckonedAll(kind: MapKind, thin: bool, slots: seq<Slot>, m: seq<Orl>, elength: nat, n: nat): (offs: seq<nat>)
    requires n <= |m| && Within(m, |slots|)
    ensures |offs| == n
    ensures forall i :: 0 <= i < n ==>
              offs[i] == Reckoned(kind, thin, slots, First(MapSize(kind, m), elength), m[i].member)
  {
    seq(n, i requires 0 <= i < n =>
      assert m[i].member < |slots|;
      Reckoned(kind, thin, slots, First(MapSize(kind, m), elength), m[i].member))
  }

  predicate Narrow(offs: seq<nat>) {
    forall i :: 0 <= i < |offs| ==> offs[i] < WORD32
  }

  /** The format that ends up being written. */
  function Chosen(kind: MapKind, thin: bool, slots: seq<Slot>, m: seq<Orl>, elength: nat): MapKind
    requires Within(m, |slots|)
  {
    if Narrow(ReckonedAll(kind, thin, slots, m, elength, |m|)) then kind else MapWide
  }

  function MapName(kind: MapKind): (s: Text)
    ensures |s| == 16
  {
    match kind
    case MapBsd(_) => BSD_NAME
    case MapCoff => COFF_NAME
    case MapWide => WIDE_NAME
  }

  function MapBody(kind: MapKind, m: seq<Orl>, offs: seq<nat>): (s: Text)
    requires |m| == |offs|
    ensures |s| == MapSize(kind, m)
  {
    match kind
    case MapBsd(big) => BsdBody(big, m, offs)
    case MapCoff => CoffBody(m, offs)
    case MapWide => Body64(m, offs)
  }

  /** The member that holds the map. */
  function MapMember(kind: MapKind, meta: Text, m: seq<Orl>, offs: seq<nat>): (s: Text)
    requires |m| == |offs| && |meta| == 32 && MapSize(kind, m) < MAX_SIZE
    ensures |s| == HDR + MapSize(kind, m)
  {
    SizeFits(MapSize(kind, m));
    Header(MapName(kind), meta, SizePad(MapSize(kind, m)).value) + MapBody(kind, m, offs)
  }

  lemma SizesFit(kind: MapKind, m: seq<Orl>, elength: nat)
    requires MapFits(m, elength)
    ensures MapSize(kind, m) + elength < WORD32 < MAX_SIZE && MapSize(kind, m) % 2 == 0
  {
  }

  /** What writing a map in the given format, or in its place a 64-bit one, puts into the file. */
  function MapBytes(kind: MapKind, thin: bool, slots: seq<Slot>, m: seq<Orl>, elength: nat, meta: Text): Text
    requires MapOk(m, |slots|) && MapFits(m, elength) && |meta| == 32
  {
    SizesFit(kind, m, elength);
    SizesFit(MapWide, m, elength);
    var k := Chosen(kind, thin, slots, m, elength);
    MapMember(k, meta, m, ReckonedAll(k, thin, slots, m, elength, |m|))
  }

  /**
    The offset recorded for a symbol is where its member's header is then written exactly when:
    for a BSD map, the archive is not thin or the members before hold no bytes; for the others, no
    name of a member before follows its header.
   */
  lemma MapExactly(kind: MapKind, thin: bool, slots: seq<Slot>, m: seq<Orl>, elength: nat, meta: Text, i: nat)
    requires MapOk(m, |slots|) && MapFits(m, elength) && |meta| == 32 && SlotsOk(slots) && elength % 2 == 0
    requires i < |m|
    ensures var k := Chosen(kind, thin, slots, m, elength);
            var first := SARMAG + |MapBytes(kind, thin, slots, m, elength, meta)| + elength;
            ReckonedAll(k, thin, slots, m, elength, |m|)[i] == Position(thin, slots, first, m[i].member)
            <==> if k.MapBsd? then !thin || NoBytes(slots, m[i].member) else NoExtra(slots, m[i].member)
  {
    hide Even, SlotsOk, NoExtra, NoBytes, MapOk, MapFits, Chosen, MapSize;
    MapWithin(m, |slots|);
    var k := Chosen(kind, thin, slots, m, elength);
    var first := SARMAG + |MapBytes(kind, thin, slots, m, elength, meta)| + elength;
    var member := MemberOf(m, |slots|, i);
    FirstIs(kind, thin, slots, m, elength, meta);
    ReckonedExactly(k, thin, slots, first, member);
  }

  lemma MapWithin(m: seq<Orl>, n: nat)
    requires MapOk(m, n)
    ensures Within(m, n)
  {
  }

  lemma MemberOf(m: seq<Orl>, n: nat, i: nat) returns (member: nat)
    requires MapOk(m, n) && i < |m|
    ensures member == m[i].member < n
  {
    member := m[i].member;
  }

  lemma FirstIs(kind: MapKind, thin: bool, slots: seq<Slot>, m: seq<Orl>, elength: nat, meta: Text)
    requires MapOk(m, |slots|) && MapFits(m, elength) && |meta| == 32 && elength % 2 == 0
    ensures var first := SARMAG + |MapBytes(kind, thin, slots, m, elength, meta)| + elength;
            first == First(MapSize(Chosen(kind, thin, slots, m, elength), m), elength) && first % 2 == 0
  {
    hide Chosen, MapSize, MapOk, MapBody, MapFits, Header, ReckonedAll, SizePad;
    MapWithin(m, |slots|);
    SizesFit(Chosen(kind, thin, slots, m, elength), m, elength);
  }

  lemma ReckonedExactly(kind: MapKind, thin: bool, slots: seq<Slot>, first: nat, k: nat)
    requires k <= |slots| && SlotsOk(slots) && first % 2 == 0
    ensures Reckoned(kind, thin, slots, first, k) == Position(thin, slots, first, k)
            <==> if kind.MapBsd? then !thin || NoBytes(slots, k) else NoExtra(slots, k)
  {
    hide SlotsOk, NoExtra, NoBytes;
    BsdExactly(thin, slots, first, k);
    CoffExactly(thin, slots, first, k);
  }

  // ----- the writers -----

  class Output {
    var file: Text

    constructor ()
      ensures file == []
    {
      file := [];
    }

    method Write(s: Text)
      modifies this
      ensures file == old(file) + s
    {
      file := file + s;
    }

    /** The names, each with its NUL. */
    method WriteStrings(m: seq<Orl>)
      modifies this
      ensures file == old(file) + Strings(m)
    {
      assert m[..0] == [];
      for count := 0 to |m|
        invariant file == old(file) + Strings(m[..count])
      {
        assert m[..count + 1][..count] == m[..count];
        assert Strings(m[..count + 1]) == Strings(m[..count]) + m[count].name + [NUL];
        Write(m[count].name + [NUL]);
        assert old(file) + Strings(m[..count]) + (m[count].name + [NUL]) == old(file) + (Strings(m[..count]) + m[count].name + [NUL]);
      }
      assert m[..|m|] == m;
    }

    method WriteHeader(kind: MapKind, meta: Text, size: nat)
      requires |meta| == 32 && size < MAX_SIZE
      modifies this
      ensures SizePad(size).Some? && file == old(file) + Header(MapName(kind), meta, SizePad(size).value)
    {
      SizeFits(size);
      Write(Header(MapName(kind), meta, SizePad(size).value));
    }

    method WriteZeros(n: nat)
      modifies this
      ensures file == old(file) + Zeros(n)
    {
      var k := 0;
      while k < n
        invariant k <= n && file == old(file) + Zeros(k)
      {
        assert Zeros(k + 1) == Zeros(k) + [NUL];
        Write([NUL]);
        k := k + 1;
      }
    }

    /** The positions of a 64-bit map, member by member and symbol by symbol. */
    method WriteWideOffsets(thin: bool, slots: seq<Slot>, m: seq<Orl>, first: nat, ghost offs: seq<nat>)
      requires MapOk(m, |slots|) && |offs| == |m| && Recorded(MapWide, thin, slots, m, first, offs)
      modifies this
      ensures file == old(file) + Offsets(8, offs)
    {
      hide Put, Even, MapOk, Walked, Offsets, Recorded, Narrow;
      var pos := first;
      var current, count := 0, 0;
      OffsetsNone(offs);
      WalkedStart(m, |slots|);
      while current < |slots| && count < |m|
        invariant current <= |slots| && count <= |m| && pos == Position64(thin, slots, first, current)
        invariant Walked(m, count, current)
        invariant file == old(file) + Offsets(8, offs[..count])
      {
        while count < |m| && m[count].member == current
          invariant count <= |m| && Walked(m, count, current)
          invariant file == old(file) + Offsets(8, offs[..count])
          decreases |m| - count
        {
          OffsetsOne(8, offs, count);
          RecordedAt(MapWide, thin, slots, m, first, offs, count);
          Write(Put(true, 8, pos));
          WalkedOne(m, count, current, |slots|);
          count := count + 1;
        }
        WalkedOn(m, count, current, |slots|);
        pos := pos + HDR;
        if !thin {
          pos := pos + slots[current].size;
        }
        pos := Even(pos);
        current := current + 1;
      }
      WalkedAll(m, count, current, |slots|);
      assert offs[..|m|] == offs;
    }

    /** _bfd_archive_64_bit_write_armap */
    method WriteWide(thin: bool, slots: seq<Slot>, m: seq<Orl>, elength: nat, stridx: nat, meta: Text)
      requires MapOk(m, |slots|) && MapFits(m, elength) && |meta| == 32 && stridx == StringsSize(m)
      modifies this
      ensures MapSize(MapWide, m) < MAX_SIZE
      ensures file == old(file) + MapMember(MapWide, meta, m, ReckonedAll(MapWide, thin, slots, m, elength, |m|))
    {
      hide Put, Strings, Even, StringsSize, MapOk, Offsets, Header, Pad8;
      MapWithin(m, |slots|);
      SizesFit(MapWide, m, elength);
      var padding := Pad8(stridx + 8 * |m| + 8);
      var mapSize := stridx + 8 * |m| + 8 + padding;
      WriteHeader(MapWide, meta, mapSize);
      ghost var head := file;
      Write(Put(true, 8, |m|));
      ghost var offs := ReckonedAll(MapWide, thin, slots, m, elength, |m|);
      WriteWideOffsets(thin, slots, m, First(mapSize, elength), offs);
      WriteStrings(m);
      WriteZeros(padding);
      JoinAll(head, Put(true, 8, |m|), Offsets(8, offs), Strings(m), Zeros(padding));
      JoinAll(old(file), Header(WIDE_NAME, meta, SizePad(mapSize).value), Body64(m, offs), [], []);
    }

    /** The positions of a COFF map; ok is false if one does not fit, as the first pass makes sure it does. */
    method WriteCoffOffsets(thin: bool, slots: seq<Slot>, m: seq<Orl>, first: nat, ghost offs: seq<nat>) returns (ok: bool)
      requires MapOk(m, |slots|) && |offs| == |m| && Recorded(MapCoff, thin, slots, m, first, offs)
      modifies this
      ensures ok <==> Narrow(offs)
      ensures ok ==> file == old(file) + Offsets(4, offs)
    {
      hide Put, Even, MapOk, Walked, Offsets, Recorded, Narrow;
      var pos := first;
      var current, count := 0, 0;
      OffsetsNone(offs);
      WalkedStart(m, |slots|);
      while current < |slots| && count < |m|
        invariant current <= |slots| && count <= |m| && pos == CoffPosition(thin, slots, first, current)
        invariant Walked(m, count, current) && Narrow(offs[..count])
        invariant file == old(file) + Offsets(4, offs[..count])
      {
        while count < |m| && m[count].member == current
          invariant count <= |m| && Walked(m, count, current) && Narrow(offs[..count])
          invariant file == old(file) + Offsets(4, offs[..count])
          decreases |m| - count
        {
          RecordedAt(MapCoff, thin, slots, m, first, offs, count);
          NarrowOne(offs, count);
          if pos >= WORD32 {
            return false;
          }
          OffsetsOne(4, offs, count);
          Write(Put(true, 4, pos));
          WalkedOne(m, count, current, |slots|);
          count := count + 1;
        }
        WalkedOn(m, count, current, |slots|);
        pos := pos + HDR;
        if !thin {
          pos := pos + slots[current].size;
          pos := Even(pos);
        }
        current := current + 1;
      }
      WalkedAll(m, count, current, |slots|);
      assert offs[..|m|] == offs;
      ok := true;
    }

    /** _bfd_coff_write_armap */
    method WriteCoff(thin: bool, slots: seq<Slot>, m: seq<Orl>, elength: nat, stridx: nat, meta: Text) returns (r: MapResult)
      requires MapOk(m, |slots|) && MapFits(m, elength) && |meta| == 32 && stridx == StringsSize(m)
      modifies this
      ensures r == Written && file == old(file) + MapBytes(MapCoff, thin, slots, m, elength, meta)
    {
      hide Put, Strings, Even, StringsSize, MapOk, Offsets, Header;
      MapWithin(m, |slots|);
      SizesFit(MapCoff, m, elength);
      var mapSize := 4 * |m| + 4 + stridx;
      var padIt := mapSize % 2;
      CoffSize(m);
      mapSize := mapSize + padIt;
      var first := First(mapSize, elength);
      ghost var offs := ReckonedAll(MapCoff, thin, slots, m, elength, |m|);
      var fits := CoffFits(thin, slots, m, first, offs);
      if !fits {
        WriteWide(thin, slots, m, elength, stridx, meta);
        return Written;
      }
      WriteHeader(MapCoff, meta, mapSize);
      ghost var head := file;
      Write(Put(true, 4, |m|));
      var ok := WriteCoffOffsets(thin, slots, m, first, offs);
      r := if ok then Written else FileTruncated;
      WriteStrings(m);
      WriteZeros(padIt);
      JoinAll(head, Put(true, 4, |m|), Offsets(4, offs), Strings(m), Zeros(padIt));
      JoinAll(old(file), Header(COFF_NAME, meta, SizePad(mapSize).value), CoffBody(m, offs), [], []);
    }

    /** The pairs of a BSD map. */
    method WriteBsdPairs(slots: seq<Slot>, m: seq<Orl>, first: nat, big: bool, ghost offs: seq<nat>) returns (ok: bool)
      requires MapOk(m, |slots|) && |offs| == |m| && Recorded(MapBsd(big), false, slots, m, first, offs)
      modifies this
      ensures ok <==> Narrow(offs)
      ensures ok ==> file == old(file) + Pairs(big, m, offs)
    {
      hide Put, Even, MapOk, BsdPosition, Pairs, Recorded, Narrow;
      var firstReal := first;
      var current, lastElt := 0, 0;
      BsdStart(slots, first, big, m, offs);
      for count := 0 to |m|
        invariant current == lastElt == if count > 0 then m[count - 1].member else 0
        invariant current <= |slots| && firstReal == BsdPosition(slots, first, current)
        invariant Narrow(offs[..count]) && file == old(file) + Pairs(big, m[..count], offs[..count])
      {
        InOrder(m, |slots|, count);
        if m[count].member != lastElt {
          current, firstReal := NextBsd(slots, first, current, m[count].member, firstReal);
        }
        RecordedAt(MapBsd(big), false, slots, m, first, offs, count);
        NarrowOne(offs, count);
        if firstReal >= WORD32 {
          return false;
        }
        lastElt := current;
        PairsOne(big, m, offs, count);
        Write(Put(big, 4, m[count].namidx) + Put(big, 4, firstReal));
      }
      assert m[..|m|] == m && offs[..|m|] == offs;
      ok := true;
    }

    /** The second pass of the BSD writer. */
    method WriteBsdMap(slots: seq<Slot>, m: seq<Orl>, first: nat, stridx: nat, big: bool, meta: Text, ghost offs: seq<nat>)
      returns (ok: bool)
      requires MapOk(m, |slots|) && |offs| == |m| && Recorded(MapBsd(big), false, slots, m, first, offs)
      requires |meta| == 32 && stridx == StringsSize(m) && MapSize(MapBsd(big), m) < MAX_SIZE
      modifies this
      ensures ok <==> Narrow(offs)
      ensures ok ==> file == old(file) + MapMember(MapBsd(big), meta, m, offs)
    {
      hide Put, Strings, Even, StringsSize, MapOk, Pairs, Header, Narrow, BsdBody, SizePad, Recorded;
      var padIt := stridx % 2;
      var stringSize := stridx + padIt;
      var mapSize := BSD_SYMDEF_SIZE * |m| + stringSize + 8;
      BsdSize(m);
      WriteHeader(MapBsd(big), meta, mapSize);
      ghost var head := file;
      Write(Put(big, 4, BSD_SYMDEF_SIZE * |m|));
      ok := WriteBsdPairs(slots, m, first, big, offs);
      Write(Put(big, 4, stringSize));
      WriteStrings(m);
      WriteZeros(padIt);
      JoinAll(head, Put(big, 4, BSD_SYMDEF_SIZE * |m|), Pairs(big, m, offs), Put(big, 4, stringSize), Strings(m) + Zeros(padIt));
      BsdJoin(big, m, offs);
      JoinAll(old(file), Header(BSD_NAME, meta, SizePad(mapSize).value), BsdBody(big, m, offs), [], []);
    }

    /** _bfd_bsd_write_armap */
    method WriteBsd(thin: bool, slots: seq<Slot>, m: seq<Orl>, elength: nat, stridx: nat, big: bool, meta: Text)
      returns (r: MapResult)
      requires MapOk(m, |slots|) && MapFits(m, elength) && |meta| == 32 && stridx == StringsSize(m)
      modifies this
      ensures r == Written && file == old(file) + MapBytes(MapBsd(big), thin, slots, m, elength, meta)
    {
      hide StringsSize, MapOk, MapMember, BsdPosition, Narrow, Position64, MapFits;
      MapWithin(m, |slots|);
      SizesFit(MapBsd(big), m, elength);
      BsdSize(m);
      var first := First(BSD_SYMDEF_SIZE * |m| + stridx + stridx % 2 + 8, elength);
      ghost var offs := ReckonedAll(MapBsd(big), thin, slots, m, elength, |m|);
      var fits := BsdFits(slots, m, first, big, offs);
      if !fits {
        WriteWide(thin, slots, m, elength, stridx, meta);
        return Written;
      }
      var ok := WriteBsdMap(slots, m, first, stridx, big, meta, offs);
      r := if ok then Written else FileTruncated;
    }
  }

  /** The first pass of the COFF writer. */
  method CoffFits(thin: bool, slots: seq<Slot>, m: seq<Orl>, first: nat, ghost offs: seq<nat>) returns (ok: bool)
    requires MapOk(m, |slots|) && |offs| == |m| && Recorded(MapCoff, thin, slots, m, first, offs)
    ensures ok <==> Narrow(offs)
  {
    hide Even, MapOk, Walked, Recorded, Narrow;
    var pos := first;
    var current, count := 0, 0;
    OffsetsNone(offs);
    WalkedStart(m, |slots|);
    while current < |slots| && count < |m|
      invariant current <= |slots| && count <= |m| && pos == CoffPosition(thin, slots, first, current)
      invariant Walked(m, count, current) && Narrow(offs[..count])
    {
      while count < |m| && m[count].member == current
        invariant count <= |m| && Walked(m, count, current) && Narrow(offs[..count])
        decreases |m| - count
      {
        RecordedAt(MapCoff, thin, slots, m, first, offs, count);
        NarrowOne(offs, count);
        if pos >= WORD32 {
          return false;
        }
        WalkedOne(m, count, current, |slots|);
        count := count + 1;
      }
      WalkedOn(m, count, current, |slots|);
      pos := pos + HDR;
      if !thin {
        pos := pos + slots[current].size;
        pos := Even(pos);
      }
      current := current + 1;
    }
    WalkedAll(m, count, current, |slots|);
    assert offs[..|m|] == offs;
    ok := true;
  }

  /** The inner loop of the BSD writer, from one member to the one the next symbol is in. */
  method NextBsd(slots: seq<Slot>, first: nat, from: nat, to: nat, pos: nat) returns (current: nat, firstReal: nat)
    requires from < to <= |slots| && pos == BsdPosition(slots, first, from)
    ensures current == to && firstReal == BsdPosition(slots, first, to)
  {
    current, firstReal := from, pos;
    while current != to
      invariant from <= current <= to && firstReal == BsdPosition(slots, first, current)
      decreases (to as int) - current
    {
      firstReal := firstReal + (slots[current].size + slots[current].extra + HDR);
      firstReal := firstReal + firstReal % 2;
      current := current + 1;
    }
  }

  /** The first pass of the BSD writer. */
  method BsdFits(slots: seq<Slot>, m: seq<Orl>, first: nat, big: bool, ghost offs: seq<nat>) returns (ok: bool)
    requires MapOk(m, |slots|) && |offs| == |m| && Recorded(MapBsd(big), false, slots, m, first, offs)
    ensures ok <==> Narrow(offs)
  {
    hide Even, MapOk, BsdPosition, Pairs, Recorded, Narrow;
    var firstReal := first;
    var current, lastElt := 0, 0;
    BsdStart(slots, first, big, m, offs);
    for count := 0 to |m|
      invariant current == lastElt == if count > 0 then m[count - 1].member else 0
      invariant current <= |slots| && firstReal == BsdPosition(slots, first, current)
      invariant Narrow(offs[..count])
    {
      InOrder(m, |slots|, count);
      if m[count].member != lastElt {
        current, firstReal := NextBsd(slots, first, current, m[count].member, firstReal);
      }
      RecordedAt(MapBsd(big), false, slots, m, first, offs, count);
      NarrowOne(offs, count);
      if firstReal >= WORD32 {
        return false;
      }
      lastElt := current;
    }
    assert offs[..|m|] == offs;
    ok := true;
  }

  /** offs are the positions a writer records. */
  predicate Recorded(kind: MapKind, thin: bool, slots: seq<Slot>, m: seq<Orl>, first: nat, offs: seq<nat>)
    requires |offs| == |m|
  {
    forall i :: 0 <= i < |m| ==>
      m[i].member <= |slots| && offs[i] == Reckoned(kind, thin, slots, first, m[i].member)
  }

  lemma InOrder(m: seq<Orl>, n: nat, i: nat)
    requires MapOk(m, n) && i < |m|
    ensures m[i].member < n && (i > 0 ==> m[i - 1].member <= m[i].member)
  {
  }

  lemma CoffSize(m: seq<Orl>)
    ensures MapSize(MapCoff, m) == 4 * |m| + 4 + StringsSize(m) + (4 * |m| + 4 + StringsSize(m)) % 2
    ensures (4 * |m| + 4 + StringsSize(m)) % 2 == StringsSize(m) % 2
  {
  }

  lemma BsdSize(m: seq<Orl>)
    ensures Even(StringsSize(m)) == StringsSize(m) + StringsSize(m) % 2
  {
  }

  lemma BsdJoin(big: bool, m: seq<Orl>, offs: seq<nat>)
    requires |offs| == |m|
    ensures BsdBody(big, m, offs) ==
            Put(big, 4, BSD_SYMDEF_SIZE * |m|) + Pairs(big, m, offs) + Put(big, 4, Even(StringsSize(m)))
            + (Strings(m) + Zeros(StringsSize(m) % 2))
  {
    hide Put, Pairs, Strings;
  }

  lemma JoinAll(f: Text, a: Text, b: Text, c: Text, d: Text)
    ensures f + a + b + c + d == f + (a + b + c + d)
    ensures f + a + b + (c + d) == f + (a + b + c + d) == f + a + (b + c + d)
    ensures c == [] && d == [] ==> f + a + b == f + (a + b)
  {
  }

  /** The symbols up to count are those of the members before current, or some of its own. */
  predicate Walked(m: seq<Orl>, count: nat, current: nat) {
    && count <= |m|
    && (forall i :: 0 <= i < count ==> m[i].member <= current)
    && (forall i :: count <= i < |m| ==> current <= m[i].member)
  }

  lemma WalkedStart(m: seq<Orl>, n: nat)
    requires MapOk(m, n)
    ensures Walked(m, 0, 0)
  {
  }

  lemma WalkedOne(m: seq<Orl>, count: nat, current: nat, n: nat)
    requires MapOk(m, n) && Walked(m, count, current) && count < |m| && m[count].member == current
    ensures Walked(m, count + 1, current)
  {
  }

  lemma WalkedOn(m: seq<Orl>, count: nat, current: nat, n: nat)
    requires MapOk(m, n) && Walked(m, count, current) && (count < |m| ==> m[count].member != current)
    ensures Walked(m, count, current + 1)
  {
  }

  lemma WalkedAll(m: seq<Orl>, count: nat, current: nat, n: nat)
    requires MapOk(m, n) && Walked(m, count, current) && (current >= n || count >= |m|)
    ensures count == |m|
  {
    if |m| > 0 {
      assert m[|m| - 1].member < n;
    }
  }

  lemma PairsOne(big: bool, m: seq<Orl>, offs: seq<nat>, k: nat)
    requires k < |m| == |offs|
    ensures Pairs(big, m[..k + 1], offs[..k + 1])
            == Pairs(big, m[..k], offs[..k]) + (Put(big, 4, m[k].namidx) + Put(big, 4, offs[k]))
  {
    assert m[..k + 1][..k] == m[..k] && offs[..k + 1][..k] == offs[..k];
  }

  lemma OffsetsNone(offs: seq<nat>)
    ensures Offsets(4, offs[..0]) == [] == Offsets(8, offs[..0]) && Narrow(offs[..0])
  {
  }

  lemma BsdStart(slots: seq<Slot>, first: nat, big: bool, m: seq<Orl>, offs: seq<nat>)
    ensures BsdPosition(slots, first, 0) == first && Pairs(big, m[..0], offs[..0]) == [] && Narrow(offs[..0])
  {
  }

  lemma NarrowOne(offs: seq<nat>, k: nat)
    requires k < |offs| && Narrow(offs[..k])
    ensures Narrow(offs[..k + 1]) <==> offs[k] < WORD32
    ensures offs[k] >= WORD32 ==> !Narrow(offs)
  {
  }

  lemma RecordedAt(kind: MapKind, thin: bool, slots: seq<Slot>, m: seq<Orl>, first: nat, offs: seq<nat>, i: nat)
    requires |offs| == |m| && Recorded(kind, thin, slots, m, first, offs) && i < |m|
    ensures m[i].member <= |slots| && offs[i] == Reckoned(kind, thin, slots, first, m[i].member)
  {
  }

  lemma OffsetsOne(w: nat, offs: seq<nat>, k: nat)
    requires k < |offs|
    ensures Offsets(w, offs[..k + 1]) == Offsets(w, offs[..k]) + Put(true, w, offs[k])
  {
    assert offs[..k + 1][..k] == offs[..k];
  }
}
