/**
  Opening what was written: the reader finds the map and the names again, unless the archive starts
  with a member that looks like one of them.
 */
module ArOpen {
  import opened Bytes
  import opened Ascii
  import opened ArHeader
  import opened ArNames
  import opened ArMap
  import opened ArMapWrite
  import opened ArMapRead
  import opened ArFile
  import opened ArWalk
  import opened ArRoundTrip

  // ----- the first sixteen characters -----

  /** A member whose name is not in the table. */
  predicate Direct(t: Target, m: Member) {
    t.style == Style.Bsd44 || !Tabled(t, m)
  }

  lemma ShortFieldAll(t: Target, ms: seq<Member>, k: nat)
    requires k < |ms| && MemberOk(ms[k]) && TargetOk(t) && Direct(t, ms[k]) && Extra(t, ms[k]) == 0
    requires |StoredName(t, ms[k])| < t.maxName
    ensures Field(t, ms, k) == SpacePad(StoredName(t, ms[k]) + [t.pad], 16)
  {
    var m := ms[k];
    if t.style == Style.Bsd44 {
      NotLong(t, m);
    } else {
      ShortFieldIs(t, m.name);
    }
    assert StoredName(t, m) == m.name;
  }

  lemma ShortFieldStarts(t: Target, ms: seq<Member>, k: nat)
    requires k < |ms| && MembersOk(ms) && TargetOk(t) && Direct(t, ms[k]) && Extra(t, ms[k]) == 0
    ensures var s := StoredName(t, ms[k]);
            var f := Field(t, ms, k);
            && 0 < |s| <= t.maxName && SLASH !in s
            && f[..|s|] == s && (|s| < t.maxName ==> f[|s|] == t.pad)
  {
    hide FreshField, ShortField, MembersOk;
    MemberOkAt(ms, k);
    var m := ms[k];
    var rest := Spaces(HDR - 16);
    if t.style == Style.Bsd44 {
      NotLong(t, m);
      FreshFieldForm(t, m.name, rest);
      assert StoredName(t, m) == m.name;
    } else {
      ShortFieldForm(t, m.name, rest);
    }
    var f := Field(t, ms, k);
    var s := StoredName(t, m);
    assert (f + rest)[..|s|] == f[..|s|];
  }

  /** A name of which the field is exactly that of a table or map. */
  lemma FieldIsWord(t: Target, ms: seq<Member>, k: nat, word: Text, after: byte)
    requires k < |ms| && MembersOk(ms) && TargetOk(t) && Direct(t, ms[k]) && Extra(t, ms[k]) == 0 && Readable(t, ms[k])
    requires 0 < |word| < 14 && SLASH !in word && SPACE !in word && (after == SLASH || after == SPACE)
    ensures Field(t, ms, k) == SpacePad(word + [after], 16) <==> StoredName(t, ms[k]) == word && t.pad == after
  {
    hide Field, StoredName, Extra, MembersOk, Tabled;
    MemberOkAt(ms, k);
    ShortFieldStarts(t, ms, k);
    var s := StoredName(t, ms[k]);
    var f := Field(t, ms, k);
    var g := SpacePad(word + [after], 16);
    if s == word && t.pad == after {
      ShortFieldAll(t, ms, k);
    }
    if f == g {
      WordEnds(t, s, f, word, after);
    }
  }

  lemma WordEnds(t: Target, s: Text, f: Text, word: Text, after: byte)
    requires TargetOk(t) && 0 < |s| <= t.maxName && SLASH !in s && Plain(t, s) && |f| == 16
    requires 0 < |word| < 14 && SLASH !in word && SPACE !in word && (after == SLASH || after == SPACE)
    requires f[..|s|] == s && (|s| < t.maxName ==> f[|s|] == t.pad) && f == SpacePad(word + [after], 16)
    ensures s == word && t.pad == after
  {
    var n := |word|;
    assert f[..n] == word;
    forall i | 0 <= i < n
      ensures f[i] == word[i] && f[i] != SLASH && f[i] != SPACE
    {
      assert f[..n][i] == word[i] && word[i] in word;
    }
    assert |s| >= n;
    forall i | 0 <= i < |s|
      ensures f[i] == s[i] && f[i] in s
    {
      assert f[..|s|][i] == s[i];
    }
    assert f[n] == after;
    assert |s| == n;
    assert f[..n] == s;
  }

  lemma ExtendedStarts(t: Target, ms: seq<Member>, k: nat)
    requires k < |ms| && MembersOk(ms) && TargetOk(t) && Extra(t, ms[k]) > 0 && SizeOk(t, ms[k])
    ensures Field(t, ms, k)[0] == 35
    ensures Field(t, ms, k) == MACHO_NAME <==> Extra(t, ms[k]) == 20
  {
    hide Extra, Decimal, Field, MembersOk;
    MemberOkAt(ms, k);
    BehindForm(t, ms, k, Spaces(HDR - 16));
    var f := Field(t, ms, k);
    var h := f + Spaces(HDR - 16);
    var extra := Extra(t, ms[k]);
    var d := Decimal(extra);
    assert f[0] == h[..3][0];
    ValueDecimal(extra);
    ValueDecimal(20);
    Twenty();
    if extra == 20 {
      TwentyField(t, ms, k);
    } else if f == MACHO_NAME {
      assert h[3..][0] == 50 && h[3..][1] == 48 && h[3..][2] == SPACE;
      DigitsEnd(d, h[3..]);
    }
  }

  lemma Twenty()
    ensures Decimal(20) == [50, 48]
  {
    assert Decimal(2) == [50];
  }

  lemma TwentyField(t: Target, ms: seq<Member>, k: nat)
    requires k < |ms| && MemberOk(ms[k]) && TargetOk(t) && Extra(t, ms[k]) == 20
    ensures Field(t, ms, k) == MACHO_NAME
  {
    Twenty();
    assert FreshField(t, ms[k].name)[t.maxName..] == Spaces(16 - t.maxName);
  }

  lemma DigitsEnd(d: Text, s: Text)
    requires |s| > 3 && 0 < |d| < |s| && d + s[|d|..] == s && s[|d|] == SPACE
    requires s[0] == 50 && s[1] == 48 && s[2] == SPACE && forall i :: 0 <= i < |d| ==> IsDigit(d[i])
    ensures d == [50, 48]
  {
    assert s[..|d|] == d;
    assert forall i :: 0 <= i < |d| ==> d[i] == s[i] && s[i] != SPACE;
    assert |d| == 2;
  }

  // ----- headers whose name is fixed -----

  /** Reading the header of a map or of the names, before there are names. */
  lemma PlainHeaderReads(file: Text, pos: nat, name: Text, meta: Text, body: Text, maxName: nat)
    requires maxName <= 16 && |name| == 16 && |meta| == 32 && |body| < MAX_SIZE && name[0] != 35
    requires SizePad(|body|).Some? && pos + HDR + |body| <= |file|
    requires file[pos..pos + HDR + |body|] == Header(name, meta, SizePad(|body|).value) + body
    ensures var r := ReadHdr(file, pos, None, maxName);
            && r.Some? && r.value.size == |body| && r.value.origin == pos + HDR
            && Content(file, r.value) == Some(body)
    ensures file[pos..pos + 16] == name
  {
    hide Extended, ShortName, ScanSize, Header, Bsd44Extended, Content, Strtol;
    var size := SizePad(|body|).value;
    var h := Header(name, meta, size);
    HeaderFields(name, meta, size);
    SizeReads(|body|);
    var whole := h + body;
    SliceSlice(file, pos, pos + |whole|, 0, HDR);
    SliceSlice(file, pos, pos + |whole|, 0, 16);
    SliceSlice(file, pos, pos + |whole|, HDR, |whole|);
    assert whole[0..HDR] == h && whole[HDR..|whole|] == body;
    assert whole[0..16] == h[..16];
    NotHash(h, name);
    ReadShort(file, pos, None, maxName, h, |body|);
    ContentIs(file, ReadHdr(file, pos, None, maxName).value, body);
  }

  lemma NotHash(h: Text, name: Text)
    requires |h| == HDR && |name| == 16 && h[..16] == name && name[0] != 35
    ensures !Bsd44Extended(h)
  {
    assert h[0] == h[..16][0];
    assert h[0] == h[..3][0];
  }

  lemma ContentIs(file: Text, e: Elt, body: Text)
    requires e.origin + |body| <= |file| && e.size == |body| && file[e.origin..e.origin + |body|] == body
    ensures Content(file, e) == Some(body)
  {
  }

  // ----- the names -----

  predicate LooksLikeTable(t: Target, m: Member) {
    Extra(t, m) == 0 && t.pad == SLASH && StoredName(t, m) == ARFILENAMES
  }

  predicate LooksLikeMap(f: Format, m: Member) {
    && !f.mapKind.MapWide?
    && if Extra(f.target, m) == 0 then StoredName(f.target, m) == SYMDEF
       else Extra(f.target, m) == 20 && SYMDEF <= m.name
  }

  /** The table of names is found and repaired. */
  lemma NamesFound(f: Format, file: Text, at: nat, table: Text)
    requires FormatOk(f) && table != [] && Even(|table|) < MAX_SIZE && at % 2 == 0
    requires at + |TableBytes(f.target, table)| <= |file|
    requires file[at..at + |TableBytes(f.target, table)|] == TableBytes(f.target, table)
    ensures SlurpNames(f, file, at) == Some((TableRead(f.target, table), at + |TableBytes(f.target, table)|))
    ensures file[at + 1] != SPACE && (file[at..at + 16] == SVR4_TABLE || file[at..at + 16] == BSD_TABLE)
  {
    hide Header, Repaired, ReadHdr, Content;
    var body := table + Newlines(|table| % 2);
    SizeFits(Even(|table|));
    TableParts(f.target, table);
    PlainHeaderReads(file, at, TableName(f.target), Spaces(32), body, f.target.maxName);
    assert file[at + 1] == file[at..at + 16][1];
  }

  lemma TableParts(t: Target, table: Text)
    requires table != [] && Even(|table|) < MAX_SIZE
    ensures SizePad(Even(|table|)).Some? && |table + Newlines(|table| % 2)| == Even(|table|)
    ensures TableBytes(t, table)
            == Header(TableName(t), Spaces(32), SizePad(Even(|table|)).value) + (table + Newlines(|table| % 2))
  {
    SizeFits(Even(|table|));
  }

  // ----- the first member -----

  /** What the start of a member's header can be taken for. */
  lemma FirstField(t: Target, ms: seq<Member>, k: nat, file: Text, at: nat)
    requires k < |ms| && MembersOk(ms) && TargetOk(t) && |ms[k].meta| == 32 && SizeOk(t, ms[k])
    requires Direct(t, ms[k]) && Readable(t, ms[k])
    requires at + |MemberBytes(t, ms, k)| <= |file| && file[at..at + |MemberBytes(t, ms, k)|] == MemberBytes(t, ms, k)
    ensures var name := file[at..at + 16];
            var m := ms[k];
            && name == Field(t, ms, k)
            && name[0] != SLASH
            && (name == BSD_TABLE <==> LooksLikeTable(t, m))
            && (name == BSD_NAME || name == OLD_NAME <==> Extra(t, m) == 0 && StoredName(t, m) == SYMDEF)
            && (name == MACHO_NAME <==> Extra(t, m) == 20)
  {
    hide Field, MembersOk, StoredName, Extra, Readable, Direct, MemberBytes, Tabled;
    var m := ms[k];
    FieldInFile(t, ms, k, file, at);
    if Extra(t, m) > 0 {
      ExtendedStarts(t, ms, k);
    } else {
      ShortFieldStarts(t, ms, k);
      var s := StoredName(t, m);
      assert Field(t, ms, k)[0] == s[0] && s[0] in s;
      FieldIsWord(t, ms, k, ARFILENAMES, SLASH);
      FieldIsWord(t, ms, k, SYMDEF, SLASH);
      FieldIsWord(t, ms, k, SYMDEF, SPACE);
      SymdefPadded();
      Hash(t, ms, k);
    }
  }

  lemma SymdefPadded()
    ensures SpacePad(SYMDEF + [SPACE], 16) == BSD_NAME
  {
  }

  /** A plain name is never taken for a BSD 4.4 one. */
  lemma Hash(t: Target, ms: seq<Member>, k: nat)
    requires k < |ms| && MembersOk(ms) && TargetOk(t) && Direct(t, ms[k]) && Extra(t, ms[k]) == 0 && Readable(t, ms[k])
    ensures Field(t, ms, k) != MACHO_NAME
  {
    hide Field, MembersOk, StoredName, Extra, Direct, Tabled, ShortForm, Bsd44Extended;
    var rest := Spaces(HDR - 16);
    DirectTabled(t, ms[k]);
    ShortReads(t, ms, k, rest);
    var h := Field(t, ms, k) + rest;
    if Field(t, ms, k) == MACHO_NAME {
      MachoIs44(h);
    }
  }

  lemma DirectTabled(t: Target, m: Member)
    requires Direct(t, m)
    ensures t.style != Style.Bsd44 ==> !Tabled(t, m)
  {
  }

  lemma MachoIs44(h: Text)
    requires |h| == HDR && h[..16] == MACHO_NAME
    ensures Bsd44Extended(h)
  {
    assert h[..3] == h[..16][..3] == BSD44;
    assert h[3] == h[..16][3];
  }

  lemma FieldInFile(t: Target, ms: seq<Member>, k: nat, file: Text, at: nat)
    requires k < |ms| && TargetOk(t) && |ms[k].meta| == 32 && SizeOk(t, ms[k])
    requires at + |MemberBytes(t, ms, k)| <= |file| && file[at..at + |MemberBytes(t, ms, k)|] == MemberBytes(t, ms, k)
    ensures file[at..at + 16] == Field(t, ms, k)
    ensures Extra(t, ms[k]) > 0 ==>
              Extra(t, ms[k]) >= |ms[k].name|
              && file[at + HDR..at + HDR + Extra(t, ms[k])] == ms[k].name + Zeros(Extra(t, ms[k]) - |ms[k].name|)
  {
    hide Field, Extra, Head;
    var m := ms[k];
    var b := MemberBytes(t, ms, k);
    HeadParts(t, ms, k);
    var h := Head(t, ms, k);
    SliceSlice(file, at, at + |b|, 0, 16);
    SliceSlice(file, at, at + |b|, HDR, HDR + Extra(t, m));
    assert b[0..16] == h[..HDR][..16];
    assert b[HDR..HDR + Extra(t, m)] == h[HDR..];
    if Extra(t, m) > 0 {
      ExtraRoom(t, m);
      HeadTail(t, ms, k);
    }
  }

  // ----- the map -----

  /** The list of symbols with the positions recorded for them. */
  function RecordedSymbols(f: Format, ms: seq<Member>, room: nat): seq<Carsym>
    requires MembersOk(ms)
  {
    var d := Dropped(ms);
    OrlsOk(ms, d);
    var m := Orls(ms, d);
    var slots := SlotsOf(f.target, ms, d);
    Symbols(m, ReckonedAll(Chosen(f.mapKind, false, slots, m, room), false, slots, m, room, |m|))
  }

  /** A map as its bytes say reads back, given that what follows is not a second one. */
  lemma MapFound(f: Format, file: Text, kind: MapKind, meta: Text, m: seq<Orl>, offs: seq<nat>, members: nat)
    requires FormatOk(f) && MapOk(m, members) && |offs| == |m| && |meta| == 32 && MapFits(m, 0)
    requires kind == MapWide || (kind == f.mapKind && Narrow(offs))
    requires forall i :: 0 <= i < |offs| ==> offs[i] < WORD64
    requires MapSize(kind, m) < MAX_SIZE && SARMAG + HDR + MapSize(kind, m) <= |file|
    requires file[SARMAG..SARMAG + HDR + MapSize(kind, m)] == MapMember(kind, meta, m, offs)
    requires MapSize(kind, m) % 2 == 0
    requires var next := SARMAG + HDR + MapSize(kind, m); next + 1 < |file| ==> file[next] != SLASH || file[next + 1] != SPACE
    ensures SlurpArmap(f, file) == Some(Some(Armap(Symbols(m, offs), SARMAG + HDR + MapSize(kind, m))))
  {
    hide MapOk, MapFits, Narrow, ReadHdr, SlurpBsd, SlurpWide, Symbols, MapBody, Header, BsdMapName, Content, SlurpArmap,
         MapSize, TargetOk, SecondMap, SizePad, MapName;
    SizeFits(MapSize(kind, m));
    NameStarts(kind);
    FormatRoom(f);
    PlainHeaderReads(file, SARMAG, MapName(kind), meta, MapBody(kind, m, offs), f.target.maxName);
    BodyReads(f, kind, m, offs, members);
    var e := ReadHdr(file, SARMAG, None, f.target.maxName).value;
    NoSecond(f, file, SARMAG + HDR + MapSize(kind, m));
    SlurpFound(f, file, kind, e, MapBody(kind, m, offs), Symbols(m, offs));
  }

  lemma NameStarts(kind: MapKind)
    ensures MapName(kind)[0] != 35
  {
    MapNames();
  }

  lemma FormatRoom(f: Format)
    requires FormatOk(f)
    ensures f.target.maxName <= 16
  {
  }

  /** Which reader the name of the first member leads to. */
  lemma SlurpFound(f: Format, file: Text, kind: MapKind, e: Elt, body: Text, syms: seq<Carsym>)
    requires FormatOk(f) && (kind == MapWide || kind == f.mapKind) && |file| >= SARMAG + HDR
    requires ReadHdr(file, SARMAG, None, f.target.maxName) == Some(e) && e.origin == SARMAG + HDR
    requires e.size == |body| && Content(file, e) == Some(body) && |body| % 2 == 0
    requires file[SARMAG..SARMAG + 16] == MapName(kind)
    requires SecondMap(f, file, e.origin + e.size) == e.origin + e.size
    requires match kind
             case MapBsd(_) => SlurpBsd(f.big, body) == Some(syms)
             case MapCoff => SlurpWide(4, body) == Some(syms)
             case MapWide => SlurpWide(8, body) == Some(syms)
    ensures SlurpArmap(f, file) == Some(Some(Armap(syms, e.origin + e.size)))
  {
    hide ReadHdr, SlurpBsd, SlurpWide, BsdMapName, Content, SecondMap;
    MapNames();
    IsBsdName(f, file);
  }

  lemma MapNames()
    ensures BSD_NAME[0] == 95 && COFF_NAME[0] == 47 && WIDE_NAME[0] == 47 && COFF_NAME[1] == SPACE && WIDE_NAME[1] == 83
    ensures COFF_NAME != WIDE_NAME && BSD_NAME != COFF_NAME && BSD_NAME != WIDE_NAME && MACHO_NAME[0] == 35
    ensures BSD_NAME != MACHO_NAME && OLD_NAME != MACHO_NAME
  {
  }

  lemma IsBsdName(f: Format, file: Text)
    requires |file| >= SARMAG + 16
    ensures file[SARMAG..SARMAG + 16] == BSD_NAME ==> BsdMapName(file)
  {
  }

  lemma NoSecond(f: Format, file: Text, at: nat)
    requires FormatOk(f) && (at + 1 < |file| ==> file[at] != SLASH || file[at + 1] != SPACE)
    ensures SecondMap(f, file, at) == at
  {
    hide ReadHdr;
  }

  lemma BodyReads(f: Format, kind: MapKind, m: seq<Orl>, offs: seq<nat>, members: nat)
    requires FormatOk(f) && MapOk(m, members) && |offs| == |m| && MapFits(m, 0)
    requires kind == MapWide || (kind == f.mapKind && Narrow(offs))
    requires forall i :: 0 <= i < |offs| ==> offs[i] < WORD64
    ensures match kind
            case MapBsd(_) => SlurpBsd(f.big, MapBody(kind, m, offs)) == Some(Symbols(m, offs))
            case MapCoff => SlurpWide(4, MapBody(kind, m, offs)) == Some(Symbols(m, offs))
            case MapWide => SlurpWide(8, MapBody(kind, m, offs)) == Some(Symbols(m, offs))
  {
    hide MapOk, SlurpBsd, SlurpWide, BsdBody, Offsets, Strings, Put, Symbols, Power256;
    Words();
    match kind
    case MapBsd(big) => BsdRoundTrip(big, m, offs, members);
    case MapCoff => WideRoundTrip(4, m, offs, members, StringsSize(m) % 2);
    case MapWide => WideRoundTrip(8, m, offs, members, Pad8(StringsSize(m) + 8 * |m| + 8));
  }

  // ----- opening -----

  /** The archive starts with a member that is taken for a table of names or a map. */
  predicate Mistaken(f: Format, ms: seq<Member>, withMap: bool, table: Text) {
    && table == [] && FirstMember(ms, withMap) < |ms|
    && (LooksLikeTable(f.target, ms[FirstMember(ms, withMap)])
        || (!withMap && LooksLikeMap(f, ms[FirstMember(ms, withMap)])))
  }

  /** What opening should find. */
  function Expected(f: Format, ms: seq<Member>, withMap: bool, table: Text, meta: Text): Ardata
    requires Ready(f, ms, withMap, table) && |meta| == 32
  {
    Ardata(withMap, if withMap then RecordedSymbols(f, ms, TableRoom(table)) else [], TableRead(f.target, table),
           |Front(f, ms, withMap, table, meta)|)
  }

  lemma AllDirect(f: Format, ms: seq<Member>, withMap: bool, k: nat)
    requires Ready(f, ms, withMap, []) && k < |ms|
    ensures Direct(f.target, ms[k])
  {
    hide MembersOk, Fits, MapFits, Orls;
    if f.target.style != Style.Bsd44 {
      NothingTabled(f.target, ms, |ms|);
    }
  }

  /** The parts of the file, one behind the other. */
  lemma FileParts(f: Format, ms: seq<Member>, withMap: bool, table: Text, meta: Text)
    requires Ready(f, ms, withMap, table) && |meta| == 32
    ensures withMap ==> MembersOk(ms) && MapFits(Orls(ms, Dropped(ms)), TableRoom(table))
    ensures Even(|table|) < MAX_SIZE
    ensures var file := Archive(f, ms, withMap, table, meta);
            var map0 := if withMap then MapPart(f, ms, TableRoom(table), meta) else [];
            var names := TableBytes(f.target, table);
            var at := SARMAG + |map0|;
            && at % 2 == 0 && at + |names| == |Front(f, ms, withMap, table, meta)| <= |file|
            && file[..SARMAG] == ARMAG && file[SARMAG..at] == map0 && file[at..at + |names|] == names
  {
    hide Ready, TableBytes, MapPart, Body, TableRoom, Front, Archive, FirstMember, MapFits, Orls, Even, Dropped;
    ReadyFits(f, ms, withMap, table);
    FrontEven(f, ms, withMap, table, meta);
    TableFits(f, ms, withMap, table);
    FileIs(f, ms, withMap, table, meta);
    FourParts(ARMAG, if withMap then MapPart(f, ms, TableRoom(table), meta) else [], TableBytes(f.target, table),
              Body(f.target, ms, FirstMember(ms, withMap), |ms|));
  }

  lemma FileIs(f: Format, ms: seq<Member>, withMap: bool, table: Text, meta: Text)
    requires Ready(f, ms, withMap, table) && |meta| == 32
    ensures withMap ==> MembersOk(ms) && MapFits(Orls(ms, Dropped(ms)), TableRoom(table))
    ensures Even(|table|) < MAX_SIZE && Fits(f.target, ms) && TargetOk(f.target)
    ensures Archive(f, ms, withMap, table, meta)
            == ARMAG + (if withMap then MapPart(f, ms, TableRoom(table), meta) else []) + TableBytes(f.target, table)
               + Body(f.target, ms, FirstMember(ms, withMap), |ms|)
  {
    hide TableBytes, MapPart, Body, TableRoom, MapFits, Orls, Even, Fits, MembersOk, TableLength, Filled;
  }

  lemma FourParts(a: Text, b: Text, c: Text, d: Text)
    ensures var s := a + b + c + d;
            s[..|a|] == a && s[|a|..|a| + |b|] == b && s[|a| + |b|..|a| + |b| + |c|] == c && |s| == |a| + |b| + |c| + |d|
  {
  }

  /** What stands right behind the front: nothing, or the first member. */
  lemma AfterFront(f: Format, ms: seq<Member>, withMap: bool, table: Text, meta: Text)
    requires Ready(f, ms, withMap, table) && |meta| == 32
    ensures var file := Archive(f, ms, withMap, table, meta);
            var at := |Front(f, ms, withMap, table, meta)|;
            var d := FirstMember(ms, withMap);
            if d == |ms| then |file| == at
            else
              && TargetOk(f.target) && |ms[d].meta| == 32 && SizeOk(f.target, ms[d])
              && at + |MemberBytes(f.target, ms, d)| <= |file|
              && file[at..at + |MemberBytes(f.target, ms, d)|] == MemberBytes(f.target, ms, d)
  {
    hide Ready, Front, FirstMember, MemberBytes, Archive;
    ReadyFits(f, ms, withMap, table);
    var d := FirstMember(ms, withMap);
    PlaceFirst(f, ms, withMap, table, meta);
    if d < |ms| {
      MemberAt(f, ms, withMap, table, meta, d);
      MemberLength(f.target, ms, d);
    } else {
      PlaceEnd(f, ms, withMap, table, meta);
    }
  }

  /** The names are found, or there are none and no member is taken for them. */
  lemma NamesStage(f: Format, ms: seq<Member>, withMap: bool, table: Text, meta: Text)
    requires Ready(f, ms, withMap, table) && |meta| == 32
    requires FirstMember(ms, withMap) < |ms| ==> Readable(f.target, ms[FirstMember(ms, withMap)])
    ensures FormatOk(f)
    ensures var file := Archive(f, ms, withMap, table, meta);
            var front := |Front(f, ms, withMap, table, meta)|;
            var d := FirstMember(ms, withMap);
            var r := SlurpNames(f, file, front - TableRoom(table));
            if table == [] && d < |ms| && LooksLikeTable(f.target, ms[d]) then r.None? || r.value.0.Some?
            else r == Some((TableRead(f.target, table), front))
  {
    hide Ready, Front, Archive, FirstMember, Readable, LooksLikeTable, SlurpNames, TargetOk, TableRead, Extra, StoredName;
    ReadyFormat(f, ms, withMap, table);
    if table != [] {
      NamesThere(f, ms, withMap, table, meta);
    } else {
      NamesNotThere(f, ms, withMap, meta);
      NothingRead(f.target);
    }
  }

  lemma NothingRead(t: Target)
    ensures TableRead(t, []) == None && TableRoom([]) == 0
  {
  }

  lemma NamesThere(f: Format, ms: seq<Member>, withMap: bool, table: Text, meta: Text)
    requires Ready(f, ms, withMap, table) && |meta| == 32 && table != []
    ensures FormatOk(f)
    ensures var file := Archive(f, ms, withMap, table, meta);
            var front := |Front(f, ms, withMap, table, meta)|;
            && TableRoom(table) + SARMAG <= front && front - TableRoom(table) + 1 < |file|
            && SlurpNames(f, file, front - TableRoom(table)) == Some((TableRead(f.target, table), front))
            && file[front - TableRoom(table) + 1] != SPACE
            && (file[front - TableRoom(table)..front - TableRoom(table) + 16] == SVR4_TABLE
                || file[front - TableRoom(table)..front - TableRoom(table) + 16] == BSD_TABLE)
  {
    hide Ready, Front, Archive, FirstMember, SlurpNames, TableRead, TableBytes, MapPart, TargetOk, MapFits, Orls, Even;
    ReadyFormat(f, ms, withMap, table);
    FileParts(f, ms, withMap, table, meta);
    TableFits(f, ms, withMap, table);
    NamesFound(f, Archive(f, ms, withMap, table, meta), |Front(f, ms, withMap, table, meta)| - TableRoom(table), table);
  }

  /** Without a table, what stands behind the front is the first member, if there is one. */
  lemma NamesNotThere(f: Format, ms: seq<Member>, withMap: bool, meta: Text)
    requires Ready(f, ms, withMap, []) && |meta| == 32
    requires FirstMember(ms, withMap) < |ms| ==> Readable(f.target, ms[FirstMember(ms, withMap)])
    ensures FormatOk(f)
    ensures var file := Archive(f, ms, withMap, [], meta);
            var at := |Front(f, ms, withMap, [], meta)|;
            var d := FirstMember(ms, withMap);
            && SARMAG <= at <= |file|
            && (d == |ms| ==> |file| == at)
            && (d < |ms| ==> at + 16 <= |file| && file[at] != SLASH)
            && var r := SlurpNames(f, file, at);
               if d < |ms| && LooksLikeTable(f.target, ms[d]) then r.None? || r.value.0.Some? else r == Some((None, at))
  {
    hide Ready, Front, Archive, FirstMember, MemberBytes, Readable, LooksLikeTable, TableBytes, Direct, SlurpNames, TargetOk,
         SizeOk, Extra, StoredName;
    ReadyFormat(f, ms, withMap, []);
    FileParts(f, ms, withMap, [], meta);
    AfterFront(f, ms, withMap, [], meta);
    var file := Archive(f, ms, withMap, [], meta);
    var front := |Front(f, ms, withMap, [], meta)|;
    NamesAbsent(f, file, front);
    var d := FirstMember(ms, withMap);
    if d < |ms| {
      AllDirect(f, ms, withMap, d);
      FirstField(f.target, ms, d, file, front);
      MemberSize(f.target, ms, d);
      assert file[front] == file[front..front + 16][0];
    }
  }

  /** Whether something is taken for the table of names depends on sixteen characters. */
  lemma NamesAbsent(f: Format, file: Text, at: nat)
    requires FormatOk(f) && at <= |file|
    ensures SVR4_TABLE[0] == SLASH
    ensures var r := SlurpNames(f, file, at);
            if at + 16 <= |file| && (file[at..at + 16] == BSD_TABLE || file[at..at + 16] == SVR4_TABLE)
            then r.None? || r.value.0.Some? else r == Some((None, at))
  {
    hide ReadHdr, Content, Repaired;
  }

  lemma MemberSize(t: Target, ms: seq<Member>, k: nat)
    requires k < |ms| && TargetOk(t) && |ms[k].meta| == 32 && SizeOk(t, ms[k])
    ensures |MemberBytes(t, ms, k)| >= HDR + Extra(t, ms[k])
  {
  }

  lemma ReadyFormat(f: Format, ms: seq<Member>, withMap: bool, table: Text)
    requires Ready(f, ms, withMap, table)
    ensures FormatOk(f) && MembersOk(ms)
  {
  }

  /** A 64-bit map's positions lie inside the file, so they fit. */
  lemma PositionsFit(f: Format, ms: seq<Member>, table: Text, meta: Text, i: nat)
    requires Ready(f, ms, true, table) && |meta| == 32 && |Archive(f, ms, true, table, meta)| < FILE_LIMIT
    requires i < |RecordedSymbols(f, ms, TableRoom(table))|
    ensures RecordedSymbols(f, ms, TableRoom(table))[i].offset < WORD64
  {
    hide Ready, MapFits, MapOk, Chosen, Front, Archive, Orls, SlotsOf, SlotsOk, Body, Position, Dropped, Narrow, TableRoom,
         ReckonedAll, RecordedSymbols, Within, Fits, TargetOk, MembersOk;
    ReadyParts(f, ms, true, table);
    var d := Dropped(ms);
    OrlsOk(ms, d);
    var m := Orls(ms, d);
    var slots := SlotsOf(f.target, ms, d);
    MapWithin(m, |slots|);
    RecordedIs(f, ms, TableRoom(table));
    var k := Chosen(f.mapKind, false, slots, m, TableRoom(table));
    NarrowOrWide(f.mapKind, slots, m, TableRoom(table));
    var offs := ReckonedAll(k, false, slots, m, TableRoom(table), |m|);
    if k == MapWide {
      var member := MemberOf(m, |slots|, i);
      FrontFirst(f, ms, table, meta);
      WideInside(f, ms, table, meta, member);
      ReckonedAt(k, slots, m, TableRoom(table), i);
    } else {
      NarrowAt(offs, i);
    }
  }

  lemma ReckonedAt(kind: MapKind, slots: seq<Slot>, m: seq<Orl>, room: nat, i: nat)
    requires Within(m, |slots|) && i < |m|
    ensures m[i].member < |slots|
    ensures ReckonedAll(kind, false, slots, m, room, |m|)[i]
            == Reckoned(kind, false, slots, First(MapSize(kind, m), room), m[i].member)
  {
    hide Reckoned, MapSize;
  }

  lemma WideInside(f: Format, ms: seq<Member>, table: Text, meta: Text, member: nat)
    requires Ready(f, ms, true, table) && |meta| == 32 && member <= |ms| - Dropped(ms)
    requires |Front(f, ms, true, table, meta)| % 2 == 0
    ensures Reckoned(MapWide, false, SlotsOf(f.target, ms, Dropped(ms)), |Front(f, ms, true, table, meta)|, member)
            <= |Archive(f, ms, true, table, meta)|
  {
    hide Ready, Front, Archive, SlotsOf, SlotsOk, Body, Position, Dropped, MembersOk, Fits;
    ReadyParts(f, ms, true, table);
    var d := Dropped(ms);
    var front := |Front(f, ms, true, table, meta)|;
    SlotsOfOk(f.target, ms, d);
    CoffExactly(false, SlotsOf(f.target, ms, d), front, member);
    BodyLength(f.target, ms, d, d + member, front);
    BodyGrows(f.target, ms, d, d + member, |ms|);
    ArchiveIs(f, ms, true, table, meta);
  }

  lemma NarrowOrWide(kind: MapKind, slots: seq<Slot>, m: seq<Orl>, room: nat)
    requires Within(m, |slots|)
    ensures var k := Chosen(kind, false, slots, m, room);
            k == MapWide || (k == kind && Narrow(ReckonedAll(k, false, slots, m, room, |m|)))
  {
    hide Narrow, ReckonedAll;
  }

  lemma FrontFirst(f: Format, ms: seq<Member>, table: Text, meta: Text)
    requires Ready(f, ms, true, table) && |meta| == 32
    ensures MembersOk(ms) && Within(Orls(ms, Dropped(ms)), |ms| - Dropped(ms))
    ensures var d := Dropped(ms);
            var m := Orls(ms, d);
            var k := Chosen(f.mapKind, false, SlotsOf(f.target, ms, d), m, TableRoom(table));
            |Front(f, ms, true, table, meta)| == First(MapSize(k, m), TableRoom(table)) && |Front(f, ms, true, table, meta)| % 2 == 0
  {
    hide Ready, MapFits, MapOk, Chosen, Front, Orls, SlotsOf, Dropped, TableRoom, MapBytes, MapSize;
    ReadyParts(f, ms, true, table);
    var d := Dropped(ms);
    OrlsOk(ms, d);
    MapWithin(Orls(ms, d), |ms| - d);
    FrontEven(f, ms, true, table, meta);
    TableFits(f, ms, true, table);
    FirstIs(f.mapKind, false, SlotsOf(f.target, ms, d), Orls(ms, d), TableRoom(table), meta);
  }

  lemma ArchiveIs(f: Format, ms: seq<Member>, withMap: bool, table: Text, meta: Text)
    requires Ready(f, ms, withMap, table) && |meta| == 32
    ensures TargetOk(f.target) && Fits(f.target, ms)
    ensures |Archive(f, ms, withMap, table, meta)|
            == |Front(f, ms, withMap, table, meta)| + |Body(f.target, ms, FirstMember(ms, withMap), |ms|)|
    ensures FirstMember(ms, withMap) == if withMap then Dropped(ms) else 0
  {
    hide Ready, Front, Body;
    ReadyFits(f, ms, withMap, table);
  }

  /** The map that was written is the map that is read. */
  lemma MapStage(f: Format, ms: seq<Member>, table: Text, meta: Text)
    requires Ready(f, ms, true, table) && |meta| == 32 && |Archive(f, ms, true, table, meta)| < FILE_LIMIT
    requires FirstMember(ms, true) < |ms| ==> Readable(f.target, ms[FirstMember(ms, true)])
    ensures FormatOk(f) && |Archive(f, ms, true, table, meta)| >= SARMAG
    ensures SlurpArmap(f, Archive(f, ms, true, table, meta))
            == Some(Some(Armap(RecordedSymbols(f, ms, TableRoom(table)), |Front(f, ms, true, table, meta)| - TableRoom(table))))
  {
    hide Ready, MapFits, MapOk, Chosen, Front, Archive, Orls, SlotsOf, Dropped, TableRoom, MapSize, MapMember, SlurpArmap,
         TargetOk, Readable, ReckonedAll, Narrow, TableBytes, RecordedSymbols, MapBytes, Within, MembersOk, Fits, MapPart,
         FirstMember, Symbols;
    ReadyFormat(f, ms, true, table);
    ReadyParts(f, ms, true, table);
    FileParts(f, ms, true, table, meta);
    TableFits(f, ms, true, table);
    var d := Dropped(ms);
    OrlsOk(ms, d);
    var m := Orls(ms, d);
    var slots := SlotsOf(f.target, ms, d);
    MapWithin(m, |slots|);
    var room := TableRoom(table);
    var k := Chosen(f.mapKind, false, slots, m, room);
    var offs := ReckonedAll(k, false, slots, m, room, |m|);
    NarrowOrWide(f.mapKind, slots, m, room);
    SizesFit(k, m, room);
    FitsLess(m, room);
    MapPartIs(f, ms, room, meta);
    RecordedIs(f, ms, room);
    forall i | 0 <= i < |offs|
      ensures offs[i] < WORD64
    {
      PositionsFit(f, ms, table, meta, i);
    }
    if table != [] {
      NamesThere(f, ms, true, table, meta);
    } else {
      NamesNotThere(f, ms, true, meta);
    }
    MapFound(f, Archive(f, ms, true, table, meta), k, meta, m, offs, |slots|);
  }

  lemma FitsLess(m: seq<Orl>, room: nat)
    requires MapFits(m, room)
    ensures MapFits(m, 0)
  {
  }

  lemma RecordedIs(f: Format, ms: seq<Member>, room: nat)
    requires MembersOk(ms)
    ensures var d := Dropped(ms);
            var m := Orls(ms, d);
            var slots := SlotsOf(f.target, ms, d);
            Within(m, |slots|)
            && RecordedSymbols(f, ms, room)
               == Symbols(m, ReckonedAll(Chosen(f.mapKind, false, slots, m, room), false, slots, m, room, |m|))
  {
    hide MembersOk, MapOk, Chosen, Orls, SlotsOf, Dropped, ReckonedAll;
    OrlsOk(ms, Dropped(ms));
    MapWithin(Orls(ms, Dropped(ms)), |ms| - Dropped(ms));
  }

  lemma MapPartIs(f: Format, ms: seq<Member>, room: nat, meta: Text)
    requires MembersOk(ms) && MapFits(Orls(ms, Dropped(ms)), room) && |meta| == 32
    ensures var d := Dropped(ms);
            var m := Orls(ms, d);
            var slots := SlotsOf(f.target, ms, d);
            Within(m, |slots|)
            && var k := Chosen(f.mapKind, false, slots, m, room);
            MapSize(k, m) < MAX_SIZE
            && MapPart(f, ms, room, meta) == MapMember(k, meta, m, ReckonedAll(k, false, slots, m, room, |m|))
  {
    hide MembersOk, MapOk, Chosen, Orls, SlotsOf, Dropped, ReckonedAll, MapMember, MapFits, MapSize;
    OrlsOk(ms, Dropped(ms));
    MapWithin(Orls(ms, Dropped(ms)), |ms| - Dropped(ms));
    SizesFit(Chosen(f.mapKind, false, SlotsOf(f.target, ms, Dropped(ms)), Orls(ms, Dropped(ms)), room), Orls(ms, Dropped(ms)), room);
  }

  /** Without a map none is found, unless the first member is taken for one. */
  lemma NoMapStage(f: Format, ms: seq<Member>, table: Text, meta: Text)
    requires Ready(f, ms, false, table) && |meta| == 32
    requires ms != [] ==> Readable(f.target, ms[0])
    ensures FormatOk(f) && |Archive(f, ms, false, table, meta)| >= SARMAG
    ensures var r := SlurpArmap(f, Archive(f, ms, false, table, meta));
            if table == [] && ms != [] && LooksLikeMap(f, ms[0]) then r.None? || r.value.Some? else r == Some(None)
  {
    hide Ready, Front, Archive, Readable, LooksLikeMap, LooksLikeTable, SlurpArmap, TargetOk, TableBytes, BsdMapName, StoredName,
         Extra, MemberBytes, Direct, SizeOk;
    ReadyFormat(f, ms, false, table);
    var file := Archive(f, ms, false, table, meta);
    FileParts(f, ms, false, table, meta);
    if table != [] {
      NamesThere(f, ms, false, table, meta);
      FrontAlone(f, ms, table, meta);
      TableNotMap(f, file);
    } else {
      NamesNotThere(f, ms, false, meta);
      NothingRead(f.target);
      FrontAlone(f, ms, table, meta);
      if ms != [] {
        AllDirect(f, ms, false, 0);
        AfterFront(f, ms, false, [], meta);
        FirstField(f.target, ms, 0, file, SARMAG);
        MemberSize(f.target, ms, 0);
        MemberNotMap(f, ms, file);
      } else {
        JustMagic(f, file);
      }
    }
  }

  lemma FrontAlone(f: Format, ms: seq<Member>, table: Text, meta: Text)
    requires Ready(f, ms, false, table) && |meta| == 32
    ensures |Front(f, ms, false, table, meta)| == SARMAG + TableRoom(table)
  {
    hide Ready, TableBytes;
    FrontEven(f, ms, false, table, meta);
  }

  lemma JustMagic(f: Format, file: Text)
    requires FormatOk(f) && |file| == SARMAG
    ensures SlurpArmap(f, file) == Some(None)
  {
  }

  lemma TableNotMap(f: Format, file: Text)
    requires FormatOk(f) && |file| >= SARMAG + 16
    requires file[SARMAG..SARMAG + 16] == SVR4_TABLE || file[SARMAG..SARMAG + 16] == BSD_TABLE
    ensures SlurpArmap(f, file) == Some(None)
  {
    hide ReadWideMap, ReadBsdMap;
    MapNames();
    assert SVR4_TABLE[1] == SLASH && BSD_TABLE[0] == 65;
    assert SVR4_TABLE[0] == SLASH && BSD_NAME[0] == 95 && OLD_NAME[0] == 95;
  }

  lemma MemberNotMap(f: Format, ms: seq<Member>, file: Text)
    requires FormatOk(f) && ms != [] && MemberOk(ms[0]) && SizeOk(f.target, ms[0])
    requires SARMAG + |MemberBytes(f.target, ms, 0)| <= |file|
    requires file[SARMAG..SARMAG + |MemberBytes(f.target, ms, 0)|] == MemberBytes(f.target, ms, 0)
    requires SARMAG + HDR + Extra(f.target, ms[0]) <= |file|
    requires var name := file[SARMAG..SARMAG + 16];
             var m := ms[0];
             && name[0] != SLASH
             && (name == BSD_NAME || name == OLD_NAME <==> Extra(f.target, m) == 0 && StoredName(f.target, m) == SYMDEF)
             && (name == MACHO_NAME <==> Extra(f.target, m) == 20)
    ensures var r := SlurpArmap(f, file);
            if LooksLikeMap(f, ms[0]) then r.None? || r.value.Some? else r == Some(None)
  {
    hide ReadWideMap, ReadBsdMap, Extra, StoredName, MemberBytes, SizeOk;
    MapNames();
    var m := ms[0];
    if Extra(f.target, m) == 20 {
      TwentyName(f, ms, file);
    }
  }

  lemma TwentyName(f: Format, ms: seq<Member>, file: Text)
    requires FormatOk(f) && ms != [] && MemberOk(ms[0]) && SizeOk(f.target, ms[0]) && Extra(f.target, ms[0]) == 20
    requires SARMAG + |MemberBytes(f.target, ms, 0)| <= |file| && SARMAG + HDR + 20 <= |file|
    requires file[SARMAG..SARMAG + |MemberBytes(f.target, ms, 0)|] == MemberBytes(f.target, ms, 0)
    ensures SYMDEF <= file[SARMAG + HDR..SARMAG + HDR + 20] <==> SYMDEF <= ms[0].name
  {
    hide MemberBytes, SizeOk, Extra;
    var m := ms[0];
    FieldInFile(f.target, ms, 0, file, SARMAG);
    ExtraName(f.target, m);
    PrefixOf(SYMDEF, m.name, Zeros(20 - |m.name|));
    assert file[SARMAG + HDR..SARMAG + HDR + 20] == m.name + Zeros(20 - |m.name|);
  }

  lemma ExtraName(t: Target, m: Member)
    requires Extra(t, m) == 20
    ensures 17 <= |m.name| <= 20
  {
  }

  lemma PrefixOf(w: Text, a: Text, b: Text)
    requires |w| <= |a|
    ensures w <= a + b <==> w <= a
  {
    assert (a + b)[..|w|] == a[..|w|];
  }

  /**
    Opening an archive that was written finds the map, the names and the first member as they were
    written, exactly when the archive does not start with a member taken for a map or for the names.
   */
  lemma OpensExactly(f: Format, ms: seq<Member>, withMap: bool, table: Text, meta: Text)
    requires Ready(f, ms, withMap, table) && |meta| == 32
    requires FirstMember(ms, withMap) < |ms| ==> Readable(f.target, ms[FirstMember(ms, withMap)])
    requires |Archive(f, ms, withMap, table, meta)| < FILE_LIMIT
    ensures FormatOk(f)
    ensures Open(f, Archive(f, ms, withMap, table, meta)) == Some(Expected(f, ms, withMap, table, meta))
            <==> !Mistaken(f, ms, withMap, table)
  {
    hide Ready, Front, Archive, Readable, LooksLikeMap, LooksLikeTable, SlurpArmap, SlurpNames, TargetOk, TableBytes, TableRead,
         RecordedSymbols, MapPart, MapFits, Orls, MembersOk, Even;
    ReadyFormat(f, ms, withMap, table);
    FileParts(f, ms, withMap, table, meta);
    NamesStage(f, ms, withMap, table, meta);
    if withMap {
      MapStage(f, ms, table, meta);
    } else {
      NoMapStage(f, ms, table, meta);
      FrontAlone(f, ms, table, meta);
    }
    NothingRead(f.target);
  }

  // ----- the whole round trip -----

  /** Write, open, walk: the members come back in order, each with its name and its bytes. */
  lemma ArchiveRoundTrip(f: Format, ms: seq<Member>, withMap: bool, table: Text, meta: Text)
    requires Ready(f, ms, withMap, table) && |meta| == 32 && !Mistaken(f, ms, withMap, table)
    requires forall j :: FirstMember(ms, withMap) <= j < |ms| ==> Readable(f.target, ms[j])
    requires |Archive(f, ms, withMap, table, meta)| < FILE_LIMIT
    ensures FormatOk(f) && f.target.maxName <= 16
    ensures var file := Archive(f, ms, withMap, table, meta);
            var a := Open(f, file);
            var d := FirstMember(ms, withMap);
            && a.Some? && a.value.hasMap == withMap
            && var es := Walk(file, a.value.names, f.target.maxName, a.value.first);
            && |es| == |ms| - d
            && forall i :: 0 <= i < |es| ==>
                 && es[i].name == StoredName(f.target, ms[d + i])
                 && es[i].origin + es[i].size <= |file|
                 && file[es[i].origin..es[i].origin + es[i].size] == ms[d + i].content
  {
    hide Ready, Front, Archive, Readable, Open, Walk, StoredName, Mistaken, TargetOk, TableRead, RecordedSymbols;
    OpensExactly(f, ms, withMap, table, meta);
    WriteThenWalk(f, ms, withMap, table, meta);
  }

  lemma {:induction false} CollectedFrom(syms: seq<seq<Symbol>>, n: nat, i: nat)
    requires n <= |syms| && i < |Collected(syms, n)|
    ensures var o := Collected(syms, n)[i]; o.member < n && ExportsName(syms[o.member], o.name)
  {
    hide ExportsName;
    if n > 0 {
      CollectedInFrom(Collected(syms, n - 1), n - 1, syms[n - 1], |syms[n - 1]|, i);
      if i < |Collected(syms, n - 1)| {
        CollectedFrom(syms, n - 1, i);
      }
    }
  }

  predicate ExportsName(syms: seq<Symbol>, name: Text) {
    exists j :: 0 <= j < |syms| && Exported(syms[j]) && syms[j].name == name
  }

  lemma {:induction false} CollectedInFrom(m: seq<Orl>, member: nat, syms: seq<Symbol>, k: nat, i: nat)
    requires k <= |syms| && i < |CollectedIn(m, member, syms, k)|
    ensures |m| <= |CollectedIn(m, member, syms, k)|
    ensures var o := CollectedIn(m, member, syms, k)[i];
            if i < |m| then o == m[i] else o.member == member && ExportsName(syms, o.name)
  {
    if k > 0 {
      ListedIn(m, member, syms, k - 1);
      if i < |CollectedIn(m, member, syms, k - 1)| {
        CollectedInFrom(m, member, syms, k - 1, i);
      }
    }
  }

  /** What an archive that is opened gives for a symbol of the map: the element at the position is member k. */
  predicate LeadsTo(f: Format, ms: seq<Member>, table: Text, meta: Text, i: nat, name: Text, k: nat)
    requires Ready(f, ms, true, table) && |meta| == 32 && FormatOk(f) && f.target.maxName <= 16 && k < |ms|
  {
    var file := Archive(f, ms, true, table, meta);
    var a := Open(f, file);
    && a.Some? && i < |a.value.symdefs| && a.value.symdefs[i].name == name
    && var r := ReadHdr(file, a.value.symdefs[i].offset, a.value.names, f.target.maxName);
    && r.Some? && r.value.origin + r.value.size <= |file| && r.value.name == StoredName(f.target, ms[k])
    && file[r.value.origin..r.value.origin + r.value.size] == ms[k].content
  }

  lemma IndexLeads(f: Format, ms: seq<Member>, table: Text, meta: Text, i: nat)
    requires Ready(f, ms, true, table) && |meta| == 32 && i < |Index(f, ms, table)|
    requires |Archive(f, ms, true, table, meta)| < FILE_LIMIT && !Mistaken(f, ms, true, table)
    requires forall j :: Dropped(ms) <= j < |ms| ==> Readable(f.target, ms[j])
    requires ChosenBsd(f, ms, table) || forall j :: Dropped(ms) <= j < |ms| ==> Extra(f.target, ms[j]) == 0
    ensures FormatOk(f) && f.target.maxName <= 16
    ensures var (name, k, _) := Index(f, ms, table)[i];
            && Dropped(ms) <= k < |ms| && ExportsName(ms[k].syms, name) && LeadsTo(f, ms, table, meta, i, name, k)
  {
    hide Ready, Front, Archive, Readable, Open, ReadHdr, StoredName, Mistaken, TargetOk, TableRead, RecordedSymbols, Index,
         ChosenBsd, Extra, Dropped, Found, Body, ExportsName;
    OpensExactly(f, ms, true, table, meta);
    SymbolPointsAtMember(f, ms, table, meta, i);
    var (name, k, pos) := Index(f, ms, table)[i];
    IndexSymbol(f, ms, table, i);
    MemberFound(f, ms, true, table, meta, k);
    PlaceIs(f, ms, table, meta, k);
    FoundContent(f, ms, true, table, meta, k);
  }

  /**
    Looking a symbol of the map up: the element at the position it gives is a member that exports
    it, with that member's name and bytes. No name may follow a header before that member, unless the
    map is a BSD one.
   */
  lemma SymbolFindsMember(f: Format, ms: seq<Member>, table: Text, meta: Text, i: nat)
    requires Ready(f, ms, true, table) && |meta| == 32 && i < |Index(f, ms, table)|
    requires |Archive(f, ms, true, table, meta)| < FILE_LIMIT && !Mistaken(f, ms, true, table)
    requires forall j :: Dropped(ms) <= j < |ms| ==> Readable(f.target, ms[j])
    requires ChosenBsd(f, ms, table) || forall j :: Dropped(ms) <= j < |ms| ==> Extra(f.target, ms[j]) == 0
    ensures FormatOk(f) && f.target.maxName <= 16
    ensures exists k, name :: Dropped(ms) <= k < |ms| && ExportsName(ms[k].syms, name) && LeadsTo(f, ms, table, meta, i, name, k)
  {
    hide Ready, Archive, Readable, Mistaken, Index, ChosenBsd, Extra, Dropped, LeadsTo, ExportsName;
    IndexLeads(f, ms, table, meta, i);
    var (name, k, _) := Index(f, ms, table)[i];
    assert Dropped(ms) <= k < |ms| && ExportsName(ms[k].syms, name) && LeadsTo(f, ms, table, meta, i, name, k);
  }

  /** How many symbols of the map stand before symbol j of member k, and how many there are. */
  function PlaceInMap(ms: seq<Member>, k: nat, j: nat): nat
    requires Dropped(ms) <= k < |ms| && j <= |ms[k].syms|
  {
    CountAll(SymsOf(ms, Dropped(ms)), k - Dropped(ms)) + Count(ms[k].syms, j)
  }

  function MapLength(ms: seq<Member>): nat {
    CountAll(SymsOf(ms, Dropped(ms)), |ms| - Dropped(ms))
  }

  predicate MapHas(f: Format, ms: seq<Member>, table: Text, meta: Text, n: nat)
    requires Ready(f, ms, true, table) && |meta| == 32 && FormatOk(f)
  {
    var a := Open(f, Archive(f, ms, true, table, meta));
    a.Some? && |a.value.symdefs| == n
  }

  /**
    And every symbol that a member exports is found so: the map read back has one entry for each, in
    the order of the members and of their symbols, and the entry leads to the member.
   */
  lemma SymbolListed(f: Format, ms: seq<Member>, table: Text, meta: Text, k: nat, j: nat)
    requires Ready(f, ms, true, table) && |meta| == 32
    requires Dropped(ms) <= k < |ms| && j < |ms[k].syms| && Exported(ms[k].syms[j])
    requires |Archive(f, ms, true, table, meta)| < FILE_LIMIT && !Mistaken(f, ms, true, table)
    requires forall j :: Dropped(ms) <= j < |ms| ==> Readable(f.target, ms[j])
    requires ChosenBsd(f, ms, table) || forall j :: Dropped(ms) <= j < |ms| ==> Extra(f.target, ms[j]) == 0
    ensures FormatOk(f) && f.target.maxName <= 16
    ensures LeadsTo(f, ms, table, meta, PlaceInMap(ms, k, j), ms[k].syms[j].name, k)
    ensures MapHas(f, ms, table, meta, MapLength(ms))
  {
    hide Ready, Archive, Readable, Mistaken, Index, ChosenBsd, Extra, Dropped, Exported, LeadsTo, PlaceInMap, MapHas, FormatOk;
    IndexCount(f, ms, table, k, j);
    IndexLeads(f, ms, table, meta, PlaceInMap(ms, k, j));
    MapCounted(f, ms, table, meta);
  }

  lemma MapCounted(f: Format, ms: seq<Member>, table: Text, meta: Text)
    requires Ready(f, ms, true, table) && |meta| == 32
    requires |Archive(f, ms, true, table, meta)| < FILE_LIMIT && !Mistaken(f, ms, true, table)
    requires FirstMember(ms, true) < |ms| ==> Readable(f.target, ms[FirstMember(ms, true)])
    ensures FormatOk(f) && MapHas(f, ms, table, meta, MapLength(ms))
  {
    hide Ready, Archive, Readable, Mistaken, Dropped, FormatOk, MapLength, RecordedSymbols, Open;
    OpensExactly(f, ms, true, table, meta);
    SymdefCount(f, ms, table);
  }

  lemma IndexCount(f: Format, ms: seq<Member>, table: Text, k: nat, j: nat)
    requires Ready(f, ms, true, table) && Dropped(ms) <= k < |ms| && j < |ms[k].syms| && Exported(ms[k].syms[j])
    ensures var i := PlaceInMap(ms, k, j);
            i < |Index(f, ms, table)| && Index(f, ms, table)[i].0 == ms[k].syms[j].name && Index(f, ms, table)[i].1 == k
  {
    hide Ready, MapOk, MapFits, Chosen, ReckonedAll, SlotsOf, Dropped, Collected, Exported, Count, CountAll;
    ReadyParts(f, ms, true, table);
    var d := Dropped(ms);
    OrlsOk(ms, d);
    MapListed(SymsOf(ms, d), |ms| - d, k - d, j);
  }

  lemma SymdefCount(f: Format, ms: seq<Member>, table: Text)
    requires Ready(f, ms, true, table)
    ensures MembersOk(ms) && MapFits(Orls(ms, Dropped(ms)), TableRoom(table)) && FormatOk(f)
    ensures |RecordedSymbols(f, ms, TableRoom(table))| == MapLength(ms)
  {
    hide MapOk, MapFits, Chosen, ReckonedAll, SlotsOf, Dropped, Collected, CountAll;
    var d := Dropped(ms);
    OrlsOk(ms, d);
    CollectedCount(SymsOf(ms, d), |ms| - d);
  }

  lemma PlaceIs(f: Format, ms: seq<Member>, table: Text, meta: Text, k: nat)
    requires Ready(f, ms, true, table) && |meta| == 32 && Dropped(ms) <= k <= |ms|
    ensures TargetOk(f.target) && Fits(f.target, ms)
    ensures PlaceOf(f, ms, true, table, meta, k)
            == |Front(f, ms, true, table, meta)| + |Body(f.target, ms, Dropped(ms), k)|
  {
    hide Ready, Front, Body, Dropped;
    ReadyFits(f, ms, true, table);
  }

  lemma IndexSymbol(f: Format, ms: seq<Member>, table: Text, i: nat)
    requires Ready(f, ms, true, table) && i < |Index(f, ms, table)|
    ensures MembersOk(ms) && i < |RecordedSymbols(f, ms, TableRoom(table))|
    ensures var (name, k, pos) := Index(f, ms, table)[i];
            RecordedSymbols(f, ms, TableRoom(table))[i] == Carsym(name, pos) && Dropped(ms) <= k < |ms| && ExportsName(ms[k].syms, name)
  {
    hide Ready, MapOk, Chosen, ReckonedAll, SlotsOf, Dropped, TableRoom, Collected;
    ReadyFormat(f, ms, true, table);
    var d := Dropped(ms);
    OrlsOk(ms, d);
    CollectedFrom(SymsOf(ms, d), |ms| - d, i);
  }
}
