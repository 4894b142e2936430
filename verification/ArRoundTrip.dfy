/**
  Write then read: an archive that was written opens with the map and the names it was given, and
  the walk over it finds its members in order, with their names and exactly their bytes.
 */
module ArRoundTrip {
  import opened Bytes
  import opened Ascii
  import opened ArHeader
  import opened ArNames
  import opened ArMap
  import opened ArMapWrite
  import opened ArMapRead
  import opened ArFile
  import opened ArWalk

  /** The name a member has in the archive: whole, or cut off in traditional format. */
  function StoredName(t: Target, m: Member): Text {
    if Extra(t, m) > 0 then m.name else m.name[..KeptLength(t, m.name)]
  }

  /** Whether the reader can tell the name from what the format puts around it. */
  predicate Readable(t: Target, m: Member) {
    Extra(t, m) > 0 || if t.style != Style.Bsd44 && Tabled(t, m) then Printable(m.name) else Plain(t, StoredName(t, m))
  }

  /** The names the reader has, when table is what was written. */
  function TableRead(t: Target, table: Text): Option<Text> {
    if table == [] then None else Some(Repaired(table + Newlines(|table| % 2)))
  }

  predicate TableOk(t: Target, ms: seq<Member>, table: Text) {
    && MembersOk(ms) && TargetOk(t) && |table| < MAX_SIZE && |table| == TableLength(t, ms)
    && (t.style != Style.Bsd44 ==> Filled(t, ms, |ms|).table <= table)
  }

  /** What follows the name in a header. */
  function Behind16(m: Member, size: nat): (s: Text)
    requires |m.meta| == 32 && size < MAX_SIZE
    ensures |s| == HDR - 16
  {
    SizeFits(size);
    m.meta + SizePad(size).value + ARFMAG
  }

  lemma HeadParts(t: Target, ms: seq<Member>, k: nat)
    requires k < |ms| && TargetOk(t) && |ms[k].meta| == 32 && SizeOk(t, ms[k])
    ensures var m := ms[k];
            var size := |m.content| + Extra(t, m);
            var h := Head(t, ms, k)[..HDR];
            && h == Field(t, ms, k) + Behind16(m, size)
            && h[58..60] == ARFMAG && ScanSize(h[48..58]) == Some(size)
  {
    hide Field, Extra;
    var m := ms[k];
    var size := |m.content| + Extra(t, m);
    SizeFits(size);
    SizeReads(size);
    HeaderFields(Field(t, ms, k), m.meta, SizePad(size).value);
  }

  // ----- reading one header -----

  /** A name that is kept in the header. */
  lemma ShortReads(t: Target, ms: seq<Member>, k: nat, rest: Text)
    requires k < |ms| && MembersOk(ms) && TargetOk(t) && |rest| == HDR - 16
    requires Extra(t, ms[k]) == 0 && (t.style != Style.Bsd44 ==> !Tabled(t, ms[k])) && Readable(t, ms[k])
    ensures var h := Field(t, ms, k) + rest;
            !Extended(h, t.maxName) && !Bsd44Extended(h) && ShortName(h, t.maxName) == StoredName(t, ms[k])
  {
    hide ShortName, Extended, Bsd44Extended, FreshField, ShortField, MembersOk, ShortForm, Plain;
    MemberOkAt(ms, k);
    var m := ms[k];
    var h := Field(t, ms, k) + rest;
    if t.style == Style.Bsd44 {
      NotLong(t, m);
      FreshFieldForm(t, m.name, rest);
      assert StoredName(t, m) == m.name;
    } else {
      ShortFieldForm(t, m.name, rest);
    }
    ShortFormReads(t, h, StoredName(t, m));
    ShortNotExtended(t, h, StoredName(t, m));
  }

  lemma MemberOkAt(ms: seq<Member>, k: nat)
    requires MembersOk(ms) && k < |ms|
    ensures MemberOk(ms[k])
  {
  }

  lemma NotLong(t: Target, m: Member)
    requires t.style == Style.Bsd44 && m.name != [] && Extra(t, m) == 0
    ensures |m.name| <= t.maxName && SPACE !in m.name
  {
  }

  /** A name in the table. */
  lemma TabledReads(t: Target, ms: seq<Member>, k: nat, table: Text, rest: Text)
    requires k < |ms| && TableOk(t, ms, table) && |rest| == HDR - 16
    requires t.style != Style.Bsd44 && Tabled(t, ms[k]) && Readable(t, ms[k])
    ensures var h := Field(t, ms, k) + rest;
            var names := TableRead(t, table);
            && Extended(h, t.maxName) && names.Some?
            && 0 <= Strtol(h[1..]) < |names.value| - 1
            && CString(names.value, Strtol(h[1..])) == StoredName(t, ms[k])
  {
    hide Extended, Strtol, CString, FreshField, LongField, Repaired, MembersOk, Filled, TableSize, Entry;
    MemberOkAt(ms, k);
    var padded := table + Newlines(|table| % 2);
    TableRoundTrip(t, ms, k, padded);
    TableRoundTrip(t, ms, k, table);
    LongFieldReads(t, ms[k].name, OffsetOf(t, ms, k), rest);
    assert ms[k].name[..|ms[k].name|] == ms[k].name;
  }

  /** A name behind the header. */
  lemma BehindReads(t: Target, ms: seq<Member>, k: nat, rest: Text)
    requires k < |ms| && MembersOk(ms) && TargetOk(t) && |rest| == HDR - 16
    requires Extra(t, ms[k]) > 0 && SizeOk(t, ms[k])
    ensures var h := Field(t, ms, k) + rest;
            !Extended(h, t.maxName) && Bsd44Extended(h) && Strtol(h[3..]) == Extra(t, ms[k])
    ensures Extra(t, ms[k]) >= |ms[k].name|
    ensures CString(ms[k].name + Zeros(Extra(t, ms[k]) - |ms[k].name|), 0) == ms[k].name
  {
    hide FreshField, Strtol, Scan, Extra, Field, Decimal, CString;
    MemberOkAt(ms, k);
    var m := ms[k];
    var extra := Extra(t, m);
    var h := Field(t, ms, k) + rest;
    BehindForm(t, ms, k, rest);
    StrtolDecimal(extra, h[3 + |Decimal(extra)|..]);
    ExtraRoom(t, m);
    var padded := m.name + Zeros(extra - |m.name|);
    assert padded[0..|m.name|] == m.name;
    CStringIs(padded, 0, m.name);
  }

  lemma BehindForm(t: Target, ms: seq<Member>, k: nat, rest: Text)
    requires k < |ms| && TargetOk(t) && |rest| == HDR - 16 && Extra(t, ms[k]) > 0 && SizeOk(t, ms[k])
    ensures var h := Field(t, ms, k) + rest;
            var d := Decimal(Extra(t, ms[k]));
            && |d| <= 10 && h[..3] == BSD44 && IsDigit(h[3]) && h[3..] == d + h[3 + |d|..] && h[3 + |d|] == SPACE
            && h[0] != SLASH && h[0] != SPACE
  {
    hide FreshField, Decimal;
    var extra := Extra(t, ms[k]);
    DecimalLength(extra, 10);
    Pow10Size();
    var d := Decimal(extra);
    ExtraRoom(t, ms[k]);
    var h := Field(t, ms, k) + rest;
    var f := SpacePad(BSD44 + d, t.maxName);
    forall i | 0 <= i < t.maxName
      ensures h[i] == f[i] == if i < 3 + |d| then (BSD44 + d)[i] else SPACE
    {
    }
    assert h[..3] == BSD44;
    assert h[3..3 + |d|] == d;
  }

  lemma StrtolDecimal(n: nat, rest: Text)
    requires rest != [] ==> !IsDigit(rest[0])
    ensures Strtol(Decimal(n) + rest) == n
  {
    ScanDecimal(n, rest);
  }

  /** Reading at the start of a member gives its name, its size and where its bytes are. */
  lemma MemberReads(file: Text, pos: nat, t: Target, ms: seq<Member>, k: nat, table: Text)
    requires k < |ms| && TableOk(t, ms, table) && |ms[k].meta| == 32 && SizeOk(t, ms[k]) && Readable(t, ms[k])
    requires pos + |MemberBytes(t, ms, k)| <= |file|
    requires file[pos..pos + |MemberBytes(t, ms, k)|] == MemberBytes(t, ms, k)
    ensures var m := ms[k];
            var start := pos + HDR + Extra(t, m);
            && ReadHdr(file, pos, TableRead(t, table), t.maxName) == Some(Elt(StoredName(t, m), |m.content|, Extra(t, m), start))
            && file[start..start + |m.content|] == m.content
  {
    hide Field, Extended, Bsd44Extended, Strtol, CString, ShortName, Repaired, MembersOk, Head, Extra, Readable, TableOk,
         Decimal, StoredName, TableRead, Scan, ScanSize;
    TableOkParts(t, ms, table);
    var m := ms[k];
    var size := |m.content| + Extra(t, m);
    HeadParts(t, ms, k);
    var head := Head(t, ms, k);
    var h := head[..HDR];
    var rest := Behind16(m, size);
    Inside(file, pos, head, m.content, Newlines(|m.content| % 2));
    SliceSlice(file, pos, pos + |head|, 0, HDR);
    SliceSlice(file, pos, pos + |head|, HDR, |head|);
    assert head[0..HDR] == h && head[HDR..|head|] == head[HDR..];
    if Extra(t, m) > 0 {
      BehindReads(t, ms, k, rest);
      HeadTail(t, ms, k);
      assert file[pos + HDR..pos + HDR + Extra(t, m)] == head[HDR..];
      StoredWhole(t, m);
      ReadBehind(file, pos, TableRead(t, table), t.maxName, h, size, Extra(t, m));
    } else if t.style != Style.Bsd44 && Tabled(t, m) {
      TabledReads(t, ms, k, table, rest);
      ReadTabled(file, pos, TableRead(t, table), t.maxName, h, size);
    } else {
      ShortReads(t, ms, k, rest);
      ReadShort(file, pos, TableRead(t, table), t.maxName, h, size);
    }
  }

  lemma TableOkParts(t: Target, ms: seq<Member>, table: Text)
    requires TableOk(t, ms, table)
    ensures MembersOk(ms) && TargetOk(t)
  {
  }

  lemma StoredWhole(t: Target, m: Member)
    requires Extra(t, m) > 0
    ensures StoredName(t, m) == m.name
  {
  }

  lemma Inside(file: Text, pos: nat, a: Text, b: Text, c: Text)
    requires pos + |a + b + c| <= |file| && file[pos..pos + |a + b + c|] == a + b + c
    ensures file[pos..pos + |a|] == a && file[pos + |a|..pos + |a| + |b|] == b
  {
    var s := a + b + c;
    SliceSlice(file, pos, pos + |s|, 0, |a|);
    SliceSlice(file, pos, pos + |s|, |a|, |a| + |b|);
    assert s[0..|a|] == a && s[|a|..|a| + |b|] == b;
  }

  lemma HeadTail(t: Target, ms: seq<Member>, k: nat)
    requires k < |ms| && TargetOk(t) && |ms[k].meta| == 32 && SizeOk(t, ms[k]) && Extra(t, ms[k]) > 0
    requires Extra(t, ms[k]) >= |ms[k].name|
    ensures Head(t, ms, k)[HDR..] == ms[k].name + Zeros(Extra(t, ms[k]) - |ms[k].name|)
  {
    hide Field, Extra;
    SizeFits(|ms[k].content| + Extra(t, ms[k]));
  }

  lemma ReadBehind(file: Text, pos: nat, names: Option<Text>, maxName: nat, h: Text, size: nat, n: nat)
    requires maxName <= 16 && pos + HDR <= |file| && h == file[pos..pos + HDR] && h[58..60] == ARFMAG
    requires ScanSize(h[48..58]) == Some(size) && !Extended(h, maxName) && Bsd44Extended(h) && Strtol(h[3..]) == n
    requires n <= size && pos + HDR + n <= |file|
    ensures ReadHdr(file, pos, names, maxName)
            == Some(Elt(CString(file[pos + HDR..pos + HDR + n], 0), size - n, n, pos + HDR + n))
  {
  }

  lemma ReadTabled(file: Text, pos: nat, names: Option<Text>, maxName: nat, h: Text, size: nat)
    requires maxName <= 16 && pos + HDR <= |file| && h == file[pos..pos + HDR] && h[58..60] == ARFMAG
    requires ScanSize(h[48..58]) == Some(size) && Extended(h, maxName) && names.Some?
    requires 0 <= Strtol(h[1..]) < |names.value| - 1
    ensures ReadHdr(file, pos, names, maxName) == Some(Elt(CString(names.value, Strtol(h[1..])), size, 0, pos + HDR))
  {
  }

  lemma ReadShort(file: Text, pos: nat, names: Option<Text>, maxName: nat, h: Text, size: nat)
    requires maxName <= 16 && pos + HDR <= |file| && h == file[pos..pos + HDR] && h[58..60] == ARFMAG
    requires ScanSize(h[48..58]) == Some(size) && (names.None? || !Extended(h, maxName)) && !Bsd44Extended(h)
    ensures ReadHdr(file, pos, names, maxName) == Some(Elt(ShortName(h, maxName), size, 0, pos + HDR))
  {
  }

  // ----- the walk -----

  /** The element the walk finds for member k of the archive. */
  function Found(f: Format, ms: seq<Member>, withMap: bool, table: Text, meta: Text, k: nat): Elt
    requires Ready(f, ms, withMap, table) && |meta| == 32 && FirstMember(ms, withMap) <= k < |ms|
  {
    var m := ms[k];
    var pos := |Front(f, ms, withMap, table, meta)| + |Body(f.target, ms, FirstMember(ms, withMap), k)|;
    Elt(StoredName(f.target, m), |m.content|, Extra(f.target, m), pos + HDR + Extra(f.target, m))
  }

  function FoundFrom(f: Format, ms: seq<Member>, withMap: bool, table: Text, meta: Text, k: nat): (es: seq<Elt>)
    requires Ready(f, ms, withMap, table) && |meta| == 32 && FirstMember(ms, withMap) <= k <= |ms|
    ensures |es| == |ms| - k
    decreases |ms| - k
  {
    if k == |ms| then [] else [Found(f, ms, withMap, table, meta, k)] + FoundFrom(f, ms, withMap, table, meta, k + 1)
  }

  lemma {:induction false} FoundAt(f: Format, ms: seq<Member>, withMap: bool, table: Text, meta: Text, k: nat, j: nat)
    requires Ready(f, ms, withMap, table) && |meta| == 32 && FirstMember(ms, withMap) <= k <= j < |ms|
    ensures FoundFrom(f, ms, withMap, table, meta, k)[j - k] == Found(f, ms, withMap, table, meta, j)
    decreases j - k
  {
    hide Ready, Found;
    if k < j {
      FoundAt(f, ms, withMap, table, meta, k + 1, j);
    }
  }

  /** Where member k stands, or for k beyond the last, where the file ends. */
  function PlaceOf(f: Format, ms: seq<Member>, withMap: bool, table: Text, meta: Text, k: nat): nat
    requires Ready(f, ms, withMap, table) && |meta| == 32 && FirstMember(ms, withMap) <= k <= |ms|
  {
    |Front(f, ms, withMap, table, meta)| + |Body(f.target, ms, FirstMember(ms, withMap), k)|
  }

  /** Reading at a member's place finds it, and its successor's place follows from it. */
  lemma MemberFound(f: Format, ms: seq<Member>, withMap: bool, table: Text, meta: Text, k: nat)
    requires Ready(f, ms, withMap, table) && |meta| == 32 && FirstMember(ms, withMap) <= k < |ms|
    requires Readable(f.target, ms[k]) && |Archive(f, ms, withMap, table, meta)| < FILE_LIMIT
    ensures f.target.maxName <= 16
    ensures var e := Found(f, ms, withMap, table, meta, k);
            && ReadHdr(Archive(f, ms, withMap, table, meta), PlaceOf(f, ms, withMap, table, meta, k),
                       TableRead(f.target, table), f.target.maxName) == Some(e)
            && NextStart(e) == Some(PlaceOf(f, ms, withMap, table, meta, k + 1))
  {
    hide Ready, Front, Body, MemberBytes, MembersOk, TableOk, Readable, Found, ReadHdr, StoredName, Extra, NextStart, Fits,
         TableRead, TargetOk, FirstMember, Archive, Even;
    ReadyTable(f, ms, withMap, table);
    ReadyFits(f, ms, withMap, table);
    NameRoom(f.target);
    var file := Archive(f, ms, withMap, table, meta);
    var pos := PlaceOf(f, ms, withMap, table, meta, k);
    MemberAt(f, ms, withMap, table, meta, k);
    MemberReads(file, pos, f.target, ms, k, table);
    FoundIs(f, ms, withMap, table, meta, k);
    NextPlace(f, ms, withMap, table, meta, k);
  }

  lemma NextPlace(f: Format, ms: seq<Member>, withMap: bool, table: Text, meta: Text, k: nat)
    requires Ready(f, ms, withMap, table) && |meta| == 32 && FirstMember(ms, withMap) <= k < |ms|
    requires |Archive(f, ms, withMap, table, meta)| < FILE_LIMIT
    ensures NextStart(Found(f, ms, withMap, table, meta, k)) == Some(PlaceOf(f, ms, withMap, table, meta, k + 1))
  {
    hide Ready, Front, Body, Found, StoredName, Extra, NextStart, Fits, TargetOk, FirstMember, Archive, Even, PlaceOf;
    FoundAtPlace(f, ms, withMap, table, meta, k);
    SlotExtra(f.target, ms[k]);
    PlaceStep(f, ms, withMap, table, meta, k);
    PlaceEven(f, ms, withMap, table, meta, k);
    NextIs(Found(f, ms, withMap, table, meta, k), PlaceOf(f, ms, withMap, table, meta, k),
           PlaceOf(f, ms, withMap, table, meta, k + 1), |Archive(f, ms, withMap, table, meta)|);
  }

  lemma FoundAtPlace(f: Format, ms: seq<Member>, withMap: bool, table: Text, meta: Text, k: nat)
    requires Ready(f, ms, withMap, table) && |meta| == 32 && FirstMember(ms, withMap) <= k < |ms|
    ensures Found(f, ms, withMap, table, meta, k)
            == Elt(StoredName(f.target, ms[k]), |ms[k].content|, Extra(f.target, ms[k]),
                   PlaceOf(f, ms, withMap, table, meta, k) + HDR + Extra(f.target, ms[k]))
  {
    hide Ready, Front, Body, Found, StoredName, Extra, Fits, TargetOk, FirstMember;
    FoundIs(f, ms, withMap, table, meta, k);
  }

  lemma PlaceStep(f: Format, ms: seq<Member>, withMap: bool, table: Text, meta: Text, k: nat)
    requires Ready(f, ms, withMap, table) && |meta| == 32 && FirstMember(ms, withMap) <= k < |ms|
    ensures PlaceOf(f, ms, withMap, table, meta, k + 1)
            == PlaceOf(f, ms, withMap, table, meta, k) + HDR + Extra(f.target, ms[k]) + Even(|ms[k].content|)
            <= |Archive(f, ms, withMap, table, meta)|
  {
    hide Ready, Front, Body, MemberBytes, MembersOk, Extra, Fits, TargetOk, FirstMember, Archive, Even, SizeOk;
    ReadyFits(f, ms, withMap, table);
    MemberAt(f, ms, withMap, table, meta, k);
    MemberLength(f.target, ms, k);
    SlotExtra(f.target, ms[k]);
  }

  lemma PlaceEven(f: Format, ms: seq<Member>, withMap: bool, table: Text, meta: Text, k: nat)
    requires Ready(f, ms, withMap, table) && |meta| == 32 && FirstMember(ms, withMap) <= k < |ms|
    ensures PlaceOf(f, ms, withMap, table, meta, k) % 2 == 0
  {
    hide Ready, Front, Body, MemberBytes, MembersOk, Extra, Fits, TargetOk, FirstMember, Archive, Even, SizeOk, MapPart;
    ReadyFits(f, ms, withMap, table);
    FrontEven(f, ms, withMap, table, meta);
    BodyLength(f.target, ms, FirstMember(ms, withMap), k, |Front(f, ms, withMap, table, meta)|);
  }

  lemma SlotExtra(t: Target, m: Member)
    ensures SlotOf(t, m) == Slot(|m.content|, Extra(t, m)) && Extra(t, m) % 4 == 0
  {
  }

  /** From any member on, the walk finds that member and the ones after it, and then ends. */
  lemma {:induction false} WalkFrom(f: Format, ms: seq<Member>, withMap: bool, table: Text, meta: Text, k: nat)
    requires Ready(f, ms, withMap, table) && |meta| == 32 && FirstMember(ms, withMap) <= k <= |ms|
    requires forall j :: k <= j < |ms| ==> Readable(f.target, ms[j])
    requires |Archive(f, ms, withMap, table, meta)| < FILE_LIMIT
    ensures f.target.maxName <= 16
    ensures Walk(Archive(f, ms, withMap, table, meta), TableRead(f.target, table), f.target.maxName,
                 PlaceOf(f, ms, withMap, table, meta, k)) == FoundFrom(f, ms, withMap, table, meta, k)
    decreases |ms| - k
  {
    hide Ready, Found, ReadHdr, NextStart, TableRead, FirstMember, Archive, Walk, PlaceOf, Readable;
    ReadyNames(f, ms, withMap, table);
    var file := Archive(f, ms, withMap, table, meta);
    var pos := PlaceOf(f, ms, withMap, table, meta, k);
    if k == |ms| {
      PlaceEnd(f, ms, withMap, table, meta);
      NothingThere(file, pos, TableRead(f.target, table), f.target.maxName);
    } else {
      MemberFound(f, ms, withMap, table, meta, k);
      WalkStep(file, pos, TableRead(f.target, table), f.target.maxName, Found(f, ms, withMap, table, meta, k),
               PlaceOf(f, ms, withMap, table, meta, k + 1));
      WalkFrom(f, ms, withMap, table, meta, k + 1);
    }
  }

  lemma ReadyNames(f: Format, ms: seq<Member>, withMap: bool, table: Text)
    requires Ready(f, ms, withMap, table)
    ensures f.target.maxName <= 16
  {
  }

  lemma PlaceEnd(f: Format, ms: seq<Member>, withMap: bool, table: Text, meta: Text)
    requires Ready(f, ms, withMap, table) && |meta| == 32
    ensures PlaceOf(f, ms, withMap, table, meta, |ms|) == |Archive(f, ms, withMap, table, meta)|
  {
    hide Ready, Front, Body;
    ReadyFits(f, ms, withMap, table);
  }

  lemma WalkStep(file: Text, pos: nat, names: Option<Text>, maxName: nat, e: Elt, next: nat)
    requires maxName <= 16 && ReadHdr(file, pos, names, maxName) == Some(e) && NextStart(e) == Some(next)
    ensures Walk(file, names, maxName, pos) == [e] + Walk(file, names, maxName, next)
  {
    hide ReadHdr, NextStart;
  }

  lemma NameRoom(t: Target)
    requires TargetOk(t)
    ensures t.maxName <= 16
  {
  }

  lemma ReadyTable(f: Format, ms: seq<Member>, withMap: bool, table: Text)
    requires Ready(f, ms, withMap, table)
    ensures TableOk(f.target, ms, table)
  {
    hide MembersOk, Filled, TableSize, Orls, MapFits, Fits;
  }

  lemma NothingThere(file: Text, pos: nat, names: Option<Text>, maxName: nat)
    requires maxName <= 16 && pos >= |file|
    ensures Walk(file, names, maxName, pos) == []
  {
  }

  lemma FoundIs(f: Format, ms: seq<Member>, withMap: bool, table: Text, meta: Text, k: nat)
    requires Ready(f, ms, withMap, table) && |meta| == 32 && FirstMember(ms, withMap) <= k < |ms|
    ensures Fits(f.target, ms) && TargetOk(f.target)
    ensures var pos := |Front(f, ms, withMap, table, meta)| + |Body(f.target, ms, FirstMember(ms, withMap), k)|;
            var m := ms[k];
            Found(f, ms, withMap, table, meta, k)
            == Elt(StoredName(f.target, m), |m.content|, Extra(f.target, m), pos + HDR + Extra(f.target, m))
  {
    hide Ready, Front, Body, StoredName, Extra;
    ReadyFits(f, ms, withMap, table);
  }

  /** Below the bound of file positions the next member starts at the next even position. */
  lemma NextIs(e: Elt, pos: nat, next: nat, limit: nat)
    requires e.origin == pos + HDR + e.extra && e.extra % 4 == 0 && pos % 2 == 0
    requires next == pos + HDR + e.extra + Even(e.size) <= limit < FILE_LIMIT
    ensures NextStart(e) == Some(next)
  {
    EvenSum(pos, e.extra, e.size);
  }

  /**
    Walking what was written from the first member finds exactly the members, in order, each with
    its name and its bytes.
   */
  lemma WriteThenWalk(f: Format, ms: seq<Member>, withMap: bool, table: Text, meta: Text)
    requires Ready(f, ms, withMap, table) && |meta| == 32
    requires forall j :: FirstMember(ms, withMap) <= j < |ms| ==> Readable(f.target, ms[j])
    requires |Archive(f, ms, withMap, table, meta)| < FILE_LIMIT
    ensures f.target.maxName <= 16
    ensures var file := Archive(f, ms, withMap, table, meta);
            var d := FirstMember(ms, withMap);
            var es := Walk(file, TableRead(f.target, table), f.target.maxName, |Front(f, ms, withMap, table, meta)|);
            && |es| == |ms| - d
            && forall i :: 0 <= i < |es| ==>
                 && es[i].name == StoredName(f.target, ms[d + i])
                 && es[i].origin + es[i].size <= |file|
                 && file[es[i].origin..es[i].origin + es[i].size] == ms[d + i].content
  {
    hide Ready, Front, Readable, Found, FoundFrom, StoredName, TableRead, Walk, FirstMember, Archive, PlaceOf;
    var d := FirstMember(ms, withMap);
    WalkFrom(f, ms, withMap, table, meta, d);
    PlaceFirst(f, ms, withMap, table, meta);
    var file := Archive(f, ms, withMap, table, meta);
    var es := FoundFrom(f, ms, withMap, table, meta, d);
    forall i | 0 <= i < |es|
      ensures es[i].name == StoredName(f.target, ms[d + i]) && es[i].origin + es[i].size <= |file|
              && file[es[i].origin..es[i].origin + es[i].size] == ms[d + i].content
    {
      FoundAt(f, ms, withMap, table, meta, d, d + i);
      FoundContent(f, ms, withMap, table, meta, d + i);
    }
  }

  lemma PlaceFirst(f: Format, ms: seq<Member>, withMap: bool, table: Text, meta: Text)
    requires Ready(f, ms, withMap, table) && |meta| == 32
    ensures PlaceOf(f, ms, withMap, table, meta, FirstMember(ms, withMap)) == |Front(f, ms, withMap, table, meta)|
  {
    hide Ready, Front;
    ReadyFits(f, ms, withMap, table);
  }

  lemma FoundContent(f: Format, ms: seq<Member>, withMap: bool, table: Text, meta: Text, k: nat)
    requires Ready(f, ms, withMap, table) && |meta| == 32 && FirstMember(ms, withMap) <= k < |ms|
    requires Readable(f.target, ms[k])
    ensures var e := Found(f, ms, withMap, table, meta, k);
            var file := Archive(f, ms, withMap, table, meta);
            e.name == StoredName(f.target, ms[k]) && e.origin + e.size <= |file|
            && file[e.origin..e.origin + e.size] == ms[k].content
  {
    hide Ready, Front, Body, Readable, Found, ReadHdr, StoredName, Extra, TableRead, Fits, FirstMember, Archive, TableOk, MemberBytes;
    ReadyFits(f, ms, withMap, table);
    ReadyTable(f, ms, withMap, table);
    FoundIs(f, ms, withMap, table, meta, k);
    MemberAt(f, ms, withMap, table, meta, k);
    MemberLength(f.target, ms, k);
    var pos := |Front(f, ms, withMap, table, meta)| + |Body(f.target, ms, FirstMember(ms, withMap), k)|;
    MemberReads(Archive(f, ms, withMap, table, meta), pos, f.target, ms, k, table);
  }
}
