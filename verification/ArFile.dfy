/**
  The whole archive: what _bfd_write_archive_contents puts into the file, piece by piece, and the
  place of every member in it (archive.c).
 */
module ArFile {
  import opened Bytes
  import opened Ascii
  import opened ArHeader
  import opened ArNames
  import opened ArMap
  import opened ArMapWrite

  /** big is the byte order of a BSD map. */
  datatype Format = Format(target: Target, mapKind: MapKind, big: bool)

  /** "__.SYMDEF" and "ARFILENAMES" */
  const SYMDEF: Text := [95, 95, 46, 83, 89, 77, 68, 69, 70]
  const ARFILENAMES: Text := [65, 82, 70, 73, 76, 69, 78, 65, 77, 69, 83]
  const SVR4_TABLE: Text := SpacePad([47, 47], 16)
  const BSD_TABLE: Text := SpacePad(ARFILENAMES + [SLASH], 16)

  predicate FormatOk(f: Format) {
    TargetOk(f.target) && (f.mapKind.MapBsd? ==> f.mapKind.big == f.big)
  }

  // ----- members -----

  function Round4(n: nat): (r: nat)
    ensures n <= r < n + 4 && r % 4 == 0
  {
    (n + 3) / 4 * 4
  }

  /** How many bytes of name follow the header, in the BSD 4.4 style. */
  function Extra(t: Target, m: Member): (n: nat)
    ensures n % 4 == 0
  {
    if t.style == Style.Bsd44 && (|m.name| > t.maxName || SPACE in m.name) then Round4(|m.name|) else 0
  }

  function Field(t: Target, ms: seq<Member>, k: nat): (f: Text)
    requires k < |ms| && TargetOk(t)
    ensures |f| == 16
  {
    if t.style != Style.Bsd44 then NameField(t, ms, k)
    else
      var field := FreshField(t, ms[k].name);
      if Extra(t, ms[k]) > 0 then
        SpacePad(BSD44 + Decimal(Extra(t, ms[k])), t.maxName) + field[t.maxName..]
      else field
  }

  predicate SizeOk(t: Target, m: Member) {
    |m.content| + Extra(t, m) < MAX_SIZE
  }

  /** Header and name of a member. */
  function Head(t: Target, ms: seq<Member>, k: nat): (s: Text)
    requires k < |ms| && TargetOk(t) && |ms[k].meta| == 32 && SizeOk(t, ms[k])
    ensures |s| == HDR + Extra(t, ms[k])
  {
    var m := ms[k];
    SizeFits(|m.content| + Extra(t, m));
    Header(Field(t, ms, k), m.meta, SizePad(|m.content| + Extra(t, m)).value)
    + if Extra(t, m) > 0 then m.name + Zeros(Extra(t, m) - |m.name|) else []
  }

  function Newlines(n: nat): (s: Text)
    ensures |s| == n
  {
    seq(n, _ => NEWLINE)
  }

  /** Member k in the file, with the newline that brings it to an even length. */
  function MemberBytes(t: Target, ms: seq<Member>, k: nat): (s: Text)
    requires k < |ms| && TargetOk(t) && |ms[k].meta| == 32 && SizeOk(t, ms[k])
    ensures |s| == HDR + Extra(t, ms[k]) + Even(|ms[k].content|)
  {
    Head(t, ms, k) + ms[k].content + Newlines(|ms[k].content| % 2)
  }

  /** Members can be written. */
  predicate Fits(t: Target, ms: seq<Member>) {
    forall k :: 0 <= k < |ms| ==> |ms[k].meta| == 32 && SizeOk(t, ms[k])
  }

  /** Members d to n. */
  function Body(t: Target, ms: seq<Member>, d: nat, n: nat): Text
    requires d <= n <= |ms| && TargetOk(t) && Fits(t, ms)
  {
    if n == d then [] else Body(t, ms, d, n - 1) + MemberBytes(t, ms, n - 1)
  }

  // ----- the archive -----

  /** Leading members whose file name is that of a map are left out when a map is written. */
  function Dropped(ms: seq<Member>): (d: nat)
    ensures d <= |ms|
  {
    if ms != [] && ms[0].name == SYMDEF && ms[0].dir == 0 then 1 + Dropped(ms[1..]) else 0
  }

  function TableName(t: Target): (s: Text)
    ensures |s| == 16
  {
    if t.style == Svr4 then SVR4_TABLE else BSD_TABLE
  }

  /** The member with the long names. */
  function TableBytes(t: Target, table: Text): (s: Text)
    requires Even(|table|) < MAX_SIZE
    ensures |s| == if table == [] then 0 else HDR + Even(|table|)
  {
    if table == [] then []
    else
      SizeFits(Even(|table|));
      Header(TableName(t), Spaces(32), SizePad(Even(|table|)).value) + table + Newlines(|table| % 2)
  }

  function SlotOf(t: Target, m: Member): (s: Slot)
    ensures s.extra % 4 == 0 && s.extra == Extra(t, m) && s.size == |m.content|
  {
    Slot(|m.content|, Extra(t, m))
  }

  function SlotsOf(t: Target, ms: seq<Member>, d: nat): (s: seq<Slot>)
    requires d <= |ms|
    ensures |s| == |ms| - d
    ensures forall i :: 0 <= i < |s| ==> s[i] == SlotOf(t, ms[d + i])
  {
    seq(|ms| - d, i requires 0 <= i < |ms| - d => SlotOf(t, ms[d + i]))
  }

  lemma SlotsOfOk(t: Target, ms: seq<Member>, d: nat)
    requires d <= |ms|
    ensures SlotsOk(SlotsOf(t, ms, d))
  {
    var s := SlotsOf(t, ms, d);
    forall i | 0 <= i < |s|
      ensures s[i].extra % 4 == 0
    {
      assert s[i] == SlotOf(t, ms[d + i]);
    }
  }

  function SymsOf(ms: seq<Member>, d: nat): (s: seq<seq<Symbol>>)
    requires d <= |ms|
    ensures |s| == |ms| - d && forall i :: 0 <= i < |s| ==> s[i] == ms[d + i].syms
  {
    seq(|ms| - d, i requires 0 <= i < |ms| - d => ms[d + i].syms)
  }

  function Orls(ms: seq<Member>, d: nat): seq<Orl>
    requires d <= |ms|
  {
    Collected(SymsOf(ms, d), |ms| - d)
  }

  lemma OrlsOk(ms: seq<Member>, d: nat)
    requires d <= |ms| && MembersOk(ms)
    ensures MapOk(Orls(ms, d), |ms| - d)
  {
    var s: seq<seq<Symbol>> := SymsOf(ms, d);
    forall i, k | 0 <= i < |s| && 0 <= k < |s[i]|
      ensures NUL !in s[i][k].name
    {
      assert MemberOk(ms[d + i]) && s[i] == ms[d + i].syms;
    }
    CollectedOk(s, |s|);
  }

  /** How many bytes a table of n bytes takes with its header, as the map writers are told. */
  function RoomOf(n: nat): nat {
    if n == 0 then 0 else HDR + Even(n)
  }

  function TableRoom(table: Text): nat { RoomOf(|table|) }

  /** The size of the table of long names. */
  function TableLength(t: Target, ms: seq<Member>): nat {
    if t.style == Style.Bsd44 then 0 else TableSize(t, ms, |ms|)
  }

  /** What is in memory when the archive is written: the members, and the table built for them. */
  predicate Ready(f: Format, ms: seq<Member>, withMap: bool, table: Text) {
    && FormatOk(f) && MembersOk(ms) && Fits(f.target, ms) && Even(|table|) < MAX_SIZE
    && |table| == TableLength(f.target, ms)
    && (f.target.style != Style.Bsd44 ==> Filled(f.target, ms, |ms|).table <= table)
    && (withMap ==> MapFits(Orls(ms, Dropped(ms)), TableRoom(table)))
  }

  function FirstMember(ms: seq<Member>, withMap: bool): (d: nat)
    ensures d <= |ms|
  {
    if withMap then Dropped(ms) else 0
  }

  function MapPart(f: Format, ms: seq<Member>, room: nat, meta: Text): Text
    requires MembersOk(ms) && MapFits(Orls(ms, Dropped(ms)), room) && |meta| == 32
  {
    var d := Dropped(ms);
    OrlsOk(ms, d);
    MapBytes(f.mapKind, false, SlotsOf(f.target, ms, d), Orls(ms, d), room, meta)
  }

  /** Everything before the first member. */
  function Front(f: Format, ms: seq<Member>, withMap: bool, table: Text, meta: Text): Text
    requires Ready(f, ms, withMap, table) && |meta| == 32
  {
    ARMAG + (if withMap then MapPart(f, ms, TableRoom(table), meta) else []) + TableBytes(f.target, table)
  }

  function Archive(f: Format, ms: seq<Member>, withMap: bool, table: Text, meta: Text): Text
    requires Ready(f, ms, withMap, table) && |meta| == 32
  {
    Front(f, ms, withMap, table, meta) + Body(f.target, ms, FirstMember(ms, withMap), |ms|)
  }

  // ----- where things are -----

  lemma {:induction false} BodyLength(t: Target, ms: seq<Member>, d: nat, n: nat, first: nat)
    requires d <= n <= |ms| && TargetOk(t) && Fits(t, ms)
    ensures Position(false, SlotsOf(t, ms, d), first, n - d) == first + |Body(t, ms, d, n)|
    ensures |Body(t, ms, d, n)| % 2 == 0
    decreases n
  {
    hide MemberBytes, SlotsOf, SlotOf, Extra, Even, Fits;
    if n > d {
      BodyLength(t, ms, d, n - 1, first);
      MemberLength(t, ms, n - 1);
      assert SlotsOf(t, ms, d)[n - 1 - d] == SlotOf(t, ms[d + (n - 1 - d)]);
    }
  }

  lemma MemberLength(t: Target, ms: seq<Member>, k: nat)
    requires k < |ms| && TargetOk(t) && Fits(t, ms)
    ensures |ms[k].meta| == 32 && SizeOk(t, ms[k])
    ensures |MemberBytes(t, ms, k)| == HDR + SlotOf(t, ms[k]).extra + Even(SlotOf(t, ms[k]).size)
    ensures |MemberBytes(t, ms, k)| % 2 == 0
  {
    hide Extra, Even, MemberBytes;
    EvenSum(0, Extra(t, ms[k]), |ms[k].content|);
  }

  lemma {:induction false} BodyGrows(t: Target, ms: seq<Member>, d: nat, a: nat, b: nat)
    requires d <= a <= b <= |ms| && TargetOk(t) && Fits(t, ms)
    ensures Body(t, ms, d, a) <= Body(t, ms, d, b)
    decreases b - a
  {
    hide MemberBytes;
    if a < b {
      BodyGrows(t, ms, d, a, b - 1);
    }
  }

  /** Member k stands in the archive where the bytes before it end. */
  lemma MemberAt(f: Format, ms: seq<Member>, withMap: bool, table: Text, meta: Text, k: nat)
    requires Ready(f, ms, withMap, table) && |meta| == 32 && FirstMember(ms, withMap) <= k < |ms|
    ensures var d := FirstMember(ms, withMap);
            var p := |Front(f, ms, withMap, table, meta)| + |Body(f.target, ms, d, k)|;
            var b := MemberBytes(f.target, ms, k);
            var file := Archive(f, ms, withMap, table, meta);
            p + |b| == |Front(f, ms, withMap, table, meta)| + |Body(f.target, ms, d, k + 1)| <= |file|
            && file[p..p + |b|] == b
  {
    hide MemberBytes, Front, Ready, Fits;
    ReadyFits(f, ms, withMap, table);
    var d := FirstMember(ms, withMap);
    var front := Front(f, ms, withMap, table, meta);
    var whole := Body(f.target, ms, d, |ms|);
    var upTo := Body(f.target, ms, d, k + 1);
    BodyGrows(f.target, ms, d, k + 1, |ms|);
    assert whole[..|upTo|] == upTo;
    Behind(front, whole, |Body(f.target, ms, d, k)|, |upTo|);
  }

  lemma ReadyFits(f: Format, ms: seq<Member>, withMap: bool, table: Text)
    requires Ready(f, ms, withMap, table)
    ensures Fits(f.target, ms) && TargetOk(f.target) && MembersOk(ms)
  {
  }

  lemma Behind(a: Text, b: Text, i: nat, j: nat)
    requires i <= j <= |b|
    ensures (a + b)[|a| + i..|a| + j] == b[i..j] == b[..j][i..]
  {
  }

  lemma FrontEven(f: Format, ms: seq<Member>, withMap: bool, table: Text, meta: Text)
    requires Ready(f, ms, withMap, table) && |meta| == 32
    ensures |Front(f, ms, withMap, table, meta)| % 2 == 0
    ensures withMap ==> MembersOk(ms) && MapFits(Orls(ms, Dropped(ms)), TableRoom(table))
    ensures |Front(f, ms, withMap, table, meta)|
            == SARMAG + (if withMap then |MapPart(f, ms, TableRoom(table), meta)| else 0) + TableRoom(table)
    ensures withMap ==> |MapPart(f, ms, TableRoom(table), meta)| % 2 == 0
  {
    hide Ready, TableBytes, MapPart;
    TableFits(f, ms, withMap, table);
    if withMap {
      MapPartEven(f, ms, table, meta);
    }
  }

  lemma TableFits(f: Format, ms: seq<Member>, withMap: bool, table: Text)
    requires Ready(f, ms, withMap, table)
    ensures Even(|table|) < MAX_SIZE && TableRoom(table) % 2 == 0 && TableRoom(table) == |TableBytes(f.target, table)|
  {
    hide Ready, MembersOk, Orls, TableBytes;
    TableSmall(f, ms, withMap, table);
  }

  lemma TableSmall(f: Format, ms: seq<Member>, withMap: bool, table: Text)
    requires Ready(f, ms, withMap, table)
    ensures Even(|table|) < MAX_SIZE
  {
  }

  lemma MapPartEven(f: Format, ms: seq<Member>, table: Text, meta: Text)
    requires Ready(f, ms, true, table) && |meta| == 32
    ensures MembersOk(ms) && MapFits(Orls(ms, Dropped(ms)), TableRoom(table))
    ensures |MapPart(f, ms, TableRoom(table), meta)| % 2 == 0
  {
    hide Ready, MapBytes, Orls, MapOk, MapFits;
    ReadyParts(f, ms, true, table);
    var d := Dropped(ms);
    OrlsOk(ms, d);
    MapEven(f.mapKind, SlotsOf(f.target, ms, d), Orls(ms, d), TableRoom(table), meta);
  }

  lemma MapEven(kind: MapKind, slots: seq<Slot>, m: seq<Orl>, elength: nat, meta: Text)
    requires MapOk(m, |slots|) && MapFits(m, elength) && |meta| == 32
    ensures |MapBytes(kind, false, slots, m, elength, meta)| % 2 == 0
  {
    hide Chosen, MapSize, MapOk, MapBody, MapFits, Header, ReckonedAll, SizePad;
    MapWithin(m, |slots|);
    SizesFit(Chosen(kind, false, slots, m, elength), m, elength);
  }

  /** The symbols of the map with the positions recorded for them. */
  function Index(f: Format, ms: seq<Member>, table: Text): (syms: seq<(Text, nat, nat)>)
    requires Ready(f, ms, true, table)
  {
    var d := Dropped(ms);
    OrlsOk(ms, d);
    var m := Orls(ms, d);
    var slots := SlotsOf(f.target, ms, d);
    var offs := ReckonedAll(Chosen(f.mapKind, false, slots, m, TableRoom(table)), false, slots, m, TableRoom(table), |m|);
    Indexed(m, d, offs)
  }

  function Indexed(m: seq<Orl>, d: nat, offs: seq<nat>): (syms: seq<(Text, nat, nat)>)
    requires |offs| == |m|
    ensures |syms| == |m| && forall i :: 0 <= i < |m| ==> syms[i] == (m[i].name, m[i].member + d, offs[i])
  {
    seq(|m|, i requires 0 <= i < |m| => (m[i].name, m[i].member + d, offs[i]))
  }

  /**
    The position recorded for a symbol is that of the header of the member that defines it, in the
    very file that is written: always for a BSD map; for a COFF or 64-bit map exactly when no name
    follows the header of a member before it.
   */
  lemma SymbolPointsAtMember(f: Format, ms: seq<Member>, table: Text, meta: Text, i: nat)
    requires Ready(f, ms, true, table) && |meta| == 32 && i < |Index(f, ms, table)|
    ensures var d := Dropped(ms);
            var (_, k, pos) := Index(f, ms, table)[i];
            d <= k < |ms|
            && (pos == |Front(f, ms, true, table, meta)| + |Body(f.target, ms, d, k)|
                <==> ChosenBsd(f, ms, table) || forall j :: d <= j < k ==> Extra(f.target, ms[j]) == 0)
  {
    hide Ready, Position, Index, NoExtra, Front, Body, Extra, ChosenBsd, SlotsOf, MembersOk, Fits, Orls, Dropped;
    var d := Dropped(ms);
    ReadyParts(f, ms, true, table);
    var slots := SlotsOf(f.target, ms, d);
    var member := IndexAt(f, ms, table, i);
    FrontEven(f, ms, true, table, meta);
    RecordedExactly(f, ms, table, meta, i);
    BodyLength(f.target, ms, d, d + member, |Front(f, ms, true, table, meta)|);
    ExtraFree(f.target, ms, d, member);
  }

  lemma IndexAt(f: Format, ms: seq<Member>, table: Text, i: nat) returns (member: nat)
    requires Ready(f, ms, true, table) && i < |Index(f, ms, table)|
    ensures i < |Orls(ms, Dropped(ms))| && member == Orls(ms, Dropped(ms))[i].member < |ms| - Dropped(ms)
    ensures Index(f, ms, table)[i].1 == Dropped(ms) + member
  {
    hide Ready, MapFits, Chosen, ReckonedAll, Orls, SlotsOf;
    ReadyParts(f, ms, true, table);
    OrlsOk(ms, Dropped(ms));
    member := Orls(ms, Dropped(ms))[i].member;
  }

  lemma RecordedExactly(f: Format, ms: seq<Member>, table: Text, meta: Text, i: nat)
    requires Ready(f, ms, true, table) && |meta| == 32 && i < |Index(f, ms, table)|
    requires i < |Orls(ms, Dropped(ms))| && Orls(ms, Dropped(ms))[i].member <= |ms| - Dropped(ms)
    ensures var d := Dropped(ms);
            var slots := SlotsOf(f.target, ms, d);
            var member := Orls(ms, d)[i].member;
            Index(f, ms, table)[i].2 == Position(false, slots, |Front(f, ms, true, table, meta)|, member)
            <==> ChosenBsd(f, ms, table) || NoExtra(slots, member)
  {
    hide Ready, MapOk, MapFits, Chosen, Position, NoExtra, Front, MapBytes, Orls, SlotsOf, SlotsOk, Index, ReckonedAll,
         Within, NoBytes, Dropped, TableRoom, MapPart;
    ReadyParts(f, ms, true, table);
    var d := Dropped(ms);
    OrlsOk(ms, d);
    SlotsOfOk(f.target, ms, d);
    MapWithin(Orls(ms, d), |ms| - d);
    FrontLength(f, ms, table, meta);
    TableFits(f, ms, true, table);
    IndexRecorded(f, ms, table, i);
    MapExactly(f.mapKind, false, SlotsOf(f.target, ms, d), Orls(ms, d), TableRoom(table), meta, i);
  }

  /** What is in front of the members is as long as the writer of the map reckoned. */
  lemma FrontLength(f: Format, ms: seq<Member>, table: Text, meta: Text)
    requires Ready(f, ms, true, table) && |meta| == 32
    ensures MembersOk(ms) && MapFits(Orls(ms, Dropped(ms)), TableRoom(table)) && FormatOk(f)
    ensures var d := Dropped(ms);
            MapOk(Orls(ms, d), |SlotsOf(f.target, ms, d)|)
            && |Front(f, ms, true, table, meta)|
               == SARMAG + |MapBytes(f.mapKind, false, SlotsOf(f.target, ms, d), Orls(ms, d), TableRoom(table), meta)|
                  + TableRoom(table)
  {
    hide MapOk, MapFits, Front, MapBytes, Orls, SlotsOf, Dropped, TableRoom;
    FrontEven(f, ms, true, table, meta);
    OrlsOk(ms, Dropped(ms));
  }

  lemma IndexRecorded(f: Format, ms: seq<Member>, table: Text, i: nat)
    requires Ready(f, ms, true, table) && i < |Index(f, ms, table)|
    ensures var d := Dropped(ms);
            var m := Orls(ms, d);
            var slots := SlotsOf(f.target, ms, d);
            Within(m, |slots|) && i < |m|
            && Index(f, ms, table)[i].2
               == ReckonedAll(Chosen(f.mapKind, false, slots, m, TableRoom(table)), false, slots, m, TableRoom(table), |m|)[i]
            && ChosenBsd(f, ms, table) == Chosen(f.mapKind, false, slots, m, TableRoom(table)).MapBsd?
  {
    hide Ready, MapOk, MapFits, Chosen, ReckonedAll, Orls, SlotsOf, Dropped, TableRoom, Within;
    ReadyParts(f, ms, true, table);
    OrlsOk(ms, Dropped(ms));
    MapWithin(Orls(ms, Dropped(ms)), |ms| - Dropped(ms));
  }

  lemma ReadyParts(f: Format, ms: seq<Member>, withMap: bool, table: Text)
    requires Ready(f, ms, withMap, table)
    ensures Fits(f.target, ms) && TargetOk(f.target) && MembersOk(ms)
    ensures withMap ==> MapFits(Orls(ms, Dropped(ms)), TableRoom(table))
  {
  }

  lemma ExtraFree(t: Target, ms: seq<Member>, d: nat, n: nat)
    requires d + n <= |ms|
    ensures NoExtra(SlotsOf(t, ms, d), n) <==> forall j :: d <= j < d + n ==> Extra(t, ms[j]) == 0
  {
    hide Extra;
    var slots := SlotsOf(t, ms, d);
    if NoExtra(slots, n) {
      forall j | d <= j < d + n
        ensures Extra(t, ms[j]) == 0
      {
        assert slots[j - d].extra == 0;
      }
    }
  }

  /** Whether the map is written in the BSD format. */
  predicate ChosenBsd(f: Format, ms: seq<Member>, table: Text)
    requires Ready(f, ms, true, table)
  {
    OrlsOk(ms, Dropped(ms));
    Chosen(f.mapKind, false, SlotsOf(f.target, ms, Dropped(ms)), Orls(ms, Dropped(ms)), TableRoom(table)).MapBsd?
  }

  // ----- the writer -----

  /** bfd_ar_hdr_from_filesystem and bfd_dont_truncate_arname for every member. */
  method FreshFields(t: Target, ms: seq<Member>) returns (fields: array<Text>, ok: bool)
    ensures fields.Length == |ms| && fresh(fields)
    ensures ok <==> forall k :: 0 <= k < |ms| ==> |ms[k].content| < MAX_SIZE
    ensures ok ==> forall k :: 0 <= k < |ms| ==> fields[k] == FreshField(t, ms[k].name)
  {
    hide FreshField;
    fields := new Text[|ms|];
    for k := 0 to |ms|
      invariant forall j :: 0 <= j < k ==> |ms[j].content| < MAX_SIZE && fields[j] == FreshField(t, ms[j].name)
    {
      SizeFits(|ms[k].content|);
      if SizePad(|ms[k].content|).None? {
        return fields, false;
      }
      fields[k] := FreshField(t, ms[k].name);
    }
    ok := true;
  }

  /** _bfd_archive_bsd44_construct_extended_name_table */
  method ExtendFields(t: Target, ms: seq<Member>, fields: array<Text>)
    requires TargetOk(t) && t.style == Style.Bsd44 && fields.Length == |ms|
    requires forall k :: 0 <= k < |ms| ==> ms[k].name != [] && fields[k] == FreshField(t, ms[k].name)
    modifies fields
    ensures forall k :: 0 <= k < |ms| ==> fields[k] == Field(t, ms, k)
  {
    hide FreshField;
    for k := 0 to |ms|
      invariant forall j :: k <= j < |ms| ==> fields[j] == FreshField(t, ms[j].name)
      invariant forall j :: 0 <= j < k ==> fields[j] == Field(t, ms, j)
    {
      var hasSpace := false;
      var name := ms[k].name;
      for len := 0 to |name|
        invariant hasSpace <==> SPACE in name[..len]
      {
        hasSpace := hasSpace || name[len] == SPACE;
      }
      assert name[..|name|] == name;
      if |name| > t.maxName || hasSpace {
        fields[k] := SpacePad(BSD44 + Decimal(Round4(|name|)), t.maxName) + fields[k][t.maxName..];
      }
    }
  }

  /** One member: its header, the name that follows it, its bytes and the padding. */
  method WriteMember(out: Output, t: Target, ms: seq<Member>, k: nat, field: Text) returns (ok: bool)
    requires k < |ms| && TargetOk(t) && |ms[k].meta| == 32 && |ms[k].content| < MAX_SIZE && field == Field(t, ms, k)
    modifies out
    ensures ok <==> SizeOk(t, ms[k])
    ensures ok ==> out.file == old(out.file) + MemberBytes(t, ms, k)
  {
    hide Field, Extra, Newlines, Head, Header, SizePad, TargetOk;
    var m := ms[k];
    var size := |m.content| + Extra(t, m);
    SizeFits(size);
    if SizePad(size).None? {
      return false;
    }
    out.Write(Header(field, m.meta, SizePad(size).value));
    if Extra(t, m) > 0 {
      ExtraRoom(t, m);
      out.Write(m.name);
      out.Write(Zeros(Extra(t, m) - |m.name|));
    }
    HeadIs(t, ms, k, old(out.file));
    CopyContent(out, m.content);
    if |m.content| % 2 == 1 {
      out.Write([NEWLINE]);
    }
    NewlineOne(|m.content|);
    JoinAll(old(out.file), Head(t, ms, k), m.content, Newlines(|m.content| % 2), []);
    ok := true;
  }

  /** The copy of a member's bytes, eight megabytes at a time. */
  method CopyContent(out: Output, content: Text)
    modifies out
    ensures out.file == old(out.file) + content
  {
    var remaining: int := |content|;
    while remaining > 0
      invariant 0 <= remaining <= |content| && out.file == old(out.file) + content[..|content| - remaining]
    {
      var done := |content| - remaining;
      var amt := Min(remaining, 0x80_0000);
      assert content[..done + amt] == content[..done] + content[done..done + amt];
      out.Write(content[done..done + amt]);
      remaining := remaining - amt;
    }
    assert content[..|content|] == content;
  }

  lemma NewlineOne(n: nat)
    ensures Newlines(n % 2) == if n % 2 == 1 then [NEWLINE] else []
  {
  }

  lemma ExtraRoom(t: Target, m: Member)
    requires Extra(t, m) > 0
    ensures Extra(t, m) >= |m.name| && t.style == Style.Bsd44
  {
  }

  lemma HeadIs(t: Target, ms: seq<Member>, k: nat, file: Text)
    requires k < |ms| && TargetOk(t) && |ms[k].meta| == 32 && SizeOk(t, ms[k])
    ensures var m := ms[k];
            var size := SizePad(|m.content| + Extra(t, m));
            size.Some? && (Extra(t, m) > 0 ==> Extra(t, m) >= |m.name|)
            && var h := Header(Field(t, ms, k), m.meta, size.value);
            file + Head(t, ms, k) ==
            if Extra(t, m) > 0 then file + h + m.name + Zeros(Extra(t, m) - |m.name|) else file + h
  {
    hide Field, Header, Decimal;
    SizeFits(|ms[k].content| + Extra(t, ms[k]));
  }

  /** The members from d on. */
  method WriteMembers(out: Output, t: Target, ms: seq<Member>, d: nat, fields: array<Text>) returns (ok: bool)
    requires d <= |ms| && TargetOk(t) && fields.Length == |ms|
    requires forall k :: 0 <= k < |ms| ==> |ms[k].meta| == 32 && |ms[k].content| < MAX_SIZE && fields[k] == Field(t, ms, k)
    requires forall k :: 0 <= k < d ==> SizeOk(t, ms[k])
    modifies out
    ensures ok <==> Fits(t, ms)
    ensures ok ==> out.file == old(out.file) + Body(t, ms, d, |ms|)
  {
    hide Field, SizeOk, MemberBytes, Body, Fits;
    ok := true;
    BodyNone(t, ms, d);
    for k := d to |ms|
      invariant ok && forall j :: 0 <= j < k ==> SizeOk(t, ms[j])
      invariant Fits(t, ms) ==> out.file == old(out.file) + Body(t, ms, d, k)
    {
      ok := WriteMember(out, t, ms, k, fields[k]);
      FitsAt(t, ms, k);
      if !ok {
        return;
      }
      if Fits(t, ms) {
        BodyOne(t, ms, d, k, old(out.file));
      }
    }
    FitsAll(t, ms);
  }

  lemma FitsAt(t: Target, ms: seq<Member>, k: nat)
    requires k < |ms|
    ensures Fits(t, ms) ==> SizeOk(t, ms[k])
  {
  }

  lemma FitsAll(t: Target, ms: seq<Member>)
    requires forall k :: 0 <= k < |ms| ==> |ms[k].meta| == 32 && SizeOk(t, ms[k])
    ensures Fits(t, ms)
  {
  }

  lemma BodyNone(t: Target, ms: seq<Member>, d: nat)
    requires d <= |ms| && TargetOk(t)
    ensures Fits(t, ms) ==> Body(t, ms, d, d) == []
  {
  }

  lemma BodyOne(t: Target, ms: seq<Member>, d: nat, k: nat, file: Text)
    requires d <= k < |ms| && TargetOk(t) && Fits(t, ms)
    ensures |ms[k].meta| == 32 && SizeOk(t, ms[k])
    ensures file + Body(t, ms, d, k + 1) == file + Body(t, ms, d, k) + MemberBytes(t, ms, k)
  {
    hide MemberBytes, SizeOk;
  }

  /** A file called like a map has a name that is kept in the header. */
  lemma {:induction false} DroppedSize(t: Target, ms: seq<Member>, k: nat)
    requires TargetOk(t) && k < Dropped(ms)
    ensures Extra(t, ms[k]) == 0
    decreases |ms|
  {
    if k > 0 {
      DroppedSize(t, ms[1..], k - 1);
    }
  }

  method CountDropped(ms: seq<Member>) returns (d: nat)
    ensures d == Dropped(ms)
  {
    d := 0;
    assert ms[0..] == ms;
    while d < |ms| && ms[d].name == SYMDEF && ms[d].dir == 0
      invariant d <= |ms| && d + Dropped(ms[d..]) == Dropped(ms)
    {
      assert ms[d..][1..] == ms[d + 1..];
      d := d + 1;
    }
  }

  /** _bfd_compute_and_write_armap */
  method WriteMap(out: Output, f: Format, ms: seq<Member>, room: nat, meta: Text) returns (d: nat)
    requires FormatOk(f) && MembersOk(ms) && MapFits(Orls(ms, Dropped(ms)), room) && |meta| == 32
    modifies out
    ensures d == Dropped(ms) && out.file == old(out.file) + MapPart(f, ms, room, meta)
  {
    hide MapOk, MapFits, MembersOk, MapBytes, Collected;
    d := CountDropped(ms);
    OrlsOk(ms, d);
    var m, stridx := Collect(SymsOf(ms, d));
    var slots := SlotsOf(f.target, ms, d);
    match f.mapKind
    case MapBsd(big) => var r := out.WriteBsd(false, slots, m, room, stridx, big, meta);
    case MapCoff => var r := out.WriteCoff(false, slots, m, room, stridx, meta);
    case MapWide =>
      out.WriteWide(false, slots, m, room, stridx, meta);
      WideIsWide(false, slots, m, room, meta);
  }

  lemma WideIsWide(thin: bool, slots: seq<Slot>, m: seq<Orl>, elength: nat, meta: Text)
    requires MapOk(m, |slots|) && MapFits(m, elength) && |meta| == 32
    ensures MapSize(MapWide, m) < MAX_SIZE
    ensures MapBytes(MapWide, thin, slots, m, elength, meta)
            == MapMember(MapWide, meta, m, ReckonedAll(MapWide, thin, slots, m, elength, |m|))
  {
    SizesFit(MapWide, m, elength);
  }

  /** The member with the long names, if there are any. */
  method WriteTable(out: Output, t: Target, table: Text) returns (ok: bool)
    modifies out
    ensures ok <==> Even(|table|) < MAX_SIZE
    ensures ok ==> out.file == old(out.file) + TableBytes(t, table)
  {
    hide Header, Newlines;
    if table == [] {
      return true;
    }
    SizeFits(Even(|table|));
    if SizePad(Even(|table|)).None? {
      return false;
    }
    out.Write(Header(TableName(t), Spaces(32), SizePad(Even(|table|)).value));
    out.Write(table);
    if |table| % 2 == 1 {
      out.Write([NEWLINE]);
    }
    NewlineOne(|table|);
    ok := true;
  }

  /** _bfd_write_archive_contents; fails exactly when a size needs more digits than its field has. */
  method WriteArchive(out: Output, f: Format, ms: seq<Member>, withMap: bool, meta: Text) returns (ok: bool, ghost table: Text)
    requires FormatOk(f) && MembersOk(ms) && |meta| == 32 && out.file == []
    requires withMap ==> MapFits(Orls(ms, Dropped(ms)), RoomOf(TableLength(f.target, ms)))
    modifies out
    ensures ok <==> Fits(f.target, ms) && Even(TableLength(f.target, ms)) < MAX_SIZE
    ensures ok ==> Ready(f, ms, withMap, table) && out.file == Archive(f, ms, withMap, table, meta)
  {
    hide FreshField, NameField, Field, TableSize, Filled, MapFits, Orls, MembersOk, Fits, MapPart, Body, TableBytes, SizeOk;
    var t := f.target;
    table := [];
    var fields: array<Text>;
    fields, ok := FreshFields(t, ms);
    Metas(t, ms);
    if !ok {
      return;
    }
    var names := BuildNames(t, ms, fields);
    table := names[..];
    out.Write(ARMAG);
    var d := 0;
    if withMap {
      d := WriteMap(out, f, ms, RoomOf(names.Length), meta);
    }
    ghost var front := out.file;
    ok := WriteTable(out, t, names[..]);
    if !ok {
      return;
    }
    forall k | 0 <= k < d
      ensures SizeOk(t, ms[k])
    {
      DroppedOk(t, ms, k);
    }
    ok := WriteMembers(out, t, ms, d, fields);
  }

  lemma DroppedOk(t: Target, ms: seq<Member>, k: nat)
    requires TargetOk(t) && k < Dropped(ms) && |ms[k].content| < MAX_SIZE
    ensures SizeOk(t, ms[k])
  {
    hide Extra;
    DroppedSize(t, ms, k);
  }

  lemma Metas(t: Target, ms: seq<Member>)
    requires MembersOk(ms)
    ensures forall k :: 0 <= k < |ms| ==> |ms[k].meta| == 32 && ms[k].name != []
    ensures Fits(t, ms) ==> forall k :: 0 <= k < |ms| ==> |ms[k].content| < MAX_SIZE
  {
    hide Extra;
    forall k | 0 <= k < |ms|
      ensures |ms[k].meta| == 32 && ms[k].name != []
    {
      assert MemberOk(ms[k]);
    }
  }

  /** The target's way of dealing with long names. */
  method BuildNames(t: Target, ms: seq<Member>, fields: array<Text>) returns (table: array<byte>)
    requires TargetOk(t) && fields.Length == |ms|
    requires forall k :: 0 <= k < |ms| ==> ms[k].name != [] && fields[k] == FreshField(t, ms[k].name)
    modifies fields
    ensures table.Length == TableLength(t, ms) && fresh(table)
    ensures t.style != Style.Bsd44 ==> Filled(t, ms, |ms|).table <= table[..]
    ensures forall k :: 0 <= k < |ms| ==> fields[k] == Field(t, ms, k)
  {
    hide FreshField, NameField, TableSize, Filled;
    if t.style == Style.Bsd44 {
      table := new byte[0];
      ExtendFields(t, ms, fields);
    } else {
      table := ConstructNames(t, ms, fields);
    }
  }
}
