/**
  Member names in an archive: short ones in the header, long ones in a table of names that the
  header then points into; and the reader's repair of that table in place (archive.c).
 */
module ArNames {
  import opened Bytes
  import opened Ascii
  import opened ArHeader
  import opened ArMap

  /** SVR4 tables end names with a slash; BSD 4.4 puts a long name after the header instead. */
  datatype Style = Svr4 | BsdTable | Bsd44

  datatype Target = Target(pad: byte, maxName: nat, style: Style, traditional: bool)

  /**
    A member: its file name is the string at pointer ptr, of which the last part, after dir
    characters of directory, is name. syms is its symbol table, empty for one that is no object file.
   */
  datatype Member = Member(ptr: nat, dir: nat, name: Text, meta: Text, content: Text, syms: seq<Symbol>)

  predicate TargetOk(t: Target) {
    14 <= t.maxName <= 16 && (t.pad == SLASH || t.pad == SPACE)
  }

  predicate MemberOk(m: Member) {
    && m.name != [] && NUL !in m.name && SLASH !in m.name && |m.meta| == 32
    && forall k :: 0 <= k < |m.syms| ==> NUL !in m.syms[k].name
  }

  predicate MembersOk(ms: seq<Member>) {
    && (forall i :: 0 <= i < |ms| ==> MemberOk(ms[i]))
    && (forall i, j :: 0 <= i < j < |ms| && ms[i].ptr == ms[j].ptr ==> ms[i].name == ms[j].name && ms[i].dir == ms[j].dir)
  }

  /** How much of a name that goes into the header is kept. */
  function KeptLength(t: Target, name: Text): nat {
    if |name| > t.maxName && t.traditional then t.maxName else |name|
  }

  predicate Tabled(t: Target, m: Member) {
    KeptLength(t, m.name) > t.maxName
  }

  // ----- the name field of a header -----

  function Padding(t: Target, n: nat): Text {
    if n < t.maxName || (n == t.maxName && n < 16) then [t.pad] else []
  }

  /** bfd_dont_truncate_arname on a header of spaces. */
  function FreshField(t: Target, name: Text): (f: Text)
    ensures |f| == 16
  {
    if t.traditional then
      var kept := if |name| <= t.maxName then name else name[..t.maxName];
      SpacePad(kept + (if |kept| < t.maxName then [t.pad] else []), 16)
    else SpacePad(if |name| <= t.maxName then name + Padding(t, |name|) else [], 16)
  }

  /** The first pass of the table builder on a name that fits: the field is put in plain form. */
  function ShortField(t: Target, field: Text, name: Text): (f: Text)
    requires |field| == 16 && TargetOk(t) && KeptLength(t, name) <= t.maxName
    ensures |f| == 16
  {
    var n := KeptLength(t, name);
    if field[..n] != name[..n] || (n < 16 && field[n] != t.pad) then
      name[..n] + Padding(t, n) + field[n + |Padding(t, n)|..]
    else field
  }

  /** The second pass on a name that is in the table at offset off. */
  function LongField(t: Target, field: Text, off: nat): (f: Text)
    requires |field| == 16 && TargetOk(t)
    ensures |f| == 16
  {
    [t.pad] + SpacePad(Decimal(off), t.maxName - 1) + field[t.maxName..]
  }

  lemma ShortFieldIs(t: Target, name: Text)
    requires TargetOk(t) && KeptLength(t, name) <= t.maxName
    ensures var n := KeptLength(t, name);
            ShortField(t, FreshField(t, name), name) == SpacePad(name[..n] + (if n < 16 then [t.pad] else []), 16)
  {
  }

  // ----- the table -----

  function Entry(t: Target, name: Text): Text {
    name + (if t.style == Svr4 then [SLASH] else []) + [NEWLINE]
  }

  /** What the sizing pass adds up to over the first n members. */
  function TableSize(t: Target, ms: seq<Member>, n: nat): nat
    requires n <= |ms|
  {
    if n == 0 then 0
    else TableSize(t, ms, n - 1) + if Tabled(t, ms[n - 1]) then |Entry(t, ms[n - 1].name)| else 0
  }

  /** The filling pass: bytes so far, and the file name last entered with its offset. */
  datatype Fill = Fill(table: Text, last: Option<nat>, off: nat)

  /** A name without directory part at the same pointer as the one last entered shares its entry. */
  predicate Reused(m: Member, f: Fill) {
    f.last == Some(m.ptr) && m.dir == 0
  }

  function FillStep(t: Target, f: Fill, m: Member): Fill {
    if !Tabled(t, m) || Reused(m, f) then f
    else Fill(f.table + Entry(t, m.name), Some(m.ptr), |f.table|)
  }

  function Filled(t: Target, ms: seq<Member>, n: nat): Fill
    requires n <= |ms|
  {
    if n == 0 then Fill([], None, 0) else FillStep(t, Filled(t, ms, n - 1), ms[n - 1])
  }

  function OffsetOf(t: Target, ms: seq<Member>, k: nat): nat
    requires k < |ms|
  {
    Filled(t, ms, k + 1).off
  }

  /** The name field a member is written with, for the two styles with a table. */
  function NameField(t: Target, ms: seq<Member>, k: nat): (f: Text)
    requires k < |ms| && TargetOk(t)
    ensures |f| == 16
  {
    var field := FreshField(t, ms[k].name);
    if Tabled(t, ms[k]) then LongField(t, field, OffsetOf(t, ms, k)) else ShortField(t, field, ms[k].name)
  }

  predicate NoReuse(t: Target, ms: seq<Member>, n: nat)
    requires n <= |ms|
  {
    forall k :: 0 <= k < n && Tabled(t, ms[k]) ==> !Reused(ms[k], Filled(t, ms, k))
  }

  /**
    The filling pass never writes past what the sizing pass allowed for, and fills all of it exactly
    when no name is entered twice in a row.
   */
  lemma {:induction false} SizingIsFilling(t: Target, ms: seq<Member>, n: nat)
    requires n <= |ms|
    ensures |Filled(t, ms, n).table| <= TableSize(t, ms, n)
    ensures |Filled(t, ms, n).table| == TableSize(t, ms, n) <==> NoReuse(t, ms, n)
  {
    if n > 0 {
      SizingIsFilling(t, ms, n - 1);
      assert NoReuse(t, ms, n) <==>
             NoReuse(t, ms, n - 1) && (Tabled(t, ms[n - 1]) ==> !Reused(ms[n - 1], Filled(t, ms, n - 1)));
    }
  }

  /** In traditional format names are cut off instead, and there is no table. */
  lemma {:induction false} TraditionalNoTable(t: Target, ms: seq<Member>, n: nat)
    requires n <= |ms| && t.traditional
    ensures TableSize(t, ms, n) == 0 && Filled(t, ms, n).table == []
  {
    if n > 0 {
      TraditionalNoTable(t, ms, n - 1);
    }
  }

  // ----- the two passes as they run -----

  /** _bfd_construct_extended_name_table; what is not filled keeps whatever the memory held. */
  method ConstructNames(t: Target, ms: seq<Member>, fields: array<Text>) returns (table: array<byte>)
    requires TargetOk(t) && fields.Length == |ms|
    requires forall k :: 0 <= k < |ms| ==> fields[k] == FreshField(t, ms[k].name)
    modifies fields
    ensures table.Length == TableSize(t, ms, |ms|) && fresh(table)
    ensures Filled(t, ms, |ms|).table <= table[..]
    ensures forall k :: 0 <= k < |ms| ==> fields[k] == NameField(t, ms, k)
  {
    hide NameField, FreshField, TableSize, Filled, KeptLength;
    var total := SizePass(t, ms, fields);
    table := new byte[total];
    if total == 0 {
      NothingTabled(t, ms, |ms|);
    } else {
      NotTraditional(t, ms);
      FillPass(t, ms, fields, table);
    }
  }

  /** What the first pass leaves in a header. */
  function SizedField(t: Target, ms: seq<Member>, k: nat): Text
    requires k < |ms| && TargetOk(t)
  {
    if Tabled(t, ms[k]) then FreshField(t, ms[k].name) else NameField(t, ms, k)
  }

  method SizePass(t: Target, ms: seq<Member>, fields: array<Text>) returns (total: nat)
    requires TargetOk(t) && fields.Length == |ms|
    requires forall k :: 0 <= k < |ms| ==> fields[k] == FreshField(t, ms[k].name)
    modifies fields
    ensures total == TableSize(t, ms, |ms|)
    ensures forall k :: 0 <= k < |ms| ==> fields[k] == SizedField(t, ms, k)
  {
    hide FreshField, ShortField, Filled;
    total := 0;
    for k := 0 to |ms|
      invariant total == TableSize(t, ms, k)
      invariant forall j :: k <= j < |ms| ==> fields[j] == FreshField(t, ms[j].name)
      invariant forall j :: 0 <= j < k ==> fields[j] == SizedField(t, ms, j)
    {
      var name := ms[k].name;
      var thisLen := KeptLength(t, name);
      if thisLen > t.maxName {
        total := total + thisLen + 1;
        if t.style == Svr4 {
          total := total + 1;
        }
      } else {
        fields[k] := ShortField(t, fields[k], name);
      }
    }
  }

  method FillPass(t: Target, ms: seq<Member>, fields: array<Text>, table: array<byte>)
    requires TargetOk(t) && fields.Length == |ms| && table.Length == TableSize(t, ms, |ms|) && !t.traditional
    requires forall k :: 0 <= k < |ms| ==> fields[k] == SizedField(t, ms, k)
    modifies fields, table
    ensures Filled(t, ms, |ms|).table <= table[..]
    ensures forall k :: 0 <= k < |ms| ==> fields[k] == NameField(t, ms, k)
  {
    hide FreshField, ShortField, LongField, TableSize, Entry;
    var str: nat, last, lastOff: nat := 0, None, 0;
    for k := 0 to |ms|
      invariant 0 <= str <= table.Length
      invariant Filled(t, ms, k) == Fill(table[..str], last, lastOff)
      invariant forall j :: k <= j < |ms| ==> fields[j] == SizedField(t, ms, j)
      invariant forall j :: 0 <= j < k ==> fields[j] == NameField(t, ms, j)
    {
      var m := ms[k];
      if |m.name| > t.maxName {
        var off := lastOff;
        if last != Some(m.ptr) || m.dir != 0 {
          Room(t, ms, k);
          last, off, lastOff := Some(m.ptr), str, str;
          str := Append(table, str, Entry(t, m.name));
        }
        fields[k] := LongField(t, fields[k], off);
      }
    }
  }

  /** The copy of one entry into the table. */
  method Append(table: array<byte>, str: nat, s: Text) returns (end: nat)
    requires str + |s| <= table.Length
    modifies table
    ensures end == str + |s| && table[..end] == old(table[..str]) + s
  {
    for i := 0 to |s|
      invariant table[..str] == old(table[..str])
      invariant forall j :: 0 <= j < i ==> table[str + j] == s[j]
    {
      table[str + i] := s[i];
    }
    end := str + |s|;
  }

  lemma {:induction false} NothingTabled(t: Target, ms: seq<Member>, n: nat)
    requires n <= |ms| && TableSize(t, ms, n) == 0
    ensures Filled(t, ms, n).table == [] && forall k :: 0 <= k < n ==> !Tabled(t, ms[k])
  {
    if n > 0 {
      NothingTabled(t, ms, n - 1);
    }
  }

  lemma NotTraditional(t: Target, ms: seq<Member>)
    requires TableSize(t, ms, |ms|) > 0
    ensures !t.traditional
  {
    if t.traditional {
      TraditionalNoTable(t, ms, |ms|);
    }
  }

  lemma {:induction false} SizeGrows(t: Target, ms: seq<Member>, a: nat, b: nat)
    requires a <= b <= |ms|
    ensures TableSize(t, ms, a) <= TableSize(t, ms, b)
    decreases b - a
  {
    if a < b {
      SizeGrows(t, ms, a, b - 1);
    }
  }

  lemma Room(t: Target, ms: seq<Member>, k: nat)
    requires k < |ms| && Tabled(t, ms[k])
    ensures |Filled(t, ms, k).table| + |Entry(t, ms[k].name)| <= TableSize(t, ms, |ms|)
  {
    SizingIsFilling(t, ms, k);
    SizeGrows(t, ms, k + 1, |ms|);
  }

  // ----- the reader's repair -----

  function Forward(c: byte): byte {
    if c == BACKSLASH then SLASH else c
  }

  /** The character the repair leaves at position j. */
  function RepairedAt(s: Text, j: nat): byte
    requires j < |s|
  {
    if s[j] == NEWLINE then if j > 0 && Forward(s[j - 1]) == SLASH then NEWLINE else NUL
    else if j + 1 < |s| && s[j + 1] == NEWLINE && Forward(s[j]) == SLASH then NUL
    else Forward(s[j])
  }

  /** The table after the repair, with the NUL that is stored behind it. */
  function Repaired(s: Text): (r: Text)
    ensures |r| == |s| + 1 && r[|s|] == NUL && forall j :: 0 <= j < |s| ==> r[j] == RepairedAt(s, j)
  {
    seq(|s|, j requires 0 <= j < |s| => RepairedAt(s, j)) + [NUL]
  }

  /** The loop of _bfd_slurp_extended_name_table over the table in memory. */
  method Repair(a: array<byte>)
    requires a.Length > 0
    modifies a
    ensures a[..] == Repaired(old(a[..a.Length - 1]))
  {
    var limit := a.Length - 1;
    ghost var s := a[..limit];
    var temp := 0;
    while temp < limit
      invariant 0 <= temp <= limit
      invariant forall j :: temp <= j < limit ==> a[j] == s[j]
      invariant temp > 0 ==> a[temp - 1] == RepairedAt(s[..temp], temp - 1)
      invariant forall j :: 0 <= j < temp - 1 ==> a[j] == RepairedAt(s, j)
    {
      if a[temp] == NEWLINE {
        a[if temp > 0 && a[temp - 1] == SLASH then temp - 1 else temp] := NUL;
      }
      if a[temp] == BACKSLASH {
        a[temp] := SLASH;
      }
      temp := temp + 1;
    }
    assert s[..limit] == s;
    a[limit] := NUL;
  }

  // ----- round trips -----

  lemma {:induction false} FilledGrows(t: Target, ms: seq<Member>, a: nat, b: nat)
    requires a <= b <= |ms|
    ensures Filled(t, ms, a).table <= Filled(t, ms, b).table
    decreases b - a
  {
    if a < b {
      FilledGrows(t, ms, a, b - 1);
    }
  }

  predicate LineStart(table: Text, o: nat) {
    o <= |table| && (o > 0 ==> table[o - 1] == NEWLINE)
  }

  predicate LastEntered(t: Target, m: Member, f: Fill) {
    && Tabled(t, m) && f.off + |Entry(t, m.name)| == |f.table| && f.table[f.off..] == Entry(t, m.name)
    && LineStart(f.table, f.off)
  }

  /** Whatever was last entered stands in the table at its offset, at the start of a line. */
  lemma {:induction false} EntryAt(t: Target, ms: seq<Member>, n: nat)
    requires n <= |ms| && MembersOk(ms) && !t.traditional
    ensures var f := Filled(t, ms, n);
            && (f.last.None? ==> f.table == [])
            && LineStart(f.table, |f.table|)
            && (f.last.Some? ==> exists k :: 0 <= k < n && ms[k].ptr == f.last.value && LastEntered(t, ms[k], f))
  {
    if n > 0 {
      EntryAt(t, ms, n - 1);
      var f, g := Filled(t, ms, n - 1), Filled(t, ms, n);
      if f != g {
        assert g.table[g.off..] == Entry(t, ms[n - 1].name);
        assert LastEntered(t, ms[n - 1], g);
      }
    }
  }

  /** The entry of a tabled member, in the table as it ends up and in anything that continues it. */
  lemma EntryOf(t: Target, ms: seq<Member>, k: nat, table: Text)
    requires k < |ms| && MembersOk(ms) && Tabled(t, ms[k]) && Filled(t, ms, |ms|).table <= table
    ensures var o := OffsetOf(t, ms, k);
            var e := Entry(t, ms[k].name);
            o + |e| <= |table| && table[o..o + |e|] == e && LineStart(table, o)
  {
    var f := Filled(t, ms, k + 1);
    EntryAt(t, ms, k + 1);
    assert f.last.Some?;
    var j :| 0 <= j < k + 1 && ms[j].ptr == f.last.value && LastEntered(t, ms[j], f);
    assert ms[j].name == ms[k].name;
    FilledGrows(t, ms, k + 1, |ms|);
    assert table[..|f.table|] == f.table;
    assert table[f.off..|f.table|] == f.table[f.off..];
  }

  predicate Printable(name: Text) { NEWLINE !in name && BACKSLASH !in name }

  /** Reading an entry of a repaired table gives the name back exactly when it has no newline or backslash. */
  lemma EntryReads(t: Target, table: Text, o: nat, name: Text)
    requires NUL !in name && SLASH !in name && name != []
    requires o + |Entry(t, name)| <= |table| && table[o..o + |Entry(t, name)|] == Entry(t, name)
    requires LineStart(table, o)
    ensures CString(Repaired(table), o) == name <==> Printable(name)
  {
    var r := Repaired(table);
    var e := Entry(t, name);
    forall j | 0 <= j < |e|
      ensures table[o + j] == e[j]
    {
      assert table[o..o + |e|][j] == e[j];
    }
    if Printable(name) {
      PrintableReads(t, table, o, name);
    } else {
      var j := IndexOf(name, NEWLINE, |name|);
      if j < |name| {
        assert table[o + j] == e[j] == NEWLINE && (j > 0 ==> table[o + j - 1] == e[j - 1]);
        assert r[o + j] == NUL || (j > 0 && r[o + j - 1] == NUL);
        if j > 0 && r[o + j - 1] == NUL {
          StopsBefore(r, o, j - 1);
        } else {
          StopsBefore(r, o, j);
        }
      } else {
        assert NEWLINE !in name;
        var b :| 0 <= b < |name| && name[b] == BACKSLASH;
        assert r[o + b] != BACKSLASH;
        assert |CString(r, o)| > b ==> CString(r, o)[b] == r[o + b];
      }
    }
  }

  lemma StopsBefore(r: Text, o: nat, j: nat)
    requires o + j < |r| && r[o + j] == NUL
    ensures |CString(r, o)| <= j
  {
    assert r[o..][j] == NUL;
  }

  lemma PrintableReads(t: Target, table: Text, o: nat, name: Text)
    requires NUL !in name && SLASH !in name && name != [] && Printable(name)
    requires o + |Entry(t, name)| <= |table|
    requires forall j :: 0 <= j < |Entry(t, name)| ==> table[o + j] == Entry(t, name)[j]
    ensures CString(Repaired(table), o) == name
  {
    var r := Repaired(table);
    forall j | 0 <= j < |name|
      ensures r[o + j] == name[j]
    {
      assert table[o + j] == Entry(t, name)[j] == name[j] && name[j] in name;
      assert table[o + j + 1] == Entry(t, name)[j + 1];
      assert Forward(name[j]) == name[j] != SLASH;
    }
    assert r[o..o + |name|] == name;
    assert name[|name| - 1] in name && table[o + |name| - 1] == name[|name| - 1];
    assert table[o + |name|] == Entry(t, name)[|name|];
    assert t.style == Svr4 ==> table[o + (|name| + 1)] == Entry(t, name)[|name| + 1];
    assert r[o + |name|] == NUL;
    CStringIs(r, o, name);
  }

  /**
    The long-name table round trip: the offset in a tabled member's header, looked up in the table
    as written (padded to an even length) and repaired, gives exactly its name.
   */
  lemma TableRoundTrip(t: Target, ms: seq<Member>, k: nat, table: Text)
    requires k < |ms| && MembersOk(ms) && Tabled(t, ms[k]) && Filled(t, ms, |ms|).table <= table
    ensures OffsetOf(t, ms, k) < |table|
    ensures CString(Repaired(table), OffsetOf(t, ms, k)) == ms[k].name <==> Printable(ms[k].name)
  {
    EntryOf(t, ms, k, table);
    assert MemberOk(ms[k]);
    EntryReads(t, table, OffsetOf(t, ms, k), ms[k].name);
  }

  /** The name in a tabled member's header reads as its offset. */
  lemma LongFieldReads(t: Target, name: Text, off: nat, rest: Text)
    requires TargetOk(t) && off < MAX_SIZE && |rest| == HDR - 16
    ensures var h := LongField(t, FreshField(t, name), off) + rest;
            Extended(h, t.maxName) && Strtol(h[1..]) == off
  {
    var f := LongField(t, FreshField(t, name), off);
    var h := f + rest;
    DecimalLength(off, 10);
    Pow10Size();
    var d := Decimal(off);
    var tail := h[1 + |d|..];
    assert h[1..] == d + tail;
    assert tail[0] == SPACE;
    ScanDecimal(off, tail);
    forall i | 1 <= i < t.maxName
      ensures h[i] != SLASH
    {
      assert h[i] == SpacePad(d, t.maxName - 1)[i - 1];
    }
  }

  /** Whether a name that is kept in the header can be told from its padding. */
  predicate Plain(t: Target, name: Text) {
    SPACE !in name || (t.pad == SLASH && |name| < t.maxName)
  }

  /** A header that holds a name in plain form, as far as the reader looks. */
  predicate ShortForm(t: Target, h: Text, name: Text) {
    && TargetOk(t) && |h| == HDR && 0 < |name| <= t.maxName && NUL !in name && SLASH !in name
    && h[..|name|] == name && (|name| < t.maxName ==> h[|name|] == t.pad)
    && forall i :: |name| < i < t.maxName ==> h[i] == SPACE
  }

  /** A name in the header reads back whole exactly when no space in it can be taken for its end. */
  lemma ShortFormReads(t: Target, h: Text, name: Text)
    requires ShortForm(t, h, name)
    ensures ShortName(h, t.maxName) == name <==> Plain(t, name)
  {
    var n := |name|;
    forall i | 0 <= i < n
      ensures h[i] == name[i] && h[i] != NUL && h[i] != SLASH
    {
      assert h[..n][i] == name[i] && name[i] in name;
    }
    assert IndexOf(h, NUL, t.maxName) == t.maxName;
    var at := IndexOf(h, SLASH, t.maxName);
    assert at == if t.pad == SLASH then n else t.maxName;
    if SPACE in name {
      var b :| 0 <= b < n && name[b] == SPACE;
      assert h[b] == SPACE;
      assert at == t.maxName ==> IndexOf(h, SPACE, t.maxName) <= b;
    } else if at == t.maxName {
      assert IndexOf(h, SPACE, t.maxName) == n;
    }
  }

  /** And then it is not taken for an extended name. */
  lemma ShortNotExtended(t: Target, h: Text, name: Text)
    requires ShortForm(t, h, name) && Plain(t, name)
    ensures !Extended(h, t.maxName) && !Bsd44Extended(h)
  {
    var n := |name|;
    forall i | 0 <= i < n
      ensures h[i] == name[i] && h[i] != SLASH
    {
      assert h[..n][i] == name[i] && name[i] in name;
    }
    assert h[..3] == BSD44 ==> h[2] == SLASH && !IsDigit(h[3]);
  }

  /** The field of a name that fits, after the first pass, is in plain form. */
  lemma ShortFieldForm(t: Target, name: Text, rest: Text)
    requires TargetOk(t) && name != [] && KeptLength(t, name) <= t.maxName && NUL !in name && SLASH !in name
    requires |rest| == HDR - 16
    ensures ShortForm(t, ShortField(t, FreshField(t, name), name) + rest, name[..KeptLength(t, name)])
  {
    hide FreshField, ShortField, Padding;
    ShortFieldIs(t, name);
    var n := KeptLength(t, name);
    var h := ShortField(t, FreshField(t, name), name) + rest;
    var f := SpacePad(name[..n] + (if n < 16 then [t.pad] else []), 16);
    forall i | 0 <= i < 16
      ensures h[i] == f[i]
    {
    }
    assert h[..n] == name[..n];
  }

  /** So is the field that bfd_dont_truncate_arname leaves. */
  lemma FreshFieldForm(t: Target, name: Text, rest: Text)
    requires TargetOk(t) && 0 < |name| <= t.maxName && NUL !in name && SLASH !in name && |rest| == HDR - 16
    ensures ShortForm(t, FreshField(t, name) + rest, name)
  {
    var h := FreshField(t, name) + rest;
    assert h[..|name|] == name;
  }
}
