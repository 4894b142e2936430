/**
  The two passes over a message format (bfd.c): the first collects the types of the arguments, the
  second parses the format again and uses them. That the second never reads an argument the first
  did not fill, or through another field, is a counting argument, made here.
 */
module FormatScan {
  import opened Bytes
  import opened Ascii
  import opened FormatSpec

  // ----- the first pass -----

  datatype ScanStep = Overread | Abort | Next(end: nat, count: nat, types: seq<Type>)

  /** A star of the first pass. */
  predicate StarFits(s: Size) {
    s.FromArg? ==> s.index < MAX_ARGS
  }

  function Mark(types: seq<Type>, s: Size): (types': seq<Type>)
    requires StarFits(s) && |types| == MAX_ARGS
    ensures |types'| == MAX_ARGS
  {
    if s.FromArg? then types[s.index := Int] else types
  }

  /** One specifier, in the order in which the code gives up. */
  function ScanAt(fmt: Text, i: nat, count: nat, types: seq<Type>): (r: ScanStep)
    requires i < |fmt| && |types| == MAX_ARGS
    ensures r.Next? ==> i < r.end <= |fmt| && |r.types| == MAX_ARGS
  {
    var start := if Positional(fmt, i + 1) then i + 3 else i + 1;
    var flags := Flags(fmt, start);
    if flags.None? then Overread
    else
      var (width, p3, count1) := SizeAt(fmt, flags.value, count);
      if !StarFits(width) then Abort
      else
        var types1 := Mark(types, width);
        var dot := At(fmt, p3) == DOT;
        var (precision, p4, count2) := if dot then SizeAt(fmt, p3 + 1, count1) else (Digits([]), p3, count1);
        if !StarFits(precision) then Abort
        else
          var types2 := Mark(types1, precision);
          var lens := Lengths(fmt, p4, false, 0);
          if lens.None? then Overread
          else
            var (p5, short, wide) := lens.value;
            var named := fmt[p5] == LOWER_P && (At(fmt, p5 + 1) == UPPER_A || At(fmt, p5 + 1) == UPPER_B);
            var arg := if Positional(fmt, i + 1) then At(fmt, i + 1) as nat - 49 else count2;
            var typ := TypeOf(fmt[p5], short, wide);
            if typ == Bad || arg >= MAX_ARGS then Abort
            else Next(if named then p5 + 2 else p5 + 1, count2 + 1, types2[arg := typ])
  }

  datatype ScanResult = ReadPastEnd | Aborted | ReadPastArgs | Done(count: nat, types: seq<Type>)

  /** The loop that fetches the arguments. */
  function Fetch(count: nat, types: seq<Type>, j: nat): ScanResult
    requires |types| == MAX_ARGS && j <= count
    decreases count - j
  {
    if j == count then Done(count, types)
    else if j >= MAX_ARGS then ReadPastArgs
    else if types[j] == Bad then Aborted
    else Fetch(count, types, j + 1)
  }

  /** _bfd_doprnt_scan from position i on. */
  function ScanFrom(fmt: Text, i: nat, count: nat, types: seq<Type>): ScanResult
    requires i <= |fmt| && |types| == MAX_ARGS
    decreases |fmt| - i
  {
    if i == |fmt| then Fetch(count, types, 0)
    else if fmt[i] != PERCENT then ScanFrom(fmt, NextPercent(fmt, i), count, types)
    else if At(fmt, i + 1) == PERCENT then ScanFrom(fmt, i + 2, count, types)
    else
      match ScanAt(fmt, i, count, types)
      case Overread => ReadPastEnd
      case Abort => Aborted
      case Next(end, count', types') => ScanFrom(fmt, end, count', types')
  }

  const NO_TYPES: seq<Type> := [Bad, Bad, Bad, Bad, Bad, Bad, Bad, Bad, Bad]

  // ----- the arguments a format uses -----

  /** The uses of arguments from position i on, in order; None when some specifier does not parse. */
  function Refs(fmt: Text, i: nat, count: nat): Option<seq<Ref>>
    requires i <= |fmt|
    decreases |fmt| - i
  {
    if i == |fmt| then Some([])
    else if fmt[i] != PERCENT then Refs(fmt, NextPercent(fmt, i), count)
    else if At(fmt, i + 1) == PERCENT then Refs(fmt, i + 2, count)
    else
      match SpecAt(fmt, i, count)
      case None => None
      case Some(s) =>
        var rest := Refs(fmt, s.end, s.count);
        if rest.None? then None else Some(RefsOf(s) + rest.value)
  }

  predicate RefsFit(rs: seq<Ref>) {
    forall k :: 0 <= k < |rs| ==> rs[k].index < MAX_ARGS && rs[k].typ != Bad
  }

  /** The types after the uses rs have been noted in order. */
  function Noted(types: seq<Type>, rs: seq<Ref>): (types': seq<Type>)
    requires |types| == MAX_ARGS && RefsFit(rs)
    ensures |types'| == MAX_ARGS
    decreases |rs|
  {
    if rs == [] then types
    else
      assert RefsFit(rs[1..]);
      assert rs[0].index < MAX_ARGS;
      Noted(types[rs[0].index := rs[0].typ], rs[1..])
  }

  lemma {:induction false} NotedJoin(types: seq<Type>, a: seq<Ref>, b: seq<Ref>)
    requires |types| == MAX_ARGS && RefsFit(a) && RefsFit(b)
    ensures RefsFit(a + b) && Noted(types, a + b) == Noted(Noted(types, a), b)
    decreases |a|
  {
    if a == [] {
      assert a + b == b;
    } else {
      assert RefsFit(a[1..]) && a[0].index < MAX_ARGS;
      NotedJoin(types[a[0].index := a[0].typ], a[1..], b);
      assert (a + b)[1..] == a[1..] + b;
    }
  }

  /** A specifier that the first pass accepts parses, and its uses are what the pass noted. */
  lemma ScanAtSpec(fmt: Text, i: nat, count: nat, types: seq<Type>)
    requires i < |fmt| && |types| == MAX_ARGS && ScanAt(fmt, i, count, types).Next?
    ensures SpecAt(fmt, i, count).Some?
    ensures var s := SpecAt(fmt, i, count).value;
            RefsFit(RefsOf(s)) && ScanAt(fmt, i, count, types) == Next(s.end, count + |RefsOf(s)|, Noted(types, RefsOf(s)))
  {
    hide SizeAt, Flags, Lengths, TypeOf, Noted;
    var s := SpecAt(fmt, i, count).value;
    SizeNoted(types, s.width);
    SizeNoted(Mark(types, s.width), s.precision);
    var last := [Ref(s.arg, s.typ)];
    OneNoted(Mark(Mark(types, s.width), s.precision), s.arg, s.typ);
    NotedJoin(types, SizeRefs(s.width), SizeRefs(s.precision));
    NotedJoin(types, SizeRefs(s.width) + SizeRefs(s.precision), last);
    SpecCounts(fmt, i, count);
  }

  lemma SizeNoted(types: seq<Type>, s: Size)
    requires |types| == MAX_ARGS && StarFits(s)
    ensures RefsFit(SizeRefs(s)) && Noted(types, SizeRefs(s)) == Mark(types, s)
  {
    if s.FromArg? {
      OneNoted(types, s.index, Int);
    }
  }

  lemma OneNoted(types: seq<Type>, index: nat, typ: Type)
    requires |types| == MAX_ARGS && index < MAX_ARGS && typ != Bad
    ensures RefsFit([Ref(index, typ)]) && Noted(types, [Ref(index, typ)]) == types[index := typ]
  {
    var rs := [Ref(index, typ)];
    assert rs[1..] == [];
    assert Noted(types[index := typ], []) == types[index := typ];
  }

  /** When the first pass gets to fetching arguments, it has noted exactly the uses of the format. */
  lemma {:induction false} ScanNotes(fmt: Text, i: nat, count: nat, types: seq<Type>)
    requires i <= |fmt| && |types| == MAX_ARGS && ScanFrom(fmt, i, count, types).Done?
    ensures var rs := Refs(fmt, i, count);
            && rs.Some? && RefsFit(rs.value)
            && ScanFrom(fmt, i, count, types) == Fetch(count + |rs.value|, Noted(types, rs.value), 0)
    decreases |fmt| - i
  {
    hide ScanAt, SpecAt, Noted, Fetch, RefsOf, RefsFit;
    if i == |fmt| {
      NothingNoted(types);
    } else if fmt[i] != PERCENT {
      ScanNotes(fmt, NextPercent(fmt, i), count, types);
    } else if At(fmt, i + 1) == PERCENT {
      ScanNotes(fmt, i + 2, count, types);
    } else {
      ScanAtSpec(fmt, i, count, types);
      SpecCounts(fmt, i, count);
      var s := SpecAt(fmt, i, count).value;
      var types' := Noted(types, RefsOf(s));
      ScanNotes(fmt, s.end, s.count, types');
      NotedJoin(types, RefsOf(s), Refs(fmt, s.end, s.count).value);
    }
  }

  lemma NothingNoted(types: seq<Type>)
    requires |types| == MAX_ARGS
    ensures RefsFit([]) && Noted(types, []) == types
  {
  }

  lemma {:induction false} FetchFilled(count: nat, types: seq<Type>, j: nat)
    requires |types| == MAX_ARGS && j <= count && j <= MAX_ARGS && Fetch(count, types, j).Done?
    ensures Fetch(count, types, j) == Done(count, types) && count <= MAX_ARGS
    ensures forall k :: j <= k < count ==> types[k] != Bad
    decreases count - j
  {
    if j < count {
      FetchFilled(count, types, j + 1);
    }
  }

  // ----- the counting argument -----

  /** An entry that is filled was used; what it holds is what the last use of it said. */
  lemma {:induction false} NotedUsed(types: seq<Type>, rs: seq<Ref>, j: nat) returns (k: nat)
    requires |types| == MAX_ARGS && RefsFit(rs) && j < MAX_ARGS && types[j] == Bad && Noted(types, rs)[j] != Bad
    ensures k < |rs| && rs[k].index == j
    decreases |rs|
  {
    assert rs != [];
    assert RefsFit(rs[1..]);
    if rs[0].index == j {
      k := 0;
    } else {
      var k' := NotedUsed(types[rs[0].index := rs[0].typ], rs[1..], j);
      k := k' + 1;
    }
  }

  /** n numbers among which all numbers below n occur are those numbers, each once. */
  lemma {:induction false} Pigeonhole(xs: seq<nat>, n: nat)
    requires |xs| == n && forall j :: 0 <= j < n ==> j in xs
    ensures forall k :: 0 <= k < n ==> xs[k] < n
    ensures forall k, l :: 0 <= k < l < n ==> xs[k] != xs[l]
    decreases n
  {
    if n > 0 {
      assert n - 1 in xs;
      var at :| 0 <= at < n && xs[at] == n - 1;
      var ys := xs[..at] + xs[at + 1..];
      forall j | 0 <= j < n - 1
        ensures j in ys
      {
        assert j in xs;
        var k :| 0 <= k < n && xs[k] == j;
        assert ys[if k < at then k else k - 1] == j;
      }
      Pigeonhole(ys, n - 1);
      forall k | 0 <= k < n
        ensures xs[k] < n && (k != at ==> xs[k] < n - 1)
      {
        if k != at {
          assert xs[k] == ys[if k < at then k else k - 1];
        }
      }
      forall k, l | 0 <= k < l < n
        ensures xs[k] != xs[l]
      {
        if k != at && l != at {
          assert xs[k] == ys[if k < at then k else k - 1] && xs[l] == ys[if l < at then l else l - 1];
        }
      }
    }
  }

  function Indices(rs: seq<Ref>): (xs: seq<nat>)
    ensures |xs| == |rs| && forall k :: 0 <= k < |rs| ==> xs[k] == rs[k].index
  {
    seq(|rs|, k requires 0 <= k < |rs| => rs[k].index)
  }

  predicate Distinct(rs: seq<Ref>) {
    forall k, l :: 0 <= k < l < |rs| ==> rs[k].index != rs[l].index
  }

  /** With no entry used twice, each holds what its use said. */
  lemma {:induction false} NotedType(types: seq<Type>, rs: seq<Ref>, k: nat)
    requires |types| == MAX_ARGS && RefsFit(rs) && Distinct(rs) && k < |rs|
    ensures rs[k].index < MAX_ARGS && Noted(types, rs)[rs[k].index] == rs[k].typ
    decreases |rs|
  {
    var types1 := types[rs[0].index := rs[0].typ];
    assert RefsFit(rs[1..]) && rs[0].index < MAX_ARGS;
    assert Distinct(rs[1..]);
    if k > 0 {
      NotedType(types1, rs[1..], k - 1);
    } else {
      forall l | 0 <= l < |rs[1..]|
        ensures rs[1..][l].index != rs[0].index
      {
        assert rs[1..][l] == rs[l + 1];
      }
      NotedElsewhere(types1, rs[1..], rs[0].index);
    }
  }

  lemma {:induction false} NotedElsewhere(types: seq<Type>, rs: seq<Ref>, j: nat)
    requires |types| == MAX_ARGS && RefsFit(rs) && j < MAX_ARGS && forall l :: 0 <= l < |rs| ==> rs[l].index != j
    ensures Noted(types, rs)[j] == types[j]
    decreases |rs|
  {
    if rs != [] {
      assert RefsFit(rs[1..]) && rs[0].index < MAX_ARGS;
      NotedElsewhere(types[rs[0].index := rs[0].typ], rs[1..], j);
    }
  }

  /**
    If the first pass returns, the uses in the format hit every argument number below their count
    exactly once, and the type noted for each is the one its use reads.
   */
  lemma ScanSound(fmt: Text)
    requires ScanFrom(fmt, 0, 0, NO_TYPES).Done?
    ensures var r := ScanFrom(fmt, 0, 0, NO_TYPES);
            var rs := Refs(fmt, 0, 0);
            && rs.Some? && |rs.value| == r.count <= MAX_ARGS == |r.types|
            && Distinct(rs.value)
            && forall k :: 0 <= k < |rs.value| ==>
                 rs.value[k].index < r.count && rs.value[k].typ == r.types[rs.value[k].index] != Bad
  {
    hide ScanFrom, Refs;
    ScanNotes(fmt, 0, 0, NO_TYPES);
    var rs := Refs(fmt, 0, 0).value;
    var types := Noted(NO_TYPES, rs);
    FetchFilled(|rs|, types, 0);
    var xs := Indices(rs);
    forall j | 0 <= j < |rs|
      ensures j in xs
    {
      var k := NotedUsed(NO_TYPES, rs, j);
      assert xs[k] == j;
    }
    Pigeonhole(xs, |rs|);
    assert Distinct(rs);
    forall k | 0 <= k < |rs|
      ensures rs[k].index < |rs| && rs[k].typ == types[rs[k].index] != Bad
    {
      assert xs[k] == rs[k].index;
      NotedType(NO_TYPES, rs, k);
    }
  }

  // ----- and no other formats are refused -----

  lemma SpecScanAt(fmt: Text, i: nat, count: nat, types: seq<Type>)
    requires i < |fmt| && |types| == MAX_ARGS && SpecAt(fmt, i, count).Some?
    requires RefsFit(RefsOf(SpecAt(fmt, i, count).value))
    ensures ScanAt(fmt, i, count, types).Next?
  {
    hide SizeAt, Flags, Lengths, TypeOf;
    var s := SpecAt(fmt, i, count).value;
    var rs := RefsOf(s);
    assert rs[|rs| - 1] == Ref(s.arg, s.typ);
    if s.width.FromArg? {
      assert rs[0] == Ref(s.width.index, Int);
    }
    if s.precision.FromArg? {
      assert rs[|rs| - 2] == Ref(s.precision.index, Int);
    }
  }

  lemma {:induction false} ScanFits(fmt: Text, i: nat, count: nat, types: seq<Type>)
    requires i <= |fmt| && |types| == MAX_ARGS && Refs(fmt, i, count).Some? && RefsFit(Refs(fmt, i, count).value)
    ensures var rs := Refs(fmt, i, count).value;
            ScanFrom(fmt, i, count, types) == Fetch(count + |rs|, Noted(types, rs), 0)
    decreases |fmt| - i
  {
    hide ScanAt, SpecAt, Noted, Fetch, RefsOf;
    if i == |fmt| {
      NothingNoted(types);
    } else if fmt[i] != PERCENT {
      ScanFits(fmt, NextPercent(fmt, i), count, types);
    } else if At(fmt, i + 1) == PERCENT {
      ScanFits(fmt, i + 2, count, types);
    } else {
      var s := SpecAt(fmt, i, count).value;
      var rest := Refs(fmt, s.end, s.count).value;
      FitsParts(RefsOf(s), rest);
      SpecScanAt(fmt, i, count, types);
      ScanAtSpec(fmt, i, count, types);
      SpecCounts(fmt, i, count);
      ScanFits(fmt, s.end, s.count, Noted(types, RefsOf(s)));
      NotedJoin(types, RefsOf(s), rest);
    }
  }

  lemma FitsParts(a: seq<Ref>, b: seq<Ref>)
    requires RefsFit(a + b)
    ensures RefsFit(a) && RefsFit(b)
  {
    forall k | 0 <= k < |a|
      ensures a[k].index < MAX_ARGS && a[k].typ != Bad
    {
      assert (a + b)[k] == a[k];
    }
    forall k | 0 <= k < |b|
      ensures b[k].index < MAX_ARGS && b[k].typ != Bad
    {
      assert (a + b)[|a| + k] == b[k];
    }
  }

  lemma {:induction false} NotedFills(types: seq<Type>, rs: seq<Ref>, j: nat)
    requires |types| == MAX_ARGS && RefsFit(rs) && j < MAX_ARGS
    requires types[j] != Bad || exists k :: 0 <= k < |rs| && rs[k].index == j
    ensures Noted(types, rs)[j] != Bad
    decreases |rs|
  {
    if rs != [] {
      assert RefsFit(rs[1..]) && rs[0].index < MAX_ARGS;
      var types1 := types[rs[0].index := rs[0].typ];
      if types1[j] == Bad {
        var k :| 0 <= k < |rs| && rs[k].index == j;
        assert rs[1..][k - 1] == rs[k];
      }
      NotedFills(types1, rs[1..], j);
    }
  }

  lemma {:induction false} FetchAll(count: nat, types: seq<Type>, j: nat)
    requires |types| == MAX_ARGS && j <= count <= MAX_ARGS && forall k :: j <= k < count ==> types[k] != Bad
    ensures Fetch(count, types, j) == Done(count, types)
    decreases count - j
  {
    if j < count {
      FetchAll(count, types, j + 1);
    }
  }

  /** The uses are all known, and cover the numbers below their count. */
  predicate Complete(rs: seq<Ref>) {
    RefsFit(rs) && |rs| <= MAX_ARGS && forall j :: 0 <= j < |rs| ==> j in Indices(rs)
  }

  /** The first pass returns exactly for the formats that parse and use each of their arguments. */
  lemma ScanExactly(fmt: Text)
    ensures ScanFrom(fmt, 0, 0, NO_TYPES).Done? <==> Refs(fmt, 0, 0).Some? && Complete(Refs(fmt, 0, 0).value)
  {
    hide ScanFrom, Refs;
    if ScanFrom(fmt, 0, 0, NO_TYPES).Done? {
      ScanSound(fmt);
      ScanNotes(fmt, 0, 0, NO_TYPES);
      var rs := Refs(fmt, 0, 0).value;
      var types := Noted(NO_TYPES, rs);
      FetchFilled(|rs|, types, 0);
      forall j | 0 <= j < |rs|
        ensures j in Indices(rs)
      {
        var k := NotedUsed(NO_TYPES, rs, j);
        assert Indices(rs)[k] == j;
      }
    }
    if Refs(fmt, 0, 0).Some? && Complete(Refs(fmt, 0, 0).value) {
      var rs := Refs(fmt, 0, 0).value;
      ScanFits(fmt, 0, 0, NO_TYPES);
      forall j | 0 <= j < |rs|
        ensures Noted(NO_TYPES, rs)[j] != Bad
      {
        assert j in Indices(rs);
        NotedFills(NO_TYPES, rs, j);
      }
      FetchAll(|rs|, Noted(NO_TYPES, rs), 0);
    }
  }

  // ----- the first pass as it runs -----

  method SkipFlags(fmt: Text, i: nat) returns (r: Option<nat>)
    ensures r == Flags(fmt, i)
  {
    var ptr := i;
    while ptr < |fmt| && IsFlag(fmt[ptr])
      invariant i <= ptr && Flags(fmt, i) == Flags(fmt, ptr)
      decreases |fmt| - ptr
    {
      ptr := ptr + 1;
    }
    r := if ptr < |fmt| then Some(ptr) else None;
  }

  method SkipDigits(fmt: Text, i: nat) returns (j: nat)
    ensures j == DigitsEnd(fmt, i)
  {
    j := i;
    while j < |fmt| && IsDigit(fmt[j])
      invariant i <= j && DigitsEnd(fmt, i) == DigitsEnd(fmt, j)
      decreases |fmt| - j
    {
      j := j + 1;
    }
  }

  method ReadLengths(fmt: Text, i: nat) returns (r: Option<(nat, bool, nat)>)
    ensures r == Lengths(fmt, i, false, 0)
  {
    var ptr, short, wide := i, false, 0;
    while ptr < |fmt| && IsLength(fmt[ptr])
      invariant i <= ptr && 0 <= wide && Lengths(fmt, i, false, 0) == Lengths(fmt, ptr, short, wide)
      decreases |fmt| - ptr
    {
      if fmt[ptr] == LOWER_H {
        short := true;
      } else if fmt[ptr] == LOWER_L {
        wide := wide + 1;
      } else {
        wide := 2;
      }
      ptr := ptr + 1;
    }
    r := if ptr < |fmt| then Some((ptr, short, wide)) else None;
  }

  /** A width or precision in the first pass: a star notes an int, anything else is passed over. */
  method ScanSize(fmt: Text, i: nat, count: nat, args: array<Type>) returns (ok: bool, next: nat, count': nat)
    requires i <= |fmt| && args.Length == MAX_ARGS
    modifies args
    ensures var (s, end, c) := SizeAt(fmt, i, count);
            && ok == StarFits(s) && (ok ==> next == end && count' == c && args[..] == Mark(old(args[..]), s))
  {
    next, count' := i, count;
    if At(fmt, next) == STAR {
      next := next + 1;
      var argIndex := count;
      if Positional(fmt, next) {
        argIndex := At(fmt, next) as nat - 49;
        next := next + 2;
      }
      if argIndex >= MAX_ARGS {
        return false, next, count;
      }
      args[argIndex] := Int;
      count' := count + 1;
    } else {
      next := SkipDigits(fmt, next);
    }
    ok := true;
  }

  /** One specifier of the first pass. */
  method ScanSpecifier(fmt: Text, i: nat, count: nat, args: array<Type>) returns (r: ScanStep)
    requires i < |fmt| && args.Length == MAX_ARGS
    modifies args
    ensures r == ScanAt(fmt, i, count, old(args[..])) && (r.Next? ==> args[..] == r.types)
  {
    hide SizeAt, Flags, Lengths, TypeOf, Mark, StarFits;
    var ptr := i + 1;
    var argNo := None;
    if Positional(fmt, ptr) {
      argNo := Some(At(fmt, ptr) as nat - 49);
      ptr := ptr + 2;
    }
    var flags := SkipFlags(fmt, ptr);
    if flags.None? {
      return Overread;
    }
    ptr := flags.value;
    var ok, argCount;
    ok, ptr, argCount := ScanSize(fmt, ptr, count, args);
    if !ok {
      return Abort;
    }
    if At(fmt, ptr) == DOT {
      ok, ptr, argCount := ScanSize(fmt, ptr + 1, argCount, args);
      if !ok {
        return Abort;
      }
    } else {
      NoStar(args[..]);
    }
    var lens := ReadLengths(fmt, ptr);
    if lens.None? {
      return Overread;
    }
    ptr := lens.value.0 + 1;
    if argNo == None {
      argNo := Some(argCount);
    }
    var argType := TypeOf(fmt[ptr - 1], lens.value.1, lens.value.2);
    if fmt[ptr - 1] == LOWER_P && (At(fmt, ptr) == UPPER_A || At(fmt, ptr) == UPPER_B) {
      ptr := ptr + 1;
    }
    if argType == Bad || argNo.value >= MAX_ARGS {
      return Abort;
    }
    args[argNo.value] := argType;
    r := Next(ptr, argCount + 1, args[..]);
  }

  lemma NoStar(types: seq<Type>)
    requires |types| == MAX_ARGS
    ensures StarFits(Digits([])) && Mark(types, Digits([])) == types
  {
  }

  /** _bfd_doprnt_scan */
  method DoprntScan(fmt: Text, args: array<Type>) returns (r: ScanResult)
    requires args.Length == MAX_ARGS
    modifies args
    ensures r == ScanFrom(fmt, 0, 0, NO_TYPES)
  {
    hide ScanAt, Fetch;
    for i := 0 to MAX_ARGS
      invariant forall j :: 0 <= j < i ==> args[j] == Bad
    {
      args[i] := Bad;
    }
    assert args[..] == NO_TYPES;
    var ptr, argCount := 0, 0;
    while ptr < |fmt|
      invariant 0 <= ptr <= |fmt| && 0 <= argCount
      invariant ScanFrom(fmt, 0, 0, NO_TYPES) == ScanFrom(fmt, ptr, argCount, args[..])
      decreases |fmt| - ptr
    {
      if fmt[ptr] != PERCENT {
        ptr := FindPercent(fmt, ptr);
      } else if At(fmt, ptr + 1) == PERCENT {
        ptr := ptr + 2;
      } else {
        var step := ScanSpecifier(fmt, ptr, argCount, args);
        match step
        case Overread => return ReadPastEnd;
        case Abort => return Aborted;
        case Next(end, count, _) => ptr, argCount := end, count;
      }
    }
    r := FetchArgs(argCount, args);
  }

  /** strchr for a percent sign, or the end of the format. */
  method FindPercent(fmt: Text, i: nat) returns (j: nat)
    requires i <= |fmt|
    ensures j == NextPercent(fmt, i)
  {
    j := i;
    while j < |fmt| && fmt[j] != PERCENT
      invariant i <= j <= |fmt| && NextPercent(fmt, i) == NextPercent(fmt, j)
    {
      j := j + 1;
    }
  }

  method FetchArgs(count: nat, args: array<Type>) returns (r: ScanResult)
    requires args.Length == MAX_ARGS
    ensures r == Fetch(count, args[..], 0)
  {
    var i := 0;
    while i < count
      invariant 0 <= i <= count && Fetch(count, args[..], 0) == Fetch(count, args[..], i)
    {
      if i >= MAX_ARGS {
        return ReadPastArgs;
      }
      if args[i] == Bad {
        return Aborted;
      }
      i := i + 1;
    }
    r := Done(count, args[..]);
  }
}
