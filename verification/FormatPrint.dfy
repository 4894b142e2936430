/**
  The second pass over a message format (bfd.c): what it prints and which argument it reads through
  which field; after a first pass that returned, it reads each argument once, as it was filled, and
  stays in its buffer as long as each specifier it builds is short enough.
 */
module FormatPrint {
  import opened Bytes
  import opened Ascii
  import opened FormatSpec
  import opened FormatScan

  /** The argument union as the first pass fills it: the field that was set, and an int or a null pointer's worth of it. */
  datatype Arg = NoArg | IntArg(i: int) | LongArg | LongLongArg | DoubleArg | LongDoubleArg | PtrArg(isNull: bool)

  /** A call of the print function. */
  datatype Call =
    | PrintText(text: Text)
    | PrintPercent
    | PrintArg(specifier: Text, index: nat)
    | PrintSection(index: nat)
    | PrintBfd(index: nat)

  /** char specifier[128] */
  const SPECIFIER_SIZE := 128

  /**
    What the pass does: its calls, and the arguments it read with the field it read them by; or one of
    its two aborts; or Undefined, when it reads an argument by another field or none at all, reads past
    the end of the format, or writes past the end of its buffer.
   */
  datatype Output = Printed(calls: seq<Call>, uses: seq<Ref>) | NullPointer | UnknownConversion | Undefined

  function TypeOfArg(a: Arg): Type {
    match a
    case NoArg => Bad
    case IntArg(_) => Int
    case LongArg => Long
    case LongLongArg => LongLong
    case DoubleArg => Double
    case LongDoubleArg => LongDouble
    case PtrArg(_) => Ptr
  }

  /** Argument index can be read as typ. */
  predicate Readable(args: seq<Arg>, index: nat, typ: Type) {
    index < |args| && TypeOfArg(args[index]) == typ
  }

  function Abs(v: int): nat {
    if v < 0 then -v else v
  }

  predicate SizeReadable(s: Size, args: seq<Arg>) {
    s.FromArg? ==> Readable(args, s.index, Int)
  }

  function SizeText(s: Size, args: seq<Arg>): Text
    requires SizeReadable(s, args)
  {
    match s
    case Digits(text) => text
    case FromArg(index) => Decimal(Abs(args[index].i))
  }

  function FrontText(f: Front, args: seq<Arg>): Text
    requires SizeReadable(f.width, args) && SizeReadable(f.precision, args)
  {
    [PERCENT] + f.flags + SizeText(f.width, args) + (if f.dot then [DOT] else []) + SizeText(f.precision, args)
  }

  /** The specifier handed on to the C library: stars replaced by what they stand for, no argument number. */
  function Specifier(s: Spec, args: seq<Arg>): Text
    requires SizeReadable(s.width, args) && SizeReadable(s.precision, args)
  {
    [PERCENT] + s.flags + SizeText(s.width, args) + (if s.dot then [DOT] else []) + SizeText(s.precision, args)
    + s.lengths + [s.conv]
  }

  /** The buffer holds the specifier and its terminator. */
  predicate SpecFits(s: Spec, args: seq<Arg>) {
    && SizeReadable(s.width, args) && SizeReadable(s.precision, args)
    && |Specifier(s, args)| < SPECIFIER_SIZE
  }

  function CallOf(s: Spec, args: seq<Arg>): Call
    requires SizeReadable(s.width, args) && SizeReadable(s.precision, args)
  {
    if s.suffix == Some(UPPER_A) then PrintSection(s.arg)
    else if s.suffix == Some(UPPER_B) then PrintBfd(s.arg)
    else PrintArg(Specifier(s, args), s.arg)
  }

  /** One specifier of the second pass. */
  function PrintSpec(s: Spec, args: seq<Arg>): Output {
    if !SpecFits(s, args) then Undefined
    else if s.typ == Bad then UnknownConversion
    else if !Readable(args, s.arg, s.typ) then Undefined
    else if s.suffix.Some? && s.typ == Ptr && args[s.arg].isNull then NullPointer
    else Printed([CallOf(s, args)], RefsOf(s))
  }

  function Then(a: Output, b: Output): Output {
    if a.Printed? && b.Printed? then Printed(a.calls + b.calls, a.uses + b.uses) else if a.Printed? then b else a
  }

  /** _bfd_doprnt from position i on, with a print function that returns what it printed. */
  function Print(fmt: Text, i: nat, count: nat, args: seq<Arg>): Output
    requires i <= |fmt|
    decreases |fmt| - i
  {
    if i == |fmt| then Printed([], [])
    else if fmt[i] != PERCENT then
      Then(Printed([PrintText(fmt[i..NextPercent(fmt, i)])], []), Print(fmt, NextPercent(fmt, i), count, args))
    else if At(fmt, i + 1) == PERCENT then Then(Printed([PrintPercent], []), Print(fmt, i + 2, count, args))
    else
      match SpecAt(fmt, i, count)
      case None => Undefined
      case Some(s) => Then(PrintSpec(s, args), Print(fmt, s.end, s.count, args))
  }

  // ----- it only reads what was filled -----

  /** Every use finds its argument filled by its own field. */
  predicate Provided(rs: seq<Ref>, args: seq<Arg>) {
    forall k :: 0 <= k < |rs| ==> Readable(args, rs[k].index, rs[k].typ) && rs[k].typ != Bad
  }

  lemma ProvidedParts(a: seq<Ref>, b: seq<Ref>, args: seq<Arg>)
    requires Provided(a + b, args)
    ensures Provided(a, args) && Provided(b, args)
  {
    forall k | 0 <= k < |a|
      ensures Readable(args, a[k].index, a[k].typ) && a[k].typ != Bad
    {
      assert (a + b)[k] == a[k];
    }
    forall k | 0 <= k < |b|
      ensures Readable(args, b[k].index, b[k].typ) && b[k].typ != Bad
    {
      assert (a + b)[|a| + k] == b[k];
    }
  }

  lemma SpecProvided(s: Spec, args: seq<Arg>)
    requires Provided(RefsOf(s), args)
    ensures !SpecFits(s, args) ==> PrintSpec(s, args) == Undefined
    ensures SpecFits(s, args) ==>
              PrintSpec(s, args) == NullPointer || (PrintSpec(s, args).Printed? && PrintSpec(s, args).uses == RefsOf(s))
    ensures SpecFits(s, args) && NoNulls(args) ==> PrintSpec(s, args).Printed?
  {
    var rs := RefsOf(s);
    assert rs[|rs| - 1] == Ref(s.arg, s.typ);
    if s.width.FromArg? {
      assert rs[0] == Ref(s.width.index, Int);
    }
    if s.precision.FromArg? {
      assert rs[|rs| - 2] == Ref(s.precision.index, Int);
    }
  }

  /** Every specifier of the format, its stars replaced by the arguments, fits into the buffer. */
  predicate AllFit(fmt: Text, i: nat, count: nat, args: seq<Arg>)
    requires i <= |fmt|
    decreases |fmt| - i
  {
    if i == |fmt| then true
    else if fmt[i] != PERCENT then AllFit(fmt, NextPercent(fmt, i), count, args)
    else if At(fmt, i + 1) == PERCENT then AllFit(fmt, i + 2, count, args)
    else
      match SpecAt(fmt, i, count)
      case None => false
      case Some(s) => SpecFits(s, args) && AllFit(fmt, s.end, s.count, args)
  }

  predicate NoNulls(args: seq<Arg>) {
    forall k :: 0 <= k < |args| ==> args[k] != PtrArg(true)
  }

  lemma {:induction false} PrintProvided(fmt: Text, i: nat, count: nat, args: seq<Arg>)
    requires i <= |fmt| && Refs(fmt, i, count).Some? && Provided(Refs(fmt, i, count).value, args)
    ensures var r := Print(fmt, i, count, args);
            && (r == NullPointer || r == Undefined || (r.Printed? && r.uses == Refs(fmt, i, count).value))
            && (r == Undefined ==> !AllFit(fmt, i, count, args))
            && (r.Printed? ==> AllFit(fmt, i, count, args))
            && (NoNulls(args) ==> r != NullPointer)
    decreases |fmt| - i
  {
    hide SpecAt, PrintSpec, SpecFits, RefsOf, NoNulls, Provided;
    if i == |fmt| {
    } else if fmt[i] != PERCENT {
      PrintProvided(fmt, NextPercent(fmt, i), count, args);
    } else if At(fmt, i + 1) == PERCENT {
      PrintProvided(fmt, i + 2, count, args);
    } else {
      var s := SpecAt(fmt, i, count).value;
      ProvidedParts(RefsOf(s), Refs(fmt, s.end, s.count).value, args);
      SpecProvided(s, args);
      PrintProvided(fmt, s.end, s.count, args);
    }
  }

  /** The arguments as the first pass leaves them. */
  predicate FilledBy(args: seq<Arg>, count: nat, types: seq<Type>) {
    |args| == MAX_ARGS == |types| && count <= MAX_ARGS && forall k :: 0 <= k < count ==> TypeOfArg(args[k]) == types[k]
  }

  /**
    When the first pass has returned, the second reads every argument exactly once, each through the
    field the first pass filled, and never runs past the format or the arguments. It gives up only for
    a null section or file, and overruns its buffer exactly when some specifier is too long for it.
   */
  lemma PrintSound(fmt: Text, args: seq<Arg>)
    requires ScanFrom(fmt, 0, 0, NO_TYPES).Done?
    requires FilledBy(args, ScanFrom(fmt, 0, 0, NO_TYPES).count, ScanFrom(fmt, 0, 0, NO_TYPES).types)
    ensures var r := Print(fmt, 0, 0, args);
            var count := ScanFrom(fmt, 0, 0, NO_TYPES).count;
            && (r.Printed? || r == NullPointer || r == Undefined)
            && (NoNulls(args) ==> if AllFit(fmt, 0, 0, args) then r.Printed? else r == Undefined)
            && (AllFit(fmt, 0, 0, args) ==> r.Printed? || r == NullPointer)
            && (r.Printed? ==>
                  && |r.uses| == count && Distinct(r.uses)
                  && forall k :: 0 <= k < count ==> r.uses[k].index < count && r.uses[k].typ == TypeOfArg(args[r.uses[k].index]))
  {
    hide ScanFrom, Refs, Print, AllFit;
    ScanSound(fmt);
    var rs := Refs(fmt, 0, 0).value;
    PrintProvided(fmt, 0, 0, args);
  }

  // ----- the second pass as it runs -----

  /** sprintf of a number, or the copy of one character: ok if there is room for it and a terminator. */
  method Put(buf: array<byte>, sptr: nat, text: Text) returns (ok: bool, next: nat)
    requires sptr <= buf.Length
    modifies buf
    ensures ok == (sptr + |text| < buf.Length)
    ensures ok ==> next == sptr + |text| && buf[..next] == old(buf[..sptr]) + text
    ensures !ok ==> next == sptr
  {
    next := sptr;
    if sptr + |text| >= buf.Length {
      return false, next;
    }
    for k := 0 to |text|
      invariant next == sptr + k && buf[..next] == old(buf[..sptr]) + text[..k]
    {
      buf[next] := text[k];
      next := next + 1;
    }
    ok := true;
  }

  /** A width or precision: a star is replaced by its argument, digits are copied. */
  method PrintSize(fmt: Text, i: nat, count: nat, args: seq<Arg>, buf: array<byte>, sptr: nat)
    returns (ok: bool, next: nat, count': nat, sptr': nat, uses: seq<Ref>)
    requires i <= |fmt| && sptr < buf.Length
    modifies buf
    ensures var (s, end, c) := SizeAt(fmt, i, count);
            && ok == (SizeReadable(s, args) && sptr + |SizeText(s, args)| < buf.Length)
            && (ok ==> next == end && count' == c && sptr' == sptr + |SizeText(s, args)| && uses == SizeRefs(s)
                       && buf[..sptr'] == old(buf[..sptr]) + SizeText(s, args))
  {
    next, count', sptr', uses := i, count, sptr, [];
    if At(fmt, next) == STAR {
      next := next + 1;
      var argIndex := count;
      if Positional(fmt, next) {
        argIndex := At(fmt, next) as nat - 49;
        next := next + 2;
      }
      if !Readable(args, argIndex, Int) {
        ok := false;
        return;
      }
      count' := count + 1;
      ok, sptr' := Put(buf, sptr, Decimal(Abs(args[argIndex].i)));
      uses := [Ref(argIndex, Int)];
    } else {
      ok := true;
      while next < |fmt| && IsDigit(fmt[next])
        invariant i <= next <= |fmt| && DigitsEnd(fmt, i) == DigitsEnd(fmt, next)
        invariant sptr' == sptr + (next - i) < buf.Length && buf[..sptr'] == old(buf[..sptr]) + fmt[i..next]
      {
        ok, sptr' := Put(buf, sptr', [fmt[next]]);
        next := next + 1;
        if !ok {
          return;
        }
      }
    }
  }

  method CopyFlags(fmt: Text, i: nat, buf: array<byte>, sptr: nat) returns (r: Option<nat>, sptr': nat)
    requires sptr < buf.Length
    modifies buf
    ensures match Flags(fmt, i)
            case None => r == None
            case Some(end) =>
              && (r == if sptr + (end - i) < buf.Length then Some(end) else None)
              && (r.Some? ==> sptr' == sptr + (end - i) && buf[..sptr'] == old(buf[..sptr]) + fmt[i..end])
  {
    var ptr := i;
    var ok;
    sptr' := sptr;
    while ptr < |fmt| && IsFlag(fmt[ptr])
      invariant i <= ptr && Flags(fmt, i) == Flags(fmt, ptr) && (ptr <= |fmt| || ptr == i)
      invariant sptr' == sptr + (ptr - i) < buf.Length
      invariant ptr <= |fmt| ==> buf[..sptr'] == old(buf[..sptr]) + fmt[i..ptr]
      invariant ptr > |fmt| ==> buf[..sptr'] == old(buf[..sptr])
      decreases |fmt| - ptr
    {
      ok, sptr' := Put(buf, sptr', [fmt[ptr]]);
      ptr := ptr + 1;
      if !ok {
        return None, sptr';
      }
    }
    r := if ptr < |fmt| then Some(ptr) else None;
  }

  method CopyLengths(fmt: Text, i: nat, buf: array<byte>, sptr: nat) returns (r: Option<(nat, bool, nat)>, sptr': nat)
    requires i <= |fmt| && sptr < buf.Length
    modifies buf
    ensures match Lengths(fmt, i, false, 0)
            case None => r == None
            case Some(l) =>
              && (r == if sptr + (l.0 - i) < buf.Length then Some(l) else None)
              && (r.Some? ==> sptr' == sptr + (l.0 - i) && buf[..sptr'] == old(buf[..sptr]) + fmt[i..l.0])
  {
    var ptr, short, wide := i, false, 0;
    var ok;
    sptr' := sptr;
    while ptr < |fmt| && IsLength(fmt[ptr])
      invariant i <= ptr <= |fmt| && 0 <= wide && Lengths(fmt, i, false, 0) == Lengths(fmt, ptr, short, wide)
      invariant sptr' == sptr + (ptr - i) < buf.Length && buf[..sptr'] == old(buf[..sptr]) + fmt[i..ptr]
    {
      if fmt[ptr] == LOWER_H {
        short := true;
      } else if fmt[ptr] == LOWER_L {
        wide := wide + 1;
      } else {
        wide := 2;
      }
      ok, sptr' := Put(buf, sptr', [fmt[ptr]]);
      ptr := ptr + 1;
      if !ok {
        return None, sptr';
      }
    }
    r := if ptr < |fmt| then Some((ptr, short, wide)) else None;
  }

  /** What the pass does with the specifier at i. */
  function PrintAt(fmt: Text, i: nat, count: nat, args: seq<Arg>): Output
    requires i < |fmt|
  {
    match SpecAt(fmt, i, count)
    case None => Undefined
    case Some(s) => PrintSpec(s, args)
  }

  predicate FrontFits(f: Front, args: seq<Arg>, room: nat) {
    SizeReadable(f.width, args) && SizeReadable(f.precision, args) && |FrontText(f, args)| < room
  }

  /** Flags, width and precision, copied or filled in. */
  method BuildFront(fmt: Text, i: nat, count: nat, args: seq<Arg>, buf: array<byte>)
    returns (ok: bool, sptr: nat, ptr: nat, count': nat, uses: seq<Ref>)
    requires buf.Length > 1
    modifies buf
    ensures ok <==> FrontAt(fmt, i, count).Some? && FrontFits(FrontAt(fmt, i, count).value, args, buf.Length)
    ensures ok ==>
              var f := FrontAt(fmt, i, count).value;
              && sptr == |FrontText(f, args)| && buf[..sptr] == FrontText(f, args)
              && ptr == f.end && count' == f.count && uses == SizeRefs(f.width) + SizeRefs(f.precision)
  {
    hide SizeAt, Flags, SizeText, SizeReadable, SizeRefs;
    ptr, count', uses := i, count, [];
    ok, sptr := Put(buf, 0, [PERCENT]);
    assert buf[..sptr] == [PERCENT];
    var flags, width, precision;
    flags, sptr := CopyFlags(fmt, ptr, buf, sptr);
    if flags.None? {
      ok := false;
      return;
    }
    ok, ptr, count', sptr, width := PrintSize(fmt, flags.value, count, args, buf, sptr);
    if !ok {
      return;
    }
    if At(fmt, ptr) == DOT {
      ok, sptr := Put(buf, sptr, [DOT]);
      if !ok {
        return;
      }
      ok, ptr, count', sptr, precision := PrintSize(fmt, ptr + 1, count', args, buf, sptr);
      if !ok {
        return;
      }
    } else {
      precision := [];
      NoPrecision(args);
    }
    uses := width + precision;
  }

  /** Parsing a specifier and building the one to hand on, up to its conversion character. */
  method BuildSpecifier(fmt: Text, i: nat, count: nat, args: seq<Arg>, buf: array<byte>)
    returns (ok: bool, specifier: Text, ptr: nat, argNo: nat, typ: Type, count': nat, uses: seq<Ref>)
    requires i < |fmt| && buf.Length == SPECIFIER_SIZE
    modifies buf
    ensures ok <==> SpecAt(fmt, i, count).Some? && SpecFits(SpecAt(fmt, i, count).value, args)
    ensures ok ==>
              && i < ptr <= |fmt|
              && var s := SpecAt(fmt, i, count).value;
              && specifier == Specifier(s, args) && argNo == s.arg && typ == s.typ && count' == s.count
              && uses == SizeRefs(s.width) + SizeRefs(s.precision)
              && fmt[ptr - 1] == s.conv && ptr == s.end - (if s.suffix.Some? then 1 else 0) && s.suffix == SuffixAt(fmt, ptr)
  {
    hide FrontAt, Lengths, TypeOf, SizeText, SizeReadable, SizeRefs, Specifier, FrontText;
    specifier, ptr, argNo, typ, count', uses := [], i + 1, 0, Bad, count, [];
    var positional := Positional(fmt, ptr);
    if positional {
      argNo := At(fmt, ptr) as nat - 49;
      ptr := ptr + 2;
    }
    FrontOfSpec(fmt, i, count, args);
    var sptr;
    ok, sptr, ptr, count', uses := BuildFront(fmt, ptr, count, args, buf);
    if !ok {
      return;
    }
    var lens;
    lens, sptr := CopyLengths(fmt, ptr, buf, sptr);
    if lens.None? {
      ok := false;
      return;
    }
    ok, sptr := Put(buf, sptr, [fmt[lens.value.0]]);
    if !ok {
      return;
    }
    buf[sptr] := NUL;
    specifier := buf[..sptr];
    ptr := lens.value.0 + 1;
    if !positional {
      argNo := count';
    }
    typ := TypeOf(fmt[ptr - 1], lens.value.1, lens.value.2);
    count' := count' + 1;
  }

  /** A specifier is what its front and its lengths make of it. */
  lemma FrontOfSpec(fmt: Text, i: nat, count: nat, args: seq<Arg>)
    requires i < |fmt|
    ensures match FrontAt(fmt, StartAt(fmt, i), count)
            case None => SpecAt(fmt, i, count) == None
            case Some(f) =>
              match Lengths(fmt, f.end, false, 0)
              case None => SpecAt(fmt, i, count) == None
              case Some(l) =>
                && SpecAt(fmt, i, count).Some?
                && var s := SpecAt(fmt, i, count).value;
                && s.width == f.width && s.precision == f.precision
                && (SizeReadable(f.width, args) && SizeReadable(f.precision, args) ==>
                      Specifier(s, args) == FrontText(f, args) + fmt[f.end..l.0] + [fmt[l.0]])
  {
    hide FrontAt, Lengths, SizeText, SizeReadable;
  }

  /** One specifier. */
  method PrintSpecifier(fmt: Text, i: nat, count: nat, args: seq<Arg>, buf: array<byte>)
    returns (r: Output, end: nat, count': nat)
    requires i < |fmt| && buf.Length == SPECIFIER_SIZE
    modifies buf
    ensures r == PrintAt(fmt, i, count, args)
    ensures r.Printed? ==>
              && SpecAt(fmt, i, count).Some?
              && end == SpecAt(fmt, i, count).value.end && count' == SpecAt(fmt, i, count).value.count
  {
    hide SpecAt, Specifier, SizeReadable, SizeRefs;
    var ok, specifier, ptr, argNo, typ, uses;
    ok, specifier, ptr, argNo, typ, count', uses := BuildSpecifier(fmt, i, count, args, buf);
    end := ptr;
    if !ok {
      return Undefined, end, count';
    }
    uses := uses + [Ref(argNo, typ)];
    SuffixType(fmt, i, count);
    if typ == Bad {
      r := UnknownConversion;
    } else if SuffixAt(fmt, ptr).Some? {
      end := ptr + 1;
      if !Readable(args, argNo, Ptr) {
        r := Undefined;
      } else if args[argNo].isNull {
        r := NullPointer;
      } else {
        r := Printed([if At(fmt, ptr) == UPPER_A then PrintSection(argNo) else PrintBfd(argNo)], uses);
      }
    } else if !Readable(args, argNo, typ) {
      r := Undefined;
    } else {
      r := Printed([PrintArg(specifier, argNo)], uses);
    }
  }

  lemma SuffixType(fmt: Text, i: nat, count: nat)
    requires i < |fmt| && SpecAt(fmt, i, count).Some?
    ensures var s := SpecAt(fmt, i, count).value; s.conv == LOWER_P ==> s.typ == Ptr
  {
    hide SizeAt, Flags, Lengths;
  }

  lemma NoPrecision(args: seq<Arg>)
    ensures SizeReadable(Digits([]), args) && SizeText(Digits([]), args) == [] && SizeRefs(Digits([])) == []
  {
  }

  /** _bfd_doprnt */
  method Doprnt(fmt: Text, args: seq<Arg>) returns (result: Output)
    ensures result == Print(fmt, 0, 0, args)
  {
    hide SpecAt, PrintSpec, Then, Print;
    var specifier := new byte[SPECIFIER_SIZE];
    var calls, uses := [], [];
    var ptr, argCount := 0, 0;
    ThenNothing(Print(fmt, 0, 0, args));
    while ptr < |fmt|
      invariant 0 <= ptr <= |fmt| && 0 <= argCount
      invariant Print(fmt, 0, 0, args) == Then(Printed(calls, uses), Print(fmt, ptr, argCount, args))
      decreases |fmt| - ptr
    {
      PrintUnfolds(fmt, ptr, argCount, args);
      var r;
      if fmt[ptr] != PERCENT {
        var end := FindPercent(fmt, ptr);
        r := Printed([PrintText(fmt[ptr..end])], []);
        ptr := end;
      } else if At(fmt, ptr + 1) == PERCENT {
        r := Printed([PrintPercent], []);
        ptr := ptr + 2;
      } else {
        ghost var before := ptr;
        var end, count;
        r, end, count := PrintSpecifier(fmt, ptr, argCount, args, specifier);
        if !r.Printed? {
          ThenStops(calls, uses, r, Print(fmt, ptr, argCount, args));
          return r;
        }
        ptr, argCount := end, count;
      }
      ThenJoins(calls, uses, r, Print(fmt, ptr, argCount, args));
      calls, uses := calls + r.calls, uses + r.uses;
    }
    PrintEnds(fmt, argCount, args, calls, uses);
    result := Printed(calls, uses);
  }

  lemma ThenNothing(r: Output)
    ensures Then(Printed([], []), r) == r
  {
  }

  lemma ThenJoins(calls: seq<Call>, uses: seq<Ref>, r: Output, rest: Output)
    requires r.Printed?
    ensures Then(Printed(calls, uses), Then(r, rest)) == Then(Printed(calls + r.calls, uses + r.uses), rest)
  {
  }

  lemma ThenStops(calls: seq<Call>, uses: seq<Ref>, r: Output, whole: Output)
    requires !r.Printed? && (whole == r || exists rest :: whole == Then(r, rest))
    ensures Then(Printed(calls, uses), whole) == r
  {
  }

  /** What is printed from a position is what is printed there and then the rest. */
  lemma PrintUnfolds(fmt: Text, i: nat, count: nat, args: seq<Arg>)
    requires i < |fmt|
    ensures var whole := Print(fmt, i, count, args);
            if fmt[i] != PERCENT then
              whole == Then(Printed([PrintText(fmt[i..NextPercent(fmt, i)])], []), Print(fmt, NextPercent(fmt, i), count, args))
            else if At(fmt, i + 1) == PERCENT then whole == Then(Printed([PrintPercent], []), Print(fmt, i + 2, count, args))
            else if SpecAt(fmt, i, count).None? then whole == PrintAt(fmt, i, count, args)
            else whole == Then(PrintAt(fmt, i, count, args),
                               Print(fmt, SpecAt(fmt, i, count).value.end, SpecAt(fmt, i, count).value.count, args))
  {
    hide SpecAt, PrintSpec, Then;
  }

  lemma PrintEnds(fmt: Text, count: nat, args: seq<Arg>, calls: seq<Call>, uses: seq<Ref>)
    ensures Then(Printed(calls, uses), Print(fmt, |fmt|, count, args)) == Printed(calls, uses)
  {
  }
}
