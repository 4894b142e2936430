/**
  The grammar of message formats (bfd.c): what a conversion specifier refers to. Both passes over a
  format parse it; the model of each is proved against these functions.
 */
module FormatSpec {
  import opened Bytes
  import opened Ascii

  const PERCENT: byte := 37
  const DOLLAR: byte := 36
  const STAR: byte := 42
  const DOT: byte := 46
  const LOWER_H: byte := 104
  const LOWER_L: byte := 108
  const UPPER_L: byte := 76
  const LOWER_P: byte := 112
  const UPPER_A: byte := 65
  const UPPER_B: byte := 66

  const MAX_ARGS := 9

  /** The field of the argument union that is used; Bad is no argument. */
  datatype Type = Bad | Int | Long | LongLong | Double | LongDouble | Ptr

  /** A use of argument number index. */
  datatype Ref = Ref(index: nat, typ: Type)

  /** Width or precision: digits of the format, or an argument. */
  datatype Size = Digits(text: Text) | FromArg(index: nat)

  /** A parsed specifier: typ is Bad for a conversion that is not known. */
  datatype Spec = Spec(
    flags: Text, width: Size, dot: bool, precision: Size, lengths: Text, conv: byte, suffix: Option<byte>,
    arg: nat, typ: Type, end: nat, count: nat)

  /** The character at position i of the NUL-terminated format. */
  function At(fmt: Text, i: nat): byte {
    if i < |fmt| then fmt[i] else NUL
  }

  /** "-+ #0'I" */
  predicate IsFlag(c: byte) {
    c == 45 || c == 43 || c == 32 || c == 35 || c == 48 || c == 39 || c == 73
  }

  predicate IsLength(c: byte) {
    c == LOWER_H || c == LOWER_L || c == UPPER_L
  }

  predicate Positional(fmt: Text, i: nat) {
    At(fmt, i) != 48 && IsDigit(At(fmt, i)) && At(fmt, i + 1) == DOLLAR
  }

  /** Where the flags end; None when the search for a flag takes the terminator for one. */
  function Flags(fmt: Text, i: nat): (r: Option<nat>)
    ensures r.Some? ==> i <= r.value < |fmt| && !IsFlag(fmt[r.value])
    decreases |fmt| - i
  {
    if i >= |fmt| then None else if IsFlag(fmt[i]) then Flags(fmt, i + 1) else Some(i)
  }

  function DigitsEnd(fmt: Text, i: nat): (j: nat)
    ensures i <= j && (j > i ==> j <= |fmt|)
    decreases |fmt| - i
  {
    if i < |fmt| && IsDigit(fmt[i]) then DigitsEnd(fmt, i + 1) else i
  }

  /** h, l and L, with what they add up to; None as for the flags. */
  function Lengths(fmt: Text, i: nat, short: bool, wide: nat): (r: Option<(nat, bool, nat)>)
    ensures r.Some? ==> i <= r.value.0 < |fmt|
    decreases |fmt| - i
  {
    if i >= |fmt| then None
    else if fmt[i] == LOWER_H then Lengths(fmt, i + 1, true, wide)
    else if fmt[i] == LOWER_L then Lengths(fmt, i + 1, short, wide + 1)
    else if fmt[i] == UPPER_L then Lengths(fmt, i + 1, short, 2)
    else Some((i, short, wide))
  }

  /** The argument a star takes: the one its number says, or the next one. */
  function StarRef(fmt: Text, i: nat, count: nat): (r: (nat, nat))
    ensures i <= r.1 && (i <= |fmt| ==> r.1 <= |fmt|)
  {
    if Positional(fmt, i) then (At(fmt, i) as nat - 49, i + 2) else (count, i)
  }

  /** A width or precision at i: what it is, where it ends, and the arguments counted so far. */
  function SizeAt(fmt: Text, i: nat, count: nat): (r: (Size, nat, nat))
    requires i <= |fmt|
    ensures i <= r.1 <= |fmt| && r.2 == count + (if r.0.FromArg? then 1 else 0)
  {
    if At(fmt, i) == STAR then
      var (index, next) := StarRef(fmt, i + 1, count);
      (FromArg(index), next, count + 1)
    else (Digits(fmt[i..DigitsEnd(fmt, i)]), DigitsEnd(fmt, i), count)
  }

  function IntType(short: bool, wide: nat): Type {
    if short || wide == 0 then Int else if wide == 1 then Long else LongLong
  }

  /** d i o u x X c; f e E g G; s; p */
  function TypeOf(conv: byte, short: bool, wide: nat): Type {
    if conv == 100 || conv == 105 || conv == 111 || conv == 117 || conv == 120 || conv == 88 || conv == 99 then
      IntType(short, wide)
    else if conv == 102 || conv == 101 || conv == 69 || conv == 103 || conv == 71 then
      if wide == 0 then Double else LongDouble
    else if conv == 115 || conv == LOWER_P then Ptr
    else Bad
  }

  /** Flags, width and precision. */
  datatype Front = Front(flags: Text, width: Size, dot: bool, precision: Size, end: nat, count: nat)

  function FrontAt(fmt: Text, i: nat, count: nat): (r: Option<Front>)
    ensures r.Some? ==> i <= r.value.end <= |fmt|
    ensures r.Some? ==> r.value.count == count + (if r.value.width.FromArg? then 1 else 0) + (if r.value.precision.FromArg? then 1 else 0)
  {
    var flags := Flags(fmt, i);
    if flags.None? then None
    else
      var (width, p3, count1) := SizeAt(fmt, flags.value, count);
      var dot := At(fmt, p3) == DOT;
      var (precision, p4, count2) := if dot then SizeAt(fmt, p3 + 1, count1) else (Digits([]), p3, count1);
      Some(Front(fmt[i..flags.value], width, dot, precision, p4, count2))
  }

  /** Where the flags start: behind the percent sign and the number of the argument, if it is given. */
  function StartAt(fmt: Text, i: nat): (j: nat)
    ensures i < j
  {
    if Positional(fmt, i + 1) then i + 3 else i + 1
  }

  /** %pA and %pB */
  function SuffixAt(fmt: Text, i: nat): Option<byte>
    requires 0 < i <= |fmt|
  {
    if fmt[i - 1] == LOWER_P && (At(fmt, i) == UPPER_A || At(fmt, i) == UPPER_B) then Some(At(fmt, i)) else None
  }

  /** The specifier whose percent sign is at i; None when parsing it runs past the terminator. */
  function SpecAt(fmt: Text, i: nat, count: nat): (r: Option<Spec>)
    requires i < |fmt|
    ensures r.Some? ==> i < r.value.end <= |fmt| && count < r.value.count
  {
    match FrontAt(fmt, StartAt(fmt, i), count)
    case None => None
    case Some(f) =>
      match Lengths(fmt, f.end, false, 0)
      case None => None
      case Some((p5, short, wide)) =>
        var suffix := SuffixAt(fmt, p5 + 1);
        Some(Spec(
          f.flags, f.width, f.dot, f.precision, fmt[f.end..p5], fmt[p5], suffix,
          if Positional(fmt, i + 1) then At(fmt, i + 1) as nat - 49 else f.count,
          TypeOf(fmt[p5], short, wide), if suffix.Some? then p5 + 2 else p5 + 1, f.count + 1))
  }

  function SizeRefs(s: Size): seq<Ref> {
    if s.FromArg? then [Ref(s.index, Int)] else []
  }

  /** The arguments a specifier uses, in order. */
  function RefsOf(s: Spec): (rs: seq<Ref>)
    ensures |rs| > 0
  {
    SizeRefs(s.width) + SizeRefs(s.precision) + [Ref(s.arg, s.typ)]
  }

  lemma SpecCounts(fmt: Text, i: nat, count: nat)
    requires i < |fmt| && SpecAt(fmt, i, count).Some?
    ensures SpecAt(fmt, i, count).value.count == count + |RefsOf(SpecAt(fmt, i, count).value)|
  {
  }

  /** The next percent sign at or after i, or the end. */
  function NextPercent(fmt: Text, i: nat): (j: nat)
    requires i <= |fmt|
    ensures i <= j <= |fmt| && (j < |fmt| ==> fmt[j] == PERCENT) && (i < |fmt| && fmt[i] != PERCENT ==> i < j)
    decreases |fmt| - i
  {
    if i < |fmt| && fmt[i] != PERCENT then NextPercent(fmt, i + 1) else i
  }
}
