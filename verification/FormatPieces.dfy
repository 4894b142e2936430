/**
  What the second pass over a message format prints, said of the characters of the format: it falls
  into pieces, and each has its call.
 */
module FormatPieces {
  import opened Bytes
  import opened Ascii
  import opened FormatSpec
  import opened FormatScan
  import opened FormatPrint

  /** d i o u x X c */
  predicate IntegerConversion(c: byte) {
    c == 100 || c == 105 || c == 111 || c == 117 || c == 120 || c == 88 || c == 99
  }

  /** f e E g G */
  predicate FloatConversion(c: byte) {
    c == 102 || c == 101 || c == 69 || c == 103 || c == 71
  }

  const LOWER_S: byte := 115

  predicate Conversion(c: byte) {
    IntegerConversion(c) || FloatConversion(c) || c == LOWER_S || c == LOWER_P
  }

  /** What may stand between the percent sign and the conversion. */
  predicate Modifier(c: byte) {
    IsFlag(c) || IsDigit(c) || c == STAR || c == DOLLAR || c == DOT || IsLength(c)
  }

  /** How often c occurs from i on, up to j. */
  function Occurs(fmt: Text, c: byte, i: nat, j: nat): nat
    requires i <= j <= |fmt|
    decreases j - i
  {
    if i == j then 0 else (if fmt[i] == c then 1 else 0) + Occurs(fmt, c, i + 1, j)
  }

  /** The C type of the argument of the conversion at j of the specifier from i on. */
  function CType(fmt: Text, i: nat, j: nat): Type
    requires i <= j < |fmt|
  {
    var l := Occurs(fmt, LOWER_L, i, j);
    var long := Occurs(fmt, UPPER_L, i, j) > 0;
    if IntegerConversion(fmt[j]) then
      if Occurs(fmt, LOWER_H, i, j) > 0 then Int
      else if long || l > 1 then LongLong
      else if l == 1 then Long
      else Int
    else if FloatConversion(fmt[j]) then if long || l > 0 then LongDouble else Double
    else if fmt[j] == LOWER_S || fmt[j] == LOWER_P then Ptr
    else Bad
  }

  // ----- pieces -----

  predicate TextPiece(fmt: Text, a: nat, b: nat, call: Call)
    requires a < b <= |fmt|
  {
    && (forall i :: a <= i < b ==> fmt[i] != PERCENT) && (b == |fmt| || fmt[b] == PERCENT)
    && call == PrintText(fmt[a..b])
  }

  predicate PercentPiece(fmt: Text, a: nat, b: nat, call: Call)
    requires a < b <= |fmt|
  {
    b == a + 2 && fmt[a] == PERCENT && fmt[a + 1] == PERCENT && call == PrintPercent
  }

  /** The number an argument gives for a star. */
  function NumberOf(args: seq<Arg>, index: nat): Text {
    if index < |args| && args[index].IntArg? then Decimal(Abs(args[index].i)) else []
  }

  /** The characters from i on, up to j, each star with the argument it names replaced by a number. */
  function Expand(fmt: Text, i: nat, j: nat, count: nat, args: seq<Arg>): Text
    requires j <= |fmt|
    decreases |fmt| - i
  {
    if i >= j then []
    else if fmt[i] != STAR then [fmt[i]] + Expand(fmt, i + 1, j, count, args)
    else if Positional(fmt, i + 1) then
      NumberOf(args, At(fmt, i + 1) as nat - 49) + Expand(fmt, i + 3, j, count + 1, args)
    else NumberOf(args, count) + Expand(fmt, i + 1, j, count + 1, args)
  }

  /** The argument a specifier from a on is for, with its conversion at c, when count arguments came before. */
  function ArgOf(fmt: Text, a: nat, c: nat, count: nat): nat
    requires a < c < |fmt|
  {
    if Positional(fmt, a + 1) then At(fmt, a + 1) as nat - 49 else count + Occurs(fmt, STAR, a + 1, c)
  }

  /** The call for a specifier: %pA is a section, %pB a file, and all else an argument. */
  function SpecCall(fmt: Text, a: nat, c: nat, count: nat, args: seq<Arg>): Call
    requires a < c < |fmt|
  {
    var arg := ArgOf(fmt, a, c, count);
    if fmt[c] == LOWER_P && At(fmt, c + 1) == UPPER_A then PrintSection(arg)
    else if fmt[c] == LOWER_P && At(fmt, c + 1) == UPPER_B then PrintBfd(arg)
    else PrintArg([PERCENT] + Expand(fmt, StartAt(fmt, a), c + 1, count, args), arg)
  }

  predicate SpecPiece(fmt: Text, a: nat, b: nat, count: nat, count': nat, args: seq<Arg>, call: Call)
    requires a < b <= |fmt|
  {
    && fmt[a] == PERCENT
    && exists c :: a < c < b && SpecEnds(fmt, a, c, b) && call == SpecCall(fmt, a, c, count, args)
                   && count' == count + Occurs(fmt, STAR, a + 1, c) + 1
                   && Readable(args, ArgOf(fmt, a, c, count), CType(fmt, a + 1, c))
  }

  /** The conversion is the first character that modifies nothing; an A or B behind a p belongs to it. */
  predicate SpecEnds(fmt: Text, a: nat, c: nat, b: nat)
    requires a < c < b <= |fmt|
  {
    && (forall i :: a < i < c ==> Modifier(fmt[i])) && Conversion(fmt[c])
    && b == if fmt[c] == LOWER_P && (At(fmt, c + 1) == UPPER_A || At(fmt, c + 1) == UPPER_B) then c + 2 else c + 1
  }

  predicate PieceOk(fmt: Text, a: nat, b: nat, count: nat, count': nat, args: seq<Arg>, call: Call) {
    && a < b <= |fmt|
    && ((TextPiece(fmt, a, b, call) && count' == count)
        || (PercentPiece(fmt, a, b, call) && count' == count)
        || SpecPiece(fmt, a, b, count, count', args, call))
  }

  // ----- what the grammar passes over -----

  lemma {:induction false} OccursSplit(fmt: Text, c: byte, i: nat, j: nat, k: nat)
    requires i <= j <= k <= |fmt|
    ensures Occurs(fmt, c, i, k) == Occurs(fmt, c, i, j) + Occurs(fmt, c, j, k)
    decreases j - i
  {
    if i < j {
      OccursSplit(fmt, c, i + 1, j, k);
    }
  }

  lemma {:induction false} OccursNot(fmt: Text, c: byte, i: nat, j: nat)
    requires i <= j <= |fmt| && forall p :: i <= p < j ==> fmt[p] != c
    ensures Occurs(fmt, c, i, j) == 0
    decreases j - i
  {
    if i < j {
      OccursNot(fmt, c, i + 1, j);
    }
  }

  lemma {:induction false} FlagsAre(fmt: Text, i: nat)
    requires Flags(fmt, i).Some?
    ensures forall p :: i <= p < Flags(fmt, i).value ==> IsFlag(fmt[p])
    decreases |fmt| - i
  {
    if IsFlag(fmt[i]) {
      FlagsAre(fmt, i + 1);
    }
  }

  lemma {:induction false} DigitsAre(fmt: Text, i: nat)
    requires i <= |fmt|
    ensures DigitsEnd(fmt, i) <= |fmt| && forall p :: i <= p < DigitsEnd(fmt, i) ==> IsDigit(fmt[p])
    decreases |fmt| - i
  {
    if i < |fmt| && IsDigit(fmt[i]) {
      DigitsAre(fmt, i + 1);
    }
  }

  lemma {:induction false} LengthsAre(fmt: Text, i: nat, short: bool, wide: nat)
    requires i <= |fmt| && Lengths(fmt, i, short, wide).Some?
    ensures var (j, short', wide') := Lengths(fmt, i, short, wide).value;
            && (forall p :: i <= p < j ==> IsLength(fmt[p]))
            && (short' <==> short || Occurs(fmt, LOWER_H, i, j) > 0)
            && (Occurs(fmt, UPPER_L, i, j) > 0 ==> wide' >= 2)
            && (Occurs(fmt, UPPER_L, i, j) == 0 ==> wide' == wide + Occurs(fmt, LOWER_L, i, j))
    decreases |fmt| - i
  {
    if fmt[i] == LOWER_H {
      LengthsAre(fmt, i + 1, true, wide);
    } else if fmt[i] == LOWER_L {
      LengthsAre(fmt, i + 1, short, wide + 1);
    } else if fmt[i] == UPPER_L {
      LengthsAre(fmt, i + 1, short, 2);
    }
  }

  lemma {:induction false} ExpandPlain(fmt: Text, i: nat, j: nat, k: nat, count: nat, args: seq<Arg>)
    requires i <= j <= k <= |fmt| && forall p :: i <= p < j ==> fmt[p] != STAR
    ensures Expand(fmt, i, k, count, args) == fmt[i..j] + Expand(fmt, j, k, count, args)
    decreases j - i
  {
    hide NumberOf, Positional, At;
    if i < j {
      ExpandPlain(fmt, i + 1, j, k, count, args);
      assert fmt[i..j] == [fmt[i]] + fmt[i + 1..j];
    }
  }

  lemma ExpandStar(fmt: Text, i: nat, k: nat, count: nat, args: seq<Arg>)
    requires i < k <= |fmt| && fmt[i] == STAR
    ensures Expand(fmt, i, k, count, args)
            == if Positional(fmt, i + 1) then NumberOf(args, At(fmt, i + 1) as nat - 49) + Expand(fmt, i + 3, k, count + 1, args)
               else NumberOf(args, count) + Expand(fmt, i + 1, k, count + 1, args)
  {
  }

  lemma PositionalIs(fmt: Text, i: nat)
    requires Positional(fmt, i)
    ensures i + 2 <= |fmt| && IsDigit(fmt[i]) && fmt[i] != STAR && fmt[i + 1] == DOLLAR
  {
  }

  /** A width or precision: its characters, its stars, and what it expands to. */
  lemma SizeIs(fmt: Text, i: nat, k: nat, count: nat, args: seq<Arg>)
    requires i <= k <= |fmt| && SizeAt(fmt, i, count).1 <= k
    ensures var (s, e, count') := SizeAt(fmt, i, count);
            && (forall p :: i <= p < e ==> IsDigit(fmt[p]) || fmt[p] == STAR || fmt[p] == DOLLAR)
            && count' == count + Occurs(fmt, STAR, i, e)
            && (SizeReadable(s, args) ==>
                  Expand(fmt, i, k, count, args) == SizeText(s, args) + Expand(fmt, e, k, count', args))
  {
    hide Expand, Decimal, DigitsEnd;
    var (s, e, count') := SizeAt(fmt, i, count);
    if At(fmt, i) == STAR {
      ExpandStar(fmt, i, k, count, args);
      if Positional(fmt, i + 1) {
        PositionalIs(fmt, i + 1);
        OccursNot(fmt, STAR, i + 1, i + 3);
      }
    } else {
      DigitsAre(fmt, i);
      OccursNot(fmt, STAR, i, e);
      ExpandPlain(fmt, i, e, k, count, args);
    }
  }

  /** Flags, width and precision in front of the lengths. */
  lemma FrontIs(fmt: Text, i: nat, k: nat, count: nat, args: seq<Arg>)
    requires FrontAt(fmt, i, count).Some? && FrontAt(fmt, i, count).value.end <= k <= |fmt|
    ensures var f := FrontAt(fmt, i, count).value;
            && i <= f.end
            && (forall p :: i <= p < f.end ==> Modifier(fmt[p]) && !IsLength(fmt[p]))
            && f.count == count + Occurs(fmt, STAR, i, f.end)
            && (SizeReadable(f.width, args) && SizeReadable(f.precision, args) ==>
                  [PERCENT] + Expand(fmt, i, k, count, args) == FrontText(f, args) + Expand(fmt, f.end, k, f.count, args))
  {
    hide SizeAt, Flags, Expand, SizeText, SizeReadable, Occurs;
    var f := FrontAt(fmt, i, count).value;
    var p1 := Flags(fmt, i).value;
    FlagsAre(fmt, i);
    OccursNot(fmt, STAR, i, p1);
    ExpandPlain(fmt, i, p1, k, count, args);
    var (width, p3, count1) := SizeAt(fmt, p1, count);
    SizeIs(fmt, p1, k, count, args);
    OccursSplit(fmt, STAR, i, p1, p3);
    if At(fmt, p3) == DOT {
      OccursNot(fmt, STAR, p3, p3 + 1);
      ExpandPlain(fmt, p3, p3 + 1, k, count1, args);
      SizeIs(fmt, p3 + 1, k, count1, args);
      OccursSplit(fmt, STAR, i, p3, p3 + 1);
      OccursSplit(fmt, STAR, i, p3 + 1, f.end);
    } else {
      NoPrecision(args);
    }
  }

  /** Where the conversion of a specifier stands. */
  function ConversionAt(s: Spec): int {
    s.end - if s.suffix.Some? then 2 else 1
  }

  /** Everything of a parsed specifier in terms of the characters. */
  lemma SpecIs(fmt: Text, i: nat, count: nat, args: seq<Arg>)
    requires i < |fmt| && SpecAt(fmt, i, count).Some?
    ensures var s := SpecAt(fmt, i, count).value;
            var c := ConversionAt(s);
            && i < c < s.end <= |fmt| && fmt[c] == s.conv
            && (forall p :: i < p < c ==> Modifier(fmt[p]))
            && s.suffix == SuffixAt(fmt, c + 1)
            && s.typ == CType(fmt, i + 1, c)
            && s.arg == ArgOf(fmt, i, c, count)
            && s.count == count + Occurs(fmt, STAR, i + 1, c) + 1
            && (SizeReadable(s.width, args) && SizeReadable(s.precision, args) && fmt[c] != STAR ==>
                  Specifier(s, args) == [PERCENT] + Expand(fmt, StartAt(fmt, i), c + 1, count, args))
  {
    hide FrontAt, Lengths, Expand, SizeText, SizeReadable, Occurs, FrontText, Specifier;
    var s := SpecAt(fmt, i, count).value;
    var start := StartAt(fmt, i);
    var f := FrontAt(fmt, start, count).value;
    var (c, short, wide) := Lengths(fmt, f.end, false, 0).value;
    FrontOfSpec(fmt, i, count, args);
    FrontIs(fmt, start, c + 1, count, args);
    LengthsAre(fmt, f.end, false, 0);
    StartIs(fmt, i);
    OccursSplit(fmt, STAR, i + 1, start, f.end);
    OccursNot(fmt, STAR, f.end, c);
    OccursSplit(fmt, STAR, i + 1, f.end, c);
    NoLengths(fmt, i + 1, f.end, c);
    if fmt[c] != STAR {
      ExpandPlain(fmt, f.end, c + 1, c + 1, f.count, args);
      ExpandEnd(fmt, c + 1, f.count, args);
      assert fmt[f.end..c + 1] == fmt[f.end..c] + [fmt[c]];
    }
  }

  lemma ExpandEnd(fmt: Text, j: nat, count: nat, args: seq<Arg>)
    requires j <= |fmt|
    ensures Expand(fmt, j, j, count, args) == []
  {
  }

  lemma StartIs(fmt: Text, i: nat)
    requires i < |fmt| && StartAt(fmt, i) <= |fmt|
    ensures forall p :: i < p < StartAt(fmt, i) ==> IsDigit(fmt[p]) || fmt[p] == DOLLAR
    ensures Occurs(fmt, STAR, i + 1, StartAt(fmt, i)) == 0
  {
    OccursNot(fmt, STAR, i + 1, StartAt(fmt, i));
  }

  lemma NoLengths(fmt: Text, i: nat, j: nat, k: nat)
    requires i <= j <= k <= |fmt| && forall p :: i <= p < j ==> !IsLength(fmt[p])
    ensures Occurs(fmt, LOWER_H, i, k) == Occurs(fmt, LOWER_H, j, k)
    ensures Occurs(fmt, LOWER_L, i, k) == Occurs(fmt, LOWER_L, j, k)
    ensures Occurs(fmt, UPPER_L, i, k) == Occurs(fmt, UPPER_L, j, k)
  {
    OccursSplit(fmt, LOWER_H, i, j, k);
    OccursSplit(fmt, LOWER_L, i, j, k);
    OccursSplit(fmt, UPPER_L, i, j, k);
    OccursNot(fmt, LOWER_H, i, j);
    OccursNot(fmt, LOWER_L, i, j);
    OccursNot(fmt, UPPER_L, i, j);
  }

  /** Every use of an argument has the C type its conversion asks for, in both passes. */
  lemma UseTypes(fmt: Text, i: nat, count: nat)
    requires i < |fmt| && SpecAt(fmt, i, count).Some?
    ensures var s := SpecAt(fmt, i, count).value;
            var c := ConversionAt(s);
            && i < c < |fmt|
            && RefsOf(s)[|RefsOf(s)| - 1] == Ref(ArgOf(fmt, i, c, count), CType(fmt, i + 1, c))
            && |RefsOf(s)| == 1 + Occurs(fmt, STAR, i + 1, c)
            && forall k :: 0 <= k < |RefsOf(s)| - 1 ==> RefsOf(s)[k].typ == Int
  {
    hide FrontAt, Lengths, Occurs, CType, ArgOf, SpecAt;
    SpecIs(fmt, i, count, []);
    SpecCounts(fmt, i, count);
  }

  lemma ConversionIs(fmt: Text, i: nat, c: nat)
    requires i <= c < |fmt| && CType(fmt, i, c) != Bad
    ensures Conversion(fmt[c]) && fmt[c] != STAR
  {
    hide Occurs;
  }

  lemma PieceAt(fmt: Text, i: nat, count: nat, args: seq<Arg>) returns (call: Call)
    requires i < |fmt| && fmt[i] == PERCENT && SpecAt(fmt, i, count).Some?
    requires PrintSpec(SpecAt(fmt, i, count).value, args).Printed?
    ensures var s := SpecAt(fmt, i, count).value;
            PieceOk(fmt, i, s.end, count, s.count, args, call) && PrintSpec(s, args).calls == [call]
  {
    hide SpecAt, CType, ArgOf, Expand, Specifier, SizeReadable, Occurs, Conversion, Modifier;
    var s := SpecAt(fmt, i, count).value;
    var c := ConversionAt(s);
    SpecIs(fmt, i, count, args);
    ConversionIs(fmt, i + 1, c);
    assert SpecEnds(fmt, i, c, s.end);
    call := CallOf(s, args);
    assert call == SpecCall(fmt, i, c, count, args);
  }

  lemma {:induction false} TextIs(fmt: Text, i: nat)
    requires i <= |fmt|
    ensures forall p :: i <= p < NextPercent(fmt, i) ==> fmt[p] != PERCENT
    decreases |fmt| - i
  {
    if i < |fmt| && fmt[i] != PERCENT {
      TextIs(fmt, i + 1);
    }
  }

  /** cuts part the format from i on, and counts are the arguments before each piece. */
  predicate Parted(fmt: Text, i: nat, count: nat, args: seq<Arg>, cuts: seq<nat>, counts: seq<nat>, calls: seq<Call>) {
    && |cuts| == |counts| == |calls| + 1 && cuts[0] == i && counts[0] == count && cuts[|calls|] == |fmt|
    && forall k :: 0 <= k < |calls| ==> PieceOk(fmt, cuts[k], cuts[k + 1], counts[k], counts[k + 1], args, calls[k])
  }

  lemma PartedMore(fmt: Text, i: nat, j: nat, count: nat, count': nat, args: seq<Arg>, cuts: seq<nat>, counts: seq<nat>,
                   calls: seq<Call>, call: Call)
    requires Parted(fmt, j, count', args, cuts, counts, calls) && PieceOk(fmt, i, j, count, count', args, call)
    ensures Parted(fmt, i, count, args, [i] + cuts, [count] + counts, [call] + calls)
  {
    hide PieceOk;
    var cuts', counts', calls' := [i] + cuts, [count] + counts, [call] + calls;
    forall k | 0 <= k < |calls'|
      ensures PieceOk(fmt, cuts'[k], cuts'[k + 1], counts'[k], counts'[k + 1], args, calls'[k])
    {
      if k > 0 {
        assert PieceOk(fmt, cuts[k - 1], cuts[k - 1 + 1], counts[k - 1], counts[k - 1 + 1], args, calls[k - 1]);
      }
    }
  }

  lemma {:induction false} PiecesFrom(fmt: Text, i: nat, count: nat, args: seq<Arg>) returns (cuts: seq<nat>, counts: seq<nat>)
    requires i <= |fmt| && Print(fmt, i, count, args).Printed?
    ensures Parted(fmt, i, count, args, cuts, counts, Print(fmt, i, count, args).calls)
    decreases |fmt| - i
  {
    hide SpecAt, PrintSpec, PieceOk, Parted, Print;
    if i == |fmt| {
      PartedEnd(fmt, count, args);
      return [i], [count];
    }
    PrintParts(fmt, i, count, args);
    var j, count', call := NextPercent(fmt, i), count, PrintText(fmt[i..NextPercent(fmt, i)]);
    if fmt[i] != PERCENT {
      TextIs(fmt, i);
      TextOk(fmt, i, j, count, args);
    } else if At(fmt, i + 1) == PERCENT {
      PercentOk(fmt, i, count, args);
      j, call := i + 2, PrintPercent;
    } else {
      j, count' := SpecAt(fmt, i, count).value.end, SpecAt(fmt, i, count).value.count;
      call := PieceAt(fmt, i, count, args);
    }
    cuts, counts := PiecesFrom(fmt, j, count', args);
    PartedMore(fmt, i, j, count, count', args, cuts, counts, Print(fmt, j, count', args).calls, call);
    cuts, counts := [i] + cuts, [count] + counts;
  }

  /** The calls from a position on are that for what stands there, and the rest. */
  lemma PrintParts(fmt: Text, i: nat, count: nat, args: seq<Arg>)
    requires i < |fmt| && Print(fmt, i, count, args).Printed?
    ensures if fmt[i] != PERCENT then
              var rest := Print(fmt, NextPercent(fmt, i), count, args);
              && rest.Printed?
              && Print(fmt, i, count, args).calls == [PrintText(fmt[i..NextPercent(fmt, i)])] + rest.calls
            else if At(fmt, i + 1) == PERCENT then
              var rest := Print(fmt, i + 2, count, args);
              rest.Printed? && Print(fmt, i, count, args).calls == [PrintPercent] + rest.calls
            else
              && SpecAt(fmt, i, count).Some?
              && var s := SpecAt(fmt, i, count).value;
              var rest := Print(fmt, s.end, s.count, args);
              && rest.Printed? && PrintSpec(s, args).Printed?
              && Print(fmt, i, count, args).calls == PrintSpec(s, args).calls + rest.calls
  {
    hide SpecAt, PrintSpec;
  }

  lemma PartedEnd(fmt: Text, count: nat, args: seq<Arg>)
    ensures Print(fmt, |fmt|, count, args) == Printed([], []) && Parted(fmt, |fmt|, count, args, [|fmt|], [count], [])
  {
  }

  lemma TextOk(fmt: Text, i: nat, j: nat, count: nat, args: seq<Arg>)
    requires i < j <= |fmt| && (forall p :: i <= p < j ==> fmt[p] != PERCENT) && (j == |fmt| || fmt[j] == PERCENT)
    ensures PieceOk(fmt, i, j, count, count, args, PrintText(fmt[i..j]))
  {
  }

  lemma PercentOk(fmt: Text, i: nat, count: nat, args: seq<Arg>)
    requires i < |fmt| && fmt[i] == PERCENT && At(fmt, i + 1) == PERCENT
    ensures i + 2 <= |fmt| && PieceOk(fmt, i, i + 2, count, count, args, PrintPercent)
  {
  }

  /** A format that is printed falls into pieces, each printed by the one call that its characters ask for. */
  lemma PrintsPieces(fmt: Text, args: seq<Arg>) returns (cuts: seq<nat>, counts: seq<nat>)
    requires Print(fmt, 0, 0, args).Printed?
    ensures Parted(fmt, 0, 0, args, cuts, counts, Print(fmt, 0, 0, args).calls)
  {
    cuts, counts := PiecesFrom(fmt, 0, 0, args);
  }
}
