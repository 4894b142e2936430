/** Text as C sees it: decimal numbers, fields padded with spaces, strings that a NUL ends. */
module Ascii {
  import opened Bytes

  type Text = seq<byte>

  const NUL: byte := 0
  const NEWLINE: byte := 10
  const SPACE: byte := 32
  const PLUS: byte := 43
  const MINUS: byte := 45
  const SLASH: byte := 47
  const BACKSLASH: byte := 92

  predicate IsDigit(c: byte) { 48 <= c <= 57 }

  predicate IsSpace(c: byte) { c == SPACE || 9 <= c <= 13 }

  function Spaces(n: nat): (s: Text)
    ensures |s| == n && forall i :: 0 <= i < n ==> s[i] == SPACE
  {
    seq(n, _ => SPACE)
  }

  /** s in a field of n characters: padded with spaces, or cut off. */
  function SpacePad(s: Text, n: nat): (r: Text)
    ensures |r| == n
    ensures forall i :: 0 <= i < n ==> r[i] == if i < |s| then s[i] else SPACE
  {
    if |s| < n then s + Spaces(n - |s|) else s[..n]
  }

  // ----- decimal numbers -----

  function Digit(d: nat): (c: byte)
    requires d < 10
    ensures IsDigit(c)
  {
    (48 + d) as byte
  }

  function Decimal(n: nat): (s: Text)
    ensures |s| > 0 && forall i :: 0 <= i < |s| ==> IsDigit(s[i])
  {
    if n < 10 then [Digit(n)] else Decimal(n / 10) + [Digit(n % 10)]
  }

  /** The number a string of digits stands for. */
  function Value(s: Text): nat
    requires forall i :: 0 <= i < |s| ==> IsDigit(s[i])
  {
    if s == [] then 0
    else
      assert IsDigit(s[|s| - 1]);
      Value(s[..|s| - 1]) * 10 + (s[|s| - 1] as int - 48)
  }

  lemma {:induction false} ValueDecimal(n: nat)
    ensures Value(Decimal(n)) == n
  {
    if n >= 10 {
      ValueDecimal(n / 10);
      assert Decimal(n)[..|Decimal(n)| - 1] == Decimal(n / 10);
    } else {
      assert Decimal(n)[..0] == [];
    }
  }

  function Pow10(k: nat): nat {
    if k == 0 then 1 else 10 * Pow10(k - 1)
  }

  lemma {:induction false} DecimalLength(n: nat, k: nat)
    requires k > 0
    ensures |Decimal(n)| <= k <==> n < Pow10(k)
    decreases k
  {
    if k > 1 && n >= 10 {
      DecimalLength(n / 10, k - 1);
    } else if k == 1 {
      assert Pow10(1) == 10;
    } else {
      assert Pow10(k) == 10 * Pow10(k - 1);
      PowPositive(k - 1);
    }
  }

  lemma {:induction false} PowPositive(k: nat)
    ensures Pow10(k) > 0
  {
    if k > 0 {
      PowPositive(k - 1);
    }
  }

  /** How many characters from position i on are digits. */
  function DigitRun(s: Text, i: nat): (n: nat)
    requires i <= |s|
    ensures i + n <= |s| && forall k :: i <= k < i + n ==> IsDigit(s[k])
    ensures i + n < |s| ==> !IsDigit(s[i + n])
    decreases |s| - i
  {
    if i < |s| && IsDigit(s[i]) then 1 + DigitRun(s, i + 1) else 0
  }

  function SkipSpace(s: Text, i: nat): (j: nat)
    requires i <= |s|
    ensures i <= j <= |s|
    decreases |s| - i
  {
    if i < |s| && IsSpace(s[i]) then SkipSpace(s, i + 1) else i
  }

  /** The C library's reading of a decimal number; None when there are no digits. */
  function Scan(s: Text): Option<int> {
    var i := SkipSpace(s, 0);
    var j := if i < |s| && (s[i] == PLUS || s[i] == MINUS) then i + 1 else i;
    var n := DigitRun(s, j);
    if n == 0 then None
    else
      var v: int := Value(s[j..j + n]);
      Some(if j > i && s[i] == MINUS then -v else v)
  }

  /** strtol gives 0 for a string without digits. */
  function Strtol(s: Text): int {
    if Scan(s).Some? then Scan(s).value else 0
  }

  lemma {:induction false} RunOf(s: Text, i: nat, n: nat)
    requires i + n <= |s| && (forall k :: i <= k < i + n ==> IsDigit(s[k])) && (i + n < |s| ==> !IsDigit(s[i + n]))
    ensures DigitRun(s, i) == n
    decreases n
  {
    if n > 0 {
      RunOf(s, i + 1, n - 1);
    }
  }

  /** A number is read back, whatever follows it that is not a digit. */
  lemma ScanDecimal(n: nat, rest: Text)
    requires rest != [] ==> !IsDigit(rest[0])
    ensures Scan(Decimal(n) + rest) == Some(n)
  {
    var d := Decimal(n);
    var s := d + rest;
    forall k | 0 <= k < |d|
      ensures IsDigit(s[k])
    {
      assert s[k] == d[k];
    }
    RunOf(s, 0, |d|);
    assert s[0..|d|] == d;
    ValueDecimal(n);
  }

  // ----- strings -----

  /** The position of the first c among the first n characters, or n. */
  function IndexOf(s: Text, c: byte, n: nat): (k: nat)
    requires n <= |s|
    ensures k <= n && (forall i :: 0 <= i < k ==> s[i] != c) && (k < n ==> s[k] == c)
  {
    if n == 0 then 0
    else if IndexOf(s, c, n - 1) < n - 1 then IndexOf(s, c, n - 1)
    else if s[n - 1] == c then n - 1
    else n
  }

  /** The C string at position i of a buffer that a NUL ends. */
  function CString(s: Text, i: nat): Text
    requires i <= |s|
  {
    s[i..][..IndexOf(s[i..], NUL, |s| - i)]
  }

  lemma CStringIs(s: Text, i: nat, name: Text)
    requires i + |name| <= |s| && s[i..i + |name|] == name && NUL !in name
    requires i + |name| < |s| ==> s[i + |name|] == NUL
    ensures CString(s, i) == name
  {
    var t := s[i..];
    var k := IndexOf(t, NUL, |t|);
    assert t[..|name|] == name;
    if |name| < |t| {
      assert t[|name|] == NUL;
    }
  }
}
