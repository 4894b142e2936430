/**
  Reading a symbol map back, from the bytes of the member that holds it: what was written is what is
  read, whatever padding follows the strings.
 */
module ArMapRead {
  import opened Bytes
  import opened Ascii
  import opened ArHeader
  import opened ArMap
  import opened ArMapWrite

  /** n names, one after the other; the last may run to the end of the strings. */
  function Names(strs: Text, n: nat): (names: seq<Text>)
    ensures |names| == n
  {
    if n == 0 then []
    else
      var k := IndexOf(strs, NUL, |strs|);
      [strs[..k]] + Names(strs[if k < |strs| then k + 1 else k..], n - 1)
  }

  /** do_slurp_bsd_armap on the bytes of the member. */
  function SlurpBsd(big: bool, raw: Text): Option<seq<Carsym>> {
    if |raw| < 8 then None
    else
      var amt := Get(big, raw[..4]);
      if amt > |raw| - 8 || amt % BSD_SYMDEF_SIZE != 0 then None
      else BsdSymbols(big, raw[4..4 + amt], raw[4 + amt + 4..], amt / BSD_SYMDEF_SIZE)
  }

  function BsdSymbols(big: bool, pairs: Text, strs: Text, n: nat): Option<seq<Carsym>>
    requires |pairs| >= BSD_SYMDEF_SIZE * n
  {
    if n == 0 then Some([])
    else
      match BsdSymbols(big, pairs, strs, n - 1)
      case None => None
      case Some(syms) =>
        var p := pairs[BSD_SYMDEF_SIZE * (n - 1)..BSD_SYMDEF_SIZE * n];
        var nameOff := Get(big, p[..4]);
        if nameOff >= |strs| then None else Some(syms + [Carsym(CString(strs, nameOff), Get(big, p[4..]))])
  }

  /** do_slurp_coff_armap and the 64-bit reader on the bytes of the member. */
  function SlurpWide(width: nat, raw: Text): Option<seq<Carsym>> {
    if |raw| < width then None
    else
      var n := Get(true, raw[..width]);
      if |raw| - width < width * n then None
      else
        var names := Names(raw[width + width * n..], n);
        Some(WideSymbols(width, raw[width..width + width * n], names, n))
  }

  function WideSymbols(width: nat, offs: Text, names: seq<Text>, n: nat): seq<Carsym>
    requires |offs| == width * |names| && n <= |names|
  {
    seq(n, i requires 0 <= i < n =>
      assert width * i + width == width * (i + 1) <= width * |names| by { Scaled(width, i + 1, |names|); }
      Carsym(names[i], Get(true, offs[width * i..width * i + width])))
  }

  lemma Scaled(w: nat, a: nat, b: nat)
    requires a <= b
    ensures w * a <= w * b && w * (a + 1) == w * a + w
  {
  }

  // ----- the loops that read -----

  method ReadBsd(big: bool, raw: Text) returns (r: Option<seq<Carsym>>)
    ensures r == SlurpBsd(big, raw)
  {
    hide CString, Get;
    if |raw| < 8 {
      return None;
    }
    var amt := Get(big, raw[..4]);
    if amt > |raw| - 8 || amt % BSD_SYMDEF_SIZE != 0 {
      return None;
    }
    var count := amt / BSD_SYMDEF_SIZE;
    var pairs, strs := raw[4..4 + amt], raw[4 + amt + 4..];
    var syms := [];
    var rbase := 4;
    for counter := 0 to count
      invariant rbase == 4 + BSD_SYMDEF_SIZE * counter && BsdSymbols(big, pairs, strs, counter) == Some(syms)
    {
      SliceSlice(raw, 4, 4 + amt, BSD_SYMDEF_SIZE * counter, BSD_SYMDEF_SIZE * (counter + 1));
      assert raw[rbase..rbase + 8][..4] == raw[rbase..rbase + 4] && raw[rbase..rbase + 8][4..] == raw[rbase + 4..rbase + 8];
      var nameOff := Get(big, raw[rbase..rbase + 4]);
      if nameOff >= |strs| {
        BsdStops(big, pairs, strs, counter + 1, count);
        return None;
      }
      syms := syms + [Carsym(CString(strs, nameOff), Get(big, raw[rbase + 4..rbase + 8]))];
      rbase := rbase + BSD_SYMDEF_SIZE;
    }
    r := Some(syms);
  }

  lemma SliceSlice(s: Text, a: nat, b: nat, c: nat, d: nat)
    requires a <= b <= |s| && c <= d <= b - a
    ensures s[a..b][c..d] == s[a + c..a + d]
  {
    var x := s[a..b];
    forall i | 0 <= i < d - c
      ensures x[c..d][i] == s[a + c..a + d][i]
    {
      assert x[c + i] == s[a + (c + i)];
    }
  }

  /** The parts of a concatenation. */
  lemma Parts(a: Text, b: Text, c: Text, d: Text)
    ensures var s := a + b + c + d;
            s[..|a|] == a && s[|a|..|a| + |b|] == b && s[|a| + |b|..] == c + d && |s| == |a| + |b| + |c| + |d|
  {
  }

  lemma {:induction false} BsdStops(big: bool, pairs: Text, strs: Text, k: nat, n: nat)
    requires k <= n && |pairs| >= BSD_SYMDEF_SIZE * n && BsdSymbols(big, pairs, strs, k) == None
    ensures BsdSymbols(big, pairs, strs, n) == None
    decreases n - k
  {
    if k < n {
      BsdStops(big, pairs, strs, k, n - 1);
    }
  }

  /** The COFF reader with width 4, the 64-bit reader with width 8. */
  method ReadWide(width: nat, raw: Text) returns (r: Option<seq<Carsym>>)
    ensures r == SlurpWide(width, raw)
  {
    hide Get, Names, WideSymbols;
    if |raw| < width {
      return None;
    }
    var n := Get(true, raw[..width]);
    if |raw| - width < width * n {
      return None;
    }
    var syms := BuildCarsyms(width, raw[width..width + width * n], raw[width + width * n..], n);
    r := Some(syms);
  }

  /** The loop over the raw positions and the strings. */
  method BuildCarsyms(width: nat, offs: Text, strs: Text, n: nat) returns (syms: seq<Carsym>)
    requires |offs| == width * n
    ensures syms == WideSymbols(width, offs, Names(strs, n), n)
  {
    hide Get, Names, IndexOf, WideSymbols;
    ghost var names := Names(strs, n);
    syms := [];
    var base := 0;
    WideNone(width, offs, names);
    assert strs[0..] == strs;
    for i := 0 to n
      invariant base <= |strs| && names[i..] == Names(strs[base..], n - i)
      invariant syms == WideSymbols(width, offs, names, i)
    {
      WideOne(width, offs, names, i);
      var len := IndexOf(strs[base..], NUL, |strs| - base);
      NamesStep(strs, base, n - i);
      assert names[i] == names[i..][0];
      assert names[i + 1..] == names[i..][1..];
      syms := syms + [Carsym(strs[base..][..len], Get(true, offs[width * i..width * i + width]))];
      base := base + len;
      if base != |strs| {
        base := base + 1;
      }
    }
  }

  lemma WideNone(width: nat, offs: Text, names: seq<Text>)
    requires |offs| == width * |names|
    ensures WideSymbols(width, offs, names, 0) == []
  {
  }

  lemma NamesStep(strs: Text, base: nat, n: nat)
    requires base <= |strs| && n > 0
    ensures var t := strs[base..];
            var k := IndexOf(t, NUL, |t|);
            Names(t, n) == [t[..k]] + Names(strs[if base + k < |strs| then base + k + 1 else base + k..], n - 1)
  {
    var t := strs[base..];
    var k := IndexOf(t, NUL, |t|);
    assert k < |t| ==> t[k + 1..] == strs[base + k + 1..];
    assert t[k..] == strs[base + k..];
  }

  lemma WideOne(width: nat, offs: Text, names: seq<Text>, i: nat)
    requires |offs| == width * |names| && i < |names|
    ensures width * i + width <= |offs|
    ensures WideSymbols(width, offs, names, i + 1)
            == WideSymbols(width, offs, names, i) + [Carsym(names[i], Get(true, offs[width * i..width * i + width]))]
  {
    Scaled(width, i + 1, |names|);
    Scaled(width, i, |names|);
  }

  // ----- round trips -----

  /** The list of (name, position) that was given to the writer. */
  function Symbols(m: seq<Orl>, offs: seq<nat>): (syms: seq<Carsym>)
    requires |m| == |offs|
    ensures |syms| == |m| && forall i :: 0 <= i < |m| ==> syms[i] == Carsym(m[i].name, offs[i])
  {
    seq(|m|, i requires 0 <= i < |m| => Carsym(m[i].name, offs[i]))
  }

  /** A name stands in the strings where the sizes before it put it, with a NUL behind it. */
  lemma {:induction false} StringAt(m: seq<Orl>, i: nat)
    requires i < |m|
    ensures var o := StringsSize(m[..i]);
            o + |m[i].name| < |Strings(m)| && Strings(m)[o..o + |m[i].name|] == m[i].name
            && Strings(m)[o + |m[i].name|] == NUL && StringsSize(m[..i + 1]) == o + |m[i].name| + 1
    decreases |m|
  {
    var last := |m| - 1;
    assert m[..i + 1][..i] == m[..i];
    if i < last {
      StringAt(m[..last], i);
      assert m[..last][..i] == m[..i];
      assert Strings(m)[..|Strings(m[..last])|] == Strings(m[..last]);
      var o := StringsSize(m[..i]);
      assert Strings(m)[o..o + |m[i].name|] == Strings(m[..last])[o..o + |m[i].name|];
    }
  }

  lemma StringReads(m: seq<Orl>, members: nat, i: nat, pad: nat)
    requires MapOk(m, members) && i < |m|
    ensures m[i].namidx < |Strings(m) + Zeros(pad)| && CString(Strings(m) + Zeros(pad), m[i].namidx) == m[i].name
  {
    hide Strings, StringsSize;
    StringAt(m, i);
    var s := Strings(m) + Zeros(pad);
    var o := m[i].namidx;
    assert s[o..o + |m[i].name|] == Strings(m)[o..o + |m[i].name|];
    CStringIs(s, o, m[i].name);
  }

  lemma {:induction false} PairAt(big: bool, m: seq<Orl>, offs: seq<nat>, i: nat)
    requires i < |m| == |offs|
    ensures Pairs(big, m, offs)[8 * i..8 * (i + 1)] == Put(big, 4, m[i].namidx) + Put(big, 4, offs[i])
    decreases |m|
  {
    hide Put;
    var last := |m| - 1;
    if i < last {
      PairAt(big, m[..last], offs[..last], i);
      assert Pairs(big, m, offs)[..8 * last] == Pairs(big, m[..last], offs[..last]);
      assert Pairs(big, m, offs)[8 * i..8 * (i + 1)] == Pairs(big, m[..last], offs[..last])[8 * i..8 * (i + 1)];
    }
  }

  predicate Small(m: seq<Orl>, offs: seq<nat>) {
    && |m| == |offs| && Narrow(offs) && 8 * |m| + StringsSize(m) + 16 < WORD32
  }

  lemma {:induction false} BsdSymbolsRead(big: bool, m: seq<Orl>, offs: seq<nat>, members: nat, pad: nat, n: nat)
    requires MapOk(m, members) && Small(m, offs) && n <= |m|
    ensures BsdSymbols(big, Pairs(big, m, offs), Strings(m) + Zeros(pad), n) == Some(Symbols(m, offs)[..n])
  {
    hide Put, Get, CString, Strings, MapOk, Pairs, StringsSize, Narrow;
    if n > 0 {
      NarrowAt(offs, n - 1);
      BsdSymbolsRead(big, m, offs, members, pad, n - 1);
      PairAt(big, m, offs, n - 1);
      var p := Pairs(big, m, offs)[8 * (n - 1)..8 * n];
      assert p[..4] == Put(big, 4, m[n - 1].namidx) && p[4..] == Put(big, 4, offs[n - 1]);
      StringReads(m, members, n - 1, pad);
      IndexSmall(m, members, n - 1);
      Words();
      PutGet(big, 4, m[n - 1].namidx);
      PutGet(big, 4, offs[n - 1]);
      assert Symbols(m, offs)[..n] == Symbols(m, offs)[..n - 1] + [Carsym(m[n - 1].name, offs[n - 1])];
    }
  }

  lemma NarrowAt(offs: seq<nat>, i: nat)
    requires Narrow(offs) && i < |offs|
    ensures offs[i] < WORD32
  {
  }

  lemma IndexSmall(m: seq<Orl>, members: nat, i: nat)
    requires MapOk(m, members) && i < |m|
    ensures m[i].namidx < StringsSize(m)
  {
    StringAt(m, i);
  }

  /** The BSD map reads back as it was written. */
  lemma BsdRoundTrip(big: bool, m: seq<Orl>, offs: seq<nat>, members: nat)
    requires MapOk(m, members) && Small(m, offs)
    ensures SlurpBsd(big, BsdBody(big, m, offs)) == Some(Symbols(m, offs))
  {
    hide Put, Get, Pairs, Strings, MapOk, StringsSize, BsdSymbols;
    var raw := BsdBody(big, m, offs);
    var pad := StringsSize(m) % 2;
    var amt := 8 * |m|;
    Words();
    PutGet(big, 4, amt);
    assert raw[..4] == Put(big, 4, amt);
    assert raw[4..4 + amt] == Pairs(big, m, offs);
    assert raw[4 + amt + 4..] == Strings(m) + Zeros(pad);
    BsdSymbolsRead(big, m, offs, members, pad, |m|);
    assert Symbols(m, offs)[..|m|] == Symbols(m, offs);
  }

  function NamesOf(m: seq<Orl>): (names: seq<Text>)
    ensures |names| == |m| && forall i :: 0 <= i < |m| ==> names[i] == m[i].name
  {
    seq(|m|, i requires 0 <= i < |m| => m[i].name)
  }

  lemma {:induction false} NamesRead(m: seq<Orl>, members: nat, pad: nat, k: nat)
    requires MapOk(m, members) && k <= |m|
    ensures StringsSize(m[..k]) <= |Strings(m)|
    ensures Names((Strings(m) + Zeros(pad))[StringsSize(m[..k])..], |m| - k) == NamesOf(m)[k..]
    decreases |m| - k
  {
    hide Strings, StringsSize, MapOk, Names, IndexOf, NamesOf;
    var s := Strings(m) + Zeros(pad);
    if k == |m| {
      assert m[..k] == m;
      NamesNone(s[StringsSize(m)..]);
    } else {
      StringAt(m, k);
      NamesRead(m, members, pad, k + 1);
      var o := StringsSize(m[..k]);
      NamesStep(s, o, |m| - k);
      NameIndex(m, members, k);
      StringReads(m, members, k, pad);
      var t := s[o..];
      assert t[..IndexOf(t, NUL, |t|)] == m[k].name;
      assert NamesOf(m)[k..] == [m[k].name] + NamesOf(m)[k + 1..];
    }
  }

  lemma NamesNone(s: Text)
    ensures Names(s, 0) == []
  {
  }

  lemma NameIndex(m: seq<Orl>, members: nat, k: nat)
    requires MapOk(m, members) && k < |m|
    ensures m[k].namidx == StringsSize(m[..k])
  {
  }

  lemma {:induction false} OffsetAt(w: nat, offs: seq<nat>, i: nat)
    requires i < |offs|
    ensures w * i + w <= |Offsets(w, offs)| && Offsets(w, offs)[w * i..w * i + w] == Put(true, w, offs[i])
    decreases |offs|
  {
    hide Put;
    var last := |offs| - 1;
    Scaled(w, i + 1, |offs|);
    Scaled(w, i, last);
    if i < last {
      OffsetAt(w, offs[..last], i);
      assert Offsets(w, offs)[0..w * last] == Offsets(w, offs[..last]);
      SliceSlice(Offsets(w, offs), 0, w * last, w * i, w * i + w);
    }
  }

  lemma WideSymbolsRead(w: nat, m: seq<Orl>, offs: seq<nat>)
    requires |m| == |offs| && forall i :: 0 <= i < |m| ==> offs[i] < Power256(w)
    ensures WideSymbols(w, Offsets(w, offs), NamesOf(m), |m|) == Symbols(m, offs)
  {
    hide Put, Get, Offsets, Power256, NamesOf, Symbols;
    var syms := WideSymbols(w, Offsets(w, offs), NamesOf(m), |m|);
    forall i | 0 <= i < |m|
      ensures syms[i] == Symbols(m, offs)[i]
    {
      OffsetAt(w, offs, i);
      PutGet(true, w, offs[i]);
      WideSymbolAt(w, Offsets(w, offs), NamesOf(m), |m|, i);
    }
    assert |syms| == |Symbols(m, offs)|;
  }

  lemma WideSymbolAt(w: nat, offs: Text, names: seq<Text>, n: nat, i: nat)
    requires |offs| == w * |names| && i < n <= |names| && w * i + w <= |offs|
    ensures |WideSymbols(w, offs, names, n)| == n
    ensures WideSymbols(w, offs, names, n)[i] == Carsym(names[i], Get(true, offs[w * i..w * i + w]))
  {
    hide Get;
  }

  /** The COFF and the 64-bit map read back as they were written, with any amount of padding. */
  lemma WideRoundTrip(w: nat, m: seq<Orl>, offs: seq<nat>, members: nat, pad: nat)
    requires MapOk(m, members) && |m| == |offs| && |m| < Power256(w)
    requires forall i :: 0 <= i < |m| ==> offs[i] < Power256(w)
    ensures SlurpWide(w, Put(true, w, |m|) + Offsets(w, offs) + Strings(m) + Zeros(pad)) == Some(Symbols(m, offs))
  {
    hide Put, Get, Offsets, Strings, MapOk, StringsSize, Names, WideSymbols, NamesOf, Symbols, Power256, Zeros;
    var raw := Put(true, w, |m|) + Offsets(w, offs) + Strings(m) + Zeros(pad);
    var s := Strings(m) + Zeros(pad);
    PutGet(true, w, |m|);
    Parts(Put(true, w, |m|), Offsets(w, offs), Strings(m), Zeros(pad));
    NoStrings(m);
    NamesRead(m, members, pad, 0);
    assert s[0..] == s && NamesOf(m)[0..] == NamesOf(m);
    WideSymbolsRead(w, m, offs);
  }

  lemma NoStrings(m: seq<Orl>)
    ensures StringsSize(m[..0]) == 0
  {
  }
}
