/**
  The symbol map of an archive in its three formats: collecting the symbols, the writers, which
  first work out where each member will stand, and the readers (archive.c, archive64.c).
 */
module ArMap {
  import opened Bytes
  import opened Ascii
  import opened ArHeader

  const WORD32 := 0x1_0000_0000
  const BSD_SYMDEF_SIZE := 8

  /** What the layout of a member depends on: its bytes, and those of a name that follows its header. */
  datatype Slot = Slot(size: nat, extra: nat)

  datatype Orl = Orl(name: Text, member: nat, namidx: nat)

  /** A symbol as the map's reader gives it. */
  datatype Carsym = Carsym(name: Text, offset: nat)

  function Even(n: nat): (r: nat)
    ensures r % 2 == 0 && n <= r <= n + 1
  {
    n + n % 2
  }

  // ----- collecting -----

  /** A symbol of a member, with what decides whether the map has it. */
  datatype Symbol = Symbol(
    name: Text, global: bool, weak: bool, indirect: bool, unique: bool, commonSection: bool, undefinedSection: bool)

  predicate Exported(s: Symbol) {
    (s.global || s.weak || s.indirect || s.unique || s.commonSection) && !s.undefinedSection
  }

  /** The exported symbols of the first n members, in order, each with its place in the string table. */
  function Collected(syms: seq<seq<Symbol>>, n: nat): seq<Orl>
    requires n <= |syms|
  {
    if n == 0 then [] else CollectedIn(Collected(syms, n - 1), n - 1, syms[n - 1], |syms[n - 1]|)
  }

  function CollectedIn(map0: seq<Orl>, member: nat, syms: seq<Symbol>, k: nat): seq<Orl>
    requires k <= |syms|
  {
    if k == 0 then map0
    else
      var m := CollectedIn(map0, member, syms, k - 1);
      if Exported(syms[k - 1]) then m + [Orl(syms[k - 1].name, member, StringsSize(m))] else m
  }

  function StringsSize(m: seq<Orl>): nat {
    if m == [] then 0 else StringsSize(m[..|m| - 1]) + |m[|m| - 1].name| + 1
  }

  predicate Within(m: seq<Orl>, members: nat) {
    forall i :: 0 <= i < |m| ==> m[i].member < members
  }

  /** The map is in the order of the members, and places each name where the strings put it. */
  predicate MapOk(m: seq<Orl>, members: nat) {
    && Within(m, members)
    && (forall i :: 0 <= i < |m| ==> NUL !in m[i].name && m[i].namidx == StringsSize(m[..i]))
    && (forall i, j :: 0 <= i < j < |m| ==> m[i].member <= m[j].member)
  }

  predicate NoNul(syms: seq<seq<Symbol>>) {
    forall i, k :: 0 <= i < |syms| && 0 <= k < |syms[i]| ==> NUL !in syms[i][k].name
  }

  lemma {:induction false} CollectedOk(syms: seq<seq<Symbol>>, n: nat)
    requires n <= |syms| && NoNul(syms)
    ensures MapOk(Collected(syms, n), n)
  {
    if n > 0 {
      CollectedOk(syms, n - 1);
      CollectedInOk(Collected(syms, n - 1), n - 1, syms[n - 1], |syms[n - 1]|);
    }
  }

  lemma {:induction false} CollectedInOk(m: seq<Orl>, member: nat, syms: seq<Symbol>, k: nat)
    requires k <= |syms| && MapOk(m, member) && forall i :: 0 <= i < |syms| ==> NUL !in syms[i].name
    ensures MapOk(CollectedIn(m, member, syms, k), member + 1)
  {
    hide MapOk, StringsSize;
    if k > 0 {
      CollectedInOk(m, member, syms, k - 1);
      MapGrows(CollectedIn(m, member, syms, k - 1), member, syms[k - 1].name);
    } else {
      MapMore(m, member);
    }
  }

  lemma MapMore(m: seq<Orl>, member: nat)
    requires MapOk(m, member)
    ensures MapOk(m, member + 1)
  {
  }

  lemma MapGrows(m: seq<Orl>, member: nat, name: Text)
    requires MapOk(m, member + 1) && NUL !in name
    ensures MapOk(m + [Orl(name, member, StringsSize(m))], member + 1)
  {
    hide StringsSize;
    var b := m + [Orl(name, member, StringsSize(m))];
    forall i | 0 <= i < |b|
      ensures b[i].namidx == StringsSize(b[..i]) && NUL !in b[i].name && b[i].member < member + 1
    {
      assert b[..i] == m[..i];
      assert i == |m| ==> m[..i] == m;
    }
  }

  /** The loop of _bfd_compute_and_write_armap over members and their symbols. */
  method Collect(syms: seq<seq<Symbol>>) returns (orls: seq<Orl>, stridx: nat)
    ensures orls == Collected(syms, |syms|) && stridx == StringsSize(orls)
  {
    orls, stridx := [], 0;
    for eltNo := 0 to |syms|
      invariant orls == Collected(syms, eltNo) && stridx == StringsSize(orls)
    {
      ghost var before := orls;
      for srcCount := 0 to |syms[eltNo]|
        invariant orls == CollectedIn(before, eltNo, syms[eltNo], srcCount) && stridx == StringsSize(orls)
      {
        var sym := syms[eltNo][srcCount];
        if Exported(sym) {
          var next := orls + [Orl(sym.name, eltNo, stridx)];
          assert next[..|next| - 1] == orls;
          orls := next;
          stridx := stridx + |sym.name| + 1;
        }
      }
    }
  }

  // ----- nothing is left out -----

  /** How many of the first k symbols of a member are exported. */
  function Count(syms: seq<Symbol>, k: nat): nat
    requires k <= |syms|
  {
    if k == 0 then 0 else Count(syms, k - 1) + if Exported(syms[k - 1]) then 1 else 0
  }

  /** How many symbols the first n members export. */
  function CountAll(syms: seq<seq<Symbol>>, n: nat): nat
    requires n <= |syms|
  {
    if n == 0 then 0 else CountAll(syms, n - 1) + Count(syms[n - 1], |syms[n - 1]|)
  }

  lemma {:induction false} ListedIn(map0: seq<Orl>, member: nat, syms: seq<Symbol>, k: nat)
    requires k <= |syms|
    ensures var m := CollectedIn(map0, member, syms, k);
            && |m| == |map0| + Count(syms, k) && map0 <= m
            && forall j :: 0 <= j < k && Exported(syms[j]) ==>
                 |map0| + Count(syms, j) < |m|
                 && m[|map0| + Count(syms, j)].name == syms[j].name && m[|map0| + Count(syms, j)].member == member
  {
    hide StringsSize, Exported;
    if k > 0 {
      ListedIn(map0, member, syms, k - 1);
    }
  }

  /**
    The map has every exported symbol of every member, in order, and no more: symbol j of member k
    stands behind those of the members before and those before it in its own.
   */
  lemma {:induction false} MapListed(syms: seq<seq<Symbol>>, n: nat, k: nat, j: nat)
    requires k < n <= |syms| && j < |syms[k]| && Exported(syms[k][j])
    ensures var m := Collected(syms, n);
            var i := CountAll(syms, k) + Count(syms[k], j);
            i < |m| == CountAll(syms, n) && m[i].name == syms[k][j].name && m[i].member == k
    decreases n
  {
    hide StringsSize, Exported, CollectedIn, Count;
    CollectedCount(syms, n - 1);
    ListedIn(Collected(syms, n - 1), n - 1, syms[n - 1], |syms[n - 1]|);
    if k < n - 1 {
      MapListed(syms, n - 1, k, j);
    }
  }

  lemma {:induction false} CollectedCount(syms: seq<seq<Symbol>>, n: nat)
    requires n <= |syms|
    ensures |Collected(syms, n)| == CountAll(syms, n)
  {
    if n > 0 {
      CollectedCount(syms, n - 1);
      ListedIn(Collected(syms, n - 1), n - 1, syms[n - 1], |syms[n - 1]|);
    }
  }

  // ----- where members stand -----

  /** Where member k stands when the first is at position first. */
  function Position(thin: bool, slots: seq<Slot>, first: nat, k: nat): nat
    requires k <= |slots|
  {
    if k == 0 then first
    else Position(thin, slots, first, k - 1) + HDR + slots[k - 1].extra + if thin then 0 else Even(slots[k - 1].size)
  }

  /** What the BSD map writer reckons. */
  function BsdPosition(slots: seq<Slot>, first: nat, k: nat): nat
    requires k <= |slots|
  {
    if k == 0 then first
    else Even(BsdPosition(slots, first, k - 1) + slots[k - 1].size + slots[k - 1].extra + HDR)
  }

  /** What the COFF map writer reckons. */
  function CoffPosition(thin: bool, slots: seq<Slot>, first: nat, k: nat): nat
    requires k <= |slots|
  {
    if k == 0 then first
    else
      var p := CoffPosition(thin, slots, first, k - 1) + HDR;
      if thin then p else Even(p + slots[k - 1].size)
  }

  /** What the 64-bit map writer reckons. */
  function Position64(thin: bool, slots: seq<Slot>, first: nat, k: nat): nat
    requires k <= |slots|
  {
    if k == 0 then first
    else Even(Position64(thin, slots, first, k - 1) + HDR + if thin then 0 else slots[k - 1].size)
  }

  predicate SlotsOk(slots: seq<Slot>) {
    forall i :: 0 <= i < |slots| ==> slots[i].extra % 4 == 0
  }

  predicate NoExtra(slots: seq<Slot>, k: nat)
    requires k <= |slots|
  {
    forall j :: 0 <= j < k ==> slots[j].extra == 0
  }

  predicate NoBytes(slots: seq<Slot>, k: nat)
    requires k <= |slots|
  {
    forall j :: 0 <= j < k ==> slots[j].size == 0
  }

  lemma EvenSum(p: nat, extra: nat, size: nat)
    requires p % 2 == 0 && extra % 4 == 0
    ensures Even(p + size + extra + HDR) == p + extra + HDR + Even(size)
    ensures (p + extra + HDR + Even(size)) % 2 == 0 && (p + extra + HDR) % 2 == 0
    ensures Even(size) == 0 <==> size == 0
  {
    assert (p + extra + HDR) % 2 == 0;
    assert (size + (p + extra + HDR)) % 2 == size % 2;
  }

  /** The BSD reckoning is right for a member exactly when the archive is not thin, or nothing before has bytes. */
  lemma {:induction false} BsdExactly(thin: bool, slots: seq<Slot>, first: nat, k: nat)
    requires k <= |slots| && SlotsOk(slots) && first % 2 == 0
    ensures var p, q := BsdPosition(slots, first, k), Position(thin, slots, first, k);
            q <= p && p % 2 == 0 == q % 2 && (p == q <==> !thin || NoBytes(slots, k))
  {
    hide Even;
    if k > 0 {
      BsdExactly(thin, slots, first, k - 1);
      var s := slots[k - 1];
      EvenSum(BsdPosition(slots, first, k - 1), s.extra, s.size);
      EvenSum(Position(thin, slots, first, k - 1), s.extra, s.size);
      assert NoBytes(slots, k) <==> NoBytes(slots, k - 1) && slots[k - 1].size == 0;
    }
  }

  /** The COFF and 64-bit reckonings are right exactly when no name follows a header before the member. */
  lemma {:induction false} CoffExactly(thin: bool, slots: seq<Slot>, first: nat, k: nat)
    requires k <= |slots| && SlotsOk(slots) && first % 2 == 0
    ensures var p, q := CoffPosition(thin, slots, first, k), Position(thin, slots, first, k);
            p <= q && p % 2 == 0 && (p == q <==> NoExtra(slots, k)) && p == Position64(thin, slots, first, k)
  {
    hide Even;
    if k > 0 {
      CoffExactly(thin, slots, first, k - 1);
      var s := slots[k - 1];
      EvenSum(CoffPosition(thin, slots, first, k - 1), 0, s.size);
      EvenSum(CoffPosition(thin, slots, first, k - 1), 0, 0);
      assert NoExtra(slots, k) <==> NoExtra(slots, k - 1) && slots[k - 1].extra == 0;
    }
  }

  lemma {:induction false} PositionsGrow(thin: bool, slots: seq<Slot>, first: nat, a: nat, b: nat)
    requires a <= b <= |slots|
    ensures BsdPosition(slots, first, a) <= BsdPosition(slots, first, b)
    ensures CoffPosition(thin, slots, first, a) <= CoffPosition(thin, slots, first, b)
    decreases b - a
  {
    if a < b {
      PositionsGrow(thin, slots, first, a, b - 1);
    }
  }

  // ----- numbers in bytes -----

  function Put(big: bool, width: nat, n: nat): (s: Text)
    ensures |s| == width
  {
    if width == 0 then []
    else if big then Put(big, width - 1, n / 256) + [(n % 256) as byte]
    else [(n % 256) as byte] + Put(big, width - 1, n / 256)
  }

  function Get(big: bool, s: Text): nat {
    if s == [] then 0
    else if big then Get(big, s[..|s| - 1]) * 256 + s[|s| - 1] as nat
    else s[0] as nat + 256 * Get(big, s[1..])
  }

  function Power256(w: nat): nat {
    if w == 0 then 1 else 256 * Power256(w - 1)
  }

  /** Digit k of n to the base 256, the lowest being digit 0. */
  function Digit256(n: nat, k: nat): byte {
    if k == 0 then (n % 256) as byte else Digit256(n / 256, k - 1)
  }

  /** Big-endian numbers have their highest digit first, the others their lowest. */
  lemma {:induction false} PutDigits(big: bool, width: nat, n: nat, i: nat)
    requires i < width
    ensures Put(big, width, n)[i] == Digit256(n, if big then width - 1 - i else i)
    decreases width
  {
    if big && i < width - 1 {
      PutDigits(big, width - 1, n / 256, i);
    } else if !big && i > 0 {
      PutDigits(big, width - 1, n / 256, i - 1);
    }
  }

  lemma {:induction false} PutGet(big: bool, width: nat, n: nat)
    requires n < Power256(width)
    ensures Get(big, Put(big, width, n)) == n
    decreases width
  {
    if width > 0 {
      PutGet(big, width - 1, n / 256);
      var s := Put(big, width, n);
      if big {
        assert s[..|s| - 1] == Put(big, width - 1, n / 256);
      } else {
        assert s[1..] == Put(big, width - 1, n / 256);
      }
    }
  }

  lemma Words()
    ensures Power256(4) == WORD32 && Power256(8) == WORD64
  {
    assert Power256(4) == WORD32;
    assert Power256(8) == 256 * (256 * (256 * (256 * Power256(4))));
  }

  // ----- the bodies of the three maps -----

  function Strings(m: seq<Orl>): (s: Text)
    ensures |s| == StringsSize(m)
  {
    if m == [] then [] else Strings(m[..|m| - 1]) + m[|m| - 1].name + [NUL]
  }

  /** offs are the positions written for the symbols. */
  function Pairs(big: bool, m: seq<Orl>, offs: seq<nat>): (s: Text)
    requires |m| == |offs|
    ensures |s| == BSD_SYMDEF_SIZE * |m|
  {
    if m == [] then []
    else Pairs(big, m[..|m| - 1], offs[..|m| - 1]) + Put(big, 4, m[|m| - 1].namidx) + Put(big, 4, offs[|m| - 1])
  }

  function Offsets(width: nat, offs: seq<nat>): (s: Text)
    ensures |s| == width * |offs|
  {
    if offs == [] then [] else Offsets(width, offs[..|offs| - 1]) + Put(true, width, offs[|offs| - 1])
  }

  function BsdBody(big: bool, m: seq<Orl>, offs: seq<nat>): Text
    requires |m| == |offs|
  {
    Put(big, 4, BSD_SYMDEF_SIZE * |m|) + Pairs(big, m, offs) + Put(big, 4, Even(StringsSize(m))) + Strings(m)
    + Zeros(StringsSize(m) % 2)
  }

  function CoffBody(m: seq<Orl>, offs: seq<nat>): Text
    requires |m| == |offs|
  {
    Put(true, 4, |m|) + Offsets(4, offs) + Strings(m) + Zeros(StringsSize(m) % 2)
  }

  function Pad8(n: nat): nat { (8 - n % 8) % 8 }

  function Body64(m: seq<Orl>, offs: seq<nat>): Text
    requires |m| == |offs|
  {
    Put(true, 8, |m|) + Offsets(8, offs) + Strings(m) + Zeros(Pad8(StringsSize(m) + 8 * |m| + 8))
  }
}
