/**
  Removal of repeated header groups, said of the flat table and nothing else: which number tells two
  headers apart, and what becomes of the symbol at each position.
 */
module AoutDedup {
  import opened Bytes
  import opened AoutModel
  import opened AoutGroups
  import opened AoutHeaders

  // ----- the number of a stab string -----

  predicate OpensNumber(s: Name, q: nat, p: nat)
    requires q < p < |s|
  {
    s[q] == OPEN_PAREN && forall r :: q < r <= p ==> IsDigit(s[r])
  }

  /** The character at p belongs to the number of a file: digits reach from it back to an open parenthesis. */
  predicate FileNumber(s: Name, p: nat)
    requires p < |s|
  {
    exists q :: 0 <= q < p && OpensNumber(s, q, p)
  }

  /** The characters from i on that belong to no file number. */
  function Kept(s: Name, i: nat): seq<byte>
    requires i <= |s|
    decreases |s| - i
  {
    if i == |s| then [] else (if FileNumber(s, i) then [] else [s[i]]) + Kept(s, i + 1)
  }

  function CharSum(s: seq<byte>): int {
    if s == [] then 0 else SignedChar(s[0]) + CharSum(s[1..])
  }

  lemma {:induction false} SkipKept(s: Name, i: nat, j: nat)
    requires i <= j <= |s| && forall p :: i <= p < j ==> FileNumber(s, p)
    ensures Kept(s, i) == Kept(s, j)
    decreases j - i
  {
    hide FileNumber;
    if i < j {
      SkipKept(s, i + 1, j);
    }
  }

  lemma {:induction false} DigitsSkipped(s: Name, i: nat)
    requires i <= |s|
    ensures var j := SkipDigits(s, i);
            (forall p :: i <= p < j ==> IsDigit(s[p])) && (j < |s| ==> !IsDigit(s[j]))
    decreases |s| - i
  {
    if i < |s| && IsDigit(s[i]) {
      DigitsSkipped(s, i + 1);
    }
  }

  lemma VmaAdd(a: int, b: int)
    ensures Vma(Vma(a) + b) == Vma(a + b)
  {
    var n := a / VMA_MOD;
    assert a + b == VMA_MOD * n + (Vma(a) + b);
  }

  /** What comes behind a character that is in no file number and opens none is in none either. */
  lemma NextNumber(s: Name, i: nat)
    requires i + 1 < |s| && !FileNumber(s, i) && s[i] != OPEN_PAREN
    ensures !FileNumber(s, i + 1)
  {
    var p := i + 1;
    forall q | 0 <= q < p
      ensures !OpensNumber(s, q, p)
    {
      if q < i && OpensNumber(s, q, p) {
        assert OpensNumber(s, q, i);
      }
    }
  }

  lemma {:induction false} StabSumFrom(s: Name, i: nat, acc: nat)
    requires i <= |s| && acc < VMA_MOD && (i < |s| ==> !FileNumber(s, i))
    ensures StabSum(s, i, acc) == Vma(acc + CharSum(Kept(s, i)))
    decreases |s| - i
  {
    hide FileNumber;
    if i < |s| {
      var one := Vma(acc + SignedChar(s[i]));
      var j := if s[i] == OPEN_PAREN then SkipDigits(s, i + 1) else i + 1;
      if s[i] == OPEN_PAREN {
        NumberSkipped(s, i);
        SkipKept(s, i + 1, j);
      } else if i + 1 < |s| {
        NextNumber(s, i);
      }
      StabSumFrom(s, j, one);
      VmaAdd(acc + SignedChar(s[i]), CharSum(Kept(s, j)));
      assert Kept(s, i) == [s[i]] + Kept(s, j);
      assert Kept(s, i)[1..] == Kept(s, j);
    }
  }

  lemma NumberSkipped(s: Name, i: nat)
    requires i < |s| && s[i] == OPEN_PAREN
    ensures var j := SkipDigits(s, i + 1);
            (forall p :: i + 1 <= p < j ==> FileNumber(s, p)) && (j < |s| ==> !FileNumber(s, j))
  {
    DigitsSkipped(s, i + 1);
    var j := SkipDigits(s, i + 1);
    forall p | i + 1 <= p < j
      ensures FileNumber(s, p)
    {
      assert OpensNumber(s, i, p);
    }
    if j < |s| {
      forall q | 0 <= q < j
        ensures !OpensNumber(s, q, j)
      {
      }
    }
  }

  /** The sum over a stab string is that of its characters but for the numbers of files. */
  lemma StabSumIs(s: Name, acc: nat)
    requires acc < VMA_MOD
    ensures StabSum(s, 0, acc) == Vma(acc + CharSum(Kept(s, 0)))
  {
    StabSumFrom(s, 0, acc);
  }

  predicate Digits(d: seq<byte>) {
    forall i :: 0 <= i < |d| ==> IsDigit(d[i])
  }

  function WithNumber(pre: Name, d: seq<byte>, rest: Name): Name {
    pre + [OPEN_PAREN] + d + rest
  }

  lemma KeptNext(s: Name, i: nat)
    requires i < |s|
    ensures Kept(s, i) == (if FileNumber(s, i) then [] else [s[i]]) + Kept(s, i + 1)
  {
    hide FileNumber;
  }

  /** rest stands at the end of x. */
  predicate EndsWith(x: Name, a: nat, rest: Name) {
    |x| == a + |rest| && forall r :: 0 <= r < |rest| ==> x[a + r] == rest[r]
  }

  lemma {:induction false} KeptRest(x: Name, a: nat, rest: Name, t: nat)
    requires EndsWith(x, a, rest) && (rest != [] ==> !IsDigit(rest[0])) && t <= |rest|
    ensures Kept(x, a + t) == Kept(rest, t)
    decreases |rest| - t
  {
    hide FileNumber, Kept;
    if t < |rest| {
      RestNumber(x, a, rest, t);
      KeptNext(x, a + t);
      KeptNext(rest, t);
      KeptRest(x, a, rest, t + 1);
    } else {
      KeptEnd(x);
      KeptEnd(rest);
    }
  }

  lemma KeptEnd(s: Name)
    ensures Kept(s, |s|) == []
  {
  }

  lemma RestNumber(x: Name, a: nat, rest: Name, t: nat)
    requires EndsWith(x, a, rest) && (rest != [] ==> !IsDigit(rest[0])) && t < |rest|
    ensures x[a + t] == rest[t] && (FileNumber(x, a + t) <==> FileNumber(rest, t))
  {
    if FileNumber(rest, t) {
      var q :| 0 <= q < t && OpensNumber(rest, q, t);
      NumberMoved(x, a, rest, q, t);
    }
    if FileNumber(x, a + t) {
      var q :| 0 <= q < a + t && OpensNumber(x, q, a + t);
      assert x[a + 0] == rest[0];
      assert q >= a;
      NumberMoved(x, a, rest, q - a, t);
    }
  }

  lemma NumberMoved(x: Name, a: nat, rest: Name, q: nat, t: nat)
    requires EndsWith(x, a, rest) && q < t < |rest|
    ensures OpensNumber(x, a + q, a + t) <==> OpensNumber(rest, q, t)
  {
    if OpensNumber(x, a + q, a + t) {
      forall r | q < r <= t
        ensures IsDigit(rest[r])
      {
        assert x[a + r] == rest[r];
      }
    }
    if OpensNumber(rest, q, t) {
      forall r | a + q < r <= a + t
        ensures IsDigit(x[r])
      {
        assert x[a + (r - a)] == rest[r - a];
      }
    }
  }

  lemma {:induction false} KeptFront(pre: Name, d: seq<byte>, rest: Name, i: nat)
    requires Digits(d) && (rest != [] ==> !IsDigit(rest[0])) && i <= |pre| + 1
    ensures Kept(WithNumber(pre, d, rest), i) == Kept(pre + [OPEN_PAREN], i) + Kept(rest, 0)
    decreases |pre| + 1 - i
  {
    hide FileNumber;
    var x := WithNumber(pre, d, rest);
    if i == |pre| + 1 {
      NumberIs(pre, d, rest);
      SkipKept(x, i, i + |d|);
      KeptRest(x, i + |d|, rest, 0);
    } else {
      FrontNumber(pre, d, rest, i);
      KeptFront(pre, d, rest, i + 1);
    }
  }

  lemma NumberIs(pre: Name, d: seq<byte>, rest: Name)
    requires Digits(d)
    ensures var x := WithNumber(pre, d, rest);
            forall p :: |pre| + 1 <= p < |pre| + 1 + |d| ==> FileNumber(x, p)
  {
    var x := WithNumber(pre, d, rest);
    forall p | |pre| + 1 <= p < |pre| + 1 + |d|
      ensures FileNumber(x, p)
    {
      forall r | |pre| < r <= p
        ensures IsDigit(x[r])
      {
        assert x[r] == d[r - |pre| - 1];
      }
      assert OpensNumber(x, |pre|, p);
    }
  }

  lemma FrontNumber(pre: Name, d: seq<byte>, rest: Name, i: nat)
    requires i <= |pre|
    ensures var x := WithNumber(pre, d, rest);
            x[i] == (pre + [OPEN_PAREN])[i] && (FileNumber(x, i) <==> FileNumber(pre + [OPEN_PAREN], i))
  {
    var x, y := WithNumber(pre, d, rest), pre + [OPEN_PAREN];
    assert forall r :: 0 <= r <= i ==> x[r] == y[r];
    assert forall q :: 0 <= q < i ==> (OpensNumber(x, q, i) <==> OpensNumber(y, q, i));
  }

  /** The number of the file a type refers to does not matter. */
  lemma NumberFree(pre: Name, d: seq<byte>, e: seq<byte>, rest: Name, acc: nat)
    requires Digits(d) && Digits(e) && (rest != [] ==> !IsDigit(rest[0])) && acc < VMA_MOD
    ensures Kept(WithNumber(pre, d, rest), 0) == Kept(WithNumber(pre, e, rest), 0)
    ensures StabSum(WithNumber(pre, d, rest), 0, acc) == StabSum(WithNumber(pre, e, rest), 0, acc)
  {
    KeptFront(pre, d, rest, 0);
    KeptFront(pre, e, rest, 0);
    StabSumIs(WithNumber(pre, d, rest), acc);
    StabSumIs(WithNumber(pre, e, rest), acc);
  }

  // ----- the number of a header -----

  /** The positions of the N_BINCLs that are open before position i, the innermost first. */
  function Stack(syms: seq<Nlist>, i: nat): seq<nat>
    requires i <= |syms|
  {
    if i == 0 then []
    else
      var before := Stack(syms, i - 1);
      if syms[i - 1].typ == N_BINCL then [i - 1] + before
      else if syms[i - 1].typ == N_EINCL then if before == [] then [] else before[1..]
      else before
  }

  /** The symbol at j is directly inside the group that opens at i. */
  predicate DirectlyIn(syms: seq<Nlist>, i: nat, j: nat)
    requires j < |syms|
  {
    !Bracket(syms[j].typ) && Stack(syms, j) != [] && Stack(syms, j)[0] == i
  }

  /** The stab strings from j on that are directly inside the group that opens at i. */
  function StabsOf(syms: seq<Nlist>, i: nat, j: nat): seq<Name>
    requires j <= |syms|
    decreases |syms| - j
  {
    if j == |syms| then []
    else (if DirectlyIn(syms, i, j) then [syms[j].name] else []) + StabsOf(syms, i, j + 1)
  }

  function SumOf(stabs: seq<Name>): int {
    if stabs == [] then 0 else CharSum(Kept(stabs[0], 0)) + SumOf(stabs[1..])
  }

  /** What a header is known by. */
  function Key(syms: seq<Nlist>, i: nat): (Name, nat)
    requires i < |syms|
  {
    (syms[i].name, Vma(SumOf(StabsOf(syms, i, i + 1))))
  }

  predicate Opens(syms: seq<Nlist>, j: nat, p: (Name, nat))
    requires j < |syms|
  {
    syms[j].typ == N_BINCL && Key(syms, j) == p
  }

  /** The group at i is the first of its name and number, in this input and in those before. */
  predicate FirstOf(inc: Includes, syms: seq<Nlist>, i: nat)
    requires i < |syms|
  {
    !In(inc, Key(syms, i)) && forall j :: 0 <= j < i ==> !Opens(syms, j, Key(syms, i))
  }

  /** What is directly inside no group, or inside one that is the first of its kind, is copied. */
  predicate Copies(inc: Includes, syms: seq<Nlist>, i: nat)
    requires i <= |syms|
  {
    Stack(syms, i) == [] || (Stack(syms, i)[0] < |syms| && FirstOf(inc, syms, Stack(syms, i)[0]))
  }

  /** What becomes of the symbol at i; leaves says what ordinary symbols are copied as. */
  function Image(inp: Input, leaves: seq<seq<Nlist>>, inc: Includes, i: nat): seq<Nlist>
    requires i < |inp.syms| == |leaves|
  {
    var sym := inp.syms[i];
    if sym.typ == N_BINCL then
      [sym.(typ := if FirstOf(inc, inp.syms, i) then N_BINCL else N_EXCL, value := Key(inp.syms, i).1)]
    else if !Copies(inc, inp.syms, i) then []
    else if sym.typ == N_EINCL then [EndOf(inp, sym)]
    else leaves[i]
  }

  function Images(inp: Input, leaves: seq<seq<Nlist>>, inc: Includes, i: nat, n: nat): seq<Nlist>
    requires i <= n <= |inp.syms| == |leaves|
    decreases n - i
  {
    if i == n then [] else Image(inp, leaves, inc, i) + Images(inp, leaves, inc, i + 1, n)
  }

  lemma {:induction false} ImagesSplit(inp: Input, leaves: seq<seq<Nlist>>, inc: Includes, i: nat, j: nat, n: nat)
    requires i <= j <= n <= |inp.syms| == |leaves|
    ensures Images(inp, leaves, inc, i, n) == Images(inp, leaves, inc, i, j) + Images(inp, leaves, inc, j, n)
    decreases j - i
  {
    hide Image;
    if i < j {
      ImagesSplit(inp, leaves, inc, i + 1, j, n);
    }
  }

  // ----- trees and the flat table -----

  /** A stretch whose groups are closed leaves the open groups as they are. */
  lemma {:induction false} StackOver(syms: seq<Nlist>, off: nat, f: Forest)
    requires At(syms, off, f) && Bracketed(f)
    ensures off + Size(f) <= |syms| && Stack(syms, off + Size(f)) == Stack(syms, off)
    decreases f
  {
    hide Flatten;
    AtBound(syms, off, f);
    match f
    case Empty =>
    case Leaf(_, rest) => StackOver(syms, off + 1, rest);
    case Group(_, body, _, rest) =>
      StackOver(syms, off + 1, body);
      StackOver(syms, off + 2 + Size(body), rest);
  }

  function Direct(f: Forest): seq<Name> {
    match f
    case Empty => []
    case Leaf(s, rest) => [s.name] + Direct(rest)
    case Group(_, _, _, rest) => Direct(rest)
  }

  lemma {:induction false} BodySumIs(f: Forest, acc: nat)
    requires acc < VMA_MOD
    ensures BodySum(f, acc) == Vma(acc + SumOf(Direct(f)))
    decreases f
  {
    hide StabSum, Kept;
    match f
    case Empty =>
    case Leaf(s, rest) =>
      StabSumIs(s.name, acc);
      BodySumIs(rest, StabSum(s.name, 0, acc));
      VmaAdd(acc + CharSum(Kept(s.name, 0)), SumOf(Direct(rest)));
      assert Direct(f)[1..] == Direct(rest);
    case Group(_, _, _, rest) => BodySumIs(rest, acc);
  }

  /** What is open around and in a group. */
  lemma StackGroup(syms: seq<Nlist>, off: nat, f: Forest)
    requires f.Group? && At(syms, off, f) && Bracketed(f)
    ensures var end := off + 1 + Size(f.body);
            && end + 1 + Size(f.rest) <= |syms| && syms[off] == f.begin && syms[end] == f.end
            && Bracket(syms[off].typ) && Bracket(syms[end].typ) && Size(f) == Size(f.body) + 2 + Size(f.rest)
            && At(syms, off + 1, f.body) && At(syms, end + 1, f.rest) && Bracketed(f.body) && Bracketed(f.rest)
            && Stack(syms, off + 1) == [off] + Stack(syms, off) == Stack(syms, end)
            && Stack(syms, end + 1) == Stack(syms, off)
  {
    hide Flatten;
    StackOver(syms, off, f);
    StackOver(syms, off + 1, f.body);
  }

  lemma StackLeaf(syms: seq<Nlist>, off: nat, f: Forest)
    requires f.Leaf? && At(syms, off, f) && Bracketed(f)
    ensures off + 1 + Size(f.rest) <= |syms| && syms[off] == f.sym && !Bracket(f.sym.typ) && Size(f) == 1 + Size(f.rest)
    ensures At(syms, off + 1, f.rest) && Bracketed(f.rest) && Stack(syms, off + 1) == Stack(syms, off)
  {
    hide Flatten;
    StackOver(syms, off, f);
  }

  /** The stabs of a group that encloses a stretch directly are those directly in the stretch, and then the rest. */
  lemma {:induction false} StabsOver(syms: seq<Nlist>, i: nat, off: nat, f: Forest)
    requires At(syms, off, f) && Bracketed(f) && i < off <= |syms| && Stack(syms, off) != [] && Stack(syms, off)[0] == i
    ensures off + Size(f) <= |syms|
    ensures StabsOf(syms, i, off) == Direct(f) + StabsOf(syms, i, off + Size(f))
    decreases f
  {
    hide Flatten, Stack, At, Bracketed, Size, Bracket, StabsOf;
    match f
    case Empty => EmptySize();
    case Leaf(_, rest) =>
      StackLeaf(syms, off, f);
      StabsNext(syms, i, off);
      StabsOver(syms, i, off + 1, rest);
    case Group(_, body, _, rest) =>
      var end := off + 1 + Size(body);
      StackGroup(syms, off, f);
      StabsNext(syms, i, off);
      StabsNext(syms, i, end);
      StabsBeside(syms, i, off + 1, body);
      StabsOver(syms, i, end + 1, rest);
  }

  lemma StabsNext(syms: seq<Nlist>, i: nat, j: nat)
    requires j < |syms|
    ensures StabsOf(syms, i, j) == (if DirectlyIn(syms, i, j) then [syms[j].name] else []) + StabsOf(syms, i, j + 1)
  {
  }

  lemma EmptySize()
    ensures Size(Empty) == 0
  {
  }

  /** Inside a group opened later there is nothing of it. */
  lemma {:induction false} StabsBeside(syms: seq<Nlist>, i: nat, off: nat, f: Forest)
    requires At(syms, off, f) && Bracketed(f) && off <= |syms| && (Stack(syms, off) == [] || Stack(syms, off)[0] != i)
    requires i < off
    ensures off + Size(f) <= |syms| && StabsOf(syms, i, off) == StabsOf(syms, i, off + Size(f))
    decreases f
  {
    hide Flatten, Stack, At, Bracketed, Size, Bracket;
    match f
    case Empty => EmptySize();
    case Leaf(_, rest) =>
      StackLeaf(syms, off, f);
      StabsBeside(syms, i, off + 1, rest);
    case Group(_, body, _, rest) =>
      var end := off + 1 + Size(body);
      StackGroup(syms, off, f);
      StabsBeside(syms, i, off + 1, body);
      StabsBeside(syms, i, end + 1, rest);
  }

  lemma {:induction false} StackBelow(syms: seq<Nlist>, j: nat)
    requires j <= |syms|
    ensures forall k :: 0 <= k < |Stack(syms, j)| ==> Stack(syms, j)[k] < j
  {
    if j > 0 {
      StackBelow(syms, j - 1);
    }
  }

  /** Once a group is closed nothing is in it. */
  lemma {:induction false} StabsAfter(syms: seq<Nlist>, i: nat, j: nat)
    requires i < j <= |syms| && forall k :: 0 <= k < |Stack(syms, j)| ==> Stack(syms, j)[k] != i
    ensures StabsOf(syms, i, j) == []
    decreases |syms| - j
  {
    if j < |syms| {
      StabsAfter(syms, i, j + 1);
    }
  }

  /** A group of the tree is known by what its two scans make of it. */
  lemma KeyIs(syms: seq<Nlist>, off: nat, f: Forest)
    requires f.Group? && At(syms, off, f) && Bracketed(f)
    ensures off < |syms| && Key(syms, off) == (f.begin.name, BodySum(f.body, 0))
  {
    hide Flatten, Stack, At, Bracketed, Size, Bracket, SumOf, BodySum;
    StackGroup(syms, off, f);
    var end := off + 1 + Size(f.body);
    StabsOver(syms, off, off + 1, f.body);
    StackBelow(syms, off);
    StabsAfter(syms, off, end + 1);
    BodySumIs(f.body, 0);
    assert StabsOf(syms, off, off + 1) == Direct(f.body);
  }

  // ----- the transformation of the tree, position by position -----

  /** inc is what was known at first and the headers that open before position n. */
  ghost predicate KnownAt(inc0: Includes, syms: seq<Nlist>, n: nat, inc: Includes)
    requires n <= |syms|
  {
    forall p: (Name, nat) :: In(inc, p) <==> In(inc0, p) || exists j :: 0 <= j < n && Opens(syms, j, p)
  }

  lemma KnownOther(inc0: Includes, syms: seq<Nlist>, n: nat, inc: Includes)
    requires n < |syms| && KnownAt(inc0, syms, n, inc) && syms[n].typ != N_BINCL
    ensures KnownAt(inc0, syms, n + 1, inc)
  {
    hide In, Key;
    forall p: (Name, nat)
      ensures In(inc, p) <==> In(inc0, p) || exists j :: 0 <= j < n + 1 && Opens(syms, j, p)
    {
      assert !Opens(syms, n, p);
    }
  }

  lemma KnownFirst(inc0: Includes, syms: seq<Nlist>, n: nat, inc: Includes)
    requires n < |syms| && KnownAt(inc0, syms, n, inc) && syms[n].typ == N_BINCL
    ensures var (name, total) := Key(syms, n);
            && (FirstOf(inc0, syms, n) <==> total !in Known(inc, name))
            && KnownAt(inc0, syms, n + 1, if total in Known(inc, name) then inc else inc[name := [total] + Known(inc, name)])
  {
    hide Key;
    var key := Key(syms, n);
    var (name, total) := key;
    assert In(inc, key) <==> total in Known(inc, name);
    var inc1 := if total in Known(inc, name) then inc else inc[name := [total] + Known(inc, name)];
    if !In(inc, key) {
      GrownOne(inc, name, total);
    }
    forall p: (Name, nat)
      ensures In(inc1, p) <==> In(inc0, p) || exists j :: 0 <= j < n + 1 && Opens(syms, j, p)
    {
      assert Opens(syms, n, p) <==> p == key;
      assert In(inc1, p) <==> In(inc, p) || p == key;
    }
  }

  /** The transformed tree, read from left to right, is the images of the positions it stands on. */
  lemma {:induction false} TreeImages(o: Options, inp: Input, hs: seq<Option<nat>>, ls: seq<seq<Nlist>>, inc0: Includes,
                                      inc: Includes, f: Forest, off: nat)
    requires At(inp.syms, off, f) && Bracketed(f) && off + Size(f) <= |inp.syms| == |ls| == |hs|
    requires LeavesOk(o, inp, hs, ls, f, off) && KnownAt(inc0, inp.syms, off, inc)
    ensures off + Size(f) <= |inp.syms|
    ensures var (f', inc') := Transform(inp, ls, inc, f, off, Copies(inc0, inp.syms, off));
            && Flatten(f') == Images(inp, ls, inc0, off, off + Size(f))
            && KnownAt(inc0, inp.syms, off + Size(f), inc')
    decreases f, 1
  {
    hide At, Bracketed, Size, Stack, FirstOf, KnownAt, LeafOk, BodySum, EndOf, Known, Join, Key, Image, LeafOf, Bracket;
    var syms := inp.syms;
    match f
    case Empty => EmptySize();
    case Leaf(s, rest) =>
      StackLeaf(syms, off, f);
      LeafSize(o, inp, hs[off], s, ls[off], Transform(inp, ls, inc, rest, off + 1, Copies(inc0, syms, off)).0);
      KnownLeaf(inc0, syms, off, inc);
      TreeImages(o, inp, hs, ls, inc0, inc, rest, off + 1);
      LeafImage(inp, ls, inc0, off);
    case Group(b, body, e, rest) => GroupImages(o, inp, hs, ls, inc0, inc, f, off);
  }

  lemma {:induction false} GroupImages(o: Options, inp: Input, hs: seq<Option<nat>>, ls: seq<seq<Nlist>>, inc0: Includes,
                                       inc: Includes, f: Forest, off: nat)
    requires f.Group? && At(inp.syms, off, f) && Bracketed(f) && off + Size(f) <= |inp.syms| == |ls| == |hs|
    requires LeavesOk(o, inp, hs, ls, f, off) && KnownAt(inc0, inp.syms, off, inc)
    ensures var (f', inc') := Transform(inp, ls, inc, f, off, Copies(inc0, inp.syms, off));
            && Flatten(f') == Images(inp, ls, inc0, off, off + Size(f))
            && KnownAt(inc0, inp.syms, off + Size(f), inc')
    decreases f, 0
  {
    hide At, Bracketed, Size, Stack, FirstOf, KnownAt, LeafOk, BodySum, EndOf, Known, Key, Image, Copies, Images, Bracket,
         Transform, Flatten;
    var syms := inp.syms;
    var (b, body, e, rest) := (f.begin, f.body, f.end, f.rest);
    var end := off + 1 + Size(body);
    StackGroup(syms, off, f);
    GroupTypes(f);
    KeyIs(syms, off, f);
    KnownFirst(inc0, syms, off, inc);
    CopiesAround(inc0, syms, off, end);
    var total := BodySum(body, 0);
    var again := total in Known(inc, b.name);
    var inc1 := if again then inc else inc[b.name := [total] + Known(inc, b.name)];
    TreeImages(o, inp, hs, ls, inc0, inc1, body, off + 1);
    var (body', inc2) := Transform(inp, ls, inc1, body, off + 1, !again);
    KnownOther(inc0, syms, end, inc2);
    TreeImages(o, inp, hs, ls, inc0, inc2, rest, end + 1);
    BracketImages(inp, ls, inc0, off, end);
    ImagesGroup(inp, ls, inc0, off, end, off + Size(f));
    var (rest', inc3) := Transform(inp, ls, inc2, rest, end + 1, Copies(inc0, syms, off));
    GroupFlat(inp, ls, inc, f, off, Copies(inc0, syms, off), body', inc2, rest', inc3);
  }

  /** The transformed group, flattened. */
  lemma GroupFlat(inp: Input, ls: seq<seq<Nlist>>, inc: Includes, f: Forest, off: nat, keep: bool, body': Forest,
                  inc2: Includes, rest': Forest, inc3: Includes)
    requires f.Group? && off + Size(f) <= |ls|
    requires var total := BodySum(f.body, 0);
             var again := total in Known(inc, f.begin.name);
             var inc1 := if again then inc else inc[f.begin.name := [total] + Known(inc, f.begin.name)];
             && (body', inc2) == Transform(inp, ls, inc1, f.body, off + 1, !again)
             && (rest', inc3) == Transform(inp, ls, inc2, f.rest, off + 2 + Size(f.body), keep)
    ensures var total := BodySum(f.body, 0);
            var again := total in Known(inc, f.begin.name);
            var b := f.begin;
            var (f', inc') := Transform(inp, ls, inc, f, off, keep);
            && inc' == inc3
            && Flatten(f') == [Nlist(if again then N_EXCL else N_BINCL, b.other, b.desc, b.name, total)] + Flatten(body')
                              + (if again then [] else [EndOf(inp, f.end)]) + Flatten(rest')
  {
    hide BodySum, EndOf, Known, Join;
  }

  lemma GroupTypes(f: Forest)
    requires f.Group? && Bracketed(f)
    ensures f.begin.typ == N_BINCL && f.end.typ == N_EINCL && N_EINCL != N_BINCL
  {
  }

  lemma CopiesAround(inc: Includes, syms: seq<Nlist>, off: nat, end: nat)
    requires off < end < |syms| && Stack(syms, off + 1) == [off] + Stack(syms, off) == Stack(syms, end)
    requires Stack(syms, end + 1) == Stack(syms, off)
    ensures Copies(inc, syms, off + 1) == Copies(inc, syms, end) == FirstOf(inc, syms, off)
    ensures Copies(inc, syms, end + 1) == Copies(inc, syms, off)
  {
    hide Stack, FirstOf;
  }

  lemma BracketImages(inp: Input, ls: seq<seq<Nlist>>, inc: Includes, off: nat, end: nat)
    requires off < end < |inp.syms| == |ls| && inp.syms[off].typ == N_BINCL && inp.syms[end].typ == N_EINCL
    requires Copies(inc, inp.syms, end) == FirstOf(inc, inp.syms, off)
    ensures var b := inp.syms[off];
            var first := FirstOf(inc, inp.syms, off);
            && Image(inp, ls, inc, off)
               == [Nlist(if first then N_BINCL else N_EXCL, b.other, b.desc, b.name, Key(inp.syms, off).1)]
            && Image(inp, ls, inc, end) == if first then [EndOf(inp, inp.syms[end])] else []
  {
    hide Copies, FirstOf, Key, EndOf;
  }

  lemma ImagesGroup(inp: Input, ls: seq<seq<Nlist>>, inc: Includes, off: nat, end: nat, n: nat)
    requires off < end < n <= |inp.syms| == |ls|
    ensures Images(inp, ls, inc, off, n)
            == Image(inp, ls, inc, off) + Images(inp, ls, inc, off + 1, end) + Image(inp, ls, inc, end)
               + Images(inp, ls, inc, end + 1, n)
  {
    hide Image;
    ImagesSplit(inp, ls, inc, off + 1, end, n);
  }

  lemma LeafSize(o: Options, inp: Input, h: Option<nat>, sym: Nlist, leaf: seq<Nlist>, rest: Forest)
    requires LeafOk(o, inp, h, sym, leaf)
    ensures Flatten(LeafOf(leaf, rest)) == leaf + Flatten(rest)
  {
  }

  lemma KnownLeaf(inc0: Includes, syms: seq<Nlist>, n: nat, inc: Includes)
    requires n < |syms| && KnownAt(inc0, syms, n, inc) && !Bracket(syms[n].typ)
    ensures KnownAt(inc0, syms, n + 1, inc)
  {
    KnownOther(inc0, syms, n, inc);
  }

  lemma LeafImage(inp: Input, ls: seq<seq<Nlist>>, inc0: Includes, i: nat)
    requires i < |inp.syms| == |ls| && !Bracket(inp.syms[i].typ)
    ensures Image(inp, ls, inc0, i) == if Copies(inc0, inp.syms, i) then ls[i] else []
  {
    hide Copies;
  }

  /**
    aout_link_write_symbols on any balanced table with its stabs kept and no indirect or warning
    symbols: what it writes is the file symbol, if any, and then the images of the positions in order.
   */
  lemma DedupExactly(o: Options, inp: Input, l: Link, symHashes: seq<Option<nat>>, f: Forest) returns (ls: seq<seq<Nlist>>)
    requires inp.syms == Flatten(f) && Bracketed(f) && PassOk(inp, Start(o, inp, l, symHashes))
    requires Size(f) <= |symHashes| && Plain(o, symHashes, f, 0)
    ensures |ls| == |symHashes| == |inp.syms| && LeavesOk(o, inp, symHashes, ls, f, 0)
    ensures WriteSymbols(o, inp, l, symHashes).out
            == Start(o, inp, l, symHashes).out + Images(inp, ls, l.includes, 0, |inp.syms|)
    ensures KnownAt(l.includes, inp.syms, |inp.syms|, WriteSymbols(o, inp, l, symHashes).link.includes)
  {
    hide Plain, Bracketed, Transform, Flatten, At, Start, WriteSymbols, LeavesOk, Images, WellLinked;
    ls := InputTransforms(o, inp, l, symHashes, f);
    AtFlatten(inp.syms, 0, f);
    KnownStart(l.includes, inp.syms);
    TreeImages(o, inp, symHashes, ls, l.includes, l.includes, f, 0);
  }

  lemma KnownStart(inc: Includes, syms: seq<Nlist>)
    ensures KnownAt(inc, syms, 0, inc) && Copies(inc, syms, 0)
  {
  }

  /** Strings that differ in the numbers of files only. */
  predicate SameButFiles(a: seq<Name>, b: seq<Name>) {
    |a| == |b| && forall k :: 0 <= k < |a| ==> Kept(a[k], 0) == Kept(b[k], 0)
  }

  lemma {:induction false} SameSums(a: seq<Name>, b: seq<Name>)
    requires SameButFiles(a, b)
    ensures SumOf(a) == SumOf(b)
  {
    hide Kept;
    if a != [] {
      assert forall k :: 0 <= k < |a[1..]| ==> a[1..][k] == a[k + 1] && b[1..][k] == b[k + 1];
      SameSums(a[1..], b[1..]);
    }
  }

  /** A header that is included again, under whatever numbers of files, is replaced by an N_EXCL. */
  lemma SecondExcluded(inp: Input, ls: seq<seq<Nlist>>, inc: Includes, i: nat, j: nat)
    requires i < j < |inp.syms| == |ls| && inp.syms[i].typ == N_BINCL && inp.syms[j].typ == N_BINCL
    requires inp.syms[i].name == inp.syms[j].name
    requires SameButFiles(StabsOf(inp.syms, i, i + 1), StabsOf(inp.syms, j, j + 1))
    ensures var x := Image(inp, ls, inc, j);
            |x| == 1 && x[0].typ == N_EXCL && x[0].name == inp.syms[j].name && x[0].value == Key(inp.syms, i).1
  {
    hide StabsOf, SumOf, SameButFiles;
    SameSums(StabsOf(inp.syms, i, i + 1), StabsOf(inp.syms, j, j + 1));
    assert Opens(inp.syms, i, Key(inp.syms, j));
  }
}
