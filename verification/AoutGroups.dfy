/**
  Duplicate header groups. The linker removes them with flat scans and a nesting counter over the
  symbol table; on a table whose N_BINCL and N_EINCL balance, that is a transformation of trees.
 */
module AoutGroups {
  import opened Bytes
  import opened AoutModel

  /** A stretch of symbols whose header groups are closed: first symbol or group, then the rest. */
  datatype Forest =
    | Empty
    | Leaf(sym: Nlist, rest: Forest)
    | Group(begin: Nlist, body: Forest, end: Nlist, rest: Forest)

  function Flatten(f: Forest): seq<Nlist> {
    match f
    case Empty => []
    case Leaf(s, rest) => [s] + Flatten(rest)
    case Group(b, body, e, rest) => [b] + Flatten(body) + [e] + Flatten(rest)
  }

  function Size(f: Forest): (n: nat)
    ensures n == |Flatten(f)|
  {
    match f
    case Empty => 0
    case Leaf(_, rest) => 1 + Size(rest)
    case Group(_, body, _, rest) => Size(body) + 2 + Size(rest)
  }

  predicate Bracketed(f: Forest) {
    match f
    case Empty => true
    case Leaf(s, rest) => s.typ != N_BINCL && s.typ != N_EINCL && Bracketed(rest)
    case Group(b, body, e, rest) => b.typ == N_BINCL && e.typ == N_EINCL && Bracketed(body) && Bracketed(rest)
  }

  /** The forest stands in the table from position j on. */
  predicate At(syms: seq<Nlist>, j: nat, f: Forest)
    decreases f
  {
    match f
    case Empty => j <= |syms|
    case Leaf(s, rest) => j < |syms| && syms[j] == s && At(syms, j + 1, rest)
    case Group(b, body, e, rest) =>
      && j < |syms| && syms[j] == b && At(syms, j + 1, body)
      && j + 1 + Size(body) < |syms| && syms[j + 1 + Size(body)] == e
      && At(syms, j + 2 + Size(body), rest)
  }

  lemma {:induction false} AtFlatten(syms: seq<Nlist>, j: nat, f: Forest)
    requires j + Size(f) <= |syms| && forall i :: 0 <= i < Size(f) ==> syms[j + i] == Flatten(f)[i]
    ensures At(syms, j, f)
    decreases f
  {
    hide Bracketed;
    match f
    case Empty =>
    case Leaf(_, rest) =>
      forall i | 0 <= i < Size(rest)
        ensures syms[j + 1 + i] == Flatten(rest)[i]
      {
        assert Flatten(rest)[i] == Flatten(f)[1 + i];
      }
      assert syms[j + 0] == Flatten(f)[0];
      AtFlatten(syms, j + 1, rest);
    case Group(b, body, e, rest) =>
      var n := Size(body);
      forall i | 0 <= i < n
        ensures syms[j + 1 + i] == Flatten(body)[i]
      {
        assert Flatten(body)[i] == Flatten(f)[1 + i];
      }
      forall i | 0 <= i < Size(rest)
        ensures syms[j + 2 + n + i] == Flatten(rest)[i]
      {
        assert Flatten(rest)[i] == Flatten(f)[n + 2 + i];
      }
      assert syms[j + 0] == Flatten(f)[0] && syms[j + (n + 1)] == Flatten(f)[n + 1];
      AtFlatten(syms, j + 1, body);
      AtFlatten(syms, j + 2 + n, rest);
  }

  lemma {:induction false} AtBound(syms: seq<Nlist>, j: nat, f: Forest)
    requires At(syms, j, f)
    ensures j + Size(f) <= |syms|
    decreases f
  {
    match f
    case Empty =>
    case Leaf(_, rest) => AtBound(syms, j + 1, rest);
    case Group(_, body, _, rest) => AtBound(syms, j + 2 + Size(body), rest);
  }

  // ----- the two scans -----

  /** What the symbols directly inside a group add up to. */
  function BodySum(f: Forest, acc: nat): nat {
    match f
    case Empty => acc
    case Leaf(s, rest) => BodySum(rest, StabSum(s.name, 0, acc))
    case Group(_, _, _, rest) => BodySum(rest, acc)
  }

  function Marked(f: Forest, m: seq<int>, j: nat): (r: seq<int>)
    requires j + Size(f) <= |m|
    ensures |r| == |m|
    ensures forall k :: 0 <= k < |m| && !(j <= k < j + Size(f)) ==> r[k] == m[k]
    ensures forall k :: 0 <= k < |m| ==> r[k] == m[k] || r[k] == -1
  {
    match f
    case Empty => m
    case Leaf(_, rest) => Marked(rest, m[j := -1], j + 1)
    case Group(_, body, _, rest) => Marked(rest, m, j + 2 + Size(body))
  }

  /** Inside a nested group the first scan only counts brackets. */
  lemma {:induction false} SumNested(syms: seq<Nlist>, j: nat, f: Forest, nest: nat, acc: nat)
    requires At(syms, j, f) && Bracketed(f) && nest > 0
    ensures j + Size(f) <= |syms| && GroupSum(syms, j, nest, acc) == GroupSum(syms, j + Size(f), nest, acc)
    decreases f
  {
    match f
    case Empty =>
    case Leaf(_, rest) => SumNested(syms, j + 1, rest, nest, acc);
    case Group(_, body, _, rest) =>
      SumNested(syms, j + 1, body, nest + 1, acc);
      SumNested(syms, j + 2 + Size(body), rest, nest, acc);
  }

  lemma {:induction false} SumDirect(syms: seq<Nlist>, j: nat, f: Forest, acc: nat)
    requires At(syms, j, f) && Bracketed(f)
    ensures j + Size(f) <= |syms| && GroupSum(syms, j, 0, acc) == GroupSum(syms, j + Size(f), 0, BodySum(f, acc))
    decreases f
  {
    hide StabSum, Flatten;
    match f
    case Empty =>
    case Leaf(s, rest) => SumDirect(syms, j + 1, rest, StabSum(s.name, 0, acc));
    case Group(_, body, _, rest) =>
      SumNested(syms, j + 1, body, 1, acc);
      SumDirect(syms, j + 2 + Size(body), rest, acc);
  }

  lemma {:induction false} MarkNested(syms: seq<Nlist>, m: seq<int>, j: nat, f: Forest, nest: nat)
    requires At(syms, j, f) && Bracketed(f) && nest > 0 && |m| == |syms|
    ensures j + Size(f) <= |syms| && GroupMark(syms, m, j, nest) == GroupMark(syms, m, j + Size(f), nest)
    decreases f
  {
    hide Flatten, StabSum;
    match f
    case Empty =>
    case Leaf(_, rest) => MarkNested(syms, m, j + 1, rest, nest);
    case Group(_, body, _, rest) =>
      MarkNested(syms, m, j + 1, body, nest + 1);
      MarkNested(syms, m, j + 2 + Size(body), rest, nest);
  }

  lemma {:induction false} MarkDirect(syms: seq<Nlist>, m: seq<int>, j: nat, f: Forest)
    requires At(syms, j, f) && Bracketed(f) && |m| == |syms|
    ensures j + Size(f) <= |syms| && GroupMark(syms, m, j, 0) == GroupMark(syms, Marked(f, m, j), j + Size(f), 0)
    decreases f
  {
    AtBound(syms, j, f);
    match f
    case Empty =>
    case Leaf(_, rest) => MarkDirect(syms, m[j := -1], j + 1, rest);
    case Group(_, body, _, rest) =>
      MarkNested(syms, m, j + 1, body, 1);
      MarkDirect(syms, m, j + 2 + Size(body), rest);
  }

  // ----- the tree transformation, with the linker state threaded through it -----

  function Seen(l: Link, name: Name): seq<nat> {
    if name in l.includes then l.includes[name] else []
  }

  /** The start of a group: N_BINCL with its total the first time, N_EXCL when seen before. */
  function Head(inp: Input, st: Pass, b: Nlist, body: Forest, off: nat): (st': Pass)
    requires off + 2 + Size(body) <= |st.symbolMap|
  {
    var total := BodySum(body, 0);
    var seen := Seen(st.link, b.name);
    var st0 := st.(symbolMap := st.symbolMap[off := -1]);
    if total in seen then
      Emit(st0.(symbolMap := Marked(body, st0.symbolMap, off + 1)[off + 1 + Size(body) := -1]), off,
           Nlist(N_EXCL, b.other, b.desc, b.name, total), OfLocal(inp.id, off))
    else
      Emit(st0.(link := st0.link.(includes := st0.link.includes[b.name := [total] + seen])), off,
           Nlist(N_BINCL, b.other, b.desc, b.name, total), OfLocal(inp.id, off))
  }

  /**
    keep says whether the symbols directly in this forest are copied; a group is looked at either
    way, so what is nested in an excluded group is still treated on its own.
   */
  function Tree(o: Options, inp: Input, st: Pass, f: Forest, off: nat, keep: bool): (st': Pass)
    requires PassOk(inp, st) && At(inp.syms, off, f) && off + Size(f) <= |inp.syms|
    ensures PassOk(inp, st')
    decreases f
  {
    match f
    case Empty => st
    case Leaf(_, rest) =>
      StepOk(o, inp, st, off);
      Tree(o, inp, if keep then StepSym(o, inp, st, off) else st, rest, off + 1, keep)
    case Group(b, body, _, rest) =>
      var n := Size(body);
      var again := BodySum(body, 0) in Seen(st.link, b.name);
      var st2 := Tree(o, inp, Head(inp, st, b, body, off), body, off + 1, !again);
      StepOk(o, inp, st2, off + 1 + n);
      Tree(o, inp, if again then st2 else StepSym(o, inp, st2, off + 1 + n), rest, off + 2 + n, keep)
  }

  /** Debug symbols of headers are kept by the options, and have no hash entry. */
  predicate BracketOk(o: Options, sym: Nlist, h: Option<nat>) {
    h == None && !Stripped(o, sym.typ, sym.name) && !Discarded(o, sym.typ, sym.name)
  }

  /** No indirect and no warning symbols, and every bracket is copied. */
  predicate Plain(o: Options, symHashes: seq<Option<nat>>, f: Forest, off: nat)
    requires off + Size(f) <= |symHashes|
  {
    match f
    case Empty => true
    case Leaf(s, rest) =>
      s.typ & N_TYPE != N_INDR && s.typ != N_WARNING && Plain(o, symHashes, rest, off + 1)
    case Group(b, body, e, rest) =>
      && BracketOk(o, b, symHashes[off]) && BracketOk(o, e, symHashes[off + 1 + Size(body)])
      && Plain(o, symHashes, body, off + 1) && Plain(o, symHashes, rest, off + 2 + Size(body))
  }

  lemma {:induction false} PlainSame(o: Options, a: seq<Option<nat>>, b: seq<Option<nat>>, f: Forest, off: nat)
    requires off + Size(f) <= |a| == |b| && Plain(o, a, f, off)
    requires forall k :: off <= k < off + Size(f) ==> a[k] == b[k]
    ensures Plain(o, b, f, off)
  {
    match f
    case Empty =>
    case Leaf(s, rest) => PlainSame(o, a, b, rest, off + 1);
    case Group(_, body, _, rest) =>
      PlainSame(o, a, b, body, off + 1);
      PlainSame(o, a, b, rest, off + 2 + Size(body));
  }

  /** Which symbols are still to be looked at: all, or only those inside nested groups. */
  predicate Open(f: Forest, m: seq<int>, off: nat, keep: bool)
    requires off + Size(f) <= |m|
  {
    match f
    case Empty => true
    case Leaf(_, rest) => (m[off] == -1 <==> !keep) && Open(rest, m, off + 1, keep)
    case Group(_, body, _, rest) =>
      && (forall k :: off <= k < off + 2 + Size(body) ==> m[k] != -1)
      && Open(rest, m, off + 2 + Size(body), keep)
  }

  lemma {:induction false} OpenAll(f: Forest, m: seq<int>, off: nat)
    requires off + Size(f) <= |m| && forall k :: off <= k < off + Size(f) ==> m[k] != -1
    ensures Open(f, m, off, true)
  {
    match f
    case Empty =>
    case Leaf(_, rest) => OpenAll(rest, m, off + 1);
    case Group(_, body, _, rest) => OpenAll(rest, m, off + 2 + Size(body));
  }

  lemma {:induction false} OpenSame(f: Forest, m: seq<int>, m': seq<int>, off: nat, keep: bool)
    requires off + Size(f) <= |m| == |m'| && Open(f, m, off, keep)
    requires forall k :: off <= k < off + Size(f) ==> m[k] == m'[k]
    ensures Open(f, m', off, keep)
  {
    match f
    case Empty =>
    case Leaf(_, rest) => OpenSame(rest, m, m', off + 1, keep);
    case Group(_, body, _, rest) => OpenSame(rest, m, m', off + 2 + Size(body), keep);
  }

  lemma {:induction false} OpenMarked(f: Forest, m: seq<int>, off: nat)
    requires off + Size(f) <= |m| && forall k :: off <= k < off + Size(f) ==> m[k] != -1
    ensures Open(f, Marked(f, m, off), off, false)
  {
    match f
    case Empty =>
    case Leaf(_, rest) =>
      OpenMarked(rest, m[off := -1], off + 1);
    case Group(_, body, _, rest) => OpenMarked(rest, m, off + 2 + Size(body));
  }

  // ----- single steps -----

  lemma {:induction false} StepsSplit(o: Options, inp: Input, st: Pass, a: nat, b: nat, c: nat)
    requires a <= b <= c <= |inp.syms| && PassOk(inp, st)
    ensures Steps(o, inp, st, a, c) == Steps(o, inp, Steps(o, inp, st, a, b), b, c)
    decreases b - a
  {
    hide StepSym, WellLinked, SameKinds;
    if a < b {
      StepOk(o, inp, st, a);
      StepsSplit(o, inp, StepSym(o, inp, st, a), a + 1, b, c);
    }
  }

  lemma StepsOne(o: Options, inp: Input, st: Pass, i: nat)
    requires i < |inp.syms| && PassOk(inp, st)
    ensures Steps(o, inp, st, i, i + 1) == StepSym(o, inp, st, i)
  {
    hide StepSym, WellLinked, SameKinds;
    StepOk(o, inp, st, i);
  }

  predicate Idle(st: Pass) { !st.pass && !st.skipNext }

  lemma StabTypes()
    ensures N_BINCL & N_TYPE == N_ABS && N_EINCL & N_TYPE == N_ABS
    ensures N_BINCL & N_STAB != 0 && N_EINCL & N_STAB != 0
  {
  }

  /** A symbol that was marked is passed over. */
  lemma StepMarked(o: Options, inp: Input, st: Pass, i: nat)
    requires i < |inp.syms| && PassOk(inp, st) && st.symbolMap[i] == -1
    ensures StepSym(o, inp, st, i) == st
  {
  }

  /** A type with no stab bits that a definition gave stays below the stab range. */
  lemma DefinedTypeBits(t: bv8, d: bv8)
    requires t & N_STAB == 0 && d & N_STAB == 0
    ensures ((t & !N_TYPE) | d) & N_STAB == 0 && ((t | N_EXT) & N_STAB == 0)
  {
  }

  lemma DefinedTypeLow(k: Kind)
    requires k.Defined? || k.DefWeak?
    ensures DefinedType(k) & N_STAB == 0
  {
  }

  lemma CopyQuiet(inp: Input, sym: Nlist, r: Option<Kind>)
    requires sym.typ & N_TYPE != N_INDR && sym.typ != N_WARNING && sym.typ != N_BINCL
    ensures var c := CopyOf(inp, sym, r); !c.pass && !c.skipNext && c.typ != N_BINCL
  {
    if r.Some? && (r.value.Defined? || r.value.DefWeak?) && sym.typ & N_STAB == 0 {
      DefinedTypeLow(r.value);
      DefinedTypeBits(sym.typ, DefinedType(r.value));
      DefinedTypeBits(sym.typ | N_EXT, DefinedType(r.value));
    }
  }

  /** An ordinary symbol touches its own map entry and hash slot, and nothing that is still to come. */
  lemma StepLeaf(o: Options, inp: Input, st: Pass, i: nat)
    requires i < |inp.syms| && PassOk(inp, st) && Idle(st)
    requires inp.syms[i].typ & N_TYPE != N_INDR && inp.syms[i].typ != N_WARNING && inp.syms[i].typ != N_BINCL
    ensures var st' := StepSym(o, inp, st, i);
            && Idle(st') && st'.link.includes == st.link.includes
            && |st'.symbolMap| == |st.symbolMap| == |st'.symHashes| == |st.symHashes|
            && (forall k :: 0 <= k < |st.symbolMap| && k != i ==>
                  st'.symbolMap[k] == st.symbolMap[k] && st'.symHashes[k] == st.symHashes[k])
  {
    hide WellLinked, CopyOf, Stripped, Discarded, Resolve, IsSet, Include;
    var sym := inp.syms[i];
    CopyQuiet(inp, sym, None);
    if st.symHashes[i].Some? {
      CopyQuiet(inp, sym, Some(st.link.hashes[Resolve(st.link.hashes, st.symHashes[i].value)].kind));
    }
  }

  /** At an N_BINCL of a balanced table the flat scans compute what the tree says. */
  lemma StepHead(o: Options, inp: Input, st: Pass, f: Forest, off: nat)
    requires f.Group? && At(inp.syms, off, f) && Bracketed(f) && off + Size(f) <= |inp.syms|
    requires PassOk(inp, st) && Idle(st) && st.symbolMap[off] != -1 && BracketOk(o, f.begin, st.symHashes[off])
    ensures StepSym(o, inp, st, off) == Head(inp, st, f.begin, f.body, off)
  {
    hide WellLinked, Bracketed, At, StepSym, Head, Marked, BracketOk;
    HeadScans(inp, st.symbolMap[off := -1], f, off);
    HeadType(f, inp.syms, off);
    HeadStep(o, inp, st, f, off);
  }

  lemma HeadType(f: Forest, syms: seq<Nlist>, off: nat)
    requires f.Group? && At(syms, off, f) && Bracketed(f)
    ensures off < |syms| && syms[off] == f.begin && f.begin.typ == N_BINCL
  {
  }

  /** The two scans at the start of a group. */
  lemma HeadScans(inp: Input, m: seq<int>, f: Forest, off: nat)
    requires f.Group? && At(inp.syms, off, f) && Bracketed(f) && off + Size(f) <= |inp.syms| == |m|
    ensures GroupSum(inp.syms, off + 1, 0, 0) == BodySum(f.body, 0)
    ensures GroupMark(inp.syms, m, off + 1, 0) == Marked(f.body, m, off + 1)[off + 1 + Size(f.body) := -1]
  {
    hide GroupSum, GroupMark;
    SumDirect(inp.syms, off + 1, f.body, 0);
    GroupEnd(inp.syms, off + 1 + Size(f.body), BodySum(f.body, 0), m);
    MarkDirect(inp.syms, m, off + 1, f.body);
    GroupEnd(inp.syms, off + 1 + Size(f.body), 0, Marked(f.body, m, off + 1));
  }

  lemma HeadStep(o: Options, inp: Input, st: Pass, f: Forest, off: nat)
    requires f.Group? && off + Size(f) <= |inp.syms| && PassOk(inp, st) && Idle(st) && st.symbolMap[off] != -1
    requires inp.syms[off] == f.begin && f.begin.typ == N_BINCL && BracketOk(o, f.begin, st.symHashes[off])
    requires GroupSum(inp.syms, off + 1, 0, 0) == BodySum(f.body, 0)
    requires var m := st.symbolMap[off := -1];
             GroupMark(inp.syms, m, off + 1, 0) == Marked(f.body, m, off + 1)[off + 1 + Size(f.body) := -1]
    ensures StepSym(o, inp, st, off) == Head(inp, st, f.begin, f.body, off)
  {
    hide WellLinked, Stripped, Discarded, GroupSum, GroupMark, Marked, BodySum, Size;
    StabTypes();
  }

  lemma GroupEnd(syms: seq<Nlist>, j: nat, acc: nat, m: seq<int>)
    requires j < |syms| == |m| && syms[j].typ == N_EINCL
    ensures GroupSum(syms, j, 0, acc) == acc && GroupMark(syms, m, j, 0) == m[j := -1]
  {
  }

  // ----- the flat loop is the tree transformation -----

  /** What processing positions lo to hi leaves alone. */
  predicate Outside(st: Pass, st': Pass, lo: nat, hi: nat) {
    && |st'.symbolMap| == |st.symbolMap| == |st'.symHashes| == |st.symHashes|
    && (forall k :: 0 <= k < |st.symbolMap| && !(lo <= k < hi) ==>
          st'.symbolMap[k] == st.symbolMap[k] && st'.symHashes[k] == st.symHashes[k])
  }

  /** Where the flat loop may meet the forest: nothing pending, and the right symbols still open. */
  predicate Ready(o: Options, inp: Input, st: Pass, f: Forest, off: nat, keep: bool) {
    && PassOk(inp, st) && Idle(st) && Bracketed(f) && At(inp.syms, off, f) && off + Size(f) <= |inp.syms|
    && Plain(o, st.symHashes, f, off) && Open(f, st.symbolMap, off, keep)
  }

  lemma HeadShape(inp: Input, st: Pass, b: Nlist, body: Forest, off: nat)
    requires PassOk(inp, st) && off + 2 + Size(body) <= |st.symbolMap|
    ensures var st' := Head(inp, st, b, body, off);
            && PassOk(inp, st') && Idle(st') == Idle(st) && st'.symHashes == st.symHashes
            && Outside(st, st', off, off + 2 + Size(body))
            && (if BodySum(body, 0) in Seen(st.link, b.name) then
                  st'.symbolMap[off + 1 + Size(body)] == -1
                  && forall k :: off < k < off + 1 + Size(body) ==>
                       st'.symbolMap[k] == Marked(body, st.symbolMap[off := -1], off + 1)[k]
                else
                  forall k :: 0 <= k < |st.symbolMap| && k != off ==> st'.symbolMap[k] == st.symbolMap[k])
  {
    hide WellLinked;
  }

  /** After the head of a group its body is ready, to be kept or to be dropped. */
  lemma HeadReady(o: Options, inp: Input, st: Pass, f: Forest, off: nat, keep: bool)
    requires f.Group? && Ready(o, inp, st, f, off, keep)
    ensures Ready(o, inp, Head(inp, st, f.begin, f.body, off), f.body, off + 1,
                  BodySum(f.body, 0) !in Seen(st.link, f.begin.name))
  {
    hide PassOk;
    ReadyOk(o, inp, st, f, off, keep);
    var st1 := Head(inp, st, f.begin, f.body, off);
    HeadShape(inp, st, f.begin, f.body, off);
    PlainSame(o, st.symHashes, st1.symHashes, f.body, off + 1);
    var m := st.symbolMap[off := -1];
    if BodySum(f.body, 0) in Seen(st.link, f.begin.name) {
      OpenMarked(f.body, m, off + 1);
      OpenSame(f.body, Marked(f.body, m, off + 1), st1.symbolMap, off + 1, false);
    } else {
      OpenAll(f.body, st1.symbolMap, off + 1);
    }
  }

  lemma ReadyOk(o: Options, inp: Input, st: Pass, f: Forest, off: nat, keep: bool)
    requires Ready(o, inp, st, f, off, keep)
    ensures PassOk(inp, st) && |st.symbolMap| == |st.symHashes| == |inp.syms|
  {
  }

  lemma ReadyAt(o: Options, inp: Input, st: Pass, f: Forest, off: nat, keep: bool)
    requires Ready(o, inp, st, f, off, keep)
    ensures At(inp.syms, off, f) && off + Size(f) <= |inp.syms|
  {
    hide PassOk, Plain, Open;
  }

  /** What is ready stays ready while positions before it are worked on. */
  lemma StillReady(o: Options, inp: Input, st: Pass, st': Pass, f: Forest, off: nat, keep: bool, lo: nat)
    requires Ready(o, inp, st, f, off, keep) && PassOk(inp, st') && Idle(st') && Outside(st, st', lo, off)
    ensures Ready(o, inp, st', f, off, keep)
  {
    hide PassOk;
    ReadyOk(o, inp, st, f, off, keep);
    PlainSame(o, st.symHashes, st'.symHashes, f, off);
    OpenSame(f, st.symbolMap, st'.symbolMap, off, keep);
  }

  lemma RestReady(o: Options, inp: Input, st: Pass, f: Forest, off: nat, keep: bool)
    requires !f.Empty? && Ready(o, inp, st, f, off, keep)
    ensures Ready(o, inp, st, f.rest, off + (if f.Leaf? then 1 else Size(f.body) + 2), keep)
  {
  }

  lemma OutsideTrans(a: Pass, b: Pass, c: Pass, lo: nat, hi1: nat, lo2: nat, hi2: nat)
    requires Outside(a, b, lo, hi1) && Outside(b, c, lo2, hi2) && lo <= lo2
    ensures forall hi :: hi1 <= hi && hi2 <= hi ==> Outside(a, c, lo, hi)
  {
  }

  lemma {:induction false} FlatIsTree(o: Options, inp: Input, st: Pass, f: Forest, off: nat, keep: bool)
    requires Ready(o, inp, st, f, off, keep)
    ensures PassOk(inp, st) && off + Size(f) <= |inp.syms|
    ensures var st' := Steps(o, inp, st, off, off + Size(f));
            st' == Tree(o, inp, st, f, off, keep) && Idle(st') && Outside(st, st', off, off + Size(f))
    decreases f
  {
    hide StepSym, WellLinked, SameKinds, PassOk, Plain, Open, Bracketed, Steps, Head;
    ReadyOk(o, inp, st, f, off, keep);
    match f
    case Empty => StepsNone(o, inp, st, off);
    case Leaf(s, rest) => LeafIsTree(o, inp, st, f, off, keep);
    case Group(b, body, e, rest) => GroupIsTree(o, inp, st, f, off, keep);
  }

  lemma StepsNone(o: Options, inp: Input, st: Pass, i: nat)
    requires i <= |inp.syms| && PassOk(inp, st)
    ensures Steps(o, inp, st, i, i) == st
  {
  }

  lemma {:induction false} LeafIsTree(o: Options, inp: Input, st: Pass, f: Forest, off: nat, keep: bool)
    requires f.Leaf? && Ready(o, inp, st, f, off, keep)
    ensures PassOk(inp, st) && off + Size(f) <= |inp.syms|
    ensures var st' := Steps(o, inp, st, off, off + Size(f));
            st' == Tree(o, inp, st, f, off, keep) && Idle(st') && Outside(st, st', off, off + Size(f))
    decreases f, 0
  {
    hide StepSym, WellLinked, SameKinds, PassOk, Head, Steps;
    ReadyOk(o, inp, st, f, off, keep);
    StepsSplit(o, inp, st, off, off + 1, off + Size(f));
    StepsOne(o, inp, st, off);
    StepOk(o, inp, st, off);
    var st1 := StepSym(o, inp, st, off);
    if keep {
      StepLeaf(o, inp, st, off);
    } else {
      StepMarked(o, inp, st, off);
    }
    RestReady(o, inp, st, f, off, keep);
    StillReady(o, inp, st, st1, f.rest, off + 1, keep, off);
    FlatIsTree(o, inp, st1, f.rest, off + 1, keep);
    OutsideTrans(st, st1, Steps(o, inp, st1, off + 1, off + Size(f)), off, off + 1, off + 1, off + Size(f));
  }

  /** The loop over a group, cut at the end of its body. */
  lemma GroupSteps(o: Options, inp: Input, st: Pass, st1: Pass, off: nat, end: nat, k: nat)
    requires PassOk(inp, st) && off < end < k <= |inp.syms| && StepSym(o, inp, st, off) == st1 && PassOk(inp, st1)
    ensures PassOk(inp, Steps(o, inp, st1, off + 1, end))
    ensures var st2 := Steps(o, inp, st1, off + 1, end);
            var st3 := StepSym(o, inp, st2, end);
            PassOk(inp, st3) && Steps(o, inp, st, off, k) == Steps(o, inp, st3, end + 1, k)
  {
    hide StepSym, WellLinked, SameKinds, PassOk, Steps;
    StepsSplit(o, inp, st, off, off + 1, k);
    StepsOne(o, inp, st, off);
    StepsSplit(o, inp, st1, off + 1, end, k);
    var st2 := Steps(o, inp, st1, off + 1, end);
    StepsSplit(o, inp, st2, end, end + 1, k);
    StepsOne(o, inp, st2, end);
    StepOk(o, inp, st2, end);
  }

  lemma TreeGroup(o: Options, inp: Input, st: Pass, st1: Pass, st2: Pass, st3: Pass, f: Forest, off: nat, keep: bool)
    requires f.Group? && PassOk(inp, st) && At(inp.syms, off, f) && off + Size(f) <= |inp.syms|
    requires st1 == Head(inp, st, f.begin, f.body, off) && PassOk(inp, st1) && At(inp.syms, off + 1, f.body)
    requires st2 == Tree(o, inp, st1, f.body, off + 1, BodySum(f.body, 0) !in Seen(st.link, f.begin.name)) && PassOk(inp, st2)
    requires st3 == if BodySum(f.body, 0) in Seen(st.link, f.begin.name) then st2 else StepSym(o, inp, st2, off + 1 + Size(f.body))
    requires PassOk(inp, st3) && At(inp.syms, off + 2 + Size(f.body), f.rest)
    ensures Tree(o, inp, st, f, off, keep) == Tree(o, inp, st3, f.rest, off + 2 + Size(f.body), keep)
  {
    hide StepSym, WellLinked, SameKinds, PassOk, At, Head;
  }

  /** After the body, the end of a group is passed and the rest is ready. */
  lemma GroupTail(o: Options, inp: Input, st: Pass, st1: Pass, st2: Pass, f: Forest, off: nat, keep: bool)
    requires f.Group? && Ready(o, inp, st, f, off, keep) && st1 == Head(inp, st, f.begin, f.body, off)
    requires PassOk(inp, st2) && Idle(st2) && Outside(st1, st2, off + 1, off + 1 + Size(f.body))
    ensures var end := off + 1 + Size(f.body);
            && end < |inp.syms|
            && var st3 := StepSym(o, inp, st2, end);
            && PassOk(inp, st3) && Outside(st, st3, off, end + 1) && Ready(o, inp, st3, f.rest, end + 1, keep)
            && (BodySum(f.body, 0) in Seen(st.link, f.begin.name) ==> st3 == st2)
  {
    hide StepSym, WellLinked, SameKinds, PassOk, Head, Plain, Open, Bracketed, At, Outside, Ready, Idle;
    ReadyOk(o, inp, st, f, off, keep);
    ReadyAt(o, inp, st, f, off, keep);
    GroupFacts(o, inp, st, f, off, keep);
    HeadShape(inp, st, f.begin, f.body, off);
    var end := off + 1 + Size(f.body);
    OutsideTrans(st, st1, st2, off, end + 1, off + 1, end);
    StepOk(o, inp, st2, end);
    EndStep(o, inp, st1, st2, f, off, BodySum(f.body, 0) in Seen(st.link, f.begin.name));
    var st3 := StepSym(o, inp, st2, end);
    OutsideTrans(st, st2, st3, off, end + 1, end, end + 1);
    RestReady(o, inp, st, f, off, keep);
    StillReady(o, inp, st, st3, f.rest, end + 1, keep, off);
  }

  lemma {:induction false} GroupIsTree(o: Options, inp: Input, st: Pass, f: Forest, off: nat, keep: bool)
    requires f.Group? && Ready(o, inp, st, f, off, keep)
    ensures PassOk(inp, st) && off + Size(f) <= |inp.syms|
    ensures var st' := Steps(o, inp, st, off, off + Size(f));
            st' == Tree(o, inp, st, f, off, keep) && Idle(st') && Outside(st, st', off, off + Size(f))
    decreases f, 0
  {
    hide StepSym, WellLinked, SameKinds, PassOk, Head, Steps, Plain, Open, Bracketed, At, Outside, Tree, Ready, Idle;
    ReadyOk(o, inp, st, f, off, keep);
    ReadyAt(o, inp, st, f, off, keep);
    var again := BodySum(f.body, 0) in Seen(st.link, f.begin.name);
    var end := off + 1 + Size(f.body);
    GroupFacts(o, inp, st, f, off, keep);
    StepHead(o, inp, st, f, off);
    HeadReady(o, inp, st, f, off, keep);
    var st1 := Head(inp, st, f.begin, f.body, off);
    ReadyOk(o, inp, st1, f.body, off + 1, !again);
    ReadyAt(o, inp, st1, f.body, off + 1, !again);
    FlatIsTree(o, inp, st1, f.body, off + 1, !again);
    GroupSteps(o, inp, st, st1, off, end, off + Size(f));
    var st2 := Steps(o, inp, st1, off + 1, end);
    GroupTail(o, inp, st, st1, st2, f, off, keep);
    var st3 := StepSym(o, inp, st2, end);
    ReadyAt(o, inp, st3, f.rest, end + 1, keep);
    FlatIsTree(o, inp, st3, f.rest, end + 1, keep);
    TreeGroup(o, inp, st, st1, st2, st3, f, off, keep);
    OutsideTrans(st, st3, Steps(o, inp, st3, end + 1, off + Size(f)), off, end + 1, end + 1, off + Size(f));
  }

  lemma GroupFacts(o: Options, inp: Input, st: Pass, f: Forest, off: nat, keep: bool)
    requires f.Group? && Ready(o, inp, st, f, off, keep)
    ensures Idle(st) && Bracketed(f) && At(inp.syms, off, f) && st.symbolMap[off] != -1
    ensures BracketOk(o, f.begin, st.symHashes[off])
  {
  }

  /** The N_EINCL of a kept group is copied like any symbol; that of an excluded one was marked. */
  lemma EndStep(o: Options, inp: Input, st1: Pass, st2: Pass, f: Forest, off: nat, again: bool)
    requires f.Group? && At(inp.syms, off, f) && Bracketed(f) && off + Size(f) <= |inp.syms|
    requires PassOk(inp, st1) && PassOk(inp, st2) && Idle(st2)
    requires Outside(st1, st2, off + 1, off + 1 + Size(f.body))
    requires again ==> st1.symbolMap[off + 1 + Size(f.body)] == -1
    ensures var end := off + 1 + Size(f.body);
            var st3 := StepSym(o, inp, st2, end);
            Idle(st3) && Outside(st2, st3, end, end + 1) && (again ==> st3 == st2)
  {
    hide StepSym, WellLinked;
    var end := off + 1 + Size(f.body);
    EndType();
    StepLeaf(o, inp, st2, end);
    if again {
      StepMarked(o, inp, st2, end);
    }
  }

  lemma EndType()
    ensures N_EINCL & N_TYPE != N_INDR && N_EINCL != N_WARNING && N_EINCL != N_BINCL
  {
  }
}
