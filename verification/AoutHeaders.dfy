/**
  What removing duplicate header groups amounts to: a transformation of the table read as a tree,
  independent of slots, maps and counters, and the properties that make its result a proper table.
 */
module AoutHeaders {
  import opened Bytes
  import opened AoutModel
  import opened AoutGroups

  type Includes = map<Name, seq<nat>>

  function Known(inc: Includes, name: Name): seq<nat> {
    if name in inc then inc[name] else []
  }

  function Join(f: Forest, g: Forest): (r: Forest)
    ensures Flatten(r) == Flatten(f) + Flatten(g)
  {
    match f
    case Empty => g
    case Leaf(s, rest) => Leaf(s, Join(rest, g))
    case Group(b, body, e, rest) => Group(b, body, e, Join(rest, g))
  }

  /** A local symbol as it is copied, or nothing when the discard option drops it. */
  function Copied(o: Options, inp: Input, sym: Nlist): (r: seq<Nlist>) {
    var c := CopyOf(inp, sym, None);
    if Stripped(o, sym.typ, sym.name) || (!IsSet(c.typ) && Discarded(o, c.typ, sym.name)) then []
    else [Nlist(c.typ, sym.other, sym.desc, sym.name, c.value)]
  }

  predicate Bracket(typ: bv8) { typ == N_BINCL || typ == N_EINCL }

  /**
    What an ordinary symbol with hash entry h may be copied as. A local one is copied as Copied says;
    whether a global one is written here depends on what was linked before.
   */
  predicate LeafOk(o: Options, inp: Input, h: Option<nat>, sym: Nlist, leaf: seq<Nlist>) {
    && |leaf| <= 1
    && (h == None ==> leaf == Copied(o, inp, sym))
    && (leaf != [] ==>
          && leaf[0].other == sym.other && leaf[0].desc == sym.desc
          && !Bracket(leaf[0].typ) && (leaf[0].typ == N_EXCL ==> sym.typ == N_EXCL))
  }

  /** leaves says of every position in the table what the symbol there is copied as. */
  predicate LeavesOk(o: Options, inp: Input, hs: seq<Option<nat>>, leaves: seq<seq<Nlist>>, f: Forest, off: nat)
    requires off + Size(f) <= |hs| && off + Size(f) <= |leaves|
  {
    match f
    case Empty => true
    case Leaf(s, rest) => LeafOk(o, inp, hs[off], s, leaves[off]) && LeavesOk(o, inp, hs, leaves, rest, off + 1)
    case Group(_, body, _, rest) =>
      LeavesOk(o, inp, hs, leaves, body, off + 1) && LeavesOk(o, inp, hs, leaves, rest, off + 2 + Size(body))
  }

  function LeafOf(syms: seq<Nlist>, rest: Forest): Forest {
    if syms == [] then rest else Leaf(syms[0], rest)
  }

  /**
    The first group with a given name and total is kept and its content treated in turn. A later one
    becomes a single N_EXCL followed by what is left of the groups nested in it.
   */
  function Transform(inp: Input, leaves: seq<seq<Nlist>>, inc: Includes, f: Forest, off: nat, keep: bool): (r: (Forest, Includes))
    requires off + Size(f) <= |leaves|
    decreases f
  {
    match f
    case Empty => (Empty, inc)
    case Leaf(s, rest) =>
      var (rest', inc') := Transform(inp, leaves, inc, rest, off + 1, keep);
      (if keep then LeafOf(leaves[off], rest') else rest', inc')
    case Group(b, body, e, rest) =>
      var total := BodySum(body, 0);
      var next := off + 2 + Size(body);
      if total in Known(inc, b.name) then
        var (body', inc1) := Transform(inp, leaves, inc, body, off + 1, false);
        var (rest', inc2) := Transform(inp, leaves, inc1, rest, next, keep);
        (Leaf(Nlist(N_EXCL, b.other, b.desc, b.name, total), Join(body', rest')), inc2)
      else
        var (body', inc1) := Transform(inp, leaves, inc[b.name := [total] + Known(inc, b.name)], body, off + 1, true);
        var (rest', inc2) := Transform(inp, leaves, inc1, rest, next, keep);
        (Group(Nlist(N_BINCL, b.other, b.desc, b.name, total), body', EndOf(inp, e), rest'), inc2)
  }

  /** An N_EINCL is copied with its value as an absolute one. */
  function EndOf(inp: Input, e: Nlist): Nlist {
    e.(value := Relocated(ABS_SECTION, e.value))
  }

  // ----- the linker does just that -----

  /** The symbols and includes that a step added. */
  predicate Adds(st: Pass, st': Pass, syms: seq<Nlist>, inc: Includes) {
    st'.out == st.out + syms && st'.link.includes == inc
  }

  lemma AddsTrans(a: Pass, b: Pass, c: Pass, x: seq<Nlist>, y: seq<Nlist>, inc1: Includes, inc2: Includes)
    requires Adds(a, b, x, inc1) && Adds(b, c, y, inc2)
    ensures Adds(a, c, x + y, inc2)
  {
  }

  lemma AddsFacts(st: Pass, st': Pass, syms: seq<Nlist>, inc: Includes)
    requires Adds(st, st', syms, inc)
    ensures st'.link.includes == inc
  {
  }

  /** A symbol that is not a bracket is not copied as one, nor as an exclusion. */
  lemma CopyNoBracket(inp: Input, sym: Nlist, r: Option<Kind>)
    requires !Bracket(sym.typ)
    ensures var c := CopyOf(inp, sym, r); !Bracket(c.typ) && (c.typ == N_EXCL ==> sym.typ == N_EXCL)
  {
    BracketBits();
    if r.Some? && (r.value.Defined? || r.value.DefWeak?) && sym.typ & N_STAB == 0 {
      DefinedTypeLow(r.value);
      DefinedTypeBits(sym.typ, DefinedType(r.value));
      DefinedTypeBits(sym.typ | N_EXT, DefinedType(r.value));
    }
  }

  lemma BracketBits()
    ensures N_BINCL & N_STAB != 0 && N_EINCL & N_STAB != 0 && N_EXCL & N_STAB != 0
    ensures N_WEAKU != N_BINCL && N_WEAKU != N_EINCL && N_WEAKU != N_EXCL
  {
  }

  lemma LocalLeafAdds(o: Options, inp: Input, st: Pass, i: nat)
    requires i < |inp.syms| && PassOk(inp, st) && Idle(st) && st.symHashes[i] == None && st.symbolMap[i] != -1
    requires inp.syms[i].typ & N_TYPE != N_INDR && inp.syms[i].typ != N_WARNING && inp.syms[i].typ != N_BINCL
    ensures Adds(st, StepSym(o, inp, st, i), Copied(o, inp, inp.syms[i]), st.link.includes)
  {
    hide WellLinked, CopyOf, Stripped, Discarded, Resolve, IsSet, Include;
    CopyQuiet(inp, inp.syms[i], None);
  }

  lemma GlobalLeafAdds(o: Options, inp: Input, st: Pass, i: nat) returns (leaf: seq<Nlist>)
    requires i < |inp.syms| && PassOk(inp, st) && Idle(st) && st.symHashes[i].Some? && st.symbolMap[i] != -1
    requires inp.syms[i].typ & N_TYPE != N_INDR && inp.syms[i].typ != N_WARNING && !Bracket(inp.syms[i].typ)
    ensures Adds(st, StepSym(o, inp, st, i), leaf, st.link.includes) && LeafOk(o, inp, st.symHashes[i], inp.syms[i], leaf)
  {
    hide WellLinked, CopyOf, Stripped, Discarded, Resolve, IsSet, Include, Copied;
    var sym := inp.syms[i];
    var k := Some(st.link.hashes[Resolve(st.link.hashes, st.symHashes[i].value)].kind);
    CopyQuiet(inp, sym, k);
    CopyNoBracket(inp, sym, k);
    leaf := StepSym(o, inp, st, i).out[|st.out|..];
  }

  /** An ordinary symbol that is looked at. */
  lemma LeafAdds(o: Options, inp: Input, st: Pass, i: nat) returns (leaf: seq<Nlist>)
    requires i < |inp.syms| && PassOk(inp, st) && Idle(st) && st.symbolMap[i] != -1
    requires inp.syms[i].typ & N_TYPE != N_INDR && inp.syms[i].typ != N_WARNING && !Bracket(inp.syms[i].typ)
    ensures Adds(st, StepSym(o, inp, st, i), leaf, st.link.includes) && LeafOk(o, inp, st.symHashes[i], inp.syms[i], leaf)
  {
    hide StepSym, CopyOf, Adds;
    if st.symHashes[i] == None {
      LocalLeafAdds(o, inp, st, i);
      CopyNoBracket(inp, inp.syms[i], None);
      leaf := Copied(o, inp, inp.syms[i]);
    } else {
      leaf := GlobalLeafAdds(o, inp, st, i);
    }
  }

  lemma HeadAdds(inp: Input, st: Pass, b: Nlist, body: Forest, off: nat)
    requires off + 2 + Size(body) <= |st.symbolMap|
    ensures var total := BodySum(body, 0);
            var st' := Head(inp, st, b, body, off);
            if total in Known(st.link.includes, b.name) then
              Adds(st, st', [Nlist(N_EXCL, b.other, b.desc, b.name, total)], st.link.includes)
            else
              Adds(st, st', [Nlist(N_BINCL, b.other, b.desc, b.name, total)],
                   st.link.includes[b.name := [total] + Known(st.link.includes, b.name)])
  {
  }

  lemma EndCopied(o: Options, inp: Input, e: Nlist)
    requires e.typ == N_EINCL && BracketOk(o, e, None)
    ensures Copied(o, inp, e) == [EndOf(inp, e)]
  {
    StabTypes();
    EndPlain();
  }

  lemma EndPlain()
    ensures N_EINCL & N_TYPE == N_ABS && N_EINCL & N_TYPE != N_TEXT && N_EINCL & N_TYPE != N_DATA && N_EINCL & N_TYPE != N_BSS
  {
  }

  lemma TreeOutside(o: Options, inp: Input, st: Pass, f: Forest, off: nat, keep: bool)
    requires Ready(o, inp, st, f, off, keep)
    ensures PassOk(inp, st) && off + Size(f) <= |inp.syms| && At(inp.syms, off, f)
    ensures var st' := Tree(o, inp, st, f, off, keep);
            Idle(st') && Outside(st, st', off, off + Size(f)) && PassOk(inp, st')
  {
    hide PassOk, Plain, Open, Bracketed, Steps, At, Tree, Ready;
    ReadyAt(o, inp, st, f, off, keep);
    FlatIsTree(o, inp, st, f, off, keep);
  }

  // ----- positions outside a forest do not matter to it -----

  lemma {:induction false} LeavesSame(o: Options, inp: Input, hs: seq<Option<nat>>, hs': seq<Option<nat>>,
                                      ls: seq<seq<Nlist>>, ls': seq<seq<Nlist>>, f: Forest, off: nat)
    requires off + Size(f) <= |hs| == |hs'| && off + Size(f) <= |ls| == |ls'|
    requires forall k :: off <= k < off + Size(f) ==> hs[k] == hs'[k] && ls[k] == ls'[k]
    requires LeavesOk(o, inp, hs, ls, f, off)
    ensures LeavesOk(o, inp, hs', ls', f, off)
  {
    hide LeafOk;
    match f
    case Empty =>
    case Leaf(_, rest) => LeavesSame(o, inp, hs, hs', ls, ls', rest, off + 1);
    case Group(_, body, _, rest) =>
      LeavesSame(o, inp, hs, hs', ls, ls', body, off + 1);
      LeavesSame(o, inp, hs, hs', ls, ls', rest, off + 2 + Size(body));
  }

  lemma {:induction false} TransformSame(inp: Input, ls: seq<seq<Nlist>>, ls': seq<seq<Nlist>>, inc: Includes, f: Forest,
                                         off: nat, keep: bool)
    requires off + Size(f) <= |ls| == |ls'| && forall k :: off <= k < off + Size(f) ==> ls[k] == ls'[k]
    ensures Transform(inp, ls, inc, f, off, keep) == Transform(inp, ls', inc, f, off, keep)
    decreases f
  {
    hide BodySum, EndOf, Join, Known;
    match f
    case Empty =>
    case Leaf(_, rest) => TransformSame(inp, ls, ls', inc, rest, off + 1, keep);
    case Group(b, body, _, rest) =>
      var total := BodySum(body, 0);
      var again := total in Known(inc, b.name);
      var inc0 := if again then inc else inc[b.name := [total] + Known(inc, b.name)];
      TransformSame(inp, ls, ls', inc0, body, off + 1, !again);
      TransformSame(inp, ls, ls', Transform(inp, ls, inc0, body, off + 1, !again).1, rest, off + 2 + Size(body), keep);
  }

  /** Leaves taken from one list before position at and from another from there on. */
  function Spliced(a: seq<seq<Nlist>>, b: seq<seq<Nlist>>, at: nat): (ls: seq<seq<Nlist>>)
    requires at <= |a| == |b|
    ensures |ls| == |a| && forall k :: 0 <= k < |ls| ==> ls[k] == if k < at then a[k] else b[k]
  {
    a[..at] + b[at..]
  }

  /** What a symbol that is not looked at could have been copied as. */
  function AnyLeaf(o: Options, inp: Input, h: Option<nat>, sym: Nlist): seq<Nlist> {
    if h == None then Copied(o, inp, sym) else []
  }

  lemma AnyLeafOk(o: Options, inp: Input, h: Option<nat>, sym: Nlist)
    requires !Bracket(sym.typ)
    ensures LeafOk(o, inp, h, sym, AnyLeaf(o, inp, h, sym))
  {
    hide CopyOf;
    CopyNoBracket(inp, sym, None);
  }

  /** The linker's pass over a table copies out the transformed tree. */
  lemma {:induction false} TreeTransforms(o: Options, inp: Input, st: Pass, f: Forest, off: nat, keep: bool)
    returns (ls: seq<seq<Nlist>>)
    requires Ready(o, inp, st, f, off, keep)
    ensures PassOk(inp, st) && off + Size(f) <= |inp.syms| == |ls| == |st.symHashes| && At(inp.syms, off, f)
    ensures LeavesOk(o, inp, st.symHashes, ls, f, off)
    ensures var (f', inc') := Transform(inp, ls, st.link.includes, f, off, keep);
            Adds(st, Tree(o, inp, st, f, off, keep), Flatten(f'), inc')
    decreases f, 1
  {
    hide PassOk, Plain, Open, Bracketed, StepSym, Head, WellLinked, LeafOk, Ready;
    ReadyOk(o, inp, st, f, off, keep);
    ReadyAt(o, inp, st, f, off, keep);
    match f
    case Empty => ls := seq(|inp.syms|, _ => []);
    case Leaf(s, rest) => ls := LeafTransforms(o, inp, st, f, off, keep);
    case Group(b, body, e, rest) => ls := GroupTransforms(o, inp, st, f, off, keep);
  }

  /** What Ready says of an ordinary symbol. */
  lemma LeafFacts(o: Options, inp: Input, st: Pass, f: Forest, off: nat, keep: bool)
    requires f.Leaf? && Ready(o, inp, st, f, off, keep)
    ensures off < |inp.syms| == |st.symbolMap| == |st.symHashes| && inp.syms[off] == f.sym && Idle(st)
    ensures f.sym.typ & N_TYPE != N_INDR && f.sym.typ != N_WARNING && !Bracket(f.sym.typ)
    ensures keep ==> st.symbolMap[off] != -1
  {
  }

  lemma TreeLeaf(o: Options, inp: Input, st: Pass, f: Forest, off: nat, keep: bool)
    requires f.Leaf? && PassOk(inp, st) && At(inp.syms, off, f) && off + Size(f) <= |inp.syms|
    ensures var st1 := if keep then StepSym(o, inp, st, off) else st;
            PassOk(inp, st1) && At(inp.syms, off + 1, f.rest)
            && Tree(o, inp, st, f, off, keep) == Tree(o, inp, st1, f.rest, off + 1, keep)
  {
    hide PassOk, StepSym, WellLinked, SameKinds;
    StepOk(o, inp, st, off);
  }

  lemma {:induction false} LeafTransforms(o: Options, inp: Input, st: Pass, f: Forest, off: nat, keep: bool)
    returns (ls: seq<seq<Nlist>>)
    requires f.Leaf? && Ready(o, inp, st, f, off, keep)
    ensures PassOk(inp, st) && off + Size(f) <= |inp.syms| == |ls| == |st.symHashes| && At(inp.syms, off, f)
    ensures LeavesOk(o, inp, st.symHashes, ls, f, off)
    ensures var (f', inc') := Transform(inp, ls, st.link.includes, f, off, keep);
            Adds(st, Tree(o, inp, st, f, off, keep), Flatten(f'), inc')
    decreases f, 0
  {
    hide PassOk, StepSym, WellLinked, Copied, Tree, Ready, At, LeafOk, Idle, Adds;
    ReadyOk(o, inp, st, f, off, keep);
    ReadyAt(o, inp, st, f, off, keep);
    LeafFacts(o, inp, st, f, off, keep);
    RestReady(o, inp, st, f, off, keep);
    TreeLeaf(o, inp, st, f, off, keep);
    var st1 := if keep then StepSym(o, inp, st, off) else st;
    var leaf;
    if keep {
      StepLeaf(o, inp, st, off);
      leaf := LeafAdds(o, inp, st, off);
      AddsFacts(st, st1, leaf, st.link.includes);
      StillReady(o, inp, st, st1, f.rest, off + 1, keep, off);
    } else {
      leaf := AnyLeaf(o, inp, st.symHashes[off], f.sym);
      AnyLeafOk(o, inp, st.symHashes[off], f.sym);
    }
    var ls1 := TreeTransforms(o, inp, st1, f.rest, off + 1, keep);
    ls := ls1[off := leaf];
    LeavesSame(o, inp, st1.symHashes, st.symHashes, ls1, ls, f.rest, off + 1);
    TransformSame(inp, ls1, ls, st.link.includes, f.rest, off + 1, keep);
    var (rest', inc') := Transform(inp, ls, st.link.includes, f.rest, off + 1, keep);
    if keep {
      AddsTrans(st, st1, Tree(o, inp, st, f, off, keep), leaf, Flatten(rest'), st.link.includes, inc');
      LeafOne(o, inp, st.symHashes[off], f.sym, leaf);
    }
  }

  lemma LeafOne(o: Options, inp: Input, h: Option<nat>, sym: Nlist, leaf: seq<Nlist>)
    requires LeafOk(o, inp, h, sym, leaf)
    ensures forall rest :: Flatten(LeafOf(leaf, rest)) == leaf + Flatten(rest)
  {
    assert leaf == [] || leaf == [leaf[0]];
  }

  lemma {:induction false} GroupTransforms(o: Options, inp: Input, st: Pass, f: Forest, off: nat, keep: bool)
    returns (ls: seq<seq<Nlist>>)
    requires f.Group? && Ready(o, inp, st, f, off, keep)
    ensures PassOk(inp, st) && off + Size(f) <= |inp.syms| == |ls| == |st.symHashes| && At(inp.syms, off, f)
    ensures LeavesOk(o, inp, st.symHashes, ls, f, off)
    ensures var (f', inc') := Transform(inp, ls, st.link.includes, f, off, keep);
            Adds(st, Tree(o, inp, st, f, off, keep), Flatten(f'), inc')
    decreases f, 0
  {
    hide PassOk, StepSym, Head, WellLinked, Copied, Plain, Open, Bracketed, Adds, At, Tree, Ready, Idle, Outside, LeavesOk,
         Transform, BodySum, EndOf, Known, Seen, Spliced, Flatten;
    ReadyOk(o, inp, st, f, off, keep);
    ReadyAt(o, inp, st, f, off, keep);
    var end := off + 1 + Size(f.body);
    var total := BodySum(f.body, 0);
    var again := total in Known(st.link.includes, f.begin.name);
    var inc0 := if again then st.link.includes
                else st.link.includes[f.begin.name := [total] + Known(st.link.includes, f.begin.name)];
    var st1 := Head(inp, st, f.begin, f.body, off);
    HeadStart(o, inp, st, f, off, keep);
    var ls1 := TreeTransforms(o, inp, st1, f.body, off + 1, !again);
    TreeOutside(o, inp, st1, f.body, off + 1, !again);
    var st2 := Tree(o, inp, st1, f.body, off + 1, !again);
    AddsFacts(st1, st2, Flatten(Transform(inp, ls1, inc0, f.body, off + 1, !again).0),
              Transform(inp, ls1, inc0, f.body, off + 1, !again).1);
    GroupTail(o, inp, st, st1, st2, f, off, keep);
    var st3 := StepSym(o, inp, st2, end);
    if !again {
      EndAdds(o, inp, st, st1, st2, f, off, keep);
      AddsFacts(st2, st3, [EndOf(inp, f.end)], st2.link.includes);
    }
    ReadyOk(o, inp, st3, f.rest, end + 1, keep);
    ReadyAt(o, inp, st3, f.rest, end + 1, keep);
    var ls3 := TreeTransforms(o, inp, st3, f.rest, end + 1, keep);
    ls := Spliced(ls1, ls3, end + 1);
    SplicedOk(o, inp, st, st3, ls1, ls3, inc0, again, f, off, keep);
    TreeGroup(o, inp, st, st1, st2, st3, f, off, keep);
    GroupAdds(o, inp, ls, st, st1, st2, st3, Tree(o, inp, st, f, off, keep), f, off, keep);
  }

  /** The head of a group: what it adds, and that the body may follow. */
  lemma HeadStart(o: Options, inp: Input, st: Pass, f: Forest, off: nat, keep: bool)
    requires f.Group? && Ready(o, inp, st, f, off, keep)
    ensures off + Size(f) <= |inp.syms| == |st.symbolMap|
    ensures var total := BodySum(f.body, 0);
            var b := f.begin;
            var again := total in Known(st.link.includes, b.name);
            var inc0 := if again then st.link.includes else st.link.includes[b.name := [total] + Known(st.link.includes, b.name)];
            var st1 := Head(inp, st, b, f.body, off);
            && Adds(st, st1, [Nlist(if again then N_EXCL else N_BINCL, b.other, b.desc, b.name, total)], inc0)
            && st1.link.includes == inc0 && st1.symHashes == st.symHashes && PassOk(inp, st1)
            && Ready(o, inp, st1, f.body, off + 1, !again) && At(inp.syms, off + 1, f.body)
            && again == (total in Seen(st.link, b.name))
  {
    hide PassOk, Head, Plain, Open, Bracketed, At, Ready, Outside, Adds;
    ReadyOk(o, inp, st, f, off, keep);
    ReadyAt(o, inp, st, f, off, keep);
    HeadShape(inp, st, f.begin, f.body, off);
    HeadReady(o, inp, st, f, off, keep);
    HeadAdds(inp, st, f.begin, f.body, off);
    var st1 := Head(inp, st, f.begin, f.body, off);
    var again := BodySum(f.body, 0) in Known(st.link.includes, f.begin.name);
    ReadyAt(o, inp, st1, f.body, off + 1, !again);
    AddsFacts(st, st1, [Nlist(if again then N_EXCL else N_BINCL, f.begin.other, f.begin.desc, f.begin.name, BodySum(f.body, 0))],
              if again then st.link.includes
              else st.link.includes[f.begin.name := [BodySum(f.body, 0)] + Known(st.link.includes, f.begin.name)]);
  }

  /** The leaves of body and rest put together. */
  lemma SplicedOk(o: Options, inp: Input, st: Pass, st3: Pass, ls1: seq<seq<Nlist>>, ls3: seq<seq<Nlist>>,
                  inc0: Includes, again: bool, f: Forest, off: nat, keep: bool)
    requires f.Group? && |ls1| == |ls3| == |st.symHashes| && off + Size(f) <= |ls1|
    requires Outside(st, st3, off, off + 2 + Size(f.body))
    requires LeavesOk(o, inp, st.symHashes, ls1, f.body, off + 1)
    requires |st3.symHashes| == |ls3| && LeavesOk(o, inp, st3.symHashes, ls3, f.rest, off + 2 + Size(f.body))
    ensures var next := off + 2 + Size(f.body);
            var ls := Spliced(ls1, ls3, next);
            var body := Transform(inp, ls1, inc0, f.body, off + 1, !again);
            && LeavesOk(o, inp, st.symHashes, ls, f, off)
            && Transform(inp, ls, inc0, f.body, off + 1, !again) == body
            && Transform(inp, ls, body.1, f.rest, next, keep) == Transform(inp, ls3, body.1, f.rest, next, keep)
  {
    hide Transform, LeafOk;
    var next := off + 2 + Size(f.body);
    var ls := Spliced(ls1, ls3, next);
    LeavesSame(o, inp, st.symHashes, st.symHashes, ls1, ls, f.body, off + 1);
    LeavesSame(o, inp, st3.symHashes, st.symHashes, ls3, ls, f.rest, next);
    TransformSame(inp, ls, ls1, inc0, f.body, off + 1, !again);
    TransformSame(inp, ls, ls3, Transform(inp, ls1, inc0, f.body, off + 1, !again).1, f.rest, next, keep);
  }

  /** The N_EINCL of a kept group. */
  lemma EndAdds(o: Options, inp: Input, st: Pass, st1: Pass, st2: Pass, f: Forest, off: nat, keep: bool)
    requires f.Group? && Ready(o, inp, st, f, off, keep)
    requires BodySum(f.body, 0) !in Seen(st.link, f.begin.name) && st1 == Head(inp, st, f.begin, f.body, off)
    requires PassOk(inp, st2) && Idle(st2) && Outside(st1, st2, off + 1, off + 1 + Size(f.body))
    ensures off + 1 + Size(f.body) < |inp.syms|
    ensures Adds(st2, StepSym(o, inp, st2, off + 1 + Size(f.body)), [EndOf(inp, f.end)], st2.link.includes)
  {
    hide PassOk, StepSym, Head, WellLinked, Copied, Adds, Outside, At, Bracketed, Plain, Open, Ready, BracketOk, EndOf;
    var end := off + 1 + Size(f.body);
    ReadyOk(o, inp, st, f, off, keep);
    ReadyAt(o, inp, st, f, off, keep);
    EndFacts(o, inp, st, st1, st2, f, off, keep);
    EndType();
    LocalLeafAdds(o, inp, st2, end);
    EndCopied(o, inp, f.end);
  }

  lemma EndFacts(o: Options, inp: Input, st: Pass, st1: Pass, st2: Pass, f: Forest, off: nat, keep: bool)
    requires f.Group? && Ready(o, inp, st, f, off, keep)
    requires BodySum(f.body, 0) !in Seen(st.link, f.begin.name) && st1 == Head(inp, st, f.begin, f.body, off)
    requires PassOk(inp, st2) && Outside(st1, st2, off + 1, off + 1 + Size(f.body))
    ensures var end := off + 1 + Size(f.body);
            && end < |inp.syms| && end < |st2.symHashes| == |st2.symbolMap|
            && inp.syms[end] == f.end && f.end.typ == N_EINCL && BracketOk(o, f.end, None)
            && st2.symHashes[end] == None && st2.symbolMap[end] != -1
  {
    hide PassOk, Head, BodySum, Seen, Stripped, Discarded;
    ReadyOk(o, inp, st, f, off, keep);
    ReadyAt(o, inp, st, f, off, keep);
    HeadShape(inp, st, f.begin, f.body, off);
    var end := off + 1 + Size(f.body);
    assert st1.symbolMap[end] == st.symbolMap[end];
  }

  lemma GroupAdds(o: Options, inp: Input, ls: seq<seq<Nlist>>, st: Pass, st1: Pass, st2: Pass, st3: Pass, st4: Pass, f: Forest,
                  off: nat, keep: bool)
    requires f.Group? && off + Size(f) <= |ls|
    requires var total := BodySum(f.body, 0);
             var b := f.begin;
             var again := total in Known(st.link.includes, b.name);
             var inc0 := if again then st.link.includes
                         else st.link.includes[b.name := [total] + Known(st.link.includes, b.name)];
             var (body', inc1) := Transform(inp, ls, inc0, f.body, off + 1, !again);
             var (rest', inc2) := Transform(inp, ls, inc1, f.rest, off + 2 + Size(f.body), keep);
             && Adds(st, st1, [Nlist(if again then N_EXCL else N_BINCL, b.other, b.desc, b.name, total)], inc0)
             && Adds(st1, st2, Flatten(body'), inc1)
             && (if again then st3 == st2 else Adds(st2, st3, [EndOf(inp, f.end)], inc1))
             && Adds(st3, st4, Flatten(rest'), inc2)
    ensures var (f', inc') := Transform(inp, ls, st.link.includes, f, off, keep); Adds(st, st4, Flatten(f'), inc')
  {
    hide Adds, BodySum, EndOf;
    var total := BodySum(f.body, 0);
    var b := f.begin;
    var again := total in Known(st.link.includes, b.name);
    var inc0 := if again then st.link.includes else st.link.includes[b.name := [total] + Known(st.link.includes, b.name)];
    var (body', inc1) := Transform(inp, ls, inc0, f.body, off + 1, !again);
    var (rest', inc2) := Transform(inp, ls, inc1, f.rest, off + 2 + Size(f.body), keep);
    var head := [Nlist(if again then N_EXCL else N_BINCL, b.other, b.desc, b.name, total)];
    AddsTrans(st, st1, st2, head, Flatten(body'), inc0, inc1);
    if !again {
      AddsTrans(st, st2, st3, head + Flatten(body'), [EndOf(inp, f.end)], inc1, inc1);
      AddsTrans(st, st3, st4, head + Flatten(body') + [EndOf(inp, f.end)], Flatten(rest'), inc1, inc2);
    } else {
      AddsTrans(st, st2, st4, head + Flatten(body'), Flatten(rest'), inc1, inc2);
      assert head + Flatten(body') + Flatten(rest') == head + (Flatten(body') + Flatten(rest'));
    }
  }

  /**
    aout_link_write_symbols on a balanced table without indirect and warning symbols: what it writes
    is the file symbol, if any, and then the transformed tree, symbol for symbol; ls says which
    ordinary symbols are copied, and what as.
   */
  lemma InputTransforms(o: Options, inp: Input, l: Link, symHashes: seq<Option<nat>>, f: Forest) returns (ls: seq<seq<Nlist>>)
    requires inp.syms == Flatten(f) && Bracketed(f) && PassOk(inp, Start(o, inp, l, symHashes))
    requires Size(f) <= |symHashes| && Plain(o, symHashes, f, 0)
    ensures |ls| == |symHashes| && LeavesOk(o, inp, symHashes, ls, f, 0)
    ensures var st := WriteSymbols(o, inp, l, symHashes);
            var st0 := Start(o, inp, l, symHashes);
            var (f', inc') := Transform(inp, ls, l.includes, f, 0, true);
            st.out == st0.out + Flatten(f') && st.link.includes == inc'
  {
    hide StepSym, WellLinked, Plain, Bracketed, Ready, PassOk, Tree, Transform, Steps, Flatten, At, SameKinds, Start,
         WriteSymbols, Adds, LeavesOk;
    var st0 := Start(o, inp, l, symHashes);
    StartIs(o, inp, l, symHashes);
    StartReady(o, inp, l, symHashes, f);
    FlatIsTree(o, inp, st0, f, 0, true);
    ls := TreeTransforms(o, inp, st0, f, 0, true);
    WriteIs(o, inp, l, symHashes);
    ReadyAt(o, inp, st0, f, 0, true);
    var (f', inc') := Transform(inp, ls, l.includes, f, 0, true);
    AddsOut(st0, Tree(o, inp, st0, f, 0, true), Flatten(f'), inc');
  }

  lemma AddsOut(st: Pass, st': Pass, syms: seq<Nlist>, inc: Includes)
    requires Adds(st, st', syms, inc)
    ensures st'.out == st.out + syms && st'.link.includes == inc
  {
  }

  lemma StartIs(o: Options, inp: Input, l: Link, symHashes: seq<Option<nat>>)
    ensures var st0 := Start(o, inp, l, symHashes); st0.link.includes == l.includes && st0.symHashes == symHashes
  {
  }

  lemma WriteIs(o: Options, inp: Input, l: Link, symHashes: seq<Option<nat>>)
    requires PassOk(inp, Start(o, inp, l, symHashes))
    ensures var st := WriteSymbols(o, inp, l, symHashes);
            var st' := Steps(o, inp, Start(o, inp, l, symHashes), 0, |inp.syms|);
            st.out == st'.out && st.link.includes == st'.link.includes
  {
    hide PassOk, Steps, Start, Put;
  }

  lemma StartReady(o: Options, inp: Input, l: Link, symHashes: seq<Option<nat>>, f: Forest)
    requires inp.syms == Flatten(f) && Bracketed(f) && PassOk(inp, Start(o, inp, l, symHashes))
    requires Size(f) <= |symHashes| && Plain(o, symHashes, f, 0)
    ensures Ready(o, inp, Start(o, inp, l, symHashes), f, 0, true)
  {
    hide Plain, Bracketed, WellLinked;
    var st0 := Start(o, inp, l, symHashes);
    AtFlatten(inp.syms, 0, f);
    OpenAll(f, st0.symbolMap, 0);
  }

  // ----- what the transformation promises -----

  /** Groups that are kept, in the order in which they open, as (name, total). */
  function Begun(f: Forest): seq<(Name, nat)> {
    match f
    case Empty => []
    case Leaf(_, rest) => Begun(rest)
    case Group(b, body, _, rest) => [(b.name, b.value)] + Begun(body) + Begun(rest)
  }

  function Excluded(f: Forest): nat {
    match f
    case Empty => 0
    case Leaf(s, rest) => (if s.typ == N_EXCL then 1 else 0) + Excluded(rest)
    case Group(_, body, _, rest) => Excluded(body) + Excluded(rest)
  }

  function Groups(f: Forest): nat {
    match f
    case Empty => 0
    case Leaf(_, rest) => Groups(rest)
    case Group(_, body, _, rest) => 1 + Groups(body) + Groups(rest)
  }

  predicate In(inc: Includes, p: (Name, nat)) { p.1 in Known(inc, p.0) }

  predicate Fresh(inc: Includes, ps: seq<(Name, nat)>) {
    && (forall i :: 0 <= i < |ps| ==> !In(inc, ps[i]))
    && (forall i, j :: 0 <= i < j < |ps| ==> ps[i] != ps[j])
  }

  /** inc' is inc with the pairs added. */
  ghost predicate Grown(inc: Includes, inc': Includes, ps: seq<(Name, nat)>) {
    forall p: (Name, nat) :: In(inc', p) <==> In(inc, p) || p in ps
  }

  lemma {:induction false} JoinBegun(f: Forest, g: Forest)
    ensures Begun(Join(f, g)) == Begun(f) + Begun(g)
    ensures Excluded(Join(f, g)) == Excluded(f) + Excluded(g)
    ensures Bracketed(f) && Bracketed(g) ==> Bracketed(Join(f, g))
  {
    hide Flatten;
    match f
    case Empty =>
    case Leaf(_, rest) => JoinBegun(rest, g);
    case Group(_, _, _, rest) => JoinBegun(rest, g);
  }

  lemma FreshJoin(inc: Includes, inc1: Includes, a: seq<(Name, nat)>, b: seq<(Name, nat)>)
    requires Fresh(inc, a) && Grown(inc, inc1, a) && Fresh(inc1, b)
    ensures Fresh(inc, a + b)
  {
    var ps := a + b;
    forall i | 0 <= i < |ps|
      ensures !In(inc, ps[i])
    {
      if i >= |a| {
        assert !In(inc1, b[i - |a|]);
      }
    }
    forall i, j | 0 <= i < j < |ps|
      ensures ps[i] != ps[j]
    {
      if i < |a| <= j {
        assert !In(inc1, b[j - |a|]) && a[i] in a;
      }
    }
  }

  lemma GrownJoin(inc: Includes, inc1: Includes, inc2: Includes, a: seq<(Name, nat)>, b: seq<(Name, nat)>)
    requires Grown(inc, inc1, a) && Grown(inc1, inc2, b)
    ensures Grown(inc, inc2, a + b)
  {
    forall p: (Name, nat)
      ensures In(inc2, p) <==> In(inc, p) || p in a + b
    {
      assert In(inc2, p) <==> In(inc1, p) || p in b;
    }
  }

  lemma GrownOne(inc: Includes, name: Name, total: nat)
    requires total !in Known(inc, name)
    ensures Grown(inc, inc[name := [total] + Known(inc, name)], [(name, total)])
    ensures Fresh(inc, [(name, total)])
  {
  }

  /** No exclusion marks in the source itself. */
  predicate NoExcl(f: Forest) {
    match f
    case Empty => true
    case Leaf(s, rest) => s.typ != N_EXCL && NoExcl(rest)
    case Group(_, body, _, rest) => NoExcl(body) && NoExcl(rest)
  }

  /**
    f' is a proper table; every (name, total) is kept exactly where it is first met, in this input or
    any before; and each group of the source f, at whatever depth, is either kept or excluded.
   */
  ghost predicate Promised(inc: Includes, f': Forest, inc': Includes, f: Forest) {
    && Bracketed(f') && Fresh(inc, Begun(f')) && Grown(inc, inc', Begun(f'))
    && (NoExcl(f) ==> |Begun(f')| + Excluded(f') == Groups(f))
  }

  lemma PromisedLeaf(inc: Includes, rest': Forest, inc': Includes, s: Nlist, rest: Forest, leaf: seq<Nlist>)
    requires Promised(inc, rest', inc', rest) && |leaf| <= 1
    requires leaf != [] ==> !Bracket(leaf[0].typ) && (s.typ != N_EXCL ==> leaf[0].typ != N_EXCL)
    ensures Promised(inc, rest', inc', Leaf(s, rest)) && Promised(inc, LeafOf(leaf, rest'), inc', Leaf(s, rest))
  {
    hide Fresh, Grown;
  }

  lemma PromisedAgain(inc: Includes, inc1: Includes, inc2: Includes, body': Forest, rest': Forest, x: Nlist, f: Forest)
    requires f.Group? && Promised(inc, body', inc1, f.body) && Promised(inc1, rest', inc2, f.rest) && x.typ == N_EXCL
    ensures Promised(inc, Leaf(x, Join(body', rest')), inc2, f)
  {
    hide Fresh, Grown, Join;
    FreshJoin(inc, inc1, Begun(body'), Begun(rest'));
    GrownJoin(inc, inc1, inc2, Begun(body'), Begun(rest'));
    JoinBegun(body', rest');
    ExclType();
  }

  lemma PromisedFirst(inc: Includes, inc0: Includes, inc1: Includes, inc2: Includes, body': Forest, rest': Forest,
                      b: Nlist, e: Nlist, f: Forest)
    requires f.Group? && b.typ == N_BINCL && e.typ == N_EINCL && b.value !in Known(inc, b.name)
    requires inc0 == inc[b.name := [b.value] + Known(inc, b.name)]
    requires Promised(inc0, body', inc1, f.body) && Promised(inc1, rest', inc2, f.rest)
    ensures Promised(inc, Group(b, body', e, rest'), inc2, f)
  {
    hide Fresh, Grown, Known;
    var first := [(b.name, b.value)];
    GrownOne(inc, b.name, b.value);
    FreshJoin(inc, inc0, first, Begun(body'));
    GrownJoin(inc, inc0, inc1, first, Begun(body'));
    FreshJoin(inc, inc1, first + Begun(body'), Begun(rest'));
    GrownJoin(inc, inc1, inc2, first + Begun(body'), Begun(rest'));
  }

  /** What the transformation promises, for every balanced table and whatever was included before. */
  lemma {:induction false} TransformPromises(o: Options, inp: Input, hs: seq<Option<nat>>, ls: seq<seq<Nlist>>, inc: Includes,
                                              f: Forest, off: nat, keep: bool)
    requires Bracketed(f) && off + Size(f) <= |hs| && off + Size(f) <= |ls| && LeavesOk(o, inp, hs, ls, f, off)
    ensures var (f', inc') := Transform(inp, ls, inc, f, off, keep); Promised(inc, f', inc', f)
    decreases f
  {
    hide LeafOk, BodySum, Promised, EndOf, Join;
    match f
    case Empty => NothingPromised(inc);
    case Leaf(s, rest) =>
      TransformPromises(o, inp, hs, ls, inc, rest, off + 1, keep);
      LeafKept(o, inp, hs[off], s, ls[off]);
      var (rest', inc') := Transform(inp, ls, inc, rest, off + 1, keep);
      PromisedLeaf(inc, rest', inc', s, rest, ls[off]);
    case Group(b, body, e, rest) =>
      var total := BodySum(body, 0);
      var next := off + 2 + Size(body);
      if total in Known(inc, b.name) {
        var (body', inc1) := Transform(inp, ls, inc, body, off + 1, false);
        var (rest', inc2) := Transform(inp, ls, inc1, rest, next, keep);
        TransformPromises(o, inp, hs, ls, inc, body, off + 1, false);
        TransformPromises(o, inp, hs, ls, inc1, rest, next, keep);
        PromisedAgain(inc, inc1, inc2, body', rest', Nlist(N_EXCL, b.other, b.desc, b.name, total), f);
      } else {
        var inc0 := inc[b.name := [total] + Known(inc, b.name)];
        var (body', inc1) := Transform(inp, ls, inc0, body, off + 1, true);
        var (rest', inc2) := Transform(inp, ls, inc1, rest, next, keep);
        TransformPromises(o, inp, hs, ls, inc0, body, off + 1, true);
        TransformPromises(o, inp, hs, ls, inc1, rest, next, keep);
        EndKept(inp, e);
        PromisedFirst(inc, inc0, inc1, inc2, body', rest', Nlist(N_BINCL, b.other, b.desc, b.name, total), EndOf(inp, e), f);
      }
  }

  lemma EndKept(inp: Input, e: Nlist)
    ensures EndOf(inp, e).typ == e.typ
  {
  }

  lemma NothingPromised(inc: Includes)
    ensures Promised(inc, Empty, inc, Empty)
  {
    NothingBegun(inc);
  }

  lemma LeafKept(o: Options, inp: Input, h: Option<nat>, sym: Nlist, leaf: seq<Nlist>)
    requires LeafOk(o, inp, h, sym, leaf)
    ensures |leaf| <= 1
    ensures leaf != [] ==> !Bracket(leaf[0].typ) && (sym.typ != N_EXCL ==> leaf[0].typ != N_EXCL)
  {
  }

  lemma NothingBegun(inc: Includes)
    ensures Fresh(inc, []) && Grown(inc, inc, [])
  {
  }

  lemma ExclType()
    ensures N_EXCL != N_BINCL && N_EXCL != N_EINCL
  {
  }

  // ----- every balanced table is a forest -----

  /** Nesting depth after the first n symbols; None once an N_EINCL had nothing to close. */
  function Depth(syms: seq<Nlist>, n: nat): Option<nat>
    requires n <= |syms|
  {
    if n == 0 then Some(0)
    else
      match Depth(syms, n - 1)
      case None => None
      case Some(d) =>
        if syms[n - 1].typ == N_BINCL then Some(d + 1)
        else if syms[n - 1].typ == N_EINCL then if d == 0 then None else Some(d - 1)
        else Some(d)
  }

  predicate Balanced(syms: seq<Nlist>) {
    Depth(syms, |syms|) == Some(0)
  }

  /** The stretch from j up to the N_EINCL that closes what is open there, or to the end. */
  lemma {:induction false} Parse(syms: seq<Nlist>, j: nat, d: nat) returns (f: Forest)
    requires j <= |syms| && Depth(syms, j) == Some(d) && Balanced(syms)
    ensures Bracketed(f) && At(syms, j, f) && j + Size(f) <= |syms|
    ensures Depth(syms, j + Size(f)) == Some(d)
    ensures if d == 0 then j + Size(f) == |syms| else j + Size(f) < |syms| && syms[j + Size(f)].typ == N_EINCL
    decreases |syms| - j
  {
    hide Flatten, Balanced, Depth, At, Bracketed, Size;
    if j == |syms| {
      BalancedEnd(syms);
      ParsedEmpty(syms, j);
      return Empty;
    }
    DepthSome(syms, j + 1);
    DepthNext(syms, j);
    if syms[j].typ == N_EINCL {
      ParsedEmpty(syms, j);
      return Empty;
    }
    if syms[j].typ == N_BINCL {
      var body := Parse(syms, j + 1, d + 1);
      var end := j + 1 + Size(body);
      DepthNext(syms, end);
      var rest := Parse(syms, end + 1, d);
      ParsedGroup(syms, j, body, rest);
      return Group(syms[j], body, syms[end], rest);
    }
    var rest := Parse(syms, j + 1, d);
    ParsedLeaf(syms, j, rest);
    return Leaf(syms[j], rest);
  }

  lemma DepthNext(syms: seq<Nlist>, n: nat)
    requires n < |syms|
    ensures Depth(syms, n + 1) ==
            match Depth(syms, n)
            case None => None
            case Some(d) =>
              if syms[n].typ == N_BINCL then Some(d + 1)
              else if syms[n].typ == N_EINCL then if d == 0 then None else Some(d - 1)
              else Some(d)
  {
  }

  lemma ParsedEmpty(syms: seq<Nlist>, j: nat)
    requires j <= |syms|
    ensures Bracketed(Empty) && At(syms, j, Empty) && Size(Empty) == 0
  {
  }

  lemma ParsedLeaf(syms: seq<Nlist>, j: nat, rest: Forest)
    requires j < |syms| && Bracketed(rest) && At(syms, j + 1, rest) && syms[j].typ != N_BINCL && syms[j].typ != N_EINCL
    ensures var f := Leaf(syms[j], rest); Bracketed(f) && At(syms, j, f) && Size(f) == 1 + Size(rest)
  {
  }

  lemma ParsedGroup(syms: seq<Nlist>, j: nat, body: Forest, rest: Forest)
    requires j < |syms| && Bracketed(body) && Bracketed(rest) && At(syms, j + 1, body)
    requires var end := j + 1 + Size(body);
             end < |syms| && At(syms, end + 1, rest) && syms[j].typ == N_BINCL && syms[end].typ == N_EINCL
    ensures var f := Group(syms[j], body, syms[j + 1 + Size(body)], rest);
            Bracketed(f) && At(syms, j, f) && Size(f) == Size(body) + 2 + Size(rest)
  {
  }

  lemma BalancedEnd(syms: seq<Nlist>)
    requires Balanced(syms)
    ensures Depth(syms, |syms|) == Some(0)
  {
  }

  lemma {:induction false} DepthSome(syms: seq<Nlist>, n: nat)
    requires n <= |syms| && Balanced(syms)
    ensures Depth(syms, n).Some?
    decreases |syms| - n
  {
    if n < |syms| {
      DepthSome(syms, n + 1);
    }
  }

  lemma {:induction false} AtIsFlatten(syms: seq<Nlist>, j: nat, f: Forest)
    requires At(syms, j, f) && j + Size(f) <= |syms|
    ensures Cut(syms, j, j + Size(f)) == Flatten(f)
    decreases f
  {
    hide Cut;
    match f
    case Empty => CutEmpty(syms, j);
    case Leaf(s, rest) =>
      AtIsFlatten(syms, j + 1, rest);
      CutLeaf(syms, j, j + Size(f));
    case Group(b, body, e, rest) =>
      var end := j + 1 + Size(body);
      AtIsFlatten(syms, j + 1, body);
      AtIsFlatten(syms, end + 1, rest);
      CutGroup(syms, j, end, j + Size(f));
  }

  function Cut(s: seq<Nlist>, j: nat, k: nat): seq<Nlist>
    requires j <= k <= |s|
  {
    s[j..k]
  }

  lemma CutEmpty(s: seq<Nlist>, j: nat)
    requires j <= |s|
    ensures Cut(s, j, j) == []
  {
  }

  lemma CutLeaf(s: seq<Nlist>, j: nat, k: nat)
    requires j < k <= |s|
    ensures Cut(s, j, k) == [s[j]] + Cut(s, j + 1, k)
  {
  }

  lemma CutGroup(s: seq<Nlist>, j: nat, end: nat, k: nat)
    requires j < end < k <= |s|
    ensures Cut(s, j, k) == [s[j]] + Cut(s, j + 1, end) + [s[end]] + Cut(s, end + 1, k)
  {
  }

  /** So the results above speak of every balanced table. */
  lemma BalancedIsForest(syms: seq<Nlist>) returns (f: Forest)
    requires Balanced(syms)
    ensures Bracketed(f) && Flatten(f) == syms
  {
    f := Parse(syms, 0, 0);
    AtIsFlatten(syms, 0, f);
    assert syms[0..|syms|] == syms;
  }
}
