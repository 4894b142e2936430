/**
  The symbol pass of aoutx.h as it runs: one loop over the input's symbols that fills the symbol map
  and the output buffer in place, with the two scans at an N_BINCL, the symbols forced out by
  relocs, and the closing traversal. Each method is proved against its function in AoutModel.
 */
module AoutLinker {
  import opened Bytes
  import opened AoutModel
  import opened AoutGroups

  class Linker {
    const options: Options
    var hashes: map<nat, Entry>
    var includes: map<Name, seq<nat>>
    var count: nat
    var symoff: nat
    var file: map<nat, Nlist>
    ghost var owners: seq<Owner>

    ghost function Abs(): Link
      reads this
    {
      Link(hashes, includes, count, symoff, file, owners)
    }

    constructor (options: Options, hashes: map<nat, Entry>, symoff: nat)
      ensures this.options == options && Abs() == Link(hashes, map[], 0, symoff, map[], [])
    {
      this.options, this.hashes, this.symoff := options, hashes, symoff;
      includes, count, file, owners := map[], 0, map[], [];
    }

    /** The loop over one stab string. */
    method StabTotal(s: Name, start: nat) returns (val: nat)
      ensures val == StabSum(s, 0, start)
    {
      val := start;
      var p := 0;
      while p < |s|
        invariant 0 <= p <= |s| && StabSum(s, p, val) == StabSum(s, 0, start)
      {
        val := Vma(val + SignedChar(s[p]));
        if s[p] == OPEN_PAREN {
          p := p + 1;
          ghost var q := p;
          while p < |s| && IsDigit(s[p])
            invariant q <= p <= |s| && SkipDigits(s, p) == SkipDigits(s, q)
          {
            p := p + 1;
          }
          p := p - 1;
        }
        p := p + 1;
      }
    }

    /** The first scan at an N_BINCL. */
    method IncludeTotal(syms: seq<Nlist>, i: nat) returns (val: nat)
      requires i < |syms|
      ensures val == GroupSum(syms, i + 1, 0, 0)
    {
      val := 0;
      var nest := 0;
      var incl := i + 1;
      while incl < |syms|
        invariant i < incl <= |syms| && 0 <= nest && GroupSum(syms, incl, nest, val) == GroupSum(syms, i + 1, 0, 0)
      {
        if syms[incl].typ == N_EINCL {
          if nest == 0 {
            return;
          }
          nest := nest - 1;
        } else if syms[incl].typ == N_BINCL {
          nest := nest + 1;
        } else if nest == 0 {
          val := StabTotal(syms[incl].name, val);
        }
        incl := incl + 1;
      }
    }

    /** The second scan, which marks what will not be copied. */
    method MarkInclude(syms: seq<Nlist>, symbolMap: array<int>, i: nat)
      requires i < |syms| == symbolMap.Length
      modifies symbolMap
      ensures symbolMap[..] == GroupMark(syms, old(symbolMap[..]), i + 1, 0)
    {
      var nest := 0;
      var incl := i + 1;
      while incl < |syms|
        invariant i < incl <= |syms| && 0 <= nest
        invariant GroupMark(syms, symbolMap[..], incl, nest) == GroupMark(syms, old(symbolMap[..]), i + 1, 0)
      {
        ghost var m := symbolMap[..];
        if syms[incl].typ == N_EINCL {
          if nest == 0 {
            symbolMap[incl] := -1;
            assert symbolMap[..] == m[incl := -1];
            return;
          }
          nest := nest - 1;
        } else if syms[incl].typ == N_BINCL {
          nest := nest + 1;
        } else if nest == 0 {
          symbolMap[incl] := -1;
          assert symbolMap[..] == m[incl := -1];
        }
        incl := incl + 1;
      }
    }

    /** Copying a symbol into the buffer of output symbols. */
    method Emit(i: nat, sym: Nlist, ghost owner: Owner, symbolMap: array<int>, outputSyms: array<Nlist>, n: nat)
      requires i < symbolMap.Length && n < outputSyms.Length
      modifies this`count, this`owners, symbolMap, outputSyms
      ensures count == old(count) + 1 && owners == old(owners) + [owner]
      ensures symbolMap[..] == old(symbolMap[..])[i := old(count)]
      ensures outputSyms[..n + 1] == old(outputSyms[..n]) + [sym]
    {
      outputSyms[n] := sym;
      symbolMap[i] := count;
      count := count + 1;
      owners := owners + [owner];
    }

    /** The end of the loop body. */
    method CopyOut(inp: Input, i: nat, name: Name, outName: Name, c: Copy, ghost owner: Owner,
                   symbolMap: array<int>, outputSyms: array<Nlist>, n: nat, ghost st: Pass)
      requires i < |inp.syms| == symbolMap.Length && n < outputSyms.Length
      requires st.link == Abs() && st.symbolMap == symbolMap[..] && st.out == outputSyms[..n]
      modifies this`count, this`owners, this`includes, symbolMap, outputSyms
      ensures var st' := AoutModel.CopyOut(inp, st, i, name, outName, c, owner);
              st'.link == Abs() && st'.symbolMap == symbolMap[..] && st'.out == outputSyms[..n + 1]
              && st' == st.(link := st'.link, symbolMap := st'.symbolMap, out := st'.out)
    {
      hide GroupSum, GroupMark;
      var sym := inp.syms[i];
      if c.typ == N_BINCL {
        var total := IncludeTotal(inp.syms, i);
        var seen := if name in includes then includes[name] else [];
        var typ := N_BINCL;
        if total in seen {
          typ := N_EXCL;
          MarkInclude(inp.syms, symbolMap, i);
        } else {
          includes := includes[name := [total] + seen];
        }
        Emit(i, Nlist(typ, sym.other, sym.desc, outName, total), owner, symbolMap, outputSyms, n);
      } else {
        Emit(i, Nlist(c.typ, sym.other, sym.desc, outName, c.value), owner, symbolMap, outputSyms, n);
      }
    }

    /** Following indirect and warning symbols to the real one. */
    method ResolveLink(h: nat) returns (r: nat)
      requires WellLinked(hashes) && h in hashes
      ensures r == Resolve(hashes, h)
    {
      r := h;
      while hashes[r].kind.Indirect? || hashes[r].kind.Warning?
        invariant r in hashes && Resolve(hashes, r) == Resolve(hashes, h)
        decreases r
      {
        assert LinkOk(hashes, r);
        r := hashes[r].kind.link;
      }
    }

    /** A symbol that has a hash entry and was not passed through or skipped. */
    method StepGlobal(inp: Input, i: nat, h: nat, symbolMap: array<int>, symHashes: array<Option<nat>>,
                      outputSyms: array<Nlist>, n: nat, ghost st: Pass)
      returns (pass: bool, skipNext: bool, n': nat)
      requires i < |inp.syms| == symbolMap.Length == symHashes.Length && n < outputSyms.Length
      requires PassOk(inp, st) && h in st.link.hashes && !st.pass && !st.skipNext
      requires st.link == Abs() && st.symbolMap == symbolMap[..] && st.symHashes == symHashes[..]
      requires st.out == outputSyms[..n]
      modifies this, symbolMap, symHashes, outputSyms
      ensures n <= n' <= n + 1
      ensures AoutModel.StepGlobal(options, inp, st, i, h)
              == Pass(Abs(), symbolMap[..], symHashes[..], pass, skipNext, outputSyms[..n'])
    {
      hide WellLinked, CopyOf, Stripped, Discarded, AoutModel.CopyOut;
      pass, skipNext, n' := false, false, n;
      var sym := inp.syms[i];
      var e := hashes[h];
      var name := if e.kind.Warning? then sym.name else e.name;
      var hresolve := ResolveLink(h);
      symHashes[i] := Some(hresolve);
      if e.written {
        skipNext := sym.typ & N_TYPE == N_INDR || sym.typ == N_WARNING;
        symbolMap[i] := e.indx;
        return;
      }
      if Stripped(options, sym.typ, name) {
        hashes := hashes[h := e.(written := true)];
        return;
      }
      var c := CopyOf(inp, sym, Some(hashes[hresolve].kind));
      pass, skipNext := c.pass, c.skipNext;
      hashes := hashes[h := e.(written := true, indx := count)];
      ghost var st1 := st.(symHashes := symHashes[..], pass := pass, skipNext := skipNext, link := Abs());
      CopyOut(inp, i, name, if options.keepMemory then name else e.name, c, OfGlobal(h), symbolMap, outputSyms, n, st1);
      n' := n + 1;
    }

    method StepLocal(inp: Input, i: nat, symbolMap: array<int>, outputSyms: array<Nlist>, n: nat, ghost st: Pass)
      returns (pass: bool, skipNext: bool, n': nat)
      requires i < |inp.syms| == symbolMap.Length && n < outputSyms.Length
      requires st.link == Abs() && st.symbolMap == symbolMap[..] && st.out == outputSyms[..n] && !st.pass && !st.skipNext
      modifies this`count, this`owners, this`includes, symbolMap, outputSyms
      ensures n <= n' <= n + 1
      ensures AoutModel.StepLocal(options, inp, st, i)
              == Pass(Abs(), symbolMap[..], st.symHashes, pass, skipNext, outputSyms[..n'])
    {
      hide CopyOf, Stripped, Discarded, AoutModel.CopyOut;
      pass, skipNext, n' := false, false, n;
      var sym := inp.syms[i];
      if Stripped(options, sym.typ, sym.name) {
        return;
      }
      var c := CopyOf(inp, sym, None);
      pass, skipNext := c.pass, c.skipNext;
      if !IsSet(c.typ) && Discarded(options, c.typ, sym.name) {
        pass := false;
        return;
      }
      CopyOut(inp, i, sym.name, sym.name, c, OfLocal(inp.id, i), symbolMap, outputSyms, n,
              st.(pass := pass, skipNext := skipNext));
      n' := n + 1;
    }

    /** One turn of the main loop. */
    method StepSymbol(inp: Input, i: nat, symbolMap: array<int>, symHashes: array<Option<nat>>,
                      outputSyms: array<Nlist>, n: nat, passIn: bool, skipIn: bool, ghost st: Pass)
      returns (pass: bool, skipNext: bool, n': nat)
      requires i < |inp.syms| == symbolMap.Length == symHashes.Length && n < outputSyms.Length
      requires PassOk(inp, st) && st == Pass(Abs(), symbolMap[..], symHashes[..], passIn, skipIn, outputSyms[..n])
      modifies this, symbolMap, symHashes, outputSyms
      ensures n <= n' <= n + 1
      ensures StepSym(options, inp, st, i)
              == Pass(Abs(), symbolMap[..], symHashes[..], pass, skipNext, outputSyms[..n'])
    {
      hide WellLinked, AoutModel.StepLocal, AoutModel.StepGlobal;
      pass, skipNext, n' := passIn, skipIn, n;
      if symbolMap[i] == -1 {
        return;
      }
      symbolMap[i] := -1;
      ghost var st0 := st.(symbolMap := symbolMap[..]);
      if pass {
        Emit(i, inp.syms[i], OfLocal(inp.id, i), symbolMap, outputSyms, n);
        pass, n' := false, n + 1;
      } else if skipNext {
        skipNext := false;
      } else {
        match symHashes[i]
        case None => pass, skipNext, n' := StepLocal(inp, i, symbolMap, outputSyms, n, st0);
        case Some(h) => pass, skipNext, n' := StepGlobal(inp, i, h, symbolMap, symHashes, outputSyms, n, st0);
      }
    }

    /** aout_link_write_symbols; the buffers are those the final link sized for its largest input. */
    method WriteSymbols(inp: Input, symbolMap: array<int>, symHashes: array<Option<nat>>, outputSyms: array<Nlist>)
      requires symbolMap.Length == symHashes.Length == |inp.syms| && outputSyms.Length >= |inp.syms| + 1
      requires PassOk(inp, Start(options, inp, Abs(), symHashes[..]))
      modifies this, symbolMap, symHashes, outputSyms
      ensures var st := AoutModel.WriteSymbols(options, inp, old(Abs()), old(symHashes[..]));
              Abs() == st.link && symbolMap[..] == st.symbolMap && symHashes[..] == st.symHashes
    {
      hide WellLinked, StepSym, SameKinds, Put;
      ghost var st0 := Start(options, inp, Abs(), symHashes[..]);
      var n := 0;
      if FileSymbol(options, inp) {
        outputSyms[0] := Nlist(N_TEXT, 0, 0, inp.filename, Vma(inp.text.outVma + inp.text.outOffset));
        count := count + 1;
        owners := owners + [OfFile(inp.id)];
        n := 1;
      }
      for k := 0 to symbolMap.Length
        invariant Abs() == st0.link && symHashes[..] == st0.symHashes && outputSyms[..n] == st0.out
        invariant forall j :: 0 <= j < k ==> symbolMap[j] == 0
      {
        symbolMap[k] := 0;
      }
      var pass, skipNext := false, false;
      ghost var st := st0;
      var i := 0;
      while i < |inp.syms|
        invariant i <= |inp.syms| && n <= i + 1
        invariant PassOk(inp, st) && st == Steps(options, inp, st0, 0, i)
        invariant st == Pass(Abs(), symbolMap[..], symHashes[..], pass, skipNext, outputSyms[..n])
      {
        StepOk(options, inp, st, i);
        StepsSplit(options, inp, st0, 0, i, i + 1);
        StepsOne(options, inp, st, i);
        pass, skipNext, n := StepSymbol(inp, i, symbolMap, symHashes, outputSyms, n, pass, skipNext, st);
        st := StepSym(options, inp, st, i);
        i := i + 1;
      }
      WriteBuffer(outputSyms, n);
    }

    /** The seek to symoff and the write of the buffered symbols. */
    method WriteBuffer(outputSyms: array<Nlist>, n: nat)
      requires n <= outputSyms.Length
      modifies this`file, this`symoff
      ensures file == Put(old(file), old(symoff), outputSyms[..n]) && symoff == old(symoff) + NLIST_SIZE * n
    {
      var k := 0;
      while k < n
        invariant k <= n && symoff == old(symoff) && file == Put(old(file), old(symoff), outputSyms[..k])
      {
        assert outputSyms[..k + 1][..k] == outputSyms[..k];
        file := file[symoff + NLIST_SIZE * k := outputSyms[k]];
        k := k + 1;
      }
      symoff := symoff + NLIST_SIZE * n;
    }

    /** aout_link_write_other_symbol */
    method WriteOther(bh: nat)
      requires WellLinked(hashes) && bh in hashes
      modifies this
      ensures Abs() == AoutModel.WriteOther(options, old(Abs()), bh)
    {
      assert LinkOk(hashes, bh);
      hide WellLinked;
      var h := bh;
      if hashes[h].kind.Warning? {
        h := hashes[h].kind.link;
        if hashes[h].kind.New? {
          return;
        }
      }
      var e := hashes[h];
      if e.written {
        return;
      }
      hashes := hashes[h := e.(written := true)];
      if e.indx != -2 && (options.strip == StripAll || (options.strip == StripSome && e.name !in options.keep)) {
        return;
      }
      if !Writable(e.kind) {
        return;
      }
      file := file[symoff := OtherNlist(e)];
      symoff := symoff + NLIST_SIZE;
      hashes := hashes[h := e.(written := true, indx := count)];
      count := count + 1;
      owners := owners + [OfGlobal(h)];
      assert Abs().hashes == AoutModel.WriteOther(options, old(Abs()), bh).hashes;
    }

    /** The slot of h for a reloc of a partial link, made now if h was stripped. */
    method ForceOut(h: nat) returns (indx: int)
      requires WellLinked(hashes) && h in hashes
      modifies this
      ensures Abs() == Force(options, old(Abs()), h) && h in hashes && indx == hashes[h].indx
    {
      hide WellLinked, SameKinds, AoutModel.WriteOther;
      ghost var l := Abs();
      if hashes[h].indx < 0 {
        SetEntryKinds(l, h, l.hashes[h].(indx := -2, written := false));
        hashes := hashes[h := hashes[h].(indx := -2, written := false)];
        OtherKeys(options, Abs(), h);
        WriteOther(h);
      }
      indx := hashes[h].indx;
    }
  }

  lemma OtherKeys(o: Options, l: Link, h: nat)
    requires WellLinked(l.hashes) && h in l.hashes
    ensures h in AoutModel.WriteOther(o, l, h).hashes
  {
    assert LinkOk(l.hashes, h);
  }
}
