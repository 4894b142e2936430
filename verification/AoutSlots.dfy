/**
  Symbol numbering across a whole link: the file position keeps step with the count, every recorded
  index is the slot that holds the symbol, and no hash entry is ever written twice.
 */
module AoutSlots {
  import opened Bytes
  import opened AoutModel

  /** An entry has an index exactly when it owns that slot, and then it owns no other. */
  ghost predicate Slots(l: Link) {
    && |l.owners| == l.count
    && (forall h :: h in l.hashes && l.hashes[h].indx >= 0 ==>
          l.hashes[h].written && l.hashes[h].indx < l.count && l.owners[l.hashes[h].indx] == OfGlobal(h))
    && (forall k :: 0 <= k < l.count && l.owners[k].OfGlobal? ==>
          l.owners[k].h in l.hashes && l.hashes[l.owners[k].h].indx == k)
  }

  /** File position of slot k of a table that starts at base. */
  function Pos(base: nat, k: nat): nat {
    base + NLIST_SIZE * k
  }

  predicate InTable(base: nat, n: nat, p: nat) {
    p >= base && (p - base) % NLIST_SIZE == 0 && (p - base) / NLIST_SIZE < n
  }

  /** The file holds one entry for each of the first n slots, from base on, and symoff is the next. */
  ghost predicate Filled(l: Link, base: nat, n: nat) {
    && l.symoff == Pos(base, n)
    && (forall k: nat :: k < n ==> Pos(base, k) in l.file)
    && (forall p :: p in l.file ==> InTable(base, n, p))
  }

  /** A slot written for a hash entry bears its name; only a warning symbol bears its message. */
  predicate Named(hs: map<nat, Entry>, owner: Owner, sym: Nlist) {
    owner.OfGlobal? ==> owner.h in hs && (sym.name == hs[owner.h].name || hs[owner.h].kind.Warning?)
  }

  ghost predicate AllNamed(l: Link, base: nat) {
    forall k: nat :: k < |l.owners| && Pos(base, k) in l.file ==> Named(l.hashes, l.owners[k], l.file[Pos(base, k)])
  }

  /** The state between inputs. */
  ghost predicate Numbered(l: Link, base: nat) {
    WellLinked(l.hashes) && Slots(l) && Filled(l, base, l.count) && AllNamed(l, base)
  }

  /** What symbol i of the input finds in its slot. */
  predicate Holds(inp: Input, symHashes: seq<Option<nat>>, owners: seq<Owner>, i: nat, slot: int)
    requires i < |inp.syms| == |symHashes|
  {
    slot < 0
    || (slot < |owners|
        && (owners[slot] == OfLocal(inp.id, i)
            || (symHashes[i].Some? && owners[slot] == OfGlobal(symHashes[i].value))))
  }

  /** Everything of an input symbol that copying leaves alone. */
  predicate CopiedAs(inp: Input, i: nat, sym: Nlist)
    requires i < |inp.syms|
  {
    sym.other == inp.syms[i].other && sym.desc == inp.syms[i].desc
  }

  /** An output symbol shows what its slot was written for. */
  predicate Faithful(inp: Input, hs: map<nat, Entry>, owner: Owner, sym: Nlist) {
    && Named(hs, owner, sym)
    && (owner.OfLocal? ==> owner.input == inp.id && owner.index < |inp.syms| && CopiedAs(inp, owner.index, sym)
                           && sym.name == inp.syms[owner.index].name)
  }

  /** The buffered symbols are faithful to the last slots. */
  ghost predicate Buffered(inp: Input, st: Pass) {
    && |st.out| <= |st.link.owners|
    && forall k :: 0 <= k < |st.out| ==>
         Faithful(inp, st.link.hashes, st.link.owners[|st.link.owners| - |st.out| + k], st.out[k])
  }

  /** Nothing was copied, or the copy is faithful. */
  predicate CopyFaithful(inp: Input, st: Pass, st': Pass) {
    && |st.out| <= |st'.out| && |st.link.owners| <= |st'.link.owners|
    && (if |st'.out| == |st.out| then |st'.link.owners| == |st.link.owners|
        else |st'.link.owners| == |st.link.owners| + 1 && |st'.out| == |st.out| + 1
             && Faithful(inp, st'.link.hashes, st'.link.owners[|st.link.owners|], st'.out[|st.out|]))
  }

  lemma BufferedStep(inp: Input, st: Pass, st': Pass)
    requires Buffered(inp, st) && CopyFaithful(inp, st, st') && SameKinds(st.link.hashes, st'.link.hashes)
    requires st.out <= st'.out && st.link.owners <= st'.link.owners
    ensures Buffered(inp, st')
  {
    forall k | 0 <= k < |st'.out|
      ensures Faithful(inp, st'.link.hashes, st'.link.owners[|st'.link.owners| - |st'.out| + k], st'.out[k])
    {
      if k < |st.out| {
        assert Faithful(inp, st.link.hashes, st.link.owners[|st.link.owners| - |st.out| + k], st.out[k]);
      }
    }
  }

  /** One emission, for a local symbol or for an entry whose index was set to the coming slot. */
  lemma EmitSlots(l: Link, owner: Owner)
    requires Slots(l) && !owner.OfGlobal?
    ensures Slots(l.(count := l.count + 1, owners := l.owners + [owner]))
  {
  }

  lemma EmitGlobalSlots(l: Link, h: nat, e: Entry)
    requires Slots(l) && h in l.hashes && l.hashes[h].indx < 0 && e.written && e.indx == l.count
    ensures Slots(SetEntry(l, h, e).(count := l.count + 1, owners := l.owners + [OfGlobal(h)]))
  {
    var l' := SetEntry(l, h, e).(count := l.count + 1, owners := l.owners + [OfGlobal(h)]);
    forall k | 0 <= k < l'.count && l'.owners[k].OfGlobal?
      ensures l'.owners[k].h in l'.hashes && l'.hashes[l'.owners[k].h].indx == k
    {
      if k < l.count {
        assert l'.owners[k] == l.owners[k];
      }
    }
  }

  lemma HiddenSlots(l: Link, h: nat, e: Entry)
    requires Slots(l) && h in l.hashes && l.hashes[h].indx < 0 && e.indx < 0
    ensures Slots(SetEntry(l, h, e))
  {
  }

  lemma IncludesSlots(l: Link, includes: map<Name, seq<nat>>)
    requires Slots(l)
    ensures Slots(l.(includes := includes))
  {
  }

  /** What one copied symbol does to the pass. */
  lemma CopyOutShape(inp: Input, st: Pass, i: nat, name: Name, outName: Name, c: Copy, owner: Owner)
    requires i < |inp.syms| == |st.symbolMap|
    ensures var st' := CopyOut(inp, st, i, name, outName, c, owner);
            && st'.link == st.link.(includes := st'.link.includes, count := st.link.count + 1,
                                    owners := st.link.owners + [owner])
            && |st'.symbolMap| == |st.symbolMap| && st'.symbolMap[i] == st.link.count
            && (forall k :: 0 <= k < |st.symbolMap| && k != i ==>
                  st'.symbolMap[k] == st.symbolMap[k] || (k > i && st'.symbolMap[k] == -1))
            && |st'.out| == |st.out| + 1 && st.out <= st'.out && st'.symHashes == st.symHashes
            && CopiedAs(inp, i, st'.out[|st.out|]) && st'.out[|st.out|].name == outName
  {
    hide GroupMark, GroupSum;
  }

  /** What one turn of the loop keeps. */
  ghost predicate Kept(inp: Input, st: Pass, st': Pass, i: nat) {
    && Slots(st'.link)
    && st'.link.symoff == st.link.symoff && st'.link.file == st.link.file
    && st.link.owners <= st'.link.owners
    && st'.link.count - |st'.out| == st.link.count - |st.out|
    && st.out <= st'.out && |st'.out| <= |st.out| + 1
    && |st'.symbolMap| == |st.symbolMap|
    && (forall k :: 0 <= k < |st.symbolMap| && k != i ==>
          st'.symbolMap[k] == st.symbolMap[k] || (k > i && st'.symbolMap[k] == -1))
  }

  lemma StepSlots(o: Options, inp: Input, st: Pass, i: nat)
    requires i < |inp.syms| && PassOk(inp, st) && Slots(st.link)
    ensures var st' := StepSym(o, inp, st, i);
            && Kept(inp, st, st', i) && Holds(inp, st.symHashes, st'.link.owners, i, st'.symbolMap[i])
            && CopyFaithful(inp, st, st')
    ensures forall k :: 0 <= k < |st.symHashes| && k != i ==> StepSym(o, inp, st, i).symHashes[k] == st.symHashes[k]
  {
    hide WellLinked, CopyOf, Stripped, Discarded, Resolve, CopyOut, IsSet, Slots;
    SlotsCount(st.link);
    if st.symbolMap[i] != -1 {
      var st0 := st.(symbolMap := st.symbolMap[i := -1]);
      var sym := inp.syms[i];
      if st.pass {
        EmitSlots(st.link, OfLocal(inp.id, i));
      } else if !st.skipNext {
        match st.symHashes[i]
        case None => LocalSlots(o, inp, st0, i);
        case Some(h) => GlobalSlots(o, inp, st0, i, h);
      }
    }
  }

  lemma LocalSlots(o: Options, inp: Input, st: Pass, i: nat)
    requires i < |inp.syms| && PassOk(inp, st) && Slots(st.link) && st.symbolMap[i] == -1
    ensures var st' := StepLocal(o, inp, st, i);
            && Kept(inp, st, st', i) && st'.symHashes == st.symHashes && CopyFaithful(inp, st, st')
            && (st'.symbolMap[i] < 0 || (st'.symbolMap[i] < |st'.link.owners|
                  && st'.link.owners[st'.symbolMap[i]] == OfLocal(inp.id, i)))
  {
    hide WellLinked, CopyOf, Stripped, Discarded, CopyOut, IsSet, Slots;
    var sym := inp.syms[i];
    var c := CopyOf(inp, sym, None);
    var st1 := st.(pass := c.pass, skipNext := c.skipNext);
    CopyOutShape(inp, st1, i, sym.name, sym.name, c, OfLocal(inp.id, i));
    SlotsCount(st.link);
    EmitSlots(st.link, OfLocal(inp.id, i));
    var st2 := CopyOut(inp, st1, i, sym.name, sym.name, c, OfLocal(inp.id, i));
    IncludesSlots(st.link.(count := st.link.count + 1, owners := st.link.owners + [OfLocal(inp.id, i)]), st2.link.includes);
  }

  lemma SlotsCount(l: Link)
    requires Slots(l)
    ensures |l.owners| == l.count
    ensures forall h :: h in l.hashes && l.hashes[h].indx >= 0 ==>
              l.hashes[h].written && l.hashes[h].indx < l.count && l.owners[l.hashes[h].indx] == OfGlobal(h)
  {
  }

  lemma GlobalSlots(o: Options, inp: Input, st: Pass, i: nat, h: nat)
    requires i < |inp.syms| && PassOk(inp, st) && Slots(st.link) && st.symbolMap[i] == -1 && h in st.link.hashes
    ensures var st' := StepGlobal(o, inp, st, i, h);
            && Kept(inp, st, st', i) && CopyFaithful(inp, st, st')
            && (st'.symbolMap[i] < 0 || (st'.symbolMap[i] < |st'.link.owners|
                  && st'.link.owners[st'.symbolMap[i]] == OfGlobal(h)))
            && (forall k :: 0 <= k < |st.symHashes| && k != i ==> st'.symHashes[k] == st.symHashes[k])
  {
    hide WellLinked, CopyOf, Stripped, Discarded, CopyOut, IsSet, Slots, Resolve;
    SlotsCount(st.link);
    var sym := inp.syms[i];
    var e := st.link.hashes[h];
    if !e.written {
      var name := if e.kind.Warning? then sym.name else e.name;
      HiddenSlots(st.link, h, e.(written := true));
      var r := Resolve(st.link.hashes, h);
      var c := CopyOf(inp, sym, Some(st.link.hashes[r].kind));
      CopyGlobalSlots(inp, st, i, h, st.symHashes[i := Some(r)], name, if o.keepMemory then name else e.name, c);
    }
  }

  lemma CopyGlobalSlots(inp: Input, st: Pass, i: nat, h: nat, symHashes: seq<Option<nat>>, name: Name, outName: Name, c: Copy)
    requires i < |inp.syms| == |st.symbolMap| && Slots(st.link) && h in st.link.hashes && !st.link.hashes[h].written
    requires outName == st.link.hashes[h].name || st.link.hashes[h].kind.Warning?
    ensures var e := st.link.hashes[h].(written := true, indx := st.link.count);
            var st1 := st.(symHashes := symHashes, pass := c.pass, skipNext := c.skipNext, link := SetEntry(st.link, h, e));
            var st' := CopyOut(inp, st1, i, name, outName, c, OfGlobal(h));
            && Kept(inp, st, st', i) && CopyFaithful(inp, st, st') && st'.symHashes == symHashes
            && st'.symbolMap[i] == st.link.count < |st'.link.owners|
            && st'.link.owners[st'.symbolMap[i]] == OfGlobal(h)
  {
    hide CopyOut, Slots;
    SlotsCount(st.link);
    var e := st.link.hashes[h].(written := true, indx := st.link.count);
    var st1 := st.(symHashes := symHashes, pass := c.pass, skipNext := c.skipNext, link := SetEntry(st.link, h, e));
    CopyOutShape(inp, st1, i, name, outName, c, OfGlobal(h));
    EmitGlobalSlots(st.link, h, e);
    IncludesSlots(SetEntry(st.link, h, e).(count := st.link.count + 1, owners := st.link.owners + [OfGlobal(h)]),
                  CopyOut(inp, st1, i, name, outName, c, OfGlobal(h)).link.includes);
  }

  // ----- a whole input -----

  ghost predicate MapHolds(inp: Input, symHashes: seq<Option<nat>>, st: Pass, n: nat)
    requires n <= |inp.syms| == |symHashes| == |st.symbolMap|
  {
    forall k :: 0 <= k < n ==> Holds(inp, symHashes, st.link.owners, k, st.symbolMap[k])
  }

  lemma {:induction false} StepsSlots(o: Options, inp: Input, symHashes: seq<Option<nat>>, st: Pass, i: nat, n: nat)
    requires i <= n <= |inp.syms| == |symHashes| && PassOk(inp, st) && Slots(st.link) && Buffered(inp, st)
    requires MapHolds(inp, symHashes, st, i)
    requires forall k :: i <= k < |symHashes| ==> st.symHashes[k] == symHashes[k]
    ensures var st' := Steps(o, inp, st, i, n);
            && Slots(st'.link) && |st'.symbolMap| == |inp.syms| && MapHolds(inp, symHashes, st', n) && Buffered(inp, st')
            && st'.link.symoff == st.link.symoff && st'.link.file == st.link.file
            && st.link.owners <= st'.link.owners
            && st'.link.count - |st'.out| == st.link.count - |st.out|
            && |st.out| <= |st'.out| <= |st.out| + n - i
    decreases n - i
  {
    hide WellLinked, StepSym, Slots, SameKinds, Buffered, CopyFaithful;
    if i < n {
      StepSlots(o, inp, st, i);
      StepOk(o, inp, st, i);
      var st1 := StepSym(o, inp, st, i);
      MapStep(inp, symHashes, st, st1, i);
      BufferedStep(inp, st, st1);
      StepsSlots(o, inp, symHashes, st1, i + 1, n);
    }
  }

  lemma MapStep(inp: Input, symHashes: seq<Option<nat>>, st: Pass, st1: Pass, i: nat)
    requires i < |inp.syms| == |symHashes| == |st.symbolMap| && Kept(inp, st, st1, i)
    requires MapHolds(inp, symHashes, st, i) && Holds(inp, symHashes, st1.link.owners, i, st1.symbolMap[i])
    ensures MapHolds(inp, symHashes, st1, i + 1)
  {
    forall k | 0 <= k < i + 1
      ensures Holds(inp, symHashes, st1.link.owners, k, st1.symbolMap[k])
    {
      if k < i {
        assert Holds(inp, symHashes, st.link.owners, k, st.symbolMap[k]);
        assert st1.symbolMap[k] == st.symbolMap[k];
      }
    }
  }

  lemma {:induction false} PutAt(file: map<nat, Nlist>, at: nat, syms: seq<Nlist>, k: nat)
    requires k < |syms|
    ensures Pos(at, k) in Put(file, at, syms) && Put(file, at, syms)[Pos(at, k)] == syms[k]
  {
    if k < |syms| - 1 {
      PutAt(file, at, syms[..|syms| - 1], k);
    }
  }

  lemma {:induction false} PutKeys(file: map<nat, Nlist>, at: nat, syms: seq<Nlist>, p: nat)
    ensures p in Put(file, at, syms) ==> p in file || InTable(at, |syms|, p)
    ensures p in file && !InTable(at, |syms|, p) ==> p in Put(file, at, syms) && Put(file, at, syms)[p] == file[p]
    ensures p in file ==> p in Put(file, at, syms)
  {
    if syms != [] {
      PutKeys(file, at, syms[..|syms| - 1], p);
    }
  }

  /** Where slot k of the table lies with respect to a block written behind the first n slots. */
  lemma PosAfter(base: nat, n: nat, k: nat, m: nat)
    ensures k >= n ==> Pos(base, k) == Pos(Pos(base, n), k - n)
    ensures InTable(Pos(base, n), m, Pos(base, k)) <==> n <= k < n + m
    ensures InTable(base, n, Pos(base, k)) <==> k < n
  {
  }

  lemma TableAfter(base: nat, n: nat, m: nat, p: nat)
    ensures InTable(Pos(base, n), m, p) || InTable(base, n, p) ==> InTable(base, n + m, p)
  {
  }

  lemma FilledPut(l: Link, base: nat, n: nat, syms: seq<Nlist>)
    requires Filled(l, base, n)
    ensures Filled(l.(file := Put(l.file, l.symoff, syms), symoff := l.symoff + NLIST_SIZE * |syms|), base, n + |syms|)
  {
    var file' := Put(l.file, l.symoff, syms);
    hide Put, InTable;
    forall k: nat | k < n + |syms|
      ensures Pos(base, k) in file'
    {
      PosAfter(base, n, k, |syms|);
      if k >= n {
        PutAt(l.file, l.symoff, syms, k - n);
      } else {
        PutKeys(l.file, l.symoff, syms, Pos(base, k));
      }
    }
    forall p | p in file'
      ensures InTable(base, n + |syms|, p)
    {
      PutKeys(l.file, l.symoff, syms, p);
      TableAfter(base, n, |syms|, p);
    }
  }

  /** What slot k reads after the block was written. */
  lemma PutReads(l: Link, base: nat, n: nat, syms: seq<Nlist>, k: nat)
    requires Filled(l, base, n) && k < n + |syms|
    ensures var file' := Put(l.file, l.symoff, syms);
            Pos(base, k) in file' && file'[Pos(base, k)] == if k < n then l.file[Pos(base, k)] else syms[k - n]
  {
    hide Put, InTable;
    PosAfter(base, n, k, |syms|);
    if k >= n {
      PutAt(l.file, l.symoff, syms, k - n);
    } else {
      PutKeys(l.file, l.symoff, syms, Pos(base, k));
    }
  }

  /**
    aout_link_write_symbols keeps the numbering, every entry of the map it leaves is a slot that
    holds the symbol, and it never fills more than one buffer slot beyond the symbol count.
   */
  lemma InputNumbered(o: Options, inp: Input, l: Link, symHashes: seq<Option<nat>>, base: nat)
    requires Numbered(l, base) && PassOk(inp, Start(o, inp, l, symHashes))
    ensures var st := WriteSymbols(o, inp, l, symHashes);
            && Numbered(st.link, base) && SameKinds(l.hashes, st.link.hashes)
            && |st.symbolMap| == |inp.syms| && MapHolds(inp, symHashes, st, |inp.syms|)
            && |st.out| <= |inp.syms| + 1
            && (forall k :: l.count <= k < st.link.count ==> ReadsBack(inp, st.link, base, k))
  {
    hide WellLinked, Slots, Filled, SameKinds, Put, Steps, AllNamed, Faithful;
    SlotsCount(l);
    var st0 := Start(o, inp, l, symHashes);
    EmitSlots(l, OfFile(inp.id));
    StartBuffered(o, inp, l, symHashes);
    StepsSlots(o, inp, symHashes, st0, 0, |inp.syms|);
    var st := Steps(o, inp, st0, 0, |inp.syms|);
    SlotsCount(st.link);
    FilledSame(l, st.link, base, l.count);
    FilledPut(st.link, base, l.count, st.out);
    SlotsFile(st.link, Put(st.link.file, st.link.symoff, st.out), st.link.symoff + NLIST_SIZE * |st.out|);
    InputReads(inp, l, st, base);
  }

  lemma StartBuffered(o: Options, inp: Input, l: Link, symHashes: seq<Option<nat>>)
    requires Slots(l)
    ensures Buffered(inp, Start(o, inp, l, symHashes))
  {
  }

  /** Slot k of the file is faithful to what it was written for. */
  predicate ReadsBack(inp: Input, l: Link, base: nat, k: nat) {
    k < |l.owners| && Pos(base, k) in l.file && Faithful(inp, l.hashes, l.owners[k], l.file[Pos(base, k)])
  }

  lemma InputReads(inp: Input, l: Link, st: Pass, base: nat)
    requires Filled(l, base, l.count) && AllNamed(l, base) && Filled(st.link, base, l.count) && Buffered(inp, st)
    requires st.link.file == l.file && l.owners <= st.link.owners && SameKinds(l.hashes, st.link.hashes)
    requires |l.owners| == l.count && |st.link.owners| == st.link.count == l.count + |st.out|
    ensures var l' := st.link.(file := Put(st.link.file, st.link.symoff, st.out),
                               symoff := st.link.symoff + NLIST_SIZE * |st.out|);
            && AllNamed(l', base)
            && (forall k :: l.count <= k < l'.count ==> ReadsBack(inp, l', base, k))
  {
    hide Put, CopiedAs, Filled;
    var l' := st.link.(file := Put(st.link.file, st.link.symoff, st.out),
                       symoff := st.link.symoff + NLIST_SIZE * |st.out|);
    forall k: nat | k < l'.count
      ensures Pos(base, k) in l'.file && Named(l'.hashes, l'.owners[k], l'.file[Pos(base, k)])
      ensures k >= l.count ==> ReadsBack(inp, l', base, k)
    {
      PutReads(st.link, base, l.count, st.out, k);
      if k >= l.count {
        assert Faithful(inp, st.link.hashes, st.link.owners[k], st.out[k - l.count]);
      } else {
        FilledHas(l, base, k);
        assert Named(l.hashes, l.owners[k], l.file[Pos(base, k)]);
      }
    }
  }

  lemma FilledHas(l: Link, base: nat, k: nat)
    requires Filled(l, base, l.count) && k < l.count
    ensures Pos(base, k) in l.file
  {
  }

  lemma FilledSame(l: Link, l': Link, base: nat, n: nat)
    requires Filled(l, base, n) && l'.symoff == l.symoff && l'.file == l.file
    ensures Filled(l', base, n)
  {
  }

  lemma SlotsFile(l: Link, file: map<nat, Nlist>, symoff: nat)
    requires Slots(l)
    ensures Slots(l.(file := file, symoff := symoff))
  {
  }

  // ----- symbols no input accounted for -----

  lemma OtherNumbered(o: Options, l: Link, h: nat, base: nat)
    requires Numbered(l, base) && h in l.hashes
    ensures var l' := WriteOther(o, l, h); Numbered(l', base) && SameKinds(l.hashes, l'.hashes)
  {
    hide Numbered, SetEntry, SameKinds, OtherNlist, WellLinked;
    KindsRefl(l.hashes);
    LinkIn(l, h, base);
    var g := if l.hashes[h].kind.Warning? then l.hashes[h].kind.link else h;
    if !l.hashes[g].written {
      HideOther(l, g, base);
      if Writable(l.hashes[g].kind) {
        EmitOther(l, g, base);
      }
    }
  }

  lemma LinkIn(l: Link, h: nat, base: nat)
    requires Numbered(l, base) && h in l.hashes
    ensures WellLinked(l.hashes)
    ensures l.hashes[h].kind.Warning? ==> l.hashes[h].kind.link in l.hashes
  {
    assert LinkOk(l.hashes, h);
  }

  lemma HideOther(l: Link, g: nat, base: nat)
    requires Numbered(l, base) && g in l.hashes && !l.hashes[g].written
    ensures var l' := SetEntry(l, g, l.hashes[g].(written := true));
            Numbered(l', base) && SameKinds(l.hashes, l'.hashes) && l.hashes[g].indx < 0
  {
    SlotsCount(l);
    hide WellLinked, Slots, Filled, SameKinds, AllNamed;
    var e := l.hashes[g].(written := true);
    SetEntryKinds(l, g, e);
    HiddenSlots(l, g, e);
    FilledSame(l, SetEntry(l, g, e), base, l.count);
    NamedSame(l, SetEntry(l, g, e), base);
  }

  /** aout_link_write_other_symbol, when it comes to writing. */
  lemma EmitOther(l: Link, g: nat, base: nat)
    requires Numbered(l, base) && g in l.hashes && l.hashes[g].indx < 0 && Writable(l.hashes[g].kind)
    ensures var e := l.hashes[g];
            var l' := SetEntry(l, g, e.(written := true, indx := l.count))
                      .(count := l.count + 1, owners := l.owners + [OfGlobal(g)],
                        file := l.file[l.symoff := OtherNlist(e)], symoff := l.symoff + NLIST_SIZE);
            Numbered(l', base) && SameKinds(l.hashes, l'.hashes)
  {
    SlotsCount(l);
    hide WellLinked, Slots, Filled, SameKinds, AllNamed;
    var e := l.hashes[g];
    var e1 := e.(written := true, indx := l.count);
    SetEntryKinds(l, g, e1);
    EmitGlobalSlots(l, g, e1);
    var l1 := SetEntry(l, g, e1).(count := l.count + 1, owners := l.owners + [OfGlobal(g)]);
    FilledSame(l, l1, base, l.count);
    PutOne(l.file, l.symoff, OtherNlist(e));
    FilledPut(l1, base, l.count, [OtherNlist(e)]);
    SlotsFile(l1, l.file[l.symoff := OtherNlist(e)], l.symoff + NLIST_SIZE);
    NamedOther(l, l1, g, base);
  }

  lemma NamedSame(l: Link, l': Link, base: nat)
    requires AllNamed(l, base) && l'.file == l.file && l'.owners == l.owners && SameKinds(l.hashes, l'.hashes)
    ensures AllNamed(l', base)
  {
    forall k: nat | k < |l'.owners| && Pos(base, k) in l'.file
      ensures Named(l'.hashes, l'.owners[k], l'.file[Pos(base, k)])
    {
      assert Named(l.hashes, l.owners[k], l.file[Pos(base, k)]);
    }
  }

  lemma NamedOther(l: Link, l1: Link, g: nat, base: nat)
    requires AllNamed(l, base) && Filled(l, base, l.count) && |l.owners| == l.count && g in l.hashes
    requires Writable(l.hashes[g].kind) && SameKinds(l.hashes, l1.hashes)
    requires l1.owners == l.owners + [OfGlobal(g)]
    ensures AllNamed(l1.(file := l.file[l.symoff := OtherNlist(l.hashes[g])], symoff := l.symoff + NLIST_SIZE), base)
  {
    var l' := l1.(file := l.file[l.symoff := OtherNlist(l.hashes[g])], symoff := l.symoff + NLIST_SIZE);
    forall k: nat | k < |l'.owners| && Pos(base, k) in l'.file
      ensures Named(l'.hashes, l'.owners[k], l'.file[Pos(base, k)])
    {
      if k < l.count {
        assert Named(l.hashes, l.owners[k], l.file[Pos(base, k)]);
      }
    }
  }

  lemma PutOne(file: map<nat, Nlist>, at: nat, sym: Nlist)
    ensures Put(file, at, [sym]) == file[at := sym]
  {
    assert [sym][..0] == [];
    assert Put(file, at, []) == file;
  }

  predicate HasSlot(l: Link, h: nat) {
    h in l.hashes && 0 <= l.hashes[h].indx < |l.owners| && l.owners[l.hashes[h].indx] == OfGlobal(h)
  }

  /** Forcing out a stripped symbol keeps the numbering and, for a real symbol, gives it a slot. */
  lemma ForceNumbered(o: Options, l: Link, h: nat, base: nat)
    requires Numbered(l, base) && h in l.hashes
    ensures var l' := Force(o, l, h);
            && Numbered(l', base) && SameKinds(l.hashes, l'.hashes)
            && (Writable(l.hashes[h].kind) ==> HasSlot(l', h))
  {
    hide WellLinked, Slots, Filled, SameKinds, AllNamed;
    KindsRefl(l.hashes);
    SlotsCount(l);
    if l.hashes[h].indx < 0 {
      var e := l.hashes[h].(indx := -2, written := false);
      var l1 := SetEntry(l, h, e);
      SetEntryKinds(l, h, e);
      HiddenSlots(l, h, e);
      FilledSame(l, l1, base, l.count);
      NamedSame(l, l1, base);
      OtherNumbered(o, l1, h, base);
      KindsTrans(l.hashes, l1.hashes, WriteOther(o, l1, h).hashes);
      SlotsCount(WriteOther(o, l1, h));
    }
  }

  lemma KindsTrans(a: map<nat, Entry>, b: map<nat, Entry>, c: map<nat, Entry>)
    requires SameKinds(a, b) && SameKinds(b, c)
    ensures SameKinds(a, c)
  {
  }

  // ----- a whole link -----

  /** What the final link does, in any order: inputs, forced symbols, and the closing traversal. */
  datatype Action =
    | LinkInput(inp: Input, symHashes: seq<Option<nat>>)
    | ForceOut(h: nat)
    | WriteRest(h: nat)

  predicate Sensible(hs: map<nat, Entry>, a: Action) {
    match a
    case LinkInput(inp, symHashes) =>
      |symHashes| == |inp.syms| && forall k :: 0 <= k < |symHashes| && symHashes[k].Some? ==> symHashes[k].value in hs
    case ForceOut(h) => h in hs
    case WriteRest(h) => h in hs
  }

  function Act(o: Options, l: Link, a: Action): (l': Link)
    requires WellLinked(l.hashes) && Sensible(l.hashes, a)
  {
    match a
    case LinkInput(inp, symHashes) => WriteSymbols(o, inp, l, symHashes).link
    case ForceOut(h) => Force(o, l, h)
    case WriteRest(h) => WriteOther(o, l, h)
  }

  lemma ActNumbered(o: Options, l: Link, a: Action, base: nat)
    requires Numbered(l, base) && Sensible(l.hashes, a)
    ensures Numbered(Act(o, l, a), base) && SameKinds(l.hashes, Act(o, l, a).hashes)
  {
    hide WellLinked, Slots, Filled, SameKinds, WriteSymbols, Force, WriteOther;
    match a
    case LinkInput(inp, symHashes) => InputNumbered(o, inp, l, symHashes, base);
    case ForceOut(h) => ForceNumbered(o, l, h, base);
    case WriteRest(h) => OtherNumbered(o, l, h, base);
  }

  lemma SensibleTail(hs: map<nat, Entry>, hs': map<nat, Entry>, actions: seq<Action>)
    requires actions != [] && SameKinds(hs, hs') && forall i :: 0 <= i < |actions| ==> Sensible(hs, actions[i])
    ensures forall i :: 0 <= i < |actions[1..]| ==> Sensible(hs', actions[1..][i])
  {
    forall i | 0 <= i < |actions[1..]|
      ensures Sensible(hs', actions[1..][i])
    {
      assert Sensible(hs, actions[i + 1]);
    }
  }

  function ActAll(o: Options, l: Link, actions: seq<Action>, base: nat): (l': Link)
    requires Numbered(l, base) && forall i :: 0 <= i < |actions| ==> Sensible(l.hashes, actions[i])
    decreases |actions|
  {
    if actions == [] then l
    else
      ActNumbered(o, l, actions[0], base);
      SensibleTail(l.hashes, Act(o, l, actions[0]).hashes, actions);
      ActAll(o, Act(o, l, actions[0]), actions[1..], base)
  }

  /** Over a whole link: positions keep step with the count and no hash entry has two slots. */
  lemma {:induction false} LinkNumbered(o: Options, l: Link, actions: seq<Action>, base: nat)
    requires Numbered(l, base) && forall i :: 0 <= i < |actions| ==> Sensible(l.hashes, actions[i])
    ensures var l' := ActAll(o, l, actions, base);
            && l'.symoff == base + NLIST_SIZE * l'.count && |l'.owners| == l'.count
            && (forall h :: h in l'.hashes && l'.hashes[h].indx >= 0 ==>
                  l'.hashes[h].indx < l'.count && l'.owners[l'.hashes[h].indx] == OfGlobal(h))
            && (forall j, k :: 0 <= j < k < l'.count && l'.owners[j].OfGlobal? ==> l'.owners[j] != l'.owners[k])
    decreases |actions|
  {
    if actions != [] {
      hide Act, WellLinked, Slots, Filled;
      ActNumbered(o, l, actions[0], base);
      SensibleTail(l.hashes, Act(o, l, actions[0]).hashes, actions);
      LinkNumbered(o, Act(o, l, actions[0]), actions[1..], base);
    } else {
      OneSlotEach(l);
    }
  }

  lemma OneSlotEach(l: Link)
    requires Slots(l)
    ensures forall j, k :: 0 <= j < k < l.count && l.owners[j].OfGlobal? ==> l.owners[j] != l.owners[k]
  {
  }

  /** The state in which a final link starts. */
  predicate Unlinked(l: Link, base: nat) {
    && WellLinked(l.hashes) && l.count == 0 && l.symoff == base && l.file == map[] && l.owners == []
    && forall h :: h in l.hashes ==> l.hashes[h].indx < 0
  }

  lemma StartNumbered(l: Link, base: nat)
    requires Unlinked(l, base)
    ensures Numbered(l, base)
  {
  }
}
