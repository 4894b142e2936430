/**
  The ARC offset table as it is built: a list of entries for every symbol, searched from its head and
  extended at its end, with sizes that grow and marks that are set in place. Proved against the model
  in which all entries stand in one sequence.
 */
module ArcGot {
  import opened Bytes
  import opened ArcGotModel

  /** The entries of one symbol, in order. */
  function Filter(es: seq<Entry>, sym: Sym): seq<Entry> {
    if es == [] then []
    else Filter(es[..|es| - 1], sym) + if es[|es| - 1].sym == sym then [es[|es| - 1]] else []
  }

  /** Where in its symbol's list entry i stands. */
  function Rank(es: seq<Entry>, i: nat): nat
    requires i < |es|
  {
    |Filter(es[..i], es[i].sym)|
  }

  lemma FilterLast(es: seq<Entry>, sym: Sym)
    requires es != []
    ensures Filter(es, sym) == Filter(es[..|es| - 1], sym) + if es[|es| - 1].sym == sym then [es[|es| - 1]] else []
  {
  }

  lemma {:induction false} FilterTypes(es: seq<Entry>, sym: Sym, t: GotType)
    ensures Find(es, sym, t).None? <==> forall k :: 0 <= k < |Filter(es, sym)| ==> Filter(es, sym)[k].typ != t
  {
    if es != [] {
      var es0 := es[..|es| - 1];
      FilterTypes(es0, sym, t);
      FilterLast(es, sym);
      assert forall k :: 0 <= k < |Filter(es0, sym)| ==> Filter(es, sym)[k] == Filter(es0, sym)[k];
      if es[|es| - 1].sym == sym {
        assert Filter(es, sym)[|Filter(es0, sym)|] == es[|es| - 1];
      }
    }
  }

  /** The first entry of a type in a symbol's list is the one found among all. */
  lemma {:induction false} FilterFind(es: seq<Entry>, sym: Sym, t: GotType)
    requires Find(es, sym, t).Some?
    ensures var i := Find(es, sym, t).value;
            var k := Rank(es, i);
            && k < |Filter(es, sym)| && Filter(es, sym)[k] == es[i]
            && forall l :: 0 <= l < k ==> Filter(es, sym)[l].typ != t
  {
    hide Filter;
    var es0 := es[..|es| - 1];
    var i := Find(es, sym, t).value;
    assert es[..i] == es0[..i];
    FilterLast(es, sym);
    var f, f0 := Filter(es, sym), Filter(es0, sym);
    if Find(es0, sym, t).Some? {
      FilterFind(es0, sym, t);
      assert Rank(es, i) == Rank(es0, i);
    } else {
      FilterTypes(es0, sym, t);
      assert i == |es| - 1 && Rank(es, i) == |f0|;
    }
    forall l | 0 <= l < Rank(es, i)
      ensures f[l].typ != t
    {
      assert f[l] == f0[l];
    }
  }

  /** Changing an entry in place changes it in its symbol's list and in no other. */
  lemma {:induction false} FilterUpdate(es: seq<Entry>, i: nat, e: Entry, sym: Sym)
    requires i < |es| && e.sym == es[i].sym
    ensures Rank(es, i) < |Filter(es, es[i].sym)|
    ensures Filter(es[i := e], sym) == if sym == e.sym then Filter(es, sym)[Rank(es, i) := e] else Filter(es, sym)
    decreases |es|
  {
    hide Filter;
    var last := |es| - 1;
    var es0 := es[..last];
    FilterLast(es, sym);
    FilterLast(es, e.sym);
    FilterLast(es[i := e], sym);
    if i < last {
      FilterUpdate(es0, i, e, sym);
      assert es[i := e][..last] == es0[i := e];
      assert es[..i] == es0[..i];
    } else {
      assert es[i := e][..last] == es0;
    }
  }

  datatype Record = Record(pos: nat, kind: DynKind, dynIndx: nat, addend: nat)

  function RecordOf(d: DynReloc): Record {
    Record(d.pos, d.kind, d.dynIndx, d.addend)
  }

  /** The records written for dynamic relocs. */
  function Records(ds: seq<DynReloc>): (rs: seq<Record>)
    ensures |rs| == |ds| && forall k :: 0 <= k < |ds| ==> rs[k] == RecordOf(ds[k])
  {
    seq(|ds|, k requires 0 <= k < |ds| => RecordOf(ds[k]))
  }

  class Table {
    const pic: bool
    var lists: map<Sym, seq<Entry>>
    var gotSize: nat
    var relCount: nat
    /** The words of the table that were written, and the dynamic relocs written out. */
    var contents: map<nat, nat>
    var records: seq<Record>
    ghost var g: Got

    function ListOf(sym: Sym): seq<Entry>
      reads this
    {
      if sym in lists then lists[sym] else []
    }

    ghost predicate Valid()
      reads this
    {
      && gotSize == g.size && relCount == g.rel && contents == g.words && records == Records(g.dyn)
      && forall sym :: ListOf(sym) == Filter(g.entries, sym)
    }

    constructor (base: nat, pic: bool)
      ensures Valid() && this.pic == pic && g == EmptyGot(base)
    {
      this.pic, lists, gotSize, relCount, contents, records, g := pic, map[], base, 0, map[], [], EmptyGot(base);
    }

    /** got_entry_for_type; the result is a place in the symbol's list. */
    method EntryForType(sym: Sym, t: GotType) returns (r: Option<nat>)
      requires Valid()
      ensures r.Some? <==> Find(g.entries, sym, t).Some?
      ensures r.Some? ==> r.value < |ListOf(sym)| && r.value == Rank(g.entries, Find(g.entries, sym, t).value)
                          && ListOf(sym)[r.value] == g.entries[Find(g.entries, sym, t).value]
    {
      hide Rank, Find, Filter;
      ghost var found := Find(g.entries, sym, t);
      FilterTypes(g.entries, sym, t);
      if found.Some? {
        FilterFind(g.entries, sym, t);
      }
      var list := ListOf(sym);
      assert list == Filter(g.entries, sym);
      assert found.None? ==> forall k :: 0 <= k < |list| ==> list[k].typ != t;
      var p := 0;
      while p < |list|
        invariant 0 <= p <= |list| && forall l :: 0 <= l < p ==> list[l].typ != t
      {
        if list[p].typ == t {
          return Some(p);
        }
        p := p + 1;
      }
      r := None;
    }

    /** new_got_entry_to_list */
    method NewEntry(sym: Sym, t: GotType, offset: nat, existing: Existing)
      requires Valid()
      modifies this`lists, this`g
      ensures Valid()
      ensures g == if Find(old(g.entries), sym, t).Some? then old(g)
                   else old(g).(entries := old(g.entries) + [Entry(sym, t, offset, false, false, existing)])
    {
      hide Rank, Find, Filter;
      var found := EntryForType(sym, t);
      if found.Some? {
        return;
      }
      var e := Entry(sym, t, offset, false, false, existing);
      lists := lists[sym := ListOf(sym) + [e]];
      g := g.(entries := g.entries + [e]);
      forall s
        ensures ListOf(s) == Filter(g.entries, s)
      {
        FilterMore(old(g.entries), e, s);
        assert old(ListOf(s)) == Filter(old(g.entries), s);
      }
    }

    /** ADD_SYMBOL_REF_SEC_AND_RELOC; offset is where the word goes. */
    method AddSymbolRef(condForReloc: bool, sym: Sym, recorded: bool) returns (offset: nat, ok: bool)
      requires Valid()
      modifies this`gotSize, this`relCount, this`g
      ensures offset == old(gotSize) && ok == (sym.Global? ==> recorded)
      ensures relCount == old(relCount) + (if condForReloc then 1 else 0) && gotSize == old(gotSize) + if ok then 4 else 0
      ensures Valid() && g == old(g).(rel := relCount, size := gotSize)
    {
      offset := gotSize;
      if condForReloc {
        relCount := relCount + 1;
      }
      ok := sym.Global? ==> recorded;
      if ok {
        gotSize := gotSize + 4;
      }
      g := g.(rel := relCount, size := gotSize);
    }

    /** arc_fill_got_info_for_reloc */
    method FillGotInfo(sym: Sym, t: GotType, first: bool, second: bool) returns (ok: bool)
      requires Valid()
      modifies this`lists, this`gotSize, this`relCount, this`g
      ensures Valid() && (g, ok) == Request(old(g), pic, sym, t, first, second)
    {
      hide Valid, Find;
      var found := EntryForType(sym, t);
      if found.Some? {
        return true;
      }
      Sizes();
      var offset, notNeeded;
      match t {
        case Normal =>
          offset, ok := AddSymbolRef(pic || sym.Global?, sym, first);
          if !ok {
            return;
          }
          NewEntry(sym, t, offset, NoEntries);
        case TlsGd =>
          offset, ok := AddSymbolRef(true, sym, first);
          if !ok {
            return;
          }
          notNeeded, ok := AddSymbolRef(true, sym, second);
          if !ok {
            return;
          }
          NewEntry(sym, t, offset, ModAndOff);
        case TlsIe =>
          offset, ok := AddSymbolRef(true, sym, first);
          if !ok {
            return;
          }
          NewEntry(sym, t, offset, OffOnly);
        case TlsLe =>
          offset, ok := AddSymbolRef(true, sym, first);
          if !ok {
            return;
          }
          NewEntry(sym, t, offset, OffOnly);
        case Unknown => ok := false;
      }
    }

    lemma Sizes()
      requires Valid()
      ensures gotSize == g.size && relCount == g.rel
    {
    }

    /** relocate_fix_got_relocs_for_got_info for a symbol that has an entry of the type. */
    method FixGot(sym: Sym, t: GotType, resolved: bool, tlsResolved: bool, weak: bool, to: Resolution) returns (offset: nat)
      requires Valid() && (t != Unknown && t != TlsLe ==> Find(g.entries, sym, t).Some?)
      modifies this`lists, this`contents, this`g
      ensures Valid()
      ensures if t == Unknown || t == TlsLe then g == old(g) && offset == 0
              else
                var i := Find(old(g.entries), sym, t).value;
                g == Patch(old(g), i, resolved, tlsResolved, weak, to) && offset == old(g.entries)[i].offset
    {
      hide Rank, Find, Filter;
      if t == Unknown || t == TlsLe {
        return 0;
      }
      ghost var i := Find(g.entries, sym, t).value;
      var found := EntryForType(sym, t);
      var p := found.value;
      var entry := ListOf(sym)[p];
      if resolved && !entry.processed {
        var at := entry.offset + if entry.existing == ModAndOff then 4 else 0;
        match entry.typ {
          case TlsGd =>
            if tlsResolved {
              contents := contents[at := (to.value - to.section) % 0x1_0000_0000];
            }
          case TlsIe => contents := contents[at := (to.value - to.section + to.bias) % 0x1_0000_0000];
          case Normal =>
            if !weak {
              contents := contents[at := (to.value + to.section) % 0x1_0000_0000];
            }
          case _ =>
        }
        lists := lists[sym := ListOf(sym)[p := entry.(processed := true)]];
        g := Patch(g, i, resolved, tlsResolved, weak, to);
        forall s
          ensures Filter(g.entries, s) == ListOf(s)
        {
          FilterUpdate(old(g.entries), i, entry.(processed := true), s);
          assert old(ListOf(s)) == Filter(old(g.entries), s);
        }
      }
      offset := entry.offset;
    }

    /** The dynamic relocs written for an entry. */
    method NewRecords(list: Entry, symbolic: bool, dynIndx: int, defRegular: bool, ghost i: nat) returns (rs: seq<Record>)
      ensures rs == Records(RelocsFor(list, i, contents, pic, symbolic, dynIndx, defRegular))
    {
      var global := list.sym.Global?;
      var index := if global && dynIndx >= 0 then dynIndx else 0;
      rs := [];
      if list.typ == Normal {
        if pic && global && (symbolic || dynIndx == -1) && defRegular {
          rs := [Record(list.offset, Relative, 0, 0)];
        } else if global && dynIndx != -1 {
          rs := [Record(list.offset, GlobDat, index, 0)];
        }
      } else {
        var kind := if list.typ == TlsIe then TpOff else DtpOff;
        var addend := if list.typ == TlsIe then WordAt(contents, list.offset) else 0;
        if list.existing == ModAndOff {
          rs := [Record(list.offset, DtpMod, index, 0), Record(list.offset + 4, kind, index, addend)];
        } else if list.existing == OffOnly {
          rs := [Record(list.offset, kind, index, addend)];
        }
      }
    }

    /** create_got_dynrelocs_for_single_entry for the entry of a type, if there is one. */
    method CreateDynRelocs(sym: Sym, t: GotType, symbolic: bool, dynIndx: int, defRegular: bool)
      requires Valid()
      modifies this`lists, this`records, this`g
      ensures Valid()
      ensures var found := Find(old(g.entries), sym, t);
              g == if found.None? then old(g) else Emit(old(g), found.value, pic, symbolic, dynIndx, defRegular)
    {
      hide Rank, RelocsFor, Find;
      var found := EntryForType(sym, t);
      if found.None? {
        return;
      }
      ghost var i := Find(g.entries, sym, t).value;
      var list := ListOf(sym)[found.value];
      if list.created || (list.typ != Normal && list.existing == NoEntries) {
        return;
      }
      var rs := NewRecords(list, symbolic, dynIndx, defRegular, i);
      RecordsJoin(g.dyn, RelocsFor(list, i, contents, pic, symbolic, dynIndx, defRegular));
      records := records + rs;
      lists := lists[sym := ListOf(sym)[found.value := list.(created := true)]];
      g := Emit(g, i, pic, symbolic, dynIndx, defRegular);
      forall s
        ensures Filter(g.entries, s) == ListOf(s)
      {
        FilterUpdate(old(g.entries), i, list.(created := true), s);
        assert old(ListOf(s)) == Filter(old(g.entries), s);
      }
    }
  }

  lemma FilterMore(es: seq<Entry>, e: Entry, sym: Sym)
    ensures Filter(es + [e], sym) == Filter(es, sym) + if e.sym == sym then [e] else []
  {
    assert (es + [e])[..|es|] == es;
  }

  lemma RecordsJoin(a: seq<DynReloc>, b: seq<DynReloc>)
    ensures Records(a + b) == Records(a) + Records(b)
  {
  }
}
