/**
  The list of a file's sections (bfd-in2.h): forward and backward links, of which a removed section
  keeps its own. The test for a removed section rests on nothing in the list pointing back at it.
 */
module SectionList {

  class Section {
    var next: Section?
    var prev: Section?

    constructor ()
      ensures next == null && prev == null
    {
      next, prev := null, null;
    }
  }

  /** The links of some sections at some moment. */
  datatype Links = Links(next: map<Section, Section?>, prev: map<Section, Section?>)

  /** A list was in order: its links are those of the sequence, and nothing points back at a section not in it. */
  predicate Was(list: seq<Section>, known: set<Section>, x: Links) {
    && Distinct(list) && (forall s :: s in list ==> s in known)
    && (forall t :: t in known ==> t in x.next && t in x.prev)
    && (forall i {:trigger list[i]} :: 0 <= i < |list| ==> x.next[list[i]] == At(list, i + 1) && x.prev[list[i]] == At(list, i - 1))
    && forall t :: t in known && t !in list ==> x.next[t] != null ==> x.next[t] in known && x.prev[x.next[t]] != t
  }

  /** The element at i of the list, or null outside it. */
  function At(list: seq<Section>, i: int): Section? {
    if 0 <= i < |list| then list[i] else null
  }

  predicate Distinct(list: seq<Section>) {
    forall i, j :: 0 <= i < j < |list| ==> list[i] != list[j]
  }

  class Sections {
    var sections: Section?
    var sectionLast: Section?
    /** The sections in the list, in order. */
    ghost var list: seq<Section>
    /** The sections ever made for this file. */
    ghost var known: set<Section>

    ghost predicate Linked(s: seq<Section>)
      reads s
    {
      forall i {:trigger s[i]} :: 0 <= i < |s| ==> s[i].next == At(s, i + 1) && s[i].prev == At(s, i - 1)
    }

    /** Nothing points back at a section that is not in the list and has a next one. */
    ghost predicate Stale(s: Section)
      requires s in known
      reads this, known
    {
      s.next != null ==> s.next in known && s.next.prev != s
    }

    ghost predicate Valid()
      reads this, known
    {
      && Distinct(list) && (forall s :: s in list ==> s in known)
      && sections == At(list, 0) && sectionLast == At(list, |list| - 1)
      && Linked(list)
      && forall s :: s in known && s !in list ==> Stale(s)
    }

    constructor ()
      ensures Valid() && list == [] && known == {}
    {
      sections, sectionLast, list, known := null, null, [], {};
    }

    /** A section that was just made is known, and not in the list. */
    ghost method Adopt(s: Section)
      requires Valid() && s !in known && s.next == null
      modifies this`known
      ensures Valid() && known == old(known) + {s}
    {
      known := known + {s};
    }

    /** bfd_section_removed_from_list: whatever has been done so far, the test is exact. */
    predicate RemovedFromList(s: Section)
      requires Valid() && s in known
      reads this, known
      ensures RemovedFromList(s) <==> s !in list
    {
      InListAt(s);
      if s.next != null then s.next.prev != s else sectionLast != s
    }

    lemma InListAt(s: Section)
      requires Valid() && s in known
      ensures s in list ==> (s.next != null ==> s.next in known && s.next.prev == s) && (s.next == null ==> sectionLast == s)
      ensures s.next != null ==> s.next in known
      ensures s !in list ==> (s.next != null ==> s.next.prev != s) && sectionLast != s
    {
      if s in list {
        var i :| 0 <= i < |list| && list[i] == s;
        if i + 1 < |list| {
          assert list[i + 1].prev == At(list, i);
        }
      }
    }

    lemma Neighbours(i: nat)
      requires Valid() && i < |list|
      ensures list[i].next == At(list, i + 1) && list[i].prev == At(list, i - 1) && list[i] in known
      ensures At(list, i + 1) != null ==> At(list, i + 1) in known
      ensures At(list, i - 1) != null ==> At(list, i - 1) in known
      ensures At(list, i) == list[i]
    {
    }

    /** The links as they are. */
    ghost function Snapshot(): (x: Links)
      reads this, known
      ensures forall t :: t in known ==> t in x.next && t in x.prev && x.next[t] == t.next && x.prev[t] == t.prev
    {
      Links(map t | t in known :: t.next, map t | t in known :: t.prev)
    }

    lemma WasValid()
      requires Valid()
      ensures Was(list, known, Snapshot())
    {
    }

    /** Only these links differ from x: next of p and prev of n, and those of s if it is put in. */
    ghost predicate Relinked(x: Links, p: Section?, n: Section?, pNext: Section?, nPrev: Section?,
                             s: Section?, sNext: Section?, sPrev: Section?)
      requires forall t :: t in known ==> t in x.next && t in x.prev
      reads this, known
    {
      forall t :: t in known ==>
        && t.next == (if t == s then sNext else if t == p then pNext else x.next[t])
        && t.prev == (if t == s then sPrev else if t == n then nPrev else x.prev[t])
    }

    lemma RelinkedAt(x: Links, p: Section?, n: Section?, pNext: Section?, nPrev: Section?,
                     s: Section?, sNext: Section?, sPrev: Section?, t: Section)
      requires forall t :: t in known ==> t in x.next && t in x.prev
      requires Relinked(x, p, n, pNext, nPrev, s, sNext, sPrev) && t in known
      ensures t.next == (if t == s then sNext else if t == p then pNext else x.next[t])
      ensures t.prev == (if t == s then sPrev else if t == n then nPrev else x.prev[t])
    {
    }

    lemma Assemble()
      requires Distinct(list) && (forall s :: s in list ==> s in known)
      requires sections == At(list, 0) && sectionLast == At(list, |list| - 1)
      requires forall i {:trigger list[i]} :: 0 <= i < |list| ==> list[i].next == At(list, i + 1) && list[i].prev == At(list, i - 1)
      requires forall s :: s in known && s !in list ==> Stale(s)
      ensures Valid()
    {
    }

    /** Putting s in before what was element i keeps everything. */
    lemma PutIn(was: seq<Section>, x: Links, s: Section, i: nat)
      requires Was(was, known, x) && s in known && i <= |was| && s !in was && forall t :: t in known ==> t in x.next && t in x.prev
      requires list == was[..i] + [s] + was[i..]
      requires Relinked(x, At(was, i - 1), At(was, i), s, s, s, At(was, i), At(was, i - 1))
      requires sections == At(list, 0) && sectionLast == At(list, |list| - 1)
      ensures Valid()
    {
      hide Was, Relinked, Valid, At, Distinct, Stale;
      WasDistinct(was, known, x);
      SplitIn(was, i, s);
      forall t | t in list
        ensures t in known
      {
        WasKnown(was, known, x, s, t);
      }
      forall k | 0 <= k < |list|
        ensures list[k].next == At(list, k + 1) && list[k].prev == At(list, k - 1)
      {
        PutInAt(was, x, s, i, k);
      }
      forall t | t in known && t !in list
        ensures Stale(t)
      {
        PutInStale(was, x, s, i, t);
      }
      Assemble();
    }

    lemma PutInAt(was: seq<Section>, x: Links, s: Section, i: nat, k: nat)
      requires Was(was, known, x) && s in known && i <= |was| && s !in was && forall t :: t in known ==> t in x.next && t in x.prev
      requires list == was[..i] + [s] + was[i..] && k < |list|
      requires Relinked(x, At(was, i - 1), At(was, i), s, s, s, At(was, i), At(was, i - 1))
      ensures list[k] in known && list[k].next == At(list, k + 1) && list[k].prev == At(list, k - 1)
    {
      hide Was, Relinked, At, Distinct;
      PutIndex(was, i, s, k);
      if k == i {
        RelinkedAt(x, At(was, i - 1), At(was, i), s, s, s, At(was, i), At(was, i - 1), s);
      } else {
        var j := if k < i then k else k - 1;
        WasAt(was, known, x, j);
        RelinkedAt(x, At(was, i - 1), At(was, i), s, s, s, At(was, i), At(was, i - 1), was[j]);
        DistinctAt(was, j, i - 1);
        DistinctAt(was, j, i);
      }
    }

    lemma PutInStale(was: seq<Section>, x: Links, s: Section, i: nat, t: Section)
      requires Was(was, known, x) && s in known && i <= |was| && forall t :: t in known ==> t in x.next && t in x.prev
      requires t in known && t !in was && t != s
      requires Relinked(x, At(was, i - 1), At(was, i), s, s, s, At(was, i), At(was, i - 1))
      ensures Stale(t)
    {
      hide Was, Relinked, At;
      WasStale(was, known, x, t);
      InSeq(was, i - 1);
      InSeq(was, i);
      RelinkedAt(x, At(was, i - 1), At(was, i), s, s, s, At(was, i), At(was, i - 1), t);
      if x.next[t] != null {
        RelinkedAt(x, At(was, i - 1), At(was, i), s, s, s, At(was, i), At(was, i - 1), x.next[t]);
      }
    }

    /** Taking element i out keeps everything. */
    lemma TakeOut(was: seq<Section>, x: Links, i: nat)
      requires Was(was, known, x) && i < |was| && forall t :: t in known ==> t in x.next && t in x.prev
      requires list == was[..i] + was[i + 1..]
      requires Relinked(x, At(was, i - 1), At(was, i + 1), At(was, i + 1), At(was, i - 1), null, null, null)
      requires sections == At(list, 0) && sectionLast == At(list, |list| - 1)
      ensures Valid()
    {
      hide Was, Relinked, Valid, At, Distinct, Stale;
      WasDistinct(was, known, x);
      CutOut(was, i);
      forall t | t in list
        ensures t in known
      {
        WasAt(was, known, x, i);
        WasKnown(was, known, x, was[i], t);
      }
      forall k | 0 <= k < |list|
        ensures list[k].next == At(list, k + 1) && list[k].prev == At(list, k - 1)
      {
        TakeOutAt(was, x, i, k);
      }
      forall t | t in known && t !in list
        ensures Stale(t)
      {
        TakeOutStale(was, x, i, t);
      }
      Assemble();
    }

    lemma TakeOutAt(was: seq<Section>, x: Links, i: nat, k: nat)
      requires Was(was, known, x) && i < |was| && forall t :: t in known ==> t in x.next && t in x.prev
      requires list == was[..i] + was[i + 1..] && k < |list|
      requires Relinked(x, At(was, i - 1), At(was, i + 1), At(was, i + 1), At(was, i - 1), null, null, null)
      ensures list[k] in known && list[k].next == At(list, k + 1) && list[k].prev == At(list, k - 1)
    {
      hide Was, Relinked, At, Distinct;
      CutIndex(was, i, k);
      var j := if k < i then k else k + 1;
      WasAt(was, known, x, j);
      RelinkedAt(x, At(was, i - 1), At(was, i + 1), At(was, i + 1), At(was, i - 1), null, null, null, was[j]);
      DistinctAt(was, j, i - 1);
      DistinctAt(was, j, i + 1);
    }

    lemma TakeOutStale(was: seq<Section>, x: Links, i: nat, t: Section)
      requires Was(was, known, x) && i < |was| && forall t :: t in known ==> t in x.next && t in x.prev
      requires t in known && (t !in was || t == was[i])
      requires Relinked(x, At(was, i - 1), At(was, i + 1), At(was, i + 1), At(was, i - 1), null, null, null)
      ensures Stale(t)
    {
      hide Was, Relinked, Distinct;
      InSeq(was, i - 1);
      InSeq(was, i + 1);
      RelinkedAt(x, At(was, i - 1), At(was, i + 1), At(was, i + 1), At(was, i - 1), null, null, null, t);
      WasAt(was, known, x, i);
      DistinctAt(was, i, i - 1);
      DistinctAt(was, i, i + 1);
      if t == was[i] {
        if i + 1 < |was| {
          WasAt(was, known, x, i + 1);
          RelinkedAt(x, At(was, i - 1), At(was, i + 1), At(was, i + 1), At(was, i - 1), null, null, null, was[i + 1]);
        }
      } else {
        WasStale(was, known, x, t);
        if x.next[t] != null {
          RelinkedAt(x, At(was, i - 1), At(was, i + 1), At(was, i + 1), At(was, i - 1), null, null, null, x.next[t]);
        }
      }
    }

    lemma Ends()
      requires Valid()
      ensures sections == At(list, 0) && sectionLast == At(list, |list| - 1) && Distinct(list)
      ensures (sections != null ==> sections in known) && (sectionLast != null ==> sectionLast in known)
    {
    }

    /** bfd_section_list_remove */
    method Remove(s: Section, ghost i: nat)
      requires Valid() && i < |list| && list[i] == s
      modifies this`sections, this`sectionLast, this`list, known
      ensures Valid() && known == old(known) && list == old(list)[..i] + old(list)[i + 1..]
      ensures s.next == old(s.next) && s.prev == old(s.prev)
    {
      hide Distinct, Was, Valid, Linked, Stale, At;
      Ends();
      ghost var was, x := list, Snapshot();
      WasValid();
      CutEnds(was, i);
      Neighbours(i);
      DistinctAround(list, i);
      var next := s.next;
      var prev := s.prev;
      if prev != null {
        prev.next := next;
      } else {
        sections := next;
      }
      if next != null {
        next.prev := prev;
      } else {
        sectionLast := prev;
      }
      list := list[..i] + list[i + 1..];
      TakeOut(was, x, i);
    }

    /** bfd_section_list_append */
    method Append(s: Section)
      requires Valid() && s in known && s !in list
      modifies this`sections, this`sectionLast, this`list, known
      ensures Valid() && known == old(known) && list == old(list) + [s]
    {
      hide Distinct, Was, Valid, Linked, Stale, At;
      Ends();
      ghost var was, x := list, Snapshot();
      WasValid();
      PutEnds(was, |list|, s);
      ghost var n := |list|;
      if n > 0 {
        Neighbours(n - 1);
      }
      s.next := null;
      if sectionLast != null {
        s.prev := sectionLast;
        sectionLast.next := s;
      } else {
        s.prev := null;
        sections := s;
      }
      sectionLast := s;
      list := list + [s];
      assert list == old(list)[..n] + [s] + old(list)[n..];
      PutIn(was, x, s, n);
    }

    /** bfd_section_list_prepend */
    method Prepend(s: Section)
      requires Valid() && s in known && s !in list
      modifies this`sections, this`sectionLast, this`list, known
      ensures Valid() && known == old(known) && list == [s] + old(list)
    {
      hide Distinct, Was, Valid, Linked, Stale, At;
      Ends();
      ghost var was, x := list, Snapshot();
      WasValid();
      PutEnds(was, 0, s);
      if |list| > 0 {
        Neighbours(0);
      }
      s.prev := null;
      if sections != null {
        s.next := sections;
        sections.prev := s;
      } else {
        s.next := null;
        sectionLast := s;
      }
      sections := s;
      list := [s] + list;
      assert list == old(list)[..0] + [s] + old(list)[0..];
      PutIn(was, x, s, 0);
    }

    /** bfd_section_list_insert_after */
    method InsertAfter(a: Section, s: Section, ghost i: nat)
      requires Valid() && s in known && s !in list && i < |list| && list[i] == a
      modifies this`sections, this`sectionLast, this`list, known
      ensures Valid() && known == old(known) && list == old(list)[..i + 1] + [s] + old(list)[i + 1..]
    {
      hide Distinct, Was, Valid, Linked, Stale, At;
      Ends();
      ghost var was, x := list, Snapshot();
      WasValid();
      PutEnds(was, i + 1, s);
      InSeq(was, i + 1);
      Neighbours(i);
      DistinctAround(list, i);
      var next := a.next;
      s.next := next;
      s.prev := a;
      a.next := s;
      if next != null {
        next.prev := s;
      } else {
        sectionLast := s;
      }
      list := list[..i + 1] + [s] + list[i + 1..];
      assert next == At(was, i + 1) && a == At(was, i + 1 - 1);
      PutIn(was, x, s, i + 1);
    }

    /** bfd_section_list_insert_before */
    method InsertBefore(b: Section, s: Section, ghost i: nat)
      requires Valid() && s in known && s !in list && i < |list| && list[i] == b
      modifies this`sections, this`sectionLast, this`list, known
      ensures Valid() && known == old(known) && list == old(list)[..i] + [s] + old(list)[i..]
    {
      hide Distinct, Was, Valid, Linked, Stale, At;
      Ends();
      ghost var was, x := list, Snapshot();
      WasValid();
      PutEnds(was, i, s);
      InSeq(was, i - 1);
      Neighbours(i);
      DistinctAround(list, i);
      var prev := b.prev;
      s.prev := prev;
      s.next := b;
      b.prev := s;
      if prev != null {
        prev.next := s;
      } else {
        sections := s;
      }
      list := list[..i] + [s] + list[i..];
      PutIn(was, x, s, i);
    }
  }

  lemma WasDistinct(was: seq<Section>, known: set<Section>, x: Links)
    requires Was(was, known, x)
    ensures Distinct(was)
  {
  }

  lemma WasKnown(was: seq<Section>, known: set<Section>, x: Links, s: Section, t: Section)
    requires Was(was, known, x) && s in known && (t in was || t == s)
    ensures t in known
  {
  }

  lemma WasAt(was: seq<Section>, known: set<Section>, x: Links, j: nat)
    requires Was(was, known, x) && j < |was|
    ensures Distinct(was) && was[j] in known && was[j] in was && was[j] in x.next && was[j] in x.prev
    ensures x.next[was[j]] == At(was, j + 1) && x.prev[was[j]] == At(was, j - 1)
  {
  }

  lemma WasStale(was: seq<Section>, known: set<Section>, x: Links, t: Section)
    requires Was(was, known, x) && t in known && t !in was
    ensures t in x.next && (x.next[t] != null ==> x.next[t] in known && x.next[t] in x.prev && x.prev[x.next[t]] != t)
  {
  }

  lemma PutEnds(was: seq<Section>, i: nat, s: Section)
    requires i <= |was|
    ensures var list := was[..i] + [s] + was[i..];
            && At(list, 0) == (if i == 0 then s else At(was, 0))
            && At(list, |list| - 1) == (if i == |was| then s else At(was, |was| - 1))
    ensures At(was, i - 1) == null <==> i == 0
    ensures At(was, i) == null <==> i == |was|
  {
  }

  lemma CutEnds(was: seq<Section>, i: nat)
    requires i < |was|
    ensures var list := was[..i] + was[i + 1..];
            && At(list, 0) == (if i == 0 then At(was, 1) else At(was, 0))
            && At(list, |list| - 1) == (if i == |was| - 1 then At(was, i - 1) else At(was, |was| - 1))
    ensures At(was, i - 1) == null <==> i == 0
    ensures At(was, i + 1) == null <==> i == |was| - 1
  {
  }

  lemma PutIndex(was: seq<Section>, i: nat, s: Section, k: nat)
    requires i <= |was| && k <= |was|
    ensures var list := was[..i] + [s] + was[i..];
            && list[k] == (if k < i then was[k] else if k == i then s else was[k - 1])
            && At(list, k + 1) == (if k + 1 < i then At(was, k + 1) else if k + 1 == i then s else At(was, k))
            && At(list, k - 1) == (if k - 1 < i then At(was, k - 1) else if k - 1 == i then s else At(was, k - 2))
  {
  }

  lemma CutIndex(was: seq<Section>, i: nat, k: nat)
    requires i < |was| && k < |was| - 1
    ensures var list := was[..i] + was[i + 1..];
            && list[k] == (if k < i then was[k] else was[k + 1])
            && At(list, k + 1) == (if k + 1 < i then At(was, k + 1) else At(was, k + 2))
            && At(list, k - 1) == (if k - 1 < i then At(was, k - 1) else At(was, k))
  {
  }

  lemma DistinctAt(list: seq<Section>, j: nat, i: int)
    requires Distinct(list) && j < |list|
    ensures list[j] == At(list, i) <==> i == j
  {
  }

  lemma DistinctAround(list: seq<Section>, i: nat)
    requires Distinct(list) && i < |list|
    ensures At(list, i - 1) != list[i] && At(list, i + 1) != list[i]
    ensures At(list, i - 1) != null ==> At(list, i - 1) != At(list, i + 1)
  {
  }

  lemma InSeq(list: seq<Section>, i: int)
    ensures At(list, i) != null ==> At(list, i) in list
  {
  }

  /** Positions in a list without its element i. */
  lemma CutOut(was: seq<Section>, i: nat)
    requires i < |was| && Distinct(was)
    ensures var list := was[..i] + was[i + 1..];
            && Distinct(list) && was[i] !in list
            && (forall k :: 0 <= k < |list| ==> list[k] == was[if k < i then k else k + 1])
            && (forall s :: s in was ==> s == was[i] || s in list) && (forall s :: s in list ==> s in was)
  {
    var list := was[..i] + was[i + 1..];
    forall s | s in was
      ensures s == was[i] || s in list
    {
      var k :| 0 <= k < |was| && was[k] == s;
      assert k < i ==> list[k] == s;
      assert k > i ==> list[k - 1] == s;
    }
  }

  /** Positions in a list with s put in before element i. */
  lemma SplitIn(was: seq<Section>, i: nat, s: Section)
    requires i <= |was| && Distinct(was) && s !in was
    ensures var list := was[..i] + [s] + was[i..];
            && Distinct(list)
            && (forall k :: 0 <= k < |list| ==> list[k] == if k < i then was[k] else if k == i then s else was[k - 1])
            && (forall t :: t in list <==> t in was || t == s)
  {
    var list := was[..i] + [s] + was[i..];
    forall t | t in was
      ensures t in list
    {
      var k :| 0 <= k < |was| && was[k] == t;
      assert list[if k < i then k else k + 1] == t;
    }
  }
}
