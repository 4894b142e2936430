/**
  What an archive element can read. bfd_read clips a request to the element's own window, and to
  no other: an element of an element stays inside the outer one exactly when its window does.
 */
module ElementWindow {
  import opened Bytes
  import opened CacheModel
  import opened CacheIo
  import opened CacheTransparency

  /** The bytes from lo to hi of the file behind a handle. */
  predicate FileHolds(disk: Disk, name: string, lo: nat, hi: nat) {
    name in disk && lo <= hi <= |disk[name]|
  }

  /** Rewinding an element and reading it gives exactly its bytes, whatever the cache did before. */
  lemma ElementContents<B>(st: State<B>, h: Handle<B>, n: nat)
    requires Known(st) && Good(st) && h.root in st.bfds && st.bfds[h.root].hasIovec
    requires h.window.Some? && 0 < h.window.value <= n
    requires FileHolds(st.disk, st.bfds[h.root].name, h.offset, h.offset + h.window.value)
    ensures Run(st, [Seek(h, 0, SeekSet), Read(h, n)]).1
            == [Done, Data(st.disk[st.bfds[h.root].name][h.offset..h.offset + h.window.value])]
  {
    hide Good, Known, Step, PlainSeek, PlainRead, ViewBfd;
    var first: Op<B> := Seek(h, 0, SeekSet);
    var second: Op<B> := Read(h, n);
    StepTransparent(st, first);
    var st1 := Step(st, first).0;
    StepTransparent(st1, second);
    ViewAt(st, h.root);
    ViewAt(st1, h.root);
    WindowRead(st.bfds[h.root], st.disk, h.offset, h.window.value, n);
    RunPair(st, first, second);
  }

  lemma WindowRead(b: BfdState, disk: Disk, offset: nat, window: nat, n: nat)
    requires b.hasIovec && FileHolds(disk, b.name, offset, offset + window) && 0 < window <= n
    ensures ViewBfd(b).name == b.name
    ensures var (s, disk', r) := PlainSeek(ViewBfd(b), disk, offset, 0, SeekSet);
            && r == Done && disk' == disk
            && PlainRead(s, disk, offset, Some(window), n).2 == Data(disk[b.name][offset..offset + window])
  {
  }

  /** And no read of an element gives a byte from outside its window, wherever the stream stands. */
  lemma ReadStaysInside<B>(st: State<B>, h: Handle<B>, n: nat)
    requires Known(st) && Good(st) && h.root in st.bfds && h.window.Some?
    ensures var s := st.bfds[h.root];
            match BfdRead(st, h, n).1
            case Data(d) =>
              && h.offset <= s.where && s.where + |d| <= h.offset + h.window.value
              && (d != [] ==> FileHolds(st.disk, s.name, s.where, s.where + |d|)
                              && d == st.disk[s.name][s.where..s.where + |d|])
            case _ => true
  {
    hide Known, BfdRead, Inv;
    assert Fit(st.bfds[h.root], false);
    ReadAt(st, h, n, h.root);
  }

  // ----- elements of elements -----

  /** An element of an archive: where its bytes start in those around it, and the size its header announces. */
  datatype Level = Level(origin: nat, size: nat)

  /** Where the bytes of element i of a chain of elements, the outermost first, start in the file. */
  function StartOf(chain: seq<Level>, i: nat): nat
    requires i < |chain|
  {
    chain[i].origin + if i == 0 then 0 else StartOf(chain, i - 1)
  }

  function EndOf(chain: seq<Level>, i: nat): nat
    requires i < |chain|
  {
    StartOf(chain, i) + chain[i].size
  }

  /** The innermost element as bfd_read sees it. */
  function Innermost<B>(root: B, chain: seq<Level>): Handle<B>
    requires chain != []
  {
    Handle(root, StartOf(chain, |chain| - 1), Some(chain[|chain| - 1].size))
  }

  /** The answer to a read of n bytes after a seek to p. */
  function ReadAfterSeek<B(==)>(st: State<B>, h: Handle<B>, p: nat, n: nat): Result
    requires Known(st) && h.root in st.bfds
  {
    Run(st, [Seek(h, p, SeekSet), Read(h, n)]).1[1]
  }

  /** The bytes d from position at on lie inside every element of the chain. */
  predicate Within(chain: seq<Level>, at: nat, d: seq<byte>) {
    forall i :: 0 <= i < |chain| ==> StartOf(chain, i) <= at && at + |d| <= EndOf(chain, i)
  }

  predicate ReadWithin<B(==)>(st: State<B>, root: B, chain: seq<Level>, p: nat, n: nat)
    requires Known(st) && root in st.bfds && chain != []
  {
    match ReadAfterSeek(st, Innermost(root, chain), p, n)
    case Data(d) => d != [] ==> Within(chain, Innermost(root, chain).offset + p, d)
    case _ => true
  }

  /** No seek and read of the innermost element gives a byte from outside any element around it. */
  ghost predicate StaysWithin<B>(st: State<B>, root: B, chain: seq<Level>)
    requires Known(st) && root in st.bfds && chain != []
  {
    forall p: nat, n: nat :: ReadWithin(st, root, chain, p, n)
  }

  lemma {:induction false} StartsGrow(chain: seq<Level>, i: nat, j: nat)
    requires i <= j < |chain|
    ensures StartOf(chain, i) <= StartOf(chain, j)
  {
    if i < j {
      StartsGrow(chain, i, j - 1);
    }
  }

  /** Two operations that lose nothing, one after the other. */
  lemma SeekThenRead<B>(st: State<B>, h: Handle<B>, p: nat, n: nat)
    requires Known(st) && Good(st) && h.root in st.bfds && h.window.Some?
    ensures match ReadAfterSeek(st, h, p, n)
            case Data(d) => d != [] ==> h.offset + p + |d| <= h.offset + h.window.value
            case _ => true
  {
    hide Good, Known, Step;
    var first: Op<B> := Seek(h, p, SeekSet);
    var second: Op<B> := Read(h, n);
    StepTransparent(st, first);
    var st1 := Step(st, first).0;
    StepTransparent(st1, second);
    ViewAt(st, h.root);
    ViewAt(st1, h.root);
    RunPair(st, first, second);
    NotInited(st, h.root);
  }

  lemma NotInited<B>(st: State<B>, b: B)
    requires Good(st) && b in st.bfds
    ensures st.bfds[b].hasIovec || ViewBfd(st.bfds[b]).pos == 0
  {
    assert Fit(st.bfds[b], false);
  }

  lemma RunPair<B>(st: State<B>, a: Op<B>, b: Op<B>)
    requires Known(st) && Subject(st.bfds.Keys, a) && Subject(st.bfds.Keys, b)
    ensures Run(st, [a, b]).1 == [Step(st, a).1, Step(Step(st, a).0, b).1]
  {
    hide Known, Step;
    var st1 := Step(st, a).0;
    assert [a, b][1..] == [b] && [b][1..] == [];
    assert Run(st1, [b]).1 == [Step(st1, b).1];
    assert Run(st, [a, b]).1 == [Step(st, a).1] + [Step(st1, b).1];
  }

  /**
    bfd_read enforces the window of the innermost element and no other, at any depth: its reads stay
    inside all elements around it if and only if it ends where they end or before.
   */
  lemma NestedExactly<B>(st: State<B>, root: B, chain: seq<Level>)
    requires Known(st) && Good(st) && root in st.bfds && st.bfds[root].hasIovec && chain != []
    requires var h := Innermost(root, chain);
             h.window.value > 0 && FileHolds(st.disk, st.bfds[root].name, h.offset, h.offset + h.window.value)
    ensures StaysWithin(st, root, chain)
            <==> forall i :: 0 <= i < |chain| ==> EndOf(chain, |chain| - 1) <= EndOf(chain, i)
  {
    hide Good, Known, ReadAfterSeek;
    var h := Innermost(root, chain);
    if forall i :: 0 <= i < |chain| ==> EndOf(chain, |chain| - 1) <= EndOf(chain, i) {
      forall p: nat, n: nat
        ensures ReadWithin(st, root, chain, p, n)
      {
        SeekThenRead(st, h, p, n);
        InnermostWithin(chain, p, ReadAfterSeek(st, h, p, n));
      }
    } else {
      WholeRead(st, root, chain);
      assert !ReadWithin(st, root, chain, 0, h.window.value);
    }
  }

  lemma InnermostWithin(chain: seq<Level>, p: nat, r: Result)
    requires chain != [] && forall i :: 0 <= i < |chain| ==> EndOf(chain, |chain| - 1) <= EndOf(chain, i)
    ensures r.Data? && p + |r.bytes| <= chain[|chain| - 1].size ==> Within(chain, StartOf(chain, |chain| - 1) + p, r.bytes)
  {
    forall i | 0 <= i < |chain|
      ensures StartOf(chain, i) <= StartOf(chain, |chain| - 1)
    {
      StartsGrow(chain, i, |chain| - 1);
    }
  }

  lemma WholeRead<B>(st: State<B>, root: B, chain: seq<Level>)
    requires Known(st) && Good(st) && root in st.bfds && st.bfds[root].hasIovec && chain != []
    requires var h := Innermost(root, chain);
             h.window.value > 0 && FileHolds(st.disk, st.bfds[root].name, h.offset, h.offset + h.window.value)
    ensures var h := Innermost(root, chain);
            var r := ReadAfterSeek(st, h, 0, h.window.value);
            r.Data? && |r.bytes| == h.window.value
  {
    hide Good, Known, Run;
    var h := Innermost(root, chain);
    ElementContents(st, h, h.window.value);
  }
}
