/**
  How many files the cache holds open. The limit is exceeded only for files that the cache may not
  close: after any run open_files is at most the limit, or one more than the largest number of
  files that were at some moment open and either not cacheable or pinned.
 */
module OpenBound {
  import opened Bytes
  import opened CacheModel
  import opened CacheIo
  import opened CacheTransparency
  import opened UpdateRule

  function Max(a: int, b: int): int {
    if a < b then b else a
  }

  predicate IsStuck(s: BfdState) {
    s.stream.Some? && (!s.cacheable || s.pinned)
  }

  /** The open files that close_one may not pick. */
  function Stuck<B(==)>(st: State<B>): set<B> {
    set b | b in st.bfds && IsStuck(st.bfds[b])
  }

  function Ceiling<B(==)>(st: State<B>): int {
    Max(st.openFiles, Max(st.limit, |Stuck(st)| + 1))
  }

  lemma {:induction false} SetOfDistinct<B>(s: seq<B>)
    requires Distinct(s)
    ensures |set b | b in s| == |s|
  {
    if s != [] {
      SetOfDistinct(s[1..]);
      assert (set b | b in s) == (set b | b in s[1..]) + {s[0]};
    }
  }

  /** When close_one finds nobody to close, every open file is stuck. */
  lemma NoVictim<B>(st: State<B>)
    requires Inv(st, None) && forall b :: b in st.lru ==> !st.bfds[b].cacheable
    ensures |Stuck(st)| == st.openFiles
  {
    var listed := set b | b in st.lru;
    SetOfDistinct(st.lru);
    forall b | b in st.bfds
      ensures b in Stuck(st) <==> b in listed || b in Pinned(st)
      ensures !(b in listed && b in Pinned(st))
    {
      assert Placed(st, b, None);
    }
    assert Stuck(st) == listed + Pinned(st) && listed !! Pinned(st);
  }

  predicate NoneCacheable<B(==)>(st: State<B>)
    requires Known(st)
  {
    forall b :: b in st.lru ==> !st.bfds[b].cacheable
  }

  lemma MakeRoomBound<B>(st: State<B>, loose: Option<B>)
    requires Inv(st, loose)
    ensures var st' := MakeRoom(st);
            && st'.limit == st.limit && st'.openFiles <= st.openFiles
            && (st.openFiles < st.limit || st'.openFiles < st.openFiles || NoneCacheable(st))
  {
    var v := Victim(st, |st.lru|);
    if v.Some? {
      assert st.lru[v.value] in st.lru;
      ListedOpen(st, loose);
    }
  }

  lemma ListedOpen<B>(st: State<B>, loose: Option<B>)
    requires Inv(st, loose) && st.lru != []
    ensures st.openFiles > 0
  {
  }

  lemma SameStuck<B>(st: State<B>, st': State<B>)
    requires st'.bfds.Keys == st.bfds.Keys
    requires forall b :: b in st.bfds ==> IsStuck(st'.bfds[b]) == IsStuck(st.bfds[b])
    ensures Stuck(st') == Stuck(st)
  {
  }

  /** Opening a file that was closed. */
  lemma OpenFileBound<B>(st: State<B>, b: B)
    requires Inv(st, None) && b in st.bfds && st.bfds[b].stream.None?
    ensures var st' := OpenFile(st, b).0; Inv(st', None) && st'.limit == st.limit && st'.openFiles <= Ceiling(st)
  {
    hide Inv, Known, MakeRoom, Stuck;
    PlacedPinned(st, b);
    OpenFileInv(st, b);
    var s0 := Set(st, b, st.bfds[b].(cacheable := true));
    SetInv(st, b, s0.bfds[b], None);
    MakeRoomBound(s0, None);
    CloseOneInv(s0, None);
    if NoneCacheable(s0) {
      CacheableClosed(st, b);
    }
    var s1 := MakeRoom(s0);
    PlacedPinned(s0, b);
    MakeRoomStream(s0, b);
    OpenedInv(s1, b);
    var s2 := Opened(s1, b);
    MakeRoomBound(s2, if s2.bfds[b].stream.None? then None else Some(b));
  }

  lemma CacheableClosed<B>(st: State<B>, b: B)
    requires Inv(st, None) && b in st.bfds && st.bfds[b].stream.None? && b !in st.lru
    requires Known(st) && NoneCacheable(Set(st, b, st.bfds[b].(cacheable := true)))
    ensures |Stuck(st)| == st.openFiles
  {
    forall x | x in st.lru
      ensures !st.bfds[x].cacheable
    {
      assert !Set(st, b, st.bfds[b].(cacheable := true)).bfds[x].cacheable;
    }
    NoVictim(st);
  }

  lemma LookupBound<B>(st: State<B>, b: B, flag: CacheFlag)
    requires Inv(st, None) && b in st.bfds
    ensures var (st', ok) := Lookup(st, b, flag);
            && Inv(st', None) && st'.limit == st.limit && st'.openFiles <= Ceiling(st)
            && (ok <==> st'.bfds[b].stream.Some?)
            && (st.bfds[b].stream.Some? ==> st'.openFiles == st.openFiles && st'.bfds[b].stream.Some?)
  {
    hide Inv, Known, OpenFile, Stuck;
    LookupInv(st, b, flag);
    if st.bfds[b].stream.None? && flag != CacheNoOpen {
      OpenFileBound(st, b);
    }
  }

  lemma SetLastIoCeiling<B>(st: State<B>, b: B, lastIo: LastIo)
    requires Known(st) && b in st.bfds
    ensures Ceiling(SetLastIo(st, b, lastIo)) == Ceiling(st)
  {
    SameStuck(st, SetLastIo(st, b, lastIo));
  }

  lemma RealSeekBound<B>(st: State<B>, b: B, p: int, whence: Whence)
    requires Known(st) && Inv(st, None) && b in st.bfds
    ensures var (st', ok) := RealSeek(st, b, p, whence);
            && Inv(st', None) && st'.limit == st.limit && st'.openFiles <= Ceiling(st)
            && (ok ==> st'.bfds[b].stream.Some?)
            && (st.bfds[b].stream.Some? ==> st'.openFiles == st.openFiles)
  {
    hide Inv, Known, Lookup, Stuck;
    RealSeekInv(st, b, p, whence);
    SetLastIoInv(st, b, IoSeek);
    SetLastIoCeiling(st, b, IoSeek);
    LookupBound(SetLastIo(st, b, IoSeek), b, if whence == SeekCur then CacheNormal else CacheNoSeek);
  }

  lemma TurnAroundBound<B>(st: State<B>, b: B, from: LastIo)
    requires Known(st) && Inv(st, None) && b in st.bfds && st.bfds[b].hasIovec
    ensures var (st', ok) := TurnAround(st, b, from);
            && Inv(st', None) && st'.limit == st.limit && st'.openFiles <= Ceiling(st)
            && (ok ==> st' == st || st'.bfds[b].stream.Some?)
  {
    hide Inv, Known, RealSeek, Stuck;
    if st.bfds[b].lastIo == from {
      SetLastIoInv(st, b, IoForce);
      SetLastIoCeiling(st, b, IoForce);
      RealSeekBound(SetLastIo(st, b, IoForce), b, 0, SeekCur);
    }
  }

  lemma TransferInv<B>(st: State<B>, b: B, pos: nat, prior: Prior, clash: Prior)
    requires Known(st) && Inv(st, None) && b in st.bfds
    ensures var st' := Transfer(st, b, pos, prior, clash);
            Inv(st', None) && st'.openFiles == st.openFiles && st'.limit == st.limit && st'.disk == st.disk
  {
    hide Inv, Known;
    var noted := if ForUpdate(st.bfds[b]) then prior else Positioned;
    SetStreamInv(st, b, pos, noted);
    DiskInv(SetStream(st, b, pos, noted), st.disk, st.misused || LastDid(st, b, clash));
  }

  lemma CacheReadBound<B>(st: State<B>, b: B, n: nat)
    requires Known(st) && Inv(st, None) && b in st.bfds
    ensures var st' := CacheRead(st, b, n).0;
            && Inv(st', None) && st'.limit == st.limit && st'.openFiles <= Ceiling(st)
            && (st.bfds[b].stream.Some? ==> st'.openFiles == st.openFiles)
  {
    hide Inv, Known, Lookup, Transfer, FileRead, Stuck;
    LookupBound(st, b, CacheNormal);
    var st1 := Lookup(st, b, CacheNormal).0;
    var data := FileRead(Content(st1, b), Ftell(st1.bfds[b]), n);
    TransferInv(st1, b, Ftell(st1.bfds[b]) + |data|, AfterRead(n, data), DidWrite);
  }

  lemma CacheWriteBound<B>(st: State<B>, b: B, data: seq<byte>)
    requires Known(st) && Inv(st, None) && b in st.bfds
    ensures var st' := CacheWrite(st, b, data).0;
            && Inv(st', None) && st'.limit == st.limit && st'.openFiles <= Ceiling(st)
            && (st.bfds[b].stream.Some? ==> st'.openFiles == st.openFiles)
  {
    hide Inv, Known, Lookup, Transfer, FileWrite, WritesAt, Stuck;
    LookupBound(st, b, CacheNormal);
    var st1 := Lookup(st, b, CacheNormal).0;
    var at := WritesAt(st1, b);
    TransferInv(st1, b, at + |data|, DidWrite, DidRead);
    var t := Transfer(st1, b, at + |data|, DidWrite, DidRead);
    DiskInv(t, st1.disk[st1.bfds[b].name := FileWrite(Content(st1, b), at, data)], false);
  }

  lemma ReadBound<B>(st: State<B>, h: Handle<B>, n: nat)
    requires Known(st) && Inv(st, None) && h.root in st.bfds
    ensures var st' := BfdRead(st, h, n).0; Inv(st', None) && st'.limit == st.limit && st'.openFiles <= Ceiling(st)
  {
    hide Inv, Known, TurnAround, CacheRead, Stuck;
    var b := h.root;
    var size := Clip(st.bfds[b].where, h.offset, h.window, n);
    if size.Some? && st.bfds[b].hasIovec {
      TurnAroundBound(st, b, IoWrite);
      var (st1, ok) := TurnAround(st, b, IoWrite);
      if ok {
        SetLastIoInv(st1, b, IoRead);
        SetLastIoCeiling(st1, b, IoRead);
        var st2 := SetLastIo(st1, b, IoRead);
        CacheReadBound(st2, b, size.value);
        var (st3, got) := CacheRead(st2, b, size.value);
        if got.Some? {
          SetWhereInv(st3, b, st3.bfds[b].where + |got.value|);
        }
      }
    }
  }

  lemma WriteBound<B>(st: State<B>, h: Handle<B>, data: seq<byte>)
    requires Known(st) && Inv(st, None) && h.root in st.bfds
    ensures var st' := BfdWrite(st, h, data).0; Inv(st', None) && st'.limit == st.limit && st'.openFiles <= Ceiling(st)
  {
    hide Inv, Known, TurnAround, CacheWrite, Stuck;
    var b := h.root;
    if st.bfds[b].hasIovec {
      TurnAroundBound(st, b, IoRead);
      var (st1, ok) := TurnAround(st, b, IoRead);
      if ok {
        SetLastIoInv(st1, b, IoWrite);
        SetLastIoCeiling(st1, b, IoWrite);
        var st2 := SetLastIo(st1, b, IoWrite);
        CacheWriteBound(st2, b, data);
        var (st3, wrote) := CacheWrite(st2, b, data);
        if wrote.Some? {
          SetWhereInv(st3, b, st3.bfds[b].where + wrote.value);
        }
      }
    }
  }

  lemma AdoptBound<B>(st: State<B>, b: B, mode: FopenMode)
    requires Known(st) && Inv(st, None) && b in st.bfds && !st.bfds[b].hasIovec
    ensures var st' := BfdFopen(st, b, mode).0; Inv(st', None) && st'.limit == st.limit && st'.openFiles <= Ceiling(st)
  {
    hide Inv, Known, MakeRoom, Stuck;
    PlacedStream(st, b);
    var (disk, f) := Fopen(st.disk, st.bfds[b].name, mode);
    if f.Some? {
      StreamedInv(st, b, mode, f.value, disk);
      var s1 := Set(st, b, st.bfds[b].(stream := f, direction := DirectionOf(mode))).(disk := disk);
      MakeRoomBound(s1, Some(b));
      CloseOneInv(s1, Some(b));
      RegisterInv(MakeRoom(s1), b);
      if NoneCacheable(s1) {
        StreamedStuck(st, b, s1);
      }
      var s2 := CacheInit(s1, b);
      SetInv(s2, b, s2.bfds[b].(openedOnce := true, cacheable := true), None);
    }
  }

  lemma StreamedStuck<B>(st: State<B>, b: B, s1: State<B>)
    requires Inv(st, None) && b in st.bfds && b !in st.lru && Known(s1)
    requires s1.lru == st.lru && NoneCacheable(s1)
    requires forall x :: x in st.bfds && x != b ==> x in s1.bfds && s1.bfds[x] == st.bfds[x]
    ensures |Stuck(st)| == st.openFiles
  {
    NoVictim(st);
  }

  lemma {:induction false} CloseAllBound<B>(st: State<B>)
    requires Known(st) && Inv(st, None)
    ensures var st' := CacheCloseAll(st); Inv(st', None) && st'.openFiles <= st.openFiles && st'.limit == st.limit
    decreases |st.lru|
  {
    hide Inv, Known, CacheClose;
    if st.lru != [] {
      CloseAllStep(st);
      CloseBound(st, st.lru[0]);
      CloseAllBound(CacheClose(st, st.lru[0]));
    }
  }

  lemma CloseBound<B>(st: State<B>, b: B)
    requires Known(st) && Inv(st, None) && b in st.bfds && !st.bfds[b].pinned
    ensures var st' := CacheClose(st, b); Inv(st', None) && st'.openFiles <= st.openFiles && st'.limit == st.limit
  {
    hide Inv, Known;
    InvAt(st, None, b);
    if st.bfds[b].hasIovec && st.bfds[b].stream.Some? {
      DeleteInv(st, b, None);
    }
  }

  lemma UncloseableBound<B>(st: State<B>, b: B, value: bool)
    requires Known(st) && Inv(st, None) && b in st.bfds
    ensures var st' := CacheSetUncloseable(st, b, value).0;
            Inv(st', None) && st'.limit == st.limit && st'.openFiles <= Ceiling(st)
  {
    hide Inv, Known, Lookup, Stuck, Without;
    if value != st.bfds[b].pinned && st.bfds[b].hasIovec {
      if value {
        LookupBound(st, b, CacheNormal);
        LookupStream(st, b, CacheNormal, b);
        PinInv(Lookup(st, b, CacheNormal).0, b);
      } else {
        UnpinInv(st, b);
      }
    }
  }

  lemma StepBound<B>(st: State<B>, op: Op<B>)
    requires Known(st) && Inv(st, None) && Enabled(st, op)
    ensures var st' := Step(st, op).0; Inv(st', None) && st'.limit == st.limit && st'.openFiles <= Ceiling(st)
  {
    hide Inv, Known, OpenFile, BfdFopen, BfdRead, BfdWrite, RealSeek, Lookup, CacheClose, CacheCloseAll,
         CacheSetUncloseable, Stuck;
    match op
    case Open(b) => PlacedStream(st, b); OpenFileBound(st, b);
    case Adopt(b, mode) => AdoptBound(st, b, mode);
    case Read(h, n) => ReadBound(st, h, n);
    case Write(h, data) => WriteBound(st, h, data);
    case Seek(h, position, whence) =>
      RealSeekBound(st, h.root, if whence == SeekCur then position else position + h.offset, whence);
    case Tell(h) =>
      LookupBound(st, h.root, CacheNoOpen);
      SetWhereInv(Lookup(st, h.root, CacheNoOpen).0, h.root, CacheTell(st, h.root).1);
    case Stat(h) => LookupBound(st, h.root, CacheNoSeekError);
    case Flush(h) =>
      LookupBound(st, h.root, CacheNoOpen);
      var st1 := Lookup(st, h.root, CacheNoOpen).0;
      SetStreamInv(st1, h.root, Ftell(st1.bfds[h.root]), Positioned);
    case Close(b) => CloseBound(st, b);
    case CloseAll => CloseAllBound(st);
    case SetUncloseable(b, value) => UncloseableBound(st, b, value);
    case SetCacheable(b, value) => SetInv(st, b, st.bfds[b].(cacheable := value), None);
  }

  /** The largest number of stuck files in any state of the run but the last. */
  function Peak<B(==)>(st: State<B>, ops: seq<Op<B>>): nat
    requires Known(st) && Subjects(st.bfds.Keys, ops)
    decreases |ops|
  {
    if ops == [] then 0 else Max(|Stuck(st)|, Peak(Step(st, ops[0]).0, ops[1..]))
  }

  lemma {:induction false} RunBound<B>(st: State<B>, ops: seq<Op<B>>)
    requires Known(st) && Inv(st, None) && Subjects(st.bfds.Keys, ops) && Legal(st, ops)
    ensures var st' := Run(st, ops).0;
            && Inv(st', None) && st'.limit == st.limit
            && st'.openFiles <= Max(st.openFiles, Max(st.limit, Peak(st, ops) + 1))
    decreases |ops|
  {
    hide Inv, Known, Step, Stuck;
    if ops != [] {
      StepBound(st, ops[0]);
      RunBound(Step(st, ops[0]).0, ops[1..]);
    }
  }

  /** With no file ever stuck, a limit that holds is never exceeded. */
  lemma LimitHolds<B>(st: State<B>, ops: seq<Op<B>>)
    requires Known(st) && Inv(st, None) && Subjects(st.bfds.Keys, ops) && Legal(st, ops)
    requires st.openFiles <= st.limit && Peak(st, ops) == 0
    ensures Run(st, ops).0.openFiles <= st.limit
  {
    hide Run, Known, Legal, Peak;
    RunBound(st, ops);
  }

  // ----- runs from the start -----

  /** Nothing has been opened yet. */
  ghost predicate Untouched<B>(st: State<B>) {
    && st.lru == [] && st.openFiles == 0 && st.limit > 0 && !st.misused
    && forall b :: b in st.bfds ==>
         st.bfds[b].stream.None? && !st.bfds[b].pinned && !st.bfds[b].hasIovec && st.bfds[b].where == 0
  }

  lemma StartGood<B>(st: State<B>)
    requires Untouched(st)
    ensures Known(st) && Good(st) && AllRuled(st)
  {
    assert Pinned(st) == {};
  }

  /** All that is kept over a run, for runs from the start. */
  lemma FromTheStart<B>(st: State<B>, ops: seq<Op<B>>)
    requires Untouched(st) && Known(st) && Subjects(st.bfds.Keys, ops) && Legal(st, ops)
    ensures NothingLost(st, ops) <==> Faithful(st, ops)
    ensures NoDirtyFailure(st, ops) <==> RuleKept(st, ops)
    ensures Run(st, ops).0.openFiles <= Max(st.limit, Peak(st, ops) + 1)
  {
    hide Run, Known, Legal, Peak, Inv, AllRuled, NothingLost, NoDirtyFailure, RuleKept, Faithful;
    StartGood(st);
    TransparentExactly(st, ops);
    RuleExactly(st, ops);
    RunBound(st, ops);
  }
}
