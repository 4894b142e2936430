/**
  The update-mode rule of fopen: on a stream opened for reading and writing, input never directly
  follows output without a flush or a positioning call between, nor output input without a
  positioning call, unless the input met the end of the file. bfdio.c skips redundant seeks and still
  keeps the rule in every run but those in which a real seek fails on a stream that has just
  transferred data.
 */
module UpdateRule {
  import opened Bytes
  import opened CacheModel
  import opened CacheIo
  import opened CacheTransparency

  /** last_io knows of every transfer that the stream has made since it was last positioned. */
  predicate Ruled(s: BfdState) {
    s.stream.Some? ==>
      && (s.stream.value.prior == DidRead ==> s.lastIo == IoRead)
      && (s.stream.value.prior == DidWrite ==> s.lastIo == IoWrite)
      && (s.stream.value.prior != Positioned ==> ForUpdate(s))
  }

  ghost predicate AllRuled<B>(st: State<B>) {
    forall b :: b in st.bfds ==> Ruled(st.bfds[b])
  }

  /**
    The guard of the branch that breaks the rule: fseek fails on a stream for update that has just
    written, or read without meeting the end.
   */
  predicate SeekFailsDirty<B(==)>(st: State<B>, op: Op<B>)
    requires Subject(st.bfds.Keys, op)
  {
    match op
    case Seek(h, position, whence) =>
      var s := st.bfds[h.root];
      var p := if whence == SeekCur then position else position + h.offset;
      && s.hasIovec && s.stream.Some? && s.stream.value.prior != Positioned
      && !Redundant(s, p, whence)
      && (if whence == SeekCur then Ftell(s) + p < 0 else p < 0)
    case _ => false
  }

  /** What a cache operation does to the stream of x: nothing, close it, or open it afresh. */
  predicate Restreamed(s: BfdState, s': BfdState) {
    && s'.lastIo == s.lastIo && s'.pinned == s.pinned
    && (s'.stream == s.stream || s'.stream.None? || (s.stream.None? && s'.stream.value.prior == Positioned))
  }

  lemma MakeRoomStream<B>(st: State<B>, x: B)
    requires Known(st) && x in st.bfds
    ensures MakeRoom(st).bfds[x].lastIo == st.bfds[x].lastIo && MakeRoom(st).bfds[x].pinned == st.bfds[x].pinned
    ensures MakeRoom(st).misused == st.misused && MakeRoom(st).disk == st.disk
    ensures MakeRoom(st).bfds[x].stream == st.bfds[x].stream || MakeRoom(st).bfds[x].stream.None?
    ensures x !in st.lru ==> MakeRoom(st).bfds[x] == st.bfds[x]
  {
    hide Known, Without;
  }

  lemma OpenFileStream<B>(st: State<B>, b: B, x: B)
    requires Inv(st, None) && b in st.bfds && st.bfds[b].stream.None? && x in st.bfds
    ensures var (st', ok) := OpenFile(st, b);
            && Restreamed(st.bfds[x], st'.bfds[x]) && st'.misused == st.misused
            && (st.bfds[b].hasIovec ==> ok)
  {
    hide Inv, Known, MakeRoom, CacheInit, Opened, Without, Victim;
    var s0 := Set(st, b, st.bfds[b].(cacheable := true));
    SetInv(st, b, s0.bfds[b], None);
    PlacedPinned(s0, b);
    HasName(st, b);
    MakeRoomStream(s0, x);
    MakeRoomStream(s0, b);
    CloseOneInv(s0, None);
    PlacedPinned(MakeRoom(s0), b);
    OpenedStream(MakeRoom(s0), b, x);
    OpenedStream(MakeRoom(s0), b, b);
    JoinStream(Opened(MakeRoom(s0), b), b, x);
  }

  lemma OpenedStream<B>(st: State<B>, b: B, x: B)
    requires Known(st) && b in st.bfds && x in st.bfds
    ensures var st' := Opened(st, b);
            && st'.lru == st.lru && st'.misused == st.misused
            && st'.bfds[x].lastIo == st.bfds[x].lastIo && st'.bfds[x].pinned == st.bfds[x].pinned
            && (x != b ==> st'.bfds[x].stream == st.bfds[x].stream)
            && (st'.bfds[b].stream.Some? ==> st'.bfds[b].stream.value.prior == Positioned)
            && (st'.bfds[b].stream.None? ==> OpenByDirection(st.disk, st.bfds[b]).1.None?)
  {
    hide Known;
  }

  lemma JoinStream<B>(st: State<B>, b: B, x: B)
    requires Known(st) && b in st.bfds && x in st.bfds && b !in st.lru
    ensures var s := st.bfds[x];
            var s' := CacheInit(st, b).bfds[x];
            && s'.lastIo == s.lastIo && s'.pinned == s.pinned && CacheInit(st, b).misused == st.misused
            && (x == b ==> s'.stream == s.stream)
            && (x != b ==> s'.stream == s.stream || s'.stream.None?)
  {
    hide Known, MakeRoom;
    MakeRoomStream(st, x);
    MakeRoomStream(st, b);
  }

  lemma HasName<B>(st: State<B>, b: B)
    requires Inv(st, None) && b in st.bfds
    ensures st.bfds[b].hasIovec ==> st.bfds[b].name in st.disk
  {
    assert Placed(st, b, None);
  }

  lemma LookupStream<B>(st: State<B>, b: B, flag: CacheFlag, x: B)
    requires Inv(st, None) && b in st.bfds && x in st.bfds
    ensures var (st', ok) := Lookup(st, b, flag);
            && Inv(st', None) && (ok <==> st'.bfds[b].stream.Some?)
            && Restreamed(st.bfds[x], st'.bfds[x]) && st'.misused == st.misused
            && (st.bfds[b].stream.Some? ==> st'.bfds[b] == st.bfds[b])
            && (st.bfds[b].hasIovec && flag != CacheNoOpen ==> ok)
  {
    hide Inv, Known, OpenFile;
    LookupInv(st, b, flag);
    PlacedPinned(st, b);
    if st.bfds[b].stream.None? && flag != CacheNoOpen {
      OpenFileStream(st, b, x);
      OpenFileStream(st, b, b);
    }
  }

  lemma PinnedStays<B>(st: State<B>, b: B, flag: CacheFlag)
    requires Inv(st, None) && b in st.bfds
    ensures Lookup(st, b, flag).0.bfds[b].pinned == st.bfds[b].pinned
  {
    hide Inv, Known, Lookup;
    LookupStream(st, b, flag, b);
  }

  lemma PlacedPinned<B>(st: State<B>, b: B)
    requires Inv(st, None) && b in st.bfds
    ensures Known(st) && (st.bfds[b].stream.None? ==> !st.bfds[b].pinned && b !in st.lru)
  {
    assert Placed(st, b, None);
  }

  lemma SetWhereInv<B>(st: State<B>, b: B, where: nat)
    requires Inv(st, None) && b in st.bfds && Known(st)
    ensures Inv(SetWhere(st, b, where), None)
  {
    hide Inv, Known;
    SetInv(st, b, st.bfds[b].(where := where), None);
  }

  lemma SetLastIoInv<B>(st: State<B>, b: B, lastIo: LastIo)
    requires Inv(st, None) && b in st.bfds && Known(st)
    ensures Inv(SetLastIo(st, b, lastIo), None)
  {
    hide Inv, Known;
    SetInv(st, b, st.bfds[b].(lastIo := lastIo), None);
  }

  lemma SetStreamInv<B>(st: State<B>, b: B, pos: nat, prior: Prior)
    requires Inv(st, None) && b in st.bfds && Known(st)
    ensures Inv(SetStream(st, b, pos, prior), None)
  {
    hide Inv, Known;
    if st.bfds[b].stream.Some? {
      SetInv(st, b, SetStream(st, b, pos, prior).bfds[b], None);
    }
  }

  lemma RealSeekInv<B>(st: State<B>, b: B, p: int, whence: Whence)
    requires Known(st) && Inv(st, None) && b in st.bfds
    ensures Inv(RealSeek(st, b, p, whence).0, None)
  {
    hide Inv, Known, Lookup, SetStream, SetWhere, SetLastIo;
    SetLastIoInv(st, b, IoSeek);
    var st0 := SetLastIo(st, b, IoSeek);
    var flag := if whence == SeekCur then CacheNormal else CacheNoSeek;
    LookupInv(st0, b, flag);
    var (st1, ok) := Lookup(st0, b, flag);
    var target := if whence == SeekCur then Ftell(st1.bfds[b]) + p else p;
    if target >= 0 {
      SetStreamInv(st1, b, target, Positioned);
      var st2 := SetStream(st1, b, target, Positioned);
      SetWhereInv(st2, b, AsOffset(if whence == SeekCur then st2.bfds[b].where + p else p));
    }
  }

  lemma CacheSeekRule<B>(st: State<B>, b: B, p: int, whence: Whence, x: B)
    requires Known(st) && Inv(st, None) && b in st.bfds && x in st.bfds
    ensures var (st', ok) := CacheSeek(st, b, p, whence);
            && st'.misused == st.misused && st'.bfds[x].lastIo == st.bfds[x].lastIo
            && (x != b && Ruled(st.bfds[x]) ==> Ruled(st'.bfds[x]))
            && (ok ==> LastDid(st', b, Positioned))
            && (st.bfds[b].stream.Some? ==>
                  (ok <==> (if whence == SeekCur then Ftell(st.bfds[b]) + p >= 0 else p >= 0))
                  && (!ok ==> st'.bfds[b] == st.bfds[b]))
            && (!ok && st.bfds[b].stream.None? ==> st'.bfds[b].stream.None? || LastDid(st', b, Positioned))
  {
    hide Inv, Known, Lookup;
    LookupStream(st, b, if whence == SeekCur then CacheNormal else CacheNoSeek, x);
    LookupStream(st, b, if whence == SeekCur then CacheNormal else CacheNoSeek, b);
  }

  lemma RealSeekOther<B>(st: State<B>, b: B, p: int, whence: Whence, x: B)
    requires Known(st) && Inv(st, None) && b in st.bfds && x in st.bfds
    requires x != b && Ruled(st.bfds[x])
    ensures Ruled(RealSeek(st, b, p, whence).0.bfds[x])
  {
    hide Inv, Known, CacheSeek;
    SetLastIoInv(st, b, IoSeek);
    CacheSeekRule(SetLastIo(st, b, IoSeek), b, p, whence, x);
  }

  /** A real seek positions the stream; a failed one leaves an open stream where it was. */
  lemma RealSeekRule<B>(st: State<B>, b: B, p: int, whence: Whence)
    requires Known(st) && Inv(st, None) && b in st.bfds
    ensures var (st', ok) := RealSeek(st, b, p, whence);
            && st'.misused == st.misused && st'.bfds[b].lastIo == IoSeek
            && (ok ==> LastDid(st', b, Positioned))
            && (st.bfds[b].stream.Some? ==>
                  (ok <==> (if whence == SeekCur then Ftell(st.bfds[b]) + p >= 0 else p >= 0))
                  && (!ok ==> st'.bfds[b] == st.bfds[b].(lastIo := IoSeek)))
            && (!ok && st.bfds[b].stream.None? ==> st'.bfds[b].stream.None? || LastDid(st', b, Positioned))
  {
    hide Inv, Known, CacheSeek;
    SetLastIoInv(st, b, IoSeek);
    CacheSeekRule(SetLastIo(st, b, IoSeek), b, p, whence, b);
  }

  lemma TurnAroundRule<B>(st: State<B>, b: B, from: LastIo, x: B)
    requires Known(st) && Inv(st, None) && b in st.bfds && st.bfds[b].hasIovec && x in st.bfds
    requires Ruled(st.bfds[b]) && Ruled(st.bfds[x])
    ensures var (st', ok) := TurnAround(st, b, from);
            && Inv(st', None) && st'.misused == st.misused && Ruled(st'.bfds[x])
            && (from == IoWrite ==> !LastDid(st', b, DidWrite))
            && (from == IoRead ==> !LastDid(st', b, DidRead))
  {
    hide Inv, Known, RealSeek;
    if st.bfds[b].lastIo == from {
      SetLastIoInv(st, b, IoForce);
      RealSeekInv(SetLastIo(st, b, IoForce), b, 0, SeekCur);
      RealSeekRule(SetLastIo(st, b, IoForce), b, 0, SeekCur);
      if x != b {
        RealSeekOther(SetLastIo(st, b, IoForce), b, 0, SeekCur, x);
      }
    }
  }

  /** A transfer of one kind after which last_io has been set to match. */
  lemma TransferRule<B>(st: State<B>, b: B, pos: nat, prior: Prior, clash: Prior, x: B)
    requires Known(st) && Inv(st, None) && b in st.bfds && x in st.bfds
    requires x != b ==> Ruled(st.bfds[x])
    requires !LastDid(st, b, clash)
    requires prior == DidRead ==> st.bfds[b].lastIo == IoRead
    requires prior == DidWrite ==> st.bfds[b].lastIo == IoWrite
    ensures var st' := Transfer(st, b, pos, prior, clash);
            Inv(st', None) && Ruled(st'.bfds[x]) && st'.misused == st.misused
  {
    hide Inv, Known;
    var noted := if ForUpdate(st.bfds[b]) then prior else Positioned;
    SetStreamInv(st, b, pos, noted);
    DiskInv(SetStream(st, b, pos, noted), st.disk, st.misused || LastDid(st, b, clash));
  }

  lemma ReadRule<B>(st: State<B>, h: Handle<B>, n: nat, x: B)
    requires Known(st) && Inv(st, None) && h.root in st.bfds && x in st.bfds
    requires Ruled(st.bfds[h.root]) && Ruled(st.bfds[x])
    ensures var st' := BfdRead(st, h, n).0; Inv(st', None) && Ruled(st'.bfds[x]) && st'.misused == st.misused
  {
    hide Inv, Known, TurnAround, CacheRead;
    var b := h.root;
    var size := Clip(st.bfds[b].where, h.offset, h.window, n);
    if size.Some? && st.bfds[b].hasIovec {
      TurnAroundRule(st, b, IoWrite, x);
      TurnAroundRule(st, b, IoWrite, b);
      var (st1, ok) := TurnAround(st, b, IoWrite);
      if ok {
        SetLastIoInv(st1, b, IoRead);
        var st2 := SetLastIo(st1, b, IoRead);
        CacheReadRule(st2, b, size.value, x);
        var (st3, got) := CacheRead(st2, b, size.value);
        if got.Some? {
          SetWhereInv(st3, b, st3.bfds[b].where + |got.value|);
        }
      }
    }
  }

  lemma CacheReadRule<B>(st: State<B>, b: B, n: nat, x: B)
    requires Known(st) && Inv(st, None) && b in st.bfds && x in st.bfds
    requires st.bfds[b].lastIo == IoRead && !LastDid(st, b, DidWrite)
    requires Ruled(st.bfds[x]) && Ruled(st.bfds[b])
    ensures var st' := CacheRead(st, b, n).0; Inv(st', None) && Ruled(st'.bfds[x]) && st'.misused == st.misused
  {
    hide Inv, Known, Lookup, Transfer, FileRead;
    LookupStream(st, b, CacheNormal, x);
    LookupStream(st, b, CacheNormal, b);
    var (st1, ok) := Lookup(st, b, CacheNormal);
    if ok && n > 0 && st1.bfds[b].stream.value.rights.readable {
      var data := FileRead(Content(st1, b), Ftell(st1.bfds[b]), n);
      TransferRule(st1, b, Ftell(st1.bfds[b]) + |data|, AfterRead(n, data), DidWrite, x);
    }
  }

  lemma CacheWriteRule<B>(st: State<B>, b: B, data: seq<byte>, x: B)
    requires Known(st) && Inv(st, None) && b in st.bfds && x in st.bfds
    requires st.bfds[b].lastIo == IoWrite && !LastDid(st, b, DidRead)
    requires Ruled(st.bfds[x]) && Ruled(st.bfds[b])
    ensures var st' := CacheWrite(st, b, data).0; Inv(st', None) && Ruled(st'.bfds[x]) && st'.misused == st.misused
  {
    hide Inv, Known, Lookup, Transfer, FileWrite, WritesAt;
    LookupStream(st, b, CacheNormal, x);
    LookupStream(st, b, CacheNormal, b);
    var (st1, ok) := Lookup(st, b, CacheNormal);
    if ok && data != [] && st1.bfds[b].stream.value.rights.writable {
      var at := WritesAt(st1, b);
      TransferRule(st1, b, at + |data|, DidWrite, DidRead, x);
      TransferDisk(st1, b, at + |data|, DidWrite, DidRead);
      var t := Transfer(st1, b, at + |data|, DidWrite, DidRead);
      DiskInv(t, st1.disk[st1.bfds[b].name := FileWrite(Content(st1, b), at, data)], false);
    }
  }

  lemma TransferDisk<B>(st: State<B>, b: B, pos: nat, prior: Prior, clash: Prior)
    requires Known(st) && b in st.bfds
    ensures Transfer(st, b, pos, prior, clash).disk == st.disk
  {
  }

  lemma WriteRule<B>(st: State<B>, h: Handle<B>, data: seq<byte>, x: B)
    requires Known(st) && Inv(st, None) && h.root in st.bfds && x in st.bfds
    requires Ruled(st.bfds[h.root]) && Ruled(st.bfds[x])
    ensures var st' := BfdWrite(st, h, data).0; Inv(st', None) && Ruled(st'.bfds[x]) && st'.misused == st.misused
  {
    hide Inv, Known, TurnAround, CacheWrite;
    var b := h.root;
    if st.bfds[b].hasIovec {
      TurnAroundRule(st, b, IoRead, x);
      TurnAroundRule(st, b, IoRead, b);
      var (st1, ok) := TurnAround(st, b, IoRead);
      if ok {
        SetLastIoInv(st1, b, IoWrite);
        var st2 := SetLastIo(st1, b, IoWrite);
        CacheWriteRule(st2, b, data, x);
        var (st3, wrote) := CacheWrite(st2, b, data);
        if wrote.Some? {
          SetWhereInv(st3, b, st3.bfds[b].where + wrote.value);
        }
      }
    }
  }

  lemma OpenRule<B>(st: State<B>, b: B, x: B)
    requires Known(st) && Inv(st, None) && b in st.bfds && x in st.bfds && !st.bfds[b].hasIovec
    requires Ruled(st.bfds[x])
    ensures var st' := OpenFile(st, b).0; Inv(st', None) && Ruled(st'.bfds[x]) && st'.misused == st.misused
  {
    PlacedStream(st, b);
    hide Inv, Known, OpenFile;
    OpenFileInv(st, b);
    OpenFileStream(st, b, x);
  }

  lemma PlacedStream<B>(st: State<B>, b: B)
    requires Inv(st, None) && b in st.bfds && !st.bfds[b].hasIovec
    ensures st.bfds[b].stream.None? && !st.bfds[b].pinned && b !in st.lru
  {
    assert Placed(st, b, None);
  }

  lemma AdoptRule<B>(st: State<B>, b: B, mode: FopenMode, x: B)
    requires Known(st) && Inv(st, None) && b in st.bfds && x in st.bfds && !st.bfds[b].hasIovec
    requires Ruled(st.bfds[x])
    ensures var st' := BfdFopen(st, b, mode).0; Inv(st', None) && Ruled(st'.bfds[x]) && st'.misused == st.misused
  {
    hide Inv, Known, MakeRoom;
    PlacedStream(st, b);
    var (disk, f) := Fopen(st.disk, st.bfds[b].name, mode);
    if f.Some? {
      StreamedInv(st, b, mode, f.value, disk);
      var s1 := Set(st, b, st.bfds[b].(stream := f, direction := DirectionOf(mode))).(disk := disk);
      CloseOneInv(s1, Some(b));
      RegisterInv(MakeRoom(s1), b);
      MakeRoomStream(s1, x);
      MakeRoomStream(s1, b);
      var s2 := CacheInit(s1, b);
      SetInv(s2, b, s2.bfds[b].(openedOnce := true, cacheable := true), None);
    }
  }

  lemma CloseRule<B>(st: State<B>, b: B, x: B)
    requires Known(st) && Inv(st, None) && b in st.bfds && x in st.bfds && !st.bfds[b].pinned
    requires Ruled(st.bfds[x])
    ensures var st' := CacheClose(st, b); Inv(st', None) && Ruled(st'.bfds[x]) && st'.misused == st.misused
  {
    hide Inv, Known;
    InvAt(st, None, b);
    if st.bfds[b].hasIovec && st.bfds[b].stream.Some? {
      DeleteInv(st, b, None);
    }
  }

  lemma {:induction false} CloseAllRule<B>(st: State<B>)
    requires Known(st) && Inv(st, None) && AllRuled(st)
    ensures var st' := CacheCloseAll(st); Inv(st', None) && AllRuled(st') && st'.misused == st.misused
    decreases |st.lru|
  {
    hide Inv, Known, CacheClose, Ruled;
    if st.lru != [] {
      CloseAllStep(st);
      var st1 := CacheClose(st, st.lru[0]);
      forall x | x in st.bfds
        ensures Ruled(st1.bfds[x]) && Inv(st1, None) && st1.misused == st.misused
      {
        CloseRule(st, st.lru[0], x);
      }
      CloseAllRule(st1);
    }
  }

  lemma UncloseableRule<B>(st: State<B>, b: B, value: bool, x: B)
    requires Known(st) && Inv(st, None) && b in st.bfds && x in st.bfds && Ruled(st.bfds[x])
    ensures var st' := CacheSetUncloseable(st, b, value).0;
            Inv(st', None) && Ruled(st'.bfds[x]) && st'.misused == st.misused
  {
    hide Inv, Known, Lookup, Without;
    if value != st.bfds[b].pinned && st.bfds[b].hasIovec {
      if value {
        LookupStream(st, b, CacheNormal, x);
        LookupStream(st, b, CacheNormal, b);
        PinInv(Lookup(st, b, CacheNormal).0, b);
      } else {
        UnpinInv(st, b);
      }
    }
  }

  lemma SeekRule<B>(st: State<B>, h: Handle<B>, position: int, whence: Whence, x: B)
    requires Known(st) && Inv(st, None) && h.root in st.bfds && x in st.bfds
    requires Ruled(st.bfds[h.root]) && Ruled(st.bfds[x])
    requires !SeekFailsDirty(st, Seek(h, position, whence))
    ensures var st' := BfdSeek(st, h, position, whence).0;
            Inv(st', None) && Ruled(st'.bfds[x]) && st'.misused == st.misused
  {
    hide Inv, Known, RealSeek;
    var b := h.root;
    var p := if whence == SeekCur then position else position + h.offset;
    if st.bfds[b].hasIovec && !Redundant(st.bfds[b], p, whence) {
      RealSeekInv(st, b, p, whence);
      RealSeekRule(st, b, p, whence);
      if x != b {
        RealSeekOther(st, b, p, whence, x);
      }
    }
  }

  lemma TellRule<B>(st: State<B>, h: Handle<B>, x: B)
    requires Known(st) && Inv(st, None) && h.root in st.bfds && x in st.bfds && Ruled(st.bfds[x])
    ensures var st' := BfdTell(st, h).0; Inv(st', None) && Ruled(st'.bfds[x]) && st'.misused == st.misused
  {
    hide Inv, Known, Lookup;
    var b := h.root;
    LookupStream(st, b, CacheNoOpen, x);
    var st1 := Lookup(st, b, CacheNoOpen).0;
    SetWhereInv(st1, b, CacheTell(st, b).1);
  }

  lemma StepRule<B>(st: State<B>, op: Op<B>, x: B)
    requires Known(st) && Inv(st, None) && AllRuled(st) && Enabled(st, op) && !SeekFailsDirty(st, op) && x in st.bfds
    ensures var st' := Step(st, op).0; Inv(st', None) && Ruled(st'.bfds[x]) && st'.misused == st.misused
  {
    hide Inv, Known, OpenFile, BfdFopen, BfdRead, BfdWrite, BfdSeek, BfdTell, BfdFlush, Lookup, CacheClose, CacheCloseAll,
         CacheSetUncloseable, Ruled;
    match op
    case Open(b) => OpenRule(st, b, x);
    case Adopt(b, mode) => AdoptRule(st, b, mode, x);
    case Read(h, n) => ReadRule(st, h, n, x);
    case Write(h, data) => WriteRule(st, h, data, x);
    case Seek(h, position, whence) => SeekRule(st, h, position, whence, x);
    case Tell(h) => TellRule(st, h, x);
    case Stat(h) => LookRule(st, h.root, CacheNoSeekError, x);
    case Flush(h) => FlushRule(st, h, x);
    case Close(b) => CloseRule(st, b, x);
    case CloseAll => CloseAllRule(st);
    case SetUncloseable(b, value) => UncloseableRule(st, b, value, x);
    case SetCacheable(b, value) =>
      SetInv(st, b, st.bfds[b].(cacheable := value), None);
      CacheableRule(st.bfds[b], value);
  }

  lemma CacheableRule(s: BfdState, value: bool)
    ensures Ruled(s) ==> Ruled(s.(cacheable := value))
  {
  }

  lemma LookRule<B>(st: State<B>, b: B, flag: CacheFlag, x: B)
    requires Known(st) && Inv(st, None) && b in st.bfds && x in st.bfds && Ruled(st.bfds[x])
    ensures var st' := Lookup(st, b, flag).0; Inv(st', None) && Ruled(st'.bfds[x]) && st'.misused == st.misused
  {
    hide Inv, Known, Lookup;
    LookupStream(st, b, flag, x);
  }

  lemma FlushRule<B>(st: State<B>, h: Handle<B>, x: B)
    requires Known(st) && Inv(st, None) && h.root in st.bfds && x in st.bfds && Ruled(st.bfds[x])
    ensures var st' := BfdFlush(st, h).0; Inv(st', None) && Ruled(st'.bfds[x]) && st'.misused == st.misused
  {
    hide Inv, Known, Lookup;
    var b := h.root;
    LookRule(st, b, CacheNoOpen, x);
    var (st1, ok) := Lookup(st, b, CacheNoOpen);
    if st.bfds[b].hasIovec && ok && LastDid(st1, b, DidWrite) {
      SetStreamInv(st1, b, Ftell(st1.bfds[b]), Positioned);
    }
  }

  lemma StepCloseAll<B>(st: State<B>, op: Op<B>)
    requires Known(st) && Target(op).None?
    ensures Step(st, op).0 == CacheCloseAll(st)
  {
  }

  predicate NoDirtyFailure<B(==)>(st: State<B>, ops: seq<Op<B>>)
    requires Known(st) && Subjects(st.bfds.Keys, ops)
    decreases |ops|
  {
    ops == [] || (!SeekFailsDirty(st, ops[0]) && NoDirtyFailure(Step(st, ops[0]).0, ops[1..]))
  }

  /** No run of legal operations misuses a stream, unless a seek fails on one that just transferred. */
  lemma {:induction false} RunNeverMisuses<B>(st: State<B>, ops: seq<Op<B>>)
    requires Known(st) && Inv(st, None) && AllRuled(st) && Subjects(st.bfds.Keys, ops)
    requires Legal(st, ops) && NoDirtyFailure(st, ops)
    ensures var st' := Run(st, ops).0; Inv(st', None) && AllRuled(st') && st'.misused == st.misused
    decreases |ops|
  {
    hide Inv, Known, Step, Ruled;
    if ops != [] {
      RuleStep(st, ops[0]);
      RunNeverMisuses(Step(st, ops[0]).0, ops[1..]);
    }
  }

  /** And such a failure does break the rule: the opposite transfer right after it is a misuse. */
  lemma DirtyFailureMisuses<B>(st: State<B>, op: Op<B>, data: seq<byte>)
    requires data != [] && Known(st) && Inv(st, None) && AllRuled(st) && Enabled(st, op) && SeekFailsDirty(st, op)
    ensures var b := op.h.root;
            var st1 := Step(st, op).0;
            if LastDid(st, b, DidWrite) then Step(st1, Read(Handle(b, 0, None), 1)).0.misused
            else Step(st1, Write(Handle(b, 0, None), data)).0.misused
  {
    hide Inv, Known, RealSeek, BfdRead, BfdWrite;
    var b := op.h.root;
    var p := if op.whence == SeekCur then op.position else op.position + op.h.offset;
    RealSeekInv(st, b, p, op.whence);
    RealSeekRule(st, b, p, op.whence);
    var st1 := RealSeek(st, b, p, op.whence).0;
    if LastDid(st, b, DidWrite) {
      ClashingRead(st1, b);
    } else {
      ClashingWrite(st1, b, data);
    }
  }

  /** A transfer of one byte by a BFD itself. */
  function OwnTransfer<B>(b: B, writes: bool): Op<B> {
    if writes then Write(Handle(b, 0, None), [0]) else Read(Handle(b, 0, None), 1)
  }

  /** Whether the transfer, made after the first k operations of the run, is still within the rule. */
  ghost predicate KeptAt<B>(st: State<B>, ops: seq<Op<B>>, k: nat, b: B, writes: bool)
    requires Known(st) && Subjects(st.bfds.Keys, ops) && b in st.bfds && k <= |ops|
  {
    !Run(st, ops[..k] + [OwnTransfer(b, writes)]).0.misused
  }

  /** No transfer, after any part of the run, breaks the rule. */
  ghost predicate RuleKept<B>(st: State<B>, ops: seq<Op<B>>)
    requires Known(st) && Subjects(st.bfds.Keys, ops)
  {
    forall b, k, writes: bool :: b in st.bfds && 0 <= k <= |ops| ==> KeptAt(st, ops, k, b, writes)
  }

  lemma RunSingle<B>(st: State<B>, op: Op<B>)
    requires Known(st) && Subject(st.bfds.Keys, op)
    ensures Run(st, [op]).0 == Step(st, op).0
  {
    hide Known, Step;
    assert [op][1..] == [];
  }

  lemma KeptNow<B>(st: State<B>, ops: seq<Op<B>>, b: B, writes: bool)
    requires Known(st) && Inv(st, None) && AllRuled(st) && !st.misused && Subjects(st.bfds.Keys, ops) && b in st.bfds
    ensures KeptAt(st, ops, 0, b, writes)
  {
    hide Inv, Known, AllRuled, Step;
    var t := OwnTransfer(b, writes);
    assert ops[..0] + [t] == [t];
    RunSingle(st, t);
    StepRule(st, t, b);
  }

  lemma KeptLater<B>(st: State<B>, ops: seq<Op<B>>, k: nat, b: B, writes: bool)
    requires Known(st) && Subjects(st.bfds.Keys, ops) && b in st.bfds && 0 < k <= |ops|
    ensures KeptAt(st, ops, k, b, writes) <==> KeptAt(Step(st, ops[0]).0, ops[1..], k - 1, b, writes)
  {
    hide Known, Step;
    var asked := ops[..k] + [OwnTransfer(b, writes)];
    assert asked[1..] == ops[1..][..k - 1] + [OwnTransfer(b, writes)];
    assert asked[0] == ops[0];
  }

  lemma RuleStep<B>(st: State<B>, op: Op<B>)
    requires Known(st) && Inv(st, None) && AllRuled(st) && Enabled(st, op) && !SeekFailsDirty(st, op)
    ensures var st1 := Step(st, op).0; Inv(st1, None) && AllRuled(st1) && st1.misused == st.misused
  {
    hide Inv, Known, Step, Ruled;
    forall x | x in st.bfds
      ensures Ruled(Step(st, op).0.bfds[x])
    {
      StepRule(st, op, x);
    }
    if Target(op).Some? {
      StepRule(st, op, Target(op).value);
    } else {
      CloseAllRule(st);
      StepCloseAll(st, op);
    }
  }

  /**
    The update-mode rule, exactly: it is kept by every transfer after any part of a run if and only if
    no seek of the run fails on a stream for update that has transferred since it was last positioned.
   */
  lemma {:induction false} RuleExactly<B>(st: State<B>, ops: seq<Op<B>>)
    requires Known(st) && Inv(st, None) && AllRuled(st) && !st.misused && Subjects(st.bfds.Keys, ops) && Legal(st, ops)
    ensures NoDirtyFailure(st, ops) <==> RuleKept(st, ops)
    decreases |ops|
  {
    hide Inv, Known, AllRuled, Step, KeptAt, SeekFailsDirty, Enabled;
    forall b, writes: bool | b in st.bfds
      ensures KeptAt(st, ops, 0, b, writes)
    {
      KeptNow(st, ops, b, writes);
    }
    if ops != [] {
      if SeekFailsDirty(st, ops[0]) {
        BrokenAfter(st, ops);
      } else {
        RuleStep(st, ops[0]);
        var st1 := Step(st, ops[0]).0;
        RuleExactly(st1, ops[1..]);
        forall b, k, writes: bool | b in st.bfds && 0 < k <= |ops|
          ensures KeptAt(st, ops, k, b, writes) <==> KeptAt(st1, ops[1..], k - 1, b, writes)
        {
          KeptLater(st, ops, k, b, writes);
        }
        if RuleKept(st, ops) {
          forall b, k, writes: bool | b in st1.bfds && 0 <= k <= |ops[1..]|
            ensures KeptAt(st1, ops[1..], k, b, writes)
          {
            assert KeptAt(st, ops, k + 1, b, writes);
          }
        }
      }
    }
  }

  lemma BrokenAfter<B>(st: State<B>, ops: seq<Op<B>>)
    requires Known(st) && Inv(st, None) && AllRuled(st) && Subjects(st.bfds.Keys, ops) && ops != []
    requires Enabled(st, ops[0]) && SeekFailsDirty(st, ops[0])
    ensures !RuleKept(st, ops)
  {
    hide Inv, Known, AllRuled, Step;
    var b := ops[0].h.root;
    var writes := !LastDid(st, b, DidWrite);
    var t := OwnTransfer(b, writes);
    var asked := ops[..1] + [t];
    assert asked == [ops[0], t] && asked[1..] == [t];
    DirtyFailureMisuses(st, ops[0], [0]);
    RunSingle(Step(st, ops[0]).0, t);
    assert !KeptAt(st, ops, 1, b, writes);
  }

  lemma ClashingRead<B>(st: State<B>, b: B)
    requires Known(st) && Inv(st, None) && b in st.bfds && st.bfds[b].hasIovec
    requires st.bfds[b].lastIo == IoSeek && LastDid(st, b, DidWrite) && ForUpdate(st.bfds[b])
    ensures BfdRead(st, Handle(b, 0, None), 1).0.misused
  {
    hide Inv, Known, Lookup, FileRead;
    SetLastIoInv(st, b, IoRead);
    LookupStream(SetLastIo(st, b, IoRead), b, CacheNormal, b);
  }

  lemma ClashingWrite<B>(st: State<B>, b: B, data: seq<byte>)
    requires Known(st) && Inv(st, None) && b in st.bfds && st.bfds[b].hasIovec
    requires st.bfds[b].lastIo == IoSeek && LastDid(st, b, DidRead) && ForUpdate(st.bfds[b]) && data != []
    ensures BfdWrite(st, Handle(b, 0, None), data).0.misused
  {
    hide Inv, Known, Lookup, FileWrite;
    SetLastIoInv(st, b, IoWrite);
    LookupStream(SetLastIo(st, b, IoWrite), b, CacheNormal, b);
  }
}
