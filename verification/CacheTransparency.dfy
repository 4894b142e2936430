/**
  Closing and reopening files behind the client's back cannot be noticed: every run over the cache
  gives the results of a machine that opens each file once and never closes it, unless the run
  seeks to a negative absolute position on a file the cache has closed, or opens a file in a mode in
  which the cache does not open it again; and then it can.
 */
module CacheTransparency {
  import opened Bytes
  import opened CacheModel
  import opened CacheIo

  // ----- the machine that never closes a file -----

  type Disk = map<string, seq<byte>>

  /** rights are those of the stream, once there is one. */
  datatype PlainBfd = PlainBfd(name: string, direction: Direction, rights: Rights, pos: nat, inited: bool)

  datatype Plain<B(==)> = Plain(bfds: map<B, PlainBfd>, disk: Disk)

  function PlainOpen(s: PlainBfd, disk: Disk, mode: FopenMode): (PlainBfd, Disk, Result) {
    var (disk', f) := Fopen(disk, s.name, mode);
    if f.None? then (s, disk', Failed) else (s.(inited := true, rights := f.value.rights), disk', Done)
  }

  /** bfd_fopen also sets the direction. */
  function PlainFopen(s: PlainBfd, disk: Disk, mode: FopenMode): (PlainBfd, Disk, Result) {
    var (s', disk', result) := PlainOpen(s, disk, mode);
    (if result == Done then s'.(direction := DirectionOf(mode)) else s', disk', result)
  }

  function PlainRead(s: PlainBfd, disk: Disk, offset: nat, window: Option<nat>, n: nat)
    : (PlainBfd, Disk, Result)
  {
    var size := Clip(s.pos, offset, window, n);
    if size.None? || !s.inited || s.name !in disk then (s, disk, Failed)
    else
      var data := if s.rights.readable then FileRead(disk[s.name], s.pos, size.value) else [];
      (s.(pos := s.pos + |data|), disk, Data(data))
  }

  function PlainWrite(s: PlainBfd, disk: Disk, data: seq<byte>): (PlainBfd, Disk, Result) {
    if !s.inited || s.name !in disk then (s, disk, Failed)
    else if data == [] then (s, disk, Count(0))
    else if !s.rights.writable then (s, disk, Failed)
    else
      var at := if s.rights.appends then |disk[s.name]| else s.pos;
      (s.(pos := at + |data|), disk[s.name := FileWrite(disk[s.name], at, data)], Count(|data|))
  }

  function PlainSeek(s: PlainBfd, disk: Disk, offset: nat, position: int, whence: Whence)
    : (PlainBfd, Disk, Result)
  {
    var target := if whence == SeekCur then s.pos + position else offset + position;
    if !s.inited || target < 0 then (s, disk, Failed) else (s.(pos := target), disk, Done)
  }

  /** The effect of an operation on its own BFD and on the disk. */
  function PlainAt<B>(s: PlainBfd, disk: Disk, op: Op<B>): (PlainBfd, Disk, Result) {
    match op
    case Open(_) => PlainOpen(s, disk, if Writes(s.direction) then ModeWPlus else ModeR)
    case Adopt(_, mode) => PlainFopen(s, disk, mode)
    case Read(h, n) => PlainRead(s, disk, h.offset, h.window, n)
    case Write(h, data) => PlainWrite(s, disk, data)
    case Seek(h, position, whence) => PlainSeek(s, disk, h.offset, position, whence)
    case Tell(h) => (s, disk, Count(if s.inited then s.pos - h.offset else 0))
    case Stat(h) => (s, disk, if s.inited && s.name in disk then Count(|disk[s.name]|) else Failed)
    case _ => (s, disk, Done)
  }

  function PlainStep<B(==)>(p: Plain<B>, op: Op<B>): (r: (Plain<B>, Result))
    requires Subject(p.bfds.Keys, op)
    ensures r.0.bfds.Keys == p.bfds.Keys
  {
    match Target(op)
    case None => (p, Done)
    case Some(b) =>
      var (s, disk, result) := PlainAt(p.bfds[b], p.disk, op);
      (Plain(p.bfds[b := s], disk), result)
  }

  // ----- what the cache machine looks like from outside -----

  function ViewBfd(s: BfdState): PlainBfd {
    PlainBfd(s.name, s.direction, RightsOf(s.direction), s.where, s.hasIovec)
  }

  function View<B(==)>(st: State<B>): Plain<B> {
    Plain(map b | b in st.bfds :: ViewBfd(st.bfds[b]), st.disk)
  }

  /**
    The tracked position is that of the open stream, unless off; the stream can do what one reopened
    by direction can; and a reopened output file is not truncated.
   */
  predicate Fit(s: BfdState, off: bool) {
    && (s.hasIovec || s.where == 0)
    && (s.stream.Some? ==> s.stream.value.rights == RightsOf(s.direction))
    && (s.hasIovec && Writes(s.direction) ==> s.openedOnce)
    && (s.stream.Some? && !off ==> s.stream.value.pos == s.where)
  }

  /** The reachable states: the ring is right and every open stream stands where its BFD says. */
  ghost predicate Good<B>(st: State<B>) {
    && Inv(st, None)
    && forall b :: b in st.bfds ==> Fit(st.bfds[b], false)
  }

  /** Same to the client, with the same last transfer and pin. */
  predicate Alike(s: BfdState, s': BfdState) {
    ViewBfd(s) == ViewBfd(s') && s.lastIo == s'.lastIo && s.pinned == s'.pinned
  }

  // ----- one BFD at a time across the cache operations -----

  lemma InvAt<B>(st: State<B>, loose: Option<B>, x: B)
    requires Inv(st, loose) && x in st.bfds
    ensures Known(st) && Placed(st, x, loose)
  {
  }

  lemma MakeRoomAt<B>(st: State<B>, x: B, off: bool)
    requires Known(st) && x in st.bfds && Fit(st.bfds[x], off)
    requires x in st.lru ==> st.bfds[x].stream.Some? && st.bfds[x].hasIovec && !off
    ensures var st' := MakeRoom(st);
            && Fit(st'.bfds[x], off) && Alike(st.bfds[x], st'.bfds[x])
            && st'.disk == st.disk && st'.misused == st.misused
            && (x !in st.lru ==> st'.bfds[x] == st.bfds[x])
  {
    hide Known, Without;
  }

  lemma MakeRoomSame<B>(st: State<B>)
    requires Known(st)
    ensures MakeRoom(st).disk == st.disk && MakeRoom(st).misused == st.misused
  {
  }

  /** A BFD that just got a stream joins the ring. */
  lemma JoinAt<B>(st: State<B>, b: B, x: B)
    requires Inv(st, Some(b)) && b in st.bfds && x in st.bfds
    requires x != b ==> Fit(st.bfds[x], false)
    ensures var st' := CacheInit(st, b);
            && Inv(st', None) && st'.disk == st.disk && st'.misused == st.misused
            && (x != b ==> Fit(st'.bfds[x], false) && Alike(st.bfds[x], st'.bfds[x]))
            && st'.bfds[b] == st.bfds[b].(hasIovec := true, closedByCache := false)
  {
    hide Inv, MakeRoom, Known;
    InvAt(st, Some(b), b);
    CloseOneInv(st, Some(b));
    PlacedLru(st, Some(b), x);
    PlacedLru(st, Some(b), b);
    if x != b {
      MakeRoomAt(st, x, false);
    }
    CloseOneFrame(st, Some(b), b);
    MakeRoomSame(st);
    RegisterInv(MakeRoom(st), b);
  }

  lemma PlacedLru<B>(st: State<B>, loose: Option<B>, x: B)
    requires Inv(st, loose) && x in st.bfds
    ensures x in st.lru ==> st.bfds[x].stream.Some? && st.bfds[x].hasIovec && Some(x) != loose
  {
    assert Placed(st, x, loose);
  }

  lemma ReopenAt<B>(st: State<B>, b: B, x: B)
    requires Inv(st, None) && b in st.bfds && x in st.bfds
    requires st.bfds[b].hasIovec && st.bfds[b].stream.None?
    requires Fit(st.bfds[b], false) && Fit(st.bfds[x], false)
    ensures var (st', ok) := OpenFile(st, b);
            && ok && st'.disk == st.disk && st'.misused == st.misused
            && Fit(st'.bfds[x], x == b) && Alike(st.bfds[x], st'.bfds[x])
            && Ftell(st'.bfds[b]) == 0
  {
    hide Inv, MakeRoom, Known, CacheInit, Opened;
    InvAt(st, None, b);
    PrepareAt(st, b, x);
    PrepareAt(st, b, b);
    var s1 := MakeRoom(Set(st, b, st.bfds[b].(cacheable := true)));
    OpenedInv(s1, b);
    OpenedAt(s1, b, x);
    JoinAt(Opened(s1, b), b, x);
    JoinAt(Opened(s1, b), b, b);
  }

  /** The start of _bfd_open_file_unlocked: b can be closed later, and there is room for it. */
  lemma PrepareAt<B>(st: State<B>, b: B, x: B)
    requires Inv(st, None) && Known(st) && b in st.bfds && x in st.bfds && st.bfds[b].stream.None? && !st.bfds[b].pinned
    requires b !in st.lru && Fit(st.bfds[b], false) && Fit(st.bfds[x], false)
    ensures Known(Set(st, b, st.bfds[b].(cacheable := true)))
    ensures var s1 := MakeRoom(Set(st, b, st.bfds[b].(cacheable := true)));
            && Inv(s1, None) && s1.disk == st.disk && s1.misused == st.misused && b in s1.bfds
            && s1.bfds[b] == st.bfds[b].(cacheable := true)
            && Fit(s1.bfds[x], false) && Alike(st.bfds[x], s1.bfds[x])
  {
    hide Inv, MakeRoom, Known;
    var s0 := Set(st, b, st.bfds[b].(cacheable := true));
    SetInv(st, b, s0.bfds[b], None);
    CloseOneInv(s0, None);
    PlacedLru(s0, None, x);
    PlacedLru(s0, None, b);
    MakeRoomAt(s0, x, false);
    MakeRoomAt(s0, b, false);
  }

  /** The fopen calls themselves. */
  lemma OpenedAt<B>(st: State<B>, b: B, x: B)
    requires Known(st) && b in st.bfds && x in st.bfds
    ensures var st' := Opened(st, b);
            var s, s' := st.bfds[b], st'.bfds[b];
            && st'.lru == st.lru && st'.misused == st.misused && st'.disk == OpenByDirection(st.disk, s).0
            && (x != b ==> st'.bfds[x] == st.bfds[x])
            && s' == s.(stream := OpenByDirection(st.disk, s).1, openedOnce := s.openedOnce || Writes(s.direction))
            && (s'.stream.Some? ==> s'.stream.value == File(0, RightsOf(s.direction), Positioned))
            && ((Writes(s.direction) ==> s.openedOnce) && s.name in st.disk ==> s'.stream.Some? && st'.disk == st.disk)
  {
    hide Known;
  }

  lemma PlacedName<B>(st: State<B>, x: B)
    requires Inv(st, None) && x in st.bfds && st.bfds[x].hasIovec
    ensures st.bfds[x].name in st.disk
  {
    assert Placed(st, x, None);
  }

  /**
    bfd_cache_lookup changes nothing the client can see; only a lookup that was told not to seek
    can leave a stream, which it has just reopened at 0, away from the tracked position.
   */
  lemma LookupAt<B>(st: State<B>, b: B, flag: CacheFlag, x: B)
    requires Inv(st, None) && b in st.bfds && x in st.bfds
    requires st.bfds[b].hasIovec && Fit(st.bfds[b], false) && Fit(st.bfds[x], false)
    ensures var (st', ok) := Lookup(st, b, flag);
            var off := flag == CacheNoSeek && st.bfds[b].stream.None?;
            && (ok || flag == CacheNoOpen) && (ok <==> st'.bfds[b].stream.Some?)
            && st'.disk == st.disk && st'.misused == st.misused
            && Fit(st'.bfds[x], off && x == b) && Alike(st.bfds[x], st'.bfds[x])
            && (off ==> Ftell(st'.bfds[b]) == 0)
  {
    hide Inv, OpenFile, Known;
    InvAt(st, None, b);
    LookupInv(st, b, flag);
    if st.bfds[b].stream.None? && flag != CacheNoOpen {
      ReopenAt(st, b, x);
    }
  }

  // ----- one BFD at a time across the operations of a client -----

  /**
    The guard of the one branch that loses a position: an absolute seek to before the start of a
    file that the cache has closed reopens it at 0, fails, and leaves the tracked position alone.
   */
  predicate SeekLost<B(==)>(st: State<B>, op: Op<B>)
    requires Subject(st.bfds.Keys, op)
  {
    match op
    case Seek(h, position, SeekSet) =>
      var s := st.bfds[h.root];
      s.hasIovec && s.stream.None? && position + h.offset < 0 && s.where > 0
    case _ => false
  }

  /**
    The guard of the other: bfd_fopen succeeds in a mode whose rights are not those with which
    _bfd_open_file_unlocked would open the file again.
   */
  predicate ModeLost<B(==)>(st: State<B>, op: Op<B>)
    requires Subject(st.bfds.Keys, op)
  {
    match op
    case Adopt(b, mode) => !ModeFits(mode) && (mode.letter == LetterR ==> st.bfds[b].name in st.disk)
    case _ => false
  }

  predicate Lossy<B(==)>(st: State<B>, op: Op<B>)
    requires Subject(st.bfds.Keys, op)
  {
    SeekLost(st, op) || ModeLost(st, op)
  }

  /** Administrative changes of one record keep the invariant and the fitness of every BFD. */
  lemma SetLastIoAt<B>(st: State<B>, b: B, lastIo: LastIo, x: B)
    requires Inv(st, None) && b in st.bfds && x in st.bfds && Fit(st.bfds[x], false)
    ensures var st' := SetLastIo(st, b, lastIo);
            && Inv(st', None) && Fit(st'.bfds[x], false) && ViewBfd(st'.bfds[x]) == ViewBfd(st.bfds[x])
            && st'.bfds[b] == st.bfds[b].(lastIo := lastIo) && st'.disk == st.disk
  {
    hide Inv;
    SetInv(st, b, st.bfds[b].(lastIo := lastIo), None);
  }

  /** Moving the stream of b and then the tracked position to the same place. */
  lemma MoveAt<B>(st: State<B>, b: B, pos: nat, prior: Prior, x: B)
    requires Known(st) && Inv(st, None) && b in st.bfds && x in st.bfds
    requires st.bfds[b].stream.Some? && Fit(st.bfds[b], true) && Fit(st.bfds[x], x == b)
    ensures var st' := SetWhere(SetStream(st, b, pos, prior), b, pos);
            && Inv(st', None) && Fit(st'.bfds[x], false) && st'.disk == st.disk
            && SetStream(st, b, pos, prior).bfds[b].where == st.bfds[b].where
            && ViewBfd(st'.bfds[b]) == ViewBfd(st.bfds[b]).(pos := pos)
            && (x != b ==> st'.bfds[x] == st.bfds[x])
  {
    PlacedOpen(st, b);
    hide Inv, Known;
    var s' := SetWhere(SetStream(st, b, pos, prior), b, pos).bfds[b];
    SetInv(st, b, s', None);
    assert SetWhere(SetStream(st, b, pos, prior), b, pos) == Set(st, b, s');
  }

  lemma PlacedOpen<B>(st: State<B>, b: B)
    requires Inv(st, None) && b in st.bfds && st.bfds[b].stream.Some?
    ensures st.bfds[b].hasIovec && st.bfds[b].name in st.disk
  {
    assert Placed(st, b, None);
  }

  lemma RealSeekAt<B>(st: State<B>, b: B, p: int, whence: Whence, x: B)
    requires Inv(st, None) && b in st.bfds && st.bfds[b].hasIovec && x in st.bfds
    requires Fit(st.bfds[b], false) && Fit(st.bfds[x], false)
    requires whence == SeekSet && p < 0 && st.bfds[b].stream.None? ==> st.bfds[b].where == 0
    requires Known(st)
    ensures var (st', ok) := RealSeek(st, b, p, whence);
            var target := if whence == SeekCur then st.bfds[b].where + p else p;
            && Inv(st', None) && Fit(st'.bfds[x], false) && st'.disk == st.disk
            && (ok <==> target >= 0)
            && (x != b ==> ViewBfd(st'.bfds[x]) == ViewBfd(st.bfds[x]))
            && ViewBfd(st'.bfds[b]) == if ok then ViewBfd(st.bfds[b]).(pos := target) else ViewBfd(st.bfds[b])
  {
    hide Inv, Known, Lookup, SetLastIo, SetStream, SetWhere;
    SetLastIoAt(st, b, IoSeek, x);
    SetLastIoAt(st, b, IoSeek, b);
    var st0 := SetLastIo(st, b, IoSeek);
    var flag := if whence == SeekCur then CacheNormal else CacheNoSeek;
    LookupInv(st0, b, flag);
    LookupAt(st0, b, flag, x);
    LookupAt(st0, b, flag, b);
    var st1 := Lookup(st0, b, flag).0;
    var target := if whence == SeekCur then st.bfds[b].where + p else p;
    if target >= 0 {
      MoveAt(st1, b, target, Positioned, x);
      MoveAt(st1, b, target, Positioned, b);
    }
  }

  lemma SeekAt<B>(st: State<B>, h: Handle<B>, position: int, whence: Whence, x: B)
    requires Known(st) && Inv(st, None) && h.root in st.bfds && x in st.bfds
    requires Fit(st.bfds[h.root], false) && Fit(st.bfds[x], false)
    requires !SeekLost(st, Seek(h, position, whence))
    ensures var (st', ok) := BfdSeek(st, h, position, whence);
            && Inv(st', None) && Fit(st'.bfds[x], false)
            && (x != h.root ==> ViewBfd(st'.bfds[x]) == ViewBfd(st.bfds[x]))
            && (ViewBfd(st'.bfds[h.root]), st'.disk, Outcome(ok))
               == PlainSeek(ViewBfd(st.bfds[h.root]), st.disk, h.offset, position, whence)
  {
    hide Inv, Known, RealSeek;
    var p := if whence == SeekCur then position else position + h.offset;
    if st.bfds[h.root].hasIovec && !Redundant(st.bfds[h.root], p, whence) {
      RealSeekAt(st, h.root, p, whence, x);
    }
  }

  lemma TurnAroundAt<B>(st: State<B>, b: B, from: LastIo, x: B)
    requires Known(st) && Inv(st, None) && b in st.bfds && st.bfds[b].hasIovec && x in st.bfds
    requires Fit(st.bfds[b], false) && Fit(st.bfds[x], false)
    ensures var (st', ok) := TurnAround(st, b, from);
            && ok && Inv(st', None) && Fit(st'.bfds[x], false) && st'.disk == st.disk
            && ViewBfd(st'.bfds[x]) == ViewBfd(st.bfds[x])
  {
    hide Inv, Known, RealSeek;
    if st.bfds[b].lastIo == from {
      SetLastIoAt(st, b, IoForce, x);
      SetLastIoAt(st, b, IoForce, b);
      RealSeekAt(SetLastIo(st, b, IoForce), b, 0, SeekCur, x);
      RealSeekAt(SetLastIo(st, b, IoForce), b, 0, SeekCur, b);
    }
  }

  /** A transfer that ended at pos, followed by the move of the tracked position. */
  lemma TransferAt<B>(st: State<B>, b: B, pos: nat, prior: Prior, clash: Prior, x: B)
    requires Known(st) && Inv(st, None) && b in st.bfds && x in st.bfds
    requires st.bfds[b].stream.Some? && Fit(st.bfds[b], true) && Fit(st.bfds[x], x == b)
    ensures var st' := SetWhere(Transfer(st, b, pos, prior, clash), b, pos);
            && Inv(st', None) && Fit(st'.bfds[x], false) && st'.disk == st.disk
            && Transfer(st, b, pos, prior, clash).bfds[b].where == st.bfds[b].where
            && ViewBfd(st'.bfds[b]) == ViewBfd(st.bfds[b]).(pos := pos)
            && (x != b ==> st'.bfds[x] == st.bfds[x])
  {
    hide Inv, Known, SetStream;
    var noted := if ForUpdate(st.bfds[b]) then prior else Positioned;
    MoveAt(st, b, pos, noted, x);
    DiskInv(SetWhere(SetStream(st, b, pos, noted), b, pos), st.disk, st.misused || LastDid(st, b, clash));
  }

  /** Growing the disk and noting misuse keep the invariant. */
  lemma DiskInv<B>(st: State<B>, disk: Disk, misused: bool)
    requires Inv(st, None) && st.disk.Keys <= disk.Keys
    ensures Inv(st.(disk := disk), None) && Inv(st.(misused := misused), None)
  {
    assert Pinned(st.(disk := disk)) == Pinned(st) == Pinned(st.(misused := misused));
    forall x | x in st.bfds
      ensures Placed(st.(disk := disk), x, None) && Placed(st.(misused := misused), x, None)
    {
      assert Placed(st, x, None);
    }
  }

  lemma SetWhereAt<B>(st: State<B>, b: B, x: B)
    requires Known(st) && Inv(st, None) && b in st.bfds && x in st.bfds
    requires Fit(st.bfds[x], false)
    ensures var st' := SetWhere(st, b, st.bfds[b].where);
            Inv(st', None) && Fit(st'.bfds[x], false) && st'.disk == st.disk && st'.bfds[x] == st.bfds[x]
  {
    hide Inv, Known;
    SetInv(st, b, st.bfds[b], None);
  }

  /** cache_bread followed by the move of the tracked position. */
  lemma CacheReadAt<B>(st: State<B>, b: B, n: nat, x: B)
    requires Known(st) && Inv(st, None) && b in st.bfds && st.bfds[b].hasIovec && x in st.bfds
    requires Fit(st.bfds[b], false) && Fit(st.bfds[x], false)
    ensures st.bfds[b].name in st.disk
    ensures var (st1, got) := CacheRead(st, b, n);
            && got == Some(FileRead(st.disk[st.bfds[b].name], st.bfds[b].where, n))
            && var st' := SetWhere(st1, b, st1.bfds[b].where + |got.value|);
            && Inv(st', None) && Fit(st'.bfds[x], false) && st'.disk == st.disk
            && (x != b ==> ViewBfd(st'.bfds[x]) == ViewBfd(st.bfds[x]))
            && ViewBfd(st'.bfds[b]) == ViewBfd(st.bfds[b]).(pos := st.bfds[b].where + |got.value|)
  {
    hide Inv, Known, Lookup, Transfer, SetWhere, FileRead, AfterRead;
    PlacedName(st, b);
    LookupInv(st, b, CacheNormal);
    LookupAt(st, b, CacheNormal, x);
    LookupAt(st, b, CacheNormal, b);
    var st1 := Lookup(st, b, CacheNormal).0;
    if n == 0 {
      SetWhereAt(st1, b, x);
      SetWhereAt(st1, b, b);
    } else {
      var data := FileRead(Content(st1, b), Ftell(st1.bfds[b]), n);
      TransferAt(st1, b, st.bfds[b].where + |data|, AfterRead(n, data), DidWrite, x);
      TransferAt(st1, b, st.bfds[b].where + |data|, AfterRead(n, data), DidWrite, b);
    }
  }

  lemma ReadAt<B>(st: State<B>, h: Handle<B>, n: nat, x: B)
    requires Known(st) && Inv(st, None) && h.root in st.bfds && x in st.bfds
    requires Fit(st.bfds[h.root], false) && Fit(st.bfds[x], false)
    ensures var (st', result) := BfdRead(st, h, n);
            && Inv(st', None) && Fit(st'.bfds[x], false)
            && (x != h.root ==> ViewBfd(st'.bfds[x]) == ViewBfd(st.bfds[x]))
            && (ViewBfd(st'.bfds[h.root]), st'.disk, result)
               == PlainRead(ViewBfd(st.bfds[h.root]), st.disk, h.offset, h.window, n)
  {
    hide Inv, Known, TurnAround, CacheRead, SetLastIo, SetWhere;
    var b := h.root;
    var size := Clip(st.bfds[b].where, h.offset, h.window, n);
    if size.Some? && st.bfds[b].hasIovec {
      TurnAroundAt(st, b, IoWrite, x);
      TurnAroundAt(st, b, IoWrite, b);
      var st1 := TurnAround(st, b, IoWrite).0;
      SetLastIoAt(st1, b, IoRead, x);
      SetLastIoAt(st1, b, IoRead, b);
      CacheReadAt(SetLastIo(st1, b, IoRead), b, size.value, x);
      CacheReadAt(SetLastIo(st1, b, IoRead), b, size.value, b);
    }
  }

  lemma SetWhereSame<B>(st: State<B>, b: B)
    requires Known(st) && b in st.bfds
    ensures SetWhere(st, b, st.bfds[b].where) == st
  {
    assert st.bfds[b := st.bfds[b]] == st.bfds;
  }

  /** cache_bwrite followed, when it wrote, by the move of the tracked position. */
  lemma CacheWriteAt<B>(st: State<B>, b: B, data: seq<byte>, x: B)
    requires Known(st) && Inv(st, None) && b in st.bfds && st.bfds[b].hasIovec && x in st.bfds
    requires Fit(st.bfds[b], false) && Fit(st.bfds[x], false)
    ensures var (st1, wrote) := CacheWrite(st, b, data);
            var st' := if wrote.None? then st1 else SetWhere(st1, b, st1.bfds[b].where + wrote.value);
            && Inv(st', None) && Fit(st'.bfds[x], false)
            && (x != b ==> ViewBfd(st'.bfds[x]) == ViewBfd(st.bfds[x]))
            && (ViewBfd(st'.bfds[b]), st'.disk, if wrote.None? then Failed else Count(wrote.value))
               == PlainWrite(ViewBfd(st.bfds[b]), st.disk, data)
  {
    hide Inv, Known, Lookup, Transfer, SetWhere, FileWrite;
    PlacedName(st, b);
    LookupInv(st, b, CacheNormal);
    LookupAt(st, b, CacheNormal, x);
    LookupAt(st, b, CacheNormal, b);
    var st1 := Lookup(st, b, CacheNormal).0;
    var where := st.bfds[b].where;
    if data == [] || !Writes(st.bfds[b].direction) {
      SetWhereAt(st1, b, x);
      SetWhereAt(st1, b, b);
      SetWhereSame(st1, b);
    } else {
      var pos := where + |data|;
      TransferAt(st1, b, pos, DidWrite, DidRead, x);
      TransferAt(st1, b, pos, DidWrite, DidRead, b);
      var t := Transfer(st1, b, pos, DidWrite, DidRead);
      var disk := st1.disk[st.bfds[b].name := FileWrite(Content(st1, b), where, data)];
      DiskInv(SetWhere(t, b, pos), disk, false);
      SetWhereDisk(t, b, pos, disk);
    }
  }

  lemma SetWhereDisk<B>(st: State<B>, b: B, pos: nat, disk: Disk)
    requires Known(st) && b in st.bfds
    ensures SetWhere(st.(disk := disk), b, pos) == SetWhere(st, b, pos).(disk := disk)
  {
  }

  lemma WriteAt<B>(st: State<B>, h: Handle<B>, data: seq<byte>, x: B)
    requires Known(st) && Inv(st, None) && h.root in st.bfds && x in st.bfds
    requires Fit(st.bfds[h.root], false) && Fit(st.bfds[x], false)
    ensures var (st', result) := BfdWrite(st, h, data);
            && Inv(st', None) && Fit(st'.bfds[x], false)
            && (x != h.root ==> ViewBfd(st'.bfds[x]) == ViewBfd(st.bfds[x]))
            && (ViewBfd(st'.bfds[h.root]), st'.disk, result) == PlainWrite(ViewBfd(st.bfds[h.root]), st.disk, data)
  {
    hide Inv, Known, TurnAround, CacheWrite, SetLastIo, SetWhere;
    var b := h.root;
    if st.bfds[b].hasIovec {
      TurnAroundAt(st, b, IoRead, x);
      TurnAroundAt(st, b, IoRead, b);
      var st1 := TurnAround(st, b, IoRead).0;
      SetLastIoAt(st1, b, IoWrite, x);
      SetLastIoAt(st1, b, IoWrite, b);
      CacheWriteAt(SetLastIo(st1, b, IoWrite), b, data, x);
      CacheWriteAt(SetLastIo(st1, b, IoWrite), b, data, b);
    }
  }

  lemma TellAt<B>(st: State<B>, h: Handle<B>, x: B)
    requires Known(st) && Inv(st, None) && h.root in st.bfds && st.bfds[h.root].hasIovec && x in st.bfds
    requires Fit(st.bfds[h.root], false) && Fit(st.bfds[x], false)
    ensures var (st', result) := BfdTell(st, h);
            && Inv(st', None) && Fit(st'.bfds[x], false) && st'.disk == st.disk
            && ViewBfd(st'.bfds[x]) == ViewBfd(st.bfds[x]) && result == Count(st.bfds[h.root].where - h.offset)
  {
    hide Inv, Known, Lookup, SetWhere;
    var b := h.root;
    LookupInv(st, b, CacheNoOpen);
    LookupAt(st, b, CacheNoOpen, x);
    LookupAt(st, b, CacheNoOpen, b);
    SetWhereAt(Lookup(st, b, CacheNoOpen).0, b, x);
  }

  // ----- opening and closing -----

  lemma OpenAt<B>(st: State<B>, b: B, x: B)
    requires Known(st) && Inv(st, None) && b in st.bfds && x in st.bfds && !st.bfds[b].hasIovec
    requires Fit(st.bfds[b], false) && Fit(st.bfds[x], false) && !st.bfds[b].openedOnce
    ensures var (st', ok) := OpenFile(st, b);
            && Inv(st', None) && Fit(st'.bfds[x], false)
            && (x != b ==> ViewBfd(st'.bfds[x]) == ViewBfd(st.bfds[x]))
            && (ViewBfd(st'.bfds[b]), st'.disk, Outcome(ok))
               == PlainAt(ViewBfd(st.bfds[b]), st.disk, Open(b))
  {
    hide Inv, MakeRoom, Known, CacheInit, Opened;
    InvAt(st, None, b);
    PrepareAt(st, b, x);
    PrepareAt(st, b, b);
    var s1 := MakeRoom(Set(st, b, st.bfds[b].(cacheable := true)));
    OpenedInv(s1, b);
    OpenedAt(s1, b, x);
    var s2 := Opened(s1, b);
    if s2.bfds[b].stream.Some? {
      JoinAt(s2, b, x);
      JoinAt(s2, b, b);
    }
  }

  /** fopen gave b its first stream. */
  lemma StreamedInv<B>(st: State<B>, b: B, mode: FopenMode, f: File, disk: Disk)
    requires Inv(st, None) && b in st.bfds && st.bfds[b].stream.None?
    requires st.disk.Keys <= disk.Keys && st.bfds[b].name in disk
    ensures Inv(Set(st, b, st.bfds[b].(stream := Some(f), direction := DirectionOf(mode))).(disk := disk), Some(b))
  {
    assert Placed(st, b, None);
    assert Pinned(Set(st, b, st.bfds[b].(stream := Some(f), direction := DirectionOf(mode))).(disk := disk)) == Pinned(st);
  }

  /** What bfd_fopen does agrees with the plain machine, but for the rights that a stream reopened later would have. */
  lemma AdoptAt<B>(st: State<B>, b: B, mode: FopenMode, x: B)
    requires Known(st) && Inv(st, None) && b in st.bfds && x in st.bfds && !st.bfds[b].hasIovec
    requires Fit(st.bfds[b], false) && Fit(st.bfds[x], false)
    ensures var (st', result) := BfdFopen(st, b, mode);
            var (s, disk, plain) := PlainFopen(ViewBfd(st.bfds[b]), st.disk, mode);
            && Inv(st', None) && st'.disk == disk && result == plain
            && (x != b ==> Fit(st'.bfds[x], false) && ViewBfd(st'.bfds[x]) == ViewBfd(st.bfds[x]))
            && ViewBfd(st'.bfds[b]) == s.(rights := RightsOf(s.direction))
            && Fit(st'.bfds[b].(stream := None), false)
            && (result == Done ==> b in st'.lru && s.rights == Granted(mode) && s.direction == DirectionOf(mode))
            && (result == Failed || ModeFits(mode) ==> Fit(st'.bfds[b], false) && s.rights == RightsOf(s.direction))
  {
    hide Inv, Known, MakeRoom;
    InvAt(st, None, b);
    var (disk, f) := Fopen(st.disk, st.bfds[b].name, mode);
    if f.Some? {
      StreamedInv(st, b, mode, f.value, disk);
      var s1 := Set(st, b, st.bfds[b].(stream := f, direction := DirectionOf(mode))).(disk := disk);
      JoinAt(s1, b, x);
      var s2 := CacheInit(s1, b);
      SetInv(s2, b, s2.bfds[b].(openedOnce := true, cacheable := true), None);
    }
  }

  lemma CloseAt<B>(st: State<B>, b: B, x: B)
    requires Known(st) && Inv(st, None) && b in st.bfds && x in st.bfds && !st.bfds[b].pinned
    requires Fit(st.bfds[x], false)
    ensures var st' := CacheClose(st, b);
            && Inv(st', None) && Fit(st'.bfds[x], false) && st'.disk == st.disk
            && ViewBfd(st'.bfds[x]) == ViewBfd(st.bfds[x])
  {
    hide Inv, Known;
    InvAt(st, None, b);
    if st.bfds[b].hasIovec && st.bfds[b].stream.Some? {
      DeleteInv(st, b, None);
    }
  }

  /** bfd_cache_close_all leaves nothing on the ring, and nothing that a client could notice. */
  lemma {:induction false} CloseAllAt<B>(st: State<B>, x: B)
    requires Known(st) && Inv(st, None) && x in st.bfds && Fit(st.bfds[x], false)
    ensures var st' := CacheCloseAll(st);
            && Inv(st', None) && Fit(st'.bfds[x], false) && st'.disk == st.disk
            && ViewBfd(st'.bfds[x]) == ViewBfd(st.bfds[x]) && st'.lru == []
    decreases |st.lru|
  {
    if st.lru != [] {
      CloseAllStep(st);
      CloseAt(st, st.lru[0], x);
      CloseAllAt(CacheClose(st, st.lru[0]), x);
    }
  }

  lemma CloseAllStep<B>(st: State<B>)
    requires Known(st) && Inv(st, None) && st.lru != []
    ensures st.lru[0] in st.bfds && !st.bfds[st.lru[0]].pinned
    ensures var st1 := CacheClose(st, st.lru[0]); |st1.lru| < |st.lru| && st.lru[0] !in st1.lru
  {
    assert Placed(st, st.lru[0], None);
  }

  lemma UncloseableAt<B>(st: State<B>, b: B, value: bool, x: B)
    requires Known(st) && Inv(st, None) && b in st.bfds && x in st.bfds
    requires Fit(st.bfds[b], false) && Fit(st.bfds[x], false)
    ensures var (st', ok) := CacheSetUncloseable(st, b, value);
            && ok && Inv(st', None) && Fit(st'.bfds[x], false) && st'.disk == st.disk
            && ViewBfd(st'.bfds[x]) == ViewBfd(st.bfds[x])
  {
    hide Inv, Known, Lookup;
    if value != st.bfds[b].pinned && st.bfds[b].hasIovec {
      if value {
        LookupInv(st, b, CacheNormal);
        LookupAt(st, b, CacheNormal, x);
        LookupAt(st, b, CacheNormal, b);
        PinInv(Lookup(st, b, CacheNormal).0, b);
      } else {
        UnpinInv(st, b);
      }
    }
  }

  lemma PinInv<B>(st: State<B>, b: B)
    requires Inv(st, None) && b in st.bfds && st.bfds[b].stream.Some? && !st.bfds[b].pinned
    ensures Inv(Set(st, b, st.bfds[b].(pinned := true)).(lru := Without(st.lru, b)), None)
  {
    assert Placed(st, b, None);
    WithoutOne(st.lru, b);
    var st' := Set(st, b, st.bfds[b].(pinned := true)).(lru := Without(st.lru, b));
    assert b !in Pinned(st) && Pinned(st') == Pinned(st) + {b};
  }

  lemma UnpinInv<B>(st: State<B>, b: B)
    requires Inv(st, None) && b in st.bfds && st.bfds[b].pinned
    ensures Inv(Set(st, b, st.bfds[b].(pinned := false)).(lru := [b] + st.lru), None)
  {
    assert Placed(st, b, None);
    var st' := Set(st, b, st.bfds[b].(pinned := false)).(lru := [b] + st.lru);
    assert b in Pinned(st) && Pinned(st') == Pinned(st) - {b};
  }

  // ----- runs -----

  lemma StepAt<B>(st: State<B>, op: Op<B>, x: B)
    requires Known(st) && Good(st) && Enabled(st, op) && !Lossy(st, op) && x in st.bfds
    ensures var (st', result) := Step(st, op);
            && Fit(st'.bfds[x], false)
            && (Some(x) != Target(op) ==> ViewBfd(st'.bfds[x]) == ViewBfd(st.bfds[x]))
            && Inv(st', None)
            && match Target(op)
               case None => st'.disk == st.disk && result == Done
               case Some(b) => (ViewBfd(st'.bfds[b]), st'.disk, result) == PlainAt(ViewBfd(st.bfds[b]), st.disk, op)
  {
    hide Inv, Known, Good, Enabled, Lossy, Step, PlainAt, Fit, ViewBfd;
    match op
    case Open(_) => StepCacheAt(st, op, x);
    case Adopt(_, _) => StepCacheAt(st, op, x);
    case Close(_) => StepCacheAt(st, op, x);
    case CloseAll => StepCacheAt(st, op, x);
    case SetUncloseable(_, _) => StepCacheAt(st, op, x);
    case SetCacheable(_, _) => StepCacheAt(st, op, x);
    case _ => StepIoAt(st, op, x);
  }

  predicate OnStream<B>(op: Op<B>) {
    op.Read? || op.Write? || op.Seek? || op.Tell? || op.Stat? || op.Flush?
  }

  lemma StepIoAt<B>(st: State<B>, op: Op<B>, x: B)
    requires Known(st) && Good(st) && Enabled(st, op) && !Lossy(st, op) && x in st.bfds && OnStream(op)
    ensures var (st', result) := Step(st, op);
            && Fit(st'.bfds[x], false)
            && (Some(x) != Target(op) ==> ViewBfd(st'.bfds[x]) == ViewBfd(st.bfds[x]))
            && Inv(st', None)
            && match Target(op)
               case None => st'.disk == st.disk && result == Done
               case Some(b) => (ViewBfd(st'.bfds[b]), st'.disk, result) == PlainAt(ViewBfd(st.bfds[b]), st.disk, op)
  {
    hide Inv, Known, BfdRead, BfdWrite, BfdSeek, BfdFlush, CacheTell, Lookup, PlainRead, PlainWrite, PlainSeek;
    assert Fit(st.bfds[x], false);
    match op
    case Read(h, n) => ReadAt(st, h, n, x);
    case Write(h, data) => WriteAt(st, h, data, x);
    case Seek(h, position, whence) => SeekAt(st, h, position, whence, x);
    case Tell(h) =>
      if st.bfds[h.root].hasIovec {
        TellAt(st, h, x);
        TellAt(st, h, h.root);
      }
    case Stat(h) => LookAt(st, h.root, CacheNoSeekError, x);
    case Flush(h) => FlushAt(st, h, x);
  }

  lemma StepCacheAt<B>(st: State<B>, op: Op<B>, x: B)
    requires Known(st) && Good(st) && Enabled(st, op) && !Lossy(st, op) && x in st.bfds && !OnStream(op)
    ensures var (st', result) := Step(st, op);
            && Fit(st'.bfds[x], false)
            && (Some(x) != Target(op) ==> ViewBfd(st'.bfds[x]) == ViewBfd(st.bfds[x]))
            && Inv(st', None)
            && match Target(op)
               case None => st'.disk == st.disk && result == Done
               case Some(b) => (ViewBfd(st'.bfds[b]), st'.disk, result) == PlainAt(ViewBfd(st.bfds[b]), st.disk, op)
  {
    hide Inv, Known, OpenFile, BfdFopen, CacheClose, CacheCloseAll, CacheSetUncloseable;
    assert Fit(st.bfds[x], false);
    match op
    case Open(b) => OpenAt(st, b, x);
    case Adopt(b, mode) => AdoptAt(st, b, mode, x);
    case Close(b) => CloseAt(st, b, x); CloseAt(st, b, b);
    case CloseAll => CloseAllAt(st, x);
    case SetUncloseable(b, value) => UncloseableAt(st, b, value, x); UncloseableAt(st, b, value, b);
    case SetCacheable(b, value) => SetInv(st, b, st.bfds[b].(cacheable := value), None);
  }

  /** A lookup on its own, as fstat and fflush do it. */
  lemma LookAt<B>(st: State<B>, b: B, flag: CacheFlag, x: B)
    requires Known(st) && Inv(st, None) && b in st.bfds && x in st.bfds
    requires Fit(st.bfds[b], false) && Fit(st.bfds[x], false) && flag != CacheNoSeek
    ensures st.bfds[b].hasIovec ==>
              var (st', ok) := Lookup(st, b, flag);
              && Inv(st', None) && Fit(st'.bfds[x], false) && st'.disk == st.disk
              && ViewBfd(st'.bfds[x]) == ViewBfd(st.bfds[x]) && ViewBfd(st'.bfds[b]) == ViewBfd(st.bfds[b])
              && (ok || flag == CacheNoOpen) && st.bfds[b].name in st.disk
  {
    hide Inv, Known, Lookup;
    if st.bfds[b].hasIovec {
      PlacedName(st, b);
      LookupInv(st, b, flag);
      LookupAt(st, b, flag, x);
      LookupAt(st, b, flag, b);
    }
  }

  lemma FlushAt<B>(st: State<B>, h: Handle<B>, x: B)
    requires Known(st) && Inv(st, None) && h.root in st.bfds && x in st.bfds
    requires Fit(st.bfds[h.root], false) && Fit(st.bfds[x], false)
    ensures var (st', result) := BfdFlush(st, h);
            && Inv(st', None) && Fit(st'.bfds[x], false) && st'.disk == st.disk && result == Done
            && ViewBfd(st'.bfds[x]) == ViewBfd(st.bfds[x]) && ViewBfd(st'.bfds[h.root]) == ViewBfd(st.bfds[h.root])
  {
    hide Inv, Known, Lookup;
    var b := h.root;
    LookAt(st, b, CacheNoOpen, x);
    LookAt(st, b, CacheNoOpen, b);
    var (st1, ok) := Lookup(st, b, CacheNoOpen);
    if st.bfds[b].hasIovec && ok && LastDid(st1, b, DidWrite) {
      SetInv(st1, b, Flushed(st1, b).bfds[b], None);
    }
  }

  predicate Subjects<B(==)>(bfds: set<B>, ops: seq<Op<B>>) {
    forall i :: 0 <= i < |ops| ==> Subject(bfds, ops[i])
  }

  function Run<B(==)>(st: State<B>, ops: seq<Op<B>>): (r: (State<B>, seq<Result>))
    requires Known(st) && Subjects(st.bfds.Keys, ops)
    ensures |r.1| == |ops| && r.0.bfds.Keys == st.bfds.Keys && Known(r.0)
    decreases |ops|
  {
    if ops == [] then (st, [])
    else
      var (st1, result) := Step(st, ops[0]);
      var (st2, results) := Run(st1, ops[1..]);
      (st2, [result] + results)
  }

  function PlainRun<B(==)>(p: Plain<B>, ops: seq<Op<B>>): (r: (Plain<B>, seq<Result>))
    requires Subjects(p.bfds.Keys, ops)
    ensures |r.1| == |ops|
    decreases |ops|
  {
    if ops == [] then (p, [])
    else
      var (p1, result) := PlainStep(p, ops[0]);
      var (p2, results) := PlainRun(p1, ops[1..]);
      (p2, [result] + results)
  }

  /** Every operation of the run is one its caller may make. */
  predicate Legal<B(==)>(st: State<B>, ops: seq<Op<B>>)
    requires Known(st) && Subjects(st.bfds.Keys, ops)
    decreases |ops|
  {
    ops == [] || (Enabled(st, ops[0]) && Legal(Step(st, ops[0]).0, ops[1..]))
  }

  /** No operation of the run seeks before the start of a file the cache has closed, or opens one it cannot open again. */
  predicate NothingLost<B(==)>(st: State<B>, ops: seq<Op<B>>)
    requires Known(st) && Subjects(st.bfds.Keys, ops)
    decreases |ops|
  {
    ops == [] || (!Lossy(st, ops[0]) && NothingLost(Step(st, ops[0]).0, ops[1..]))
  }

  lemma StepTransparent<B>(st: State<B>, op: Op<B>)
    requires Known(st) && Good(st) && Enabled(st, op) && !Lossy(st, op)
    ensures var (st', result) := Step(st, op);
            Good(st') && PlainStep(View(st), op) == (View(st'), result)
  {
    hide Inv, Known, Step, PlainAt, View;
    var (st', result) := Step(st, op);
    forall x | x in st.bfds
      ensures Fit(st'.bfds[x], false)
      ensures Some(x) != Target(op) ==> ViewBfd(st'.bfds[x]) == ViewBfd(st.bfds[x])
    {
      StepAt(st, op, x);
    }
    if op == CloseAll {
      CloseAllTransparent(st);
    } else {
      var b := Target(op).value;
      StepAt(st, op, b);
      ViewAt(st, b);
      ViewUpdate(st, st', b);
    }
  }

  lemma ViewUpdate<B>(st: State<B>, st': State<B>, b: B)
    requires b in st.bfds && st'.bfds.Keys == st.bfds.Keys
    requires forall x :: x in st.bfds && x != b ==> ViewBfd(st'.bfds[x]) == ViewBfd(st.bfds[x])
    ensures View(st') == Plain(View(st).bfds[b := ViewBfd(st'.bfds[b])], st'.disk)
  {
  }

  lemma ViewAt<B>(st: State<B>, x: B)
    requires x in st.bfds
    ensures x in View(st).bfds && View(st).bfds[x] == ViewBfd(st.bfds[x]) && View(st).disk == st.disk
  {
  }

  lemma CloseAllTransparent<B>(st: State<B>)
    requires Known(st) && Good(st)
    ensures var (st', result) := Step(st, CloseAll); Inv(st', None) && View(st') == View(st) && result == Done
  {
    hide Inv, Known, CacheCloseAll;
    var st' := CacheCloseAll(st);
    CloseAllInv(st);
    forall x | x in st.bfds
      ensures ViewBfd(st'.bfds[x]) == ViewBfd(st.bfds[x])
    {
      StepAt(st, CloseAll, x);
    }
  }

  lemma {:induction false} CloseAllInv<B>(st: State<B>)
    requires Known(st) && Inv(st, None)
    ensures Inv(CacheCloseAll(st), None) && CacheCloseAll(st).disk == st.disk && CacheCloseAll(st).lru == []
    decreases |st.lru|
  {
    if st.lru != [] {
      CloseAllStep(st);
      DeleteOrNot(st, st.lru[0]);
      CloseAllInv(CacheClose(st, st.lru[0]));
    }
  }

  lemma DeleteOrNot<B>(st: State<B>, b: B)
    requires Known(st) && Inv(st, None) && b in st.lru
    ensures Inv(CacheClose(st, b), None)
  {
    DeleteInv(st, b, None);
  }

  /** Cache transparency over whole runs. */
  lemma {:induction false} RunTransparent<B>(st: State<B>, ops: seq<Op<B>>)
    requires Known(st) && Good(st) && Subjects(st.bfds.Keys, ops)
    requires Legal(st, ops) && NothingLost(st, ops)
    ensures var (st', results) := Run(st, ops);
            Good(st') && PlainRun(View(st), ops) == (View(st'), results)
    decreases |ops|
  {
    hide Good, Known, Step, PlainStep, View;
    if ops != [] {
      ViewKeys(st);
      StepTransparent(st, ops[0]);
      RunTransparent(Step(st, ops[0]).0, ops[1..]);
    } else {
      ViewKeys(st);
    }
  }

  lemma ViewKeys<B>(st: State<B>)
    ensures View(st).bfds.Keys == st.bfds.Keys
  {
  }

  // ----- what is excluded can be noticed -----

  function Own<B>(b: B): Handle<B> {
    Handle(b, 0, None)
  }

  function Rewrites<B>(b: B): seq<Op<B>> {
    [Write(Own(b), [0]), Seek(Own(b), 0, SeekSet), Write(Own(b), [1]), Stat(Own(b)), Seek(Own(b), 0, SeekSet), Read(Own(b), 1)]
  }

  /** Two ways of asking a BFD: for its position, or to write and read after the cache has closed what it can. */
  function Asking<B>(b: B, thorough: bool): (ops: seq<Op<B>>)
    ensures ops != []
  {
    if thorough then [CloseAll] + Rewrites(b) else [Tell(Own(b))]
  }

  /** Whether asking any BFD, in either way, after any part of the run gives the plain answers. */
  ghost predicate Faithful<B>(st: State<B>, ops: seq<Op<B>>)
    requires Known(st) && Subjects(st.bfds.Keys, ops)
  {
    forall b, k, thorough: bool :: b in st.bfds && 0 <= k <= |ops| ==> SameAnswers(st, ops, k, b, thorough)
  }

  ghost predicate SameAnswers<B>(st: State<B>, ops: seq<Op<B>>, k: nat, b: B, thorough: bool)
    requires Known(st) && Subjects(st.bfds.Keys, ops) && b in st.bfds && k <= |ops|
  {
    var asked := ops[..k] + Asking(b, thorough);
    Subjects(st.bfds.Keys, asked) && Run(st, asked).1 == PlainRun(View(st), asked).1
  }

  /** A lost seek is noticed at once: the stream reports 0 where the plain machine stayed put. */
  lemma LostSeekShows<B>(st: State<B>, op: Op<B>)
    requires Known(st) && Good(st) && Enabled(st, op) && SeekLost(st, op)
    ensures var st1 := Step(st, op).0;
            && Step(st1, Tell(Own(op.h.root))).1 == Count(0)
            && PlainStep(View(st), op).0 == View(st)
            && PlainStep(View(st), Tell(Own(op.h.root))).1 == Count(st.bfds[op.h.root].where)
            && st.bfds[op.h.root].where > 0
  {
    hide Inv, Known, Lookup;
    var b := op.h.root;
    ViewAt(st, b);
    assert Fit(st.bfds[b], false);
    SetLastIoAt(st, b, IoSeek, b);
    var st0 := SetLastIo(st, b, IoSeek);
    LookupAt(st0, b, CacheNoSeek, b);
    LookupInv(st0, b, CacheNoSeek);
    var st1 := Lookup(st0, b, CacheNoSeek).0;
    assert Step(st, op).0 == st1;
    LookupKeepsStream(st1, b);
    assert View(st).bfds[b := View(st).bfds[b]] == View(st).bfds;
  }

  lemma LookupKeepsStream<B>(st: State<B>, b: B)
    requires Known(st) && b in st.bfds && st.bfds[b].stream.Some?
    ensures var (st', ok) := Lookup(st, b, CacheNoOpen); ok && Ftell(st'.bfds[b]) == Ftell(st.bfds[b])
  {
  }

  /** bfd_cache_close_all closes what is on the ring and changes nothing else. */
  lemma {:induction false} CloseAllFrame<B>(st: State<B>, x: B)
    requires Known(st) && Inv(st, None) && x in st.bfds
    ensures var s, s' := st.bfds[x], CacheCloseAll(st).bfds[x];
            && CacheCloseAll(st).disk == st.disk
            && (s' == s || s' == s.(stream := None, closedByCache := true))
    decreases |st.lru|
  {
    if st.lru != [] {
      CloseAllStep(st);
      DeleteOrNot(st, st.lru[0]);
      CloseAllFrame(CacheClose(st, st.lru[0]), x);
    }
  }

  lemma CloseAllCloses<B>(st: State<B>, x: B)
    requires Known(st) && Inv(st, None) && x in st.lru
    ensures x in st.bfds && CacheCloseAll(st).bfds[x].stream.None?
  {
    var st' := CacheCloseAll(st);
    CloseAllInv(st);
    CloseAllFrame(st, x);
    assert Placed(st, x, None) && Placed(st', x, None);
  }

  lemma PlainAdopt<B>(st: State<B>, op: Op<B>)
    requires op.Adopt? && op.b in st.bfds
    ensures var (s, disk, result) := PlainFopen(ViewBfd(st.bfds[op.b]), st.disk, op.mode);
            PlainStep(View(st), op) == (Plain(View(st).bfds[op.b := s], disk), result)
  {
    ViewAt(st, op.b);
  }

  /** After bfd_fopen and a close-all every BFD is as it should be, but the rights of one have changed. */
  lemma AdoptedThenClosed<B>(st: State<B>, b: B, mode: FopenMode, x: B)
    requires Known(st) && Good(st) && b in st.bfds && !st.bfds[b].hasIovec && x in st.bfds
    requires BfdFopen(st, b, mode).1 == Done
    ensures var st1 := BfdFopen(st, b, mode).0;
            var st2 := CacheCloseAll(st1);
            var (s, disk, _) := PlainFopen(ViewBfd(st.bfds[b]), st.disk, mode);
            && Inv(st2, None) && Fit(st2.bfds[x], false) && st2.disk == disk
            && ViewBfd(st2.bfds[b]) == s.(rights := RightsOf(s.direction))
            && (x != b ==> ViewBfd(st2.bfds[x]) == ViewBfd(st.bfds[x]))
  {
    hide Known, Inv, BfdFopen, CacheCloseAll, PlainFopen;
    var st1 := BfdFopen(st, b, mode).0;
    assert Fit(st.bfds[b], false) && Fit(st.bfds[x], false);
    AdoptAt(st, b, mode, x);
    CloseAllInv(st1);
    CloseAllCloses(st1, b);
    CloseAllFrame(st1, b);
    CloseAllFrame(st1, x);
  }

  /** A file opened in an unfit mode, and closed by the cache, is one that comes back with other rights. */
  lemma UnfitAdopted<B>(st: State<B>, b: B, mode: FopenMode)
    requires Known(st) && Good(st) && b in st.bfds && !st.bfds[b].hasIovec
    requires mode.letter == LetterR ==> st.bfds[b].name in st.disk
    ensures var (st1, result) := BfdFopen(st, b, mode);
            var st2 := CacheCloseAll(st1);
            var (s, disk, plain) := PlainFopen(ViewBfd(st.bfds[b]), st.disk, mode);
            && result == plain == Done && s.rights == Granted(mode) && s.pos == 0 && s.inited && s.name in disk
            && Good(st2) && View(st2) == Plain(View(st).bfds[b := s.(rights := RightsOf(DirectionOf(mode)))], disk)
  {
    hide Known, Inv, Fit, BfdFopen, CacheCloseAll, PlainFopen, View;
    GoodAt(st, b);
    PlainFopenIs(ViewBfd(st.bfds[b]), st.disk, mode);
    AdoptAt(st, b, mode, b);
    var st2 := CacheCloseAll(BfdFopen(st, b, mode).0);
    forall x | x in st.bfds
      ensures Fit(st2.bfds[x], false)
      ensures x != b ==> ViewBfd(st2.bfds[x]) == ViewBfd(st.bfds[x])
    {
      AdoptedThenClosed(st, b, mode, x);
    }
    AdoptedThenClosed(st, b, mode, b);
    ViewUpdate(st, st2, b);
  }

  lemma GoodAt<B>(st: State<B>, b: B)
    requires Good(st) && b in st.bfds
    ensures Inv(st, None) && Fit(st.bfds[b], false) && (!st.bfds[b].hasIovec ==> st.bfds[b].where == 0)
  {
  }

  lemma StepAdopt<B>(st: State<B>, op: Op<B>)
    requires Known(st) && op.Adopt? && op.b in st.bfds
    ensures Step(st, op) == BfdFopen(st, op.b, op.mode)
  {
  }

  lemma PlainFopenIs(s: PlainBfd, disk: Disk, mode: FopenMode)
    ensures var (s', disk', result) := PlainFopen(s, disk, mode);
            if mode.letter == LetterR && s.name !in disk then result == Failed
            else
              && result == Done && s.name in disk'
              && s' == s.(inited := true, rights := Granted(mode), direction := DirectionOf(mode))
  {
  }

  /** The answers of a BFD on the plain machine, asked by itself. */
  function Answers<B>(s: PlainBfd, disk: Disk, ops: seq<Op<B>>): (r: seq<Result>)
    ensures |r| == |ops|
    decreases |ops|
  {
    if ops == [] then []
    else
      var (s', disk', result) := PlainAt(s, disk, ops[0]);
      [result] + Answers(s', disk', ops[1..])
  }

  lemma {:induction false} PlainAnswers<B>(p: Plain<B>, b: B, ops: seq<Op<B>>)
    requires b in p.bfds && forall i :: 0 <= i < |ops| ==> Target(ops[i]) == Some(b)
    ensures PlainRun(p, ops).1 == Answers(p.bfds[b], p.disk, ops)
    decreases |ops|
  {
    if ops != [] {
      PlainAnswers(PlainStep(p, ops[0]).0, b, ops[1..]);
    }
  }

  /** The plain machine after the two writes of Rewrites. */
  function Rewritten<B>(s: PlainBfd, disk: Disk, b: B): (PlainBfd, Disk) {
    var (s1, d1, _) := PlainWrite(s, disk, [0]);
    var (s2, d2, _) := PlainSeek(s1, d1, 0, 0, SeekSet);
    var (s3, d3, _) := PlainWrite(s2, d2, [1]);
    (s3, d3)
  }

  lemma RewrittenSize<B>(s: PlainBfd, disk: Disk, b: B)
    requires s.inited && s.name in disk && s.pos == 0 && s.rights.writable
    ensures var (s3, d3) := Rewritten(s, disk, b);
            var size := |disk[s.name]|;
            && s3.inited && s3.name == s.name && s.name in d3 && s3.rights == s.rights
            && |d3[s.name]| == if s.rights.appends then size + 2 else if size == 0 then 1 else size
  {
    hide FileWrite;
  }

  lemma RewritesAnswers<B>(s: PlainBfd, disk: Disk, b: B)
    requires s.inited && s.name in disk
    ensures var r := Answers(s, disk, Rewrites(b));
            var (s3, d3) := Rewritten(s, disk, b);
            && r[0] == PlainWrite(s, disk, [0]).2
            && (s3.inited && s3.name in d3 ==> r[3] == Count(|d3[s3.name]|))
            && (s3.inited ==> r[5] == PlainRead(s3.(pos := 0), d3, 0, None, 1).2)
  {
    hide Answers, PlainWrite, PlainRead;
    var ops := Rewrites(b);
    var (s1, d1, r0) := PlainAt(s, disk, ops[0]);
    var (s2, d2, r1) := PlainAt(s1, d1, ops[1]);
    var (s3, d3, r2) := PlainAt(s2, d2, ops[2]);
    var (s4, d4, r3) := PlainAt(s3, d3, ops[3]);
    var (s5, d5, r4) := PlainAt(s4, d4, ops[4]);
    AnswersStep(s, disk, ops);
    AnswersStep(s1, d1, ops[1..]);
    AnswersStep(s2, d2, ops[2..]);
    AnswersStep(s3, d3, ops[3..]);
    AnswersStep(s4, d4, ops[4..]);
    AnswersStep(s5, d5, ops[5..]);
  }

  /** Writing and reading tells every combination of rights from those with which a file is reopened. */
  lemma RewritesTell<B>(s: PlainBfd, disk: Disk, b: B)
    requires s.inited && s.name in disk && s.pos == 0
    ensures var r := Answers(s, disk, Rewrites(b));
            var size := |disk[s.name]|;
            && (!s.rights.writable ==> r[0] == Failed)
            && (s.rights.writable ==> r[0] == Count(1))
            && (s.rights.writable ==> r[3] == Count(if s.rights.appends then size + 2 else if size == 0 then 1 else size))
            && (s.rights.writable ==> (r[5] == Data([]) <==> !s.rights.readable))
  {
    hide Answers, FileWrite, Rewritten, Rewrites;
    RewritesAnswers(s, disk, b);
    if s.rights.writable {
      RewrittenSize(s, disk, b);
    }
  }

  lemma AnswersStep<B>(s: PlainBfd, disk: Disk, ops: seq<Op<B>>)
    requires ops != []
    ensures var (s', disk', result) := PlainAt(s, disk, ops[0]);
            Answers(s, disk, ops) == [result] + Answers(s', disk', ops[1..])
  {
  }

  /** Operations that neither open nor close a BFD for good, nor seek backwards, may always be made. */
  predicate Harmless<B>(op: Op<B>) {
    match op
    case Seek(h, position, whence) => whence == SeekSet && position >= 0
    case Open(_) => false
    case Adopt(_, _) => false
    case Close(_) => false
    case _ => true
  }

  lemma {:induction false} HarmlessRun<B>(st: State<B>, ops: seq<Op<B>>)
    requires Known(st) && Subjects(st.bfds.Keys, ops) && forall i :: 0 <= i < |ops| ==> Harmless(ops[i])
    ensures Legal(st, ops) && NothingLost(st, ops)
    decreases |ops|
  {
    hide Known, Step;
    if ops != [] {
      HarmlessRun(Step(st, ops[0]).0, ops[1..]);
    }
  }

  lemma {:induction false} AskRun<B>(st: State<B>, ops: seq<Op<B>>, k: nat, b: B, thorough: bool)
    requires Known(st) && Good(st) && Subjects(st.bfds.Keys, ops) && b in st.bfds
    requires 0 < k <= |ops| && Enabled(st, ops[0]) && !Lossy(st, ops[0])
    ensures SameAnswers(st, ops, k, b, thorough) <==> SameAnswers(Step(st, ops[0]).0, ops[1..], k - 1, b, thorough)
  {
    hide Good, Known, Step, PlainStep, View, Lossy, Enabled, Asking;
    ViewKeys(st);
    StepTransparent(st, ops[0]);
    var asked := ops[..k] + Asking(b, thorough);
    assert asked[1..] == ops[1..][..k - 1] + Asking(b, thorough);
    assert asked[0] == ops[0];
    AskedSubjects(st.bfds.Keys, ops[..k], b, thorough);
    var st1 := Step(st, ops[0]).0;
    ViewKeys(st1);
    TailsDiffer(Run(st, asked).1, PlainRun(View(st), asked).1);
    assert Run(st, asked).1[1..] == Run(st1, asked[1..]).1;
    assert PlainRun(View(st), asked).1[1..] == PlainRun(View(st1), asked[1..]).1;
  }

  lemma AskedSubjects<B>(bfds: set<B>, ops: seq<Op<B>>, b: B, thorough: bool)
    requires Subjects(bfds, ops) && b in bfds
    ensures Subjects(bfds, ops + Asking(b, thorough))
  {
  }

  lemma TailsDiffer(a: seq<Result>, b: seq<Result>)
    requires a != [] && b != [] && a[0] == b[0]
    ensures a == b <==> a[1..] == b[1..]
  {
    assert a == [a[0]] + a[1..] && b == [b[0]] + b[1..];
  }

  /** The exact condition of cache transparency, for every run. */
  lemma {:induction false} TransparentExactly<B>(st: State<B>, ops: seq<Op<B>>)
    requires Known(st) && Good(st) && Subjects(st.bfds.Keys, ops) && Legal(st, ops)
    ensures NothingLost(st, ops) <==> Faithful(st, ops)
    decreases |ops|
  {
    hide Good, Known, Step, PlainStep, View, SeekLost, ModeLost, Enabled, SameAnswers;
    forall b, thorough: bool | b in st.bfds
      ensures SameAnswers(st, ops, 0, b, thorough)
    {
      AskNow(st, ops, b, thorough);
    }
    if ops != [] {
      if SeekLost(st, ops[0]) {
        AskAfterLoss(st, ops);
      } else if ModeLost(st, ops[0]) {
        AskAfterUnfit(st, ops);
      } else {
        StepTransparent(st, ops[0]);
        var st1 := Step(st, ops[0]).0;
        TransparentExactly(st1, ops[1..]);
        forall b, k, thorough: bool | b in st.bfds && 0 < k <= |ops|
          ensures SameAnswers(st, ops, k, b, thorough) <==> SameAnswers(st1, ops[1..], k - 1, b, thorough)
        {
          AskRun(st, ops, k, b, thorough);
        }
        if Faithful(st, ops) {
          forall b, k, thorough: bool | b in st1.bfds && 0 <= k <= |ops[1..]|
            ensures SameAnswers(st1, ops[1..], k, b, thorough)
          {
            assert SameAnswers(st, ops, k + 1, b, thorough);
          }
        }
      }
    }
  }

  lemma AskNow<B>(st: State<B>, ops: seq<Op<B>>, b: B, thorough: bool)
    requires Known(st) && Good(st) && Subjects(st.bfds.Keys, ops) && b in st.bfds
    ensures SameAnswers(st, ops, 0, b, thorough)
  {
    hide Good, Known, View, Run, PlainRun, Legal, NothingLost;
    ViewKeys(st);
    var asked := Asking(b, thorough);
    assert ops[..0] + asked == asked;
    HarmlessRun(st, asked);
    RunTransparent(st, asked);
  }

  lemma RunOne<B>(st: State<B>, op: Op<B>)
    requires Known(st) && Subject(st.bfds.Keys, op)
    ensures Run(st, [op]).1 == [Step(st, op).1] && PlainRun(View(st), [op]).1 == [PlainStep(View(st), op).1]
  {
    hide Known, Step, PlainStep;
    assert [op][1..] == [];
  }

  lemma AskAfterLoss<B>(st: State<B>, ops: seq<Op<B>>)
    requires Known(st) && Good(st) && Subjects(st.bfds.Keys, ops) && ops != []
    requires Enabled(st, ops[0]) && SeekLost(st, ops[0])
    ensures !Faithful(st, ops)
  {
    hide Good, Known, PlainStep, View, Step;
    var b := ops[0].h.root;
    var t: Op<B> := Tell(Own(b));
    var asked := ops[..1] + [t];
    assert asked == [ops[0], t] && asked[1..] == [t];
    ViewKeys(st);
    LostSeekShows(st, ops[0]);
    RunOne(Step(st, ops[0]).0, t);
    RunOne(st, t);
    assert Run(st, asked).1[1] == Count(0);
    assert PlainRun(View(st), asked).1[1] == Count(st.bfds[b].where);
    assert !SameAnswers(st, ops, 1, b, false);
  }

  lemma AskAfterUnfit<B>(st: State<B>, ops: seq<Op<B>>)
    requires Known(st) && Good(st) && Subjects(st.bfds.Keys, ops) && ops != []
    requires Enabled(st, ops[0]) && ModeLost(st, ops[0])
    ensures !Faithful(st, ops)
  {
    hide Good, Known, PlainAt, PlainFopen, PlainStep, View, Step, BfdFopen, CacheCloseAll, Rewrites, ModeFits, Run, PlainRun,
         Subjects;
    var b := ops[0].b;
    var rest := Rewrites(b);
    var asked := ops[..1] + Asking(b, true);
    assert asked == [ops[0], CloseAll] + rest;
    StepAdopt(st, ops[0]);
    ViewKeys(st);
    var st1 := Step(st, ops[0]).0;
    CloseAllIs(st1);
    AskedSubjects(st.bfds.Keys, ops[..1], b, true);
    FirstSubject(st.bfds.Keys, ops);
    RunTwo(st, ops[0], CloseAll, rest);
    PlainRunTwo(View(st), ops[0], CloseAll, rest);
    PlainCloseAll(PlainStep(View(st), ops[0]).0);
    AfterUnfit(st, ops[0]);
    assert !SameAnswers(st, ops, 1, b, true);
  }

  lemma FirstSubject<B>(bfds: set<B>, ops: seq<Op<B>>)
    requires Subjects(bfds, ops)
    ensures Subjects(bfds, ops[..if ops == [] then 0 else 1])
  {
  }

  lemma AfterUnfit<B>(st: State<B>, op: Op<B>)
    requires Known(st) && Good(st) && Enabled(st, op) && ModeLost(st, op)
    ensures var st2 := CacheCloseAll(BfdFopen(st, op.b, op.mode).0);
            var p := PlainStep(View(st), op).0;
            && Subjects(st2.bfds.Keys, Rewrites(op.b)) && Subjects(p.bfds.Keys, Rewrites(op.b))
            && Run(st2, Rewrites(op.b)).1 != PlainRun(p, Rewrites(op.b)).1
  {
    hide Good, Known, PlainAt, PlainFopen, PlainStep, View, BfdFopen, CacheCloseAll, Rewrites, Legal, NothingLost, Run, PlainRun;
    var b, mode := op.b, op.mode;
    UnfitAdopted(st, b, mode);
    PlainAdopt(st, op);
    ViewKeys(st);
    var st2 := CacheCloseAll(BfdFopen(st, b, mode).0);
    ViewKeys(st2);
    RewritesHarmless(st2, b);
    RunTransparent(st2, Rewrites(b));
    RewritesDiffer(PlainStep(View(st), op).0, View(st2), b, mode);
  }

  lemma RunRest<B>(st: State<B>, ops: seq<Op<B>>)
    requires Known(st) && Subjects(st.bfds.Keys, ops) && ops != []
    ensures Run(st, ops).1[1..] == Run(Step(st, ops[0]).0, ops[1..]).1
  {
    hide Known, Step;
  }

  lemma RunTwo<B>(st: State<B>, a: Op<B>, b: Op<B>, rest: seq<Op<B>>)
    requires Known(st) && Subjects(st.bfds.Keys, [a, b] + rest)
    ensures Subject(st.bfds.Keys, a) && Subject(st.bfds.Keys, b) && Subjects(st.bfds.Keys, rest)
    ensures var st2 := Step(Step(st, a).0, b).0; Run(st, [a, b] + rest).1[2..] == Run(st2, rest).1
  {
    hide Known, Step, Run, Subject;
    var ops := [a, b] + rest;
    assert ops[0] == a && ops[1..] == [b] + rest && ops[1..][0] == b && ops[1..][1..] == rest;
    RestSubjects(st.bfds.Keys, a, b, rest);
    RunRest(st, ops);
    RunRest(Step(st, a).0, ops[1..]);
  }

  lemma PlainRunRest<B>(p: Plain<B>, ops: seq<Op<B>>)
    requires Subjects(p.bfds.Keys, ops) && ops != []
    ensures PlainRun(p, ops).1[1..] == PlainRun(PlainStep(p, ops[0]).0, ops[1..]).1
  {
    hide PlainStep;
  }

  lemma PlainRunTwo<B>(p: Plain<B>, a: Op<B>, b: Op<B>, rest: seq<Op<B>>)
    requires Subjects(p.bfds.Keys, [a, b] + rest)
    ensures Subject(p.bfds.Keys, a) && Subject(p.bfds.Keys, b) && Subjects(p.bfds.Keys, rest)
    ensures var p2 := PlainStep(PlainStep(p, a).0, b).0; PlainRun(p, [a, b] + rest).1[2..] == PlainRun(p2, rest).1
  {
    hide PlainStep, PlainRun, Subject;
    var ops := [a, b] + rest;
    assert ops[0] == a && ops[1..] == [b] + rest && ops[1..][0] == b && ops[1..][1..] == rest;
    RestSubjects(p.bfds.Keys, a, b, rest);
    PlainRunRest(p, ops);
    PlainRunRest(PlainStep(p, a).0, ops[1..]);
  }

  lemma RestSubjects<B>(bfds: set<B>, a: Op<B>, b: Op<B>, rest: seq<Op<B>>)
    requires Subjects(bfds, [a, b] + rest)
    ensures Subject(bfds, a) && Subject(bfds, b) && Subjects(bfds, rest)
  {
    var ops := [a, b] + rest;
    assert ops[0] == a && ops[1] == b;
    forall i | 0 <= i < |rest|
      ensures Subject(bfds, rest[i])
    {
      assert ops[i + 2] == rest[i];
    }
  }

  lemma PlainCloseAll<B>(p: Plain<B>)
    ensures PlainStep(p, CloseAll).0 == p
  {
  }

  lemma CloseAllIs<B>(st: State<B>)
    requires Known(st)
    ensures Step(st, CloseAll) == (CacheCloseAll(st), Done)
  {
  }

  lemma RewritesHarmless<B>(st: State<B>, b: B)
    requires Known(st) && b in st.bfds
    ensures Subjects(st.bfds.Keys, Rewrites(b)) && Legal(st, Rewrites(b)) && NothingLost(st, Rewrites(b))
  {
    hide Legal, NothingLost, Known;
    HarmlessRun(st, Rewrites(b));
  }

  lemma RewritesDiffer<B>(p: Plain<B>, q: Plain<B>, b: B, mode: FopenMode)
    requires b in p.bfds && q == Plain(p.bfds[b := p.bfds[b].(rights := RightsOf(DirectionOf(mode)))], p.disk)
    requires p.bfds[b].rights == Granted(mode) && !ModeFits(mode)
    requires p.bfds[b].inited && p.bfds[b].name in p.disk && p.bfds[b].pos == 0
    ensures Subjects(p.bfds.Keys, Rewrites(b)) && PlainRun(p, Rewrites(b)).1 != PlainRun(q, Rewrites(b)).1
  {
    hide PlainRun, Answers;
    PlainAnswers(p, b, Rewrites(b));
    PlainAnswers(q, b, Rewrites(b));
    RewritesTell(p.bfds[b], p.disk, b);
    RewritesTell(q.bfds[b], q.disk, b);
  }

  // ----- what opening does to the files -----

  /** Only the first opening of an output file empties it; none touches another file. */
  lemma FirstOpen<B>(st: State<B>, b: B)
    requires Known(st) && Good(st) && b in st.bfds && Enabled(st, Open(b))
    ensures var (st', result) := Step(st, Open(b));
            var s := st.bfds[b];
            && (result == Done <==> Writes(s.direction) || s.name in st.disk)
            && st'.disk == if Writes(s.direction) then st.disk[s.name := []] else st.disk
  {
    hide Known, Inv, OpenFile;
    GoodAt(st, b);
    OpenAt(st, b, b);
  }

  /** "r" wants a file, "w" empties it, and "a" leaves what is there. */
  lemma FirstFopen<B>(st: State<B>, b: B, mode: FopenMode)
    requires Known(st) && Good(st) && b in st.bfds && !st.bfds[b].hasIovec
    ensures var (st', result) := Step(st, Adopt(b, mode));
            var name := st.bfds[b].name;
            && (result == Done <==> mode.letter != LetterR || name in st.disk)
            && (result == Done ==> name in st'.disk)
            && (forall x :: x in st.disk && x != name ==> x in st'.disk && st'.disk[x] == st.disk[x])
            && (mode.letter == LetterW ==> st'.disk[name] == [])
            && (mode.letter != LetterW && name in st.disk ==> st'.disk[name] == st.disk[name])
            && (mode.letter == LetterA && name !in st.disk ==> st'.disk[name] == [])
  {
    hide Known, Inv, BfdFopen;
    GoodAt(st, b);
    AdoptAt(st, b, mode, b);
  }
}
