/**
  The ring is in the order of last use: over any run of operations each BFD on it was looked up,
  opened or unpinned more recently than those behind it, so the cache closes the file that has been
  idle longest.
 */
module CacheLru {
  import opened Bytes
  import opened CacheModel
  import opened CacheIo
  import opened CacheTransparency
  import opened UpdateRule
  import opened OpenBound

  /** The BFD whose stream an operation puts to use, told from the state before it. */
  function Used<B(==)>(st: State<B>, op: Op<B>): Option<B>
    requires Subject(st.bfds.Keys, op)
  {
    match Target(op)
    case None => None
    case Some(b) =>
      var s := st.bfds[b];
      var uses :=
        match op
        case Open(_) => Writes(s.direction) || s.name in st.disk
        case Adopt(_, mode) => mode.letter == LetterR ==> s.name in st.disk
        case Read(h, n) => s.hasIovec && Clip(s.where, h.offset, h.window, n).Some?
        case Write(_, _) => s.hasIovec
        case Seek(h, position, whence) =>
          s.hasIovec && !Redundant(s, if whence == SeekCur then position else position + h.offset, whence)
        case Tell(_) => s.stream.Some?
        case Stat(_) => s.hasIovec
        case Flush(_) => s.stream.Some?
        case SetUncloseable(_, value) => value != s.pinned && s.hasIovec
        case _ => false;
      if uses then Some(b) else None
  }

  function IndexIn<B(==)>(s: seq<B>, b: B): nat {
    if s == [] || s[0] == b then 0 else 1 + IndexIn(s[1..], b)
  }

  /**
    The number of the last operation of a run that used b, counted from 1. A BFD that the run did not
    use is older than all, and was so before by its place on the ring.
   */
  function LastUse<B(==)>(st: State<B>, ops: seq<Op<B>>, b: B): int
    requires Known(st) && Subjects(st.bfds.Keys, ops)
    decreases |ops|
  {
    if ops == [] then -(IndexIn(st.lru, b) as int)
    else
      var n := |ops|;
      assert Subject(st.bfds.Keys, ops[n - 1]);
      if Used(Run(st, ops[..n - 1]).0, ops[n - 1]) == Some(b) then n else LastUse(st, ops[..n - 1], b)
  }

  // ----- order -----

  predicate Ordered<B>(lru: seq<B>, c: B -> int) {
    forall i, j :: 0 <= i < j < |lru| ==> c(lru[i]) > c(lru[j])
  }

  /** All but b were used before now. */
  predicate Earlier<B(==)>(lru: seq<B>, c: B -> int, b: Option<B>, now: int) {
    forall i :: 0 <= i < |lru| && Some(lru[i]) != b ==> c(lru[i]) < now
  }

  function Touch<B(==)>(c: B -> int, b: Option<B>, now: int): B -> int {
    x => if Some(x) == b then now else c(x)
  }

  lemma WithoutOrdered<B>(lru: seq<B>, c: B -> int, b: B, o: Option<B>, now: int)
    requires Distinct(lru) && Ordered(lru, c) && Earlier(lru, c, o, now)
    ensures Ordered(Without(lru, b), c) && Earlier(Without(lru, b), c, o, now)
  {
    hide Ordered, Earlier;
    if b in lru {
      var k :| 0 <= k < |lru| && lru[k] == b;
      WithoutAt(lru, k);
      CutOrdered(lru, c, k, o, now);
    }
  }

  lemma CutOrdered<B>(lru: seq<B>, c: B -> int, k: nat, o: Option<B>, now: int)
    requires k < |lru| && Ordered(lru, c) && Earlier(lru, c, o, now)
    ensures Ordered(lru[..k] + lru[k + 1..], c) && Earlier(lru[..k] + lru[k + 1..], c, o, now)
  {
  }

  /** b was used now, and comes first if it is on the ring. */
  lemma FrontOrdered<B>(lru: seq<B>, c: B -> int, b: B, now: int)
    requires Ordered(lru, c) && Earlier(lru, c, Some(b), now) && b !in lru
    ensures Ordered(lru, Touch(c, Some(b), now)) && Ordered([b] + lru, Touch(c, Some(b), now))
    ensures Earlier([b] + lru, Touch(c, Some(b), now), Some(b), now)
  {
  }

  /** What a cache operation for b keeps: order under the clock c, where b may have been used now. */
  predicate Timely<B(==)>(st: State<B>, c: B -> int, b: Option<B>, now: int) {
    Ordered(st.lru, c) && Earlier(st.lru, c, b, now)
  }

  lemma MakeRoomTimely<B>(st: State<B>, c: B -> int, b: Option<B>, now: int)
    requires Known(st) && Distinct(st.lru) && Timely(st, c, b, now)
    ensures Timely(MakeRoom(st), c, b, now) && forall x :: x in MakeRoom(st).lru ==> x in st.lru
  {
    hide Distinct, Ordered, Earlier;
    var v := Victim(st, |st.lru|);
    if v.Some? {
      WithoutOrdered(st.lru, c, st.lru[v.value], b, now);
    }
  }

  lemma InvDistinct<B>(st: State<B>, loose: Option<B>)
    requires Inv(st, loose)
    ensures Distinct(st.lru) && Known(st)
  {
  }

  lemma JoinTimely<B>(st: State<B>, c: B -> int, b: B, now: int)
    requires Inv(st, Some(b)) && b in st.bfds && Known(st) && b !in st.lru && Timely(st, c, Some(b), now)
    ensures Timely(CacheInit(st, b), Touch(c, Some(b), now), Some(b), now)
  {
    hide Inv, Ordered, Earlier, Touch, Victim, Without;
    InvDistinct(st, Some(b));
    MakeRoomTimely(st, c, Some(b), now);
    FrontOrdered(MakeRoom(st).lru, c, b, now);
  }

  lemma OpenTimely<B>(st: State<B>, c: B -> int, b: B, now: int)
    requires Inv(st, None) && Known(st) && b in st.bfds && st.bfds[b].stream.None? && Timely(st, c, Some(b), now)
    ensures var (st', ok) := OpenFile(st, b);
            Timely(st', if ok then Touch(c, Some(b), now) else c, Some(b), now)
  {
    hide Inv, Known, Timely, MakeRoom, CacheInit, Opened, Touch;
    var s0 := Set(st, b, st.bfds[b].(cacheable := true));
    PlacedPinned(st, b);
    SetInv(st, b, s0.bfds[b], None);
    SetTimely(st, c, b, now, s0.bfds[b]);
    InvDistinct(s0, None);
    MakeRoomTimely(s0, c, Some(b), now);
    CloseOneInv(s0, None);
    PlacedPinned(s0, b);
    MakeRoomStream(s0, b);
    var s1 := MakeRoom(s0);
    OpenedInv(s1, b);
    OpenedStream(s1, b, b);
    var s2 := Opened(s1, b);
    SameTimely(s1, s2, c, Some(b), now);
    if s2.bfds[b].stream.Some? {
      JoinTimely(s2, c, b, now);
    }
  }

  lemma SetTimely<B>(st: State<B>, c: B -> int, b: B, now: int, s: BfdState)
    requires Timely(st, c, Some(b), now)
    ensures Timely(Set(st, b, s), c, Some(b), now)
  {
  }

  lemma SameTimely<B>(st: State<B>, st': State<B>, c: B -> int, b: Option<B>, now: int)
    requires Timely(st, c, b, now) && st'.lru == st.lru
    ensures Timely(st', c, b, now)
  {
  }

  /** A lookup that finds or opens a stream is a use of it. */
  lemma LookupTimely<B>(st: State<B>, c: B -> int, b: B, flag: CacheFlag, now: int)
    requires Inv(st, None) && Known(st) && b in st.bfds && st.bfds[b].hasIovec && Timely(st, c, Some(b), now)
    ensures var st' := Lookup(st, b, flag).0;
            var used := st.bfds[b].stream.Some? || flag != CacheNoOpen;
            Timely(st', if used then Touch(c, Some(b), now) else c, Some(b), now)
  {
    hide Inv, Known, OpenFile, MakeRoom, Distinct;
    InvDistinct(st, None);
    PlacedRing(st, b);
    if st.lru != [] && st.lru[0] == b {
      HeadTimely(st.lru, c, b, now);
    } else if st.bfds[b].pinned {
      AbsentTimely(st.lru, c, b, now);
    } else if st.bfds[b].stream.Some? {
      WithoutOrdered(st.lru, c, b, Some(b), now);
      FrontOrdered(Without(st.lru, b), c, b, now);
    } else if flag != CacheNoOpen {
      OpenTimely(st, c, b, now);
      OpenFileStream(st, b, b);
    }
  }

  lemma PlacedRing<B>(st: State<B>, b: B)
    requires Inv(st, None) && b in st.bfds
    ensures b in st.lru <==> st.bfds[b].stream.Some? && !st.bfds[b].pinned
    ensures st.bfds[b].pinned ==> st.bfds[b].stream.Some?
    ensures st.bfds[b].stream.Some? ==> st.bfds[b].hasIovec
  {
    assert Placed(st, b, None);
  }

  lemma HeadTimely<B>(lru: seq<B>, c: B -> int, b: B, now: int)
    requires lru != [] && lru[0] == b && Distinct(lru) && Ordered(lru, c) && Earlier(lru, c, Some(b), now)
    ensures Ordered(lru, Touch(c, Some(b), now)) && Earlier(lru, Touch(c, Some(b), now), Some(b), now)
  {
  }

  lemma AbsentTimely<B>(lru: seq<B>, c: B -> int, b: B, now: int)
    requires b !in lru && Ordered(lru, c) && Earlier(lru, c, Some(b), now)
    ensures Ordered(lru, Touch(c, Some(b), now)) && Earlier(lru, Touch(c, Some(b), now), Some(b), now)
  {
  }

  // ----- one operation -----

  lemma TouchTwice<B>(st: State<B>, c: B -> int, b: Option<B>, now: int)
    requires Timely(st, Touch(Touch(c, b, now), b, now), b, now)
    ensures Timely(st, Touch(c, b, now), b, now)
  {
  }

  lemma Later<B>(st: State<B>, c: B -> int, b: B, now: int)
    requires Timely(st, Touch(c, Some(b), now), Some(b), now)
    ensures Timely(st, Touch(c, Some(b), now), None, now + 1)
  {
  }

  lemma Still<B>(st: State<B>, c: B -> int, now: int)
    requires Timely(st, c, None, now)
    ensures Timely(st, Touch(c, None, now), None, now + 1)
    ensures forall b: B :: Timely(st, c, Some(b), now)
  {
  }

  lemma RealSeekTimely<B>(st: State<B>, c: B -> int, b: B, p: int, whence: Whence, now: int)
    requires Inv(st, None) && Known(st) && b in st.bfds && st.bfds[b].hasIovec && Timely(st, c, Some(b), now)
    ensures Timely(RealSeek(st, b, p, whence).0, Touch(c, Some(b), now), Some(b), now)
  {
    hide Inv, Known, Lookup, Timely, Touch;
    SetLastIoInv(st, b, IoSeek);
    var st0 := SetLastIo(st, b, IoSeek);
    SameTimely(st, st0, c, Some(b), now);
    LookupTimely(st0, c, b, if whence == SeekCur then CacheNormal else CacheNoSeek, now);
    var st1 := Lookup(st0, b, if whence == SeekCur then CacheNormal else CacheNoSeek).0;
    SameTimely(st1, RealSeek(st, b, p, whence).0, Touch(c, Some(b), now), Some(b), now);
  }

  lemma TurnAroundTimely<B>(st: State<B>, c: B -> int, b: B, from: LastIo, now: int)
    requires Inv(st, None) && Known(st) && b in st.bfds && st.bfds[b].hasIovec && Timely(st, c, Some(b), now)
    ensures var st' := TurnAround(st, b, from).0;
            if st.bfds[b].lastIo == from then Timely(st', Touch(c, Some(b), now), Some(b), now) else st' == st
  {
    hide Inv, Known, RealSeek, Timely, Touch;
    if st.bfds[b].lastIo == from {
      SetLastIoInv(st, b, IoForce);
      SameTimely(st, SetLastIo(st, b, IoForce), c, Some(b), now);
      RealSeekTimely(SetLastIo(st, b, IoForce), c, b, 0, SeekCur, now);
    }
  }

  /** A lookup after a turn-around is one use. */
  lemma TransferTimely<B>(st: State<B>, c: B -> int, b: B, from: LastIo, lastIo: LastIo, now: int)
    requires Inv(st, None) && Known(st) && b in st.bfds && st.bfds[b].hasIovec && Timely(st, c, Some(b), now)
    ensures var st1 := SetLastIo(TurnAround(st, b, from).0, b, lastIo);
            && Inv(st1, None) && st1.bfds[b].hasIovec && TurnAround(st, b, from).1
            && Timely(Lookup(st1, b, CacheNormal).0, Touch(c, Some(b), now), Some(b), now)
  {
    hide Inv, Known, TurnAround, Lookup, Timely, Touch;
    TurnAroundTimely(st, c, b, from, now);
    TurnAroundKeeps(st, b, from);
    var st0 := TurnAround(st, b, from).0;
    SetLastIoInv(st0, b, lastIo);
    var st1 := SetLastIo(st0, b, lastIo);
    if st.bfds[b].lastIo == from {
      SameTimely(st0, st1, Touch(c, Some(b), now), Some(b), now);
      LookupTimely(st1, Touch(c, Some(b), now), b, CacheNormal, now);
      TouchTwice(Lookup(st1, b, CacheNormal).0, c, Some(b), now);
    } else {
      SameTimely(st0, st1, c, Some(b), now);
      LookupTimely(st1, c, b, CacheNormal, now);
    }
  }

  lemma TurnAroundKeeps<B>(st: State<B>, b: B, from: LastIo)
    requires Inv(st, None) && Known(st) && b in st.bfds && st.bfds[b].hasIovec
    ensures var (st', ok) := TurnAround(st, b, from); ok && Inv(st', None) && st'.bfds[b].hasIovec
  {
    hide Inv, Known, RealSeek;
    if st.bfds[b].lastIo == from {
      SetLastIoInv(st, b, IoForce);
      var st0 := SetLastIo(st, b, IoForce);
      RealSeekInv(st0, b, 0, SeekCur);
      SeekHere(st0, b);
    }
  }

  lemma SeekHere<B>(st: State<B>, b: B)
    requires Inv(st, None) && Known(st) && b in st.bfds && st.bfds[b].hasIovec
    ensures var (st', ok) := RealSeek(st, b, 0, SeekCur); ok && st'.bfds[b].hasIovec
  {
    hide Inv, Known, Lookup;
    SetLastIoInv(st, b, IoSeek);
    var st0 := SetLastIo(st, b, IoSeek);
    LookupStream(st0, b, CacheNormal, b);
    LookupInv(st0, b, CacheNormal);
    var st1 := Lookup(st0, b, CacheNormal).0;
    PlacedRing(st1, b);
  }

  lemma ReadTimely<B>(st: State<B>, c: B -> int, h: Handle<B>, n: nat, now: int)
    requires Inv(st, None) && Known(st) && h.root in st.bfds && st.bfds[h.root].hasIovec && Timely(st, c, Some(h.root), now)
    requires Clip(st.bfds[h.root].where, h.offset, h.window, n).Some?
    ensures Timely(BfdRead(st, h, n).0, Touch(c, Some(h.root), now), Some(h.root), now)
  {
    hide Inv, Known, TurnAround, Lookup, Timely, Touch, FileRead, Clip;
    var b := h.root;
    TransferTimely(st, c, b, IoWrite, IoRead, now);
    SameTimely(Lookup(SetLastIo(TurnAround(st, b, IoWrite).0, b, IoRead), b, CacheNormal).0, BfdRead(st, h, n).0,
               Touch(c, Some(b), now), Some(b), now);
  }

  lemma WriteTimely<B>(st: State<B>, c: B -> int, h: Handle<B>, data: seq<byte>, now: int)
    requires Inv(st, None) && Known(st) && h.root in st.bfds && st.bfds[h.root].hasIovec && Timely(st, c, Some(h.root), now)
    ensures Timely(BfdWrite(st, h, data).0, Touch(c, Some(h.root), now), Some(h.root), now)
  {
    hide Inv, Known, TurnAround, Lookup, Timely, Touch, FileWrite, WritesAt;
    var b := h.root;
    TransferTimely(st, c, b, IoRead, IoWrite, now);
    SameTimely(Lookup(SetLastIo(TurnAround(st, b, IoRead).0, b, IoWrite), b, CacheNormal).0, BfdWrite(st, h, data).0,
               Touch(c, Some(b), now), Some(b), now);
  }

  /** What asks a stream that is there. */
  lemma AskTimely<B>(st: State<B>, c: B -> int, op: Op<B>, now: int)
    requires Inv(st, None) && Known(st) && Enabled(st, op) && (op.Tell? || op.Flush? || op.Stat?)
    requires Timely(st, c, Some(op.h.root), now)
    ensures var b := op.h.root;
            Timely(Step(st, op).0, if Used(st, op).Some? then Touch(c, Some(b), now) else c, Some(b), now)
  {
    hide Inv, Known, Lookup, Timely, Touch;
    var b := op.h.root;
    PlacedRing(st, b);
    if st.bfds[b].hasIovec {
      var flag := if op.Stat? then CacheNoSeekError else CacheNoOpen;
      LookupTimely(st, c, b, flag, now);
      SameTimely(Lookup(st, b, flag).0, Step(st, op).0, if Used(st, op).Some? then Touch(c, Some(b), now) else c, Some(b), now);
    }
  }

  lemma OpenOk<B>(st: State<B>, b: B)
    requires Inv(st, None) && Known(st) && b in st.bfds && st.bfds[b].stream.None?
    ensures OpenFile(st, b).1 <==> Writes(st.bfds[b].direction) || st.bfds[b].name in st.disk
  {
    hide Inv, Known, MakeRoom, CacheInit;
    var s0 := Set(st, b, st.bfds[b].(cacheable := true));
    PlacedPinned(st, b);
    SetInv(st, b, s0.bfds[b], None);
    PlacedPinned(s0, b);
    MakeRoomStream(s0, b);
  }

  lemma AdoptTimely<B>(st: State<B>, c: B -> int, b: B, mode: FopenMode, now: int)
    requires Inv(st, None) && Known(st) && b in st.bfds && !st.bfds[b].hasIovec && Timely(st, c, Some(b), now)
    ensures var used := mode.letter == LetterR ==> st.bfds[b].name in st.disk;
            Timely(BfdFopen(st, b, mode).0, if used then Touch(c, Some(b), now) else c, Some(b), now)
  {
    hide Inv, Known, Timely, Touch, CacheInit;
    PlacedStream(st, b);
    var (disk, f) := Fopen(st.disk, st.bfds[b].name, mode);
    if f.Some? {
      StreamedInv(st, b, mode, f.value, disk);
      var s1 := Set(st, b, st.bfds[b].(stream := f, direction := DirectionOf(mode))).(disk := disk);
      SameTimely(st, s1, c, Some(b), now);
      InvDistinct(s1, Some(b));
      JoinTimely(s1, c, b, now);
      SameTimely(CacheInit(s1, b), BfdFopen(st, b, mode).0, Touch(c, Some(b), now), Some(b), now);
    }
  }

  lemma PinTimely<B>(st: State<B>, c: B -> int, b: B, value: bool, now: int)
    requires Inv(st, None) && Known(st) && b in st.bfds && st.bfds[b].hasIovec && value != st.bfds[b].pinned
    requires Timely(st, c, Some(b), now)
    ensures Timely(CacheSetUncloseable(st, b, value).0, Touch(c, Some(b), now), Some(b), now)
  {
    hide Inv, Known, Lookup, Touch, Ordered, Earlier, Without;
    PlacedRing(st, b);
    if value {
      LookupTimely(st, c, b, CacheNormal, now);
      LookupInv(st, b, CacheNormal);
      var st1 := Lookup(st, b, CacheNormal).0;
      InvDistinct(st1, None);
      WithoutOrdered(st1.lru, Touch(c, Some(b), now), b, Some(b), now);
    } else {
      FrontOrdered(st.lru, c, b, now);
    }
  }

  lemma CloseTimely<B>(st: State<B>, c: B -> int, b: B, now: int)
    requires Inv(st, None) && Known(st) && b in st.bfds && Timely(st, c, None, now)
    ensures Timely(CacheClose(st, b), c, None, now)
  {
    hide Inv, Known, Ordered, Earlier, Without;
    InvDistinct(st, None);
    WithoutOrdered(st.lru, c, b, None, now);
  }

  /** The order of last use is kept by every operation. */
  lemma StepTimely<B>(st: State<B>, c: B -> int, op: Op<B>, now: int)
    requires Inv(st, None) && Known(st) && Enabled(st, op) && Timely(st, c, None, now)
    ensures Timely(Step(st, op).0, Touch(c, Used(st, op), now), None, now + 1)
  {
    hide Inv, Known, Timely, Touch, OpenFile, BfdFopen, BfdRead, BfdWrite, RealSeek, BfdTell, BfdFlush, BfdStat, CacheClose,
         CacheCloseAll, CacheSetUncloseable, Clip;
    Still(st, c, now);
    var st' := Step(st, op).0;
    if op == CloseAll {
      CloseAllInv(st);
      EmptyTimely(st', c, now);
      return;
    }
    var b := Target(op).value;
    match op {
      case Open(_) => PlacedStream(st, b); OpenTimely(st, c, b, now); OpenOk(st, b);
      case Adopt(_, mode) => AdoptTimely(st, c, b, mode, now);
      case Read(h, n) =>
        if Used(st, op).Some? {
          ReadTimely(st, c, h, n, now);
        }
      case Write(h, data) =>
        if st.bfds[b].hasIovec {
          WriteTimely(st, c, h, data, now);
        }
      case Seek(h, position, whence) =>
        if Used(st, op).Some? {
          RealSeekTimely(st, c, b, if whence == SeekCur then position else position + h.offset, whence, now);
        }
      case Tell(_) => AskTimely(st, c, op, now);
      case Stat(_) => AskTimely(st, c, op, now);
      case Flush(_) => AskTimely(st, c, op, now);
      case SetUncloseable(_, value) =>
        if Used(st, op).Some? {
          PinTimely(st, c, b, value, now);
        }
      case Close(_) => CloseTimely(st, c, b, now); Still(st', c, now);
      case SetCacheable(_, _) => SameTimely(st, st', c, None, now); Still(st', c, now);
    }
    if Used(st, op).Some? {
      Later(st', c, b, now);
    } else if !op.Close? && !op.SetCacheable? {
      UnusedRing(st, op);
      assert Timely(st, c, Some(b), now);
      Unused(st, st', c, b, now);
    }
  }

  /** Without a use nothing is put on the ring. */
  lemma UnusedRing<B>(st: State<B>, op: Op<B>)
    requires Inv(st, None) && Known(st) && Enabled(st, op) && Target(op).Some? && Used(st, op).None?
    requires !op.Close? && !op.SetCacheable?
    ensures Step(st, op).0.lru == st.lru || Target(op).value !in Step(st, op).0.lru
    ensures op.Read? || op.Write? || op.Seek? || op.SetUncloseable? ==> Step(st, op).0 == st
  {
    hide Inv, Known, OpenFile, MakeRoom, CacheInit, RealSeek, Clip;
    var b := Target(op).value;
    PlacedRing(st, b);
    if op.Open? {
      PlacedStream(st, b);
      OpenOk(st, b);
      OpenFileInv(st, b);
      PlacedRing(OpenFile(st, b).0, b);
    }
  }

  lemma Unused<B>(st: State<B>, st': State<B>, c: B -> int, b: B, now: int)
    requires Timely(st, c, None, now) && Timely(st', c, Some(b), now) && (st'.lru == st.lru || b !in st'.lru)
    ensures Timely(st', Touch(c, None, now), None, now + 1)
  {
  }

  lemma EmptyTimely<B>(st: State<B>, c: B -> int, now: int)
    requires st.lru == []
    ensures Timely(st, Touch(c, None, now), None, now + 1)
  {
  }

  // ----- whole runs -----

  lemma {:induction false} RunSnoc<B>(st: State<B>, ops: seq<Op<B>>)
    requires Known(st) && Subjects(st.bfds.Keys, ops) && ops != []
    ensures var n := |ops| - 1;
            && Subjects(st.bfds.Keys, ops[..n]) && Subject(st.bfds.Keys, ops[n])
            && Run(st, ops).0 == Step(Run(st, ops[..n]).0, ops[n]).0
            && (Legal(st, ops) ==> Legal(st, ops[..n]) && Enabled(Run(st, ops[..n]).0, ops[n]))
    decreases |ops|
  {
    hide Known, Step, Enabled;
    var n := |ops| - 1;
    assert Subject(st.bfds.Keys, ops[n]) && Subject(st.bfds.Keys, ops[0]);
    if n == 0 {
      assert ops[..0] == [] && ops[1..] == [];
    } else {
      var st1 := Step(st, ops[0]).0;
      RunSnoc(st1, ops[1..]);
      assert ops[1..][..n - 1] == ops[..n][1..] && ops[1..][n - 1] == ops[n] && ops[..n][0] == ops[0];
    }
  }

  lemma {:induction false} OrderedAtFirst<B>(lru: seq<B>)
    requires Distinct(lru)
    ensures Ordered(lru, b => -(IndexIn(lru, b) as int)) && Earlier(lru, b => -(IndexIn(lru, b) as int), None, 1)
  {
    forall i | 0 <= i < |lru|
      ensures IndexIn(lru, lru[i]) == i
    {
      IndexAt(lru, i);
    }
  }

  lemma {:induction false} IndexAt<B>(lru: seq<B>, i: nat)
    requires Distinct(lru) && i < |lru|
    ensures IndexIn(lru, lru[i]) == i
    decreases |lru|
  {
    if i > 0 {
      IndexAt(lru[1..], i - 1);
    }
  }

  /** After any run the BFDs on the ring stand in the order of their last uses. */
  lemma {:induction false} RingByUse<B>(st: State<B>, ops: seq<Op<B>>)
    requires Known(st) && Inv(st, None) && Subjects(st.bfds.Keys, ops) && Legal(st, ops)
    ensures var st' := Run(st, ops).0;
            && Inv(st', None)
            && (forall i, j :: 0 <= i < j < |st'.lru| ==> LastUse(st, ops, st'.lru[i]) > LastUse(st, ops, st'.lru[j]))
            && (forall i :: 0 <= i < |st'.lru| ==> LastUse(st, ops, st'.lru[i]) <= |ops|)
    decreases |ops|
  {
    hide Known, Step, Enabled, Inv, Used, Run, Legal, Subjects;
    if ops == [] {
      RunNothing(st);
      InvDistinct(st, None);
      OrderedAtFirst(st.lru);
    } else {
      var n := |ops| - 1;
      RunSnoc(st, ops);
      RingByUse(st, ops[..n]);
      var st1 := Run(st, ops[..n]).0;
      var c := b => LastUse(st, ops[..n], b);
      StepTimely(st1, c, ops[n], |ops|);
      StepBound(st1, ops[n]);
    }
  }

  lemma RunNothing<B>(st: State<B>)
    requires Known(st)
    ensures Run(st, []).0 == st
  {
  }

  // ----- what is closed -----

  /** close_one closes v: its position is kept, it leaves the ring, and nothing else changes. */
  predicate Closes<B(==)>(st: State<B>, st': State<B>, v: B) {
    && v in st.bfds && st'.bfds == st.bfds[v := st.bfds[v].(stream := None, where := Ftell(st.bfds[v]), closedByCache := true)]
    && st'.lru == Without(st.lru, v) && st'.disk == st.disk
  }

  /** Of the files it may close, close_one closes the one whose last use is oldest. */
  lemma ClosesOldest<B>(st: State<B>, c: B -> int)
    requires Known(st) && Distinct(st.lru) && Ordered(st.lru, c)
    ensures NoneCacheable(st) ==> CloseOne(st) == st
    ensures !NoneCacheable(st) ==>
              exists v :: v in st.lru && st.bfds[v].cacheable && Closes(st, CloseOne(st), v)
                          && forall x :: x in st.lru && st.bfds[x].cacheable && x != v ==> c(v) < c(x)
  {
    hide Ordered, Distinct, Victim, Without;
    var k := Victim(st, |st.lru|);
    if k.Some? {
      var v := st.lru[k.value];
      forall x | x in st.lru && st.bfds[x].cacheable && x != v
        ensures c(v) < c(x)
      {
        VictimOldest(st, c, x);
      }
      assert v in st.lru && st.bfds[v].cacheable && Closes(st, CloseOne(st), v);
    }
  }

  lemma VictimOldest<B>(st: State<B>, c: B -> int, x: B)
    requires Known(st) && Ordered(st.lru, c) && x in st.lru && st.bfds[x].cacheable
    ensures var k := Victim(st, |st.lru|); k.Some? && (x != st.lru[k.value] ==> c(st.lru[k.value]) < c(x))
  {
    var i :| 0 <= i < |st.lru| && st.lru[i] == x;
  }

  /** So after any run it is the file that has been idle longest. */
  lemma EvictsIdlest<B>(st: State<B>, ops: seq<Op<B>>)
    requires Known(st) && Inv(st, None) && Subjects(st.bfds.Keys, ops) && Legal(st, ops)
    ensures var st' := Run(st, ops).0;
            && (NoneCacheable(st') ==> CloseOne(st') == st')
            && (!NoneCacheable(st') ==>
                  exists v :: v in st'.lru && st'.bfds[v].cacheable && Closes(st', CloseOne(st'), v)
                    && forall x :: x in st'.lru && st'.bfds[x].cacheable && x != v ==> LastUse(st, ops, v) < LastUse(st, ops, x))
  {
    hide Known, Inv, Run, Legal, Subjects, CloseOne, NoneCacheable, Closes, LastUse;
    RingByUse(st, ops);
    var st' := Run(st, ops).0;
    InvDistinct(st', None);
    ClosesOldest(st', b => LastUse(st, ops, b));
  }
}
