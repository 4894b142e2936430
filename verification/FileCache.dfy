/**
  cache.c and the positioned I/O of bfdio.c over the heap: BFDs on an intrusive circular list,
  with the two globals bfd_last_cache and open_files. Every method is proved to do to the abstract
  state what its counterpart in CacheModel and CacheIo does.
 */
module FileCache {
  import opened Bytes
  import opened CacheModel
  import opened CacheIo
  import opened CacheTransparency
  import opened UpdateRule
  import opened OpenBound

  class Bfd {
    const name: string
    var direction: Direction
    var iostream: Option<File>
    var where: nat
    var lastIo: LastIo
    var cacheable: bool
    var inFormatMatches: bool
    var openedOnce: bool
    var cached: bool           // iovec == &cache_iovec
    var closedByCache: bool
    var lruNext: Bfd?
    var lruPrev: Bfd?
    // Fixed when an archive element is created.
    const myArchive: Bfd?
    const thin: bool
    const origin: nat
    const areltSize: Option<nat>
    ghost const depth: nat

    constructor (name: string, direction: Direction)
      ensures this.name == name && this.direction == direction && myArchive == null
      ensures Snapshot() == BfdState(name, direction, None, 0, IoSeek, false, false, false, false, false)
    {
      this.name, this.direction := name, direction;
      iostream, where, lastIo := None, 0, IoSeek;
      cacheable, inFormatMatches, openedOnce, cached, closedByCache := false, false, false, false, false;
      lruNext, lruPrev := null, null;
      myArchive, thin, origin, areltSize, depth := null, false, 0, None, 0;
    }

    function Snapshot(): BfdState
      reads this
    {
      BfdState(name, direction, iostream, where, lastIo, cacheable, inFormatMatches, openedOnce, cached, closedByCache)
    }
  }

  /** Whether b is an element of an archive that holds its bytes. */
  predicate InArchive(b: Bfd) {
    b.myArchive != null && !b.myArchive.thin
  }

  ghost predicate Nested(b: Bfd)
    decreases b.depth
  {
    InArchive(b) ==> b.myArchive.depth < b.depth && Nested(b.myArchive)
  }

  ghost function Root(b: Bfd): Bfd
    requires Nested(b)
    decreases b.depth
  {
    if InArchive(b) then Root(b.myArchive) else b
  }

  ghost function Offset(b: Bfd): nat
    requires Nested(b)
    decreases b.depth
  {
    b.origin + if InArchive(b) then Offset(b.myArchive) else 0
  }

  ghost function HandleOf(b: Bfd): Handle<Bfd>
    requires Nested(b)
  {
    Handle(Root(b), Offset(b), if InArchive(b) then b.areltSize else None)
  }

  predicate OnHandle(op: Op<Bfd>) {
    op.Read? || op.Write? || op.Seek? || op.Tell? || op.Stat? || op.Flush?
  }

  /** The stream f after a read of n bytes that gave data. */
  function ReadTo(f: File, n: nat, data: seq<byte>): File {
    f.(pos := f.pos + |data|, prior := if f.rights.writable then AfterRead(n, data) else Positioned)
  }

  /** The neighbours of position i on a ring of n. */
  function Next(i: nat, n: nat): nat { if i + 1 >= n then 0 else i + 1 }
  function Prev(i: nat, n: nat): nat { if i == 0 then if n == 0 then 0 else n - 1 else i - 1 }

  /** Position, on a ring of n, of the element that position j holds once position k is cut out. */
  function Skip(j: nat, k: nat): nat { if j < k then j else j + 1 }

  lemma SkipAround(j: nat, k: nat, n: nat)
    requires k < n && j < n - 1
    ensures Skip(Next(j, n - 1), k) == if Skip(j, k) == Prev(k, n) then Next(k, n) else Next(Skip(j, k), n)
    ensures Skip(Prev(j, n - 1), k) == if Skip(j, k) == Next(k, n) then Prev(k, n) else Prev(Skip(j, k), n)
  {
  }

  class Cache {
    const maxOpen: nat
    var last: Bfd?             // bfd_last_cache
    var openFiles: nat
    var disk: map<string, seq<byte>>
    ghost var misused: bool
    ghost var ring: seq<Bfd>
    ghost var roots: set<Bfd>

    ghost function Abs(): State<Bfd>
      reads this, roots
    {
      State(maxOpen, ring, map b | b in roots :: b.Snapshot(), openFiles, disk, misused)
    }

    /** lru_next and lru_prev make ring, read from bfd_last_cache, one closed chain both ways. */
    ghost predicate Linked()
      reads this`ring, this`last, this`roots, roots`lruNext, roots`lruPrev
    {
      && Distinct(ring)
      && (forall b :: b in ring ==> b in roots)
      && last == (if ring == [] then null else ring[0])
      && (forall i {:trigger ring[i].lruNext} :: 0 <= i < |ring| ==> ring[i].lruNext == ring[Next(i, |ring|)])
      && (forall i {:trigger ring[i].lruPrev} :: 0 <= i < |ring| ==> ring[i].lruPrev == ring[Prev(i, |ring|)])
    }

    /** Where only the record of abfd changed, the abstract state changed only there. */
    twostate lemma OnlyChanged(abfd: Bfd)
      requires roots == old(roots) && abfd in roots
      requires forall b :: b in roots && b != abfd ==> b.Snapshot() == old(b.Snapshot())
      ensures Abs() == State(maxOpen, ring, old(Abs()).bfds[abfd := abfd.Snapshot()], openFiles, disk, misused)
    {
    }

    /** Relinking changes nothing but the order in which the ring is read. */
    twostate lemma OnlyLinks()
      requires roots == old(roots) && openFiles == old(openFiles) && disk == old(disk) && misused == old(misused)
      requires forall b :: b in roots ==> b.Snapshot() == old(b.Snapshot())
      ensures Abs() == old(Abs()).(lru := ring)
    {
    }

    /** The record of b in the abstract state. */
    lemma AbsAt(b: Bfd)
      requires Linked() && b in roots
      ensures Known(Abs()) && Abs().bfds.Keys == roots && Abs().bfds[b] == b.Snapshot() && Abs().disk == disk
    {
    }

    lemma InRoots(b: Bfd)
      requires Linked() && b in ring
      ensures b in roots
    {
    }

    lemma AbsParts()
      ensures Abs() == State(maxOpen, ring, Abs().bfds, openFiles, disk, misused)
    {
    }

    ghost predicate Valid()
      reads this, roots
    {
      Linked() && Inv(Abs(), None)
    }

    constructor (maxOpen: nat, bfds: set<Bfd>, disk: map<string, seq<byte>>)
      requires maxOpen > 0
      requires forall b :: b in bfds ==> b.Snapshot().stream == None && !b.inFormatMatches && !b.cached
      ensures Valid() && roots == bfds && ring == [] && openFiles == 0 && this.disk == disk && !misused
    {
      this.maxOpen, last, openFiles, this.disk := maxOpen, null, 0, disk;
      misused, ring, roots := false, [], bfds;
      new;
      assert Pinned(Abs()) == {};
    }

    method Insert(abfd: Bfd)
      requires Linked() && abfd in roots && abfd !in ring
      modifies this`last, this`ring, roots`lruNext, roots`lruPrev
      ensures Linked() && ring == [abfd] + old(ring)
    {
      if last == null {
        abfd.lruNext := abfd;
        abfd.lruPrev := abfd;
      } else {
        assert last == ring[0] && last.lruPrev == ring[|ring| - 1];
        abfd.lruNext := last;
        abfd.lruPrev := last.lruPrev;
        abfd.lruPrev.lruNext := abfd;
        abfd.lruNext.lruPrev := abfd;
      }
      last := abfd;
      ring := [abfd] + ring;
    }

    /** The two link writes of snip, at position k of the ring. */
    method Unlink(abfd: Bfd, ghost k: nat)
      requires Linked() && k < |ring| && ring[k] == abfd
      modifies roots`lruNext, roots`lruPrev
      ensures abfd.lruNext == ring[if |ring| == 1 then 0 else Next(k, |ring|)]
      ensures forall i {:trigger ring[i].lruNext} :: 0 <= i < |ring| ==>
                ring[i].lruNext == ring[if i == Prev(k, |ring|) then Next(k, |ring|) else Next(i, |ring|)]
      ensures forall i {:trigger ring[i].lruPrev} :: 0 <= i < |ring| ==>
                ring[i].lruPrev == ring[if i == Next(k, |ring|) then Prev(k, |ring|) else Prev(i, |ring|)]
    {
      hide Distinct;
      DistinctAt(ring, Prev(k, |ring|));
      DistinctAt(ring, Next(k, |ring|));
      abfd.lruPrev.lruNext := abfd.lruNext;
      abfd.lruNext.lruPrev := abfd.lruPrev;
    }

    method Snip(abfd: Bfd)
      requires Linked() && abfd in ring
      modifies this`last, this`ring, roots`lruNext, roots`lruPrev
      ensures Linked() && ring == Without(old(ring), abfd)
    {
      hide Distinct, Without;
      ghost var k := Position(ring, abfd);
      ghost var r := ring;
      Unlink(abfd, k);
      if abfd == last {
        last := abfd.lruNext;
        if abfd == last {
          last := null;
        }
      }
      Relinked(r, k);
      ring := Without(r, abfd);
    }

    /** bfd_cache_delete; fclose is taken to succeed. */
    method CacheDelete(abfd: Bfd) returns (ok: bool)
      requires Linked() && abfd in ring && openFiles > 0
      modifies this, roots
      ensures Linked() && roots == old(roots)
      ensures ok && Abs() == Delete(old(Abs()), abfd)
    {
      hide Abs, Linked, Without;
      InRoots(abfd);
      AbsAt(abfd);
      AbsParts();
      Snip(abfd);
      abfd.iostream := None;
      openFiles := openFiles - 1;
      abfd.closedByCache := true;
      ok := true;
      OnlyChanged(abfd);
    }

    /** The search of close_one, from the least recently used end. */
    method FindVictim() returns (toKill: Bfd?)
      requires Linked()
      ensures match Victim(Abs(), |ring|)
              case None => toKill == null
              case Some(v) => toKill == ring[v]
    {
      if last == null {
        return null;
      }
      toKill := last.lruPrev;
      ghost var i := |ring| - 1;
      DistinctAt(ring, 0);
      while !toKill.cacheable
        invariant 0 <= i < |ring| && toKill == ring[i]
        invariant Victim(Abs(), |ring|) == Victim(Abs(), i + 1)
        decreases i
      {
        if toKill == last {
          return null;
        }
        toKill := toKill.lruPrev;
        i := i - 1;
      }
    }

    /** close_one */
    method CloseOne() returns (ok: bool)
      requires Linked() && (ring != [] ==> openFiles > 0)
      requires forall b :: b in ring ==> b.iostream.Some?
      modifies this, roots
      ensures Linked() && roots == old(roots)
      ensures ok && Abs() == CacheModel.CloseOne(old(Abs()))
    {
      var toKill := FindVictim();
      if toKill == null {
        return true;
      }
      assert toKill in roots;
      hide Linked, Victim, Without;
      toKill.where := toKill.iostream.value.pos;
      OnlyChanged(toKill);
      ok := CacheDelete(toKill);
    }

    /** close_one, when the cache is full. */
    method MakeRoom() returns (ok: bool)
      requires Linked() && (ring != [] ==> openFiles > 0)
      requires forall b :: b in ring ==> b.iostream.Some?
      modifies this, roots
      ensures Linked() && roots == old(roots)
      ensures ok && Abs() == CacheModel.MakeRoom(old(Abs()))
    {
      ok := true;
      if openFiles >= maxOpen {
        ok := CloseOne();
      }
    }

    /** The part of _bfd_cache_init_unlocked after room was made. */
    method Register(abfd: Bfd)
      requires Linked() && abfd in roots && abfd !in ring
      modifies this, roots
      ensures Linked() && roots == old(roots)
      ensures Abs() == CacheModel.Register(old(Abs()), abfd)
    {
      hide Linked;
      abfd.cached := true;
      Insert(abfd);
      abfd.closedByCache := false;
      openFiles := openFiles + 1;
      OnlyChanged(abfd);
    }

    /** _bfd_cache_init_unlocked */
    method CacheInit(abfd: Bfd) returns (ok: bool)
      requires Linked() && abfd in roots && Inv(Abs(), Some(abfd))
      modifies this, roots
      ensures Linked() && roots == old(roots)
      ensures ok && Abs() == CacheModel.CacheInit(old(Abs()), abfd)
    {
      InvOpen(Some(abfd));
      CloseOneInv(Abs(), Some(abfd));
      hide Linked, CacheModel.MakeRoom, CacheModel.Register, Inv;
      ok := MakeRoom();
      PlacedLru(Abs(), Some(abfd), abfd);
      Register(abfd);
    }

    lemma InvOpen(loose: Option<Bfd>)
      requires Linked() && Inv(Abs(), loose)
      ensures ring != [] ==> openFiles > 0
      ensures forall b :: b in ring ==> b.iostream.Some?
    {
      forall b | b in ring
        ensures b.iostream.Some?
      {
        assert b in Abs().bfds;
        assert Placed(Abs(), b, loose);
      }
    }

    /** _bfd_real_fopen */
    method OpenStream(name: string, mode: FopenMode) returns (f: Option<File>)
      modifies this`disk
      ensures (disk, f) == Fopen(old(disk), name, mode)
    {
      var stream := Some(File(0, Granted(mode), Positioned));
      match mode.letter
      case LetterR => f := if name in disk then stream else None;
      case LetterW =>
        disk := disk[name := []];
        f := stream;
      case LetterA =>
        if name !in disk {
          disk := disk[name := []];
        }
        f := stream;
    }

    /** The switch on the direction in _bfd_open_file_unlocked. */
    method OpenByDirection(abfd: Bfd)
      requires Linked() && abfd in roots
      modifies this`disk, abfd`iostream, abfd`openedOnce
      ensures Abs() == Opened(old(Abs()), abfd)
    {
      hide Abs, Linked;
      AbsAt(abfd);
      AbsParts();
      var f;
      match abfd.direction {
        case NoDirection => f := OpenStream(abfd.name, ModeR);
        case ReadDirection => f := OpenStream(abfd.name, ModeR);
        case _ =>
          if abfd.openedOnce {
            f := OpenStream(abfd.name, ModeRPlus);
            if f == None {
              f := OpenStream(abfd.name, ModeWPlus);
            }
          } else {
            f := OpenStream(abfd.name, ModeWPlus);
            abfd.openedOnce := true;
          }
      }
      abfd.iostream := f;
      OnlyChanged(abfd);
    }

    /** The start of _bfd_open_file_unlocked. */
    method PrepareOpen(abfd: Bfd)
      requires Linked() && Inv(Abs(), None) && abfd in roots && abfd.iostream == None
      modifies this, roots
      ensures Linked() && roots == old(roots)
      ensures Abs() == CacheModel.MakeRoom(Set(old(Abs()), abfd, old(abfd.Snapshot()).(cacheable := true)))
      ensures Inv(Abs(), None) && abfd.iostream == None
    {
      hide Linked, Inv, Known, CacheModel.MakeRoom;
      PlacedPinned(Abs(), abfd);
      SetInv(Abs(), abfd, abfd.Snapshot().(cacheable := true), None);
      abfd.cacheable := true;
      OnlyChanged(abfd);
      MakeRoomStream(Abs(), abfd);
      CloseOneInv(Abs(), None);
      InvOpen(None);
      var ok := MakeRoom();
    }

    /** _bfd_open_file_unlocked */
    method OpenFile(abfd: Bfd) returns (found: bool)
      requires Linked() && Inv(Abs(), None) && abfd in roots && abfd.iostream == None
      modifies this, roots
      ensures Linked() && roots == old(roots)
      ensures (Abs(), found) == CacheModel.OpenFile(old(Abs()), abfd)
    {
      hide Linked, Inv, Known, CacheModel.MakeRoom, CacheModel.CacheInit, Opened;
      PrepareOpen(abfd);
      OpenedInv(Abs(), abfd);
      OpenByDirection(abfd);
      found := abfd.iostream.Some?;
      if found {
        var ok := CacheInit(abfd);
      }
    }

    method MoveToFront(abfd: Bfd)
      requires Linked() && abfd in ring
      modifies this`last, this`ring, roots`lruNext, roots`lruPrev
      ensures Linked() && Abs() == old(Abs()).(lru := [abfd] + Without(old(ring), abfd))
    {
      assert abfd in roots;
      hide Linked, Without;
      Snip(abfd);
      Insert(abfd);
      OnlyLinks();
    }

    /** bfd_cache_lookup_worker */
    method LookupWorker(abfd: Bfd, flag: CacheFlag) returns (found: bool)
      requires Linked() && Inv(Abs(), None) && abfd in roots && abfd != last
      modifies this, roots
      ensures Linked() && roots == old(roots)
      ensures (Abs(), found) == CacheModel.Lookup(old(Abs()), abfd, flag)
    {
      PlacedRing(abfd);
      hide Linked, Inv, CacheModel.OpenFile, Without;
      if abfd.inFormatMatches {
        return true;
      }
      if abfd.iostream.Some? {
        MoveToFront(abfd);
        return true;
      }
      if flag == CacheNoOpen {
        return false;
      }
      found := Reopen(abfd, flag);
    }

    /** The reopening and repositioning at the end of bfd_cache_lookup_worker. */
    method Reopen(abfd: Bfd, flag: CacheFlag) returns (found: bool)
      requires Linked() && Inv(Abs(), None) && abfd in roots && abfd.iostream == None
      modifies this, roots
      ensures Linked() && roots == old(roots)
      ensures var (st1, ok) := CacheModel.OpenFile(old(Abs()), abfd);
              found == ok &&
              Abs() == if !ok || flag == CacheNoSeek then st1 else SetStream(st1, abfd, st1.bfds[abfd].where, Positioned)
    {
      hide Linked, Inv, CacheModel.OpenFile;
      OpenFileInv(Abs(), abfd);
      found := OpenFile(abfd);
      if found && flag != CacheNoSeek {
        SeekStream(abfd, abfd.where);
      }
    }

    /** A successful _bfd_real_fseek to an absolute position. */
    method SeekStream(abfd: Bfd, position: nat)
      requires Linked() && abfd in roots && abfd.iostream.Some?
      modifies abfd`iostream
      ensures Linked() && abfd.iostream.Some? && Abs() == SetStream(old(Abs()), abfd, position, Positioned)
    {
      abfd.iostream := Some(abfd.iostream.value.(pos := position, prior := Positioned));
      OnlyChanged(abfd);
    }

    /** bfd_cache_lookup */
    method Lookup(abfd: Bfd, flag: CacheFlag) returns (found: bool)
      requires Linked() && Inv(Abs(), None) && abfd in roots
      modifies this, roots
      ensures Linked() && roots == old(roots) && Inv(Abs(), None)
      ensures (Abs(), found) == CacheModel.Lookup(old(Abs()), abfd, flag)
      ensures found <==> abfd.iostream.Some?
    {
      hide Inv;
      LookupInv(Abs(), abfd, flag);
      if abfd == last {
        found := true;
      } else {
        found := LookupWorker(abfd, flag);
      }
    }

    // ----- the iovec -----

    /** cache_btell */
    method CacheTell(abfd: Bfd) returns (pos: nat)
      requires Linked() && Inv(Abs(), None) && abfd in roots
      modifies this, roots
      ensures Linked() && roots == old(roots) && Inv(Abs(), None)
      ensures (Abs(), pos) == CacheIo.CacheTell(old(Abs()), abfd)
    {
      hide Linked, Inv, CacheModel.Lookup;
      var found := Lookup(abfd, CacheNoOpen);
      pos := if found then abfd.iostream.value.pos else abfd.where;
    }

    /** cache_bseek */
    method CacheSeek(abfd: Bfd, offset: int, whence: Whence) returns (ok: bool)
      requires Linked() && Inv(Abs(), None) && abfd in roots
      modifies this, roots
      ensures Linked() && roots == old(roots)
      ensures (Abs(), ok) == CacheIo.CacheSeek(old(Abs()), abfd, offset, whence)
    {
      hide Linked, Inv, CacheModel.Lookup;
      var found := Lookup(abfd, if whence != SeekCur then CacheNoSeek else CacheNormal);
      if !found {
        return false;
      }
      var target := if whence == SeekSet then offset else abfd.iostream.value.pos + offset;
      if target < 0 {
        return false;
      }
      SeekStream(abfd, target);
      ok := true;
    }

    /** cache_bread_1: one fread on a stream that can be read. */
    method CacheReadChunk(abfd: Bfd, nbytes: nat) returns (data: seq<byte>)
      requires abfd.iostream.Some? && abfd.iostream.value.rights.readable && abfd.name in disk
      modifies abfd`iostream, this`misused
      ensures data == FileRead(disk[abfd.name], old(abfd.iostream.value.pos), nbytes)
      ensures abfd.iostream == Some(ReadTo(old(abfd.iostream.value), nbytes, data))
      ensures misused == old(misused || abfd.iostream.value.prior == DidWrite)
    {
      var f := abfd.iostream.value;
      data := FileRead(disk[abfd.name], f.pos, nbytes);
      misused := misused || f.prior == DidWrite;
      abfd.iostream := Some(ReadTo(f, nbytes, data));
    }

    /** The loop of cache_bread: the request goes to fread in chunks of at most 8 MB. */
    method ReadChunks(abfd: Bfd, nbytes: nat) returns (buf: seq<byte>)
      requires abfd.iostream.Some? && abfd.iostream.value.rights.readable && abfd.name in disk && nbytes > 0
      modifies abfd`iostream, this`misused
      ensures buf == FileRead(disk[abfd.name], old(abfd.iostream.value.pos), nbytes)
      ensures abfd.iostream == Some(ReadTo(old(abfd.iostream.value), nbytes, buf))
      ensures misused == old(misused || abfd.iostream.value.prior == DidWrite)
    {
      hide FileRead, ReadTo;
      ghost var f, content := abfd.iostream.value, disk[abfd.name];
      ghost var started := false;
      buf := [];
      FileReadNone(content, f.pos);
      ReadToPos();
      while |buf| < nbytes
        invariant |buf| <= nbytes && buf == FileRead(content, f.pos, |buf|)
        invariant abfd.iostream == if started then Some(ReadTo(f, |buf|, buf)) else Some(f)
        invariant misused == (old(misused) || (started && f.prior == DidWrite))
        invariant started || buf == []
        decreases nbytes - |buf|
      {
        var chunkSize := Min(nbytes - |buf|, 0x800000);
        FileReadSplit(content, f.pos, |buf|, chunkSize);
        var chunk := CacheReadChunk(abfd, chunkSize);
        ReadMore(f, buf, chunkSize, chunk);
        assert [] + chunk == chunk;
        started := true;
        buf := buf + chunk;
        if |chunk| < chunkSize {
          FileReadShort(content, f.pos, |buf| - |chunk| + chunkSize, |buf|, nbytes);
          ReadShort(f, |buf| - |chunk| + chunkSize, nbytes, buf);
          break;
        }
      }
    }

    /** The same, as the abstract state sees it. */
    method ReadStream(abfd: Bfd, nbytes: nat) returns (buf: seq<byte>)
      requires Linked() && abfd in roots && abfd.iostream.Some? && abfd.iostream.value.rights.readable
      requires abfd.name in disk && nbytes > 0
      modifies abfd`iostream, this`misused
      ensures Linked()
      ensures buf == FileRead(Content(old(Abs()), abfd), Ftell(old(Abs()).bfds[abfd]), nbytes)
      ensures Abs() == Transfer(old(Abs()), abfd, Ftell(old(Abs()).bfds[abfd]) + |buf|, AfterRead(nbytes, buf), DidWrite)
    {
      hide Linked, FileRead;
      buf := ReadChunks(abfd, nbytes);
      OnlyChanged(abfd);
    }

    /** cache_bread */
    method CacheRead(abfd: Bfd, nbytes: nat) returns (got: Option<seq<byte>>)
      requires Linked() && Inv(Abs(), None) && abfd in roots
      modifies this, roots
      ensures Linked() && roots == old(roots)
      ensures (Abs(), got) == CacheIo.CacheRead(old(Abs()), abfd, nbytes)
    {
      hide Linked, Inv, CacheModel.Lookup, FileRead, Transfer;
      var found := Lookup(abfd, CacheNormal);
      if !found {
        return None;
      }
      if nbytes == 0 || !abfd.iostream.value.rights.readable {
        return Some([]);
      }
      PlacedDisk(abfd);
      var buf := ReadStream(abfd, nbytes);
      got := Some(buf);
    }

    lemma PlacedDisk(b: Bfd)
      requires Inv(Abs(), None) && b in roots && b.iostream.Some?
      ensures b.name in disk
    {
      assert Placed(Abs(), b, None);
    }

    /** fwrite on an open stream. */
    method WriteStream(abfd: Bfd, data: seq<byte>) returns (nwrite: Option<nat>)
      requires Linked() && abfd in roots && abfd.iostream.Some?
      modifies this`disk, this`misused, abfd`iostream
      ensures Linked()
      ensures var st := old(Abs());
              var s := st.bfds[abfd];
              if data == [] then nwrite == Some(0) && Abs() == st
              else if !s.stream.value.rights.writable then nwrite == None && Abs() == st
              else
                nwrite == Some(|data|) &&
                Abs() == Transfer(st, abfd, WritesAt(st, abfd) + |data|, DidWrite, DidRead)
                         .(disk := st.disk[s.name := FileWrite(Content(st, abfd), WritesAt(st, abfd), data)])
    {
      hide Abs, Linked, FileWrite;
      AbsAt(abfd);
      AbsParts();
      var f := abfd.iostream.value;
      if data == [] {
        return Some(0);
      }
      if !f.rights.writable {
        return None;
      }
      var content := if abfd.name in disk then disk[abfd.name] else [];
      var at := if f.rights.appends then |content| else f.pos;
      misused := misused || f.prior == DidRead;
      disk := disk[abfd.name := FileWrite(content, at, data)];
      abfd.iostream := Some(f.(pos := at + |data|, prior := if f.rights.readable then DidWrite else Positioned));
      nwrite := Some(|data|);
      OnlyChanged(abfd);
    }

    /** cache_bwrite */
    method CacheWrite(abfd: Bfd, data: seq<byte>) returns (nwrite: Option<nat>)
      requires Linked() && Inv(Abs(), None) && abfd in roots
      modifies this, roots
      ensures Linked() && roots == old(roots)
      ensures (Abs(), nwrite) == CacheIo.CacheWrite(old(Abs()), abfd, data)
    {
      hide Linked, Inv, CacheModel.Lookup, FileWrite, Transfer;
      var found := Lookup(abfd, CacheNormal);
      if !found {
        return Some(0);
      }
      nwrite := WriteStream(abfd, data);
    }

    /** _bfd_cache_close_unlocked */
    method CacheClose(abfd: Bfd) returns (ok: bool)
      requires Linked() && Inv(Abs(), None) && abfd in roots && !abfd.inFormatMatches
      modifies this, roots
      ensures Linked() && roots == old(roots)
      ensures ok && Abs() == CacheIo.CacheClose(old(Abs()), abfd)
    {
      PlacedRing(abfd);
      InvOpen(None);
      hide Linked, Inv, Delete;
      if !abfd.cached || abfd.iostream == None {
        return true;
      }
      ok := CacheDelete(abfd);
    }

    /** bfd_cache_close_all */
    method CacheCloseAll() returns (ok: bool)
      requires Linked() && Inv(Abs(), None)
      modifies this, roots
      ensures Linked() && roots == old(roots) && last == null
      ensures ok && Abs() == CacheIo.CacheCloseAll(old(Abs()))
    {
      ok := true;
      ghost var st := Abs();
      while last != null
        invariant Linked() && roots == old(roots) && Inv(Abs(), None) && ok
        invariant CacheIo.CacheCloseAll(Abs()) == CacheIo.CacheCloseAll(st)
        decreases |ring|
      {
        var prev := last;
        CloseAllStep(Abs());
        UpdateRuleCloseInv(prev);
        ok := CacheClose(prev);
        if last == prev {
          break;
        }
      }
    }

    lemma UpdateRuleCloseInv(b: Bfd)
      requires Linked() && Inv(Abs(), None) && b in ring
      ensures Inv(CacheIo.CacheClose(Abs(), b), None)
    {
      DeleteOrNot(Abs(), b);
    }

    /** bfd_cache_set_uncloseable, for a BFD that possibly_cached accepts. */
    method SetUncloseable(abfd: Bfd, value: bool) returns (ok: bool, previous: bool)
      requires Linked() && Inv(Abs(), None) && abfd in roots
      modifies this, roots
      ensures Linked() && roots == old(roots) && previous == old(abfd.inFormatMatches)
      ensures (Abs(), ok) == CacheSetUncloseable(old(Abs()), abfd, value)
    {
      ok, previous := true, abfd.inFormatMatches;
      if value != abfd.inFormatMatches && abfd.cached {
        if value {
          ok := Pin(abfd);
        } else {
          Unpin(abfd);
        }
      }
    }

    method SetPinned(abfd: Bfd, value: bool)
      requires Linked() && abfd in roots
      modifies abfd`inFormatMatches
      ensures Linked() && Abs() == Set(old(Abs()), abfd, old(abfd.Snapshot()).(pinned := value))
    {
      hide Linked;
      abfd.inFormatMatches := value;
      OnlyChanged(abfd);
    }

    method Pin(abfd: Bfd) returns (ok: bool)
      requires Linked() && Inv(Abs(), None) && abfd in roots && !abfd.inFormatMatches && abfd.cached
      modifies this, roots
      ensures Linked() && roots == old(roots)
      ensures (Abs(), ok) == CacheSetUncloseable(old(Abs()), abfd, true)
    {
      hide Linked, Inv, CacheModel.Lookup, Without;
      PinnedStays(Abs(), abfd, CacheNormal);
      ok := Lookup(abfd, CacheNormal);
      if ok {
        PlacedRing(abfd);
        SnipPinned(abfd);
      } else {
        SetPinned(abfd, true);
      }
    }

    method SnipPinned(abfd: Bfd)
      requires Linked() && abfd in ring
      modifies this`last, this`ring, roots`lruNext, roots`lruPrev, abfd`inFormatMatches
      ensures Linked()
      ensures Abs() == Set(old(Abs()), abfd, old(abfd.Snapshot()).(pinned := true)).(lru := Without(old(ring), abfd))
    {
      assert abfd in roots;
      hide Linked, Without;
      Snip(abfd);
      OnlyLinks();
      SetPinned(abfd, true);
    }

    method Unpin(abfd: Bfd)
      requires Linked() && Inv(Abs(), None) && abfd in roots && abfd.inFormatMatches && abfd.cached
      modifies this, roots
      ensures Linked() && roots == old(roots)
      ensures Abs() == CacheSetUncloseable(old(Abs()), abfd, false).0
    {
      PlacedRing(abfd);
      hide Linked, Inv, Known;
      Insert(abfd);
      OnlyLinks();
      SetPinned(abfd, false);
    }

    // ----- bfdio.c -----

    method SetWhere(abfd: Bfd, where: nat)
      requires Linked() && abfd in roots
      modifies abfd`where
      ensures Linked() && Abs() == CacheModel.SetWhere(old(Abs()), abfd, where)
    {
      hide Linked;
      abfd.where := where;
      OnlyChanged(abfd);
    }

    method SetLastIo(abfd: Bfd, lastIo: LastIo)
      requires Linked() && abfd in roots
      modifies abfd`lastIo
      ensures Linked() && Abs() == CacheModel.SetLastIo(old(Abs()), abfd, lastIo)
    {
      hide Linked;
      abfd.lastIo := lastIo;
      OnlyChanged(abfd);
    }

    /** The loop at the head of every bfdio.c function: from an element to the BFD that has the stream. */
    method Climb(elt: Bfd) returns (abfd: Bfd, offset: nat)
      requires Nested(elt)
      ensures abfd == Root(elt) && offset == Offset(elt)
    {
      abfd, offset := elt, 0;
      while abfd.myArchive != null && !abfd.myArchive.thin
        invariant Nested(abfd) && Root(abfd) == Root(elt) && offset + Offset(abfd) == Offset(elt)
        decreases abfd.depth
      {
        offset := offset + abfd.origin;
        abfd := abfd.myArchive;
      }
      offset := offset + abfd.origin;
    }

    /** bfd_seek */
    method BfdSeek(elt: Bfd, position: int, direction: Whence) returns (ok: bool)
      requires Linked() && Inv(Abs(), None) && Nested(elt) && Root(elt) in roots
      modifies this, roots
      ensures Linked() && roots == old(roots)
      ensures (Abs(), ok) == CacheIo.BfdSeek(old(Abs()), HandleOf(elt), position, direction)
    {
      hide Linked, Inv, RealSeek;
      var abfd, offset := Climb(elt);
      if !abfd.cached {
        return false;
      }
      var p := if direction != SeekCur then position + offset else position;
      if ((direction == SeekCur && p == 0) || (direction == SeekSet && p == abfd.where)) && abfd.lastIo != IoForce {
        return true;
      }
      ok := SeekFor(abfd, p, direction);
    }

    method SeekFor(abfd: Bfd, p: int, direction: Whence) returns (ok: bool)
      requires Linked() && Inv(Abs(), None) && abfd in roots
      modifies this, roots
      ensures Linked() && roots == old(roots)
      ensures (Abs(), ok) == RealSeek(old(Abs()), abfd, p, direction)
    {
      hide Abs, Linked, Inv, CacheIo.CacheSeek, CacheModel.SetWhere, CacheModel.SetLastIo, Known;
      AbsAt(abfd);
      SetLastIoInv(Abs(), abfd, IoSeek);
      SetLastIo(abfd, IoSeek);
      AbsAt(abfd);
      ok := CacheSeek(abfd, p, direction);
      AbsAt(abfd);
      if ok {
        SetWhere(abfd, AsOffset(if direction == SeekCur then abfd.where + p else p));
      }
    }

    /** The seek that bfd_read and bfd_write force when the direction of transfer changes. */
    method TurnAround(abfd: Bfd, from: LastIo) returns (ok: bool)
      requires Linked() && Inv(Abs(), None) && abfd in roots && abfd.cached
      modifies this, roots
      ensures Linked() && roots == old(roots) && Inv(Abs(), None)
      ensures (Abs(), ok) == CacheIo.TurnAround(old(Abs()), abfd, from)
    {
      hide Abs, Linked, Inv, RealSeek, Known, CacheModel.SetLastIo;
      AbsAt(abfd);
      SetLastIoInv(Abs(), abfd, IoForce);
      ForcedAt(Abs(), abfd);
      RealSeekInv(CacheModel.SetLastIo(Abs(), abfd, IoForce), abfd, 0, SeekCur);
      ok := true;
      if abfd.lastIo == from {
        SetLastIo(abfd, IoForce);
        ok := SeekFor(abfd, 0, SeekCur);
      }
    }

    /** bfd_read */
    method BfdRead(elt: Bfd, size: nat) returns (result: Result)
      requires Linked() && Inv(Abs(), None) && Nested(elt) && Root(elt) in roots
      modifies this, roots
      ensures Linked() && roots == old(roots)
      ensures (Abs(), result) == CacheIo.BfdRead(old(Abs()), HandleOf(elt), size)
    {
      hide Linked, Inv, CacheIo.ReadRoot;
      var abfd, offset := Climb(elt);
      var n := size;
      if elt.areltSize.Some? && InArchive(elt) {
        var maxbytes := elt.areltSize.value;
        if abfd.where < offset || abfd.where - offset >= maxbytes {
          return Failed;
        }
        if abfd.where - offset + n > maxbytes {
          n := maxbytes - (abfd.where - offset);
        }
      }
      if !abfd.cached {
        return Failed;
      }
      result := ReadRoot(abfd, n);
    }

    method ReadRoot(abfd: Bfd, n: nat) returns (result: Result)
      requires Linked() && Inv(Abs(), None) && abfd in roots && abfd.cached
      modifies this, roots
      ensures Linked() && roots == old(roots)
      ensures (Abs(), result) == CacheIo.ReadRoot(old(Abs()), abfd, n)
    {
      hide Abs, Linked, Inv, CacheIo.TurnAround, CacheIo.CacheRead, CacheModel.SetWhere, CacheModel.SetLastIo, Known;
      AbsAt(abfd);
      var ok := TurnAround(abfd, IoWrite);
      if !ok {
        return Failed;
      }
      AbsAt(abfd);
      SetLastIoInv(Abs(), abfd, IoRead);
      SetLastIo(abfd, IoRead);
      AbsAt(abfd);
      var got := CacheRead(abfd, n);
      AbsAt(abfd);
      match got
      case None => result := Failed;
      case Some(data) =>
        SetWhere(abfd, abfd.where + |data|);
        result := Data(data);
    }

    /** bfd_write */
    method BfdWrite(elt: Bfd, data: seq<byte>) returns (result: Result)
      requires Linked() && Inv(Abs(), None) && Nested(elt) && Root(elt) in roots
      modifies this, roots
      ensures Linked() && roots == old(roots)
      ensures (Abs(), result) == CacheIo.BfdWrite(old(Abs()), HandleOf(elt), data)
    {
      hide Abs, Linked, Inv, CacheIo.TurnAround, CacheIo.CacheWrite, CacheModel.SetWhere, CacheModel.SetLastIo, Known;
      var abfd, _ := Climb(elt);
      AbsAt(abfd);
      if !abfd.cached {
        return Failed;
      }
      var ok := TurnAround(abfd, IoRead);
      if !ok {
        return Failed;
      }
      AbsAt(abfd);
      SetLastIoInv(Abs(), abfd, IoWrite);
      SetLastIo(abfd, IoWrite);
      AbsAt(abfd);
      var nwrote := CacheWrite(abfd, data);
      AbsAt(abfd);
      match nwrote
      case None => result := Failed;
      case Some(n) =>
        SetWhere(abfd, abfd.where + n);
        result := Count(n);
    }

    /** bfd_tell */
    method BfdTell(elt: Bfd) returns (result: Result)
      requires Linked() && Inv(Abs(), None) && Nested(elt) && Root(elt) in roots
      modifies this, roots
      ensures Linked() && roots == old(roots)
      ensures (Abs(), result) == CacheIo.BfdTell(old(Abs()), HandleOf(elt))
    {
      hide Linked, Inv, CacheIo.CacheTell, CacheModel.SetWhere;
      var abfd, offset := Climb(elt);
      if !abfd.cached {
        return Count(0);
      }
      var ptr := CacheTell(abfd);
      SetWhere(abfd, ptr);
      var position: int := ptr;
      result := Count(position - offset);
    }

    /** bfd_stat, as far as the size goes. */
    method BfdStat(elt: Bfd) returns (result: Result)
      requires Linked() && Inv(Abs(), None) && Nested(elt) && Root(elt) in roots
      modifies this, roots
      ensures Linked() && roots == old(roots)
      ensures (Abs(), result) == CacheIo.BfdStat(old(Abs()), HandleOf(elt))
    {
      hide Linked, Inv, CacheModel.Lookup;
      var abfd, _ := Climb(elt);
      if !abfd.cached {
        return Failed;
      }
      var found := Lookup(abfd, CacheNoSeekError);
      result := if !found then Failed else Count(if abfd.name in disk then |disk[abfd.name]| else 0);
    }

    /** fflush on an open stream. */
    method FlushStream(abfd: Bfd)
      requires Linked() && abfd in roots && abfd.iostream.Some?
      modifies abfd`iostream
      ensures Linked() && Abs() == Flushed(old(Abs()), abfd)
    {
      hide Linked;
      if abfd.iostream.value.prior == DidWrite {
        abfd.iostream := Some(abfd.iostream.value.(prior := Positioned));
        OnlyChanged(abfd);
      }
    }

    /** bfd_flush */
    method BfdFlush(elt: Bfd) returns (result: Result)
      requires Linked() && Inv(Abs(), None) && Nested(elt) && Root(elt) in roots
      modifies this, roots
      ensures Linked() && roots == old(roots)
      ensures (Abs(), result) == CacheIo.BfdFlush(old(Abs()), HandleOf(elt))
    {
      hide Linked, Inv, CacheModel.Lookup;
      var abfd, _ := Climb(elt);
      if abfd.cached {
        var found := Lookup(abfd, CacheNoOpen);
        if found {
          FlushStream(abfd);
        }
      }
      result := Done;
    }

    /** The fopen of bfd_fopen: abfd has its stream but is not on the ring yet. */
    method FopenInto(abfd: Bfd, mode: FopenMode) returns (found: bool)
      requires Linked() && Inv(Abs(), None) && abfd in roots && !abfd.cached
      modifies this`disk, abfd`iostream, abfd`direction
      ensures Linked()
      ensures var (disk', f) := Fopen(old(disk), abfd.name, mode);
              && (found <==> f.Some?)
              && (found ==> Inv(Abs(), Some(abfd)))
              && Abs() == if found then Set(old(Abs()), abfd, old(abfd.Snapshot()).(stream := f, direction := DirectionOf(mode)))
                                        .(disk := disk')
                          else old(Abs())
    {
      hide Abs, Linked, Inv, Fopen, Known;
      AbsAt(abfd);
      AbsParts();
      PlacedStream(Abs(), abfd);
      ghost var st := Abs();
      FopenFacts(st.disk, abfd.name, mode);
      var f := OpenStream(abfd.name, mode);
      found := f.Some?;
      if found {
        abfd.iostream := f;
        abfd.direction := DirectionOf(mode);
        OnlyChanged(abfd);
        StreamedInv(st, abfd, mode, f.value, disk);
      }
    }

    /** bfd_fopen by name, for a BFD that was just created. */
    method BfdFopen(abfd: Bfd, mode: FopenMode) returns (result: Result)
      requires Linked() && Inv(Abs(), None) && abfd in roots && !abfd.cached
      modifies this, roots
      ensures Linked() && roots == old(roots)
      ensures (Abs(), result) == CacheIo.BfdFopen(old(Abs()), abfd, mode)
    {
      hide Linked, Inv, CacheModel.CacheInit, Fopen;
      var found := FopenInto(abfd, mode);
      if !found {
        return Failed;
      }
      var ok := CacheInit(abfd);
      SetFopened(abfd);
      result := Done;
    }

    method SetFopened(abfd: Bfd)
      requires Linked() && abfd in roots
      modifies abfd`openedOnce, abfd`cacheable
      ensures Linked()
      ensures Abs() == Set(old(Abs()), abfd, old(abfd.Snapshot()).(openedOnce := true, cacheable := true))
    {
      hide Linked;
      abfd.openedOnce := true;
      abfd.cacheable := true;
      OnlyChanged(abfd);
    }

    /** bfd_set_cacheable */
    method SetCacheable(abfd: Bfd, value: bool)
      requires Linked() && abfd in roots
      modifies abfd`cacheable
      ensures Linked() && Abs() == Set(old(Abs()), abfd, old(abfd.Snapshot()).(cacheable := value))
    {
      hide Linked;
      abfd.cacheable := value;
      OnlyChanged(abfd);
    }

    /** A request about an element: elt is the BFD that the request's handle stands for. */
    method PerformIo(op: Op<Bfd>, elt: Bfd) returns (result: Result)
      requires Linked() && Inv(Abs(), None) && Nested(elt) && Root(elt) in roots
      requires Known(Abs()) && OnHandle(op) && op.h == HandleOf(elt)
      modifies this, roots
      ensures Linked() && roots == old(roots)
      ensures (Abs(), result) == Step(old(Abs()), op)
    {
      hide Linked, Inv, Known, CacheIo.BfdRead, CacheIo.BfdWrite, CacheIo.BfdSeek, CacheIo.BfdTell, CacheIo.BfdStat,
           CacheIo.BfdFlush;
      match op
      case Read(_, n) => result := BfdRead(elt, n);
      case Write(_, data) => result := BfdWrite(elt, data);
      case Seek(_, position, whence) => var ok := BfdSeek(elt, position, whence); result := Outcome(ok);
      case Tell(_) => result := BfdTell(elt);
      case Stat(_) => result := BfdStat(elt);
      case Flush(_) => result := BfdFlush(elt);
    }

    /** What Enabled says of the objects. */
    lemma EnabledHere(op: Op<Bfd>, elt: Bfd)
      requires Valid() && Enabled(Abs(), op) && Nested(elt) && (OnHandle(op) ==> op.h == HandleOf(elt))
      ensures Known(Abs()) && Abs().bfds.Keys == roots
      ensures OnHandle(op) ==> Root(elt) in roots
      ensures Target(op).Some? ==> Target(op).value in roots && Abs().bfds[Target(op).value] == Target(op).value.Snapshot()
      ensures op.Open? || op.Adopt? ==> !op.b.cached && op.b.iostream == None
      ensures op.Close? ==> !op.b.inFormatMatches
    {
      if op.Open? || op.Adopt? {
        PlacedStream(Abs(), op.b);
      }
    }

    /** A request about opening, closing and pinning. */
    method PerformCache(op: Op<Bfd>) returns (result: Result)
      requires Linked() && Inv(Abs(), None) && Known(Abs()) && Subject(Abs().bfds.Keys, op) && !OnHandle(op)
      requires Abs().bfds.Keys == roots && (Target(op).Some? ==> Target(op).value in roots)
      requires op.Open? || op.Adopt? ==> !op.b.cached && op.b.iostream == None
      requires op.Close? ==> !op.b.inFormatMatches
      modifies this, roots
      ensures Linked() && roots == old(roots)
      ensures (Abs(), result) == Step(old(Abs()), op)
    {
      hide Abs, Linked, Inv, Known, CacheModel.OpenFile, CacheIo.BfdFopen, CacheIo.CacheClose, CacheIo.CacheCloseAll,
           CacheSetUncloseable;
      var ok: bool;
      match op
      case Open(b) => ok := OpenFile(b); result := Outcome(ok);
      case Adopt(b, mode) => result := BfdFopen(b, mode);
      case Close(b) => ok := CacheClose(b); result := Done;
      case CloseAll => ok := CacheCloseAll(); result := Done;
      case SetUncloseable(b, value) => var previous; ok, previous := SetUncloseable(b, value); result := Outcome(ok);
      case SetCacheable(b, value) => AbsAt(b); SetCacheable(b, value); result := Done;
    }

    /** One request of a client. */
    method Perform(op: Op<Bfd>, elt: Bfd) returns (result: Result)
      requires Valid() && Enabled(Abs(), op) && Nested(elt) && (OnHandle(op) ==> op.h == HandleOf(elt))
      modifies this, roots
      ensures Valid() && roots == old(roots)
      ensures (Abs(), result) == Step(old(Abs()), op)
    {
      StepBound(Abs(), op);
      EnabledHere(op, elt);
      EnabledSubject(op);
      hide Abs, Enabled, Linked, Inv, Known, Step, HandleOf, Root;
      if OnHandle(op) {
        result := PerformIo(op, elt);
      } else {
        result := PerformCache(op);
      }
    }

    /**
      Whole runs of requests on the objects are runs of the model, and so, when nothing is lost, of the
      machine that never closes a file.
     */
    method PerformAll(ops: seq<Op<Bfd>>, elts: seq<Bfd>) returns (results: seq<Result>)
      requires Valid() && Known(Abs()) && Subjects(Abs().bfds.Keys, ops) && Legal(Abs(), ops) && |elts| == |ops|
      requires forall i :: 0 <= i < |ops| ==> Nested(elts[i]) && (OnHandle(ops[i]) ==> ops[i].h == HandleOf(elts[i]))
      modifies this, roots
      ensures Valid() && roots == old(roots)
      ensures (Abs(), results) == Run(old(Abs()), ops)
      ensures Good(old(Abs())) && NothingLost(old(Abs()), ops) ==>
                (View(Abs()), results) == PlainRun(View(old(Abs())), ops)
    {
      hide Abs, Valid, Known, Step, Enabled, HandleOf, Root, Subjects, View;
      ghost var st := Abs();
      results := [];
      var i := 0;
      assert ops[0..] == ops;
      AbsKnown();
      assert Run(st, ops[0..]) == Run(st, ops);
      while i < |ops|
        invariant 0 <= i <= |ops| && Valid() && roots == old(roots) && Known(Abs()) && Abs().bfds.Keys == st.bfds.Keys
        invariant Subjects(Abs().bfds.Keys, ops[i..]) && Legal(Abs(), ops[i..])
        invariant Run(st, ops).0 == Run(Abs(), ops[i..]).0
        invariant Run(st, ops).1 == results + Run(Abs(), ops[i..]).1
      {
        RunUnfolds(Abs(), ops, i);
        var result := Perform(ops[i], elts[i]);
        results := results + [result];
        i := i + 1;
      }
      assert ops[i..] == [] && Run(Abs(), ops[i..]) == (Abs(), []);
      assert Run(st, ops).0 == Abs();
      assert Run(st, ops).1 == results;
      assert (Abs(), results) == Run(st, ops);
      RunViews(st, ops, Abs(), results);
    }

    lemma AbsKnown()
      requires Valid()
      ensures Known(Abs())
    {
    }

    lemma EnabledSubject(op: Op<Bfd>)
      requires Valid() && Enabled(Abs(), op)
      ensures Subject(Abs().bfds.Keys, op)
    {
    }

    lemma PlacedRing(b: Bfd)
      requires Inv(Abs(), None) && b in roots
      ensures b.iostream.Some? && !b.inFormatMatches <==> b in ring
      ensures b.inFormatMatches ==> b.iostream.Some?
    {
      assert Placed(Abs(), b, None);
    }
  }

  lemma RunViews(st: State<Bfd>, ops: seq<Op<Bfd>>, st': State<Bfd>, results: seq<Result>)
    requires Known(st) && Subjects(st.bfds.Keys, ops) && Legal(st, ops) && (st', results) == Run(st, ops)
    ensures Subjects(View(st).bfds.Keys, ops)
    ensures Good(st) && NothingLost(st, ops) ==> (View(st'), results) == PlainRun(View(st), ops)
  {
    hide Good, Known, Run, PlainRun;
    if Good(st) && NothingLost(st, ops) {
      RunTransparent(st, ops);
    }
  }

  /** A run from operation i on starts with that operation. */
  lemma RunUnfolds(st: State<Bfd>, ops: seq<Op<Bfd>>, i: nat)
    requires i < |ops| && Known(st) && Subjects(st.bfds.Keys, ops[i..]) && Legal(st, ops[i..])
    ensures Subject(st.bfds.Keys, ops[i]) && Enabled(st, ops[i]) && Subjects(st.bfds.Keys, ops[i + 1..])
    ensures var (st1, result) := Step(st, ops[i]);
            && Legal(st1, ops[i + 1..])
            && Run(st, ops[i..]) == (Run(st1, ops[i + 1..]).0, [result] + Run(st1, ops[i + 1..]).1)
  {
    hide Known, Step, Enabled;
    assert ops[i..][0] == ops[i] && ops[i..][1..] == ops[i + 1..];
    forall j | i < j < |ops|
      ensures Subject(st.bfds.Keys, ops[j])
    {
      assert ops[i..][j - i] == ops[j];
    }
  }

  /** Where b stands on the ring, and what the ring is without it. */
  lemma Position(r: seq<Bfd>, b: Bfd) returns (k: nat)
    requires Distinct(r) && b in r
    ensures k < |r| && r[k] == b && Without(r, b) == r[..k] + r[k + 1..] && Distinct(Without(r, b))
    ensures b == r[0] <==> k == 0
    ensures |r| > 1 ==> r[1] != r[0]
    ensures |Without(r, b)| == |r| - 1
    ensures |r| > 1 ==> Without(r, b)[0] == if k == 0 then r[1] else r[0]
  {
    k :| 0 <= k < |r| && r[k] == b;
    WithoutOne(r, b);
    WithoutAt(r, k);
  }

  /** After the two link writes the remaining elements form the shorter ring. */
  lemma Relinked(r: seq<Bfd>, k: nat)
    requires k < |r|
    requires forall i {:trigger r[i].lruNext} :: 0 <= i < |r| ==>
               r[i].lruNext == r[if i == Prev(k, |r|) then Next(k, |r|) else Next(i, |r|)]
    requires forall i {:trigger r[i].lruPrev} :: 0 <= i < |r| ==>
               r[i].lruPrev == r[if i == Next(k, |r|) then Prev(k, |r|) else Prev(i, |r|)]
    ensures var s := r[..k] + r[k + 1..];
            && (forall j {:trigger s[j].lruNext} :: 0 <= j < |s| ==> s[j].lruNext == s[Next(j, |s|)])
            && (forall j {:trigger s[j].lruPrev} :: 0 <= j < |s| ==> s[j].lruPrev == s[Prev(j, |s|)])
  {
    var s := r[..k] + r[k + 1..];
    forall j {:trigger s[j].lruNext} {:trigger s[j].lruPrev} | 0 <= j < |s|
      ensures s[j].lruNext == s[Next(j, |s|)] && s[j].lruPrev == s[Prev(j, |s|)]
    {
      SkipAround(j, k, |r|);
      assert s[j] == r[Skip(j, k)];
      assert s[Next(j, |s|)] == r[Skip(Next(j, |s|), k)];
      assert s[Prev(j, |s|)] == r[Skip(Prev(j, |s|), k)];
    }
  }

  lemma DistinctAt<B>(s: seq<B>, k: nat)
    requires Distinct(s) && k < |s|
    ensures forall i :: 0 <= i < |s| && s[i] == s[k] ==> i == k
  {
  }

  lemma ForcedAt(st: State<Bfd>, b: Bfd)
    requires Known(st) && b in st.bfds
    ensures CacheModel.SetLastIo(st, b, IoForce).bfds.Keys == st.bfds.Keys
    ensures CacheModel.SetLastIo(st, b, IoForce).bfds[b] == st.bfds[b].(lastIo := IoForce)
  {
  }

  lemma FopenFacts(disk: map<string, seq<byte>>, name: string, mode: FopenMode)
    ensures var (disk', f) := Fopen(disk, name, mode);
            disk.Keys <= disk'.Keys && if f.None? then disk' == disk else name in disk'
  {
  }

  // ----- reading in chunks -----

  lemma ReadToPos()
    ensures forall f, n, data :: ReadTo(f, n, data).pos == f.pos + |data| && ReadTo(f, n, data).rights == f.rights
    ensures forall f, n, data :: |data| == n ==> ReadTo(f, n, data).prior != DidWrite
  {
  }

  lemma ReadMore(f: File, buf: seq<byte>, m: nat, chunk: seq<byte>)
    ensures ReadTo(ReadTo(f, |buf|, buf), m, chunk) == ReadTo(f, |buf| + m, buf + chunk)
  {
  }

  lemma ReadShort(f: File, a: nat, b: nat, data: seq<byte>)
    requires |data| < a && |data| < b
    ensures ReadTo(f, a, data) == ReadTo(f, b, data)
  {
  }

  lemma FileReadNone(content: seq<byte>, pos: nat)
    ensures FileRead(content, pos, 0) == []
  {
  }

  lemma FileReadSplit(content: seq<byte>, pos: nat, a: nat, b: nat)
    requires |FileRead(content, pos, a)| == a
    ensures FileRead(content, pos, a) + FileRead(content, pos + a, b) == FileRead(content, pos, a + b)
  {
  }

  /** A read that came short found the end of the file. */
  lemma FileReadShort(content: seq<byte>, pos: nat, m: nat, l: nat, n: nat)
    requires |FileRead(content, pos, m)| == l < m <= n
    ensures FileRead(content, pos, m) == FileRead(content, pos, l) == FileRead(content, pos, n)
  {
  }
}
