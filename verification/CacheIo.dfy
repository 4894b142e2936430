/**
  The iovec methods of cache.c and the bfd_read, bfd_write, bfd_seek and bfd_tell of bfdio.c over
  the cache, and one step of a client that uses them.
 */
module CacheIo {
  import opened Bytes
  import opened CacheModel

  /** A BFD as bfdio.c sees it after climbing my_archive: window is the size in its own header. */
  datatype Handle<B> = Handle(root: B, offset: nat, window: Option<nat>)

  datatype Result = Done | Failed | Count(n: int) | Data(bytes: seq<byte>)

  datatype Op<B> =
    | Open(b: B)
    | Adopt(b: B, mode: FopenMode)
    | Read(h: Handle<B>, size: nat)
    | Write(h: Handle<B>, data: seq<byte>)
    | Seek(h: Handle<B>, position: int, whence: Whence)
    | Tell(h: Handle<B>)
    | Stat(h: Handle<B>)
    | Flush(h: Handle<B>)
    | Close(b: B)
    | CloseAll
    | SetUncloseable(b: B, value: bool)
    | SetCacheable(b: B, value: bool)

  function Content<B(==)>(st: State<B>, b: B): seq<byte>
    requires b in st.bfds
  {
    if st.bfds[b].name in st.disk then st.disk[st.bfds[b].name] else []
  }

  function AsOffset(i: int): nat {
    if i < 0 then 0 else i
  }

  // ----- the iovec of cache.c -----

  function CacheTell<B(==)>(st: State<B>, b: B): (r: (State<B>, nat))
    requires Known(st) && b in st.bfds
    ensures r.0.bfds.Keys == st.bfds.Keys && Known(r.0)
  {
    var (st1, ok) := Lookup(st, b, CacheNoOpen);
    (st1, if ok then Ftell(st1.bfds[b]) else st1.bfds[b].where)
  }

  function CacheSeek<B(==)>(st: State<B>, b: B, position: int, whence: Whence): (r: (State<B>, bool))
    requires Known(st) && b in st.bfds
    ensures r.0.bfds.Keys == st.bfds.Keys && Known(r.0)
  {
    var (st1, ok) := Lookup(st, b, if whence == SeekCur then CacheNormal else CacheNoSeek);
    if !ok then (st1, false)
    else
      var target := if whence == SeekCur then Ftell(st1.bfds[b]) + position else position;
      if target < 0 then (st1, false)
      else (SetStream(st1, b, target, Positioned), true)
  }

  /** Whether the stream of b last did the kind of transfer given. */
  function LastDid<B(==)>(st: State<B>, b: B, p: Prior): bool
    requires b in st.bfds
  {
    st.bfds[b].stream.Some? && st.bfds[b].stream.value.prior == p
  }

  /** Whether the stream of b was opened for update, to which alone the rule applies. */
  predicate ForUpdate(s: BfdState) {
    s.stream.Some? && s.stream.value.rights.readable && s.stream.value.rights.writable
  }

  /** The stream of b after a transfer that ended at pos; noted if it came right after one of kind clash. */
  function Transfer<B(==)>(st: State<B>, b: B, pos: nat, prior: Prior, clash: Prior): (st': State<B>)
    requires Known(st) && b in st.bfds
    ensures st'.bfds.Keys == st.bfds.Keys && Known(st')
  {
    SetStream(st, b, pos, if ForUpdate(st.bfds[b]) then prior else Positioned)
    .(misused := st.misused || LastDid(st, b, clash))
  }

  /** A read that met the end of the file may be followed by a write. */
  function AfterRead(n: nat, data: seq<byte>): Prior {
    if |data| < n then Positioned else DidRead
  }

  function CacheRead<B(==)>(st: State<B>, b: B, n: nat): (r: (State<B>, Option<seq<byte>>))
    requires Known(st) && b in st.bfds
    ensures r.0.bfds.Keys == st.bfds.Keys && Known(r.0)
  {
    var (st1, ok) := Lookup(st, b, CacheNormal);
    if !ok then (st1, None)
    else if n == 0 || (st1.bfds[b].stream.Some? && !st1.bfds[b].stream.value.rights.readable) then (st1, Some([]))
    else
      var data := FileRead(Content(st1, b), Ftell(st1.bfds[b]), n);
      (Transfer(st1, b, Ftell(st1.bfds[b]) + |data|, AfterRead(n, data), DidWrite), Some(data))
  }

  /** Where fwrite puts what it is given. */
  function WritesAt<B(==)>(st: State<B>, b: B): nat
    requires b in st.bfds
  {
    var s := st.bfds[b];
    if s.stream.Some? && s.stream.value.rights.appends then |Content(st, b)| else Ftell(s)
  }

  /** The count fwrite returned, or None for -1. */
  function CacheWrite<B(==)>(st: State<B>, b: B, data: seq<byte>): (r: (State<B>, Option<nat>))
    requires Known(st) && b in st.bfds
    ensures r.0.bfds.Keys == st.bfds.Keys && Known(r.0)
  {
    var (st1, ok) := Lookup(st, b, CacheNormal);
    if !ok then (st1, Some(0))
    else
      var s := st1.bfds[b];
      if data == [] then (st1, Some(0))
      else if s.stream.Some? && !s.stream.value.rights.writable then (st1, None)
      else
        var at := WritesAt(st1, b);
        (Transfer(st1, b, at + |data|, DidWrite, DidRead).(disk := st1.disk[s.name := FileWrite(Content(st1, b), at, data)]),
         Some(|data|))
  }

  // ----- bfdio.c -----

  /** The part of bfd_seek after the redundant seeks were sorted out. */
  function RealSeek<B(==)>(st: State<B>, b: B, p: int, whence: Whence): (r: (State<B>, bool))
    requires Known(st) && b in st.bfds
    ensures r.0.bfds.Keys == st.bfds.Keys && Known(r.0)
  {
    var (st1, ok) := CacheSeek(SetLastIo(st, b, IoSeek), b, p, whence);
    if !ok then (st1, false)
    else (SetWhere(st1, b, AsOffset(if whence == SeekCur then st1.bfds[b].where + p else p)), true)
  }

  predicate Redundant(s: BfdState, p: int, whence: Whence) {
    ((whence == SeekCur && p == 0) || (whence == SeekSet && p == s.where)) && s.lastIo != IoForce
  }

  function BfdSeek<B(==)>(st: State<B>, h: Handle<B>, position: int, whence: Whence): (r: (State<B>, bool))
    requires Known(st) && h.root in st.bfds
    ensures r.0.bfds.Keys == st.bfds.Keys && Known(r.0)
  {
    var s := st.bfds[h.root];
    if !s.hasIovec then (st, false)
    else
      var p := if whence == SeekCur then position else position + h.offset;
      if Redundant(s, p, whence) then (st, true) else RealSeek(st, h.root, p, whence)
  }

  /** The SEEK_CUR 0 that bfd_read and bfd_write force when the transfer direction changes. */
  function TurnAround<B(==)>(st: State<B>, b: B, from: LastIo): (r: (State<B>, bool))
    requires Known(st) && b in st.bfds
    ensures r.0.bfds.Keys == st.bfds.Keys && Known(r.0)
  {
    if st.bfds[b].lastIo == from then
      BfdSeek(SetLastIo(st, b, IoForce), Handle(b, 0, None), 0, SeekCur)
    else (st, true)
  }

  /** The part of a request for n bytes at where that lies inside the window; None if none does. */
  function Clip(where: nat, offset: nat, window: Option<nat>, n: nat): Option<nat> {
    match window
    case None => Some(n)
    case Some(max) =>
      if where < offset || where - offset >= max then None
      else if where - offset + n > max then Some(max - (where - offset))
      else Some(n)
  }

  /** The part of bfd_read after the request was clipped. */
  function ReadRoot<B(==)>(st: State<B>, b: B, n: nat): (r: (State<B>, Result))
    requires Known(st) && b in st.bfds
    ensures r.0.bfds.Keys == st.bfds.Keys && Known(r.0)
  {
    var (st1, ok) := TurnAround(st, b, IoWrite);
    if !ok then (st1, Failed)
    else
      var (st2, got) := CacheRead(SetLastIo(st1, b, IoRead), b, n);
      match got
      case None => (st2, Failed)
      case Some(data) => (SetWhere(st2, b, st2.bfds[b].where + |data|), Data(data))
  }

  function BfdRead<B(==)>(st: State<B>, h: Handle<B>, n: nat): (r: (State<B>, Result))
    requires Known(st) && h.root in st.bfds
    ensures r.0.bfds.Keys == st.bfds.Keys && Known(r.0)
  {
    var s := st.bfds[h.root];
    var size := Clip(s.where, h.offset, h.window, n);
    if size.None? || !s.hasIovec then (st, Failed) else ReadRoot(st, h.root, size.value)
  }

  function BfdWrite<B(==)>(st: State<B>, h: Handle<B>, data: seq<byte>): (r: (State<B>, Result))
    requires Known(st) && h.root in st.bfds
    ensures r.0.bfds.Keys == st.bfds.Keys && Known(r.0)
  {
    if !st.bfds[h.root].hasIovec then (st, Failed)
    else
      var (st1, ok) := TurnAround(st, h.root, IoRead);
      if !ok then (st1, Failed)
      else
        var (st2, wrote) := CacheWrite(SetLastIo(st1, h.root, IoWrite), h.root, data);
        match wrote
        case None => (st2, Failed)
        case Some(n) => (SetWhere(st2, h.root, st2.bfds[h.root].where + n), Count(n))
  }

  function BfdTell<B(==)>(st: State<B>, h: Handle<B>): (r: (State<B>, Result))
    requires Known(st) && h.root in st.bfds
    ensures r.0.bfds.Keys == st.bfds.Keys && Known(r.0)
  {
    if !st.bfds[h.root].hasIovec then (st, Count(0))
    else
      var (st1, p) := CacheTell(st, h.root);
      (SetWhere(st1, h.root, p), Count(p - h.offset))
  }

  function BfdStat<B(==)>(st: State<B>, h: Handle<B>): (r: (State<B>, Result))
    requires Known(st) && h.root in st.bfds
    ensures r.0.bfds.Keys == st.bfds.Keys && Known(r.0)
  {
    if !st.bfds[h.root].hasIovec then (st, Failed)
    else
      var (st1, ok) := Lookup(st, h.root, CacheNoSeekError);
      (st1, if ok then Count(|Content(st1, h.root)|) else Failed)
  }

  /** fflush: after output it serves as well as positioning. */
  function Flushed<B(==)>(st: State<B>, b: B): (st': State<B>)
    requires Known(st) && b in st.bfds
    ensures st'.bfds.Keys == st.bfds.Keys && Known(st')
  {
    if LastDid(st, b, DidWrite) then SetStream(st, b, Ftell(st.bfds[b]), Positioned) else st
  }

  function BfdFlush<B(==)>(st: State<B>, h: Handle<B>): (r: (State<B>, Result))
    requires Known(st) && h.root in st.bfds
    ensures r.0.bfds.Keys == st.bfds.Keys && Known(r.0)
  {
    if !st.bfds[h.root].hasIovec then (st, Done)
    else
      var (st1, ok) := Lookup(st, h.root, CacheNoOpen);
      (if ok then Flushed(st1, h.root) else st1, Done)
  }

  // ----- opening, closing and pinning -----

  /** bfd_fopen by name: the stream exists before the cache makes room for it. */
  function BfdFopen<B(==)>(st: State<B>, b: B, mode: FopenMode): (r: (State<B>, Result))
    requires Known(st) && b in st.bfds
    ensures r.0.bfds.Keys == st.bfds.Keys && Known(r.0)
  {
    var s := st.bfds[b];
    var (disk', f) := Fopen(st.disk, s.name, mode);
    if f.None? then (st, Failed)
    else
      var st1 := CacheInit(Set(st, b, s.(stream := f, direction := DirectionOf(mode))).(disk := disk'), b);
      (Set(st1, b, st1.bfds[b].(openedOnce := true, cacheable := true)), Done)
  }

  /** _bfd_cache_close_unlocked */
  function CacheClose<B(==)>(st: State<B>, b: B): (st': State<B>)
    requires Known(st) && b in st.bfds
    ensures st'.bfds.Keys == st.bfds.Keys && Known(st')
    ensures st' == st || st'.lru == Without(st.lru, b)
  {
    if !st.bfds[b].hasIovec || st.bfds[b].stream.None? then st else Delete(st, b)
  }

  /** bfd_cache_close_all */
  function CacheCloseAll<B(==)>(st: State<B>): (st': State<B>)
    requires Known(st)
    ensures st'.bfds.Keys == st.bfds.Keys && Known(st')
    decreases |st.lru|
  {
    if st.lru == [] then st
    else
      var st1 := CacheClose(st, st.lru[0]);
      if st1.lru != [] && st1.lru[0] == st.lru[0] then st1 else CacheCloseAll(st1)
  }

  /** bfd_cache_set_uncloseable on a BFD that has a stream of its own. */
  function CacheSetUncloseable<B(==)>(st: State<B>, b: B, value: bool): (r: (State<B>, bool))
    requires Known(st) && b in st.bfds
    ensures r.0.bfds.Keys == st.bfds.Keys && Known(r.0)
  {
    if value == st.bfds[b].pinned || !st.bfds[b].hasIovec then (st, true)
    else if value then
      var (st1, ok) := Lookup(st, b, CacheNormal);
      (Set(st1, b, st1.bfds[b].(pinned := true)).(lru := if ok then Without(st1.lru, b) else st1.lru), ok)
    else
      (Set(st, b, st.bfds[b].(pinned := false)).(lru := [b] + st.lru), true)
  }

  // ----- one client step -----

  /** The BFD whose file the operation is about. */
  function Target<B>(op: Op<B>): Option<B> {
    match op
    case Open(b) => Some(b)
    case Adopt(b, _) => Some(b)
    case Read(h, _) => Some(h.root)
    case Write(h, _) => Some(h.root)
    case Seek(h, _, _) => Some(h.root)
    case Tell(h) => Some(h.root)
    case Stat(h) => Some(h.root)
    case Flush(h) => Some(h.root)
    case Close(b) => Some(b)
    case CloseAll => None
    case SetUncloseable(b, _) => Some(b)
    case SetCacheable(b, _) => Some(b)
  }

  predicate Subject<B(==)>(bfds: set<B>, op: Op<B>) {
    Target(op).Some? ==> Target(op).value in bfds
  }

  /**
    What callers must respect: a BFD is opened once, and is not closed while bfd_check_format_matches
    has it pinned.
   */
  predicate Enabled<B(==)>(st: State<B>, op: Op<B>) {
    && Subject(st.bfds.Keys, op)
    && match op
       case Open(b) => !st.bfds[b].hasIovec && !st.bfds[b].openedOnce
       case Adopt(b, _) => !st.bfds[b].hasIovec
       case Close(b) => !st.bfds[b].pinned
       case _ => true
  }

  function Outcome(ok: bool): Result {
    if ok then Done else Failed
  }

  function Step<B(==)>(st: State<B>, op: Op<B>): (r: (State<B>, Result))
    requires Known(st) && Subject(st.bfds.Keys, op)
    ensures r.0.bfds.Keys == st.bfds.Keys && Known(r.0)
  {
    match op
    case Open(b) => var (st', ok) := OpenFile(st, b); (st', Outcome(ok))
    case Adopt(b, mode) => BfdFopen(st, b, mode)
    case Read(h, n) => BfdRead(st, h, n)
    case Write(h, data) => BfdWrite(st, h, data)
    case Seek(h, position, whence) => var (st', ok) := BfdSeek(st, h, position, whence); (st', Outcome(ok))
    case Tell(h) => BfdTell(st, h)
    case Stat(h) => BfdStat(st, h)
    case Flush(h) => BfdFlush(st, h)
    case Close(b) => (CacheClose(st, b), Done)
    case CloseAll => (CacheCloseAll(st), Done)
    case SetUncloseable(b, value) => var (st', ok) := CacheSetUncloseable(st, b, value); (st', Outcome(ok))
    case SetCacheable(b, value) => (Set(st, b, st.bfds[b].(cacheable := value)), Done)
  }
}
