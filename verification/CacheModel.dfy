/**
  The file-descriptor cache of cache.c under the positioned I/O layer of bfdio.c, as a state
  machine, and the machine it must be indistinguishable from: one that never closes a file.

  B is the type of a top-level BFD. Archive elements have no stream of their own: an element is a
  handle giving its root, the byte at which it starts there, and the size its header announces.
 */
module CacheModel {
  import opened Bytes

  datatype Direction = NoDirection | ReadDirection | WriteDirection | BothDirection
  datatype LastIo = IoSeek | IoRead | IoWrite | IoForce
  datatype Whence = SeekSet | SeekCur
  datatype CacheFlag = CacheNormal | CacheNoOpen | CacheNoSeek | CacheNoSeekError

  /** The mode argument of fopen: its letter, and where it has its plus, if anywhere ("r+b", "rb+"). */
  datatype Letter = LetterR | LetterW | LetterA
  datatype Plus = NoPlus | PlusSecond | PlusThird
  datatype FopenMode = Mode(letter: Letter, plus: Plus)

  const ModeR := Mode(LetterR, NoPlus)
  const ModeRPlus := Mode(LetterR, PlusSecond)
  const ModeWPlus := Mode(LetterW, PlusSecond)

  /**
    What a stream opened for update did last, as the rule for such streams counts it: Positioned if
    it may be read or written next.
   */
  datatype Prior = Positioned | DidRead | DidWrite

  /** What a stream may do; one that appends writes at the end wherever it stands. */
  datatype Rights = Rights(readable: bool, writable: bool, appends: bool)

  datatype File = File(pos: nat, rights: Rights, prior: Prior)

  datatype BfdState = BfdState(
    name: string,
    direction: Direction,
    stream: Option<File>,      // iostream
    where: nat,
    lastIo: LastIo,
    cacheable: bool,
    pinned: bool,              // in_format_matches
    openedOnce: bool,
    hasIovec: bool,            // iovec == &cache_iovec
    closedByCache: bool)

  /**
    lru is the ring read from bfd_last_cache along lru_next. misused records that some stream was
    read directly after a write, or written directly after a read.
   */
  datatype State<B(==)> = State(
    limit: nat,
    lru: seq<B>,
    bfds: map<B, BfdState>,
    openFiles: nat,
    disk: map<string, seq<byte>>,
    misused: bool)

  // ----- the list -----

  function Without<B(==)>(s: seq<B>, b: B): (r: seq<B>)
    ensures forall x :: x in r ==> x in s && x != b
    ensures forall x :: x in s && x != b ==> x in r
    ensures b !in s ==> r == s
    ensures |r| <= |s|
    ensures b in s ==> |r| < |s|
  {
    if s == [] then []
    else if s[0] == b then Without(s[1..], b)
    else [s[0]] + Without(s[1..], b)
  }

  /** Index of the least recently used cacheable BFD among lru[..n]. */
  function Victim<B(==)>(st: State<B>, n: nat): (v: Option<nat>)
    requires n <= |st.lru| && forall b :: b in st.lru ==> b in st.bfds
    ensures v.Some? ==> v.value < n && st.bfds[st.lru[v.value]].cacheable
    ensures v.Some? ==> forall i :: v.value < i < n ==> !st.bfds[st.lru[i]].cacheable
    ensures v.None? ==> forall i :: 0 <= i < n ==> !st.bfds[st.lru[i]].cacheable
  {
    if n == 0 then None
    else if st.bfds[st.lru[n - 1]].cacheable then Some(n - 1)
    else Victim(st, n - 1)
  }

  lemma {:induction false} WithoutAt<B>(s: seq<B>, k: nat)
    requires Distinct(s) && k < |s|
    ensures Without(s, s[k]) == s[..k] + s[k + 1..]
  {
    if k == 0 {
      assert s[0] !in s[1..];
    } else {
      WithoutAt(s[1..], k - 1);
      assert s[1..][..k - 1] == s[1..k] && s[1..][k..] == s[k + 1..];
    }
  }

  lemma WithoutOne<B>(s: seq<B>, b: B)
    requires Distinct(s) && b in s
    ensures |Without(s, b)| == |s| - 1 && Distinct(Without(s, b))
  {
    var k :| 0 <= k < |s| && s[k] == b;
    WithoutAt(s, k);
  }

  ghost predicate Distinct<B>(s: seq<B>) {
    forall i, j :: 0 <= i < j < |s| ==> s[i] != s[j]
  }

  // ----- the cache invariant -----

  function Pinned<B(==)>(st: State<B>): set<B> {
    set b | b in st.bfds && st.bfds[b].pinned
  }

  /**
    One BFD's share of the invariant. loose names a BFD that was just opened and is not on the
    ring yet.
   */
  predicate Placed<B(==)>(st: State<B>, b: B, loose: Option<B>)
    requires b in st.bfds
  {
    var s := st.bfds[b];
    && (b in st.lru <==> s.stream.Some? && !s.pinned && Some(b) != loose)
    && (s.pinned ==> s.stream.Some? && Some(b) != loose)
    && (s.stream.Some? ==> s.hasIovec || Some(b) == loose)
    && (Some(b) == loose ==> s.stream.Some?)
    && (s.hasIovec || Some(b) == loose ==> s.name in st.disk)
  }

  /**
    The ring holds exactly the open BFDs that are not pinned, open_files counts the ring and the
    pinned ones, and every BFD that ever used the cache can be reopened by name.
   */
  ghost predicate Inv<B>(st: State<B>, loose: Option<B>) {
    && Distinct(st.lru)
    && Known(st)
    && (forall b :: b in st.bfds ==> Placed(st, b, loose))
    && (loose.Some? ==> loose.value in st.bfds)
    && st.openFiles == |st.lru| + |Pinned(st)|
    && st.limit > 0
  }

  predicate Known<B(==)>(st: State<B>) {
    forall b :: b in st.lru ==> b in st.bfds
  }

  // ----- cache.c -----

  function Ftell(s: BfdState): nat {
    if s.stream.Some? then s.stream.value.pos else 0
  }

  function Set<B(==)>(st: State<B>, b: B, s: BfdState): State<B> {
    st.(bfds := st.bfds[b := s])
  }

  /** bfd_cache_delete, for an fclose that succeeds. */
  function Delete<B(==)>(st: State<B>, b: B): (st': State<B>)
    requires b in st.bfds && Known(st)
    ensures st'.bfds.Keys == st.bfds.Keys && Known(st')
  {
    Set(st, b, st.bfds[b].(stream := None, closedByCache := true))
    .(lru := Without(st.lru, b), openFiles := if st.openFiles > 0 then st.openFiles - 1 else 0)
  }

  /** close_one */
  function CloseOne<B(==)>(st: State<B>): (st': State<B>)
    requires Known(st)
    ensures st'.bfds.Keys == st.bfds.Keys && Known(st')
  {
    match Victim(st, |st.lru|)
    case None => st
    case Some(v) =>
      var b := st.lru[v];
      Delete(Set(st, b, st.bfds[b].(where := Ftell(st.bfds[b]))), b)
  }

  function MakeRoom<B(==)>(st: State<B>): (st': State<B>)
    requires Known(st)
    ensures st'.bfds.Keys == st.bfds.Keys && Known(st')
  {
    if st.openFiles >= st.limit then CloseOne(st) else st
  }

  /** insert, with the bookkeeping of _bfd_cache_init_unlocked. */
  function Register<B(==)>(st: State<B>, b: B): (st': State<B>)
    requires Known(st) && b in st.bfds
    ensures st'.bfds.Keys == st.bfds.Keys && Known(st')
  {
    Set(st, b, st.bfds[b].(hasIovec := true, closedByCache := false))
    .(lru := [b] + st.lru, openFiles := st.openFiles + 1)
  }

  /** _bfd_cache_init_unlocked */
  function CacheInit<B(==)>(st: State<B>, b: B): (st': State<B>)
    requires Known(st) && b in st.bfds
    ensures st'.bfds.Keys == st.bfds.Keys && Known(st')
  {
    Register(MakeRoom(st), b)
  }

  /** fopen by name: the new disk, and the stream at position 0 unless the file is missing. */
  function Fopen(disk: map<string, seq<byte>>, name: string, mode: FopenMode)
    : (r: (map<string, seq<byte>>, Option<File>))
    ensures r.1.Some? ==> name in r.0
    ensures disk.Keys <= r.0.Keys
  {
    var f := Some(File(0, Granted(mode), Positioned));
    match mode.letter
    case LetterR => (disk, if name in disk then f else None)
    case LetterW => (disk[name := []], f)
    case LetterA => (if name in disk then disk else disk[name := []], f)
  }

  predicate Writes(d: Direction) { d == WriteDirection || d == BothDirection }

  /** What the streams can do that _bfd_open_file_unlocked opens for a BFD of this direction. */
  function RightsOf(d: Direction): Rights {
    Rights(true, Writes(d), false)
  }

  function Granted(mode: FopenMode): Rights {
    Rights(mode.letter == LetterR || mode.plus != NoPlus, mode.letter != LetterR || mode.plus != NoPlus, mode.letter == LetterA)
  }

  /** The direction bfd_fopen takes from the first two characters of the mode. */
  function DirectionOf(mode: FopenMode): Direction {
    if mode.plus == PlusSecond then BothDirection
    else if mode.letter == LetterR then ReadDirection
    else WriteDirection
  }

  /** A file opened in this mode is reopened with the rights it had. */
  predicate ModeFits(mode: FopenMode) {
    Granted(mode) == RightsOf(DirectionOf(mode))
  }

  /** The fopen calls of _bfd_open_file_unlocked. */
  function OpenByDirection(disk: map<string, seq<byte>>, s: BfdState)
    : (r: (map<string, seq<byte>>, Option<File>))
    ensures r.1.Some? ==> s.name in r.0
    ensures disk.Keys <= r.0.Keys
  {
    if !Writes(s.direction) then Fopen(disk, s.name, ModeR)
    else if s.openedOnce then
      var r := Fopen(disk, s.name, ModeRPlus);
      if r.1.None? then Fopen(disk, s.name, ModeWPlus) else r
    else Fopen(disk, s.name, ModeWPlus)
  }

  /** What fopen leaves behind in b: the stream, if any, and the opened_once mark. */
  function Opened<B(==)>(st: State<B>, b: B): (st': State<B>)
    requires Known(st) && b in st.bfds
    ensures st'.bfds.Keys == st.bfds.Keys && Known(st')
  {
    var s := st.bfds[b];
    var (disk', f) := OpenByDirection(st.disk, s);
    Set(st, b, s.(stream := f, openedOnce := s.openedOnce || Writes(s.direction))).(disk := disk')
  }

  /** _bfd_open_file_unlocked; the flag says whether a stream came back. */
  function OpenFile<B(==)>(st: State<B>, b: B): (r: (State<B>, bool))
    requires Known(st) && b in st.bfds
    ensures r.0.bfds.Keys == st.bfds.Keys && Known(r.0)
  {
    var s1 := Opened(MakeRoom(Set(st, b, st.bfds[b].(cacheable := true))), b);
    if s1.bfds[b].stream.None? then (s1, false) else (CacheInit(s1, b), true)
  }

  function SetStream<B(==)>(st: State<B>, b: B, pos: nat, prior: Prior): (st': State<B>)
    requires Known(st) && b in st.bfds
    ensures st'.bfds.Keys == st.bfds.Keys && Known(st')
  {
    var s := st.bfds[b];
    match s.stream
    case None => st
    case Some(f) => Set(st, b, s.(stream := Some(f.(pos := pos, prior := prior))))
  }

  function SetWhere<B(==)>(st: State<B>, b: B, where: nat): (st': State<B>)
    requires Known(st) && b in st.bfds
    ensures st'.bfds.Keys == st.bfds.Keys && Known(st')
  {
    Set(st, b, st.bfds[b].(where := where))
  }

  function SetLastIo<B(==)>(st: State<B>, b: B, lastIo: LastIo): (st': State<B>)
    requires Known(st) && b in st.bfds
    ensures st'.bfds.Keys == st.bfds.Keys && Known(st')
  {
    Set(st, b, st.bfds[b].(lastIo := lastIo))
  }

  /** bfd_cache_lookup and bfd_cache_lookup_worker; the flag says whether a stream was found. */
  function Lookup<B(==)>(st: State<B>, b: B, flag: CacheFlag): (r: (State<B>, bool))
    requires Known(st) && b in st.bfds
    ensures r.0.bfds.Keys == st.bfds.Keys && Known(r.0)
  {
    if st.lru != [] && st.lru[0] == b then (st, true)
    else if st.bfds[b].pinned then (st, true)
    else if st.bfds[b].stream.Some? then (st.(lru := [b] + Without(st.lru, b)), true)
    else if flag == CacheNoOpen then (st, false)
    else
      var (s1, ok) := OpenFile(st, b);
      if !ok || flag == CacheNoSeek then (s1, ok)
      else (SetStream(s1, b, s1.bfds[b].where, Positioned), true)
  }

  // ----- what the cache operations keep -----

  lemma DeleteInv<B>(st: State<B>, b: B, loose: Option<B>)
    requires Inv(st, loose) && b in st.lru
    ensures Inv(Delete(st, b), loose)
  {
    WithoutOne(st.lru, b);
    assert Pinned(Delete(st, b)) == Pinned(st);
  }

  /** Overwriting fields of b that the invariant does not mention keeps it. */
  lemma SetInv<B>(st: State<B>, b: B, s: BfdState, loose: Option<B>)
    requires Inv(st, loose) && b in st.bfds
    requires s.stream.Some? == st.bfds[b].stream.Some? && s.pinned == st.bfds[b].pinned
    requires s.hasIovec == st.bfds[b].hasIovec && s.name == st.bfds[b].name
    ensures Inv(Set(st, b, s), loose)
  {
    assert Pinned(Set(st, b, s)) == Pinned(st);
  }

  lemma CloseOneInv<B>(st: State<B>, loose: Option<B>)
    requires Inv(st, loose)
    ensures Inv(CloseOne(st), loose) && Inv(MakeRoom(st), loose)
  {
    var v := Victim(st, |st.lru|);
    if v.Some? {
      var b := st.lru[v.value];
      var s := st.bfds[b].(where := Ftell(st.bfds[b]));
      SetInv(st, b, s, loose);
      DeleteInv(Set(st, b, s), b, loose);
    }
  }

  lemma RegisterInv<B>(st: State<B>, b: B)
    requires Inv(st, Some(b))
    ensures Inv(Register(st, b), None)
  {
    assert Placed(st, b, Some(b));
    assert Pinned(Register(st, b)) == Pinned(st);
  }

  lemma OpenedInv<B>(st: State<B>, b: B)
    requires Inv(st, None) && b in st.bfds && st.bfds[b].stream.None?
    ensures var st' := Opened(st, b); Inv(st', if st'.bfds[b].stream.None? then None else Some(b))
  {
    assert Placed(st, b, None);
    assert Pinned(Opened(st, b)) == Pinned(st);
  }

  lemma CloseOneFrame<B>(st: State<B>, loose: Option<B>, b: B)
    requires Inv(st, loose) && b in st.bfds && b !in st.lru
    ensures MakeRoom(st).bfds[b] == st.bfds[b]
  {
  }

  lemma OpenFileInv<B>(st: State<B>, b: B)
    requires Inv(st, None) && b in st.bfds && st.bfds[b].stream.None?
    ensures var (st', ok) := OpenFile(st, b); Inv(st', None) && (ok <==> st'.bfds[b].stream.Some?)
  {
    var s0 := Set(st, b, st.bfds[b].(cacheable := true));
    SetInv(st, b, st.bfds[b].(cacheable := true), None);
    CloseOneInv(s0, None);
    assert Placed(s0, b, None);
    CloseOneFrame(s0, None, b);
    var s1 := Opened(MakeRoom(s0), b);
    OpenedInv(MakeRoom(s0), b);
    if s1.bfds[b].stream.Some? {
      assert Placed(s1, b, Some(b));
      CloseOneInv(s1, Some(b));
      CloseOneFrame(s1, Some(b), b);
      RegisterInv(MakeRoom(s1), b);
    }
  }

  lemma LookupInv<B>(st: State<B>, b: B, flag: CacheFlag)
    requires Inv(st, None) && b in st.bfds
    ensures var (st', ok) := Lookup(st, b, flag); Inv(st', None) && (ok <==> st'.bfds[b].stream.Some?)
  {
    hide OpenFile;
    assert Placed(st, b, None);
    if st.lru != [] && st.lru[0] == b {
      assert b in st.lru;
    } else if st.bfds[b].stream.Some? {
      if !st.bfds[b].pinned {
        ToFrontInv(st, b);
      }
    } else if flag != CacheNoOpen {
      OpenFileInv(st, b);
      var s1 := OpenFile(st, b).0;
      if s1.bfds[b].stream.Some? {
        SetInv(s1, b, Lookup(st, b, flag).0.bfds[b], None);
      }
    }
  }

  lemma ToFrontInv<B>(st: State<B>, b: B)
    requires Inv(st, None) && b in st.lru
    ensures Inv(st.(lru := [b] + Without(st.lru, b)), None)
  {
    WithoutOne(st.lru, b);
    assert Pinned(st.(lru := [b] + Without(st.lru, b))) == Pinned(st);
  }
}
