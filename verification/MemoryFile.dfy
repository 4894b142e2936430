/**
  Files in memory (bfdio.c): a buffer that grows in steps of 128 bytes, under bfd_read, bfd_write and
  bfd_seek. A file that can be written behaves as a sequence of bytes in which a gap reads as zeros.
 */
module MemoryFile {
  import opened Bytes

  datatype Whence = FromStart | FromHere
  datatype LastIo = IoSeek | IoRead | IoWrite | IoForce

  /** What the caller sees: the bytes, the position, and whether seeking may make the file longer. */
  datatype View = View(content: seq<byte>, pos: nat, writable: bool)

  // ----- the view -----

  function ViewRead(v: View, n: nat): (View, seq<byte>) {
    var data := FileRead(v.content, v.pos, n);
    (v.(pos := v.pos + |data|), data)
  }

  function ViewWrite(v: View, data: seq<byte>): View {
    v.(content := FileWrite(v.content, v.pos, data), pos := v.pos + |data|)
  }

  /** A seek to before the start fails and rewinds; one past the end of a file that is only read goes to the end and fails. */
  function ViewSeek(v: View, offset: int, whence: Whence): (View, bool) {
    var to := if whence == FromStart then offset else v.pos + offset;
    if to < 0 then (v.(pos := 0), false)
    else if to <= |v.content| then (v.(pos := to), true)
    else if v.writable then (v.(content := v.content + Zeros(to - |v.content|), pos := to), true)
    else (v.(pos := |v.content|), false)
  }

  // ----- whole runs -----

  datatype Op = Read(n: nat) | Write(data: seq<byte>) | Seek(offset: int, whence: Whence)

  datatype Result = Got(data: seq<byte>) | Wrote(count: nat) | Moved | Failed

  function ViewStep(v: View, op: Op): (View, Result) {
    match op
    case Read(n) => var (v', data) := ViewRead(v, n); (v', Got(data))
    case Write(data) => (ViewWrite(v, data), Wrote(|data|))
    case Seek(offset, whence) => var (v', ok) := ViewSeek(v, offset, whence); (v', if ok then Moved else Failed)
  }

  function ViewRun(v: View, ops: seq<Op>): View {
    if ops == [] then v else ViewStep(ViewRun(v, ops[..|ops| - 1]), ops[|ops| - 1]).0
  }

  /** What the operations of a run give their caller. */
  function ViewResults(v: View, ops: seq<Op>): (rs: seq<Result>)
    ensures |rs| == |ops|
  {
    if ops == [] then []
    else
      var ops0 := ops[..|ops| - 1];
      ViewResults(v, ops0) + [ViewStep(ViewRun(v, ops0), ops[|ops| - 1]).1]
  }

  predicate InBounds(v: View) { v.pos <= |v.content| }

  lemma {:induction false} RunInBounds(v: View, ops: seq<Op>)
    requires InBounds(v)
    ensures InBounds(ViewRun(v, ops)) && ViewRun(v, ops).writable == v.writable
    ensures |v.content| <= |ViewRun(v, ops).content|
  {
    if ops != [] {
      RunInBounds(v, ops[..|ops| - 1]);
    }
  }

  /** The byte at p that was last written, or was there to begin with; zero where nothing ever was. */
  function LastWritten(v: View, ops: seq<Op>, p: nat): byte {
    if ops == [] then if p < |v.content| then v.content[p] else 0
    else
      var before := ViewRun(v, ops[..|ops| - 1]);
      match ops[|ops| - 1]
      case Write(data) =>
        if before.pos <= p < before.pos + |data| then data[p - before.pos] else LastWritten(v, ops[..|ops| - 1], p)
      case _ => LastWritten(v, ops[..|ops| - 1], p)
  }

  /** Where a run has not been, nothing was written. */
  lemma {:induction false} NeverWritten(v: View, ops: seq<Op>, p: nat)
    requires InBounds(v) && p >= |ViewRun(v, ops).content|
    ensures LastWritten(v, ops, p) == 0
  {
    if ops != [] {
      var ops0 := ops[..|ops| - 1];
      RunInBounds(v, ops0);
      NeverWritten(v, ops0, p);
    }
  }

  /**
    After any run of reads, writes and seeks, each byte of the file is the one last written there, and
    zero where a seek past the end left a gap.
   */
  lemma {:induction false} ReadsBack(v: View, ops: seq<Op>, p: nat)
    requires InBounds(v) && p < |ViewRun(v, ops).content|
    ensures ViewRun(v, ops).content[p] == LastWritten(v, ops, p)
  {
    if ops != [] {
      var ops0 := ops[..|ops| - 1];
      var before := ViewRun(v, ops0);
      RunInBounds(v, ops0);
      if p < |before.content| {
        ReadsBack(v, ops0, p);
      } else {
        NeverWritten(v, ops0, p);
      }
      match ops[|ops| - 1]
      case Read(n) =>
      case Write(data) =>
        var after := FileWrite(before.content, before.pos, data);
        if before.pos <= p < before.pos + |data| {
          assert after[before.pos..before.pos + |data|][p - before.pos] == data[p - before.pos];
        }
      case Seek(offset, whence) =>
    }
  }

  lemma {:induction false} ResultAt(v: View, ops: seq<Op>, k: nat)
    requires k < |ops|
    ensures ViewResults(v, ops)[k] == ViewStep(ViewRun(v, ops[..k]), ops[k]).1
  {
    if k < |ops| - 1 {
      var ops0 := ops[..|ops| - 1];
      ResultAt(v, ops0, k);
      assert ops0[..k] == ops[..k];
    }
  }

  /** And so whatever a read of the run gives is what was last written where it stood. */
  lemma RunReadsBack(v: View, ops: seq<Op>, k: nat)
    requires InBounds(v) && k < |ops| && ops[k].Read?
    ensures var before := ViewRun(v, ops[..k]);
            && ViewResults(v, ops)[k].Got?
            && var data := ViewResults(v, ops)[k].data;
            && |data| == Min(ops[k].n, |before.content| - before.pos)
            && forall i :: 0 <= i < |data| ==> data[i] == LastWritten(v, ops[..k], before.pos + i)
  {
    hide ViewRun, ViewResults, LastWritten;
    ResultAt(v, ops, k);
    RunInBounds(v, ops[..k]);
    var before := ViewRun(v, ops[..k]);
    forall p | 0 <= p < |before.content|
      ensures before.content[p] == LastWritten(v, ops[..k], p)
    {
      ReadsBack(v, ops[..k], p);
    }
  }

  // ----- the buffer -----

  function Round128(n: nat): (r: nat)
    ensures n <= r < n + 128 && r % 128 == 0
  {
    (n + 127) / 128 * 128
  }

  lemma RoundGrows(a: nat, b: nat)
    requires a <= b
    ensures Round128(a) <= Round128(b)
    ensures b <= Round128(a) ==> Round128(a) == Round128(b)
  {
  }

  class File {
    const writable: bool
    var buffer: array<byte>
    var size: nat
    var where: nat
    var lastIo: LastIo

    /** The buffer holds the bytes, and behind them zeros up to the next multiple of 128. */
    ghost predicate Valid()
      reads this, buffer
    {
      && size <= buffer.Length <= Round128(size) && where <= size
      && (writable ==> buffer.Length == Round128(size) && forall i :: size <= i < buffer.Length ==> buffer[i] == 0)
    }

    /** Whether the buffer holds n more bytes, or is grown for them; a file to write has room for any number. */
    predicate HasRoom(n: nat)
      reads this
    {
      where + n <= size || Round128(size) <= buffer.Length || Round128(where + n) > Round128(size)
    }

    ghost function Abs(): (v: View)
      requires Valid()
      reads this, buffer
      ensures InBounds(v)
    {
      View(buffer[..size], where, writable)
    }

    /** An empty file to write. */
    constructor Create()
      ensures Valid() && fresh(buffer) && Abs() == View([], 0, true)
    {
      writable, size, where, lastIo := true, 0, 0, IoSeek;
      buffer := new byte[0];
    }

    /** A file over bytes that are there, to read. */
    constructor Over(contents: array<byte>)
      ensures Valid() && buffer == contents && Abs() == View(contents[..], 0, false)
    {
      writable, size, where, lastIo := false, contents.Length, 0, IoSeek;
      buffer := contents;
      new;
      assert contents[..contents.Length] == contents[..];
    }

    /** realloc: what is added holds whatever the memory held. */
    method Realloc(newSize: nat)
      requires newSize >= buffer.Length
      modifies this`buffer
      ensures fresh(buffer) && buffer.Length == newSize
      ensures forall i :: 0 <= i < old(buffer.Length) ==> buffer[i] == old(buffer[i])
    {
      var b := new byte[newSize];
      for i := 0 to buffer.Length
        invariant buffer == old(buffer) && forall j :: 0 <= j < i ==> b[j] == buffer[j]
      {
        b[i] := buffer[i];
      }
      buffer := b;
    }

    method Clear(from: nat)
      requires from <= buffer.Length
      modifies buffer
      ensures forall i :: from <= i < buffer.Length ==> buffer[i] == 0
      ensures forall i :: 0 <= i < from ==> buffer[i] == old(buffer[i])
    {
      for i := from to buffer.Length
        invariant forall j :: from <= j < i ==> buffer[j] == 0
        invariant forall j :: 0 <= j < from ==> buffer[j] == old(buffer[j])
      {
        buffer[i] := 0;
      }
    }

    method Copy(at: nat, data: seq<byte>)
      requires at + |data| <= buffer.Length
      modifies buffer
      ensures forall i :: 0 <= i < buffer.Length ==>
                buffer[i] == if at <= i < at + |data| then data[i - at] else old(buffer[i])
    {
      for k := 0 to |data|
        invariant forall i :: 0 <= i < buffer.Length ==>
                    buffer[i] == if at <= i < at + k then data[i - at] else old(buffer[i])
      {
        buffer[at + k] := data[k];
      }
    }

    /** memory_bread */
    method MemoryRead(n: nat) returns (data: seq<byte>)
      requires Valid()
      ensures data == FileRead(Abs().content, where, n)
    {
      var get := n;
      if where + get > size {
        get := if size < where then 0 else size - where;
      }
      data := buffer[where..where + get];
      assert data == buffer[..size][where..where + get];
    }

    /** memory_bwrite; the caller moves the position. */
    method MemoryWrite(data: seq<byte>)
      requires Valid() && HasRoom(|data|)
      modifies this`buffer, this`size, buffer
      ensures Valid() && (buffer == old(buffer) || fresh(buffer))
      ensures Abs().content == FileWrite(old(Abs().content), where, data)
    {
      ghost var before := Abs().content;
      if where + |data| > size {
        var oldSize := Round128(size);
        RoundGrows(size, where + |data|);
        size := where + |data|;
        var newSize := Round128(size);
        if newSize > oldSize {
          Realloc(newSize);
          if newSize > size {
            Clear(size);
          }
        }
      }
      Copy(where, data);
      WriteIs(before, where, data, buffer[..size]);
    }

    /** memory_bseek; on success the caller sets the position. */
    method MemorySeek(position: int, whence: Whence) returns (ok: bool)
      requires Valid()
      modifies this`buffer, this`size, this`where
      ensures buffer == old(buffer) || fresh(buffer)
      ensures Valid() && var (v, success) := ViewSeek(old(Abs()), position, whence);
              ok == success && Abs() == if ok then v.(pos := old(where)) else v
      ensures var to := if whence == FromStart then position else old(where) + position;
              0 <= to <= old(size) ==> buffer == old(buffer) && size == old(size)
    {
      var nwhere := if whence == FromStart then position else where + position;
      if nwhere < 0 {
        where := 0;
        return false;
      }
      if nwhere > size {
        if writable {
          var oldSize := Round128(size);
          RoundGrows(size, nwhere);
          ghost var before := buffer[..size];
          ghost var gap := nwhere - size;
          size := nwhere;
          var newSize := Round128(size);
          if newSize > oldSize {
            Realloc(newSize);
            Clear(oldSize);
          }
          assert buffer[..size] == before + Zeros(gap);
        } else {
          where := size;
          return false;
        }
      }
      ok := true;
    }

    /** bfd_seek */
    method BfdSeek(position: int, whence: Whence) returns (ok: bool)
      requires Valid()
      modifies this
      ensures Valid() && (buffer == old(buffer) || fresh(buffer))
      ensures (Abs(), ok) == ViewSeek(old(Abs()), position, whence)
      ensures var to := if whence == FromStart then position else old(where) + position;
              0 <= to <= old(size) ==> buffer == old(buffer) && size == old(size)
    {
      if ((whence == FromHere && position == 0) || (whence == FromStart && position == where)) && lastIo != IoForce {
        return true;
      }
      lastIo := IoSeek;
      ok := MemorySeek(position, whence);
      if ok {
        where := if whence == FromHere then where + position else position;
      }
    }

    /** bfd_read */
    method BfdRead(n: nat) returns (data: seq<byte>)
      requires Valid()
      modifies this
      ensures Valid() && (buffer == old(buffer) || fresh(buffer))
      ensures (Abs(), data) == ViewRead(old(Abs()), n)
    {
      if lastIo == IoWrite {
        lastIo := IoForce;
        var ok := BfdSeek(0, FromHere);
      }
      lastIo := IoRead;
      data := MemoryRead(n);
      where := where + |data|;
    }

    /** bfd_write */
    method BfdWrite(data: seq<byte>)
      requires Valid() && HasRoom(|data|)
      modifies this, buffer
      ensures Valid() && (buffer == old(buffer) || fresh(buffer))
      ensures Abs() == ViewWrite(old(Abs()), data)
    {
      if lastIo == IoRead {
        lastIo := IoForce;
        var ok := BfdSeek(0, FromHere);
      }
      lastIo := IoWrite;
      MemoryWrite(data);
      where := where + |data|;
    }

    /** Any run of operations does and gives what the run of the view does and gives. */
    method Perform(ops: seq<Op>) returns (results: seq<Result>)
      requires Valid() && (writable || forall k :: 0 <= k < |ops| ==> !ops[k].Write?)
      modifies this, buffer
      ensures Valid() && Abs() == ViewRun(old(Abs()), ops) && results == ViewResults(old(Abs()), ops)
    {
      ghost var v0 := Abs();
      results := [];
      for k := 0 to |ops|
        invariant Valid() && (buffer == old(buffer) || fresh(buffer))
        invariant Abs() == ViewRun(v0, ops[..k]) && results == ViewResults(v0, ops[..k])
      {
        assert ops[..k + 1][..k] == ops[..k];
        match ops[k] {
          case Read(n) =>
            var data := BfdRead(n);
            results := results + [Got(data)];
          case Write(data) =>
            BfdWrite(data);
            results := results + [Wrote(|data|)];
          case Seek(offset, whence) =>
            var ok := BfdSeek(offset, whence);
            results := results + [if ok then Moved else Failed];
        }
      }
      assert ops[..|ops|] == ops;
    }
  }

  lemma WriteIs(before: seq<byte>, at: nat, data: seq<byte>, after: seq<byte>)
    requires at <= |before| && |after| == if at + |data| > |before| then at + |data| else |before|
    requires forall i :: 0 <= i < |after| ==>
               after[i] == if at <= i < at + |data| then data[i - at] else before[i]
    ensures after == FileWrite(before, at, data)
  {
    var w := FileWrite(before, at, data);
    if data == [] {
    } else {
      forall i | 0 <= i < |w|
        ensures w[i] == after[i]
      {
        if at <= i < at + |data| {
          assert w[at..at + |data|][i - at] == data[i - at];
        }
      }
    }
  }
}
