/** Bytes, optional values and the abstract file that the C library's stdio calls act on. */
module Bytes {

  newtype byte = x: int | 0 <= x < 256

  datatype Option<+T> = None | Some(value: T)

  function Min(a: int, b: int): int {
    if a < b then a else b
  }

  function Zeros(n: nat): (s: seq<byte>)
    ensures |s| == n && forall i :: 0 <= i < n ==> s[i] == 0
  {
    seq(n, _ => 0 as byte)
  }

  /** The bytes fread delivers from position pos. */
  function FileRead(content: seq<byte>, pos: nat, n: nat): (data: seq<byte>)
    ensures |data| <= n
    ensures pos + |data| <= |content| || data == []
    ensures |data| < n ==> pos + |data| >= |content|
  {
    if pos >= |content| then [] else content[pos..Min(pos + n, |content|)]
  }

  /** The file after fwrite of data at position pos; a gap reads back as zeros. */
  function FileWrite(content: seq<byte>, pos: nat, data: seq<byte>): (content': seq<byte>)
    ensures data == [] ==> content' == content
    ensures data != [] ==> |content'| == (if pos + |data| > |content| then pos + |data| else |content|)
    ensures data != [] ==> content'[pos..pos + |data|] == data
    ensures forall i :: 0 <= i < |content| && !(pos <= i < pos + |data|) ==> content'[i] == content[i]
    ensures data != [] ==> forall i :: |content| <= i < pos ==> content'[i] == 0
  {
    if data == [] then content
    else
      var low := if pos <= |content| then content[..pos] else content + Zeros(pos - |content|);
      var high := if pos + |data| <= |content| then content[pos + |data|..] else [];
      low + data + high
  }
}
