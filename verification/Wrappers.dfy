/** What several components share. */
module Wrappers {
  datatype Option<T> = None | Some(value: T)
}

/** Byte buffers that are read up to a given length, or up to a zero byte. */
module Buffers {

  type Byte = x: int | 0 <= x < 256

  /** What is read: the given length, or up to the zero byte when the length is given as zero. */
  function Input(buf: seq<Byte>, length: nat): (data: seq<Byte>)
    requires length <= |buf| && (length == 0 ==> 0 in buf)
    ensures data <= buf
    ensures length > 0 ==> |data| == length
    ensures length == 0 ==> 0 !in data && |data| < |buf| && buf[|data|] == 0
  {
    if length > 0 then buf[..length]
    else if buf[0] == 0 then []
    else [buf[0]] + Input(buf[1..], 0)
  }

  method Strlen(buf: seq<Byte>) returns (n: nat)
    requires 0 in buf
    ensures n == |Input(buf, 0)|
  {
    ghost var data := Input(buf, 0);
    assert forall i :: 0 <= i < |data| ==> buf[i] == data[i] && data[i] in data;
    n := 0;
    while buf[n] != 0
      invariant n <= |data|
      decreases |data| - n
    {
      n := n + 1;
    }
  }
}
