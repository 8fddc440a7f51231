/** Files as sequences. */
module Bytes {
  type Byte = b: int | 0 <= b < 256

  /** write(2) of w at offset o, which may be the end of the file. */
  function WriteAt<T>(s: seq<T>, o: nat, w: seq<T>): (t: seq<T>)
    requires o <= |s|
    ensures |t| == if o + |w| <= |s| then |s| else o + |w|
    ensures forall k :: 0 <= k < |t| ==> t[k] == if o <= k < o + |w| then w[k - o] else s[k]
  {
    s[..o] + w + (if o + |w| <= |s| then s[o + |w|..] else [])
  }

  /** pwrite(2): a gap before the offset reads as zeros. */
  function Pwrite(out: seq<Byte>, off: nat, w: seq<Byte>): (r: seq<Byte>)
    ensures |r| == if off + |w| <= |out| then |out| else off + |w|
    ensures forall x :: 0 <= x < |r| ==>
      r[x] == if off <= x < off + |w| then w[x - off] else if x < |out| then out[x] else 0
  {
    WriteAt(if off <= |out| then out else out + Zeros(off - |out|), off, w)
  }

  function Zeros(n: nat): (z: seq<Byte>)
    ensures |z| == n && forall x :: 0 <= x < n ==> z[x] == 0
  {
    if n == 0 then [] else Zeros(n - 1) + [0]
  }
}
