/** The copy that leaves holes for zeros (cp in Chapter04/exercise_6.c). */
module SparseCopy {
  import opened Bytes

  const BUFFER_SIZE := 4096

  /** write(2) at an offset; a write of no bytes does nothing. */
  function Write(dest: seq<Byte>, off: nat, w: seq<Byte>): seq<Byte> {
    if w == [] then dest else Pwrite(dest, off, w)
  }

  /** The destination, old before, after the bytes of s that are not 0 have been written each at
      its own place, one by one. */
  function Sparse(s: seq<Byte>, was: seq<Byte>): seq<Byte> {
    if s == [] then was
    else
      var n := |s| - 1;
      if s[n] == 0 then Sparse(s[..n], was) else Pwrite(Sparse(s[..n], was), n, [s[n]])
  }

  /** The bytes of s that are not 0, in order. */
  function NonZeros(s: seq<Byte>): seq<Byte> {
    if s == [] then []
    else NonZeros(s[..|s| - 1]) + if s[|s| - 1] == 0 then [] else [s[|s| - 1]]
  }

  /** s without the zeros at its end. */
  function Trimmed(s: seq<Byte>): (t: seq<Byte>)
    ensures |t| <= |s| && t == s[..|t|]
    ensures t == [] || t[|t| - 1] != 0
    ensures forall x :: |t| <= x < |s| ==> s[x] == 0
  {
    if s == [] || s[|s| - 1] != 0 then s else Trimmed(s[..|s| - 1])
  }

  /** Each byte of the result is the source's where that is not 0, else what was there, else 0; it
      is as long as the old file or the source without trailing zeros. */
  lemma {:induction false} SparseIs(s: seq<Byte>, was: seq<Byte>)
    ensures |Sparse(s, was)| == if |Trimmed(s)| >= |was| then |Trimmed(s)| else |was|
    ensures forall x :: 0 <= x < |Sparse(s, was)| ==>
      Sparse(s, was)[x] == if x < |s| && s[x] != 0 then s[x] else if x < |was| then was[x] else 0
  {
    hide Pwrite;
    if s != [] {
      SparseIs(s[..|s| - 1], was);
    }
  }

  /** On an empty destination the copy is the source without its trailing zeros, so it is the
      source itself exactly when that does not end in a zero. */
  lemma FreshCopy(s: seq<Byte>)
    ensures Sparse(s, []) == Trimmed(s)
    ensures Sparse(s, []) == s <==> s == [] || s[|s| - 1] != 0
  {
    SparseIs(s, []);
  }

  /** On any destination the copy is the source exactly when nothing shows through its zeros and
      the destination ends up as long as the source. */
  lemma ExactCopy(s: seq<Byte>, was: seq<Byte>)
    ensures Sparse(s, was) == s <==>
      && |was| <= |s| && (|was| == |s| || s[|s| - 1] != 0)
      && forall x :: 0 <= x < |was| ==> s[x] == 0 ==> was[x] == 0
  {
    SparseIs(s, was);
    if |was| <= |s| && (|was| == |s| || s[|s| - 1] != 0) {
      assert |Sparse(s, was)| == |s|;
    }
    if Sparse(s, was) == s {
      forall x | 0 <= x < |was| && s[x] == 0
        ensures was[x] == 0
      {
        assert Sparse(s, was)[x] == s[x];
      }
    }
  }

  /** Writing a run of bytes that are not 0 at once is writing them one by one. */
  lemma {:induction false} RunWritten(s: seq<Byte>, w: seq<Byte>, was: seq<Byte>)
    requires forall x :: 0 <= x < |w| ==> w[x] != 0
    ensures Sparse(s + w, was) == Write(Sparse(s, was), |s|, w) && NonZeros(s + w) == NonZeros(s) + w
  {
    hide Pwrite;
    if w == [] {
      assert s + w == s;
    } else {
      var n := |w| - 1;
      RunWritten(s, w[..n], was);
      assert (s + w)[..|s| + n] == s + w[..n];
      assert w == w[..n] + [w[n]];
      SplitWrite(Sparse(s, was), |s|, w[..n], w[n]);
    }
  }

  lemma SplitWrite(d: seq<Byte>, off: nat, w: seq<Byte>, c: Byte)
    ensures Pwrite(Write(d, off, w), off + |w|, [c]) == Pwrite(d, off, w + [c])
  {
    hide Pwrite;
    var a, b := Pwrite(Write(d, off, w), off + |w|, [c]), Pwrite(d, off, w + [c]);
    assert |a| == |b|;
    assert forall x :: 0 <= x < |a| ==> a[x] == b[x];
  }

  lemma {:induction false} ZerosSkipped(s: seq<Byte>, w: seq<Byte>, was: seq<Byte>)
    requires forall x :: 0 <= x < |w| ==> w[x] == 0
    ensures Sparse(s + w, was) == Sparse(s, was) && NonZeros(s + w) == NonZeros(s)
  {
    if w == [] {
      assert s + w == s;
    } else {
      var n := |w| - 1;
      ZerosSkipped(s, w[..n], was);
      assert (s + w)[..|s| + n] == s + w[..n];
    }
  }

  lemma RunStep(source: seq<Byte>, off: nat, run: seq<Byte>, was: seq<Byte>)
    requires off + |run| <= |source| && forall x :: 0 <= x < |run| ==> run[x] == source[off + x] != 0
    ensures Sparse(source[..off + |run|], was) == Write(Sparse(source[..off], was), off, run)
    ensures NonZeros(source[..off + |run|]) == NonZeros(source[..off]) + run
  {
    hide Sparse, NonZeros, Write;
    assert source[..off] + run == source[..off + |run|];
    RunWritten(source[..off], run, was);
  }

  lemma ZerosStep(source: seq<Byte>, off: nat, run: seq<Byte>, was: seq<Byte>)
    requires off + |run| <= |source| && forall x :: 0 <= x < |run| ==> run[x] == source[off + x] == 0
    ensures Sparse(source[..off + |run|], was) == Sparse(source[..off], was)
    ensures NonZeros(source[..off + |run|]) == NonZeros(source[..off])
  {
    hide Sparse, NonZeros;
    assert source[..off] + run == source[..off + |run|];
    ZerosSkipped(source[..off], run, was);
  }

  /** cp: sizes gives what each read returns, was is what the destination held. The copy ends at
      the source's length, and what it wrote are the bytes that are not 0, once each, in order. */
  method Cp(source: seq<Byte>, sizes: seq<nat>, was: seq<Byte>) returns (dest: seq<Byte>, offset: nat, ghost wrote: seq<Byte>)
    requires forall k :: 0 <= k < |sizes| ==> 1 <= sizes[k] <= BUFFER_SIZE
    requires |sizes| >= |source|
    ensures dest == Sparse(source, was) && offset == |source| && wrote == NonZeros(source)
  {
    var buffer := new Byte[BUFFER_SIZE](_ => 0);
    var position, k := 0, 0;
    dest, offset, wrote := was, 0, [];
    while position < |source|
      invariant 0 <= k <= position <= |source| && k <= |sizes|
      invariant offset == position && dest == Sparse(source[..position], was) && wrote == NonZeros(source[..position])
      decreases |source| - position
    {
      var bytes_read := if sizes[k] <= |source| - position then sizes[k] else |source| - position;
      k := k + 1;
      forall x | 0 <= x < bytes_read { buffer[x] := source[position + x]; }
      dest, offset, wrote := Chunk(buffer, bytes_read, source, position, was, dest, offset, wrote);
      position := position + bytes_read;
    }
    assert source[..position] == source;
  }

  /** The work on one chunk in the buffer: runs of other bytes are written, runs of zeros skipped. */
  method Chunk(buffer: array<Byte>, bytes_read: nat, ghost source: seq<Byte>, ghost base: nat, ghost was: seq<Byte>,
               dest0: seq<Byte>, offset0: nat, ghost wrote0: seq<Byte>)
    returns (dest: seq<Byte>, offset: nat, ghost wrote: seq<Byte>)
    requires bytes_read <= buffer.Length && base + bytes_read <= |source|
    requires forall x :: 0 <= x < bytes_read ==> buffer[x] == source[base + x]
    requires dest0 == Sparse(source[..base], was) && offset0 == base && wrote0 == NonZeros(source[..base])
    ensures offset == base + bytes_read
    ensures dest == Sparse(source[..offset], was) && wrote == NonZeros(source[..offset])
  {
    hide Sparse, NonZeros, Write;
    dest, offset, wrote := dest0, offset0, wrote0;
    var bytes_scanned, bytes_written := 0, 0;
    while bytes_written < bytes_read
      invariant 0 <= bytes_written == bytes_scanned <= bytes_read && offset == base + bytes_written
      invariant dest == Sparse(source[..offset], was) && wrote == NonZeros(source[..offset])
      decreases bytes_read - bytes_written
    {
      ghost var before := bytes_scanned;
      var non_zero_count := 0;
      while bytes_scanned < bytes_read && buffer[bytes_scanned] != 0
        invariant before <= bytes_scanned <= bytes_read && non_zero_count == bytes_scanned - bytes_written
        invariant forall x :: before <= x < bytes_scanned ==> buffer[x] != 0
      {
        non_zero_count := non_zero_count + 1;
        bytes_scanned := bytes_scanned + 1;
      }
      ghost var run := buffer[bytes_written..bytes_written + non_zero_count];
      forall x | 0 <= x < |run|
        ensures run[x] == source[offset + x] != 0
      {
        assert run[x] == buffer[bytes_written + x] == source[base + (bytes_written + x)];
      }
      RunStep(source, offset, run, was);
      dest := Write(dest, offset, buffer[bytes_written..bytes_written + non_zero_count]);
      wrote := wrote + run;
      offset := offset + non_zero_count;
      bytes_written := bytes_written + non_zero_count;
      ghost var middle := bytes_scanned;
      var zero_count := 0;
      while bytes_scanned < bytes_read && buffer[bytes_scanned] == 0
        invariant middle <= bytes_scanned <= bytes_read && zero_count == bytes_scanned - bytes_written
        invariant forall x :: middle <= x < bytes_scanned ==> buffer[x] == 0
      {
        zero_count := zero_count + 1;
        bytes_scanned := bytes_scanned + 1;
      }
      ghost var zeros := buffer[bytes_written..bytes_written + zero_count];
      forall x | 0 <= x < |zeros|
        ensures zeros[x] == source[offset + x] == 0
      {
        assert zeros[x] == buffer[bytes_written + x] == source[base + (bytes_written + x)];
      }
      ZerosStep(source, offset, zeros, was);
      offset := offset + zero_count;
      bytes_written := bytes_written + zero_count;
    }
  }

  /** A zero copied over an old byte leaves the old byte. */
  method OldByteStays() returns (dest: seq<Byte>)
    ensures dest == [7]
  {
    var offset;
    ghost var wrote;
    dest, offset, wrote := Cp([0], [1], [7]);
    assert [0][..0] == [];
  }
}
