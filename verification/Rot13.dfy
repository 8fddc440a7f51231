/** ROT13 of a file, one buffer at a time (apue.3e/advio/rot13a.c) and with eight buffers and
    asynchronous reads and writes that complete in any order (apue.3e/advio/rot13c2.c.in). */
module Rot13 {
  import opened Bytes

  const BSZ := 4096
  const NBUF := 8

  predicate IsAlpha(c: Byte) { 65 <= c <= 90 || 97 <= c <= 122 }

  function Translate(c: Byte): Byte {
    if !IsAlpha(c) then c
    else if c >= 110 then c - 13
    else if c >= 97 then c + 13
    else if c >= 78 then c - 13
    else c + 13
  }

  function Translated(s: seq<Byte>): (t: seq<Byte>)
    ensures |t| == |s| && forall i :: 0 <= i < |s| ==> t[i] == Translate(s[i])
  {
    if s == [] then [] else Translated(s[..|s| - 1]) + [Translate(s[|s| - 1])]
  }

  lemma TranslateByte(c: Byte)
    ensures Translate(Translate(c)) == c && IsAlpha(Translate(c)) == IsAlpha(c)
    ensures Translate(c) == c <==> !IsAlpha(c)
  {
  }

  /** Applied twice the translation gives the file back; exactly the letters change. */
  lemma TranslateTwice(s: seq<Byte>)
    ensures Translated(Translated(s)) == s
    ensures forall i :: 0 <= i < |s| ==> (Translated(s)[i] == s[i] <==> !IsAlpha(s[i]))
  {
    hide Translate, IsAlpha;
    forall i | 0 <= i < |s|
      ensures Translated(Translated(s))[i] == s[i] && (Translated(s)[i] == s[i] <==> !IsAlpha(s[i]))
    {
      TranslateByte(s[i]);
    }
  }

  /** A letter moves thirteen places round the alphabet of its case; what is no letter stays. */
  lemma ThirteenPlaces(c: Byte)
    ensures 65 <= c <= 90 ==> Translate(c) == 65 + (c - 65 + 13) % 26
    ensures 97 <= c <= 122 ==> Translate(c) == 97 + (c - 97 + 13) % 26
    ensures !(65 <= c <= 90) && !(97 <= c <= 122) ==> Translate(c) == c
  {
  }

  lemma TranslatedBytes(s: seq<Byte>)
    ensures forall x :: 0 <= x < |s| && 65 <= s[x] <= 90 ==> Translated(s)[x] == 65 + (s[x] - 65 + 13) % 26
    ensures forall x :: 0 <= x < |s| && 97 <= s[x] <= 122 ==> Translated(s)[x] == 97 + (s[x] - 97 + 13) % 26
    ensures forall x :: 0 <= x < |s| && !(65 <= s[x] <= 90) && !(97 <= s[x] <= 122) ==> Translated(s)[x] == s[x]
  {
    hide Translate;
    forall x | 0 <= x < |s|
      ensures Translated(s)[x] == Translate(s[x])
      ensures 65 <= s[x] <= 90 ==> Translate(s[x]) == 65 + (s[x] - 65 + 13) % 26
      ensures 97 <= s[x] <= 122 ==> Translate(s[x]) == 97 + (s[x] - 97 + 13) % 26
      ensures !(65 <= s[x] <= 90) && !(97 <= s[x] <= 122) ==> Translate(s[x]) == s[x]
    {
      ThirteenPlaces(s[x]);
    }
  }

  /** rot13a: sizes gives what each read returns, at least one byte and at most the buffer or the
      rest of the file. */
  method Sequential(input: seq<Byte>, sizes: seq<nat>) returns (out: seq<Byte>)
    requires forall k :: 0 <= k < |sizes| ==> 1 <= sizes[k] <= BSZ
    requires |sizes| >= |input|
    ensures out == Translated(input)
    ensures |out| == |input|
    ensures forall x :: 0 <= x < |input| && 65 <= input[x] <= 90 ==> out[x] == 65 + (input[x] - 65 + 13) % 26
    ensures forall x :: 0 <= x < |input| && 97 <= input[x] <= 122 ==> out[x] == 97 + (input[x] - 97 + 13) % 26
    ensures forall x :: 0 <= x < |input| && !(65 <= input[x] <= 90) && !(97 <= input[x] <= 122) ==> out[x] == input[x]
  {
    hide Translate;
    var buf := new Byte[BSZ](_ => 0);
    var off, k := 0, 0;
    out := [];
    while off < |input|
      invariant 0 <= off <= |input| && 0 <= k <= |sizes| && k <= off
      invariant |out| == off && forall x :: 0 <= x < off ==> out[x] == Translate(input[x])
      decreases |input| - off
    {
      var n := if sizes[k] <= |input| - off then sizes[k] else |input| - off;
      k := k + 1;
      ReadInto(buf, input, off, n);
      var i := 0;
      while i < n
        invariant 0 <= i <= n
        invariant forall x :: 0 <= x < i ==> buf[x] == Translate(input[off + x])
        invariant forall x :: i <= x < n ==> buf[x] == input[off + x]
      {
        buf[i] := Translate(buf[i]);
        i := i + 1;
      }
      out := out + buf[..n];
      off := off + n;
    }
    assert out == Translated(input);
    TranslatedBytes(input);
  }

  /** read(2): n bytes of the file from off. */
  method ReadInto(buf: array<Byte>, input: seq<Byte>, off: nat, n: nat)
    requires off + n <= |input| && n <= buf.Length
    modifies buf
    ensures buf[..n] == input[off..off + n]
  {
    forall x | 0 <= x < n {
      buf[x] := input[off + x];
    }
  }

  // ---- the pipeline ---------------------------------------------------------

  datatype RwOp = UNUSED | READ_PENDING | WRITE_PENDING

  /** offset, nbytes, inprogress and n stand for the control block: what was asked for, whether
      aio_error still says EINPROGRESS, and what aio_return will say. */
  datatype Buf = Buf(op: RwOp, last: bool, data: seq<Byte>, offset: nat, nbytes: nat, inprogress: bool, n: nat)

  function Blocks(size: nat): nat { (size + BSZ - 1) / BSZ }

  /** The bytes of the file in block b. */
  function Block(input: seq<Byte>, b: nat): (s: seq<Byte>)
    requires b * BSZ <= |input|
    ensures |s| <= BSZ
  {
    input[b * BSZ..if b * BSZ + BSZ <= |input| then b * BSZ + BSZ else |input|]
  }

  /** Block b of the output is on file. */
  predicate Stored(input: seq<Byte>, out: seq<Byte>, b: nat) {
    && b * BSZ <= |input|
    && b * BSZ + |Block(input, b)| <= |out|
    && out[b * BSZ..b * BSZ + |Block(input, b)|] == Translated(Block(input, b))
  }

  lemma StoreBlock(input: seq<Byte>, out: seq<Byte>, b: nat, c: nat)
    requires b * BSZ < |input| && |out| <= |input|
    ensures var out' := Pwrite(out, b * BSZ, Translated(Block(input, b)));
      && Stored(input, out', b) && |out'| <= |input|
      && (Stored(input, out, c) ==> Stored(input, out', c))
  {
    hide Pwrite;
    var w := Translated(Block(input, b));
    var out' := Pwrite(out, b * BSZ, w);
    assert out'[b * BSZ..b * BSZ + |w|] == w;
    if Stored(input, out, c) && c != b {
      var v := Translated(Block(input, c));
      assert c * BSZ + |v| <= b * BSZ || b * BSZ + |w| <= c * BSZ;
      forall x | 0 <= x < |v|
        ensures out'[c * BSZ..c * BSZ + |v|][x] == v[x]
      {
        assert out[c * BSZ..c * BSZ + |v|][x] == out[c * BSZ + x];
      }
    }
  }

  lemma StoreKeeps(input: seq<Byte>, out: seq<Byte>, b: nat)
    requires b * BSZ < |input| && |out| <= |input|
    ensures var out' := Pwrite(out, b * BSZ, Translated(Block(input, b)));
      && Stored(input, out', b) && |out'| <= |input|
      && forall c :: Stored(input, out, c) ==> Stored(input, out', c)
  {
    hide Stored, Pwrite, Block;
    var out' := Pwrite(out, b * BSZ, Translated(Block(input, b)));
    StoreBlock(input, out, b, b);
    forall c ensures Stored(input, out, c) ==> Stored(input, out', c) {
      StoreBlock(input, out, b, c);
    }
  }

  lemma StoredByte(input: seq<Byte>, out: seq<Byte>, b: nat, x: nat)
    requires Stored(input, out, b) && x < |input| && b * BSZ <= x < b * BSZ + BSZ
    ensures x < |out| && out[x] == Translate(input[x])
  {
    hide Translate;
    var w := Block(input, b);
    assert out[b * BSZ..b * BSZ + |w|][x - b * BSZ] == Translated(w)[x - b * BSZ];
  }

  /** When every block is stored the output is the translated file. */
  lemma AllStored(input: seq<Byte>, out: seq<Byte>)
    requires |out| <= |input| && forall b :: 0 <= b < Blocks(|input|) ==> Stored(input, out, b)
    ensures out == Translated(input)
  {
    hide Stored, Translate, Block;
    forall x | 0 <= x < |input|
      ensures x < |out| && out[x] == Translate(input[x])
    {
      StoredByte(input, out, x / BSZ, x);
    }
    if |input| > 0 { StoredByte(input, out, (|input| - 1) / BSZ, |input| - 1); }
  }

  /** What is known of a buffer that works on block b. */
  predicate BufOk(input: seq<Byte>, out: seq<Byte>, f: Buf, b: nat) {
    && b * BSZ < |input| && f.offset == b * BSZ && |f.data| == BSZ
    && (f.op == READ_PENDING ==>
          (b * BSZ + BSZ >= |input| ==> f.last)
          && (!f.inprogress ==> f.n == |Block(input, b)| && f.data[..f.n] == Block(input, b)))
    && (f.op == WRITE_PENDING ==>
          f.nbytes == |Block(input, b)| && f.data[..f.nbytes] == Translated(Block(input, b))
          && (!f.inprogress ==> f.n == f.nbytes && Stored(input, out, b)))
  }

  function Busy(s: seq<Buf>): nat {
    if s == [] then 0 else Busy(s[..|s| - 1]) + (if s[|s| - 1].op == UNUSED then 0 else 1)
  }

  function Weight(f: Buf): nat {
    match f.op
    case UNUSED => 0
    case READ_PENDING => 2
    case WRITE_PENDING => 1
  }

  function Work(s: seq<Buf>): nat {
    if s == [] then 0 else Work(s[..|s| - 1]) + Weight(s[|s| - 1])
  }

  lemma {:induction false} SumsUpdate(s: seq<Buf>, i: nat, f: Buf)
    requires i < |s|
    ensures Busy(s[i := f]) == Busy(s) - (if s[i].op == UNUSED then 0 else 1) + (if f.op == UNUSED then 0 else 1)
    ensures Work(s[i := f]) == Work(s) - Weight(s[i]) + Weight(f)
  {
    var n := |s| - 1;
    if i < n {
      assert s[i := f][..n] == s[..n][i := f];
      SumsUpdate(s[..n], i, f);
    } else {
      assert s[i := f][..n] == s[..n];
    }
  }

  lemma {:induction false} BusyZero(s: seq<Buf>)
    ensures Busy(s) == 0 <==> forall i :: 0 <= i < |s| ==> s[i].op == UNUSED
    ensures Busy(s) == 0 ==> Work(s) == 0
  {
    if s != [] { BusyZero(s[..|s| - 1]); }
  }

  /** place says for each block begun which buffer has it, or -1 when it is written; asked and
      sent say how often each block has been read and written. */
  datatype Log = Log(place: seq<int>, asked: multiset<nat>, sent: multiset<nat>)

  predicate BufPlaced(input: seq<Byte>, out: seq<Byte>, s: seq<Buf>, g: Log, i: nat)
    requires i < |s|
  {
    s[i].op != UNUSED ==>
      var b := s[i].offset / BSZ;
      b < |g.place| && g.place[b] == i && BufOk(input, out, s[i], b)
  }

  predicate BlockPlaced(input: seq<Byte>, out: seq<Byte>, s: seq<Buf>, g: Log, b: nat)
    requires b < |g.place|
  {
    var i := g.place[b];
    && g.asked[b] == 1
    && (i == -1 ==> Stored(input, out, b) && g.sent[b] == 1)
    && (i != -1 ==>
          0 <= i < |s| && s[i].op != UNUSED && s[i].offset == b * BSZ
          && g.sent[b] == if s[i].op == WRITE_PENDING then 1 else 0)
  }

  /** Every block begun is either written or in the hands of one buffer, the others have not been
      asked for, and every buffer in use has one block. */
  ghost predicate PipeOk(input: seq<Byte>, out: seq<Byte>, off: nat, s: seq<Buf>, g: Log) {
    && |s| == NBUF && off == |g.place| * BSZ && |g.place| <= Blocks(|input|) && |out| <= |input|
    && (forall i :: 0 <= i < NBUF ==> |s[i].data| == BSZ && BufPlaced(input, out, s, g, i))
    && (forall b :: 0 <= b < |g.place| ==> BlockPlaced(input, out, s, g, b))
    && (forall b: nat :: b >= |g.place| ==> g.asked[b] == 0 && g.sent[b] == 0)
  }

  lemma Placed(input: seq<Byte>, out: seq<Byte>, off: nat, s: seq<Buf>, g: Log, i: nat)
    requires PipeOk(input, out, off, s, g) && i < NBUF && s[i].op != UNUSED
    ensures |out| <= |input|
    ensures var b := s[i].offset / BSZ;
      && b < |g.place| && g.place[b] == i && BufOk(input, out, s[i], b) && s[i].offset == b * BSZ
      && BlockPlaced(input, out, s, g, b)
  {
    hide Stored, BufOk;
    assert BufPlaced(input, out, s, g, i);
    assert BlockPlaced(input, out, s, g, s[i].offset / BSZ);
  }

  /** aio_read for an unused buffer. */
  lemma ReadStarts(input: seq<Byte>, out: seq<Byte>, off: nat, s: seq<Buf>, g: Log, i: nat, f: Buf)
    requires PipeOk(input, out, off, s, g) && i < NBUF && s[i].op == UNUSED && off < |input|
    requires f.op == READ_PENDING && f.inprogress && f.offset == off && |f.data| == BSZ
    requires off + BSZ >= |input| ==> f.last
    ensures PipeOk(input, out, off + BSZ, s[i := f], Log(g.place + [i], g.asked + multiset{off / BSZ}, g.sent))
  {
    hide Stored, Block;
    var s', g' := s[i := f], Log(g.place + [i], g.asked + multiset{off / BSZ}, g.sent);
    forall j | 0 <= j < NBUF
      ensures BufPlaced(input, out, s', g', j)
    {
      assert BufPlaced(input, out, s, g, j);
    }
    forall b | 0 <= b < |g'.place|
      ensures BlockPlaced(input, out, s', g', b)
    {
      if b < |g.place| { assert BlockPlaced(input, out, s, g, b); }
    }
  }

  /** The kind of change that a completion or the translation makes to buffer i. */
  lemma BufChanges(input: seq<Byte>, out: seq<Byte>, off: nat, s: seq<Buf>, g: Log, i: nat, f: Buf, out': seq<Byte>)
    requires PipeOk(input, out, off, s, g) && i < NBUF && s[i].op != UNUSED && f.op != UNUSED
    requires f.op == s[i].op || f.op == WRITE_PENDING
    requires s[i].op == WRITE_PENDING ==> f.op == WRITE_PENDING
    requires BufOk(input, out', f, s[i].offset / BSZ) && f.offset == s[i].offset && |out'| <= |input|
    requires forall c :: 0 <= c < Blocks(|input|) && Stored(input, out, c) ==> Stored(input, out', c)
    ensures PipeOk(input, out', off, s[i := f],
      g.(sent := g.sent + if f.op == s[i].op then multiset{} else multiset{s[i].offset / BSZ}))
  {
    hide Stored;
    var d := s[i].offset / BSZ;
    var s', g' := s[i := f], g.(sent := g.sent + if f.op == s[i].op then multiset{} else multiset{d});
    Placed(input, out, off, s, g, i);
    forall j | 0 <= j < NBUF
      ensures BufPlaced(input, out', s', g', j)
    {
      assert BufPlaced(input, out, s, g, j);
    }
    forall b | 0 <= b < |g'.place|
      ensures BlockPlaced(input, out', s', g', b)
    {
      assert BlockPlaced(input, out, s, g, b);
    }
  }

  /** A finished write frees its buffer. */
  lemma WriteEnds(input: seq<Byte>, out: seq<Byte>, off: nat, s: seq<Buf>, g: Log, i: nat, f: Buf)
    requires PipeOk(input, out, off, s, g) && i < NBUF && s[i].op == WRITE_PENDING && !s[i].inprogress
    requires f.op == UNUSED && |f.data| == BSZ
    ensures s[i].offset / BSZ < |g.place|
    ensures PipeOk(input, out, off, s[i := f], g.(place := g.place[s[i].offset / BSZ := -1]))
  {
    hide Stored;
    Placed(input, out, off, s, g, i);
    var d := s[i].offset / BSZ;
    var s', g' := s[i := f], g.(place := g.place[d := -1]);
    forall j | 0 <= j < NBUF
      ensures BufPlaced(input, out, s', g', j)
    {
      assert BufPlaced(input, out, s, g, j);
    }
    forall b | 0 <= b < |g'.place|
      ensures BlockPlaced(input, out, s', g', b)
    {
      assert BlockPlaced(input, out, s, g, b);
    }
  }

  lemma Finished(input: seq<Byte>, out: seq<Byte>, off: nat, s: seq<Buf>, g: Log)
    requires PipeOk(input, out, off, s, g) && off >= |input| && forall i :: 0 <= i < NBUF ==> s[i].op == UNUSED
    ensures out == Translated(input)
    ensures forall b: nat :: g.asked[b] == (if b < Blocks(|input|) then 1 else 0) == g.sent[b]
  {
    hide Stored, BufOk;
    forall b | 0 <= b < Blocks(|input|)
      ensures Stored(input, out, b) && g.asked[b] == 1 == g.sent[b]
    {
      assert BlockPlaced(input, out, s, g, b);
    }
    AllStored(input, out);
  }

  class Pipeline {
    const input: seq<Byte>
    const bufs: array<Buf>
    var out: seq<Byte>
    var off: nat
    var numop: int
    ghost var g: Log

    ghost predicate Valid()
      reads this, bufs
    {
      bufs.Length == NBUF && PipeOk(input, out, off, bufs[..], g) && numop == Busy(bufs[..])
    }

    constructor (file: seq<Byte>)
      ensures Valid() && input == file && fresh(bufs) && off == 0 && numop == 0
    {
      input := file;
      var zeros := Zeros(BSZ);
      bufs := new Buf[NBUF](_ => Buf(UNUSED, false, zeros, 0, 0, false, 0));
      out, off, numop := [], 0, 0;
      g := Log([], multiset{}, multiset{});
      new;
      assert forall i :: 0 <= i < NBUF ==> bufs[..][i] == bufs[i];
      BusyZero(bufs[..]);
    }

    /** Work left to do, which every read started, block translated or write ended makes less. */
    ghost function Left(): nat
      requires Valid()
      reads this, bufs
    {
      3 * (Blocks(|input|) - |g.place|) + Work(bufs[..])
    }

    /** Buffer i can be acted on. */
    predicate Ready(i: nat)
      requires i < bufs.Length
      reads this, bufs
    {
      if bufs[i].op == UNUSED then off < |input| else !bufs[i].inprogress
    }

    /** The bytes of the block arrive in the buffer. */
    method ReadDone(f: Buf, ghost b: nat) returns (f': Buf)
      requires BufOk(input, out, f, b) && f.op == READ_PENDING
      ensures f'.op == READ_PENDING && !f'.inprogress && f'.offset == f.offset && BufOk(input, out, f', b)
    {
      hide Stored;
      var end := if f.offset + BSZ <= |input| then f.offset + BSZ else |input|;
      f' := f.(data := input[f.offset..end] + f.data[end - f.offset..], inprogress := false, n := end - f.offset);
      assert f'.data[..f'.n] == Block(input, b);
    }

    /** The system completes the operation of buffer i, if one is in progress. */
    method Complete(i: nat)
      requires Valid() && i < NBUF
      modifies this, bufs
      ensures Valid() && off == old(off) && numop == old(numop) && Left() == old(Left())
      ensures bufs[i].op == old(bufs[i].op) && (bufs[i].op != UNUSED ==> !bufs[i].inprogress)
      ensures forall j :: 0 <= j < NBUF && j != i ==> bufs[j] == old(bufs[j])
    {
      hide PipeOk, Stored;
      var f := bufs[i];
      if f.op != UNUSED && f.inprogress {
        ghost var s := bufs[..];
        Placed(input, out, off, s, g, i);
        ghost var b := f.offset / BSZ;
        var out' := out;
        if f.op == READ_PENDING {
          f := ReadDone(f, b);
        } else {
          StoreKeeps(input, out, b);
          out' := Pwrite(out, f.offset, f.data[..f.nbytes]);
          f := f.(inprogress := false, n := f.nbytes);
        }
        BufChanges(input, out, off, s, g, i, f, out');
        SumsUpdate(s, i, f);
        assert g.(sent := g.sent + multiset{}) == g;
        out := out';
        bufs[i] := f;
        assert bufs[..] == s[i := f];
      }
    }

    /** Any of the operations in progress may complete meanwhile. */
    method Environment()
      requires Valid()
      modifies this, bufs
      ensures Valid() && off == old(off) && numop == old(numop) && Left() == old(Left())
      ensures forall j :: 0 <= j < NBUF ==> bufs[j].op == old(bufs[j].op)
      ensures forall j :: 0 <= j < NBUF && old(Ready(j)) ==> Ready(j)
    {
      hide PipeOk;
      var i := 0;
      while i < NBUF
        invariant 0 <= i <= NBUF && Valid() && off == old(off) && numop == old(numop) && Left() == old(Left())
        invariant forall j :: 0 <= j < NBUF ==> bufs[j].op == old(bufs[j].op)
        invariant forall j :: 0 <= j < NBUF && old(Ready(j)) ==> Ready(j)
      {
        var now: bool := *;
        if now { Complete(i); }
        i := i + 1;
      }
    }

    /** aio_suspend: returns when at least one of the operations asked for has completed. */
    method Suspend()
      requires Valid() && numop > 0
      modifies this, bufs
      ensures Valid() && off == old(off) && numop == old(numop) && Left() == old(Left())
      ensures forall j :: 0 <= j < NBUF ==> bufs[j].op == old(bufs[j].op)
      ensures exists j :: 0 <= j < NBUF && bufs[j].op != UNUSED && Ready(j)
    {
      hide PipeOk;
      Environment();
      BusyZero(bufs[..]);
      var j :| 0 <= j < NBUF && bufs[..][j].op != UNUSED;
      Complete(j);
      assert Ready(j);
    }

    /** The work on buffer i in one pass over the buffers. */
    method Visit(i: nat)
      requires Valid() && i < NBUF
      modifies this, bufs
      ensures Valid() && Left() == old(Left()) - (if old(Ready(i)) then 1 else 0)
      ensures forall j :: 0 <= j < NBUF && j != i ==> bufs[j] == old(bufs[j])
      ensures !old(Ready(i)) ==> bufs[i] == old(bufs[i]) && off == old(off) && numop == old(numop)
      ensures !old(Ready(i)) ==> forall j :: 0 <= j < NBUF && old(Ready(j)) ==> Ready(j)
    {
      hide PipeOk, Stored, BufOk;
      ghost var s := bufs[..];
      var f := bufs[i];
      match f.op {
        case UNUSED =>
          if off < |input| { StartRead(i); }
        case READ_PENDING =>
          if f.inprogress { return; }
          StartWrite(i);
        case WRITE_PENDING =>
          if f.inprogress { return; }
          Placed(input, out, off, s, g, i);
          BufDone(f, f.offset / BSZ);
          assert f.n == f.nbytes;
          f := f.(op := UNUSED);
          WriteEnds(input, out, off, s, g, i, f);
          SumsUpdate(s, i, f);
          bufs[i] := f;
          g := g.(place := g.place[f.offset / BSZ := -1]);
          numop := numop - 1;
          assert bufs[..] == s[i := f];
      }
    }

    lemma BufDone(f: Buf, b: nat)
      requires BufOk(input, out, f, b) && !f.inprogress
      ensures |f.data| == BSZ
      ensures f.op == READ_PENDING ==> f.n <= BSZ && (f.n == BSZ || f.last)
      ensures f.op == READ_PENDING ==> f.n == |Block(input, b)| && f.data[..f.n] == Block(input, b)
      ensures f.op == WRITE_PENDING ==> f.n == f.nbytes
    {
    }

    method StartRead(i: nat)
      requires Valid() && i < NBUF && bufs[i].op == UNUSED && off < |input|
      modifies this, bufs
      ensures Valid() && Left() == old(Left()) - 1
      ensures forall j :: 0 <= j < NBUF && j != i ==> bufs[j] == old(bufs[j])
    {
      hide Stored, BufOk, BufPlaced, BlockPlaced;
      ghost var s := bufs[..];
      assert |bufs[i].data| == BSZ by { assert |s[i].data| == BSZ; }
      hide PipeOk;
      var f := bufs[i].(op := READ_PENDING, offset := off);
      ghost var o := off;
      off := off + BSZ;
      if off >= |input| { f := f.(last := true); }
      f := f.(nbytes := BSZ, inprogress := true);
      ReadStarts(input, out, o, s, g, i, f);
      SumsUpdate(s, i, f);
      bufs[i] := f;
      numop := numop + 1;
      g := Log(g.place + [i], g.asked + multiset{o / BSZ}, g.sent);
      assert bufs[..] == s[i := f];
    }

    /** A read is complete: the buffer is translated in place and its write started. */
    method StartWrite(i: nat)
      requires Valid() && i < NBUF && bufs[i].op == READ_PENDING && !bufs[i].inprogress
      modifies this, bufs
      ensures Valid() && Left() == old(Left()) - 1 && off == old(off)
      ensures forall j :: 0 <= j < NBUF && j != i ==> bufs[j] == old(bufs[j])
    {
      hide PipeOk, Stored;
      ghost var s := bufs[..];
      Placed(input, out, off, s, g, i);
      ghost var b := bufs[i].offset / BSZ;
      var f := bufs[i];
      var n := f.n;
      BufDone(f, b);
      assert n == BSZ || f.last;
      ghost var block := Block(input, b);
      f := TranslateData(f, n);
      assert f.data[..n] == Translated(block);
      f := f.(op := WRITE_PENDING, nbytes := n, inprogress := true);
      BufChanges(input, out, off, s, g, i, f, out);
      SumsUpdate(s, i, f);
      bufs[i] := f;
      g := g.(sent := g.sent + multiset{b});
      assert bufs[..] == s[i := f];
    }

    method TranslateData(f: Buf, n: nat) returns (f': Buf)
      requires n <= |f.data|
      ensures f' == f.(data := f'.data) && |f'.data| == |f.data|
      ensures f'.data[..n] == Translated(f.data[..n])
    {
      hide Translate;
      f' := f;
      var j := 0;
      while j < n
        invariant 0 <= j <= n && f' == f.(data := f'.data) && |f'.data| == |f.data|
        invariant forall x :: 0 <= x < j ==> f'.data[x] == Translate(f.data[x])
        invariant forall x :: j <= x < |f.data| ==> f'.data[x] == f.data[x]
      {
        f' := f'.(data := f'.data[j := Translate(f'.data[j])]);
        j := j + 1;
      }
    }

    /** main: whatever the order of completions, the loop ends with the translated file written,
        every block read once and written once. */
    method Run()
      requires Valid() && off == 0 && numop == 0
      modifies this, bufs
      ensures out == Translated(input)
      ensures |out| == |input|
      ensures forall x :: 0 <= x < |input| && 65 <= input[x] <= 90 ==> out[x] == 65 + (input[x] - 65 + 13) % 26
      ensures forall x :: 0 <= x < |input| && 97 <= input[x] <= 122 ==> out[x] == 97 + (input[x] - 97 + 13) % 26
      ensures forall x :: 0 <= x < |input| && !(65 <= input[x] <= 90) && !(97 <= input[x] <= 122) ==> out[x] == input[x]
      ensures forall b: nat :: g.asked[b] == (if b < Blocks(|input|) then 1 else 0) == g.sent[b]
    {
      hide PipeOk;
      BusyZero(bufs[..]);
      assert bufs[..][0].op == UNUSED;
      assert off < |input| ==> Ready(0);
      while true
        invariant Valid()
        invariant (exists j :: 0 <= j < NBUF && Ready(j)) || (numop == 0 && off >= |input|)
        decreases Left()
      {
        ghost var before := Left();
        var i := 0;
        while i < NBUF
          invariant 0 <= i <= NBUF && Valid() && Left() <= before
          invariant Left() < before || (exists j :: i <= j < NBUF && Ready(j)) || (numop == 0 && off >= |input|)
        {
          Environment();
          BusyZero(bufs[..]);
          assert numop == 0 ==> bufs[..][i].op == UNUSED;
          Visit(i);
          i := i + 1;
        }
        BusyZero(bufs[..]);
        if numop == 0 {
          if off >= |input| { break; }
          assert bufs[..][0].op == UNUSED;
          assert Ready(0);
        } else {
          Suspend();
        }
      }
      Finished(input, out, off, bufs[..], g);
      TranslatedBytes(input);
    }
  }

  /** The pipeline writes what the sequential program writes, however reads are split there and
      completions ordered here. */
  method SameOutput(input: seq<Byte>, sizes: seq<nat>) returns (a: seq<Byte>, b: seq<Byte>)
    requires (forall k :: 0 <= k < |sizes| ==> 1 <= sizes[k] <= BSZ) && |sizes| >= |input|
    ensures a == b == Translated(input)
    ensures |a| == |input|
    ensures forall x :: 0 <= x < |input| && 65 <= input[x] <= 90 ==> a[x] == 65 + (input[x] - 65 + 13) % 26
    ensures forall x :: 0 <= x < |input| && 97 <= input[x] <= 122 ==> a[x] == 97 + (input[x] - 97 + 13) % 26
    ensures forall x :: 0 <= x < |input| && !(65 <= input[x] <= 90) && !(97 <= input[x] <= 122) ==> a[x] == input[x]
  {
    a := Sequential(input, sizes);
    var p := new Pipeline(input);
    p.Run();
    b := p.out;
  }
}
