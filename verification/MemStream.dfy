/** In-memory streams (apue.3e/exercises/fmemopen.c, after fmemopen() in the System Interfaces
    volume of POSIX.1-2008). */
module MemStream {
  import opened Bytes

  const MS_READ: bv8 := 0x01
  const MS_WRITE: bv8 := 0x02
  const MS_APPEND: bv8 := 0x04
  const MS_TRUNCATE: bv8 := 0x08
  const MS_MYBUF: bv8 := 0x10
  const INT_MAX := 0x7fff_ffff

  // ---- the type string ------------------------------------------------------

  predicate LegalType(s: string) {
    s != "" && (s[0] == 'r' || s[0] == 'w' || s[0] == 'a') && forall i :: 1 <= i < |s| ==> s[i] == '+' || s[i] == 'b'
  }

  function TypeFlags(s: string): bv8
    requires LegalType(s)
  {
    (if s[0] == 'r' then MS_READ else if s[0] == 'w' then MS_WRITE | MS_TRUNCATE else MS_APPEND)
    | (if '+' in s then MS_READ | MS_WRITE else 0)
  }

  /** type_to_flags: 0 for anything but one of r, w and a followed by any mix of '+' and 'b'. */
  method TypeToFlags(s: string) returns (flags: bv8)
    ensures flags != 0 <==>
      s != "" && (s[0] == 'r' || s[0] == 'w' || s[0] == 'a') && forall i :: 1 <= i < |s| ==> s[i] == '+' || s[i] == 'b'
    ensures LegalType(s) ==> flags == TypeFlags(s)
  {
    flags := 0;
    var i := 0;
    while i < |s|
      invariant 0 <= i <= |s|
      invariant i == 0 ==> flags == 0
      invariant i > 0 ==> LegalType(s[..i]) && flags == TypeFlags(s[..i]) && flags != 0
    {
      assert s[..i + 1] == s[..i] + [s[i]];
      match s[i] {
        case 'r' =>
          if flags != 0 { return 0; }
          flags := flags | MS_READ;
        case 'w' =>
          if flags != 0 { return 0; }
          flags := flags | (MS_WRITE | MS_TRUNCATE);
        case 'a' =>
          if flags != 0 { return 0; }
          flags := flags | MS_APPEND;
        case '+' =>
          if flags == 0 { return 0; }
          flags := flags | (MS_READ | MS_WRITE);
        case 'b' =>
          if flags == 0 { return 0; }
        case _ =>
          return 0;
      }
      i := i + 1;
    }
    assert s[..i] == s;
  }

  /** find_end: the first null, or the end. */
  method FindEnd(buf: array<Byte>, len: nat) returns (off: nat)
    requires len <= buf.Length
    ensures off <= len && (off < len ==> buf[off] == 0) && forall k :: 0 <= k < off ==> buf[k] != 0
  {
    off := 0;
    while off < len
      invariant 0 <= off <= len && forall k :: 0 <= k < off ==> buf[k] != 0
    {
      if buf[off] == 0 { break; }
      off := off + 1;
    }
  }

  // ---- a bounded file with a position ---------------------------------------

  datatype File = File(data: seq<Byte>, pos: nat, cap: nat, append: bool)

  datatype Whence = SEEK_SET | SEEK_CUR | SEEK_END

  /** The lengths passed to read and write are ints. */
  type Length = n: int | 0 <= n <= INT_MAX
  type Chunk = b: seq<Byte> | |b| <= INT_MAX

  datatype FileOp = Read(len: Length) | Write(bytes: Chunk) | Seek(off: int, whence: Whence)

  /** Undefined: an int would overflow, or bytes would go outside the buffer. */
  datatype Result = Bytes(bytes: seq<Byte>) | Count(n: nat) | At(pos: nat) | EInval | EBadf | Undefined

  predicate FileOk(f: File) { f.pos <= |f.data| <= f.cap }

  function Min(a: nat, b: nat): nat { if a < b then a else b }

  function Start(f: File): nat { if f.append then |f.data| else f.pos }

  function SeekTarget(f: File, off: int, whence: Whence): int {
    match whence
    case SEEK_SET => off
    case SEEK_CUR => f.pos + off
    case SEEK_END => |f.data| + off
  }

  /** Conversion to a 32-bit int. */
  function ToInt(x: int): (i: int)
    ensures -INT_MAX - 1 <= i <= INT_MAX && (i == x <==> -INT_MAX - 1 <= x <= INT_MAX)
    ensures i % 0x1_0000_0000 == x % 0x1_0000_0000
    ensures x >= 0 ==> i <= x
  {
    var u := x % 0x1_0000_0000;
    if u <= INT_MAX then u else u - 0x1_0000_0000
  }

  /** How much of bytes there is room for at offset at. */
  function Room(f: File, at: nat, bytes: Chunk): (n: nat)
    requires at <= f.cap
    ensures n <= |bytes|
  {
    Min(|bytes|, f.cap - at)
  }

  /** As much of bytes as there is room for, at offset at. */
  function PutAt(f: File, at: nat, bytes: Chunk): (g: File)
    requires FileOk(f) && at <= |f.data|
    ensures FileOk(g) && |g.data| == (if g.pos > |f.data| then g.pos else |f.data|)
  {
    var n := Room(f, at, bytes);
    f.(data := WriteAt(f.data, at, bytes[..n]), pos := at + n)
  }

  function After(f: File, op: FileOp): File
    requires FileOk(f)
  {
    match op
    case Read(len) => f.(pos := f.pos + Min(len, |f.data| - f.pos))
    case Write(bytes) =>
      PutAt(f, Start(f), bytes)
    case Seek(off, whence) =>
      var t := SeekTarget(f, off, whence);
      if 0 <= t <= |f.data| then f.(pos := t) else f
  }

  function Answer(f: File, op: FileOp): Result
    requires FileOk(f)
  {
    match op
    case Read(len) => Bytes(f.data[f.pos..f.pos + Min(len, |f.data| - f.pos)])
    case Write(bytes) => Count(Room(f, Start(f), bytes))
    case Seek(off, whence) =>
      var t := SeekTarget(f, off, whence);
      if 0 <= t <= |f.data| then At(t) else EInval
  }

  lemma AfterOk(f: File, op: FileOp)
    requires FileOk(f)
    ensures FileOk(After(f, op)) && After(f, op).cap == f.cap && After(f, op).append == f.append
    ensures |After(f, op).data| >= |f.data|
  {
  }

  // ---- what the code does differently ---------------------------------------

  predicate Inside(f: File, t: int) { 0 <= t <= |f.data| }

  /** A seek whose exact target is inside the data and is not kept by the conversion to int, or is
      outside and is brought inside. */
  predicate Deceptive(f: File, off: int, whence: Whence) {
    var t := SeekTarget(f, off, whence);
    if Inside(f, t) then t > INT_MAX else Inside(f, ToInt(t))
  }

  /** All of the write is within the range of an int. */
  predicate WriteFits(f: File, bytes: Chunk)
    requires FileOk(f)
  {
    Start(f) + Room(f, Start(f), bytes) <= INT_MAX
  }

  /** The byte that the null of a stream without '+' will replace is 0, or there is none. */
  predicate NullSpares(f: File, bytes: Chunk)
    requires FileOk(f) && f.cap > 0
  {
    var n := Room(f, Start(f), bytes);
    var end := Start(f) + n;
    if end < |f.data| then f.data[end] == 0
    else end < f.cap || (if n > 0 then bytes[n - 1] == 0 else f.data[f.cap - 1] == 0)
  }

  /** The data once the null has been put where a stream without '+' puts it. */
  function Terminated(data: seq<Byte>, pos: nat, cap: nat): (d: seq<Byte>)
    requires pos <= |data| <= cap && cap > 0
    ensures |d| == |data|
  {
    if pos < |data| then data[pos := 0]
    else if pos == cap then data[cap - 1 := 0]
    else data
  }

  /** What the code makes of a write: plus says whether the stream was opened with '+'. */
  function Written(f: File, plus: bool, bytes: Chunk): (Result, File)
    requires FileOk(f) && f.cap > 0
  {
    var off := ToInt(Start(f));
    if off < 0 || off + Room(f, off, bytes) > INT_MAX then (Undefined, f)
    else
      var g := PutAt(f, off, bytes);
      (Count(Room(f, off, bytes)), if plus then g else g.(data := Terminated(g.data, g.pos, g.cap)))
  }

  lemma WrittenIs(f: File, plus: bool, bytes: Chunk)
    requires FileOk(f) && f.cap > 0 && ToInt(Start(f)) >= 0 && ToInt(Start(f)) + Room(f, ToInt(Start(f)), bytes) <= INT_MAX
    ensures var off := ToInt(Start(f));
      var n := Room(f, off, bytes);
      var data := WriteAt(f.data, off, bytes[..n]);
      Written(f, plus, bytes) ==
      (Count(n), File(if plus then data else Terminated(data, off + n, f.cap), off + n, f.cap, f.append))
  {
    hide WriteAt, Terminated;
  }

  /** With '+' a write is that of the bounded file if and only if it stays within the range of an
      int; without '+' if and only if the null spares the data too. */
  lemma WriteExact(f: File, plus: bool, bytes: Chunk)
    requires FileOk(f) && f.cap > 0
    ensures Written(f, plus, bytes) == (Answer(f, Write(bytes)), After(f, Write(bytes))) <==>
            WriteFits(f, bytes) && (plus || NullSpares(f, bytes))
    ensures !WriteFits(f, bytes) ==>
            Written(f, plus, bytes).0 != Answer(f, Write(bytes)) || Written(f, plus, bytes).1.pos != After(f, Write(bytes)).pos
  {
    NullExact(f, bytes);
    hide WriteAt, Terminated, NullSpares;
  }

  /** The bytes written, byte by byte, but for the one the null replaces. */
  lemma WrittenBytes(f: File, plus: bool, bytes: Chunk)
    requires FileOk(f) && f.cap > 0
    ensures var at := if f.append then |f.data| else f.pos;
      var n := if |bytes| <= f.cap - at then |bytes| else f.cap - at;
      at + n <= INT_MAX ==>
        var (r, g) := Written(f, plus, bytes);
        && r == Count(n) && g.pos == at + n && |g.data| == (if at + n > |f.data| then at + n else |f.data|)
        && (forall k :: 0 <= k < |g.data| && (plus || k != (if g.pos < f.cap then g.pos else f.cap - 1)) ==>
              g.data[k] == if at <= k < at + n then bytes[k - at] else f.data[k])
  {
  }

  lemma NullExact(f: File, bytes: Chunk)
    requires FileOk(f) && f.cap > 0
    ensures var w := PutAt(f, Start(f), bytes); Terminated(w.data, w.pos, w.cap) == w.data <==> NullSpares(f, bytes)
  {
    var w := PutAt(f, Start(f), bytes);
    var d := Terminated(w.data, w.pos, w.cap);
    if w.pos < |w.data| { assert d[w.pos] == 0; }
    else if w.pos == w.cap { assert d[w.cap - 1] == 0; }
  }

  // ---- the stream -----------------------------------------------------------

  predicate Has(flags: bv8, bit: bv8) { flags & bit != 0 }

  /** Opened with '+'. */
  predicate Update(flags: bv8) { Has(flags, MS_READ) && Has(flags, MS_WRITE) }

  class Stream {
    const buf: array<Byte>
    const rsize: nat
    const flags: bv8
    var vsize: nat
    var curpos: nat

    ghost predicate Valid()
      reads this, buf
    {
      curpos <= vsize <= rsize <= buf.Length && 0 < rsize
    }

    ghost function Contents(): File
      requires Valid()
      reads this, buf
    {
      File(buf[..vsize], curpos, rsize, Has(flags, MS_APPEND))
    }

    constructor (buffer: array<Byte>, size: nat, flags_: bv8, pos: nat)
      requires 0 < size <= buffer.Length && pos <= size
      requires !Has(flags_, MS_APPEND) ==> pos == 0
      ensures Valid() && buf == buffer && rsize == size && flags == flags_ && curpos == pos
      ensures vsize == if Has(flags_, MS_APPEND) then pos else if Has(flags_, MS_TRUNCATE) then 0 else size
    {
      buf, rsize, flags, curpos := buffer, size, flags_, pos;
      if Has(flags_, MS_APPEND) {
        vsize := pos;
      } else if Has(flags_, MS_TRUNCATE) {
        vsize := 0;
      } else {
        vsize := size;
      }
    }

    /** mstream_read. */
    method Read(len: Length) returns (r: Result)
      requires Valid()
      modifies this`curpos
      ensures Valid()
      ensures !Has(flags, MS_READ) ==> r == EBadf && curpos == old(curpos)
      ensures Has(flags, MS_READ) ==> curpos == if len <= vsize - old(curpos) then old(curpos) + len else vsize
      ensures Has(flags, MS_READ) ==> r == Bytes(buf[old(curpos)..curpos])
      ensures Has(flags, MS_READ) ==> r == Answer(old(Contents()), FileOp.Read(len)) && Contents() == After(old(Contents()), FileOp.Read(len))
    {
      if !Has(flags, MS_READ) { return EBadf; }
      if curpos >= vsize { return Bytes([]); }
      var nr := Min(len, vsize - curpos);
      r := Bytes(buf[curpos..curpos + nr]);
      assert buf[curpos..curpos + nr] == buf[..vsize][curpos..curpos + nr];
      curpos := curpos + nr;
    }

    /** mstream_seek; the target is computed as an int, so it is the seek of the bounded file if and
        only if that is not deceptive. */
    method Seek(off: int, whence: Whence) returns (r: Result)
      requires Valid()
      modifies this`curpos
      ensures Valid()
      ensures whence == SEEK_SET ==>
        var t := ToInt(off);
        if 0 <= t <= vsize then r == At(t) && curpos == t else r == EInval && curpos == old(curpos)
      ensures whence == SEEK_CUR ==>
        var t := ToInt(old(curpos) + off);
        if 0 <= t <= vsize then r == At(t) && curpos == t else r == EInval && curpos == old(curpos)
      ensures whence == SEEK_END ==>
        var t := ToInt(vsize + off);
        if 0 <= t <= vsize then r == At(t) && curpos == t else r == EInval && curpos == old(curpos)
      ensures r == Answer(old(Contents()), FileOp.Seek(off, whence)) && Contents() == After(old(Contents()), FileOp.Seek(off, whence)) <==>
              !Deceptive(old(Contents()), off, whence)
      ensures Deceptive(old(Contents()), off, whence) ==> r != Answer(old(Contents()), FileOp.Seek(off, whence))
    {
      var target := ToInt(match whence case SEEK_SET => off case SEEK_CUR => curpos + off case SEEK_END => vsize + off);
      if target < 0 || target > vsize { return EInval; }
      curpos := target;
      r := At(target);
    }

    /** mstream_write: the write of the bounded file if and only if it stays within the range of an
        int and, without '+', the null that ends it spares the data. With '+' the null goes behind
        the end of a stream that grows. */
    method Write(bytes: Chunk) returns (r: Result)
      requires Valid()
      modifies this`curpos, this`vsize, buf
      ensures Valid()
      ensures !Has(flags, MS_WRITE) && !Has(flags, MS_APPEND) ==>
        r == EBadf && Contents() == old(Contents()) && buf[..] == old(buf[..])
      ensures Has(flags, MS_WRITE) || Has(flags, MS_APPEND) ==>
        (r, Contents()) == Written(old(Contents()), Has(flags, MS_READ), bytes)
      ensures Has(flags, MS_WRITE) || Has(flags, MS_APPEND) ==>
        (r == Answer(old(Contents()), FileOp.Write(bytes)) && Contents() == After(old(Contents()), FileOp.Write(bytes)) <==>
         WriteFits(old(Contents()), bytes) && (Has(flags, MS_READ) || NullSpares(old(Contents()), bytes)))
      ensures Update(flags) && old(vsize) < vsize < rsize ==> buf[vsize] == 0
      ensures r.Count? && !Has(flags, MS_READ) ==> buf[if curpos < rsize then curpos else rsize - 1] == 0
      ensures forall k :: vsize < k < buf.Length ==> buf[k] == old(buf[k])
    {
      if !Has(flags, MS_WRITE) && !Has(flags, MS_APPEND) { return EBadf; }
      hide Has, Update, Written, WriteFits, NullSpares, After, Answer;
      WriteExact(Contents(), Has(flags, MS_READ), bytes);
      r := Place(bytes);
    }

    /** mstream_write once the stream may be written. */
    method Place(bytes: Chunk) returns (r: Result)
      requires Valid()
      modifies this`curpos, this`vsize, buf
      ensures Valid() && (r, Contents()) == Written(old(Contents()), Has(flags, MS_READ), bytes)
      ensures Update(flags) && old(vsize) < vsize < rsize ==> buf[vsize] == 0
      ensures r.Count? && !Has(flags, MS_READ) ==> buf[Min(curpos, rsize - 1)] == 0
      ensures forall k :: vsize < k < buf.Length ==> buf[k] == old(buf[k])
    {
      hide Has, Terminated, WriteAt, Update, ToInt;
      var off := ToInt(if Has(flags, MS_APPEND) then vsize else curpos);
      if off < 0 { return Undefined; }
      var nw := Min(|bytes|, rsize - off);
      if off + nw > INT_MAX { return Undefined; }
      WrittenIs(Contents(), Has(flags, MS_READ), bytes);
      hide Written, PutAt;
      StoreAndEnd(off, bytes[..nw]);
      r := Count(nw);
    }

    /** The bytes and then the null. */
    method StoreAndEnd(off: nat, w: seq<Byte>)
      requires Valid() && off <= vsize && off + |w| <= rsize
      modifies this`curpos, this`vsize, buf
      ensures Valid() && curpos == off + |w|
      ensures var data := WriteAt(old(buf[..vsize]), off, w);
        vsize == |data| && buf[..vsize] == if Has(flags, MS_READ) then data else Terminated(data, curpos, rsize)
      ensures Update(flags) && old(vsize) < vsize < rsize ==> buf[vsize] == 0
      ensures !Has(flags, MS_READ) ==> buf[Min(curpos, rsize - 1)] == 0
      ensures forall k :: vsize < k < buf.Length ==> buf[k] == old(buf[k])
    {
      assert Update(flags) ==> Has(flags, MS_READ);
      hide Has, Terminated, WriteAt, Update;
      Store(off, w);
      if !Has(flags, MS_READ) { PutNull(); }
    }

    /** The bytes go to off; a stream with '+' that grows gets a null behind its end. */
    method Store(off: nat, w: seq<Byte>)
      requires Valid() && off <= vsize && off + |w| <= rsize
      modifies this`curpos, this`vsize, buf
      ensures Valid() && curpos == off + |w| && vsize == (if off + |w| > old(vsize) then off + |w| else old(vsize))
      ensures buf[..vsize] == WriteAt(old(buf[..vsize]), off, w)
      ensures Update(flags) && old(vsize) < vsize < rsize ==> buf[vsize] == 0
      ensures forall k :: vsize < k < buf.Length ==> buf[k] == old(buf[k])
    {
      CopyPrefix(buf[..], vsize, off, w);
      hide WriteAt, Has;
      Copy(off, w);
      curpos := off + |w|;
      if curpos > vsize {
        vsize := curpos;
        if Update(flags) && vsize < rsize { buf[vsize] := 0; }
      }
    }

    /** The null of a stream without '+'. */
    method PutNull()
      requires Valid()
      modifies buf
      ensures buf[..vsize] == Terminated(old(buf[..vsize]), curpos, rsize) && buf[Min(curpos, rsize - 1)] == 0
      ensures forall k :: vsize < k < buf.Length ==> buf[k] == old(buf[k])
    {
      if curpos < rsize { buf[curpos] := 0; } else { buf[rsize - 1] := 0; }
    }

    /** memcpy(ms->buf + off, w, |w|) */
    method Copy(off: nat, w: seq<Byte>)
      requires off + |w| <= buf.Length
      modifies buf
      ensures buf[..] == WriteAt(old(buf[..]), off, w)
    {
      forall k | 0 <= k < |w| { buf[off + k] := w[k]; }
    }
  }

  lemma CopyPrefix(s: seq<Byte>, v: nat, off: nat, w: seq<Byte>)
    requires off <= v <= |s| && off + |w| <= |s|
    ensures var v' := if off + |w| > v then off + |w| else v;
      && |WriteAt(s, off, w)| == |s| && WriteAt(s, off, w)[..v'] == WriteAt(s[..v], off, w)
      && forall k :: v' <= k < |s| ==> WriteAt(s, off, w)[k] == s[k]
  {
  }

  /** fmemopen: a stream, or null with the reason. memory says whether the mallocs succeed. */
  method FMemOpen(buffer: array?<Byte>, size: nat, mode: string, memory: bool) returns (s: Stream?)
    requires buffer != null ==> size <= buffer.Length
    ensures s != null <==> size > 0 && memory && LegalType(mode) && (buffer == null ==> '+' in mode)
    ensures s != null ==>
      && fresh(s) && s.Valid() && s.rsize == size && (buffer != null ==> s.buf == buffer)
      && s.flags == (if buffer == null then TypeFlags(mode) | MS_MYBUF else TypeFlags(mode))
      && (Has(s.flags, MS_READ) <==> mode[0] == 'r' || '+' in mode)
      && (Has(s.flags, MS_WRITE) || Has(s.flags, MS_APPEND) <==> mode[0] != 'r' || '+' in mode)
      && (Has(s.flags, MS_APPEND) <==> mode[0] == 'a')
      && (mode[0] == 'r' ==> s.curpos == 0 && s.vsize == size)
      && (mode[0] == 'w' ==> s.curpos == 0 && s.vsize == 0)
      && (mode[0] == 'a' ==> s.curpos == s.vsize)
      && (mode[0] == 'a' && buffer != null ==>
            (forall k :: 0 <= k < s.vsize ==> buffer[k] != 0) && (s.vsize < size ==> buffer[s.vsize] == 0))
  {
    if size == 0 || !memory { return null; }
    var flags := TypeToFlags(mode);
    if flags == 0 { return null; }
    ModeFlags(mode);
    if buffer == null {
      if !Update(flags) { return null; }
      var mine := new Byte[size];
      s := new Stream(mine, size, flags | MS_MYBUF, 0);
    } else {
      var pos := 0;
      if Has(flags, MS_APPEND) { pos := FindEnd(buffer, size); }
      s := new Stream(buffer, size, flags, pos);
    }
  }

  lemma ModeFlags(mode: string)
    requires LegalType(mode)
    ensures var f := TypeFlags(mode);
      && (Has(f, MS_APPEND) <==> mode[0] == 'a') && (Has(f, MS_TRUNCATE) <==> mode[0] == 'w')
      && (Has(f | MS_MYBUF, MS_APPEND) <==> mode[0] == 'a') && (Has(f | MS_MYBUF, MS_TRUNCATE) <==> mode[0] == 'w')
      && (Update(f) <==> '+' in mode) && (Update(f | MS_MYBUF) <==> '+' in mode)
      && (Has(f, MS_READ) <==> mode[0] == 'r' || '+' in mode)
      && (Has(f, MS_WRITE) || Has(f, MS_APPEND) <==> mode[0] != 'r' || '+' in mode)
  {
  }

  // ---- sequences of operations ----------------------------------------------

  function AfterAll(f: File, ops: seq<FileOp>): (g: File)
    requires FileOk(f)
    ensures FileOk(g) && g.cap == f.cap && g.append == f.append && |g.data| >= |f.data|
  {
    if ops == [] then f
    else
      var g := AfterAll(f, ops[..|ops| - 1]);
      AfterOk(g, ops[|ops| - 1]);
      After(g, ops[|ops| - 1])
  }

  /** The answers, each with the position it leaves. */
  function Answers(f: File, ops: seq<FileOp>): (rs: seq<(Result, nat)>)
    requires FileOk(f)
    ensures |rs| == |ops|
  {
    if ops == [] then []
    else
      Answers(f, ops[..|ops| - 1]) +
      [(Answer(AfterAll(f, ops[..|ops| - 1]), ops[|ops| - 1]), AfterAll(f, ops).pos)]
  }

  /** The operations that do what they do on the bounded file. */
  predicate Exact(f: File, op: FileOp)
    requires FileOk(f)
  {
    match op
    case Read(_) => true
    case Write(bytes) => WriteFits(f, bytes)
    case Seek(off, whence) => !Deceptive(f, off, whence)
  }

  method OneOp(s: Stream, op: FileOp) returns (r: Result)
    requires s.Valid() && Update(s.flags)
    modifies s`curpos, s`vsize, s.buf
    ensures s.Valid()
    ensures Exact(old(s.Contents()), op) ==> r == Answer(old(s.Contents()), op) && s.Contents() == After(old(s.Contents()), op)
    ensures !Exact(old(s.Contents()), op) ==> r != Answer(old(s.Contents()), op) || s.curpos != After(old(s.Contents()), op).pos
  {
    hide WriteFits, NullSpares, Written, After, Answer, Deceptive;
    match op {
      case Read(len) => r := s.Read(len);
      case Write(bytes) =>
        WriteExact(s.Contents(), true, bytes);
        r := s.Write(bytes);
      case Seek(off, whence) => r := s.Seek(off, whence);
    }
  }

  /** Any sequence of reads, writes and seeks on a stream opened with '+' gives the answers and
      positions of a bounded file if and only if each, on that file, stays within the range of an
      int; then the contents are its too. */
  method RunStream(s: Stream, ops: seq<FileOp>) returns (rs: seq<(Result, nat)>)
    requires s.Valid() && Update(s.flags)
    modifies s`curpos, s`vsize, s.buf
    ensures s.Valid() && |rs| == |ops|
    ensures rs == Answers(old(s.Contents()), ops) <==> AllExact(old(s.Contents()), ops)
    ensures AllExact(old(s.Contents()), ops) ==> s.Contents() == AfterAll(old(s.Contents()), ops)
  {
    hide After, Answer, Exact;
    rs := [];
    ghost var f := s.Contents();
    while |rs| < |ops|
      invariant |rs| <= |ops| && s.Valid()
      invariant rs == Answers(f, ops[..|rs|]) <==> AllExact(f, ops[..|rs|])
      invariant AllExact(f, ops[..|rs|]) ==> s.Contents() == AfterAll(f, ops[..|rs|])
      decreases |ops| - |rs|
    {
      var n := |rs|;
      var r := OneOp(s, ops[n]);
      assert ops[..n + 1][..n] == ops[..n];
      rs := rs + [(r, s.curpos)];
      assert rs[..n] + [rs[n]] == rs;
    }
    assert ops[..|rs|] == ops;
  }

  predicate AllExact(f: File, ops: seq<FileOp>)
    requires FileOk(f)
  {
    ops == [] || (AllExact(f, ops[..|ops| - 1]) && Exact(AfterAll(f, ops[..|ops| - 1]), ops[|ops| - 1]))
  }

  /** In a buffer no longer than an int can count every write stays within the range of an int, and
      so does every seek by an offset that does. */
  lemma SmallIsExact(f: File, op: FileOp)
    requires FileOk(f) && f.cap <= INT_MAX
    requires op.Seek? ==> -INT_MAX <= op.off <= INT_MAX - f.cap
    ensures Exact(f, op)
  {
  }

  /** What is written is read back after a seek to where the write began, and the rest stays. */
  method ReadBack(s: Stream, bytes: Chunk) returns (r: Result)
    requires s.Valid() && Update(s.flags)
    modifies s`curpos, s`vsize, s.buf
    ensures s.Valid()
    ensures var at := if Has(s.flags, MS_APPEND) then old(s.vsize) else old(s.curpos);
      var n := if |bytes| <= s.rsize - at then |bytes| else s.rsize - at;
      at + n <= INT_MAX ==>
      && r == Result.Bytes(bytes[..n]) && s.curpos == at + n
      && s.vsize == (if at + n > old(s.vsize) then at + n else old(s.vsize))
      && s.buf[..at] == old(s.buf[..at])
      && (at + n <= old(s.vsize) ==> s.buf[at + n..s.vsize] == old(s.buf[at + n..s.vsize]))
  {
    hide Has, Update, Room, WriteFits;
    ghost var f := s.Contents();
    RoomIs(f, bytes);
    r := WriteSeekRead(s, bytes);
    ghost var g, n := s.Contents(), Room(f, Start(f), bytes);
    if WriteFits(f, bytes) { SameEnds(s.buf[..], old(s.buf[..]), s.vsize, old(s.vsize), Start(f), n); }
  }

  method WriteSeekRead(s: Stream, bytes: Chunk) returns (r: Result)
    requires s.Valid() && Update(s.flags)
    modifies s`curpos, s`vsize, s.buf
    ensures s.Valid()
    ensures var f := old(s.Contents());
      var n := Room(f, Start(f), bytes);
      WriteFits(f, bytes) ==>
      && r == Result.Bytes(bytes[..n]) && s.curpos == Start(f) + n
      && s.vsize == (if Start(f) + n > |f.data| then Start(f) + n else |f.data|)
      && s.buf[..s.vsize][..Start(f)] == f.data[..Start(f)]
      && (Start(f) + n <= |f.data| ==> s.buf[..s.vsize][Start(f) + n..] == f.data[Start(f) + n..])
  {
    assert Has(s.flags, MS_READ) && Has(s.flags, MS_WRITE);
    ghost var f := s.Contents();
    if WriteFits(f, bytes) { BackOnFile(f, bytes); }
    hide NullSpares, Written, Update, After, Answer, WriteFits, Deceptive, Room, Has;
    var start := if Has(s.flags, MS_APPEND) then s.vsize else s.curpos;
    var w := s.Write(bytes);
    w := s.Seek(start, SEEK_SET);
    r := s.Read(|bytes|);
  }

  lemma SameEnds(b: seq<Byte>, was: seq<Byte>, v: nat, v0: nat, at: nat, n: nat)
    requires |b| == |was| && at <= v0 <= v <= |b| && at + n <= v && v == if at + n > v0 then at + n else v0
    requires b[..v][..at] == was[..v0][..at]
    requires at + n <= v0 ==> b[..v][at + n..] == was[..v0][at + n..]
    ensures b[..at] == was[..at] && (at + n <= v0 ==> b[at + n..v] == was[at + n..v])
  {
    assert b[..v][..at] == b[..at] && was[..v0][..at] == was[..at];
    if at + n <= v0 {
      assert b[..v][at + n..] == b[at + n..v] && was[..v0][at + n..] == was[at + n..v0];
    }
  }

  lemma RoomIs(f: File, bytes: Chunk)
    requires FileOk(f)
    ensures var at := if f.append then |f.data| else f.pos;
      var n := if |bytes| <= f.cap - at then |bytes| else f.cap - at;
      at == Start(f) && n == Room(f, at, bytes) && (WriteFits(f, bytes) <==> at + n <= INT_MAX)
  {
  }

  /** Writing and reading back on the bounded file. */
  lemma BackOnFile(f: File, bytes: Chunk)
    requires FileOk(f) && WriteFits(f, bytes)
    ensures var n := Room(f, Start(f), bytes);
      var g := After(f, Write(bytes));
      var h := After(g, Seek(Start(f), SEEK_SET));
      && FileOk(g) && !Deceptive(g, Start(f), SEEK_SET) && FileOk(h) && Answer(h, Read(|bytes|)) == Bytes(bytes[..n])
      && After(h, Read(|bytes|)).pos == Start(f) + n && After(h, Read(|bytes|)).data == g.data
      && |g.data| == (if Start(f) + n > |f.data| then Start(f) + n else |f.data|)
      && g.data[..Start(f)] == f.data[..Start(f)]
      && (Start(f) + n <= |f.data| ==> g.data[Start(f) + n..] == f.data[Start(f) + n..])
  {
    var n, g := Room(f, Start(f), bytes), After(f, Write(bytes));
    assert g.data[Start(f)..Start(f) + n] == bytes[..n];
  }

  lemma MiddleOnFile()
    ensures Written(File([], 0, 10, false), false, [1, 2, 3]) == (Count(3), File([1, 2, 3], 3, 10, false))
    ensures Written(File([1, 2, 3], 0, 10, false), false, [9]) == (Count(1), File([9, 0, 3], 1, 10, false))
    ensures SeekTarget(File([1, 2, 3], 3, 10, false), 0, SEEK_SET) == 0
  {
    assert WriteAt([], 0, [1, 2, 3][..3]) == [1, 2, 3];
    assert WriteAt([1, 2, 3], 0, [9][..1]) == [9, 2, 3] && [9, 2, 3][1 := 0] == [9, 0, 3];
  }

  /** A write in the middle of a stream opened for writing only: the byte behind it is lost. */
  method MiddleLost(buffer: array<Byte>) returns (s: Stream)
    requires buffer.Length == 10
    modifies buffer
    ensures fresh(s) && s.Valid() && s.Contents().data == [9, 0, 3]
  {
    var stream := FMemOpen(buffer, 10, "w", true);
    ModeFlags("w");
    MiddleOnFile();
    hide Written, Has, Update, After, Answer, WriteFits, NullSpares, Deceptive;
    s := stream;
    var r := s.Write([1, 2, 3]);
    r := s.Seek(0, SEEK_SET);
    r := s.Write([9]);
  }

  /** A seek to 2 to the 32 goes to 0, where the bounded file answers EINVAL. */
  method FarSeek(s: Stream) returns (r: Result)
    requires s.Valid() && s.rsize < 0x1_0000_0000
    modifies s`curpos
    ensures s.Valid() && r == At(0) && s.curpos == 0
    ensures Answer(old(s.Contents()), FileOp.Seek(0x1_0000_0000, SEEK_SET)) == EInval
  {
    r := s.Seek(0x1_0000_0000, SEEK_SET);
  }

  /** To the end, back by n, and n bytes read: the last n bytes of the data. */
  method ReadTail(s: Stream, n: Length, around: bool) returns (r: Result)
    requires s.Valid() && Has(s.flags, MS_READ) && n <= s.vsize <= INT_MAX
    modifies s`curpos
    ensures s.Valid() && r == Result.Bytes(s.buf[s.vsize - n..s.vsize]) && s.curpos == s.vsize
  {
    hide Has, Answer, After, Deceptive, ToInt;
    var back: int, t := n, EInval;
    if around {
      t := s.Seek(0, SEEK_END);
      t := s.Seek(-back, SEEK_CUR);
    } else {
      t := s.Seek(-back, SEEK_END);
    }
    r := s.Read(n);
  }

  /** A read, back by as much as it gave, and the same read again: the same bytes. */
  method ReadAgain(s: Stream, n: Length) returns (r: Result, again: Result)
    requires s.Valid() && Has(s.flags, MS_READ) && s.vsize <= INT_MAX
    modifies s`curpos
    ensures s.Valid() && again == r && r.Bytes? && |r.bytes| <= n && s.curpos == old(s.curpos) + |r.bytes|
  {
    hide Has, Answer, After, Deceptive, ToInt;
    r := s.Read(n);
    var t := s.Seek(-|r.bytes|, SEEK_CUR);
    again := s.Read(n);
  }
}
