/** What the bytes of the two database files mean: chain pointers, index records and data
    extents, each at its file offset. Every access the library makes to a file is one of the
    operations below, and each is proved to act on the bytes as it acts on the image. */
module DbImage {
  import opened Bytes
  import opened Options
  import opened DbFormat

  /** ptr: every chain pointer by offset (free list, 137 hash chains, one per record);
      body: every index record by offset; ext: every data extent by offset, without newline. */
  datatype Image = Image(ptr: map<nat, nat>, body: map<nat, Body>, idxEnd: nat,
                         ext: map<nat, string>, datEnd: nat)

  /** Offset of list c: 0 is the free list, 1 + h the chain of hash value h. */
  function Head(c: nat): nat { PTR_SZ * c }

  const NLISTS := NHASH + 1

  predicate IsHead(o: nat) { o < PTR_SZ * NLISTS && o % PTR_SZ == 0 }

  // ---- well-formed images ---------------------------------------------------

  /** The record at o is followed by another one or by the end of the file. */
  predicate RecFollowed(body: map<nat, Body>, end: nat, o: nat)
    requires o in body
  {
    o + RecSize(body[o]) == end || o + RecSize(body[o]) in body
  }

  predicate RecInFile(body: map<nat, Body>, end: nat, o: nat)
    requires o in body
  {
    REC_OFF <= o && o + RecSize(body[o]) <= end
  }

  /** Index records tile the file from REC_OFF to its end. */
  predicate RecordsTile(body: map<nat, Body>, end: nat) {
    && REC_OFF <= end
    && (end == REC_OFF || REC_OFF in body)
    && (forall o :: o in body ==> RecInFile(body, end, o))
    && (forall o {:trigger RecFollowed(body, end, o)} :: o in body ==> RecFollowed(body, end, o))
    && (forall o, p :: o in body && p in body && o < p ==> o + RecSize(body[o]) <= p)
  }

  predicate LinesOk(body: map<nat, Body>) { forall o :: o in body ==> BodyOk(body[o]) }

  predicate ExtFollowed(ext: map<nat, string>, end: nat, d: nat)
    requires d in ext
  {
    d + |ext[d]| + 1 == end || d + |ext[d]| + 1 in ext
  }

  predicate ExtInFile(ext: map<nat, string>, end: nat, d: nat)
    requires d in ext
  {
    DATLEN_MIN <= |ext[d]| + 1 <= DATLEN_MAX && d + |ext[d]| + 1 <= end
  }

  /** Data extents, with their newlines, tile the data file. */
  predicate ExtentsTile(ext: map<nat, string>, end: nat) {
    && (end == 0 || 0 in ext)
    && (forall d :: d in ext ==> ExtInFile(ext, end, d))
    && (forall d {:trigger ExtFollowed(ext, end, d)} :: d in ext ==> ExtFollowed(ext, end, d))
    && (forall d, e :: d in ext && e in ext && d < e ==> d + |ext[d]| + 1 <= e)
  }

  predicate PointersOk(ptr: map<nat, nat>, body: map<nat, Body>) {
    && (forall c :: 0 <= c < NLISTS ==> Head(c) in ptr)
    && (forall o :: o in body ==> o in ptr)
    && (forall o :: o in ptr ==> (IsHead(o) || o in body) && ptr[o] <= PTR_MAX)
  }

  /** Each record owns one extent of exactly the length it records. */
  predicate RecordsOwnExtents(body: map<nat, Body>, ext: map<nat, string>) {
    && (forall o :: o in body ==> body[o].datoff in ext && |ext[body[o].datoff]| + 1 == body[o].datlen)
    && (forall o, p :: o in body && p in body && o != p ==> body[o].datoff != body[p].datoff)
  }

  predicate Wf(img: Image) {
    && RecordsTile(img.body, img.idxEnd)
    && LinesOk(img.body)
    && ExtentsTile(img.ext, img.datEnd)
    && PointersOk(img.ptr, img.body)
    && RecordsOwnExtents(img.body, img.ext)
  }

  const EmptyImage := Image(map c | 0 <= c < NLISTS :: Head(c) := 0, map[], REC_OFF, map[], 0)

  lemma EmptyImageWf()
    ensures Wf(EmptyImage)
  {
  }

  /** Every byte after the hash table belongs to exactly one index record. */
  lemma {:induction false} RecordsCover(img: Image, x: nat, from: nat) returns (o: nat)
    requires RecordsTile(img.body, img.idxEnd) && from in img.body && from <= x < img.idxEnd
    ensures o in img.body && o <= x < o + RecSize(img.body[o])
    ensures forall p :: p in img.body && p <= x < p + RecSize(img.body[p]) ==> p == o
    decreases x - from
  {
    if x < from + RecSize(img.body[from]) {
      o := from;
    } else {
      assert RecFollowed(img.body, img.idxEnd, from);
      o := RecordsCover(img, x, from + RecSize(img.body[from]));
    }
  }

  /** Every byte of the data file belongs to exactly one extent. */
  lemma {:induction false} ExtentsCover(img: Image, x: nat, from: nat) returns (d: nat)
    requires ExtentsTile(img.ext, img.datEnd) && from in img.ext && from <= x < img.datEnd
    ensures d in img.ext && d <= x < d + |img.ext[d]| + 1
    ensures forall e :: e in img.ext && e <= x < e + |img.ext[e]| + 1 ==> e == d
    decreases x - from
  {
    assert ExtInFile(img.ext, img.datEnd, from);
    if x < from + |img.ext[from]| + 1 {
      d := from;
    } else {
      assert ExtFollowed(img.ext, img.datEnd, from);
      d := ExtentsCover(img, x, from + |img.ext[from]| + 1);
    }
  }

  // ---- files as bytes -------------------------------------------------------

  predicate Window(s: string, o: nat, w: string) {
    o + |w| <= |s| && s[o..o + |w|] == w
  }

  lemma WriteAtSame(s: string, o: nat, w: string)
    requires o <= |s|
    ensures Window(WriteAt(s, o, w), o, w)
  {
  }

  lemma WriteAtOther(s: string, o: nat, w: string, p: nat, v: string)
    requires o <= |s| && Window(s, p, v)
    requires p + |v| <= o || o + |w| <= p
    ensures Window(WriteAt(s, o, w), p, v)
  {
    var t := WriteAt(s, o, w);
    forall k | 0 <= k < |v|
      ensures t[p..p + |v|][k] == v[k]
    {
      assert s[p..p + |v|][k] == s[p + k];
      assert t[p + k] == s[p + k];
    }
  }

  lemma SubWindow(s: string, o: nat, u: string, v: string)
    ensures Window(s, o, u + v) <==> Window(s, o, u) && Window(s, o + |u|, v)
  {
    var w := u + v;
    if Window(s, o, w) {
      assert s[o..o + |u|] == s[o..o + |w|][..|u|];
      assert s[o + |u|..o + |u| + |v|] == s[o..o + |w|][|u|..];
    }
    if Window(s, o, u) && Window(s, o + |u|, v) {
      assert s[o..o + |w|] == s[o..o + |u|] + s[o + |u|..o + |u| + |v|];
    }
  }

  /** The part of an index record after its chain pointer. */
  function RecTail(b: Body): string { Pad(IDXLEN_SZ, b.idxlen) + Line(b) }

  ghost predicate IdxRepOf(idx: string, ptr: map<nat, nat>, body: map<nat, Body>, end: nat) {
    && |idx| == end
    && (forall o :: o in ptr ==> Window(idx, o, Pad(PTR_SZ, ptr[o])))
    && Window(idx, REC_OFF - 1, "\n")
    && (forall o :: o in body ==> Window(idx, o + PTR_SZ, RecTail(body[o])))
  }

  ghost predicate IdxRep(idx: string, img: Image) { IdxRepOf(idx, img.ptr, img.body, img.idxEnd) }

  ghost predicate DatRepOf(dat: string, ext: map<nat, string>, end: nat) {
    && |dat| == end
    && (forall d :: d in ext ==> Window(dat, d, ext[d] + "\n"))
  }

  ghost predicate DatRep(dat: string, img: Image) { DatRepOf(dat, img.ext, img.datEnd) }

  // ---- reading --------------------------------------------------------------

  lemma ReadPtrRep(idx: string, img: Image, o: nat)
    requires Wf(img) && IdxRep(idx, img) && o in img.ptr
    ensures o + PTR_SZ <= |idx| && Atol(idx[o..o + PTR_SZ]) == img.ptr[o]
  {
    hide Pad, Atol;
    PtrFieldWidth(img.ptr[o]);
    AtolPad(PTR_SZ, img.ptr[o]);
  }

  lemma ReadBytes(idx: string, o: nat, b: Body)
    requires BodyOk(b) && Window(idx, o + PTR_SZ, RecTail(b))
    ensures o + RecSize(b) <= |idx|
    ensures Atol(idx[o + PTR_SZ..o + HDR_SZ]) == b.idxlen
    ensures ParseLine(idx[o + HDR_SZ..o + RecSize(b)]) == Some(b)
  {
    hide Pad, Atol, Line, ParseLine, LineLen;
    LenFieldWidth(b.idxlen);
    AtolPad(IDXLEN_SZ, b.idxlen);
    SubWindow(idx, o + PTR_SZ, Pad(IDXLEN_SZ, b.idxlen), Line(b));
    ParseLineRoundTrip(b);
  }

  lemma ReadRecRep(idx: string, img: Image, o: nat)
    requires Wf(img) && IdxRep(idx, img) && o in img.body
    ensures o + RecSize(img.body[o]) <= |idx|
    ensures Atol(idx[o + PTR_SZ..o + HDR_SZ]) == img.body[o].idxlen
    ensures ParseLine(idx[o + HDR_SZ..o + RecSize(img.body[o])]) == Some(img.body[o])
  {
    hide Pad, Atol, Line, ParseLine, BodyOk, RecTail;
    ReadBytes(idx, o, img.body[o]);
  }

  lemma ReadDatRep(dat: string, img: Image, d: nat)
    requires DatRep(dat, img) && d in img.ext
    ensures d + |img.ext[d]| + 1 <= |dat|
    ensures dat[d..d + |img.ext[d]| + 1] == img.ext[d] + "\n"
  {
    assert Window(dat, d, img.ext[d] + "\n");
  }

  // ---- writing --------------------------------------------------------------

  /** Windows that a write does not overlap are kept. */
  lemma KeepWindows(idx: string, img: Image, o: nat, w: string)
    requires Wf(img) && IdxRep(idx, img) && o <= |idx|
    ensures forall p :: p in img.ptr && (p + PTR_SZ <= o || o + |w| <= p)
              ==> Window(WriteAt(idx, o, w), p, Pad(PTR_SZ, img.ptr[p]))
    ensures forall p :: p in img.body && (p + RecSize(img.body[p]) <= o || o + |w| <= p + PTR_SZ)
              ==> Window(WriteAt(idx, o, w), p + PTR_SZ, RecTail(img.body[p]))
    ensures o >= REC_OFF || o + |w| < REC_OFF ==> Window(WriteAt(idx, o, w), REC_OFF - 1, "\n")
  {
    hide Pad, Line, RecTail, BodyOk, WriteAt, Window, RecordsTile, ExtentsTile, RecordsOwnExtents;
    forall p | p in img.ptr && (p + PTR_SZ <= o || o + |w| <= p)
      ensures Window(WriteAt(idx, o, w), p, Pad(PTR_SZ, img.ptr[p]))
    {
      PtrFieldWidth(img.ptr[p]);
      WriteAtOther(idx, o, w, p, Pad(PTR_SZ, img.ptr[p]));
    }
    forall p | p in img.body && (p + RecSize(img.body[p]) <= o || o + |w| <= p + PTR_SZ)
      ensures Window(WriteAt(idx, o, w), p + PTR_SZ, RecTail(img.body[p]))
    {
      TailLen(img.body[p]);
      WriteAtOther(idx, o, w, p + PTR_SZ, RecTail(img.body[p]));
    }
    if o >= REC_OFF || o + |w| < REC_OFF {
      WriteAtOther(idx, o, w, REC_OFF - 1, "\n");
    }
  }

  lemma TailLen(b: Body)
    requires BodyOk(b)
    ensures |RecTail(b)| == IDXLEN_SZ + b.idxlen
  {
    hide Pad, LineLen;
    LenFieldWidth(b.idxlen);
  }

  /** Two pointer locations never overlap, nor does a pointer overlap another record. */
  lemma Apart(img: Image, o: nat, n: nat, p: nat)
    requires RecordsTile(img.body, img.idxEnd) && PointersOk(img.ptr, img.body)
    requires o in img.ptr && p in img.ptr && o != p
    requires n == PTR_SZ || (o in img.body && n == RecSize(img.body[o]))
    ensures p + PTR_SZ <= o || o + n <= p
    ensures p in img.body ==> p + RecSize(img.body[p]) <= o || o + n <= p
    ensures o + PTR_SZ < REC_OFF || o >= REC_OFF
  {
    if o in img.body { assert RecInFile(img.body, img.idxEnd, o); }
    if p in img.body { assert RecInFile(img.body, img.idxEnd, p); }
  }

  lemma InFile(img: Image, p: nat)
    requires RecordsTile(img.body, img.idxEnd) && PointersOk(img.ptr, img.body) && p in img.ptr
    ensures p + PTR_SZ <= img.idxEnd && p != img.idxEnd
    ensures p in img.body ==> REC_OFF <= p && p + RecSize(img.body[p]) <= img.idxEnd
  {
    if p in img.body { assert RecInFile(img.body, img.idxEnd, p); }
  }

  /** A whole new record at o leaves the windows of every other record alone. */
  lemma RecWindow(t: string, o: nat, v: nat, b: Body)
    requires v <= PTR_MAX && BodyOk(b)
    ensures |EncodeRec(v, b)| == RecSize(b)
    ensures Window(t, o, EncodeRec(v, b)) ==>
      Window(t, o, Pad(PTR_SZ, v)) && Window(t, o + PTR_SZ, RecTail(b))
  {
    hide Pad, LineLen, Window;
    PtrFieldWidth(v);
    LenFieldWidth(b.idxlen);
    assert EncodeRec(v, b) == Pad(PTR_SZ, v) + RecTail(b);
    SubWindow(t, o, Pad(PTR_SZ, v), RecTail(b));
  }

  function SetPtr(img: Image, o: nat, v: nat): Image { img.(ptr := img.ptr[o := v]) }

  /** _db_writeptr changes one pointer and nothing else. */
  lemma SetPtrRep(idx: string, img: Image, o: nat, v: nat)
    requires Wf(img) && IdxRep(idx, img) && o in img.ptr && v <= PTR_MAX
    ensures Wf(SetPtr(img, o, v)) && o + PTR_SZ <= |idx|
    ensures IdxRep(WriteAt(idx, o, Pad(PTR_SZ, v)), SetPtr(img, o, v))
  {
    hide Pad, Line, RecTail, BodyOk, WriteAt, Window, RecordsTile, ExtentsTile, RecordsOwnExtents;
    var w := Pad(PTR_SZ, v);
    PtrFieldWidth(v);
    InFile(img, o);
    WriteAtSame(idx, o, w);
    KeepWindows(idx, img, o, w);
    forall p | p in img.ptr && p != o
      ensures p + PTR_SZ <= o || o + |w| <= p
      ensures p in img.body ==> p + RecSize(img.body[p]) <= o || o + |w| <= p + PTR_SZ
    {
      Apart(img, o, PTR_SZ, p);
    }
    assert o + PTR_SZ < REC_OFF || o >= REC_OFF by {
      if o in img.body { InFile(img, o); }
    }
  }

  /** Rewriting a record in place keeps its size when key length, offset and length are kept. */
  function PutRec(img: Image, o: nat, v: nat, b: Body): Image {
    img.(ptr := img.ptr[o := v], body := img.body[o := b])
  }

  predicate SameShape(a: Body, b: Body) {
    |a.key| == |b.key| && a.datoff == b.datoff && a.datlen == b.datlen
  }

  /** Only the length of the key, the offset and the length decide how long the line is. */
  lemma SameShapeSize(a: Body, key: string)
    requires BodyOk(a) && |key| == |a.key|
    ensures LineLen(key, a.datoff, a.datlen) == a.idxlen
    ensures SizesOk(MakeBody(key, a.datoff, a.datlen))
    ensures ':' !in key ==> BodyOk(MakeBody(key, a.datoff, a.datlen))
  {
  }

  lemma PutTile(body: map<nat, Body>, end: nat, o: nat, b: Body)
    requires RecordsTile(body, end) && o in body && b.idxlen == body[o].idxlen
    ensures RecordsTile(body[o := b], end)
  {
    var body' := body[o := b];
    forall p | p in body'
      ensures RecFollowed(body', end, p) && RecInFile(body', end, p)
    {
      assert RecFollowed(body, end, p) && RecInFile(body, end, p);
    }
    forall p, q | p in body' && q in body' && p < q
      ensures p + RecSize(body'[p]) <= q
    {
      assert RecSize(body[p]) == RecSize(body'[p]);
    }
  }

  lemma PutRecWf(img: Image, o: nat, v: nat, b: Body)
    requires Wf(img) && o in img.body && v <= PTR_MAX
    requires SameShape(img.body[o], b) && BodyOk(b)
    ensures Wf(PutRec(img, o, v, b)) && RecSize(b) == RecSize(img.body[o])
  {
    hide LineLen, RecordsTile, ExtentsTile;
    SameShapeSize(img.body[o], b.key);
    PutTile(img.body, img.idxEnd, o, b);
  }

  /** _db_writeidx over an existing record: the neighbours keep their bytes. */
  lemma PutRecRep(idx: string, img: Image, o: nat, v: nat, b: Body)
    requires Wf(img) && IdxRep(idx, img) && o in img.body && v <= PTR_MAX
    requires SameShape(img.body[o], b) && BodyOk(b)
    ensures Wf(PutRec(img, o, v, b))
    ensures |EncodeRec(v, b)| == RecSize(b) == RecSize(img.body[o]) && o + RecSize(b) <= |idx|
    ensures IdxRep(WriteAt(idx, o, EncodeRec(v, b)), PutRec(img, o, v, b))
  {
    hide Pad, Line, RecTail, BodyOk, WriteAt, Window, EncodeRec, RecordsTile, ExtentsTile, RecordsOwnExtents;
    PutRecWf(img, o, v, b);
    var w := EncodeRec(v, b);
    InFile(img, o);
    RecWindow(WriteAt(idx, o, w), o, v, b);
    WriteAtSame(idx, o, w);
    KeepWindows(idx, img, o, w);
    forall p | p in img.ptr && p != o
      ensures p + PTR_SZ <= o || o + |w| <= p
      ensures p in img.body ==> p + RecSize(img.body[p]) <= o || o + |w| <= p + PTR_SZ
    {
      Apart(img, o, |w|, p);
    }
  }

  function AppendRec(img: Image, v: nat, b: Body): Image {
    Image(img.ptr[img.idxEnd := v], img.body[img.idxEnd := b], img.idxEnd + RecSize(b),
          img.ext, img.datEnd)
  }

  predicate FreshExtent(img: Image, d: nat, len: nat) {
    && d in img.ext && |img.ext[d]| + 1 == len
    && (forall o :: o in img.body ==> img.body[o].datoff != d)
  }

  lemma AppendTile(body: map<nat, Body>, end: nat, b: Body)
    requires RecordsTile(body, end)
    ensures end !in body && RecordsTile(body[end := b], end + RecSize(b))
  {
    var body', end' := body[end := b], end + RecSize(b);
    forall p | p in body'
      ensures RecFollowed(body', end', p) && RecInFile(body', end', p)
    {
      if p in body { assert RecFollowed(body, end, p) && RecInFile(body, end, p); }
    }
    forall p, q | p in body' && q in body' && p < q
      ensures p + RecSize(body'[p]) <= q
    {
      if q in body { assert RecInFile(body, end, q); }
      if p in body { assert RecInFile(body, end, p); }
    }
  }

  lemma AppendRecWf(img: Image, v: nat, b: Body)
    requires Wf(img) && v <= PTR_MAX
    requires BodyOk(b) && FreshExtent(img, b.datoff, b.datlen)
    ensures img.idxEnd !in img.ptr && img.idxEnd !in img.body
    ensures Wf(AppendRec(img, v, b))
  {
    hide BodyOk, LineLen, ExtentsTile, RecordsTile;
    AppendTile(img.body, img.idxEnd, b);
    if img.idxEnd in img.ptr { InFile(img, img.idxEnd); }
  }

  /** _db_writeidx at the end of the index file. */
  lemma AppendRecRep(idx: string, img: Image, v: nat, b: Body)
    requires Wf(img) && IdxRep(idx, img) && v <= PTR_MAX
    requires BodyOk(b) && FreshExtent(img, b.datoff, b.datlen)
    ensures img.idxEnd !in img.ptr && img.idxEnd !in img.body
    ensures Wf(AppendRec(img, v, b)) && |EncodeRec(v, b)| == RecSize(b)
    ensures IdxRep(WriteAt(idx, img.idxEnd, EncodeRec(v, b)), AppendRec(img, v, b))
  {
    hide Pad, Line, RecTail, BodyOk, WriteAt, Window, EncodeRec, ExtentsTile, RecordsOwnExtents;
    AppendRecWf(img, v, b);
    var w := EncodeRec(v, b);
    WriteAtSame(idx, img.idxEnd, w);
    RecWindow(WriteAt(idx, img.idxEnd, w), img.idxEnd, v, b);
    KeepWindows(idx, img, img.idxEnd, w);
    forall p | p in img.ptr
      ensures p + PTR_SZ <= img.idxEnd
      ensures p in img.body ==> p + RecSize(img.body[p]) <= img.idxEnd
    {
      InFile(img, p);
    }
  }

  function PutExt(img: Image, d: nat, data: string): Image { img.(ext := img.ext[d := data]) }

  lemma PutExtTile(ext: map<nat, string>, end: nat, d: nat, data: string)
    requires ExtentsTile(ext, end) && d in ext && |data| == |ext[d]|
    ensures ExtentsTile(ext[d := data], end)
  {
    var ext' := ext[d := data];
    forall e | e in ext'
      ensures ExtFollowed(ext', end, e) && ExtInFile(ext', end, e)
    {
      assert ExtFollowed(ext, end, e) && ExtInFile(ext, end, e);
    }
    forall e, f | e in ext' && f in ext' && e < f
      ensures e + |ext'[e]| + 1 <= f
    {
      assert |ext'[e]| == |ext[e]|;
    }
  }

  lemma AppendExtTile(ext: map<nat, string>, end: nat, data: string)
    requires ExtentsTile(ext, end) && DATLEN_MIN <= |data| + 1 <= DATLEN_MAX
    ensures end !in ext && ExtentsTile(ext[end := data], end + |data| + 1)
  {
    var ext', end' := ext[end := data], end + |data| + 1;
    assert end in ext ==> ExtInFile(ext, end, end);
    forall e | e in ext'
      ensures ExtFollowed(ext', end', e) && ExtInFile(ext', end', e)
    {
      if e in ext { assert ExtFollowed(ext, end, e) && ExtInFile(ext, end, e); }
    }
    forall e, f | e in ext' && f in ext' && e < f
      ensures e + |ext'[e]| + 1 <= f
    {
      if e in ext { assert ExtInFile(ext, end, e); }
      if f in ext { assert ExtInFile(ext, end, f); }
    }
  }

  lemma PutExtWf(img: Image, d: nat, data: string)
    requires Wf(img) && d in img.ext && |data| == |img.ext[d]|
    ensures Wf(PutExt(img, d, data))
  {
    hide BodyOk, LineLen, RecordsTile, PointersOk, LinesOk, ExtentsTile;
    PutExtTile(img.ext, img.datEnd, d, data);
  }

  /** _db_writedat over an existing extent of the same length. */
  lemma PutExtRep(dat: string, img: Image, d: nat, data: string)
    requires Wf(img) && DatRep(dat, img) && d in img.ext && |data| == |img.ext[d]|
    ensures Wf(PutExt(img, d, data)) && d + |data| + 1 <= |dat|
    ensures DatRep(WriteAt(dat, d, data + "\n"), PutExt(img, d, data))
  {
    hide WriteAt, Window, RecordsTile, LinesOk;
    PutExtWf(img, d, data);
    assert ExtInFile(img.ext, img.datEnd, d);
    var w := data + "\n";
    WriteAtSame(dat, d, w);
    forall e | e in img.ext && e != d
      ensures Window(WriteAt(dat, d, w), e, img.ext[e] + "\n")
    {
      WriteAtOther(dat, d, w, e, img.ext[e] + "\n");
    }
  }

  function AppendExt(img: Image, data: string): Image {
    img.(ext := img.ext[img.datEnd := data], datEnd := img.datEnd + |data| + 1)
  }

  lemma AppendExtWf(img: Image, data: string)
    requires Wf(img) && DATLEN_MIN <= |data| + 1 <= DATLEN_MAX
    ensures img.datEnd !in img.ext
    ensures Wf(AppendExt(img, data)) && FreshExtent(AppendExt(img, data), img.datEnd, |data| + 1)
  {
    hide BodyOk, LineLen, RecordsTile, PointersOk, LinesOk, ExtentsTile;
    AppendExtTile(img.ext, img.datEnd, data);
  }

  /** _db_writedat at the end of the data file; no record points there yet. */
  lemma AppendExtRep(dat: string, img: Image, data: string)
    requires Wf(img) && DatRep(dat, img) && DATLEN_MIN <= |data| + 1 <= DATLEN_MAX
    ensures img.datEnd !in img.ext
    ensures Wf(AppendExt(img, data)) && FreshExtent(AppendExt(img, data), img.datEnd, |data| + 1)
    ensures DatRep(WriteAt(dat, img.datEnd, data + "\n"), AppendExt(img, data))
  {
    hide WriteAt, Window, RecordsTile, LinesOk;
    AppendExtWf(img, data);
    assert forall e :: e in img.ext ==> ExtInFile(img.ext, img.datEnd, e);
    var w := data + "\n";
    WriteAtSame(dat, img.datEnd, w);
    forall e | e in img.ext
      ensures Window(WriteAt(dat, img.datEnd, w), e, img.ext[e] + "\n")
    {
      WriteAtOther(dat, img.datEnd, w, e, img.ext[e] + "\n");
    }
  }

  // ---- initialisation -------------------------------------------------------

  /** The 138 zero pointers and newline db_open writes into a new index file. */
  function ZeroPtrs(n: nat): (s: string)
    ensures |s| == PTR_SZ * n
  {
    if n == 0 then "" else PtrFieldWidth(0); ZeroPtrs(n - 1) + Pad(PTR_SZ, 0)
  }

  lemma {:induction false} ZeroPtrsWindow(n: nat, c: nat)
    requires c < n
    ensures Window(ZeroPtrs(n), Head(c), Pad(PTR_SZ, 0))
  {
    PtrFieldWidth(0);
    if c < n - 1 {
      ZeroPtrsWindow(n - 1, c);
      assert ZeroPtrs(n)[Head(c)..Head(c) + PTR_SZ] == ZeroPtrs(n - 1)[Head(c)..Head(c) + PTR_SZ];
    }
  }

  lemma InitRep()
    ensures IdxRep(ZeroPtrs(NLISTS) + "\n", EmptyImage) && DatRep("", EmptyImage)
  {
    var idx := ZeroPtrs(NLISTS) + "\n";
    PtrFieldWidth(0);
    forall c | 0 <= c < NLISTS
      ensures Window(idx, Head(c), Pad(PTR_SZ, 0))
    {
      ZeroPtrsWindow(NLISTS, c);
      SubWindow(idx, Head(c), Pad(PTR_SZ, 0), "");
      assert idx[Head(c)..Head(c) + PTR_SZ] == ZeroPtrs(NLISTS)[Head(c)..Head(c) + PTR_SZ];
    }
  }
}
