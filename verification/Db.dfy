/** The database handle and its two files (apue.3e/db/db.c): the methods update the handle's
    fields and overwrite the files in place. */
module DbHandle {
  import opened Bytes
  import opened Options
  import opened DbFormat
  import opened DbImage
  import opened DbLists
  import opened DbSurgery
  import opened DbSpec

  /** The first record on the free list with exactly these sizes, or the length of the list. */
  function FirstFit(body: map<nat, Body>, s: seq<nat>, keylen: nat, datlen: nat): (i: nat)
    ensures i <= |s|
  {
    if s == [] then 0
    else if s[0] in body && |body[s[0]].key| == keylen && body[s[0]].datlen == datlen then 0
    else 1 + FirstFit(body, s[1..], keylen, datlen)
  }

  lemma {:induction false} FirstFitIs(body: map<nat, Body>, s: seq<nat>, keylen: nat, datlen: nat, i: nat)
    requires i <= |s|
    requires NoFit(body, s, i, keylen, datlen)
    requires i < |s| ==> s[i] in body && |body[s[i]].key| == keylen && body[s[i]].datlen == datlen
    ensures FirstFit(body, s, keylen, datlen) == i
  {
    if i > 0 {
      assert forall j :: 0 <= j < |s| - 1 ==> s[1..][j] == s[j + 1];
      FirstFitIs(body, s[1..], keylen, datlen, i - 1);
    }
  }

  /** What a reader may rely on about one record of a well-formed file. */
  lemma RecordFacts(idx: string, img: Image, o: nat)
    requires Wf(img) && IdxRep(idx, img) && o in img.body
    ensures o in img.ptr && o + RecSize(img.body[o]) <= |idx| == img.idxEnd
    ensures Atol(idx[o..o + PTR_SZ]) == img.ptr[o]
    ensures Atol(idx[o + PTR_SZ..o + HDR_SZ]) == img.body[o].idxlen
    ensures ParseLine(idx[o + HDR_SZ..o + RecSize(img.body[o])]) == Some(img.body[o])
    ensures IDXLEN_MIN <= img.body[o].idxlen <= IDXLEN_MAX
    ensures 0 < img.body[o].datlen <= DATLEN_MAX
  {
    hide Pad, Line, LineLen, Atol, ParseLine, ExtentsTile, RecordsOwnExtents, Window, RecTail, RecordsTile;
    ReadPtrRep(idx, img, o);
    ReadRecRep(idx, img, o);
    assert BodyOk(img.body[o]);
  }

  class Db {
    // the two files, and the file offset of the index file's descriptor
    var idx: string
    var dat: string
    var pos: nat
    // the handle's private state
    var idxbuf: string
    var idxoff: nat
    var idxlen: nat
    var datoff: nat
    var datlen: nat
    var ptrval: nat
    var ptroff: nat
    var chainoff: nat
    // what the files mean
    ghost var img: Image
    ghost var g: Lists

    ghost predicate FilesOk()
      reads this
    {
      Wf(img) && IdxRep(idx, img) && DatRep(dat, img)
    }

    ghost predicate Valid()
      reads this
    {
      FilesOk() && Settled(img, g, {})
    }

    /** The finite map this database holds. */
    ghost function M(): map<string, string>
      reads this
    {
      Contents(img, g)
    }

    /** db_open with O_CREAT and O_TRUNC: 138 zero pointers and a newline. */
    constructor ()
      ensures Valid() && M() == map[]
      ensures |idx| == REC_OFF && dat == "" && pos == REC_OFF
      ensures idx == ZeroPtrs(NLISTS) + "\n" && img == EmptyImage && g == EmptyLists
    {
      idx := ZeroPtrs(NLISTS) + "\n";
      dat := "";
      pos := REC_OFF;
      idxbuf, idxoff, idxlen, datoff, datlen, ptrval, ptroff, chainoff := "", 0, 0, 0, 0, 0, 0, 0;
      img, g := EmptyImage, EmptyLists;
      EmptyImageWf();
      InitRep();
      EmptySettled();
    }

    // ---- single file accesses -----------------------------------------------

    /** _db_readptr */
    method ReadPtr(offset: nat) returns (v: nat)
      requires FilesOk() && offset in img.ptr
      modifies `pos
      ensures v == img.ptr[offset]
    {
      ReadPtrRep(idx, img, offset);
      v := Atol(idx[offset..offset + PTR_SZ]);
      pos := offset + PTR_SZ;
    }

    /** _db_writeptr */
    method WritePtr(offset: nat, v: nat)
      requires (FilesOk() && offset in img.ptr) || offset + PTR_SZ <= |idx|
      requires v <= PTR_MAX
      modifies `pos, `idx, `img
      ensures offset + PTR_SZ <= |old(idx)| && idx == WriteAt(old(idx), offset, Pad(PTR_SZ, v))
      ensures old(FilesOk()) && offset in old(img).ptr ==> FilesOk() && img == SetPtr(old(img), offset, v)
    {
      hide Wf, IdxRepOf, DatRepOf, WriteAt, Pad;
      if FilesOk() && offset in img.ptr {
        SetPtrRep(idx, img, offset, v);
        img := SetPtr(img, offset, v);
      }
      idx := WriteAt(idx, offset, Pad(PTR_SZ, v));
      pos := offset + PTR_SZ;
    }

    /** _db_readidx: offset 0 means the current position, and then -1 means end of file. None of
        the checks that abort the process fails. */
    method ReadIdx(offset: nat) returns (next: int)
      requires FilesOk()
      requires if offset == 0 then pos == |idx| || pos in img.body else offset in img.body
      modifies `pos, `idxoff, `idxlen, `idxbuf, `datoff, `datlen, `ptrval
      ensures offset == 0 && old(pos) == |idx| ==> next == -1 && pos == old(pos)
      ensures var o := if offset == 0 then old(pos) else offset;
        o < |idx| ==>
          && o in img.body && o in img.ptr
          && idxoff == o && next == ptrval == img.ptr[o]
          && img.body[o] == Body(idxbuf, datoff, datlen, idxlen)
          && pos == o + RecSize(img.body[o])
    {
      hide Wf, IdxRepOf, DatRepOf, Atol, ParseLine;
      idxoff := if offset == 0 then pos else offset;
      if offset == 0 && idxoff == |idx| {
        return -1;
      }
      RecordFacts(idx, img, idxoff);
      ptrval := Atol(idx[idxoff..idxoff + PTR_SZ]);
      var len := Atol(idx[idxoff + PTR_SZ..idxoff + HDR_SZ]);
      assert IDXLEN_MIN <= len <= IDXLEN_MAX;
      idxlen := len;
      pos := idxoff + HDR_SZ + idxlen;
      var line := ParseLine(idx[idxoff + HDR_SZ..pos]);
      assert line.Some? && 0 < line.value.datlen <= DATLEN_MAX;
      idxbuf, datoff, datlen := line.value.key, line.value.datoff, line.value.datlen;
      next := ptrval;
    }

    /** _db_readdat */
    method ReadDat() returns (data: string)
      requires FilesOk() && datoff in img.ext && datlen == |img.ext[datoff]| + 1
      ensures data == img.ext[datoff]
    {
      hide Wf, IdxRepOf, DatRepOf;
      ReadDatRep(dat, img, datoff);
      var buf := dat[datoff..datoff + datlen];
      assert buf[datlen - 1] == '\n';
      data := buf[..datlen - 1];
    }

    /** _db_writedat: append is SEEK_END, otherwise over an extent of the same length. */
    method WriteDat(data: string, offset: nat, append: bool)
      requires FilesOk()
      requires if append then DATLEN_MIN <= |data| + 1 <= DATLEN_MAX
               else offset in img.ext && |data| == |img.ext[offset]|
      modifies `dat, `datoff, `datlen, `img
      ensures FilesOk()
      ensures img == if append then AppendExt(old(img), data) else PutExt(old(img), offset, data)
      ensures datoff == (if append then old(img).datEnd else offset) && datlen == |data| + 1
      ensures datoff <= |old(dat)| && dat == WriteAt(old(dat), datoff, data + "\n")
      ensures |dat| == if append then |old(dat)| + |data| + 1 else |old(dat)|
      ensures append ==> old(img).datEnd !in old(img).ext && FreshExtent(img, datoff, datlen)
    {
      hide Wf, IdxRepOf, DatRepOf, WriteAt;
      if append {
        DatEndIs(dat, img);
        AppendExtRep(dat, img, data);
      } else {
        PutExtRep(dat, img, offset, data);
      }
      datoff := if append then |dat| else offset;
      datlen := |data| + 1;
      dat := WriteAt(dat, datoff, data + "\n");
      img := if append then AppendExt(img, data) else PutExt(img, offset, data);
    }

    /** _db_writeidx: datoff and datlen are those of the handle. A key with a separator is written
        like any other, but what the file then holds is no record. */
    method WriteIdx(key: string, offset: nat, append: bool, ptr: nat)
      requires FilesOk() && ptr <= PTR_MAX && SizesOk(MakeBody(key, datoff, datlen))
      requires if append then FreshExtent(img, datoff, datlen)
               else offset in img.body && SameShape(img.body[offset], MakeBody(key, datoff, datlen))
      modifies `idx, `pos, `idxoff, `idxbuf, `ptrval, `img
      ensures ':' !in key ==> FilesOk()
      ensures ':' !in key ==>
        img == if append then AppendRec(old(img), ptr, MakeBody(key, datoff, datlen))
               else PutRec(old(img), offset, ptr, MakeBody(key, datoff, datlen))
      ensures idxoff <= |old(idx)| && idx == WriteAt(old(idx), idxoff, EncodeRec(ptr, MakeBody(key, datoff, datlen)))
      ensures if append then idxoff == |old(idx)| else idxoff + RecSize(MakeBody(key, datoff, datlen)) <= |old(idx)|
      ensures idxoff == (if append then old(img).idxEnd else offset) && ptrval == ptr
      ensures append ==> old(img).idxEnd !in old(img).body && old(img).idxEnd >= REC_OFF
    {
      hide Wf, IdxRepOf, DatRepOf, WriteAt, BodyOk, LineLen, EncodeRec;
      var b := MakeBody(key, datoff, datlen);
      IdxEndIs(idx, img);
      ghost var img' := img;
      if append {
        if ':' !in key {
          assert BodyOk(b) by { SizesAndKey(b); }
          AppendRecRep(idx, img, ptr, b);
          img' := AppendRec(img, ptr, b);
        }
      } else {
        RewriteFits(idx, img, offset, b);
        if ':' !in key {
          assert BodyOk(b) by { SizesAndKey(b); }
          PutRecRep(idx, img, offset, ptr, b);
          img' := PutRec(img, offset, ptr, b);
        }
      }
      ptrval := ptr;
      idxbuf := Line(b);
      idxoff := if append then |idx| else offset;
      var rec := EncodeRec(ptr, b);
      idx := WriteAt(idx, idxoff, rec);
      pos := idxoff + |rec|;
      img := img';
    }

    // ---- searching ----------------------------------------------------------

    /** The handle describes the record at position i of list c. */
    ghost predicate At(c: nat, i: nat)
      reads this
    {
      && c < |g.chain| && i < |g.chain[c]|
      && idxoff == g.chain[c][i] && idxoff in img.body
      && img.body[idxoff] == Body(idxbuf, datoff, datlen, idxlen)
      && ptroff == LocAt(Head(c), g.chain[c], i)
      && ptrval == NextAt(g.chain[c], i + 1)
    }

    /** _db_find_and_lock: walk the chain of the key's hash. */
    method FindAndLock(key: string) returns (found: bool, ghost i: nat)
      requires Valid()
      modifies `pos, `idxoff, `idxlen, `idxbuf, `datoff, `datlen, `ptrval, `ptroff, `chainoff
      ensures Valid() && chainoff == Head(ListOf(key))
      ensures found <==> key in M()
      ensures found ==> key in g.loc && idxoff == g.loc[key] && idxbuf == key && At(ListOf(key), i)
    {
      hide Wf, Struct, Settled, IdxRepOf, DatRepOf, ListOf, Contents, LineLen;
      SettledStruct(img, g, {});
      var h := DbHash(key);
      chainoff := h * PTR_SZ + HASH_OFF;
      assert chainoff == Head(ListOf(key)) by { ListHead(key); }
      ptroff := chainoff;
      ghost var c, s := ListOf(key), g.chain[ListOf(key)];
      i, found := 0, false;
      ListStep(img, g, c, 0);
      var offset := ReadPtr(ptroff);
      while offset != 0
        invariant FilesOk() && 0 <= i <= |s|
        invariant offset == NextAt(s, i) && ptroff == LocAt(Head(c), s, i)
        invariant NotAmong(img.body, s, i, key)
        invariant chainoff == Head(c)
        decreases |s| - i
      {
        ListStep(img, g, c, i);
        RecordFacts(idx, img, offset);
        var next := ReadIdx(offset);
        if idxbuf == key {
          found := true;
          break;
        }
        ptroff := offset;
        offset := next;
        i := i + 1;
      }
      ListStep(img, g, c, i);
      SearchResult(img, g, key, i);
    }

    /** db_fetch */
    method Fetch(key: string) returns (r: Result)
      requires Valid()
      modifies `pos, `idxoff, `idxlen, `idxbuf, `datoff, `datlen, `ptrval, `ptroff, `chainoff
      ensures Valid() && r == Answer(M(), DbSpec.Fetch(key)) && M() == Apply(old(M()), DbSpec.Fetch(key))
      ensures M() == old(M()) && r == if key in M() then Data(M()[key]) else NoData
    {
      hide Wf, IdxRepOf, DatRepOf, Settled, Contents;
      var found, i := FindAndLock(key);
      if found {
        LiveValue(img, g, key);
        var data := ReadDat();
        r := Data(data);
      } else {
        r := NoData;
      }
    }

    // ---- deleting -----------------------------------------------------------

    method BlankString(n: nat) returns (s: string)
      ensures s == Blanks(n)
    {
      s := "";
      while |s| < n
        invariant |s| <= n && s == Blanks(|s|)
      {
        s := s + " ";
      }
    }

    /** _db_dodelete: the record the handle describes goes to the front of the free list. */
    method DoDelete(ghost c: nat, ghost i: nat)
      requires Valid() && 0 < c < NLISTS && At(c, i)
      modifies `idx, `dat, `pos, `idxoff, `idxbuf, `datoff, `datlen, `ptrval, `img, `g
      ensures Valid() && M() == old(M()) - {old(idxbuf)}
      ensures |g.chain| == NLISTS && g.chain[0] == [old(idxoff)] + old(g).chain[0]
      ensures g.chain[c] == Without(old(g).chain[c], i)
      ensures g.loc == old(g).loc - {old(idxbuf)}
      ensures |idx| == |old(idx)| && |dat| == |old(dat)|
      ensures old(datlen) > 0 && old(datoff) + old(datlen) <= |dat|
      ensures dat == WriteAt(old(dat), old(datoff), Blanks(old(datlen) - 1) + "\n")
    {
      hide Wf, IdxRepOf, DatRepOf, Settled, Contents, LineLen, Struct, DeleteImage, DeleteLists, WriteAt;
      ghost var img0, g0 := img, g;
      SettledStruct(img, g, {});
      DeleteFacts(img, g, c, i);
      var blankData := BlankString(datlen - 1);
      var blankKey := BlankString(|idxbuf|);
      WriteDat(blankData, datoff, false);
      var freeptr := ReadPtr(FREE_OFF);
      var saveptr := ptrval;
      WriteIdx(blankKey, idxoff, false, freeptr);
      WritePtr(FREE_OFF, idxoff);
      WritePtr(ptroff, saveptr);
      g := DeleteLists(img0, g0, c, i);
      assert img == DeleteImage(img0, g0, c, i) by { DeleteImageDef(img0, g0, c, i); }
      DeleteListsDef(img0, g0, c, i);
      Ends(idx, dat, img);
      Ends(old(idx), old(dat), img0);
    }

    /** db_delete */
    method Delete(key: string) returns (r: Result)
      requires Valid()
      modifies this
      ensures Valid()
      ensures r == Answer(old(M()), DbSpec.Delete(key)) && M() == Apply(old(M()), DbSpec.Delete(key))
      ensures r == Code(if key in old(M()) then 0 else -1, NoErr) && M() == old(M()) - {key}
      ensures |idx| == |old(idx)| && |dat| == |old(dat)|
      ensures key !in old(M()) ==> idx == old(idx) && dat == old(dat)
      ensures key in old(M()) ==> exists d :: 0 <= d && d + |old(M())[key]| <= |dat| && DataBlanked(old(dat), dat, d, old(M())[key])
    {
      hide Wf, IdxRepOf, DatRepOf, Settled, Contents, DeleteImage, DeleteLists;
      var found, i := FindAndLock(key);
      if found {
        LiveValue(img, g, key);
        ReadDatRep(dat, img, datoff);
        ghost var d, v := datoff, M()[key];
        assert dat[d..d + |v|] == dat[d..d + |v| + 1][..|v|] == v;
        DoDelete(ListOf(key), i);
        BlanksOver(old(dat), d, v);
        assert DataBlanked(old(dat), dat, d, v);
        r := Code(0, NoErr);
      } else {
        r := Code(-1, NoErr);
      }
    }

    // ---- storing ------------------------------------------------------------

    /** The loop of _db_findfree: stop at the first free record of exactly these sizes. */
    method WalkFree(keylen: nat, dlen: nat) returns (found: bool, saveoffset: nat, ghost i: nat)
      requires Valid()
      modifies `pos, `idxoff, `idxlen, `idxbuf, `datoff, `datlen, `ptrval
      ensures |g.chain| == NLISTS && i == FirstFit(img.body, g.chain[0], keylen, dlen)
      ensures saveoffset == LocAt(Head(0), g.chain[0], i) && saveoffset in img.ptr
      ensures found <==> i < |g.chain[0]|
      ensures forall j :: 0 <= j < i && g.chain[0][j] in img.body ==>
        !(|img.body[g.chain[0][j]].key| == keylen && img.body[g.chain[0][j]].datlen == dlen)
      ensures found ==>
        && idxoff == g.chain[0][i] && idxoff in img.body && ptrval == NextAt(g.chain[0], i + 1) <= PTR_MAX
        && img.body[idxoff] == Body(idxbuf, datoff, datlen, idxlen)
        && datlen == dlen && |idxbuf| == keylen && idxoff <= PTR_MAX
    {
      hide Wf, Struct, Settled, IdxRepOf, DatRepOf, Contents, LineLen, FirstFit;
      SettledStruct(img, g, {});
      ghost var s := g.chain[0];
      saveoffset := FREE_OFF;
      i, found := 0, false;
      ListStep(img, g, 0, 0);
      var offset := ReadPtr(saveoffset);
      while offset != 0
        invariant FilesOk() && 0 <= i <= |s|
        invariant offset == NextAt(s, i) && saveoffset == LocAt(Head(0), s, i)
        invariant NoFit(img.body, s, i, keylen, dlen)
        decreases |s| - i
      {
        ListStep(img, g, 0, i);
        RecordFacts(idx, img, offset);
        var next := ReadIdx(offset);
        if |idxbuf| == keylen && datlen == dlen {
          found := true;
          break;
        }
        saveoffset := offset;
        offset := next;
        i := i + 1;
      }
      ListStep(img, g, 0, i);
      FirstFitIs(img.body, s, keylen, dlen, i);
      if found { ListStep(img, g, 0, i + 1); }
    }

    /** _db_findfree: take the first free record of exactly these sizes off the free list. */
    method FindFree(keylen: nat, dlen: nat) returns (found: bool, ghost i: nat)
      requires Valid()
      modifies `idx, `pos, `idxoff, `idxlen, `idxbuf, `datoff, `datlen, `ptrval, `img, `g
      ensures FilesOk() && |old(g).chain| == NLISTS && old(g).loc == g.loc && M() == old(M())
      ensures i == FirstFit(old(img).body, old(g).chain[0], keylen, dlen)
      ensures found <==> i < |old(g).chain[0]|
      ensures !found ==> Valid() && img == old(img) && g == old(g) && idx == old(idx)
      ensures found ==>
        && idxoff == old(g).chain[0][i] && idxoff in img.body && idxoff in g.home && idxoff in img.ptr
        && datlen == dlen && |img.body[idxoff].key| == keylen && idxoff <= PTR_MAX
        && img.body[idxoff] == Body(idxbuf, datoff, datlen, idxlen)
        && Settled(img, g, {idxoff}) && |idx| == |old(idx)|
      ensures forall o :: IsHead(o) && o != FREE_OFF && o in old(img).ptr ==>
                o in img.ptr && img.ptr[o] == old(img).ptr[o]
    {
      hide Wf, Struct, Settled, IdxRepOf, DatRepOf, Contents, LineLen, FirstFit, Remove;
      var saveoffset;
      found, saveoffset, i := WalkFree(keylen, dlen);
      if found {
        FreeTakenFacts(img, g, i);
        Ends(idx, dat, img);
        WritePtr(saveoffset, ptrval);
        Ends(idx, dat, img);
        g := Remove(g, 0, i, 0, idxbuf);
      }
    }

    /** A new record of these sizes would fit within the limits of the format. */
    ghost predicate Room(key: string, dlen: nat)
      reads this
    {
      |idx| <= PTR_MAX && IDXLEN_MIN <= LineLen(key, |dat|, dlen) <= IDXLEN_MAX
    }

    /** When db_store appends: the key is new and no free record fits, or the key exists with
        data of another length. */
    ghost predicate Appends(key: string, dlen: nat, flag: int)
      reads this
    {
      if key in M() then flag != DB_INSERT && |M()[key]| + 1 != dlen
      else flag != DB_REPLACE && g.chain != [] &&
           FirstFit(img.body, g.chain[0], |key|, dlen) == |g.chain[0]|
    }

    /** Whether a store would break a limit of the format: found out as db_store does, by looking for
        the key and for a free record. */
    method WillBreak(op: Op) returns (breaks: bool)
      requires Valid() && op.Store?
      modifies `pos, `idxoff, `idxlen, `idxbuf, `datoff, `datlen, `ptrval, `ptroff, `chainoff
      ensures Valid() && M() == old(M()) && (breaks <==> Breaks(this, op))
    {
      hide Wf, Struct, Settled, IdxRepOf, DatRepOf, Contents, LineLen, FirstFit;
      var dlen := |op.data| + 1;
      if op.flag != DB_INSERT && op.flag != DB_REPLACE && op.flag != DB_STORE { return false; }
      var line := LineLen(op.key, |dat|, dlen);
      var room := |idx| <= PTR_MAX && IDXLEN_MIN <= line <= IDXLEN_MAX;
      var found, i := FindAndLock(op.key);
      if found {
        LiveValue(img, g, op.key);
        breaks := op.flag != DB_INSERT && datlen != dlen && !room;
      } else {
        var free, where, j := WalkFree(|op.key|, dlen);
        breaks := op.flag != DB_REPLACE && ((!free && !room) || ':' in op.key);
      }
    }

    /** The appending tail of db_store: data, index record, then the chain pointer. */
    method AppendRecord(key: string, data: string, ptr: nat)
      requires Valid() && key !in M()
      requires DATLEN_MIN <= |data| + 1 <= DATLEN_MAX && Room(key, |data| + 1)
      requires chainoff == Head(ListOf(key)) && chainoff in img.ptr && ptr == img.ptr[chainoff] <= PTR_MAX
      modifies `idx, `dat, `pos, `idxoff, `idxbuf, `datoff, `datlen, `ptrval, `img, `g
      ensures ':' !in key ==> Valid() && M() == old(M())[key := data]
      ensures ':' in key ==> Ruined(idx, key)
      ensures |idx| == |old(idx)| + HDR_SZ + LineLen(key, |old(dat)|, |data| + 1)
      ensures |dat| == |old(dat)| + |data| + 1
      ensures Appended(old(idx), old(dat), idx, dat, key, data)
    {
      hide Wf, IdxRepOf, DatRepOf, Settled, Contents, LineLen, Push, ListOf, Ruined, Pad, Dec, Appended, Head, EncodeRec,
        WriteAt;
      ghost var idx0, dat0, o := idx, dat, |idx|;
      ghost var b := MakeBody(key, |dat|, |data| + 1);
      Ends(idx, dat, img);
      IdxEndIs(idx, img);
      ReadPtrRep(idx, img, chainoff);
      RecLen(ptr, b);
      if ':' !in key { AppendFacts(img, g, key, data); } else { ColonRuins(idx, o, ptr, b); }
      AppendBytes(key, data, ptr);
      AppendedIs(idx0, dat0, idx, dat, key, data, chainoff, ptr);
      if ':' !in key { g := Push(g.(home := g.home[o := Held(0)]), ListOf(key), o, key); }
    }

    /** Data, record and chain pointer are written. */
    method AppendBytes(key: string, data: string, ptr: nat)
      requires FilesOk() && ptr <= PTR_MAX && SizesOk(MakeBody(key, |dat|, |data| + 1)) && |idx| <= PTR_MAX
      requires chainoff in img.ptr && chainoff + PTR_SZ <= |idx|
      modifies `idx, `dat, `pos, `idxoff, `idxbuf, `datoff, `datlen, `ptrval, `img
      ensures dat == WriteAt(old(dat), |old(dat)|, data + "\n") && |dat| == |old(dat)| + |data| + 1
      ensures var mid := WriteAt(old(idx), |old(idx)|, EncodeRec(ptr, MakeBody(key, |old(dat)|, |data| + 1)));
        chainoff <= |mid| && idx == WriteAt(mid, chainoff, Pad(PTR_SZ, |old(idx)|))
      ensures |idx| == |old(idx)| + HDR_SZ + LineLen(key, |old(dat)|, |data| + 1)
      ensures ':' !in key ==>
        FilesOk() && img == SetPtr(AppendRec(AppendExt(old(img), data), ptr, MakeBody(key, |old(dat)|, |data| + 1)), chainoff, |old(idx)|)
    {
      hide Wf, IdxRepOf, DatRepOf, LineLen, WriteAt, EncodeRec, Pad, Dec;
      Ends(idx, dat, img);
      RecLen(ptr, MakeBody(key, |dat|, |data| + 1));
      PtrFieldWidth(|idx|);
      WriteDat(data, 0, true);
      WriteIdx(key, 0, true, ptr);
      WritePtr(chainoff, idxoff);
    }

    /** The reusing tail of db_store, after FindFree. */
    method ReuseRecord(key: string, data: string, ptr: nat)
      requires FilesOk() && idxoff in img.body && Settled(img, g, {idxoff}) && key !in g.loc
      requires idxoff in g.home && img.body[idxoff] == Body(idxbuf, datoff, datlen, idxlen)
      requires |idxbuf| == |key| && datlen == |data| + 1 && idxoff <= PTR_MAX
      requires chainoff == Head(ListOf(key)) && chainoff in img.ptr && ptr == img.ptr[chainoff] <= PTR_MAX
      modifies `idx, `dat, `pos, `idxoff, `idxbuf, `datoff, `datlen, `ptrval, `img, `g
      ensures ':' !in key ==> Valid() && M() == old(M())[key := data]
      ensures ':' in key ==> Ruined(idx, key)
      ensures |idx| == |old(idx)| && |dat| == |old(dat)|
    {
      hide Wf, IdxRepOf, DatRepOf, Settled, Contents, LineLen, Push, ListOf, WriteAt, EncodeRec, Ruined, Pad, Dec;
      ghost var b := MakeBody(key, datoff, datlen);
      ReuseShape(idx, img, g, idxoff, key);
      assert |EncodeRec(ptr, b)| == RecSize(b) by { RecLen(ptr, b); }
      if ':' !in key { ReuseFacts(img, g, idxoff, key, data); } else { ColonRuins(idx, idxoff, ptr, b); }
      PtrFieldWidth(idxoff);
      WriteDat(data, datoff, false);
      WriteIdx(key, idxoff, false, ptr);
      WritePtr(chainoff, idxoff);
      if ':' !in key { g := Push(g, ListOf(key), idxoff, key); }
    }

    /** db_store when the key is not found: reuse a free record of the right sizes, else append. */
    method StoreNew(key: string, data: string)
      requires Valid() && key !in M() && chainoff == Head(ListOf(key))
      requires DATLEN_MIN <= |data| + 1 <= DATLEN_MAX
      requires Appends(key, |data| + 1, DB_STORE) ==> Room(key, |data| + 1)
      modifies `idx, `dat, `pos, `idxoff, `idxlen, `idxbuf, `datoff, `datlen, `ptrval, `img, `g
      ensures ':' !in key ==> Valid() && M() == old(M())[key := data]
      ensures ':' in key ==> Ruined(idx, key)
      ensures if old(Appends(key, |data| + 1, DB_STORE))
              then |idx| == |old(idx)| + HDR_SZ + LineLen(key, |old(dat)|, |data| + 1)
                   && |dat| == |old(dat)| + |data| + 1
              else |idx| == |old(idx)| && |dat| == |old(dat)|
      ensures old(Appends(key, |data| + 1, DB_STORE)) ==> Appended(old(idx), old(dat), idx, dat, key, data)
    {
      hide Wf, IdxRepOf, DatRepOf, Settled, Contents, LineLen, ListOf, Struct, FirstFit, Ruined, Appended;
      SettledStruct(img, g, {});
      ListStep(img, g, ListOf(key), 0);
      AbsentKey(img, g, key);
      var ptr := ReadPtr(chainoff);
      var reuse, j := FindFree(|key|, |data| + 1);
      if !reuse {
        AppendRecord(key, data, ptr);
      } else {
        ReuseRecord(key, data, ptr);
      }
    }

    /** db_store when the key is found: overwrite data of the same length, else delete the record
        and append a new one. */
    method StoreExisting(key: string, data: string, ghost i: nat)
      requires Valid() && key in M() && key in g.loc && chainoff == Head(ListOf(key))
      requires idxoff == g.loc[key] && idxbuf == key && At(ListOf(key), i)
      requires DATLEN_MIN <= |data| + 1 <= DATLEN_MAX
      requires |data| != |M()[key]| ==> Room(key, |data| + 1)
      modifies `idx, `dat, `pos, `idxoff, `idxlen, `idxbuf, `datoff, `datlen, `ptrval, `img, `g
      ensures Valid() && M() == old(M())[key := data]
      ensures if |data| != |old(M())[key]|
              then |idx| == |old(idx)| + HDR_SZ + LineLen(key, |old(dat)|, |data| + 1)
                   && |dat| == |old(dat)| + |data| + 1
              else |idx| == |old(idx)| && |dat| == |old(dat)|
    {
      hide Wf, IdxRepOf, DatRepOf, Settled, Contents, LineLen, ListOf, Struct, FirstFit;
      LiveValue(img, g, key);
      LiveKey(img, g, key);
      if |data| + 1 != datlen {
        DoDelete(ListOf(key), i);
        SettledStruct(img, g, {});
        ListStep(img, g, ListOf(key), 0);
        var ptr := ReadPtr(chainoff);
        AppendRecord(key, data, ptr);
      } else {
        Overwrite(key, data);
      }
    }

    /** db_store. A new key with a separator is answered like any other, and after that the next
        search of its chain aborts. */
    method Store(key: string, data: string, flag: int) returns (r: Result)
      requires Valid()
      requires GoodFlag(flag) ==> DATLEN_MIN <= |data| + 1 <= DATLEN_MAX
      requires GoodFlag(flag) && Appends(key, |data| + 1, flag) ==> Room(key, |data| + 1)
      modifies this
      ensures r == Answer(old(M()), DbSpec.Store(key, data, flag))
      ensures !Unreadable(old(M()), DbSpec.Store(key, data, flag)) ==>
        Valid() && M() == Apply(old(M()), DbSpec.Store(key, data, flag))
      ensures Unreadable(old(M()), DbSpec.Store(key, data, flag)) ==> Ruined(idx, key)
      ensures flag != DB_INSERT && flag != DB_REPLACE && flag != DB_STORE ==> r == Code(-1, EINVAL)
      ensures flag == DB_REPLACE ==> r == if key in old(M()) then Code(0, NoErr) else Code(-1, ENOENT)
      ensures flag == DB_INSERT ==> r == if key in old(M()) then Code(1, NoErr) else Code(0, NoErr)
      ensures flag == DB_STORE ==> r == Code(0, NoErr)
      ensures ':' !in key || r != Code(0, NoErr) ==>
        Valid() && M() == if r == Code(0, NoErr) then old(M())[key := data] else old(M())
      ensures if GoodFlag(flag) && old(Appends(key, |data| + 1, flag))
              then |idx| == |old(idx)| + HDR_SZ + LineLen(key, |old(dat)|, |data| + 1)
                   && |dat| == |old(dat)| + |data| + 1
              else |idx| == |old(idx)| && |dat| == |old(dat)|
      ensures GoodFlag(flag) && key !in old(M()) && old(Appends(key, |data| + 1, flag)) ==>
        Appended(old(idx), old(dat), idx, dat, key, data)
    {
      hide Wf, IdxRepOf, DatRepOf, Settled, Contents, LineLen, ListOf, Struct, FirstFit, Ruined, Appended;
      if flag != DB_INSERT && flag != DB_REPLACE && flag != DB_STORE {
        return Code(-1, EINVAL);
      }
      var found, i := FindAndLock(key);
      if !found {
        if flag == DB_REPLACE {
          return Code(-1, ENOENT);
        }
        StoreNew(key, data);
      } else {
        if flag == DB_INSERT {
          return Code(1, NoErr);
        }
        StoreExisting(key, data, i);
      }
      r := Code(0, NoErr);
    }

    /** The overwriting tail of db_store: the data alone changes. */
    method Overwrite(key: string, data: string)
      requires Valid() && key in g.loc && g.loc[key] in img.body && img.body[g.loc[key]].datoff == datoff
      requires datoff in img.ext && |data| == |img.ext[datoff]|
      modifies `dat, `datoff, `datlen, `img
      ensures Valid() && M() == old(M())[key := data] && |dat| == |old(dat)|
    {
      hide Wf, IdxRepOf, DatRepOf, Settled, Contents, Struct;
      OverwriteFacts(img, g, key, data);
      Ends(idx, dat, img);
      WriteDat(data, datoff, false);
      Ends(idx, dat, img);
    }

    // ---- sequential reading -------------------------------------------------

    /** The current position is where a record starts, or the end of the file. */
    ghost predicate Positioned()
      reads this
    {
      pos == img.idxEnd || pos in img.body
    }

    /** db_rewind */
    method Rewind()
      requires Valid()
      modifies `pos, `idxoff
      ensures Valid() && pos == REC_OFF && Positioned()
    {
      hide Wf, IdxRepOf, DatRepOf, Settled;
      FirstRecord(img);
      pos := PTR_SZ * (NHASH + 1) + 1;
      idxoff := pos;
    }

    /** db_nextrec: the next record in file order whose key is not blank. */
    method NextRec() returns (r: Option<(string, string)>)
      requires Valid() && Positioned()
      modifies `pos, `idxoff, `idxlen, `idxbuf, `datoff, `datlen, `ptrval
      ensures Valid() && Positioned()
      ensures var rest := old(Scan(img, pos));
        if rest == [] then r == None && pos == |idx|
        else r == Some(rest[0]) && Scan(img, pos) == rest[1..]
    {
      hide Wf, IdxRepOf, DatRepOf, Settled, AllBlank;
      Ends(idx, dat, img);
      while true
        invariant FilesOk() && Positioned()
        invariant Scan(img, pos) == old(Scan(img, pos))
        decreases img.idxEnd - pos
      {
        ghost var here := pos;
        ScanStep(img, here);
        var next := ReadIdx(0);
        if next < 0 {
          return None;
        }
        var blank := IsBlank(idxbuf);
        if !blank {
          break;
        }
      }
      var data := ReadDat();
      r := Some((idxbuf, data));
    }

    /** The loop that skips spaces until a null byte or a nonblank. */
    method IsBlank(s: string) returns (blank: bool)
      ensures blank <==> AllBlank(s)
    {
      var i := 0;
      while i < |s| && s[i] == ' '
        invariant 0 <= i <= |s| && AllBlank(s[..i])
      {
        i := i + 1;
      }
      blank := i == |s|;
      assert s[..|s|] == s;
      assert forall j :: 0 <= j < i ==> s[j] == s[..i][j];
    }

    /** db_rewind, then db_nextrec until it answers NULL. */
    method ReadAll() returns (pairs: seq<(string, string)>)
      requires Valid()
      modifies `pos, `idxoff, `idxlen, `idxbuf, `datoff, `datlen, `ptrval
      ensures Valid()
      ensures pairs == Scan(img, REC_OFF)
      ensures forall k, v :: (k, v) in pairs <==> k in M() && M()[k] == v && !AllBlank(k)
      ensures forall i, j :: 0 <= i < j < |pairs| ==> pairs[i].0 != pairs[j].0
    {
      hide Wf, IdxRepOf, DatRepOf, Settled, AllBlank, Contents;
      Rewind();
      pairs := [];
      ghost var all := Scan(img, REC_OFF);
      while true
        invariant Valid() && Positioned()
        invariant pairs + Scan(img, pos) == all
        decreases |all| - |pairs|
      {
        var r := NextRec();
        if r == None {
          break;
        }
        pairs := pairs + [r.value];
      }
      ScanIsMap(img, g);
    }
  }

  // ---- what sequential reading visits ---------------------------------------

  /** The pairs of the nonblank records from offset o on, in file order. */
  function Scan(img: Image, o: nat): seq<(string, string)>
    decreases if o < img.idxEnd then img.idxEnd - o else 0
  {
    if o !in img.body || o >= img.idxEnd then [] else
    var b := img.body[o];
    (if AllBlank(b.key) || b.datoff !in img.ext then [] else [(b.key, img.ext[b.datoff])])
    + Scan(img, o + RecSize(b))
  }

  lemma ScanStep(img: Image, o: nat)
    requires Wf(img)
    ensures o in img.body ==>
      && o + RecSize(img.body[o]) <= img.idxEnd
      && (o + RecSize(img.body[o]) == img.idxEnd || o + RecSize(img.body[o]) in img.body)
      && img.body[o].datoff in img.ext && |img.ext[img.body[o].datoff]| + 1 == img.body[o].datlen
      && Scan(img, o) ==
         (if AllBlank(img.body[o].key) then [] else [(img.body[o].key, img.ext[img.body[o].datoff])])
         + Scan(img, o + RecSize(img.body[o]))
    ensures o !in img.body ==> Scan(img, o) == []
  {
    hide ExtentsTile, PointersOk, LinesOk;
    if o in img.body {
      assert RecInFile(img.body, img.idxEnd, o) && RecFollowed(img.body, img.idxEnd, o);
    }
  }

  /** A pair is met from o on exactly when a nonblank record at or after o holds it; and then by
      one record only, so keys never repeat. */
  lemma {:induction false} ScanMeets(img: Image, g: Lists, o: nat)
    requires Wf(img) && Settled(img, g, {})
    ensures forall kv :: kv in Scan(img, o) ==>
      && kv.0 in Contents(img, g) && Contents(img, g)[kv.0] == kv.1 && !AllBlank(kv.0)
      && kv.0 in g.loc && g.loc[kv.0] >= o
    ensures forall i, j :: 0 <= i < j < |Scan(img, o)| ==> Scan(img, o)[i].0 != Scan(img, o)[j].0
    decreases img.idxEnd - o
  {
    hide Wf, Settled, Contents, AllBlank;
    if o in img.body {
      ScanStep(img, o);
      ScanMeets(img, g, o + RecSize(img.body[o]));
      if !AllBlank(img.body[o].key) { NonblankIsLive(img, g, o); }
    } else {
      ScanStep(img, o);
    }
  }

  lemma NonblankIsLive(img: Image, g: Lists, o: nat)
    requires Wf(img) && Settled(img, g, {}) && o in img.body && !AllBlank(img.body[o].key)
    ensures var b := img.body[o];
      && b.key in g.loc && g.loc[b.key] == o && b.datoff in img.ext
      && b.key in Contents(img, g) && Contents(img, g)[b.key] == img.ext[b.datoff]
  {
    hide RecordsTile, ExtentsTile, PointersOk, LineLen, Contents, Linked, AllBlank;
    assert LiveAt(img.body, g, o);
    ContentsDomain(img, g);
  }

  lemma {:induction false} ScanFinds(img: Image, o: nat, q: nat)
    requires Wf(img) && o in img.body && q in img.body && o <= q
    requires !AllBlank(img.body[q].key)
    ensures img.body[q].datoff in img.ext
    ensures (img.body[q].key, img.ext[img.body[q].datoff]) in Scan(img, o)
    decreases img.idxEnd - o
  {
    hide Wf, AllBlank;
    ScanStep(img, o);
    ScanStep(img, q);
    if o < q {
      NextUpTo(img, o, q);
      ScanFinds(img, o + RecSize(img.body[o]), q);
    }
  }

  lemma NextUpTo(img: Image, o: nat, q: nat)
    requires Wf(img) && o in img.body && q in img.body && o < q
    ensures o + RecSize(img.body[o]) <= q && o + RecSize(img.body[o]) in img.body
  {
    hide ExtentsTile, PointersOk, LinesOk, RecordsOwnExtents;
    assert RecInFile(img.body, img.idxEnd, q) && RecFollowed(img.body, img.idxEnd, o);
  }

  /** Reading sequentially from the first record gives exactly the map, less its blank keys:
      each pair once. */
  lemma ScanIsMap(img: Image, g: Lists)
    requires Wf(img) && Settled(img, g, {})
    ensures forall k, v :: (k, v) in Scan(img, REC_OFF) <==>
      k in Contents(img, g) && Contents(img, g)[k] == v && !AllBlank(k)
    ensures forall i, j :: 0 <= i < j < |Scan(img, REC_OFF)| ==> Scan(img, REC_OFF)[i].0 != Scan(img, REC_OFF)[j].0
  {
    hide Wf, Settled, Contents, AllBlank, Scan;
    ScanMeets(img, g, REC_OFF);
    forall k | k in Contents(img, g) && !AllBlank(k)
      ensures (k, Contents(img, g)[k]) in Scan(img, REC_OFF)
    {
      LiveFromStart(img, g, k);
      LiveValue(img, g, k);
      ScanFinds(img, REC_OFF, g.loc[k]);
    }
  }

  lemma LiveFromStart(img: Image, g: Lists, k: string)
    requires Wf(img) && Settled(img, g, {}) && k in Contents(img, g)
    ensures k in g.loc && g.loc[k] in img.body && img.body[g.loc[k]].key == k && g.loc[k] >= REC_OFF
    ensures REC_OFF in img.body
  {
    hide ExtentsTile, PointersOk, LineLen, Contents, Linked;
    ContentsDomain(img, g);
    assert LiveAt(img.body, g, g.loc[k]);
    assert RecInFile(img.body, img.idxEnd, g.loc[k]);
  }

  /** So nothing is missed exactly when no live key is blank. */
  lemma ScanCompleteIffNoBlankKey(img: Image, g: Lists)
    requires Wf(img) && Settled(img, g, {})
    ensures (forall k :: k in Contents(img, g) ==> (k, Contents(img, g)[k]) in Scan(img, REC_OFF)) <==>
            (forall k :: k in Contents(img, g) ==> !AllBlank(k))
  {
    hide Wf, Settled, Contents, AllBlank, Scan;
    ScanIsMap(img, g);
  }

  lemma OverwriteFacts(img: Image, g: Lists, key: string, data: string)
    requires Wf(img) && Settled(img, g, {}) && key in g.loc && g.loc[key] in img.body
    requires img.body[g.loc[key]].datoff in img.ext
    ensures var img' := PutExt(img, img.body[g.loc[key]].datoff, data);
      Settled(img', g, {}) && Contents(img', g) == Contents(img, g)[key := data]
  {
    hide RecordsTile, ExtentsTile, PointersOk, LineLen, Contents, Linked, Placed;
    PutExtSettled(img, g, {}, img.body[g.loc[key]].datoff, data);
    OverwriteContents(img, g, key, data);
  }

  lemma AbsentKey(img: Image, g: Lists, key: string)
    requires Wf(img) && Settled(img, g, {}) && key !in Contents(img, g)
    ensures key !in g.loc && |g.chain| == NLISTS
  {
    hide RecordsTile, ExtentsTile, PointersOk, LineLen, Contents, Linked, Placed;
    ContentsDomain(img, g);
  }

  /** Linking a held record of a new key at the front of its chain. */
  lemma LinkFacts(img: Image, g: Lists, o: nat)
    requires Wf(img) && Settled(img, g, {o}) && o in img.body && o in g.home
    requires var c := ListOf(img.body[o].key);
      Head(c) in img.ptr && o in img.ptr && img.ptr[o] == img.ptr[Head(c)]
    requires img.body[o].key !in g.loc
    ensures var b := img.body[o];
      var c := ListOf(b.key);
      && |g.chain| == NLISTS && b.datoff in img.ext
      && Settled(SetPtr(img, Head(c), o), Push(g, c, o, b.key), {})
      && Contents(SetPtr(img, Head(c), o), Push(g, c, o, b.key)) == Contents(img, g)[b.key := img.ext[b.datoff]]
  {
    hide RecordsTile, ExtentsTile, LineLen, Contents, Hash, Keyed;
    var b := img.body[o];
    var c := ListOf(b.key);
    ListStep(img, g, c, 0);
    PushSettled(img, g, {o}, c, o);
    assert {o} - {o} == {};
    PushContents(img, g, c, o, b.key);
    SetPtrContents(img, Push(g, c, o, b.key), Head(c), o);
  }

  lemma AppendFacts(img: Image, g: Lists, key: string, data: string)
    requires Wf(img) && Settled(img, g, {}) && key !in Contents(img, g) && ':' !in key
    requires DATLEN_MIN <= |data| + 1 <= DATLEN_MAX && img.idxEnd <= PTR_MAX
    requires IDXLEN_MIN <= LineLen(key, img.datEnd, |data| + 1) <= IDXLEN_MAX
    requires Head(ListOf(key)) in img.ptr && img.ptr[Head(ListOf(key))] <= PTR_MAX
    ensures var b, o := MakeBody(key, img.datEnd, |data| + 1), img.idxEnd;
      var img2 := AppendRec(AppendExt(img, data), img.ptr[Head(ListOf(key))], b);
      var g2 := g.(home := g.home[o := Held(0)]);
      && |g2.chain| == NLISTS && BodyOk(b)
      && Head(ListOf(key)) in img2.ptr
      && Settled(SetPtr(img2, Head(ListOf(key)), o), Push(g2, ListOf(key), o, key), {})
      && Contents(SetPtr(img2, Head(ListOf(key)), o), Push(g2, ListOf(key), o, key)) == Contents(img, g)[key := data]
  {
    hide RecordsTile, ExtentsTile, LineLen, Contents, ListOf, Struct, Settled;
    var b, o := MakeBody(key, img.datEnd, |data| + 1), img.idxEnd;
    var img1 := AppendExt(img, data);
    AppendExtWf(img, data);
    AppendRecWf(img1, img.ptr[Head(ListOf(key))], b);
    AppendHeld(img, g, key, data, img.ptr[Head(ListOf(key))], b);
    LinkFacts(AppendRec(img1, img.ptr[Head(ListOf(key))], b), g.(home := g.home[o := Held(0)]), o);
  }

  lemma AppendHeld(img: Image, g: Lists, key: string, data: string, v: nat, b: Body)
    requires Wf(img) && Settled(img, g, {}) && key !in Contents(img, g)
    requires b.datoff == img.datEnd && img.idxEnd !in img.body && img.datEnd !in img.ext
    ensures key !in g.loc && |g.chain| == NLISTS
    ensures var img2, g2 := AppendRec(AppendExt(img, data), v, b), g.(home := g.home[img.idxEnd := Held(0)]);
      Settled(img2, g2, {img.idxEnd}) && Contents(img2, g2) == Contents(img, g)
  {
    hide ExtentsTile, LineLen, Contents, ListOf, Linked, Placed, Keyed;
    assert {} + {img.idxEnd} == {img.idxEnd};
    AppendSettled(img, g, {}, data, v, b, 0);
    AppendContents(img, g, data, v, b);
    ContentsDomain(img, g);
    HomeContents(AppendRec(AppendExt(img, data), v, b), g, g.home[img.idxEnd := Held(0)]);
  }

  lemma HomeContents(img: Image, g: Lists, home: map<nat, Home>)
    ensures Contents(img, g.(home := home)) == Contents(img, g)
  {
  }

  lemma ReuseFacts(img: Image, g: Lists, o: nat, key: string, data: string)
    requires Wf(img) && Settled(img, g, {o}) && o in img.body && o in g.home
    requires key !in g.loc && ':' !in key && |key| == |img.body[o].key| && |data| + 1 == img.body[o].datlen
    requires Head(ListOf(key)) in img.ptr && img.ptr[Head(ListOf(key))] <= PTR_MAX
    ensures var b, c := img.body[o], ListOf(key);
      var b' := MakeBody(key, b.datoff, b.datlen);
      var img2 := PutRec(PutExt(img, b.datoff, data), o, img.ptr[Head(c)], b');
      && |g.chain| == NLISTS && b.datoff in img.ext && |img.ext[b.datoff]| == |data|
      && BodyOk(b') && SameShape(b, b') && Head(c) in img2.ptr
      && Settled(SetPtr(img2, Head(c), o), Push(g, c, o, key), {})
      && Contents(SetPtr(img2, Head(c), o), Push(g, c, o, key)) == Contents(img, g)[key := data]
  {
    hide RecordsTile, ExtentsTile, PointersOk, LineLen, Contents, ListOf, Struct, Settled, LinesOk;
    var b, c := img.body[o], ListOf(key);
    var b' := MakeBody(key, b.datoff, b.datlen);
    var img1 := PutExt(img, b.datoff, data);
    HeldFacts(img, g, o);
    SameShapeSize(b, key);
    PutExtWf(img, b.datoff, data);
    PutExtSettled(img, g, {o}, b.datoff, data);
    PutExtContents(img, g, b.datoff, data);
    PutRecWf(img1, o, img.ptr[Head(c)], b');
    RewriteSettled(img1, g, {o}, o, img.ptr[Head(c)], b');
    RewriteContents(img1, g, o, img.ptr[Head(c)], b');
    LinkFacts(PutRec(img1, o, img.ptr[Head(c)], b'), g, o);
  }

  lemma HeldFacts(img: Image, g: Lists, o: nat)
    requires Wf(img) && Settled(img, g, {o}) && o in img.body && o in g.home
    ensures |g.chain| == NLISTS && BodyOk(img.body[o]) && o != Head(ListOf(img.body[o].key))
    ensures forall k :: k in g.loc ==> g.loc[k] != o
    ensures NotLiveExt(img, g, img.body[o].datoff)
    ensures forall c :: 0 <= c < NLISTS ==> Head(c) != o && Head(c) in img.ptr
  {
    hide RecordsTile, ExtentsTile, LineLen, Contents, ListOf, Linked, Placed;
    NotLiveRecord(img, g, o);
  }

  predicate NoFit(body: map<nat, Body>, s: seq<nat>, i: nat, keylen: nat, datlen: nat)
    requires i <= |s|
  {
    forall j :: 0 <= j < i ==> s[j] in body && !(|body[s[j]].key| == keylen && body[s[j]].datlen == datlen)
  }

  /** Taking position i off the free list. */
  lemma FreeTakenFacts(img: Image, g: Lists, i: nat)
    requires Wf(img) && Settled(img, g, {}) && i < |g.chain[0]|
    ensures var o := g.chain[0][i];
      && o in img.body && LocAt(Head(0), g.chain[0], i) in img.ptr && o in g.home && o in img.ptr
    ensures var o, img' := g.chain[0][i], SetPtr(img, LocAt(Head(0), g.chain[0], i), NextAt(g.chain[0], i + 1));
      var g' := Remove(g, 0, i, 0, img.body[o].key);
      && Settled(img', g', {o}) && Contents(img', g') == Contents(img, g) && g'.loc == g.loc && o in g'.home
      && (LocAt(Head(0), g.chain[0], i) == FREE_OFF || LocAt(Head(0), g.chain[0], i) >= REC_OFF)
  {
    hide RecordsTile, ExtentsTile, LineLen, Contents, Hash, Keyed;
    OnChain(img.body, g, 0, i);
    ListStep(img, g, 0, i);
    if i > 0 { ListStep(img, g, 0, i - 1); }
    var o := g.chain[0][i];
    assert {} + {o} == {o};
    RemoveSettled(img, g, {}, 0, i, 0);
    RemoveContents(img, g, 0, i, 0, img.body[o].key);
    SetPtrContents(img, Remove(g, 0, i, 0, img.body[o].key), LocAt(Head(0), g.chain[0], i), NextAt(g.chain[0], i + 1));
  }

  lemma LiveValue(img: Image, g: Lists, key: string)
    requires Wf(img) && Settled(img, g, {}) && key in Contents(img, g)
    ensures key in g.loc && g.loc[key] in img.body
    ensures var b := img.body[g.loc[key]];
      b.datoff in img.ext && b.datlen == |img.ext[b.datoff]| + 1 && img.ext[b.datoff] == Contents(img, g)[key]
  {
    hide Linked, RecordsTile, ExtentsTile, BodyOk, Contents, Hash, Placed;
    ContentsDomain(img, g);
  }

  lemma LiveKey(img: Image, g: Lists, key: string)
    requires Wf(img) && Settled(img, g, {}) && key in g.loc && g.loc[key] in img.body && img.body[g.loc[key]].key == key
    ensures ':' !in key
  {
    hide Settled, LineLen;
    assert BodyOk(img.body[g.loc[key]]);
  }

  /** Everything _db_dodelete relies on, and where it ends. */
  lemma DeleteFacts(img: Image, g: Lists, c: nat, i: nat)
    requires Wf(img) && Settled(img, g, {}) && 0 < c < NLISTS && i < |g.chain[c]|
    ensures var o := g.chain[c][i];
      && o in img.body && img.body[o].datlen > 0 && FREE_OFF in img.ptr && img.ptr[FREE_OFF] <= PTR_MAX
      && img.body[o].datoff in img.ext && |img.ext[img.body[o].datoff]| == img.body[o].datlen - 1
      && BodyOk(BlankBody(img.body[o])) && SameShape(img.body[o], BlankBody(img.body[o]))
      && o <= PTR_MAX && NextAt(g.chain[c], i + 1) <= PTR_MAX
      && LocAt(Head(c), g.chain[c], i) in img.ptr && o in img.ptr
    ensures Settled(DeleteImage(img, g, c, i), DeleteLists(img, g, c, i), {})
    ensures Contents(DeleteImage(img, g, c, i), DeleteLists(img, g, c, i)) ==
            Contents(img, g) - {img.body[g.chain[c][i]].key}
  {
    hide Linked, RecordsTile, ExtentsTile, LineLen, Contents, Hash, Keyed, Placed, DeleteImage, DeleteLists, BlankBody;
    DeletePlaces(img, g, c, i);
    ListStep(img, g, c, i);
    ListStep(img, g, c, i + 1);
    ListStep(img, g, 0, 0);
    BlankBodyIs(img.body[g.chain[c][i]]);
    DeleteSettled(img, g, c, i);
    DeleteContents(img, g, c, i);
  }

  lemma DeleteImageDef(img: Image, g: Lists, c: nat, i: nat)
    requires c < |g.chain| && i < |g.chain[c]| && g.chain[c][i] in img.body && FREE_OFF in img.ptr
    requires img.body[g.chain[c][i]].datlen > 0
    ensures var o := g.chain[c][i];
      DeleteImage(img, g, c, i) ==
      SetPtr(SetPtr(PutRec(PutExt(img, img.body[o].datoff, Blanks(img.body[o].datlen - 1)),
                           o, img.ptr[FREE_OFF], BlankBody(img.body[o])), FREE_OFF, o),
             LocAt(Head(c), g.chain[c], i), NextAt(g.chain[c], i + 1))
    ensures DeleteImage(img, g, c, i).idxEnd == img.idxEnd && DeleteImage(img, g, c, i).datEnd == img.datEnd
  {
  }

  lemma DeleteListsDef(img: Image, g: Lists, c: nat, i: nat)
    requires c < |g.chain| && i < |g.chain[c]| && g.chain[c][i] in img.body && 0 < c
    ensures var g' := DeleteLists(img, g, c, i);
      && |g'.chain| == |g.chain| && g'.chain[0] == [g.chain[c][i]] + g.chain[0]
      && g'.chain[c] == Without(g.chain[c], i)
      && g'.loc == g.loc - {img.body[g.chain[c][i]].key}
  {
  }

  lemma Ends(idx: string, dat: string, img: Image)
    requires IdxRep(idx, img) && DatRep(dat, img)
    ensures |idx| == img.idxEnd && |dat| == img.datEnd
  {
  }

  lemma ListHead(key: string)
    ensures Head(ListOf(key)) == Hash(key) * PTR_SZ + HASH_OFF
  {
  }

  predicate NotAmong(body: map<nat, Body>, s: seq<nat>, i: nat, key: string)
    requires i <= |s|
  {
    forall j :: 0 <= j < i ==> s[j] in body && body[s[j]].key != key
  }

  lemma SearchResult(img: Image, g: Lists, key: string, i: nat)
    requires Wf(img) && Struct(img.ptr, img.body, g)
    requires i <= |g.chain[ListOf(key)]|
    requires NotAmong(img.body, g.chain[ListOf(key)], i, key)
    requires i < |g.chain[ListOf(key)]| ==> g.chain[ListOf(key)][i] in img.body &&
                                            img.body[g.chain[ListOf(key)][i]].key == key
    ensures i < |g.chain[ListOf(key)]| <==> key in Contents(img, g)
    ensures i < |g.chain[ListOf(key)]| ==> key in g.loc && g.loc[key] == g.chain[ListOf(key)][i]
  {
    hide Linked, RecordsTile, ExtentsTile, BodyOk, Contents, Hash;
    ContentsDomain(img, g);
    if i < |g.chain[ListOf(key)]| {
      FoundIsLive(img.body, g, key, i);
    } else {
      NotFoundIsAbsent(img.body, g, key);
    }
  }

  lemma RecLen(ptr: nat, b: Body)
    requires ptr <= PTR_MAX && b == MakeBody(b.key, b.datoff, b.datlen)
    requires IDXLEN_MIN <= LineLen(b.key, b.datoff, b.datlen) <= IDXLEN_MAX && DATLEN_MIN <= b.datlen <= DATLEN_MAX
    ensures SizesOk(b) && |EncodeRec(ptr, b)| == RecSize(b) && b.idxlen == LineLen(b.key, b.datoff, b.datlen)
  {
    hide Pad, LineLen;
    PtrFieldWidth(ptr);
    LenFieldWidth(b.idxlen);
  }

  lemma ReuseShape(idx: string, img: Image, g: Lists, o: nat, key: string)
    requires Wf(img) && IdxRep(idx, img) && Settled(img, g, {o}) && o in img.body && o in g.home
    requires |key| == |img.body[o].key|
    ensures var b := MakeBody(key, img.body[o].datoff, img.body[o].datlen);
      && SizesOk(b) && SameShape(img.body[o], b) && REC_OFF <= o && o + RecSize(b) <= |idx|
      && b.datoff in img.ext && |img.ext[b.datoff]| + 1 == b.datlen
  {
    hide LineLen, ExtentsTile, Settled;
    assert BodyOk(img.body[o]);
    SameShapeSize(img.body[o], key);
    assert RecInFile(img.body, img.idxEnd, o);
  }

  /** The data v at offset d are overwritten with as many blanks, and no other byte is. */
  predicate DataBlanked(was: string, now: string, d: nat, v: string) {
    && |now| == |was| && d + |v| <= |was| && was[d..d + |v|] == v
    && forall x :: 0 <= x < |was| ==> now[x] == if d <= x < d + |v| then ' ' else was[x]
  }

  lemma BlanksOver(was: string, d: nat, v: string)
    requires d + |v| + 1 <= |was| && was[d..d + |v| + 1] == v + "\n"
    ensures DataBlanked(was, WriteAt(was, d, Blanks(|v|) + "\n"), d, v)
  {
    var w := v + "\n";
    assert was[d + |v|] == was[d..d + |v| + 1][|v|] == w[|v|];
    assert was[d..d + |v|] == was[d..d + |v| + 1][..|v|] == v;
  }

  lemma SizesAndKey(b: Body)
    requires SizesOk(b) && ':' !in b.key
    ensures BodyOk(b)
  {
  }

  lemma RewriteFits(idx: string, img: Image, o: nat, b: Body)
    requires Wf(img) && IdxRep(idx, img) && o in img.body && SameShape(img.body[o], b) && SizesOk(b)
    ensures o + RecSize(b) <= |idx|
  {
    hide LineLen;
    ReadRecRep(idx, img, o);
    assert BodyOk(img.body[o]);
    SameShapeSize(img.body[o], b.key);
  }

  // ---- keys with a separator ------------------------------------------------

  /** The bytes after a record has been appended to the files: its data behind the data file, the
      record behind the index file with the pointer that headed its chain, and its offset there. */
  ghost predicate Appended(idx0: string, dat0: string, idx: string, dat: string, key: string, data: string) {
    var c := Head(ListOf(key));
    && c + PTR_SZ <= |idx0| && Atol(idx0[c..c + PTR_SZ]) >= 0
    && dat == dat0 + data + "\n"
    && idx == WriteAt(idx0 + EncodeRec(Atol(idx0[c..c + PTR_SZ]), MakeBody(key, |dat0|, |data| + 1)), c, Pad(PTR_SZ, |idx0|))
  }

  lemma AppendedIs(idx0: string, dat0: string, idx: string, dat: string, key: string, data: string, c: nat, ptr: nat)
    requires c == Head(ListOf(key)) && c + PTR_SZ <= |idx0| && Atol(idx0[c..c + PTR_SZ]) == ptr
    requires dat == WriteAt(dat0, |dat0|, data + "\n")
    requires idx == WriteAt(WriteAt(idx0, |idx0|, EncodeRec(ptr, MakeBody(key, |dat0|, |data| + 1))), c, Pad(PTR_SZ, |idx0|))
    ensures Appended(idx0, dat0, idx, dat, key, data)
  {
    hide Pad, EncodeRec, Atol, ListOf, LineLen;
    var rec := EncodeRec(ptr, MakeBody(key, |dat0|, |data| + 1));
    assert WriteAt(idx0, |idx0|, rec) == idx0 + rec;
    assert dat0 + (data + "\n") == dat0 + data + "\n";
  }

  /** A store that writes a key that cannot be read back. */
  predicate Unreadable(m: map<string, string>, op: Op) {
    op.Store? && GoodFlag(op.flag) && op.flag != DB_REPLACE && op.key !in m && ':' in op.key
  }

  /** The first record on the chain of this key is one that _db_readidx aborts at. */
  ghost predicate Ruined(idx: string, key: string) {
    var c := Head(ListOf(key));
    && c + PTR_SZ <= |idx|
    && var o := Atol(idx[c..c + PTR_SZ]);
       && 0 < o && o + HDR_SZ <= |idx|
       && var len := Atol(idx[o + PTR_SZ..o + HDR_SZ]);
          0 <= len && o + HDR_SZ + len <= |idx| && ParseLine(idx[o + HDR_SZ..o + HDR_SZ + len]) == None
  }

  /** Writing a record whose key has a separator at o, and linking it in at the head of its chain. */
  lemma ColonRuins(idx: string, o: nat, ptr: nat, b: Body)
    requires ':' in b.key && SizesOk(b) && ptr <= PTR_MAX && REC_OFF <= o <= |idx| && o <= PTR_MAX
    ensures Head(ListOf(b.key)) + PTR_SZ <= REC_OFF
    ensures Ruined(WriteAt(WriteAt(idx, o, EncodeRec(ptr, b)), Head(ListOf(b.key)), Pad(PTR_SZ, o)), b.key)
  {
    hide Pad, Atol, Line, ParseLine, LineLen, WriteAt, Hash, Window;
    var c, rec := Head(ListOf(b.key)), EncodeRec(ptr, b);
    var mid := WriteAt(idx, o, rec);
    var end := WriteAt(mid, c, Pad(PTR_SZ, o));
    PtrFieldWidth(ptr);
    PtrFieldWidth(o);
    LenFieldWidth(b.idxlen);
    AtolPad(PTR_SZ, o);
    AtolPad(IDXLEN_SZ, b.idxlen);
    ParseLineRoundTrip(b);
    WriteAtSame(idx, o, rec);
    WriteAtOther(mid, c, Pad(PTR_SZ, o), o, rec);
    WriteAtSame(mid, c, Pad(PTR_SZ, o));
    RecParts(end, o, ptr, b);
  }

  lemma RecParts(t: string, o: nat, ptr: nat, b: Body)
    requires Window(t, o, EncodeRec(ptr, b)) && |Pad(PTR_SZ, ptr)| == PTR_SZ && |Pad(IDXLEN_SZ, b.idxlen)| == IDXLEN_SZ
    requires SizesOk(b)
    ensures o + RecSize(b) <= |t|
    ensures t[o + PTR_SZ..o + HDR_SZ] == Pad(IDXLEN_SZ, b.idxlen) && t[o + HDR_SZ..o + RecSize(b)] == Line(b)
  {
    hide Pad, Line, LineLen;
    SubWindow(t, o, Pad(PTR_SZ, ptr) + Pad(IDXLEN_SZ, b.idxlen), Line(b));
    SubWindow(t, o, Pad(PTR_SZ, ptr), Pad(IDXLEN_SZ, b.idxlen));
  }

  lemma FirstRecord(img: Image)
    requires Wf(img)
    ensures img.idxEnd == REC_OFF || REC_OFF in img.body
  {
  }

  lemma IdxEndIs(idx: string, img: Image)
    requires Wf(img) && IdxRep(idx, img)
    ensures |idx| == img.idxEnd >= REC_OFF && img.idxEnd !in img.body
  {
    assert forall o :: o in img.body ==> RecInFile(img.body, img.idxEnd, o);
  }

  lemma DatEndIs(dat: string, img: Image)
    requires DatRep(dat, img)
    ensures |dat| == img.datEnd
  {
  }

  /** What the library asks of the arguments of one call. */
  predicate ArgsOk(op: Op) {
    op.Store? && GoodFlag(op.flag) ==> DATLEN_MIN <= |op.data| + 1 <= DATLEN_MAX
  }

  /** A store that would append a record for which there is no room, or one with a key that cannot
      be read back. */
  ghost predicate Breaks(db: Db, op: Op)
    reads db
  {
    || (op.Store? && GoodFlag(op.flag) && db.Appends(op.key, |op.data| + 1, op.flag) && !db.Room(op.key, |op.data| + 1))
    || Unreadable(db.M(), op)
  }

  /** Any sequence of calls on a fresh database answers as the finite map does, up to the first
      store that breaks a limit of the format on offsets, line lengths or keys. maps are the maps
      between the calls. */
  method RunCalls(ops: seq<Op>) returns (rs: seq<Result>, db: Db, ghost maps: seq<map<string, string>>)
    requires forall i :: 0 <= i < |ops| ==> ArgsOk(ops[i])
    ensures |rs| <= |ops| && rs == Answers(map[], ops[..|rs|])
    ensures db.Valid() && db.M() == ApplyAll(map[], ops[..|rs|])
    ensures |rs| < |ops| ==> Breaks(db, ops[|rs|])
    ensures |maps| == |rs| + 1 && maps[0] == map[] && maps[|rs|] == db.M()
    ensures forall n :: 0 <= n < |rs| && ops[n].Fetch? ==>
      maps[n + 1] == maps[n] && rs[n] == if ops[n].key in maps[n] then Data(maps[n][ops[n].key]) else NoData
    ensures forall n :: 0 <= n < |rs| && ops[n].Delete? ==>
      maps[n + 1] == maps[n] - {ops[n].key} && rs[n] == Code(if ops[n].key in maps[n] then 0 else -1, NoErr)
    ensures forall n :: 0 <= n < |rs| && ops[n].Store? ==>
      rs[n] == (if ops[n].flag != DB_INSERT && ops[n].flag != DB_REPLACE && ops[n].flag != DB_STORE then Code(-1, EINVAL)
                else if ops[n].flag == DB_REPLACE && ops[n].key !in maps[n] then Code(-1, ENOENT)
                else if ops[n].flag == DB_INSERT && ops[n].key in maps[n] then Code(1, NoErr)
                else Code(0, NoErr))
    ensures forall n :: 0 <= n < |rs| && ops[n].Store? ==>
      maps[n + 1] == if rs[n] == Code(0, NoErr) then maps[n][ops[n].key := ops[n].data] else maps[n]
  {
    hide Answers, ApplyAll, Breaks, Wf, IdxRepOf, DatRepOf, Settled, Contents, ArgsOk;
    rs, db := CallAll(ops);
    maps := CallsMean(ops[..|rs|], rs);
  }

  method CallAll(ops: seq<Op>) returns (rs: seq<Result>, db: Db)
    requires forall i :: 0 <= i < |ops| ==> ArgsOk(ops[i])
    ensures |rs| <= |ops| && rs == Answers(map[], ops[..|rs|])
    ensures db.Valid() && db.M() == ApplyAll(map[], ops[..|rs|])
    ensures |rs| < |ops| ==> Breaks(db, ops[|rs|])
  {
    hide Wf, IdxRepOf, DatRepOf, Settled, Contents, Answer, Apply, Breaks, ArgsOk;
    db := new Db();
    rs := [];
    while |rs| < |ops|
      invariant fresh(db) && db.Valid()
      invariant |rs| <= |ops| && rs == Answers(map[], ops[..|rs|])
      invariant db.M() == ApplyAll(map[], ops[..|rs|])
      decreases |ops| - |rs|
    {
      var n := |rs|;
      var breaks, r := CallOne(db, ops[n]);
      if breaks { break; }
      assert ops[..n + 1][..n] == ops[..n];
      rs := rs + [r];
    }
  }

  method CallOne(db: Db, op: Op) returns (breaks: bool, r: Result)
    requires db.Valid() && ArgsOk(op)
    modifies db
    ensures db.Valid()
    ensures breaks ==> Breaks(db, op) && db.M() == old(db.M())
    ensures !breaks ==> r == Answer(old(db.M()), op) && db.M() == Apply(old(db.M()), op)
  {
    hide Wf, IdxRepOf, DatRepOf, Settled, Contents, LineLen, FirstFit, Answer, Apply, Ruined, Appended, DataBlanked;
    breaks, r := false, NoData;
    match op {
      case Fetch(key) => r := db.Fetch(key);
      case Delete(key) => r := db.Delete(key);
      case Store(key, data, flag) =>
        breaks := db.WillBreak(op);
        if !breaks { r := db.Store(key, data, flag); }
    }
  }

  // ---- clients of the handle ------------------------------------------------

  /** Of two insertions of one key the second answers 1, and a fetch gives the data of the first. */
  method InsertTwice(db: Db, key: string, first: string, second: string) returns (r1: Result, r2: Result, r3: Result)
    requires db.Valid() && key !in db.M() && ':' !in key
    requires DATLEN_MIN <= |first| + 1 <= DATLEN_MAX && DATLEN_MIN <= |second| + 1 <= DATLEN_MAX
    requires db.Appends(key, |first| + 1, DB_INSERT) ==> db.Room(key, |first| + 1)
    modifies db
    ensures db.Valid() && db.M() == old(db.M())[key := first]
    ensures r1 == Code(0, NoErr) && r2 == Code(1, NoErr) && r3 == Data(first)
  {
    hide Wf, IdxRepOf, DatRepOf, Settled, Contents, LineLen, FirstFit, Answer, Apply, Ruined, Unreadable, Appended;
    r1 := db.Store(key, first, DB_INSERT);
    r2 := db.Store(key, second, DB_INSERT);
    r3 := db.Fetch(key);
  }

  /** What is stored is fetched, and no other key is touched; once deleted the key is gone, and a
      second deletion and a replacement fail. */
  method StoreDelete(db: Db, key: string, data: string) returns (r1: Result, r2: Result, r3: Result, r4: Result, r5: Result)
    requires db.Valid() && ':' !in key && DATLEN_MIN <= |data| + 1 <= DATLEN_MAX
    requires db.Appends(key, |data| + 1, DB_STORE) ==> db.Room(key, |data| + 1)
    modifies db
    ensures db.Valid() && db.M() == old(db.M()) - {key}
    ensures r1 == Data(data) && r2 == Code(0, NoErr) && r3 == NoData && r4 == Code(-1, NoErr) && r5 == Code(-1, ENOENT)
  {
    hide Wf, IdxRepOf, DatRepOf, Settled, Contents, LineLen, FirstFit, Answer, Apply, Ruined, Unreadable, DataBlanked, Appended;
    var stored := db.Store(key, data, DB_STORE);
    r1 := db.Fetch(key);
    r2 := db.Delete(key);
    r3 := db.Fetch(key);
    r4 := db.Delete(key);
    r5 := db.Store(key, data, DB_REPLACE);
  }

  /** A key of one separator: the store answers 0, and its chain cannot be searched any more. */
  method StoreColon() returns (db: Db)
    ensures fresh(db) && Ruined(db.idx, ":")
  {
    hide Wf, IdxRepOf, DatRepOf, Settled, Contents, FirstFit, Ruined, Dec, Appended;
    db := new Db();
    OneDigit();
    var r := db.Store(":", "x", DB_INSERT);
    assert r == Code(0, NoErr);
  }

  lemma OneDigit()
    ensures |Dec(0)| == 1 == |Dec(2)|
  {
  }

  lemma NoPairs(pairs: seq<(string, string)>)
    requires forall k, v :: (k, v) !in pairs
    ensures pairs == []
  {
    var p := if pairs == [] then ("", "") else pairs[0];
    assert (p.0, p.1) !in pairs;
  }

  /** A key of one blank: it is there, and sequential reading does not show it. */
  method StoreBlank() returns (db: Db, pairs: seq<(string, string)>)
    ensures fresh(db) && db.Valid() && db.M() == map[" " := "x"] && pairs == []
  {
    hide Wf, IdxRepOf, DatRepOf, Settled, Contents, FirstFit, Ruined, Dec, Scan, Appended;
    db := new Db();
    OneDigit();
    var r := db.Store(" ", "x", DB_INSERT);
    pairs := db.ReadAll();
    assert forall k, v :: (k, v) !in pairs;
    NoPairs(pairs);
  }

  lemma Digits()
    ensures Dec(0) == "0" && Dec(3) == "3" && Dec(6) == "6" && Dec(967) == "967"
  {
    assert Dec(96) == Dec(9) + [Digit(6)];
    assert Dec(967) == Dec(96) + [Digit(7)];
  }

  lemma Fields()
    ensures Pad(PTR_SZ, 0) == "      0" && Pad(PTR_SZ, 967) == "    967" && Pad(IDXLEN_SZ, 6) == "   6"
    ensures LineLen("k", 0, 3) == 6 && Line(MakeBody("k", 0, 3)) == "k:0:3\n"
    ensures EncodeRec(0, MakeBody("k", 0, 3)) == "      0   6k:0:3\n"
  {
    Digits();
    hide Dec;
    assert Blanks(6) == "      " && Blanks(4) == "    " && Blanks(3) == "   ";
    assert EncodeRec(0, MakeBody("k", 0, 3)) == "      0" + "   6" + "k:0:3\n";
  }

  lemma KeyK()
    ensures ListOf("k") == 108 && Head(108) == 756
  {
    assert "k"[..0] == "";
    assert WeightedSum("k") == WeightedSum("") + Signed('k') * 1;
  }

  lemma NewBytes(idx0: string, idx: string, dat: string)
    requires idx0 == ZeroPtrs(NLISTS) + "\n" && Appended(idx0, "", idx, dat, "k", "ab")
    ensures dat == "ab\n" && |idx| == 984 && idx[756..763] == "    967" && idx[966..984] == "\n      0   6k:0:3\n"
    ensures forall c :: 0 <= c < 138 && c != 108 ==> idx[7 * c..7 * c + 7] == "      0"
  {
    hide Pad, ListOf, Atol, EncodeRec, LineLen, ZeroPtrs, WriteAt;
    KeyK();
    Fields();
    AtolPad(PTR_SZ, 0);
    ZeroAt(idx0, 108);
    var rec := EncodeRec(0, MakeBody("k", 0, 3));
    assert idx == WriteAt(idx0 + rec, 756, "    967") && |idx0| == 967;
    forall c | 0 <= c < 138 && c != 108
      ensures idx[7 * c..7 * c + 7] == "      0"
    {
      ZeroAt(idx0, c);
      assert idx[7 * c..7 * c + 7] == idx0[7 * c..7 * c + 7];
    }
    assert idx[966..984] == (idx0 + rec)[966..984] == "\n" + rec;
    assert idx[756..763] == "    967";
  }

  lemma ZeroAt(idx0: string, c: nat)
    requires idx0 == ZeroPtrs(NLISTS) + "\n" && c < NLISTS
    ensures |idx0| == 967 && 7 * c + 7 <= 966 && idx0[7 * c..7 * c + 7] == "      0" && idx0[966] == '\n'
  {
    Fields();
    hide Pad, ZeroPtrs, Line, LineLen, EncodeRec;
    ZeroPtrsWindow(NLISTS, c);
    assert idx0[7 * c..7 * c + 7] == ZeroPtrs(NLISTS)[7 * c..7 * c + 7];
  }

  /** The bytes of a new database after the key k has been stored with the data ab: the hash of k is
      its code, 107; its chain pointer, at 7 times 108, leads to the record at 967. */
  method FirstBytes() returns (db: Db)
    ensures fresh(db) && db.Valid() && db.M() == map["k" := "ab"]
    ensures db.dat == "ab\n"
    ensures |db.idx| == 984 && db.idx[756..763] == "    967" && db.idx[966..984] == "\n      0   6k:0:3\n"
    ensures forall c :: 0 <= c < 138 && c != 108 ==> db.idx[7 * c..7 * c + 7] == "      0"
  {
    hide Wf, IdxRepOf, DatRepOf, Settled, Contents, FirstFit, Ruined, Unreadable, DataBlanked, Appended, Dec, ZeroPtrs;
    db := new Db();
    ghost var idx0 := db.idx;
    Digits();
    NewAppends(db.img, db.g);
    var r := db.Store("k", "ab", DB_INSERT);
    NewBytes(idx0, db.idx, db.dat);
  }

  lemma NewAppends(img: Image, g: Lists)
    requires Wf(img) && Settled(img, g, {}) && img == EmptyImage && g == EmptyLists
    ensures g.chain != [] && FirstFit(img.body, g.chain[0], 1, 3) == |g.chain[0]|
  {
    hide Wf, Settled;
  }
}
