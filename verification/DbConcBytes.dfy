/** The steps of the processes on the bytes of the two files: each reads or writes one stretch of
    one file. */
module DbConcBytes {
  import opened Bytes
  import opened Options
  import opened DbFormat
  import opened DbImage
  import opened DbLists
  import opened DbSurgery
  import opened DbSpec
  import opened DbHistory
  import opened DbProcs
  import opened DbConcInv
  import opened DbConcSteps
  import opened DbConcWrites
  import opened DbConc
  import opened DbConcLive

  datatype FileWrite = NoWrite | IdxWrite(off: nat, bytes: string) | DatWrite(off: nat, bytes: string)

  /** What process p writes in its next step. */
  function WriteOf(s: Sys, p: nat): FileWrite
    requires p < |s.procs|
  {
    var op := s.procs[p].op;
    match s.procs[p].pc
    case OverDat(_, _, _, b) => if op.Store? then DatWrite(b.datoff, op.data + "\n") else NoWrite
    case DelBlank(_, _, _, b, _) => if b.datlen > 0 then DatWrite(b.datoff, Blanks(b.datlen - 1) + "\n") else NoWrite
    case DelWriteIdx(_, o, b, _, freeptr) => IdxWrite(o, EncodeRec(freeptr, BlankBody(b)))
    case DelWriteFree(_, o, _) => IdxWrite(FREE_OFF, Pad(PTR_SZ, o))
    case DelBypass(ptroff, saveptr) => IdxWrite(ptroff, Pad(PTR_SZ, saveptr))
    case FreeTake(_, _, saveoff, _, _, next) => IdxWrite(saveoff, Pad(PTR_SZ, next))
    case ReuseDat(_, _, b) => if op.Store? then DatWrite(b.datoff, op.data + "\n") else NoWrite
    case ReuseIdx(ptrval, o, b) => IdxWrite(o, EncodeRec(ptrval, MakeBody(op.key, b.datoff, b.datlen)))
    case AppDat(_) => if op.Store? then DatWrite(s.img.datEnd, op.data + "\n") else NoWrite
    case AppIdx(ptrval, d) =>
      if op.Store? then IdxWrite(s.img.idxEnd, EncodeRec(ptrval, MakeBody(op.key, d, |op.data| + 1))) else NoWrite
    case Link(o) => IdxWrite(Head(List(op)), Pad(PTR_SZ, o))
    case _ => NoWrite
  }

  function IdxAfter(idx: string, w: FileWrite): string {
    if w.IdxWrite? && w.off <= |idx| then WriteAt(idx, w.off, w.bytes) else idx
  }

  function DatAfter(dat: string, w: FileWrite): string {
    if w.DatWrite? && w.off <= |dat| then WriteAt(dat, w.off, w.bytes) else dat
  }

  ghost predicate OnFiles(s: Sys, idx: string, dat: string) { IdxRep(idx, s.img) && DatRep(dat, s.img) }

  lemma WritesDat(s: Sys, s': Sys, p: nat, idx: string, dat: string, d: nat, data: string)
    requires p < |s.procs| && Files(s) && OnFiles(s, idx, dat) && d in s.img.ext && |data| == |s.img.ext[d]|
    requires WriteOf(s, p) == DatWrite(d, data + "\n") && s'.img == PutExt(s.img, d, data)
    ensures OnFiles(s', IdxAfter(idx, WriteOf(s, p)), DatAfter(dat, WriteOf(s, p)))
  {
    hide WriteOf, IdxRepOf, DatRepOf, Wf, Struct, ExtentsOwned;
    PutExtRep(dat, s.img, d, data);
  }

  lemma WritesPtr(s: Sys, s': Sys, p: nat, idx: string, dat: string, l: nat, v: nat)
    requires p < |s.procs| && Files(s) && OnFiles(s, idx, dat) && l in s.img.ptr && v <= PTR_MAX
    requires WriteOf(s, p) == IdxWrite(l, Pad(PTR_SZ, v)) && s'.img == SetPtr(s.img, l, v)
    ensures OnFiles(s', IdxAfter(idx, WriteOf(s, p)), DatAfter(dat, WriteOf(s, p)))
  {
    hide WriteOf, IdxRepOf, DatRepOf, Wf, Struct, ExtentsOwned, Pad;
    SetPtrRep(idx, s.img, l, v);
  }

  lemma WritesRec(s: Sys, s': Sys, p: nat, idx: string, dat: string, o: nat, v: nat, b: Body)
    requires p < |s.procs| && Files(s) && OnFiles(s, idx, dat) && o in s.img.body && v <= PTR_MAX
    requires SameShape(s.img.body[o], b) && BodyOk(b)
    requires WriteOf(s, p) == IdxWrite(o, EncodeRec(v, b)) && s'.img == PutRec(s.img, o, v, b)
    ensures OnFiles(s', IdxAfter(idx, WriteOf(s, p)), DatAfter(dat, WriteOf(s, p)))
  {
    hide WriteOf, IdxRepOf, DatRepOf, Wf, Struct, ExtentsOwned, EncodeRec, BodyOk;
    PutRecRep(idx, s.img, o, v, b);
  }

  ghost predicate WritesOnly(s: Sys, s': Sys, p: nat, idx: string, dat: string)
    requires p < |s.procs|
  {
    OnFiles(s', IdxAfter(idx, WriteOf(s, p)), DatAfter(dat, WriteOf(s, p)))
  }

  lemma OverDatWrites(s: Sys, s': Sys, p: nat, idx: string, dat: string)
    requires Inv(s) && p < |s.procs| && OnFiles(s, idx, dat) && StepOverDat(s, s', p)
    ensures WritesOnly(s, s', p, idx, dat)
  {
    hide Inv, Local, Files, MapOk, Open, FoundAt, OnFiles, Linearizable, CallOkToMake, M, TakeEffect;
    LocalOf(s, p);
    OverFacts(s, p);
    var pc, op := s.procs[p].pc, s.procs[p].op;
    FoundKey(s, op, pc.i, pc.ptroff, pc.o, pc.b);
    WritesDat(s, s', p, idx, dat, pc.b.datoff, op.data);
  }

  lemma DelBlankWrites(s: Sys, s': Sys, p: nat, idx: string, dat: string)
    requires Inv(s) && p < |s.procs| && OnFiles(s, idx, dat) && StepDelBlank(s, s', p)
    ensures WritesOnly(s, s', p, idx, dat)
  {
    hide Inv, Local, Files, MapOk, Open, FoundAt, OnFiles, Linearizable, CallOkToMake, M, TakeEffect, Remove;
    LocalOf(s, p);
    DelBlankFacts(s, p);
    var pc, op := s.procs[p].pc, s.procs[p].op;
    FoundKey(s, op, pc.i, pc.ptroff, pc.o, pc.b);
    WritesDat(s, s', p, idx, dat, pc.b.datoff, Blanks(pc.b.datlen - 1));
  }

  lemma DelWriteIdxWrites(s: Sys, s': Sys, p: nat, idx: string, dat: string)
    requires Inv(s) && p < |s.procs| && OnFiles(s, idx, dat) && StepDelWriteIdx(s, s', p)
    ensures WritesOnly(s, s', p, idx, dat)
  {
    hide Inv, Local, Files, MapOk, OnFiles, Linearizable, BodyOk, BlankBody, EncodeRec;
    LocalOf(s, p);
    DelWriteIdxFacts(s, p);
    var pc := s.procs[p].pc;
    BlankBodyIs(pc.b);
    WritesRec(s, s', p, idx, dat, pc.o, pc.freeptr, BlankBody(pc.b));
  }

  lemma FreeTakeWrites(s: Sys, s': Sys, p: nat, idx: string, dat: string)
    requires Inv(s) && p < |s.procs| && OnFiles(s, idx, dat)
    requires StepDelWriteFree(s, s', p) || StepFreeTake(s, s', p)
    ensures WritesOnly(s, s', p, idx, dat)
  {
    hide Inv, Local, Files, MapOk, OnFiles, Linearizable, Pad, Push, Remove, HasFree;
    LocalOf(s, p);
    var pc := s.procs[p].pc;
    if pc.DelWriteFree? {
      DelWriteFreeFacts(s, p);
      WritesPtr(s, s', p, idx, dat, FREE_OFF, pc.o);
    } else {
      FreeTakeFacts(s, p);
      WritesPtr(s, s', p, idx, dat, pc.saveoff, pc.next);
    }
  }

  lemma ChainWrites(s: Sys, s': Sys, p: nat, idx: string, dat: string)
    requires Inv(s) && p < |s.procs| && OnFiles(s, idx, dat)
    requires StepDelBypass(s, s', p) || StepLink(s, s', p)
    ensures WritesOnly(s, s', p, idx, dat)
  {
    hide Inv, Local, Files, MapOk, OnFiles, Linearizable, Pad, Push, BypassAt, ReadyToLink, StoreOpen, Open, List,
      CallOkToMake, TakeEffect;
    LocalOf(s, p);
    var pc, op := s.procs[p].pc, s.procs[p].op;
    if pc.DelBypass? {
      DelBypassFacts(s, p);
      BypassAtMeans(s, op, pc.ptroff, pc.saveptr);
      WritesPtr(s, s', p, idx, dat, pc.ptroff, pc.saveptr);
    } else {
      LinkFacts(s, p);
      assert pc.o <= PTR_MAX by { ReadyBound(s, p, op, pc.o); }
      WritesPtr(s, s', p, idx, dat, Head(List(op)), pc.o);
    }
  }

  lemma ReadyBound(s: Sys, p: nat, op: Op, o: nat)
    requires ReadyToLink(s, p, op, o)
    ensures o <= PTR_MAX
  {
  }

  lemma ReuseWrites(s: Sys, s': Sys, p: nat, idx: string, dat: string)
    requires Inv(s) && p < |s.procs| && OnFiles(s, idx, dat)
    requires StepReuseDat(s, s', p) || StepReuseIdx(s, s', p)
    ensures WritesOnly(s, s', p, idx, dat)
  {
    hide Inv, Local, Files, MapOk, OnFiles, Linearizable, BodyOk, EncodeRec, LineLen;
    LocalOf(s, p);
    ReuseFacts(s, p);
    var pc, op := s.procs[p].pc, s.procs[p].op;
    RecordExtent(s, pc.o);
    if pc.ReuseDat? {
      WritesDat(s, s', p, idx, dat, pc.b.datoff, op.data);
    } else {
      SameShapeSize(pc.b, op.key);
      WritesRec(s, s', p, idx, dat, pc.o, pc.ptrval, MakeBody(op.key, pc.b.datoff, pc.b.datlen));
    }
  }

  lemma RecordExtent(s: Sys, o: nat)
    requires Files(s) && o in s.img.body
    ensures s.img.body[o].datoff in s.img.ext
    ensures |s.img.ext[s.img.body[o].datoff]| + 1 == s.img.body[o].datlen
  {
    hide Wf, Struct, ExtentsOwned;
    WfPtr(s.img, o);
  }

  lemma AppDatWrites(s: Sys, s': Sys, p: nat, idx: string, dat: string)
    requires Inv(s) && p < |s.procs| && OnFiles(s, idx, dat) && StepAppDat(s, s', p)
    ensures WritesOnly(s, s', p, idx, dat)
  {
    hide Inv, Local, MapOk, IdxRepOf, Linearizable, Wf, Struct, ExtentsOwned, ExtInFile;
    LocalOf(s, p);
    AppFacts(s, p);
    AppendExtRep(dat, s.img, s.procs[p].op.data);
  }

  lemma PendingFresh(s: Sys, p: nat, op: Op, d: nat)
    requires Files(s) && PendingExt(s, p, op, d)
    ensures FreshExtent(s.img, d, |op.data| + 1)
  {
    hide Wf, Struct, ExtUsed;
  }

  lemma AppIdxWrites(s: Sys, s': Sys, p: nat, idx: string, dat: string)
    requires Inv(s) && p < |s.procs| && OnFiles(s, idx, dat) && StepAppIdx(s, s', p)
    ensures WritesOnly(s, s', p, idx, dat)
  {
    hide Inv, Local, MapOk, DatRepOf, Linearizable, Wf, Files, BodyOk, EncodeRec, PendingExt, CallOkToMake, LineLen,
      FreshExtent, Window, Pad, RecTail, InCall;
    LocalOf(s, p);
    AppFacts(s, p);
    var pc, op := s.procs[p].pc, s.procs[p].op;
    AppBodyOk(s, op, pc.d);
    PendingFresh(s, p, op, pc.d);
    FilesWf(s);
    AppendRecRep(idx, s.img, pc.ptrval, MakeBody(op.key, pc.d, |op.data| + 1));
  }

  predicate NoWriting(s: Sys, s': Sys, p: nat)
    requires p < |s.procs|
  {
    s'.img == s.img && WriteOf(s, p) == NoWrite
  }

  lemma QuietSearch(s: Sys, s': Sys, p: nat)
    requires p < |s.procs| && SearchStep(s, s', p)
    ensures StepOverDat(s, s', p) || NoWriting(s, s', p)
  {
    hide TakeEffect, List, Grantable, PutExt, Pad, EncodeRec, Blanks, MakeBody, BlankBody;
  }

  lemma QuietDelete(s: Sys, s': Sys, p: nat)
    requires p < |s.procs| && DeleteStep(s, s', p)
    ensures StepDelBlank(s, s', p) || StepDelWriteIdx(s, s', p) || StepDelWriteFree(s, s', p) || StepDelBypass(s, s', p)
      || NoWriting(s, s', p)
  {
    hide TakeEffect, List, Grantable, StepDelBlank, StepDelWriteIdx, StepDelWriteFree, StepDelBypass, Pad, EncodeRec,
      Blanks, MakeBody, BlankBody;
  }

  lemma QuietReuse(s: Sys, s': Sys, p: nat)
    requires p < |s.procs| && ReuseStep(s, s', p)
    ensures StepFreeTake(s, s', p) || StepReuseDat(s, s', p) || StepReuseIdx(s, s', p) || NoWriting(s, s', p)
  {
    hide List, Grantable, StepFreeTake, StepReuseDat, StepReuseIdx, Pad, EncodeRec, Blanks, MakeBody, BlankBody;
  }

  lemma QuietAppend(s: Sys, s': Sys, p: nat)
    requires p < |s.procs| && AppendStep(s, s', p)
    ensures StepAppDat(s, s', p) || StepAppIdx(s, s', p) || StepLink(s, s', p) || NoWriting(s, s', p)
  {
    hide List, Grantable, StepAppDat, StepAppIdx, StepLink, Pad, EncodeRec, Blanks, MakeBody, BlankBody;
  }

  lemma QuietCall(s: Sys, s': Sys, p: nat)
    requires p < |s.procs| && (NextRecStep(s, s', p) || NewCall(s, s', p))
    ensures NoWriting(s, s', p)
  {
    hide Grantable, CallOkToMake, Begin, Pad, EncodeRec, Blanks, MakeBody, BlankBody, List;
  }

  /** A step changes at most one stretch of one file, with one write: afterwards the files are the
      old ones with those bytes written, and represent the new state. */
  lemma StepWrites(s: Sys, s': Sys, p: nat, idx: string, dat: string)
    requires Inv(s) && Moves(s, s', p) && OnFiles(s, idx, dat)
    ensures OnFiles(s', IdxAfter(idx, WriteOf(s, p)), DatAfter(dat, WriteOf(s, p)))
  {
    hide Inv, OnFiles, SearchStep, DeleteStep, ReuseStep, AppendStep, NextRecStep, NewCall, IdxAfter, DatAfter, WriteOf,
      StepOverDat, StepDelBlank, StepDelWriteIdx, StepDelWriteFree, StepDelBypass, StepFreeTake, StepReuseDat,
      StepReuseIdx, StepAppDat, StepAppIdx, StepLink;
    if SearchStep(s, s', p) { QuietSearch(s, s', p); }
    else if DeleteStep(s, s', p) { QuietDelete(s, s', p); }
    else if ReuseStep(s, s', p) { QuietReuse(s, s', p); }
    else if AppendStep(s, s', p) { QuietAppend(s, s', p); }
    else { QuietCall(s, s', p); }
    if NoWriting(s, s', p) { SameFiles(s, s', idx, dat); NoWriteSame(idx, dat); }
    else if StepOverDat(s, s', p) { OverDatWrites(s, s', p, idx, dat); }
    else if StepDelBlank(s, s', p) { DelBlankWrites(s, s', p, idx, dat); }
    else if StepDelWriteIdx(s, s', p) { DelWriteIdxWrites(s, s', p, idx, dat); }
    else if StepDelWriteFree(s, s', p) || StepFreeTake(s, s', p) { FreeTakeWrites(s, s', p, idx, dat); }
    else if StepDelBypass(s, s', p) || StepLink(s, s', p) { ChainWrites(s, s', p, idx, dat); }
    else if StepReuseDat(s, s', p) || StepReuseIdx(s, s', p) { ReuseWrites(s, s', p, idx, dat); }
    else if StepAppDat(s, s', p) { AppDatWrites(s, s', p, idx, dat); }
    else { AppIdxWrites(s, s', p, idx, dat); }
  }

  lemma NoWriteSame(idx: string, dat: string)
    ensures IdxAfter(idx, NoWrite) == idx && DatAfter(dat, NoWrite) == dat
  {
  }

  lemma SameFiles(s: Sys, s': Sys, idx: string, dat: string)
    ensures s'.img == s.img && OnFiles(s, idx, dat) ==> OnFiles(s', idx, dat)
  {
  }

  /** The bytes of a record that a process is about to read parse as the record its step uses. */
  lemma StepReads(s: Sys, p: nat, idx: string, dat: string, o: nat)
    requires Inv(s) && p < |s.procs| && OnFiles(s, idx, dat) && o != 0
    requires s.procs[p].pc.Scanning? || s.procs[p].pc.FreeScan?
    requires o == s.procs[p].pc.off
    ensures o in s.img.body && o in s.img.ptr && o + RecSize(s.img.body[o]) <= |idx|
    ensures Atol(idx[o..o + PTR_SZ]) == s.img.ptr[o]
    ensures Atol(idx[o + PTR_SZ..o + HDR_SZ]) == s.img.body[o].idxlen
    ensures ParseLine(idx[o + HDR_SZ..o + RecSize(s.img.body[o])]) == Some(s.img.body[o])
  {
    hide Inv, Files, MapOk, Linearizable, IdxRepOf, DatRepOf, Atol, ParseLine, RecSize, Wf, List, Open;
    LocalOf(s, p);
    assert Wf(s.img) by { FilesWf(s); }
    if s.procs[p].pc.Scanning? {
      ReadListLoc(s, p, List(s.procs[p].op), s.procs[p].pc.i);
      RecordThere(s, o);
    } else {
      FreeRecordThere(s, p);
    }
    ReadRecRep(idx, s.img, o);
    ReadPtrRep(idx, s.img, o);
  }

  lemma FilesWf(s: Sys)
    requires Files(s)
    ensures Wf(s.img)
  {
    hide Wf, Struct, ExtentsOwned;
  }

  /** The data a fetch is about to read is what the map holds for its key. */
  lemma FetchReads(s: Sys, p: nat, idx: string, dat: string)
    requires Inv(s) && p < |s.procs| && OnFiles(s, idx, dat) && s.procs[p].pc.FetchDat?
    ensures var b := s.procs[p].pc.b;
      && s.procs[p].op.key in M(s) && b.datoff + b.datlen <= |dat|
      && dat[b.datoff..b.datoff + b.datlen] == M(s)[s.procs[p].op.key] + "\n"
  {
    hide Inv, Files, MapOk, Linearizable, IdxRepOf, DatRepOf, Wf, List, Open, FoundAt, M;
    LocalOf(s, p);
    FilesWf(s);
    var pc := s.procs[p].pc;
    FoundKey(s, s.procs[p].op, pc.i, pc.ptroff, pc.o, pc.b);
    ReadDatRep(dat, s.img, pc.b.datoff);
  }

  /** The bytes of a pointer that a process is about to read are the pointer its step uses. */
  lemma PointerReads(s: Sys, p: nat, idx: string, dat: string)
    requires Inv(s) && p < |s.procs| && OnFiles(s, idx, dat)
    requires var pc := s.procs[p].pc; pc.ReadHead? || pc.NewReadHead? || pc.DelReadFree? || pc.FreeReadHead?
    ensures var pc := s.procs[p].pc;
      var o := if pc.DelReadFree? || pc.FreeReadHead? then FREE_OFF else Head(List(s.procs[p].op));
      o in s.img.ptr && o + PTR_SZ <= |idx| && Atol(idx[o..o + PTR_SZ]) == s.img.ptr[o]
  {
    hide Local, Files, MapOk, Linearizable, IdxRepOf, DatRepOf, Atol, Wf, Duties, LockTable, Exclusive, DistinctTickets;
    FilesWf(s);
    var pc := s.procs[p].pc;
    var c := if pc.DelReadFree? || pc.FreeReadHead? then 0 else List(s.procs[p].op);
    HeadThere(s.img, c);
    ReadPtrRep(idx, s.img, Head(c));
  }

  lemma HeadThere(img: Image, c: nat)
    requires Wf(img) && c < NLISTS
    ensures Head(c) in img.ptr
  {
    hide RecordsTile, ExtentsTile, LinesOk, RecordsOwnExtents;
  }

  // ---- whole runs -----------------------------------------------------------

  /** movers says which process takes each step of the run. */
  ghost predicate Schedule(r: seq<Sys>, movers: seq<nat>) {
    |movers| == |r| - 1 && forall i :: 0 <= i < |movers| ==> Moves(r[i], r[i + 1], movers[i])
  }

  lemma {:induction false} HasSchedule(r: seq<Sys>) returns (movers: seq<nat>)
    requires Run(r)
    ensures Schedule(r, movers)
  {
    hide Moves, Init;
    movers := [];
    var i := 0;
    while i < |r| - 1
      invariant 0 <= i <= |r| - 1 && |movers| == i && forall k :: 0 <= k < i ==> Moves(r[k], r[k + 1], movers[k])
    {
      assert Next(r[i], r[i + 1]);
      var p :| Moves(r[i], r[i + 1], p);
      assert p >= 0 by { MoverIs(r[i], r[i + 1], p); }
      movers := movers + [p];
      i := i + 1;
    }
  }

  lemma MoverIs(s: Sys, s': Sys, p: nat)
    requires Moves(s, s', p)
    ensures p < |s.procs|
  {
  }

  /** The two files after i steps: those of a fresh database, with the write of each step made. */
  function FilesAfter(r: seq<Sys>, movers: seq<nat>, i: nat): (string, string)
    requires i <= |movers| <= |r| && forall k :: 0 <= k < |movers| ==> movers[k] < |r[k].procs|
  {
    if i == 0 then (ZeroPtrs(NLISTS) + "\n", "")
    else
      var f, w := FilesAfter(r, movers, i - 1), WriteOf(r[i - 1], movers[i - 1]);
      (IdxAfter(f.0, w), DatAfter(f.1, w))
  }

  lemma MoversIn(r: seq<Sys>, movers: seq<nat>)
    requires Schedule(r, movers)
    ensures |movers| <= |r| && forall k :: 0 <= k < |movers| ==> movers[k] < |r[k].procs|
  {
    hide Proceed, NewCall;
    forall k | 0 <= k < |movers| ensures movers[k] < |r[k].procs| { assert Moves(r[k], r[k + 1], movers[k]); }
  }

  /** At every point of every run the files, written as the steps say, represent the state. */
  lemma {:induction false} RunBytes(r: seq<Sys>, movers: seq<nat>, i: nat)
    requires Run(r) && Schedule(r, movers) && i < |r|
    ensures |movers| <= |r| && i <= |movers| && forall k :: 0 <= k < |movers| ==> movers[k] < |r[k].procs|
    ensures var f := FilesAfter(r, movers, i); OnFiles(r[i], f.0, f.1)
  {
    hide Inv, Moves, Next, OnFiles, WriteOf, IdxAfter, DatAfter;
    MoversIn(r, movers);
    if i == 0 {
      StartBytes(r[0]);
    } else {
      RunBytes(r, movers, i - 1);
      RunInv(r, i - 1);
      var f := FilesAfter(r, movers, i - 1);
      assert Moves(r[i - 1], r[i - 1 + 1], movers[i - 1]);
      StepWrites(r[i - 1], r[i], movers[i - 1], f.0, f.1);
    }
  }

  lemma StartBytes(s: Sys)
    requires Init(s)
    ensures OnFiles(s, ZeroPtrs(NLISTS) + "\n", "")
  {
    hide ZeroPtrs;
    InitRep();
  }

  /** Whenever a run comes to rest, the files written by it are those of a sound database with the
      map that the calls, in their order, built: all that the handle asks of a database it opens. */
  lemma RestBytes(r: seq<Sys>, movers: seq<nat>, i: nat)
    requires Run(r) && Schedule(r, movers) && i < |r| && AtRest(r[i])
    ensures |movers| <= |r| && i <= |movers| && forall k :: 0 <= k < |movers| ==> movers[k] < |r[k].procs|
    ensures var (idx, dat) := FilesAfter(r, movers, i);
      && Wf(r[i].img) && IdxRep(idx, r[i].img) && DatRep(dat, r[i].img) && Settled(r[i].img, r[i].g, {})
      && Contents(r[i].img, r[i].g) == ApplyAll(map[], r[i].h.ops)
  {
    hide Run, Schedule, AtRest, Wf, IdxRepOf, DatRepOf, Settled, Contents, ApplyAll, FilesAfter;
    RunBytes(r, movers, i);
    RestIsSound(r, i);
  }
}
