/** Waiting: no run ever deadlocks, and whatever a process reads next is there to be read. */
module DbConcLive {
  import opened Options
  import opened DbFormat
  import opened DbImage
  import opened DbLists
  import opened DbSurgery
  import opened DbSpec
  import opened DbHistory
  import opened DbProcs
  import opened DbConcInv
  import opened DbConcSteps
  import opened DbConc

  /** The lock the process is about to ask for. */
  function Wants(pr: Proc): Option<(Region, bool)> {
    match pr.pc
    case WantChain => Some((ChainLock(List(pr.op)), Writing(pr.op)))
    case DelWantFree(_, _, _, _, _) => Some((FreeLock, true))
    case NewWantFree(_) => Some((FreeLock, true))
    case AppWantDat(_) => Some((DatAppendLock, true))
    case AppWantIdx(_, _) => Some((IdxAppendLock, true))
    case NrWantFree => Some((FreeLock, false))
    case _ => None
  }

  /** p is kept waiting by a lock that q holds. */
  ghost predicate WaitsFor(s: Sys, p: nat, q: nat) {
    && p < |s.procs| && q < |s.procs| && p != q && Wants(s.procs[p]).Some?
    && exists l :: l in s.locks && l.pid == q && Overlap(l.region, Wants(s.procs[p]).value.0)
                   && (l.write || Wants(s.procs[p]).value.1)
  }

  /** 0 before the chain lock, 1 before the free-list or an append lock, 2 otherwise. */
  function Level(pr: Proc): nat {
    if pr.pc.WantChain? then 0
    else if Wants(pr).Some? then 1
    else 2
  }

  lemma LockHeld(s: Sys, l: Lock)
    requires LockTable(s) && l in s.locks
    ensures l.pid < |s.procs| && HoldsRegion(s.procs[l.pid], l.region, l.write) && LegalRegion(l.region)
  {
  }

  /** Whoever keeps p waiting is further on than p. */
  lemma WaitsUp(s: Sys, p: nat, q: nat)
    requires LockTable(s) && WaitsFor(s, p, q)
    ensures Level(s.procs[p]) < Level(s.procs[q])
  {
    hide LockTable, Overlap, List;
    var want := Wants(s.procs[p]).value;
    var l :| l in s.locks && l.pid == q && Overlap(l.region, want.0) && (l.write || want.1);
    LockHeld(s, l);
    RegionsDisjoint(l.region, want.0);
  }

  lemma {:induction false} WaitChain(s: Sys, w: seq<nat>)
    requires LockTable(s) && |w| > 0
    requires forall i :: 0 <= i < |w| - 1 ==> WaitsFor(s, w[i], w[i + 1])
    requires w[0] < |s.procs| && w[|w| - 1] < |s.procs|
    ensures |w| > 1 ==> Level(s.procs[w[0]]) < Level(s.procs[w[|w| - 1]])
  {
    hide LockTable, Level;
    if |w| > 1 {
      var n := |w| - 1;
      assert WaitsFor(s, w[n - 1], w[n - 1 + 1]);
      WaitsUp(s, w[n - 1], w[n]);
      WaitChain(s, w[..n]);
    }
  }

  /** No set of processes ever waits for one another in a circle. */
  lemma NoWaitCycle(r: seq<Sys>, i: nat, w: seq<nat>)
    requires Run(r) && i < |r| && |w| > 1
    requires forall j :: 0 <= j < |w| - 1 ==> WaitsFor(r[i], w[j], w[j + 1])
    ensures w[|w| - 1] != w[0]
  {
    hide Linearizable, Run, LockTable, Exclusive, Files, MapOk, Duties, DistinctTickets, Local, Level, WaitsFor;
    RunInv(r, i);
    assert WaitsFor(r[i], w[0], w[0 + 1]) && WaitsFor(r[i], w[|w| - 2], w[|w| - 2 + 1]);
    WaitEnds(r[i], w[0], w[1]);
    WaitEnds(r[i], w[|w| - 2], w[|w| - 1]);
    WaitChain(r[i], w);
  }

  lemma WaitEnds(s: Sys, p: nat, q: nat)
    requires WaitsFor(s, p, q)
    ensures p < |s.procs| && q < |s.procs|
  {
  }

  ghost predicate Kept(s: Sys, p: nat) { exists q :: WaitsFor(s, p, q) }

  lemma NotKept(s: Sys, p: nat)
    requires LockTable(s) && p < |s.procs| && !Kept(s, p)
    ensures var w := Wants(s.procs[p]); w.Some? ==> Grantable(s.locks, p, w.value.0, w.value.1)
  {
    hide LockTable, Overlap, List, Wants;
    var w := Wants(s.procs[p]);
    if w.Some? {
      forall l | l in s.locks && l.pid != p && Overlap(l.region, w.value.0)
        ensures !l.write && !w.value.1
      {
        LockHeld(s, l);
        assert !WaitsFor(s, p, l.pid);
      }
    }
  }

  lemma KeptUp(s: Sys, p: nat) returns (q: nat)
    requires LockTable(s) && Kept(s, p)
    ensures p < |s.procs| && q < |s.procs| && Level(s.procs[p]) < Level(s.procs[q]) && s.procs[q].pc != Idle
  {
    hide LockTable, Overlap, Level;
    q :| WaitsFor(s, p, q);
    WaitsUp(s, p, q);
    var l :| l in s.locks && l.pid == q;
    LockHeld(s, l);
    HolderNotIdle(s.procs[q], l.region, l.write);
  }

  lemma HolderNotIdle(pr: Proc, r: Region, w: bool)
    requires HoldsRegion(pr, r, w)
    ensures pr.pc != Idle
  {
  }

  /** As long as some process is in a call, one of them is not kept waiting. */
  lemma {:induction false} SomeoneNotKept(s: Sys, p: nat) returns (q: nat)
    requires LockTable(s) && p < |s.procs| && s.procs[p].pc != Idle
    ensures q < |s.procs| && s.procs[q].pc != Idle && !Kept(s, q)
    decreases 2 - Level(s.procs[p])
  {
    hide LockTable, Kept;
    q := p;
    if Kept(s, p) {
      q := KeptUp(s, p);
      q := SomeoneNotKept(s, q);
    }
  }

  // ---- a process that is not kept waiting can go on -------------------------

  ghost predicate Granted(s: Sys, p: nat)
    requires p < |s.procs|
  {
    var w := Wants(s.procs[p]);
    w.Some? ==> Grantable(s.locks, p, w.value.0, w.value.1)
  }

  ghost predicate CanGo(s: Sys, p: nat)
    requires p < |s.procs|
  {
    exists s' :: Proceed(s, s', p)
  }

  lemma OpenTicket(h: History, t: nat, op: Op)
    requires Open(h, t, op)
    ensures t < |h.calls|
  {
  }

  lemma EffectiveTicket(h: History, t: nat, r: Result)
    requires Effective(h, t, r)
    ensures t < |h.calls|
  {
  }

  lemma HeadThere(s: Sys, c: nat)
    requires Files(s) && c < NLISTS
    ensures Head(c) in s.img.ptr
  {
    hide RecordsTile, ExtentsTile, LinesOk, RecordsOwnExtents, Struct, ExtentsOwned;
  }

  lemma RecordThere(s: Sys, o: nat)
    requires Files(s) && o in s.img.body
    ensures o in s.img.ptr
  {
    hide RecordsTile, ExtentsTile, LinesOk, RecordsOwnExtents, Struct, ExtentsOwned;
  }

  lemma GoSearch(s: Sys, p: nat) returns (s': Sys)
    requires Inv(s) && p < |s.procs| && Granted(s, p)
    requires var pc := s.procs[p].pc;
      pc.WantChain? || pc.ReadHead? || pc.FetchDat? || pc.OverDat? || pc.Unlock?
    ensures SearchStep(s, s', p)
  {
    hide Inv, Files, MapOk, Linearizable, Open, Effective, FoundAt, CallOkToMake, List, Grantable, StepScanNext,
      StepScanHit, StepScanMiss, TakeEffect;
    LocalOf(s, p);
    var pr := s.procs[p];
    var pc, op, t := pr.pc, pr.op, pr.ticket;
    if pc.WantChain? {
      s' := Take(s, p, ChainLock(List(op)), Writing(op), ReadHead);
      assert StepLockChain(s, s', p);
    } else if pc.ReadHead? {
      HeadThere(s, List(op));
      s' := Put(s, p, Scanning(0, Head(List(op)), s.img.ptr[Head(List(op))]));
      assert StepReadHead(s, s', p);
    } else if pc.FetchDat? {
      OpenTicket(s.h, t, op);
      FoundKey(s, op, pc.i, pc.ptroff, pc.o, pc.b);
      s' := Effect(s, p, Data(s.img.ext[pc.b.datoff]));
      assert StepFetchDat(s, s', p);
    } else if pc.OverDat? {
      OpenTicket(s.h, t, op);
      s' := Effect(s, p, Code(0, NoErr)).(img := PutExt(s.img, pc.b.datoff, op.data));
      assert StepOverDat(s, s', p);
    } else {
      EffectiveTicket(s.h, t, pc.r);
      s' := Drop(s, p, ChainLock(List(op)), Writing(op), Idle).(h := End(s.h, t, pc.r));
      assert StepReturn(s, s', p);
    }
  }

  lemma GoScan(s: Sys, p: nat) returns (s': Sys)
    requires Inv(s) && p < |s.procs| && s.procs[p].pc.Scanning?
    ensures SearchStep(s, s', p)
  {
    hide Inv, Files, MapOk, Linearizable, Open, CallOkToMake, List, StepLockChain, StepReadHead, StepFetchDat,
      StepOverDat, StepReturn, TakeEffect;
    LocalOf(s, p);
    var pr := s.procs[p];
    var pc, op := pr.pc, pr.op;
    OpenTicket(s.h, pr.ticket, op);
    if pc.off != 0 {
      ReadListLoc(s, p, List(op), pc.i);
      RecordThere(s, pc.off);
      var b, v := s.img.body[pc.off], s.img.ptr[pc.off];
      if b.key != op.key {
        s' := Put(s, p, Scanning(pc.i + 1, pc.off, v));
      assert StepScanNext(s, s', p);
      } else {
        s' := match op
          case Fetch(_) => Put(s, p, FetchDat(pc.i, pc.ptroff, pc.off, b))
          case Delete(_) => Put(s, p, DelWantFree(pc.i, pc.ptroff, pc.off, b, v))
          case Store(_, data, flag) =>
            if flag == DB_INSERT then Effect(s, p, Code(1, NoErr))
            else if |data| + 1 != b.datlen then Put(s, p, DelWantFree(pc.i, pc.ptroff, pc.off, b, v))
            else Put(s, p, OverDat(pc.i, pc.ptroff, pc.off, b));
        assert StepScanHit(s, s', p);
      }
    } else {
      s' := match op
        case Fetch(_) => Effect(s, p, NoData)
        case Delete(_) => Effect(s, p, Code(-1, NoErr))
        case Store(_, _, flag) =>
          if flag == DB_REPLACE then Effect(s, p, Code(-1, ENOENT)) else Put(s, p, NewReadHead(false));
      assert StepScanMiss(s, s', p);
    }
  }

  lemma GoBlank(s: Sys, p: nat) returns (s': Sys)
    requires Inv(s) && p < |s.procs| && s.procs[p].pc.DelBlank?
    ensures DeleteStep(s, s', p)
  {
    hide Inv, Files, MapOk, Linearizable, Open, CallOkToMake, List, TakeEffect, StepDelLock, StepDelReadFree,
      StepDelWriteIdx, StepDelWriteFree, StepDelBypass, StepDelDrop, Remove, PutExt, M;
    LocalOf(s, p);
    var pr := s.procs[p];
    var pc, op := pr.pc, pr.op;
    OpenTicket(s.h, pr.ticket, op);
    FoundKey(s, op, pc.i, pc.ptroff, pc.o, pc.b);
    s' := Put(s, p, DelReadFree(pc.ptroff, pc.o, pc.b, pc.saveptr)).(
      img := PutExt(s.img, pc.b.datoff, Blanks(pc.b.datlen - 1)),
      g := Remove(s.g, List(op), pc.i, p, op.key),
      bypass := s.bypass[pc.ptroff := pc.saveptr],
      gap := if op.Store? then s.gap[op.key := p] else s.gap,
      h := if op.Store? then s.h else TakeEffect(s.h, pr.ticket));
    assert StepDelBlank(s, s', p);
  }

  lemma GoDelete(s: Sys, p: nat) returns (s': Sys)
    requires Inv(s) && p < |s.procs| && Granted(s, p)
    requires var pc := s.procs[p].pc;
      || pc.DelWantFree? || pc.DelReadFree? || pc.DelWriteIdx? || pc.DelWriteFree? || pc.DelBypass?
      || pc.DelDropFree?
    ensures DeleteStep(s, s', p)
  {
    hide Inv, Local, Files, MapOk, Linearizable, CallOkToMake, List, Grantable, StepDelBlank, PutRec, SetPtr, Push;
    LocalOf(s, p);
    var pc := s.procs[p].pc;
    if pc.DelWantFree? {
      s' := Take(s, p, FreeLock, true, DelBlank(pc.i, pc.ptroff, pc.o, pc.b, pc.saveptr));
      assert StepDelLock(s, s', p);
    } else if pc.DelReadFree? {
      HeadThere(s, 0);
      s' := Put(s, p, DelWriteIdx(pc.ptroff, pc.o, pc.b, pc.saveptr, s.img.ptr[FREE_OFF]));
      assert StepDelReadFree(s, s', p);
    } else if pc.DelWriteIdx? {
      s' := Put(s, p, DelWriteFree(pc.ptroff, pc.o, pc.saveptr)).(
        img := PutRec(s.img, pc.o, pc.freeptr, BlankBody(pc.b)));
      assert StepDelWriteIdx(s, s', p);
    } else if pc.DelWriteFree? {
      s' := Put(s, p, DelBypass(pc.ptroff, pc.saveptr)).(
        img := SetPtr(s.img, FREE_OFF, pc.o), g := Push(s.g, 0, pc.o, ""));
      assert StepDelWriteFree(s, s', p);
    } else if pc.DelBypass? {
      s' := Put(s, p, DelDropFree).(
        img := SetPtr(s.img, pc.ptroff, pc.saveptr), bypass := s.bypass - {pc.ptroff});
      assert StepDelBypass(s, s', p);
    } else {
      s' := Drop(s, p, FreeLock, true,
                     if s.procs[p].op.Store? then NewReadHead(true) else Unlock(Code(0, NoErr)));
      assert StepDelDrop(s, s', p);
    }
  }

  lemma StoreOpenOp(s: Sys, p: nat, op: Op)
    ensures StoreOpen(s, p, op) ==> op.Store?
  {
  }

  /** Between the search and the link a process is making a store. */
  lemma StoringOp(s: Sys, p: nat)
    requires p < |s.procs| && Local(s, p)
    requires var pc := s.procs[p].pc;
      || pc.NewReadHead? || pc.NewWantFree? || pc.FreeReadHead? || pc.FreeScan? || pc.FreeTake? || pc.FreeHit?
      || pc.FreeMiss? || pc.ReuseDat? || pc.ReuseIdx? || pc.AppWantDat? || pc.AppDat? || pc.AppDropDat?
      || pc.AppWantIdx? || pc.AppIdx? || pc.AppDropIdx? || pc.Link?
    ensures s.procs[p].op.Store? && Open(s.h, s.procs[p].ticket, s.procs[p].op)
  {
    hide StoreOpen, Open, HeadIs, HeldRec, PendingExt, ReadyToLink, CallOkToMake, Reusable, List, OnFree;
    StoreOpenOp(s, p, s.procs[p].op);
  }

  lemma FreeRecordThere(s: Sys, p: nat)
    requires Inv(s) && p < |s.procs| && s.procs[p].pc.FreeScan?
    ensures s.procs[p].pc.off != 0 ==> s.procs[p].pc.off in s.img.body && s.procs[p].pc.off in s.img.ptr
  {
    hide Inv, Files, MapOk, Linearizable, CallOkToMake, List, Inserting;
    LocalOf(s, p);
    var pc := s.procs[p].pc;
    if pc.off != 0 {
      ReadListLoc(s, p, 0, pc.j);
      RecordThere(s, pc.off);
    }
  }

  lemma GoFree(s: Sys, p: nat) returns (s': Sys)
    requires Inv(s) && p < |s.procs|
    requires s.procs[p].pc.FreeScan? || s.procs[p].pc.FreeTake?
    ensures ReuseStep(s, s', p)
  {
    hide Inv, Files, MapOk, Linearizable, CallOkToMake, List, StepNewReadHead, StepFreeLock, StepFreeReadHead,
      StepFreeDrop, StepReuseDat, StepReuseIdx, Remove, SetPtr, Open, Inserting, Reusable;
    LocalOf(s, p);
    StoringOp(s, p);
    var pc, op := s.procs[p].pc, s.procs[p].op;
    if pc.FreeScan? {
      FreeRecordThere(s, p);
      s' := Put(s, p,
        if pc.off == 0 then FreeMiss(pc.ptrval)
        else var b := s.img.body[pc.off];
          if |b.key| == |op.key| && b.datlen == |op.data| + 1
          then FreeTake(pc.ptrval, pc.j, pc.saveoff, pc.off, b, s.img.ptr[pc.off])
          else FreeScan(pc.ptrval, pc.j + 1, pc.off, s.img.ptr[pc.off]));
      assert StepFreeScan(s, s', p);
    } else {
      s' := Put(s, p, FreeHit(pc.ptrval, pc.o, pc.b)).(
        img := SetPtr(s.img, pc.saveoff, pc.next), g := Remove(s.g, 0, pc.j, p, ""));
      assert StepFreeTake(s, s', p);
    }
  }

  lemma GoReuse(s: Sys, p: nat) returns (s': Sys)
    requires Inv(s) && p < |s.procs| && Granted(s, p)
    requires var pc := s.procs[p].pc;
      || pc.NewReadHead? || pc.NewWantFree? || pc.FreeReadHead? || pc.FreeHit? || pc.FreeMiss?
      || pc.ReuseDat? || pc.ReuseIdx?
    ensures ReuseStep(s, s', p)
  {
    hide Inv, Local, Files, MapOk, Linearizable, List, Grantable, StepFreeScan, StepFreeTake, PutExt, PutRec, Open;
    LocalOf(s, p);
    StoringOp(s, p);
    var pc, op := s.procs[p].pc, s.procs[p].op;
    if pc.NewReadHead? {
      var l := Head(List(op));
      HeadThere(s, List(op));
      s' := Put(s, p, if pc.again then AppWantDat(s.img.ptr[l]) else NewWantFree(s.img.ptr[l]));
      assert StepNewReadHead(s, s', p);
    } else if pc.NewWantFree? {
      s' := Take(s, p, FreeLock, true, FreeReadHead(pc.ptrval));
      assert StepFreeLock(s, s', p);
    } else if pc.FreeReadHead? {
      HeadThere(s, 0);
      s' := Put(s, p, FreeScan(pc.ptrval, 0, FREE_OFF, s.img.ptr[FREE_OFF]));
      assert StepFreeReadHead(s, s', p);
    } else if pc.FreeHit? || pc.FreeMiss? {
      s' := Drop(s, p, FreeLock, true,
                     if pc.FreeHit? then ReuseDat(pc.ptrval, pc.o, pc.b) else AppWantDat(pc.ptrval));
      assert StepFreeDrop(s, s', p);
    } else if pc.ReuseDat? {
      s' := Put(s, p, ReuseIdx(pc.ptrval, pc.o, pc.b)).(img := PutExt(s.img, pc.b.datoff, op.data));
      assert StepReuseDat(s, s', p);
    } else {
      s' := Put(s, p, Link(pc.o)).(
        img := PutRec(s.img, pc.o, pc.ptrval, MakeBody(op.key, pc.b.datoff, pc.b.datlen)));
      assert StepReuseIdx(s, s', p);
    }
  }

  lemma GoAppend(s: Sys, p: nat) returns (s': Sys)
    requires Inv(s) && p < |s.procs| && Granted(s, p)
    requires var pc := s.procs[p].pc;
      || pc.AppWantDat? || pc.AppDat? || pc.AppDropDat? || pc.AppWantIdx? || pc.AppIdx? || pc.AppDropIdx? || pc.Link?
    requires s.procs[p].pc.AppIdx? ==> Fits(s, s.procs[p].op, s.procs[p].pc.d)
    ensures AppendStep(s, s', p)
  {
    hide Inv, Local, Files, MapOk, Linearizable, List, Grantable, AppendExt, AppendRec, SetPtr, Push, TakeEffect, Open,
      Fits;
    LocalOf(s, p);
    StoringOp(s, p);
    var pc, op := s.procs[p].pc, s.procs[p].op;
    if pc.AppWantDat? {
      s' := Take(s, p, DatAppendLock, true, AppDat(pc.ptrval));
      assert StepAppLockDat(s, s', p);
    } else if pc.AppDat? {
      s' := Put(s, p, AppDropDat(pc.ptrval, s.img.datEnd)).(
        img := AppendExt(s.img, op.data), pend := s.pend[s.img.datEnd := p]);
      assert StepAppDat(s, s', p);
    } else if pc.AppDropDat? {
      s' := Drop(s, p, DatAppendLock, true, AppWantIdx(pc.ptrval, pc.d));
      assert StepAppDropDat(s, s', p);
    } else if pc.AppWantIdx? {
      s' := Take(s, p, IdxAppendLock, true, AppIdx(pc.ptrval, pc.d));
      assert StepAppLockIdx(s, s', p);
    } else if pc.AppIdx? {
      s' := Put(s, p, AppDropIdx(s.img.idxEnd)).(
        img := AppendRec(s.img, pc.ptrval, MakeBody(op.key, pc.d, |op.data| + 1)),
        g := s.g.(home := s.g.home[s.img.idxEnd := Held(p)]),
        pend := s.pend - {pc.d});
      assert StepAppIdx(s, s', p);
    } else if pc.AppDropIdx? {
      s' := Drop(s, p, IdxAppendLock, true, Link(pc.o));
      assert StepAppDropIdx(s, s', p);
    } else {
      OpenTicket(s.h, s.procs[p].ticket, op);
      ListIs(op);
      s' := Effect(s, p, Code(0, NoErr)).(
        img := SetPtr(s.img, Head(List(op)), pc.o), g := Push(s.g, List(op), pc.o, op.key), gap := s.gap - {op.key});
      assert StepLink(s, s', p);
    }
  }

  lemma GoNextRec(s: Sys, p: nat) returns (s': Sys)
    requires p < |s.procs| && Granted(s, p) && (s.procs[p].pc.NrWantFree? || s.procs[p].pc.NrHoldFree?)
    ensures NextRecStep(s, s', p)
  {
    hide Grantable;
    if s.procs[p].pc.NrWantFree? {
      s' := Take(s, p, FreeLock, false, NrHoldFree);
      assert StepNrLock(s, s', p);
    } else {
      s' := Drop(s, p, FreeLock, false, Idle);
      assert StepNrReturn(s, s', p);
    }
  }

  lemma CanProceed(s: Sys, p: nat)
    requires Inv(s) && p < |s.procs| && s.procs[p].pc != Idle && Granted(s, p)
    requires s.procs[p].pc.AppIdx? ==> Fits(s, s.procs[p].op, s.procs[p].pc.d)
    ensures CanGo(s, p)
  {
    hide Inv, Granted, Fits, SearchStep, DeleteStep, ReuseStep, AppendStep, NextRecStep;
    var s' := s;
    match s.procs[p].pc {
      case Scanning(_, _, _) => s' := GoScan(s, p);
      case DelBlank(_, _, _, _, _) => s' := GoBlank(s, p);
      case FreeScan(_, _, _, _) => s' := GoFree(s, p);
      case FreeTake(_, _, _, _, _, _) => s' := GoFree(s, p);
      case NrWantFree => s' := GoNextRec(s, p);
      case NrHoldFree => s' := GoNextRec(s, p);
      case WantChain => s' := GoSearch(s, p);
      case ReadHead => s' := GoSearch(s, p);
      case FetchDat(_, _, _, _) => s' := GoSearch(s, p);
      case OverDat(_, _, _, _) => s' := GoSearch(s, p);
      case Unlock(_) => s' := GoSearch(s, p);
      case DelWantFree(_, _, _, _, _) => s' := GoDelete(s, p);
      case DelReadFree(_, _, _, _) => s' := GoDelete(s, p);
      case DelWriteIdx(_, _, _, _, _) => s' := GoDelete(s, p);
      case DelWriteFree(_, _, _) => s' := GoDelete(s, p);
      case DelBypass(_, _) => s' := GoDelete(s, p);
      case DelDropFree => s' := GoDelete(s, p);
      case NewReadHead(_) => s' := GoReuse(s, p);
      case NewWantFree(_) => s' := GoReuse(s, p);
      case FreeReadHead(_) => s' := GoReuse(s, p);
      case FreeHit(_, _, _) => s' := GoReuse(s, p);
      case FreeMiss(_) => s' := GoReuse(s, p);
      case ReuseDat(_, _, _) => s' := GoReuse(s, p);
      case ReuseIdx(_, _, _) => s' := GoReuse(s, p);
      case _ => s' := GoAppend(s, p);
    }
    assert Proceed(s, s', p);
  }

  /** In every state of every run in which some process is in a call, some process that is in a
      call can go on, unless it is about to append an index record that breaks the format's limits. */
  lemma NoDeadlock(r: seq<Sys>, i: nat, p: nat) returns (q: nat)
    requires Run(r) && i < |r| && p < |r[i].procs| && r[i].procs[p].pc != Idle
    ensures q < |r[i].procs| && r[i].procs[q].pc != Idle
    ensures (r[i].procs[q].pc.AppIdx? && !Fits(r[i], r[i].procs[q].op, r[i].procs[q].pc.d)) || CanGo(r[i], q)
  {
    hide Linearizable, Run, LockTable, Exclusive, Files, MapOk, Duties, DistinctTickets, Local, CanGo, Kept, Fits;
    RunInv(r, i);
    q := SomeoneNotKept(r[i], p);
    NotKept(r[i], q);
    if r[i].procs[q].pc.AppIdx? ==> Fits(r[i], r[i].procs[q].op, r[i].procs[q].pc.d) {
      CanProceed(r[i], q);
    }
  }
}
