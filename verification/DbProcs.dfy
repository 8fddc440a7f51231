/** Any number of processes with the database open (apue.3e/db/db.c). Each takes one step at a
    time: a lock or unlock request, one read or one write of a file. The locks are fcntl
    byte-range locks. */
module DbProcs {
  import opened DbFormat
  import opened DbImage
  import opened DbLists
  import opened DbSurgery
  import opened DbSpec
  import opened DbHistory

  // ---- byte-range locks -----------------------------------------------------

  /** The ranges the library locks: one byte per chain, one byte for the free list, the index
      records, and the whole data file. */
  datatype Region = ChainLock(c: nat) | FreeLock | IdxAppendLock | DatAppendLock

  predicate InDataFile(r: Region) { r.DatAppendLock? }

  function Low(r: Region): nat {
    match r
    case ChainLock(c) => Head(c)
    case FreeLock => FREE_OFF
    case IdxAppendLock => REC_OFF
    case DatAppendLock => 0
  }

  /** Whether the byte at offset x of the region's file is locked; append locks have no end. */
  predicate Covers(r: Region, x: nat) {
    match r
    case ChainLock(_) => x == Low(r)
    case FreeLock => x == Low(r)
    case IdxAppendLock => x >= Low(r)
    case DatAppendLock => x >= Low(r)
  }

  predicate LegalRegion(r: Region) { r.ChainLock? ==> 0 < r.c < NLISTS }

  ghost predicate Overlap(r: Region, q: Region) {
    InDataFile(r) == InDataFile(q) && exists x :: Covers(r, x) && Covers(q, x)
  }

  /** The library's lock regions never overlap one another. */
  lemma RegionsDisjoint(r: Region, q: Region)
    requires LegalRegion(r) && LegalRegion(q)
    ensures Overlap(r, q) <==> r == q
  {
    if r == q { assert Covers(r, Low(r)); }
  }

  datatype Lock = Lock(pid: nat, region: Region, write: bool)

  /** fcntl grants a lock when no other process holds a conflicting one. */
  ghost predicate Grantable(locks: set<Lock>, p: nat, r: Region, write: bool) {
    forall l :: l in locks && l.pid != p && Overlap(l.region, r) ==> !l.write && !write
  }

  // ---- processes ------------------------------------------------------------

  /** Where a process is in its call, with the fields of its handle that matter there:
      b is the record read last (idxbuf, datoff, datlen, idxlen), o its offset. */
  datatype Pc =
    | Idle
    | WantChain                                             // about to lock the chain
    | ReadHead                                              // read the chain pointer
    | Scanning(i: nat, ptroff: nat, off: nat)               // read the record at off
    | FetchDat(i: nat, ptroff: nat, o: nat, b: Body)        // read the data
    | OverDat(i: nat, ptroff: nat, o: nat, b: Body)         // write data of the same length
    | DelWantFree(i: nat, ptroff: nat, o: nat, b: Body, saveptr: nat)
    | DelBlank(i: nat, ptroff: nat, o: nat, b: Body, saveptr: nat)
    | DelReadFree(ptroff: nat, o: nat, b: Body, saveptr: nat)
    | DelWriteIdx(ptroff: nat, o: nat, b: Body, saveptr: nat, freeptr: nat)
    | DelWriteFree(ptroff: nat, o: nat, saveptr: nat)
    | DelBypass(ptroff: nat, saveptr: nat)
    | DelDropFree
    | NewReadHead(again: bool)                              // again: after deleting the old record
    | NewWantFree(ptrval: nat)
    | FreeReadHead(ptrval: nat)
    | FreeScan(ptrval: nat, j: nat, saveoff: nat, off: nat)
    | FreeTake(ptrval: nat, j: nat, saveoff: nat, o: nat, b: Body, next: nat)
    | FreeHit(ptrval: nat, o: nat, b: Body)
    | FreeMiss(ptrval: nat)
    | ReuseDat(ptrval: nat, o: nat, b: Body)
    | ReuseIdx(ptrval: nat, o: nat, b: Body)
    | AppWantDat(ptrval: nat)
    | AppDat(ptrval: nat)
    | AppDropDat(ptrval: nat, d: nat)
    | AppWantIdx(ptrval: nat, d: nat)
    | AppIdx(ptrval: nat, d: nat)
    | AppDropIdx(o: nat)
    | Link(o: nat)                                          // write the chain pointer
    | Unlock(r: Result)
    | NrWantFree                                            // db_nextrec
    | NrHoldFree

  datatype Proc = Proc(pc: Pc, op: Op, ticket: nat)

  /** img, procs and locks are the system. The rest is bookkeeping for the proof: the lists, chain
      pointers that are about to bypass a deleted record, keys between the deletion and the
      insertion of one replacing store, appended extents no record points to yet (each with the
      process responsible), and the history. */
  datatype Sys = Sys(img: Image, procs: seq<Proc>, locks: set<Lock>,
                     g: Lists, bypass: map<nat, nat>, gap: map<string, nat>, pend: map<nat, nat>,
                     h: History)

  /** The map after the calls that have taken effect. */
  function M(s: Sys): map<string, string> { ApplyAll(map[], s.h.ops) }

  function List(op: Op): (c: nat)
    ensures 0 < c < NLISTS
  {
    ListOf(op.key)
  }

  function Put(s: Sys, p: nat, pc: Pc): Sys
    requires p < |s.procs|
  {
    s.(procs := s.procs[p := s.procs[p].(pc := pc)])
  }

  function Take(s: Sys, p: nat, r: Region, write: bool, pc: Pc): Sys
    requires p < |s.procs|
  {
    Put(s, p, pc).(locks := s.locks + {Lock(p, r, write)})
  }

  function Drop(s: Sys, p: nat, r: Region, write: bool, pc: Pc): Sys
    requires p < |s.procs|
  {
    Put(s, p, pc).(locks := s.locks - {Lock(p, r, write)})
  }

  /** The call takes effect now and will answer r. */
  function Effect(s: Sys, p: nat, r: Result): Sys
    requires p < |s.procs| && s.procs[p].ticket < |s.h.calls|
  {
    Put(s, p, Unlock(r)).(h := TakeEffect(s.h, s.procs[p].ticket))
  }

  function Writing(op: Op): bool { !op.Fetch? }

  // ---- the steps ------------------------------------------------------------

  predicate CallOkToMake(op: Op) {
    op.Store? ==> GoodFlag(op.flag) && ':' !in op.key && DATLEN_MIN <= |op.data| + 1 <= DATLEN_MAX
  }

  ghost predicate StepCall(s: Sys, s': Sys, p: nat, op: Op)
    requires p < |s.procs|
  {
    && s.procs[p].pc == Idle && CallOkToMake(op)
    && s' == s.(procs := s.procs[p := Proc(WantChain, op, |s.h.calls|)], h := Begin(s.h, op))
  }

  ghost predicate StepNrCall(s: Sys, s': Sys, p: nat)
    requires p < |s.procs|
  {
    s.procs[p].pc == Idle && s' == Put(s, p, NrWantFree)
  }

  ghost predicate StepNrLock(s: Sys, s': Sys, p: nat)
    requires p < |s.procs|
  {
    && s.procs[p].pc == NrWantFree && Grantable(s.locks, p, FreeLock, false)
    && s' == Take(s, p, FreeLock, false, NrHoldFree)
  }

  ghost predicate StepNrReturn(s: Sys, s': Sys, p: nat)
    requires p < |s.procs|
  {
    s.procs[p].pc == NrHoldFree && s' == Drop(s, p, FreeLock, false, Idle)
  }

  ghost predicate StepLockChain(s: Sys, s': Sys, p: nat)
    requires p < |s.procs|
  {
    var op := s.procs[p].op;
    && s.procs[p].pc == WantChain
    && Grantable(s.locks, p, ChainLock(List(op)), Writing(op))
    && s' == Take(s, p, ChainLock(List(op)), Writing(op), ReadHead)
  }

  ghost predicate StepReadHead(s: Sys, s': Sys, p: nat)
    requires p < |s.procs|
  {
    var l := Head(List(s.procs[p].op));
    s.procs[p].pc == ReadHead && l in s.img.ptr && s' == Put(s, p, Scanning(0, l, s.img.ptr[l]))
  }

  /** One record of the chain read and its key compared, no match. */
  ghost predicate StepScanNext(s: Sys, s': Sys, p: nat)
    requires p < |s.procs|
  {
    var pc := s.procs[p].pc;
    && pc.Scanning? && pc.off != 0 && pc.off in s.img.body && pc.off in s.img.ptr
    && s.img.body[pc.off].key != s.procs[p].op.key
    && s' == Put(s, p, Scanning(pc.i + 1, pc.off, s.img.ptr[pc.off]))
  }

  /** One record of the chain read and found to have the key. */
  ghost predicate StepScanHit(s: Sys, s': Sys, p: nat)
    requires p < |s.procs|
  {
    var pc := s.procs[p].pc;
    var op := s.procs[p].op;
    && pc.Scanning? && pc.off != 0 && pc.off in s.img.body && pc.off in s.img.ptr
    && s.img.body[pc.off].key == op.key && s.procs[p].ticket < |s.h.calls|
    && var b := s.img.body[pc.off];
       s' == match op
             case Fetch(_) => Put(s, p, FetchDat(pc.i, pc.ptroff, pc.off, b))
             case Delete(_) => Put(s, p, DelWantFree(pc.i, pc.ptroff, pc.off, b, s.img.ptr[pc.off]))
             case Store(_, data, flag) =>
               if flag == DB_INSERT then Effect(s, p, Code(1, NoErr))
               else if |data| + 1 != b.datlen
               then Put(s, p, DelWantFree(pc.i, pc.ptroff, pc.off, b, s.img.ptr[pc.off]))
               else Put(s, p, OverDat(pc.i, pc.ptroff, pc.off, b))
  }

  /** The end of the chain: the key is not there. */
  ghost predicate StepScanMiss(s: Sys, s': Sys, p: nat)
    requires p < |s.procs|
  {
    var pc := s.procs[p].pc;
    && pc.Scanning? && pc.off == 0 && s.procs[p].ticket < |s.h.calls|
    && s' == match s.procs[p].op
             case Fetch(_) => Effect(s, p, NoData)
             case Delete(_) => Effect(s, p, Code(-1, NoErr))
             case Store(_, _, flag) =>
               if flag == DB_REPLACE then Effect(s, p, Code(-1, ENOENT))
               else Put(s, p, NewReadHead(false))
  }

  ghost predicate StepFetchDat(s: Sys, s': Sys, p: nat)
    requires p < |s.procs|
  {
    var pc := s.procs[p].pc;
    && pc.FetchDat? && pc.b.datoff in s.img.ext && s.procs[p].ticket < |s.h.calls|
    && s' == Effect(s, p, Data(s.img.ext[pc.b.datoff]))
  }

  ghost predicate StepOverDat(s: Sys, s': Sys, p: nat)
    requires p < |s.procs|
  {
    var pc := s.procs[p].pc;
    && pc.OverDat? && s.procs[p].op.Store? && s.procs[p].ticket < |s.h.calls|
    && s' == Effect(s, p, Code(0, NoErr)).(img := PutExt(s.img, pc.b.datoff, s.procs[p].op.data))
  }

  ghost predicate StepDelLock(s: Sys, s': Sys, p: nat)
    requires p < |s.procs|
  {
    var pc := s.procs[p].pc;
    && pc.DelWantFree? && Grantable(s.locks, p, FreeLock, true)
    && s' == Take(s, p, FreeLock, true, DelBlank(pc.i, pc.ptroff, pc.o, pc.b, pc.saveptr))
  }

  /** The data is blanked; from here on the record counts as taken off its chain. A delete takes
      effect here, a replacing store later. */
  ghost predicate StepDelBlank(s: Sys, s': Sys, p: nat)
    requires p < |s.procs|
  {
    var pc := s.procs[p].pc;
    var op := s.procs[p].op;
    && pc.DelBlank? && pc.b.datlen > 0 && s.procs[p].ticket < |s.h.calls|
    && List(op) < |s.g.chain| && pc.i < |s.g.chain[List(op)]|
    && s' == Put(s, p, DelReadFree(pc.ptroff, pc.o, pc.b, pc.saveptr)).(
         img := PutExt(s.img, pc.b.datoff, Blanks(pc.b.datlen - 1)),
         g := Remove(s.g, List(op), pc.i, p, op.key),
         bypass := s.bypass[pc.ptroff := pc.saveptr],
         gap := if op.Store? then s.gap[op.key := p] else s.gap,
         h := if op.Store? then s.h else TakeEffect(s.h, s.procs[p].ticket))
  }

  ghost predicate StepDelReadFree(s: Sys, s': Sys, p: nat)
    requires p < |s.procs|
  {
    var pc := s.procs[p].pc;
    && pc.DelReadFree? && FREE_OFF in s.img.ptr
    && s' == Put(s, p, DelWriteIdx(pc.ptroff, pc.o, pc.b, pc.saveptr, s.img.ptr[FREE_OFF]))
  }

  ghost predicate StepDelWriteIdx(s: Sys, s': Sys, p: nat)
    requires p < |s.procs|
  {
    var pc := s.procs[p].pc;
    && pc.DelWriteIdx?
    && s' == Put(s, p, DelWriteFree(pc.ptroff, pc.o, pc.saveptr)).(
         img := PutRec(s.img, pc.o, pc.freeptr, BlankBody(pc.b)))
  }

  ghost predicate StepDelWriteFree(s: Sys, s': Sys, p: nat)
    requires p < |s.procs|
  {
    var pc := s.procs[p].pc;
    && pc.DelWriteFree? && |s.g.chain| > 0
    && s' == Put(s, p, DelBypass(pc.ptroff, pc.saveptr)).(
         img := SetPtr(s.img, FREE_OFF, pc.o), g := Push(s.g, 0, pc.o, ""))
  }

  ghost predicate StepDelBypass(s: Sys, s': Sys, p: nat)
    requires p < |s.procs|
  {
    var pc := s.procs[p].pc;
    && pc.DelBypass?
    && s' == Put(s, p, DelDropFree).(
         img := SetPtr(s.img, pc.ptroff, pc.saveptr), bypass := s.bypass - {pc.ptroff})
  }

  ghost predicate StepDelDrop(s: Sys, s': Sys, p: nat)
    requires p < |s.procs|
  {
    && s.procs[p].pc == DelDropFree
    && s' == Drop(s, p, FreeLock, true,
                  if s.procs[p].op.Store? then NewReadHead(true) else Unlock(Code(0, NoErr)))
  }

  ghost predicate StepNewReadHead(s: Sys, s': Sys, p: nat)
    requires p < |s.procs|
  {
    var pc := s.procs[p].pc;
    var l := Head(List(s.procs[p].op));
    && pc.NewReadHead? && l in s.img.ptr
    && s' == Put(s, p, if pc.again then AppWantDat(s.img.ptr[l]) else NewWantFree(s.img.ptr[l]))
  }

  ghost predicate StepFreeLock(s: Sys, s': Sys, p: nat)
    requires p < |s.procs|
  {
    var pc := s.procs[p].pc;
    && pc.NewWantFree? && Grantable(s.locks, p, FreeLock, true)
    && s' == Take(s, p, FreeLock, true, FreeReadHead(pc.ptrval))
  }

  ghost predicate StepFreeReadHead(s: Sys, s': Sys, p: nat)
    requires p < |s.procs|
  {
    var pc := s.procs[p].pc;
    && pc.FreeReadHead? && FREE_OFF in s.img.ptr
    && s' == Put(s, p, FreeScan(pc.ptrval, 0, FREE_OFF, s.img.ptr[FREE_OFF]))
  }

  ghost predicate StepFreeScan(s: Sys, s': Sys, p: nat)
    requires p < |s.procs|
  {
    var pc := s.procs[p].pc;
    var op := s.procs[p].op;
    && pc.FreeScan? && op.Store?
    && (pc.off != 0 ==> pc.off in s.img.body && pc.off in s.img.ptr)
    && s' == Put(s, p,
         if pc.off == 0 then FreeMiss(pc.ptrval)
         else var b := s.img.body[pc.off];
           if |b.key| == |op.key| && b.datlen == |op.data| + 1
           then FreeTake(pc.ptrval, pc.j, pc.saveoff, pc.off, b, s.img.ptr[pc.off])
           else FreeScan(pc.ptrval, pc.j + 1, pc.off, s.img.ptr[pc.off]))
  }

  ghost predicate StepFreeTake(s: Sys, s': Sys, p: nat)
    requires p < |s.procs|
  {
    var pc := s.procs[p].pc;
    && pc.FreeTake? && |s.g.chain| > 0 && pc.j < |s.g.chain[0]|
    && s' == Put(s, p, FreeHit(pc.ptrval, pc.o, pc.b)).(
         img := SetPtr(s.img, pc.saveoff, pc.next), g := Remove(s.g, 0, pc.j, p, ""))
  }

  ghost predicate StepFreeDrop(s: Sys, s': Sys, p: nat)
    requires p < |s.procs|
  {
    var pc := s.procs[p].pc;
    && (pc.FreeHit? || pc.FreeMiss?)
    && s' == Drop(s, p, FreeLock, true,
                  if pc.FreeHit? then ReuseDat(pc.ptrval, pc.o, pc.b) else AppWantDat(pc.ptrval))
  }

  ghost predicate StepReuseDat(s: Sys, s': Sys, p: nat)
    requires p < |s.procs|
  {
    var pc := s.procs[p].pc;
    && pc.ReuseDat? && s.procs[p].op.Store?
    && s' == Put(s, p, ReuseIdx(pc.ptrval, pc.o, pc.b)).(
         img := PutExt(s.img, pc.b.datoff, s.procs[p].op.data))
  }

  ghost predicate StepReuseIdx(s: Sys, s': Sys, p: nat)
    requires p < |s.procs|
  {
    var pc := s.procs[p].pc;
    && pc.ReuseIdx?
    && s' == Put(s, p, Link(pc.o)).(
         img := PutRec(s.img, pc.o, pc.ptrval, MakeBody(s.procs[p].op.key, pc.b.datoff, pc.b.datlen)))
  }

  ghost predicate StepAppLockDat(s: Sys, s': Sys, p: nat)
    requires p < |s.procs|
  {
    var pc := s.procs[p].pc;
    && pc.AppWantDat? && Grantable(s.locks, p, DatAppendLock, true)
    && s' == Take(s, p, DatAppendLock, true, AppDat(pc.ptrval))
  }

  ghost predicate StepAppDat(s: Sys, s': Sys, p: nat)
    requires p < |s.procs|
  {
    var pc := s.procs[p].pc;
    && pc.AppDat? && s.procs[p].op.Store?
    && s' == Put(s, p, AppDropDat(pc.ptrval, s.img.datEnd)).(
         img := AppendExt(s.img, s.procs[p].op.data), pend := s.pend[s.img.datEnd := p])
  }

  ghost predicate StepAppDropDat(s: Sys, s': Sys, p: nat)
    requires p < |s.procs|
  {
    var pc := s.procs[p].pc;
    pc.AppDropDat? && s' == Drop(s, p, DatAppendLock, true, AppWantIdx(pc.ptrval, pc.d))
  }

  ghost predicate StepAppLockIdx(s: Sys, s': Sys, p: nat)
    requires p < |s.procs|
  {
    var pc := s.procs[p].pc;
    && pc.AppWantIdx? && Grantable(s.locks, p, IdxAppendLock, true)
    && s' == Take(s, p, IdxAppendLock, true, AppIdx(pc.ptrval, pc.d))
  }

  /** The record fits within the format's limits; otherwise the process aborts here. */
  predicate Fits(s: Sys, op: Op, d: nat) {
    op.Store? && s.img.idxEnd <= PTR_MAX && IDXLEN_MIN <= LineLen(op.key, d, |op.data| + 1) <= IDXLEN_MAX
  }

  ghost predicate StepAppIdx(s: Sys, s': Sys, p: nat)
    requires p < |s.procs|
  {
    var pc := s.procs[p].pc;
    var op := s.procs[p].op;
    && pc.AppIdx? && op.Store? && Fits(s, op, pc.d)
    && s' == Put(s, p, AppDropIdx(s.img.idxEnd)).(
         img := AppendRec(s.img, pc.ptrval, MakeBody(op.key, pc.d, |op.data| + 1)),
         g := s.g.(home := s.g.home[s.img.idxEnd := Held(p)]),
         pend := s.pend - {pc.d})
  }

  ghost predicate StepAppDropIdx(s: Sys, s': Sys, p: nat)
    requires p < |s.procs|
  {
    var pc := s.procs[p].pc;
    pc.AppDropIdx? && s' == Drop(s, p, IdxAppendLock, true, Link(pc.o))
  }

  /** The chain pointer is written: the new record is in, and the store takes effect. */
  ghost predicate StepLink(s: Sys, s': Sys, p: nat)
    requires p < |s.procs|
  {
    var pc := s.procs[p].pc;
    var op := s.procs[p].op;
    && pc.Link? && s.procs[p].ticket < |s.h.calls| && List(op) < |s.g.chain|
    && s' == Effect(s, p, Code(0, NoErr)).(
         img := SetPtr(s.img, Head(List(op)), pc.o), g := Push(s.g, List(op), pc.o, op.key),
         gap := s.gap - {op.key})
  }

  /** The chain is unlocked and the call returns. */
  ghost predicate StepReturn(s: Sys, s': Sys, p: nat)
    requires p < |s.procs|
  {
    var pc := s.procs[p].pc;
    var op := s.procs[p].op;
    && pc.Unlock? && s.procs[p].ticket < |s.h.calls|
    && s' == Drop(s, p, ChainLock(List(op)), Writing(op), Idle).(h := End(s.h, s.procs[p].ticket, pc.r))
  }
}
