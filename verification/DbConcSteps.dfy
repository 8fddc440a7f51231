/** Every step of every process keeps the invariant. */
module DbConcSteps {
  import opened Options
  import opened DbFormat
  import opened DbImage
  import opened DbLists
  import opened DbSurgery
  import opened DbSpec
  import opened DbHistory
  import opened DbProcs
  import opened DbConcInv

  /** It is enough to look at the stepping process and at what is shared. */
  lemma Finish(s: Sys, s': Sys, p: nat)
    requires Inv(s) && p < |s.procs| && |s.g.chain| == NLISTS && Own(s, s', p)
    requires Shared(s') && Local(s', p)
    ensures Inv(s')
  {
    hide Local, Shared, Undisturbed;
    assert |s'.procs| == |s.procs| by { hide Local, Shared; }
    forall q | 0 <= q < |s'.procs|
      ensures Local(s', q)
    {
      if q != p {
        assert Shared(s) && Local(s, q);
        OwnUndisturbed(s, s', p, q);
        LocalStable(s, s', q);
      }
    }
  }

  // ---- locks ----------------------------------------------------------------

  predicate SameLocks(pc: Pc, pc': Pc) {
    && InChain(pc') == InChain(pc) && HasFree(pc') == HasFree(pc) && pc'.NrHoldFree? == pc.NrHoldFree?
    && HasDat(pc') == HasDat(pc) && HasIdx(pc') == HasIdx(pc)
  }

  lemma LocksKept(s: Sys, s': Sys, p: nat, pr: Proc)
    requires LockTable(s) && Exclusive(s) && p < |s.procs|
    requires s'.locks == s.locks && s'.procs == s.procs[p := pr]
    requires SameLocks(s.procs[p].pc, pr.pc) && (InChain(pr.pc) ==> pr.op == s.procs[p].op)
    ensures LockTable(s') && Exclusive(s')
  {
    hide InChain, HasFree, HasDat, HasIdx, List;
    forall a, b | 0 <= a < |s'.procs| && 0 <= b < |s'.procs| && a != b
      ensures NoConflict(s'.procs[a], s'.procs[b])
    {
      assert NoConflict(s.procs[a], s.procs[b]);
    }
    forall l: Lock
      ensures l in s'.locks <==> l.pid < |s'.procs| && HoldsRegion(s'.procs[l.pid], l.region, l.write)
    {
      assert l in s.locks <==> l.pid < |s.procs| && HoldsRegion(s.procs[l.pid], l.region, l.write);
    }
  }

  /** a' holds region r in mode w and otherwise what a holds. */
  ghost predicate Gains(a: Proc, a': Proc, r: Region, w: bool) {
    forall q, v :: HoldsRegion(a', q, v) <==> HoldsRegion(a, q, v) || (q == r && v == w)
  }

  ghost predicate Loses(a: Proc, a': Proc, r: Region, w: bool) {
    forall q, v :: HoldsRegion(a', q, v) <==> HoldsRegion(a, q, v) && !(q == r && v == w)
  }

  predicate SameOthers(pc: Pc, pc': Pc, chain: bool, free: bool, nr: bool, dat: bool, idx: bool) {
    && (chain || InChain(pc') == InChain(pc)) && (free || HasFree(pc') == HasFree(pc))
    && (nr || pc'.NrHoldFree? == pc.NrHoldFree?)
    && (dat || HasDat(pc') == HasDat(pc)) && (idx || HasIdx(pc') == HasIdx(pc))
  }

  lemma GainsChain(a: Proc, pc: Pc)
    requires !InChain(a.pc) && InChain(pc) && SameOthers(a.pc, pc, true, false, false, false, false)
    ensures Gains(a, a.(pc := pc), ChainLock(List(a.op)), Writing(a.op))
    ensures Loses(a.(pc := pc), a, ChainLock(List(a.op)), Writing(a.op))
  {
    hide InChain, HasFree, HasDat, HasIdx, List, Writing;
  }

  lemma GainsFree(a: Proc, pc: Pc)
    requires !HasFree(a.pc) && HasFree(pc) && SameOthers(a.pc, pc, false, true, false, false, false)
    ensures Gains(a, a.(pc := pc), FreeLock, true) && Loses(a.(pc := pc), a, FreeLock, true)
  {
    hide InChain, HasFree, HasDat, HasIdx, List, Writing;
  }

  lemma GainsNr(a: Proc, pc: Pc)
    requires !a.pc.NrHoldFree? && pc.NrHoldFree? && SameOthers(a.pc, pc, false, false, true, false, false)
    ensures Gains(a, a.(pc := pc), FreeLock, false) && Loses(a.(pc := pc), a, FreeLock, false)
  {
    hide InChain, HasFree, HasDat, HasIdx, List, Writing;
  }

  lemma GainsDat(a: Proc, pc: Pc)
    requires !HasDat(a.pc) && HasDat(pc) && SameOthers(a.pc, pc, false, false, false, true, false)
    ensures Gains(a, a.(pc := pc), DatAppendLock, true) && Loses(a.(pc := pc), a, DatAppendLock, true)
  {
    hide InChain, HasFree, HasDat, HasIdx, List, Writing;
  }

  lemma GainsIdx(a: Proc, pc: Pc)
    requires !HasIdx(a.pc) && HasIdx(pc) && SameOthers(a.pc, pc, false, false, false, false, true)
    ensures Gains(a, a.(pc := pc), IdxAppendLock, true) && Loses(a.(pc := pc), a, IdxAppendLock, true)
  {
    hide InChain, HasFree, HasDat, HasIdx, List, Writing;
  }

  /** A granted lock: the table gains it, and no other process has a conflicting one. */
  lemma LockTaken(s: Sys, s': Sys, p: nat, r: Region, w: bool, pr: Proc)
    requires LockTable(s) && Exclusive(s) && p < |s.procs|
    requires Grantable(s.locks, p, r, w) && LegalRegion(r)
    requires s'.locks == s.locks + {Lock(p, r, w)} && s'.procs == s.procs[p := pr]
    requires pr.op == s.procs[p].op
    requires Gains(s.procs[p], pr, r, w)
    ensures LockTable(s') && Exclusive(s')
  {
    hide InChain, HasFree, HasDat, HasIdx, List, HoldsRegion;
    forall l: Lock
      ensures l in s'.locks <==> l.pid < |s'.procs| && HoldsRegion(s'.procs[l.pid], l.region, l.write)
    {
      assert l in s.locks <==> l.pid < |s.procs| && HoldsRegion(s.procs[l.pid], l.region, l.write);
    }
    forall b | 0 <= b < |s.procs| && b != p
      ensures NoConflict(pr, s.procs[b]) && NoConflict(s.procs[b], pr)
    {
      assert NoConflict(s.procs[p], s.procs[b]) && NoConflict(s.procs[b], s.procs[p]);
      forall v | HoldsRegion(s.procs[b], r, v)
        ensures !v && !w
      {
        assert Lock(b, r, v) in s.locks;
        RegionsDisjoint(r, r);
      }
      NoConflictAdds(s.procs[p], pr, s.procs[b], r, w);
    }
    forall a, b | 0 <= a < |s'.procs| && 0 <= b < |s'.procs| && a != b
      ensures NoConflict(s'.procs[a], s'.procs[b])
    {
      if a != p && b != p { assert NoConflict(s.procs[a], s.procs[b]); }
    }
  }

  lemma NoConflictAdds(a: Proc, a': Proc, b: Proc, r: Region, w: bool)
    requires NoConflict(a, b) && NoConflict(b, a) && a'.op == a.op
    requires Gains(a, a', r, w)
    requires forall v :: HoldsRegion(b, r, v) ==> !v && !w
    ensures NoConflict(a', b) && NoConflict(b, a')
  {
    hide InChain, HasFree, HasDat, HasIdx, List;
    HoldsMeans(a);
    HoldsMeans(a');
    HoldsMeans(b);
  }

  lemma HoldsMeans(a: Proc)
    ensures InChain(a.pc) <==> HoldsRegion(a, ChainLock(List(a.op)), Writing(a.op))
    ensures HasFree(a.pc) <==> HoldsRegion(a, FreeLock, true)
    ensures a.pc.NrHoldFree? <==> HoldsRegion(a, FreeLock, false)
    ensures HasDat(a.pc) <==> HoldsRegion(a, DatAppendLock, true)
    ensures HasIdx(a.pc) <==> HoldsRegion(a, IdxAppendLock, true)
  {
  }

  lemma LockDropped(s: Sys, s': Sys, p: nat, r: Region, w: bool, pr: Proc)
    requires LockTable(s) && Exclusive(s) && p < |s.procs|
    requires s'.locks == s.locks - {Lock(p, r, w)} && s'.procs == s.procs[p := pr]
    requires pr.op == s.procs[p].op
    requires Loses(s.procs[p], pr, r, w)
    ensures LockTable(s') && Exclusive(s')
  {
    hide InChain, HasFree, HasDat, HasIdx, List, HoldsRegion;
    forall l: Lock
      ensures l in s'.locks <==> l.pid < |s'.procs| && HoldsRegion(s'.procs[l.pid], l.region, l.write)
    {
      assert l in s.locks <==> l.pid < |s.procs| && HoldsRegion(s.procs[l.pid], l.region, l.write);
    }
    HoldsMeans(s.procs[p]);
    HoldsMeans(pr);
    forall a, b | 0 <= a < |s'.procs| && 0 <= b < |s'.procs| && a != b
      ensures NoConflict(s'.procs[a], s'.procs[b])
    {
      assert NoConflict(s.procs[a], s.procs[b]);
    }
  }

  // ---- steps that change no file --------------------------------------------

  /** Nothing shared but the locks and p's place in its call. */
  predicate Quiet(s: Sys, s': Sys, p: nat, pc: Pc)
    requires p < |s.procs|
  {
    && s'.procs == s.procs[p := s.procs[p].(pc := pc)]
    && s'.img == s.img && s'.g == s.g && s'.bypass == s.bypass && s'.gap == s.gap && s'.pend == s.pend && s'.h == s.h
  }

  predicate SameDuties(op: Op, pc: Pc, pc': Pc) {
    && HeldOf(pc') == HeldOf(pc) && BypassOf(pc') == BypassOf(pc) && PendOf(pc') == PendOf(pc)
    && (op.Store? && MayGap(pc) ==> MayGap(pc'))
    && (InCall(pc') ==> InCall(pc))
  }

  lemma DutiesKept(s: Sys, s': Sys, p: nat, pr: Proc)
    requires Duties(s) && p < |s.procs| && s'.procs == s.procs[p := pr]
    requires s'.g.home == s.g.home && s'.bypass == s.bypass && s'.gap == s.gap && s'.pend == s.pend
    requires SameDuties(s.procs[p].op, s.procs[p].pc, pr.pc) && pr.op == s.procs[p].op
    ensures Duties(s')
  {
    hide HeldOf, BypassOf, PendOf, MayGap, InCall;
    forall l | l in s'.bypass
      ensures BypassedBy(s', l)
    {
      assert BypassedBy(s, l);
      var q :| 0 <= q < |s.procs| && BypassOf(s.procs[q].pc) == Some(l);
      assert BypassOf(s'.procs[q].pc) == Some(l);
    }
  }

  lemma OwnQuiet(s: Sys, s': Sys, p: nat, pc: Pc)
    requires p < |s.procs| && |s.g.chain| == NLISTS && Quiet(s, s', p, pc)
    ensures Own(s, s', p)
  {
    hide OwnLoc, WritesList, InChain, HasFree, InCall, Open, Effective;
  }

  lemma QuietStep(s: Sys, s': Sys, p: nat, pc: Pc)
    requires Inv(s) && p < |s.procs| && Quiet(s, s', p, pc)
    requires SameDuties(s.procs[p].op, s.procs[p].pc, pc) && LockTable(s') && Exclusive(s') && Local(s', p)
    ensures Inv(s')
  {
    hide Local, LockTable, Exclusive, HeldOf, BypassOf, PendOf, MayGap, InCall, Linearizable, Files, Duties;
    assert |s.g.chain| == NLISTS by { ChainCount(s); }
    DutiesKept(s, s', p, s.procs[p].(pc := pc));
    OwnQuiet(s, s', p, pc);
    FilesKept(s, s');
    Finish(s, s', p);
  }

  lemma FilesKept(s: Sys, s': Sys)
    requires Files(s) && s'.img == s.img && s'.g == s.g && s'.bypass == s.bypass && s'.pend == s.pend
    ensures Files(s')
  {
    hide Wf, Struct;
  }

  lemma ChainCount(s: Sys)
    requires Files(s)
    ensures |s.g.chain| == NLISTS
  {
  }

  // ---- reading under a lock -------------------------------------------------

  /** p has list c locked, for reading or writing. */
  predicate ReadsList(s: Sys, p: nat, c: nat)
    requires p < |s.procs|
  {
    || (InChain(s.procs[p].pc) && c == List(s.procs[p].op))
    || (HasFree(s.procs[p].pc) && c == 0)
  }

  /** A pending bypass sits on the chain its process has locked. */
  lemma BypassOwner(s: Sys, l: nat) returns (q: nat)
    requires Inv(s) && l in s.bypass && |s.g.chain| == NLISTS
    ensures q < |s.procs| && BypassOf(s.procs[q].pc) == Some(l)
    ensures InChain(s.procs[q].pc) && Writing(s.procs[q].op) && OnListLoc(s, List(s.procs[q].op), l)
  {
    hide Files, LockTable, Exclusive, MapOk, Linearizable, DistinctTickets, List, FoundAt, Inserting, HeldRec, Effective,
      ReadyToLink;
    assert BypassedBy(s, l);
    q :| 0 <= q < |s.procs| && BypassOf(s.procs[q].pc) == Some(l);
    assert Local(s, q);
  }

  /** On a list that p has locked no other process has a bypass pending. */
  lemma NotBypassed(s: Sys, p: nat, c: nat, l: nat)
    requires Inv(s) && p < |s.procs| && |s.g.chain| == NLISTS && c < NLISTS
    requires ReadsList(s, p, c) && OnListLoc(s, c, l) && BypassOf(s.procs[p].pc) != Some(l)
    ensures l !in s.bypass
  {
    hide LockTable, MapOk, Linearizable, DistinctTickets, List, Local, Duties, InChain, HasFree, BypassOf,
      Wf, Keyed, Linked, ExtentsOwned;
    if l in s.bypass {
      var q := BypassOwner(s, l);
      assert NoConflict(s.procs[p], s.procs[q]);
      var d := List(s.procs[q].op);
      assert d < NLISTS && d > 0 by { ListIs(s.procs[q].op); }
      if c != d { LocsDiffer(s, c, d, l); }
    }
  }

  lemma LocsDiffer(s: Sys, c: nat, d: nat, l: nat)
    requires RecsAbove(s.img.body) && Placed(s.img.body, s.g) && c < NLISTS && d < NLISTS && c != d
    ensures !(OnListLoc(s, c, l) && OnListLoc(s, d, l))
  {
    HeadNotOnList(s.img.body, s.g, c, d);
    HeadNotOnList(s.img.body, s.g, d, c);
    assert OnlyHome(s.g.chain[c], s.g.home, c) && OnlyHome(s.g.chain[d], s.g.home, d);
  }

  /** Following a locked list: the pointer read from the file leads to the next record. */
  lemma ReadListLoc(s: Sys, p: nat, c: nat, i: nat)
    requires Inv(s) && p < |s.procs| && |s.g.chain| == NLISTS && c < NLISTS && i <= |s.g.chain[c]|
    requires ReadsList(s, p, c) && BypassOf(s.procs[p].pc) != Some(LocAt(Head(c), s.g.chain[c], i))
    ensures var l := LocAt(Head(c), s.g.chain[c], i);
      l in s.img.ptr && s.img.ptr[l] == NextAt(s.g.chain[c], i) <= PTR_MAX && l !in s.bypass
    ensures i < |s.g.chain[c]| ==> s.g.chain[c][i] in s.img.body && s.g.chain[c][i] >= REC_OFF
  {
    hide LockTable, Exclusive, MapOk, Linearizable, DistinctTickets, List, Local, Duties, ReadsList, BypassOf, Keyed,
      RecordsTile, ExtentsTile, LinesOk, RecordsOwnExtents, ExtentsOwned;
    NotBypassed(s, p, c, LocAt(Head(c), s.g.chain[c], i));
    assert Linked(View(s), Head(c), s.g.chain[c]);
    assert LinkAt(View(s), Head(c), s.g.chain[c], i);
    assert OnlyHome(s.g.chain[c], s.g.home, c);
  }

  // ---- the quiet steps ------------------------------------------------------

  lemma TakeStep(s: Sys, s': Sys, p: nat, r: Region, w: bool, pc: Pc)
    requires Inv(s) && p < |s.procs| && Grantable(s.locks, p, r, w) && LegalRegion(r)
    requires s' == Take(s, p, r, w, pc) && SameDuties(s.procs[p].op, s.procs[p].pc, pc) && Local(s', p)
    requires Gains(s.procs[p], s.procs[p].(pc := pc), r, w)
    ensures Inv(s')
  {
    hide Local, Files, MapOk, Duties, Linearizable, DistinctTickets, SameDuties, HoldsRegion, Grantable;
    LockTaken(s, s', p, r, w, s.procs[p].(pc := pc));
    QuietStep(s, s', p, pc);
  }

  lemma DropStep(s: Sys, s': Sys, p: nat, r: Region, w: bool, pc: Pc)
    requires Inv(s) && p < |s.procs|
    requires s' == Drop(s, p, r, w, pc) && SameDuties(s.procs[p].op, s.procs[p].pc, pc) && Local(s', p)
    requires Loses(s.procs[p], s.procs[p].(pc := pc), r, w)
    ensures Inv(s')
  {
    hide Local, Files, MapOk, Duties, Linearizable, DistinctTickets, SameDuties, HoldsRegion;
    LockDropped(s, s', p, r, w, s.procs[p].(pc := pc));
    QuietStep(s, s', p, pc);
  }

  lemma PutStep(s: Sys, s': Sys, p: nat, pc: Pc)
    requires Inv(s) && p < |s.procs| && s' == Put(s, p, pc)
    requires SameLocks(s.procs[p].pc, pc) && SameDuties(s.procs[p].op, s.procs[p].pc, pc) && Local(s', p)
    ensures Inv(s')
  {
    hide Local, Files, MapOk, Duties, Linearizable, DistinctTickets, SameDuties, SameLocks, LockTable, Exclusive;
    LocksKept(s, s', p, s.procs[p].(pc := pc));
    QuietStep(s, s', p, pc);
  }

  lemma LocalOf(s: Sys, p: nat)
    requires Inv(s) && p < |s.procs|
    ensures Local(s, p) && |s.g.chain| == NLISTS && Files(s) && MapOk(s) && Linearizable(s.h)
  {
    hide Local, LockTable, Exclusive, MapOk, Linearizable, Wf, Keyed, Linked;
  }

  lemma KeepNrCall(s: Sys, s': Sys, p: nat)
    requires Inv(s) && p < |s.procs| && StepNrCall(s, s', p)
    ensures Inv(s')
  {
    hide Inv;
    PutStep(s, s', p, NrWantFree);
  }

  lemma KeepNrLock(s: Sys, s': Sys, p: nat)
    requires Inv(s) && p < |s.procs| && StepNrLock(s, s', p)
    ensures Inv(s')
  {
    hide Inv, Grantable, Gains;
    GainsNr(s.procs[p], NrHoldFree);
    TakeStep(s, s', p, FreeLock, false, NrHoldFree);
  }

  lemma KeepNrReturn(s: Sys, s': Sys, p: nat)
    requires Inv(s) && p < |s.procs| && StepNrReturn(s, s', p)
    ensures Inv(s')
  {
    hide Inv, Loses;
    GainsNr(s.procs[p].(pc := Idle), NrHoldFree);
    DropStep(s, s', p, FreeLock, false, Idle);
  }

  lemma KeepLockChain(s: Sys, s': Sys, p: nat)
    requires Inv(s) && p < |s.procs| && StepLockChain(s, s', p)
    ensures Inv(s')
  {
    hide Inv, Grantable, Open, CallOkToMake, Gains, Files, MapOk, Linearizable;
    LocalOf(s, p);
    GainsChain(s.procs[p], ReadHead);
    TakeStep(s, s', p, ChainLock(List(s.procs[p].op)), Writing(s.procs[p].op), ReadHead);
  }

  lemma KeepReadHead(s: Sys, s': Sys, p: nat)
    requires Inv(s) && p < |s.procs| && StepReadHead(s, s', p)
    ensures Inv(s')
  {
    hide Inv, Open, CallOkToMake, Files, MapOk, Linearizable, List;
    LocalOf(s, p);
    ReadListLoc(s, p, List(s.procs[p].op), 0);
    PutStep(s, s', p, s'.procs[p].pc);
  }

  lemma KeepScanNext(s: Sys, s': Sys, p: nat)
    requires Inv(s) && p < |s.procs| && StepScanNext(s, s', p)
    ensures Inv(s')
  {
    hide Inv, Open, CallOkToMake, Files, MapOk, Linearizable, List;
    LocalOf(s, p);
    ReadListLoc(s, p, List(s.procs[p].op), s.procs[p].pc.i);
    ReadListLoc(s, p, List(s.procs[p].op), s.procs[p].pc.i + 1);
    PutStep(s, s', p, s'.procs[p].pc);
  }

  lemma KeepDelLock(s: Sys, s': Sys, p: nat)
    requires Inv(s) && p < |s.procs| && StepDelLock(s, s', p)
    ensures Inv(s')
  {
    hide Inv, Open, CallOkToMake, Files, MapOk, Linearizable, Grantable, FoundAt, Gains;
    LocalOf(s, p);
    var pc := s.procs[p].pc;
    GainsFree(s.procs[p], s'.procs[p].pc);
    SameFoundAt(s, s', s.procs[p].op, pc.i, pc.ptroff, pc.o, pc.b);
    TakeStep(s, s', p, FreeLock, true, s'.procs[p].pc);
  }

  lemma SameFoundAt(s: Sys, s': Sys, op: Op, i: nat, ptroff: nat, o: nat, b: Body)
    requires s'.g == s.g && s'.img.body == s.img.body
    ensures FoundAt(s', op, i, ptroff, o, b) == FoundAt(s, op, i, ptroff, o, b)
  {
  }

  /** Equal shared state: everything a process knew it still knows. */
  lemma QuietSame(s: Sys, s': Sys, p: nat, op: Op)
    requires |s.g.chain| == NLISTS
    requires s'.img == s.img && s'.g == s.g && s'.bypass == s.bypass && s'.gap == s.gap && s'.pend == s.pend && s'.h == s.h
    ensures SameList(s, s', List(op)) && SameList(s, s', 0) && SameKey(s, s', op.key) && SameHeld(s, s', p)
  {
  }

  lemma KeepDelReadFree(s: Sys, s': Sys, p: nat)
    requires Inv(s) && p < |s.procs| && StepDelReadFree(s, s', p)
    ensures Inv(s')
  {
    hide Inv, Open, Effective, CallOkToMake, Files, MapOk, Linearizable, List, DelOpen, HeldRec, BypassAt, SameList, SameKey, SameHeld;
    LocalOf(s, p);
    var pc, op := s.procs[p].pc, s.procs[p].op;
    BypassNotFree(s, op, pc.ptroff, pc.saveptr);
    ReadListLoc(s, p, 0, 0);
    QuietSame(s, s', p, op);
    SameDelOpen(s, s', p, s.procs[p].ticket, op);
    SameBypass(s, s', op, pc.ptroff, pc.saveptr);
    SameHeldRec(s, s', p, pc.o, pc.b);
    PutStep(s, s', p, s'.procs[p].pc);
  }

  lemma BypassNotFree(s: Sys, op: Op, ptroff: nat, saveptr: nat)
    requires Files(s) && BypassAt(s, op, ptroff, saveptr)
    ensures ptroff != FREE_OFF && ptroff in s.img.ptr && saveptr <= PTR_MAX
  {
    hide Wf, Keyed, AllLinked, ExtentsOwned;
    assert OnlyHome(s.g.chain[List(op)], s.g.home, List(op));
  }

  lemma KeepDelDrop(s: Sys, s': Sys, p: nat)
    requires Inv(s) && p < |s.procs| && StepDelDrop(s, s', p)
    ensures Inv(s')
  {
    hide Inv, Open, Effective, CallOkToMake, Files, MapOk, Linearizable, List, Loses, StoreOpen, SameList, SameKey, SameHeld;
    LocalOf(s, p);
    QuietSame(s, s', p, s.procs[p].op);
    SameStoreOpen(s, s', p, s.procs[p].op);
    GainsFree(s'.procs[p], DelDropFree);
    assert s'.procs[p].(pc := DelDropFree) == s.procs[p];
    DropStep(s, s', p, FreeLock, true, s'.procs[p].pc);
  }

  lemma KeepNewReadHead(s: Sys, s': Sys, p: nat)
    requires Inv(s) && p < |s.procs| && StepNewReadHead(s, s', p)
    ensures Inv(s')
  {
    hide Inv, Open, CallOkToMake, Files, MapOk, Linearizable, List, StoreOpen, SameList, SameKey, SameHeld;
    LocalOf(s, p);
    ReadListLoc(s, p, List(s.procs[p].op), 0);
    QuietSame(s, s', p, s.procs[p].op);
    SameStoreOpen(s, s', p, s.procs[p].op);
    PutStep(s, s', p, s'.procs[p].pc);
  }

  lemma KeepFreeLock(s: Sys, s': Sys, p: nat)
    requires Inv(s) && p < |s.procs| && StepFreeLock(s, s', p)
    ensures Inv(s')
  {
    hide Inv, Open, CallOkToMake, Files, MapOk, Linearizable, List, Gains, Grantable, Inserting, SameList, SameKey, SameHeld;
    LocalOf(s, p);
    QuietSame(s, s', p, s.procs[p].op);
    SameInserting(s, s', p, s.procs[p].ticket, s.procs[p].op, s.procs[p].pc.ptrval);
    GainsFree(s.procs[p], s'.procs[p].pc);
    TakeStep(s, s', p, FreeLock, true, s'.procs[p].pc);
  }

  lemma KeepFreeReadHead(s: Sys, s': Sys, p: nat)
    requires Inv(s) && p < |s.procs| && StepFreeReadHead(s, s', p)
    ensures Inv(s')
  {
    hide Inv, Open, CallOkToMake, Files, MapOk, Linearizable, List, Inserting, SameList, SameKey, SameHeld;
    LocalOf(s, p);
    ReadListLoc(s, p, 0, 0);
    QuietSame(s, s', p, s.procs[p].op);
    SameInserting(s, s', p, s.procs[p].ticket, s.procs[p].op, s.procs[p].pc.ptrval);
    PutStep(s, s', p, s'.procs[p].pc);
  }

  lemma FreeIsBlank(s: Sys, j: nat)
    requires Inv(s) && |s.g.chain| == NLISTS && j < |s.g.chain[0]|
    ensures s.g.chain[0][j] in s.img.body && AllBlank(s.img.body[s.g.chain[0][j]].key)
  {
    hide LockTable, Exclusive, MapOk, Linearizable, DistinctTickets, List, Local, Duties, Wf, ExtentsOwned, AllBlank,
      HomeOk, LiveAt, Linked;
    assert OnlyHome(s.g.chain[0], s.g.home, 0);
  }

  lemma KeepFreeScan(s: Sys, s': Sys, p: nat)
    requires Inv(s) && p < |s.procs| && StepFreeScan(s, s', p)
    ensures Inv(s')
  {
    hide Inv, Open, CallOkToMake, Files, MapOk, Linearizable, List, Inserting, SameList, SameKey, SameHeld;
    LocalOf(s, p);
    var pc := s.procs[p].pc;
    ReadListLoc(s, p, 0, pc.j);
    if pc.off != 0 {
      ReadListLoc(s, p, 0, pc.j + 1);
      FreeIsBlank(s, pc.j);
    }
    hide AllBlank;
    QuietSame(s, s', p, s.procs[p].op);
    SameInserting(s, s', p, s.procs[p].ticket, s.procs[p].op, pc.ptrval);
    PutStep(s, s', p, s'.procs[p].pc);
  }

  lemma KeepFreeDrop(s: Sys, s': Sys, p: nat)
    requires Inv(s) && p < |s.procs| && StepFreeDrop(s, s', p)
    ensures Inv(s')
  {
    hide Inv, Open, CallOkToMake, Files, MapOk, Linearizable, List, Loses, Inserting, SameList, SameKey, SameHeld, HeldRec;
    LocalOf(s, p);
    var pc := s.procs[p].pc;
    QuietSame(s, s', p, s.procs[p].op);
    SameInserting(s, s', p, s.procs[p].ticket, s.procs[p].op, pc.ptrval);
    if pc.FreeHit? { SameHeldRec(s, s', p, pc.o, pc.b); }
    GainsFree(s'.procs[p], pc);
    assert s'.procs[p].(pc := pc) == s.procs[p];
    DropStep(s, s', p, FreeLock, true, s'.procs[p].pc);
  }

  lemma KeepAppLockDat(s: Sys, s': Sys, p: nat)
    requires Inv(s) && p < |s.procs| && StepAppLockDat(s, s', p)
    ensures Inv(s')
  {
    hide Inv, Open, CallOkToMake, Files, MapOk, Linearizable, List, Gains, Grantable, Inserting, SameList, SameKey, SameHeld;
    LocalOf(s, p);
    QuietSame(s, s', p, s.procs[p].op);
    SameInserting(s, s', p, s.procs[p].ticket, s.procs[p].op, s.procs[p].pc.ptrval);
    GainsDat(s.procs[p], s'.procs[p].pc);
    TakeStep(s, s', p, DatAppendLock, true, s'.procs[p].pc);
  }

  lemma KeepAppDropDat(s: Sys, s': Sys, p: nat)
    requires Inv(s) && p < |s.procs| && StepAppDropDat(s, s', p)
    ensures Inv(s')
  {
    hide Inv, Open, CallOkToMake, Files, MapOk, Linearizable, List, Loses, Inserting, PendingExt, SameList, SameKey, SameHeld;
    LocalOf(s, p);
    var pc := s.procs[p].pc;
    QuietSame(s, s', p, s.procs[p].op);
    SameInserting(s, s', p, s.procs[p].ticket, s.procs[p].op, pc.ptrval);
    SamePending(s, s', p, s.procs[p].op, pc.d);
    GainsDat(s'.procs[p], pc);
    assert s'.procs[p].(pc := pc) == s.procs[p];
    DropStep(s, s', p, DatAppendLock, true, s'.procs[p].pc);
  }

  lemma KeepAppLockIdx(s: Sys, s': Sys, p: nat)
    requires Inv(s) && p < |s.procs| && StepAppLockIdx(s, s', p)
    ensures Inv(s')
  {
    hide Inv, Open, CallOkToMake, Files, MapOk, Linearizable, List, Gains, Grantable, Inserting, PendingExt, SameList, SameKey, SameHeld;
    LocalOf(s, p);
    var pc := s.procs[p].pc;
    QuietSame(s, s', p, s.procs[p].op);
    SameInserting(s, s', p, s.procs[p].ticket, s.procs[p].op, pc.ptrval);
    SamePending(s, s', p, s.procs[p].op, pc.d);
    GainsIdx(s.procs[p], s'.procs[p].pc);
    TakeStep(s, s', p, IdxAppendLock, true, s'.procs[p].pc);
  }

  lemma KeepAppDropIdx(s: Sys, s': Sys, p: nat)
    requires Inv(s) && p < |s.procs| && StepAppDropIdx(s, s', p)
    ensures Inv(s')
  {
    hide Inv, Open, CallOkToMake, Files, MapOk, Linearizable, List, Loses, ReadyToLink, StoreOpen, SameList, SameKey, SameHeld;
    LocalOf(s, p);
    var pc := s.procs[p].pc;
    QuietSame(s, s', p, s.procs[p].op);
    SameStoreOpen(s, s', p, s.procs[p].op);
    SameReady(s, s', p, s.procs[p].op, pc.o);
    GainsIdx(s'.procs[p], pc);
    assert s'.procs[p].(pc := pc) == s.procs[p];
    DropStep(s, s', p, IdxAppendLock, true, s'.procs[p].pc);
  }

  // ---- steps of the history -------------------------------------------------

  lemma TicketBound(s: Sys, q: nat)
    requires q < |s.procs| && Local(s, q) && InCall(s.procs[q].pc)
    ensures s.procs[q].ticket < |s.h.calls|
  {
    hide FoundAt, BypassAt, HeldRec, PendingExt, HeadIs, OnFree, Reusable, ReadyToLink, AllBlank;
  }

  lemma DutiesIdle(s: Sys, s': Sys, p: nat, pr: Proc)
    requires Duties(s) && p < |s.procs| && s'.procs == s.procs[p := pr]
    requires s'.g.home == s.g.home && s'.bypass == s.bypass && s'.gap == s.gap && s'.pend == s.pend
    requires var pc := s.procs[p].pc;
      HeldOf(pc) == None && BypassOf(pc) == None && PendOf(pc) == None && !(MayGap(pc) && s.procs[p].op.Store?)
    ensures Duties(s')
  {
    hide HeldOf, BypassOf, PendOf, MayGap;
    forall l | l in s'.bypass
      ensures BypassedBy(s', l)
    {
      assert BypassedBy(s, l);
      var q :| 0 <= q < |s.procs| && BypassOf(s.procs[q].pc) == Some(l);
      assert BypassOf(s'.procs[q].pc) == Some(l);
    }
  }

  lemma KeepCall(s: Sys, s': Sys, p: nat, op: Op)
    requires Inv(s) && p < |s.procs| && StepCall(s, s', p, op)
    ensures Inv(s')
  {
    hide Local, Files, Linearizable, Duties, LockTable, Exclusive, CallOkToMake, InCall, ApplyAll;
    LocalOf(s, p);
    BeginKeeps(s.h, op);
    LocksKept(s, s', p, s'.procs[p]);
    DutiesIdle(s, s', p, s'.procs[p]);
    FilesKept(s, s');
    forall q | 0 <= q < |s.procs| && InCall(s.procs[q].pc)
      ensures s.procs[q].ticket < |s.h.calls|
    {
      TicketBound(s, q);
    }
    OwnCall(s, s', p, op);
    LocalWant(s', p);
    Finish(s, s', p);
  }

  lemma OwnCall(s: Sys, s': Sys, p: nat, op: Op)
    requires p < |s.procs| && |s.g.chain| == NLISTS && Linearizable(s.h) && StepCall(s, s', p, op)
    ensures Own(s, s', p)
  {
    hide OwnLoc, WritesList, InChain, HasFree, InCall, Open, Effective, Linearizable, CallOkToMake;
    BeginKeeps(s.h, op);
  }

  lemma LocalWant(s: Sys, p: nat)
    requires p < |s.procs| && s.procs[p].pc == WantChain
    ensures Local(s, p) <==> CallOkToMake(s.procs[p].op) && Open(s.h, s.procs[p].ticket, s.procs[p].op)
  {
  }

  lemma LocalUnlock(s: Sys, p: nat, r: Result)
    requires p < |s.procs| && s.procs[p].pc == Unlock(r)
    ensures Local(s, p) <==> CallOkToMake(s.procs[p].op) && Effective(s.h, s.procs[p].ticket, r)
  {
  }

  lemma OwnEffect(s: Sys, s': Sys, p: nat, r: Result)
    requires p < |s.procs| && |s.g.chain| == NLISTS && Linearizable(s.h) && DistinctTickets(s)
    requires InCall(s.procs[p].pc) && Open(s.h, s.procs[p].ticket, s.procs[p].op)
    requires s' == Effect(s, p, r)
    ensures Own(s, s', p)
  {
    hide OwnLoc, WritesList, InChain, HasFree, InCall, Open, Effective, Linearizable, CallOkToMake, TakeEffect;
    TakeEffectKeeps(s.h, s.procs[p].ticket, s.procs[p].op);
  }

  /** A call that changes nothing takes effect and answers as the map does. */
  lemma EffectStep(s: Sys, s': Sys, p: nat, r: Result)
    requires Inv(s) && p < |s.procs| && CallOkToMake(s.procs[p].op)
    requires Open(s.h, s.procs[p].ticket, s.procs[p].op) && s' == Effect(s, p, r)
    requires InCall(s.procs[p].pc) && SameLocks(s.procs[p].pc, Unlock(r))
    requires var pc := s.procs[p].pc;
      HeldOf(pc) == None && BypassOf(pc) == None && PendOf(pc) == None && !(MayGap(pc) && s.procs[p].op.Store?)
    requires r == Answer(M(s), s.procs[p].op) && Apply(M(s), s.procs[p].op) == M(s)
    ensures Inv(s')
  {
    hide Local, Files, Linearizable, Duties, LockTable, Exclusive, CallOkToMake, InCall, ApplyAll, Apply, Answer,
      Open, Effective, TakeEffect, SameLocks, HeldOf, BypassOf, PendOf, MayGap;
    LocalOf(s, p);
    TakeEffectKeeps(s.h, s.procs[p].ticket, s.procs[p].op);
    LocksKept(s, s', p, s'.procs[p]);
    DutiesIdle(s, s', p, s'.procs[p]);
    FilesKept(s, s');
    OwnEffect(s, s', p, r);
    LocalUnlock(s', p, r);
    assert InCall(Unlock(r)) by { UnlockInCall(r); }
    Finish(s, s', p);
  }

  lemma UnlockInCall(r: Result)
    ensures InCall(Unlock(r)) && InChain(Unlock(r))
  {
  }

  /** While a process has its chain locked, no other is in the middle of replacing its key. */
  lemma NotInGap(s: Sys, p: nat)
    requires Inv(s) && p < |s.procs| && InChain(s.procs[p].pc) && !MayGap(s.procs[p].pc)
    ensures s.procs[p].op.key !in s.gap
  {
    hide Local, Files, Linearizable, LockTable, HeldOf, BypassOf, PendOf, MapOk;
    var k := s.procs[p].op.key;
    if k in s.gap {
      var q := s.gap[k];
      assert NoConflict(s.procs[p], s.procs[q]);
      GapInChain(s.procs[q].pc);
    }
  }

  lemma GapInChain(pc: Pc)
    requires MayGap(pc)
    ensures InChain(pc)
  {
  }

  /** The search came to the end of the chain: the map does not have the key. */
  lemma MissedKey(s: Sys, p: nat)
    requires Inv(s) && p < |s.procs| && s.procs[p].pc.Scanning? && s.procs[p].pc.off == 0
    ensures s.procs[p].op.key !in M(s) && s.procs[p].op.key !in s.g.loc && s.procs[p].op.key !in s.gap
  {
    hide Inv, Linearizable, Wf, AllLinked, ExtentsOwned, Open, ApplyAll;
    LocalOf(s, p);
    NotInGap(s, p);
    var op := s.procs[p].op;
    assert OnlyHome(s.g.chain[List(op)], s.g.home, List(op));
    NotFoundIsAbsent(s.img.body, s.g, op.key);
  }

  lemma FoundKey(s: Sys, op: Op, i: nat, ptroff: nat, o: nat, b: Body)
    requires Files(s) && MapOk(s) && FoundAt(s, op, i, ptroff, o, b)
    ensures op.key in s.g.loc && s.g.loc[op.key] == o && o in s.g.home && s.g.home[o] == OnList(List(op))
    ensures op.key in M(s) && b.datoff in s.img.ext && M(s)[op.key] == s.img.ext[b.datoff]
    ensures |M(s)[op.key]| + 1 == b.datlen
  {
    hide RecordsTile, ExtentsTile, PointersOk, LinesOk, AllLinked, ExtentsOwned, ApplyAll;
    OnChain(s.img.body, s.g, List(op), i);
    FoundIsLive(s.img.body, s.g, op.key, i);
  }

  lemma ScannedHit(s: Sys, p: nat)
    requires Inv(s) && p < |s.procs| && s.procs[p].pc.Scanning? && s.procs[p].pc.off != 0
    requires s.procs[p].pc.off in s.img.body && s.img.body[s.procs[p].pc.off].key == s.procs[p].op.key
    ensures var pc, op := s.procs[p].pc, s.procs[p].op;
      && FoundAt(s, op, pc.i, pc.ptroff, pc.off, s.img.body[pc.off]) && pc.i < |s.g.chain[List(op)]|
      && pc.off in s.img.ptr && s.img.ptr[pc.off] == NextAt(s.g.chain[List(op)], pc.i + 1)
      && Open(s.h, s.procs[p].ticket, op) && CallOkToMake(op)
  {
    hide Inv, Open, CallOkToMake, Files, MapOk, Linearizable, List;
    LocalOf(s, p);
    ReadListLoc(s, p, List(s.procs[p].op), s.procs[p].pc.i);
    ReadListLoc(s, p, List(s.procs[p].op), s.procs[p].pc.i + 1);
  }

  /** Where a hit leads, other than to an immediate answer. */
  predicate HitLeads(op: Op, i: nat, l: nat, o: nat, b: Body, v: nat, pc': Pc) {
    || (pc' == FetchDat(i, l, o, b) && op.Fetch?)
    || (pc' == OverDat(i, l, o, b) && op.Store? && op.flag != DB_INSERT && |op.data| + 1 == b.datlen)
    || (pc' == DelWantFree(i, l, o, b, v) && (op.Delete? || (op.Store? && op.flag != DB_INSERT)))
  }

  lemma HitPut(s: Sys, s': Sys, p: nat, b: Body, v: nat, pc': Pc)
    requires Inv(s) && p < |s.procs| && s.procs[p].pc.Scanning? && s' == Put(s, p, pc')
    requires var pc, op := s.procs[p].pc, s.procs[p].op;
      && CallOkToMake(op) && Open(s.h, s.procs[p].ticket, op)
      && FoundAt(s, op, pc.i, pc.ptroff, pc.off, b) && v == NextAt(s.g.chain[List(op)], pc.i + 1)
      && HitLeads(op, pc.i, pc.ptroff, pc.off, b, v, pc')
    ensures Inv(s')
  {
    hide Inv, Open, CallOkToMake, List;
    PutStep(s, s', p, pc');
  }

  lemma KeepScanHit(s: Sys, s': Sys, p: nat)
    requires Inv(s) && p < |s.procs| && StepScanHit(s, s', p)
    ensures Inv(s')
  {
    hide Inv, Open, CallOkToMake, Files, MapOk, Linearizable, FoundAt, List, ApplyAll, TakeEffect, Local, Put;
    LocalOf(s, p);
    ScannedHit(s, p);
    var pc, op := s.procs[p].pc, s.procs[p].op;
    var b, v := s.img.body[pc.off], s.img.ptr[pc.off];
    if op.Store? && op.flag == DB_INSERT {
      KeepHitInsert(s, s', p);
    } else if op.Fetch? {
      HitPut(s, s', p, b, v, FetchDat(pc.i, pc.ptroff, pc.off, b));
    } else if op.Store? && |op.data| + 1 == b.datlen {
      HitPut(s, s', p, b, v, OverDat(pc.i, pc.ptroff, pc.off, b));
    } else {
      HitPut(s, s', p, b, v, DelWantFree(pc.i, pc.ptroff, pc.off, b, v));
    }
  }

  lemma KeepHitInsert(s: Sys, s': Sys, p: nat)
    requires Inv(s) && p < |s.procs| && StepScanHit(s, s', p)
    requires s.procs[p].op.Store? && s.procs[p].op.flag == DB_INSERT
    ensures Inv(s')
  {
    hide Inv, Open, CallOkToMake, Files, MapOk, Linearizable, FoundAt, List, ApplyAll, TakeEffect, Local;
    LocalOf(s, p);
    ScannedHit(s, p);
    var pc, op := s.procs[p].pc, s.procs[p].op;
    FoundKey(s, op, pc.i, pc.ptroff, pc.off, s.img.body[pc.off]);
    CallFlag(op);
    EffectStep(s, s', p, Code(1, NoErr));
  }

  lemma CallFlag(op: Op)
    requires CallOkToMake(op)
    ensures op.Store? ==> GoodFlag(op.flag)
  {
  }

  lemma KeepScanMiss(s: Sys, s': Sys, p: nat)
    requires Inv(s) && p < |s.procs| && StepScanMiss(s, s', p)
    ensures Inv(s')
  {
    hide Inv, Open, CallOkToMake, Files, MapOk, Linearizable, List, ApplyAll, TakeEffect, Local, Put;
    MissFacts(s, p);
    var op := s.procs[p].op;
    match op {
      case Fetch(_) => EffectStep(s, s', p, NoData);
      case Delete(_) => EffectStep(s, s', p, Code(-1, NoErr));
      case Store(_, _, flag) =>
        if flag == DB_REPLACE {
          EffectStep(s, s', p, Code(-1, ENOENT));
        } else {
          KeepMissNew(s, s', p);
        }
    }
  }

  lemma MissFacts(s: Sys, p: nat)
    requires Inv(s) && p < |s.procs| && s.procs[p].pc.Scanning? && s.procs[p].pc.off == 0
    ensures s.procs[p].op.key !in M(s) && CallOkToMake(s.procs[p].op)
    ensures Open(s.h, s.procs[p].ticket, s.procs[p].op)
    ensures s.procs[p].op.Store? ==> GoodFlag(s.procs[p].op.flag)
  {
    hide Inv, Open, Files, MapOk, Linearizable, ApplyAll;
    LocalOf(s, p);
    MissedKey(s, p);
  }

  lemma KeepMissNew(s: Sys, s': Sys, p: nat)
    requires Inv(s) && p < |s.procs| && StepScanMiss(s, s', p)
    requires s.procs[p].op.Store? && s.procs[p].op.flag != DB_REPLACE
    ensures Inv(s')
  {
    hide Inv, Open, CallOkToMake, Files, MapOk, Linearizable, List, ApplyAll, TakeEffect;
    LocalOf(s, p);
    MissedKey(s, p);
    PutStep(s, s', p, NewReadHead(false));
  }

  lemma KeepFetchDat(s: Sys, s': Sys, p: nat)
    requires Inv(s) && p < |s.procs| && StepFetchDat(s, s', p)
    ensures Inv(s')
  {
    hide Inv, Open, CallOkToMake, Files, MapOk, Linearizable, List, ApplyAll, TakeEffect, FoundAt;
    LocalOf(s, p);
    var pc := s.procs[p].pc;
    FoundKey(s, s.procs[p].op, pc.i, pc.ptroff, pc.o, pc.b);
    EffectStep(s, s', p, Data(s.img.ext[pc.b.datoff]));
  }

  lemma OwnReturn(s: Sys, s': Sys, p: nat)
    requires p < |s.procs| && |s.g.chain| == NLISTS && Linearizable(s.h) && DistinctTickets(s)
    requires StepReturn(s, s', p) && Effective(s.h, s.procs[p].ticket, s.procs[p].pc.r)
    ensures Own(s, s', p)
  {
    hide OwnLoc, WritesList, InChain, HasFree, Open, Effective, Linearizable, CallOkToMake, End;
    EndKeeps(s.h, s.procs[p].ticket, s.procs[p].pc.r);
    UnlockInCall(s.procs[p].pc.r);
  }

  lemma KeepReturn(s: Sys, s': Sys, p: nat)
    requires Inv(s) && p < |s.procs| && StepReturn(s, s', p)
    ensures Inv(s')
  {
    hide Local, Files, Linearizable, Duties, LockTable, Exclusive, CallOkToMake, ApplyAll, Effective, HeldOf, BypassOf,
      PendOf, MayGap, Loses;
    LocalOf(s, p);
    var pc := s.procs[p].pc;
    LocalUnlock(s, p, pc.r);
    EndKeeps(s.h, s.procs[p].ticket, pc.r);
    GainsChain(s'.procs[p], pc);
    assert s'.procs[p].(pc := pc) == s.procs[p];
    LockDropped(s, s', p, ChainLock(List(s.procs[p].op)), Writing(s.procs[p].op), s'.procs[p]);
    DutiesIdle(s, s', p, s'.procs[p]) by { UnlockDuties(pc.r); }
    FilesKept(s, s');
    OwnReturn(s, s', p);
    assert Local(s', p) by { LocalIdle(s', p); }
    Finish(s, s', p);
  }

  lemma UnlockDuties(r: Result)
    ensures HeldOf(Unlock(r)) == None && BypassOf(Unlock(r)) == None && PendOf(Unlock(r)) == None && !MayGap(Unlock(r))
  {
  }

  lemma LocalIdle(s: Sys, p: nat)
    requires p < |s.procs| && s.procs[p].pc == Idle
    ensures Local(s, p)
  {
  }
}
