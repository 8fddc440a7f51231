/** Whole runs of any number of processes: every run is linearizable, leaves a sound database
    behind whenever it comes to rest. */
module DbConc {
  import opened Options
  import opened DbFormat
  import opened DbImage
  import opened DbLists
  import opened DbSurgery
  import opened DbSpec
  import opened DbHistory
  import opened DbProcs
  import opened DbConcInv
  import opened DbConcSteps
  import opened DbConcWrites

  /** A freshly created database and processes that have made no call. */
  ghost predicate Init(s: Sys) {
    && (forall p :: 0 <= p < |s.procs| ==> s.procs[p].pc == Idle)
    && s.img == EmptyImage && s.locks == {} && s.g == EmptyLists
    && s.bypass == map[] && s.gap == map[] && s.pend == map[] && s.h == NoHistory
  }

  ghost predicate SearchStep(s: Sys, s': Sys, p: nat)
    requires p < |s.procs|
  {
    || StepLockChain(s, s', p) || StepReadHead(s, s', p) || StepScanNext(s, s', p) || StepScanHit(s, s', p)
    || StepScanMiss(s, s', p) || StepFetchDat(s, s', p) || StepOverDat(s, s', p) || StepReturn(s, s', p)
  }

  ghost predicate DeleteStep(s: Sys, s': Sys, p: nat)
    requires p < |s.procs|
  {
    || StepDelLock(s, s', p) || StepDelBlank(s, s', p) || StepDelReadFree(s, s', p) || StepDelWriteIdx(s, s', p)
    || StepDelWriteFree(s, s', p) || StepDelBypass(s, s', p) || StepDelDrop(s, s', p)
  }

  ghost predicate ReuseStep(s: Sys, s': Sys, p: nat)
    requires p < |s.procs|
  {
    || StepNewReadHead(s, s', p) || StepFreeLock(s, s', p) || StepFreeReadHead(s, s', p) || StepFreeScan(s, s', p)
    || StepFreeTake(s, s', p) || StepFreeDrop(s, s', p) || StepReuseDat(s, s', p) || StepReuseIdx(s, s', p)
  }

  ghost predicate AppendStep(s: Sys, s': Sys, p: nat)
    requires p < |s.procs|
  {
    || StepAppLockDat(s, s', p) || StepAppDat(s, s', p) || StepAppDropDat(s, s', p) || StepAppLockIdx(s, s', p)
    || StepAppIdx(s, s', p) || StepAppDropIdx(s, s', p) || StepLink(s, s', p)
  }

  ghost predicate NextRecStep(s: Sys, s': Sys, p: nat)
    requires p < |s.procs|
  {
    StepNrLock(s, s', p) || StepNrReturn(s, s', p)
  }

  /** Process p goes on with the call it is making. */
  ghost predicate Proceed(s: Sys, s': Sys, p: nat)
    requires p < |s.procs|
  {
    SearchStep(s, s', p) || DeleteStep(s, s', p) || ReuseStep(s, s', p) || AppendStep(s, s', p) || NextRecStep(s, s', p)
  }

  ghost predicate NewCall(s: Sys, s': Sys, p: nat)
    requires p < |s.procs|
  {
    StepNrCall(s, s', p) || exists op :: StepCall(s, s', p, op)
  }

  ghost predicate Moves(s: Sys, s': Sys, p: nat) {
    p < |s.procs| && (Proceed(s, s', p) || NewCall(s, s', p))
  }

  ghost predicate Next(s: Sys, s': Sys) { exists p :: Moves(s, s', p) }

  /** The states a run goes through, from a fresh database. */
  ghost predicate Run(r: seq<Sys>) {
    |r| > 0 && Init(r[0]) && forall i :: 0 <= i < |r| - 1 ==> Next(r[i], r[i + 1])
  }

  // ---- the invariant holds throughout ---------------------------------------

  lemma InitInv(s: Sys)
    requires Init(s)
    ensures Inv(s)
  {
    hide Files, LockTable, Exclusive, MapOk, EmptyChains;
    InitFiles(s);
    InitLocks(s);
  }

  lemma InitFiles(s: Sys)
    requires Init(s)
    ensures Files(s) && MapOk(s)
  {
    hide Wf, Struct, EmptyChains;
    EmptyImageWf();
    EmptyStruct();
    assert View(s) == EmptyImage.ptr;
  }

  lemma InitLocks(s: Sys)
    requires Init(s)
    ensures LockTable(s) && Exclusive(s)
  {
    hide List;
  }

  lemma SearchKeeps(s: Sys, s': Sys, p: nat)
    requires Inv(s) && p < |s.procs| && SearchStep(s, s', p)
    ensures Inv(s')
  {
    hide Inv, StepLockChain, StepReadHead, StepScanNext, StepScanHit, StepScanMiss, StepFetchDat, StepOverDat,
      StepReturn;
    if StepLockChain(s, s', p) { KeepLockChain(s, s', p); }
    else if StepReadHead(s, s', p) { KeepReadHead(s, s', p); }
    else if StepScanNext(s, s', p) { KeepScanNext(s, s', p); }
    else if StepScanHit(s, s', p) { KeepScanHit(s, s', p); }
    else if StepScanMiss(s, s', p) { KeepScanMiss(s, s', p); }
    else if StepFetchDat(s, s', p) { KeepFetchDat(s, s', p); }
    else if StepOverDat(s, s', p) { KeepOverDat(s, s', p); }
    else { KeepReturn(s, s', p); }
  }

  lemma DeleteKeeps(s: Sys, s': Sys, p: nat)
    requires Inv(s) && p < |s.procs| && DeleteStep(s, s', p)
    ensures Inv(s')
  {
    hide Inv, StepDelLock, StepDelBlank, StepDelReadFree, StepDelWriteIdx, StepDelWriteFree, StepDelBypass,
      StepDelDrop;
    if StepDelLock(s, s', p) { KeepDelLock(s, s', p); }
    else if StepDelBlank(s, s', p) { KeepDelBlank(s, s', p); }
    else if StepDelReadFree(s, s', p) { KeepDelReadFree(s, s', p); }
    else if StepDelWriteIdx(s, s', p) { KeepDelWriteIdx(s, s', p); }
    else if StepDelWriteFree(s, s', p) { KeepDelWriteFree(s, s', p); }
    else if StepDelBypass(s, s', p) { KeepDelBypass(s, s', p); }
    else { KeepDelDrop(s, s', p); }
  }

  lemma ReuseKeeps(s: Sys, s': Sys, p: nat)
    requires Inv(s) && p < |s.procs| && ReuseStep(s, s', p)
    ensures Inv(s')
  {
    hide Inv, StepNewReadHead, StepFreeLock, StepFreeReadHead, StepFreeScan, StepFreeTake, StepFreeDrop,
      StepReuseDat, StepReuseIdx;
    if StepNewReadHead(s, s', p) { KeepNewReadHead(s, s', p); }
    else if StepFreeLock(s, s', p) { KeepFreeLock(s, s', p); }
    else if StepFreeReadHead(s, s', p) { KeepFreeReadHead(s, s', p); }
    else if StepFreeScan(s, s', p) { KeepFreeScan(s, s', p); }
    else if StepFreeTake(s, s', p) { KeepFreeTake(s, s', p); }
    else if StepFreeDrop(s, s', p) { KeepFreeDrop(s, s', p); }
    else if StepReuseDat(s, s', p) { KeepReuseDat(s, s', p); }
    else { KeepReuseIdx(s, s', p); }
  }

  lemma AppendKeeps(s: Sys, s': Sys, p: nat)
    requires Inv(s) && p < |s.procs| && AppendStep(s, s', p)
    ensures Inv(s')
  {
    hide Inv, StepAppLockDat, StepAppDat, StepAppDropDat, StepAppLockIdx, StepAppIdx, StepAppDropIdx, StepLink;
    if StepAppLockDat(s, s', p) { KeepAppLockDat(s, s', p); }
    else if StepAppDat(s, s', p) { KeepAppDat(s, s', p); }
    else if StepAppDropDat(s, s', p) { KeepAppDropDat(s, s', p); }
    else if StepAppLockIdx(s, s', p) { KeepAppLockIdx(s, s', p); }
    else if StepAppIdx(s, s', p) { KeepAppIdx(s, s', p); }
    else if StepAppDropIdx(s, s', p) { KeepAppDropIdx(s, s', p); }
    else { KeepLink(s, s', p); }
  }

  lemma CallKeeps(s: Sys, s': Sys, p: nat)
    requires Inv(s) && p < |s.procs| && (NewCall(s, s', p) || NextRecStep(s, s', p))
    ensures Inv(s')
  {
    hide Inv, StepNrCall, StepNrLock, StepNrReturn, StepCall;
    if StepNrLock(s, s', p) { KeepNrLock(s, s', p); }
    else if StepNrReturn(s, s', p) { KeepNrReturn(s, s', p); }
    else if StepNrCall(s, s', p) { KeepNrCall(s, s', p); }
    else {
      var op :| StepCall(s, s', p, op);
      KeepCall(s, s', p, op);
    }
  }

  /** Every step of every process keeps the invariant. */
  lemma NextInv(s: Sys, s': Sys)
    requires Inv(s) && Next(s, s')
    ensures Inv(s')
  {
    hide Inv, SearchStep, DeleteStep, ReuseStep, AppendStep, NextRecStep, NewCall;
    var p :| Moves(s, s', p);
    if SearchStep(s, s', p) { SearchKeeps(s, s', p); }
    else if DeleteStep(s, s', p) { DeleteKeeps(s, s', p); }
    else if ReuseStep(s, s', p) { ReuseKeeps(s, s', p); }
    else if AppendStep(s, s', p) { AppendKeeps(s, s', p); }
    else { CallKeeps(s, s', p); }
  }

  lemma {:induction false} RunInv(r: seq<Sys>, i: nat)
    requires Run(r) && i < |r|
    ensures Inv(r[i])
  {
    hide Inv, Init, Next;
    if i == 0 {
      InitInv(r[0]);
    } else {
      RunInv(r, i - 1);
      assert Next(r[i - 1], r[i - 1 + 1]);
      NextInv(r[i - 1], r[i]);
    }
  }

  // ---- linearizability ------------------------------------------------------

  function OpsOf(calls: seq<CallInfo>, order: seq<nat>): (ops: seq<Op>)
    requires forall n :: 0 <= n < |order| ==> order[n] < |calls|
    ensures |ops| == |order| && forall n :: 0 <= n < |order| ==> ops[n] == calls[order[n]].op
  {
    if order == [] then [] else OpsOf(calls, order[..|order| - 1]) + [calls[order[|order| - 1]].op]
  }

  predicate Before(order: seq<nat>, a: nat, b: nat) {
    exists m, n :: 0 <= m < n < |order| && order[m] == a && order[n] == b
  }

  /** order lists calls without repetition and with every call that has returned among them; made
      one after the other in that order on one map, each that has returned answers what it
      returned, and it comes after all calls that had returned when it was made. */
  ghost predicate Explains(calls: seq<CallInfo>, order: seq<nat>) {
    && (forall n :: 0 <= n < |order| ==> order[n] < |calls|)
    && (forall m, n :: 0 <= m < n < |order| ==> order[m] != order[n])
    && (forall t :: 0 <= t < |calls| && calls[t].done.Some? ==> t in order)
    && (forall n :: 0 <= n < |order| && calls[order[n]].done.Some? ==>
          calls[order[n]].done.value == Answers(map[], OpsOf(calls, order))[n])
    && (forall t, a :: t in order && a in calls[t].after ==> Before(order, a, t))
  }

  lemma TicketsExplain(h: History)
    requires Linearizable(h)
    ensures Explains(h.calls, h.tickets) && OpsOf(h.calls, h.tickets) == h.ops
  {
    hide Answers;
    forall n | 0 <= n < |h.tickets|
      ensures h.tickets[n] < |h.calls|
      ensures h.calls[h.tickets[n]].lin == Some(n) && h.calls[h.tickets[n]].op == h.ops[n]
    {
      assert PlaceOk(h, n);
    }
    assert OpsOf(h.calls, h.tickets) == h.ops;
    forall t | 0 <= t < |h.calls| && h.calls[t].done.Some?
      ensures t in h.tickets
    {
      assert CallOk(h, t);
    }
    forall n | 0 <= n < |h.tickets| && h.calls[h.tickets[n]].done.Some?
      ensures h.calls[h.tickets[n]].done.value == h.answers[n]
    {
      assert PlaceOk(h, n) && CallOk(h, h.tickets[n]);
    }
    forall t, a | t in h.tickets && a in h.calls[t].after
      ensures Before(h.tickets, a, t)
    {
      var n :| 0 <= n < |h.tickets| && h.tickets[n] == t;
      assert PlaceOk(h, n) && CallOk(h, t) && CallOk(h, a);
      assert h.tickets[h.calls[a].lin.value] == a;
    }
  }

  /** At every point of every run, the calls made so far are explained by one sequential order. */
  lemma RunsLinearizable(r: seq<Sys>, i: nat)
    requires Run(r) && i < |r|
    ensures exists order :: Explains(r[i].h.calls, order) && M(r[i]) == ApplyAll(map[], OpsOf(r[i].h.calls, order))
  {
    hide Linearizable, Explains, Run, LockTable, Exclusive, Files, MapOk, Duties, DistinctTickets, Local, ApplyAll;
    RunInv(r, i);
    TicketsExplain(r[i].h);
    assert Explains(r[i].h.calls, r[i].h.tickets);
  }

  lemma HistoryAnswers(h: History) returns (order: seq<nat>, maps: seq<map<string, string>>)
    requires Linearizable(h)
    ensures Explains(h.calls, order) && forall n :: 0 <= n < |order| ==> order[n] < |h.calls|
    ensures forall t :: 0 <= t < |h.calls| && h.calls[t].done.Some? ==> t in order
    ensures |maps| == |order| + 1 && maps[0] == map[] && maps[|order|] == ApplyAll(map[], h.ops)
    ensures forall n :: 0 <= n < |order| && h.calls[order[n]].op.Fetch? ==>
      var c, m := h.calls[order[n]], maps[n];
      maps[n + 1] == m && (c.done.Some? ==> c.done.value == if c.op.key in m then Data(m[c.op.key]) else NoData)
    ensures forall n :: 0 <= n < |order| && h.calls[order[n]].op.Delete? ==>
      var c, m := h.calls[order[n]], maps[n];
      && maps[n + 1] == m - {c.op.key}
      && (c.done.Some? ==> c.done.value == Code(if c.op.key in m then 0 else -1, NoErr))
    ensures forall n :: 0 <= n < |order| && h.calls[order[n]].op.Store? ==>
      var c, m := h.calls[order[n]], maps[n];
      var f := c.op.flag;
      var stores := f == DB_STORE || (f == DB_INSERT && c.op.key !in m) || (f == DB_REPLACE && c.op.key in m);
      && maps[n + 1] == (if stores then m[c.op.key := c.op.data] else m)
      && (c.done.Some? ==>
            c.done.value == if stores then Code(0, NoErr) else if f == DB_INSERT then Code(1, NoErr)
                            else if f == DB_REPLACE then Code(-1, ENOENT) else Code(-1, EINVAL))
  {
    hide Answers, ApplyAll;
    TicketsExplain(h);
    OrderedOps(h);
    assert forall t :: 0 <= t < |h.calls| && h.calls[t].done.Some? ==> t in h.tickets;
    hide Explains, Linearizable, OpsOf;
    order := h.tickets;
    maps := CallsMean(h.ops, h.answers);
  }

  lemma OrderedOps(h: History)
    requires Linearizable(h)
    ensures |h.tickets| == |h.ops| && h.answers == Answers(map[], h.ops)
    ensures forall n :: 0 <= n < |h.ops| ==> h.tickets[n] < |h.calls| && h.calls[h.tickets[n]].op == h.ops[n]
    ensures forall n :: 0 <= n < |h.ops| && h.calls[h.tickets[n]].done.Some? ==> h.calls[h.tickets[n]].done.value == h.answers[n]
  {
    hide Answers;
    forall n | 0 <= n < |h.ops|
      ensures h.tickets[n] < |h.calls| && h.calls[h.tickets[n]].op == h.ops[n]
      ensures h.calls[h.tickets[n]].done.Some? ==> h.calls[h.tickets[n]].done.value == h.answers[n]
    {
      assert PlaceOk(h, n) && CallOk(h, h.tickets[n]);
    }
  }

  /** The same in terms of the maps between the calls of that order: empty at first, the last one what
      the calls that have taken effect leave, each call turning one into the next and, if it has
      returned, having answered as it is written here. */
  lemma RunsAnswer(r: seq<Sys>, i: nat, h: History) returns (order: seq<nat>, maps: seq<map<string, string>>)
    requires Run(r) && i < |r| && h == r[i].h
    ensures Explains(h.calls, order) && forall n :: 0 <= n < |order| ==> order[n] < |h.calls|
    ensures forall t :: 0 <= t < |h.calls| && h.calls[t].done.Some? ==> t in order
    ensures |maps| == |order| + 1 && maps[0] == map[] && maps[|order|] == M(r[i])
    ensures forall n :: 0 <= n < |order| && h.calls[order[n]].op.Fetch? ==>
      var c, m := h.calls[order[n]], maps[n];
      maps[n + 1] == m && (c.done.Some? ==> c.done.value == if c.op.key in m then Data(m[c.op.key]) else NoData)
    ensures forall n :: 0 <= n < |order| && h.calls[order[n]].op.Delete? ==>
      var c, m := h.calls[order[n]], maps[n];
      && maps[n + 1] == m - {c.op.key}
      && (c.done.Some? ==> c.done.value == Code(if c.op.key in m then 0 else -1, NoErr))
    ensures forall n :: 0 <= n < |order| && h.calls[order[n]].op.Store? ==>
      var c, m := h.calls[order[n]], maps[n];
      var f := c.op.flag;
      var stores := f == DB_STORE || (f == DB_INSERT && c.op.key !in m) || (f == DB_REPLACE && c.op.key in m);
      && maps[n + 1] == (if stores then m[c.op.key := c.op.data] else m)
      && (c.done.Some? ==>
            c.done.value == if stores then Code(0, NoErr) else if f == DB_INSERT then Code(1, NoErr)
                            else if f == DB_REPLACE then Code(-1, ENOENT) else Code(-1, EINVAL))
  {
    hide Explains, Linearizable, Run, LockTable, Exclusive, Files, MapOk, Duties, DistinctTickets, Local, ApplyAll;
    RunInv(r, i);
    assert M(r[i]) == ApplyAll(map[], h.ops);
    hide Inv, M;
    order, maps := HistoryAnswers(h);
  }

  /** In any order that explains the calls of a run, between two insertions of one key that have
      answered 0 there is a deletion of it, and that has answered 0 if it has returned. */
  lemma InsertsApart(calls: seq<CallInfo>, order: seq<nat>, a: nat, b: nat) returns (m: nat)
    requires Explains(calls, order) && a < b < |order|
    requires calls[order[a]].op.Store? && calls[order[a]].op.flag == DB_INSERT && calls[order[a]].done == Some(Code(0, NoErr))
    requires calls[order[b]].op.Store? && calls[order[b]].op.flag == DB_INSERT && calls[order[b]].done == Some(Code(0, NoErr))
    requires calls[order[a]].op.key == calls[order[b]].op.key
    ensures a < m < b && calls[order[m]].op == Delete(calls[order[a]].op.key)
    ensures calls[order[m]].done.Some? ==> calls[order[m]].done.value == Code(0, NoErr)
  {
    var ops := OpsOf(calls, order);
    hide Answers, OpsOf;
    m := DbSpec.InsertsApart(ops, Answers(map[], ops), ops[a].key, a, b);
  }

  // ---- real time ------------------------------------------------------------

  /** Calls are added at the end, keep what had returned before them, and once returned stay so. */
  ghost predicate Grows(h: History, h': History) {
    && |h.calls| <= |h'.calls|
    && (forall t :: 0 <= t < |h.calls| ==> h'.calls[t].after == h.calls[t].after)
    && (forall t :: 0 <= t < |h.calls| && h.calls[t].done.Some? ==> h'.calls[t].done.Some?)
    && (forall t :: |h.calls| <= t < |h'.calls| ==> h'.calls[t].after == DoneCalls(h))
  }

  lemma HistoryGrows(h: History, t: nat, r: Result)
    requires t < |h.calls|
    ensures Grows(h, h) && Grows(h, TakeEffect(h, t)) && Grows(h, End(h, t, r))
  {
    hide Answer, ApplyAll;
  }

  lemma SearchGrows(s: Sys, s': Sys, p: nat)
    requires p < |s.procs| && SearchStep(s, s', p)
    ensures Grows(s.h, s'.h)
  {
    hide List, Grantable, TakeEffect, End, Grows, PutExt, Blanks, HoldsRegion;
    var t := s.procs[p].ticket;
    if t < |s.h.calls| {
      HistoryGrows(s.h, t, if s.procs[p].pc.Unlock? then s.procs[p].pc.r else NoData);
    }
    assert Grows(s.h, s.h) by { GrowsSame(s.h); }
  }

  lemma GrowsSame(h: History)
    ensures Grows(h, h)
  {
  }

  lemma OthersGrow(s: Sys, s': Sys, p: nat)
    requires p < |s.procs|
    requires DeleteStep(s, s', p) || ReuseStep(s, s', p) || AppendStep(s, s', p) || NextRecStep(s, s', p)
    ensures Grows(s.h, s'.h)
  {
    hide List, Grantable, TakeEffect, End, Grows, PutExt, PutRec, SetPtr, AppendExt, AppendRec, MakeBody, BlankBody, Blanks,
      Push, Remove, Fits;
    var t := s.procs[p].ticket;
    if t < |s.h.calls| { HistoryGrows(s.h, t, NoData); }
    assert Grows(s.h, s.h) by { GrowsSame(s.h); }
  }

  lemma CallGrows(s: Sys, s': Sys, p: nat)
    requires p < |s.procs| && NewCall(s, s', p)
    ensures Grows(s.h, s'.h)
  {
    hide CallOkToMake;
  }

  lemma {:induction false} RunGrows(r: seq<Sys>, i: nat, j: nat, a: nat, t: nat)
    requires Run(r) && i <= j < |r| && a < |r[i].h.calls| && r[i].h.calls[a].done.Some? && |r[i].h.calls| <= t
    ensures a < |r[j].h.calls| && r[j].h.calls[a].done.Some? && |r[i].h.calls| <= |r[j].h.calls|
    ensures t < |r[j].h.calls| ==> a in r[j].h.calls[t].after
  {
    hide Init, Proceed, NewCall;
    if i < j {
      RunGrows(r, i, j - 1, a, t);
      assert Next(r[j - 1], r[j - 1 + 1]);
      var p :| Moves(r[j - 1], r[j], p);
      MoveGrows(r[j - 1], r[j], p);
    }
  }

  lemma MoveGrows(s: Sys, s': Sys, p: nat)
    requires Moves(s, s', p)
    ensures Grows(s.h, s'.h)
  {
    hide SearchStep, DeleteStep, ReuseStep, AppendStep, NextRecStep, NewCall, Grows;
    if SearchStep(s, s', p) { SearchGrows(s, s', p); }
    else if NewCall(s, s', p) { CallGrows(s, s', p); }
    else { OthersGrow(s, s', p); }
  }

  /** The order respects real time: a call that had returned at one point of a run comes before any
      call made after that point. */
  lemma RealTime(r: seq<Sys>, i: nat, j: nat, order: seq<nat>, a: nat, t: nat)
    requires Run(r) && i <= j < |r| && Explains(r[j].h.calls, order)
    requires a < |r[i].h.calls| && r[i].h.calls[a].done.Some? && |r[i].h.calls| <= t && t in order
    ensures exists m, n :: 0 <= m < n < |order| && order[m] == a && order[n] == t
  {
    hide Run, Answers, OpsOf;
    RunGrows(r, i, j, a, t);
    assert t < |r[j].h.calls|;
  }

  // ---- sequential reading ---------------------------------------------------

  /** A record that sequential reading shows is live, with the value of its key in the map in its
      extent, or a new one that a store is about to link in. */
  ghost predicate Shown(s: Sys, o: nat)
    requires o in s.img.body
  {
    var b := s.img.body[o];
    || (LiveAt(s.img.body, s.g, o) && b.key in M(s) && b.datoff in s.img.ext && s.img.ext[b.datoff] == M(s)[b.key])
    || exists q :: 0 <= q < |s.procs| && (s.procs[q].pc == AppDropIdx(o) || s.procs[q].pc == Link(o))
         && s.procs[q].op.Store? && b.key == s.procs[q].op.key
         && b.datoff in s.img.ext && s.img.ext[b.datoff] == s.procs[q].op.data
  }

  /** While db_nextrec holds the free list, no deletion is between its first write and its last, the
      chains are those that the pointers on file make, and every record whose key is not blank is
      one to show. */
  lemma NextRecReads(r: seq<Sys>, i: nat, p: nat)
    requires Run(r) && i < |r| && p < |r[i].procs| && r[i].procs[p].pc.NrHoldFree?
    ensures forall q :: 0 <= q < |r[i].procs| ==> !HasFree(r[i].procs[q].pc)
    ensures r[i].bypass == map[] && Struct(r[i].img.ptr, r[i].img.body, r[i].g)
    ensures forall o :: o in r[i].img.body && !AllBlank(r[i].img.body[o].key) ==> Shown(r[i], o)
  {
    hide Run, Linearizable, LockTable, DistinctTickets, Struct, Wf, ExtentsOwned, MapOk, Local, HasFree, AllBlank, Duties, Shown;
    RunInv(r, i);
    var s := r[i];
    forall q | 0 <= q < |s.procs|
      ensures !HasFree(s.procs[q].pc)
    {
      HolderAlone(s, p, q);
    }
    NoBypass(s);
    assert View(s) == s.img.ptr;
    forall o | o in s.img.body && !AllBlank(s.img.body[o].key)
      ensures Shown(s, o)
    {
      NonblankShown(s, o);
    }
  }

  lemma HolderAlone(s: Sys, p: nat, q: nat)
    requires Exclusive(s) && p < |s.procs| && q < |s.procs| && s.procs[p].pc.NrHoldFree?
    ensures !HasFree(s.procs[q].pc)
  {
    hide List;
    if p != q { assert NoConflict(s.procs[q], s.procs[p]); }
  }

  lemma NoBypass(s: Sys)
    requires Duties(s) && forall q :: 0 <= q < |s.procs| ==> !HasFree(s.procs[q].pc)
    ensures s.bypass == map[]
  {
    forall l ensures l !in s.bypass {
      if l in s.bypass { BypassIsDeletion(s, l); }
    }
  }

  lemma BypassIsDeletion(s: Sys, l: nat)
    requires BypassedBy(s, l)
    ensures exists q :: 0 <= q < |s.procs| && HasFree(s.procs[q].pc)
  {
    var q :| 0 <= q < |s.procs| && BypassOf(s.procs[q].pc) == Some(l);
    assert HasFree(s.procs[q].pc);
  }

  lemma NonblankShown(s: Sys, o: nat)
    requires Inv(s) && o in s.img.body && !AllBlank(s.img.body[o].key)
    requires forall q :: 0 <= q < |s.procs| ==> !HasFree(s.procs[q].pc)
    ensures Shown(s, o)
  {
    if o in s.g.home && s.g.home[o].Held? {
      HeldShown(s, o);
    } else {
      ListedShown(s, o);
    }
  }

  lemma ListedShown(s: Sys, o: nat)
    requires Inv(s) && o in s.img.body && !AllBlank(s.img.body[o].key) && !(o in s.g.home && s.g.home[o].Held?)
    ensures Shown(s, o)
  {
    hide LockTable, Exclusive, Linearizable, DistinctTickets, Local, Duties, Wf, ExtentsOwned, AllBlank, Linked, M, Distinct,
      OnlyHome, Hash;
    assert s.g.home[o].OnList?;
    assert LiveAt(s.img.body, s.g, o);
  }

  lemma HeldShown(s: Sys, o: nat)
    requires Inv(s) && o in s.img.body && !AllBlank(s.img.body[o].key) && o in s.g.home && s.g.home[o].Held?
    requires forall q :: 0 <= q < |s.procs| ==> !HasFree(s.procs[q].pc)
    ensures Shown(s, o)
  {
    hide LockTable, Exclusive, Linearizable, DistinctTickets, Files, MapOk, AllBlank, Open, Effective, CallOkToMake, Inserting,
      StoreOpen, DelOpen, LiveAt, M;
    var q := s.g.home[o].p;
    assert q < |s.procs| && HeldOf(s.procs[q].pc) == Some(o);
    assert Local(s, q);
    hide Inv;
  }

  // ---- at rest --------------------------------------------------------------

  /** No process is in the middle of a fetch, delete or store. */
  predicate AtRest(s: Sys) {
    forall p :: 0 <= p < |s.procs| ==> !InCall(s.procs[p].pc)
  }

  lemma RestOwes(s: Sys, p: nat)
    requires AtRest(s) && p < |s.procs|
    ensures HeldOf(s.procs[p].pc) == None && BypassOf(s.procs[p].pc) == None && PendOf(s.procs[p].pc) == None
    ensures !MayGap(s.procs[p].pc)
  {
  }

  lemma NothingOwed(s: Sys)
    requires Duties(s) && AtRest(s)
    ensures s.bypass == map[] && s.gap == map[] && s.pend == map[]
    ensures forall o :: o in s.g.home ==> !s.g.home[o].Held?
  {
    hide HeldOf, BypassOf, PendOf, MayGap, AtRest;
    forall p | 0 <= p < |s.procs|
      ensures HeldOf(s.procs[p].pc) == None && BypassOf(s.procs[p].pc) == None && PendOf(s.procs[p].pc) == None
      ensures !MayGap(s.procs[p].pc)
    {
      RestOwes(s, p);
    }
    forall l
      ensures l in s.bypass ==> BypassedBy(s, l)
      ensures !BypassedBy(s, l)
    {
    }
    assert s.bypass == map[];
    assert forall k :: k !in s.gap;
    assert s.gap == map[];
    assert forall d :: d !in s.pend;
    assert s.pend == map[];
  }

  lemma SettledAtRest(s: Sys)
    requires Files(s) && s.bypass == map[] && s.pend == map[]
    requires forall o :: o in s.g.home ==> !s.g.home[o].Held?
    ensures Wf(s.img) && Settled(s.img, s.g, {})
  {
    hide Wf, Struct;
    assert View(s) == s.img.ptr;
  }

  lemma ContentsAtRest(s: Sys)
    requires MapOk(s) && s.gap == map[]
    ensures Contents(s.img, s.g) == M(s)
  {
    hide M;
    assert forall k :: k in s.g.loc ==> HasValue(s.img, s.g, k);
    assert forall k :: k in Contents(s.img, s.g) <==> k in s.g.loc;
    forall k | k in M(s)
      ensures Contents(s.img, s.g)[k] == M(s)[k]
    {
      assert k in s.g.loc;
    }
  }

  /** Whenever a run comes to rest, the files are sound, every record is on its one list, and the
      database holds exactly the map that the calls, in their order, built. */
  lemma RestIsSound(r: seq<Sys>, i: nat)
    requires Run(r) && i < |r| && AtRest(r[i])
    ensures Wf(r[i].img) && Settled(r[i].img, r[i].g, {})
    ensures Contents(r[i].img, r[i].g) == ApplyAll(map[], r[i].h.ops)
  {
    hide Linearizable, Run, LockTable, Exclusive, Files, MapOk, Duties, DistinctTickets, Local, ApplyAll, Wf, Settled,
      Contents, AtRest;
    RunInv(r, i);
    NothingOwed(r[i]);
    SettledAtRest(r[i]);
    ContentsAtRest(r[i]);
  }
}
