/** The three-member System V semaphore set of apue.3e/lib/semaph.c: any number of processes create
    and close it, use it, and may exit at any step with their adjustments undone. */
module Semaph {
  import opened Options

  const BIGCOUNT := 10000

  /** The set that exists under the key. id tells one lifetime from the next. The last four fields
      are bookkeeping: whether [0] has been set, whether [1] has been set, the initial value, and how
      much undoing would have taken [0] below zero. */
  datatype Sem = Sem(id: nat, v0: int, v1: int, v2: int, set0: bool, complete: bool, start: int, lost: int)

  datatype Pc =
    | Idle
    | CreateGet                  // semget
    | CreateLock                 // semop(op_lock)
    | CreateAsleep               // waiting in that call
    | CreateRead                 // GETVAL [1]
    | CreateSet0 | CreateSet1    // SETVAL
    | CreateEnd                  // semop(op_endcreate)
    | CloseLock                  // semop(op_close)
    | CloseAsleep
    | CloseRead                  // GETVAL [1]
    | CloseRemove                // IPC_RMID
    | CloseUnlock                // semop(op_unlock)
    | Gone                       // exited
    | Failed                     // exited because the lock could not be taken

  /** a0, a1 and a2 are the adjustments the system makes when the process exits; handles counts the
      calls of sem_create that have returned less the handles closed. */
  datatype Proc = Proc(pc: Pc, id: nat, initval: int, handles: nat, a0: int, a1: int, a2: int)

  datatype Sys = Sys(sem: Option<Sem>, nextId: nat, procs: seq<Proc>)

  function Handles(procs: seq<Proc>): nat {
    if procs == [] then 0 else Handles(procs[..|procs| - 1]) + procs[|procs| - 1].handles
  }

  function Undo0(procs: seq<Proc>): int {
    if procs == [] then 0 else Undo0(procs[..|procs| - 1]) + procs[|procs| - 1].a0
  }

  function Map(procs: seq<Proc>, f: Proc -> Proc): (r: seq<Proc>)
    ensures |r| == |procs| && forall i :: 0 <= i < |r| ==> r[i] == f(procs[i])
  {
    if procs == [] then [] else Map(procs[..|procs| - 1], f) + [f(procs[|procs| - 1])]
  }

  function To(s: Sys, p: nat, pr: Proc): Sys
    requires p < |s.procs|
  {
    s.(procs := s.procs[p := pr])
  }

  predicate Here(s: Sys, p: nat)
    requires p < |s.procs|
  {
    s.sem.Some? && s.sem.value.id == s.procs[p].id
  }

  // ---- sem_create -----------------------------------------------------------

  ghost predicate CallCreate(s: Sys, s': Sys, p: nat, initval: int)
    requires p < |s.procs|
  {
    s.procs[p].pc == Idle && initval >= 0 && s' == To(s, p, s.procs[p].(pc := CreateGet, initval := initval))
  }

  /** semget: a new set has all members 0. */
  ghost predicate Get(s: Sys, s': Sys, p: nat)
    requires p < |s.procs|
  {
    && s.procs[p].pc == CreateGet
    && s' == if s.sem.Some? then To(s, p, s.procs[p].(pc := CreateLock, id := s.sem.value.id))
             else To(s, p, s.procs[p].(pc := CreateLock, id := s.nextId)).(
                    sem := Some(Sem(s.nextId, 0, 0, 0, false, false, 0, 0)), nextId := s.nextId + 1)
  }

  /** Both operations of op_lock at once: [2] is 0 and becomes 1, with undo. */
  ghost predicate TakeLock(s: Sys, s': Sys, p: nat)
    requires p < |s.procs|
  {
    && (s.procs[p].pc == CreateLock || s.procs[p].pc == CreateAsleep) && Here(s, p) && s.sem.value.v2 == 0
    && s' == To(s, p, s.procs[p].(pc := CreateRead, a2 := s.procs[p].a2 - 1)).(
         sem := Some(s.sem.value.(v2 := 1)))
  }

  /** The id is no longer valid: EINVAL, so go back and get the set again. */
  ghost predicate LockAgain(s: Sys, s': Sys, p: nat)
    requires p < |s.procs|
  {
    s.procs[p].pc == CreateLock && !Here(s, p) && s' == To(s, p, s.procs[p].(pc := CreateGet))
  }

  ghost predicate FallAsleep(s: Sys, s': Sys, p: nat)
    requires p < |s.procs|
  {
    && Here(s, p) && s.sem.value.v2 != 0
    && (s.procs[p].pc == CreateLock || s.procs[p].pc == CloseLock)
    && s' == To(s, p, s.procs[p].(pc := if s.procs[p].pc == CreateLock then CreateAsleep else CloseAsleep))
  }

  /** The set is removed while the process sleeps: EIDRM, which the code does not expect. */
  ghost predicate LockFails(s: Sys, s': Sys, p: nat)
    requires p < |s.procs|
  {
    s.procs[p].pc == CreateAsleep && !Here(s, p) && s' == To(s, p, s.procs[p].(pc := Failed))
  }

  ghost predicate ReadCount(s: Sys, s': Sys, p: nat)
    requires p < |s.procs|
  {
    && s.procs[p].pc == CreateRead && Here(s, p)
    && s' == To(s, p, s.procs[p].(pc := if s.sem.value.v1 == 0 then CreateSet0 else CreateEnd))
  }

  /** SETVAL on [0]; it clears every process's adjustment for that member. */
  ghost predicate Set0(s: Sys, s': Sys, p: nat)
    requires p < |s.procs|
  {
    && s.procs[p].pc == CreateSet0 && Here(s, p)
    && s' == s.(procs := Map(s.procs, (q: Proc) => q.(a0 := 0))[p := s.procs[p].(pc := CreateSet1, a0 := 0)],
                sem := Some(s.sem.value.(v0 := s.procs[p].initval, set0 := true, start := s.procs[p].initval, lost := 0)))
  }

  ghost predicate Set1(s: Sys, s': Sys, p: nat)
    requires p < |s.procs|
  {
    && s.procs[p].pc == CreateSet1 && Here(s, p)
    && s' == s.(procs := Map(s.procs, (q: Proc) => q.(a1 := 0))[p := s.procs[p].(pc := CreateEnd, a1 := 0)],
                sem := Some(s.sem.value.(v1 := BIGCOUNT, complete := true)))
  }

  /** op_endcreate: [1] and [2] are decremented at once, with undo. */
  ghost predicate EndCreate(s: Sys, s': Sys, p: nat)
    requires p < |s.procs|
  {
    && s.procs[p].pc == CreateEnd && Here(s, p) && s.sem.value.v1 >= 1 && s.sem.value.v2 >= 1
    && var pr := s.procs[p];
       s' == To(s, p, pr.(pc := Idle, handles := pr.handles + 1, a1 := pr.a1 + 1, a2 := pr.a2 + 1)).(
         sem := Some(s.sem.value.(v1 := s.sem.value.v1 - 1, v2 := s.sem.value.v2 - 1)))
  }

  // ---- sem_close ------------------------------------------------------------

  ghost predicate CallClose(s: Sys, s': Sys, p: nat)
    requires p < |s.procs|
  {
    s.procs[p].pc == Idle && s.procs[p].handles > 0 && s' == To(s, p, s.procs[p].(pc := CloseLock))
  }

  /** op_close: wait for [2], lock it and increment [1], all at once, with undo. */
  ghost predicate TakeClose(s: Sys, s': Sys, p: nat)
    requires p < |s.procs|
  {
    && (s.procs[p].pc == CloseLock || s.procs[p].pc == CloseAsleep) && Here(s, p) && s.sem.value.v2 == 0
    && s.procs[p].handles > 0
    && var pr := s.procs[p];
       s' == To(s, p, pr.(pc := CloseRead, handles := pr.handles - 1, a1 := pr.a1 - 1, a2 := pr.a2 - 1)).(
         sem := Some(s.sem.value.(v1 := s.sem.value.v1 + 1, v2 := 1)))
  }

  ghost predicate ReadLast(s: Sys, s': Sys, p: nat)
    requires p < |s.procs|
  {
    && s.procs[p].pc == CloseRead && Here(s, p) && s.sem.value.v1 <= BIGCOUNT
    && s' == To(s, p, s.procs[p].(pc := if s.sem.value.v1 == BIGCOUNT then CloseRemove else CloseUnlock))
  }

  /** IPC_RMID: the set and everybody's adjustments for it are gone. */
  ghost predicate Remove(s: Sys, s': Sys, p: nat)
    requires p < |s.procs|
  {
    && s.procs[p].pc == CloseRemove && Here(s, p)
    && s' == s.(procs := Map(s.procs, (q: Proc) => q.(a0 := 0, a1 := 0, a2 := 0))[
                  p := s.procs[p].(pc := Idle, a0 := 0, a1 := 0, a2 := 0)],
                sem := None)
  }

  ghost predicate CloseDone(s: Sys, s': Sys, p: nat)
    requires p < |s.procs|
  {
    && s.procs[p].pc == CloseUnlock && Here(s, p) && s.sem.value.v2 >= 1
    && s' == To(s, p, s.procs[p].(pc := Idle, a2 := s.procs[p].a2 + 1)).(
         sem := Some(s.sem.value.(v2 := s.sem.value.v2 - 1)))
  }

  // ---- sem_op and exit ------------------------------------------------------

  /** sem_wait, sem_signal and sem_op on an open handle, with undo. */
  ghost predicate Operate(s: Sys, s': Sys, p: nat, amount: int)
    requires p < |s.procs|
  {
    && s.procs[p].pc == Idle && s.procs[p].handles > 0 && Here(s, p) && s.sem.value.v0 + amount >= 0
    && s' == To(s, p, s.procs[p].(a0 := s.procs[p].a0 - amount)).(
         sem := Some(s.sem.value.(v0 := s.sem.value.v0 + amount)))
  }

  predicate Over(pc: Pc) { pc.Gone? || pc.Failed? }

  /** The process exits, wherever it is; its adjustments are added. [0] is not taken below zero. */
  ghost predicate Exit(s: Sys, s': Sys, p: nat)
    requires p < |s.procs|
  {
    && !Over(s.procs[p].pc)
    && var pr := s.procs[p];
       var after := pr.(pc := Gone, handles := 0, a0 := 0, a1 := 0, a2 := 0);
       s' == if s.sem.None? then To(s, p, after)
             else var m := s.sem.value;
               To(s, p, after).(sem := Some(m.(
                 v0 := if m.v0 + pr.a0 >= 0 then m.v0 + pr.a0 else 0,
                 v1 := m.v1 + pr.a1, v2 := m.v2 + pr.a2,
                 lost := if m.v0 + pr.a0 >= 0 then m.lost else m.lost - (m.v0 + pr.a0))))
  }

  ghost predicate Moves(s: Sys, s': Sys, p: nat) {
    && p < |s.procs|
    && (|| (exists initval :: CallCreate(s, s', p, initval)) || Get(s, s', p) || TakeLock(s, s', p) || LockAgain(s, s', p)
        || FallAsleep(s, s', p) || LockFails(s, s', p) || ReadCount(s, s', p) || Set0(s, s', p) || Set1(s, s', p)
        || EndCreate(s, s', p) || CallClose(s, s', p) || TakeClose(s, s', p) || ReadLast(s, s', p) || Remove(s, s', p)
        || CloseDone(s, s', p) || (exists amount :: Operate(s, s', p, amount)) || Exit(s, s', p))
  }

  ghost predicate Next(s: Sys, s': Sys) { exists p :: Moves(s, s', p) }

  ghost predicate Init(s: Sys) {
    && s.sem == None && s.nextId == 0
    && forall p :: 0 <= p < |s.procs| ==> s.procs[p] == Proc(Idle, 0, 0, 0, 0, 0, 0)
  }

  ghost predicate Trace(r: seq<Sys>) {
    && |r| > 0 && Init(r[0])
    && (forall i :: 0 <= i < |r| - 1 ==> Next(r[i], r[i + 1]))
  }

  /** A run in which fewer than BIGCOUNT handles are open at any time. */
  ghost predicate Run(r: seq<Sys>) {
    && Trace(r)
    && (forall i :: 0 <= i < |r| ==> Handles(r[i].procs) < BIGCOUNT)
  }

  // ---- sums -----------------------------------------------------------------

  lemma {:induction false} SumUpdate(procs: seq<Proc>, p: nat, pr: Proc)
    requires p < |procs|
    ensures Handles(procs[p := pr]) == Handles(procs) - procs[p].handles + pr.handles
    ensures Undo0(procs[p := pr]) == Undo0(procs) - procs[p].a0 + pr.a0
  {
    var n := |procs| - 1;
    if p < n {
      assert procs[p := pr][..n] == procs[..n][p := pr];
      SumUpdate(procs[..n], p, pr);
    } else {
      assert procs[p := pr][..n] == procs[..n];
    }
  }

  lemma {:induction false} SumBounds(procs: seq<Proc>, p: nat)
    requires p < |procs|
    ensures Handles(procs) >= procs[p].handles
  {
    var n := |procs| - 1;
    if p < n { SumBounds(procs[..n], p); }
  }

  lemma {:induction false} SumZero(procs: seq<Proc>)
    ensures (forall p :: 0 <= p < |procs| ==> procs[p].handles == 0) ==> Handles(procs) == 0
    ensures (forall p :: 0 <= p < |procs| ==> procs[p].a0 == 0) ==> Undo0(procs) == 0
  {
    if procs != [] { SumZero(procs[..|procs| - 1]); }
  }

  lemma {:induction false} SameHandles(a: seq<Proc>, b: seq<Proc>)
    requires |a| == |b| && forall p :: 0 <= p < |a| ==> a[p].handles == b[p].handles
    ensures Handles(a) == Handles(b)
    ensures (forall p :: 0 <= p < |a| ==> a[p].a0 == b[p].a0) ==> Undo0(a) == Undo0(b)
  {
    if a != [] { SameHandles(a[..|a| - 1], b[..|b| - 1]); }
  }

  // ---- the invariant --------------------------------------------------------

  predicate HasLock(pc: Pc) {
    || pc.CreateRead? || pc.CreateSet0? || pc.CreateSet1? || pc.CreateEnd? || pc.CloseRead? || pc.CloseRemove? || pc.CloseUnlock?
  }

  predicate Closing(pc: Pc) { pc.CloseLock? || pc.CloseAsleep? }

  /** Adjustments are exactly the handles and the lock that the process has. */
  predicate AdjOk(pr: Proc) {
    && pr.a1 == pr.handles && pr.a2 == (if HasLock(pr.pc) then -1 else 0)
    && (Over(pr.pc) ==> pr.handles == 0 && pr.a0 == 0)
    && pr.initval >= 0
  }

  /** What holding the lock or a handle says about the set. */
  predicate Knows(sem: Option<Sem>, pr: Proc) {
    && (HasLock(pr.pc) || pr.handles > 0 || Closing(pr.pc) || pr.a0 != 0 ==> sem.Some? && sem.value.id == pr.id)
    && (pr.handles > 0 ==> sem.value.complete)
    && (Closing(pr.pc) ==> pr.handles > 0)
    && (pr.pc.CreateSet0? ==> !sem.value.complete)
    && (pr.pc.CreateSet1? ==> !sem.value.complete && sem.value.set0 && sem.value.v0 == pr.initval == sem.value.start)
    && (pr.pc.CreateEnd? || pr.pc.CloseRead? || pr.pc.CloseRemove? || pr.pc.CloseUnlock? ==> sem.value.complete)
    && (pr.pc.CloseRemove? ==> sem.value.v1 == BIGCOUNT)
    && (sem.None? || !sem.value.complete ==> pr.a0 == 0)
  }

  ghost predicate LockOk(s: Sys) {
    && (forall p, q :: 0 <= p < |s.procs| && 0 <= q < |s.procs| && HasLock(s.procs[p].pc) && HasLock(s.procs[q].pc) ==> p == q)
    && (s.sem.Some? ==> (s.sem.value.v2 == 0 || s.sem.value.v2 == 1)
                        && (s.sem.value.v2 == 1 <==> exists p :: 0 <= p < |s.procs| && HasLock(s.procs[p].pc)))
  }

  predicate CountOk(s: Sys) {
    && (s.sem.None? ==> Handles(s.procs) == 0)
    && (s.sem.Some? ==>
          var m := s.sem.value;
          && m.v1 == (if m.complete then BIGCOUNT - Handles(s.procs) else 0)
          && (!m.complete ==> Handles(s.procs) == 0)
          && (m.complete ==> m.set0)
          && (m.set0 ==> m.v0 + Undo0(s.procs) == m.start + m.lost && m.lost >= 0 && m.v0 >= 0)
          && (m.set0 && !m.complete ==> m.v0 == m.start))
  }

  ghost predicate Inv(s: Sys) {
    && LockOk(s) && CountOk(s)
    && (forall p :: 0 <= p < |s.procs| ==> AdjOk(s.procs[p]) && Knows(s.sem, s.procs[p]))
    && (s.sem.Some? ==> s.sem.value.id < s.nextId)
  }

  // ---- every step keeps the invariant ---------------------------------------

  lemma LockHolder(s: Sys, p: nat)
    requires LockOk(s) && p < |s.procs| && HasLock(s.procs[p].pc)
    ensures s.sem.Some? ==> s.sem.value.v2 == 1
    ensures forall q :: 0 <= q < |s.procs| && q != p ==> !HasLock(s.procs[q].pc)
  {
    hide HasLock;
  }

  /** Steps that leave the lock where it is. */
  lemma LockSame(s: Sys, s': Sys, p: nat)
    requires LockOk(s) && p < |s.procs| && |s'.procs| == |s.procs|
    requires forall q :: 0 <= q < |s.procs| && q != p ==> s'.procs[q].pc == s.procs[q].pc
    requires HasLock(s'.procs[p].pc) == HasLock(s.procs[p].pc)
    requires s.sem.Some? && s'.sem.Some? ==> s'.sem.value.v2 == s.sem.value.v2
    requires s.sem.None? && s'.sem.Some? ==>
      s'.sem.value.v2 == 0 && forall q :: 0 <= q < |s.procs| ==> !HasLock(s.procs[q].pc)
    ensures LockOk(s')
  {
    hide HasLock;
    assert forall q :: 0 <= q < |s.procs| ==> HasLock(s'.procs[q].pc) == HasLock(s.procs[q].pc);
  }

  /** p takes the lock or lets go of it. */
  lemma LockMoved(s: Sys, s': Sys, p: nat)
    requires LockOk(s) && p < |s.procs| && |s'.procs| == |s.procs|
    requires forall q :: 0 <= q < |s.procs| && q != p ==> s'.procs[q].pc == s.procs[q].pc
    requires s.sem.Some? && HasLock(s'.procs[p].pc) != HasLock(s.procs[p].pc)
    requires HasLock(s'.procs[p].pc) ==> s.sem.value.v2 == 0
    requires s'.sem.Some? ==> s'.sem.value.v2 == if HasLock(s'.procs[p].pc) then 1 else 0
    ensures LockOk(s')
  {
    hide HasLock;
    if HasLock(s.procs[p].pc) { LockHolder(s, p); }
  }

  ghost predicate AllOk(s: Sys) {
    forall p :: 0 <= p < |s.procs| ==> AdjOk(s.procs[p]) && Knows(s.sem, s.procs[p])
  }

  lemma InvMeans(s: Sys, p: nat)
    requires Inv(s) && p < |s.procs|
    ensures LockOk(s) && CountOk(s) && AllOk(s) && AdjOk(s.procs[p]) && Knows(s.sem, s.procs[p])
    ensures s.sem.Some? ==> s.sem.value.id < s.nextId
  {
    hide LockOk, CountOk, AdjOk, Knows;
  }

  lemma InvFrom(s: Sys)
    requires LockOk(s) && CountOk(s) && AllOk(s) && (s.sem.Some? ==> s.sem.value.id < s.nextId)
    ensures Inv(s)
  {
    hide LockOk, CountOk, AdjOk, Knows;
  }

  /** A step that only moves p on. */
  lemma KeepMoved(s: Sys, s': Sys, p: nat, pr: Proc)
    requires Inv(s) && p < |s.procs| && s' == To(s, p, pr)
    requires pr.handles == s.procs[p].handles && pr.a0 == s.procs[p].a0 && HasLock(pr.pc) == HasLock(s.procs[p].pc)
    requires AdjOk(pr) && Knows(s.sem, pr)
    ensures Inv(s')
  {
    InvMeans(s, p);
    SumUpdate(s.procs, p, pr);
    LockSame(s, s', p);
    hide LockOk, HasLock, AdjOk, Knows;
    InvFrom(s');
  }

  /** Steps of p that leave the set alone. */
  lemma KeepQuiet(s: Sys, s': Sys, p: nat)
    requires Inv(s) && p < |s.procs|
    requires (exists initval :: CallCreate(s, s', p, initval)) || LockAgain(s, s', p) || FallAsleep(s, s', p)
      || LockFails(s, s', p) || CallClose(s, s', p) || (s.sem.Some? && Get(s, s', p))
    ensures Inv(s')
  {
    hide Inv;
    InvMeans(s, p);
    hide LockOk, CountOk, AllOk;
    KeepMoved(s, s', p, s'.procs[p]);
  }

  lemma KeepRead(s: Sys, s': Sys, p: nat)
    requires Inv(s) && Handles(s.procs) < BIGCOUNT && p < |s.procs| && (ReadCount(s, s', p) || ReadLast(s, s', p))
    ensures Inv(s')
  {
    InvMeans(s, p);
    SumUpdate(s.procs, p, s'.procs[p]);
    LockSame(s, s', p);
    hide LockOk;
    InvFrom(s');
  }

  lemma KeepGet(s: Sys, s': Sys, p: nat)
    requires Inv(s) && p < |s.procs| && s.sem.None? && Get(s, s', p)
    ensures Inv(s')
  {
    InvMeans(s, p);
    SumUpdate(s.procs, p, s'.procs[p]);
    LockSame(s, s', p);
    hide LockOk;
    InvFrom(s');
  }

  lemma KeepTakeLock(s: Sys, s': Sys, p: nat)
    requires Inv(s) && p < |s.procs| && TakeLock(s, s', p)
    ensures Inv(s')
  {
    InvMeans(s, p);
    SumUpdate(s.procs, p, s'.procs[p]);
    LockMoved(s, s', p);
    hide LockOk;
    InvFrom(s');
  }

  lemma KeepSet0(s: Sys, s': Sys, p: nat)
    requires Inv(s) && p < |s.procs| && Set0(s, s', p)
    ensures Inv(s')
  {
    InvMeans(s, p);
    LockHolder(s, p);
    LockSame(s, s', p);
    SumZero(s'.procs);
    SameHandles(s.procs, s'.procs);
    hide LockOk;
    InvFrom(s');
  }

  lemma KeepSet1(s: Sys, s': Sys, p: nat)
    requires Inv(s) && p < |s.procs| && Set1(s, s', p)
    ensures Inv(s')
  {
    InvMeans(s, p);
    LockHolder(s, p);
    LockSame(s, s', p);
    SameHandles(s.procs, s'.procs);
    forall q | 0 <= q < |s.procs|
      ensures s.procs[q].handles == 0
    {
      SumBounds(s.procs, q);
    }
    hide LockOk;
    InvFrom(s');
  }

  lemma KeepEndCreate(s: Sys, s': Sys, p: nat)
    requires Inv(s) && p < |s.procs| && EndCreate(s, s', p)
    ensures Inv(s')
  {
    InvMeans(s, p);
    LockHolder(s, p);
    SumUpdate(s.procs, p, s'.procs[p]);
    LockMoved(s, s', p);
    hide LockOk;
    InvFrom(s');
  }

  lemma KeepTakeClose(s: Sys, s': Sys, p: nat)
    requires Inv(s) && p < |s.procs| && TakeClose(s, s', p)
    ensures Inv(s')
  {
    InvMeans(s, p);
    SumUpdate(s.procs, p, s'.procs[p]);
    LockMoved(s, s', p);
    NoHolder(s);
    hide LockOk;
    InvFrom(s');
  }

  lemma NoHolder(s: Sys)
    requires LockOk(s) && s.sem.Some? && s.sem.value.v2 == 0
    ensures forall q :: 0 <= q < |s.procs| ==> !HasLock(s.procs[q].pc)
  {
    hide HasLock;
  }

  lemma KeepRemove(s: Sys, s': Sys, p: nat)
    requires Inv(s) && p < |s.procs| && Remove(s, s', p)
    ensures Inv(s')
  {
    InvMeans(s, p);
    LockHolder(s, p);
    LockMoved(s, s', p);
    SameHandles(s.procs, s'.procs);
    forall q | 0 <= q < |s.procs|
      ensures s.procs[q].handles == 0
    {
      SumBounds(s.procs, q);
    }
    hide LockOk;
    InvFrom(s');
  }

  lemma KeepCloseDone(s: Sys, s': Sys, p: nat)
    requires Inv(s) && p < |s.procs| && CloseDone(s, s', p)
    ensures Inv(s')
  {
    InvMeans(s, p);
    LockHolder(s, p);
    SumUpdate(s.procs, p, s'.procs[p]);
    LockMoved(s, s', p);
    hide LockOk;
    InvFrom(s');
  }

  lemma KeepOperate(s: Sys, s': Sys, p: nat, amount: int)
    requires Inv(s) && p < |s.procs| && Operate(s, s', p, amount)
    ensures Inv(s')
  {
    InvMeans(s, p);
    SumUpdate(s.procs, p, s'.procs[p]);
    LockSame(s, s', p);
    hide LockOk;
    InvFrom(s');
  }

  lemma KeepExit(s: Sys, s': Sys, p: nat)
    requires Inv(s) && p < |s.procs| && Exit(s, s', p)
    ensures Inv(s')
  {
    InvMeans(s, p);
    SumUpdate(s.procs, p, s'.procs[p]);
    if HasLock(s.procs[p].pc) {
      LockHolder(s, p);
      LockMoved(s, s', p);
    } else {
      LockSame(s, s', p);
    }
    hide LockOk;
    InvFrom(s');
  }

  lemma NextInv(s: Sys, s': Sys)
    requires Inv(s) && Handles(s.procs) < BIGCOUNT && Next(s, s')
    ensures Inv(s')
  {
    hide Inv, CallCreate, Get, TakeLock, LockAgain, FallAsleep, LockFails, ReadCount, Set0, Set1, EndCreate, CallClose,
      TakeClose, ReadLast, Remove, CloseDone, Operate, Exit;
    var p :| Moves(s, s', p);
    if TakeLock(s, s', p) { KeepTakeLock(s, s', p); }
    else if ReadCount(s, s', p) || ReadLast(s, s', p) { KeepRead(s, s', p); }
    else if Set0(s, s', p) { KeepSet0(s, s', p); }
    else if Set1(s, s', p) { KeepSet1(s, s', p); }
    else if EndCreate(s, s', p) { KeepEndCreate(s, s', p); }
    else if TakeClose(s, s', p) { KeepTakeClose(s, s', p); }
    else if Remove(s, s', p) { KeepRemove(s, s', p); }
    else if CloseDone(s, s', p) { KeepCloseDone(s, s', p); }
    else if amount :| Operate(s, s', p, amount) { KeepOperate(s, s', p, amount); }
    else if Exit(s, s', p) { KeepExit(s, s', p); }
    else if Get(s, s', p) && s.sem.None? { KeepGet(s, s', p); }
    else { KeepQuiet(s, s', p); }
  }

  lemma InitInv(s: Sys)
    requires Init(s)
    ensures Inv(s)
  {
    SumZero(s.procs);
  }

  lemma {:induction false} RunInv(r: seq<Sys>, i: nat)
    requires Run(r) && i < |r|
    ensures Inv(r[i]) && Handles(r[i].procs) < BIGCOUNT
  {
    hide Inv, Init, Next;
    if i == 0 {
      InitInv(r[0]);
    } else {
      RunInv(r, i - 1);
      assert Next(r[i - 1], r[i - 1 + 1]);
      NextInv(r[i - 1], r[i]);
    }
  }

  // ---- what every run guarantees --------------------------------------------

  /** Member [2] is a mutual-exclusion lock: it is 1 exactly while a process is inside sem_create or
      sem_close past its first semop, and at most one is. */
  lemma LockIsExclusive(r: seq<Sys>, i: nat, p: nat, q: nat)
    requires Run(r) && i < |r| && p < |r[i].procs| && q < |r[i].procs|
    ensures HasLock(r[i].procs[p].pc) && HasLock(r[i].procs[q].pc) ==> p == q
    ensures HasLock(r[i].procs[p].pc) ==> Here(r[i], p) && r[i].sem.value.v2 == 1
    ensures r[i].sem.Some? && r[i].sem.value.v2 != 0 ==> exists h :: 0 <= h < |r[i].procs| && HasLock(r[i].procs[h].pc)
  {
    hide Run, HasLock;
    RunInv(r, i);
    hide CountOk;
  }

  /** Member [1] counts: once set it is BIGCOUNT less the open handles, and before that it is 0 and
      no handle is open. An open handle is always a handle of the set that exists. */
  lemma CounterCountsHandles(r: seq<Sys>, i: nat)
    requires Run(r) && i < |r|
    ensures r[i].sem.Some? ==>
      r[i].sem.value.v1 == if r[i].sem.value.complete then BIGCOUNT - Handles(r[i].procs) else 0
    ensures r[i].sem.None? || !r[i].sem.value.complete ==> Handles(r[i].procs) == 0
    ensures forall p :: 0 <= p < |r[i].procs| && r[i].procs[p].handles > 0 ==> Here(r[i], p) && r[i].sem.value.complete
  {
    hide Run, HasLock;
    RunInv(r, i);
    hide LockOk;
  }

  /** The value is the initial one changed by the operations of the processes that are still
      there; what the others did was undone, except where that would have gone below zero. */
  lemma ValueIsAccounted(r: seq<Sys>, i: nat)
    requires Run(r) && i < |r| && r[i].sem.Some? && r[i].sem.value.complete
    ensures r[i].sem.value.v0 + Undo0(r[i].procs) == r[i].sem.value.start + r[i].sem.value.lost
    ensures r[i].sem.value.v0 >= 0 && r[i].sem.value.lost >= 0
  {
    hide Run, HasLock;
    RunInv(r, i);
    hide LockOk;
  }

  /** Members [0] and [1] are set only before [1] is, and the set starts with the initial value of
      the process that sets [1]. */
  lemma SetOnlyBefore(r: seq<Sys>, i: nat, s': Sys, p: nat)
    requires Run(r) && i < |r| && p < |r[i].procs|
    ensures Set0(r[i], s', p) ==> !r[i].sem.value.complete && Handles(r[i].procs) == 0
    ensures Set1(r[i], s', p) ==>
      && !r[i].sem.value.complete && Handles(r[i].procs) == 0
      && s'.sem.value.complete && s'.sem.value.v0 == r[i].procs[p].initval == s'.sem.value.start
  {
    hide Run, HasLock;
    RunInv(r, i);
    InvMeans(r[i], p);
    hide LockOk;
  }

  /** An operation changes [0] by its amount and waits while that would take it below zero; if the
      process then exits, with nothing else to undo, [0] is what it was. */
  lemma OperateThenExit(s: Sys, s': Sys, s'': Sys, p: nat, amount: int)
    requires p < |s.procs| && s.procs[p].a0 == 0 && Operate(s, s', p, amount) && Exit(s', s'', p)
    requires s.sem.Some? && s.sem.value.v0 >= 0
    ensures s'.sem.Some? && s'.sem.value.v0 == s.sem.value.v0 + amount >= 0
    ensures s''.sem.Some? && s''.sem.value.v0 == s.sem.value.v0
  {
  }

  /** Calls of sem_create and sem_close, by p or by others, touch the initial value p was called with
      only when p is called again. */
  lemma KeepsInitval(s: Sys, s': Sys, p: nat)
    requires Next(s, s') && p < |s.procs| && s.procs[p].pc != Idle
    ensures p < |s'.procs| && s'.procs[p].initval == s.procs[p].initval
  {
    var q :| Moves(s, s', q);
    hide Here;
  }

  /** The set starts with the very value its creator was called with: if p was called with initval at
      i and sets [1] at j, in the same call, then [0] holds initval at j + 1. */
  lemma {:induction false} InitvalHeld(r: seq<Sys>, i: nat, j: nat, p: nat, initval: int)
    requires Run(r) && i < j < |r| && p < |r[i].procs| && CallCreate(r[i], r[i + 1], p, initval)
    requires forall k :: i < k < j ==> p < |r[k].procs| && r[k].procs[p].pc != Idle
    ensures p < |r[j].procs| && r[j].procs[p].initval == initval
  {
    hide Next, Init;
    if i + 1 < j {
      InitvalHeld(r, i, j - 1, p, initval);
      assert Next(r[j - 1], r[j - 1 + 1]);
      KeepsInitval(r[j - 1], r[j], p);
    }
  }

  lemma StartsWithArgument(r: seq<Sys>, i: nat, j: nat, p: nat, initval: int)
    requires Run(r) && i < j && j + 1 < |r| && p < |r[i].procs| && CallCreate(r[i], r[i + 1], p, initval)
    requires forall k :: i < k < j ==> p < |r[k].procs| && r[k].procs[p].pc != Idle
    requires p < |r[j].procs| && Set1(r[j], r[j + 1], p)
    ensures r[j + 1].sem.Some? && r[j + 1].sem.value.v0 == initval && r[j + 1].sem.value.v1 == BIGCOUNT
  {
    hide Run, CallCreate;
    InitvalHeld(r, i, j, p, initval);
    SetOnlyBefore(r, j, r[j + 1], p);
  }

  /** A set that has been initialised stays so for as long as it exists, with the same initial value. */
  lemma StaysComplete(s: Sys, s': Sys)
    requires Inv(s) && Next(s, s') && s.sem.Some? && s.sem.value.complete
    ensures s'.sem.Some? ==>
      s'.sem.value.id == s.sem.value.id && s'.sem.value.complete && s'.sem.value.start == s.sem.value.start
  {
    var p :| Moves(s, s', p);
    InvMeans(s, p);
    hide Inv, LockOk, CountOk, AllOk, AdjOk;
  }

  lemma {:induction false} InitialisedOnce(r: seq<Sys>, i: nat, j: nat)
    requires Run(r) && i <= j < |r| && r[i].sem.Some? && r[i].sem.value.complete
    requires forall k :: i <= k <= j ==> r[k].sem.Some?
    ensures r[j].sem.value.complete && r[j].sem.value.id == r[i].sem.value.id
    ensures r[j].sem.value.start == r[i].sem.value.start
    ensures forall p, s' :: 0 <= p < |r[j].procs| ==> !Set0(r[j], s', p) && !Set1(r[j], s', p)
  {
    hide Inv, Init, Next;
    if i < j {
      InitialisedOnce(r, i, j - 1);
      RunInv(r, j - 1);
      assert Next(r[j - 1], r[j - 1 + 1]);
      StaysComplete(r[j - 1], r[j]);
    }
    forall p, s' | 0 <= p < |r[j].procs|
      ensures !Set0(r[j], s', p) && !Set1(r[j], s', p)
    {
      SetOnlyBefore(r, j, s', p);
    }
  }

  /** sem_close removes the set only when no handle is open, and never fails to find it. */
  lemma RemovedUnused(r: seq<Sys>, i: nat, s': Sys, p: nat)
    requires Run(r) && i < |r| && p < |r[i].procs|
    ensures Remove(r[i], s', p) ==> Handles(r[i].procs) == 0
    ensures Closing(r[i].procs[p].pc) ==> Here(r[i], p) && r[i].sem.value.complete
    ensures r[i].procs[p].pc.CloseRead? ==> Here(r[i], p) && r[i].sem.value.v1 <= BIGCOUNT
  {
    hide Run;
    RunInv(r, i);
    InvMeans(r[i], p);
    hide LockOk;
  }

  /** Whoever holds the lock is never blocked, so the lock is always given up. */
  lemma HolderCanGo(r: seq<Sys>, i: nat, p: nat) returns (s': Sys)
    requires Run(r) && i < |r| && p < |r[i].procs| && HasLock(r[i].procs[p].pc)
    ensures ReadCount(r[i], s', p) || Set0(r[i], s', p) || Set1(r[i], s', p) || EndCreate(r[i], s', p)
      || ReadLast(r[i], s', p) || Remove(r[i], s', p) || CloseDone(r[i], s', p)
  {
    hide Run;
    RunInv(r, i);
    var s := r[i];
    InvMeans(s, p);
    LockHolder(s, p);
    hide LockOk, AllOk, Inv;
    var pr, m := s.procs[p], s.sem.value;
    if pr.pc.CreateRead? {
      s' := To(s, p, pr.(pc := if m.v1 == 0 then CreateSet0 else CreateEnd));
    } else if pr.pc.CreateSet0? {
      s' := s.(procs := Map(s.procs, (q: Proc) => q.(a0 := 0))[p := pr.(pc := CreateSet1, a0 := 0)],
               sem := Some(m.(v0 := pr.initval, set0 := true, start := pr.initval, lost := 0)));
    } else if pr.pc.CreateSet1? {
      s' := s.(procs := Map(s.procs, (q: Proc) => q.(a1 := 0))[p := pr.(pc := CreateEnd, a1 := 0)],
               sem := Some(m.(v1 := BIGCOUNT, complete := true)));
    } else if pr.pc.CreateEnd? {
      s' := To(s, p, pr.(pc := Idle, handles := pr.handles + 1, a1 := pr.a1 + 1, a2 := pr.a2 + 1)).(
              sem := Some(m.(v1 := m.v1 - 1, v2 := m.v2 - 1)));
    } else if pr.pc.CloseRead? {
      s' := To(s, p, pr.(pc := if m.v1 == BIGCOUNT then CloseRemove else CloseUnlock));
    } else if pr.pc.CloseRemove? {
      s' := s.(procs := Map(s.procs, (q: Proc) => q.(a0 := 0, a1 := 0, a2 := 0))[
                 p := pr.(pc := Idle, a0 := 0, a1 := 0, a2 := 0)],
               sem := None);
    } else {
      s' := To(s, p, pr.(pc := Idle, a2 := pr.a2 + 1)).(sem := Some(m.(v2 := m.v2 - 1)));
    }
  }

  /** The bound on open handles is needed: sem_create mistakes a set in use for a new one exactly
      when BIGCOUNT handles are open. */
  lemma BigCountIsTheLimit(s: Sys, s': Sys, p: nat)
    requires Inv(s) && p < |s.procs| && ReadCount(s, s', p) && s.sem.value.complete
    ensures s'.procs[p].pc == CreateSet0 <==> Handles(s.procs) == BIGCOUNT
  {
    hide LockOk;
  }

  // ---- a set removed under a call ------------------------------------------

  /** p sleeps on a set that is gone for good, or is no more. */
  ghost predicate Stranded(s: Sys, p: nat, id: nat) {
    && p < |s.procs| && id < s.nextId && (s.sem.Some? ==> s.sem.value.id != id)
    && (Over(s.procs[p].pc) || (s.procs[p].pc.CreateAsleep? && s.procs[p].id == id))
  }

  lemma StaysStranded(s: Sys, s': Sys, p: nat, id: nat)
    requires Stranded(s, p, id) && Next(s, s')
    ensures Stranded(s', p, id)
  {
    var q :| Moves(s, s', q);
    if p == q {
      StrandedMoves(s, s', p, id);
      hide Moves;
    } else {
      OthersKeep(s, s', p, q);
      hide Moves;
    }
  }

  lemma OthersKeep(s: Sys, s': Sys, p: nat, q: nat)
    requires p < |s.procs| && p != q && Moves(s, s', q)
    ensures p < |s'.procs| && s'.procs[p].pc == s.procs[p].pc && s'.procs[p].id == s.procs[p].id
    ensures s.nextId <= s'.nextId
    ensures s'.sem.Some? ==> (s.sem.Some? && s'.sem.value.id == s.sem.value.id) || s'.sem.value.id == s.nextId < s'.nextId
  {
  }

  /** The only steps left to it are to fail and to exit. */
  lemma StrandedMoves(s: Sys, s': Sys, p: nat, id: nat)
    requires Stranded(s, p, id)
    ensures Moves(s, s', p) <==> LockFails(s, s', p) || Exit(s, s', p)
    ensures s.procs[p].pc.CreateAsleep? ==> LockFails(s, To(s, p, s.procs[p].(pc := Failed)), p)
  {
  }

  lemma RemoveStrands(s: Sys, s': Sys, p: nat, q: nat)
    requires Inv(s) && p < |s.procs| && q < |s.procs| && Remove(s, s', q) && Here(s, p) && s.procs[p].pc.CreateAsleep?
    ensures Stranded(s', p, s.procs[p].id)
  {
    InvMeans(s, p);
    hide Inv, LockOk, CountOk, AllOk;
  }

  /** A process asleep in sem_create when the set is removed is asleep ever after or is no more: it
      never gets a lock, and its only steps are that its call fails and that it exits. */
  lemma {:induction false} SleeperFails(r: seq<Sys>, i: nat, j: nat, p: nat, q: nat)
    requires Run(r) && i < j < |r| && p < |r[i].procs| && q < |r[i].procs|
    requires Remove(r[i], r[i + 1], q) && r[i].procs[p].pc.CreateAsleep? && Here(r[i], p)
    ensures p < |r[j].procs| && (r[j].procs[p].pc.CreateAsleep? || Over(r[j].procs[p].pc)) && !HasLock(r[j].procs[p].pc)
    ensures forall s' :: Moves(r[j], s', p) <==> LockFails(r[j], s', p) || Exit(r[j], s', p)
    ensures r[j].procs[p].pc.CreateAsleep? ==> exists s' :: LockFails(r[j], s', p)
    ensures Stranded(r[j], p, r[i].procs[p].id)
  {
    hide Inv, Init, Next, Moves, Remove, LockFails, Exit, Stranded;
    if j == i + 1 {
      RunInv(r, i);
      RemoveStrands(r[i], r[j], p, q);
    } else {
      SleeperFails(r, i, j - 1, p, q);
      assert Next(r[j - 1], r[j - 1 + 1]);
      StaysStranded(r[j - 1], r[j], p, r[i].procs[p].id);
    }
    StrandedIs(r[j], p, r[i].procs[p].id);
    forall s' ensures Moves(r[j], s', p) <==> LockFails(r[j], s', p) || Exit(r[j], s', p) {
      StrandedMoves(r[j], s', p, r[i].procs[p].id);
    }
    StrandedMoves(r[j], r[j], p, r[i].procs[p].id);
  }

  lemma StrandedIs(s: Sys, p: nat, id: nat)
    requires Stranded(s, p, id)
    ensures p < |s.procs| && (s.procs[p].pc.CreateAsleep? || Over(s.procs[p].pc)) && !HasLock(s.procs[p].pc)
  {
  }

  lemma Extend(r: seq<Sys>, s': Sys, p: nat)
    requires Trace(r) && Moves(r[|r| - 1], s', p)
    ensures Trace(r + [s'])
    ensures Run(r) && Handles(s'.procs) < BIGCOUNT ==> Run(r + [s'])
  {
    hide Init, Moves;
    var t := r + [s'];
    assert Next(r[|r| - 1], s');
    forall i | 0 <= i < |t| - 1 ensures Next(t[i], t[i + 1]) {
      if i < |r| - 1 { assert Next(r[i], r[i + 1]); }
    }
  }

  /** One that has not called semop yet starts again, makes a new set and gets its lock. */
  lemma LateCallerStartsAgain(r: seq<Sys>, p: nat, q: nat) returns (t: seq<Sys>)
    requires Run(r) && |r| >= 2 && p < |r[|r| - 2].procs| && q < |r[|r| - 2].procs|
    requires Remove(r[|r| - 2], r[|r| - 1], q) && r[|r| - 2].procs[p].pc == CreateLock
    ensures Run(t) && |t| == |r| + 3 && t[..|r|] == r
    ensures LockAgain(t[|r| - 1], t[|r|], p) && Get(t[|r|], t[|r| + 1], p) && TakeLock(t[|r| + 1], t[|r| + 2], p)
    ensures HasLock(t[|r| + 2].procs[p].pc) && Here(t[|r| + 2], p) && t[|r| + 2].sem.value.id == r[|r| - 1].nextId
  {
    var a := r[|r| - 1];
    assert a.sem.None? && p != q && p < |a.procs| && a.procs[p].pc == CreateLock by { hide Run; }
    assert Trace(r) && Handles(a.procs) < BIGCOUNT by { hide Remove, Trace; }
    hide Run, Trace, Remove, Moves, LockAgain, Get, TakeLock, HasLock, Here;
    var b, c, d := AgainSteps(a, p);
    Extend(r, b, p);
    Extend(r + [b], c, p);
    Extend(r + [b] + [c], d, p);
    t := r + [b] + [c] + [d];
  }

  lemma AgainSteps(a: Sys, p: nat) returns (b: Sys, c: Sys, d: Sys)
    requires p < |a.procs| && a.sem.None? && a.procs[p].pc == CreateLock
    ensures |a.procs| == |b.procs| == |c.procs| == |d.procs|
    ensures LockAgain(a, b, p) && Get(b, c, p) && TakeLock(c, d, p)
    ensures Moves(a, b, p) && Moves(b, c, p) && Moves(c, d, p)
    ensures Handles(b.procs) == Handles(c.procs) == Handles(d.procs) == Handles(a.procs)
    ensures HasLock(d.procs[p].pc) && Here(d, p) && d.sem.value.id == a.nextId
  {
    b := To(a, p, a.procs[p].(pc := CreateGet));
    c := To(b, p, b.procs[p].(pc := CreateLock, id := b.nextId)).(
           sem := Some(Sem(b.nextId, 0, 0, 0, false, false, 0, 0)), nextId := b.nextId + 1);
    d := To(c, p, c.procs[p].(pc := CreateRead, a2 := c.procs[p].a2 - 1)).(sem := Some(c.sem.value.(v2 := 1)));
    SumUpdate(a.procs, p, b.procs[p]);
    SumUpdate(b.procs, p, c.procs[p]);
    SumUpdate(c.procs, p, d.procs[p]);
  }

  // ---- runs that get there --------------------------------------------------

  lemma RunTrace(r: seq<Sys>)
    requires Run(r)
    ensures Trace(r) && |r| > 0
  {
  }

  /** The set as the runs below see it, and the process that opens it with initial value 1. */
  function The(v0: int, v1: int, v2: int, set0: bool, complete: bool): Option<Sem> {
    Some(Sem(0, v0, v1, v2, set0, complete, v0, 0))
  }

  function First(pc: Pc, handles: nat, a2: int): Proc { Proc(pc, 0, 1, handles, 0, handles, a2) }

  const Unused := Proc(Idle, 0, 0, 0, 0, 0, 0)

  lemma FirstLocks(b: seq<Proc>) returns (s1: Sys, s2: Sys, s3: Sys)
    requires forall p :: 0 <= p < |b| ==> b[p] == Unused
    ensures Init(Sys(None, 0, [Unused] + b))
    ensures Moves(Sys(None, 0, [Unused] + b), s1, 0) && Moves(s1, s2, 0) && Moves(s2, s3, 0)
    ensures s1.procs == [First(CreateGet, 0, 0)] + b && s2.procs == [First(CreateLock, 0, 0)] + b
    ensures s3 == Sys(The(0, 0, 1, false, false), 1, [First(CreateRead, 0, -1)] + b)
  {
    var s0 := Sys(None, 0, [Unused] + b);
    s1 := Sys(None, 0, [First(CreateGet, 0, 0)] + b);
    s2 := Sys(The(0, 0, 0, false, false), 1, [First(CreateLock, 0, 0)] + b);
    s3 := Sys(The(0, 0, 1, false, false), 1, [First(CreateRead, 0, -1)] + b);
    assert CallCreate(s0, s1, 0, 1) && Get(s1, s2, 0) && TakeLock(s2, s3, 0);
  }

  lemma FirstOpens(b: seq<Proc>) returns (s1: Sys, s2: Sys, s3: Sys, s4: Sys)
    requires forall p :: 0 <= p < |b| ==> b[p] == Unused
    ensures Moves(Sys(The(0, 0, 1, false, false), 1, [First(CreateRead, 0, -1)] + b), s1, 0)
    ensures Moves(s1, s2, 0) && Moves(s2, s3, 0) && Moves(s3, s4, 0)
    ensures s1.procs == [First(CreateSet0, 0, -1)] + b && s2.procs == [First(CreateSet1, 0, -1)] + b
    ensures s3.procs == [First(CreateEnd, 0, -1)] + b
    ensures s4 == Sys(The(1, BIGCOUNT - 1, 0, true, true), 1, [First(Idle, 1, 0)] + b)
  {
    var s0 := Sys(The(0, 0, 1, false, false), 1, [First(CreateRead, 0, -1)] + b);
    s1 := Sys(The(0, 0, 1, false, false), 1, [First(CreateSet0, 0, -1)] + b);
    s2 := Sys(The(1, 0, 1, true, false), 1, [First(CreateSet1, 0, -1)] + b);
    s3 := Sys(The(1, BIGCOUNT, 1, true, true), 1, [First(CreateEnd, 0, -1)] + b);
    s4 := Sys(The(1, BIGCOUNT - 1, 0, true, true), 1, [First(Idle, 1, 0)] + b);
    hide Moves;
    SetSteps(s1, s2, s3, b);
    EndSteps(s0, s1, s3, s4, b);
  }

  lemma EndSteps(s0: Sys, s1: Sys, s3: Sys, s4: Sys, b: seq<Proc>)
    requires s0 == Sys(The(0, 0, 1, false, false), 1, [First(CreateRead, 0, -1)] + b)
    requires s1 == Sys(The(0, 0, 1, false, false), 1, [First(CreateSet0, 0, -1)] + b)
    requires s3 == Sys(The(1, BIGCOUNT, 1, true, true), 1, [First(CreateEnd, 0, -1)] + b)
    requires s4 == Sys(The(1, BIGCOUNT - 1, 0, true, true), 1, [First(Idle, 1, 0)] + b)
    ensures Moves(s0, s1, 0) && Moves(s3, s4, 0)
  {
    assert ReadCount(s0, s1, 0) && EndCreate(s3, s4, 0);
    hide Set0, Set1, ReadCount, EndCreate, Get, TakeLock;
  }

  lemma SetSteps(s1: Sys, s2: Sys, s3: Sys, b: seq<Proc>)
    requires forall p :: 0 <= p < |b| ==> b[p] == Unused
    requires s1 == Sys(The(0, 0, 1, false, false), 1, [First(CreateSet0, 0, -1)] + b)
    requires s2 == Sys(The(1, 0, 1, true, false), 1, [First(CreateSet1, 0, -1)] + b)
    requires s3 == Sys(The(1, BIGCOUNT, 1, true, true), 1, [First(CreateEnd, 0, -1)] + b)
    ensures Moves(s1, s2, 0) && Moves(s2, s3, 0)
  {
    hide Moves;
    assert s2.procs == Map(s1.procs, (q: Proc) => q.(a0 := 0))[0 := First(CreateSet1, 0, -1)];
    assert Set0(s1, s2, 0);
    assert s3.procs == Map(s2.procs, (q: Proc) => q.(a1 := 0))[0 := First(CreateEnd, 0, -1)];
    assert Set1(s2, s3, 0);
    hide Set0, Set1;
    BySet(s1, s2);
    BySet(s2, s3);
  }

  lemma BySet(s: Sys, s': Sys)
    requires |s.procs| > 0 && (Set0(s, s', 0) || Set1(s, s', 0))
    ensures Moves(s, s', 0)
  {
    hide Set0, Set1;
  }

  /** A run in which the first of these processes opens a new set. */
  lemma Opened(b: seq<Proc>) returns (r: seq<Sys>)
    requires |b| <= 1 && forall p :: 0 <= p < |b| ==> b[p] == Unused
    ensures Run(r) && r[|r| - 1] == Sys(The(1, BIGCOUNT - 1, 0, true, true), 1, [First(Idle, 1, 0)] + b)
  {
    hide Moves, Trace, Run, Handles, Init;
    var s1, s2, s3 := FirstLocks(b);
    var s4, s5, s6, s7 := FirstOpens(b);
    r := [Sys(None, 0, [Unused] + b)];
    StartRun(r);
    ExtendFew(r, s1, 0);
    ExtendFew(r + [s1], s2, 0);
    ExtendFew(r + [s1] + [s2], s3, 0);
    r := r + [s1] + [s2] + [s3];
    ExtendFew(r, s4, 0);
    ExtendFew(r + [s4], s5, 0);
    ExtendFew(r + [s4] + [s5], s6, 0);
    ExtendFew(r + [s4] + [s5] + [s6], s7, 0);
    r := r + [s4] + [s5] + [s6] + [s7];
  }

  lemma StartRun(r: seq<Sys>)
    requires |r| == 1 && Init(r[0])
    ensures Run(r)
  {
    SumZero(r[0].procs);
  }

  lemma ExtendFew(r: seq<Sys>, s': Sys, p: nat)
    requires Run(r) && |r| > 0 && Moves(r[|r| - 1], s', p)
    requires |s'.procs| <= 2 && forall q :: 0 <= q < |s'.procs| ==> s'.procs[q].handles <= 1
    ensures Run(r + [s'])
  {
    hide Moves, Run, Handles;
    RunTrace(r);
    FewHandles(s'.procs);
    Extend(r, s', p);
  }

  lemma {:induction false} FewHandles(procs: seq<Proc>)
    requires forall q :: 0 <= q < |procs| ==> procs[q].handles <= 1
    ensures Handles(procs) <= |procs|
  {
    if procs != [] { FewHandles(procs[..|procs| - 1]); }
  }

  lemma CloseSteps() returns (s1: Sys, s2: Sys, s3: Sys, s4: Sys)
    ensures Moves(Sys(The(1, BIGCOUNT - 1, 0, true, true), 1, [First(Idle, 1, 0), Unused]), s1, 0)
    ensures Moves(s1, s2, 0) && Moves(s2, s3, 1) && Moves(s3, s4, 1)
    ensures |s1.procs| == |s2.procs| == |s3.procs| == 2
    ensures s1.procs[0].handles == 1 && s2.procs[0].handles == s3.procs[0].handles == 0
    ensures s1.procs[1].handles == s2.procs[1].handles == s3.procs[1].handles == 0
    ensures s4 == Sys(The(1, BIGCOUNT, 1, true, true), 1, [First(CloseRead, 0, -1), Unused.(pc := CreateLock)])
  {
    var s0 := Sys(The(1, BIGCOUNT - 1, 0, true, true), 1, [First(Idle, 1, 0), Unused]);
    s1 := Sys(The(1, BIGCOUNT - 1, 0, true, true), 1, [First(CloseLock, 1, 0), Unused]);
    s2 := Sys(The(1, BIGCOUNT, 1, true, true), 1, [First(CloseRead, 0, -1), Unused]);
    s3 := Sys(The(1, BIGCOUNT, 1, true, true), 1, [First(CloseRead, 0, -1), Unused.(pc := CreateGet)]);
    s4 := Sys(The(1, BIGCOUNT, 1, true, true), 1, [First(CloseRead, 0, -1), Unused.(pc := CreateLock)]);
    assert CallClose(s0, s1, 0) && TakeClose(s1, s2, 0) && CallCreate(s2, s3, 1, 0) && Get(s3, s4, 1);
  }

  lemma RemoveSteps(b: Proc) returns (s1: Sys, s2: Sys)
    requires b.handles == b.a0 == b.a1 == b.a2 == 0
    ensures Moves(Sys(The(1, BIGCOUNT, 1, true, true), 1, [First(CloseRead, 0, -1), b]), s1, 0)
    ensures Remove(s1, s2, 0) && Moves(s1, s2, 0)
    ensures s1 == Sys(The(1, BIGCOUNT, 1, true, true), 1, [First(CloseRemove, 0, -1), b])
    ensures s2 == Sys(None, 1, [First(Idle, 0, 0), b])
  {
    var s0 := Sys(The(1, BIGCOUNT, 1, true, true), 1, [First(CloseRead, 0, -1), b]);
    s1 := Sys(The(1, BIGCOUNT, 1, true, true), 1, [First(CloseRemove, 0, -1), b]);
    s2 := Sys(None, 1, [First(Idle, 0, 0), b]);
    assert ReadLast(s0, s1, 0);
    assert s2.procs == Map(s1.procs, (q: Proc) => q.(a0 := 0, a1 := 0, a2 := 0))[0 := First(Idle, 0, 0)];
    assert Remove(s1, s2, 0);
  }

  /** Two processes: the first closes the set and removes it while the second is in sem_create, past
      semget, asleep in semop or not yet there. */
  lemma RemovedUnderCall(sleeps: bool) returns (r: seq<Sys>)
    ensures Run(r) && |r| >= 2 && |r[|r| - 2].procs| == 2 && Remove(r[|r| - 2], r[|r| - 1], 0) && Here(r[|r| - 2], 1)
    ensures r[|r| - 2].procs[1].pc == if sleeps then CreateAsleep else CreateLock
  {
    hide Moves, Trace, Run, Handles, Init, Remove;
    var s1, s2, s3, s4 := CloseSteps();
    r := Opened([Unused]);
    RunTrace(r);
    assert [First(Idle, 1, 0)] + [Unused] == [First(Idle, 1, 0), Unused];
    ExtendFew(r, s1, 0);
    ExtendFew(r + [s1], s2, 0);
    ExtendFew(r + [s1] + [s2], s3, 1);
    ExtendFew(r + [s1] + [s2] + [s3], s4, 1);
    r := r + [s1] + [s2] + [s3] + [s4];
    var b := Unused.(pc := if sleeps then CreateAsleep else CreateLock);
    if sleeps {
      var s5 := Sys(s4.sem, 1, [First(CloseRead, 0, -1), b]);
      assert Moves(s4, s5, 1) by { SleepStep(s4, s5); }
      ExtendFew(r, s5, 1);
      r := r + [s5];
    }
    var s6, s7 := RemoveSteps(b);
    ExtendFew(r, s6, 0);
    ExtendFew(r + [s6], s7, 0);
    r := r + [s6] + [s7];
  }

  lemma SleepStep(s: Sys, s': Sys)
    requires s == Sys(The(1, BIGCOUNT, 1, true, true), 1, [First(CloseRead, 0, -1), Unused.(pc := CreateLock)])
    requires s' == Sys(s.sem, 1, [First(CloseRead, 0, -1), Unused.(pc := CreateAsleep)])
    ensures Moves(s, s', 1)
  {
    assert FallAsleep(s, s', 1);
  }

  // ---- BIGCOUNT handles -----------------------------------------------------

  /** One process with k handles. */
  function Full(k: nat): Sys { Sys(The(1, BIGCOUNT - k, 0, true, true), 1, [First(Idle, k, 0)]) }

  lemma OpenAnother(k: nat) returns (s1: Sys, s2: Sys, s3: Sys)
    ensures Moves(Full(k), s1, 0) && Moves(s1, s2, 0) && Moves(s2, s3, 0)
    ensures s3 == Sys(The(1, BIGCOUNT - k, 1, true, true), 1, [First(CreateRead, k, -1)])
  {
    s1 := Sys(The(1, BIGCOUNT - k, 0, true, true), 1, [First(CreateGet, k, 0)]);
    s2 := Sys(The(1, BIGCOUNT - k, 0, true, true), 1, [First(CreateLock, k, 0)]);
    s3 := Sys(The(1, BIGCOUNT - k, 1, true, true), 1, [First(CreateRead, k, -1)]);
    assert CallCreate(Full(k), s1, 0, 1) && Get(s1, s2, 0) && TakeLock(s2, s3, 0);
  }

  lemma FinishAnother(k: nat) returns (s1: Sys)
    requires k < BIGCOUNT
    ensures var s0 := Sys(The(1, BIGCOUNT - k, 1, true, true), 1, [First(CreateRead, k, -1)]);
      Moves(s0, s1, 0) && Moves(s1, Full(k + 1), 0)
  {
    var s0 := Sys(The(1, BIGCOUNT - k, 1, true, true), 1, [First(CreateRead, k, -1)]);
    s1 := Sys(The(1, BIGCOUNT - k, 1, true, true), 1, [First(CreateEnd, k, -1)]);
    assert ReadCount(s0, s1, 0) && EndCreate(s1, Full(k + 1), 0);
  }

  lemma {:induction false} OpenMany(k: nat) returns (r: seq<Sys>)
    requires 1 <= k <= BIGCOUNT
    ensures Trace(r) && r[|r| - 1] == Full(k)
  {
    hide Moves, Trace, Run, Full;
    if k == 1 {
      r := Opened([]);
      RunTrace(r);
      assert r[|r| - 1] == Full(1) by { OneFull(); }
    } else {
      r := OpenMany(k - 1);
      var s1, s2, s3 := OpenAnother(k - 1);
      var s4 := FinishAnother(k - 1);
      Extend(r, s1, 0);
      Extend(r + [s1], s2, 0);
      Extend(r + [s1] + [s2], s3, 0);
      r := r + [s1] + [s2] + [s3];
      Extend(r, s4, 0);
      Extend(r + [s4], Full(k), 0);
      r := r + [s4] + [Full(k)];
    }
  }

  lemma OneFull()
    ensures Full(1) == Sys(The(1, BIGCOUNT - 1, 0, true, true), 1, [First(Idle, 1, 0)] + [])
  {
  }

  /** One process can open the set BIGCOUNT times, and its next call is about to initialise the
      complete set anew. */
  lemma BigCountReached() returns (r: seq<Sys>)
    ensures Trace(r) && var s := r[|r| - 1];
      s.sem.Some? && s.sem.value.complete && |s.procs| == 1 && s.procs[0].pc == CreateSet0 && Handles(s.procs) == BIGCOUNT
  {
    hide Trace, Run, Moves;
    r := OpenMany(BIGCOUNT);
    var s1, s2, s3 := OpenAnother(BIGCOUNT);
    var s4 := Sys(s3.sem, 1, [First(CreateSet0, BIGCOUNT, -1)]);
    assert Moves(s3, s4, 0) by { AnewStep(s3, s4); }
    Extend(r, s1, 0);
    Extend(r + [s1], s2, 0);
    Extend(r + [s1] + [s2], s3, 0);
    r := r + [s1] + [s2] + [s3];
    Extend(r, s4, 0);
    r := r + [s4];
    assert s4.procs[..0] == [];
  }

  lemma AnewStep(s: Sys, s': Sys)
    requires s == Sys(The(1, 0, 1, true, true), 1, [First(CreateRead, BIGCOUNT, -1)])
    requires s' == Sys(s.sem, 1, [First(CreateSet0, BIGCOUNT, -1)])
    ensures Moves(s, s', 0)
  {
    assert ReadCount(s, s', 0);
  }
}
