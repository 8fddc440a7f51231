/** What every run of the two-lock table guarantees: counts are references, nothing is used after
    it is freed, the results are those of the one-lock table, and no deadlock. */
module FooTwoLocksRuns {
  import opened Options
  import opened FooSpec
  import opened FooTwoLocks
  import opened FooTwoLocksInv

  // ---- counts and memory ----------------------------------------------------

  /** Every object in memory counts the references to it, and is in the bucket of its id, once,
      unless the one thread that refers to it is still allocating it or is about to free it. */
  lemma CountsAndBuckets(r: seq<Sys>, i: nat, o: nat)
    requires Run(r) && i < |r| && o in r[i].mem
    ensures o in r[i].held && r[i].mem[o].count == |r[i].held[o]|
    ensures o in r[i].tab.id ==>
      && r[i].mem[o].id == r[i].tab.id[o] && IsId(r[i].mem[o].id) && |r[i].tab.chain| == NHASH == |r[i].fh|
      && o in r[i].tab.chain[Hash(r[i].mem[o].id)]
      && ChainOk(r[i].fh[Hash(r[i].mem[o].id)], r[i].mem, r[i].tab.chain[Hash(r[i].mem[o].id)])
    ensures o !in r[i].tab.id ==>
      forall u :: u in r[i].held[o] ==> u < |r[i].threads| && Private(r[i].threads[u].pc) && Target(r[i].threads[u].op) == o
  {
    hide Run, TableOk, LogOk, After, FLocksOk, HashLockOk, Local, Private, ChainOk;
    RunInv(r, i);
    var s := r[i];
    if o in s.tab.id {
      InBucketAt(s, o);
      assert ChainOk(s.fh[Hash(s.tab.id[o])], s.mem, s.tab.chain[Hash(s.tab.id[o])]);
    }
  }

  /** Thread u's next step, or the lock it is waiting for, is in object o. */
  predicate Uses(s: Sys, u: nat, o: nat)
    requires u < |s.threads|
  {
    || (o in s.held && u in s.held[o])
    || HoldsF(s.threads[u]) == Some(o) || WantsF(s.threads[u]) == Some(o)
    || (s.threads[u].pc.FindWalk? && s.threads[u].pc.fp == Some(o))
    || (s.threads[u].pc.ReleUnlinkWalk? && s.threads[u].pc.tfp == o)
  }

  lemma UsesListed(s: Sys, u: nat, o: nat)
    requires Shared(s) && u < |s.threads| && Local(s, u) && Uses(s, u, o) && !(o in s.held && u in s.held[o])
    requires o in s.mem && s.mem[o].lock == None
    ensures o in s.tab.id
  {
    hide TableOk, TabAgrees, ListsOk, CountsOk, LogOk, After, HashLockOk, UnlistedOk, Open, Done, Shared, AtOpt;
    SharedMeans(s);
    if s.threads[u].pc.FindWalk? {
      var id, k := s.threads[u].op.id, s.threads[u].pc.k;
      AtSome(s.tab.chain[Hash(id)], k);
      ChainAt(s, Hash(id), k);
    } else if s.threads[u].pc.ReleUnlinkWalk? {
      InBucketAt(s, Target(s.threads[u].op));
      ChainAt(s, Hash(s.tab.id[Target(s.threads[u].op)]), s.threads[u].pc.k);
    }
  }

  /** An object is freed by the thread that has the only reference, and no other thread has
      anything to do with it. */
  lemma FreedAlone(r: seq<Sys>, i: nat, t: nat, s': Sys, u: nat)
    requires Run(r) && i < |r| && t < |r[i].threads| && Free(r[i], s', t)
    requires u < |r[i].threads| && u != t
    ensures Target(r[i].threads[t].op) in r[i].held && r[i].held[Target(r[i].threads[t].op)] == multiset{t}
    ensures !Uses(r[i], u, Target(r[i].threads[t].op))
  {
    hide Run, Shared, Uses, Done, Inv;
    RunInv(r, i);
    Parts(r[i], t);
    Parts(r[i], u);
    if Uses(r[i], u, Target(r[i].threads[t].op)) {
      UsesListed(r[i], u, Target(r[i].threads[t].op));
    }
  }

  // ---- the one-lock table ---------------------------------------------------

  /** Steps that do not take effect. */
  lemma QuietRefines(s: Sys, s': Sys, t: nat)
    requires t < |s.threads|
    requires LockHash(s, s', t) || UnlockHash(s, s', t) || (exists o :: LockF(s, s', t, o)) || (exists o :: UnlockF(s, s', t, o))
      || Look(s, s', t) || WriteNext(s, s', t) || Free(s, s', t) || StepReturn(s, s', t) || Starts(s, s', t)
    ensures s'.tab == s.tab && s'.log == s.log
  {
    hide WithLock, WantsF, GotF, HoldsF, GaveF, GivesF, WantsHash, GotHash, GivesHash, GaveHash;
  }

  /** A step either leaves the one-lock table alone or is one operation of the moving thread on it. */
  lemma StepRefines(s: Sys, s': Sys, t: nat)
    requires Inv(s) && Moves(s, s', t)
    ensures (s'.tab == s.tab && s'.log == s.log)
      || (&& TableOk(s.tab) && Legal(s.tab, s.threads[t].op)
          && s'.tab == Apply(s.tab, s.threads[t].op)
          && s'.log == s.log + [Entry(t, s.threads[t].op, Answer(s.tab, s.threads[t].op))])
  {
    hide Inv, Apply, Answer, Legal, TableOk, LockHash, UnlockHash, LockF, UnlockF, Look, WriteNext, Free, StepReturn, Starts;
    if (exists o :: Count(s, s', t, o)) || Miss(s, s', t) || WriteHead(s, s', t) || UnlinkFirst(s, s', t) || UnlinkAfter(s, s', t) {
    } else {
      QuietRefines(s, s', t);
    }
  }

  /** At any point of any run: the operations that have taken effect, given one after the other to
      the one-lock table, leave exactly the buckets and counts now in memory and give the answers
      in the log; and a call that returns gives the answer logged for it during the call. */
  lemma RefinesOneLock(r: seq<Sys>, i: nat)
    requires Run(r) && i < |r|
    ensures LogOk(r[i].log) && r[i].tab == After(OpsOf(r[i].log))
    ensures forall o :: o in r[i].tab.id ==>
      && o in r[i].mem && o in r[i].tab.count
      && r[i].mem[o].id == r[i].tab.id[o] && r[i].mem[o].count == r[i].tab.count[o]
    ensures |r[i].fh| == NHASH == |r[i].tab.chain|
    ensures forall h :: 0 <= h < NHASH ==> ChainOk(r[i].fh[h], r[i].mem, r[i].tab.chain[h])
    ensures forall u :: 0 <= u < |r[i].threads| && r[i].threads[u].pc.Return? ==>
      && r[i].threads[u].mine.Some? && r[i].threads[u].start <= r[i].threads[u].mine.value < |r[i].log|
      && r[i].log[r[i].threads[u].mine.value] == Entry(u, r[i].threads[u].op, r[i].threads[u].pc.r)
  {
    hide Run, TableOk, CountsOk, LogOk, After, OpsOf, FLocksOk, HashLockOk, UnlistedOk, Local, ChainOk, ListsOk;
    RunInv(r, i);
    ListsMean(r[i]);
    forall u | 0 <= u < |r[i].threads| && r[i].threads[u].pc.Return?
      ensures Done(r[i], u, r[i].threads[u], r[i].threads[u].pc.r)
    {
      ReturnDone(r[i], u);
    }
  }

  lemma ListsMean(s: Sys)
    requires ListsOk(s.fh, s.mem, s.tab.chain)
    ensures |s.fh| == NHASH == |s.tab.chain| && forall h :: 0 <= h < NHASH ==> ChainOk(s.fh[h], s.mem, s.tab.chain[h])
  {
    hide ChainOk;
  }

  lemma ReturnDone(s: Sys, u: nat)
    requires u < |s.threads| && Local(s, u) && s.threads[u].pc.Return?
    ensures Done(s, u, s.threads[u], s.threads[u].pc.r)
  {
    hide Done;
  }

  /** Each answer in the log is the one-lock table's answer after the operations logged before it. */
  lemma {:induction false} LogAnswers(log: seq<Entry>, k: nat)
    requires LogOk(log) && k < |log|
    ensures LogOk(log[..k]) && Legal(After(OpsOf(log[..k])), log[k].op)
    ensures log[k].r == Answer(After(OpsOf(log[..k])), log[k].op)
  {
    hide After, OpsOf, Legal, Answer, LegalRun;
    var n := |log| - 1;
    if k < n {
      LogAnswers(log[..n], k);
      assert log[..n][..k] == log[..k];
    }
  }

  // ---- no deadlock ----------------------------------------------------------

  /** u is kept waiting by a lock that v holds. */
  predicate WaitsFor(s: Sys, u: nat, v: nat) {
    && u < |s.threads|
    && ((WantsHash(s.threads[u].pc) && s.hashlock == Some(v))
        || (WantsF(s.threads[u]).Some? && WantsF(s.threads[u]).value in s.mem
            && s.mem[WantsF(s.threads[u]).value].lock == Some(v)))
  }

  /** 0 before the hash lock, 1 before the lock of an object, 2 otherwise. */
  function Level(th: Thread): nat {
    if WantsHash(th.pc) then 0 else if WantsF(th).Some? then 1 else 2
  }

  lemma HolderLevel(th: Thread)
    ensures HoldsF(th).Some? ==> Level(th) == 2 && th.pc != Idle
    ensures HoldsHash(th.pc) ==> Level(th) >= 1 && th.pc != Idle
  {
  }

  lemma WaitsUp(s: Sys, u: nat, v: nat)
    requires Shared(s) && WaitsFor(s, u, v)
    ensures v < |s.threads| && Level(s.threads[u]) < Level(s.threads[v]) && s.threads[v].pc != Idle
  {
    hide TableOk, TabAgrees, ListsOk, CountsOk, LogOk, After, UnlistedOk, WantsF, WantsHash, HoldsF, HoldsHash;
    assert v < |s.threads|;
    HolderLevel(s.threads[v]);
  }

  predicate Kept(s: Sys, u: nat) { exists v :: 0 <= v < |s.threads| && WaitsFor(s, u, v) }

  lemma {:induction false} SomeoneNotKept(s: Sys, u: nat) returns (v: nat)
    requires Shared(s) && u < |s.threads| && s.threads[u].pc != Idle
    ensures v < |s.threads| && s.threads[v].pc != Idle && !Kept(s, v)
    decreases 2 - Level(s.threads[u])
  {
    hide Shared, WaitsFor, WantsF, WantsHash;
    v := u;
    if Kept(s, u) {
      v :| 0 <= v < |s.threads| && WaitsFor(s, u, v);
      WaitsUp(s, u, v);
      v := SomeoneNotKept(s, v);
    }
  }

  /** The thread's next step can be taken now. */
  ghost predicate CanGo(s: Sys, u: nat)
    requires u < |s.threads|
  {
    exists s' :: Proceed(s, s', u)
  }

  lemma GoLock(s: Sys, u: nat) returns (s': Sys, o: nat)
    requires Shared(s) && u < |s.threads| && Local(s, u) && !Kept(s, u)
    requires WantsHash(s.threads[u].pc) || WantsF(s.threads[u]).Some?
    ensures LockHash(s, s', u) || LockF(s, s', u, o)
  {
    hide TableOk, ListsOk, CountsOk, LogOk, After, UnlistedOk, Open, Done, WantsF, WantsHash, GotF, GotHash, WithLock;
    o := 0;
    if WantsHash(s.threads[u].pc) {
      assert s.hashlock.Some? ==> WaitsFor(s, u, s.hashlock.value);
      s' := Put(s, u, GotHash(s.threads[u].pc)).(hashlock := Some(u));
    } else {
      o := WantsF(s.threads[u]).value;
      WantedThere(s, u, o);
      assert s.mem[o].lock.Some? ==> WaitsFor(s, u, s.mem[o].lock.value);
      s' := Put(s, u, GotF(s.threads[u].pc)).(mem := WithLock(s, o, Some(u)));
    }
  }

  lemma WantedThere(s: Sys, u: nat, o: nat)
    requires u < |s.threads| && Local(s, u) && WantsF(s.threads[u]) == Some(o) && TabAgrees(s.tab, s.mem)
    ensures o in s.mem
  {
    hide Open, Done;
  }

  lemma GoUnlock(s: Sys, u: nat) returns (s': Sys, o: nat)
    requires Shared(s) && u < |s.threads| && (GivesHash(s.threads[u].pc) || GivesF(s.threads[u].pc))
    ensures UnlockHash(s, s', u) || UnlockF(s, s', u, o)
  {
    hide TableOk, ListsOk, CountsOk, LogOk, After, UnlistedOk, TabAgrees, WantsF, GivesHash, GaveHash, GaveF, GivesF, WithLock,
      HoldsF;
    o := 0;
    if GivesHash(s.threads[u].pc) {
      s' := Put(s, u, GaveHash(s.threads[u].pc)).(hashlock := None);
    } else {
      FLockEnds(s.threads[u]);
      o := HoldsF(s.threads[u]).value;
      s' := Put(s, u, GaveF(s.threads[u])).(mem := WithLock(s, o, None));
    }
  }

  lemma GoFind(s: Sys, u: nat) returns (s': Sys)
    requires Shared(s) && u < |s.threads| && Local(s, u) && (s.threads[u].pc.FindHead? || s.threads[u].pc.FindWalk?)
    ensures Look(s, s', u) || Miss(s, s', u)
  {
    hide Shared, Open, Done, AtOpt, Effect, TableOk, ListsOk, CountsOk, LogOk, After, UnlistedOk, TabAgrees, HashLockOk,
      FLocksOk;
    SharedMeans(s);
    var id := s.threads[u].op.id;
    ChainStart(s, Hash(id));
    s' := s;
    if s.threads[u].pc.FindHead? {
      s' := Put(s, u, FindWalk(0, s.fh[Hash(id)]));
    } else {
      var k, fp := s.threads[u].pc.k, s.threads[u].pc.fp;
      AtSome(s.tab.chain[Hash(id)], k);
      if fp.Some? {
        ChainAt(s, Hash(id), k);
        s' := Put(s, u, if s.mem[fp.value].id == id then FindWantF(k, fp.value) else FindWalk(k + 1, s.mem[fp.value].next));
      } else {
        s' := Effect(s, u, FindDropHash(None));
      }
    }
  }

  lemma CountLegal(s: Sys, u: nat) returns (o: nat)
    requires Shared(s) && u < |s.threads| && Local(s, u)
    requires var pc := s.threads[u].pc; pc.HoldInc? || pc.FindInc? || pc.ReleDec? || pc.ReleRedec?
    ensures o == if s.threads[u].pc.FindInc? then s.threads[u].pc.o else Target(s.threads[u].op)
    ensures o in s.mem && o in s.held && CanEffect(s, u)
  {
    hide Shared, Open, Done, TableOk, ListsOk, LogOk, After, UnlistedOk, HashLockOk, FLocksOk;
    SharedMeans(s);
    o := if s.threads[u].pc.FindInc? then s.threads[u].pc.o else Target(s.threads[u].op);
    TabMeans(s, o);
  }

  lemma GoCount(s: Sys, u: nat) returns (s': Sys, o: nat)
    requires Shared(s) && u < |s.threads| && Local(s, u)
    requires var pc := s.threads[u].pc; pc.HoldInc? || pc.FindInc? || pc.ReleDec? || pc.ReleRedec?
    ensures Count(s, s', u, o)
  {
    hide Shared, Local, Effect, CanEffect;
    o := CountLegal(s, u);
    assert TableOk(s.tab) && Legal(s.tab, s.threads[u].op) by { CanEffectMeans(s, u); }
    hide TableOk, Legal;
    var th := s.threads[u];
    var up := s.mem[o := s.mem[o].(count := s.mem[o].count + 1)];
    var down := s.mem[o := s.mem[o].(count := s.mem[o].count - 1)];
    var more := s.held[o := s.held[o] + multiset{u}];
    var less := s.held[o := s.held[o] - multiset{u}];
    s' := if th.pc.HoldInc? then Effect(s, u, HoldDropF).(mem := up, held := more)
          else if th.pc.FindInc? then Effect(s, u, FindDropF(o)).(mem := up, held := more)
          else if th.pc.ReleDec? then Effect(s, u, ReleDropF).(mem := down, held := less)
          else Effect(s, u, ReleRedropF).(mem := down, held := less);
  }

  lemma CanEffectMeans(s: Sys, u: nat)
    requires u < |s.threads| && CanEffect(s, u)
    ensures TableOk(s.tab) && Legal(s.tab, s.threads[u].op)
  {
  }

  lemma GoAlloc(s: Sys, u: nat) returns (s': Sys)
    requires Shared(s) && u < |s.threads| && Local(s, u) && (s.threads[u].pc.AllocLink? || s.threads[u].pc.AllocHead?)
    ensures WriteNext(s, s', u) || WriteHead(s, s', u)
  {
    hide Shared, Open, Done, AtOpt, Effect, TableOk, CountsOk, LogOk, After, UnlistedOk, HashLockOk, FLocksOk, TabAgrees,
      ChainOk;
    SharedMeans(s);
    var op := s.threads[u].op;
    if s.threads[u].pc.AllocLink? {
      s' := Put(s, u, AllocHead).(mem := s.mem[op.o := s.mem[op.o].(next := s.fh[Hash(op.id)])]);
    } else {
      s' := Effect(s, u, AllocWantF).(fh := s.fh[Hash(op.id) := Some(op.o)]);
    }
  }

  lemma GoCheck(s: Sys, u: nat) returns (s': Sys)
    requires Shared(s) && u < |s.threads| && Local(s, u) && (s.threads[u].pc.ReleCheck? || s.threads[u].pc.ReleRecheck?)
    ensures Look(s, s', u)
  {
    hide Shared, Open, Done;
    var o := Target(s.threads[u].op);
    s' := Put(s, u, if s.threads[u].pc.ReleCheck? then (if s.mem[o].count == 1 then ReleRetryDropF else ReleDec)
                    else (if s.mem[o].count != 1 then ReleRedec else ReleUnlink));
  }

  lemma UnlinkThere(s: Sys, u: nat) returns (o: nat, h: nat)
    requires Shared(s) && u < |s.threads| && Local(s, u) && (s.threads[u].pc.ReleUnlink? || s.threads[u].pc.ReleUnlinkWalk?)
    ensures o == Target(s.threads[u].op) && CanEffect(s, u) && o in s.mem && o in s.tab.id && s.mem[o].id == s.tab.id[o]
    ensures IsId(s.mem[o].id) && h == Hash(s.mem[o].id) && |s.fh| == NHASH == |s.tab.chain|
    ensures s.fh[h] == AtOpt(s.tab.chain[h], 0) && o in s.tab.chain[h]
  {
    hide Shared, Open, Done, AtOpt, TableOk, CountsOk, LogOk, After, UnlistedOk, HashLockOk, FLocksOk, ListsOk, Seeking;
    SharedMeans(s);
    o := Target(s.threads[u].op);
    TabMeans(s, o);
    InBucketAt(s, o);
    h := Hash(s.mem[o].id);
  }

  lemma GoUnlink(s: Sys, u: nat) returns (s': Sys)
    requires Shared(s) && u < |s.threads| && Local(s, u) && s.threads[u].pc.ReleUnlink?
    ensures Look(s, s', u) || UnlinkFirst(s, s', u)
  {
    hide Shared, Local, AtOpt, Effect, CanEffect;
    var o, h := UnlinkThere(s, u);
    CanEffectMeans(s, u);
    hide TableOk, Legal;
    AtSome(s.tab.chain[h], 0);
    if s.fh[h] == Some(o) {
      s' := Effect(s, u, ReleLastHash).(fh := s.fh[h := s.mem[o].next]);
    } else {
      s' := Put(s, u, ReleUnlinkWalk(0, s.fh[h].value));
    }
  }

  lemma SeekMeans(s: Sys, u: nat)
    requires u < |s.threads| && Local(s, u) && s.threads[u].pc.ReleUnlinkWalk?
    ensures Seeking(s, Target(s.threads[u].op), s.threads[u].pc.k, s.threads[u].pc.tfp)
  {
    hide Seeking, Open;
  }

  lemma GoUnlinkWalk(s: Sys, u: nat) returns (s': Sys)
    requires Shared(s) && u < |s.threads| && Local(s, u) && s.threads[u].pc.ReleUnlinkWalk?
    ensures Look(s, s', u) || UnlinkAfter(s, s', u)
  {
    hide Shared, Local, AtOpt, Effect, CanEffect;
    var o, h := UnlinkThere(s, u);
    CanEffectMeans(s, u);
    hide TableOk, Legal;
    SeekMeans(s, u);
    var k, tfp := s.threads[u].pc.k, s.threads[u].pc.tfp;
    ChainAt(s, h, k);
    AtSome(s.tab.chain[h], k + 1);
    if s.mem[tfp].next == Some(o) {
      s' := Effect(s, u, ReleLastHash).(mem := s.mem[tfp := s.mem[tfp].(next := s.mem[o].next)]);
    } else {
      s' := Put(s, u, ReleUnlinkWalk(k + 1, s.mem[tfp].next.value));
    }
  }

  /** Whoever holds f_lock of an object has it in its bucket or is the only one to refer to it. */
  lemma LockedListed(s: Sys, v: nat, o: nat)
    requires v < |s.threads| && HoldsF(s.threads[v]) == Some(o) && Local(s, v)
    ensures o in s.tab.id || Alone(s, v, o)
  {
    hide Open, Done, PassedBy, Seeking, Alone;
  }

  lemma FreeUnlocked(s: Sys, u: nat)
    requires Inv(s) && u < |s.threads| && s.threads[u].pc.ReleFree?
    ensures var o := Target(s.threads[u].op);
      o in s.mem && s.mem[o].lock == None
  {
    hide Inv, Shared, Open, Done, HoldsF, TableOk, LogOk, After, HashLockOk, ListsOk, TabAgrees, UnlistedOk, CountsOk;
    Parts(s, u);
    SharedMeans(s);
    FreeHoldsNone(s.threads[u]);
    var o := Target(s.threads[u].op);
    if s.mem[o].lock.Some? {
      var v := s.mem[o].lock.value;
      Parts(s, v);
      LockedListed(s, v, o);
      OnlyMember(u, v);
    }
  }

  lemma OnlyMember(u: nat, v: nat)
    ensures multiset{u} == multiset{v} ==> u == v
  {
    assert u in multiset{u};
  }

  lemma FreeHoldsNone(th: Thread)
    requires th.pc.ReleFree?
    ensures HoldsF(th) == None
  {
  }

  lemma GoFree(s: Sys, u: nat) returns (s': Sys)
    requires Inv(s) && u < |s.threads| && s.threads[u].pc.ReleFree?
    ensures Free(s, s', u)
  {
    hide Inv;
    FreeUnlocked(s, u);
    var o := Target(s.threads[u].op);
    s' := Put(s, u, Return(None)).(mem := s.mem - {o}, held := s.held - {o});
  }

  /** A thread in a call that is not kept waiting can take its next step: whatever object that
      step reads or writes is in memory. */
  lemma NotKeptCanGo(s: Sys, u: nat)
    requires Inv(s) && u < |s.threads| && s.threads[u].pc != Idle && !Kept(s, u)
    ensures CanGo(s, u)
  {
    hide Inv, Kept, LockHash, UnlockHash, LockF, UnlockF, Look, Count, Miss, WriteNext, WriteHead, UnlinkFirst, UnlinkAfter,
      Free, Local;
    Parts(s, u);
    hide Shared, TableOk;
    var s', o := s, 0;
    var pc := s.threads[u].pc;
    if WantsHash(pc) || WantsF(s.threads[u]).Some? { s', o := GoLock(s, u); }
    else if GivesHash(pc) || GivesF(pc) { s', o := GoUnlock(s, u); }
    else if pc.FindHead? || pc.FindWalk? { s' := GoFind(s, u); }
    else if pc.HoldInc? || pc.FindInc? || pc.ReleDec? || pc.ReleRedec? { s', o := GoCount(s, u); }
    else if pc.AllocLink? || pc.AllocHead? { s' := GoAlloc(s, u); }
    else if pc.ReleCheck? || pc.ReleRecheck? { s' := GoCheck(s, u); }
    else if pc.ReleUnlink? { s' := GoUnlink(s, u); }
    else if pc.ReleUnlinkWalk? { s' := GoUnlinkWalk(s, u); }
    else if pc.ReleFree? { s' := GoFree(s, u); }
    else { s' := Put(s, u, Idle); }
    assert Proceed(s, s', u);
  }

  /** Whenever some thread is in a call, one of the threads in a call can go on. */
  lemma NoDeadlock(r: seq<Sys>, i: nat, u: nat) returns (v: nat)
    requires Run(r) && i < |r| && u < |r[i].threads| && r[i].threads[u].pc != Idle
    ensures v < |r[i].threads| && r[i].threads[v].pc != Idle && CanGo(r[i], v)
  {
    hide Run, Shared, Local, CanGo, Kept;
    RunInv(r, i);
    v := SomeoneNotKept(r[i], u);
    NotKeptCanGo(r[i], v);
  }
}
