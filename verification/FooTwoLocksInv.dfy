/** Every step of every thread keeps the invariant of the two-lock table. */
module FooTwoLocksInv {
  import opened Options
  import opened FooSpec
  import opened FooTwoLocks

  // ---- non-interference -----------------------------------------------------

  ghost predicate KeptRefs(s: Sys, s': Sys, u: nat) {
    && (forall o :: Refers(s, u, o) ==> Refers(s', u, o) && s'.tab.id[o] == s.tab.id[o])
    && (forall o :: Alone(s, u, o) ==>
          Alone(s', u, o) && s'.mem[o].id == s.mem[o].id && s'.mem[o].next == s.mem[o].next)
  }

  /** What thread u can rely on when another thread takes a step. */
  ghost predicate Undisturbed(s: Sys, s': Sys, u: nat)
    requires u < |s.threads|
  {
    && |s'.threads| == |s.threads| && s'.threads[u] == s.threads[u]
    && s.log <= s'.log
    && KeptRefs(s, s', u)
    && (HoldsHash(s.threads[u].pc) ==>
          s'.fh == s.fh && s'.tab.chain == s.tab.chain && s'.tab.id == s.tab.id)
    && (HoldsF(s.threads[u]).Some? && HoldsF(s.threads[u]).value in s.mem ==>
          HoldsF(s.threads[u]).value in s'.mem
          && s'.mem[HoldsF(s.threads[u]).value].count == s.mem[HoldsF(s.threads[u]).value].count
          && (HoldsF(s.threads[u]).value in s.tab.id ==> HoldsF(s.threads[u]).value in s'.tab.id))
  }

  lemma DoneStable(s: Sys, s': Sys, u: nat, th: Thread)
    requires s.log <= s'.log
    ensures forall r :: Done(s, u, th, r) ==> Done(s', u, th, r)
    ensures Open(s, th) ==> Open(s', th)
  {
  }

  lemma LocalStable(s: Sys, s': Sys, u: nat)
    requires u < |s.threads| && Undisturbed(s, s', u) && Local(s, u) && TabAgrees(s.tab, s.mem)
    ensures Local(s', u)
  {
    hide Done, Open, Refers, Alone;
    DoneStable(s, s', u, s.threads[u]);
    AloneMeans(s, u, Target(s.threads[u].op));
    AloneMeans(s', u, Target(s.threads[u].op));
  }

  lemma AloneMeans(s: Sys, u: nat, o: nat)
    ensures Alone(s, u, o) ==> o in s.held && s.held[o] == multiset{u} && o !in s.tab.id && o in s.mem
    ensures Refers(s, u, o) ==> o in s.held && u in s.held[o] && o in s.tab.id && o in s.mem
  {
  }

  /** What one step of thread t may change of object o. */
  ghost predicate OwnObject(s: Sys, s': Sys, t: nat, o: nat)
    requires o in s.mem && o in s.held
  {
    || s.held[o] == multiset{t}
    || (&& o in s'.mem && o in s'.held && s'.mem[o].id == s.mem[o].id
        && (o in s.tab.id ==> o in s'.tab.id && s'.tab.id[o] == s.tab.id[o])
        && (o !in s.tab.id ==> o !in s'.tab.id && s'.held[o] == s.held[o] && s'.mem[o].next == s.mem[o].next)
        && (forall u :: u != t && u in s.held[o] ==> u in s'.held[o]))
  }

  ghost predicate OwnCount(s: Sys, s': Sys, t: nat, o: nat)
    requires o in s.mem
  {
    || s.mem[o].lock == Some(t) || s.mem[o].lock == None
    || (o in s'.mem && s'.mem[o].count == s.mem[o].count && (o in s.tab.id ==> o in s'.tab.id))
  }

  ghost predicate Own(s: Sys, s': Sys, t: nat)
    requires s.held.Keys == s.mem.Keys
  {
    && |s'.threads| == |s.threads|
    && (forall u :: 0 <= u < |s.threads| && u != t ==> s'.threads[u] == s.threads[u])
    && s.log <= s'.log
    && (forall o {:trigger OwnObject(s, s', t, o)} :: o in s.mem ==> OwnObject(s, s', t, o))
    && (forall o {:trigger OwnCount(s, s', t, o)} :: o in s.mem ==> OwnCount(s, s', t, o))
    && (s.hashlock == Some(t) || (s'.fh == s.fh && s'.tab.chain == s.tab.chain && s'.tab.id == s.tab.id))
  }

  lemma OwnRefs(s: Sys, s': Sys, t: nat, u: nat)
    requires CountsOk(s.mem, s.held, |s.threads|) && u != t && Own(s, s', t)
    ensures KeptRefs(s, s', u)
  {
    forall o | Refers(s, u, o)
      ensures Refers(s', u, o) && s'.tab.id[o] == s.tab.id[o]
    {
      assert OwnObject(s, s', t, o);
    }
    forall o | Alone(s, u, o)
      ensures Alone(s', u, o) && s'.mem[o].id == s.mem[o].id && s'.mem[o].next == s.mem[o].next
    {
      assert OwnObject(s, s', t, o);
      assert u in s.held[o];
    }
  }

  lemma OwnUndisturbed(s: Sys, s': Sys, t: nat, u: nat)
    requires Shared(s) && t < |s.threads| && u < |s.threads| && u != t && Own(s, s', t)
    ensures Undisturbed(s, s', u)
  {
    hide KeptRefs, TableOk, LogOk, After, OpsOf, OwnObject, ListsOk, TabAgrees, UnlistedOk;
    OwnRefs(s, s', t, u);
    var f := HoldsF(s.threads[u]);
    if f.Some? {
      assert OwnCount(s, s', t, f.value);
    }
  }

  lemma Finish(s: Sys, s': Sys, t: nat)
    requires Inv(s) && t < |s.threads| && s.held.Keys == s.mem.Keys && Own(s, s', t) && Shared(s') && Local(s', t)
    ensures Inv(s')
  {
    hide Shared, Local, Undisturbed;
    forall u | 0 <= u < |s'.threads|
      ensures Local(s', u)
    {
      if u != t {
        assert Local(s, u);
        assert TabAgrees(s.tab, s.mem) by { SharedMeans(s); }
        OwnUndisturbed(s, s', t, u);
        LocalStable(s, s', u);
      }
    }
  }

  lemma Parts(s: Sys, t: nat)
    requires Inv(s) && t < |s.threads|
    ensures Shared(s) && Local(s, t) && s.held.Keys == s.mem.Keys && TableOk(s.tab)
  {
    hide Local, TableOk, TabAgrees, ListsOk, UnlistedOk, HashLockOk, FLocksOk, LogOk, After;
  }

  // ---- steps that touch no object -------------------------------------------

  predicate SameLocks(a: Thread, b: Thread) {
    HoldsF(b) == HoldsF(a) && HoldsHash(b.pc) == HoldsHash(a.pc)
  }

  lemma FLocksKept(s: Sys, s': Sys, t: nat, th: Thread)
    requires FLocksOk(s) && t < |s.threads| && s'.threads == s.threads[t := th] && HoldsF(th) == HoldsF(s.threads[t])
    requires forall o :: o in s.mem ==> o in s'.mem && s'.mem[o].lock == s.mem[o].lock
    requires forall o :: o in s'.mem && o !in s.mem ==> s'.mem[o].lock == None
    ensures FLocksOk(s')
  {
    hide HoldsF;
    forall u | 0 <= u < |s'.threads| && HoldsF(s'.threads[u]).Some?
      ensures HoldsF(s'.threads[u]).value in s'.mem && s'.mem[HoldsF(s'.threads[u]).value].lock == Some(u)
    {
      assert HoldsF(s.threads[u]) == HoldsF(s'.threads[u]);
    }
  }

  lemma HashLockKept(s: Sys, s': Sys, t: nat, th: Thread)
    requires HashLockOk(s) && t < |s.threads| && s'.threads == s.threads[t := th] && s'.hashlock == s.hashlock
    requires HoldsHash(th.pc) == HoldsHash(s.threads[t].pc)
    ensures HashLockOk(s')
  {
    hide HoldsHash;
  }

  lemma UnlistedKept(s: Sys, s': Sys, t: nat, th: Thread)
    requires UnlistedOk(s) && t < |s.threads| && s'.threads == s.threads[t := th]
    requires s'.held == s.held && s'.tab.id == s.tab.id && s'.mem.Keys == s.mem.Keys
    requires th.op == s.threads[t].op && (Private(s.threads[t].pc) ==> Private(th.pc))
    ensures UnlistedOk(s')
  {
    hide Private;
  }

  lemma OwnSame(s: Sys, s': Sys, t: nat, th: Thread)
    requires s.held.Keys == s.mem.Keys && t < |s.threads| && s'.threads == s.threads[t := th]
    requires s'.held == s.held && s'.tab == s.tab && s'.fh == s.fh && s.log <= s'.log
    requires s'.mem.Keys == s.mem.Keys
    requires forall o :: o in s.mem ==>
      s'.mem[o].id == s.mem[o].id && s'.mem[o].next == s.mem[o].next && s'.mem[o].count == s.mem[o].count
    ensures Own(s, s', t)
  {
  }

  /** A step that changes only where the thread is. */
  lemma QuietStep(s: Sys, s': Sys, t: nat, pc: Pc)
    requires Inv(s) && t < |s.threads| && s' == Put(s, t, pc)
    requires SameLocks(s.threads[t], s.threads[t].(pc := pc)) && (Private(s.threads[t].pc) ==> Private(pc))
    requires Local(s', t)
    ensures Inv(s')
  {
    hide Local, TableOk, TabAgrees, ListsOk, CountsOk, LogOk, After, Own, HoldsF, HoldsHash, Private, FLocksOk,
      HashLockOk, UnlistedOk;
    Parts(s, t);
    var th := s.threads[t].(pc := pc);
    FLocksKept(s, s', t, th);
    HashLockKept(s, s', t, th);
    UnlistedKept(s, s', t, th);
    OwnSame(s, s', t, th);
    Finish(s, s', t);
  }

  /** Walking a bucket with the hash lock held. */
  lemma ChainNode(s: Sys, h: nat, k: nat)
    requires TableOk(s.tab) && TabAgrees(s.tab, s.mem) && ListsOk(s.fh, s.mem, s.tab.chain) && h < NHASH
    requires |s.tab.chain| == NHASH && k < |s.tab.chain[h]|
    ensures |s.fh| == NHASH && s.fh[h] == AtOpt(s.tab.chain[h], 0)
    ensures var q := s.tab.chain[h][k];
      q in s.mem && q in s.tab.id && s.mem[q].id == s.tab.id[q] && s.mem[q].next == AtOpt(s.tab.chain[h], k + 1)
  {
    BucketOf(s.tab, h);
    hide TableOk;
    assert ChainOk(s.fh[h], s.mem, s.tab.chain[h]);
  }

  lemma ChainStart(s: Sys, h: nat)
    requires TableOk(s.tab) && ListsOk(s.fh, s.mem, s.tab.chain) && h < NHASH
    ensures |s.tab.chain| == NHASH == |s.fh| && s.fh[h] == AtOpt(s.tab.chain[h], 0)
  {
    hide TableOk;
    assert ChainOk(s.fh[h], s.mem, s.tab.chain[h]);
  }

  lemma KeepLookFind(s: Sys, s': Sys, t: nat)
    requires Inv(s) && t < |s.threads| && Look(s, s', t) && s.threads[t].op.Find?
    ensures Inv(s')
  {
    hide Inv, TableOk, TabAgrees, ListsOk, CountsOk, LogOk, After, FLocksOk, HashLockOk, UnlistedOk, Open, Done, AtOpt;
    Parts(s, t);
    var id := s.threads[t].op.id;
    ChainStart(s, Hash(id));
    var pc := s.threads[t].pc;
    if pc.FindWalk? {
      assert pc.k < |s.tab.chain[Hash(id)]| by { AtSome(s.tab.chain[Hash(id)], pc.k); }
      ChainNode(s, Hash(id), pc.k);
      AtSome(s.tab.chain[Hash(id)], pc.k);
    }
    OpenPut(s, s', s.threads[t], s'.threads[t]);
    QuietStep(s, s', t, s'.threads[t].pc);
  }

  lemma AtSome(c: seq<nat>, k: nat)
    ensures AtOpt(c, k).Some? <==> k < |c|
    ensures AtOpt(c, k).Some? ==> AtOpt(c, k).value == c[k]
  {
  }

  lemma OpenPut(s: Sys, s': Sys, th: Thread, th': Thread)
    requires s.log <= s'.log && th'.mine == th.mine && th'.start == th.start && th'.op == th.op
    ensures Open(s, th) ==> Open(s', th')
    ensures forall u, r :: Done(s, u, th, r) ==> Done(s', u, th', r)
  {
  }

  lemma KeepLookRele(s: Sys, s': Sys, t: nat)
    requires Inv(s) && t < |s.threads| && Look(s, s', t) && s.threads[t].op.Rele?
    ensures Inv(s')
  {
    hide Inv, TableOk, TabAgrees, ListsOk, CountsOk, LogOk, After, FLocksOk, HashLockOk, UnlistedOk, Open, Done, AtOpt;
    Parts(s, t);
    var o := Target(s.threads[t].op);
    OpenPut(s, s', s.threads[t], s'.threads[t]);
    if s.threads[t].pc.ReleUnlink? {
      SeekFirst(s, o);
    } else if s.threads[t].pc.ReleUnlinkWalk? {
      SeekNext(s, o, s.threads[t].pc.k, s.threads[t].pc.tfp);
    }
    QuietStep(s, s', t, s'.threads[t].pc);
  }

  lemma SeekFirst(s: Sys, o: nat)
    requires Shared(s) && o in s.tab.id
    ensures o in s.mem && IsId(s.mem[o].id) && Hash(s.mem[o].id) < |s.fh|
    ensures var tfp := s.fh[Hash(s.mem[o].id)];
      tfp.Some? && (tfp.value != o ==> Seeking(s, o, 0, tfp.value))
  {
    hide Shared;
    InBucketAt(s, o);
    AtSome(s.tab.chain[Hash(s.tab.id[o])], 0);
  }

  lemma SeekNext(s: Sys, o: nat, k: nat, tfp: nat)
    requires Shared(s) && Seeking(s, o, k, tfp)
    ensures tfp in s.mem && s.mem[tfp].next.Some?
    ensures s.mem[tfp].next.value != o ==> Seeking(s, o, k + 1, s.mem[tfp].next.value)
  {
    hide Shared;
    InBucketAt(s, o);
    var h := Hash(s.tab.id[o]);
    AtSome(s.tab.chain[h], k + 1);
    ChainAt(s, h, k);
  }

  lemma InBucketAt(s: Sys, o: nat)
    requires Shared(s) && o in s.tab.id
    ensures |s.tab.chain| == NHASH == |s.fh| && o in s.mem && s.mem[o].id == s.tab.id[o] && IsId(s.tab.id[o])
    ensures s.fh[Hash(s.tab.id[o])] == AtOpt(s.tab.chain[Hash(s.tab.id[o])], 0)
    ensures o in s.tab.chain[Hash(s.tab.id[o])]
  {
    hide CountsOk, UnlistedOk, HashLockOk, FLocksOk, LogOk, After, ListsOk, AtOpt;
    assert Placed(s.tab, o);
    ChainStart(s, Hash(s.tab.id[o]));
  }

  lemma ChainAt(s: Sys, h: nat, k: nat)
    requires Shared(s) && h < NHASH && |s.tab.chain| == NHASH && k < |s.tab.chain[h]|
    ensures var q := s.tab.chain[h][k];
      q in s.mem && q in s.tab.id && s.mem[q].id == s.tab.id[q] && s.mem[q].next == AtOpt(s.tab.chain[h], k + 1)
  {
    hide CountsOk, UnlistedOk, HashLockOk, FLocksOk, LogOk, After, ListsOk, AtOpt, TableOk, TabAgrees;
    ChainNode(s, h, k);
  }

  // ---- locks ----------------------------------------------------------------

  lemma KeepHashLock(s: Sys, s': Sys, t: nat)
    requires Inv(s) && t < |s.threads| && (LockHash(s, s', t) || UnlockHash(s, s', t))
    ensures Inv(s')
  {
    hide Inv, TableOk, TabAgrees, ListsOk, CountsOk, LogOk, After, FLocksOk, HashLockOk, UnlistedOk, Own, Local,
      WantsHash, GivesHash, GotHash, GaveHash, HoldsF, HoldsHash, Private;
    Parts(s, t);
    var th := s'.threads[t];
    HashEnds(s.threads[t]);
    FLocksKept(s, s', t, th);
    HashLockMoved(s, s', t);
    UnlistedKept(s, s', t, th);
    OwnSame(s, s', t, th);
    LocalHashLock(s, s', t);
    Finish(s, s', t);
  }

  lemma HashEnds(th: Thread)
    ensures WantsHash(th.pc) ==> !HoldsHash(th.pc) && HoldsHash(GotHash(th.pc))
    ensures WantsHash(th.pc) ==> HoldsF(th.(pc := GotHash(th.pc))) == HoldsF(th) && (Private(th.pc) ==> Private(GotHash(th.pc)))
    ensures GivesHash(th.pc) ==> HoldsHash(th.pc) && !HoldsHash(GaveHash(th.pc))
    ensures GivesHash(th.pc) ==> HoldsF(th.(pc := GaveHash(th.pc))) == HoldsF(th) && (Private(th.pc) ==> Private(GaveHash(th.pc)))
  {
  }

  lemma HashLockMoved(s: Sys, s': Sys, t: nat)
    requires HashLockOk(s) && t < |s.threads| && (LockHash(s, s', t) || UnlockHash(s, s', t))
    ensures HashLockOk(s')
  {
    hide WantsHash, GivesHash, GotHash, GaveHash, HoldsHash;
    HashEnds(s.threads[t]);
    assert s.hashlock == None || s.hashlock == Some(t);
  }

  lemma LocalHashLock(s: Sys, s': Sys, t: nat)
    requires t < |s.threads| && (LockHash(s, s', t) || UnlockHash(s, s', t)) && Local(s, t)
    ensures Local(s', t)
  {
    hide Open, Done;
    OpenPut(s, s', s.threads[t], s'.threads[t]);
  }

  /** Only f_lock of o changes in memory. */
  lemma LockChanged(s: Sys, s': Sys, o: nat, lock: Option<nat>)
    requires o in s.mem && s'.mem == WithLock(s, o, lock) && s'.held == s.held && s'.tab == s.tab && s'.fh == s.fh
    requires CountsOk(s.mem, s.held, |s.threads|) && TabAgrees(s.tab, s.mem) && ListsOk(s.fh, s.mem, s.tab.chain)
    requires |s'.threads| == |s.threads|
    ensures CountsOk(s'.mem, s'.held, |s'.threads|) && TabAgrees(s'.tab, s'.mem) && ListsOk(s'.fh, s'.mem, s'.tab.chain)
  {
    forall h | 0 <= h < NHASH
      ensures ChainOk(s'.fh[h], s'.mem, s'.tab.chain[h])
    {
      assert ChainOk(s.fh[h], s.mem, s.tab.chain[h]);
    }
  }

  lemma FLockMoved(s: Sys, s': Sys, t: nat, o: nat)
    requires FLocksOk(s) && t < |s.threads| && (LockF(s, s', t, o) || UnlockF(s, s', t, o))
    ensures FLocksOk(s')
  {
    hide HoldsF, WantsF, GotF, GivesF, GaveF;
    FLockEnds(s.threads[t]);
    forall u | 0 <= u < |s'.threads| && HoldsF(s'.threads[u]).Some?
      ensures HoldsF(s'.threads[u]).value in s'.mem && s'.mem[HoldsF(s'.threads[u]).value].lock == Some(u)
    {
      assert HoldsF(s.threads[u]).Some? || u == t;
    }
    forall q | q in s'.mem && s'.mem[q].lock.Some?
      ensures s'.mem[q].lock.value < |s'.threads| && HoldsF(s'.threads[s'.mem[q].lock.value]) == Some(q)
    {
      assert q != o ==> s.mem[q].lock == s'.mem[q].lock;
    }
  }

  lemma FLockEnds(th: Thread)
    ensures WantsF(th).Some? ==>
      var th' := th.(pc := GotF(th.pc));
      && HoldsF(th) == None && HoldsF(th') == WantsF(th) && HoldsHash(th'.pc) == HoldsHash(th.pc)
      && (Private(th.pc) ==> Private(th'.pc))
    ensures GivesF(th.pc) ==>
      var th' := th.(pc := GaveF(th));
      && HoldsF(th).Some? && HoldsF(th') == None && HoldsHash(th'.pc) == HoldsHash(th.pc)
      && (Private(th.pc) ==> Private(th'.pc))
  {
  }

  lemma KeepFLock(s: Sys, s': Sys, t: nat, o: nat)
    requires Inv(s) && t < |s.threads| && (LockF(s, s', t, o) || UnlockF(s, s', t, o))
    ensures Inv(s')
  {
    hide Inv, TableOk, TabAgrees, ListsOk, CountsOk, LogOk, After, FLocksOk, HashLockOk, UnlistedOk, Own,
      Local, HoldsF, HoldsHash, Private, WantsF, GivesF, GotF, GaveF, WithLock;
    Parts(s, t);
    FLockEnds(s.threads[t]);
    FLockMoved(s, s', t, o);
    LockChanged(s, s', o, if LockF(s, s', t, o) then Some(t) else None);
    LockKeys(s, o);
    HashLockKept(s, s', t, s'.threads[t]);
    UnlistedKept(s, s', t, s'.threads[t]);
    OwnSame(s, s', t, s'.threads[t]);
    if LockF(s, s', t, o) { LocalGotF(s, s', t, o); } else { LocalGaveF(s, s', t, o); }
    Finish(s, s', t);
  }

  lemma LocalGotF(s: Sys, s': Sys, t: nat, o: nat)
    requires t < |s.threads| && LockF(s, s', t, o) && Local(s, t)
    ensures Local(s', t)
  {
    hide Open, Done, WithLock, PassedBy;
    OpenPut(s, s', s.threads[t], s'.threads[t]);
    LockKeys(s, o);
    PassedSame(s, s');
  }

  lemma PassedSame(s: Sys, s': Sys)
    requires s'.tab.chain == s.tab.chain && s'.tab.id == s.tab.id
    ensures forall id, k :: PassedBy(s, id, k) ==> PassedBy(s', id, k)
  {
  }

  lemma LocalGaveF(s: Sys, s': Sys, t: nat, o: nat)
    requires t < |s.threads| && UnlockF(s, s', t, o) && Local(s, t)
    ensures Local(s', t)
  {
    hide Open, Done, WithLock, PassedBy, Seeking;
    OpenPut(s, s', s.threads[t], s'.threads[t]);
    LockKeys(s, o);
  }

  lemma LockKeys(s: Sys, o: nat)
    requires o in s.mem
    ensures forall l :: WithLock(s, o, l).Keys == s.mem.Keys
    ensures forall l, q :: q in s.mem ==>
      && WithLock(s, o, l)[q].id == s.mem[q].id && WithLock(s, o, l)[q].next == s.mem[q].next
      && WithLock(s, o, l)[q].count == s.mem[q].count
  {
  }

  // ---- the log --------------------------------------------------------------

  lemma LogGrows(log: seq<Entry>, e: Entry)
    requires LogOk(log) && Legal(After(OpsOf(log)), e.op) && e.r == Answer(After(OpsOf(log)), e.op)
    ensures LogOk(log + [e]) && After(OpsOf(log + [e])) == Apply(After(OpsOf(log)), e.op)
  {
    var log' := log + [e];
    assert log'[..|log'| - 1] == log;
    assert OpsOf(log') == OpsOf(log) + [e.op];
    assert OpsOf(log')[..|OpsOf(log')| - 1] == OpsOf(log);
  }

  lemma EffectLog(s: Sys, t: nat, pc: Pc)
    requires t < |s.threads| && LogOk(s.log) && s.tab == After(OpsOf(s.log)) && CanEffect(s, t)
    ensures var s' := Effect(s, t, pc);
      LogOk(s'.log) && s'.tab == After(OpsOf(s'.log)) && s.log <= s'.log
    ensures var s' := Effect(s, t, pc);
      Open(s, s.threads[t]) ==> Done(s', t, s'.threads[t], Answer(s.tab, s.threads[t].op))
  {
    hide LogOk, OpsOf, LegalRun, Apply, Answer, Legal;
    LogGrows(s.log, Entry(t, s.threads[t].op, Answer(s.tab, s.threads[t].op)));
  }

  // ---- counting -------------------------------------------------------------

  lemma OnlyOne(m: multiset<nat>, t: nat)
    requires |m| == 1 && t in m
    ensures m == multiset{t}
  {
    var rest := m - multiset{t};
    assert m == rest + multiset{t};
    assert |rest| == 0;
  }

  lemma CountUp(mem: map<nat, Foo>, held: map<nat, multiset<nat>>, n: nat, o: nat, t: nat)
    requires CountsOk(mem, held, n) && o in mem && t < n
    ensures CountsOk(mem[o := mem[o].(count := mem[o].count + 1)], held[o := held[o] + multiset{t}], n)
  {
  }

  lemma CountDown(mem: map<nat, Foo>, held: map<nat, multiset<nat>>, n: nat, o: nat, t: nat)
    requires CountsOk(mem, held, n) && o in mem && t < n && t in held[o]
    ensures CountsOk(mem[o := mem[o].(count := mem[o].count - 1)], held[o := held[o] - multiset{t}], n)
  {
    assert held[o] == (held[o] - multiset{t}) + multiset{t};
  }

  lemma ListsCount(fh: seq<Option<nat>>, mem: map<nat, Foo>, chain: seq<seq<nat>>, o: nat, n: int)
    requires ListsOk(fh, mem, chain) && o in mem
    ensures ListsOk(fh, mem[o := mem[o].(count := n)], chain)
  {
    forall h | 0 <= h < NHASH
      ensures ChainOk(fh[h], mem[o := mem[o].(count := n)], chain[h])
    {
      assert ChainOk(fh[h], mem, chain[h]);
    }
  }

  /** The table after f_count of o changed to n on both sides. */
  lemma TabCount(tab: Table<nat>, mem: map<nat, Foo>, o: nat, n: int)
    requires TabAgrees(tab, mem) && o in mem
    ensures TabAgrees(tab.(count := tab.count[o := n]), mem[o := mem[o].(count := n)])
  {
  }

  lemma UnlistedCount(s: Sys, s': Sys, t: nat, o: nat)
    requires UnlistedOk(s) && t < |s.threads| && o in s.tab.id
    requires s'.tab.id == s.tab.id && s'.mem.Keys == s.mem.Keys
    requires |s'.threads| == |s.threads| && (forall u :: 0 <= u < |s.threads| && u != t ==> s'.threads[u] == s.threads[u])
    requires s'.threads[t].op == s.threads[t].op && (Private(s.threads[t].pc) ==> Private(s'.threads[t].pc))
    requires forall q :: q != o && q in s.mem ==> (q in s.held <==> q in s'.held) && (q in s.held ==> s'.held[q] == s.held[q])
    ensures UnlistedOk(s')
  {
    hide Private;
  }

  /** The count of o goes from the old value to n, and t's references to it change. */
  predicate Recounted(s: Sys, s': Sys, t: nat, o: nat, n: int)
    requires t < |s.threads|
  {
    && o in s.mem && o in s.held && o in s.tab.id && o in s'.held
    && s'.mem == s.mem[o := s.mem[o].(count := n)] && s'.held == s.held[o := s'.held[o]]
    && s'.tab == s.tab.(count := s.tab.count[o := n])
    && s'.fh == s.fh && s'.hashlock == s.hashlock && s.log <= s'.log
    && |s'.threads| == |s.threads| && s'.threads == s.threads[t := s'.threads[t]]
    && SameLocks(s.threads[t], s'.threads[t]) && HoldsF(s.threads[t]) == Some(o)
    && s'.threads[t].op == s.threads[t].op && !Private(s.threads[t].pc)
  }

  lemma OwnCounted(s: Sys, s': Sys, t: nat, o: nat, n: int)
    requires Shared(s) && t < |s.threads| && Recounted(s, s', t, o, n)
    requires forall u :: u != t && u in s.held[o] ==> u in s'.held[o]
    ensures s.held.Keys == s.mem.Keys && Own(s, s', t)
  {
    hide TableOk, TabAgrees, ListsOk, LogOk, After, HashLockOk, UnlistedOk, HoldsHash, HoldsF, Private;
    assert s.mem[o].lock == Some(t) by { assert HoldsF(s.threads[t]).Some?; }
  }

  lemma SharedCounted(s: Sys, s': Sys, t: nat, o: nat, n: int)
    requires Shared(s) && t < |s.threads| && Recounted(s, s', t, o, n)
    requires CountsOk(s'.mem, s'.held, |s'.threads|) && TableOk(s'.tab) && LogOk(s'.log) && s'.tab == After(OpsOf(s'.log))
    ensures Shared(s')
  {
    hide TableOk, TabAgrees, ListsOk, LogOk, After, FLocksOk, HashLockOk, UnlistedOk, HoldsHash, HoldsF, Private, CountsOk;
    TabCount(s.tab, s.mem, o, n);
    ListsCount(s.fh, s.mem, s.tab.chain, o, n);
    FLocksKept(s, s', t, s'.threads[t]);
    HashLockKept(s, s', t, s'.threads[t]);
    UnlistedCount(s, s', t, o);
  }

  lemma CountPc(th: Thread, pc: Pc)
    requires match th.pc
      case HoldInc => pc == HoldDropF
      case FindInc(_, o) => pc == FindDropF(o)
      case ReleDec => pc == ReleDropF
      case ReleRedec => pc == ReleRedropF
      case _ => false
    ensures !Private(th.pc) && forall m :: SameLocks(th, th.(pc := pc, mine := m))
  {
  }

  lemma TabMeans(s: Sys, o: nat)
    requires TabAgrees(s.tab, s.mem) && o in s.tab.id
    ensures o in s.mem && o in s.tab.count && s.mem[o].id == s.tab.id[o] && s.mem[o].count == s.tab.count[o]
  {
  }

  /** The table counts one reference more, and so does memory. */
  lemma CountUpTab(s: Sys, s': Sys, t: nat, o: nat)
    requires Shared(s) && t < |s.threads| && Local(s, t) && Count(s, s', t, o) && !s.threads[t].op.Rele?
    ensures o in s.tab.id && o in s.tab.count && o in s.mem && s.mem[o].count == s.tab.count[o]
    ensures Apply(s.tab, s.threads[t].op) == s.tab.(count := s.tab.count[o := s.mem[o].count + 1])
    ensures TableOk(Apply(s.tab, s.threads[t].op))
    ensures Answer(s.tab, s.threads[t].op) == if s.threads[t].op.Hold? then None else Some(o)
    ensures Open(s, s.threads[t])
  {
    hide TableOk, TabAgrees, ListsOk, CountsOk, LogOk, After, FLocksOk, HashLockOk, UnlistedOk, Open, Done,
      Apply, Answer, Shared, Effect;
    SharedMeans(s);
    var th := s.threads[t];
    if th.op.Hold? {
      HoldIs(s.tab, o);
      AnswerIs(s.tab, th.op);
    } else {
      FindHitIs(s.tab, th.op.id, th.pc.k);
    }
    TabMeans(s, o);
  }

  lemma KeepCountUp(s: Sys, s': Sys, t: nat, o: nat)
    requires Inv(s) && t < |s.threads| && Count(s, s', t, o) && !s.threads[t].op.Rele?
    ensures Inv(s')
  {
    hide Inv, TableOk, TabAgrees, ListsOk, CountsOk, LogOk, After, FLocksOk, HashLockOk, UnlistedOk, Own, HoldsF, HoldsHash,
      Private, Open, Done, Apply, Answer, Shared;
    Parts(s, t);
    SharedMeans(s);
    var th := s.threads[t];
    CountUpTab(s, s', t, o);
    CountPc(th, s'.threads[t].pc);
    CountUp(s.mem, s.held, |s.threads|, o, t);
    EffectLog(s, t, s'.threads[t].pc);
    DoneSame(Effect(s, t, s'.threads[t].pc), s', t, s'.threads[t]);
    HoldsAt(th);
    assert Recounted(s, s', t, o, s.mem[o].count + 1);
    OwnCounted(s, s', t, o, s.mem[o].count + 1);
    SharedCounted(s, s', t, o, s.mem[o].count + 1);
    Finish(s, s', t);
  }

  lemma HoldsAt(th: Thread)
    ensures match th.pc
      case HoldInc => HoldsF(th) == Some(Target(th.op))
      case FindInc(_, o) => HoldsF(th) == Some(o)
      case ReleDec => HoldsF(th) == Some(Target(th.op))
      case ReleRedec => HoldsF(th) == Some(Target(th.op))
      case _ => true
  {
  }

  lemma AnswerIs(t: Table<nat>, op: Op<nat>)
    requires TableOk(t) && Legal(t, op)
    ensures op.Hold? || op.Rele? ==> Answer(t, op) == None
    ensures op.Alloc? ==> Answer(t, op) == Some(op.o)
  {
  }

  lemma DoneSame(s: Sys, s': Sys, u: nat, th: Thread)
    requires s'.log == s.log
    ensures forall r :: Done(s, u, th, r) <==> Done(s', u, th, r)
  {
  }

  lemma SharedMeans(s: Sys)
    requires Shared(s)
    ensures TableOk(s.tab) && CountsOk(s.mem, s.held, |s.threads|) && TabAgrees(s.tab, s.mem)
    ensures ListsOk(s.fh, s.mem, s.tab.chain) && UnlistedOk(s) && HashLockOk(s) && FLocksOk(s)
    ensures LogOk(s.log) && s.tab == After(OpsOf(s.log))
  {
    hide TableOk, TabAgrees, ListsOk, CountsOk, LogOk, After, FLocksOk, HashLockOk, UnlistedOk;
  }

  lemma KeepCountDown(s: Sys, s': Sys, t: nat, o: nat)
    requires Inv(s) && t < |s.threads| && Count(s, s', t, o) && s.threads[t].op.Rele?
    ensures Inv(s')
  {
    hide Inv, TableOk, TabAgrees, ListsOk, CountsOk, LogOk, After, FLocksOk, HashLockOk, UnlistedOk, Own, HoldsF, HoldsHash,
      Private, Open, Done, Apply, Answer, Shared;
    Parts(s, t);
    SharedMeans(s);
    var th := s.threads[t];
    TabMeans(s, o);
    ReleIs(s.tab, o);
    CountPc(th, s'.threads[t].pc);
    CountDown(s.mem, s.held, |s.threads|, o, t);
    EffectLog(s, t, s'.threads[t].pc);
    DoneSame(Effect(s, t, s'.threads[t].pc), s', t, s'.threads[t]);
    HoldsAt(th);
    assert Recounted(s, s', t, o, s.mem[o].count - 1);
    OwnCounted(s, s', t, o, s.mem[o].count - 1);
    SharedCounted(s, s', t, o, s.mem[o].count - 1);
    assert Local(s', t) by { AnswerIs(s.tab, th.op); }
    Finish(s, s', t);
  }

  // ---- the end of a fruitless search ----------------------------------------

  lemma KeepMiss(s: Sys, s': Sys, t: nat)
    requires Inv(s) && t < |s.threads| && Miss(s, s', t)
    ensures Inv(s')
  {
    hide Inv, TableOk, TabAgrees, ListsOk, CountsOk, LogOk, After, FLocksOk, HashLockOk, UnlistedOk, Own, Open, Done, Apply,
      Answer, Shared;
    Parts(s, t);
    SharedMeans(s);
    var th := s.threads[t];
    FindMissIs(s.tab, th.op.id);
    EffectLog(s, t, s'.threads[t].pc);
    FLocksKept(s, s', t, s'.threads[t]);
    HashLockKept(s, s', t, s'.threads[t]);
    UnlistedKept(s, s', t, s'.threads[t]);
    OwnSame(s, s', t, s'.threads[t]);
    assert Shared(s') by { SharedFrom(s'); }
    Finish(s, s', t);
  }

  lemma SharedFrom(s: Sys)
    requires TableOk(s.tab) && CountsOk(s.mem, s.held, |s.threads|) && TabAgrees(s.tab, s.mem)
    requires ListsOk(s.fh, s.mem, s.tab.chain) && UnlistedOk(s) && HashLockOk(s) && FLocksOk(s)
    requires LogOk(s.log) && s.tab == After(OpsOf(s.log))
    ensures Shared(s)
  {
    hide TableOk, TabAgrees, ListsOk, CountsOk, LogOk, After, FLocksOk, HashLockOk, UnlistedOk;
  }

  // ---- putting an object in its bucket --------------------------------------

  /** A change to an object that is in no bucket leaves the buckets as they are. */
  lemma ListsOther(s: Sys, o: nat, f: Foo)
    requires TableOk(s.tab) && ListsOk(s.fh, s.mem, s.tab.chain) && o !in s.tab.id
    ensures ListsOk(s.fh, s.mem[o := f], s.tab.chain)
  {
    forall h | 0 <= h < NHASH
      ensures ChainOk(s.fh[h], s.mem[o := f], s.tab.chain[h])
    {
      assert ChainOk(s.fh[h], s.mem, s.tab.chain[h]);
      BucketOf(s.tab, h);
    }
  }

  lemma OwnAlone(s: Sys, s': Sys, t: nat, o: nat, th: Thread)
    requires CountsOk(s.mem, s.held, |s.threads|) && t < |s.threads| && s'.threads == s.threads[t := th] && Alone(s, t, o)
    requires s.log <= s'.log
    requires s.hashlock == Some(t) || (s'.fh == s.fh && s'.tab.chain == s.tab.chain && s'.tab.id == s.tab.id)
    requires forall q :: q in s.mem && q != o ==>
      && q in s'.mem && q in s'.held && s'.mem[q] == s.mem[q] && s'.held[q] == s.held[q]
      && (q in s.tab.id <==> q in s'.tab.id) && (q in s.tab.id ==> s'.tab.id[q] == s.tab.id[q])
    requires (o in s'.mem && s'.mem[o].count == s.mem[o].count) || s.mem[o].lock == Some(t) || s.mem[o].lock == None
    ensures Own(s, s', t)
  {
  }

  lemma KeepWriteNext(s: Sys, s': Sys, t: nat)
    requires Inv(s) && t < |s.threads| && WriteNext(s, s', t)
    ensures Inv(s')
  {
    hide Inv, TableOk, TabAgrees, ListsOk, CountsOk, LogOk, After, FLocksOk, HashLockOk, UnlistedOk, Own, Open, Done, Shared;
    Parts(s, t);
    SharedMeans(s);
    var th, o := s.threads[t], s.threads[t].op.o;
    OpenPut(s, s', th, s'.threads[t]);
    ListsOther(s, o, s'.mem[o]);
    FLocksKept(s, s', t, s'.threads[t]);
    HashLockKept(s, s', t, s'.threads[t]);
    UnlistedKept(s, s', t, s'.threads[t]);
    assert CountsOk(s'.mem, s'.held, |s'.threads|) by { CountsOther(s, o, s'.mem[o]); }
    assert TabAgrees(s'.tab, s'.mem) by { TabOther(s, o, s'.mem[o]); }
    SharedFrom(s');
    OwnAlone(s, s', t, o, s'.threads[t]);
    Finish(s, s', t);
  }

  lemma CountsOther(s: Sys, o: nat, f: Foo)
    requires CountsOk(s.mem, s.held, |s.threads|) && o in s.mem && f.count == s.mem[o].count
    ensures CountsOk(s.mem[o := f], s.held, |s.threads|)
  {
  }

  lemma TabOther(s: Sys, o: nat, f: Foo)
    requires TabAgrees(s.tab, s.mem) && o in s.mem && o !in s.tab.id
    ensures TabAgrees(s.tab, s.mem[o := f])
  {
  }

  lemma ListsPush(s: Sys, h: nat, o: nat)
    requires ListsOk(s.fh, s.mem, s.tab.chain) && h < NHASH && o in s.mem && |s.fh| == NHASH && s.mem[o].next == s.fh[h]
    requires |s.tab.chain| == NHASH
    ensures ListsOk(s.fh[h := Some(o)], s.mem, s.tab.chain[h := [o] + s.tab.chain[h]])
  {
    var fh', chain' := s.fh[h := Some(o)], s.tab.chain[h := [o] + s.tab.chain[h]];
    forall g | 0 <= g < NHASH
      ensures ChainOk(fh'[g], s.mem, chain'[g])
    {
      assert ChainOk(s.fh[g], s.mem, s.tab.chain[g]);
    }
  }

  lemma UnlistedPushed(s: Sys, s': Sys, t: nat, o: nat)
    requires UnlistedOk(s) && t < |s.threads| && Alone(s, t, o)
    requires |s'.threads| == |s.threads| && s'.threads == s.threads[t := s'.threads[t]]
    requires s'.held == s.held && s'.tab.id.Keys == s.tab.id.Keys + {o} && s'.mem == s.mem
    requires s.threads[t].pc.AllocHead? && Target(s.threads[t].op) == o
    ensures UnlistedOk(s')
  {
    forall q, u | q in s'.mem && q in s'.held && q !in s'.tab.id && u in s'.held[q] && u < |s'.threads|
      ensures Private(s'.threads[u].pc) && Target(s'.threads[u].op) == q
    {
      assert Private(s.threads[u].pc) && Target(s.threads[u].op) == q;
    }
  }

  lemma KeepWriteHead(s: Sys, s': Sys, t: nat)
    requires Inv(s) && t < |s.threads| && WriteHead(s, s', t)
    ensures Inv(s')
  {
    hide Inv, TableOk, TabAgrees, ListsOk, CountsOk, LogOk, After, FLocksOk, HashLockOk, UnlistedOk, Own, Open, Done, Shared,
      Apply, Answer, ChainOk;
    Parts(s, t);
    SharedMeans(s);
    var th, o := s.threads[t], s.threads[t].op.o;
    AllocIs(s.tab, o, th.op.id);
    ListsLen(s);
    ListsPush(s, Hash(th.op.id), o);
    EffectLog(s, t, s'.threads[t].pc);
    DoneSame(Effect(s, t, s'.threads[t].pc), s', t, s'.threads[t]);
    FLocksKept(s, s', t, s'.threads[t]);
    HashLockKept(s, s', t, s'.threads[t]);
    UnlistedPushed(s, s', t, o);
    assert TabAgrees(s'.tab, s'.mem) by { TabPushed(s, o, th.op.id, s'.tab.chain); }
    SharedFrom(s');
    assert s.hashlock == Some(t) by { HashHeld(s, t); }
    OwnAlone(s, s', t, o, s'.threads[t]);
    Finish(s, s', t);
  }

  lemma ListsLen(s: Sys)
    requires ListsOk(s.fh, s.mem, s.tab.chain)
    ensures |s.fh| == NHASH == |s.tab.chain|
  {
  }

  lemma HashHeld(s: Sys, t: nat)
    requires HashLockOk(s) && t < |s.threads| && HoldsHash(s.threads[t].pc)
    ensures s.hashlock == Some(t)
  {
  }

  lemma TabPushed(s: Sys, o: nat, id: int, chain: seq<seq<nat>>)
    requires TabAgrees(s.tab, s.mem) && CountsOk(s.mem, s.held, |s.threads|) && o in s.mem && |s.held[o]| == 1 && s.mem[o].id == id
    ensures TabAgrees(Table(chain, s.tab.id[o := id], s.tab.count[o := 1]), s.mem)
  {
  }

  // ---- taking an object out of its bucket -----------------------------------

  /** The list with its nth object bypassed. */
  lemma ChainCut(head: Option<nat>, mem: map<nat, Foo>, c: seq<nat>, n: nat)
    requires ChainOk(head, mem, c) && n < |c|
    requires forall j, k :: 0 <= j < k < |c| ==> c[j] != c[k]
    ensures n == 0 ==> ChainOk(mem[c[n]].next, mem, Cut(c, n))
    ensures n > 0 ==> c[n - 1] in mem && ChainOk(head, mem[c[n - 1] := mem[c[n - 1]].(next := mem[c[n]].next)], Cut(c, n))
  {
    var d := Cut(c, n);
    assert forall j :: 0 <= j < |d| ==> d[j] == c[if j < n then j else j + 1];
  }

  lemma UnlistedCut(s: Sys, s': Sys, t: nat, o: nat)
    requires UnlistedOk(s) && t < |s.threads| && o in s.held && s.held[o] == multiset{t}
    requires |s'.threads| == |s.threads| && s'.threads == s.threads[t := s'.threads[t]]
    requires s'.threads[t].pc == ReleLastHash && s'.threads[t].op == s.threads[t].op && Target(s.threads[t].op) == o
    requires !Private(s.threads[t].pc)
    requires s'.held == s.held && s'.tab.id == s.tab.id - {o} && s'.mem.Keys == s.mem.Keys
    ensures UnlistedOk(s')
  {
    forall q, u | q in s'.mem && q in s'.held && q !in s'.tab.id && u in s'.held[q] && u < |s'.threads|
      ensures Private(s'.threads[u].pc) && Target(s'.threads[u].op) == q
    {
      assert q != o ==> Private(s.threads[u].pc) && Target(s.threads[u].op) == q;
    }
  }

  lemma TabCut(s: Sys, o: nat, mem: map<nat, Foo>, chain: seq<seq<nat>>)
    requires TabAgrees(s.tab, s.mem) && mem.Keys == s.mem.Keys
    requires forall q :: q in mem ==> mem[q].id == s.mem[q].id && mem[q].count == s.mem[q].count
    ensures TabAgrees(Table(chain, s.tab.id - {o}, s.tab.count - {o}), mem)
  {
  }

  /** A step that takes o, of which t has the only reference, off its list. */
  ghost predicate Unlinked(s: Sys, s': Sys, t: nat, o: nat)
    requires t < |s.threads|
  {
    && (s.threads[t].pc.ReleUnlink? || s.threads[t].pc.ReleUnlinkWalk?) && Target(s.threads[t].op) == o
    && CanEffect(s, t) && s' == Effect(s, t, ReleLastHash).(mem := s'.mem, fh := s'.fh)
    && o in s.mem && s'.mem.Keys == s.mem.Keys
    && (forall q :: q in s.mem ==>
          s'.mem[q].id == s.mem[q].id && s'.mem[q].count == s.mem[q].count && s'.mem[q].lock == s.mem[q].lock)
    && s'.mem[o] == s.mem[o]
  }

  lemma OwnUnlinked(s: Sys, s': Sys, t: nat, o: nat)
    requires CountsOk(s.mem, s.held, |s.threads|) && t < |s.threads| && Refers(s, t, o) && s.held[o] == multiset{t}
    requires s.hashlock == Some(t) && s.log <= s'.log && s.mem[o].lock == Some(t)
    requires |s'.threads| == |s.threads| && s'.threads == s.threads[t := s'.threads[t]]
    requires s'.held == s.held && s'.mem.Keys == s.mem.Keys && s'.tab.id == s.tab.id - {o}
    requires forall q :: q in s.mem ==> s'.mem[q].id == s.mem[q].id && s'.mem[q].count == s.mem[q].count
    requires forall q :: q in s.mem && q !in s.tab.id ==> s'.mem[q].next == s.mem[q].next
    ensures Own(s, s', t)
  {
  }

  lemma UnlinkedFacts(s: Sys, s': Sys, t: nat, o: nat)
    requires Shared(s) && t < |s.threads| && Local(s, t) && Unlinked(s, s', t, o)
    ensures TableOk(s.tab) && Refers(s, t, o) && s.held[o] == multiset{t} && Open(s, s.threads[t]) && s.threads[t].op.Rele?
    ensures s'.tab.id == s.tab.id - {o} && s'.tab.count == s.tab.count - {o} && TableOk(s'.tab) && s.hashlock == Some(t)
    ensures s'.threads == s.threads[t := s.threads[t].(pc := ReleLastHash, mine := Some(|s.log|))]
    ensures s'.held == s.held && s'.hashlock == s.hashlock
  {
    hide TableOk, TabAgrees, ListsOk, CountsOk, LogOk, After, FLocksOk, HashLockOk, UnlistedOk, Open, Done, Shared,
      Apply, Answer, Seeking, Cut, IndexOf;
    SharedMeans(s);
    ReleIs(s.tab, o);
    TabMeans(s, o);
    OnlyReference(s, t, o);
    HashHeld(s, t);
  }

  lemma SharedUnlinked(s: Sys, s': Sys, t: nat, o: nat)
    requires Shared(s) && t < |s.threads| && Local(s, t) && Unlinked(s, s', t, o) && ListsOk(s'.fh, s'.mem, s'.tab.chain)
    ensures Shared(s') && Done(s', t, s'.threads[t], None) && s.log <= s'.log
  {
    hide TableOk, TabAgrees, ListsOk, CountsOk, LogOk, After, FLocksOk, HashLockOk, UnlistedOk, Open, Done, Shared,
      Apply, Answer, Local;
    SharedMeans(s);
    UnlinkedFacts(s, s', t, o);
    EffectLog(s, t, ReleLastHash);
    AnswerIs(s.tab, s.threads[t].op);
    DoneSame(Effect(s, t, ReleLastHash), s', t, s'.threads[t]);
    FLocksKept(s, s', t, s'.threads[t]);
    HashLockKept(s, s', t, s'.threads[t]);
    UnlistedCut(s, s', t, o);
    TabCut(s, o, s'.mem, s'.tab.chain);
    CountsSame(s, s');
    SharedFrom(s');
  }

  lemma KeepUnlinked(s: Sys, s': Sys, t: nat, o: nat)
    requires Inv(s) && t < |s.threads| && Unlinked(s, s', t, o)
    requires s.held.Keys == s.mem.Keys && ListsOk(s'.fh, s'.mem, s'.tab.chain)
    requires forall q :: q in s.mem && q !in s.tab.id ==> s'.mem[q].next == s.mem[q].next
    ensures Inv(s')
  {
    hide Inv, TableOk, ListsOk, CountsOk, Own, Open, Done, Shared, Apply, Answer;
    assert Shared(s) && Local(s, t) by { Parts(s, t); }
    UnlinkedFacts(s, s', t, o);
    SharedUnlinked(s, s', t, o);
    assert CountsOk(s.mem, s.held, |s.threads|) && s.mem[o].lock == Some(t) by { SharedMeans(s); UnlinkLocked(s, t, o); }
    OwnUnlinked(s, s', t, o);
    Finish(s, s', t);
  }

  lemma UnlinkLocked(s: Sys, t: nat, o: nat)
    requires FLocksOk(s) && t < |s.threads| && Target(s.threads[t].op) == o
    requires s.threads[t].pc.ReleUnlink? || s.threads[t].pc.ReleUnlinkWalk?
    ensures o in s.mem && s.mem[o].lock == Some(t)
  {
    assert HoldsF(s.threads[t]).Some?;
  }

  lemma CountsSame(s: Sys, s': Sys)
    requires CountsOk(s.mem, s.held, |s.threads|) && s'.held == s.held && s'.mem.Keys == s.mem.Keys
    requires |s'.threads| == |s.threads| && forall q :: q in s.mem ==> s'.mem[q].count == s.mem[q].count
    ensures CountsOk(s'.mem, s'.held, |s'.threads|)
  {
  }

  lemma OnlyReference(s: Sys, t: nat, o: nat)
    requires CountsOk(s.mem, s.held, |s.threads|) && Refers(s, t, o) && s.mem[o].count == 1
    ensures s.held[o] == multiset{t}
  {
    OnlyOne(s.held[o], t);
  }

  lemma BucketDistinct(t: Table<nat>, h: nat)
    requires TableOk(t) && h < NHASH
    ensures |t.chain| == NHASH
    ensures forall j, k :: 0 <= j < k < |t.chain[h]| ==> t.chain[h][j] != t.chain[h][k]
    ensures forall j :: 0 <= j < |t.chain[h]| ==> t.chain[h][j] in t.id
  {
    BucketOf(t, h);
  }

  lemma NotInOther(t: Table<nat>, h: nat, g: nat, q: nat)
    requires TableOk(t) && h < NHASH && g < NHASH && h != g && |t.chain| == NHASH && q in t.chain[h]
    ensures forall k :: 0 <= k < |t.chain[g]| ==> t.chain[g][k] != q
  {
    BucketOf(t, g);
    BucketOf(t, h);
  }

  /** The lists after the write that bypasses the first object of bucket h. */
  lemma ListsCutFirst(s: Sys, h: nat)
    requires TableOk(s.tab) && ListsOk(s.fh, s.mem, s.tab.chain) && h < NHASH && |s.tab.chain| == NHASH == |s.fh|
    requires 0 < |s.tab.chain[h]| && s.tab.chain[h][0] in s.mem
    ensures ListsOk(s.fh[h := s.mem[s.tab.chain[h][0]].next], s.mem, s.tab.chain[h := Cut(s.tab.chain[h], 0)])
  {
    BucketDistinct(s.tab, h);
    hide TableOk, Cut, ChainOk;
    assert ChainOk(s.fh[h], s.mem, s.tab.chain[h]);
    ChainCut(s.fh[h], s.mem, s.tab.chain[h], 0);
  }

  /** The lists after the write that bypasses a later object of bucket h. */
  lemma ListsCutLater(s: Sys, h: nat, n: nat, q: nat, mem': map<nat, Foo>)
    requires TableOk(s.tab) && ListsOk(s.fh, s.mem, s.tab.chain) && h < NHASH && |s.tab.chain| == NHASH == |s.fh|
    requires 0 < n < |s.tab.chain[h]| && s.tab.chain[h][n] in s.mem && q == s.tab.chain[h][n - 1] && q in s.mem
    requires mem' == s.mem[q := s.mem[q].(next := s.mem[s.tab.chain[h][n]].next)]
    ensures q in s.tab.id && ListsOk(s.fh, mem', s.tab.chain[h := Cut(s.tab.chain[h], n)])
  {
    BucketDistinct(s.tab, h);
    var chain' := s.tab.chain[h := Cut(s.tab.chain[h], n)];
    hide TableOk, Cut, ChainOk;
    assert ChainOk(s.fh[h], s.mem, s.tab.chain[h]);
    ChainCut(s.fh[h], s.mem, s.tab.chain[h], n);
    forall g | 0 <= g < NHASH
      ensures ChainOk(s.fh[g], mem', chain'[g])
    {
      if g != h {
        assert ChainOk(s.fh[g], s.mem, s.tab.chain[g]);
        NotInOther(s.tab, h, g, q);
        ChainElse(s.fh[g], s.mem, s.tab.chain[g], q, mem'[q]);
      }
    }
  }

  lemma ChainElse(head: Option<nat>, mem: map<nat, Foo>, c: seq<nat>, q: nat, f: Foo)
    requires ChainOk(head, mem, c) && forall k :: 0 <= k < |c| ==> c[k] != q
    ensures ChainOk(head, mem[q := f], c)
  {
  }

  lemma IndexIs(c: seq<nat>, o: nat, n: nat)
    requires n < |c| && c[n] == o && forall j, k :: 0 <= j < k < |c| ==> c[j] != c[k]
    ensures o in c && IndexOf(c, o) == n
  {
    var i := IndexOf(c, o);
  }

  lemma KeepUnlinkFirst(s: Sys, s': Sys, t: nat)
    requires Inv(s) && t < |s.threads| && UnlinkFirst(s, s', t)
    ensures Inv(s')
  {
    hide Inv, TableOk, TabAgrees, ListsOk, CountsOk, LogOk, After, FLocksOk, HashLockOk, UnlistedOk, Open, Done, Shared,
      Apply, Answer, ChainOk, Cut, IndexOf, AtOpt;
    Parts(s, t);
    SharedMeans(s);
    var o := Target(s.threads[t].op);
    TabMeans(s, o);
    ReleIs(s.tab, o);
    InBucketAt(s, o);
    var h := Hash(s.tab.id[o]);
    AtSome(s.tab.chain[h], 0);
    BucketDistinct(s.tab, h);
    IndexIs(s.tab.chain[h], o, 0);
    ListsCutFirst(s, h);
    KeepUnlinked(s, s', t, o);
  }

  lemma KeepUnlinkAfter(s: Sys, s': Sys, t: nat)
    requires Inv(s) && t < |s.threads| && UnlinkAfter(s, s', t)
    ensures Inv(s')
  {
    hide Inv, TableOk, TabAgrees, ListsOk, CountsOk, LogOk, After, FLocksOk, HashLockOk, UnlistedOk, Open, Done, Shared,
      Apply, Answer, ChainOk, Cut, IndexOf, AtOpt;
    Parts(s, t);
    SharedMeans(s);
    var o, pc := Target(s.threads[t].op), s.threads[t].pc;
    TabMeans(s, o);
    ReleIs(s.tab, o);
    InBucketAt(s, o);
    var h := Hash(s.tab.id[o]);
    ChainAt(s, h, pc.k);
    AtSome(s.tab.chain[h], pc.k + 1);
    BucketDistinct(s.tab, h);
    IndexIs(s.tab.chain[h], o, pc.k + 1);
    ListsCutLater(s, h, pc.k + 1, pc.tfp, s'.mem);
    KeepUnlinked(s, s', t, o);
  }

  // ---- freeing, calling, returning ------------------------------------------

  lemma FLocksFreed(s: Sys, s': Sys, t: nat, o: nat, pc: Pc)
    requires FLocksOk(s) && t < |s.threads| && s'.threads == s.threads[t := s.threads[t].(pc := pc)]
    requires o in s.mem && s.mem[o].lock == None && s'.mem == s.mem - {o}
    requires HoldsF(s.threads[t]) == None == HoldsF(s.threads[t].(pc := pc))
    ensures FLocksOk(s')
  {
    hide HoldsF;
    forall u | 0 <= u < |s'.threads| && HoldsF(s'.threads[u]).Some?
      ensures HoldsF(s'.threads[u]).value in s'.mem && s'.mem[HoldsF(s'.threads[u]).value].lock == Some(u)
    {
      assert HoldsF(s.threads[u]).Some?;
    }
  }

  lemma ListsFreed(s: Sys, o: nat)
    requires TableOk(s.tab) && ListsOk(s.fh, s.mem, s.tab.chain) && o !in s.tab.id
    ensures ListsOk(s.fh, s.mem - {o}, s.tab.chain)
  {
    forall h | 0 <= h < NHASH
      ensures ChainOk(s.fh[h], s.mem - {o}, s.tab.chain[h])
    {
      assert ChainOk(s.fh[h], s.mem, s.tab.chain[h]);
      BucketOf(s.tab, h);
    }
  }

  lemma RestFreed(s: Sys, s': Sys, t: nat, o: nat)
    requires CountsOk(s.mem, s.held, |s.threads|) && TabAgrees(s.tab, s.mem) && UnlistedOk(s)
    requires t < |s.threads| && Alone(s, t, o) && s'.threads == s.threads[t := s.threads[t].(pc := Return(None))]
    requires s'.mem == s.mem - {o} && s'.held == s.held - {o} && s'.tab == s.tab
    requires s.threads[t].pc.ReleFree? && Target(s.threads[t].op) == o
    ensures CountsOk(s'.mem, s'.held, |s'.threads|) && TabAgrees(s'.tab, s'.mem) && UnlistedOk(s')
  {
    forall q, u | q in s'.mem && q in s'.held && q !in s'.tab.id && u in s'.held[q] && u < |s'.threads|
      ensures Private(s'.threads[u].pc) && Target(s'.threads[u].op) == q
    {
      assert Private(s.threads[u].pc) && Target(s.threads[u].op) == q;
    }
  }

  lemma KeepFree(s: Sys, s': Sys, t: nat)
    requires Inv(s) && t < |s.threads| && Free(s, s', t)
    ensures Inv(s')
  {
    hide Inv, TableOk, TabAgrees, ListsOk, CountsOk, LogOk, After, FLocksOk, HashLockOk, UnlistedOk, Own, Done, Shared;
    Parts(s, t);
    SharedMeans(s);
    var o := Target(s.threads[t].op);
    FLocksFreed(s, s', t, o, Return(None));
    ListsFreed(s, o);
    RestFreed(s, s', t, o);
    HashLockKept(s, s', t, s'.threads[t]);
    SharedFrom(s');
    assert s'.held.Keys == s.held.Keys - {o};
    OwnAlone(s, s', t, o, s'.threads[t]);
    OpenPut(s, s', s.threads[t], s'.threads[t]);
    Finish(s, s', t);
  }

  lemma IdleLocks(th: Thread)
    requires th.pc == Idle
    ensures HoldsF(th) == None && !HoldsHash(th.pc) && !Private(th.pc)
  {
  }

  lemma CallLocks(s: Sys, op: Op<nat>, pc: Pc)
    requires pc.AllocWantHash? || pc.FindWantHash? || pc.HoldWantF? || pc.ReleWantF? || pc.Idle?
    ensures HoldsF(NewCall(s, op, pc)) == None && !HoldsHash(pc)
  {
  }

  /** Idle threads refer only to objects in buckets. */
  lemma IdleRefers(s: Sys, t: nat, o: nat)
    requires Shared(s) && t < |s.threads| && s.threads[t].pc == Idle && o in s.held && t in s.held[o]
    ensures Refers(s, t, o)
  {
    hide TableOk, TabAgrees, ListsOk, LogOk, After, FLocksOk, HashLockOk;
    IdleLocks(s.threads[t]);
  }

  lemma UnlistedCalled(s: Sys, s': Sys, t: nat, th: Thread)
    requires UnlistedOk(s) && t < |s.threads| && s'.threads == s.threads[t := th] && !Private(s.threads[t].pc)
    requires s'.held == s.held && s'.tab.id == s.tab.id && s'.mem == s.mem
    ensures UnlistedOk(s')
  {
    hide Private;
  }

  /** Calls that leave memory alone, and returns. */
  lemma KeepCall(s: Sys, s': Sys, t: nat)
    requires Inv(s) && t < |s.threads|
    requires StepReturn(s, s', t) || (exists id :: CallFind(s, s', t, id)) || (exists o, hold :: CallOn(s, s', t, o, hold))
    ensures Inv(s')
  {
    hide Inv, TableOk, TabAgrees, ListsOk, CountsOk, LogOk, After, FLocksOk, HashLockOk, UnlistedOk, Own, Done, Shared,
      HoldsF, HoldsHash, Private;
    Parts(s, t);
    SharedMeans(s);
    var th := s'.threads[t];
    ReturnLocks(s.threads[t]);
    CallLocks(s, th.op, th.pc);
    FLocksSame(s, s', t, th);
    HashLockKept(s, s', t, th);
    UnlistedCalled(s, s', t, th);
    OwnSame(s, s', t, th);
    SharedFrom(s');
    assert Local(s', t) by { LocalCall(s, s', t); }
    Finish(s, s', t);
  }

  lemma ReturnLocks(th: Thread)
    requires th.pc.Return? || th.pc.Idle?
    ensures HoldsF(th) == None && HoldsF(th.(pc := Idle)) == None && !HoldsHash(th.pc) && !HoldsHash(Idle) && !Private(th.pc)
  {
  }

  lemma FLocksSame(s: Sys, s': Sys, t: nat, th: Thread)
    requires FLocksOk(s) && t < |s.threads| && s'.threads == s.threads[t := th] && HoldsF(th) == None == HoldsF(s.threads[t])
    requires s'.mem == s.mem
    ensures FLocksOk(s')
  {
    hide HoldsF;
    FLocksKept(s, s', t, th);
  }

  lemma LocalCall(s: Sys, s': Sys, t: nat)
    requires Shared(s) && t < |s.threads|
    requires StepReturn(s, s', t) || (exists id :: CallFind(s, s', t, id)) || (exists o, hold :: CallOn(s, s', t, o, hold))
    ensures Local(s', t)
  {
    hide Shared;
    if o, hold :| CallOn(s, s', t, o, hold) {
      IdleRefers(s, t, o);
    }
  }

  lemma AllocFresh(s: Sys, s': Sys, t: nat, o: nat, id: int)
    requires Shared(s) && t < |s.threads| && CallAlloc(s, s', t, o, id)
    ensures CountsOk(s'.mem, s'.held, |s'.threads|) && TabAgrees(s'.tab, s'.mem) && UnlistedOk(s') && o !in s.tab.id
  {
    hide TableOk, ListsOk, LogOk, After, FLocksOk, HashLockOk, UnlistedOk;
    UnlistedAlloc(s, s', t, o, id);
  }

  lemma UnlistedAlloc(s: Sys, s': Sys, t: nat, o: nat, id: int)
    requires UnlistedOk(s) && CountsOk(s.mem, s.held, |s.threads|) && t < |s.threads| && CallAlloc(s, s', t, o, id)
    ensures UnlistedOk(s')
  {
    IdleLocks(s.threads[t]);
    forall q, u | q in s'.mem && q in s'.held && q !in s'.tab.id && u in s'.held[q] && u < |s'.threads|
      ensures Private(s'.threads[u].pc) && Target(s'.threads[u].op) == q
    {
      assert q != o ==> Private(s.threads[u].pc) && Target(s.threads[u].op) == q;
    }
  }

  lemma FLocksAlloc(s: Sys, s': Sys, t: nat, th: Thread, o: nat)
    requires FLocksOk(s) && t < |s.threads| && s'.threads == s.threads[t := th] && HoldsF(th) == None == HoldsF(s.threads[t])
    requires o !in s.mem && o in s'.mem && s'.mem == s.mem[o := s'.mem[o]] && s'.mem[o].lock == None
    ensures FLocksOk(s')
  {
    hide HoldsF;
    FLocksKept(s, s', t, th);
  }

  lemma OwnAlloc(s: Sys, s': Sys, t: nat, o: nat, id: int)
    requires CountsOk(s.mem, s.held, |s.threads|) && t < |s.threads| && CallAlloc(s, s', t, o, id)
    ensures Own(s, s', t)
  {
  }

  lemma KeepAlloc(s: Sys, s': Sys, t: nat, o: nat, id: int)
    requires Inv(s) && t < |s.threads| && CallAlloc(s, s', t, o, id)
    ensures Inv(s')
  {
    hide Inv, TableOk, TabAgrees, ListsOk, CountsOk, LogOk, After, FLocksOk, HashLockOk, UnlistedOk, Own, Done, Shared,
      HoldsF, HoldsHash, Private;
    Parts(s, t);
    SharedMeans(s);
    var th := s'.threads[t];
    IdleLocks(s.threads[t]);
    CallLocks(s, th.op, th.pc);
    AllocFresh(s, s', t, o, id);
    FLocksAlloc(s, s', t, th, o);
    HashLockKept(s, s', t, th);
    ListsOther(s, o, s'.mem[o]);
    OwnAlloc(s, s', t, o, id);
    SharedFrom(s');
    Finish(s, s', t);
  }

  lemma Handed(m: multiset<nat>, t: nat, u: nat)
    requires t in m
    ensures var m' := m - multiset{t} + multiset{u};
      && |m'| == |m| && (forall v :: v in m' ==> v in m || v == u) && (forall v :: v != t && v in m ==> v in m')
  {
    assert m == (m - multiset{t}) + multiset{t};
  }

  lemma HandCounts(mem: map<nat, Foo>, held: map<nat, multiset<nat>>, n: nat, o: nat, m: multiset<nat>)
    requires CountsOk(mem, held, n) && o in mem && |m| == |held[o]| && forall v :: v in m ==> v < n
    ensures CountsOk(mem, held[o := m], n)
  {
  }

  lemma HandOwn(s: Sys, s': Sys, t: nat, o: nat, m: multiset<nat>)
    requires s.held.Keys == s.mem.Keys && o in s.mem && o in s.tab.id && s' == s.(held := s.held[o := m])
    requires forall v :: v != t && v in s.held[o] ==> v in m
    ensures Own(s, s', t)
  {
  }

  lemma HeldBound(s: Sys, o: nat)
    requires CountsOk(s.mem, s.held, |s.threads|) && o in s.mem
    ensures forall v :: v in s.held[o] ==> v < |s.threads|
  {
  }

  lemma HandUnlisted(s: Sys, s': Sys, t: nat, u: nat, o: nat)
    requires UnlistedOk(s) && t < |s.threads| && HandOver(s, s', t, u, o) && o in s.tab.id
    ensures UnlistedOk(s')
  {
    hide Private;
  }

  lemma KeepHandOver(s: Sys, s': Sys, t: nat, u: nat, o: nat)
    requires Inv(s) && t < |s.threads| && HandOver(s, s', t, u, o)
    ensures Inv(s')
  {
    hide Inv, TableOk, TabAgrees, ListsOk, CountsOk, LogOk, After, FLocksOk, HashLockOk, UnlistedOk, Own, Done, Shared,
      HoldsF, HoldsHash, Private;
    Parts(s, t);
    SharedMeans(s);
    IdleRefers(s, t, o);
    var m := s.held[o] - multiset{t} + multiset{u};
    Handed(s.held[o], t, u);
    HandCounts(s.mem, s.held, |s.threads|, o, m) by { HeldBound(s, o); }
    HandOwn(s, s', t, o, m);
    HandUnlisted(s, s', t, u, o);
    assert s'.threads == s.threads[t := s.threads[t]];
    FLocksKept(s, s', t, s.threads[t]);
    HashLockKept(s, s', t, s.threads[t]);
    SharedFrom(s');
    Finish(s, s', t);
  }

  // ---- runs -----------------------------------------------------------------

  ghost predicate Init(s: Sys) {
    && s.mem == map[] && s.held == map[] && s.hashlock == None && s.log == [] && s.tab == EmptyTable()
    && |s.fh| == NHASH && (forall h :: 0 <= h < NHASH ==> s.fh[h] == None)
    && (forall t :: 0 <= t < |s.threads| ==> s.threads[t].pc == Idle)
  }

  /** Thread t goes on with the call it is making. */
  ghost predicate Proceed(s: Sys, s': Sys, t: nat)
    requires t < |s.threads|
  {
    || LockHash(s, s', t) || UnlockHash(s, s', t) || (exists o :: LockF(s, s', t, o)) || (exists o :: UnlockF(s, s', t, o))
    || Look(s, s', t) || (exists o :: Count(s, s', t, o)) || Miss(s, s', t) || WriteNext(s, s', t) || WriteHead(s, s', t)
    || UnlinkFirst(s, s', t) || UnlinkAfter(s, s', t) || Free(s, s', t) || StepReturn(s, s', t)
  }

  ghost predicate Starts(s: Sys, s': Sys, t: nat)
    requires t < |s.threads|
  {
    || (exists o, id :: CallAlloc(s, s', t, o, id)) || (exists id :: CallFind(s, s', t, id))
    || (exists o, hold :: CallOn(s, s', t, o, hold)) || (exists u, o :: HandOver(s, s', t, u, o))
  }

  ghost predicate Moves(s: Sys, s': Sys, t: nat) { t < |s.threads| && (Proceed(s, s', t) || Starts(s, s', t)) }

  ghost predicate Next(s: Sys, s': Sys) { exists t :: Moves(s, s', t) }

  ghost predicate Run(r: seq<Sys>) {
    |r| > 0 && Init(r[0]) && forall i :: 0 <= i < |r| - 1 ==> Next(r[i], r[i + 1])
  }

  lemma LookOps(s: Sys, s': Sys, t: nat)
    requires t < |s.threads| && Look(s, s', t) && Local(s, t)
    ensures s.threads[t].op.Find? || s.threads[t].op.Rele?
  {
    hide Open, Done, Refers, PassedBy, Seeking;
  }

  lemma ProceedInv(s: Sys, s': Sys, t: nat)
    requires Inv(s) && t < |s.threads| && Proceed(s, s', t)
    ensures Inv(s')
  {
    hide Inv, LockHash, UnlockHash, LockF, UnlockF, Look, Count, Miss, WriteNext, WriteHead, UnlinkFirst, UnlinkAfter,
      Free, StepReturn;
    if LockHash(s, s', t) || UnlockHash(s, s', t) { KeepHashLock(s, s', t); }
    else if o :| LockF(s, s', t, o) { KeepFLock(s, s', t, o); }
    else if o :| UnlockF(s, s', t, o) { KeepFLock(s, s', t, o); }
    else if Look(s, s', t) {
      Parts(s, t);
      LookOps(s, s', t);
      if s.threads[t].op.Find? { KeepLookFind(s, s', t); } else { KeepLookRele(s, s', t); }
    }
    else if o :| Count(s, s', t, o) {
      if s.threads[t].op.Rele? { KeepCountDown(s, s', t, o); } else { KeepCountUp(s, s', t, o); }
    }
    else if Miss(s, s', t) { KeepMiss(s, s', t); }
    else if WriteNext(s, s', t) { KeepWriteNext(s, s', t); }
    else if WriteHead(s, s', t) { KeepWriteHead(s, s', t); }
    else if UnlinkFirst(s, s', t) { KeepUnlinkFirst(s, s', t); }
    else if UnlinkAfter(s, s', t) { KeepUnlinkAfter(s, s', t); }
    else if Free(s, s', t) { KeepFree(s, s', t); }
    else { KeepCall(s, s', t); }
  }

  lemma MovesInv(s: Sys, s': Sys, t: nat)
    requires Inv(s) && Moves(s, s', t)
    ensures Inv(s')
  {
    hide Inv, Proceed, CallAlloc, CallFind, CallOn, HandOver;
    if Proceed(s, s', t) { ProceedInv(s, s', t); }
    else if o, id :| CallAlloc(s, s', t, o, id) { KeepAlloc(s, s', t, o, id); }
    else if u, o :| HandOver(s, s', t, u, o) { KeepHandOver(s, s', t, u, o); }
    else { KeepCall(s, s', t); }
  }

  lemma InitInv(s: Sys)
    requires Init(s)
    ensures Inv(s)
  {
    assert After<nat>([]) == EmptyTable();
  }

  lemma {:induction false} RunInv(r: seq<Sys>, i: nat)
    requires Run(r) && i < |r|
    ensures Inv(r[i])
  {
    hide Inv, Moves, Init;
    if i == 0 {
      InitInv(r[0]);
    } else {
      RunInv(r, i - 1);
      assert Next(r[i - 1], r[i - 1 + 1]);
      var t :| Moves(r[i - 1], r[i - 1 + 1], t);
      MovesInv(r[i - 1], r[i], t);
    }
  }
}
