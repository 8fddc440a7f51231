/** The table with a hash lock and a lock in each object (apue.3e/threads/mutex2.c). Any number of
    threads run its functions; a step is one lock or unlock or one access to shared memory. */
module FooTwoLocks {
  import opened Options
  import opened FooSpec

  /** An object in memory; lock is the thread that holds f_lock. */
  datatype Foo = Foo(count: int, id: int, next: Option<nat>, lock: Option<nat>)

  /** What the thread does next. */
  datatype Pc =
    | Idle
    | AllocWantHash | AllocLink | AllocHead | AllocWantF | AllocDropHash | AllocDropF
    | HoldWantF | HoldInc | HoldDropF
    | FindWantHash | FindHead
    | FindWalk(k: nat, fp: Option<nat>)
    | FindWantF(k: nat, o: nat)
    | FindInc(k: nat, o: nat)
    | FindDropF(o: nat)
    | FindDropHash(r: Option<nat>)
    | ReleWantF | ReleCheck | ReleDec | ReleDropF
    | ReleRetryDropF | ReleRetryHash | ReleRetryF | ReleRecheck
    | ReleRedec | ReleRedropF | ReleDropHash
    | ReleUnlink
    | ReleUnlinkWalk(k: nat, tfp: nat)
    | ReleLastHash | ReleLastF | ReleFree
    | Return(r: Option<nat>)

  /** mine is the place in the log of the call under way; start the length of the log when it began. */
  datatype Thread = Thread(pc: Pc, op: Op<nat>, start: nat, mine: Option<nat>)

  datatype Entry = Entry(t: nat, op: Op<nat>, r: Option<nat>)

  /** mem, fh, hashlock and threads are the program's. held says which threads have references to
      an object (a release counts until it is done); tab and log are the table as the one-lock
      version would have it, and the operations on it so far. */
  datatype Sys = Sys(mem: map<nat, Foo>, fh: seq<Option<nat>>, hashlock: Option<nat>, threads: seq<Thread>,
                     held: map<nat, multiset<nat>>, tab: Table<nat>, log: seq<Entry>)

  function Target(op: Op<nat>): nat {
    match op
    case Alloc(o, _) => o
    case Hold(o) => o
    case Rele(o) => o
    case Find(_) => 0
  }

  /** The object whose f_lock the thread holds. */
  function HoldsF(th: Thread): Option<nat> {
    match th.pc
    case AllocDropHash => Some(Target(th.op))
    case AllocDropF => Some(Target(th.op))
    case HoldInc => Some(Target(th.op))
    case HoldDropF => Some(Target(th.op))
    case FindInc(_, o) => Some(o)
    case FindDropF(o) => Some(o)
    case ReleCheck => Some(Target(th.op))
    case ReleDec => Some(Target(th.op))
    case ReleDropF => Some(Target(th.op))
    case ReleRetryDropF => Some(Target(th.op))
    case ReleRecheck => Some(Target(th.op))
    case ReleRedec => Some(Target(th.op))
    case ReleRedropF => Some(Target(th.op))
    case ReleUnlink => Some(Target(th.op))
    case ReleUnlinkWalk(_, _) => Some(Target(th.op))
    case ReleLastHash => Some(Target(th.op))
    case ReleLastF => Some(Target(th.op))
    case _ => None
  }

  predicate HoldsHash(pc: Pc) {
    || pc.AllocLink? || pc.AllocHead? || pc.AllocWantF? || pc.AllocDropHash?
    || pc.FindHead? || pc.FindWalk? || pc.FindWantF? || pc.FindInc? || pc.FindDropF? || pc.FindDropHash?
    || pc.ReleRetryF? || pc.ReleRecheck? || pc.ReleRedec? || pc.ReleRedropF? || pc.ReleDropHash?
    || pc.ReleUnlink? || pc.ReleUnlinkWalk? || pc.ReleLastHash?
  }

  /** An object not yet in its bucket, or already out of it: the only reference is the thread's. */
  predicate Private(pc: Pc) {
    || pc.AllocWantHash? || pc.AllocLink? || pc.AllocHead? || pc.ReleLastHash? || pc.ReleLastF? || pc.ReleFree?
  }

  function Put(s: Sys, t: nat, pc: Pc): Sys
    requires t < |s.threads|
  {
    s.(threads := s.threads[t := s.threads[t].(pc := pc)])
  }

  /** The call takes effect on the one-lock table. */
  ghost function Effect(s: Sys, t: nat, pc: Pc): Sys
    requires t < |s.threads| && TableOk(s.tab) && Legal(s.tab, s.threads[t].op)
  {
    var op := s.threads[t].op;
    s.(threads := s.threads[t := s.threads[t].(pc := pc, mine := Some(|s.log|))],
       tab := Apply(s.tab, op), log := s.log + [Entry(t, op, Answer(s.tab, op))])
  }

  ghost predicate CanEffect(s: Sys, t: nat)
    requires t < |s.threads|
  {
    TableOk(s.tab) && Legal(s.tab, s.threads[t].op)
  }

  function NewCall(s: Sys, op: Op<nat>, pc: Pc): Thread { Thread(pc, op, |s.log|, None) }

  // ---- the steps ------------------------------------------------------------

  /** foo_alloc: malloc and the initialisation of the object. */
  ghost predicate CallAlloc(s: Sys, s': Sys, t: nat, o: nat, id: int)
    requires t < |s.threads|
  {
    && s.threads[t].pc == Idle && IsId(id) && o !in s.mem
    && s' == s.(mem := s.mem[o := Foo(1, id, None, None)], held := s.held[o := multiset{t}],
                threads := s.threads[t := NewCall(s, Alloc(o, id), AllocWantHash)])
  }

  ghost predicate CallFind(s: Sys, s': Sys, t: nat, id: int)
    requires t < |s.threads|
  {
    && s.threads[t].pc == Idle && IsId(id)
    && s' == s.(threads := s.threads[t := NewCall(s, Find(id), FindWantHash)])
  }

  /** foo_hold and foo_rele are called on an object the caller has a reference to. */
  ghost predicate CallOn(s: Sys, s': Sys, t: nat, o: nat, hold: bool)
    requires t < |s.threads|
  {
    && s.threads[t].pc == Idle && o in s.held && t in s.held[o]
    && s' == s.(threads := s.threads[t := if hold then NewCall(s, Hold(o), HoldWantF) else NewCall(s, Rele(o), ReleWantF)])
  }

  /** A thread hands one of its references to another. */
  ghost predicate HandOver(s: Sys, s': Sys, t: nat, u: nat, o: nat)
    requires t < |s.threads|
  {
    && s.threads[t].pc == Idle && u < |s.threads| && o in s.held && t in s.held[o]
    && s' == s.(held := s.held[o := s.held[o] - multiset{t} + multiset{u}])
  }

  ghost predicate StepReturn(s: Sys, s': Sys, t: nat)
    requires t < |s.threads|
  {
    s.threads[t].pc.Return? && s' == Put(s, t, Idle)
  }

  predicate WantsHash(pc: Pc) { pc.AllocWantHash? || pc.FindWantHash? || pc.ReleRetryHash? }

  function GotHash(pc: Pc): Pc {
    if pc.AllocWantHash? then AllocLink else if pc.FindWantHash? then FindHead else ReleRetryF
  }

  /** pthread_mutex_lock(&hashlock) */
  ghost predicate LockHash(s: Sys, s': Sys, t: nat)
    requires t < |s.threads|
  {
    && WantsHash(s.threads[t].pc) && s.hashlock == None
    && s' == Put(s, t, GotHash(s.threads[t].pc)).(hashlock := Some(t))
  }

  predicate GivesHash(pc: Pc) { pc.AllocDropHash? || pc.FindDropHash? || pc.ReleDropHash? || pc.ReleLastHash? }

  function GaveHash(pc: Pc): Pc {
    if pc.AllocDropHash? then AllocDropF
    else if pc.FindDropHash? then Return(pc.r)
    else if pc.ReleDropHash? then Return(None)
    else ReleLastF
  }

  ghost predicate UnlockHash(s: Sys, s': Sys, t: nat)
    requires t < |s.threads|
  {
    && GivesHash(s.threads[t].pc)
    && s' == Put(s, t, GaveHash(s.threads[t].pc)).(hashlock := None)
  }

  function WithLock(s: Sys, o: nat, lock: Option<nat>): map<nat, Foo>
    requires o in s.mem
  {
    s.mem[o := s.mem[o].(lock := lock)]
  }

  function WantsF(th: Thread): Option<nat> {
    match th.pc
    case AllocWantF => Some(Target(th.op))
    case HoldWantF => Some(Target(th.op))
    case FindWantF(_, o) => Some(o)
    case ReleWantF => Some(Target(th.op))
    case ReleRetryF => Some(Target(th.op))
    case _ => None
  }

  function GotF(pc: Pc): Pc {
    match pc
    case AllocWantF => AllocDropHash
    case HoldWantF => HoldInc
    case FindWantF(k, o) => FindInc(k, o)
    case ReleWantF => ReleCheck
    case _ => ReleRecheck
  }

  /** pthread_mutex_lock(&fp->f_lock) */
  ghost predicate LockF(s: Sys, s': Sys, t: nat, o: nat)
    requires t < |s.threads|
  {
    && WantsF(s.threads[t]) == Some(o) && o in s.mem && s.mem[o].lock == None
    && s' == Put(s, t, GotF(s.threads[t].pc)).(mem := WithLock(s, o, Some(t)))
  }

  predicate GivesF(pc: Pc) {
    || pc.AllocDropF? || pc.HoldDropF? || pc.FindDropF? || pc.ReleDropF? || pc.ReleRetryDropF? || pc.ReleRedropF?
    || pc.ReleLastF?
  }

  function GaveF(th: Thread): Pc {
    match th.pc
    case AllocDropF => Return(Some(Target(th.op)))
    case FindDropF(o) => FindDropHash(Some(o))
    case ReleRetryDropF => ReleRetryHash
    case ReleRedropF => ReleDropHash
    case ReleLastF => ReleFree
    case _ => Return(None)
  }

  ghost predicate UnlockF(s: Sys, s': Sys, t: nat, o: nat)
    requires t < |s.threads|
  {
    && GivesF(s.threads[t].pc) && HoldsF(s.threads[t]) == Some(o) && o in s.mem
    && s' == Put(s, t, GaveF(s.threads[t])).(mem := WithLock(s, o, None))
  }

  /** Reads of shared memory that only decide what to do next. */
  ghost predicate Look(s: Sys, s': Sys, t: nat)
    requires t < |s.threads|
  {
    var op := s.threads[t].op;
    match s.threads[t].pc
    case FindHead => op.Find? && IsId(op.id) && Hash(op.id) < |s.fh| && s' == Put(s, t, FindWalk(0, s.fh[Hash(op.id)]))
    case FindWalk(k, fp) =>
      && op.Find? && fp.Some? && fp.value in s.mem
      && s' == Put(s, t, if s.mem[fp.value].id == op.id then FindWantF(k, fp.value)
                         else FindWalk(k + 1, s.mem[fp.value].next))
    case ReleCheck => Target(op) in s.mem && s' == Put(s, t, if s.mem[Target(op)].count == 1 then ReleRetryDropF else ReleDec)
    case ReleRecheck => Target(op) in s.mem && s' == Put(s, t, if s.mem[Target(op)].count != 1 then ReleRedec else ReleUnlink)
    case ReleUnlink =>
      && Target(op) in s.mem && IsId(s.mem[Target(op)].id) && Hash(s.mem[Target(op)].id) < |s.fh|
      && var tfp := s.fh[Hash(s.mem[Target(op)].id)];
         tfp.Some? && tfp.value != Target(op) && s' == Put(s, t, ReleUnlinkWalk(0, tfp.value))
    case ReleUnlinkWalk(k, tfp) =>
      && tfp in s.mem && s.mem[tfp].next.Some? && s.mem[tfp].next.value != Target(op)
      && s' == Put(s, t, ReleUnlinkWalk(k + 1, s.mem[tfp].next.value))
    case _ => false
  }

  /** fp->f_count++ or fp->f_count--, under f_lock. */
  ghost predicate Count(s: Sys, s': Sys, t: nat, o: nat)
    requires t < |s.threads|
  {
    && o in s.mem && o in s.held && CanEffect(s, t)
    && var up := s.mem[o := s.mem[o].(count := s.mem[o].count + 1)];
       var down := s.mem[o := s.mem[o].(count := s.mem[o].count - 1)];
       var more := s.held[o := s.held[o] + multiset{t}];
       var less := s.held[o := s.held[o] - multiset{t}];
       match s.threads[t].pc
       case HoldInc => o == Target(s.threads[t].op) && s' == Effect(s, t, HoldDropF).(mem := up, held := more)
       case FindInc(_, q) => o == q && s' == Effect(s, t, FindDropF(o)).(mem := up, held := more)
       case ReleDec => o == Target(s.threads[t].op) && s' == Effect(s, t, ReleDropF).(mem := down, held := less)
       case ReleRedec => o == Target(s.threads[t].op) && s' == Effect(s, t, ReleRedropF).(mem := down, held := less)
       case _ => false
  }

  /** The walk came to the end of the bucket: foo_find fails. */
  ghost predicate Miss(s: Sys, s': Sys, t: nat)
    requires t < |s.threads|
  {
    && CanEffect(s, t) && s.threads[t].pc.FindWalk? && s.threads[t].pc.fp == None
    && s' == Effect(s, t, FindDropHash(None))
  }

  /** fp->f_next = fh[idx] */
  ghost predicate WriteNext(s: Sys, s': Sys, t: nat)
    requires t < |s.threads|
  {
    var op := s.threads[t].op;
    && s.threads[t].pc == AllocLink && op.Alloc? && op.o in s.mem && IsId(op.id) && Hash(op.id) < |s.fh|
    && s' == Put(s, t, AllocHead).(mem := s.mem[op.o := s.mem[op.o].(next := s.fh[Hash(op.id)])])
  }

  /** fh[idx] = fp */
  ghost predicate WriteHead(s: Sys, s': Sys, t: nat)
    requires t < |s.threads|
  {
    var op := s.threads[t].op;
    && s.threads[t].pc == AllocHead && op.Alloc? && IsId(op.id) && Hash(op.id) < |s.fh| && CanEffect(s, t)
    && s' == Effect(s, t, AllocWantF).(fh := s.fh[Hash(op.id) := Some(op.o)])
  }

  /** fh[idx] = fp->f_next */
  ghost predicate UnlinkFirst(s: Sys, s': Sys, t: nat)
    requires t < |s.threads|
  {
    var o := Target(s.threads[t].op);
    && s.threads[t].pc == ReleUnlink && o in s.mem && IsId(s.mem[o].id) && Hash(s.mem[o].id) < |s.fh|
    && s.fh[Hash(s.mem[o].id)] == Some(o) && CanEffect(s, t)
    && s' == Effect(s, t, ReleLastHash).(fh := s.fh[Hash(s.mem[o].id) := s.mem[o].next])
  }

  /** tfp->f_next = fp->f_next */
  ghost predicate UnlinkAfter(s: Sys, s': Sys, t: nat)
    requires t < |s.threads|
  {
    var o := Target(s.threads[t].op);
    var pc := s.threads[t].pc;
    && pc.ReleUnlinkWalk? && o in s.mem && pc.tfp in s.mem && s.mem[pc.tfp].next == Some(o) && CanEffect(s, t)
    && s' == Effect(s, t, ReleLastHash).(mem := s.mem[pc.tfp := s.mem[pc.tfp].(next := s.mem[o].next)])
  }

  /** pthread_mutex_destroy and free */
  ghost predicate Free(s: Sys, s': Sys, t: nat)
    requires t < |s.threads|
  {
    var o := Target(s.threads[t].op);
    && s.threads[t].pc == ReleFree && o in s.mem && s.mem[o].lock == None
    && s' == Put(s, t, Return(None)).(mem := s.mem - {o}, held := s.held - {o})
  }

  // ---- the invariant --------------------------------------------------------

  function AtOpt(c: seq<nat>, k: nat): Option<nat> { if k < |c| then Some(c[k]) else None }

  /** Following f_next from head visits exactly c. */
  predicate ChainOk(head: Option<nat>, mem: map<nat, Foo>, c: seq<nat>) {
    && head == AtOpt(c, 0)
    && forall k :: 0 <= k < |c| ==> c[k] in mem && mem[c[k]].next == AtOpt(c, k + 1)
  }

  ghost predicate ListsOk(fh: seq<Option<nat>>, mem: map<nat, Foo>, chain: seq<seq<nat>>) {
    |fh| == NHASH == |chain| && forall h :: 0 <= h < NHASH ==> ChainOk(fh[h], mem, chain[h])
  }

  /** f_count is the number of references held. */
  predicate CountsOk(mem: map<nat, Foo>, held: map<nat, multiset<nat>>, n: nat) {
    && held.Keys == mem.Keys
    && forall o :: o in mem ==> mem[o].count == |held[o]| && forall u :: u in held[o] ==> u < n
  }

  /** The objects in buckets are in memory, with the id and count the one-lock table has. */
  predicate TabAgrees(tab: Table<nat>, mem: map<nat, Foo>) {
    forall o :: o in tab.id ==> o in mem && o in tab.count && mem[o].id == tab.id[o] && mem[o].count == tab.count[o]
  }

  /** An object that is in no bucket is being allocated or freed by the one thread that refers to it. */
  predicate UnlistedOk(s: Sys) {
    forall o, u :: o in s.mem && o in s.held && o !in s.tab.id && u in s.held[o] && u < |s.threads| ==>
      Private(s.threads[u].pc) && Target(s.threads[u].op) == o
  }

  ghost predicate HashLockOk(s: Sys) {
    && (forall u :: 0 <= u < |s.threads| ==> (HoldsHash(s.threads[u].pc) <==> s.hashlock == Some(u)))
    && (s.hashlock.Some? ==> s.hashlock.value < |s.threads|)
  }

  ghost predicate FLocksOk(s: Sys) {
    && (forall u {:trigger HoldsF(s.threads[u])} :: 0 <= u < |s.threads| && HoldsF(s.threads[u]).Some? ==>
          HoldsF(s.threads[u]).value in s.mem && s.mem[HoldsF(s.threads[u]).value].lock == Some(u))
    && (forall o :: o in s.mem && s.mem[o].lock.Some? ==>
          s.mem[o].lock.value < |s.threads| && HoldsF(s.threads[s.mem[o].lock.value]) == Some(o))
  }

  ghost function OpsOf(log: seq<Entry>): (ops: seq<Op<nat>>)
    ensures |ops| == |log|
  {
    if log == [] then [] else OpsOf(log[..|log| - 1]) + [log[|log| - 1].op]
  }

  /** The one-lock table, given the operations of the log one after the other, answers as logged. */
  ghost predicate LogOk(log: seq<Entry>) {
    && LegalRun(OpsOf(log))
    && (log == [] ||
        (LogOk(log[..|log| - 1])
         && Legal(After(OpsOf(log[..|log| - 1])), log[|log| - 1].op)
         && log[|log| - 1].r == Answer(After(OpsOf(log[..|log| - 1])), log[|log| - 1].op)))
  }

  ghost predicate Shared(s: Sys) {
    && TableOk(s.tab) && CountsOk(s.mem, s.held, |s.threads|) && TabAgrees(s.tab, s.mem)
    && ListsOk(s.fh, s.mem, s.tab.chain) && UnlistedOk(s) && HashLockOk(s) && FLocksOk(s)
    && LogOk(s.log) && s.tab == After(OpsOf(s.log))
  }

  predicate Refers(s: Sys, u: nat, o: nat) { o in s.held && u in s.held[o] && o in s.tab.id && o in s.mem }

  predicate Alone(s: Sys, u: nat, o: nat) {
    o in s.held && s.held[o] == multiset{u} && o !in s.tab.id && o in s.mem
  }

  predicate Open(s: Sys, th: Thread) { th.mine == None && th.start <= |s.log| }

  predicate Done(s: Sys, u: nat, th: Thread, r: Option<nat>) {
    th.mine.Some? && th.start <= th.mine.value < |s.log| && s.log[th.mine.value] == Entry(u, th.op, r)
  }

  /** The first k objects of the bucket do not have the id. */
  predicate PassedBy(s: Sys, id: int, k: nat) {
    && IsId(id) && |s.tab.chain| == NHASH && k <= |s.tab.chain[Hash(id)]|
    && forall j :: 0 <= j < k ==> s.tab.chain[Hash(id)][j] in s.tab.id && s.tab.id[s.tab.chain[Hash(id)][j]] != id
  }

  predicate FoundAt(s: Sys, id: int, k: nat, o: nat) {
    && PassedBy(s, id, k) && k < |s.tab.chain[Hash(id)]| && s.tab.chain[Hash(id)][k] == o
    && o in s.tab.id && s.tab.id[o] == id
  }

  /** Looking for the object before o in its bucket. */
  predicate Seeking(s: Sys, o: nat, k: nat, tfp: nat) {
    && o in s.tab.id && IsId(s.tab.id[o]) && |s.tab.chain| == NHASH
    && var c := s.tab.chain[Hash(s.tab.id[o])];
       k < |c| && tfp == c[k] && forall j :: 0 <= j <= k ==> c[j] != o
  }

  predicate CountIs(s: Sys, o: nat, one: bool) { o in s.mem && (s.mem[o].count == 1) == one }

  /** What the thread knows where it is. */
  predicate Local(s: Sys, u: nat)
    requires u < |s.threads|
  {
    var th := s.threads[u];
    var o := Target(th.op);
    match th.pc
    case Idle => true
    case AllocWantHash => th.op.Alloc? && IsId(th.op.id) && Alone(s, u, o) && s.mem[o].id == th.op.id && Open(s, th)
    case AllocLink => th.op.Alloc? && IsId(th.op.id) && Alone(s, u, o) && s.mem[o].id == th.op.id && Open(s, th)
    case AllocHead =>
      && th.op.Alloc? && IsId(th.op.id) && Alone(s, u, o) && s.mem[o].id == th.op.id && Open(s, th)
      && Hash(th.op.id) < |s.fh| && s.mem[o].next == s.fh[Hash(th.op.id)]
    case AllocWantF => th.op.Alloc? && Refers(s, u, o) && Done(s, u, th, Some(o))
    case AllocDropHash => th.op.Alloc? && Refers(s, u, o) && Done(s, u, th, Some(o))
    case AllocDropF => th.op.Alloc? && Refers(s, u, o) && Done(s, u, th, Some(o))
    case HoldWantF => th.op.Hold? && Refers(s, u, o) && Open(s, th)
    case HoldInc => th.op.Hold? && Refers(s, u, o) && Open(s, th)
    case HoldDropF => th.op.Hold? && Done(s, u, th, None) && o in s.tab.id
    case FindWantHash => th.op.Find? && IsId(th.op.id) && Open(s, th)
    case FindHead => th.op.Find? && IsId(th.op.id) && Open(s, th)
    case FindWalk(k, fp) =>
      th.op.Find? && PassedBy(s, th.op.id, k) && fp == AtOpt(s.tab.chain[Hash(th.op.id)], k) && Open(s, th)
    case FindWantF(k, q) => th.op.Find? && FoundAt(s, th.op.id, k, q) && Open(s, th)
    case FindInc(k, q) => th.op.Find? && FoundAt(s, th.op.id, k, q) && Open(s, th)
    case FindDropF(q) => th.op.Find? && Done(s, u, th, Some(q)) && q in s.tab.id
    case FindDropHash(r) => th.op.Find? && Done(s, u, th, r)
    case ReleWantF => th.op.Rele? && Refers(s, u, o) && Open(s, th)
    case ReleCheck => th.op.Rele? && Refers(s, u, o) && Open(s, th)
    case ReleDec => th.op.Rele? && Refers(s, u, o) && Open(s, th) && CountIs(s, o, false)
    case ReleDropF => th.op.Rele? && Done(s, u, th, None) && o in s.tab.id
    case ReleRetryDropF => th.op.Rele? && Refers(s, u, o) && Open(s, th)
    case ReleRetryHash => th.op.Rele? && Refers(s, u, o) && Open(s, th)
    case ReleRetryF => th.op.Rele? && Refers(s, u, o) && Open(s, th)
    case ReleRecheck => th.op.Rele? && Refers(s, u, o) && Open(s, th)
    case ReleRedec => th.op.Rele? && Refers(s, u, o) && Open(s, th) && CountIs(s, o, false)
    case ReleRedropF => th.op.Rele? && Done(s, u, th, None) && o in s.tab.id
    case ReleDropHash => th.op.Rele? && Done(s, u, th, None)
    case ReleUnlink => th.op.Rele? && Refers(s, u, o) && Open(s, th) && CountIs(s, o, true)
    case ReleUnlinkWalk(k, tfp) =>
      th.op.Rele? && Refers(s, u, o) && Open(s, th) && CountIs(s, o, true) && Seeking(s, o, k, tfp)
    case ReleLastHash => th.op.Rele? && Alone(s, u, o) && Done(s, u, th, None)
    case ReleLastF => th.op.Rele? && Alone(s, u, o) && Done(s, u, th, None)
    case ReleFree => th.op.Rele? && Alone(s, u, o) && Done(s, u, th, None)
    case Return(r) => Done(s, u, th, r)
  }

  ghost predicate Inv(s: Sys) {
    Shared(s) && forall u :: 0 <= u < |s.threads| ==> Local(s, u)
  }
}
