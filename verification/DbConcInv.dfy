/** The invariant of the processes: what the shared files mean at every step, what each process
    knows where it stands, and why no other process's step disturbs that. */
module DbConcInv {
  import opened Options
  import opened DbFormat
  import opened DbImage
  import opened DbLists
  import opened DbSurgery
  import opened DbSpec
  import opened DbHistory
  import opened DbProcs

  // ---- which locks a process holds ------------------------------------------

  predicate InChain(pc: Pc) {
    !pc.Idle? && !pc.WantChain? && !pc.NrWantFree? && !pc.NrHoldFree?
  }

  predicate HasFree(pc: Pc) {
    || pc.DelBlank? || pc.DelReadFree? || pc.DelWriteIdx? || pc.DelWriteFree? || pc.DelBypass?
    || pc.DelDropFree? || pc.FreeReadHead? || pc.FreeScan? || pc.FreeTake? || pc.FreeHit? || pc.FreeMiss?
  }

  predicate HasDat(pc: Pc) { pc.AppDat? || pc.AppDropDat? }

  predicate HasIdx(pc: Pc) { pc.AppIdx? || pc.AppDropIdx? }

  predicate HoldsRegion(pr: Proc, r: Region, w: bool) {
    match r
    case ChainLock(c) => c == List(pr.op) && w == Writing(pr.op) && InChain(pr.pc)
    case FreeLock => if w then HasFree(pr.pc) else pr.pc.NrHoldFree?
    case DatAppendLock => w && HasDat(pr.pc)
    case IdxAppendLock => w && HasIdx(pr.pc)
  }

  /** The lock table says who holds what. */
  ghost predicate LockTable(s: Sys) {
    forall l: Lock :: l in s.locks <==> l.pid < |s.procs| && HoldsRegion(s.procs[l.pid], l.region, l.write)
  }

  predicate NoConflict(a: Proc, b: Proc) {
    && (InChain(a.pc) && InChain(b.pc) && List(a.op) == List(b.op) ==> !Writing(a.op) && !Writing(b.op))
    && !(HasFree(a.pc) && (HasFree(b.pc) || b.pc.NrHoldFree?))
    && !(HasDat(a.pc) && HasDat(b.pc))
    && !(HasIdx(a.pc) && HasIdx(b.pc))
  }

  ghost predicate Exclusive(s: Sys) {
    forall p, q :: 0 <= p < |s.procs| && 0 <= q < |s.procs| && p != q ==> NoConflict(s.procs[p], s.procs[q])
  }

  // ---- what a process is responsible for ------------------------------------

  function HeldOf(pc: Pc): Option<nat> {
    match pc
    case DelReadFree(_, o, _, _) => Some(o)
    case DelWriteIdx(_, o, _, _, _) => Some(o)
    case DelWriteFree(_, o, _) => Some(o)
    case FreeHit(_, o, _) => Some(o)
    case ReuseDat(_, o, _) => Some(o)
    case ReuseIdx(_, o, _) => Some(o)
    case AppDropIdx(o) => Some(o)
    case Link(o) => Some(o)
    case _ => None
  }

  function BypassOf(pc: Pc): Option<nat> {
    match pc
    case DelReadFree(l, _, _, _) => Some(l)
    case DelWriteIdx(l, _, _, _, _) => Some(l)
    case DelWriteFree(l, _, _) => Some(l)
    case DelBypass(l, _) => Some(l)
    case _ => None
  }

  function PendOf(pc: Pc): Option<nat> {
    match pc
    case AppDropDat(_, d) => Some(d)
    case AppWantIdx(_, d) => Some(d)
    case AppIdx(_, d) => Some(d)
    case _ => None
  }

  /** Past the search, with the key absent from the chain, and before the new record is in. */
  predicate MayGap(pc: Pc) {
    || pc.DelReadFree? || pc.DelWriteIdx? || pc.DelWriteFree? || pc.DelBypass? || pc.DelDropFree?
    || pc.NewReadHead? || pc.NewWantFree? || pc.FreeReadHead? || pc.FreeScan? || pc.FreeTake? || pc.FreeHit?
    || pc.FreeMiss? || pc.ReuseDat? || pc.ReuseIdx? || pc.AppWantDat? || pc.AppDat? || pc.AppDropDat?
    || pc.AppWantIdx? || pc.AppIdx? || pc.AppDropIdx? || pc.Link?
  }

  ghost predicate BypassedBy(s: Sys, l: nat) {
    exists q :: 0 <= q < |s.procs| && BypassOf(s.procs[q].pc) == Some(l)
  }

  ghost predicate Duties(s: Sys) {
    && (forall o :: o in s.g.home && s.g.home[o].Held? ==>
          s.g.home[o].p < |s.procs| && HeldOf(s.procs[s.g.home[o].p].pc) == Some(o))
    && (forall l {:trigger BypassedBy(s, l)} :: l in s.bypass ==> BypassedBy(s, l))
    && (forall k :: k in s.gap ==>
          s.gap[k] < |s.procs| && MayGap(s.procs[s.gap[k]].pc)
          && s.procs[s.gap[k]].op.Store? && s.procs[s.gap[k]].op.key == k)
    && (forall d :: d in s.pend ==> s.pend[d] < |s.procs| && PendOf(s.procs[s.pend[d]].pc) == Some(d))
  }

  // ---- the files and the map ------------------------------------------------

  /** The pointers as they will be once pending bypasses are written. */
  function View(s: Sys): map<nat, nat> { s.img.ptr + s.bypass }

  ghost predicate ExtentsOwned(s: Sys) {
    && (forall d {:trigger ExtUsed(s.img.body, d)} :: d in s.img.ext ==> ExtUsed(s.img.body, d) || d in s.pend)
    && (forall d :: d in s.pend ==> d in s.img.ext)
    && (forall d, o :: d in s.pend && o in s.img.body ==> s.img.body[o].datoff != d)
  }

  /** The map holds the live keys with the data on file, and the keys that a store is about to
      replace. */
  ghost predicate MapOk(s: Sys) {
    && (forall k :: k in M(s) <==> k in s.g.loc || k in s.gap)
    && (forall k :: k in s.gap ==> k !in s.g.loc)
    && (forall k :: k in s.g.loc ==> HasValue(s.img, s.g, k) && M(s)[k] == Value(s.img, s.g, k))
  }

  // ---- what each process knows ----------------------------------------------

  predicate OnListLoc(s: Sys, c: nat, l: nat)
    requires c < |s.g.chain|
  {
    l == Head(c) || l in s.g.chain[c]
  }

  /** The record just found: at position i of the key's chain. */
  predicate FoundAt(s: Sys, op: Op, i: nat, ptroff: nat, o: nat, b: Body) {
    && |s.g.chain| == NLISTS && i < |s.g.chain[List(op)]|
    && o == s.g.chain[List(op)][i] && ptroff == LocAt(Head(List(op)), s.g.chain[List(op)], i)
    && o in s.img.body && s.img.body[o] == b && b.key == op.key
  }

  predicate HeldRec(s: Sys, p: nat, o: nat, b: Body) {
    o in s.g.home && s.g.home[o] == Held(p) && o in s.img.body && s.img.body[o] == b
  }

  predicate BypassAt(s: Sys, op: Op, ptroff: nat, saveptr: nat) {
    && |s.g.chain| == NLISTS && ptroff in s.bypass && s.bypass[ptroff] == saveptr
    && OnListLoc(s, List(op), ptroff) && ptroff in s.img.ptr && saveptr <= PTR_MAX
  }

  /** The key is off its chain and a store is to put it in. */
  predicate StoreOpen(s: Sys, p: nat, op: Op) {
    && op.Store? && op.key !in s.g.loc
    && (if op.key in s.gap then s.gap[op.key] == p && op.flag != DB_INSERT else op.flag != DB_REPLACE)
  }

  /** After the old record was blanked: a delete has taken effect, a replacing store has not. */
  predicate DelOpen(s: Sys, p: nat, t: nat, op: Op) {
    if op.Store? then StoreOpen(s, p, op) && op.key in s.gap && Open(s.h, t, op)
    else op.Delete? && Effective(s.h, t, Code(0, NoErr))
  }

  predicate HeadIs(s: Sys, op: Op, v: nat) {
    |s.g.chain| == NLISTS && v == NextAt(s.g.chain[List(op)], 0) && v <= PTR_MAX
  }

  /** Ready to insert: v is the first record of the chain. */
  predicate Inserting(s: Sys, p: nat, t: nat, op: Op, v: nat) {
    StoreOpen(s, p, op) && Open(s.h, t, op) && HeadIs(s, op, v)
  }

  predicate Reusable(op: Op, b: Body) {
    op.Store? && |b.key| == |op.key| && b.datlen == |op.data| + 1 && AllBlank(b.key)
  }

  predicate OnFree(s: Sys, j: nat, saveoff: nat, off: nat) {
    && |s.g.chain| == NLISTS && j <= |s.g.chain[0]|
    && saveoff == LocAt(Head(0), s.g.chain[0], j) && off == NextAt(s.g.chain[0], j)
  }

  predicate PendingExt(s: Sys, p: nat, op: Op, d: nat) {
    op.Store? && d in s.pend && s.pend[d] == p && d in s.img.ext && s.img.ext[d] == op.data
  }

  /** The new record is complete and only lacks the pointer to it. */
  predicate ReadyToLink(s: Sys, p: nat, op: Op, o: nat) {
    && |s.g.chain| == NLISTS && op.Store?
    && o in s.g.home && s.g.home[o] == Held(p) && o in s.img.body && s.img.body[o].key == op.key
    && s.img.body[o].datoff in s.img.ext && s.img.ext[s.img.body[o].datoff] == op.data
    && o in s.img.ptr && s.img.ptr[o] == NextAt(s.g.chain[List(op)], 0) && o <= PTR_MAX
  }

  predicate Local(s: Sys, p: nat)
    requires p < |s.procs|
  {
    var op, t := s.procs[p].op, s.procs[p].ticket;
    && (!s.procs[p].pc.Idle? && !s.procs[p].pc.NrWantFree? && !s.procs[p].pc.NrHoldFree? ==> CallOkToMake(op))
    && match s.procs[p].pc
    case Idle => true
    case NrWantFree => true
    case NrHoldFree => true
    case WantChain => Open(s.h, t, op)
    case ReadHead => Open(s.h, t, op)
    case Scanning(i, ptroff, off) =>
      && Open(s.h, t, op) && |s.g.chain| == NLISTS && i <= |s.g.chain[List(op)]|
      && ptroff == LocAt(Head(List(op)), s.g.chain[List(op)], i) && off == NextAt(s.g.chain[List(op)], i)
      && (forall j :: 0 <= j < i ==>
            s.g.chain[List(op)][j] in s.img.body && s.img.body[s.g.chain[List(op)][j]].key != op.key)
    case FetchDat(i, ptroff, o, b) => Open(s.h, t, op) && op.Fetch? && FoundAt(s, op, i, ptroff, o, b)
    case OverDat(i, ptroff, o, b) =>
      && Open(s.h, t, op) && op.Store? && op.flag != DB_INSERT && |op.data| + 1 == b.datlen
      && FoundAt(s, op, i, ptroff, o, b)
    case DelWantFree(i, ptroff, o, b, v) =>
      && Open(s.h, t, op) && (op.Delete? || (op.Store? && op.flag != DB_INSERT))
      && FoundAt(s, op, i, ptroff, o, b) && v == NextAt(s.g.chain[List(op)], i + 1)
    case DelBlank(i, ptroff, o, b, v) =>
      && Open(s.h, t, op) && (op.Delete? || (op.Store? && op.flag != DB_INSERT))
      && FoundAt(s, op, i, ptroff, o, b) && v == NextAt(s.g.chain[List(op)], i + 1)
    case DelReadFree(ptroff, o, b, v) =>
      DelOpen(s, p, t, op) && BypassAt(s, op, ptroff, v) && HeldRec(s, p, o, b) && o <= PTR_MAX
    case DelWriteIdx(ptroff, o, b, v, f) =>
      && DelOpen(s, p, t, op) && BypassAt(s, op, ptroff, v) && HeldRec(s, p, o, b)
      && f == NextAt(s.g.chain[0], 0) && f <= PTR_MAX && o <= PTR_MAX
    case DelWriteFree(ptroff, o, v) =>
      && DelOpen(s, p, t, op) && BypassAt(s, op, ptroff, v)
      && o in s.img.body && HeldRec(s, p, o, s.img.body[o]) && AllBlank(s.img.body[o].key)
      && o in s.img.ptr && s.img.ptr[o] == NextAt(s.g.chain[0], 0) && o <= PTR_MAX
    case DelBypass(ptroff, v) => DelOpen(s, p, t, op) && BypassAt(s, op, ptroff, v)
    case DelDropFree => DelOpen(s, p, t, op)
    case NewReadHead(_) => StoreOpen(s, p, op) && Open(s.h, t, op)
    case NewWantFree(v) => Inserting(s, p, t, op, v)
    case FreeReadHead(v) => Inserting(s, p, t, op, v)
    case FreeScan(v, j, saveoff, off) => Inserting(s, p, t, op, v) && OnFree(s, j, saveoff, off)
    case FreeTake(v, j, saveoff, o, b, next) =>
      && Inserting(s, p, t, op, v) && OnFree(s, j, saveoff, o) && o != 0 && j < |s.g.chain[0]|
      && o in s.img.body && s.img.body[o] == b && Reusable(op, b) && next == NextAt(s.g.chain[0], j + 1)
    case FreeHit(v, o, b) => Inserting(s, p, t, op, v) && HeldRec(s, p, o, b) && Reusable(op, b) && o <= PTR_MAX
    case FreeMiss(v) => Inserting(s, p, t, op, v)
    case ReuseDat(v, o, b) => Inserting(s, p, t, op, v) && HeldRec(s, p, o, b) && Reusable(op, b) && o <= PTR_MAX
    case ReuseIdx(v, o, b) =>
      && Inserting(s, p, t, op, v) && HeldRec(s, p, o, b) && Reusable(op, b) && o <= PTR_MAX
      && b.datoff in s.img.ext && s.img.ext[b.datoff] == op.data
    case AppWantDat(v) => Inserting(s, p, t, op, v)
    case AppDat(v) => Inserting(s, p, t, op, v)
    case AppDropDat(v, d) => Inserting(s, p, t, op, v) && PendingExt(s, p, op, d)
    case AppWantIdx(v, d) => Inserting(s, p, t, op, v) && PendingExt(s, p, op, d)
    case AppIdx(v, d) => Inserting(s, p, t, op, v) && PendingExt(s, p, op, d)
    case AppDropIdx(o) => StoreOpen(s, p, op) && Open(s.h, t, op) && ReadyToLink(s, p, op, o)
    case Link(o) => StoreOpen(s, p, op) && Open(s.h, t, op) && ReadyToLink(s, p, op, o)
    case Unlock(r) => Effective(s.h, t, r)
  }

  ghost predicate Files(s: Sys) {
    && Wf(s.img)
    && Struct(View(s), s.img.body, s.g)
    && (forall l :: l in s.bypass ==> l in s.img.ptr && s.bypass[l] <= PTR_MAX)
    && ExtentsOwned(s)
  }

  ghost predicate DistinctTickets(s: Sys) {
    forall p, q :: 0 <= p < |s.procs| && 0 <= q < |s.procs| && p != q && InCall(s.procs[p].pc) && InCall(s.procs[q].pc)
      ==> s.procs[p].ticket != s.procs[q].ticket
  }

  predicate InCall(pc: Pc) { pc.WantChain? || InChain(pc) }

  ghost predicate Shared(s: Sys) {
    LockTable(s) && Exclusive(s) && Files(s) && MapOk(s) && Duties(s) && Linearizable(s.h) && DistinctTickets(s)
  }

  ghost predicate Inv(s: Sys) {
    Shared(s) && forall p :: 0 <= p < |s.procs| ==> Local(s, p)
  }

  // ---- non-interference -----------------------------------------------------

  ghost predicate SameLoc(s: Sys, s': Sys, l: nat) {
    && (l in s.img.ptr ==> l in s'.img.ptr && s'.img.ptr[l] == s.img.ptr[l])
    && (l in s.bypass ==> l in s'.bypass && s'.bypass[l] == s.bypass[l])
  }

  /** List c, its pointers and its records are the same. */
  ghost predicate SameList(s: Sys, s': Sys, c: nat)
    requires c < |s.g.chain|
  {
    && |s'.g.chain| == |s.g.chain| && s'.g.chain[c] == s.g.chain[c]
    && (forall l :: OnListLoc(s, c, l) ==> SameLoc(s, s', l))
    && (forall o :: o in s.g.chain[c] && o in s.img.body ==> o in s'.img.body && s'.img.body[o] == s.img.body[o])
  }

  ghost predicate SameKey(s: Sys, s': Sys, k: string) {
    && (k in s'.g.loc <==> k in s.g.loc)
    && (k in s'.gap <==> k in s.gap)
    && (k in s.gap ==> s'.gap[k] == s.gap[k])
  }

  /** Everything process q has taken off the lists or appended is the same. */
  ghost predicate SameHeld(s: Sys, s': Sys, q: nat) {
    && (forall o :: o in s.g.home && s.g.home[o] == Held(q) && o in s.img.body ==>
          && o in s'.g.home && s'.g.home[o] == Held(q) && SameLoc(s, s', o)
          && o in s'.img.body && s'.img.body[o] == s.img.body[o]
          && (s.img.body[o].datoff in s.img.ext ==>
                s.img.body[o].datoff in s'.img.ext
                && s'.img.ext[s.img.body[o].datoff] == s.img.ext[s.img.body[o].datoff]))
    && (forall d :: d in s.pend && s.pend[d] == q && d in s.img.ext ==>
          d in s'.pend && s'.pend[d] == q && d in s'.img.ext && s'.img.ext[d] == s.img.ext[d])
  }

  ghost predicate SameHistory(s: Sys, s': Sys, q: nat)
    requires q < |s.procs|
  {
    var t, op := s.procs[q].ticket, s.procs[q].op;
    && (Open(s.h, t, op) ==> Open(s'.h, t, op))
    && (forall r :: Effective(s.h, t, r) ==> Effective(s'.h, t, r))
  }

  /** All that process q knows is untouched. */
  ghost predicate Undisturbed(s: Sys, s': Sys, q: nat)
    requires q < |s.procs| && |s.g.chain| == NLISTS
  {
    && |s'.procs| == |s.procs| && s'.procs[q] == s.procs[q] && |s'.g.chain| == NLISTS
    && (InChain(s.procs[q].pc) ==>
          SameList(s, s', List(s.procs[q].op)) && SameKey(s, s', s.procs[q].op.key))
    && (HasFree(s.procs[q].pc) ==> SameList(s, s', 0))
    && SameHeld(s, s', q)
    && (InCall(s.procs[q].pc) ==> SameHistory(s, s', q))
  }

  lemma SameFound(s: Sys, s': Sys, op: Op, i: nat, ptroff: nat, o: nat, b: Body)
    requires |s.g.chain| == NLISTS && SameList(s, s', List(op)) && FoundAt(s, op, i, ptroff, o, b)
    ensures FoundAt(s', op, i, ptroff, o, b)
    ensures s'.g.chain[List(op)] == s.g.chain[List(op)]
  {
  }

  lemma SameBypass(s: Sys, s': Sys, op: Op, ptroff: nat, saveptr: nat)
    requires |s.g.chain| == NLISTS && SameList(s, s', List(op)) && BypassAt(s, op, ptroff, saveptr)
    ensures BypassAt(s', op, ptroff, saveptr)
  {
    assert SameLoc(s, s', ptroff);
  }

  lemma SameReady(s: Sys, s': Sys, q: nat, op: Op, o: nat)
    requires |s.g.chain| == NLISTS && SameList(s, s', List(op)) && SameHeld(s, s', q) && ReadyToLink(s, q, op, o)
    ensures ReadyToLink(s', q, op, o)
  {
  }

  lemma SameHeldRec(s: Sys, s': Sys, q: nat, o: nat, b: Body)
    requires SameHeld(s, s', q) && HeldRec(s, q, o, b)
    ensures HeldRec(s', q, o, b)
    ensures o in s.img.ptr ==> o in s'.img.ptr && s'.img.ptr[o] == s.img.ptr[o]
    ensures b.datoff in s.img.ext ==> b.datoff in s'.img.ext && s'.img.ext[b.datoff] == s.img.ext[b.datoff]
  {
  }

  lemma SameStoreOpen(s: Sys, s': Sys, q: nat, op: Op)
    requires SameKey(s, s', op.key)
    ensures StoreOpen(s, q, op) ==> StoreOpen(s', q, op)
  {
  }

  lemma SameDelOpen(s: Sys, s': Sys, q: nat, t: nat, op: Op)
    requires SameKey(s, s', op.key) && DelOpen(s, q, t, op)
    requires Open(s.h, t, op) ==> Open(s'.h, t, op)
    requires forall r :: Effective(s.h, t, r) ==> Effective(s'.h, t, r)
    ensures DelOpen(s', q, t, op)
  {
    hide Open, Effective;
  }

  lemma SameInserting(s: Sys, s': Sys, q: nat, t: nat, op: Op, v: nat)
    requires |s.g.chain| == NLISTS && SameList(s, s', List(op))
    requires SameKey(s, s', op.key) && Inserting(s, q, t, op, v)
    requires Open(s.h, t, op) ==> Open(s'.h, t, op)
    ensures Inserting(s', q, t, op, v)
  {
    hide Open;
  }

  lemma SamePending(s: Sys, s': Sys, q: nat, op: Op, d: nat)
    requires SameHeld(s, s', q) && PendingExt(s, q, op, d)
    ensures PendingExt(s', q, op, d)
  {
  }

  lemma SameListFacts(s: Sys, s': Sys, c: nat)
    requires c < |s.g.chain| && SameList(s, s', c)
    ensures |s'.g.chain| == |s.g.chain| && s'.g.chain[c] == s.g.chain[c]
    ensures forall o :: o in s.g.chain[c] && o in s.img.body ==> o in s'.img.body && s'.img.body[o] == s.img.body[o]
  {
  }

  /** What a process knows survives every step that leaves it undisturbed. */
  lemma LocalStable(s: Sys, s': Sys, q: nat)
    requires q < |s.procs| && |s.g.chain| == NLISTS && Undisturbed(s, s', q) && Local(s, q)
    ensures Local(s', q)
  {
    hide SameList, SameKey, SameHeld, Open, Effective, List, FoundAt, BypassAt, ReadyToLink, HeldRec, StoreOpen,
      DelOpen, Inserting, PendingExt, Reusable, CallOkToMake;
    var op, t := s.procs[q].op, s.procs[q].ticket;
    if InChain(s.procs[q].pc) {
      SameStoreOpen(s, s', q, op);
      match s.procs[q].pc {
        case Scanning(i, ptroff, off) => SameListFacts(s, s', List(op));
        case FetchDat(i, ptroff, o, b) => SameFound(s, s', op, i, ptroff, o, b);
        case OverDat(i, ptroff, o, b) => SameFound(s, s', op, i, ptroff, o, b);
        case DelWantFree(i, ptroff, o, b, v) => SameFound(s, s', op, i, ptroff, o, b);
        case DelBlank(i, ptroff, o, b, v) => SameFound(s, s', op, i, ptroff, o, b);
        case DelReadFree(ptroff, o, b, v) => DelStable(s, s', q);
        case DelWriteIdx(ptroff, o, b, v, f) => DelStable(s, s', q);
        case DelWriteFree(ptroff, o, v) => DelStable(s, s', q);
        case DelBypass(ptroff, v) => DelStable(s, s', q);
        case DelDropFree => DelStable(s, s', q);
        case NewWantFree(v) => SameInserting(s, s', q, t, op, v);
        case FreeReadHead(v) => SameInserting(s, s', q, t, op, v);
        case FreeScan(v, j, saveoff, off) => FreeStable(s, s', q);
        case FreeTake(v, j, saveoff, o, b, next) => FreeStable(s, s', q);
        case FreeHit(v, o, b) => FreeStable(s, s', q);
        case FreeMiss(v) => SameInserting(s, s', q, t, op, v);
        case ReuseDat(v, o, b) => FreeStable(s, s', q);
        case ReuseIdx(v, o, b) => FreeStable(s, s', q);
        case AppWantDat(v) => SameInserting(s, s', q, t, op, v);
        case AppDat(v) => SameInserting(s, s', q, t, op, v);
        case AppDropDat(v, d) => SameInserting(s, s', q, t, op, v); SamePending(s, s', q, op, d);
        case AppWantIdx(v, d) => SameInserting(s, s', q, t, op, v); SamePending(s, s', q, op, d);
        case AppIdx(v, d) => SameInserting(s, s', q, t, op, v); SamePending(s, s', q, op, d);
        case AppDropIdx(o) => SameReady(s, s', q, op, o);
        case Link(o) => SameReady(s, s', q, op, o);
        case _ =>
      }
    }
  }

  lemma DelStable(s: Sys, s': Sys, q: nat)
    requires q < |s.procs| && |s.g.chain| == NLISTS && Undisturbed(s, s', q) && Local(s, q)
    requires var pc := s.procs[q].pc;
      pc.DelReadFree? || pc.DelWriteIdx? || pc.DelWriteFree? || pc.DelBypass? || pc.DelDropFree?
    ensures Local(s', q)
  {
    hide SameList, SameKey, SameHeld, Open, Effective, List, BypassAt, DelOpen, CallOkToMake, HeldRec;
    var op, t := s.procs[q].op, s.procs[q].ticket;
    SameDelOpen(s, s', q, t, op);
    SameListFacts(s, s', 0);
    match s.procs[q].pc {
      case DelReadFree(ptroff, o, b, v) => SameBypass(s, s', op, ptroff, v); SameHeldRec(s, s', q, o, b);
      case DelWriteIdx(ptroff, o, b, v, f) => SameBypass(s, s', op, ptroff, v); SameHeldRec(s, s', q, o, b);
      case DelWriteFree(ptroff, o, v) =>
        SameBypass(s, s', op, ptroff, v);
        SameHeldRec(s, s', q, o, s.img.body[o]);
        assert HeldRec(s', q, o, s.img.body[o]) ==> o in s'.img.body && s'.img.body[o] == s.img.body[o] by {
          HeldRecIs(s', q, o, s.img.body[o]);
        }
      case DelBypass(ptroff, v) => SameBypass(s, s', op, ptroff, v);
      case DelDropFree =>
    }
  }

  lemma HeldRecIs(s: Sys, q: nat, o: nat, b: Body)
    ensures HeldRec(s, q, o, b) ==> o in s.img.body && s.img.body[o] == b
  {
  }

  lemma FreeStable(s: Sys, s': Sys, q: nat)
    requires q < |s.procs| && |s.g.chain| == NLISTS && Undisturbed(s, s', q) && Local(s, q)
    requires var pc := s.procs[q].pc;
      pc.FreeScan? || pc.FreeTake? || pc.FreeHit? || pc.ReuseDat? || pc.ReuseIdx?
    ensures Local(s', q)
  {
    hide SameKey, SameHeld, Open, Effective, List, Inserting, Reusable, CallOkToMake, HeldRec, SameList;
    var op, t := s.procs[q].op, s.procs[q].ticket;
    match s.procs[q].pc {
      case FreeScan(v, j, saveoff, off) => SameInserting(s, s', q, t, op, v); SameListFacts(s, s', 0);
      case FreeTake(v, j, saveoff, o, b, next) => SameInserting(s, s', q, t, op, v); SameListFacts(s, s', 0);
      case FreeHit(v, o, b) => SameInserting(s, s', q, t, op, v); SameHeldRec(s, s', q, o, b);
      case ReuseDat(v, o, b) => SameInserting(s, s', q, t, op, v); SameHeldRec(s, s', q, o, b);
      case ReuseIdx(v, o, b) => SameInserting(s, s', q, t, op, v); SameHeldRec(s, s', q, o, b);
    }
  }

  // ---- what a process may change --------------------------------------------

  /** p has list c locked for writing. */
  predicate WritesList(s: Sys, p: nat, c: nat)
    requires p < |s.procs|
  {
    || (InChain(s.procs[p].pc) && Writing(s.procs[p].op) && c == List(s.procs[p].op))
    || (HasFree(s.procs[p].pc) && c == 0)
  }

  /** l is a pointer of a list p has locked for writing, or of a record p holds, or new. */
  ghost predicate OwnLoc(s: Sys, p: nat, l: nat)
    requires p < |s.procs| && |s.g.chain| == NLISTS
  {
    || (exists c :: 0 <= c < NLISTS && WritesList(s, p, c) && OnListLoc(s, c, l))
    || (l in s.g.home && s.g.home[l] == Held(p))
    || (l !in s.img.body && !IsHead(l))
  }

  ghost predicate SameExt(s: Sys, s': Sys, d: nat) {
    d in s.img.ext ==> d in s'.img.ext && s'.img.ext[d] == s.img.ext[d]
  }

  ghost predicate OwnProcs(s: Sys, s': Sys, p: nat) {
    && |s'.procs| == |s.procs|
    && (forall q :: 0 <= q < |s.procs| && q != p ==> s'.procs[q] == s.procs[q])
    && (forall q :: 0 <= q < |s.procs| && q != p && InCall(s.procs[q].pc) ==> SameHistory(s, s', q))
  }

  ghost predicate OwnLists(s: Sys, s': Sys, p: nat)
    requires p < |s.procs| && |s.g.chain| == NLISTS
  {
    && |s'.g.chain| == NLISTS
    && (forall c :: 0 <= c < NLISTS && !WritesList(s, p, c) ==> s'.g.chain[c] == s.g.chain[c])
    && (forall o :: o in s.g.home && s.g.home[o].Held? && s.g.home[o].p != p ==>
          o in s'.g.home && s'.g.home[o] == s.g.home[o])
  }

  ghost predicate OwnPtrs(s: Sys, s': Sys, p: nat)
    requires p < |s.procs| && |s.g.chain| == NLISTS
  {
    forall l :: OwnLoc(s, p, l) || SameLoc(s, s', l)
  }

  ghost predicate OwnRecords(s: Sys, s': Sys, p: nat) {
    forall o :: o in s.img.body && o in s.g.home && s.g.home[o] != Held(p) ==>
      o in s'.img.body && s'.img.body[o] == s.img.body[o]
  }

  ghost predicate OwnExtents(s: Sys, s': Sys, p: nat) {
    && (forall o :: o in s.img.body && o in s.g.home && s.g.home[o].Held? && s.g.home[o].p != p ==>
          SameExt(s, s', s.img.body[o].datoff))
    && (forall d :: d in s.pend && s.pend[d] != p ==>
          d in s'.pend && s'.pend[d] == s.pend[d] && SameExt(s, s', d))
  }

  ghost predicate OwnKeys(s: Sys, s': Sys, p: nat)
    requires p < |s.procs|
  {
    forall k :: !(InChain(s.procs[p].pc) && Writing(s.procs[p].op)) || ListOf(k) != List(s.procs[p].op)
      ==> SameKey(s, s', k)
  }

  /** A step of p changes no other process, nothing outside the lists p has locked for writing,
      the records p holds, p's own keys and p's own extents. */
  ghost predicate Own(s: Sys, s': Sys, p: nat)
    requires p < |s.procs| && |s.g.chain| == NLISTS
  {
    && OwnProcs(s, s', p) && OwnLists(s, s', p) && OwnPtrs(s, s', p) && OwnRecords(s, s', p)
    && OwnExtents(s, s', p) && OwnKeys(s, s', p)
  }

  lemma ListsApart(s: Sys, p: nat, q: nat, c: nat)
    requires Exclusive(s) && p < |s.procs| && q < |s.procs| && p != q
    requires (InChain(s.procs[q].pc) && c == List(s.procs[q].op)) || (HasFree(s.procs[q].pc) && c == 0)
    ensures !WritesList(s, p, c)
  {
    hide List;
    assert NoConflict(s.procs[p], s.procs[q]) && NoConflict(s.procs[q], s.procs[p]);
  }

  /** The pointers of a list that q has locked are not p's to change. */
  lemma NotOwnLoc(s: Sys, p: nat, q: nat, c: nat, l: nat)
    requires Shared(s) && p < |s.procs| && q < |s.procs| && p != q && c < NLISTS
    requires (InChain(s.procs[q].pc) && c == List(s.procs[q].op)) || (HasFree(s.procs[q].pc) && c == 0)
    requires |s.g.chain| == NLISTS && OnListLoc(s, c, l)
    ensures !OwnLoc(s, p, l)
  {
    hide List, WritesList, Keyed, Linked, LockTable, MapOk, Duties, Wf, Linearizable, DistinctTickets, InChain, HasFree;
    ListsApart(s, p, q, c);
    assert OnlyHome(s.g.chain[c], s.g.home, c);
    forall d | 0 <= d < NLISTS && WritesList(s, p, d)
      ensures !OnListLoc(s, d, l)
    {
      assert OnlyHome(s.g.chain[d], s.g.home, d);
      HeadNotOnList(s.img.body, s.g, c, d);
      HeadNotOnList(s.img.body, s.g, d, c);
    }
    HeadNotHeld(s, c);
  }

  lemma HeadNotHeld(s: Sys, c: nat)
    requires RecsAbove(s.img.body) && Placed(s.img.body, s.g) && c < NLISTS
    ensures Head(c) !in s.g.home && IsHead(Head(c))
  {
  }

  lemma OwnKeepsList(s: Sys, s': Sys, p: nat, q: nat, c: nat)
    requires Shared(s) && p < |s.procs| && q < |s.procs| && p != q && c < NLISTS
    requires |s.g.chain| == NLISTS && Own(s, s', p)
    requires (InChain(s.procs[q].pc) && c == List(s.procs[q].op)) || (HasFree(s.procs[q].pc) && c == 0)
    ensures SameList(s, s', c)
  {
    hide OwnLoc, SameLoc, List, WritesList, Keyed, Linked, LockTable, MapOk, Duties, Wf, Linearizable,
      DistinctTickets, SameKey, SameHistory, InChain, HasFree;
    ListsApart(s, p, q, c);
    forall l | OnListLoc(s, c, l)
      ensures SameLoc(s, s', l)
    {
      NotOwnLoc(s, p, q, c, l);
      assert OwnLoc(s, p, l) || SameLoc(s, s', l);
    }
    assert OnlyHome(s.g.chain[c], s.g.home, c);
  }

  lemma OwnKeepsHeld(s: Sys, s': Sys, p: nat, q: nat)
    requires Shared(s) && p < |s.procs| && q < |s.procs| && p != q
    requires |s.g.chain| == NLISTS && Own(s, s', p)
    ensures SameHeld(s, s', q)
  {
    hide SameLoc, List, WritesList, Keyed, Linked, LockTable, MapOk, Duties, Wf, Linearizable,
      DistinctTickets, SameKey, SameHistory, Exclusive, ExtentsOwned, InChain, HasFree;
    forall o | o in s.g.home && s.g.home[o] == Held(q)
      ensures SameLoc(s, s', o) && o in s.img.body
    {
      forall c | 0 <= c < NLISTS
        ensures !OnListLoc(s, c, o)
      {
        HeldNotOnList(s.img.body, s.g, o, c);
      }
      assert OwnLoc(s, p, o) || SameLoc(s, s', o);
    }
  }

  /** The locks do their work: a step that keeps to what its process owns disturbs no other. */
  lemma OwnUndisturbed(s: Sys, s': Sys, p: nat, q: nat)
    requires Shared(s) && p < |s.procs| && q < |s.procs| && p != q
    requires |s.g.chain| == NLISTS && Own(s, s', p)
    ensures Undisturbed(s, s', q)
  {
    hide OwnLoc, SameLoc, List, SameHeld, SameList, SameKey, Struct, LockTable, MapOk, Duties, Wf, Linearizable,
      DistinctTickets, SameHistory, ExtentsOwned, InCall, InChain, HasFree;
    OwnKeepsHeld(s, s', p, q);
    if HasFree(s.procs[q].pc) { OwnKeepsList(s, s', p, q, 0); }
    if InChain(s.procs[q].pc) {
      OwnKeepsList(s, s', p, q, List(s.procs[q].op));
      ListsApart(s, p, q, List(s.procs[q].op));
      assert ListOf(s.procs[q].op.key) == List(s.procs[q].op) by { ListIs(s.procs[q].op); }
    }
  }

  lemma ListIs(op: Op)
    ensures List(op) == ListOf(op.key) && List(op) < NLISTS
  {
  }
}
