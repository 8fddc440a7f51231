/** The steps that write to the files keep the invariant. */
module DbConcWrites {
  import opened Options
  import opened DbFormat
  import opened DbImage
  import opened DbLists
  import opened DbSurgery
  import opened DbSpec
  import opened DbHistory
  import opened DbProcs
  import opened DbConcInv
  import opened DbConcSteps

  // ---- facts shared by the steps --------------------------------------------

  /** A record taken off the lists is not where a bypass is pending. */
  lemma HeldNotBypassed(s: Sys, o: nat)
    requires Inv(s) && o in s.g.home && s.g.home[o].Held?
    ensures o !in s.bypass && |s.g.chain| == NLISTS
  {
    hide Local, LockTable, Exclusive, MapOk, Duties, Linearizable, DistinctTickets, Wf, Keyed, Linked, ExtentsOwned, List;
    ChainCount(s);
    if o in s.bypass {
      var q := BypassOwner(s, o);
      ListIs(s.procs[q].op);
      HeldNotOnList(s.img.body, s.g, o, List(s.procs[q].op));
    }
  }

  /** The extent of a record that is on a list or held by p belongs to no other process. */
  lemma ExtentApart(s: Sys, p: nat, o: nat)
    requires Files(s) && o in s.img.body && o in s.g.home && !(s.g.home[o].Held? && s.g.home[o].p != p)
    ensures forall q :: q in s.img.body && q in s.g.home && s.g.home[q].Held? && s.g.home[q].p != p ==>
              s.img.body[q].datoff != s.img.body[o].datoff
    ensures s.img.body[o].datoff !in s.pend && s.img.body[o].datoff in s.img.ext
    ensures |s.img.ext[s.img.body[o].datoff]| + 1 == s.img.body[o].datlen
  {
    hide RecordsTile, ExtentsTile, PointersOk, LinesOk, Struct;
  }

  lemma ExtentsOwnedKept(s: Sys, s': Sys)
    requires ExtentsOwned(s) && s'.img.body == s.img.body && s'.img.ext.Keys == s.img.ext.Keys && s'.pend == s.pend
    ensures ExtentsOwned(s')
  {
  }

  lemma OthersHistory(s: Sys, s': Sys, p: nat)
    requires p < |s.procs| && Linearizable(s.h) && DistinctTickets(s) && InCall(s.procs[p].pc)
    requires Open(s.h, s.procs[p].ticket, s.procs[p].op)
    requires s'.h == s.h || s'.h == TakeEffect(s.h, s.procs[p].ticket)
    ensures forall q :: 0 <= q < |s.procs| && q != p && InCall(s.procs[q].pc) ==> SameHistory(s, s', q)
    ensures Linearizable(s'.h)
    ensures s'.h == TakeEffect(s.h, s.procs[p].ticket) ==>
      Effective(s'.h, s.procs[p].ticket, Answer(M(s), s.procs[p].op)) && M(s') == Apply(M(s), s.procs[p].op)
    ensures s'.h == s.h ==> M(s') == M(s)
  {
    hide Open, Effective, Linearizable, TakeEffect, InCall, ApplyAll, Apply, Answer;
    TakeEffectKeeps(s.h, s.procs[p].ticket, s.procs[p].op);
  }

  lemma TicketsKept(s: Sys, s': Sys, p: nat)
    requires p < |s.procs| && DistinctTickets(s) && |s'.procs| == |s.procs|
    requires forall q :: 0 <= q < |s.procs| ==> s'.procs[q].ticket == s.procs[q].ticket
    requires forall q :: 0 <= q < |s.procs| && InCall(s'.procs[q].pc) ==> InCall(s.procs[q].pc)
    ensures DistinctTickets(s')
  {
  }

  // ---- overwriting data -----------------------------------------------------

  /** Only the extent at d, which p may write, differs; and possibly the history. */
  lemma OwnPutExt(s: Sys, s': Sys, p: nat, o: nat, data: string, pr: Proc)
    requires p < |s.procs| && |s.g.chain| == NLISTS && Files(s) && o in s.img.body && o in s.g.home
    requires !(s.g.home[o].Held? && s.g.home[o].p != p)
    requires s'.img == PutExt(s.img, s.img.body[o].datoff, data)
    requires s'.procs == s.procs[p := pr] && s'.g == s.g && s'.bypass == s.bypass && s'.gap == s.gap && s'.pend == s.pend
    requires forall q :: 0 <= q < |s.procs| && q != p && InCall(s.procs[q].pc) ==> SameHistory(s, s', q)
    ensures Own(s, s', p)
  {
    hide OwnLoc, WritesList, InChain, HasFree, InCall, SameHistory, Files;
    ExtentApart(s, p, o);
  }

  lemma FilesPutExt(s: Sys, s': Sys, o: nat, data: string)
    requires Files(s) && o in s.img.body && |data| + 1 == s.img.body[o].datlen
    requires s'.img == PutExt(s.img, s.img.body[o].datoff, data)
    requires s'.g == s.g && s'.bypass == s.bypass && s'.pend == s.pend
    ensures Files(s')
  {
    hide RecordsTile, ExtentsTile, PointersOk, LinesOk, Struct, ExtentsOwned;
    PutExtWf(s.img, s.img.body[o].datoff, data);
    ExtentsOwnedKept(s, s');
  }

  lemma KeepOverDat(s: Sys, s': Sys, p: nat)
    requires Inv(s) && p < |s.procs| && StepOverDat(s, s', p)
    ensures Inv(s')
  {
    hide Local, Files, Linearizable, Duties, LockTable, Exclusive, CallOkToMake, ApplyAll, Open, Effective, HeldOf,
      BypassOf, PendOf, MayGap, TakeEffect, MapOk, FoundAt, DistinctTickets, SameLocks;
    LocalOf(s, p);
    OverFacts(s, p);
    var pc, op := s.procs[p].pc, s.procs[p].op;
    FoundKey(s, op, pc.i, pc.ptroff, pc.o, pc.b);
    FoundAtMeans(s, op, pc.i, pc.ptroff, pc.o, pc.b);
    OthersHistory(s, s', p);
    TicketsKept(s, s', p);
    OwnPutExt(s, s', p, pc.o, op.data, s'.procs[p]);
    FilesPutExt(s, s', pc.o, op.data);
    OverMap(s, s', op);
    LocksKept(s, s', p, s'.procs[p]) by { OverLocks(pc); }
    DutiesIdle(s, s', p, s'.procs[p]) by { OverLocks(pc); }
    LocalUnlock(s', p, Code(0, NoErr));
    Finish(s, s', p);
  }

  lemma OverLocks(pc: Pc)
    requires pc.OverDat?
    ensures SameLocks(pc, Unlock(Code(0, NoErr)))
    ensures HeldOf(pc) == None && BypassOf(pc) == None && PendOf(pc) == None && !MayGap(pc)
  {
  }

  lemma OverFacts(s: Sys, p: nat)
    requires p < |s.procs| && s.procs[p].pc.OverDat? && Local(s, p)
    ensures var pc, op := s.procs[p].pc, s.procs[p].op;
      && Open(s.h, s.procs[p].ticket, op) && op.Store? && op.flag != DB_INSERT && |op.data| + 1 == pc.b.datlen
      && FoundAt(s, op, pc.i, pc.ptroff, pc.o, pc.b) && CallOkToMake(op) && GoodFlag(op.flag)
  {
    hide Open, FoundAt;
  }

  lemma FoundAtMeans(s: Sys, op: Op, i: nat, ptroff: nat, o: nat, b: Body)
    requires FoundAt(s, op, i, ptroff, o, b)
    ensures o in s.img.body && s.img.body[o] == b && b.key == op.key
    ensures |s.g.chain| == NLISTS && i < |s.g.chain[List(op)]| && o == s.g.chain[List(op)][i]
    ensures ptroff == LocAt(Head(List(op)), s.g.chain[List(op)], i)
  {
  }

  lemma OverMap(s: Sys, s': Sys, op: Op)
    requires Files(s) && MapOk(s) && op.Store? && op.key in s.g.loc && s.g.loc[op.key] in s.img.body
    requires s'.img == PutExt(s.img, s.img.body[s.g.loc[op.key]].datoff, op.data)
    requires s'.g == s.g && s'.gap == s.gap && M(s') == M(s)[op.key := op.data]
    ensures MapOk(s')
  {
    hide RecordsTile, ExtentsTile, PointersOk, LinesOk, Linked, Placed, ExtentsOwned, ApplyAll, HasValue, Value, M;
    forall k | k in s'.g.loc
      ensures HasValue(s'.img, s'.g, k) && M(s')[k] == Value(s'.img, s'.g, k)
    {
      OverwriteValue(s.img, s.g, op.key, op.data, k);
    }
  }

  // ---- deleting -------------------------------------------------------------

  lemma DelBlankFacts(s: Sys, p: nat)
    requires Inv(s) && p < |s.procs| && s.procs[p].pc.DelBlank?
    ensures var pc, op := s.procs[p].pc, s.procs[p].op;
      && Open(s.h, s.procs[p].ticket, op) && CallOkToMake(op) && (op.Delete? || (op.Store? && op.flag != DB_INSERT))
      && FoundAt(s, op, pc.i, pc.ptroff, pc.o, pc.b) && pc.saveptr == NextAt(s.g.chain[List(op)], pc.i + 1)
      && pc.ptroff in s.img.ptr && pc.saveptr <= PTR_MAX && pc.o <= PTR_MAX && pc.ptroff !in s.bypass
      && op.key !in s.gap && pc.b.datlen > 0
  {
    hide Files, Linearizable, Duties, LockTable, Exclusive, CallOkToMake, Open, MapOk, DistinctTickets, Inv, List;
    LocalOf(s, p);
    var pc, op := s.procs[p].pc, s.procs[p].op;
    ReadListLoc(s, p, List(op), pc.i);
    ReadListLoc(s, p, List(op), pc.i + 1);
    NotInGap(s, p);
    FoundKey(s, op, pc.i, pc.ptroff, pc.o, pc.b);
  }

  lemma FilesDelBlank(s: Sys, s': Sys, p: nat, op: Op, i: nat, ptroff: nat, o: nat, b: Body, v: nat)
    requires Files(s) && FoundAt(s, op, i, ptroff, o, b) && v == NextAt(s.g.chain[List(op)], i + 1)
    requires ptroff in s.img.ptr && v <= PTR_MAX && ptroff !in s.bypass && b.datlen > 0
    requires s'.img == PutExt(s.img, b.datoff, Blanks(b.datlen - 1)) && s'.pend == s.pend
    requires s'.g == Remove(s.g, List(op), i, p, op.key) && s'.bypass == s.bypass[ptroff := v]
    ensures Files(s')
  {
    hide RecordsTile, ExtentsTile, PointersOk, LinesOk, Struct, ExtentsOwned, Remove, List;
    PutExtWf(s.img, b.datoff, Blanks(b.datlen - 1));
    ListIs(op);
    RemoveStruct(View(s), s.img.body, s.g, List(op), i, p);
    assert View(s') == View(s)[ptroff := v];
    ExtentsOwnedKept(s, s');
  }

  lemma OwnDelBlank(s: Sys, s': Sys, p: nat)
    requires Inv(s) && p < |s.procs| && StepDelBlank(s, s', p)
    requires var pc, op := s.procs[p].pc, s.procs[p].op;
      && FoundAt(s, op, pc.i, pc.ptroff, pc.o, pc.b) && pc.o in s.g.home && s.g.home[pc.o].OnList?
      && Writing(op) && pc.ptroff !in s.bypass
    requires forall q :: 0 <= q < |s.procs| && q != p && InCall(s.procs[q].pc) ==> SameHistory(s, s', q)
    ensures |s.g.chain| == NLISTS && Own(s, s', p)
  {
    hide InCall, SameHistory, Inv, Files, TakeEffect, List, Linearizable, WritesList, OwnLoc, FoundAt, MapOk, Local;
    LocalOf(s, p);
    var pc, op := s.procs[p].pc, s.procs[p].op;
    FoundAtMeans(s, op, pc.i, pc.ptroff, pc.o, pc.b);
    ExtentApart(s, p, pc.o);
    ListIs(op);
    assert WritesList(s, p, List(op)) by { WritesOwn(s, p); }
    assert OwnLoc(s, p, pc.ptroff) by { OwnListLoc(s, p, List(op), pc.ptroff); }
    assert OwnLists(s, s', p);
    assert OwnPtrs(s, s', p);
    assert OwnExtents(s, s', p);
    assert OwnKeys(s, s', p);
  }

  lemma WritesOwn(s: Sys, p: nat)
    requires p < |s.procs|
    ensures InChain(s.procs[p].pc) && Writing(s.procs[p].op) ==> WritesList(s, p, List(s.procs[p].op))
    ensures HasFree(s.procs[p].pc) ==> WritesList(s, p, 0)
  {
  }

  lemma OwnListLoc(s: Sys, p: nat, c: nat, l: nat)
    requires p < |s.procs| && |s.g.chain| == NLISTS && c < NLISTS && WritesList(s, p, c)
    requires OnListLoc(s, c, l)
    ensures OwnLoc(s, p, l)
  {
  }

  lemma DelBlankMap(s: Sys, s': Sys, p: nat, op: Op, i: nat, ptroff: nat, o: nat, b: Body)
    requires Files(s) && MapOk(s) && FoundAt(s, op, i, ptroff, o, b) && op.key in s.g.loc && s.g.loc[op.key] == o
    requires op.key !in s.gap && b.datlen > 0 && !op.Fetch?
    requires s'.img == PutExt(s.img, b.datoff, Blanks(b.datlen - 1))
    requires s'.g == Remove(s.g, List(op), i, p, op.key)
    requires s'.gap == if op.Store? then s.gap[op.key := p] else s.gap
    requires M(s') == if op.Store? then M(s) else M(s) - {op.key}
    ensures MapOk(s')
  {
    hide Files, ApplyAll, HasValue, Value, M, List, Remove, PutExt, FoundAt;
    FoundAtMeans(s, op, i, ptroff, o, b);
    DelBlankLoc(s, s', p, op, i);
    forall k | k in s'.g.loc
      ensures HasValue(s'.img, s'.g, k) && Value(s'.img, s'.g, k) == Value(s.img, s.g, k)
    {
      DelBlankValue(s, s', p, op, i, ptroff, o, b, k);
    }
  }

  lemma DelBlankLoc(s: Sys, s': Sys, p: nat, op: Op, i: nat)
    requires |s.g.chain| == NLISTS && i < |s.g.chain[List(op)]|
    requires s'.g == Remove(s.g, List(op), i, p, op.key)
    ensures s'.g.loc == s.g.loc - {op.key}
  {
    ListIs(op);
  }

  lemma DelBlankValue(s: Sys, s': Sys, p: nat, op: Op, i: nat, ptroff: nat, o: nat, b: Body, k: string)
    requires Files(s) && MapOk(s) && FoundAt(s, op, i, ptroff, o, b) && op.key in s.g.loc && s.g.loc[op.key] == o
    requires b.datlen > 0 && s'.img == PutExt(s.img, b.datoff, Blanks(b.datlen - 1))
    requires s'.g == Remove(s.g, List(op), i, p, op.key) && k in s'.g.loc && k in s.g.loc && k != op.key
    ensures HasValue(s'.img, s'.g, k) && HasValue(s.img, s.g, k) && Value(s'.img, s'.g, k) == Value(s.img, s.g, k)
  {
    hide RecordsTile, ExtentsTile, PointersOk, LinesOk, AllLinked, Placed, ExtentsOwned, ApplyAll, HasValue, Value, M, List,
      PutExt, MapOk;
    ListIs(op);
    FoundAtMeans(s, op, i, ptroff, o, b);
    OverwriteValue(s.img, s.g, op.key, Blanks(b.datlen - 1), k);
    ValueLoc(s'.img, s.g, s'.g, k);
  }

  lemma ValueLoc(img: Image, g: Lists, g': Lists, k: string)
    requires k in g.loc && k in g'.loc && g.loc[k] == g'.loc[k]
    ensures HasValue(img, g, k) == HasValue(img, g', k)
    ensures HasValue(img, g, k) ==> Value(img, g, k) == Value(img, g', k)
  {
  }

  lemma LocalDelReadFree(s: Sys, s': Sys, p: nat)
    requires p < |s.procs| && StepDelBlank(s, s', p)
    requires var pc, op := s.procs[p].pc, s.procs[p].op;
      && FoundAt(s, op, pc.i, pc.ptroff, pc.o, pc.b) && CallOkToMake(op) && pc.saveptr <= PTR_MAX
      && pc.ptroff in s.img.ptr && pc.o <= PTR_MAX && |s'.g.chain| == NLISTS
      && (op.Delete? || (op.Store? && op.flag != DB_INSERT))
      && (op.Store? ==> Open(s'.h, s.procs[p].ticket, op))
      && (op.Delete? ==> Effective(s'.h, s.procs[p].ticket, Code(0, NoErr)))
    ensures Local(s', p)
  {
    hide Open, Effective, TakeEffect, CallOkToMake, List;
    var pc, op := s.procs[p].pc, s.procs[p].op;
    ListIs(op);
    var t := s'.g.chain[List(op)];
    assert OnListLoc(s', List(op), pc.ptroff) by {
      if pc.i > 0 { assert t[pc.i - 1] == pc.ptroff; }
    }
  }

  lemma KeepDelBlank(s: Sys, s': Sys, p: nat)
    requires Inv(s) && p < |s.procs| && StepDelBlank(s, s', p)
    ensures Inv(s')
  {
    hide Local, Files, Linearizable, Duties, LockTable, Exclusive, CallOkToMake, ApplyAll, Open, Effective,
      MayGap, TakeEffect, MapOk, FoundAt, DistinctTickets, SameLocks, Remove, List, InCall;
    LocalOf(s, p);
    DelBlankFacts(s, p);
    var pc, op := s.procs[p].pc, s.procs[p].op;
    FoundKey(s, op, pc.i, pc.ptroff, pc.o, pc.b);
    DelBlankShared(s, s', p);
    DelInCall(pc);
    OthersHistory(s, s', p);
    OwnDelBlank(s, s', p);
    ChainCount(s');
    LocalDelReadFree(s, s', p);
    Finish(s, s', p);
  }

  lemma DelInCall(pc: Pc)
    requires pc.DelBlank? || pc.Link?
    ensures InCall(pc)
  {
  }

  lemma DelBlankShared(s: Sys, s': Sys, p: nat)
    requires Inv(s) && p < |s.procs| && StepDelBlank(s, s', p)
    ensures Shared(s')
  {
    hide Local, Files, Linearizable, Duties, LockTable, Exclusive, CallOkToMake, ApplyAll, Open, Effective,
      TakeEffect, MapOk, FoundAt, DistinctTickets, Remove, List;
    LocalOf(s, p);
    DelBlankFacts(s, p);
    var pc, op := s.procs[p].pc, s.procs[p].op;
    FoundKey(s, op, pc.i, pc.ptroff, pc.o, pc.b);
    OthersHistory(s, s', p);
    FilesDelBlank(s, s', p, op, pc.i, pc.ptroff, pc.o, pc.b, pc.saveptr);
    DelBlankMap(s, s', p, op, pc.i, pc.ptroff, pc.o, pc.b);
    LocksKept(s, s', p, s'.procs[p]);
    TicketsKept(s, s', p);
    FoundAtMeans(s, op, pc.i, pc.ptroff, pc.o, pc.b);
    DelBlankDuties(s, s', p);
  }

  lemma DelBlankDuties(s: Sys, s': Sys, p: nat)
    requires Duties(s) && p < |s.procs| && StepDelBlank(s, s', p)
    requires s.procs[p].pc.o == s.g.chain[List(s.procs[p].op)][s.procs[p].pc.i]
    ensures Duties(s')
  {
    hide TakeEffect, List;
    forall l | l in s'.bypass
      ensures BypassedBy(s', l)
    {
      if l == s.procs[p].pc.ptroff {
        assert BypassOf(s'.procs[p].pc) == Some(l);
      } else {
        assert BypassedBy(s, l);
        var q :| 0 <= q < |s.procs| && BypassOf(s.procs[q].pc) == Some(l);
        assert BypassOf(s'.procs[q].pc) == Some(l);
      }
    }
  }

  /** p holds record o; the view of the lists does not mention it. */
  lemma HeldView(s: Sys, p: nat, o: nat, v: nat)
    requires Inv(s) && o in s.g.home && s.g.home[o] == Held(p) && o in s.img.body
    ensures |s.g.chain| == NLISTS && o !in s.bypass && o in s.img.ptr && o in View(s) && View(s)[o] == s.img.ptr[o]
    ensures (s.img.ptr[o := v]) + s.bypass == View(s)[o := v]
    ensures forall k :: k in s.g.loc ==> s.g.loc[k] != o
    ensures forall k :: k in s.g.loc ==> HasValue(s.img, s.g, k)
  {
    hide Local, LockTable, Exclusive, Duties, Linearizable, DistinctTickets, Wf, Placed, Linked, ExtentsOwned, List;
    HeldNotBypassed(s, o);
    assert o in s.img.ptr by { WfPtr(s.img, o); }
    forall k | k in s.g.loc
      ensures s.g.loc[k] != o
    {
      assert LiveAt(s.img.body, s.g, s.g.loc[k]);
    }
  }

  lemma WfPtr(img: Image, o: nat)
    requires Wf(img) && o in img.body
    ensures o in img.ptr && BodyOk(img.body[o]) && o >= REC_OFF && o < img.idxEnd
    ensures img.body[o].datoff in img.ext && |img.ext[img.body[o].datoff]| + 1 == img.body[o].datlen
  {
    assert RecInFile(img.body, img.idxEnd, o);
  }

  lemma MapKept(s: Sys, s': Sys)
    requires MapOk(s) && M(s') == M(s) && s'.g.loc == s.g.loc && s'.gap == s.gap
    requires forall k :: k in s.g.loc ==>
      HasValue(s'.img, s'.g, k) && Value(s'.img, s'.g, k) == Value(s.img, s.g, k)
    ensures MapOk(s')
  {
    hide HasValue, Value, M;
  }

  /** Rewriting a record p holds. */
  lemma FilesPutRec(s: Sys, s': Sys, p: nat, o: nat, v: nat, b: Body)
    requires Inv(s) && o in s.g.home && s.g.home[o] == Held(p) && o in s.img.body && v <= PTR_MAX
    requires BodyOk(b) && SameShape(s.img.body[o], b)
    requires s'.img == PutRec(s.img, o, v, b) && s'.g == s.g && s'.bypass == s.bypass && s'.pend == s.pend
    ensures Files(s')
  {
    hide Local, LockTable, Exclusive, Duties, Linearizable, DistinctTickets, Wf, Struct, ExtentsOwned, BodyOk, MapOk;
    HeldView(s, p, o, v);
    PutRecWf(s.img, o, v, b);
    HeldRewrite(View(s), s.img.body, s.g, o, v, b);
    assert View(s') == View(s)[o := v];
    ExtentsRewritten(s, s', o, b);
  }

  lemma ExtentsRewritten(s: Sys, s': Sys, o: nat, b: Body)
    requires ExtentsOwned(s) && o in s.img.body && b.datoff == s.img.body[o].datoff
    requires s'.img.body == s.img.body[o := b] && s'.img.ext == s.img.ext && s'.pend == s.pend
    ensures ExtentsOwned(s')
  {
    forall d | d in s'.img.ext
      ensures ExtUsed(s'.img.body, d) || d in s'.pend
    {
      assert ExtUsed(s.img.body, d) || d in s.pend;
      if ExtUsed(s.img.body, d) {
        var q :| q in s.img.body && s.img.body[q].datoff == d;
        assert s'.img.body[q].datoff == d;
      }
    }
  }

  lemma MapPutRec(s: Sys, s': Sys, p: nat, o: nat, v: nat, b: Body)
    requires Inv(s) && o in s.g.home && s.g.home[o] == Held(p) && o in s.img.body
    requires s'.img == PutRec(s.img, o, v, b) && s'.g == s.g && s'.gap == s.gap && s'.h == s.h
    ensures MapOk(s')
  {
    hide Local, LockTable, Exclusive, Duties, Linearizable, DistinctTickets, Files, ApplyAll;
    HeldView(s, p, o, v);
    MapKept(s, s');
  }

  lemma OwnPutRec(s: Sys, s': Sys, p: nat, o: nat, v: nat, b: Body, pr: Proc)
    requires p < |s.procs| && |s.g.chain| == NLISTS && o in s.g.home && s.g.home[o] == Held(p)
    requires s'.img == PutRec(s.img, o, v, b) && s'.procs == s.procs[p := pr]
    requires s'.g == s.g && s'.bypass == s.bypass && s'.gap == s.gap && s'.pend == s.pend && s'.h == s.h
    ensures Own(s, s', p)
  {
    hide WritesList, InChain, HasFree, InCall, Open, Effective;
    assert OwnLoc(s, p, o);
    hide OwnLoc;
  }

  lemma KeepDelWriteIdx(s: Sys, s': Sys, p: nat)
    requires Inv(s) && p < |s.procs| && StepDelWriteIdx(s, s', p)
    ensures Inv(s')
  {
    hide Files, Linearizable, Duties, LockTable, Exclusive, CallOkToMake, ApplyAll, Open, Effective, MapOk,
      DistinctTickets, List, Inv, Local, BodyOk, BlankBody;
    LocalOf(s, p);
    var pc, op := s.procs[p].pc, s.procs[p].op;
    DelWriteIdxFacts(s, p);
    BlankBodyIs(pc.b);
    FilesPutRec(s, s', p, pc.o, pc.freeptr, BlankBody(pc.b));
    MapPutRec(s, s', p, pc.o, pc.freeptr, BlankBody(pc.b));
    OwnPutRec(s, s', p, pc.o, pc.freeptr, BlankBody(pc.b), s'.procs[p]);
    LocalDelWriteFree(s, s', p);
    SharedKept(s, s', p, s'.procs[p].pc);
    Finish(s, s', p);
  }

  /** Locks, duties, tickets and history when p moves on without locking or taking effect. */
  lemma SharedKept(s: Sys, s': Sys, p: nat, pc: Pc)
    requires p < |s.procs| && s'.procs == s.procs[p := s.procs[p].(pc := pc)]
    requires SameLocks(s.procs[p].pc, pc) && SameDuties(s.procs[p].op, s.procs[p].pc, pc)
    requires Inv(s) && s'.locks == s.locks && s'.h == s.h && Files(s') && MapOk(s')
    requires s'.g.home == s.g.home && s'.bypass == s.bypass && s'.gap == s.gap && s'.pend == s.pend
    ensures Shared(s')
  {
    hide Files, Linearizable, Duties, LockTable, Exclusive, MapOk, Local, SameLocks, HeldOf, BypassOf, PendOf, MayGap, InCall;
    LocksKept(s, s', p, s'.procs[p]);
    DutiesKept(s, s', p, s'.procs[p]);
    TicketsKept(s, s', p);
  }

  lemma DelWriteIdxFacts(s: Sys, p: nat)
    requires Inv(s) && p < |s.procs| && s.procs[p].pc.DelWriteIdx?
    ensures var pc := s.procs[p].pc;
      && pc.o in s.g.home && s.g.home[pc.o] == Held(p) && pc.o in s.img.body && s.img.body[pc.o] == pc.b
      && BodyOk(pc.b) && pc.freeptr <= PTR_MAX && |s.g.chain| == NLISTS
  {
    hide Linearizable, CallOkToMake, Open, Effective, MapOk, Inv, List, BypassAt, DelOpen, BodyOk, Struct, ExtentsOwned, Wf;
    LocalOf(s, p);
    WfPtr(s.img, s.procs[p].pc.o);
  }

  lemma LocalDelWriteFree(s: Sys, s': Sys, p: nat)
    requires p < |s.procs| && StepDelWriteIdx(s, s', p) && Local(s, p)
    ensures Local(s', p)
  {
    hide Open, Effective, CallOkToMake, List;
    BlankBodyIs(s.procs[p].pc.b);
    hide BlankBody;
  }

  /** A new image, lists and bypasses that differ only where p may write; nothing else differs. */
  lemma OwnLink(s: Sys, s': Sys, p: nat, pr: Proc, l: nat, v: nat)
    requires p < |s.procs| && |s.g.chain| == NLISTS && OwnLoc(s, p, l) && OwnLists(s, s', p)
    requires s'.img == SetPtr(s.img, l, v) && s'.procs == s.procs[p := pr] && s'.pend == s.pend
    requires s'.bypass == s.bypass || (l in s.bypass && s'.bypass == s.bypass - {l})
    requires OwnKeys(s, s', p)
    requires forall q :: 0 <= q < |s.procs| && q != p && InCall(s.procs[q].pc) ==> SameHistory(s, s', q)
    ensures Own(s, s', p)
  {
    hide OwnLoc, WritesList, InChain, HasFree, InCall, SameHistory, OwnLists, OwnKeys;
    assert OwnPtrs(s, s', p);
    assert OwnExtents(s, s', p);
  }

  lemma SameHistoryKept(s: Sys, s': Sys)
    requires s'.h == s.h
    ensures forall q :: 0 <= q < |s.procs| ==> SameHistory(s, s', q)
  {
    hide Open, Effective;
  }

  lemma KeepDelWriteFree(s: Sys, s': Sys, p: nat)
    requires Inv(s) && p < |s.procs| && StepDelWriteFree(s, s', p)
    ensures Inv(s')
  {
    hide Files, Linearizable, Duties, LockTable, Exclusive, MapOk, DistinctTickets, List, Inv, Local, Push, OwnLoc, OwnLists,
      OwnKeys, InCall, SameHistory;
    LocalOf(s, p);
    var pc := s.procs[p].pc;
    DelWriteFreeFacts(s, p);
    DelWriteFreeShared(s, s', p);
    SameHistoryKept(s, s');
    PushOwnLists(s, s', p, 0, pc.o, "") by { WritesOwn(s, p); }
    assert OwnLoc(s, p, FREE_OFF) by { WritesOwn(s, p); OwnListLoc(s, p, 0, FREE_OFF); }
    OwnLink(s, s', p, s'.procs[p], FREE_OFF, pc.o);
    LocalDelBypass(s, s', p);
    Finish(s, s', p);
  }

  lemma PushOwnLists(s: Sys, s': Sys, p: nat, c: nat, o: nat, key: string)
    requires p < |s.procs| && |s.g.chain| == NLISTS && c < NLISTS && WritesList(s, p, c)
    requires o in s.g.home && s.g.home[o] == Held(p) && s'.g == Push(s.g, c, o, key)
    ensures OwnLists(s, s', p)
    ensures c == 0 && s'.gap == s.gap ==> OwnKeys(s, s', p)
  {
    hide InChain, HasFree, List;
  }

  lemma DelWriteFreeFacts(s: Sys, p: nat)
    requires Inv(s) && p < |s.procs| && s.procs[p].pc.DelWriteFree?
    ensures var pc := s.procs[p].pc;
      && pc.o in s.g.home && s.g.home[pc.o] == Held(p) && pc.o in s.img.body && AllBlank(s.img.body[pc.o].key)
      && |s.g.chain| == NLISTS && pc.o in s.img.ptr && s.img.ptr[pc.o] == NextAt(s.g.chain[0], 0)
      && pc.o <= PTR_MAX && FREE_OFF in s.img.ptr && FREE_OFF !in s.bypass && HasFree(pc)
  {
    hide Linearizable, CallOkToMake, Open, Effective, MapOk, Inv, List, DelOpen, Files, AllBlank;
    LocalOf(s, p);
    var pc := s.procs[p].pc;
    BypassNotFree(s, s.procs[p].op, pc.ptroff, pc.saveptr);
    ReadListLoc(s, p, 0, 0);
  }

  lemma DelWriteFreeShared(s: Sys, s': Sys, p: nat)
    requires Inv(s) && p < |s.procs| && StepDelWriteFree(s, s', p)
    ensures Shared(s')
  {
    hide Files, Linearizable, Duties, LockTable, Exclusive, MapOk, List, Inv, Local, Push, AllBlank, InCall, HeldOf, BypassOf,
      PendOf, MayGap, SameLocks;
    LocalOf(s, p);
    var pc := s.procs[p].pc;
    ShareEasy(s);
    DelWriteFreeFacts(s, p);
    FilesDelWriteFree(s, s', p, pc.o);
    MapSetPtr(s, s') by { PushLoc(s.g, pc.o); }
    LocksKept(s, s', p, s'.procs[p]) by { DelWriteFreePc(s.procs[p].op, pc, s'.procs[p].pc); }
    DelWriteFreeDuties(s, s', p);
    TicketsKept(s, s', p) by { DelWriteFreePc(s.procs[p].op, pc, s'.procs[p].pc); }
  }

  lemma PushLoc(g: Lists, o: nat)
    requires |g.chain| > 0
    ensures Push(g, 0, o, "").loc == g.loc && Push(g, 0, o, "").home == g.home[o := OnList(0)]
  {
  }

  lemma ShareEasy(s: Sys)
    requires Inv(s)
    ensures LockTable(s) && Exclusive(s) && Duties(s) && DistinctTickets(s) && Linearizable(s.h) && Files(s) && MapOk(s)
  {
    hide LockTable, Exclusive, Duties, DistinctTickets, Linearizable, Files, MapOk, Local;
  }

  lemma DelWriteFreePc(op: Op, pc: Pc, pc': Pc)
    requires pc.DelWriteFree? && pc' == DelBypass(pc.ptroff, pc.saveptr)
    ensures SameLocks(pc, pc') && InCall(pc) && InCall(pc') && BypassOf(pc') == BypassOf(pc) && PendOf(pc') == PendOf(pc)
    ensures MayGap(pc) && MayGap(pc') && HeldOf(pc) == Some(pc.o)
  {
  }

  lemma MapSetPtr(s: Sys, s': Sys)
    requires MapOk(s) && s'.img.body == s.img.body && s'.img.ext == s.img.ext && s'.g.loc == s.g.loc
    requires s'.gap == s.gap && s'.h == s.h
    ensures MapOk(s')
  {
    hide ApplyAll;
    MapKept(s, s');
  }

  lemma FilesDelWriteFree(s: Sys, s': Sys, p: nat, o: nat)
    requires Inv(s) && o in s.g.home && s.g.home[o] == Held(p) && o in s.img.body && AllBlank(s.img.body[o].key)
    requires |s.g.chain| == NLISTS && o in s.img.ptr && s.img.ptr[o] == NextAt(s.g.chain[0], 0)
    requires o <= PTR_MAX && FREE_OFF in s.img.ptr && FREE_OFF !in s.bypass
    requires s'.img == SetPtr(s.img, FREE_OFF, o) && s'.g == Push(s.g, 0, o, "") && s'.bypass == s.bypass && s'.pend == s.pend
    ensures Files(s')
  {
    hide Inv, Wf, Struct, ExtentsOwned, AllBlank, View;
    ShareEasy(s);
    HeldView(s, p, o, 0);
    PushStruct(View(s), s.img.body, s.g, 0, o);
    assert Push(s.g, 0, o, "") == Push(s.g, 0, o, s.img.body[o].key);
    FilesSetPtr(s, s', FREE_OFF, o);
  }

  lemma DelWriteFreeDuties(s: Sys, s': Sys, p: nat)
    requires Inv(s) && p < |s.procs| && StepDelWriteFree(s, s', p)
    requires s.procs[p].pc.o in s.g.home
    ensures Duties(s')
  {
    hide Files, Linearizable, LockTable, Exclusive, MapOk, List, Local, HeldOf, BypassOf, PendOf, MayGap, Push, DistinctTickets;
    var pc := s.procs[p].pc;
    DelWriteFreePc(s.procs[p].op, pc, s'.procs[p].pc);
    PushLoc(s.g, pc.o);
    BypassesKept(s, s', p);
  }

  lemma BypassesKept(s: Sys, s': Sys, p: nat)
    requires p < |s.procs| && |s'.procs| == |s.procs|
    requires forall q :: 0 <= q < |s.procs| && q != p ==> s'.procs[q] == s.procs[q]
    requires BypassOf(s.procs[p].pc) == None || BypassOf(s'.procs[p].pc) == BypassOf(s.procs[p].pc)
    ensures forall l: nat {:trigger BypassedBy(s', l)} :: BypassedBy(s, l) ==> BypassedBy(s', l)
  {
    hide BypassOf;
    forall l: nat | BypassedBy(s, l)
      ensures BypassedBy(s', l)
    {
      var q :| 0 <= q < |s.procs| && BypassOf(s.procs[q].pc) == Some(l);
      assert BypassOf(s'.procs[q].pc) == Some(l);
    }
  }

  lemma LocalDelBypass(s: Sys, s': Sys, p: nat)
    requires p < |s.procs| && StepDelWriteFree(s, s', p) && Local(s, p) && |s.g.chain| == NLISTS
    ensures Local(s', p)
  {
    hide Open, Effective, CallOkToMake, List;
    ListIs(s.procs[p].op);
  }

  /** The bypass is written: the chain no longer needs it in the view. */
  lemma KeepDelBypass(s: Sys, s': Sys, p: nat)
    requires Inv(s) && p < |s.procs| && StepDelBypass(s, s', p)
    ensures Inv(s')
  {
    hide Files, Linearizable, Duties, LockTable, Exclusive, MapOk, DistinctTickets, List, Inv, Local, OwnLoc, OwnLists, OwnKeys,
      InCall, SameHistory, BypassAt;
    LocalOf(s, p);
    ShareEasy(s);
    var pc, op := s.procs[p].pc, s.procs[p].op;
    DelBypassFacts(s, p);
    BypassAtMeans(s, op, pc.ptroff, pc.saveptr);
    SameHistoryKept(s, s');
    DelBypassLists(s, s', p);
    ListIs(op);
    assert OwnLoc(s, p, pc.ptroff) by { WritesOwn(s, p); OwnListLoc(s, p, List(op), pc.ptroff); }
    OwnLink(s, s', p, s'.procs[p], pc.ptroff, pc.saveptr);
    FilesDelBypass(s, s', op, pc.ptroff, pc.saveptr);
    MapSetPtr(s, s');
    DelBypassShared(s, s', p);
    LocalDelDrop(s, s', p);
    Finish(s, s', p);
  }

  lemma DelBypassFacts(s: Sys, p: nat)
    requires Inv(s) && p < |s.procs| && s.procs[p].pc.DelBypass?
    ensures BypassAt(s, s.procs[p].op, s.procs[p].pc.ptroff, s.procs[p].pc.saveptr)
    ensures InChain(s.procs[p].pc) && Writing(s.procs[p].op) && InCall(s.procs[p].pc)
  {
    hide Linearizable, CallOkToMake, Open, Effective, MapOk, Inv, List, Files, BypassAt;
    LocalOf(s, p);
  }

  lemma BypassAtMeans(s: Sys, op: Op, l: nat, v: nat)
    requires BypassAt(s, op, l, v)
    ensures |s.g.chain| == NLISTS && l in s.bypass && s.bypass[l] == v && OnListLoc(s, List(op), l) && l in s.img.ptr
    ensures v <= PTR_MAX
  {
  }

  lemma DelBypassLists(s: Sys, s': Sys, p: nat)
    requires p < |s.procs| && |s.g.chain| == NLISTS && s'.g == s.g && s'.gap == s.gap
    ensures OwnLists(s, s', p) && OwnKeys(s, s', p)
  {
  }

  lemma FilesDelBypass(s: Sys, s': Sys, op: Op, l: nat, v: nat)
    requires Files(s) && BypassAt(s, op, l, v)
    requires s'.img == SetPtr(s.img, l, v) && s'.g == s.g && s'.bypass == s.bypass - {l} && s'.pend == s.pend
    ensures Files(s')
  {
    hide RecordsTile, ExtentsTile, LinesOk, RecordsOwnExtents, Struct, ExtentsOwned;
    assert View(s') == View(s);
    ExtentsOwnedKept(s, s');
  }

  lemma DelBypassShared(s: Sys, s': Sys, p: nat)
    requires Inv(s) && p < |s.procs| && StepDelBypass(s, s', p) && Files(s') && MapOk(s')
    ensures Shared(s')
  {
    hide Files, Linearizable, LockTable, Exclusive, MapOk, Inv, Local, SameLocks, InCall, HeldOf, PendOf, MayGap;
    ShareEasy(s);
    var pc := s.procs[p].pc;
    DelBypassPc(pc);
    LocksKept(s, s', p, s'.procs[p]);
    TicketsKept(s, s', p);
    forall l | l in s'.bypass
      ensures BypassedBy(s', l)
    {
      assert BypassedBy(s, l);
      var q :| 0 <= q < |s.procs| && BypassOf(s.procs[q].pc) == Some(l);
      assert BypassOf(s'.procs[q].pc) == Some(l);
    }
  }

  lemma DelBypassPc(pc: Pc)
    requires pc.DelBypass?
    ensures SameLocks(pc, DelDropFree) && InCall(pc) && HeldOf(pc) == HeldOf(DelDropFree) && PendOf(pc) == PendOf(DelDropFree)
    ensures MayGap(DelDropFree) && HasFree(pc)
  {
  }

  lemma LocalDelDrop(s: Sys, s': Sys, p: nat)
    requires p < |s.procs| && StepDelBypass(s, s', p) && Local(s, p)
    ensures Local(s', p)
  {
    hide Open, Effective, CallOkToMake, List;
  }

  // ---- reusing a free record ------------------------------------------------

  lemma KeepFreeTake(s: Sys, s': Sys, p: nat)
    requires Inv(s) && p < |s.procs| && StepFreeTake(s, s', p)
    ensures Inv(s')
  {
    hide Files, Linearizable, Duties, LockTable, Exclusive, MapOk, DistinctTickets, List, Inv, Local, OwnLoc, OwnLists, OwnKeys,
      InCall, SameHistory, Remove;
    LocalOf(s, p);
    ShareEasy(s);
    var pc, op := s.procs[p].pc, s.procs[p].op;
    FreeTakeFacts(s, p);
    SameHistoryKept(s, s');
    FreeTakeLists(s, s', p);
    assert OwnLoc(s, p, pc.saveoff) by { WritesOwn(s, p); OwnListLoc(s, p, 0, pc.saveoff); }
    OwnLink(s, s', p, s'.procs[p], pc.saveoff, pc.next);
    FilesFreeTake(s, s', p, pc.j, pc.saveoff, pc.next);
    RemoveLoc(s.g, pc.j, p);
    MapSetPtr(s, s');
    FreeTakeShared(s, s', p);
    LocalFreeHit(s, s', p);
    Finish(s, s', p);
  }

  lemma RemoveLoc(g: Lists, j: nat, p: nat)
    requires |g.chain| > 0 && j < |g.chain[0]|
    ensures Remove(g, 0, j, p, "").loc == g.loc
    ensures Remove(g, 0, j, p, "").home == g.home[g.chain[0][j] := Held(p)]
  {
  }

  lemma FreeTakeFacts(s: Sys, p: nat)
    requires Inv(s) && p < |s.procs| && s.procs[p].pc.FreeTake?
    ensures var pc, op := s.procs[p].pc, s.procs[p].op;
      && |s.g.chain| == NLISTS && pc.j < |s.g.chain[0]| && pc.o == s.g.chain[0][pc.j]
      && pc.saveoff == LocAt(Head(0), s.g.chain[0], pc.j) && pc.next == NextAt(s.g.chain[0], pc.j + 1)
      && pc.saveoff in s.img.ptr && pc.saveoff !in s.bypass && pc.next <= PTR_MAX && pc.o <= PTR_MAX
      && HasFree(pc) && OnListLoc(s, 0, pc.saveoff) && pc.o in s.g.home && s.g.home[pc.o] == OnList(0)
  {
    hide Linearizable, CallOkToMake, Open, Effective, MapOk, Inv, List, Inserting, Reusable, Wf, Keyed, Linked, ExtentsOwned;
    LocalOf(s, p);
    var pc := s.procs[p].pc;
    ReadListLoc(s, p, 0, pc.j);
    ReadListLoc(s, p, 0, pc.j + 1);
    assert OnlyHome(s.g.chain[0], s.g.home, 0);
  }

  lemma FreeTakeLists(s: Sys, s': Sys, p: nat)
    requires p < |s.procs| && |s.g.chain| == NLISTS && StepFreeTake(s, s', p)
    requires s.procs[p].pc.j < |s.g.chain[0]| && s.g.chain[0][s.procs[p].pc.j] in s.g.home
    requires s.g.home[s.g.chain[0][s.procs[p].pc.j]] == OnList(0)
    ensures OwnLists(s, s', p) && OwnKeys(s, s', p)
  {
    hide InChain, List;
  }

  lemma FilesFreeTake(s: Sys, s': Sys, p: nat, j: nat, l: nat, v: nat)
    requires Files(s) && |s.g.chain| == NLISTS && j < |s.g.chain[0]|
    requires l == LocAt(Head(0), s.g.chain[0], j) && v == NextAt(s.g.chain[0], j + 1)
    requires l in s.img.ptr && l !in s.bypass && v <= PTR_MAX
    requires s'.img == SetPtr(s.img, l, v) && s'.g == Remove(s.g, 0, j, p, "") && s'.bypass == s.bypass && s'.pend == s.pend
    ensures Files(s')
  {
    hide Wf, Struct, ExtentsOwned, View;
    RemoveStruct(View(s), s.img.body, s.g, 0, j, p);
    assert Remove(s.g, 0, j, p, "") == Remove(s.g, 0, j, p, s.img.body[s.g.chain[0][j]].key);
    FilesSetPtr(s, s', l, v);
  }

  lemma FreeTakeShared(s: Sys, s': Sys, p: nat)
    requires Inv(s) && p < |s.procs| && StepFreeTake(s, s', p) && Files(s') && MapOk(s')
    requires s.procs[p].pc.o == s.g.chain[0][s.procs[p].pc.j]
    requires s.procs[p].pc.o in s.g.home && s.g.home[s.procs[p].pc.o] == OnList(0)
    ensures Shared(s')
  {
    hide Files, Linearizable, LockTable, Exclusive, MapOk, Inv, Local, SameLocks, InCall, PendOf, MayGap, HeldOf, BypassOf,
      Remove;
    ShareEasy(s);
    var pc, pc' := s.procs[p].pc, s'.procs[p].pc;
    FreeTakePc(pc);
    LocksKept(s, s', p, s'.procs[p]);
    TicketsKept(s, s', p);
    BypassesKept(s, s', p);
    RemoveLoc(s.g, pc.j, p);
  }

  lemma FreeTakePc(pc: Pc)
    requires pc.FreeTake?
    ensures var pc' := FreeHit(pc.ptrval, pc.o, pc.b);
      SameLocks(pc, pc') && InCall(pc) && MayGap(pc) && MayGap(pc') && HeldOf(pc') == Some(pc.o) && HeldOf(pc) == None
      && PendOf(pc) == None == PendOf(pc') && BypassOf(pc) == None == BypassOf(pc')
  {
  }

  lemma LocalFreeHit(s: Sys, s': Sys, p: nat)
    requires p < |s.procs| && StepFreeTake(s, s', p) && Local(s, p) && s.procs[p].pc.o <= PTR_MAX
    ensures Local(s', p)
  {
    hide Open, Effective, CallOkToMake, List, AllBlank;
    ListIs(s.procs[p].op);
  }

  lemma ReuseFacts(s: Sys, p: nat)
    requires Inv(s) && p < |s.procs| && (s.procs[p].pc.ReuseDat? || s.procs[p].pc.ReuseIdx?)
    ensures var pc, op := s.procs[p].pc, s.procs[p].op;
      && |s.g.chain| == NLISTS && pc.o in s.g.home && s.g.home[pc.o] == Held(p)
      && pc.o in s.img.body && s.img.body[pc.o] == pc.b && BodyOk(pc.b) && Reusable(op, pc.b)
      && pc.ptrval <= PTR_MAX && ':' !in op.key
  {
    hide Linearizable, Open, Effective, MapOk, Inv, List, StoreOpen, Struct, ExtentsOwned, BodyOk, Wf;
    LocalOf(s, p);
    WfPtr(s.img, s.procs[p].pc.o);
  }

  lemma KeepReuseDat(s: Sys, s': Sys, p: nat)
    requires Inv(s) && p < |s.procs| && StepReuseDat(s, s', p)
    ensures Inv(s')
  {
    hide Files, Linearizable, Duties, LockTable, Exclusive, MapOk, DistinctTickets, List, Inv, Local, InCall, SameHistory, BodyOk,
      ApplyAll;
    LocalOf(s, p);
    ShareEasy(s);
    var pc, op := s.procs[p].pc, s.procs[p].op;
    ReuseFacts(s, p);
    SameHistoryKept(s, s');
    OwnPutExt(s, s', p, pc.o, op.data, s'.procs[p]);
    FilesPutExt(s, s', pc.o, op.data);
    MapPutHeldExt(s, s', p, pc.o, op.data);
    ReuseDatPc(op, pc);
    SharedKept(s, s', p, s'.procs[p].pc);
    LocalReuseIdx(s, s', p);
    Finish(s, s', p);
  }

  lemma ReuseDatPc(op: Op, pc: Pc)
    requires pc.ReuseDat?
    ensures var pc' := ReuseIdx(pc.ptrval, pc.o, pc.b); SameLocks(pc, pc') && SameDuties(op, pc, pc')
  {
  }

  lemma MapPutHeldExt(s: Sys, s': Sys, p: nat, o: nat, data: string)
    requires Inv(s) && o in s.g.home && s.g.home[o] == Held(p) && o in s.img.body
    requires s'.img == PutExt(s.img, s.img.body[o].datoff, data) && s'.g == s.g && s'.gap == s.gap && s'.h == s.h
    ensures MapOk(s')
  {
    hide Local, LockTable, Exclusive, Duties, Linearizable, DistinctTickets, Files, ApplyAll;
    HeldView(s, p, o, 0);
    OwnExtentsOf(s);
    MapKept(s, s');
  }

  lemma OwnExtentsOf(s: Sys)
    requires Inv(s)
    ensures RecordsOwnExtents(s.img.body, s.img.ext)
  {
    hide Local, LockTable, Exclusive, Duties, Linearizable, DistinctTickets, MapOk, RecordsOwnExtents, RecordsTile, ExtentsTile,
      Struct, ExtentsOwned;
  }

  lemma LocalReuseIdx(s: Sys, s': Sys, p: nat)
    requires p < |s.procs| && StepReuseDat(s, s', p) && Local(s, p)
    ensures Local(s', p)
  {
    hide Open, Effective, CallOkToMake, List;
  }

  lemma KeepReuseIdx(s: Sys, s': Sys, p: nat)
    requires Inv(s) && p < |s.procs| && StepReuseIdx(s, s', p)
    ensures Inv(s')
  {
    hide Files, Linearizable, Duties, LockTable, Exclusive, MapOk, DistinctTickets, List, Inv, Local, BodyOk, LineLen;
    LocalOf(s, p);
    ShareEasy(s);
    var pc, op := s.procs[p].pc, s.procs[p].op;
    ReuseFacts(s, p);
    SameShapeSize(pc.b, op.key);
    var b' := MakeBody(op.key, pc.b.datoff, pc.b.datlen);
    FilesPutRec(s, s', p, pc.o, pc.ptrval, b');
    MapPutRec(s, s', p, pc.o, pc.ptrval, b');
    OwnPutRec(s, s', p, pc.o, pc.ptrval, b', s'.procs[p]);
    ReuseIdxPc(op, pc);
    SharedKept(s, s', p, s'.procs[p].pc);
    WfPtrIn(s, pc.o);
    LocalLinkReuse(s, s', p);
    Finish(s, s', p);
  }

  lemma WfPtrIn(s: Sys, o: nat)
    requires Files(s) && o in s.img.body
    ensures o in s.img.ptr
  {
    hide Wf, Struct, ExtentsOwned;
    WfPtr(s.img, o);
  }

  lemma ReuseIdxPc(op: Op, pc: Pc)
    requires pc.ReuseIdx?
    ensures SameLocks(pc, Link(pc.o)) && SameDuties(op, pc, Link(pc.o))
  {
  }

  lemma LocalLinkReuse(s: Sys, s': Sys, p: nat)
    requires p < |s.procs| && StepReuseIdx(s, s', p) && Local(s, p)
    ensures Local(s', p)
  {
    hide Open, Effective, CallOkToMake, List, LineLen;
  }

  // ---- appending ------------------------------------------------------------

  lemma AppFacts(s: Sys, p: nat)
    requires Inv(s) && p < |s.procs| && (s.procs[p].pc.AppDat? || s.procs[p].pc.AppIdx?)
    ensures var pc, op := s.procs[p].pc, s.procs[p].op;
      && |s.g.chain| == NLISTS && CallOkToMake(op) && pc.ptrval <= PTR_MAX && InCall(pc)
      && (pc.AppIdx? ==> PendingExt(s, p, op, pc.d))
  {
    hide Linearizable, Open, MapOk, Inv, List, StoreOpen, Files, PendingExt, CallOkToMake;
    LocalOf(s, p);
  }

  lemma KeepAppDat(s: Sys, s': Sys, p: nat)
    requires Inv(s) && p < |s.procs| && StepAppDat(s, s', p)
    ensures Inv(s')
  {
    hide Files, Linearizable, Duties, LockTable, Exclusive, MapOk, DistinctTickets, List, Inv, Local, InCall, SameHistory, ApplyAll;
    LocalOf(s, p);
    ShareEasy(s);
    var pc, op := s.procs[p].pc, s.procs[p].op;
    AppFacts(s, p);
    SameHistoryKept(s, s');
    FilesAppDat(s, s', p, op.data);
    OwnAppDat(s, s', p);
    MapAppDat(s, s', op.data);
    AppDatShared(s, s', p);
    LocalAppDropDat(s, s', p);
    Finish(s, s', p);
  }

  lemma FilesAppDat(s: Sys, s': Sys, p: nat, data: string)
    requires Files(s) && DATLEN_MIN <= |data| + 1 <= DATLEN_MAX
    requires s'.img == AppendExt(s.img, data) && s'.g == s.g && s'.bypass == s.bypass
    requires s'.pend == s.pend[s.img.datEnd := p]
    ensures Files(s') && s.img.datEnd !in s.img.ext && s.img.datEnd !in s.pend
  {
    hide RecordsTile, ExtentsTile, PointersOk, LinesOk, Struct;
    AppendExtWf(s.img, data);
    forall d | d in s'.img.ext
      ensures ExtUsed(s'.img.body, d) || d in s'.pend
    {
      assert d in s.img.ext ==> ExtUsed(s.img.body, d) || d in s.pend;
    }
  }

  lemma OwnAppDat(s: Sys, s': Sys, p: nat)
    requires p < |s.procs| && |s.g.chain| == NLISTS && StepAppDat(s, s', p)
    requires s.img.datEnd !in s.img.ext && s.img.datEnd !in s.pend
    ensures Own(s, s', p)
  {
    hide OwnLoc, WritesList, InChain, HasFree, InCall, Open, Effective;
  }

  lemma MapAppDat(s: Sys, s': Sys, data: string)
    requires MapOk(s) && s.img.datEnd !in s.img.ext
    requires s'.img == AppendExt(s.img, data) && s'.g == s.g && s'.gap == s.gap && s'.h == s.h
    ensures MapOk(s')
  {
    hide ApplyAll;
    MapKept(s, s');
  }

  lemma AppDatShared(s: Sys, s': Sys, p: nat)
    requires Inv(s) && p < |s.procs| && StepAppDat(s, s', p) && Files(s') && MapOk(s') && s.img.datEnd !in s.pend
    ensures Shared(s')
  {
    hide Files, Linearizable, LockTable, Exclusive, MapOk, Inv, Local, SameLocks, InCall, MayGap, HeldOf, BypassOf, PendOf;
    ShareEasy(s);
    AppDatPc(s.procs[p].pc, s.img.datEnd);
    LocksKept(s, s', p, s'.procs[p]);
    TicketsKept(s, s', p);
    BypassesKept(s, s', p);
  }

  lemma AppDatPc(pc: Pc, d: nat)
    requires pc.AppDat?
    ensures var pc' := AppDropDat(pc.ptrval, d);
      SameLocks(pc, pc') && InCall(pc) && MayGap(pc) && MayGap(pc') && HeldOf(pc') == None == HeldOf(pc)
      && PendOf(pc) == None && PendOf(pc') == Some(d) && BypassOf(pc) == None == BypassOf(pc')
  {
  }

  lemma LocalAppDropDat(s: Sys, s': Sys, p: nat)
    requires p < |s.procs| && StepAppDat(s, s', p) && Local(s, p)
    ensures Local(s', p)
  {
    hide Open, Effective, CallOkToMake, List;
  }

  lemma KeepAppIdx(s: Sys, s': Sys, p: nat)
    requires Inv(s) && p < |s.procs| && StepAppIdx(s, s', p)
    ensures Inv(s')
  {
    hide Files, Linearizable, Duties, LockTable, Exclusive, MapOk, DistinctTickets, List, Inv, Local, InCall, SameHistory, ApplyAll,
      LineLen, CallOkToMake, PendingExt;
    LocalOf(s, p);
    ShareEasy(s);
    var pc, op := s.procs[p].pc, s.procs[p].op;
    AppFacts(s, p);
    AppBodyOk(s, op, pc.d);
    FilesAppIdx(s, s', p, op, pc.d, pc.ptrval);
    OwnAppIdx(s, s', p);
    MapAppIdx(s, s', p, op, pc.d, pc.ptrval);
    AppIdxShared(s, s', p);
    LocalAppDropIdx(s, s', p);
    Finish(s, s', p);
  }

  lemma AppBodyOk(s: Sys, op: Op, d: nat)
    requires Fits(s, op, d) && CallOkToMake(op)
    ensures BodyOk(MakeBody(op.key, d, |op.data| + 1)) && s.img.idxEnd <= PTR_MAX
  {
    hide LineLen;
  }

  lemma FilesAppIdx(s: Sys, s': Sys, p: nat, op: Op, d: nat, v: nat)
    requires Files(s) && op.Store? && v <= PTR_MAX && PendingExt(s, p, op, d)
    requires var b := MakeBody(op.key, d, |op.data| + 1);
      BodyOk(b) && s'.img == AppendRec(s.img, v, b)
    requires s'.g == s.g.(home := s.g.home[s.img.idxEnd := Held(p)]) && s'.bypass == s.bypass && s'.pend == s.pend - {d}
    ensures Files(s') && s.img.idxEnd !in s.img.body && s.img.idxEnd !in s.img.ptr && s.img.idxEnd >= REC_OFF
    ensures s.g.home.Keys == s.img.body.Keys
  {
    hide RecordsTile, ExtentsTile, PointersOk, LinesOk, Struct, LineLen, BodyOk, RecordsOwnExtents, ExtUsed;
    var b := MakeBody(op.key, d, |op.data| + 1);
    IdxEndAbove(s.img);
    HomeKeys(s);
    AppendRecWf(s.img, v, b);
    HeldAppend(View(s), s.img.body, s.g, s.img.idxEnd, v, b, p);
    assert View(s') == View(s)[s.img.idxEnd := v];
    ExtentsAppended(s, s', s.img.idxEnd, b);
  }

  /** The new record takes over the pending extent it points to. */
  lemma ExtentsAppended(s: Sys, s': Sys, o: nat, b: Body)
    requires ExtentsOwned(s) && o !in s.img.body && b.datoff in s.pend
    requires s'.img.body == s.img.body[o := b] && s'.img.ext == s.img.ext && s'.pend == s.pend - {b.datoff}
    ensures ExtentsOwned(s')
  {
    forall e | e in s'.img.ext
      ensures ExtUsed(s'.img.body, e) || e in s'.pend
    {
      assert ExtUsed(s.img.body, e) || e in s.pend;
      if e == b.datoff {
        assert s'.img.body[o].datoff == e;
      } else if ExtUsed(s.img.body, e) {
        var q :| q in s.img.body && s.img.body[q].datoff == e;
        assert s'.img.body[q].datoff == e;
      }
    }
  }

  lemma HomeKeys(s: Sys)
    requires Files(s)
    ensures s.g.home.Keys == s.img.body.Keys
  {
    hide Wf, Keyed, AllLinked, ExtentsOwned;
  }

  lemma IdxEndAbove(img: Image)
    requires Wf(img)
    ensures img.idxEnd >= REC_OFF
  {
  }

  lemma OwnAppIdx(s: Sys, s': Sys, p: nat)
    requires p < |s.procs| && |s.g.chain| == NLISTS && StepAppIdx(s, s', p) && PendingExt(s, p, s.procs[p].op, s.procs[p].pc.d)
    requires s.img.idxEnd !in s.img.body && s.img.idxEnd !in s.img.ptr && s.img.idxEnd >= REC_OFF
    requires s.g.home.Keys == s.img.body.Keys
    ensures Own(s, s', p)
  {
    hide WritesList, InChain, HasFree, InCall, Open, Effective, List, LineLen, CallOkToMake;
    assert OwnLoc(s, p, s.img.idxEnd);
    hide OwnLoc;
  }

  lemma MapAppIdx(s: Sys, s': Sys, p: nat, op: Op, d: nat, v: nat)
    requires MapOk(s) && s.img.idxEnd !in s.img.body && op.Store?
    requires s'.img == AppendRec(s.img, v, MakeBody(op.key, d, |op.data| + 1)) && s'.g.loc == s.g.loc
    requires s'.gap == s.gap && s'.h == s.h
    ensures MapOk(s')
  {
    hide ApplyAll, LineLen;
    MapKept(s, s');
  }

  lemma AppIdxShared(s: Sys, s': Sys, p: nat)
    requires Inv(s) && p < |s.procs| && StepAppIdx(s, s', p) && Files(s') && MapOk(s') && s.img.idxEnd !in s.g.home
    ensures Shared(s')
  {
    hide Files, Linearizable, LockTable, Exclusive, MapOk, Inv, Local, SameLocks, InCall, MayGap, HeldOf, BypassOf, PendOf, Fits,
      LineLen;
    ShareEasy(s);
    AppIdxPc(s.procs[p].pc, s.img.idxEnd);
    LocksKept(s, s', p, s'.procs[p]);
    TicketsKept(s, s', p);
    BypassesKept(s, s', p);
  }

  lemma AppIdxPc(pc: Pc, o: nat)
    requires pc.AppIdx?
    ensures var pc' := AppDropIdx(o);
      SameLocks(pc, pc') && InCall(pc) && MayGap(pc) && MayGap(pc') && HeldOf(pc') == Some(o) && HeldOf(pc) == None
      && PendOf(pc) == Some(pc.d) && PendOf(pc') == None && BypassOf(pc) == None == BypassOf(pc')
  {
  }

  lemma LocalAppDropIdx(s: Sys, s': Sys, p: nat)
    requires p < |s.procs| && StepAppIdx(s, s', p) && Local(s, p)
    ensures Local(s', p)
  {
    hide Open, Effective, CallOkToMake, List, LineLen;
  }

  // ---- the chain pointer ----------------------------------------------------

  lemma LinkFacts(s: Sys, p: nat)
    requires Inv(s) && p < |s.procs| && s.procs[p].pc.Link?
    ensures var pc, op := s.procs[p].pc, s.procs[p].op;
      && |s.g.chain| == NLISTS && StoreOpen(s, p, op) && Open(s.h, s.procs[p].ticket, op) && ReadyToLink(s, p, op, pc.o)
      && CallOkToMake(op) && GoodFlag(op.flag) && Head(List(op)) in s.img.ptr && Head(List(op)) !in s.bypass
      && InChain(pc) && InCall(pc)
  {
    hide Linearizable, Open, MapOk, Inv, List, StoreOpen, Files, ReadyToLink;
    LocalOf(s, p);
    StoreOpenMeans(s, p, s.procs[p].op);
    ListIs(s.procs[p].op);
    assert BypassOf(s.procs[p].pc) == None;
    ReadListLoc(s, p, List(s.procs[p].op), 0);
  }

  lemma ReadyMeans(s: Sys, p: nat, op: Op, o: nat)
    requires ReadyToLink(s, p, op, o)
    ensures |s.g.chain| == NLISTS && op.Store? && o in s.g.home && s.g.home[o] == Held(p) && o in s.img.body
    ensures s.img.body[o].key == op.key && o in s.img.ptr && s.img.ptr[o] == NextAt(s.g.chain[List(op)], 0) && o <= PTR_MAX
    ensures s.img.body[o].datoff in s.img.ext && s.img.ext[s.img.body[o].datoff] == op.data
  {
  }

  lemma FilesLink(s: Sys, s': Sys, p: nat, op: Op, o: nat)
    requires Inv(s) && ReadyToLink(s, p, op, o) && op.key !in s.g.loc
    requires Head(List(op)) in s.img.ptr && Head(List(op)) !in s.bypass
    requires s'.img == SetPtr(s.img, Head(List(op)), o) && s'.g == Push(s.g, List(op), o, op.key)
    requires s'.bypass == s.bypass && s'.pend == s.pend
    ensures Files(s')
  {
    hide Inv, Wf, Struct, ExtentsOwned, List, ReadyToLink, Push, View;
    ShareEasy(s);
    ReadyMeans(s, p, op, o);
    ListIs(op);
    HeldView(s, p, o, 0);
    PushStruct(View(s), s.img.body, s.g, List(op), o);
    FilesSetPtr(s, s', Head(List(op)), o);
  }

  /** One pointer written that no bypass is pending on: the view changes in the same way. */
  lemma FilesSetPtr(s: Sys, s': Sys, l: nat, v: nat)
    requires Files(s) && l in s.img.ptr && l !in s.bypass && v <= PTR_MAX
    requires s'.img == SetPtr(s.img, l, v) && s'.bypass == s.bypass && s'.pend == s.pend
    requires Struct(View(s)[l := v], s.img.body, s'.g)
    ensures Files(s')
  {
    hide RecordsTile, ExtentsTile, LinesOk, RecordsOwnExtents, Struct, ExtentsOwned;
    assert View(s') == View(s)[l := v];
    ExtentsOwnedKept(s, s');
  }

  lemma LinkMap(s: Sys, s': Sys, p: nat, op: Op, o: nat)
    requires MapOk(s) && ReadyToLink(s, p, op, o) && StoreOpen(s, p, op) && GoodFlag(op.flag)
    requires s'.img == SetPtr(s.img, Head(List(op)), o) && s'.g == Push(s.g, List(op), o, op.key)
    requires s'.gap == s.gap - {op.key} && M(s') == Apply(M(s), op)
    ensures MapOk(s')
  {
    hide ApplyAll, M, List, HasValue, Value;
    ListIs(op);
    assert M(s') == M(s)[op.key := op.data];
    forall k | k in s'.g.loc
      ensures HasValue(s'.img, s'.g, k) && Value(s'.img, s'.g, k) == if k == op.key then op.data else Value(s.img, s.g, k)
    {
      LinkValue(s, s', p, op, o, k);
    }
  }

  lemma LinkValue(s: Sys, s': Sys, p: nat, op: Op, o: nat, k: string)
    requires MapOk(s) && ReadyToLink(s, p, op, o)
    requires s'.img == SetPtr(s.img, Head(List(op)), o) && s'.g == Push(s.g, List(op), o, op.key) && k in s'.g.loc
    ensures k != op.key ==> k in s.g.loc && HasValue(s.img, s.g, k)
    ensures HasValue(s'.img, s'.g, k) && Value(s'.img, s'.g, k) == if k == op.key then op.data else Value(s.img, s.g, k)
  {
    hide ApplyAll, M, List;
    ListIs(op);
  }

  lemma LinkAnswer(s: Sys, p: nat, op: Op)
    requires MapOk(s) && StoreOpen(s, p, op) && GoodFlag(op.flag)
    ensures Answer(M(s), op) == Code(0, NoErr)
  {
    hide ApplyAll, M;
  }

  lemma OwnLinked(s: Sys, s': Sys, p: nat)
    requires Inv(s) && p < |s.procs| && StepLink(s, s', p)
    requires forall q :: 0 <= q < |s.procs| && q != p && InCall(s.procs[q].pc) ==> SameHistory(s, s', q)
    ensures |s.g.chain| == NLISTS && Own(s, s', p)
  {
    hide InCall, SameHistory, Inv, Files, TakeEffect, List, Linearizable, WritesList, OwnLoc, MapOk, Local, ReadyToLink, StoreOpen,
      Open, OwnLists, OwnKeys, Push;
    LinkFacts(s, p);
    var pc, op := s.procs[p].pc, s.procs[p].op;
    ReadyMeans(s, p, op, pc.o);
    ListIs(op);
    assert WritesList(s, p, List(op)) by { WritesOwn(s, p); }
    assert OwnLoc(s, p, Head(List(op))) by { OwnListLoc(s, p, List(op), Head(List(op))); }
    PushOwnLists(s, s', p, List(op), pc.o, op.key);
    PushHome(s.g, List(op), pc.o, op.key);
    LinkOwnKeys(s, s', p, op);
    OwnLink(s, s', p, s'.procs[p], Head(List(op)), pc.o);
  }

  lemma LinkOwnKeys(s: Sys, s': Sys, p: nat, op: Op)
    requires p < |s.procs| && op == s.procs[p].op && Writing(op) && InChain(s.procs[p].pc)
    requires op.key in s'.g.loc && s'.g.loc == s.g.loc[op.key := s'.g.loc[op.key]] && s'.gap == s.gap - {op.key}
    ensures OwnKeys(s, s', p)
  {
  }

  lemma LinkShared(s: Sys, s': Sys, p: nat)
    requires Inv(s) && p < |s.procs| && StepLink(s, s', p) && Files(s') && MapOk(s') && Linearizable(s'.h)
    requires s.procs[p].pc.o in s.g.home
    ensures Shared(s')
  {
    hide Files, Linearizable, LockTable, Exclusive, MapOk, Inv, Local, SameLocks, InCall, MayGap, HeldOf, BypassOf, PendOf,
      TakeEffect, Push, List;
    ShareEasy(s);
    var pc, op := s.procs[p].pc, s.procs[p].op;
    LinkPc(pc);
    LocksKept(s, s', p, s'.procs[p]);
    TicketsKept(s, s', p);
    BypassesKept(s, s', p);
    PushHome(s.g, List(op), pc.o, op.key);
  }

  lemma PushHome(g: Lists, c: nat, o: nat, key: string)
    requires c < |g.chain|
    ensures Push(g, c, o, key).home == g.home[o := OnList(c)]
    ensures c > 0 ==> Push(g, c, o, key).loc == g.loc[key := o]
  {
  }

  lemma LinkPc(pc: Pc)
    requires pc.Link?
    ensures var pc' := Unlock(Code(0, NoErr));
      SameLocks(pc, pc') && InCall(pc) && InCall(pc') && MayGap(pc) && !MayGap(pc') && HeldOf(pc') == None
      && HeldOf(pc) == Some(pc.o) && PendOf(pc) == None == PendOf(pc') && BypassOf(pc) == None == BypassOf(pc')
  {
  }

  lemma KeepLink(s: Sys, s': Sys, p: nat)
    requires Inv(s) && p < |s.procs| && StepLink(s, s', p)
    ensures Inv(s')
  {
    hide Files, Linearizable, Duties, LockTable, Exclusive, MapOk, DistinctTickets, List, Inv, Local, InCall, SameHistory, ApplyAll,
      CallOkToMake, TakeEffect, StoreOpen, Open, Effective, ReadyToLink, Push, Apply, Answer;
    ShareEasy(s);
    LinkFacts(s, p);
    var pc, op := s.procs[p].pc, s.procs[p].op;
    ReadyMeans(s, p, op, pc.o);
    OthersHistory(s, s', p);
    LinkAnswer(s, p, op);
    FilesLink(s, s', p, op, pc.o) by { StoreOpenMeans(s, p, op); }
    LinkMap(s, s', p, op, pc.o);
    ListIs(op);
    PushHome(s.g, List(op), pc.o, op.key);
    OwnLinked(s, s', p);
    LinkShared(s, s', p);
    LocalUnlock(s', p, Code(0, NoErr));
    Finish(s, s', p);
  }

  lemma StoreOpenMeans(s: Sys, p: nat, op: Op)
    requires StoreOpen(s, p, op)
    ensures op.Store? && op.key !in s.g.loc
  {
  }
}
