/** The print spooler's job list (apue.3e/printer/printd.c): client threads add jobs at the tail, the
    printer thread takes the one at the head and, if it cannot print it now, puts it back there. */
module JobQueue {
  import opened Options

  class Job {
    var next: Job?
    var prev: Job?
    const jobid: int

    constructor (id: int)
      ensures jobid == id
    {
      jobid := id;
    }
  }

  function At(s: seq<Job>, k: int): Job? { if 0 <= k < |s| then s[k] else null }

  ghost predicate NextOk(s: seq<Job>)
    reads s`next
  {
    forall k {:trigger s[k].next} :: 0 <= k < |s| ==> s[k].next == At(s, k + 1)
  }

  ghost predicate PrevOk(s: seq<Job>)
    reads s`prev
  {
    forall k {:trigger s[k].prev} :: 0 <= k < |s| ==> s[k].prev == At(s, k - 1)
  }

  ghost predicate Distinct(s: seq<Job>) { forall i, j :: 0 <= i < j < |s| ==> s[i] != s[j] }

  function Without(s: seq<Job>, i: nat): (t: seq<Job>)
    requires i < |s|
    ensures |t| == |s| - 1 && forall k :: 0 <= k < |t| ==> t[k] == s[if k < i then k else k + 1]
  {
    s[..i] + s[i + 1..]
  }

  /** Each job is finished, in hand or in the list, once, and that in the order added. */
  ghost predicate InOrder(added: seq<Job>, finished: seq<Job>, hand: seq<Job>, q: seq<Job>) {
    |hand| <= 1 && added == finished + hand + q && Distinct(added)
  }

  ghost predicate NextOkBut(s: seq<Job>, i: int)
    reads s`next
  {
    forall k {:trigger s[k].next} :: 0 <= k < |s| && k != i ==> s[k].next == At(s, k + 1)
  }

  ghost predicate PrevOkBut(s: seq<Job>, i: int)
    reads s`prev
  {
    forall k {:trigger s[k].prev} :: 0 <= k < |s| && k != i ==> s[k].prev == At(s, k - 1)
  }

  lemma NextCut(s: seq<Job>, i: nat)
    requires i < |s| && NextOkBut(s, i - 1) && (i > 0 ==> s[i - 1].next == At(s, i + 1))
    ensures NextOk(Without(s, i))
  {
    var t := Without(s, i);
    forall k | 0 <= k < |t|
      ensures t[k].next == At(t, k + 1)
    {
      assert t[k].next == s[if k < i then k else k + 1].next;
    }
  }

  lemma PrevCut(s: seq<Job>, i: nat)
    requires i < |s| && PrevOkBut(s, i + 1) && (i + 1 < |s| ==> s[i + 1].prev == At(s, i - 1))
    ensures PrevOk(Without(s, i))
  {
    var t := Without(s, i);
    forall k | 0 <= k < |t|
      ensures t[k].prev == At(t, k - 1)
    {
      assert t[k].prev == s[if k < i then k else k + 1].prev;
    }
  }

  lemma DistinctCut(s: seq<Job>, i: nat)
    requires i < |s| && Distinct(s)
    ensures Distinct(Without(s, i))
  {
  }

  class Queue {
    var jobhead: Job?
    var jobtail: Job?
    /** The list; the job the printer thread has in hand; the jobs it is done with, in order; and all
        jobs ever added, in order. */
    ghost var q: seq<Job>
    ghost var hand: seq<Job>
    ghost var finished: seq<Job>
    ghost var added: seq<Job>

    /** Following next from jobhead, or prev from jobtail, visits exactly q. */
    ghost predicate ListOk()
      reads this, q`next, q`prev
    {
      jobhead == At(q, 0) && jobtail == At(q, |q| - 1) && NextOk(q) && PrevOk(q) && Distinct(q)
    }

    ghost predicate Valid()
      reads this, q`next, q`prev
    {
      ListOk() && InOrder(added, finished, hand, q)
    }

    constructor ()
      ensures Valid() && added == [] && q == [] && hand == [] && finished == []
    {
      jobhead, jobtail := null, null;
      q, hand, finished, added := [], [], [], [];
    }

    /** Links jp in at the tail. */
    method PushTail(jp: Job)
      requires ListOk() && jp !in q
      modifies this`jobhead, this`jobtail, this`q, q`next, jp`next, jp`prev
      ensures ListOk() && q == old(q) + [jp]
    {
      jp.next := null;
      jp.prev := jobtail;
      if jobtail == null {
        jobhead := jp;
      } else {
        jobtail.next := jp;
      }
      jobtail := jp;
      q := q + [jp];
    }

    /** Links jp in at the head. */
    method PushHead(jp: Job)
      requires ListOk() && jp !in q
      modifies this`jobhead, this`jobtail, this`q, q`prev, jp`next, jp`prev
      ensures ListOk() && q == [jp] + old(q)
    {
      jp.prev := null;
      jp.next := jobhead;
      if jobhead == null {
        jobtail := jp;
      } else {
        jobhead.prev := jp;
      }
      jobhead := jp;
      q := [jp] + q;
    }

    /** remove_job, of any job in the list. */
    method RemoveJob(target: Job, ghost i: nat)
      requires ListOk() && i < |q| && q[i] == target
      modifies this`jobhead, this`jobtail, this`q, q`next, q`prev
      ensures ListOk() && q == Without(old(q), i)
    {
      if target.next != null {
        target.next.prev := target.prev;
      } else {
        jobtail := target.prev;
      }
      if target.prev != null {
        target.prev.next := target.next;
      } else {
        jobhead := target.next;
      }
      NextCut(q, i);
      PrevCut(q, i);
      DistinctCut(q, i);
      q := Without(q, i);
    }

    /** add_job. */
    method AddJob(jobid: int) returns (jp: Job)
      requires Valid()
      modifies this, q`next
      ensures Valid() && fresh(jp) && jp.jobid == jobid
      ensures q == old(q) + [jp] && added == old(added) + [jp] && hand == old(hand) && finished == old(finished)
    {
      hide NextOk, PrevOk, Distinct;
      jp := new Job(jobid);
      OrderAdd(added, finished, hand, q, jp);
      PushTail(jp);
      added := added + [jp];
    }

    /** The printer thread picks up a job; nothing while the list is empty. */
    method TakeJob() returns (jp: Job?)
      requires Valid() && hand == []
      modifies this, q`next, q`prev
      ensures Valid() && added == old(added) && finished == old(finished)
      ensures jp == null <==> old(q) == []
      ensures if jp == null then hand == [] && q == old(q) else hand == [jp] && [jp] + q == old(q)
    {
      hide NextOk, PrevOk, Distinct, InOrder, Without;
      if jobhead == null { return null; }
      jp := jobhead;
      OrderTake(added, finished, q);
      RemoveJob(jp, 0);
      hand := [jp];
    }

    /** replace_job: the job in hand goes back to the head. */
    method ReplaceJob(jp: Job)
      requires Valid() && hand == [jp]
      modifies this, jp`next, jp`prev, q`prev
      ensures Valid() && added == old(added) && finished == old(finished) && hand == [] && q == [jp] + old(q)
    {
      OrderHand(added, finished, hand, q, jp);
      hide NextOk, PrevOk, Distinct;
      ghost var before := q;
      PushHead(jp);
      assert finished + [jp] + before == finished + [] + ([jp] + before);
      hand := [];
    }

    /** The job in hand is printed or cancelled. */
    method FinishJob(jp: Job)
      requires Valid() && hand == [jp]
      modifies this`hand, this`finished
      ensures Valid() && q == old(q) && hand == [] && finished == old(finished) + [jp] && added == old(added)
    {
      hide NextOk, PrevOk, Distinct;
      assert (finished + [jp]) + [] + q == finished + [jp] + q;
      finished, hand := finished + [jp], [];
    }
  }

  lemma OrderAdd(added: seq<Job>, finished: seq<Job>, hand: seq<Job>, q: seq<Job>, jp: Job)
    requires InOrder(added, finished, hand, q) && jp !in added
    ensures InOrder(added + [jp], finished, hand, q + [jp]) && jp !in q
  {
    assert finished + hand + (q + [jp]) == added + [jp];
    assert forall k :: 0 <= k < |q| ==> added[|finished| + |hand| + k] == q[k];
  }

  lemma OrderTake(added: seq<Job>, finished: seq<Job>, q: seq<Job>)
    requires InOrder(added, finished, [], q) && q != []
    ensures InOrder(added, finished, [q[0]], Without(q, 0)) && [q[0]] + Without(q, 0) == q
  {
    assert finished + [q[0]] + Without(q, 0) == finished + [] + q;
  }

  lemma OrderHand(added: seq<Job>, finished: seq<Job>, hand: seq<Job>, q: seq<Job>, jp: Job)
    requires InOrder(added, finished, hand, q) && hand == [jp]
    ensures jp !in q
  {
    assert added[|finished|] == jp;
    assert forall k :: 0 <= k < |q| ==> added[|finished| + 1 + k] == q[k];
  }

  // ---- whole runs -----------------------------------------------------------

  /** A client adds a job; the printer thread asks for one; what becomes of the one in hand. */
  datatype Step = Add(jobid: int) | Take | Finish | Defer

  /** What the steps are about, by job number: the jobs done with, in order, the one in hand, and
      those waiting. */
  datatype Spool = Spool(finished: seq<int>, hand: Option<int>, waiting: seq<int>)

  /** What a step does. The printer thread asks only with empty hands, waits while the list is
      empty, and finishes or puts back only what it has. */
  function After(s: Spool, step: Step): Spool {
    match step
    case Add(jobid) => s.(waiting := s.waiting + [jobid])
    case Take =>
      if s.hand.None? && s.waiting != [] then s.(hand := Some(s.waiting[0]), waiting := s.waiting[1..]) else s
    case Finish =>
      if s.hand.Some? then s.(finished := s.finished + [s.hand.value], hand := None) else s
    case Defer =>
      if s.hand.Some? then s.(hand := None, waiting := [s.hand.value] + s.waiting) else s
  }

  function AfterAll(steps: seq<Step>): Spool {
    if steps == [] then Spool([], None, [])
    else After(AfterAll(steps[..|steps| - 1]), steps[|steps| - 1])
  }

  /** The job numbers in the order added. */
  function AddedIds(steps: seq<Step>): seq<int> {
    if steps == [] then []
    else AddedIds(steps[..|steps| - 1]) + if steps[|steps| - 1].Add? then [steps[|steps| - 1].jobid] else []
  }

  function InHand(s: Spool): seq<int> { if s.hand.Some? then [s.hand.value] else [] }

  /** In any interleaving jobs are done in the order they were added, however often the one in hand
      is put back, and each is done, in hand or waiting. */
  lemma {:induction false} OrderKept(steps: seq<Step>)
    ensures var s := AfterAll(steps); s.finished + InHand(s) + s.waiting == AddedIds(steps)
  {
    if steps != [] {
      var n := |steps| - 1;
      OrderKept(steps[..n]);
      StepOrder(AfterAll(steps[..n]), steps[n]);
    }
  }

  lemma StepOrder(s: Spool, step: Step)
    ensures var s' := After(s, step);
      s'.finished + InHand(s') + s'.waiting ==
      s.finished + InHand(s) + s.waiting + if step.Add? then [step.jobid] else []
  {
    var s' := After(s, step);
    if s.waiting != [] { assert s.waiting == [s.waiting[0]] + s.waiting[1..]; }
    match step {
      case Add(jobid) =>
      case Take =>
        if s' != s { assert [] + s.waiting == InHand(s') + s'.waiting; }
      case Finish =>
        if s' != s { assert s'.finished == s.finished + InHand(s); }
      case Defer =>
        if s' != s { assert s'.waiting == InHand(s) + s.waiting; }
    }
  }

  /** n jobs taken and done, one after the other. */
  function Printing(n: nat): seq<Step> { if n == 0 then [] else Printing(n - 1) + [Take, Finish] }

  lemma {:induction false} PrintedAfter(steps: seq<Step>, n: nat)
    requires AfterAll(steps).hand.None? && n <= |AfterAll(steps).waiting|
    ensures var s := AfterAll(steps);
      AfterAll(steps + Printing(n)) == Spool(s.finished + s.waiting[..n], None, s.waiting[n..])
  {
    var s := AfterAll(steps);
    if n == 0 {
      assert steps + [] == steps;
      assert s.finished + s.waiting[..0] == s.finished;
    } else {
      PrintedAfter(steps, n - 1);
      var before := steps + Printing(n - 1);
      assert (steps + Printing(n))[..|steps + Printing(n)| - 1] == before + [Take];
      assert (before + [Take])[..|before|] == before;
      assert s.finished + s.waiting[..n - 1] + [s.waiting[n - 1]] == s.finished + s.waiting[..n];
    }
  }

  /** After any steps, finishing the job in hand and printing those waiting does every job ever
      added, in the order added: none is stuck behind one that was put back. */
  lemma AllPrinted(steps: seq<Step>)
    ensures var s := AfterAll(steps + [Finish]);
      AfterAll(steps + [Finish] + Printing(|s.waiting|)) == Spool(AddedIds(steps), None, [])
  {
    var all := steps + [Finish];
    assert all[..|steps|] == steps;
    var s := AfterAll(all);
    OrderKept(all);
    PrintedAfter(all, |s.waiting|);
    assert s.finished + InHand(s) + s.waiting == s.finished + s.waiting[..|s.waiting|];
  }

  lemma AfterOne(steps: seq<Step>, step: Step)
    ensures AfterAll(steps + [step]) == After(AfterAll(steps), step)
  {
    assert (steps + [step])[..|steps|] == steps;
  }

  /** After any steps one more does this, and nothing else, to the jobs done, in hand and waiting: a
      job counts as done only by a Finish while it is in hand, and one that is deferred is at the
      head of those waiting. */
  lemma OneStep(steps: seq<Step>, step: Step)
    ensures var s, s' := AfterAll(steps), AfterAll(steps + [step]);
      && s'.finished == (if step == Finish && s.hand.Some? then s.finished + [s.hand.value] else s.finished)
      && (step.Add? ==> s'.hand == s.hand && s'.waiting == s.waiting + [step.jobid])
      && (step == Take && s.hand.None? && s.waiting != [] ==> s'.hand == Some(s.waiting[0]) && [s.waiting[0]] + s'.waiting == s.waiting)
      && (step == Take && (s.hand.Some? || s.waiting == []) ==> s' == s)
      && (step == Finish ==> s'.hand == None && s'.waiting == s.waiting)
      && (step == Defer ==> s'.hand == None)
      && (step == Defer && s.hand.Some? ==> s'.waiting == [s.hand.value] + s.waiting)
      && (step == Defer && s.hand.None? ==> s' == s)
  {
    AfterOne(steps, step);
  }

  /** The Finish steps that found a job in hand. */
  ghost function Finishes(steps: seq<Step>): set<int> {
    set i | 0 <= i < |steps| && steps[i] == Finish && AfterAll(steps[..i]).hand.Some?
  }

  /** The jobs done are as many as the Finish steps that found a job in hand. */
  lemma {:induction false} FinishedCount(steps: seq<Step>)
    ensures |AfterAll(steps).finished| == |Finishes(steps)|
  {
    hide AfterAll;
    if steps == [] {
      assert Finishes(steps) == {};
      NoSteps();
    } else {
      var n := |steps| - 1;
      var before := steps[..n];
      FinishedCount(before);
      OneStep(before, steps[n]);
      assert before + [steps[n]] == steps;
      assert forall i :: 0 <= i < n ==> before[..i] == steps[..i] && before[i] == steps[i];
      if steps[n] == Finish && AfterAll(before).hand.Some? {
        assert Finishes(steps) == Finishes(before) + {n};
      } else {
        assert Finishes(steps) == Finishes(before);
      }
    }
  }

  lemma NoSteps()
    ensures AfterAll([]) == Spool([], None, [])
  {
  }

  /** Taking a job and putting it back leaves everything as it was. */
  lemma TakeDefer(steps: seq<Step>)
    requires AfterAll(steps).hand.None?
    ensures AfterAll(steps + [Take, Defer]) == AfterAll(steps)
  {
    hide AfterAll;
    assert steps + [Take, Defer] == steps + [Take] + [Defer];
    OneStep(steps, Take);
    OneStep(steps + [Take], Defer);
  }

  /** A job that is deferred is the next one taken, whatever clients add in between. */
  lemma {:induction false} DeferredIsNext(steps: seq<Step>, more: seq<Step>)
    requires AfterAll(steps).hand.Some? && forall i :: 0 <= i < |more| ==> more[i].Add?
    ensures var s, t := AfterAll(steps), AfterAll(steps + [Defer] + more);
      && t.finished == s.finished && t.hand == None && t.waiting != [] && t.waiting[0] == s.hand.value
      && AfterAll(steps + [Defer] + more + [Take]).hand == s.hand
  {
    hide AfterAll;
    if more == [] {
      assert steps + [Defer] + more == steps + [Defer];
      OneStep(steps, Defer);
    } else {
      var n := |more| - 1;
      DeferredIsNext(steps, more[..n]);
      assert steps + [Defer] + more[..n] + [more[n]] == steps + [Defer] + more;
      OneStep(steps + [Defer] + more[..n], more[n]);
    }
    OneStep(steps + [Defer] + more, Take);
  }

  ghost function Ids(s: seq<Job>): (ids: seq<int>)
    ensures |ids| == |s| && forall i :: 0 <= i < |s| ==> ids[i] == s[i].jobid
  {
    if s == [] then [] else Ids(s[..|s| - 1]) + [s[|s| - 1].jobid]
  }

  lemma IdsOne(jp: Job, s: seq<Job>)
    ensures Ids(s + [jp]) == Ids(s) + [jp.jobid] && Ids([jp] + s) == [jp.jobid] + Ids(s)
    ensures Ids([jp] + s)[1..] == Ids(s)
  {
  }

  /** The queue by job number. */
  ghost function View(queue: Queue): Spool
    reads queue
  {
    Spool(Ids(queue.finished), if queue.hand == [] then None else Some(queue.hand[0].jobid), Ids(queue.q))
  }

  /** One critical section of a client or of the printer thread, which finishes or defers only the
      job it has. */
  method Do(queue: Queue, jp: Job?, step: Step) returns (jp': Job?)
    requires queue.Valid() && queue.hand == if jp == null then [] else [jp]
    modifies queue, queue.q`next, queue.q`prev, if jp == null then {} else {jp}
    ensures queue.Valid() && queue.hand == if jp' == null then [] else [jp']
    ensures forall j :: j in queue.q ==> j in old(queue.q) || j == jp || fresh(j)
    ensures jp' != null ==> jp' == jp || jp' in old(queue.q)
    ensures View(queue) == After(old(View(queue)), step)
    ensures queue.finished == if step == Finish && jp != null then old(queue.finished) + [jp] else old(queue.finished)
    ensures step.Add? ==> jp' == jp && |queue.q| == |old(queue.q)| + 1 && queue.q[..|queue.q| - 1] == old(queue.q)
    ensures step.Add? ==> fresh(queue.q[|queue.q| - 1]) && queue.q[|queue.q| - 1].jobid == step.jobid
    ensures step == Take && jp == null && old(queue.q) != [] ==> jp' != null && [jp'] + queue.q == old(queue.q)
    ensures step == Take && (jp != null || old(queue.q) == []) ==> jp' == jp && queue.q == old(queue.q)
    ensures step == Finish || step == Defer ==> jp' == null
    ensures step == Defer && jp != null ==> queue.q == [jp] + old(queue.q)
    ensures step == Finish || (step == Defer && jp == null) ==> queue.q == old(queue.q)
  {
    hide NextOk, PrevOk, Distinct, Ids, InOrder;
    jp' := jp;
    match step {
      case Add(jobid) =>
        var added := queue.AddJob(jobid);
        IdsOne(added, old(queue.q));
      case Take =>
        if jp == null {
          jp' := queue.TakeJob();
          if jp' != null { IdsOne(jp', queue.q); }
        }
      case Finish =>
        if jp != null {
          queue.FinishJob(jp);
          IdsOne(jp, old(queue.finished));
          jp' := null;
        }
      case Defer =>
        if jp != null {
          queue.ReplaceJob(jp);
          IdsOne(jp, old(queue.q));
          jp' := null;
        }
    }
  }

  /** Any interleaving of clients with the one printer thread, from an empty queue. */
  method Run(steps: seq<Step>) returns (queue: Queue)
    ensures queue.Valid() && View(queue) == AfterAll(steps)
  {
    hide NextOk, PrevOk, Distinct, Ids, InOrder, After;
    queue := new Queue();
    var jp: Job? := null;
    var n := 0;
    assert Ids([]) == [] by { NoIds(); }
    while n < |steps|
      invariant 0 <= n <= |steps| && fresh(queue) && queue.Valid()
      invariant (forall k :: 0 <= k < |queue.q| ==> fresh(queue.q[k])) && (jp != null ==> fresh(jp))
      invariant queue.hand == if jp == null then [] else [jp]
      invariant View(queue) == AfterAll(steps[..n])
    {
      assert steps[..n + 1][..n] == steps[..n];
      assert forall j :: j in queue.q ==> fresh(j);
      jp := Do(queue, jp, steps[n]);
      assert forall j :: j in queue.q ==> fresh(j);
      assert forall k :: 0 <= k < |queue.q| ==> queue.q[k] in queue.q;
      n := n + 1;
    }
    assert steps[..n] == steps;
  }

  lemma NoIds()
    ensures Ids([]) == []
  {
  }
}
