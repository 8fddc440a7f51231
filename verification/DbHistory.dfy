/** Calls by several processes, the order in which they take effect, and when they return. */
module DbHistory {
  import opened Options
  import opened DbFormat
  import opened DbSpec

  /** after: the calls that had returned when this one was made; lin: its place in the order in
      which calls take effect; done: what it returned. */
  datatype CallInfo = CallInfo(op: Op, after: set<nat>, lin: Option<nat>, done: Option<Result>)

  datatype History = History(calls: seq<CallInfo>, ops: seq<Op>, answers: seq<Result>, tickets: seq<nat>)

  const NoHistory := History([], [], [], [])

  function DoneCalls(h: History): set<nat> {
    set t | 0 <= t < |h.calls| && h.calls[t].done.Some?
  }

  /** A call is made; its ticket is the number of earlier calls. */
  function Begin(h: History, op: Op): History {
    h.(calls := h.calls + [CallInfo(op, DoneCalls(h), None, None)])
  }

  /** The call takes effect on the map, after all calls that already have. */
  function TakeEffect(h: History, t: nat): History
    requires t < |h.calls|
  {
    var op := h.calls[t].op;
    History(h.calls[t := h.calls[t].(lin := Some(|h.ops|))], h.ops + [op],
            h.answers + [Answer(ApplyAll(map[], h.ops), op)], h.tickets + [t])
  }

  function End(h: History, t: nat, r: Result): History
    requires t < |h.calls|
  {
    h.(calls := h.calls[t := h.calls[t].(done := Some(r))])
  }

  /** The call has been made and has not taken effect. */
  predicate Open(h: History, t: nat, op: Op) {
    t < |h.calls| && h.calls[t].op == op && h.calls[t].lin == None && h.calls[t].done == None
  }

  /** The call has taken effect with answer r and has not returned. */
  predicate Effective(h: History, t: nat, r: Result) {
    && t < |h.calls| && h.calls[t].done == None && h.calls[t].lin.Some?
    && h.calls[t].lin.value < |h.answers| && h.answers[h.calls[t].lin.value] == r
  }

  predicate CallOk(h: History, t: nat)
    requires t < |h.calls|
  {
    var c := h.calls[t];
    && (c.lin.Some? ==> c.lin.value < |h.tickets| && h.tickets[c.lin.value] == t)
    && (c.done.Some? ==> c.lin.Some? && c.lin.value < |h.answers| && h.answers[c.lin.value] == c.done.value)
    && (forall a :: a in c.after ==>
          && a < |h.calls| && h.calls[a].done.Some? && h.calls[a].lin.Some?
          && (c.lin.Some? ==> h.calls[a].lin.value < c.lin.value))
  }

  predicate PlaceOk(h: History, n: nat)
    requires n < |h.tickets| == |h.ops|
  {
    && h.tickets[n] < |h.calls|
    && h.calls[h.tickets[n]].lin == Some(n) && h.calls[h.tickets[n]].op == h.ops[n]
  }

  /** Linearizable: the calls that took effect, in that order, form a sequential run of the map
      with these answers; each call takes effect at most once, returns what it answered there,
      and comes after every call that had returned before it was made. */
  predicate Linearizable(h: History) {
    && |h.tickets| == |h.ops|
    && h.answers == Answers(map[], h.ops)
    && (forall n :: 0 <= n < |h.tickets| ==> PlaceOk(h, n))
    && (forall t :: 0 <= t < |h.calls| ==> CallOk(h, t))
  }

  lemma BeginKeeps(h: History, op: Op)
    requires Linearizable(h)
    ensures Linearizable(Begin(h, op)) && Open(Begin(h, op), |h.calls|, op)
    ensures forall t, o :: Open(h, t, o) ==> Open(Begin(h, op), t, o)
    ensures forall t, r :: Effective(h, t, r) ==> Effective(Begin(h, op), t, r)
  {
    var h' := Begin(h, op);
    forall n | 0 <= n < |h'.tickets|
      ensures PlaceOk(h', n)
    {
      assert PlaceOk(h, n);
    }
    forall t | 0 <= t < |h'.calls|
      ensures CallOk(h', t)
    {
      if t < |h.calls| {
        assert CallOk(h, t);
      } else {
        assert forall a :: a in h'.calls[t].after ==> CallOk(h, a);
      }
    }
  }

  lemma TakeEffectKeeps(h: History, t: nat, op: Op)
    requires Linearizable(h) && Open(h, t, op)
    ensures Linearizable(TakeEffect(h, t))
    ensures Effective(TakeEffect(h, t), t, Answer(ApplyAll(map[], h.ops), op))
    ensures ApplyAll(map[], TakeEffect(h, t).ops) == Apply(ApplyAll(map[], h.ops), op)
    ensures forall u, o :: u != t && Open(h, u, o) ==> Open(TakeEffect(h, t), u, o)
    ensures forall u, r :: u != t && Effective(h, u, r) ==> Effective(TakeEffect(h, t), u, r)
  {
    var h' := TakeEffect(h, t);
    assert h'.ops[..|h.ops|] == h.ops;
    forall n | 0 <= n < |h'.tickets|
      ensures PlaceOk(h', n)
    {
      if n < |h.tickets| { assert PlaceOk(h, n); }
    }
    forall u | 0 <= u < |h'.calls|
      ensures CallOk(h', u)
    {
      assert CallOk(h, u);
      forall a | a in h'.calls[u].after
        ensures h'.calls[a].lin == h.calls[a].lin && h.calls[a].lin.Some? && h.calls[a].lin.value < |h.ops|
      {
        assert CallOk(h, a);
      }
    }
  }

  lemma EndKeeps(h: History, t: nat, r: Result)
    requires Linearizable(h) && Effective(h, t, r)
    ensures Linearizable(End(h, t, r))
    ensures forall u, o :: u != t && Open(h, u, o) ==> Open(End(h, t, r), u, o)
    ensures forall u, q :: u != t && Effective(h, u, q) ==> Effective(End(h, t, r), u, q)
  {
    var h' := End(h, t, r);
    forall n | 0 <= n < |h'.tickets|
      ensures PlaceOk(h', n)
    {
      assert PlaceOk(h, n);
    }
    forall u | 0 <= u < |h'.calls|
      ensures CallOk(h', u)
    {
      assert CallOk(h, u);
    }
  }
}
