/** The table of reference-counted objects that apue.3e/threads/mutex2.c and mutex3.c keep, as four
    atomic operations on buckets and counts. R is the type of references to objects. */
module FooSpec {
  import opened Options

  const NHASH := 29
  const ULONG_RANGE := 0x1_0000_0000_0000_0000

  /** The id is converted to unsigned long before it is reduced. */
  function Hash(id: int): (h: nat)
    requires IsId(id)
    ensures h < NHASH
  {
    (if id >= 0 then id else ULONG_RANGE + id) % NHASH
  }

  predicate IsId(id: int) { -0x8000_0000 <= id <= 0x7fff_ffff }

  /** chain[h] holds the objects of bucket h, the newest first. */
  datatype Table<R> = Table(chain: seq<seq<R>>, id: map<R, int>, count: map<R, int>)

  datatype Op<R> = Alloc(o: R, id: int) | Hold(o: R) | Find(id: int) | Rele(o: R)

  function NoChains<R>(n: nat): (chain: seq<seq<R>>)
    ensures |chain| == n && forall h :: 0 <= h < n ==> chain[h] == []
  {
    if n == 0 then [] else NoChains(n - 1) + [[]]
  }

  function EmptyTable<R>(): Table<R> { Table(NoChains(NHASH), map[], map[]) }

  ghost predicate InBucket<R>(s: seq<R>, ids: map<R, int>, h: nat) {
    && (forall k :: 0 <= k < |s| ==> s[k] in ids && IsId(ids[s[k]]) && Hash(ids[s[k]]) == h)
    && (forall j, k :: 0 <= j < k < |s| ==> s[j] != s[k])
  }

  ghost predicate Placed<R>(t: Table<R>, o: R)
    requires o in t.id
  {
    && IsId(t.id[o]) && |t.chain| == NHASH && o in t.chain[Hash(t.id[o])]
    && o in t.count && t.count[o] >= 1
  }

  /** Every object is in the bucket of its id, once, and is referenced. */
  ghost predicate TableOk<R>(t: Table<R>) {
    && |t.chain| == NHASH
    && t.count.Keys == t.id.Keys
    && (forall h :: 0 <= h < NHASH ==> InBucket(t.chain[h], t.id, h))
    && (forall o :: o in t.id ==> Placed(t, o))
  }

  /** Position of the first object with the id, or the length when there is none. */
  ghost function FirstWith<R>(s: seq<R>, ids: map<R, int>, id: int): (k: nat)
    ensures k <= |s| && (k < |s| ==> s[k] in ids && ids[s[k]] == id)
    ensures forall j :: 0 <= j < k ==> !(s[j] in ids && ids[s[j]] == id)
  {
    if s == [] || (s[0] in ids && ids[s[0]] == id) then 0 else 1 + FirstWith(s[1..], ids, id)
  }

  ghost function IndexOf<R>(s: seq<R>, o: R): (k: nat)
    requires o in s
    ensures k < |s| && s[k] == o && o !in s[..k]
  {
    if s[0] == o then 0 else 1 + IndexOf(s[1..], o)
  }

  function Cut<R>(s: seq<R>, k: nat): seq<R>
    requires k < |s|
  {
    s[..k] + s[k + 1..]
  }

  ghost predicate Legal<R>(t: Table<R>, op: Op<R>) {
    match op
    case Alloc(o, id) => IsId(id) && o !in t.id
    case Find(id) => IsId(id)
    case Hold(o) => o in t.id
    case Rele(o) => o in t.id
  }

  ghost function Apply<R>(t: Table<R>, op: Op<R>): Table<R>
    requires TableOk(t) && Legal(t, op)
  {
    match op
    case Alloc(o, id) =>
      Table(t.chain[Hash(id) := [o] + t.chain[Hash(id)]], t.id[o := id], t.count[o := 1])
    case Hold(o) => t.(count := t.count[o := t.count[o] + 1])
    case Find(id) =>
      var k := FirstWith(t.chain[Hash(id)], t.id, id);
      if k == |t.chain[Hash(id)]| then t
      else var o := t.chain[Hash(id)][k];
        assert InBucket(t.chain[Hash(id)], t.id, Hash(id));
        t.(count := t.count[o := t.count[o] + 1])
    case Rele(o) =>
      assert Placed(t, o);
      if t.count[o] > 1 then t.(count := t.count[o := t.count[o] - 1])
      else var h := Hash(t.id[o]);
        Table(t.chain[h := Cut(t.chain[h], IndexOf(t.chain[h], o))], t.id - {o}, t.count - {o})
  }

  /** What the caller gets: the new object, the object found or nothing. */
  ghost function Answer<R>(t: Table<R>, op: Op<R>): Option<R>
    requires TableOk(t) && Legal(t, op)
  {
    match op
    case Alloc(o, _) => Some(o)
    case Find(id) =>
      var k := FirstWith(t.chain[Hash(id)], t.id, id);
      if k == |t.chain[Hash(id)]| then None else Some(t.chain[Hash(id)][k])
    case _ => None
  }

  lemma CutBucket<R>(s: seq<R>, ids: map<R, int>, h: nat, k: nat)
    requires InBucket(s, ids, h) && k < |s|
    ensures InBucket(Cut(s, k), ids - {s[k]}, h)
    ensures forall o :: o in s && o != s[k] ==> o in Cut(s, k)
  {
    var c := Cut(s, k);
    assert forall j :: 0 <= j < |c| ==> c[j] == s[if j < k then j else j + 1];
    forall o | o in s && o != s[k]
      ensures o in c
    {
      var j :| 0 <= j < |s| && s[j] == o;
      assert c[if j < k then j else j - 1] == o;
    }
  }

  lemma AllocOk<R>(t: Table<R>, o: R, id: int)
    requires TableOk(t) && Legal(t, Alloc(o, id))
    ensures TableOk(Apply(t, Alloc(o, id)))
  {
    var t' := Apply(t, Alloc(o, id));
    forall h | 0 <= h < NHASH
      ensures InBucket(t'.chain[h], t'.id, h)
    {
      assert InBucket(t.chain[h], t.id, h);
    }
    forall q | q in t'.id
      ensures Placed(t', q)
    {
      if q != o { assert Placed(t, q); }
    }
  }

  lemma CountOk<R>(t: Table<R>, o: R, n: int)
    requires TableOk(t) && o in t.id && n >= 1
    ensures TableOk(t.(count := t.count[o := n]))
  {
    var t' := t.(count := t.count[o := n]);
    assert forall q :: q in t.id ==> Placed(t, q);
    assert forall h :: 0 <= h < NHASH ==> InBucket(t.chain[h], t.id, h);
  }

  lemma RemoveOk<R>(t: Table<R>, o: R)
    requires TableOk(t) && o in t.id && t.count[o] == 1
    ensures TableOk(Apply(t, Rele(o)))
  {
    assert Placed(t, o);
    var h := Hash(t.id[o]);
    var t' := Apply(t, Rele(o));
    CutBucket(t.chain[h], t.id, h, IndexOf(t.chain[h], o));
    forall g | 0 <= g < NHASH
      ensures InBucket(t'.chain[g], t'.id, g)
    {
      assert InBucket(t.chain[g], t.id, g);
    }
    forall q | q in t'.id
      ensures Placed(t', q)
    {
      assert Placed(t, q);
    }
  }

  /** Every operation leaves each object in its bucket once, with a count of at least one. */
  lemma ApplyOk<R>(t: Table<R>, op: Op<R>)
    requires TableOk(t) && Legal(t, op)
    ensures TableOk(Apply(t, op))
  {
    hide TableOk, InBucket, Placed;
    match op
    case Alloc(o, id) => AllocOk(t, o, id);
    case Hold(o) => CountAt(t, o); CountOk(t, o, t.count[o] + 1);
    case Find(id) =>
      FoundIn(t, id);
      var k := FirstWith(t.chain[Hash(id)], t.id, id);
      if k < |t.chain[Hash(id)]| {
        var o := t.chain[Hash(id)][k];
        CountAt(t, o);
        CountOk(t, o, t.count[o] + 1);
      }
    case Rele(o) =>
      CountAt(t, o);
      if t.count[o] > 1 { CountOk(t, o, t.count[o] - 1); } else { RemoveOk(t, o); }
  }

  lemma CountAt<R>(t: Table<R>, o: R)
    requires TableOk(t) && o in t.id
    ensures o in t.count && t.count[o] >= 1
  {
    assert Placed(t, o);
  }

  lemma FoundIn<R>(t: Table<R>, id: int)
    requires TableOk(t) && IsId(id)
    ensures |t.chain| == NHASH
    ensures forall k :: 0 <= k < |t.chain[Hash(id)]| ==> t.chain[Hash(id)][k] in t.id
  {
    assert InBucket(t.chain[Hash(id)], t.id, Hash(id));
  }

  /** The operations on the fields of the table, for callers that need not look inside. */
  lemma AllocIs<R>(t: Table<R>, o: R, id: int)
    requires TableOk(t) && IsId(id) && o !in t.id
    ensures |t.chain| == NHASH && TableOk(Apply(t, Alloc(o, id))) && Answer(t, Alloc(o, id)) == Some(o)
    ensures Apply(t, Alloc(o, id)) ==
      Table(t.chain[Hash(id) := [o] + t.chain[Hash(id)]], t.id[o := id], t.count[o := 1])
  {
    hide InBucket, Placed;
    AllocOk(t, o, id);
  }

  lemma HoldIs<R>(t: Table<R>, o: R)
    requires TableOk(t) && o in t.id
    ensures o in t.count && Apply(t, Hold(o)) == t.(count := t.count[o := t.count[o] + 1])
    ensures TableOk(Apply(t, Hold(o)))
  {
    hide TableOk;
    CountAt(t, o);
    CountOk(t, o, t.count[o] + 1);
  }

  lemma FindHitIs<R>(t: Table<R>, id: int, k: nat)
    requires TableOk(t) && IsId(id) && |t.chain| == NHASH && k < |t.chain[Hash(id)]|
    requires t.chain[Hash(id)][k] in t.id && t.id[t.chain[Hash(id)][k]] == id
    requires forall j :: 0 <= j < k ==> t.chain[Hash(id)][j] in t.id && t.id[t.chain[Hash(id)][j]] != id
    ensures var o := t.chain[Hash(id)][k];
      && o in t.count && Apply(t, Find(id)) == t.(count := t.count[o := t.count[o] + 1])
      && TableOk(Apply(t, Find(id))) && Answer(t, Find(id)) == Some(o)
  {
    hide TableOk;
    var o := t.chain[Hash(id)][k];
    assert FirstWith(t.chain[Hash(id)], t.id, id) == k;
    CountAt(t, o);
    CountOk(t, o, t.count[o] + 1);
  }

  lemma FindMissIs<R>(t: Table<R>, id: int)
    requires TableOk(t) && IsId(id) && |t.chain| == NHASH
    requires forall j :: 0 <= j < |t.chain[Hash(id)]| ==>
      t.chain[Hash(id)][j] in t.id && t.id[t.chain[Hash(id)][j]] != id
    ensures Apply(t, Find(id)) == t && Answer(t, Find(id)) == None
  {
    hide TableOk;
    var k := FirstWith(t.chain[Hash(id)], t.id, id);
  }

  lemma ReleIs<R>(t: Table<R>, o: R)
    requires TableOk(t) && o in t.id
    ensures o in t.count && IsId(t.id[o]) && |t.chain| == NHASH && o in t.chain[Hash(t.id[o])]
    ensures TableOk(Apply(t, Rele(o)))
    ensures t.count[o] != 1 ==>
      t.count[o] > 1 && Apply(t, Rele(o)) == t.(count := t.count[o := t.count[o] - 1])
    ensures t.count[o] == 1 ==>
      var h := Hash(t.id[o]);
      Apply(t, Rele(o)) == Table(t.chain[h := Cut(t.chain[h], IndexOf(t.chain[h], o))], t.id - {o}, t.count - {o})
  {
    ApplyOk(t, Rele(o));
    assert Placed(t, o);
    hide TableOk;
  }

  lemma BucketOf<R>(t: Table<R>, h: nat)
    requires TableOk(t) && h < NHASH
    ensures |t.chain| == NHASH && InBucket(t.chain[h], t.id, h)
  {
  }

  lemma CutGone<R>(s: seq<R>, o: R, q: R)
    requires o in s && (forall j, k :: 0 <= j < k < |s| ==> s[j] != s[k])
    ensures q in Cut(s, IndexOf(s, o)) <==> q in s && q != o
  {
    var n := IndexOf(s, o);
    var c := Cut(s, n);
    assert forall j :: 0 <= j < |c| ==> c[j] == s[if j < n then j else j + 1];
    if q in s && q != o {
      var j :| 0 <= j < |s| && s[j] == q;
      assert c[if j < n then j else j - 1] == q;
    }
  }

  /** foo_find finds an object exactly when there is one with that id. */
  lemma FindMeans<R>(t: Table<R>, id: int)
    requires TableOk(t) && IsId(id)
    ensures Answer(t, Find(id)).Some? <==> exists o :: o in t.id && t.id[o] == id
    ensures var r := Answer(t, Find(id));
      r.Some? ==> r.value in t.id && t.id[r.value] == id
  {
    FoundIn(t, id);
    var k := FirstWith(t.chain[Hash(id)], t.id, id);
    if k == |t.chain[Hash(id)]| {
      forall o | o in t.id
        ensures t.id[o] != id
      {
        assert Placed(t, o);
      }
    } else {
      var o := t.chain[Hash(id)][k];
      assert o in t.id && t.id[o] == id;
    }
  }

  /** And if several have the id, the newest of them. */
  lemma FindsNewest<R>(t: Table<R>, o: R, id: int)
    requires TableOk(t) && IsId(id) && o !in t.id
    ensures TableOk(Apply(t, Alloc(o, id))) && Answer(Apply(t, Alloc(o, id)), Find(id)) == Some(o)
  {
    hide InBucket, Placed;
    AllocIs(t, o, id);
    var t' := Apply(t, Alloc(o, id));
    hide TableOk;
    assert t'.chain[Hash(id)][0] == o && t'.id[o] == id;
    assert FirstWith(t'.chain[Hash(id)], t'.id, id) == 0;
  }

  // ---- runs -----------------------------------------------------------------

  ghost predicate LegalRun<R>(ops: seq<Op<R>>)
    decreases |ops|, 0
  {
    ops == [] || (LegalRun(ops[..|ops| - 1]) && Legal(After(ops[..|ops| - 1]), ops[|ops| - 1]))
  }

  /** The table after the operations, made one after the other on an empty table. */
  ghost function After<R>(ops: seq<Op<R>>): (t: Table<R>)
    requires LegalRun(ops)
    ensures TableOk(t)
    decreases |ops|, 1
  {
    if ops == [] then EmptyTable()
    else
      var t := After(ops[..|ops| - 1]);
      ApplyOk(t, ops[|ops| - 1]);
      Apply(t, ops[|ops| - 1])
  }

  /** References to o given out and not yet released. */
  ghost function Outstanding<R>(ops: seq<Op<R>>, o: R): int
    requires LegalRun(ops)
  {
    if ops == [] then 0
    else
      var before, op := ops[..|ops| - 1], ops[|ops| - 1];
      Outstanding(before, o) +
      (if op.Rele? then (if op.o == o then -1 else 0)
       else if op.Hold? then (if op.o == o then 1 else 0)
       else if Answer(After(before), op) == Some(o) then 1 else 0)
  }

  /** An object is in the table exactly while references to it are outstanding, and its count is
      their number. */
  lemma {:induction false} CountsOutstanding<R>(ops: seq<Op<R>>, o: R)
    requires LegalRun(ops)
    ensures Outstanding(ops, o) == if o in After(ops).id then After(ops).count[o] else 0
    ensures o in After(ops).id <==> Outstanding(ops, o) > 0
  {
    if ops != [] {
      var before, op := ops[..|ops| - 1], ops[|ops| - 1];
      CountsOutstanding(before, o);
      StepOutstanding(After(before), op, o);
      assert After(ops) == Apply(After(before), op);
    }
    CountAtOrNot(After(ops), o);
  }

  lemma CountAtOrNot<R>(t: Table<R>, o: R)
    requires TableOk(t)
    ensures o in t.id ==> o in t.count && t.count[o] >= 1
  {
    if o in t.id { CountAt(t, o); }
  }

  ghost function CountOf<R>(t: Table<R>, o: R): int
    requires TableOk(t)
  {
    CountAtOrNot(t, o);
    if o in t.id then t.count[o] else 0
  }

  lemma StepOutstanding<R>(t: Table<R>, op: Op<R>, o: R)
    requires TableOk(t) && Legal(t, op)
    ensures TableOk(Apply(t, op))
    ensures CountOf(Apply(t, op), o) == CountOf(t, o) +
      (if op.Rele? then (if op.o == o then -1 else 0)
       else if op.Hold? then (if op.o == o then 1 else 0)
       else if Answer(t, op) == Some(o) then 1 else 0)
  {
    hide InBucket, Placed, TableOk;
    ApplyOk(t, op);
    CountAtOrNot(t, o);
    CountAtOrNot(Apply(t, op), o);
    match op
    case Find(id) => FoundIn(t, id);
    case Rele(q) => CountAt(t, q);
    case _ =>
  }
}
