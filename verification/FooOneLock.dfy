/** The table with a single lock (apue.3e/threads/mutex3.c). The lock is held from start to end of
    each function, so each is one atomic step. */
module FooOneLock {
  import opened Options
  import opened FooSpec

  class Foo {
    var f_count: int
    var f_id: int
    var f_next: Foo?

    constructor (id: int)
      ensures f_count == 1 && f_id == id && f_next == null
    {
      f_count, f_id, f_next := 1, id, null;
    }
  }

  function At(s: seq<Foo>, k: nat): Foo? { if k < |s| then s[k] else null }

  /** Following f_next from head visits exactly s. */
  ghost predicate ChainOk(head: Foo?, s: seq<Foo>)
    reads s`f_next
  {
    head == At(s, 0) && forall k :: 0 <= k < |s| ==> s[k].f_next == At(s, k + 1)
  }

  ghost predicate Within(s: seq<Foo>, nodes: set<Foo>) { forall o :: o in s ==> o in nodes }

  ghost predicate ListsOk(fh: array<Foo?>, chain: seq<seq<Foo>>, nodes: set<Foo>)
    reads fh, nodes`f_next
  {
    && fh.Length == NHASH == |chain|
    && forall h :: 0 <= h < NHASH ==> Within(chain[h], nodes) && ChainOk(fh[h], chain[h])
  }

  ghost predicate NodesOk(t: Table<Foo>)
    reads t.id.Keys`f_count, t.id.Keys`f_id
  {
    forall o :: o in t.id ==> o in t.count && o.f_id == t.id[o] && o.f_count == t.count[o]
  }

  class FooTable {
    const fh: array<Foo?>
    ghost var t: Table<Foo>

    ghost predicate Valid()
      reads this, fh, t.id.Keys
    {
      TableOk(t) && ListsOk(fh, t.chain, t.id.Keys) && NodesOk(t)
    }

    constructor ()
      ensures Valid() && fresh(fh) && t == EmptyTable()
    {
      fh := new Foo?[NHASH](_ => null);
      t := EmptyTable();
    }

    /** foo_alloc; memory says whether malloc and pthread_mutex_init succeed. */
    method Alloc(id: int, memory: bool) returns (fp: Foo?)
      requires Valid() && IsId(id)
      modifies this, fh
      ensures Valid()
      ensures memory <==> fp != null
      ensures fp != null ==> fresh(fp) && t == Apply(old(t), Op.Alloc(fp, id)) && fp.f_id == id
      ensures fp == null ==> t == old(t) && fh[..] == old(fh[..])
    {
      hide TableOk, Apply, Answer, ListsOk;
      if !memory {
        return null;
      }
      var foo := new Foo(id);
      AllocIs(t, foo, id);
      PushFront(Hash(id), foo);
      ghost var before := t;
      t := Apply(t, Op.Alloc(foo, id));
      assert t.id.Keys == before.id.Keys + {foo};
      fp := foo;
    }

    /** Puts foo at the head of list idx. */
    method PushFront(idx: nat, foo: Foo)
      requires idx < NHASH && ListsOk(fh, t.chain, t.id.Keys) && foo !in t.id
      modifies fh, foo`f_next
      ensures |t.chain| == NHASH
      ensures ListsOk(fh, t.chain[idx := [foo] + t.chain[idx]], t.id.Keys + {foo})
    {
      assert Within(t.chain[idx], t.id.Keys) && ChainOk(fh[idx], t.chain[idx]);
      foo.f_next := fh[idx];
      fh[idx] := foo;
      forall h | 0 <= h < NHASH && h != idx
        ensures Within(t.chain[h], t.id.Keys) && ChainOk(fh[h], t.chain[h])
      {
        assert Within(t.chain[h], t.id.Keys) && old(ChainOk(fh[h], t.chain[h]));
      }
    }

    /** foo_hold. */
    method Hold(fp: Foo)
      requires Valid() && fp in t.id
      modifies this, fp`f_count
      ensures Valid() && t == Apply(old(t), Op.Hold(fp))
    {
      hide TableOk, Apply, ListsOk;
      HoldIs(t, fp);
      fp.f_count := fp.f_count + 1;
      t := Apply(t, Op.Hold(fp));
    }

    /** foo_find. */
    method Find(id: int) returns (fp: Foo?)
      requires Valid() && IsId(id)
      modifies this, t.id.Keys`f_count
      ensures Valid() && t == Apply(old(t), Op.Find(id))
      ensures if fp == null then Answer(old(t), Op.Find(id)).None?
              else Answer(old(t), Op.Find(id)).Some? && Answer(old(t), Op.Find(id)).value == fp
    {
      hide TableOk, Apply, Answer, ListsOk, NodesOk;
      ghost var k: nat := 0;
      Start(Hash(id));
      ghost var s := t.chain[Hash(id)];
      fp := fh[Hash(id)];
      while fp != null
        invariant k <= |s| && fp == At(s, k)
        invariant forall j :: 0 <= j < k ==> s[j] in t.id && t.id[s[j]] != id
        invariant unchanged(this) && unchanged(t.id.Keys) && Valid()
        decreases |s| - k
      {
        Follow(Hash(id), k);
        if fp.f_id == id {
          FindHitIs(t, id, k);
          Count(fp);
          t := Apply(t, Op.Find(id));
          return;
        }
        fp := fp.f_next;
        k := k + 1;
      }
      FindMissIs(t, id);
    }

    lemma Start(h: nat)
      requires ListsOk(fh, t.chain, t.id.Keys) && h < NHASH
      ensures |t.chain| == NHASH && fh.Length == NHASH && fh[h] == At(t.chain[h], 0)
    {
      assert ChainOk(fh[h], t.chain[h]);
    }

    lemma Follow(h: nat, k: nat)
      requires ListsOk(fh, t.chain, t.id.Keys) && NodesOk(t) && h < NHASH && k < |t.chain[h]|
      ensures var o := t.chain[h][k]; o in t.id && o.f_next == At(t.chain[h], k + 1) && o.f_id == t.id[o]
    {
      assert Within(t.chain[h], t.id.Keys) && ChainOk(fh[h], t.chain[h]);
    }

    /** fp->f_count++ */
    method Count(fp: Foo)
      requires ListsOk(fh, t.chain, t.id.Keys) && NodesOk(t) && fp in t.id
      modifies fp`f_count
      ensures ListsOk(fh, t.chain, t.id.Keys)
      ensures NodesOk(t.(count := t.count[fp := t.count[fp] + 1]))
    {
      hide ListsOk;
      fp.f_count := fp.f_count + 1;
    }

    /** foo_rele: the last reference takes the object off its list. */
    method Rele(fp: Foo)
      requires Valid() && fp in t.id
      modifies this, fh, fp`f_count, t.id.Keys`f_next
      ensures Valid() && t == Apply(old(t), Op.Rele(fp))
    {
      hide TableOk, Apply, ListsOk, Cut, IndexOf;
      ReleIs(t, fp);
      ghost var before := t;
      fp.f_count := fp.f_count - 1;
      if fp.f_count == 0 {
        Unlink(Hash(fp.f_id), fp);
      }
      t := Apply(t, Op.Rele(fp));
    }

    /** Takes fp off list idx. */
    method Unlink(idx: nat, fp: Foo)
      requires TableOk(t) && ListsOk(fh, t.chain, t.id.Keys)
      requires idx < NHASH && fp in t.chain[idx]
      modifies fh, t.id.Keys`f_next
      ensures |t.chain| == NHASH
      ensures ListsOk(fh, t.chain[idx := Cut(t.chain[idx], IndexOf(t.chain[idx], fp))], t.id.Keys - {fp})
    {
      hide TableOk, IndexOf, InBucket, Cut, ChainOk;
      BucketDistinct(t, idx);
      ghost var s := t.chain[idx];
      assert Within(s, t.id.Keys) && ChainOk(fh[idx], s);
      ghost var c := Cut(s, IndexOf(s, fp));
      assert Within(c, t.id.Keys - {fp}) by { CutMembers(s, fp); }
      Splice(idx, fp, s);
      forall h | 0 <= h < NHASH && h != idx
        ensures Within(t.chain[h], t.id.Keys - {fp}) && ChainOk(fh[h], t.chain[h])
      {
        BucketsApart(t, idx, h);
        assert Within(t.chain[h], t.id.Keys) && old(ChainOk(fh[h], t.chain[h]));
      }
      assert ChainOk(fh[idx], c);
    }

    method Splice(idx: nat, fp: Foo, ghost s: seq<Foo>)
      requires fh.Length == NHASH && idx < NHASH && fp in s
      requires forall j, k :: 0 <= j < k < |s| ==> s[j] != s[k]
      requires ChainOk(fh[idx], s)
      modifies fh, s`f_next
      ensures ChainOk(fh[idx], Cut(s, IndexOf(s, fp)))
      ensures forall h :: 0 <= h < NHASH && h != idx ==> fh[h] == old(fh[h])
    {
      ghost var n := IndexOf(s, fp);
      hide IndexOf;
      ghost var k: nat := 0;
      var tfp := fh[idx];
      if tfp == fp {
        fh[idx] := fp.f_next;
      } else {
        while tfp.f_next != fp
          invariant k < n && tfp == s[k]
          invariant unchanged(fh) && unchanged(s`f_next)
          decreases n - k
        {
          tfp := tfp.f_next;
          k := k + 1;
        }
        tfp.f_next := fp.f_next;
      }
    }
  }

  lemma CutMembers(s: seq<Foo>, fp: Foo)
    requires fp in s && (forall j, k :: 0 <= j < k < |s| ==> s[j] != s[k])
    ensures forall q :: q in Cut(s, IndexOf(s, fp)) <==> q in s && q != fp
  {
    hide Cut, IndexOf;
    forall q ensures q in Cut(s, IndexOf(s, fp)) <==> q in s && q != fp { CutGone(s, fp, q); }
  }

  lemma BucketDistinct(t: Table<Foo>, idx: nat)
    requires TableOk(t) && idx < NHASH
    ensures forall j, k :: 0 <= j < k < |t.chain[idx]| ==> t.chain[idx][j] != t.chain[idx][k]
  {
    BucketOf(t, idx);
  }

  lemma BucketsApart(t: Table<Foo>, idx: nat, h: nat)
    requires TableOk(t) && idx < NHASH && h < NHASH && h != idx
    ensures forall i, j :: 0 <= i < |t.chain[idx]| && 0 <= j < |t.chain[h]| ==> t.chain[idx][i] != t.chain[h][j]
  {
    BucketOf(t, idx);
    BucketOf(t, h);
  }
}
