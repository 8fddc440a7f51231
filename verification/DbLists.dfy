/** The 137 hash chains and the free list of the index file, as sequences of record offsets
    that the pointers in the file link together, and the finite map they hold. */
module DbLists {
  import opened DbFormat
  import opened DbImage

  /** Where a record is: on a list, or taken off the lists by a process working on it. */
  datatype Home = OnList(c: nat) | Held(p: nat)

  /** chain[0] is the free list, chain[1 + h] the chain of hash value h; loc finds the record
      of each live key. */
  datatype Lists = Lists(chain: seq<seq<nat>>, home: map<nat, Home>, loc: map<string, nat>)

  function ListOf(key: string): (c: nat)
    ensures 0 < c < NLISTS
  {
    1 + Hash(key)
  }

  /** Offset of the pointer that leads to position i of a list. */
  function LocAt(head: nat, s: seq<nat>, i: nat): nat
    requires i <= |s|
  {
    if i == 0 then head else s[i - 1]
  }

  function NextAt(s: seq<nat>, i: nat): nat
    requires i <= |s|
  {
    if i < |s| then s[i] else 0
  }

  predicate LinkAt(ptr: map<nat, nat>, head: nat, s: seq<nat>, i: nat)
    requires i <= |s|
  {
    LocAt(head, s, i) in ptr && ptr[LocAt(head, s, i)] == NextAt(s, i)
  }

  /** Following the pointers from head visits exactly s and then ends at 0. */
  predicate Linked(ptr: map<nat, nat>, head: nat, s: seq<nat>) {
    forall i :: 0 <= i <= |s| ==> LinkAt(ptr, head, s, i)
  }

  predicate Distinct(s: seq<nat>) {
    forall i, j :: 0 <= i < j < |s| ==> s[i] != s[j]
  }

  predicate OnlyHome(s: seq<nat>, home: map<nat, Home>, c: nat) {
    forall i :: 0 <= i < |s| ==> s[i] in home && home[s[i]] == OnList(c)
  }

  predicate HomeOk(g: Lists, o: nat)
    requires o in g.home && |g.chain| == NLISTS
  {
    g.home[o].OnList? ==> g.home[o].c < NLISTS && o in g.chain[g.home[o].c]
  }

  /** Each record that is not held is on exactly one list, once. */
  predicate Placed(body: map<nat, Body>, g: Lists) {
    && |g.chain| == NLISTS
    && g.home.Keys == body.Keys
    && (forall c :: 0 <= c < NLISTS ==> Distinct(g.chain[c]) && OnlyHome(g.chain[c], g.home, c))
    && (forall o :: o in g.home ==> HomeOk(g, o))
  }

  predicate AllBlank(s: string) { forall i :: 0 <= i < |s| ==> s[i] == ' ' }

  predicate LiveAt(body: map<nat, Body>, g: Lists, o: nat) {
    && o in body && o in g.home
    && var k := body[o].key;
       g.home[o] == OnList(ListOf(k)) && k in g.loc && g.loc[k] == o
  }

  /** Free records have blank keys; a record on a hash chain is the only live one with its key,
      and sits on the chain of that key's hash. */
  predicate Keyed(body: map<nat, Body>, g: Lists) {
    && (forall o :: o in body && o in g.home && g.home[o] == OnList(0) ==> AllBlank(body[o].key))
    && (forall o :: o in body && o in g.home && g.home[o].OnList? && g.home[o].c > 0 ==> LiveAt(body, g, o))
    && (forall k :: k in g.loc ==> LiveAt(body, g, g.loc[k]) && body[g.loc[k]].key == k)
  }

  predicate AllLinked(ptr: map<nat, nat>, chain: seq<seq<nat>>) {
    |chain| == NLISTS && forall c :: 0 <= c < NLISTS ==> Linked(ptr, Head(c), chain[c])
  }

  predicate RecsAbove(body: map<nat, Body>) { forall o :: o in body ==> o >= REC_OFF }

  /** The pointers ptr arrange the records as g says. */
  predicate Struct(ptr: map<nat, nat>, body: map<nat, Body>, g: Lists) {
    RecsAbove(body) && Placed(body, g) && Keyed(body, g) && AllLinked(ptr, g.chain)
  }

  predicate HasValue(img: Image, g: Lists, k: string) {
    k in g.loc && g.loc[k] in img.body && img.body[g.loc[k]].datoff in img.ext
  }

  function Value(img: Image, g: Lists, k: string): string
    requires HasValue(img, g, k)
  {
    img.ext[img.body[g.loc[k]].datoff]
  }

  /** The map the database holds. */
  function Contents(img: Image, g: Lists): map<string, string> {
    map k | k in g.loc && HasValue(img, g, k) :: Value(img, g, k)
  }

  function EmptyChains(n: nat): (chain: seq<seq<nat>>)
    ensures |chain| == n && forall c :: 0 <= c < n ==> chain[c] == []
  {
    if n == 0 then [] else EmptyChains(n - 1) + [[]]
  }

  const EmptyLists := Lists(EmptyChains(NLISTS), map[], map[])

  lemma EmptyStruct()
    ensures Struct(EmptyImage.ptr, EmptyImage.body, EmptyLists)
    ensures Contents(EmptyImage, EmptyLists) == map[]
  {
  }

  // ---- one list -------------------------------------------------------------

  function Without(s: seq<nat>, i: nat): seq<nat>
    requires i < |s|
  {
    s[..i] + s[i + 1..]
  }

  lemma LinkedFrame(ptr: map<nat, nat>, head: nat, s: seq<nat>, o: nat, v: nat)
    requires Linked(ptr, head, s) && o != head && o !in s
    ensures Linked(ptr[o := v], head, s)
  {
    var ptr' := ptr[o := v];
    forall i | 0 <= i <= |s|
      ensures LinkAt(ptr', head, s, i)
    {
      assert LinkAt(ptr, head, s, i);
    }
  }

  lemma LinkedRemove(ptr: map<nat, nat>, head: nat, s: seq<nat>, i: nat)
    requires Linked(ptr, head, s) && Distinct(s) && head !in s && i < |s|
    ensures Linked(ptr[LocAt(head, s, i) := NextAt(s, i + 1)], head, Without(s, i))
  {
    var t := Without(s, i);
    var l := LocAt(head, s, i);
    var ptr' := ptr[l := NextAt(s, i + 1)];
    forall j | 0 <= j <= |t|
      ensures LinkAt(ptr', head, t, j)
    {
      assert LinkAt(ptr, head, s, j);
      assert LinkAt(ptr, head, s, j + 1);
    }
  }

  lemma LinkedPush(ptr: map<nat, nat>, head: nat, s: seq<nat>, o: nat)
    requires Linked(ptr, head, s) && o !in s && o != head && head !in s
    requires o in ptr && ptr[o] == NextAt(s, 0)
    ensures Linked(ptr[head := o], head, [o] + s)
  {
    var t := [o] + s;
    var ptr' := ptr[head := o];
    forall j | 0 <= j <= |t|
      ensures LinkAt(ptr', head, t, j)
    {
      if j > 1 { assert LinkAt(ptr, head, s, j - 1); }
    }
  }

  // ---- taking a record off a list -------------------------------------------

  function Remove(g: Lists, c: nat, i: nat, p: nat, key: string): Lists
    requires c < |g.chain| && i < |g.chain[c]|
  {
    var o := g.chain[c][i];
    Lists(g.chain[c := Without(g.chain[c], i)], g.home[o := Held(p)],
          if c == 0 then g.loc else g.loc - {key})
  }

  lemma RemovePlaced(body: map<nat, Body>, g: Lists, c: nat, i: nat, p: nat, key: string)
    requires Placed(body, g) && c < NLISTS && i < |g.chain[c]|
    ensures Placed(body, Remove(g, c, i, p, key))
  {
    var g' := Remove(g, c, i, p, key);
    var s, o := g.chain[c], g.chain[c][i];
    assert Distinct(s) && OnlyHome(s, g.home, c);
    forall d | 0 <= d < NLISTS
      ensures Distinct(g'.chain[d]) && OnlyHome(g'.chain[d], g'.home, d)
    {
      assert Distinct(g.chain[d]) && OnlyHome(g.chain[d], g.home, d);
    }
    forall q | q in g'.home
      ensures HomeOk(g', q)
    {
      assert HomeOk(g, q);
      if q != o && g.home[q] == OnList(c) {
        var j :| 0 <= j < |s| && s[j] == q;
        assert Without(s, i)[if j < i then j else j - 1] == q;
      }
    }
  }

  lemma RemoveKeyed(body: map<nat, Body>, g: Lists, c: nat, i: nat, p: nat)
    requires Placed(body, g) && Keyed(body, g) && c < NLISTS && i < |g.chain[c]|
    requires g.chain[c][i] in body
    ensures Keyed(body, Remove(g, c, i, p, body[g.chain[c][i]].key))
  {
    var o := g.chain[c][i];
    var g' := Remove(g, c, i, p, body[o].key);
    assert OnlyHome(g.chain[c], g.home, c);
    assert g.home[o] == OnList(c);
    forall q | q in body && g'.home[q].OnList? && g'.home[q].c > 0
      ensures LiveAt(body, g', q)
    {
      assert LiveAt(body, g, q);
      assert c > 0 ==> LiveAt(body, g, o);
    }
    forall k | k in g'.loc
      ensures LiveAt(body, g', g'.loc[k]) && body[g'.loc[k]].key == k
    {
      assert LiveAt(body, g, g.loc[k]);
    }
  }

  lemma RemoveStruct(ptr: map<nat, nat>, body: map<nat, Body>, g: Lists, c: nat, i: nat, p: nat)
    requires Struct(ptr, body, g) && c < NLISTS && i < |g.chain[c]|
    ensures g.chain[c][i] in body && g.home[g.chain[c][i]] == OnList(c)
    ensures Struct(ptr[LocAt(Head(c), g.chain[c], i) := NextAt(g.chain[c], i + 1)], body,
                   Remove(g, c, i, p, body[g.chain[c][i]].key))
  {
    var l, v := LocAt(Head(c), g.chain[c], i), NextAt(g.chain[c], i + 1);
    assert OnlyHome(g.chain[c], g.home, c);
    var g' := Remove(g, c, i, p, body[g.chain[c][i]].key);
    RemovePlaced(body, g, c, i, p, body[g.chain[c][i]].key);
    RemoveKeyed(body, g, c, i, p);
    forall d | 0 <= d < NLISTS
      ensures Linked(ptr[l := v], Head(d), g'.chain[d])
    {
      HeadNotOnList(body, g, c, d);
      assert Linked(ptr, Head(d), g.chain[d]);
      if d == c {
        LinkedRemove(ptr, Head(c), g.chain[c], i);
      } else {
        if i > 0 { NotOnOther(body, g, c, i - 1, d); }
        LinkedFrame(ptr, Head(d), g.chain[d], l, v);
      }
    }
  }

  lemma HeadNotOnList(body: map<nat, Body>, g: Lists, c: nat, d: nat)
    requires RecsAbove(body) && Placed(body, g) && c < NLISTS && d < NLISTS
    ensures Head(c) !in g.chain[d] && Head(c) < REC_OFF
    ensures Distinct(g.chain[d])
  {
    assert Distinct(g.chain[d]) && OnlyHome(g.chain[d], g.home, d);
  }

  lemma NotOnOther(body: map<nat, Body>, g: Lists, c: nat, i: nat, d: nat)
    requires RecsAbove(body) && Placed(body, g) && c < NLISTS && d < NLISTS && c != d
    requires i < |g.chain[c]|
    ensures g.chain[c][i] !in g.chain[d] && g.chain[c][i] != Head(d)
  {
    assert OnlyHome(g.chain[c], g.home, c) && OnlyHome(g.chain[d], g.home, d);
  }

  // ---- rewriting a held record ----------------------------------------------

  lemma HeldNotOnList(body: map<nat, Body>, g: Lists, o: nat, d: nat)
    requires RecsAbove(body) && Placed(body, g) && o in g.home && g.home[o].Held? && d < NLISTS
    ensures o !in g.chain[d] && o != Head(d)
  {
    assert OnlyHome(g.chain[d], g.home, d);
  }

  lemma HeldRewrite(ptr: map<nat, nat>, body: map<nat, Body>, g: Lists, o: nat, v: nat, b: Body)
    requires Struct(ptr, body, g) && o in g.home && g.home[o].Held?
    ensures Struct(ptr[o := v], body[o := b], g)
  {
    forall d | 0 <= d < NLISTS
      ensures Linked(ptr[o := v], Head(d), g.chain[d])
    {
      HeldNotOnList(body, g, o, d);
      LinkedFrame(ptr, Head(d), g.chain[d], o, v);
    }
    forall q | q in body && q in g.home && g.home[q].OnList? && g.home[q].c > 0
      ensures LiveAt(body[o := b], g, q)
    {
      assert LiveAt(body, g, q);
    }
    forall k | k in g.loc
      ensures LiveAt(body[o := b], g, g.loc[k]) && body[o := b][g.loc[k]].key == k
    {
      assert LiveAt(body, g, g.loc[k]);
    }
  }

  /** A new record enters the file held by the process that appended it. */
  lemma HeldAppend(ptr: map<nat, nat>, body: map<nat, Body>, g: Lists, o: nat, v: nat, b: Body, p: nat)
    requires Struct(ptr, body, g) && o !in body && o >= REC_OFF
    ensures Struct(ptr[o := v], body[o := b], g.(home := g.home[o := Held(p)]))
  {
    var g' := g.(home := g.home[o := Held(p)]);
    forall d | 0 <= d < NLISTS
      ensures Linked(ptr[o := v], Head(d), g.chain[d])
      ensures Distinct(g'.chain[d]) && OnlyHome(g'.chain[d], g'.home, d)
    {
      assert Distinct(g.chain[d]) && OnlyHome(g.chain[d], g.home, d);
      LinkedFrame(ptr, Head(d), g.chain[d], o, v);
    }
    forall q | q in g'.home
      ensures HomeOk(g', q)
    {
      if q != o { assert HomeOk(g, q); }
    }
    forall q | q in body && q in g.home && g.home[q].OnList? && g.home[q].c > 0
      ensures LiveAt(body[o := b], g', q)
    {
      assert LiveAt(body, g, q);
    }
    forall k | k in g.loc
      ensures LiveAt(body[o := b], g', g.loc[k]) && body[o := b][g.loc[k]].key == k
    {
      assert LiveAt(body, g, g.loc[k]);
    }
  }

  // ---- putting a held record at the front of a list -------------------------

  function Push(g: Lists, c: nat, o: nat, key: string): Lists
    requires c < |g.chain|
  {
    Lists(g.chain[c := [o] + g.chain[c]], g.home[o := OnList(c)],
          if c == 0 then g.loc else g.loc[key := o])
  }

  lemma PushPlaced(body: map<nat, Body>, g: Lists, c: nat, o: nat, key: string)
    requires RecsAbove(body) && Placed(body, g) && c < NLISTS && o in g.home && g.home[o].Held?
    ensures Placed(body, Push(g, c, o, key))
  {
    var g' := Push(g, c, o, key);
    HeldNotOnList(body, g, o, c);
    forall d | 0 <= d < NLISTS
      ensures Distinct(g'.chain[d]) && OnlyHome(g'.chain[d], g'.home, d)
    {
      assert Distinct(g.chain[d]) && OnlyHome(g.chain[d], g.home, d);
    }
    forall q | q in g'.home
      ensures HomeOk(g', q)
    {
      assert HomeOk(g, q);
      if q == o {
        assert g'.chain[c][0] == o;
      } else if g.home[q] == OnList(c) {
        var j :| 0 <= j < |g.chain[c]| && g.chain[c][j] == q;
        assert g'.chain[c][j + 1] == q;
      }
    }
  }

  lemma PushKeyed(body: map<nat, Body>, g: Lists, c: nat, o: nat)
    requires Placed(body, g) && Keyed(body, g) && c < NLISTS && o in g.home && g.home[o].Held?
    requires if c == 0 then AllBlank(body[o].key) else c == ListOf(body[o].key) && body[o].key !in g.loc
    ensures Keyed(body, Push(g, c, o, body[o].key))
  {
    var g' := Push(g, c, o, body[o].key);
    forall q | q in body && g'.home[q].OnList? && g'.home[q].c > 0
      ensures LiveAt(body, g', q)
    {
      if q != o { assert LiveAt(body, g, q); }
    }
    forall k | k in g'.loc
      ensures LiveAt(body, g', g'.loc[k]) && body[g'.loc[k]].key == k
    {
      if g'.loc[k] != o { assert LiveAt(body, g, g.loc[k]); }
      assert k in g.loc ==> LiveAt(body, g, g.loc[k]);
    }
  }

  lemma PushStruct(ptr: map<nat, nat>, body: map<nat, Body>, g: Lists, c: nat, o: nat)
    requires Struct(ptr, body, g) && c < NLISTS && o in g.home && g.home[o].Held?
    requires o in ptr && ptr[o] == NextAt(g.chain[c], 0)
    requires if c == 0 then AllBlank(body[o].key) else c == ListOf(body[o].key) && body[o].key !in g.loc
    ensures Struct(ptr[Head(c) := o], body, Push(g, c, o, body[o].key))
  {
    var g' := Push(g, c, o, body[o].key);
    PushPlaced(body, g, c, o, body[o].key);
    PushKeyed(body, g, c, o);
    forall d | 0 <= d < NLISTS
      ensures Linked(ptr[Head(c) := o], Head(d), g'.chain[d])
    {
      HeadNotOnList(body, g, c, d);
      HeldNotOnList(body, g, o, d);
      assert Linked(ptr, Head(d), g.chain[d]);
      if d == c {
        LinkedPush(ptr, Head(c), g.chain[c], o);
      } else {
        LinkedFrame(ptr, Head(d), g.chain[d], Head(c), o);
      }
    }
  }
}
