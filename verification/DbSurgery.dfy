/** What the pointer surgery of db.c does to the lists and to the map they hold. */
module DbSurgery {
  import opened DbFormat
  import opened DbImage
  import opened DbLists

  ghost predicate ExtUsed(body: map<nat, Body>, d: nat) {
    exists o :: o in body && body[o].datoff == d
  }

  /** The pointers arrange every record on the lists except those held, and every data extent
      belongs to a record. */
  ghost predicate Settled(img: Image, g: Lists, held: set<nat>) {
    && Struct(img.ptr, img.body, g)
    && (forall o :: o in g.home ==> (g.home[o].Held? <==> o in held))
    && (forall d {:trigger ExtUsed(img.body, d)} :: d in img.ext ==> ExtUsed(img.body, d))
  }

  lemma EmptySettled()
    ensures Settled(EmptyImage, EmptyLists, {}) && Contents(EmptyImage, EmptyLists) == map[]
  {
    EmptyStruct();
  }

  // ---- searching a list -----------------------------------------------------

  lemma OnChain(body: map<nat, Body>, g: Lists, c: nat, i: nat)
    requires Placed(body, g) && c < NLISTS && i < |g.chain[c]|
    ensures g.chain[c][i] in body && g.home[g.chain[c][i]] == OnList(c)
    ensures g.chain[c][i] in g.chain[c]
  {
    assert OnlyHome(g.chain[c], g.home, c);
  }

  /** What is met when the pointers of list c are followed to position i. */
  lemma ListStep(img: Image, g: Lists, c: nat, i: nat)
    requires Wf(img) && Struct(img.ptr, img.body, g) && c < NLISTS && i <= |g.chain[c]|
    ensures LocAt(Head(c), g.chain[c], i) in img.ptr
    ensures img.ptr[LocAt(Head(c), g.chain[c], i)] == NextAt(g.chain[c], i) <= PTR_MAX
    ensures i < |g.chain[c]| ==>
      && g.chain[c][i] in img.body && g.chain[c][i] in img.ptr && g.chain[c][i] >= REC_OFF
      && img.ptr[g.chain[c][i]] == NextAt(g.chain[c], i + 1)
  {
    hide Keyed, RecordsTile, ExtentsTile, RecordsOwnExtents, BodyOk, HomeOk;
    assert Linked(img.ptr, Head(c), g.chain[c]);
    assert LinkAt(img.ptr, Head(c), g.chain[c], i);
    if i < |g.chain[c]| {
      OnChain(img.body, g, c, i);
      assert LinkAt(img.ptr, Head(c), g.chain[c], i + 1);
    }
  }

  /** A record found on the chain of its key's hash is the live record of the key. */
  lemma FoundIsLive(body: map<nat, Body>, g: Lists, key: string, i: nat)
    requires Placed(body, g) && Keyed(body, g) && i < |g.chain[ListOf(key)]|
    requires g.chain[ListOf(key)][i] in body && body[g.chain[ListOf(key)][i]].key == key
    ensures key in g.loc && g.loc[key] == g.chain[ListOf(key)][i]
  {
    OnChain(body, g, ListOf(key), i);
    assert LiveAt(body, g, g.chain[ListOf(key)][i]);
  }

  /** A key met nowhere on the chain of its hash is not in the database. */
  lemma NotFoundIsAbsent(body: map<nat, Body>, g: Lists, key: string)
    requires Placed(body, g) && Keyed(body, g)
    requires forall i :: 0 <= i < |g.chain[ListOf(key)]| ==>
               g.chain[ListOf(key)][i] in body && body[g.chain[ListOf(key)][i]].key != key
    ensures key !in g.loc
  {
    assert key in g.loc ==> LiveAt(body, g, g.loc[key]) && HomeOk(g, g.loc[key]);
  }

  lemma ContentsDomain(img: Image, g: Lists)
    requires Keyed(img.body, g) && RecordsOwnExtents(img.body, img.ext)
    ensures Contents(img, g).Keys == g.loc.Keys
    ensures forall k :: k in g.loc ==> (LiveAt(img.body, g, g.loc[k])
              && Contents(img, g)[k] == img.ext[img.body[g.loc[k]].datoff]
              && |Contents(img, g)[k]| + 1 == img.body[g.loc[k]].datlen)
  {
    forall k | k in g.loc
      ensures LiveAt(img.body, g, g.loc[k]) && k in Contents(img, g)
    {
      assert LiveAt(img.body, g, g.loc[k]);
    }
  }

  // ---- single steps ---------------------------------------------------------

  lemma RemoveSettled(img: Image, g: Lists, held: set<nat>, c: nat, i: nat, p: nat)
    requires Settled(img, g, held) && c < NLISTS && i < |g.chain[c]|
    ensures g.chain[c][i] in img.body
    ensures var o := g.chain[c][i];
      Settled(SetPtr(img, LocAt(Head(c), g.chain[c], i), NextAt(g.chain[c], i + 1)),
              Remove(g, c, i, p, img.body[o].key), held + {o})
  {
    hide Struct;
    RemoveStruct(img.ptr, img.body, g, c, i, p);
  }

  lemma RewriteSettled(img: Image, g: Lists, held: set<nat>, o: nat, v: nat, b: Body)
    requires Settled(img, g, held) && o in held && o in g.home && o in img.body
    requires b.datoff == img.body[o].datoff
    ensures Settled(PutRec(img, o, v, b), g, held)
  {
    hide Struct;
    HeldRewrite(img.ptr, img.body, g, o, v, b);
    forall d | d in img.ext
      ensures ExtUsed(img.body[o := b], d)
    {
      assert ExtUsed(img.body, d);
      var q :| q in img.body && img.body[q].datoff == d;
      assert q in img.body[o := b] && img.body[o := b][q].datoff == d;
    }
  }

  lemma AppendSettled(img: Image, g: Lists, held: set<nat>, data: string, v: nat, b: Body, p: nat)
    requires Settled(img, g, held) && img.idxEnd !in img.body && img.idxEnd >= REC_OFF
    requires b.datoff == img.datEnd
    ensures Settled(AppendRec(AppendExt(img, data), v, b), g.(home := g.home[img.idxEnd := Held(p)]),
                    held + {img.idxEnd})
  {
    hide Struct;
    var o := img.idxEnd;
    HeldAppend(img.ptr, img.body, g, o, v, b, p);
    var ext' := img.ext[img.datEnd := data];
    forall d | d in ext'
      ensures ExtUsed(img.body[o := b], d)
    {
      if d == img.datEnd {
        assert img.body[o := b][o].datoff == d;
      } else {
        assert ExtUsed(img.body, d);
        var q :| q in img.body && img.body[q].datoff == d;
        assert q in img.body[o := b] && img.body[o := b][q].datoff == d;
      }
    }
  }

  lemma PushSettled(img: Image, g: Lists, held: set<nat>, c: nat, o: nat)
    requires Settled(img, g, held) && c < NLISTS && o in g.home && o in held && o in img.body
    requires o in img.ptr && img.ptr[o] == NextAt(g.chain[c], 0)
    requires if c == 0 then AllBlank(img.body[o].key)
             else c == ListOf(img.body[o].key) && img.body[o].key !in g.loc
    ensures Settled(SetPtr(img, Head(c), o), Push(g, c, o, img.body[o].key), held - {o})
  {
    hide Struct;
    PushStruct(img.ptr, img.body, g, c, o);
  }

  // ---- whole operations -----------------------------------------------------

  function BlankBody(b: Body): Body { MakeBody(Blanks(|b.key|), b.datoff, b.datlen) }

  /** The files after _db_dodelete: the extent is blanked, the record is blanked and points at
      the old free list, the free list points at it, and its chain bypasses it. */
  function DeleteImage(img: Image, g: Lists, c: nat, i: nat): Image
    requires c < |g.chain| && i < |g.chain[c]| && g.chain[c][i] in img.body && FREE_OFF in img.ptr
    requires img.body[g.chain[c][i]].datlen > 0
  {
    var o := g.chain[c][i];
    var b := img.body[o];
    var img1 := PutExt(img, b.datoff, Blanks(b.datlen - 1));
    var img2 := PutRec(img1, o, img.ptr[FREE_OFF], BlankBody(b));
    SetPtr(SetPtr(img2, FREE_OFF, o), LocAt(Head(c), g.chain[c], i), NextAt(g.chain[c], i + 1))
  }

  function DeleteLists(img: Image, g: Lists, c: nat, i: nat): Lists
    requires c < |g.chain| && i < |g.chain[c]| && g.chain[c][i] in img.body && |g.chain| > 0
  {
    var o := g.chain[c][i];
    Push(Remove(g, c, i, 0, img.body[o].key), 0, o, Blanks(|img.body[o].key|))
  }

  lemma PutExtSettled(img: Image, g: Lists, held: set<nat>, d: nat, data: string)
    requires Settled(img, g, held) && d in img.ext
    ensures Settled(PutExt(img, d, data), g, held)
  {
    hide Struct;
  }

  lemma DeletePlaces(img: Image, g: Lists, c: nat, i: nat)
    requires Wf(img) && Struct(img.ptr, img.body, g) && 0 < c < NLISTS && i < |g.chain[c]|
    ensures var o := g.chain[c][i];
      && o in img.body && img.body[o].datlen > 0 && FREE_OFF in img.ptr
      && img.body[o].datoff in img.ext && BodyOk(img.body[o])
      && o != LocAt(Head(c), g.chain[c], i) && o != FREE_OFF && LocAt(Head(c), g.chain[c], i) != FREE_OFF
      && o in g.home && o in img.ptr && img.ptr[FREE_OFF] == NextAt(g.chain[0], 0)
  {
    hide LineLen, ExtentsTile, RecordsTile, Keyed;
    OnChain(img.body, g, c, i);
    if i > 0 { OnChain(img.body, g, c, i - 1); }
    assert Distinct(g.chain[c]);
    assert Linked(img.ptr, Head(0), g.chain[0]);
    assert LinkAt(img.ptr, Head(0), g.chain[0], 0);
  }

  /** Taking the record off its chain first gives the same files in the end. */
  lemma DeleteImageIs(img: Image, g: Lists, c: nat, i: nat)
    requires c < |g.chain| && i < |g.chain[c]| && g.chain[c][i] in img.body && FREE_OFF in img.ptr
    requires img.body[g.chain[c][i]].datlen > 0
    requires var o, l := g.chain[c][i], LocAt(Head(c), g.chain[c], i);
      o != l && o != FREE_OFF && l != FREE_OFF
    ensures var o, b := g.chain[c][i], img.body[g.chain[c][i]];
      DeleteImage(img, g, c, i) ==
      PutExt(SetPtr(PutRec(SetPtr(img, LocAt(Head(c), g.chain[c], i), NextAt(g.chain[c], i + 1)),
                           o, img.ptr[FREE_OFF], BlankBody(b)), Head(0), o),
             b.datoff, Blanks(b.datlen - 1))
  {
  }

  /** Deleting leaves every record on a list again. */
  lemma DeleteSettled(img: Image, g: Lists, c: nat, i: nat)
    requires Wf(img) && Settled(img, g, {}) && 0 < c < NLISTS && i < |g.chain[c]|
    ensures g.chain[c][i] in img.body
    ensures img.body[g.chain[c][i]].datlen > 0 && FREE_OFF in img.ptr
    ensures Settled(DeleteImage(img, g, c, i), DeleteLists(img, g, c, i), {})
  {
    hide Settled, Struct, Wf, PutExt, DeleteImage, BlankBody, Linked;
    SettledStruct(img, g, {});
    DeletePlaces(img, g, c, i);
    DeleteImageIs(img, g, c, i);
    var s, o := g.chain[c], g.chain[c][i];
    var b, f := img.body[o], img.ptr[FREE_OFF];
    var imgA, gA := SetPtr(img, LocAt(Head(c), s, i), NextAt(s, i + 1)), Remove(g, c, i, 0, b.key);
    assert {} + {o} == {o} && {o} - {o} == {};
    RemoveSettled(img, g, {}, c, i, 0);
    assert BlankBody(b).datoff == b.datoff && BlankBody(b).key == Blanks(|b.key|) by { BlankBodyIs(b); }
    RewriteSettled(imgA, gA, {o}, o, f, BlankBody(b));
    var imgB := PutRec(imgA, o, f, BlankBody(b));
    PushSettled(imgB, gA, {o}, 0, o);
    PutExtSettled(SetPtr(imgB, Head(0), o), DeleteLists(img, g, c, i), {}, b.datoff, Blanks(b.datlen - 1));
  }

  lemma SettledStruct(img: Image, g: Lists, held: set<nat>)
    requires Settled(img, g, held)
    ensures Struct(img.ptr, img.body, g) && |g.chain| == NLISTS
  {
  }

  lemma BlankBodyIs(b: Body)
    ensures BlankBody(b).datoff == b.datoff && BlankBody(b).key == Blanks(|b.key|)
    ensures BodyOk(b) ==> BodyOk(BlankBody(b)) && SameShape(b, BlankBody(b))
  {
    if BodyOk(b) { SameShapeSize(b, Blanks(|b.key|)); }
  }

  // ---- what the steps do to the map -----------------------------------------

  /** No live key's data is at d. */
  predicate NotLiveExt(img: Image, g: Lists, d: nat) {
    forall k :: k in g.loc && g.loc[k] in img.body ==> img.body[g.loc[k]].datoff != d
  }

  lemma RemoveContents(img: Image, g: Lists, c: nat, i: nat, p: nat, key: string)
    requires c < |g.chain| && i < |g.chain[c]|
    ensures Contents(img, Remove(g, c, i, p, key)) == if c == 0 then Contents(img, g) else Contents(img, g) - {key}
  {
  }

  lemma PushContents(img: Image, g: Lists, c: nat, o: nat, key: string)
    requires c < |g.chain| && o in img.body && img.body[o].datoff in img.ext
    ensures Contents(img, Push(g, c, o, key)) ==
      if c == 0 then Contents(img, g) else Contents(img, g)[key := img.ext[img.body[o].datoff]]
  {
  }

  lemma NotLiveRecord(img: Image, g: Lists, o: nat)
    requires Keyed(img.body, g) && RecordsOwnExtents(img.body, img.ext) && o in img.body && o in g.home
    requires !(g.home[o].OnList? && g.home[o].c > 0)
    ensures forall k :: k in g.loc ==> g.loc[k] != o
    ensures NotLiveExt(img, g, img.body[o].datoff)
  {
    forall k | k in g.loc
      ensures g.loc[k] != o && g.loc[k] in img.body
    {
      assert LiveAt(img.body, g, g.loc[k]);
    }
  }

  lemma RewriteContents(img: Image, g: Lists, o: nat, v: nat, b: Body)
    requires forall k :: k in g.loc ==> g.loc[k] != o
    ensures Contents(PutRec(img, o, v, b), g) == Contents(img, g)
  {
    SameContents(img, PutRec(img, o, v, b), g);
  }

  lemma SameContents(img: Image, img': Image, g: Lists)
    requires forall k :: k in g.loc ==>
      HasValue(img, g, k) == HasValue(img', g, k) && (HasValue(img, g, k) ==> Value(img, g, k) == Value(img', g, k))
    ensures Contents(img, g) == Contents(img', g)
  {
    hide HasValue, Value;
  }

  lemma PutExtContents(img: Image, g: Lists, d: nat, data: string)
    requires NotLiveExt(img, g, d)
    ensures Contents(PutExt(img, d, data), g) == Contents(img, g)
  {
  }

  lemma AppendContents(img: Image, g: Lists, data: string, v: nat, b: Body)
    requires Keyed(img.body, g) && RecordsOwnExtents(img.body, img.ext)
    requires img.idxEnd !in img.body && img.datEnd !in img.ext
    ensures Contents(AppendRec(AppendExt(img, data), v, b), g) == Contents(img, g)
  {
    hide Contents;
    var img' := AppendRec(AppendExt(img, data), v, b);
    forall k | k in g.loc
      ensures HasValue(img, g, k) && HasValue(img', g, k) && Value(img, g, k) == Value(img', g, k)
    {
      assert LiveAt(img.body, g, g.loc[k]);
    }
    SameContents(img, img', g);
  }

  /** Writing new data over a live record's extent changes the value of that key alone. */
  lemma OverwriteContents(img: Image, g: Lists, key: string, data: string)
    requires Keyed(img.body, g) && RecordsOwnExtents(img.body, img.ext) && key in g.loc
    ensures g.loc[key] in img.body
    ensures Contents(PutExt(img, img.body[g.loc[key]].datoff, data), g) == Contents(img, g)[key := data]
  {
    hide HasValue, Value;
    var o := g.loc[key];
    assert LiveAt(img.body, g, o);
    var img' := PutExt(img, img.body[o].datoff, data);
    forall k | k in g.loc
      ensures HasValue(img, g, k) && HasValue(img', g, k)
      ensures Value(img', g, k) == if k == key then data else Value(img, g, k)
    {
      OverwriteValue(img, g, key, data, k);
    }
  }

  lemma OverwriteValue(img: Image, g: Lists, key: string, data: string, k: string)
    requires Keyed(img.body, g) && RecordsOwnExtents(img.body, img.ext) && key in g.loc && k in g.loc
    requires g.loc[key] in img.body
    ensures var img' := PutExt(img, img.body[g.loc[key]].datoff, data);
      && HasValue(img, g, k) && HasValue(img', g, k)
      && Value(img', g, k) == if k == key then data else Value(img, g, k)
  {
    assert LiveAt(img.body, g, g.loc[k]) && LiveAt(img.body, g, g.loc[key]);
  }

  /** Deleting removes exactly the record's key from the map. */
  lemma DeleteContents(img: Image, g: Lists, c: nat, i: nat)
    requires Wf(img) && Struct(img.ptr, img.body, g) && 0 < c < NLISTS && i < |g.chain[c]|
    ensures g.chain[c][i] in img.body && img.body[g.chain[c][i]].datlen > 0 && FREE_OFF in img.ptr
    ensures Contents(DeleteImage(img, g, c, i), DeleteLists(img, g, c, i)) ==
            Contents(img, g) - {img.body[g.chain[c][i]].key}
  {
    hide Linked, Keyed, LineLen, RecordsTile, ExtentsTile, PointersOk, LinesOk, Contents;
    DeletePlaces(img, g, c, i);
    OnChain(img.body, g, c, i);
    var o := g.chain[c][i];
    var b := img.body[o];
    var g1 := Remove(g, c, i, 0, b.key);
    RemoveKeyed(img.body, g, c, i, 0);
    RemoveContents(img, g, c, i, 0, b.key);
    NotLiveRecord(img, g1, o);
    var img1 := PutExt(img, b.datoff, Blanks(b.datlen - 1));
    PutExtContents(img, g1, b.datoff, Blanks(b.datlen - 1));
    RewriteContents(img1, g1, o, img.ptr[FREE_OFF], BlankBody(b));
    var img2 := PutRec(img1, o, img.ptr[FREE_OFF], BlankBody(b));
    PushContents(img2, g1, 0, o, Blanks(|b.key|));
    SetPtrContents(img2, DeleteLists(img, g, c, i), FREE_OFF, o);
    SetPtrContents(SetPtr(img2, FREE_OFF, o), DeleteLists(img, g, c, i),
                   LocAt(Head(c), g.chain[c], i), NextAt(g.chain[c], i + 1));
  }

  lemma SetPtrContents(img: Image, g: Lists, o: nat, v: nat)
    ensures Contents(SetPtr(img, o, v), g) == Contents(img, g)
  {
    SameContents(img, SetPtr(img, o, v), g);
  }
}
