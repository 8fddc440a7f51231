/** The finite map a database behaves as. */
module DbSpec {
  datatype Errno = NoErr | EINVAL | ENOENT

  const DB_INSERT := 1
  const DB_REPLACE := 2
  const DB_STORE := 3

  datatype Op = Fetch(key: string) | Delete(key: string) | Store(key: string, data: string, flag: int)

  datatype Result = Data(data: string) | NoData | Code(rc: int, errno: Errno)

  predicate GoodFlag(flag: int) { flag == DB_INSERT || flag == DB_REPLACE || flag == DB_STORE }

  /** The map after an operation. */
  function Apply(m: map<string, string>, op: Op): map<string, string> {
    match op
    case Fetch(_) => m
    case Delete(key) => m - {key}
    case Store(key, data, flag) =>
      if !GoodFlag(flag) || (flag == DB_REPLACE && key !in m) || (flag == DB_INSERT && key in m)
      then m else m[key := data]
  }

  /** What an operation answers. */
  function Answer(m: map<string, string>, op: Op): Result {
    match op
    case Fetch(key) => if key in m then Data(m[key]) else NoData
    case Delete(key) => Code(if key in m then 0 else -1, NoErr)
    case Store(key, data, flag) =>
      if !GoodFlag(flag) then Code(-1, EINVAL)
      else if flag == DB_REPLACE && key !in m then Code(-1, ENOENT)
      else if flag == DB_INSERT && key in m then Code(1, NoErr)
      else Code(0, NoErr)
  }

  function ApplyAll(m: map<string, string>, ops: seq<Op>): map<string, string> {
    if ops == [] then m else Apply(ApplyAll(m, ops[..|ops| - 1]), ops[|ops| - 1])
  }

  function Answers(m: map<string, string>, ops: seq<Op>): (rs: seq<Result>)
    ensures |rs| == |ops|
  {
    if ops == [] then []
    else Answers(m, ops[..|ops| - 1]) + [Answer(ApplyAll(m, ops[..|ops| - 1]), ops[|ops| - 1])]
  }

  // ---- what the answers of a sequence of calls mean ------------------------

  lemma {:induction false} AnswerAt(ops: seq<Op>, n: nat)
    requires n < |ops|
    ensures Answers(map[], ops)[n] == Answer(ApplyAll(map[], ops[..n]), ops[n])
    ensures ApplyAll(map[], ops[..n + 1]) == Apply(ApplyAll(map[], ops[..n]), ops[n])
  {
    assert ops[..n + 1][..n] == ops[..n];
    if n < |ops| - 1 {
      var m := |ops| - 1;
      AnswerAt(ops[..m], n);
      assert ops[..m][..n] == ops[..n] && ops[..m][n] == ops[n];
    } else {
      assert ops[..n + 1] == ops;
    }
  }

  function MapsOf(ops: seq<Op>, k: nat): (maps: seq<map<string, string>>)
    requires k <= |ops|
    ensures |maps| == k + 1 && forall n :: 0 <= n <= k ==> maps[n] == ApplyAll(map[], ops[..n])
  {
    (if k == 0 then [] else MapsOf(ops, k - 1)) + [ApplyAll(map[], ops[..k])]
  }

  /** The maps between the calls: empty at first, and each call turns one into the next and answers
      as it is written here. */
  lemma CallsMean(ops: seq<Op>, rs: seq<Result>) returns (maps: seq<map<string, string>>)
    requires rs == Answers(map[], ops)
    ensures |rs| == |ops| && |maps| == |ops| + 1 && maps[0] == map[] && maps[|ops|] == ApplyAll(map[], ops)
    ensures forall n :: 0 <= n < |ops| && ops[n].Fetch? ==>
      maps[n + 1] == maps[n] && rs[n] == if ops[n].key in maps[n] then Data(maps[n][ops[n].key]) else NoData
    ensures forall n :: 0 <= n < |ops| && ops[n].Delete? ==>
      maps[n + 1] == maps[n] - {ops[n].key} && rs[n] == Code(if ops[n].key in maps[n] then 0 else -1, NoErr)
    ensures forall n :: 0 <= n < |ops| && ops[n].Store? ==>
      rs[n] == (if ops[n].flag != DB_INSERT && ops[n].flag != DB_REPLACE && ops[n].flag != DB_STORE then Code(-1, EINVAL)
                else if ops[n].flag == DB_REPLACE && ops[n].key !in maps[n] then Code(-1, ENOENT)
                else if ops[n].flag == DB_INSERT && ops[n].key in maps[n] then Code(1, NoErr)
                else Code(0, NoErr))
    ensures forall n :: 0 <= n < |ops| && ops[n].Store? ==>
      maps[n + 1] == if rs[n] == Code(0, NoErr) then maps[n][ops[n].key := ops[n].data] else maps[n]
  {
    maps := MapsOf(ops, |ops|);
    assert ops[..|ops|] == ops && ops[..0] == [];
    forall n | 0 <= n < |ops|
      ensures rs[n] == Answer(maps[n], ops[n]) && maps[n + 1] == Apply(maps[n], ops[n])
    {
      AnswerAt(ops, n);
    }
  }

  lemma {:induction false} KeyStays(ops: seq<Op>, k: string, a: nat, b: nat)
    requires a <= b <= |ops| && k in ApplyAll(map[], ops[..a])
    requires forall n :: a <= n < b ==> ops[n] != Delete(k)
    ensures k in ApplyAll(map[], ops[..b])
  {
    if a < b {
      KeyStays(ops, k, a, b - 1);
      AnswerAt(ops, b - 1);
    }
  }

  lemma {:induction false} FirstDelete(ops: seq<Op>, k: string, a: nat, b: nat) returns (m: nat)
    requires a <= b <= |ops| && exists n :: a <= n < b && ops[n] == Delete(k)
    ensures a <= m < b && ops[m] == Delete(k) && forall n :: a <= n < m ==> ops[n] != Delete(k)
  {
    m := a;
    while ops[m] != Delete(k)
      invariant a <= m < b && forall n :: a <= n < m ==> ops[n] != Delete(k)
      decreases b - m
    {
      m := m + 1;
    }
  }

  /** Of two insertions of one key that answer 0, the second comes after a deletion of the key that
      answers 0 and comes after the first. */
  lemma InsertsApart(ops: seq<Op>, rs: seq<Result>, k: string, a: nat, b: nat) returns (m: nat)
    requires rs == Answers(map[], ops) && a < b < |ops|
    requires ops[a].Store? && ops[a].flag == DB_INSERT && ops[a].key == k && rs[a] == Code(0, NoErr)
    requires ops[b].Store? && ops[b].flag == DB_INSERT && ops[b].key == k && rs[b] == Code(0, NoErr)
    ensures a < m < b && ops[m] == Delete(k) && rs[m] == Code(0, NoErr)
  {
    AnswerAt(ops, a);
    AnswerAt(ops, b);
    if forall n :: a + 1 <= n < b ==> ops[n] != Delete(k) { KeyStays(ops, k, a + 1, b); }
    m := FirstDelete(ops, k, a + 1, b);
    KeyStays(ops, k, a + 1, m);
    AnswerAt(ops, m);
  }
}
