/** Merging the sorted segments of an array (merge in apue.3e/threads/barrier.c). */
module Merge {
  import opened Options

  const LONG_MAX := 0x7fff_ffff_ffff_ffff
  const LONG_MIN := -0x8000_0000_0000_0000

  type Long = x: int | LONG_MIN <= x <= LONG_MAX

  predicate Sorted(s: seq<Long>) { forall i, j :: 0 <= i < j < |s| ==> s[i] <= s[j] }

  /** Where segment i starts. */
  function Base(i: nat, t: nat): nat { i * t }

  lemma Segment(i: nat, n: nat, t: nat)
    requires i < n
    ensures Base(i, t) + t <= Base(n, t) && Base(i + 1, t) == Base(i, t) + t
  {
    assert (n - i - 1) * t >= 0;
    assert n * t == (i + 1) * t + (n - i - 1) * t;
  }

  /** Segment i of the array, which the ith thread sorts. */
  function Seg(s: seq<Long>, i: nat, n: nat, t: nat): (r: seq<Long>)
    requires i < n && |s| == Base(n, t)
    ensures |r| == t
  {
    Segment(i, n, t);
    s[Base(i, t)..Base(i, t) + t]
  }

  ghost predicate SegmentsSorted(s: seq<Long>, n: nat, t: nat)
    requires |s| == Base(n, t)
  {
    forall i :: 0 <= i < n ==> Sorted(Seg(s, i, n, t))
  }

  predicate IdxOk(idx: seq<int>, n: nat, t: nat) {
    |idx| == n && forall i :: 0 <= i < n ==> Base(i, t) <= idx[i] <= Base(i, t) + t
  }

  /** What has been taken from the first k segments. */
  function Taken(s: seq<Long>, idx: seq<int>, n: nat, t: nat, k: nat): multiset<Long>
    requires k <= n == |idx| && |s| == Base(n, t) && IdxOk(idx, n, t)
  {
    if k == 0 then multiset{}
    else
      Segment(k - 1, n, t);
      Taken(s, idx, n, t, k - 1) + multiset(s[Base(k - 1, t)..idx[k - 1]])
  }

  /** And what is left of them. */
  function Rest(s: seq<Long>, idx: seq<int>, n: nat, t: nat, k: nat): multiset<Long>
    requires k <= n == |idx| && |s| == Base(n, t) && IdxOk(idx, n, t)
  {
    if k == 0 then multiset{}
    else
      Segment(k - 1, n, t);
      Rest(s, idx, n, t, k - 1) + multiset(s[idx[k - 1]..Base(k, t)])
  }

  lemma NothingTaken(s: seq<Long>, idx: seq<int>, n: nat, t: nat)
    requires |s| == Base(n, t) && |idx| == n && IdxOk(idx, n, t)
    ensures Taken(s, idx, n, t, 0) == multiset{} == Rest(s, idx, n, t, 0) && Base(0, t) == 0
  {
  }

  lemma TakenStep(s: seq<Long>, idx: seq<int>, n: nat, t: nat, k: nat)
    requires 0 < k <= n == |idx| && |s| == Base(n, t) && IdxOk(idx, n, t)
    ensures Base(k - 1, t) <= idx[k - 1] <= Base(k, t) == Base(k - 1, t) + t <= |s|
    ensures Taken(s, idx, n, t, k) == Taken(s, idx, n, t, k - 1) + multiset(s[Base(k - 1, t)..idx[k - 1]])
    ensures Rest(s, idx, n, t, k) == Rest(s, idx, n, t, k - 1) + multiset(s[idx[k - 1]..Base(k, t)])
  {
    Segment(k - 1, n, t);
    hide Base;
  }

  lemma {:induction false} TakeOne(s: seq<Long>, idx: seq<int>, idx': seq<int>, n: nat, t: nat, m: nat, k: nat)
    requires |s| == Base(n, t) && |idx| == n && IdxOk(idx, n, t) && k <= n && m < n && 0 <= idx[m] < |s|
    requires idx' == idx[m := idx[m] + 1] && IdxOk(idx', n, t)
    ensures Taken(s, idx', n, t, k) == Taken(s, idx, n, t, k) + if m < k then multiset{s[idx[m]]} else multiset{}
  {
    hide Base, IdxOk, Taken, Rest;
    if k == 0 {
      NothingTaken(s, idx, n, t);
      NothingTaken(s, idx', n, t);
    } else {
      TakeOne(s, idx, idx', n, t, m, k - 1);
      TakenStep(s, idx, n, t, k);
      TakenStep(s, idx', n, t, k);
      if m == k - 1 { OneMore(s, Base(m, t), idx[m]); }
      TakeSum(Taken(s, idx, n, t, k - 1), multiset(s[Base(k - 1, t)..idx[k - 1]]),
              multiset(s[Base(k - 1, t)..idx'[k - 1]]), s[idx[m]], m, k);
    }
  }

  lemma TakeSum(a: multiset<Long>, b: multiset<Long>, b': multiset<Long>, x: Long, m: nat, k: nat)
    requires k > 0 && b' == if m == k - 1 then b + multiset{x} else b
    ensures (a + if m < k - 1 then multiset{x} else multiset{}) + b' == (a + b) + if m < k then multiset{x} else multiset{}
  {
    if m < k - 1 { Swap(a, multiset{x}, b); }
    if m == k - 1 { Join(a, b, multiset{x}); }
  }

  lemma Swap(a: multiset<Long>, b: multiset<Long>, c: multiset<Long>)
    ensures (a + b) + c == (a + c) + b
  {
  }

  lemma Join(a: multiset<Long>, b: multiset<Long>, c: multiset<Long>)
    ensures a + (b + c) == (a + b) + c
  {
  }

  lemma OneMore(s: seq<Long>, a: nat, b: nat)
    requires a <= b < |s|
    ensures multiset(s[a..b + 1]) == multiset(s[a..b]) + multiset{s[b]}
  {
    assert s[a..b + 1] == s[a..b] + [s[b]];
  }

  lemma Split(s: seq<Long>, a: nat, b: nat, c: nat)
    requires a <= b <= c <= |s|
    ensures multiset(s[..c]) == multiset(s[..a]) + (multiset(s[a..b]) + multiset(s[b..c]))
  {
    assert s[..c] == s[..a] + (s[a..b] + s[b..c]);
  }

  lemma {:induction false} TakenRest(s: seq<Long>, idx: seq<int>, n: nat, t: nat, k: nat)
    requires |s| == Base(n, t) && |idx| == n && IdxOk(idx, n, t) && k <= n
    ensures Base(k, t) <= |s| && Taken(s, idx, n, t, k) + Rest(s, idx, n, t, k) == multiset(s[..Base(k, t)])
  {
    hide Base, Taken, Rest, IdxOk;
    NothingTaken(s, idx, n, t);
    if k > 0 {
      TakenRest(s, idx, n, t, k - 1);
      TakenStep(s, idx, n, t, k);
      Split(s, Base(k - 1, t), idx[k - 1], Base(k, t));
      var a, b := Taken(s, idx, n, t, k - 1), Rest(s, idx, n, t, k - 1);
      var c, d := multiset(s[Base(k - 1, t)..idx[k - 1]]), multiset(s[idx[k - 1]..Base(k, t)]);
      assert (a + c) + (b + d) == (a + b) + (c + d);
    }
  }

  /** Position y belongs to segment i and has been taken, or not. */
  predicate TakenAt(idx: seq<int>, t: nat, i: nat, y: nat)
    requires i < |idx|
  {
    Base(i, t) <= y < idx[i]
  }

  predicate LeftAt(idx: seq<int>, t: nat, i: nat, y: nat)
    requires i < |idx|
  {
    idx[i] <= y < Base(i, t) + t
  }

  lemma {:induction false} InRest(s: seq<Long>, idx: seq<int>, n: nat, t: nat, k: nat, x: Long)
    requires |s| == Base(n, t) && |idx| == n && IdxOk(idx, n, t) && k <= n
    ensures x in Rest(s, idx, n, t, k) <==> exists i: nat, y: nat :: i < k && LeftAt(idx, t, i, y) && y < |s| && s[y] == x
  {
    hide Base, Taken, Rest, IdxOk;
    NothingTaken(s, idx, n, t);
    if k > 0 {
      InRest(s, idx, n, t, k - 1, x);
      TakenStep(s, idx, n, t, k);
      var r := s[idx[k - 1]..Base(k, t)];
      if x in r {
        var z :| 0 <= z < |r| && r[z] == x;
        assert LeftAt(idx, t, k - 1, idx[k - 1] + z) && s[idx[k - 1] + z] == x;
      }
      if y: nat :| LeftAt(idx, t, k - 1, y) && y < |s| && s[y] == x {
        assert r[y - idx[k - 1]] == x;
      }
    }
  }

  // ---- the rounds -----------------------------------------------------------

  /** idx and minidx as in the program, and the numbers written so far. */
  datatype State = State(idx: seq<int>, minidx: int, out: seq<Long>)

  predicate Live(idx: seq<int>, t: nat, i: nat)
    requires i < |idx|
  {
    idx[i] < Base(i + 1, t)
  }

  /** Segment i has a number left, below LONG_MAX. */
  predicate Candidate(s: seq<Long>, idx: seq<int>, t: nat, i: nat)
    requires i < |idx|
  {
    Live(idx, t, i) && 0 <= idx[i] < |s| && s[idx[i]] < LONG_MAX
  }

  /** The inner loop finds m: no next number is smaller, and none of an earlier segment as small. */
  ghost predicate Finds(s: seq<Long>, idx: seq<int>, n: nat, t: nat, m: nat) {
    && m < n == |idx| && Candidate(s, idx, t, m)
    && (forall i :: 0 <= i < n && Candidate(s, idx, t, i) ==> if i < m then s[idx[m]] < s[idx[i]] else s[idx[m]] <= s[idx[i]])
  }

  ghost predicate Found(s: seq<Long>, idx: seq<int>, n: nat, t: nat) { exists m: nat :: Finds(s, idx, n, t, m) }

  /** A round, or None when an access would be outside the arrays: without anything found minidx is
      what it was. */
  ghost function Round(s: seq<Long>, n: nat, t: nat, st: State): Option<State> {
    var m: int := if Found(s, st.idx, n, t) then var m: nat :| Finds(s, st.idx, n, t, m); m else st.minidx;
    if 0 <= m < |st.idx| && 0 <= st.idx[m] < |s| then
      Some(State(st.idx[m := st.idx[m] + 1], m, st.out + [s[st.idx[m]]]))
    else None
  }

  function Starts(n: nat, t: nat): (idx: seq<int>)
    ensures |idx| == n && forall i :: 0 <= i < n ==> idx[i] == Base(i, t)
  {
    if n == 0 then [] else Starts(n - 1, t) + [Base(n - 1, t)]
  }

  /** The state after k rounds; stale is what minidx happens to hold at the start. */
  ghost function Rounds(s: seq<Long>, n: nat, t: nat, stale: int, k: nat): Option<State> {
    if k == 0 then Some(State(Starts(n, t), stale, []))
    else match Rounds(s, n, t, stale, k - 1)
      case None => None
      case Some(st) => Round(s, n, t, st)
  }

  lemma OnlyOne(s: seq<Long>, idx: seq<int>, n: nat, t: nat, a: nat, b: nat)
    requires Finds(s, idx, n, t, a) && Finds(s, idx, n, t, b)
    ensures a == b
  {
  }

  lemma RoundFinds(s: seq<Long>, n: nat, t: nat, st: State, m: nat)
    requires Finds(s, st.idx, n, t, m)
    ensures Round(s, n, t, st) == Some(State(st.idx[m := st.idx[m] + 1], m, st.out + [s[st.idx[m]]]))
  {
    hide Candidate, Finds;
    assert m < |st.idx| && 0 <= st.idx[m] < |s| by { FindsIn(s, st.idx, n, t, m); }
    assert Found(s, st.idx, n, t);
    var m': nat :| Finds(s, st.idx, n, t, m');
    forall x: nat | Finds(s, st.idx, n, t, x) ensures x == m { OnlyOne(s, st.idx, n, t, x, m); }
  }

  lemma FindsIn(s: seq<Long>, idx: seq<int>, n: nat, t: nat, m: nat)
    requires Finds(s, idx, n, t, m)
    ensures m < |idx| && 0 <= idx[m] < |s| && Live(idx, t, m) && s[idx[m]] < LONG_MAX
  {
  }

  /** The inner loop: the first segment with the smallest next number below LONG_MAX, or what
      minidx was. */
  method Smallest(nums: array<Long>, idx: array<int>, n: nat, t: nat, before: int) returns (minidx: int)
    requires nums.Length == Base(n, t) && idx.Length == n && forall i :: 0 <= i < n ==> 0 <= idx[i]
    ensures if Found(nums[..], idx[..], n, t) then minidx >= 0 && Finds(nums[..], idx[..], n, t, minidx) else minidx == before
  {
    var num: Long := LONG_MAX;
    minidx := before;
    var i := 0;
    ghost var s, x := nums[..], idx[..];
    while i < n
      invariant 0 <= i <= n
      invariant num == LONG_MAX ==> minidx == before && forall j :: 0 <= j < i ==> !Candidate(s, x, t, j)
      invariant num < LONG_MAX ==> 0 <= minidx < i && Candidate(s, x, t, minidx) && s[x[minidx]] == num
      invariant num < LONG_MAX ==> forall j :: 0 <= j < i && Candidate(s, x, t, j) ==>
        if j < minidx then num < s[x[j]] else num <= s[x[j]]
    {
      Segment(i, n, t);
      hide Base;
      assert idx[i] == x[i];
      if idx[i] < Base(i + 1, t) && nums[idx[i]] < num {
        num := nums[idx[i]];
        minidx := i;
      }
      i := i + 1;
    }
    hide Base, Live;
    if num < LONG_MAX { assert Finds(s, x, n, t, minidx); }
  }

  /** merge: it ends when an access would be outside the arrays, else after the last round. */
  method Merge(nums: array<Long>, snums: array<Long>, n: nat, t: nat, stale: int) returns (inside: bool)
    requires nums.Length == Base(n, t) == snums.Length && nums != snums
    modifies snums
    ensures inside <==> Rounds(nums[..], n, t, stale, nums.Length).Some?
    ensures inside ==> snums[..] == Rounds(nums[..], n, t, stale, nums.Length).value.out
  {
    hide Base, Round, Found;
    var idx := new int[n];
    var i := 0;
    while i < n
      invariant 0 <= i <= n && forall j :: 0 <= j < i ==> idx[j] == Base(j, t)
    {
      idx[i] := Base(i, t);
      i := i + 1;
    }
    ghost var s, st := nums[..], State(Starts(n, t), stale, []);
    assert idx[..] == Starts(n, t) && forall j :: 0 <= j < n ==> 0 <= idx[j] by { StartsPositive(n, t); }
    assert snums[..0] == [];
    var sidx := 0;
    var minidx := stale;
    while sidx < nums.Length
      invariant 0 <= sidx <= nums.Length && nums[..] == s
      invariant forall j :: 0 <= j < n ==> 0 <= idx[j]
      invariant Rounds(s, n, t, stale, sidx) == Some(State(idx[..], minidx, snums[..sidx]))
    {
      ghost var st := State(idx[..], minidx, snums[..sidx]);
      minidx := Smallest(nums, idx, n, t, minidx);
      RoundIs(s, n, t, st, minidx);
      if !(0 <= minidx < n && idx[minidx] < nums.Length) {
        StaysNone(s, n, t, stale, sidx + 1, nums.Length);
        return false;
      }
      snums[sidx] := nums[idx[minidx]];
      idx[minidx] := idx[minidx] + 1;
      assert idx[..] == st.idx[minidx := st.idx[minidx] + 1];
      sidx := sidx + 1;
      assert snums[..sidx] == st.out + [snums[sidx - 1]];
    }
    assert snums[..sidx] == snums[..];
    inside := true;
  }

  lemma StartsPositive(n: nat, t: nat)
    ensures forall j :: 0 <= j < n ==> 0 <= Starts(n, t)[j]
  {
  }

  lemma RoundIs(s: seq<Long>, n: nat, t: nat, st: State, m: int)
    requires if Found(s, st.idx, n, t) then m >= 0 && Finds(s, st.idx, n, t, m) else m == st.minidx
    ensures Round(s, n, t, st) ==
      if 0 <= m < |st.idx| && 0 <= st.idx[m] < |s| then
        Some(State(st.idx[m := st.idx[m] + 1], m, st.out + [s[st.idx[m]]]))
      else None
  {
    if Found(s, st.idx, n, t) {
      RoundFinds(s, n, t, st, m);
      FindsIn(s, st.idx, n, t, m);
    }
  }

  lemma {:induction false} StaysNone(s: seq<Long>, n: nat, t: nat, stale: int, k: nat, l: nat)
    requires k <= l && Rounds(s, n, t, stale, k).None?
    ensures Rounds(s, n, t, stale, l).None?
  {
    if k < l { StaysNone(s, n, t, stale, k, l - 1); }
  }

  // ---- the order in which numbers are taken ---------------------------------

  /** Smaller, or as small and earlier in the array. */
  predicate Before(s: seq<Long>, x: nat, y: nat)
    requires x < |s| && y < |s|
  {
    s[x] < s[y] || (s[x] == s[y] && x < y)
  }

  /** In a segment the next element is the smallest of those left. */
  lemma HeadSmallest(s: seq<Long>, n: nat, t: nat, i: nat, a: nat, b: nat)
    requires |s| == Base(n, t) && SegmentsSorted(s, n, t) && i < n && Base(i, t) <= a <= b < Base(i, t) + t
    ensures b < |s| && s[a] <= s[b]
  {
    Segment(i, n, t);
    hide Base;
    assert Sorted(Seg(s, i, n, t));
    assert s[a] == Seg(s, i, n, t)[a - Base(i, t)] && s[b] == Seg(s, i, n, t)[b - Base(i, t)];
  }

  /** What segment i still has: its head, and that below everything left in it. */
  lemma LeftHead(s: seq<Long>, idx: seq<int>, n: nat, t: nat, i: nat, y: nat)
    requires |s| == Base(n, t) && SegmentsSorted(s, n, t) && IdxOk(idx, n, t) && i < n && LeftAt(idx, t, i, y)
    ensures Live(idx, t, i) && 0 <= Base(i, t) <= idx[i] <= y < |s| && s[idx[i]] <= s[y]
  {
    Segment(i, n, t);
    HeadSmallest(s, n, t, i, idx[i], y);
    hide Base;
  }

  lemma BaseOrder(i: nat, j: nat, t: nat)
    requires i < j
    ensures Base(i, t) + t <= Base(j, t)
  {
    Segment(i, j, t);
  }

  /** q was the last to be taken: all that were before it have been, and nothing else. */
  ghost predicate Last(s: seq<Long>, idx: seq<int>, n: nat, t: nat, q: nat) {
    && q < |s| && |idx| == n
    && (forall i: nat, y: nat :: i < n && y < |s| && LeftAt(idx, t, i, y) ==> Before(s, q, y))
    && (forall i: nat, y: nat :: i < n && y < |s| && TakenAt(idx, t, i, y) ==> y == q || Before(s, y, q))
  }

  /** The number found is before all others that are left. */
  lemma FoundBefore(s: seq<Long>, idx: seq<int>, n: nat, t: nat, m: nat, i: nat, y: nat)
    requires |s| == Base(n, t) && SegmentsSorted(s, n, t) && IdxOk(idx, n, t) && Finds(s, idx, n, t, m)
    requires i < n && LeftAt(idx, t, i, y) && y != idx[m]
    ensures y < |s| && Before(s, idx[m], y)
  {
    LeftHead(s, idx, n, t, i, y);
    hide SegmentsSorted;
    if i > m { BaseOrder(m, i, t); }
    Segment(m, n, t);
    hide Base;
    if s[y] < LONG_MAX { assert Candidate(s, idx, t, i); }
  }

  lemma LastStep(s: seq<Long>, idx: seq<int>, n: nat, t: nat, m: nat)
    requires |s| == Base(n, t) && SegmentsSorted(s, n, t) && IdxOk(idx, n, t) && Finds(s, idx, n, t, m)
    requires (forall i :: 0 <= i < n ==> idx[i] == Base(i, t)) || exists q: nat :: Last(s, idx, n, t, q)
    ensures 0 <= idx[m] && Last(s, idx[m := idx[m] + 1], n, t, idx[m])
  {
    FindsIn(s, idx, n, t, m);
    var idx', q' := idx[m := idx[m] + 1], idx[m];
    forall i: nat, y: nat | i < n && y < |s| && LeftAt(idx', t, i, y)
      ensures Before(s, q', y)
    {
      LeftAfter(idx, n, t, m, i, y);
      hide Base, SegmentsSorted, Finds, Last, Before, LeftAt, IdxOk;
      FoundBefore(s, idx, n, t, m, i, y);
    }
    forall i: nat, y: nat | i < n && y < |s| && TakenAt(idx', t, i, y)
      ensures y == q' || Before(s, y, q')
    {
      hide Base, SegmentsSorted, Finds, Last, Before, TakenAt, IdxOk;
      if y != q' { TakenBefore(s, idx, n, t, m, i, y); }
    }
    hide Base, SegmentsSorted, Finds, Before, TakenAt, LeftAt, IdxOk;
  }

  lemma LeftAfter(idx: seq<int>, n: nat, t: nat, m: nat, i: nat, y: nat)
    requires IdxOk(idx, n, t) && m < n && i < n && Live(idx, t, m) && LeftAt(idx[m := idx[m] + 1], t, i, y)
    ensures LeftAt(idx, t, i, y) && y != idx[m]
  {
    Segment(m, n, t);
    if i < m { BaseOrder(i, m, t); }
    if m < i { BaseOrder(m, i, t); }
    hide Base;
  }

  lemma TakenBefore(s: seq<Long>, idx: seq<int>, n: nat, t: nat, m: nat, i: nat, y: nat)
    requires |s| == Base(n, t) && IdxOk(idx, n, t) && Finds(s, idx, n, t, m)
    requires (forall i :: 0 <= i < n ==> idx[i] == Base(i, t)) || exists q: nat :: Last(s, idx, n, t, q)
    requires i < n && y < |s| && TakenAt(idx[m := idx[m] + 1], t, i, y) && y != idx[m]
    ensures 0 <= idx[m] < |s| && Before(s, y, idx[m])
  {
    Segment(m, n, t);
    hide Base;
    assert TakenAt(idx, t, i, y) && LeftAt(idx, t, m, idx[m]);
    var q: nat :| Last(s, idx, n, t, q);
  }

  // ---- rounds that find -----------------------------------------------------

  /** How many numbers are LONG_MAX, and how many are below. */
  function MaxCount(s: seq<Long>): nat { multiset(s)[LONG_MAX] }

  function BelowCount(s: seq<Long>): (k: nat)
    ensures k + MaxCount(s) == |s|
  {
    CountAtMost(multiset(s));
    |s| - MaxCount(s)
  }

  lemma CountAtMost(m: multiset<Long>)
    ensures m[LONG_MAX] <= |m|
    ensures m[LONG_MAX] == |m| <==> forall x :: x in m ==> x == LONG_MAX
  {
    var rest := m[LONG_MAX := 0];
    assert |m| == |rest| + m[LONG_MAX];
    if x :| x in m && x != LONG_MAX { assert x in rest; }
    if rest != multiset{} { var x :| x in rest; }
  }

  /** The state while rounds find: out is the sorted list of what was taken. */
  ghost predicate Merged(s: seq<Long>, idx: seq<int>, n: nat, t: nat, out: seq<Long>)
    requires |s| == Base(n, t)
  {
    && |idx| == n && IdxOk(idx, n, t) && multiset(out) == Taken(s, idx, n, t, n) && Sorted(out)
    && forall k :: 0 <= k < |out| ==> out[k] < LONG_MAX
  }

  ghost predicate Finding(s: seq<Long>, n: nat, t: nat, st: State)
    requires |s| == Base(n, t)
  {
    && Merged(s, st.idx, n, t, st.out)
    && if st.out == [] then st.idx == Starts(n, t)
       else
         && 0 <= st.minidx < n && 1 <= st.idx[st.minidx] <= |s|
         && st.out[|st.out| - 1] == s[st.idx[st.minidx] - 1] && Last(s, st.idx, n, t, st.idx[st.minidx] - 1)
  }

  lemma SortedAppend(a: seq<Long>, x: Long)
    requires Sorted(a) && (a == [] || a[|a| - 1] <= x)
    ensures Sorted(a + [x])
  {
  }

  lemma StepOk(idx: seq<int>, n: nat, t: nat, m: nat)
    requires IdxOk(idx, n, t) && m < n && Live(idx, t, m)
    ensures IdxOk(idx[m := idx[m] + 1], n, t) && 0 <= idx[m] < Base(n, t) && LeftAt(idx, t, m, idx[m])
  {
    Segment(m, n, t);
    hide Base;
  }

  lemma {:induction false} NoneTaken(s: seq<Long>, idx: seq<int>, n: nat, t: nat, k: nat)
    requires |s| == Base(n, t) && IdxOk(idx, n, t) && k <= n && forall i :: 0 <= i < n ==> idx[i] == Base(i, t)
    ensures Taken(s, idx, n, t, k) == multiset{}
  {
    hide Base;
    if k > 0 {
      NoneTaken(s, idx, n, t, k - 1);
      TakenStep(s, idx, n, t, k);
    }
  }

  lemma FindingStart(s: seq<Long>, n: nat, t: nat, stale: int)
    requires |s| == Base(n, t)
    ensures Finding(s, n, t, State(Starts(n, t), stale, []))
  {
    hide Base, Taken;
    NoneTaken(s, Starts(n, t), n, t, n);
  }

  lemma MergedStep(s: seq<Long>, idx: seq<int>, n: nat, t: nat, out: seq<Long>, m: nat)
    requires |s| == Base(n, t) && Merged(s, idx, n, t, out)
    requires m < n && Live(idx, t, m) && 0 <= idx[m] < |s| && s[idx[m]] < LONG_MAX
    requires out != [] ==> out[|out| - 1] <= s[idx[m]]
    ensures Merged(s, idx[m := idx[m] + 1], n, t, out + [s[idx[m]]])
  {
    hide Base, Taken, IdxOk, Live, Sorted;
    StepOk(idx, n, t, m);
    TakeOne(s, idx, idx[m := idx[m] + 1], n, t, m, n);
    SortedAppend(out, s[idx[m]]);
  }

  lemma FindingStep(s: seq<Long>, n: nat, t: nat, st: State, m: nat)
    requires |s| == Base(n, t) && SegmentsSorted(s, n, t) && Finding(s, n, t, st) && Finds(s, st.idx, n, t, m)
    ensures Round(s, n, t, st).Some? && Finding(s, n, t, Round(s, n, t, st).value)
    ensures Round(s, n, t, st).value.out == st.out + [s[st.idx[m]]]
  {
    hide SegmentsSorted, Base, Round, Taken, Sorted, Last, Finds, IdxOk, Merged, Live, Finding, LeftAt, Candidate;
    RoundFinds(s, n, t, st, m);
    FindsIn(s, st.idx, n, t, m);
    FindingIdx(s, n, t, st);
    StepOk(st.idx, n, t, m);
    FindingLast(s, n, t, st, m);
    LastStep(s, st.idx, n, t, m);
    MergedStep(s, st.idx, n, t, st.out, m);
    FindingNext(s, n, t, st.idx[m := st.idx[m] + 1], m, st.out, s[st.idx[m]]);
  }

  lemma FindingIdx(s: seq<Long>, n: nat, t: nat, st: State)
    requires |s| == Base(n, t) && Finding(s, n, t, st)
    ensures |st.idx| == n && IdxOk(st.idx, n, t)
  {
  }

  lemma FindingLast(s: seq<Long>, n: nat, t: nat, st: State, m: nat)
    requires |s| == Base(n, t) && Finding(s, n, t, st) && m < n && LeftAt(st.idx, t, m, st.idx[m]) && 0 <= st.idx[m] < |s|
    ensures st.out != [] ==> st.out[|st.out| - 1] <= s[st.idx[m]]
    ensures (forall i :: 0 <= i < n ==> st.idx[i] == Base(i, t)) || exists q: nat :: Last(s, st.idx, n, t, q)
    ensures Merged(s, st.idx, n, t, st.out)
  {
    hide Base, Sorted, Merged, LeftAt, IdxOk;
  }

  lemma FindingNext(s: seq<Long>, n: nat, t: nat, idx: seq<int>, m: nat, out: seq<Long>, x: Long)
    requires |s| == Base(n, t) && |idx| == n && Merged(s, idx, n, t, out + [x])
    requires m < n && 1 <= idx[m] <= |s| && x == s[idx[m] - 1] && Last(s, idx, n, t, idx[m] - 1)
    ensures Finding(s, n, t, State(idx, m, out + [x]))
  {
    hide Base, Sorted, Merged, Last;
  }

  /** Each round that finds takes another number below LONG_MAX, and one finds as long as there
      are some left. */
  lemma FoundWhileBelow(s: seq<Long>, n: nat, t: nat, st: State)
    requires |s| == Base(n, t) && SegmentsSorted(s, n, t) && Finding(s, n, t, st)
    ensures |st.out| <= BelowCount(s) && (Found(s, st.idx, n, t) <==> |st.out| < BelowCount(s))
    ensures !Found(s, st.idx, n, t) ==> forall i: nat, y: nat :: i < n && y < |s| && LeftAt(st.idx, t, i, y) ==> s[y] == LONG_MAX
  {
    hide Base, Taken, Rest, Last, Sorted, Finds, IdxOk, Candidate;
    TakenRest(s, st.idx, n, t, n);
    assert s[..Base(n, t)] == s;
    var rest := Rest(s, st.idx, n, t, n);
    assert |st.out| + |rest| == |s| && multiset(st.out)[LONG_MAX] + rest[LONG_MAX] == MaxCount(s);
    assert LONG_MAX !in multiset(st.out);
    CountAtMost(rest);
    FoundIffLeft(s, st.idx, n, t);
  }

  lemma FoundIffLeft(s: seq<Long>, idx: seq<int>, n: nat, t: nat)
    requires |s| == Base(n, t) && SegmentsSorted(s, n, t) && IdxOk(idx, n, t)
    ensures Found(s, idx, n, t) <==> exists x :: x in Rest(s, idx, n, t, n) && x != LONG_MAX
    ensures !Found(s, idx, n, t) ==> forall i: nat, y: nat :: i < n && y < |s| && LeftAt(idx, t, i, y) ==> s[y] == LONG_MAX
  {
    hide Base, Rest, Sorted, SegmentsSorted;
    if m: nat :| Finds(s, idx, n, t, m) {
      StepOk(idx, n, t, m);
      InRest(s, idx, n, t, n, s[idx[m]]);
    }
    if !Found(s, idx, n, t) {
      forall i: nat, y: nat | i < n && y < |s| && LeftAt(idx, t, i, y)
        ensures s[y] == LONG_MAX
      {
        LeftHead(s, idx, n, t, i, y);
        if s[y] < LONG_MAX { var m := Least(s, idx, n, t, i, n); }
      }
      forall x | x in Rest(s, idx, n, t, n) ensures x == LONG_MAX { InRest(s, idx, n, t, n, x); }
    }
  }

  /** If there is a candidate there is a first smallest one among the first k segments. */
  lemma {:induction false} Least(s: seq<Long>, idx: seq<int>, n: nat, t: nat, i: nat, k: nat) returns (m: nat)
    requires i < k <= n == |idx| && Candidate(s, idx, t, i)
    ensures m < k && Candidate(s, idx, t, m)
    ensures forall j :: 0 <= j < k && Candidate(s, idx, t, j) ==> if j < m then s[idx[m]] < s[idx[j]] else s[idx[m]] <= s[idx[j]]
    ensures k == n ==> Finds(s, idx, n, t, m)
    decreases k
  {
    hide Live, Base;
    if c :| 0 <= c < k - 1 && Candidate(s, idx, t, c) {
      m := Least(s, idx, n, t, c, k - 1);
      if Candidate(s, idx, t, k - 1) && s[idx[k - 1]] < s[idx[m]] { m := k - 1; }
    } else {
      m := i;
    }
  }

  /** Through all the rounds that find. */
  lemma {:induction false} WhileFinding(s: seq<Long>, n: nat, t: nat, stale: int, k: nat)
    requires |s| == Base(n, t) && SegmentsSorted(s, n, t) && k <= BelowCount(s)
    ensures Rounds(s, n, t, stale, k).Some?
    ensures var st := Rounds(s, n, t, stale, k).value; Finding(s, n, t, st) && |st.out| == k
    ensures k == 0 ==> Rounds(s, n, t, stale, k).value == State(Starts(n, t), stale, [])
  {
    hide Base, Sorted, SegmentsSorted, Round, Finding, Finds;
    if k == 0 {
      FindingStart(s, n, t, stale);
    } else {
      WhileFinding(s, n, t, stale, k - 1);
      var st := Rounds(s, n, t, stale, k - 1).value;
      FoundWhileBelow(s, n, t, st);
      var m: nat :| Finds(s, st.idx, n, t, m);
      FindingStep(s, n, t, st, m);
    }
  }

  // ---- rounds that find nothing ---------------------------------------------

  /** From the state st in which nothing is found any more: what the next j rounds do. */
  ghost function Fallen(s: seq<Long>, st: State, j: nat): Option<State> {
    if j == 0 then Some(st)
    else if 0 <= st.minidx < |st.idx| && 0 <= st.idx[st.minidx] && st.idx[st.minidx] + j <= |s| then
      var b := st.idx[st.minidx];
      Some(State(st.idx[st.minidx := b + j], st.minidx, st.out + s[b..b + j]))
    else None
  }

  lemma NothingFound(s: seq<Long>, idx: seq<int>, idx': seq<int>, n: nat, t: nat)
    requires |s| == Base(n, t) && |idx| == n == |idx'| && forall i :: 0 <= i < n ==> idx[i] <= idx'[i] && Base(i, t) <= idx[i]
    requires forall i: nat, y: nat :: i < n && y < |s| && LeftAt(idx, t, i, y) ==> s[y] == LONG_MAX
    ensures !Found(s, idx', n, t)
  {
    if m: nat :| Finds(s, idx', n, t, m) { MaxThere(s, idx, idx', n, t, m); }
  }

  lemma MaxThere(s: seq<Long>, idx: seq<int>, idx': seq<int>, n: nat, t: nat, m: nat)
    requires |s| == Base(n, t) && |idx| == n == |idx'| && m < n && Base(m, t) <= idx[m] <= idx'[m] && Live(idx', t, m)
    requires forall i: nat, y: nat :: i < n && y < |s| && LeftAt(idx, t, i, y) ==> s[y] == LONG_MAX
    ensures 0 <= idx'[m] < |s| && s[idx'[m]] == LONG_MAX
  {
    Segment(m, n, t);
    hide Base;
    assert LeftAt(idx, t, m, idx'[m]);
  }

  lemma {:induction false} Falling(s: seq<Long>, n: nat, t: nat, stale: int, st: State, j: nat)
    requires |s| == Base(n, t) && Rounds(s, n, t, stale, BelowCount(s)) == Some(st) && IdxOk(st.idx, n, t)
    requires forall i: nat, y: nat :: i < n && y < |s| && LeftAt(st.idx, t, i, y) ==> s[y] == LONG_MAX
    ensures Rounds(s, n, t, stale, BelowCount(s) + j) == Fallen(s, st, j)
    ensures Fallen(s, st, j).Some? ==> !Found(s, Fallen(s, st, j).value.idx, n, t)
  {
    hide Base, Found, LeftAt, Round;
    if j > 0 {
      Falling(s, n, t, stale, st, j - 1);
      var r := Fallen(s, st, j - 1);
      if r.Some? {
        RoundIs(s, n, t, r.value, st.minidx);
        hide Rounds;
        FallOne(s, st, j);
      }
    }
    if Fallen(s, st, j).Some? { NothingFound(s, st.idx, Fallen(s, st, j).value.idx, n, t); }
  }

  lemma FallOne(s: seq<Long>, st: State, j: nat)
    requires j > 0 && Fallen(s, st, j - 1).Some?
    ensures var r := Fallen(s, st, j - 1).value;
      Fallen(s, st, j) ==
      if 0 <= st.minidx < |r.idx| && 0 <= r.idx[st.minidx] < |s| then
        Some(State(r.idx[st.minidx := r.idx[st.minidx] + 1], st.minidx, r.out + [s[r.idx[st.minidx]]]))
      else None
  {
    var r := Fallen(s, st, j - 1).value;
    if 0 <= st.minidx < |st.idx| && 0 <= st.idx[st.minidx] {
      var b := st.idx[st.minidx];
      assert r.idx == st.idx[st.minidx := b + j - 1];
      if b + j <= |s| {
        assert r.idx[st.minidx := b + j] == st.idx[st.minidx := b + j];
        assert r.idx[st.minidx] == b + j - 1;
        assert r.out + [s[b + j - 1]] == st.out + s[b..b + j];
      }
    }
  }

  // ---- when the result is right ---------------------------------------------

  /** Every round finds a segment to take from if and only if no number is LONG_MAX. */
  lemma EveryRoundFinds(s: seq<Long>, n: nat, t: nat, stale: int)
    requires |s| == Base(n, t) && SegmentsSorted(s, n, t)
    ensures (forall k :: 0 <= k < |s| ==>
              var r := Rounds(s, n, t, stale, k); r.Some? && Found(s, r.value.idx, n, t)) <==> LONG_MAX !in s
  {
    hide Base, Sorted, SegmentsSorted, Round, Rounds, Found, Finding;
    if LONG_MAX !in s {
      forall k | 0 <= k < |s|
        ensures Rounds(s, n, t, stale, k).Some? && Found(s, Rounds(s, n, t, stale, k).value.idx, n, t)
      {
        WhileFinding(s, n, t, stale, k);
        FoundWhileBelow(s, n, t, Rounds(s, n, t, stale, k).value);
      }
    } else {
      var k := BelowCount(s);
      assert MaxCount(s) > 0;
      WhileFinding(s, n, t, stale, k);
      FoundWhileBelow(s, n, t, Rounds(s, n, t, stale, k).value);
      assert 0 <= k < |s| && !Found(s, Rounds(s, n, t, stale, k).value.idx, n, t);
    }
  }

  /** q is the last position of the largest number below LONG_MAX. */
  ghost predicate IsPeak(s: seq<Long>, q: nat) {
    q < |s| && s[q] < LONG_MAX && forall x :: 0 <= x < |s| && x != q && s[x] < LONG_MAX ==> Before(s, x, q)
  }

  /** All that is LONG_MAX follows right on the peak; or there is no peak, and minidx happened to
      hold 0. */
  ghost predicate Fits(s: seq<Long>, stale: int) {
    var c := MaxCount(s);
    || c == 0
    || (exists q: nat :: IsPeak(s, q) && q + c < |s| && s[q + 1..q + 1 + c] == Maxes(c))
    || (c == |s| && stale == 0)
  }

  function Maxes(c: nat): (m: seq<Long>)
    ensures |m| == c && forall k :: 0 <= k < c ==> m[k] == LONG_MAX
  {
    if c == 0 then [] else Maxes(c - 1) + [LONG_MAX]
  }

  lemma {:induction false} InSomeSegment(s: seq<Long>, n: nat, t: nat, x: nat, k: nat) returns (i: nat)
    requires |s| == Base(n, t) && k <= n && x < Base(k, t)
    ensures i < k && Base(i, t) <= x < Base(i, t) + t
  {
    assert Base(0, t) == 0;
    if k > 0 {
      Segment(k - 1, n, t);
      hide Base;
      if Base(k - 1, t) <= x { i := k - 1; } else { i := InSomeSegment(s, n, t, x, k - 1); }
    }
  }

  lemma LastIsPeak(s: seq<Long>, n: nat, t: nat, st: State)
    requires |s| == Base(n, t) && Finding(s, n, t, st) && st.out != []
    requires forall i: nat, y: nat :: i < n && y < |s| && LeftAt(st.idx, t, i, y) ==> s[y] == LONG_MAX
    ensures IsPeak(s, st.idx[st.minidx] - 1)
  {
    hide Base, Taken, Sorted, IdxOk;
    var q := st.idx[st.minidx] - 1;
    forall x | 0 <= x < |s| && x != q && s[x] < LONG_MAX
      ensures Before(s, x, q)
    {
      var i := InSomeSegment(s, n, t, x, n);
      assert LeftAt(st.idx, t, i, x) || TakenAt(st.idx, t, i, x);
    }
  }

  lemma OnePeak(s: seq<Long>, p: nat, q: nat)
    requires IsPeak(s, p) && IsPeak(s, q)
    ensures p == q
  {
  }

  /** Sorted numbers below LONG_MAX followed by c more: right exactly if those all are LONG_MAX. */
  lemma TailRight(s: seq<Long>, out: seq<Long>, w: seq<Long>)
    requires Sorted(out) && |out| == BelowCount(s) && |w| == MaxCount(s)
    requires forall k :: 0 <= k < |out| ==> out[k] < LONG_MAX
    requires multiset(out) <= multiset(s)
    ensures Sorted(out + w) && multiset(out + w) == multiset(s) <==> w == Maxes(MaxCount(s))
  {
    var c := MaxCount(s);
    var rest := multiset(s) - multiset(out);
    assert multiset(s) == multiset(out) + rest && LONG_MAX !in multiset(out);
    assert |rest| == c && forall x :: x in rest ==> x == LONG_MAX by { CountAtMost(rest); }
    MaxesAre(rest, w, c);
    hide MaxCount, BelowCount;
    assert multiset(out + w) == multiset(out) + multiset(w);
    SameRest(multiset(out), multiset(w), rest);
    if w == Maxes(c) { SortedTail(out, w); }
  }

  lemma SameRest(a: multiset<Long>, b: multiset<Long>, c: multiset<Long>)
    ensures a + b == a + c <==> b == c
  {
    if a + b == a + c {
      assert forall x :: (a + b)[x] == a[x] + b[x] && (a + c)[x] == a[x] + c[x];
    }
  }

  lemma SortedTail(out: seq<Long>, w: seq<Long>)
    requires Sorted(out) && forall k :: 0 <= k < |w| ==> w[k] == LONG_MAX
    ensures Sorted(out + w)
  {
  }

  lemma MaxesAre(rest: multiset<Long>, w: seq<Long>, c: nat)
    requires |rest| == c == |w| && forall x :: x in rest ==> x == LONG_MAX
    ensures multiset(w) == rest <==> w == Maxes(c)
  {
    CountAtMost(rest);
    CountAtMost(multiset(w));
    CountAtMost(multiset(Maxes(c)));
    assert rest == multiset{}[LONG_MAX := c];
    if w == Maxes(c) {
      assert multiset(w) == multiset{}[LONG_MAX := c];
    }
    if multiset(w) == rest {
      assert forall k :: 0 <= k < |w| ==> w[k] in multiset(w);
    }
  }

  /** In order and complete. */
  ghost predicate Right(s: seq<Long>, r: Option<State>) {
    r.Some? && Sorted(r.value.out) && multiset(r.value.out) == multiset(s)
  }

  /** The merge stays within its arrays and writes all the numbers in order if and only if they fit. */
  lemma MergeRight(s: seq<Long>, n: nat, t: nat, stale: int)
    requires |s| == Base(n, t) && SegmentsSorted(s, n, t)
    ensures Right(s, Rounds(s, n, t, stale, |s|)) <==> Fits(s, stale)
  {
    hide Base, Sorted, SegmentsSorted, Round, Rounds, Found, Last, Before, IsPeak, LeftAt, Taken, Rest, Fits, Fallen;
    var k, c := BelowCount(s), MaxCount(s);
    WhileFinding(s, n, t, stale, k);
    var st := Rounds(s, n, t, stale, k).value;
    FoundWhileBelow(s, n, t, st);
    Falling(s, n, t, stale, st, c);
    TakenRest(s, st.idx, n, t, n);
    assert s[..Base(n, t)] == s;
    if c > 0 && k > 0 {
      LastIsPeak(s, n, t, st);
      RightBehindPeak(s, st, stale);
    } else if c > 0 {
      AllMax(s);
      StaleOnly(s, n, t, stale, c);
      RightFromStale(s, st);
    } else {
      TailRight(s, st.out, []);
      assert st.out + [] == st.out && Fallen(s, st, 0) == Some(st) && Fits(s, stale) by { NoMax(s, st, stale); }
    }
  }

  lemma NoMax(s: seq<Long>, st: State, stale: int)
    requires MaxCount(s) == 0
    ensures st.out + [] == st.out && Fallen(s, st, 0) == Some(st) && Fits(s, stale)
  {
  }

  lemma FitsPeak(s: seq<Long>, q: nat, stale: int)
    requires IsPeak(s, q) && BelowCount(s) > 0 && MaxCount(s) > 0
    ensures Fits(s, stale) <==> q + MaxCount(s) < |s| && s[q + 1..q + 1 + MaxCount(s)] == Maxes(MaxCount(s))
  {
    hide IsPeak, Maxes;
    forall p: nat | IsPeak(s, p) ensures p == q { OnePeak(s, p, q); }
  }

  lemma RightTail(s: seq<Long>, r: Option<State>, out: seq<Long>, w: seq<Long>)
    requires r.Some? && r.value.out == out + w
    requires Sorted(out) && |out| == BelowCount(s) && |w| == MaxCount(s) && multiset(out) <= multiset(s)
    requires forall k :: 0 <= k < |out| ==> out[k] < LONG_MAX
    ensures Right(s, r) <==> w == Maxes(MaxCount(s))
  {
    hide Sorted, MaxCount, BelowCount, Maxes;
    TailRight(s, out, w);
  }

  lemma FallenPeak(s: seq<Long>, st: State, c: nat)
    requires c > 0 && 0 <= st.minidx < |st.idx| && 1 <= st.idx[st.minidx]
    ensures var b := st.idx[st.minidx];
      && (Fallen(s, st, c).Some? <==> b + c <= |s|)
      && (b + c <= |s| ==> Fallen(s, st, c).value.out == st.out + s[b..b + c])
  {
  }

  lemma RightBehindPeak(s: seq<Long>, st: State, stale: int)
    requires Sorted(st.out) && |st.out| == BelowCount(s) > 0 && MaxCount(s) > 0 && multiset(st.out) <= multiset(s)
    requires forall k :: 0 <= k < |st.out| ==> st.out[k] < LONG_MAX
    requires 0 <= st.minidx < |st.idx| && 1 <= st.idx[st.minidx] && IsPeak(s, st.idx[st.minidx] - 1)
    ensures Right(s, Fallen(s, st, MaxCount(s))) <==> Fits(s, stale)
  {
    var q, c := st.idx[st.minidx] - 1, MaxCount(s);
    FitsPeak(s, q, stale);
    hide IsPeak, Sorted, Fits, MaxCount, BelowCount, Maxes;
    FallenPeak(s, st, c);
    assert Fallen(s, st, c).None? ==> !Right(s, Fallen(s, st, c));
    hide Fallen, Right;
    if q + c < |s| { RightTail(s, Fallen(s, st, c), st.out, s[q + 1..q + 1 + c]); }
  }

  lemma RightFromStale(s: seq<Long>, st: State)
    requires st.out == [] && BelowCount(s) == 0 && s == Maxes(|s|) && |s| > 0
    requires 0 <= st.minidx < |st.idx| && st.idx[st.minidx] + |s| <= |s| <==> st.minidx == 0
    requires |st.idx| > 0 && st.idx[0] == 0
    ensures Right(s, Fallen(s, st, |s|)) <==> Fits(s, st.minidx)
  {
    FitsStale(s, st.minidx);
    AllSame(s);
    FallenStale(s, st);
    hide Sorted, IsPeak, Fits, BelowCount, MaxCount, Maxes, Fallen;
  }

  lemma FallenStale(s: seq<Long>, st: State)
    requires st.out == [] && |s| > 0 && |st.idx| > 0 && st.idx[0] == 0
    requires 0 <= st.minidx < |st.idx| && st.idx[st.minidx] + |s| <= |s| <==> st.minidx == 0
    ensures Fallen(s, st, |s|).Some? <==> st.minidx == 0
    ensures st.minidx == 0 ==> Fallen(s, st, |s|).value.out == s
  {
  }

  lemma FitsStale(s: seq<Long>, stale: int)
    requires BelowCount(s) == 0 && |s| > 0
    ensures Fits(s, stale) <==> stale == 0
  {
    NoPeak(s);
    hide IsPeak, Maxes;
  }

  lemma AllSame(s: seq<Long>)
    requires s == Maxes(|s|)
    ensures Sorted(s)
  {
  }

  lemma NoPeak(s: seq<Long>)
    requires BelowCount(s) == 0
    ensures forall q: nat :: !IsPeak(s, q)
  {
    AllMax(s);
  }

  lemma AllMax(s: seq<Long>)
    requires BelowCount(s) == 0
    ensures s == Maxes(|s|)
  {
    CountAtMost(multiset(s));
    assert forall k :: 0 <= k < |s| ==> s[k] in multiset(s);
  }

  lemma StaleOnly(s: seq<Long>, n: nat, t: nat, stale: int, c: nat)
    requires |s| == Base(n, t) == c > 0
    ensures 0 <= stale < n && Starts(n, t)[stale] + c <= |s| <==> stale == 0
    ensures n > 0 && Starts(n, t)[0] == 0
  {
    if 0 < stale < n { BaseOrder(0, stale, t); }
  }

  /** One segment of one number, LONG_MAX: right only if minidx happened to be 0. Behind the only
      other number it does no harm. Two segments that end in it: the program leaves the array, or
      writes a number twice. */
  lemma MaxCases(stale: int)
    ensures Right([LONG_MAX], Rounds([LONG_MAX], 1, 1, stale, 1)) <==> stale == 0
    ensures Right([5, LONG_MAX], Rounds([5, LONG_MAX], 1, 2, stale, 2))
    ensures !Right([1, LONG_MAX, 2, LONG_MAX], Rounds([1, LONG_MAX, 2, LONG_MAX], 2, 2, stale, 4))
    ensures !Right([2, LONG_MAX, 1, LONG_MAX], Rounds([2, LONG_MAX, 1, LONG_MAX], 2, 2, stale, 4))
  {
    hide Right, Rounds, Fits;
    var a, b, c, d := [LONG_MAX], [5, LONG_MAX], [1, LONG_MAX, 2, LONG_MAX], [2, LONG_MAX, 1, LONG_MAX];
    SmallCases();
    FitsStale(a, stale);
    FitsPeak(b, 0, stale);
    FitsPeak(c, 2, stale);
    FitsPeak(d, 0, stale);
    assert b[1..2] == Maxes(1) && d[1..3][1] == 1;
    MergeRight(a, 1, 1, stale);
    MergeRight(b, 1, 2, stale);
    MergeRight(c, 2, 2, stale);
    MergeRight(d, 2, 2, stale);
  }

  lemma SmallCases()
    ensures SegmentsSorted([LONG_MAX], 1, 1) && SegmentsSorted([5, LONG_MAX], 1, 2)
    ensures SegmentsSorted([1, LONG_MAX, 2, LONG_MAX], 2, 2) && SegmentsSorted([2, LONG_MAX, 1, LONG_MAX], 2, 2)
    ensures MaxCount([LONG_MAX]) == 1 && MaxCount([5, LONG_MAX]) == 1
    ensures MaxCount([1, LONG_MAX, 2, LONG_MAX]) == 2 == MaxCount([2, LONG_MAX, 1, LONG_MAX])
    ensures IsPeak([5, LONG_MAX], 0) && IsPeak([1, LONG_MAX, 2, LONG_MAX], 2) && IsPeak([2, LONG_MAX, 1, LONG_MAX], 0)
  {
  }
}
