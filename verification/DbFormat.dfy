/** The ASCII format of the two files of the database library (apue.3e/db/db.c):
    decimal fields padded with blanks, and index lines "key:offset:length\n".
    C strings are modelled without their terminating null. */
module DbFormat {
  import opened Options

  const PTR_SZ := 7
  const IDXLEN_SZ := 4
  const PTR_MAX := 9999999
  const NHASH := 137
  const FREE_OFF := 0
  const HASH_OFF := PTR_SZ
  const REC_OFF := (NHASH + 1) * PTR_SZ + 1 // first byte after the hash table's newline
  const HDR_SZ := PTR_SZ + IDXLEN_SZ
  const IDXLEN_MIN := 6
  const IDXLEN_MAX := 1024
  const DATLEN_MIN := 2
  const DATLEN_MAX := 1024

  // ---- decimal numbers ------------------------------------------------------

  predicate IsDigit(c: char) { '0' <= c <= '9' }

  function Digit(n: nat): (c: char)
    requires n < 10
    ensures IsDigit(c) && c as int - '0' as int == n
  {
    ('0' as int + n) as char
  }

  /** What printf's %d prints for a non-negative number. */
  function Dec(n: nat): (s: string)
    ensures |s| > 0
    ensures forall i :: 0 <= i < |s| ==> IsDigit(s[i])
  {
    if n < 10 then [Digit(n)] else Dec(n / 10) + [Digit(n % 10)]
  }

  function Blanks(n: nat): (s: string)
    ensures |s| == n
    ensures forall i :: 0 <= i < n ==> s[i] == ' '
  {
    seq(n, _ => ' ')
  }

  /** What printf's %*d prints with the given width. */
  function Pad(width: nat, n: nat): (s: string)
    ensures |s| >= width
  {
    if |Dec(n)| < width then Blanks(width - |Dec(n)|) + Dec(n) else Dec(n)
  }

  function SkipBlanks(s: string): string {
    if s != "" && s[0] == ' ' then SkipBlanks(s[1..]) else s
  }

  function DigitsValue(s: string, acc: nat): nat {
    if s != "" && IsDigit(s[0])
    then DigitsValue(s[1..], 10 * acc + (s[0] as int - '0' as int))
    else acc
  }

  /** atol and atoi: skip blanks, then an optional minus sign, then the longest run of digits. */
  function Atol(s: string): int {
    var t := SkipBlanks(s);
    if t != "" && t[0] == '-' then 0 - DigitsValue(t[1..], 0) else DigitsValue(t, 0)
  }

  function Pow10(n: nat): (p: nat)
    ensures p > 0
  {
    if n == 0 then 1 else 10 * Pow10(n - 1)
  }

  lemma {:induction false} DigitsValueAppend(s: string, c: char, acc: nat)
    requires forall i :: 0 <= i < |s| ==> IsDigit(s[i])
    requires IsDigit(c)
    ensures DigitsValue(s + [c], acc) == 10 * DigitsValue(s, acc) + (c as int - '0' as int)
  {
    if s == "" {
      assert (s + [c])[1..] == "";
    } else {
      assert (s + [c])[1..] == s[1..] + [c];
      DigitsValueAppend(s[1..], c, 10 * acc + (s[0] as int - '0' as int));
    }
  }

  lemma {:induction false} DecValue(n: nat)
    ensures DigitsValue(Dec(n), 0) == n
  {
    if n >= 10 {
      DecValue(n / 10);
      DigitsValueAppend(Dec(n / 10), Digit(n % 10), 0);
    } else {
      assert Dec(n)[1..] == "";
    }
  }

  lemma {:induction false} SkipBlanksPrefix(k: nat, s: string)
    requires s != "" && s[0] != ' '
    ensures SkipBlanks(Blanks(k) + s) == s
  {
    if k == 0 {
      assert Blanks(0) + s == s;
    } else {
      assert (Blanks(k) + s)[1..] == Blanks(k - 1) + s;
      SkipBlanksPrefix(k - 1, s);
    }
  }

  /** Reading a padded field gives back the number that was printed. */
  lemma AtolPad(width: nat, n: nat)
    ensures Atol(Pad(width, n)) == n
  {
    DecValue(n);
    assert IsDigit(Dec(n)[0]);
    SkipBlanksPrefix(if |Dec(n)| < width then width - |Dec(n)| else 0, Dec(n));
    assert Blanks(0) + Dec(n) == Dec(n);
  }

  /** In a padded field blanks come first and digits last, and with a short number it is just as wide
      as was asked. */
  lemma PadIsRight(width: nat, n: nat)
    ensures var s := Pad(width, n);
      && (|Dec(n)| <= width ==> |s| == width) && IsDigit(s[|s| - 1])
      && (forall i :: 0 <= i < |s| ==> s[i] == ' ' || IsDigit(s[i]))
      && (forall i, j :: 0 <= i < j < |s| && s[j] == ' ' ==> s[i] == ' ')
  {
    var s, d := Pad(width, n), Dec(n);
    var k := |s| - |d|;
    assert forall i :: 0 <= i < |s| ==> s[i] == if i < k then ' ' else d[i - k];
  }

  lemma AtolDec(n: nat)
    ensures Atol(Dec(n)) == n
  {
    DecValue(n);
    assert IsDigit(Dec(n)[0]);
  }

  /** A number has at most w digits exactly when it is below 10^w. */
  lemma {:induction false} DecWidth(n: nat, w: nat)
    requires w > 0
    ensures |Dec(n)| <= w <==> n < Pow10(w)
  {
    if w == 1 {
      assert Pow10(1) == 10 * Pow10(0);
    } else if n >= 10 {
      DecWidth(n / 10, w - 1);
      assert Pow10(w) == 10 * Pow10(w - 1);
    } else {
      assert Pow10(w) == 10 * Pow10(w - 1);
      assert Pow10(w - 1) >= 1;
    }
  }

  /** A pointer field is 7 bytes wide exactly for the pointers 0..PTR_MAX. */
  lemma PtrFieldWidth(n: nat)
    ensures |Pad(PTR_SZ, n)| == PTR_SZ <==> n <= PTR_MAX
  {
    DecWidth(n, PTR_SZ);
    assert Pow10(7) == 10000000 by {
      assert Pow10(4) == 10000;
      assert Pow10(7) == 1000 * Pow10(4);
    }
  }

  /** A length field is 4 bytes wide exactly for the lengths 0..9999, so for every legal one. */
  lemma LenFieldWidth(n: nat)
    ensures |Pad(IDXLEN_SZ, n)| == IDXLEN_SZ <==> n <= 9999
  {
    DecWidth(n, IDXLEN_SZ);
    assert Pow10(4) == 10000;
  }

  // ---- index lines ----------------------------------------------------------

  /** What an index record says besides its chain pointer; idxlen is the length of its line,
      kept in the 4-byte field in front of the line. */
  datatype Body = Body(key: string, datoff: nat, datlen: nat, idxlen: nat)

  function LineLen(key: string, datoff: nat, datlen: nat): nat {
    |key| + |Dec(datoff)| + |Dec(datlen)| + 3
  }

  /** The record _db_writeidx builds for a key and the current datoff and datlen. */
  function MakeBody(key: string, datoff: nat, datlen: nat): Body {
    Body(key, datoff, datlen, LineLen(key, datoff, datlen))
  }

  /** The text _db_writeidx formats: key, separator, offset, separator, length, newline. */
  function Line(b: Body): (s: string)
    ensures |s| == LineLen(b.key, b.datoff, b.datlen)
  {
    b.key + ":" + Dec(b.datoff) + ":" + Dec(b.datlen) + "\n"
  }

  /** The limits _db_writeidx and db_store impose on a record. */
  predicate SizesOk(b: Body) {
    && b.idxlen == LineLen(b.key, b.datoff, b.datlen)
    && IDXLEN_MIN <= b.idxlen <= IDXLEN_MAX
    && DATLEN_MIN <= b.datlen <= DATLEN_MAX
  }

  /** A record that can be read back. */
  predicate BodyOk(b: Body) { ':' !in b.key && SizesOk(b) }

  function RecSize(b: Body): nat { HDR_SZ + b.idxlen }

  /** The bytes of a whole index record: pointer, length, line. */
  function EncodeRec(ptr: nat, b: Body): string {
    Pad(PTR_SZ, ptr) + Pad(IDXLEN_SZ, b.idxlen) + Line(b)
  }

  /** strchr: index of the first occurrence, or |s|. */
  function Find(s: string, c: char): (i: nat)
    ensures i <= |s|
    ensures i < |s| ==> s[i] == c
    ensures forall j :: 0 <= j < i ==> s[j] != c
  {
    if s == "" || s[0] == c then 0 else 1 + Find(s[1..], c)
  }

  /** The checks and conversions _db_readidx makes on the line it read; None where it would
      abort the process. */
  function ParseLine(buf: string): (r: Option<Body>)
    ensures r.Some? ==> ':' !in r.value.key && 0 < r.value.datlen <= DATLEN_MAX
  {
    if buf == "" || buf[|buf| - 1] != '\n' then None else
    var text := buf[..|buf| - 1];
    var i := Find(text, ':');
    if i == |text| then None else
    var rest := text[i + 1..];
    var j := Find(rest, ':');
    if j == |rest| then None else
    var tail := rest[j + 1..];
    if ':' in tail then None else
    var off, len := Atol(rest[..j]), Atol(tail);
    if off < 0 || len <= 0 || len > DATLEN_MAX then None else
    Some(MakeBody(text[..i], off, len))
  }

  lemma {:induction false} FindSplit(a: string, rest: string)
    requires ':' !in a
    ensures Find(a + ":" + rest, ':') == |a|
    ensures (a + ":" + rest)[..|a|] == a && (a + ":" + rest)[|a| + 1..] == rest
  {
    var s := a + ":" + rest;
    if a != "" {
      assert s[1..] == a[1..] + ":" + rest;
      FindSplit(a[1..], rest);
    }
  }

  lemma ParseText(key: string, off: string, len: string)
    requires ':' !in key && ':' !in off && ':' !in len
    requires Atol(off) >= 0 && 0 < Atol(len) <= DATLEN_MAX
    ensures ParseLine(key + ":" + off + ":" + len + "\n") == Some(MakeBody(key, Atol(off), Atol(len)))
  {
    hide Atol, Find, LineLen;
    var buf := key + ":" + off + ":" + len + "\n";
    FindSplit(key, off + ":" + len);
    FindSplit(off, len);
    assert buf[..|buf| - 1] == key + ":" + (off + ":" + len);
  }

  /** The first two separators belong to the key and what follows it, so a third is left over. */
  lemma TooManySeparators(key: string, off: string, len: string)
    requires ':' in key && ':' !in off && ':' !in len
    ensures ParseLine(key + ":" + off + ":" + len + "\n") == None
  {
    hide Atol, LineLen;
    var buf := key + ":" + off + ":" + len + "\n";
    var text := buf[..|buf| - 1];
    assert text == key + ":" + off + ":" + len;
    var k :| 0 <= k < |key| && key[k] == ':';
    assert text[k] == ':' && text[|key|] == ':' && text[|key| + 1 + |off|] == ':';
    var i := Find(text, ':');
    assert i <= k;
    var rest := text[i + 1..];
    assert rest[|key| - i - 1] == ':' && rest[|key| + |off| - i] == ':';
    var j := Find(rest, ':');
    assert j <= |key| - i - 1;
    assert rest[j + 1..][|key| + |off| - i - j - 1] == ':';
  }

  /** Reading back a line that was written recovers the record exactly when the key holds no
      separator; otherwise the reader aborts. */
  lemma ParseLineRoundTrip(b: Body)
    requires 0 < b.datlen <= DATLEN_MAX && b.idxlen == |Line(b)|
    ensures ParseLine(Line(b)) == Some(b) <==> ':' !in b.key
    ensures ParseLine(Line(b)) == None <==> ':' in b.key
  {
    hide ParseLine;
    AtolDec(b.datoff);
    AtolDec(b.datlen);
    if ':' !in b.key {
      ParseText(b.key, Dec(b.datoff), Dec(b.datlen));
    } else {
      TooManySeparators(b.key, Dec(b.datoff), Dec(b.datlen));
    }
  }

  // ---- the hash -------------------------------------------------------------

  /** A char of the key as the signed 8-bit value C computes with. */
  function Signed(c: char): int {
    var b := c as int % 256;
    if b < 128 then b else b - 256
  }

  const ULONG_MOD := 0x1_0000_0000_0000_0000

  /** Every character times its 1-based position, summed. */
  function WeightedSum(key: string): int {
    if key == "" then 0
    else WeightedSum(key[..|key| - 1]) + Signed(key[|key| - 1]) * |key|
  }

  function Hash(key: string): (h: nat)
    ensures h < NHASH
  {
    (WeightedSum(key) % ULONG_MOD) % NHASH
  }

  lemma AddMod(a: int, b: int)
    ensures (a % ULONG_MOD + b % ULONG_MOD) % ULONG_MOD == (a + b) % ULONG_MOD
  {
  }

  lemma TermBound(c: nat, k: nat)
    requires c < 128 && k <= IDXLEN_MAX
    ensures 0 <= c * k <= 130048
  {
  }

  lemma SumStep(key: string)
    requires key != "" && |key| <= IDXLEN_MAX && key[|key| - 1] as int < 128
    ensures 0 <= WeightedSum(key) - WeightedSum(key[..|key| - 1]) <= 130048
  {
    SignedAscii(key[|key| - 1]);
    hide Signed;
    TermBound(key[|key| - 1] as int, |key|);
  }

  lemma {:induction false} SumBound(key: string)
    requires |key| <= IDXLEN_MAX && forall i :: 0 <= i < |key| ==> key[i] as int < 128
    ensures 0 <= WeightedSum(key) <= 130048 * |key|
  {
    if key != "" {
      SumBound(key[..|key| - 1]);
      SumStep(key);
      hide WeightedSum;
    }
  }

  lemma SmallMod(x: int)
    requires 0 <= x < ULONG_MOD
    ensures x % ULONG_MOD == x
  {
  }

  lemma SmallSum(key: string)
    requires |key| <= IDXLEN_MAX && forall i :: 0 <= i < |key| ==> key[i] as int < 128
    ensures 0 <= WeightedSum(key) && Hash(key) == WeightedSum(key) % NHASH
  {
    SumBound(key);
    hide WeightedSum;
    assert 130048 * |key| <= 133169152;
    SmallMod(WeightedSum(key));
  }

  lemma ModAdd(a: nat, b: nat)
    ensures (a + b) % NHASH == (a % NHASH + b) % NHASH
  {
  }

  lemma SignedAscii(c: char)
    requires c as int < 128
    ensures Signed(c) == c as int
  {
  }

  lemma SumAppend(key: string, c: char)
    requires c as int < 128
    ensures WeightedSum(key + [c]) == WeightedSum(key) + c as int * (|key| + 1)
  {
    SignedAscii(c);
    hide Signed;
    var all := key + [c];
    assert all[..|all| - 1] == key && all[|all| - 1] == c && |all| == |key| + 1;
    assert WeightedSum(all) == WeightedSum(key) + Signed(c) * |all|;
  }

  /** The first character counts once, the next twice, and so on: what one more character adds, for
      the keys of ASCII characters that fit in an index record. */
  lemma HashAppend(key: string, c: char)
    requires c as int < 128 && |key| < IDXLEN_MAX && forall i :: 0 <= i < |key| ==> key[i] as int < 128
    ensures Hash("") == 0 && Hash(key + [c]) == (Hash(key) + c as int * (|key| + 1)) % 137
  {
    TermBound(c as int, |key| + 1);
    SumAppend(key, c);
    SmallSum(key);
    SmallSum(key + [c]);
    assert WeightedSum("") == 0;
    SmallSum("");
    hide Hash, WeightedSum;
    var term: nat := c as int * (|key| + 1);
    ModAdd(WeightedSum(key), term);
  }

  /** The accumulating loop of _db_hash, in unsigned long arithmetic. */
  method DbHash(key: string) returns (h: nat)
    ensures h == Hash(key)
  {
    var hval := 0;
    var i := 0;
    while i < |key|
      invariant 0 <= i <= |key|
      invariant hval == WeightedSum(key[..i]) % ULONG_MOD
    {
      var term := Signed(key[i]) * (i + 1);
      assert key[..i + 1][..i] == key[..i];
      assert WeightedSum(key[..i + 1]) == WeightedSum(key[..i]) + term;
      AddMod(WeightedSum(key[..i]), term);
      hval := (hval + term % ULONG_MOD) % ULONG_MOD;
      i := i + 1;
    }
    assert key[..i] == key;
    h := hval % NHASH;
  }
}
