/** Passing a descriptor or an error over a stream (apue.3e/lib/sendfd.c, senderr.c and recvfd.c):
    any text, then a null byte and a status byte. */
module FdPass {
  import opened Bytes
  import opened Options

  /** What one recvmsg returns: bytes, and a descriptor if one comes with them. */
  datatype Chunk = Chunk(bytes: seq<Byte>, fd: Option<int>)

  /** The return value, or the fatal message-format error. */
  datatype Outcome = Returned(value: int) | Dumped

  // ---- sending --------------------------------------------------------------

  /** The status byte for an error code: its negation reduced to a byte, but never 0. */
  function StatusOf(errcode: int): (st: Byte)
    requires errcode < 0
    ensures st != 0
  {
    var low := -errcode % 256;
    if low == 0 then 1 else low
  }

  /** send_fd: the two-byte trailer, with the descriptor unless it is an error code. */
  method SendFd(fdToSend: int) returns (trailer: seq<Byte>, passed: Option<int>)
    ensures |trailer| == 2 && trailer[0] == 0
    ensures fdToSend >= 0 ==> trailer[1] == 0 && passed == Some(fdToSend)
    ensures fdToSend < 0 ==> trailer[1] == StatusOf(fdToSend) && passed == None
  {
    var buf := new Byte[2](_ => 0);
    if fdToSend < 0 {
      passed := None;
      buf[1] := -fdToSend % 256;
      if buf[1] == 0 { buf[1] := 1; }
    } else {
      passed := Some(fdToSend);
      buf[1] := 0;
    }
    buf[0] := 0;
    trailer := buf[..];
  }

  /** send_err: the message, then the trailer for a code that is made negative. */
  method SendErr(errcode: int, msg: seq<Byte>) returns (stream: seq<Byte>)
    ensures stream == msg + [0, StatusOf(if errcode >= 0 then -1 else errcode)]
  {
    stream := [];
    if |msg| > 0 { stream := msg; }
    var code := errcode;
    if code >= 0 { code := -1; }
    var trailer, passed := SendFd(code);
    assert trailer == [0, StatusOf(code)];
    stream := stream + trailer;
  }

  // ---- receiving ------------------------------------------------------------

  function FirstNull(s: seq<Byte>): (k: nat)
    ensures k <= |s| && (k < |s| ==> s[k] == 0) && forall j :: 0 <= j < k ==> s[j] != 0
  {
    if s == [] || s[0] == 0 then 0 else 1 + FirstNull(s[1..])
  }

  lemma FirstNullIs(s: seq<Byte>, k: nat)
    requires k <= |s| && (k < |s| ==> s[k] == 0) && forall j :: 0 <= j < k ==> s[j] != 0
    ensures FirstNull(s) == k
  {
  }

  function Neg(x: int): int { -x }

  /** The meaning of the chunks still to come: what recv_fd returns, and the text it passes on. */
  function Received(chunks: seq<Chunk>): (Outcome, seq<Byte>) {
    if chunks == [] then (Returned(-1), [])
    else
      var c := chunks[0];
      var n := |c.bytes|;
      var z := FirstNull(c.bytes);
      if z == n then
        if n == 0 then (Returned(-1), []) else var rest := Received(chunks[1..]); (rest.0, c.bytes + rest.1)
      else if z != n - 2 then (Dumped, [])
      else if c.bytes[n - 1] == 0 then
        if c.fd.None? then (Dumped, []) else (Returned(c.fd.value), c.bytes[..n - 2])
      else (Returned(Neg(c.bytes[n - 1])), c.bytes[..n - 2])
  }

  /** The scan of one chunk for the null: dumped if it is not next to last or has status 0 and no
      descriptor comes with it; status -1 if there is none; nr is the length of the text. */
  method Scan(c: Chunk) returns (dumped: bool, status: int, newfd: int, nr: nat)
    ensures var n := |c.bytes|;
      var z := FirstNull(c.bytes);
      && (dumped <==> z < n && (z != n - 2 || (c.bytes[n - 1] == 0 && c.fd.None?)))
      && (!dumped && z == n ==> status == -1 && nr == n)
      && (!dumped && z < n ==>
            nr == n - 2 && status == c.bytes[n - 1] && newfd == if status == 0 then c.fd.value else -status)
  {
    dumped, status, newfd := false, -1, -1;
    var buf, ptr := c.bytes, 0;
    nr := |buf|;
    while ptr < nr
      invariant 0 <= ptr <= |buf|
      invariant status == -1 ==> nr == |buf| && forall j :: 0 <= j < ptr ==> buf[j] != 0
      invariant status != -1 ==>
        && nr == |buf| - 2 == ptr - 1 && FirstNull(buf) == nr && status == buf[|buf| - 1]
        && (status == 0 && c.fd.None? ==> false) && newfd == if status == 0 then c.fd.value else -status
      decreases nr - ptr
    {
      ptr := ptr + 1;
      if buf[ptr - 1] == 0 {
        FirstNullIs(buf, ptr - 1);
        if ptr != nr - 1 { return true, status, newfd, nr; }
        status := buf[ptr];
        if status == 0 {
          if c.fd.None? { return true, status, newfd, nr; }
          newfd := c.fd.value;
        } else {
          newfd := -status;
        }
        nr := nr - 2;
      }
    }
    if status == -1 { FirstNullIs(buf, nr); }
  }

  function Joined(chunks: seq<Chunk>): seq<Byte> {
    if chunks == [] then [] else chunks[0].bytes + Joined(chunks[1..])
  }

  predicate NoNulls(s: seq<Byte>) { forall i :: 0 <= i < |s| ==> s[i] != 0 }

  /** The first k chunks bring text alone. */
  predicate TextAlone(chunks: seq<Chunk>, k: nat)
    requires k <= |chunks|
  {
    forall j :: 0 <= j < k ==> chunks[j].bytes != [] && forall i :: 0 <= i < |chunks[j].bytes| ==> chunks[j].bytes[i] != 0
  }

  /** End of file before any null: -1, and all the text there was. */
  lemma {:induction false} EndOfFile(chunks: seq<Chunk>, k: nat)
    requires k <= |chunks| && TextAlone(chunks, k) && (k < |chunks| ==> chunks[k].bytes == [])
    ensures Received(chunks) == (Returned(-1), Joined(chunks[..k]))
  {
    if k > 0 {
      assert chunks[..k][1..] == chunks[1..][..k - 1];
      FirstNullIs(chunks[0].bytes, |chunks[0].bytes|);
      EndOfFile(chunks[1..], k - 1);
    }
  }

  /** What is returned, other than at the end of file, comes with the first null. */
  lemma {:induction false} WithTheNull(chunks: seq<Chunk>)
    ensures var r := Received(chunks).0;
      r == Returned(-1) || exists k :: 0 <= k < |chunks| && TextAlone(chunks, k) && Ends(chunks[k], r)
  {
    hide FirstNull;
    if chunks != [] {
      var c, r := chunks[0], Received(chunks).0;
      if FirstNull(c.bytes) < |c.bytes| {
        assert TextAlone(chunks, 0) && Ends(chunks[0], r);
      } else if c.bytes != [] {
        WithTheNull(chunks[1..]);
        if r != Returned(-1) {
          var k :| 0 <= k < |chunks[1..]| && TextAlone(chunks[1..], k) && Ends(chunks[1..][k], r);
          assert forall j :: 1 <= j <= k ==> chunks[j] == chunks[1..][j - 1];
          assert TextAlone(chunks, k + 1) && Ends(chunks[k + 1], r);
        }
      }
    }
  }

  lemma Descriptor(chunks: seq<Chunk>)
    ensures var r := Received(chunks).0;
      r.Returned? && r.value >= 0 ==>
      exists k :: 0 <= k < |chunks| && TextAlone(chunks, k) && chunks[k].fd == Some(r.value) && |chunks[k].bytes| >= 2
        && chunks[k].bytes[|chunks[k].bytes| - 2..] == [0, 0]
  {
    hide Received, FirstNull, TextAlone;
    WithTheNull(chunks);
    var r := Received(chunks).0;
    if r.Returned? && r.value >= 0 {
      var k :| 0 <= k < |chunks| && TextAlone(chunks, k) && Ends(chunks[k], r);
      var b := chunks[k].bytes;
      assert b[|b| - 2..] == [b[|b| - 2], b[|b| - 1]];
    }
  }

  /** A chunk with a null, and what it makes recv_fd do: return the descriptor it brings if a 0
      follows the null and ends the chunk, return the negation of another byte that does, else abort. */
  predicate Ends(c: Chunk, r: Outcome) {
    var n := |c.bytes|;
    && (exists i :: 0 <= i < n && c.bytes[i] == 0)
    && if n >= 2 && c.bytes[n - 2] == 0 && NoNulls(c.bytes[..n - 2]) && (c.bytes[n - 1] != 0 || c.fd.Some?) then
         r == Returned(if c.bytes[n - 1] == 0 then c.fd.value else Neg(c.bytes[n - 1]))
       else r == Dumped
  }

  /** recv_fd; the chunks are what recvmsg returns one after the other, then end of file. With no
      null before the end of file it returns -1, with all the text; a descriptor is returned only if
      some chunk brings it with a null and status 0. */
  method RecvFd(chunks: seq<Chunk>) returns (r: Outcome, text: seq<Byte>)
    ensures r == Received(chunks).0 && text == Received(chunks).1
    ensures forall k :: 0 <= k <= |chunks| && TextAlone(chunks, k) && (k < |chunks| ==> chunks[k].bytes == []) ==>
      r == Returned(-1) && text == Joined(chunks[..k])
    ensures r.Returned? && r.value >= 0 ==>
      exists k :: 0 <= k < |chunks| && TextAlone(chunks, k) && chunks[k].fd == Some(r.value) && |chunks[k].bytes| >= 2
        && chunks[k].bytes[|chunks[k].bytes| - 2..] == [0, 0]
    ensures r == Returned(-1) || exists k :: 0 <= k < |chunks| && TextAlone(chunks, k) && Ends(chunks[k], r)
  {
    hide TextAlone, Ends, Received;
    forall k | 0 <= k <= |chunks| && TextAlone(chunks, k) && (k < |chunks| ==> chunks[k].bytes == [])
      ensures Received(chunks) == (Returned(-1), Joined(chunks[..k]))
    {
      EndOfFile(chunks, k);
    }
    WithTheNull(chunks);
    Descriptor(chunks);
    r, text := ReadChunks(chunks);
  }

  /** The loop of recv_fd. */
  method ReadChunks(chunks: seq<Chunk>) returns (r: Outcome, text: seq<Byte>)
    ensures r == Received(chunks).0 && text == Received(chunks).1
  {
    hide FirstNull;
    text := [];
    var k := 0;
    assert chunks[0..] == chunks;
    while true
      invariant 0 <= k <= |chunks|
      invariant Received(chunks).0 == Received(chunks[k..]).0
      invariant Received(chunks).1 == text + Received(chunks[k..]).1
      decreases |chunks| - k
    {
      if k == |chunks| || |chunks[k].bytes| == 0 { return Returned(-1), text; }
      assert chunks[k..][1..] == chunks[k + 1..];
      var c := chunks[k];
      k := k + 1;
      var dumped, status, newfd, nr := Scan(c);
      if dumped { return Dumped, text; }
      if nr > 0 { text := text + c.bytes[..nr]; }
      if status >= 0 { return Returned(newfd), text; }
    }
  }

  // ---- what arrives is what was sent ----------------------------------------

  /** recvmsg returns the stream in pieces that are not empty. */
  predicate Pieces(chunks: seq<Chunk>, stream: seq<Byte>) {
    Joined(chunks) == stream && forall i :: 0 <= i < |chunks| ==> chunks[i].bytes != []
  }

  /** A piece that ends within the message. */
  lemma EarlyPiece(s: seq<Byte>, msg: seq<Byte>, st: Byte, rest: seq<Byte>)
    requires s + rest == msg + [0, st] && NoNulls(msg) && |s| <= |msg|
    ensures FirstNull(s) == |s| && s + msg[|s|..] == msg && rest == msg[|s|..] + [0, st]
  {
    var t := msg + [0, st];
    assert s == t[..|s|] && rest == t[|s|..];
    assert s == msg[..|s|];
    FirstNullIs(s, |s|);
  }

  /** A piece that ends between the null and the status. */
  lemma SplitPiece(s: seq<Byte>, msg: seq<Byte>, st: Byte, rest: seq<Byte>)
    requires s + rest == msg + [0, st] && NoNulls(msg) && |s| == |msg| + 1
    ensures FirstNull(s) == |msg| && rest == [st]
  {
    var t := msg + [0, st];
    assert s == t[..|s|] && rest == t[|s|..];
    assert s == msg + [0];
    FirstNullIs(s, |msg|);
  }

  /** A piece that has both. */
  lemma FinalPiece(s: seq<Byte>, msg: seq<Byte>, st: Byte, rest: seq<Byte>)
    requires s + rest == msg + [0, st] && NoNulls(msg) && |s| >= |msg| + 2
    ensures s == msg + [0, st] && FirstNull(s) == |msg| && rest == [] && s[..|msg|] == msg
  {
    assert |s| + |rest| == |msg| + 2;
    assert s == (s + rest)[..|s|];
    FirstNullIs(s, |msg|);
  }

  /** Whatever the pieces: the whole message and the status or descriptor arrive exactly when the null
      and the status come in the same piece, and with them the descriptor if the status is 0. */
  lemma {:induction false} Delivered(chunks: seq<Chunk>, msg: seq<Byte>, st: Byte)
    requires NoNulls(msg) && Pieces(chunks, msg + [0, st])
    ensures |chunks| > 0
    ensures var last := chunks[|chunks| - 1];
      if |last.bytes| >= 2 && (st == 0 ==> last.fd.Some?)
      then Received(chunks) == (Returned(if st == 0 then last.fd.value else Neg(st)), msg)
      else Received(chunks).0 == Dumped
  {
    SomePiece(chunks, msg + [0, st]);
    var c := chunks[0];
    hide FirstNull, Joined;
    assert c.bytes + Joined(chunks[1..]) == msg + [0, st] by { JoinedHead(chunks); }
    if |c.bytes| <= |msg| {
      EarlyPiece(c.bytes, msg, st, Joined(chunks[1..]));
      Delivered(chunks[1..], msg[|c.bytes|..], st);
    } else if |c.bytes| == |msg| + 1 {
      SplitPiece(c.bytes, msg, st, Joined(chunks[1..]));
      LastPiece(chunks[1..], st);
    } else {
      FinalPiece(c.bytes, msg, st, Joined(chunks[1..]));
      NoPieces(chunks[1..]);
    }
  }

  lemma JoinedHead(chunks: seq<Chunk>)
    requires chunks != []
    ensures Joined(chunks) == chunks[0].bytes + Joined(chunks[1..])
  {
  }

  lemma SomePiece(chunks: seq<Chunk>, stream: seq<Byte>)
    requires Pieces(chunks, stream) && stream != []
    ensures |chunks| > 0
  {
  }

  lemma NoPieces(chunks: seq<Chunk>)
    requires Pieces(chunks, [])
    ensures chunks == []
  {
  }

  lemma LastPiece(chunks: seq<Chunk>, st: Byte)
    requires Pieces(chunks, [st])
    ensures |chunks| == 1 && |chunks[0].bytes| == 1
  {
    NoPieces(chunks[1..]);
  }

  /** send_err then recv_fd: the message arrives whole, with the code itself if it is one of -255
      to -1, and else with its negation modulo 256 negated again, 0 standing for -1. */
  method ErrorArrives(errcode: int, msg: seq<Byte>, chunks: seq<Chunk>) returns (r: Outcome, text: seq<Byte>)
    requires NoNulls(msg)
    requires Pieces(chunks, msg + [0, StatusOf(if errcode >= 0 then -1 else errcode)])
    requires |chunks| > 0 && |chunks[|chunks| - 1].bytes| >= 2
    ensures text == msg
    ensures -255 <= errcode <= -1 ==> r == Returned(errcode)
    ensures errcode >= 0 ==> r == Returned(-1)
    ensures errcode < -255 ==> r == Returned(if -errcode % 256 == 0 then -1 else -(-errcode % 256))
  {
    var stream := SendErr(errcode, msg);
    Delivered(chunks, msg, stream[|msg| + 1]);
    r, text := RecvFd(chunks);
  }

  /** send_fd then recv_fd: the descriptor arrives. */
  method DescriptorArrives(fd: nat, chunks: seq<Chunk>) returns (r: Outcome, text: seq<Byte>)
    requires Pieces(chunks, [0, 0]) && |chunks| > 0 && chunks[|chunks| - 1].fd == Some(fd) && |chunks[|chunks| - 1].bytes| == 2
    ensures r == Returned(fd) && text == []
  {
    var trailer, passed := SendFd(fd);
    assert [] + [0, 0] == [0, 0];
    Delivered(chunks, [], 0);
    r, text := RecvFd(chunks);
  }

  /** The two bytes of send_fd in two pieces: the receiver aborts, whichever brings the descriptor. */
  method TrailerSplit(fd: nat, first: bool) returns (r: Outcome, text: seq<Byte>)
    ensures r == Dumped
  {
    var chunks := [Chunk([0], if first then Some(fd) else None), Chunk([0], if first then None else Some(fd))];
    JoinedHead(chunks);
    JoinedHead(chunks[1..]);
    assert chunks[1..][1..] == [] && Joined([]) == [] && Joined(chunks) == [] + [0, 0];
    Delivered(chunks, [], 0);
    r, text := RecvFd(chunks);
  }
}
