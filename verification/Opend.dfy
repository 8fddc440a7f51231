/** The open server's loop (apue.3e/ipc2/opend/loop.poll.c and client.c): a table of clients and an
    array of descriptors to poll that has to hold the same descriptors. */
module Opend {
  const NALLOC := 10

  /** fd is -1 in an entry that is free. */
  datatype Client = Client(fd: int, uid: nat)

  /** hup and pin: POLLHUP and POLLIN in revents. */
  datatype PollFd = PollFd(fd: int, hup: bool, pin: bool)

  /** What was done for a descriptor in a sweep. */
  datatype Event = Closed(fd: int) | Request(fd: int)

  function One<T(==)>(b: bool, x: T): multiset<T> { if b then multiset{x} else multiset{} }

  function ClientFds(c: seq<Client>): multiset<int> {
    if c == [] then multiset{} else ClientFds(c[..|c| - 1]) + One(c[|c| - 1].fd != -1, c[|c| - 1].fd)
  }

  function PollFds(p: seq<PollFd>): multiset<int> {
    if p == [] then multiset{} else PollFds(p[..|p| - 1]) + multiset{p[|p| - 1].fd}
  }

  predicate IsReady(e: PollFd) { e.hup || e.pin }

  /** What an entry that is ready calls for: closing after a hangup or the end of the client's
      requests (a read that gives 0), else a request. */
  function EventOf(e: PollFd, nread: map<int, nat>): Event {
    if e.hup || (e.fd in nread && nread[e.fd] == 0) then Closed(e.fd) else Request(e.fd)
  }

  /** What the entries of p call for, each entry that is ready once. */
  function Due(p: seq<PollFd>, nread: map<int, nat>): multiset<Event> {
    if p == [] then multiset{}
    else Due(p[..|p| - 1], nread) + One(IsReady(p[|p| - 1]), EventOf(p[|p| - 1], nread))
  }

  function ClosedFds(log: seq<Event>): multiset<int> {
    if log == [] then multiset{} else ClosedFds(log[..|log| - 1]) + One(log[|log| - 1].Closed?, log[|log| - 1].fd)
  }

  // ---- the sums -------------------------------------------------------------

  lemma Swap<T>(a: multiset<T>, x: multiset<T>, b: multiset<T>)
    ensures (a + x) + b == (a + b) + x
  {
  }

  lemma Cancel<T>(a: multiset<T>, b: multiset<T>, x: multiset<T>)
    ensures a + x == b + x <==> a == b
  {
    if a + x == b + x {
      assert forall k :: (a + x)[k] == a[k] + x[k] && (b + x)[k] == b[k] + x[k];
    }
  }

  lemma ClientLast(c: seq<Client>, d: seq<Client>, e: Client)
    requires c == d + [e]
    ensures ClientFds(c) == ClientFds(d) + One(e.fd != -1, e.fd)
  {
    assert c[..|c| - 1] == d;
  }

  lemma {:induction false} ClientSet(c: seq<Client>, i: nat, e: Client)
    requires i < |c|
    ensures ClientFds(c[i := e]) + One(c[i].fd != -1, c[i].fd) == ClientFds(c) + One(e.fd != -1, e.fd)
  {
    hide One, ClientFds;
    var n := |c| - 1;
    var x, y := One(c[i].fd != -1, c[i].fd), One(e.fd != -1, e.fd);
    ClientLast(c, c[..n], c[n]);
    if i < n {
      ClientLast(c[i := e], c[..n][i := e], c[n]);
      ClientSet(c[..n], i, e);
      var z := One(c[n].fd != -1, c[n].fd);
      Swap(ClientFds(c[..n][i := e]), z, x);
      Swap(ClientFds(c[..n]), z, y);
    } else {
      ClientLast(c[i := e], c[..n], e);
      Swap(ClientFds(c[..n]), y, x);
    }
  }

  lemma {:induction false} ClientIn(c: seq<Client>, fd: int)
    requires fd != -1
    ensures fd in ClientFds(c) <==> exists i :: 0 <= i < |c| && c[i].fd == fd
  {
    if c != [] { ClientIn(c[..|c| - 1], fd); }
  }

  lemma {:induction false} FreeClients(c: seq<Client>, d: seq<Client>)
    requires forall i :: 0 <= i < |d| ==> d[i].fd == -1
    ensures ClientFds(c + d) == ClientFds(c)
  {
    if d == [] {
      assert c + d == c;
    } else {
      assert (c + d)[..|c + d| - 1] == c + d[..|d| - 1];
      FreeClients(c, d[..|d| - 1]);
    }
  }

  /** The array without entry i: the last entry moves to its place. */
  function Packed(p: seq<PollFd>, i: nat): seq<PollFd>
    requires i < |p|
  {
    var n := |p| - 1;
    if i < n then p[..n][i := p[n]] else p[..n]
  }

  lemma {:induction false} PollSet(p: seq<PollFd>, i: nat, e: PollFd)
    requires i < |p|
    ensures PollFds(p[i := e]) + multiset{p[i].fd} == PollFds(p) + multiset{e.fd}
  {
    var n := |p| - 1;
    if i < n {
      assert p[i := e][..n] == p[..n][i := e];
      PollSet(p[..n], i, e);
      Swap(PollFds(p[..n][i := e]), multiset{p[n].fd}, multiset{p[i].fd});
      Swap(PollFds(p[..n]), multiset{p[n].fd}, multiset{e.fd});
    } else {
      assert p[i := e][..n] == p[..n];
      Swap(PollFds(p[..n]), multiset{e.fd}, multiset{p[i].fd});
    }
  }

  lemma {:induction false} DueSet(p: seq<PollFd>, i: nat, e: PollFd, nread: map<int, nat>)
    requires i < |p|
    ensures Due(p[i := e], nread) + One(IsReady(p[i]), EventOf(p[i], nread)) ==
            Due(p, nread) + One(IsReady(e), EventOf(e, nread))
  {
    hide One, IsReady, EventOf;
    var n := |p| - 1;
    var x, y := One(IsReady(p[i]), EventOf(p[i], nread)), One(IsReady(e), EventOf(e, nread));
    if i < n {
      assert p[i := e][..n] == p[..n][i := e];
      DueSet(p[..n], i, e, nread);
      var z := One(IsReady(p[n]), EventOf(p[n], nread));
      Swap(Due(p[..n][i := e], nread), z, x);
      Swap(Due(p[..n], nread), z, y);
    } else {
      assert p[i := e][..n] == p[..n];
      Swap(Due(p[..n], nread), y, x);
    }
  }

  /** Taking entry i out by putting the last one in its place. */
  lemma PollCut(p: seq<PollFd>, i: nat)
    requires i < |p|
    ensures PollFds(p) == PollFds(Packed(p, i)) + multiset{p[i].fd}
  {
    var n := |p| - 1;
    if i < n { PollSet(p[..n], i, p[n]); }
  }

  lemma DueCut(p: seq<PollFd>, i: nat, nread: map<int, nat>)
    requires i < |p|
    ensures Due(p, nread) == Due(Packed(p, i), nread) + One(IsReady(p[i]), EventOf(p[i], nread))
  {
    hide One, IsReady, EventOf;
    var n := |p| - 1;
    if i < n { DueSet(p[..n], i, p[n], nread); }
  }

  lemma {:induction false} DueHead(p: seq<PollFd>, i: nat, nread: map<int, nat>)
    requires i < |p|
    ensures Due(p[i..], nread) == Due(p[i + 1..], nread) + One(IsReady(p[i]), EventOf(p[i], nread))
  {
    hide One, IsReady, EventOf;
    var q := p[i..];
    if |q| == 1 {
      assert q[..0] == p[i + 1..] == [];
    } else {
      var n := |p| - 1;
      DueHead(p[..n], i, nread);
      assert q[..|q| - 1] == p[..n][i..];
      assert p[i + 1..][..|p[i + 1..]| - 1] == p[..n][i + 1..];
      Swap(Due(p[..n][i + 1..], nread), One(IsReady(p[i]), EventOf(p[i], nread)),
           One(IsReady(p[n]), EventOf(p[n], nread)));
    }
  }

  /** The rest of the sweep after entry i has been packed away. */
  lemma DuePacked(p: seq<PollFd>, i: nat, nread: map<int, nat>)
    requires i < |p|
    ensures |Packed(p, i)| == |p| - 1 && Due(Packed(p, i)[i..], nread) == Due(p[i + 1..], nread)
  {
    hide One, IsReady, EventOf, Due;
    var q := p[i..];
    DueCut(q, 0, nread);
    DueHead(p, i, nread);
    assert Packed(p, i)[i..] == Packed(q, 0);
    Cancel(Due(Packed(q, 0), nread), Due(p[i + 1..], nread), One(IsReady(p[i]), EventOf(p[i], nread)));
  }

  // ---- the two tables -------------------------------------------------------

  /** The live entries of client[] hold exactly the descriptors of p, each once; p starts with the
      listening descriptor. */
  ghost predicate Agree(c: seq<Client>, p: seq<PollFd>, listen: int) {
    && p != [] && p[0].fd == listen && ClientFds(c) == PollFds(p)
    && (forall fd :: fd in PollFds(p) ==> fd >= 0 && PollFds(p)[fd] == 1)
  }

  lemma AgreeAdd(c: seq<Client>, c': seq<Client>, p: seq<PollFd>, e: PollFd, listen: int)
    requires Agree(c, p, listen) && e.fd >= 0 && e.fd !in PollFds(p) && ClientFds(c') == ClientFds(c) + multiset{e.fd}
    ensures Agree(c', p + [e], listen) && PollFds(p + [e]) == PollFds(p) + multiset{e.fd}
  {
    hide ClientFds;
    assert (p + [e])[..|p + [e]| - 1] == p;
    hide PollFds;
    assert forall x :: (PollFds(p) + multiset{e.fd})[x] == PollFds(p)[x] + multiset{e.fd}[x];
  }

  lemma AgreeIn(c: seq<Client>, p: seq<PollFd>, listen: int, i: nat)
    requires Agree(c, p, listen) && i < |p|
    ensures p[i].fd >= 0 && p[i].fd in ClientFds(c)
  {
    hide ClientFds;
    PollCut(p, i);
    hide PollFds;
    assert p[i].fd in PollFds(Packed(p, i)) + multiset{p[i].fd};
  }

  lemma LessOne(a: multiset<int>, b: multiset<int>, fd: int)
    requires a + multiset{fd} == b && forall x :: x in b ==> x >= 0 && b[x] == 1
    ensures forall x :: x in a ==> x >= 0 && a[x] == 1
  {
    assert forall x :: b[x] == a[x] + multiset{fd}[x];
  }

  lemma AgreeCut(c: seq<Client>, c': seq<Client>, p: seq<PollFd>, i: nat, listen: int)
    requires Agree(c, p, listen) && 1 <= i < |p| && ClientFds(c') + multiset{p[i].fd} == ClientFds(c)
    ensures Agree(c', Packed(p, i), listen) && PollFds(Packed(p, i)) + multiset{p[i].fd} == PollFds(p)
  {
    hide ClientFds, PollFds;
    PollCut(p, i);
    Cancel(ClientFds(c'), PollFds(Packed(p, i)), multiset{p[i].fd});
    LessOne(PollFds(Packed(p, i)), PollFds(p), p[i].fd);
  }

  lemma AgreeFds(c: seq<Client>, p: seq<PollFd>, q: seq<PollFd>, listen: int)
    requires Agree(c, p, listen) && PollFds(q) == PollFds(p) && q != [] && q[0].fd == p[0].fd
    ensures Agree(c, q, listen)
  {
    hide ClientFds, PollFds;
  }

  // ---- the server -----------------------------------------------------------

  /** What happens in one turn: perhaps a connection, which descriptors are ready, what reads give. */
  datatype TurnInput = TurnInput(connect: bool, clifd: int, uid: nat, ready: map<int, (bool, bool)>, nread: map<int, nat>)

  class Server {
    var client: array<Client>
    var pollfd: array<PollFd>
    var numfd: nat
    const listenfd: int
    ghost var log: seq<Event>

    /** The live entries of client[] hold exactly the descriptors in pollfd[0..numfd), each once. */
    ghost predicate Valid()
      reads this, client, pollfd
    {
      1 <= numfd <= pollfd.Length && Agree(client[..], pollfd[..numfd], listenfd)
    }

    ghost function Fds(): multiset<int>
      reads this, pollfd
      requires numfd <= pollfd.Length
    {
      PollFds(pollfd[..numfd])
    }

    /** client_alloc. */
    method ClientAlloc()
      modifies this`client
      ensures fresh(client) && client.Length == old(client.Length) + NALLOC
      ensures forall i :: 0 <= i < old(client.Length) ==> client[i] == old(client[i])
      ensures forall i :: old(client.Length) <= i < client.Length ==> client[i].fd == -1
      ensures ClientFds(client[..]) == old(ClientFds(client[..]))
    {
      hide ClientFds;
      var size := client.Length;
      var more := new Client[size + NALLOC](_ => Client(-1, 0));
      forall i | 0 <= i < size { more[i] := client[i]; }
      ghost var before := client[..];
      ghost var tail := more[size..];
      FreeClients(before, tail);
      client := more;
      assert client[..] == before + tail && before == old(client[..]);
    }

    method FirstFree() returns (i: nat)
      ensures i <= client.Length && (i < client.Length ==> client[i].fd == -1)
      ensures forall j :: 0 <= j < i ==> client[j].fd != -1
    {
      i := 0;
      while i < client.Length && client[i].fd != -1
        invariant 0 <= i <= client.Length && forall j :: 0 <= j < i ==> client[j].fd != -1
      {
        i := i + 1;
      }
    }

    /** client_add: the first free entry, of a longer table if there is none. */
    method ClientAdd(fd: int, uid: nat) returns (i: nat)
      requires fd != -1
      modifies this`client, client
      ensures client == old(client) || fresh(client)
      ensures ClientFds(client[..]) == old(ClientFds(client[..])) + multiset{fd}
      ensures i < client.Length && client[i] == Client(fd, uid)
    {
      hide ClientFds;
      i := FirstFree();
      if i == client.Length {
        ClientAlloc();
        assert client[client.Length - NALLOC].fd == -1;
        i := FirstFree();
      }
      ClientSet(client[..], i, Client(fd, uid));
      ghost var before := client[..];
      client[i] := Client(fd, uid);
      assert client[..] == before[i := Client(fd, uid)];
    }

    /** client_del. */
    method ClientDel(fd: int)
      requires fd != -1 && fd in ClientFds(client[..])
      modifies client
      ensures ClientFds(client[..]) + multiset{fd} == old(ClientFds(client[..]))
    {
      ClientIn(client[..], fd);
      var i := 0;
      while i < client.Length
        invariant 0 <= i <= client.Length
        invariant forall j :: 0 <= j < i ==> client[..][j].fd != fd
        invariant client[..] == old(client[..])
      {
        if client[i].fd == fd {
          ClientSet(client[..], i, client[i].(fd := -1));
          ghost var before := client[..];
          client[i] := client[i].(fd := -1);
          assert client[..] == before[i := client[i]];
          return;
        }
        i := i + 1;
      }
      assert false;
    }

    /** grow_pollfd. */
    method GrowPollfd()
      modifies this`pollfd
      ensures fresh(pollfd) && pollfd.Length == old(pollfd.Length) + NALLOC
      ensures pollfd[..old(pollfd.Length)] == old(pollfd[..])
    {
      var oldmax := pollfd.Length;
      var more := new PollFd[oldmax + NALLOC](_ => PollFd(-1, false, false));
      forall i | 0 <= i < oldmax { more[i] := pollfd[i]; }
      pollfd := more;
    }

    /** The start: the listening descriptor is the first entry of both tables. */
    constructor (listen: int)
      requires listen >= 0
      ensures Valid() && listenfd == listen && Fds() == multiset{listen} && log == []
      ensures fresh(client) && fresh(pollfd)
    {
      listenfd := listen;
      client := new Client[0];
      pollfd := new PollFd[NALLOC](_ => PollFd(-1, false, false));
      numfd := 1;
      log := [];
      new;
      var i := ClientAdd(listen, 0);
      pollfd[0] := pollfd[0].(fd := listen);
      assert pollfd[..1] == [pollfd[0]];
      assert PollFds([pollfd[0]]) == PollFds([pollfd[0]][..0]) + multiset{listen};
      assert pollfd[..numfd] == [pollfd[0]];
    }

    /** A client connects: clifd is a descriptor that is not open. */
    method Connect(clifd: int, uid: nat)
      requires Valid() && clifd >= 0 && clifd !in Fds()
      modifies this`client, this`pollfd, this`numfd, client, pollfd
      ensures Valid() && Fds() == old(Fds()) + multiset{clifd}
      ensures numfd == old(numfd) + 1 && pollfd[..numfd - 1] == old(pollfd[..numfd]) && !IsReady(pollfd[numfd - 1])
      ensures fresh(client) || client == old(client)
      ensures fresh(pollfd) || pollfd == old(pollfd)
    {
      hide ClientFds, PollFds, Agree;
      ghost var p, c := pollfd[..numfd], client[..];
      var i := ClientAdd(clifd, uid);
      if numfd == pollfd.Length { GrowPollfd(); }
      AgreeAdd(c, client[..], p, PollFd(clifd, false, false), listenfd);
      pollfd[numfd] := PollFd(clifd, false, false);
      numfd := numfd + 1;
      assert pollfd[..numfd] == p + [PollFd(clifd, false, false)];
    }

    /** Entry i is closed and the last entry takes its place. */
    method Hangup(i: nat)
      requires Valid() && 1 <= i < numfd
      modifies this`numfd, client, pollfd
      ensures numfd == old(numfd) - 1 && pollfd[..numfd] == Packed(old(pollfd[..numfd]), i)
      ensures Valid() && Fds() + multiset{old(pollfd[i].fd)} == old(Fds())
    {
      hide ClientFds, PollFds, Agree;
      ghost var p, c := pollfd[..numfd], client[..];
      var fd := pollfd[i].fd;
      AgreeIn(c, p, listenfd, i);
      ClientDel(fd);
      AgreeCut(c, client[..], p, i, listenfd);
      if i < numfd - 1 {
        pollfd[i] := PollFd(pollfd[numfd - 1].fd, pollfd[numfd - 1].hup, pollfd[numfd - 1].pin);
      }
      numfd := numfd - 1;
      assert pollfd[..numfd] == Packed(p, i);
    }

    /** The for loop over the clients. nread says what a read gives for a descriptor that is ready
        to be read; 0 is the end of the client's requests. What the entries call for is done, each
        once and nothing else, and the descriptors closed are gone from both tables. */
    method Sweep(nread: map<int, nat>) returns (ghost done: seq<Event>)
      requires Valid()
      modifies this`numfd, this`log, client, pollfd
      ensures Valid() && log == old(log) + done
      ensures multiset(done) == Due(old(pollfd[..numfd][1..]), nread)
      ensures Fds() + ClosedFds(done) == old(Fds())
    {
      hide ClientFds, PollFds, Due, One, Packed, ClosedFds, Agree, IsReady, EventOf;
      var i := 1;
      done := [];
      assert ClosedFds(done) == multiset{} by { NoneClosed(); }
      while i < numfd
        invariant 1 <= i <= numfd && Valid()
        invariant multiset(done) + Due(pollfd[..numfd][i..], nread) == old(Due(pollfd[..numfd][1..], nread))
        invariant Fds() + ClosedFds(done) == old(Fds())
        invariant log == old(log) && unchanged(this`client, this`pollfd)
        decreases numfd - i
      {
        var e := pollfd[i];
        ghost var p := pollfd[..numfd];
        assert p[i] == e;
        DueStep(p, i, nread, done);
        if e.hup || (e.pin && e.fd in nread && nread[e.fd] == 0) {
          Hangup(i);
          StepClosed(Fds(), done, e.fd);
          done := done + [Closed(e.fd)];
        } else if e.pin {
          StepServed(done, e.fd);
          done := done + [Request(e.fd)];
          i := i + 1;
        } else {
          i := i + 1;
        }
      }
      NoneDue(pollfd[..numfd][i..], nread);
      log := log + done;
    }

    /** One turn of the endless loop: what poll reports, perhaps a new client, then the sweep. */
    method Turn(revents: seq<(bool, bool)>, clifd: int, uid: nat, nread: map<int, nat>) returns (ghost done: seq<Event>)
      requires Valid() && |revents| == numfd && (revents[0].1 ==> clifd >= 0 && clifd !in Fds())
      modifies this, client, pollfd
      ensures Valid() && log == old(log) + done
      ensures multiset(done) == Due(Reported(old(pollfd[..numfd]), revents)[1..], nread)
      ensures Fds() + ClosedFds(done) == old(Fds()) + One(revents[0].1, clifd)
      ensures fresh(client) || client == old(client)
      ensures fresh(pollfd) || pollfd == old(pollfd)
    {
      hide ClientFds, PollFds, Due, ClosedFds, Agree, Reported;
      ghost var p := pollfd[..numfd];
      ghost var q := Reported(p, revents);
      Poll(revents);
      ReportedFds(p, revents);
      AgreeFds(client[..], p, q, listenfd);
      assert Valid();
      if pollfd[0].pin {
        Connect(clifd, uid);
        NewNotDue(q, pollfd[numfd - 1], nread);
        assert pollfd[..numfd] == q + [pollfd[numfd - 1]];
      }
      done := Sweep(nread);
    }

    /** Whether fd is one of the descriptors polled. */
    method InUse(fd: int) returns (used: bool)
      requires Valid()
      ensures used <==> fd in Fds()
    {
      hide Agree;
      used := false;
      var i := 0;
      while i < numfd
        invariant 0 <= i <= numfd && (used <==> fd in PollFds(pollfd[..i]))
      {
        if pollfd[i].fd == fd { used := true; }
        assert pollfd[..i + 1][..i] == pollfd[..i];
        i := i + 1;
      }
    }

    /** The endless loop, for any number of turns: the descriptors polled after it are those the
        turns leave open, and in each turn it has done what the turn calls for with the descriptors
        then open. */
    method Loop(turns: seq<TurnInput>) returns (ghost dones: seq<seq<Event>>)
      requires Valid()
      modifies this, client, pollfd
      ensures Valid() && Fds() == multiset(OpenAfter(old(Open()), listenfd, turns))
      ensures log == old(log) + Flat(dones) && |dones| == |turns|
      ensures forall n :: 0 <= n < |turns| ==>
        multiset(dones[n]) == multiset(Called(OpenAfter(old(Open()), listenfd, turns[..n]), listenfd, turns[n]))
    {
      hide ClientFds, PollFds, ClosedFds, Agree, Due, Called, OpenAfter, OpenNext, Flat;
      ghost var open := Open();
      dones := [];
      NoTurns(open, listenfd);
      OpenFds();
      var n := 0;
      while n < |turns|
        invariant 0 <= n <= |turns| == |dones| + |turns| - n && Valid() && log == old(log) + Flat(dones)
        invariant fresh(client) || client == old(client)
        invariant fresh(pollfd) || pollfd == old(pollfd)
        invariant Fds() == multiset(OpenAfter(open, listenfd, turns[..n]))
        invariant forall k :: 0 <= k < n ==>
          multiset(dones[k]) == multiset(Called(OpenAfter(open, listenfd, turns[..k]), listenfd, turns[k]))
      {
        var t := turns[n];
        ghost var now := OpenAfter(open, listenfd, turns[..n]);
        ghost var done := OneTurn(t, now);
        OneMore(open, listenfd, turns, n);
        FlatMore(dones, done);
        dones := dones + [done];
        n := n + 1;
      }
      assert turns[..n] == turns;
    }

    /** A turn with what the system does in it. The system gives a new connection a descriptor that
        is not in use, so a turn that would not is one without a connection. */
    method OneTurn(t: TurnInput, ghost open: set<int>) returns (ghost done: seq<Event>)
      requires Valid() && Fds() == multiset(open)
      modifies this, client, pollfd
      ensures Valid() && log == old(log) + done
      ensures multiset(done) == multiset(Called(open, listenfd, t))
      ensures Fds() == multiset(OpenNext(open, listenfd, t))
      ensures fresh(client) || client == old(client)
      ensures fresh(pollfd) || pollfd == old(pollfd)
    {
      hide ClientFds, PollFds, ClosedFds, Agree, Due, Called, Reported, OpenNext;
      var used := InUse(t.clifd);
      var revents := Reports(t.ready, t.connect && !used && t.clifd >= 0);
      ghost var p := pollfd[..numfd];
      AgreeDistinct(client[..], p, listenfd);
      done := Turn(revents, t.clifd, t.uid, t.nread);
      DueIsCalled(p, revents, open, listenfd, t);
      ClosedCalled(done, open, listenfd, t);
      OpenNextFds(Fds(), open, listenfd, t, ClosedFds(done));
    }

    ghost function Open(): set<int>
      reads this, pollfd
      requires numfd <= pollfd.Length
    {
      set fd | fd in Fds()
    }

    lemma OpenFds()
      requires Valid()
      ensures Fds() == multiset(Open())
    {
      hide PollFds, ClientFds;
      forall fd ensures Fds()[fd] == multiset(Open())[fd] {
        if fd in Fds() { assert PollFds(pollfd[..numfd])[fd] == 1; }
      }
    }

    /** What poll reports for the entries: for the first whether there is a connection. */
    method Reports(ready: map<int, (bool, bool)>, connect: bool) returns (revents: seq<(bool, bool)>)
      requires Valid()
      ensures |revents| == numfd && revents[0].1 == connect
      ensures forall i :: 1 <= i < numfd ==> revents[i] == ReadyIn(ready, pollfd[i].fd)
    {
      hide Agree;
      revents := [(false, connect)];
      while |revents| < numfd
        invariant 1 <= |revents| <= numfd && revents[0].1 == connect
        invariant forall i :: 1 <= i < |revents| ==> revents[i] == ReadyIn(ready, pollfd[i].fd)
      {
        revents := revents + [ReadyIn(ready, pollfd[|revents|].fd)];
      }
    }

    /** poll(2) sets revents of the first numfd entries. */
    method Poll(revents: seq<(bool, bool)>)
      requires |revents| == numfd <= pollfd.Length
      modifies pollfd
      ensures pollfd[..numfd] == Reported(old(pollfd[..numfd]), revents)
    {
      ReportedAt(pollfd[..numfd], revents);
      forall i | 0 <= i < numfd {
        pollfd[i] := PollFd(pollfd[i].fd, revents[i].0, revents[i].1);
      }
    }
  }

  function Reported(p: seq<PollFd>, revents: seq<(bool, bool)>): (q: seq<PollFd>)
    requires |p| == |revents|
    ensures |q| == |p|
  {
    if p == [] then []
    else
      var n := |p| - 1;
      Reported(p[..n], revents[..n]) + [PollFd(p[n].fd, revents[n].0, revents[n].1)]
  }

  lemma {:induction false} ReportedAt(p: seq<PollFd>, revents: seq<(bool, bool)>)
    requires |p| == |revents|
    ensures forall i :: 0 <= i < |p| ==> Reported(p, revents)[i] == PollFd(p[i].fd, revents[i].0, revents[i].1)
  {
    if p != [] { ReportedAt(p[..|p| - 1], revents[..|p| - 1]); }
  }

  lemma {:induction false} ReportedFds(p: seq<PollFd>, revents: seq<(bool, bool)>)
    requires |p| == |revents|
    ensures PollFds(Reported(p, revents)) == PollFds(p)
    ensures forall i :: 0 <= i < |p| ==> Reported(p, revents)[i] == PollFd(p[i].fd, revents[i].0, revents[i].1)
  {
    ReportedAt(p, revents);
    if p != [] { ReportedFds(p[..|p| - 1], revents[..|p| - 1]); }
  }

  lemma NewNotDue(q: seq<PollFd>, e: PollFd, nread: map<int, nat>)
    requires q != [] && !IsReady(e)
    ensures Due((q + [e])[1..], nread) == Due(q[1..], nread)
  {
    assert (q + [e])[1..] == q[1..] + [e];
    assert (q[1..] + [e])[..|q[1..] + [e]| - 1] == q[1..];
  }

  lemma NoneClosed()
    ensures ClosedFds([]) == multiset{}
  {
  }

  lemma NoneDue(p: seq<PollFd>, nread: map<int, nat>)
    requires p == []
    ensures Due(p, nread) == multiset{}
  {
  }

  /** What entry i calls for moves from what is still to be done to what is done, packed away or not. */
  lemma DueStep(p: seq<PollFd>, i: nat, nread: map<int, nat>, done: seq<Event>)
    requires i < |p|
    ensures var e := p[i];
      var more := if e.hup || (e.pin && e.fd in nread && nread[e.fd] == 0) then [Closed(e.fd)]
        else if e.pin then [Request(e.fd)] else [];
      multiset(done + more) + Due(p[i + 1..], nread) == multiset(done) + Due(p[i..], nread)
    ensures |Packed(p, i)| == |p| - 1 && Due(Packed(p, i)[i..], nread) == Due(p[i + 1..], nread)
  {
    DueHead(p, i, nread);
    DuePacked(p, i, nread);
    hide Due, Packed;
    var more := One(IsReady(p[i]), EventOf(p[i], nread));
    Swap(multiset(done), more, Due(p[i + 1..], nread));
  }

  lemma StepClosed(now: multiset<int>, done: seq<Event>, fd: int)
    ensures now + ClosedFds(done + [Closed(fd)]) == (now + multiset{fd}) + ClosedFds(done)
  {
    assert (done + [Closed(fd)])[..|done + [Closed(fd)]| - 1] == done;
    var c := ClosedFds(done);
    hide ClosedFds;
  }

  lemma StepServed(done: seq<Event>, fd: int)
    ensures ClosedFds(done + [Request(fd)]) == ClosedFds(done)
  {
    assert (done + [Request(fd)])[..|done + [Request(fd)]| - 1] == done;
  }

  // ---- what the turns call for ----------------------------------------------

  function ReadyIn(ready: map<int, (bool, bool)>, fd: int): (bool, bool) {
    if fd in ready then ready[fd] else (false, false)
  }

  /** The entry of fd in turn t. */
  function EntryIn(t: TurnInput, fd: int): PollFd {
    PollFd(fd, ReadyIn(t.ready, fd).0, ReadyIn(t.ready, fd).1)
  }

  /** What turn t calls for with these descriptors open: for each that is ready, but the one listened
      on, the one thing its state calls for. */
  ghost function Called(open: set<int>, listen: int, t: TurnInput): set<Event> {
    set fd | fd in open && fd != listen && IsReady(EntryIn(t, fd)) :: EventOf(EntryIn(t, fd), t.nread)
  }

  predicate Accepts(open: set<int>, t: TurnInput) {
    t.connect && t.clifd >= 0 && t.clifd !in open
  }

  ghost function OpenNext(open: set<int>, listen: int, t: TurnInput): set<int> {
    (set fd | fd in open && Closed(fd) !in Called(open, listen, t)) + if Accepts(open, t) then {t.clifd} else {}
  }

  ghost function OpenAfter(open: set<int>, listen: int, turns: seq<TurnInput>): set<int> {
    if turns == [] then open
    else OpenNext(OpenAfter(open, listen, turns[..|turns| - 1]), listen, turns[|turns| - 1])
  }

  function Flat(dones: seq<seq<Event>>): seq<Event> {
    if dones == [] then [] else Flat(dones[..|dones| - 1]) + dones[|dones| - 1]
  }

  lemma NoTurns(open: set<int>, listen: int)
    ensures OpenAfter(open, listen, []) == open && Flat([]) == []
  {
  }

  lemma OneMore(open: set<int>, listen: int, turns: seq<TurnInput>, n: nat)
    requires n < |turns|
    ensures OpenAfter(open, listen, turns[..n + 1]) == OpenNext(OpenAfter(open, listen, turns[..n]), listen, turns[n])
  {
    assert turns[..n + 1][..n] == turns[..n];
  }

  lemma FlatMore(dones: seq<seq<Event>>, done: seq<Event>)
    ensures Flat(dones + [done]) == Flat(dones) + done
  {
    assert (dones + [done])[..|dones|] == dones;
  }

  ghost predicate Distinct(p: seq<PollFd>) {
    forall i, j :: 0 <= i < j < |p| ==> p[i].fd != p[j].fd
  }

  lemma {:induction false} InPoll(p: seq<PollFd>, fd: int)
    ensures fd in PollFds(p) <==> exists i :: 0 <= i < |p| && p[i].fd == fd
  {
    if p != [] { InPoll(p[..|p| - 1], fd); }
  }

  lemma {:induction false} OnceDistinct(p: seq<PollFd>)
    requires forall fd :: PollFds(p)[fd] <= 1
    ensures Distinct(p)
  {
    if p != [] {
      var n := |p| - 1;
      InPoll(p[..n], p[n].fd);
      assert forall fd :: PollFds(p)[fd] == PollFds(p[..n])[fd] + multiset{p[n].fd}[fd];
      OnceDistinct(p[..n]);
      hide PollFds;
      assert forall i :: 0 <= i < n ==> p[..n][i] == p[i];
    }
  }

  lemma AgreeDistinct(c: seq<Client>, p: seq<PollFd>, listen: int)
    requires Agree(c, p, listen)
    ensures Distinct(p) && p != [] && p[0].fd == listen
  {
    hide ClientFds;
    OnceDistinct(p) by {
      hide PollFds;
      forall fd ensures PollFds(p)[fd] <= 1 { if fd in PollFds(p) { assert PollFds(p)[fd] == 1; } }
    }
  }

  lemma EventFd(e: PollFd, nread: map<int, nat>)
    ensures EventOf(e, nread).fd == e.fd
  {
  }

  lemma DistinctAt(p: seq<PollFd>, i: nat, j: nat)
    requires Distinct(p) && i < j < |p|
    ensures p[i].fd != p[j].fd
  {
  }

  /** Among distinct descriptors everything is due at most once, and due is what some entry that is
      ready calls for. */
  lemma {:induction false} DueMeans(p: seq<PollFd>, nread: map<int, nat>, e: Event)
    requires Distinct(p)
    ensures Due(p, nread)[e] <= 1
    ensures e in Due(p, nread) <==> exists i :: 0 <= i < |p| && IsReady(p[i]) && e == EventOf(p[i], nread)
  {
    if p != [] {
      var n := |p| - 1;
      var q := p[..n];
      assert Distinct(q);
      DueMeans(q, nread, e);
      assert Due(p, nread)[e] == Due(q, nread)[e] + One(IsReady(p[n]), EventOf(p[n], nread))[e];
      hide Due, IsReady, EventOf, Distinct;
      assert forall i :: 0 <= i < n ==> q[i] == p[i];
      assert EventOf(p[n], nread).fd == p[n].fd by { EventFd(p[n], nread); }
      if e in Due(q, nread) {
        var i :| 0 <= i < n && IsReady(q[i]) && e == EventOf(q[i], nread);
        EventFd(p[i], nread);
        assert p[i].fd != p[n].fd by { DistinctAt(p, i, n); }
      }
    }
  }

  /** The same in so many words: a descriptor is due to be closed if and only if its entry hung up, or
      can be read and gives 0, and a request of it to be handled if and only if its entry did not hang
      up, can be read and gives something. */
  lemma DueExactly(p: seq<PollFd>, nread: map<int, nat>, fd: int)
    requires Distinct(p)
    ensures Due(p, nread)[Closed(fd)] ==
      if (exists i :: 0 <= i < |p| && p[i].fd == fd && (p[i].hup || (p[i].pin && fd in nread && nread[fd] == 0)))
      then 1 else 0
    ensures Due(p, nread)[Request(fd)] ==
      if (exists i :: 0 <= i < |p| && p[i].fd == fd && !p[i].hup && p[i].pin && !(fd in nread && nread[fd] == 0))
      then 1 else 0
  {
    DueMeans(p, nread, Closed(fd));
    DueMeans(p, nread, Request(fd));
    hide Due, Distinct;
  }

  /** And so for the turns: what one calls for, and what it leaves open. */
  lemma CalledExactly(open: set<int>, listen: int, t: TurnInput, fd: int)
    ensures var (hup, pin) := if fd in t.ready then t.ready[fd] else (false, false);
      var ended := fd in t.nread && t.nread[fd] == 0;
      && (Closed(fd) in Called(open, listen, t) <==> fd in open && fd != listen && (hup || (pin && ended)))
      && (Request(fd) in Called(open, listen, t) <==> fd in open && fd != listen && !hup && pin && !ended)
      && (fd in OpenNext(open, listen, t) <==>
            || (fd in open && (fd == listen || !(hup || (pin && ended))))
            || (fd == t.clifd && t.connect && fd >= 0 && fd !in open))
  {
    var e := EntryIn(t, fd);
    if fd in open && fd != listen && IsReady(e) { assert EventOf(e, t.nread) in Called(open, listen, t); }
  }

  /** What the poll array calls for is what the set of open descriptors calls for. */
  lemma DueIsCalled(p: seq<PollFd>, revents: seq<(bool, bool)>, open: set<int>, listen: int, t: TurnInput)
    requires |revents| == |p| && p != [] && p[0].fd == listen && Distinct(p) && PollFds(p) == multiset(open)
    requires forall i :: 1 <= i < |p| ==> revents[i] == ReadyIn(t.ready, p[i].fd)
    ensures Due(Reported(p, revents)[1..], t.nread) == multiset(Called(open, listen, t))
  {
    hide PollFds, Reported, Due, IsReady, EventOf;
    var q := Reported(p, revents)[1..];
    ReportedAt(p, revents);
    assert forall i :: 0 <= i < |q| ==> q[i] == EntryIn(t, p[i + 1].fd);
    assert Distinct(q);
    forall e ensures Due(q, t.nread)[e] == multiset(Called(open, listen, t))[e] {
      DueMeans(q, t.nread, e);
      CalledMeans(p, q, open, listen, t, e);
    }
  }

  lemma CalledMeans(p: seq<PollFd>, q: seq<PollFd>, open: set<int>, listen: int, t: TurnInput, e: Event)
    requires p != [] && p[0].fd == listen && Distinct(p) && PollFds(p) == multiset(open) && |q| == |p| - 1
    requires forall i :: 0 <= i < |q| ==> q[i] == EntryIn(t, p[i + 1].fd)
    ensures e in Called(open, listen, t) <==> exists i :: 0 <= i < |q| && IsReady(q[i]) && e == EventOf(q[i], t.nread)
  {
    InPoll(p, e.fd);
    hide PollFds, IsReady;
    if e in Called(open, listen, t) {
      assert e.fd in multiset(open);
      var i :| 0 <= i < |p| && p[i].fd == e.fd;
      assert q[i - 1] == EntryIn(t, e.fd);
    }
    if i :| 0 <= i < |q| && IsReady(q[i]) && e == EventOf(q[i], t.nread) {
      assert p[i + 1].fd == e.fd && p[0].fd != p[i + 1].fd;
      assert e.fd in multiset(open);
    }
  }

  lemma {:induction false} ClosedCount(done: seq<Event>, fd: int)
    ensures ClosedFds(done)[fd] == multiset(done)[Closed(fd)]
  {
    if done != [] {
      var n := |done| - 1;
      assert done == done[..n] + [done[n]];
      ClosedCount(done[..n], fd);
      assert ClosedFds(done)[fd] == ClosedFds(done[..n])[fd] + One(done[n].Closed?, done[n].fd)[fd];
    }
  }

  lemma ClosedCalled(done: seq<Event>, open: set<int>, listen: int, t: TurnInput)
    requires multiset(done) == multiset(Called(open, listen, t))
    ensures ClosedFds(done) == multiset(set fd | fd in open && Closed(fd) in Called(open, listen, t))
  {
    hide ClosedFds;
    var closed := set fd | fd in open && Closed(fd) in Called(open, listen, t);
    forall fd ensures ClosedFds(done)[fd] == multiset(closed)[fd] {
      ClosedCount(done, fd);
    }
  }

  lemma OpenNextFds(fds: multiset<int>, open: set<int>, listen: int, t: TurnInput, closed: multiset<int>)
    requires closed == multiset(set fd | fd in open && Closed(fd) in Called(open, listen, t))
    requires fds + closed == multiset(open) + One(Accepts(open, t), t.clifd)
    ensures fds == multiset(OpenNext(open, listen, t))
  {
    hide Called;
    forall fd ensures fds[fd] == multiset(OpenNext(open, listen, t))[fd] {
      assert (fds + closed)[fd] == fds[fd] + closed[fd];
      assert (multiset(open) + One(Accepts(open, t), t.clifd))[fd] == multiset(open)[fd] + One(Accepts(open, t), t.clifd)[fd];
    }
  }

  // ---- runs -----------------------------------------------------------------

  /** The descriptors of the connections accepted in the turns. */
  ghost function AcceptedIn(open: set<int>, listen: int, turns: seq<TurnInput>): multiset<int> {
    if turns == [] then multiset{}
    else
      var n := |turns| - 1;
      AcceptedIn(open, listen, turns[..n]) + One(Accepts(OpenAfter(open, listen, turns[..n]), turns[n]), turns[n].clifd)
  }

  /** The descriptors closed in the turns. */
  ghost function ClosedIn(open: set<int>, listen: int, turns: seq<TurnInput>): multiset<int> {
    if turns == [] then multiset{}
    else
      var n := |turns| - 1;
      var now := OpenAfter(open, listen, turns[..n]);
      ClosedIn(open, listen, turns[..n]) + multiset(set fd | fd in now && Closed(fd) in Called(now, listen, turns[n]))
  }

  /** After any turns each connection, of those open at the start and those accepted, is open or has
      been closed, once; the descriptor listened on stays open. */
  lemma {:induction false} NoneLost(open: set<int>, listen: int, turns: seq<TurnInput>)
    ensures multiset(OpenAfter(open, listen, turns)) + ClosedIn(open, listen, turns) ==
            multiset(open) + AcceptedIn(open, listen, turns)
    ensures listen in open ==> listen in OpenAfter(open, listen, turns)
  {
    if turns != [] {
      var n := |turns| - 1;
      var now := OpenAfter(open, listen, turns[..n]);
      NoneLost(open, listen, turns[..n]);
      NoneLostNow(now, listen, turns[n]);
      Account(multiset(now), multiset(OpenAfter(open, listen, turns)), ClosedIn(open, listen, turns[..n]),
              multiset(set fd | fd in now && Closed(fd) in Called(now, listen, turns[n])), multiset(open),
              AcceptedIn(open, listen, turns[..n]), One(Accepts(now, turns[n]), turns[n].clifd));
    }
  }

  lemma NoneLostNow(now: set<int>, listen: int, t: TurnInput)
    ensures multiset(OpenNext(now, listen, t)) + multiset(set fd | fd in now && Closed(fd) in Called(now, listen, t)) ==
            multiset(now) + One(Accepts(now, t), t.clifd)
    ensures listen in now ==> listen in OpenNext(now, listen, t)
  {
    assert Closed(listen) !in Called(now, listen, t);
    hide Called;
    var closed := set fd | fd in now && Closed(fd) in Called(now, listen, t);
    forall fd ensures (multiset(OpenNext(now, listen, t)) + multiset(closed))[fd] ==
                      (multiset(now) + One(Accepts(now, t), t.clifd))[fd] {
    }
  }

  lemma Account(f0: multiset<int>, f1: multiset<int>, c0: multiset<int>, c1: multiset<int>, start: multiset<int>,
                accepted: multiset<int>, now: multiset<int>)
    requires f0 + c0 == start + accepted && f1 + c1 == f0 + now
    ensures f1 + (c0 + c1) == start + (accepted + now)
  {
    assert f1 + (c0 + c1) == (f1 + c1) + c0;
    assert (f0 + now) + c0 == (f0 + c0) + now;
    assert (start + accepted) + now == start + (accepted + now);
  }
}
