/** The table operations of the server as they are written, on the table, descriptors and epoll set in place. */
module ServerTable {
  import opened CText
  import opened ClientTable

  class ServerState {
    const clients: array<ClientInfo>
    var fds: set<int>
    var epoll: map<int, int>

    /** main up to its loop. */
    constructor (fds: set<int>, epoll: map<int, int>)
      requires epoll.Keys <= fds
      ensures fresh(clients) && Valid() && Init(Value()) && Value().fds == fds && Value().epoll == epoll
    {
      clients := new ClientInfo[MAX_CLIENTS](i => Free);
      this.fds, this.epoll := fds, epoll;
    }

    ghost predicate Valid()
      reads this
    {
      clients.Length == MAX_CLIENTS
    }

    ghost function Value(): Server
      reads this, clients
    {
      Server(clients[..], fds, epoll)
    }

    method FindFreeClientSlot() returns (id: int)
      requires Valid()
      ensures id == if FreeSlot(clients[..]) < MAX_CLIENTS then FreeSlot(clients[..]) else -1
    {
      for i := 0 to MAX_CLIENTS
        invariant FreeSlot(clients[..]) == i + FreeSlot(clients[i..])
      {
        assert clients[i..][1..] == clients[i + 1..];
        if !clients[i].active {
          return i;
        }
      }
      id := -1;
    }

    method CloseClientConnection(id: int)
      requires Valid()
      modifies this, clients
      ensures Valid() && Value() == AfterClose(old(Value()), id)
    {
      if id < 0 || id >= MAX_CLIENTS || !clients[id].active {
        return;
      }
      var tx, rx := clients[id].txFd, clients[id].rxFd;
      epoll := epoll - {rx};
      fds := fds - {tx};
      fds := fds - {rx};
      assert old(fds) - {tx} - {rx} == old(fds) - {tx, rx};
      clients[id] := Free;
    }

    method ProcessClientCommand(id: int, line: string)
      requires Valid()
      modifies this, clients
      ensures Valid() && Value() == AfterCommand(old(Value()), id, line)
    {
      if id < 0 || id >= MAX_CLIENTS || !clients[id].active {
        return;
      }
      if "DISCONNECT" <= line {
        CloseClientConnection(id);
      }
    }

    /** The loop over the lines of a buffer that a read has filled. */
    method ProcessBuffer(id: int, text: string)
      requires Valid()
      modifies this, clients
      ensures Valid() && Value() == AfterCommands(old(Value()), id, Lines(CString(text)))
    {
      var line := CString(text);
      ghost var result := AfterCommands(Value(), id, Lines(line));
      var n := LineLength(line);
      while n < |line|
        invariant Valid() && n == LineLength(line) && AfterCommands(Value(), id, Lines(line)) == result
        decreases |line|
      {
        if 0 < n {
          FirstLine(Value(), id, line);
          ProcessClientCommand(id, line[..n]);
        }
        assert n == 0 ==> Lines(line) == [] + Lines(line[n + 1..]) == Lines(line[n + 1..]);
        line := line[n + 1..];
        n := LineLength(line);
      }
      if 0 < n {
        assert line[..n] == line;
        ProcessClientCommand(id, line);
      }
    }

    method RegisterNewClient(r: Registration) returns (result: int)
      requires Valid() && Enabled(Value(), Register(r))
      modifies this, clients
      ensures Valid() && (Value(), result) == AfterRegister(old(Value()), r)
    {
      if r.txPath.None? || r.rxPath.None? {
        return -1;
      }
      var id := FindFreeClientSlot();
      if id == -1 {
        return -1;
      }
      if r.tx.None? {
        return -1;
      }
      var tx := r.tx.value;
      fds := fds + {tx};
      if r.rx.None? {
        fds := fds - {tx};
        return -1;
      }
      var rx := r.rx.value;
      fds := fds + {rx};
      assert fds == old(fds) + {tx, rx};
      clients[id] := ClientInfo(id, tx, rx, Truncated(r.txPath.value), Truncated(r.rxPath.value), true);
      assert Value() == Filled(old(Value()), id, r);
      if !r.added {
        CloseClientConnection(id);
        return -1;
      }
      epoll := epoll[rx := id];
      if !r.acked {
        CloseClientConnection(id);
        return -1;
      }
      ProcessBuffer(id, r.pending);
      result := 0;
    }

    /** The end of main: every client is closed and only the server's own descriptors are left. */
    method CloseAll(ghost base: Server)
      requires Valid() && Inv(Value(), base)
      modifies this, clients
      ensures Valid() && fds == base.fds && epoll == base.epoll
      ensures forall i :: 0 <= i < MAX_CLIENTS ==> clients[i] == Free
    {
      for i := 0 to MAX_CLIENTS
        invariant Valid() && Inv(Value(), base)
        invariant forall j :: 0 <= j < i ==> !clients[j].active
      {
        if clients[i].active {
          CloseKeeps(Value(), base, i);
          CloseClientConnection(i);
        }
      }
      AllClosed(Value(), base);
    }
  }

  lemma FirstLine(s: Server, id: int, line: string)
    requires 0 < LineLength(line) < |line|
    ensures var n := LineLength(line);
            AfterCommands(s, id, Lines(line)) == AfterCommands(AfterCommand(s, id, line[..n]), id, Lines(line[n + 1..]))
  {
    var n := LineLength(line);
    assert Lines(line) == [line[..n]] + Lines(line[n + 1..]);
    assert Lines(line)[1..] == Lines(line[n + 1..]);
  }

  /** With no active slot the server owns what it began with. */
  lemma AllClosed(s: Server, base: Server)
    requires Inv(s, base) && forall i :: 0 <= i < MAX_CLIENTS ==> !s.clients[i].active
    ensures s.fds == base.fds && s.epoll == base.epoll
    ensures forall i :: 0 <= i < MAX_CLIENTS ==> s.clients[i] == Free
  {
    forall i | 0 <= i < MAX_CLIENTS ensures s.clients[i] == Free {
      assert SlotOk(s, base, i, s.clients[i]);
    }
    forall fd | fd in s.fds ensures fd in base.fds {
      assert !OwnedIn(s.clients, fd);
    }
    forall fd | fd in s.epoll ensures fd in base.epoll && s.epoll[fd] == base.epoll[fd] {
      assert !WatchedBySlot(s, fd);
    }
  }
}
