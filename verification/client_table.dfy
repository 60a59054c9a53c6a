/** The slot table of the FIFO server, with the descriptors and epoll entries that belong to it. */
module ClientTable {
  import opened CText
  import opened Runs

  const MAX_CLIENTS := 64
  const PATH_SIZE := 256

  datatype ClientInfo = ClientInfo(clientId: int, txFd: int, rxFd: int, txPath: string, rxPath: string, active: bool)

  const Free := ClientInfo(-1, -1, -1, "", "", false)

  /** The table, the descriptors open in the process, and the tag of each descriptor in the epoll set. */
  datatype Server = Server(clients: seq<ClientInfo>, fds: set<int>, epoll: map<int, int>)

  /** What happens around one REGISTER command; a path or descriptor may be missing, a call may fail. */
  datatype Registration = Registration(
    txPath: Option<string>, rxPath: Option<string>, tx: Option<int>, rx: Option<int>,
    added: bool, acked: bool, pending: string)

  datatype Event = Register(r: Registration) | Close(id: int) | Command(id: int, line: string)

  predicate IsActive(s: Server, id: int) { 0 <= id < |s.clients| && s.clients[id].active }

  /** find_free_client_slot */
  function FreeSlot(clients: seq<ClientInfo>): (i: nat)
    ensures i <= |clients| && forall j :: 0 <= j < i ==> clients[j].active
    ensures i < |clients| ==> !clients[i].active
  {
    if clients == [] || !clients[0].active then 0 else 1 + FreeSlot(clients[1..])
  }

  function AfterClose(s: Server, id: int): Server {
    if !IsActive(s, id) then s
    else
      var c := s.clients[id];
      Server(s.clients[id := Free], s.fds - {c.txFd, c.rxFd}, s.epoll - {c.rxFd})
  }

  predicate IsDisconnect(line: string) { "DISCONNECT" <= line }

  /** Only a disconnect touches the table; a GET starts a thread, anything else is logged. */
  function AfterCommand(s: Server, id: int, line: string): Server {
    if IsActive(s, id) && IsDisconnect(line) then AfterClose(s, id) else s
  }

  /** The non-empty lines; the last one may lack its newline. */
  function Lines(text: string): seq<string>
    decreases |text|
  {
    var n := LineLength(text);
    (if n == 0 then [] else [text[..n]]) + if n == |text| then [] else Lines(text[n + 1..])
  }

  function AfterCommands(s: Server, id: int, lines: seq<string>): Server
    decreases |lines|
  {
    if lines == [] then s else AfterCommands(AfterCommand(s, id, lines[0]), id, lines[1..])
  }

  /** strncpy into a field of 256 bytes that ends in NUL. */
  function Truncated(path: string): (r: string)
    ensures r <= path && |r| < 256 && (r != path ==> |r| == 255)
  {
    if |path| < PATH_SIZE then path else path[..PATH_SIZE - 1]
  }

  function Filled(s: Server, i: nat, r: Registration): Server
    requires r.txPath.Some? && r.rxPath.Some? && r.tx.Some? && r.rx.Some? && i < |s.clients|
  {
    var c := ClientInfo(i, r.tx.value, r.rx.value, Truncated(r.txPath.value), Truncated(r.rxPath.value), true);
    s.(clients := s.clients[i := c], fds := s.fds + {r.tx.value, r.rx.value})
  }

  /** register_new_client, and what it returns. */
  function AfterRegister(s: Server, r: Registration): (Server, int) {
    var i := FreeSlot(s.clients);
    if r.txPath.None? || r.rxPath.None? || i == |s.clients| || r.tx.None? then (s, -1)
    else if r.rx.None? then (s.(fds := s.fds + {r.tx.value} - {r.tx.value}), -1)
    else
      var t := Filled(s, i, r);
      if !r.added then (AfterClose(t, i), -1)
      else
        var u := t.(epoll := t.epoll[r.rx.value := i]);
        if !r.acked then (AfterClose(u, i), -1)
        else (AfterCommands(u, i, Lines(CString(r.pending))), 0)
  }

  /** open returns descriptors that were not open. */
  predicate Enabled(s: Server, e: Event) {
    e.Register? ==>
      && (e.r.tx.Some? ==> 0 <= e.r.tx.value && e.r.tx.value !in s.fds)
      && (e.r.rx.Some? ==> 0 <= e.r.rx.value && e.r.rx.value !in s.fds && Some(e.r.rx.value) != e.r.tx)
  }

  function Apply(s: Server, e: Event): Server {
    match e
    case Register(r) => AfterRegister(s, r).0
    case Close(id) => AfterClose(s, id)
    case Command(id, line) => AfterCommand(s, id, line)
  }

  function Step(s: Server, e: Event): (r: Option<Server>) {
    if Enabled(s, e) then Some(Apply(s, e)) else None
  }

  /** The server when main enters its loop: its own descriptors, and the FIFO under tag 0. */
  predicate Init(s: Server) {
    |s.clients| == MAX_CLIENTS && s.epoll.Keys <= s.fds && forall i :: 0 <= i < |s.clients| ==> s.clients[i] == Free
  }

  // ---------- Who owns what ----------

  predicate SlotOk(s: Server, base: Server, i: nat, c: ClientInfo) {
    if c.active then
      && c.clientId == i && c.txFd != c.rxFd && 0 <= c.txFd && 0 <= c.rxFd
      && c.txFd in s.fds - base.fds && c.rxFd in s.fds - base.fds
      && c.rxFd in s.epoll && s.epoll[c.rxFd] == i
    else c == Free
  }

  predicate Apart(c: ClientInfo, d: ClientInfo) {
    c.active && d.active ==> c.txFd != d.txFd && c.txFd != d.rxFd && c.rxFd != d.txFd && c.rxFd != d.rxFd
  }

  predicate Slots(s: Server, base: Server) {
    && |s.clients| == MAX_CLIENTS
    && (forall i :: 0 <= i < |s.clients| ==> SlotOk(s, base, i, s.clients[i]))
    && (forall i, j :: 0 <= i < j < |s.clients| ==> Apart(s.clients[i], s.clients[j]))
  }

  predicate OwnedIn(clients: seq<ClientInfo>, fd: int) {
    exists i :: 0 <= i < |clients| && clients[i].active && (fd == clients[i].txFd || fd == clients[i].rxFd)
  }

  predicate WatchedBySlot(s: Server, fd: int) {
    exists i :: 0 <= i < |s.clients| && s.clients[i].active && fd == s.clients[i].rxFd
  }

  /** Nothing is open or watched but what the server began with and what active slots own. */
  predicate NoLeaks(s: Server, base: Server) {
    && base.epoll.Keys <= base.fds <= s.fds && base.epoll.Keys <= s.epoll.Keys
    && (forall fd :: fd in s.fds ==> fd in base.fds || OwnedIn(s.clients, fd))
    && (forall fd :: fd in s.epoll ==> fd in base.epoll || WatchedBySlot(s, fd))
    && (forall fd :: fd in base.epoll ==> s.epoll[fd] == base.epoll[fd])
  }

  predicate Inv(s: Server, base: Server) { Slots(s, base) && NoLeaks(s, base) }

  /** A descriptor of another slot than the one that changed is still that slot's. */
  lemma StillOwned(s: Server, t: Server, id: nat, fd: int)
    requires |s.clients| == |t.clients| && OwnedIn(s.clients, fd) && id < |s.clients|
    requires forall i :: 0 <= i < |s.clients| && i != id ==> t.clients[i] == s.clients[i]
    requires s.clients[id].active ==> fd != s.clients[id].txFd && fd != s.clients[id].rxFd
    ensures OwnedIn(t.clients, fd)
  {
    var i :| 0 <= i < |s.clients| && s.clients[i].active && (fd == s.clients[i].txFd || fd == s.clients[i].rxFd);
    assert t.clients[i] == s.clients[i];
  }

  lemma StillWatched(s: Server, t: Server, id: nat, fd: int)
    requires |s.clients| == |t.clients| && WatchedBySlot(s, fd) && id < |s.clients|
    requires forall i :: 0 <= i < |s.clients| && i != id ==> t.clients[i] == s.clients[i]
    requires s.clients[id].active ==> fd != s.clients[id].rxFd
    ensures WatchedBySlot(t, fd)
  {
    var i :| 0 <= i < |s.clients| && s.clients[i].active && fd == s.clients[i].rxFd;
    assert t.clients[i] == s.clients[i];
  }

  lemma CloseKeepsSlots(s: Server, base: Server, id: nat)
    requires Slots(s, base) && IsActive(s, id)
    ensures Slots(AfterClose(s, id), base)
  {
    var t, c := AfterClose(s, id), s.clients[id];
    forall i | 0 <= i < |t.clients| ensures SlotOk(t, base, i, t.clients[i]) {
      if i != id {
        assert SlotOk(s, base, i, s.clients[i]);
        assert Apart(s.clients[i], c) by {
          if i < id { assert Apart(s.clients[i], s.clients[id]); } else { assert Apart(s.clients[id], s.clients[i]); }
        }
      }
    }
    forall i, j | 0 <= i < j < |t.clients| ensures Apart(t.clients[i], t.clients[j]) {
      assert Apart(s.clients[i], s.clients[j]);
    }
  }

  lemma CloseKeeps(s: Server, base: Server, id: int)
    requires Inv(s, base)
    ensures Inv(AfterClose(s, id), base)
  {
    if IsActive(s, id) {
      CloseKeepsSlots(s, base, id);
      var t := AfterClose(s, id);
      assert SlotOk(s, base, id, s.clients[id]);
      assert s.clients[id].rxFd !in base.epoll;
      forall fd | fd in t.fds && fd !in base.fds ensures OwnedIn(t.clients, fd) {
        StillOwned(s, t, id, fd);
      }
      forall fd | fd in t.epoll && fd !in base.epoll ensures WatchedBySlot(t, fd) {
        StillWatched(s, t, id, fd);
      }
    }
  }

  lemma WatchedAreOpen(s: Server, base: Server)
    requires Inv(s, base)
    ensures s.epoll.Keys <= s.fds
  {
    forall fd | fd in s.epoll ensures fd in s.fds {
      if fd !in base.epoll {
        var i :| 0 <= i < |s.clients| && s.clients[i].active && fd == s.clients[i].rxFd;
        assert SlotOk(s, base, i, s.clients[i]);
      }
    }
  }

  /** A slot filled and then closed again leaves no trace. */
  lemma FillThenClose(s: Server, base: Server, r: Registration, watched: bool)
    requires Inv(s, base) && Enabled(s, Register(r))
    requires r.txPath.Some? && r.rxPath.Some? && r.tx.Some? && r.rx.Some? && FreeSlot(s.clients) < |s.clients|
    ensures var i := FreeSlot(s.clients);
            var t := Filled(s, i, r);
            AfterClose(if watched then t.(epoll := t.epoll[r.rx.value := i]) else t, i) == s
  {
    var i, tx, rx := FreeSlot(s.clients), r.tx.value, r.rx.value;
    WatchedAreOpen(s, base);
    assert s.clients[i := Filled(s, i, r).clients[i]][i := Free] == s.clients;
    assert s.fds + {tx, rx} - {tx, rx} == s.fds;
    assert s.epoll[rx := i] - {rx} == s.epoll && s.epoll - {rx} == s.epoll;
  }

  /** A free slot filled with two new descriptors and put into the epoll set. */
  predicate Joined(s: Server, t: Server, i: nat, c: ClientInfo) {
    && i < |s.clients| && s.clients[i] == Free && c.active && c.clientId == i && c.txFd != c.rxFd
    && 0 <= c.txFd && 0 <= c.rxFd && c.txFd !in s.fds && c.rxFd !in s.fds
    && t == Server(s.clients[i := c], s.fds + {c.txFd, c.rxFd}, s.epoll[c.rxFd := i])
  }

  lemma JoinKeepsSlots(s: Server, base: Server, t: Server, i: nat, c: ClientInfo)
    requires Slots(s, base) && Joined(s, t, i, c) && base.fds <= s.fds
    ensures Slots(t, base)
  {
    forall j | 0 <= j < |t.clients| ensures SlotOk(t, base, j, t.clients[j]) {
      assert SlotOk(s, base, j, s.clients[j]);
    }
    forall j, k | 0 <= j < k < |t.clients| ensures Apart(t.clients[j], t.clients[k]) {
      assert SlotOk(s, base, j, s.clients[j]) && SlotOk(s, base, k, s.clients[k]) && Apart(s.clients[j], s.clients[k]);
    }
  }

  lemma JoinKeeps(s: Server, base: Server, t: Server, i: nat, c: ClientInfo)
    requires Inv(s, base) && Joined(s, t, i, c)
    ensures Inv(t, base)
  {
    JoinKeepsSlots(s, base, t, i, c);
    WatchedAreOpen(s, base);
    assert t.clients[i] == c;
    forall fd | fd in t.fds && fd !in base.fds ensures OwnedIn(t.clients, fd) {
      if fd != c.txFd && fd != c.rxFd { StillOwned(s, t, i, fd); }
    }
    forall fd | fd in t.epoll && fd !in base.epoll ensures WatchedBySlot(t, fd) {
      if fd != c.rxFd { StillWatched(s, t, i, fd); }
    }
  }

  lemma {:induction false} CommandsKeep(s: Server, base: Server, id: int, lines: seq<string>)
    requires Inv(s, base)
    ensures Inv(AfterCommands(s, id, lines), base)
    decreases |lines|
  {
    if lines != [] {
      CloseKeeps(s, base, id);
      CommandsKeep(AfterCommand(s, id, lines[0]), base, id, lines[1..]);
    }
  }

  lemma RegisterKeeps(s: Server, base: Server, r: Registration)
    requires Inv(s, base) && Enabled(s, Register(r))
    ensures Inv(AfterRegister(s, r).0, base)
  {
    FailedRegistration(s, base, r);
    if AfterRegister(s, r).1 == 0 {
      var i := FreeSlot(s.clients);
      var t := Filled(s, i, r);
      var u := t.(epoll := t.epoll[r.rx.value := i]);
      assert SlotOk(s, base, i, s.clients[i]);
      JoinKeeps(s, base, u, i, t.clients[i]);
      CommandsKeep(u, base, i, Lines(CString(r.pending)));
    }
  }

  /** On every failure path the table, the descriptors and the epoll set are as they were. */
  lemma FailedRegistration(s: Server, base: Server, r: Registration)
    requires Inv(s, base) && Enabled(s, Register(r))
    ensures AfterRegister(s, r).1 == -1 ==> AfterRegister(s, r).0 == s
    ensures AfterRegister(s, r).1 == -1 <==>
              r.txPath.None? || r.rxPath.None? || (forall i :: 0 <= i < MAX_CLIENTS ==> s.clients[i].active)
              || r.tx.None? || r.rx.None? || !r.added || !r.acked
  {
    var i := FreeSlot(s.clients);
    if r.tx.Some? {
      assert s.fds + {r.tx.value} - {r.tx.value} == s.fds;
      if r.txPath.Some? && r.rxPath.Some? && r.rx.Some? && i < |s.clients| {
        FillThenClose(s, base, r, r.added);
      }
    }
  }

  lemma {:induction false} ClosedStays(s: Server, id: int, lines: seq<string>)
    requires !IsActive(s, id)
    ensures AfterCommands(s, id, lines) == s
    decreases |lines|
  {
    if lines != [] { ClosedStays(s, id, lines[1..]); }
  }

  /** A buffer of commands closes the client if and only if one of its lines asks for it. */
  lemma {:induction false} CommandsClose(s: Server, id: int, lines: seq<string>)
    requires IsActive(s, id)
    ensures AfterCommands(s, id, lines) ==
            if exists k :: 0 <= k < |lines| && IsDisconnect(lines[k]) then AfterClose(s, id) else s
    decreases |lines|
  {
    if lines != [] {
      if IsDisconnect(lines[0]) {
        ClosedStays(AfterClose(s, id), id, lines[1..]);
      } else {
        CommandsClose(s, id, lines[1..]);
        assert forall k :: 0 < k < |lines| ==> lines[k] == lines[1..][k - 1];
      }
    }
  }

  /** Any sequence of registrations, closes and commands keeps the invariant. */
  lemma InvRun(s: Server, es: seq<Event>)
    requires Init(s) && Exec(Step, s, es).Some?
    ensures Inv(Exec(Step, s, es).value, s)
  {
    var inv := (t: Server) => Inv(t, s);
    forall t, e | inv(t) && Step(t, e).Some? ensures inv(Step(t, e).value) {
      match e
      case Register(r) => RegisterKeeps(t, s, r);
      case Close(id) => CloseKeeps(t, s, id);
      case Command(id, line) => CloseKeeps(t, s, id);
    }
    Invariance(Step, inv, s, es);
  }

  // ---------- Counting descriptors ----------

  function ActiveCount(clients: seq<ClientInfo>): nat {
    if clients == [] then 0 else ActiveCount(clients[..|clients| - 1]) + if clients[|clients| - 1].active then 1 else 0
  }

  /** The descriptors of the active slots. */
  function Owned(clients: seq<ClientInfo>): set<int> {
    if clients == [] then {}
    else
      var k := |clients| - 1;
      Owned(clients[..k]) + if clients[k].active then {clients[k].txFd, clients[k].rxFd} else {}
  }

  lemma {:induction false} OwnedMember(clients: seq<ClientInfo>, fd: int)
    ensures fd in Owned(clients) <==> OwnedIn(clients, fd)
  {
    if clients != [] {
      var k := |clients| - 1;
      OwnedMember(clients[..k], fd);
      assert forall i :: 0 <= i < k ==> clients[..k][i] == clients[i];
    }
  }

  predicate Separate(clients: seq<ClientInfo>) {
    && (forall i :: 0 <= i < |clients| && clients[i].active ==> clients[i].txFd != clients[i].rxFd)
    && forall i, j :: 0 <= i < j < |clients| ==> Apart(clients[i], clients[j])
  }

  lemma {:induction false} OwnedCount(clients: seq<ClientInfo>)
    requires Separate(clients)
    ensures |Owned(clients)| == 2 * ActiveCount(clients)
    decreases |clients|
  {
    if clients != [] {
      var k := |clients| - 1;
      var front, c := clients[..k], clients[k];
      assert Separate(front);
      OwnedCount(front);
      if c.active {
        NotOwned(clients, k, c.txFd);
        NotOwned(clients, k, c.rxFd);
        AddTwo(Owned(front), c.txFd, c.rxFd);
      }
    }
  }

  lemma NotOwned(clients: seq<ClientInfo>, k: nat, fd: int)
    requires Separate(clients) && k < |clients| && clients[k].active
    requires fd == clients[k].txFd || fd == clients[k].rxFd
    ensures fd !in Owned(clients[..k])
  {
    OwnedMember(clients[..k], fd);
    forall i | 0 <= i < k && clients[i].active ensures fd != clients[i].txFd && fd != clients[i].rxFd {
      assert Apart(clients[i], clients[k]);
    }
  }

  lemma AddTwo(s: set<int>, a: int, b: int)
    requires a !in s && b !in s && a != b
    ensures |s + {a, b}| == |s| + 2
  {
    assert s + {a, b} == s + {a} + {b};
  }

  /** In every reachable state the server has exactly two descriptors a client beside its own. */
  lemma DescriptorCount(s: Server, es: seq<Event>)
    requires Init(s) && Exec(Step, s, es).Some?
    ensures var t := Exec(Step, s, es).value;
            t.fds == s.fds + Owned(t.clients) && |t.fds| == |s.fds| + 2 * ActiveCount(t.clients)
  {
    InvRun(s, es);
    var t := Exec(Step, s, es).value;
    assert forall i :: 0 <= i < |t.clients| ==> SlotOk(t, s, i, t.clients[i]);
    forall fd ensures fd in t.fds <==> fd in s.fds || fd in Owned(t.clients) {
      OwnedMember(t.clients, fd);
      if fd in t.fds && fd !in s.fds { assert OwnedIn(t.clients, fd); }
    }
    forall fd | fd in Owned(t.clients) ensures fd !in s.fds {
      OwnedMember(t.clients, fd);
    }
    assert t.fds == s.fds + Owned(t.clients) && s.fds !! Owned(t.clients);
    OwnedCount(t.clients);
  }
}
