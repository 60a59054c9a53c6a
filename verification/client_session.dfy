/** A client from its registration to its last command: what the server keeps for it, and what it understands. */
module ClientSession {
  import opened CText
  import opened Runs
  import opened Sequences
  import opened ClientTable

  // ---------- Registration ----------

  predicate AsksToLeave(r: Registration) {
    exists k :: 0 <= k < |Lines(CString(r.pending))| && IsDisconnect(Lines(CString(r.pending))[k])
  }

  /** Slot i holds the client of r, with its descriptors in their roles; everything else is as in s. */
  predicate RegisteredAt(s: Server, t: Server, i: nat, r: Registration) {
    && r.txPath.Some? && r.rxPath.Some? && r.tx.Some? && r.rx.Some? && i < |s.clients| == |t.clients|
    && t.clients[i].active && t.clients[i].clientId == i
    && t.clients[i].txFd == r.tx.value && t.clients[i].rxFd == r.rx.value
    && t.clients[i].txPath == Truncated(r.txPath.value) && t.clients[i].rxPath == Truncated(r.rxPath.value)
    && (forall j :: 0 <= j < |s.clients| && j != i ==> t.clients[j] == s.clients[j])
    && t.fds == s.fds + {r.tx.value, r.rx.value}
    && r.rx.value in t.epoll && t.epoll[r.rx.value] == i
    && t.epoll.Keys == s.epoll.Keys + {r.rx.value}
    && (forall fd :: fd in s.epoll && fd != r.rx.value ==> t.epoll[fd] == s.epoll[fd])
  }

  /**
   When registration returns 0, the first free slot holds the client and nothing else has changed, unless
   a line that was already waiting asks to disconnect: then everything is as before.
   */
  lemma SuccessfulRegistration(s: Server, base: Server, r: Registration)
    requires Inv(s, base) && Enabled(s, Register(r)) && AfterRegister(s, r).1 == 0
    ensures var i, t := FreeSlot(s.clients), AfterRegister(s, r).0;
            && i < MAX_CLIENTS && !s.clients[i].active && (forall j :: 0 <= j < i ==> s.clients[j].active)
            && if AsksToLeave(r) then t == s else RegisteredAt(s, t, i, r)
  {
    var i := FreeSlot(s.clients);
    var t := Filled(s, i, r);
    var u := t.(epoll := t.epoll[r.rx.value := i]);
    FillThenClose(s, base, r, true);
    CommandsClose(u, i, Lines(CString(r.pending)));
  }

  /** The events that end the registration of slot i. */
  predicate Leaves(e: Event, i: int) {
    match e
    case Register(_) => false
    case Close(id) => id == i
    case Command(id, line) => id == i && IsDisconnect(line)
  }

  lemma OthersStay(s: Server, base: Server, e: Event, i: nat)
    requires Inv(s, base) && Enabled(s, e) && IsActive(s, i) && !Leaves(e, i)
    ensures |Apply(s, e).clients| == |s.clients| && Apply(s, e).clients[i] == s.clients[i]
  {
    if e.Register? {
      FailedRegistration(s, base, e.r);
      if AfterRegister(s, e.r).1 == 0 { SuccessfulRegistration(s, base, e.r); }
    }
  }

  /**
   Whatever happens to other clients, a registered one keeps its slot, its open descriptors and its epoll
   entry until it is closed or asks to leave.
   */
  lemma {:induction false} StaysRegistered(base: Server, es: seq<Event>, fs: seq<Event>, i: nat)
    requires Init(base) && Exec(Step, base, es).Some? && Exec(Step, base, es + fs).Some?
    requires IsActive(Exec(Step, base, es).value, i) && forall k :: 0 <= k < |fs| ==> !Leaves(fs[k], i)
    ensures var s, t := Exec(Step, base, es).value, Exec(Step, base, es + fs).value;
            var c := s.clients[i];
            && IsActive(t, i) && t.clients[i] == c && c.txFd in t.fds && c.rxFd in t.fds
            && c.rxFd in t.epoll && t.epoll[c.rxFd] == i
  {
    InvRun(base, es + fs);
    SlotIsKept(base, es, fs, i);
    var t := Exec(Step, base, es + fs).value;
    assert SlotOk(t, base, i, t.clients[i]);
  }

  lemma {:induction false} SlotIsKept(base: Server, es: seq<Event>, fs: seq<Event>, i: nat)
    requires Init(base) && Exec(Step, base, es).Some? && Exec(Step, base, es + fs).Some?
    requires IsActive(Exec(Step, base, es).value, i) && forall k :: 0 <= k < |fs| ==> !Leaves(fs[k], i)
    ensures var s, t := Exec(Step, base, es).value, Exec(Step, base, es + fs).value;
            i < |t.clients| && t.clients[i] == s.clients[i]
    decreases |fs|
  {
    if fs == [] {
      assert es + fs == es;
    } else {
      var gs, e := fs[..|fs| - 1], fs[|fs| - 1];
      assert es + fs == (es + gs) + [e];
      ExecAppend(Step, base, es + gs, e);
      SlotIsKept(base, es, gs, i);
      InvRun(base, es + gs);
      OthersStay(Exec(Step, base, es + gs).value, base, e, i);
    }
  }

  // ---------- Lines ----------

  /** Commands as they are written, one a line. */
  function Written(ls: seq<string>): string { if ls == [] then "" else ls[0] + ("\n" + Written(ls[1..])) }

  predicate IsLine(l: string) { l != "" && '\n' !in l }

  lemma LinesFirst(l: string, rest: string)
    requires IsLine(l)
    ensures Lines(l + ("\n" + rest)) == [l] + Lines(rest)
  {
    var text := l + ("\n" + rest);
    Assoc(l, "\n", rest);
    LineOf(l, rest);
    assert text[..|l|] == l && text[|l| + 1..] == rest;
  }

  lemma WrittenFirst(ls: seq<string>, last: string)
    requires ls != []
    ensures Written(ls) + last == ls[0] + ("\n" + (Written(ls[1..]) + last))
  {
    Assoc(ls[0], "\n" + Written(ls[1..]), last);
    Assoc("\n", Written(ls[1..]), last);
  }

  lemma LinesOfLast(last: string)
    requires last == "" || IsLine(last)
    ensures Lines(last) == if last == "" then [] else [last]
  {
    LineLengthOf(last);
    assert last[..|last|] == last && [last] + [] == [last];
  }

  /** However many commands one read returns, with or without the last newline, they are found one by one. */
  lemma {:induction false} LinesBack(ls: seq<string>, last: string)
    requires (forall i :: 0 <= i < |ls| ==> IsLine(ls[i])) && (last == "" || IsLine(last))
    ensures Lines(Written(ls) + last) == ls + if last == "" then [] else [last]
  {
    var end := if last == "" then [] else [last];
    if ls == [] {
      LinesOfLast(last);
      assert Written(ls) + last == last && ls + end == end;
    } else {
      WrittenFirst(ls, last);
      LinesFirst(ls[0], Written(ls[1..]) + last);
      LinesBack(ls[1..], last);
      Assoc([ls[0]], ls[1..], end);
    }
  }

  lemma LineLengthOf(l: string)
    requires '\n' !in l
    ensures LineLength(l) == |l|
  {}

  lemma {:induction false} NoNulLeft(text: string)
    requires NUL !in text
    ensures CString(text) == text
  {
    if text != "" { NoNulLeft(text[1..]); }
  }

  // ---------- What the client sends ----------

  const COMMAND_SIZE := 512

  /** The text of a request; None when it does not fit the buffer. */
  function GetCommand(filename: string): Option<string> {
    var text := "GET " + filename + "\n";
    if |text| >= COMMAND_SIZE then None else Some(text)
  }

  const Leave := "DISCONNECT"

  /** The farewell of the client frees its slot, in one read with whatever it asked for before. */
  lemma GoodbyeCloses(s: Server, id: int, ls: seq<string>)
    requires IsActive(s, id) && forall i :: 0 <= i < |ls| ==> IsLine(ls[i]) && NUL !in ls[i]
    ensures AfterCommands(s, id, Lines(CString(Written(ls) + (Leave + "\n")))) == AfterClose(s, id)
  {
    LeaveIsLine();
    LinesOfLines(ls, Leave);
    assert IsDisconnect((ls + [Leave])[|ls|]);
    CommandsClose(s, id, ls + [Leave]);
  }

  lemma LeaveIsLine()
    ensures IsLine(Leave) && NUL !in Leave && IsDisconnect(Leave)
  {}

  lemma LinesOfLines(ls: seq<string>, l: string)
    requires (forall i :: 0 <= i < |ls| ==> IsLine(ls[i]) && NUL !in ls[i]) && IsLine(l) && NUL !in l
    ensures Lines(CString(Written(ls) + (l + "\n"))) == ls + [l]
  {
    WrittenAppend(ls, l);
    NoNulWritten(ls + [l]);
    NoNulLeft(Written(ls + [l]));
    LinesOfWritten(ls + [l]);
  }

  lemma LinesOfWritten(ls: seq<string>)
    requires forall i :: 0 <= i < |ls| ==> IsLine(ls[i])
    ensures Lines(Written(ls)) == ls
  {
    assert Written(ls) + "" == Written(ls) && ls + [] == ls;
    LinesBack(ls, "");
  }

  lemma {:induction false} WrittenAppend(ls: seq<string>, l: string)
    ensures Written(ls + [l]) == Written(ls) + (l + "\n")
  {
    if ls == [] {
      assert [] + [l] == [l] && Written([l][1..]) == "";
    } else {
      assert (ls + [l])[1..] == ls[1..] + [l];
      WrittenAppend(ls[1..], l);
      Assoc(ls[0], "\n" + Written(ls[1..]), l + "\n");
      Assoc("\n", Written(ls[1..]), l + "\n");
    }
  }

  lemma {:induction false} NoNulWritten(ls: seq<string>)
    requires forall i :: 0 <= i < |ls| ==> NUL !in ls[i]
    ensures NUL !in Written(ls)
  {
    if ls != [] { NoNulWritten(ls[1..]); }
  }

  // ---------- Which file is meant ----------

  function WordLength(s: string): (n: nat)
    ensures n <= |s| && (forall i :: 0 <= i < n ==> !IsSpace(s[i])) && (n < |s| ==> IsSpace(s[n]))
  {
    if s == "" || IsSpace(s[0]) then 0 else 1 + WordLength(s[1..])
  }

  /** sscanf(s, "%255s", ...) */
  function ScanWord(s: string): Option<string> {
    var t := SkipSpace(s);
    var n := WordLength(t);
    if t == "" then None else Some(if n <= 255 then t[..n] else t[..255])
  }

  /** The file a command line asks for; the line is cut to 511 characters, and the word begins at the fifth. */
  function RequestedFile(line: string): Option<string> {
    var c := if |line| < COMMAND_SIZE then line else line[..COMMAND_SIZE - 1];
    if IsDisconnect(c) || !("GET" <= c) || |c| < 4 then None else ScanWord(c[4..])
  }

  /**
   The server looks for the file the client was asked to fetch if and only if its name is not empty, has no
   white space and at most 255 characters.
   */
  lemma RequestIsUnderstoodIff(filename: string)
    requires '\n' !in filename && NUL !in filename && GetCommand(filename).Some?
    ensures var lines := Lines(CString(GetCommand(filename).value));
            && lines == ["GET " + filename] && !IsDisconnect(lines[0])
            && (RequestedFile(lines[0]) == Some(filename) <==>
                  filename != "" && |filename| <= 255 && forall i :: 0 <= i < |filename| ==> !IsSpace(filename[i]))
  {
    var line := "GET " + filename;
    NoNulLeft(line + "\n");
    LinesFirst(line, "");
    assert line + ("\n" + "") == line + "\n" && [line] + Lines("") == [line];
    assert line[4..] == filename && line[0] == 'G';
    WordIsWhole(filename);
  }

  lemma WordIsWhole(name: string)
    ensures ScanWord(name) == Some(name) <==>
              name != "" && |name| <= 255 && forall i :: 0 <= i < |name| ==> !IsSpace(name[i])
  {
    if name != "" {
      if IsSpace(name[0]) {
        Shorter(name);
      } else {
        assert SkipSpace(name) == name && name[..|name|] == name;
      }
    }
  }

  lemma {:induction false} Shorter(s: string)
    requires s != "" && IsSpace(s[0])
    ensures |SkipSpace(s)| < |s|
  {
    if s[1..] != "" && IsSpace(s[1..][0]) { Shorter(s[1..]); }
  }
}
