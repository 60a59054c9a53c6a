/** The parser as it is written: strtok_r over a copy of the input, argument arrays filled in place. */
module CommandParser {
  import opened CText
  import opened Runs
  import opened CommandLineSpec

  // ---------- strtok_r ----------

  /** A string from `from` to the NUL at n. */
  ghost predicate Ends(m: seq<char>, from: nat, n: nat) {
    from <= n < |m| && m[n] == NUL && forall i :: from <= i < n ==> m[i] != NUL
  }

  /** strspn: past the separators at `from`. */
  method SkipSeparators(buf: array<char>, from: nat, ghost n: nat) returns (start: nat)
    requires Ends(buf[..], from, n)
    ensures from <= start <= n && !IsSeparator(buf[start])
    ensures Tokens(buf[start..n]) == Tokens(buf[from..n])
  {
    start := from;
    while IsSeparator(buf[start])
      invariant from <= start <= n && Tokens(buf[start..n]) == Tokens(buf[from..n])
      decreases n - start
    {
      assert buf[start..n][1..] == buf[start + 1..n];
      start := start + 1;
    }
  }

  /** strcspn: up to the next separator, or the NUL. */
  method FindSeparator(buf: array<char>, from: nat, ghost n: nat) returns (end: nat)
    requires Ends(buf[..], from, n)
    ensures end == from + TokenLength(buf[from..n])
  {
    end := from;
    while buf[end] != NUL && !IsSeparator(buf[end])
      invariant from <= end <= n && end - from + TokenLength(buf[end..n]) == TokenLength(buf[from..n])
      decreases n - end
    {
      assert buf[end..n][1..] == buf[end + 1..n];
      end := end + 1;
    }
    assert end < n ==> buf[end..n][0] == buf[end];
  }

  lemma AfterToken(s: string)
    requires s != "" && !IsSeparator(s[0])
    ensures var k := TokenLength(s);
            0 < k && Tokens(s) == [s[..k]] + Tokens(if k < |s| then s[k + 1..] else "")
  {
    var k := TokenLength(s);
    if k < |s| {
      assert s[k..] == [s[k]] + s[k + 1..];
      SkipSeparator(s[k], s[k + 1..]);
    } else {
      assert s[k..] == "";
    }
  }

  /** With m the buffer before the call, n its length without the final NUL: what strtok_r finds in m[save..n]. */
  ghost predicate NextToken(m: seq<char>, n: nat, save: nat, start: nat, end: nat, next: nat)
    requires save <= n <= |m|
  {
    && save <= start < end <= next <= n && next == (if end < n then end + 1 else n)
    && Tokens(m[save..n]) == [m[start..end]] + Tokens(m[next..n])
  }

  lemma FoundToken(m: seq<char>, n: nat, save: nat, start: nat, end: nat)
    requires save <= start < n <= |m| && !IsSeparator(m[start])
    requires Tokens(m[start..n]) == Tokens(m[save..n]) && end == start + TokenLength(m[start..n])
    ensures NextToken(m, n, save, start, end, if end < n then end + 1 else n)
  {
    var text, k := m[start..n], end - start;
    AfterToken(text);
    assert text[..k] == m[start..end];
    if end < n { assert text[k + 1..] == m[end + 1..n]; } else { assert m[n..n] == ""; }
  }

  /**
   strtok_r continuing at `save`: the token starts at `start`, the separator after it, at `end`, is
   overwritten with NUL, and the search goes on at `next`.
   */
  method StrtokR(buf: array<char>, save: nat, ghost n: nat) returns (found: bool, start: nat, end: nat, next: nat)
    requires Ends(buf[..], save, n)
    modifies buf
    ensures save <= start <= end <= next <= n && Ends(buf[..], next, n)
    ensures found ==> save < next
    ensures Tokens(old(buf[..])[save..n]) == if found then [buf[start..end]] + Tokens(buf[next..n]) else []
    ensures buf[..] == if found && end < n then old(buf[..])[end := NUL] else old(buf[..])
  {
    ghost var m := buf[..];
    start := SkipSeparators(buf, save, n);
    assert buf[start..n] == m[start..n] && buf[save..n] == m[save..n];
    if buf[start] == NUL {
      assert m[start..n] == [];
      return false, start, start, start;
    }
    end := FindSeparator(buf, start, n);
    FoundToken(m, n, save, start, end);
    found := true;
    next := end;
    if buf[end] != NUL {
      buf[end] := NUL;
      next := end + 1;
    }
    assert buf[start..end] == m[start..end] && buf[next..n] == m[next..n];
  }

  /** strchr(tok, '|') */
  method StrChrPipe(tok: string) returns (n: nat)
    ensures n == FirstPipe(tok)
  {
    n := 0;
    while n < |tok| && tok[n] != '|'
      invariant n <= |tok| && n + FirstPipe(tok[n..]) == FirstPipe(tok)
    {
      assert tok[n..][1..] == tok[n + 1..];
      n := n + 1;
    }
  }

  /** The loop of fixAfterTok. */
  method SkipLeading(s: string) returns (r: string)
    ensures r == SkipSpace(s)
  {
    r := s;
    while r != "" && IsSpace(r[0])
      invariant SkipSpace(r) == SkipSpace(s)
      decreases |r|
    {
      r := r[1..];
    }
  }

  // ---------- Commands ----------

  class Command {
    var argv: array<Option<string>>
    var argc: nat
    ghost var args: seq<string>

    constructor ()
      ensures fresh(argv) && argc == 0
    {
      argv := new Option<string>[0];
      argc := 0;
    }

    /** Allocated by InitCommand; argv holds `args` and then only NULL, with room for at least one NULL. */
    ghost predicate Ready()
      reads this, argv
    {
      && argv.Length == MAX_ARGS && argc == |args| < MAX_ARGS
      && (forall j :: 0 <= j < argc ==> argv[j] == Some(args[j]))
      && forall j :: argc <= j < MAX_ARGS ==> argv[j] == None
    }

    method Init()
      modifies this
      ensures Ready() && fresh(argv) && args == []
    {
      argv := new Option<string>[MAX_ARGS](i => None);
      argc := 0;
      args := [];
    }

    /** false: TOO_MANY_ARGS, and nothing changed. */
    method AddArgument(arg: string) returns (ok: bool)
      requires Ready()
      modifies this`argc, this`args, argv
      ensures Ready() && argv == old(argv)
      ensures ok <==> |old(args)| < MAX_ARGS - 1
      ensures args == if ok then old(args) + [arg] else old(args)
    {
      if argc >= MAX_ARGS - 1 { return false; }
      argv[argc] := Some(arg);
      argc := argc + 1;
      args := args + [arg];
      ok := true;
    }
  }

  /** The line under construction; InitCommandLine allocates it. */
  class CommandLine {
    const cmds: array<Command>
    var cmdCount: nat
    ghost const records: set<Command>
    ghost var buffers: set<array<Option<string>>>
    ghost var built: Line

    constructor ()
      ensures fresh(cmds) && fresh(records) && Blank()
    {
      var first := new Command();
      var slots := new Command[MAX_COMMANDS](i => first);
      ghost var made := {first};
      for i := 0 to MAX_COMMANDS
        invariant fresh(slots) && fresh(made) && slots.Length == MAX_COMMANDS
        invariant forall j :: 0 <= j < MAX_COMMANDS ==> slots[j] in made
        invariant forall j, k :: 0 <= j < k < i ==> slots[j] != slots[k]
        modifies slots
      {
        var c := new Command();
        slots[i] := c;
        made := made + {c};
      }
      cmds := slots;
      cmdCount := 0;
      records := made;
      buffers := {};
      built := Line([], []);
    }

    /** Sixteen different command records. */
    ghost predicate Slots()
      reads cmds
    {
      && cmds.Length == MAX_COMMANDS
      && (forall i :: 0 <= i < MAX_COMMANDS ==> cmds[i] in records)
      && forall i, j :: 0 <= i < j < MAX_COMMANDS ==> cmds[i] != cmds[j]
    }

    /** Nothing parsed yet. */
    ghost predicate Blank()
      reads this, cmds
    {
      Slots() && cmdCount == 0 && buffers == {} && built == Line([], [])
    }

    /** The first commands have argument arrays, each its own, holding `rows`. */
    ghost predicate Holds(rows: seq<seq<string>>)
      reads this, cmds, records, buffers
    {
      && Slots() && |rows| <= MAX_COMMANDS
      && (forall i :: 0 <= i < |rows| ==> cmds[i].argv in buffers && cmds[i].Ready() && cmds[i].args == rows[i])
      && forall i, j :: 0 <= i < j < |rows| ==> cmds[i].argv != cmds[j].argv
    }

    /** Commands up to and including the current one hold `built`. */
    ghost predicate Valid()
      reads this, cmds, records, buffers
    {
      cmdCount == |built.done| < MAX_COMMANDS && Holds(built.done + [built.current])
    }

    /** What the line is after a step that returned `failure`. */
    ghost function Outcome(failure: Option<CmdError>): Parse
      reads this
    {
      if failure.Some? then Failed(failure.value) else Running(built)
    }

    /** InitCommand on the record at cmdCount. */
    method Open(ghost rows: seq<seq<string>>)
      requires Holds(rows) && |rows| == cmdCount < MAX_COMMANDS
      modifies this`buffers, records
      ensures Holds(rows + [[]]) && fresh(buffers - old(buffers))
    {
      cmds[cmdCount].Init();
      buffers := buffers + {cmds[cmdCount].argv};
      forall i | 0 <= i < cmdCount
        ensures cmds[i].argv == old(cmds[i].argv) && cmds[i].args == rows[i] && cmds[i].Ready()
      {
        assert cmds[i] != cmds[cmdCount];
      }
    }

    method Begin()
      requires Blank()
      modifies this`buffers, records
      ensures Valid() && fresh(buffers)
    {
      Open([]);
    }

    method Add(arg: string) returns (failure: Option<CmdError>)
      requires Valid()
      modifies this`built, records, buffers
      ensures failure.None? ==> Valid()
      ensures CommandLineSpec.AddArgument(Running(old(built)), arg) == Outcome(failure)
    {
      ghost var rows := built.done + [built.current];
      assert cmds[cmdCount].args == rows[cmdCount] == built.current;
      var ok := cmds[cmdCount].AddArgument(arg);
      forall i | 0 <= i < cmdCount
        ensures cmds[i].argv == old(cmds[i].argv) && cmds[i].args == rows[i] == built.done[i] && cmds[i].Ready()
      {
        assert cmds[i] != cmds[cmdCount];
      }
      if !ok { return Some(TOO_MANY_ARGS); }
      built := Line(built.done, built.current + [arg]);
      failure := None;
    }

    method Next() returns (failure: Option<CmdError>)
      requires Valid()
      modifies this, records
      ensures fresh(buffers - old(buffers))
      ensures failure.None? ==> Valid()
      ensures NextCommand(Running(old(built))) == Outcome(failure)
    {
      cmdCount := cmdCount + 1;
      if cmdCount >= MAX_COMMANDS { return Some(TOO_MANY_COMMANDS); }
      Open(built.done + [built.current]);
      built := Line(built.done + [built.current], []);
      failure := None;
    }

    /** What follows the pipe starts the next command. */
    method NextWith(rest: string) returns (failure: Option<CmdError>)
      requires Valid()
      modifies this, records, buffers
      ensures fresh(buffers - old(buffers))
      ensures failure.None? ==> Valid()
      ensures var next := NextCommand(Running(old(built)));
              Outcome(failure) == if rest == "" then next else CommandLineSpec.AddArgument(next, SkipSpace(rest))
    {
      failure := Next();
      if failure.None? && rest != "" {
        var after := SkipLeading(rest);
        failure := Add(after);
      }
    }

    /** A token with a pipe in it, at `pipe`. */
    method TakePieces(tok: string, pipe: nat) returns (failure: Option<CmdError>)
      requires Valid() && pipe == FirstPipe(tok) < |tok|
      modifies this, records, buffers
      ensures fresh(buffers - old(buffers))
      ensures failure.None? ==> Valid()
      ensures Feed(Running(old(built)), tok) == Outcome(failure)
    {
      failure := None;
      if pipe > 0 {
        failure := Add(tok[..pipe]);
      }
      if failure.None? {
        failure := NextWith(tok[pipe + 1..]);
      }
    }

    /** The body of the token loop. */
    method TakeToken(tok: string) returns (failure: Option<CmdError>)
      requires Valid()
      modifies this, records, buffers
      ensures fresh(buffers - old(buffers))
      ensures failure.None? ==> Valid()
      ensures Feed(Running(old(built)), tok) == Outcome(failure)
    {
      var pipe := StrChrPipe(tok);
      if tok == "|" {
        failure := Next();
      } else if pipe < |tok| {
        failure := TakePieces(tok, pipe);
      } else {
        failure := Add(tok);
      }
    }

    /** A last command without arguments is not counted. */
    method Close()
      requires Valid()
      modifies this`cmdCount
      ensures Finish(Running(built)).Ok? && Holds(Finish(Running(built)).commands)
      ensures cmdCount == |Finish(Running(built)).commands|
    {
      if cmds[cmdCount].argc > 0 {
        cmdCount := cmdCount + 1;
      }
    }
  }

  lemma FeedFirst(p: Parse, tok: string, rest: seq<string>)
    ensures FeedAll(p, [tok] + rest) == FeedAll(Feed(p, tok), rest)
  {
    assert ([tok] + rest)[1..] == rest;
  }

  /** The loop over the tokens of the copied input. */
  method TakeTokens(buf: array<char>, ghost n: nat, out: CommandLine) returns (failure: Option<CmdError>)
    requires Ends(buf[..], 0, n) && out.Valid()
    modifies buf, out, out.records, out.buffers
    ensures failure.None? ==> out.Valid()
    ensures out.Outcome(failure) == FeedAll(Running(old(out.built)), Tokens(old(buf[0..n])))
  {
    ghost var result := FeedAll(Running(out.built), Tokens(buf[0..n]));
    failure := None;
    var found, start, end, save := StrtokR(buf, 0, n);
    while found
      invariant start <= end <= save <= n && Ends(buf[..], save, n)
      invariant failure.None? && out.Valid() && fresh(out.buffers - old(out.buffers))
      invariant FeedAll(Running(out.built), if found then [buf[start..end]] + Tokens(buf[save..n]) else []) == result
      decreases found, n - save
    {
      ghost var before, tok, rest := Running(out.built), buf[start..end], Tokens(buf[save..n]);
      FeedFirst(before, tok, rest);
      failure := out.TakeToken(buf[start..end]);
      if failure.Some? {
        FailedStays(Feed(before, tok), rest);
        return;
      }
      found, start, end, save := StrtokR(buf, save, n);
    }
  }

  /** OK is None. The input is a C string. */
  method ParseCommandLine(input: string, out: CommandLine) returns (failure: Option<CmdError>)
    requires NUL !in input && out.Blank()
    modifies out, out.records
    ensures match ParseLine(input)
            case Ok(commands) => failure == None && out.cmdCount == |commands| && out.Holds(commands)
            case Err(error) => failure == Some(error)
  {
    var buf := new char[|input| + 1](i => if 0 <= i < |input| then input[i] else NUL);
    assert buf[0..|input|] == input;
    out.Begin();
    failure := TakeTokens(buf, |input|, out);
    if failure.None? {
      out.Close();
    }
  }
}
