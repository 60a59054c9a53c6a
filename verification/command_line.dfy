/** What a command line means: its tokens, and how tokens and pipes build the list of commands. */
module CommandLineSpec {
  import opened CText
  import opened Sequences

  const MAX_ARGS := 256
  const MAX_COMMANDS := 16

  datatype CmdError = ALLOC_ERR | TOO_MANY_COMMANDS | TOO_MANY_ARGS

  datatype Result = Ok(commands: seq<seq<string>>) | Err(error: CmdError)

  // ---------- Tokens ----------

  predicate IsSeparator(c: char) { c == ' ' || c == '\t' || c == '\n' }

  function TokenLength(s: string): (n: nat)
    ensures n <= |s|
    ensures forall i :: 0 <= i < n ==> !IsSeparator(s[i])
    ensures n < |s| ==> IsSeparator(s[n])
  {
    if s == "" || IsSeparator(s[0]) then 0 else 1 + TokenLength(s[1..])
  }

  /** The maximal separator-free pieces of s, in order. */
  function Tokens(s: string): (ts: seq<string>)
    ensures forall i :: 0 <= i < |ts| ==> IsToken(ts[i])
    decreases |s|
  {
    if s == "" then []
    else if IsSeparator(s[0]) then Tokens(s[1..])
    else [s[..TokenLength(s)]] + Tokens(s[TokenLength(s)..])
  }

  predicate IsToken(t: string) { t != "" && forall i :: 0 <= i < |t| ==> !IsSeparator(t[i]) }

  // ---------- Commands ----------

  /** `done`: finished commands; `current`: arguments of the command being read. */
  datatype Line = Line(done: seq<seq<string>>, current: seq<string>)

  datatype Parse = Running(line: Line) | Failed(error: CmdError)

  function AddArgument(p: Parse, arg: string): Parse {
    match p
    case Failed(_) => p
    case Running(l) =>
      if |l.current| >= MAX_ARGS - 1 then Failed(TOO_MANY_ARGS) else Running(Line(l.done, l.current + [arg]))
  }

  function NextCommand(p: Parse): Parse {
    match p
    case Failed(_) => p
    case Running(l) =>
      if |l.done| + 1 >= MAX_COMMANDS then Failed(TOO_MANY_COMMANDS) else Running(Line(l.done + [l.current], []))
  }

  function FirstPipe(t: string): (n: nat)
    ensures n <= |t|
    ensures forall i :: 0 <= i < n ==> t[i] != '|'
    ensures n < |t| ==> t[n] == '|'
  {
    if t == "" || t[0] == '|' then 0 else 1 + FirstPipe(t[1..])
  }

  /** The next command, after what is left of the first pipe of t. */
  function PastPipe(p: Parse, t: string): Parse {
    var n := FirstPipe(t);
    NextCommand(if n == 0 then p else AddArgument(p, t[..n]))
  }

  function RightOfPipe(next: Parse, right: string): Parse {
    if right == "" then next else AddArgument(next, SkipSpace(right))
  }

  /** What is left of the first pipe becomes an argument, what is right of it starts the next command. */
  function Feed(p: Parse, t: string): Parse {
    var n := FirstPipe(t);
    if n == |t| then AddArgument(p, t) else RightOfPipe(PastPipe(p, t), t[n + 1..])
  }

  function FeedAll(p: Parse, ts: seq<string>): Parse
    decreases |ts|
  {
    if ts == [] then p else FeedAll(Feed(p, ts[0]), ts[1..])
  }

  /** A last command without arguments is not counted. */
  function Finish(p: Parse): Result {
    match p
    case Failed(e) => Err(e)
    case Running(l) => Ok(if l.current == [] then l.done else l.done + [l.current])
  }

  const Start := Running(Line([], []))

  function ParseLine(input: string): Result { Finish(FeedAll(Start, Tokens(input))) }

  lemma {:induction false} FeedAllConcat(p: Parse, a: seq<string>, b: seq<string>)
    ensures FeedAll(p, a + b) == FeedAll(FeedAll(p, a), b)
    decreases |a|
  {
    if a == [] {
      assert a + b == b;
    } else {
      assert (a + b)[1..] == a[1..] + b;
      FeedAllConcat(Feed(p, a[0]), a[1..], b);
    }
  }

  lemma {:induction false} FailedStays(p: Parse, ts: seq<string>)
    requires p.Failed?
    ensures FeedAll(p, ts) == p
  {
    if ts != [] { FailedStays(p, ts[1..]); }
  }

  // ---------- Limits ----------

  predicate WithinLimits(p: Parse) {
    p.Running? ==>
      && |p.line.done| < MAX_COMMANDS && |p.line.current| < MAX_ARGS
      && forall i :: 0 <= i < |p.line.done| ==> |p.line.done[i]| < MAX_ARGS
  }

  lemma {:induction false} LimitsKept(p: Parse, ts: seq<string>)
    requires WithinLimits(p)
    ensures WithinLimits(FeedAll(p, ts))
    decreases |ts|
  {
    if ts != [] { LimitsKept(Feed(p, ts[0]), ts[1..]); }
  }

  /** Whatever the input, an accepted line has at most 16 commands of at most 255 arguments. */
  lemma AcceptedWithinLimits(input: string)
    requires ParseLine(input).Ok?
    ensures |ParseLine(input).commands| <= 16
    ensures forall i :: 0 <= i < |ParseLine(input).commands| ==> |ParseLine(input).commands[i]| <= 255
  {
    LimitsKept(Start, Tokens(input));
  }

  // ---------- Tokens of pieced-together text ----------

  lemma {:induction false} TokenLengthOf(t: string, rest: string)
    requires (forall i :: 0 <= i < |t| ==> !IsSeparator(t[i])) && (rest == "" || IsSeparator(rest[0]))
    ensures TokenLength(t + rest) == |t|
  {
    if t == "" {
      assert t + rest == rest;
    } else {
      assert (t + rest)[1..] == t[1..] + rest;
      TokenLengthOf(t[1..], rest);
    }
  }

  /** A token in front of a separator, or of the end, is the first token. */
  lemma TokenFirst(t: string, rest: string)
    requires IsToken(t) && (rest == "" || IsSeparator(rest[0]))
    ensures Tokens(t + rest) == [t] + Tokens(rest)
  {
    TokenLengthOf(t, rest);
    assert (t + rest)[..|t|] == t && (t + rest)[|t|..] == rest;
  }

  lemma SkipSeparator(c: char, rest: string)
    requires IsSeparator(c)
    ensures Tokens([c] + rest) == Tokens(rest)
  {
    assert ([c] + rest)[1..] == rest;
  }

  // ---------- Printing and parsing back ----------

  predicate IsWord(w: string) { IsToken(w) && forall i :: 0 <= i < |w| ==> w[i] != '|' }

  predicate Printable(cmds: seq<seq<string>>) {
    forall i :: 0 <= i < |cmds| ==>
      0 < |cmds[i]| <= MAX_ARGS - 1 && forall j :: 0 <= j < |cmds[i]| ==> IsWord(cmds[i][j])
  }

  function PrintWords(ws: seq<string>): string {
    if ws == [] then "" else ws[0] + " " + PrintWords(ws[1..])
  }

  /** Words separated by blanks, commands by " | ". */
  function Print(cmds: seq<seq<string>>): string {
    if cmds == [] then "" else if |cmds| == 1 then PrintWords(cmds[0])
    else PrintWords(cmds[0]) + "| " + Print(cmds[1..])
  }

  lemma {:induction false} TokensOfWords(ws: seq<string>, rest: string)
    requires forall j :: 0 <= j < |ws| ==> IsWord(ws[j])
    ensures Tokens(PrintWords(ws) + rest) == ws + Tokens(rest)
  {
    if ws == [] {
      assert PrintWords(ws) + rest == rest;
    } else {
      var tail := PrintWords(ws[1..]) + rest;
      PrintWordsFirst(ws, rest);
      TokenFirst(ws[0], " " + tail);
      SkipSeparator(' ', tail);
      TokensOfWords(ws[1..], rest);
      Assoc([ws[0]], ws[1..], Tokens(rest));
    }
  }

  lemma PrintWordsFirst(ws: seq<string>, rest: string)
    requires ws != []
    ensures PrintWords(ws) + rest == ws[0] + (" " + (PrintWords(ws[1..]) + rest))
  {
    Assoc(ws[0] + " ", PrintWords(ws[1..]), rest);
    Assoc(ws[0], " ", PrintWords(ws[1..]) + rest);
  }

  function Pieces(cmds: seq<seq<string>>): seq<string> {
    if cmds == [] then [] else if |cmds| == 1 then cmds[0] else cmds[0] + ["|"] + Pieces(cmds[1..])
  }

  lemma {:induction false} TokensOfPrint(cmds: seq<seq<string>>)
    requires Printable(cmds)
    ensures Tokens(Print(cmds)) == Pieces(cmds)
  {
    if |cmds| == 1 {
      TokensOfWords(cmds[0], "");
      assert PrintWords(cmds[0]) + "" == PrintWords(cmds[0]);
    } else if 1 < |cmds| {
      var rest := "| " + Print(cmds[1..]);
      assert Print(cmds) == PrintWords(cmds[0]) + rest;
      TokensOfWords(cmds[0], rest);
      assert rest == "|" + (" " + Print(cmds[1..]));
      TokenFirst("|", " " + Print(cmds[1..]));
      SkipSeparator(' ', Print(cmds[1..]));
      TokensOfPrint(cmds[1..]);
    }
  }

  lemma {:induction false} FeedWords(done: seq<seq<string>>, current: seq<string>, ws: seq<string>)
    requires |current| + |ws| < MAX_ARGS && forall j :: 0 <= j < |ws| ==> IsWord(ws[j])
    ensures FeedAll(Running(Line(done, current)), ws) == Running(Line(done, current + ws))
    decreases |ws|
  {
    if ws == [] {
      assert current + ws == current;
    } else {
      assert FirstPipe(ws[0]) == |ws[0]|;
      FeedWords(done, current + [ws[0]], ws[1..]);
      assert current + [ws[0]] + ws[1..] == current + ws;
    }
  }

  lemma {:induction false} FeedPieces(done: seq<seq<string>>, cmds: seq<seq<string>>)
    requires Printable(cmds) && cmds != [] && |done| + |cmds| <= MAX_COMMANDS
    ensures Finish(FeedAll(Running(Line(done, [])), Pieces(cmds))) == Ok(done + cmds)
    decreases |cmds|
  {
    var p := Running(Line(done, []));
    FeedWords(done, [], cmds[0]);
    assert [] + cmds[0] == cmds[0];
    if |cmds| == 1 {
      assert [cmds[0]] == cmds;
    } else {
      FeedAllConcat(p, cmds[0] + ["|"], Pieces(cmds[1..]));
      FeedAllConcat(p, cmds[0], ["|"]);
      assert Feed(FeedAll(p, cmds[0]), "|") == Running(Line(done + [cmds[0]], []));
      assert FeedAll(Feed(FeedAll(p, cmds[0]), "|"), []) == Feed(FeedAll(p, cmds[0]), "|");
      FeedPieces(done + [cmds[0]], cmds[1..]);
      assert done + [cmds[0]] + cmds[1..] == done + cmds;
    }
  }

  /** Printing 1 to 16 commands of 1 to 255 words and parsing the text gives the same commands. */
  lemma RoundTrip(cmds: seq<seq<string>>)
    requires Printable(cmds) && 0 < |cmds| <= MAX_COMMANDS
    ensures ParseLine(Print(cmds)) == Ok(cmds)
  {
    TokensOfPrint(cmds);
    FeedPieces([], cmds);
    assert [] + cmds == cmds;
  }
}
