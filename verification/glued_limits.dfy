/** Glued and spaced pipes for the lines that the parser rejects. */
module GluedLimits {
  import opened CText
  import opened Sequences
  import opened CommandLineSpec
  import opened GluedPipes

  // ---------- The spaced line has shorter commands, and more of them ----------

  /** What the parse of the spaced line can be when the parse of the glued one is g. */
  predicate Behind(g: Parse, s: Parse) {
    match g
    case Running(l) =>
      if s.Running? then |s.line.current| <= |l.current| && |l.done| <= |s.line.done| else s.error == TOO_MANY_COMMANDS
    case Failed(e) => e == TOO_MANY_COMMANDS ==> s == g
  }

  /** The pieces up to the first pipe, then the rest. */
  lemma FirstPieces(s: Parse, t: string)
    requires FirstPipe(t) < |t|
    ensures FeedAll(s, Split(t)) == FeedAll(PastPipe(s, t), Split(t[FirstPipe(t) + 1..]))
  {
    var n := FirstPipe(t);
    var pre: seq<string> := if n == 0 then [] else [t[..n]];
    var before := if n == 0 then s else AddArgument(s, t[..n]);
    FirstPipeWord(t, n);
    FeedPieces1(s, t[..n]);
    FeedAllConcat(s, pre, ["|"]);
    FeedPieces1(before, "|");
    FeedAllConcat(s, pre + ["|"], Split(t[n + 1..]));
  }

  /** r is s with more commands and at most that many arguments, or has too many commands. */
  predicate Advanced(s: Parse, r: Parse, most: nat)
    requires s.Running?
  {
    if r.Running? then |r.line.current| <= most && |s.line.done| <= |r.line.done| else r.error == TOO_MANY_COMMANDS
  }

  lemma PastPipeAdvances(s: Parse, t: string)
    requires s.Running? && s.line.current == []
    ensures var r := PastPipe(s, t); Advanced(s, r, 0) && (r.Running? ==> r.line.current == [])
  {}

  lemma AdvancedFurther(s: Parse, r: Parse, q: Parse, most: nat)
    requires s.Running? && Advanced(s, r, 0) && (if r.Running? then Advanced(r, q, most) else q == r)
    ensures Advanced(s, q, most)
  {}

  lemma FeedNothing(s: Parse, right: string)
    requires s.Failed?
    ensures FeedAll(s, Split(right)) == s
  {
    FailedStays(s, Split(right));
  }

  /** From a command without arguments, the pieces of a token leave at most one. */
  lemma {:induction false} FeedPiecesOf(s: Parse, t: string)
    requires s.Running? && s.line.current == []
    ensures Advanced(s, FeedAll(s, Split(t)), if t == "" then 0 else 1)
    decreases |t|
  {
    var n := FirstPipe(t);
    if n == |t| {
      if t != "" { FeedPieces1(s, t); }
    } else {
      var next, right := PastPipe(s, t), t[n + 1..];
      FirstPieces(s, t);
      PastPipeAdvances(s, t);
      if next.Running? { FeedPiecesOf(next, right); } else { FeedNothing(next, right); }
      AdvancedFurther(s, next, FeedAll(next, Split(right)), 1);
    }
  }

  lemma BehindWord(g: Parse, s: Parse, w: string)
    requires Behind(g, s)
    ensures Behind(AddArgument(g, w), AddArgument(s, w))
  {}

  lemma BehindPipe(g: Parse, s: Parse, t: string)
    requires Behind(g, s)
    ensures var p, q := PastPipe(g, t), PastPipe(s, t);
            Behind(p, q) && (p.Running? ==> p.line.current == []) && (q.Running? ==> q.line.current == [])
  {
    BehindWord(g, s, t[..FirstPipe(t)]);
  }

  lemma BehindRest(p: Parse, q: Parse, right: string)
    requires Behind(p, q) && (p.Running? ==> p.line.current == []) && (q.Running? ==> q.line.current == [])
    ensures Behind(RightOfPipe(p, right), FeedAll(q, Split(right)))
  {
    if q.Running? { FeedPiecesOf(q, right); } else { FeedNothing(q, right); }
  }

  lemma BehindKept(g: Parse, s: Parse, t: string)
    requires Behind(g, s) && t != ""
    ensures Behind(Feed(g, t), FeedAll(s, Split(t)))
  {
    if FirstPipe(t) == |t| {
      FeedPieces1(s, t);
      BehindWord(g, s, t);
    } else {
      BehindGlued(g, s, t, t[FirstPipe(t) + 1..]);
    }
  }

  lemma BehindGlued(g: Parse, s: Parse, t: string, right: string)
    requires Behind(g, s) && FirstPipe(t) < |t| && right == t[FirstPipe(t) + 1..]
    ensures Behind(Feed(g, t), FeedAll(s, Split(t)))
  {
    FirstPieces(s, t);
    BehindPipe(g, s, t);
    BehindRest(PastPipe(g, t), PastPipe(s, t), right);
  }

  lemma {:induction false} BehindAll(g: Parse, s: Parse, ts: seq<string>)
    requires Behind(g, s) && forall i :: 0 <= i < |ts| ==> ts[i] != ""
    ensures Behind(FeedAll(g, ts), FeedAll(s, SplitAll(ts)))
    decreases |ts|
  {
    if ts != [] {
      BehindKept(g, s, ts[0]);
      FeedAllConcat(s, Split(ts[0]), SplitAll(ts[1..]));
      BehindAll(Feed(g, ts[0]), FeedAll(s, Split(ts[0])), ts[1..]);
    }
  }

  /**
   Spacing out the pipes never brings up TOO_MANY_ARGS, and never removes TOO_MANY_COMMANDS.
   */
  lemma SpacingAndErrors(input: string)
    ensures ParseLine(input) == Err(TOO_MANY_COMMANDS) ==> ParseLine(Spaced(input)) == Err(TOO_MANY_COMMANDS)
    ensures ParseLine(Spaced(input)) == Err(TOO_MANY_ARGS) ==> ParseLine(input) == Err(TOO_MANY_ARGS)
    ensures ParseLine(input).Ok? ==> ParseLine(Spaced(input)).Ok? || ParseLine(Spaced(input)) == Err(TOO_MANY_COMMANDS)
  {
    TokensOfSpaced(input);
    BehindAll(Start, Start, Tokens(input));
    NoAllocError(Start, SplitAll(Tokens(input)));
    NoAllocError(Start, Tokens(input));
  }

  lemma {:induction false} NoAllocError(p: Parse, ts: seq<string>)
    requires p != Failed(ALLOC_ERR)
    ensures FeedAll(p, ts) != Failed(ALLOC_ERR)
    decreases |ts|
  {
    if ts != [] { NoAllocError(Feed(p, ts[0]), ts[1..]); }
  }

  // ---------- When too many arguments stay too many ----------

  function PipesIn(ps: seq<string>): nat {
    if ps == [] then 0 else (if ps[0] == "|" then 1 else 0) + PipesIn(ps[1..])
  }

  /** 256 words in a row from position i, in one of the first 16 commands when `pipes` came before ps. */
  predicate LongRun(ps: seq<string>, i: nat, pipes: nat) {
    && i + MAX_ARGS <= |ps| && (forall j :: i <= j < i + MAX_ARGS ==> ps[j] != "|")
    && pipes + PipesIn(ps[..i]) < MAX_COMMANDS
  }

  /** The same for a command that already has some words. */
  predicate LongStart(ps: seq<string>, words: nat) {
    words < MAX_ARGS && MAX_ARGS - words <= |ps| && forall j :: 0 <= j < MAX_ARGS - words ==> ps[j] != "|"
  }

  ghost predicate Runs(ps: seq<string>, pipes: nat, words: nat) {
    LongStart(ps, words) || exists i: nat :: LongRun(ps, i, pipes)
  }

  lemma RunShifts(ps: seq<string>, i: nat, pipes: nat)
    requires ps != []
    ensures LongRun(ps, i + 1, pipes) <==> LongRun(ps[1..], i, pipes + if ps[0] == "|" then 1 else 0)
  {
    assert i + 1 <= |ps| ==> ps[..i + 1][1..] == ps[1..][..i];
    if LongRun(ps[1..], i, pipes + if ps[0] == "|" then 1 else 0) {
      forall j | i + 1 <= j < i + 1 + MAX_ARGS ensures ps[j] != "|" { assert ps[j] == ps[1..][j - 1]; }
    }
    if LongRun(ps, i + 1, pipes) {
      forall j | i <= j < i + MAX_ARGS ensures ps[1..][j] != "|" { assert ps[1..][j] == ps[j + 1]; }
    }
  }

  lemma RunsOfTail(ps: seq<string>, pipes: nat, more: nat)
    requires ps != [] && more == pipes + if ps[0] == "|" then 1 else 0
    ensures (exists i: nat :: LongRun(ps, i, pipes)) <==>
              LongRun(ps, 0, pipes) || exists i: nat :: LongRun(ps[1..], i, more)
  {
    if i: nat :| LongRun(ps, i, pipes) {
      if i != 0 { RunShifts(ps, i - 1, pipes); }
    }
    if i: nat :| LongRun(ps[1..], i, more) {
      RunShifts(ps, i, pipes);
    }
  }

  lemma StartAfterWord(ps: seq<string>, words: nat)
    requires ps != [] && ps[0] != "|" && words < MAX_ARGS
    ensures LongStart(ps, words) <==> words + 1 == MAX_ARGS || LongStart(ps[1..], words + 1)
  {
    if LongStart(ps[1..], words + 1) {
      forall j | 0 <= j < MAX_ARGS - words ensures ps[j] != "|" { assert 0 < j ==> ps[j] == ps[1..][j - 1]; }
    }
  }

  lemma RunsAfterWord(ps: seq<string>, pipes: nat, words: nat)
    requires ps != [] && ps[0] != "|" && pipes < MAX_COMMANDS && words < MAX_ARGS
    ensures Runs(ps, pipes, words) <==> words + 1 == MAX_ARGS || Runs(ps[1..], pipes, words + 1)
  {
    RunsOfTail(ps, pipes, pipes);
    StartAfterWord(ps, words);
    assert LongRun(ps, 0, pipes) ==> LongStart(ps, words);
  }

  lemma RunsAfterPipe(ps: seq<string>, pipes: nat, words: nat)
    requires ps != [] && ps[0] == "|" && pipes < MAX_COMMANDS && words < MAX_ARGS
    ensures Runs(ps, pipes, words) <==> pipes + 1 < MAX_COMMANDS && Runs(ps[1..], pipes + 1, 0)
  {
    RunsOfTail(ps, pipes, pipes + 1);
    assert PipesIn(ps[1..][..0]) == 0;
    if LongStart(ps[1..], 0) && pipes + 1 < MAX_COMMANDS {
      assert LongRun(ps[1..], 0, pipes + 1);
    }
  }

  lemma {:induction false} TooManyArgsIffRun(l: Line, ps: seq<string>)
    requires |l.done| < MAX_COMMANDS && |l.current| < MAX_ARGS
    requires forall i :: 0 <= i < |ps| ==> ps[i] == "|" || FirstPipe(ps[i]) == |ps[i]|
    ensures FeedAll(Running(l), ps) == Failed(TOO_MANY_ARGS) <==> Runs(ps, |l.done|, |l.current|)
    decreases |ps|
  {
    if ps != [] {
      var next := Feed(Running(l), ps[0]);
      if ps[0] == "|" {
        RunsAfterPipe(ps, |l.done|, |l.current|);
        assert next == NextCommand(Running(l));
      } else {
        RunsAfterWord(ps, |l.done|, |l.current|);
      }
      if next.Running? { TooManyArgsIffRun(next.line, ps[1..]); } else { FailedStays(next, ps[1..]); }
    }
  }

  lemma {:induction false} PiecesAreSimple(t: string)
    ensures forall i :: 0 <= i < |Split(t)| ==> Split(t)[i] == "|" || FirstPipe(Split(t)[i]) == |Split(t)[i]|
    decreases |t|
  {
    var n := FirstPipe(t);
    if n < |t| {
      FirstPipeWord(t, n);
      PiecesAreSimple(t[n + 1..]);
    }
  }

  lemma {:induction false} AllPiecesAreSimple(ts: seq<string>)
    ensures forall i :: 0 <= i < |SplitAll(ts)| ==>
              SplitAll(ts)[i] == "|" || FirstPipe(SplitAll(ts)[i]) == |SplitAll(ts)[i]|
  {
    if ts != [] {
      PiecesAreSimple(ts[0]);
      AllPiecesAreSimple(ts[1..]);
    }
  }

  /** Some command among the first 16 of the line, every pipe taken as a pipe, has more than 255 words. */
  ghost predicate HasLongCommand(input: string) {
    exists i: nat :: LongRun(SplitAll(Tokens(input)), i, 0)
  }

  lemma SpacedRejectedForArgs(input: string)
    ensures ParseLine(Spaced(input)) == Err(TOO_MANY_ARGS) <==> HasLongCommand(input)
  {
    var ps := SplitAll(Tokens(input));
    TokensOfSpaced(input);
    AllPiecesAreSimple(Tokens(input));
    TooManyArgsIffRun(Line([], []), ps);
    if LongStart(ps, 0) {
      assert PipesIn(ps[..0]) == 0;
      assert LongRun(ps, 0, 0);
    }
  }

  /** What spacing out the pipes must not meet in order to change nothing. */
  predicate Indifferent(g: Result, clean: bool, long: bool) {
    match g
    case Ok(_) => clean
    case Err(TOO_MANY_COMMANDS) => true
    case Err(_) => long
  }

  lemma EqualResults(g: Result, r: Result, clean: bool, long: bool)
    requires g != Err(ALLOC_ERR) && (g == Err(TOO_MANY_COMMANDS) ==> r == g)
    requires (r == Err(TOO_MANY_ARGS) <==> long) && (g.Ok? ==> (g == r <==> clean))
    ensures g == r <==> Indifferent(g, clean, long)
  {}

  /**
   For every line: spacing out the pipes changes nothing if and only if the line is accepted and has only
   clean tokens, or has too many commands, or has too many arguments even in the commands between its pipes.
   */
  lemma GluedIff(input: string)
    ensures ParseLine(input) == ParseLine(Spaced(input)) <==>
              Indifferent(ParseLine(input), AllClean(Tokens(input)), HasLongCommand(input))
  {
    var g, r := ParseLine(input), ParseLine(Spaced(input));
    SpacingAndErrors(input);
    SpacedRejectedForArgs(input);
    NoAllocError(Start, Tokens(input));
    if g.Ok? { GluedIffClean(input); }
    EqualResults(g, r, AllClean(Tokens(input)), HasLongCommand(input));
  }

  // ---------- A line that is rejected only because its pipes are glued ----------

  lemma {:induction false} WordsStayWhole(ws: seq<string>)
    requires forall j :: 0 <= j < |ws| ==> IsWord(ws[j])
    ensures SplitAll(ws) == ws
  {
    if ws != [] {
      assert FirstPipe(ws[0]) == |ws[0]|;
      WordsStayWhole(ws[1..]);
    }
  }

  /** "a|b|" cut at its pipes, by the first of them. */
  lemma TwoPipes(a: string, b: string)
    requires IsWord(a) && IsWord(b)
    ensures var t := a + "|" + (b + "|");
            && IsToken(t) && FirstPipe(t) == |a| && t[..|a|] == a && t[|a| + 1..] == b + "|"
            && Split(t) == [a, "|", b, "|"]
  {
    var right := b + "|";
    var t := a + "|" + right;
    FirstPipeAt(a, right);
    FirstPipeAt(b, "");
    assert right + "" == right && t[..|a|] == a && t[|a| + 1..] == right;
    assert FirstPipe(right) == |b| && right[..|b|] == b && right[|b| + 1..] == "";
    assert Split(right) == [b, "|"];
  }

  /** Before 255 words, "a|b|" gives the command of a and one of 256 arguments; with blanks it gives three commands. */
  lemma GluedTooLong(a: string, b: string, ws: seq<string>)
    requires IsWord(a) && IsWord(b) && !IsSpace(b[0]) && |ws| == MAX_ARGS - 1
    requires forall j :: 0 <= j < |ws| ==> IsWord(ws[j])
    ensures var line := a + "|" + (b + "|") + (" " + PrintWords(ws));
            ParseLine(line) == Err(TOO_MANY_ARGS) && ParseLine(Spaced(line)) == Ok([[a], [b], ws])
  {
    var t := a + "|" + (b + "|");
    var line := t + (" " + PrintWords(ws));
    TwoPipes(a, b);
    TokenFirst(t, " " + PrintWords(ws));
    SkipSeparator(' ', PrintWords(ws));
    TokensOfWords(ws, "");
    assert PrintWords(ws) + "" == PrintWords(ws) && ws + Tokens("") == ws;
    assert Tokens(line) == [t] + ws;
    OneTooMany(a, b, t, ws);
    FeedAllConcat(Start, [t], ws);
    FeedPieces1(Start, t);
    WordsStayWhole(ws);
    TokensOfSpaced(line);
    assert ([t] + ws)[1..] == ws;
    assert SplitAll([t] + ws) == [a, "|", b, "|"] + ws;
    ThreeCommands(a, b, ws);
  }

  lemma OneTooMany(a: string, b: string, t: string, ws: seq<string>)
    requires IsWord(a) && IsWord(b) && !IsSpace(b[0]) && |ws| == MAX_ARGS - 1
    requires forall j :: 0 <= j < |ws| ==> IsWord(ws[j])
    requires FirstPipe(t) == |a| < |t| - 1 && t[..|a|] == a && t[|a| + 1..] == b + "|"
    ensures FeedAll(Feed(Start, t), ws) == Failed(TOO_MANY_ARGS)
  {
    var right, k := b + "|", |ws| - 1;
    assert right[0] == b[0];
    FeedTwo(a, right, t);
    FeedWords([[a]], [right], ws[..k]);
    FeedAllConcat(Feed(Start, t), ws[..k], [ws[k]]);
    FeedPieces1(Running(Line([[a]], [right] + ws[..k])), ws[k]);
    assert ws[..k] + [ws[k]] == ws && FirstPipe(ws[k]) == |ws[k]|;
  }

  lemma ThreeCommands(a: string, b: string, ws: seq<string>)
    requires IsWord(a) && IsWord(b) && |ws| == MAX_ARGS - 1
    requires forall j :: 0 <= j < |ws| ==> IsWord(ws[j])
    ensures Finish(FeedAll(Start, [a, "|", b, "|"] + ws)) == Ok([[a], [b], ws])
  {
    var cmds := [[a], [b], ws];
    PiecesOfThree([a], [b], ws);
    Assoc([a] + ["|"], [b] + ["|"], ws);
    assert [a] + ["|"] + ([b] + ["|"]) == [a, "|", b, "|"];
    FeedPieces([], cmds);
    assert [] + cmds == cmds;
  }

  lemma PiecesOfThree(a: seq<string>, b: seq<string>, c: seq<string>)
    ensures Pieces([a, b, c]) == a + ["|"] + (b + ["|"] + c)
  {
    assert [a, b, c][1..] == [b, c] && [b, c][1..] == [c];
    assert Pieces([c]) == c && Pieces([b, c]) == b + ["|"] + c;
  }
}
