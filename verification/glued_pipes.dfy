/** Pipes glued to words: when "a|b" means the same as "a | b", and when it does not. */
module GluedPipes {
  import opened CText
  import opened Sequences
  import opened CommandLineSpec

  /** Every '|' with a blank on both sides. */
  function Spaced(s: string): string {
    if s == "" then "" else (if s[0] == '|' then " | " else [s[0]]) + Spaced(s[1..])
  }

  /** A token cut at its pipes, each pipe a piece of its own. */
  function Split(t: string): seq<string>
    decreases |t|
  {
    var n := FirstPipe(t);
    if n == |t| then (if t == "" then [] else [t])
    else (if n == 0 then [] else [t[..n]]) + ["|"] + Split(t[n + 1..])
  }

  function SplitAll(ts: seq<string>): seq<string> {
    if ts == [] then [] else Split(ts[0]) + SplitAll(ts[1..])
  }

  lemma {:induction false} SpacedConcat(a: string, b: string)
    ensures Spaced(a + b) == Spaced(a) + Spaced(b)
  {
    if a == "" {
      assert a + b == b;
    } else {
      assert (a + b)[1..] == a[1..] + b;
      SpacedConcat(a[1..], b);
      Assoc(if a[0] == '|' then " | " else [a[0]], Spaced(a[1..]), Spaced(b));
    }
  }

  lemma {:induction false} SpacedWord(t: string)
    requires FirstPipe(t) == |t|
    ensures Spaced(t) == t
  {
    if t != "" {
      assert FirstPipe(t[1..]) == |t[1..]|;
      SpacedWord(t[1..]);
    }
  }

  lemma FirstPipeWord(t: string, n: nat)
    requires n <= FirstPipe(t)
    ensures FirstPipe(t[..n]) == n
  {}

  lemma CutAtPipe(t: string, n: nat)
    requires n == FirstPipe(t) < |t|
    ensures t == t[..n] + "|" + t[n + 1..]
  {
    CutAt(t, n);
    assert [t[n]] == "|";
  }

  lemma SpacedAtPipe(t: string, n: nat)
    requires n == FirstPipe(t) < |t|
    ensures Spaced(t) == t[..n] + " | " + Spaced(t[n + 1..])
  {
    CutAtPipe(t, n);
    SpacedConcat(t[..n] + "|", t[n + 1..]);
    SpacedConcat(t[..n], "|");
    FirstPipeWord(t, n);
    SpacedWord(t[..n]);
    SpacedPipe();
  }

  lemma SpacedPipe()
    ensures Spaced("|") == " | "
  {
    assert Spaced("|"[1..]) == "";
  }

  lemma TokensOfPipe(tail: string)
    ensures Tokens([' '] + ("|" + ([' '] + tail))) == ["|"] + Tokens(tail)
  {
    SkipSeparator(' ', tail);
    TokenFirst("|", [' '] + tail);
    SkipSeparator(' ', "|" + ([' '] + tail));
  }

  lemma BlankPipeBlank(tail: string)
    ensures " | " + tail == [' '] + ("|" + ([' '] + tail))
  {
    assert " | " == [' '] + ("|" + [' ']);
    Assoc([' '], "|" + [' '], tail);
    Assoc("|", [' '], tail);
  }

  lemma TokensAtPipe(left: string, tail: string)
    requires forall i :: 0 <= i < |left| ==> !IsSeparator(left[i])
    ensures Tokens(left + " | " + tail) == (if left == "" then [] else [left]) + ["|"] + Tokens(tail)
  {
    var r := [' '] + ("|" + ([' '] + tail));
    TokensOfPipe(tail);
    BlankPipeBlank(tail);
    Assoc(left, " | ", tail);
    if left == "" { assert left + r == r; } else { TokenFirst(left, r); }
  }

  lemma {:induction false} TokensOfSpacedToken(t: string, rest: string)
    requires (forall i :: 0 <= i < |t| ==> !IsSeparator(t[i])) && (rest == "" || IsSeparator(rest[0]))
    ensures Tokens(Spaced(t) + rest) == Split(t) + Tokens(rest)
    decreases |t|
  {
    var n := FirstPipe(t);
    if n == |t| {
      SpacedWord(t);
      if t == "" { assert t + rest == rest; } else { TokenFirst(t, rest); }
    } else {
      SpacedAtPipe(t, n);
      Assoc(t[..n] + " | ", Spaced(t[n + 1..]), rest);
      TokensAtPipe(t[..n], Spaced(t[n + 1..]) + rest);
      TokensOfSpacedToken(t[n + 1..], rest);
      Assoc((if n == 0 then [] else [t[..n]]) + ["|"], Split(t[n + 1..]), Tokens(rest));
    }
  }

  /** The tokens of the spaced text are the pieces of the tokens. */
  lemma {:induction false} TokensOfSpaced(s: string)
    ensures Tokens(Spaced(s)) == SplitAll(Tokens(s))
    decreases |s|
  {
    if s != "" {
      if IsSeparator(s[0]) {
        TokensOfSpaced(s[1..]);
        SkipSeparator(s[0], Spaced(s[1..]));
      } else {
        var k := TokenLength(s);
        var t, rest := s[..k], s[k..];
        assert s == t + rest;
        SpacedConcat(t, rest);
        assert rest != "" ==> Spaced(rest)[0] == rest[0];
        TokensOfSpacedToken(t, Spaced(rest));
        TokensOfSpaced(rest);
      }
    }
  }

  // ---------- When the meaning is the same ----------

  /** At most one pipe, and no white space that is not a separator right after it. */
  predicate Clean(t: string) {
    var n := FirstPipe(t);
    n == |t| || (FirstPipe(t[n + 1..]) == |t| - n - 1 && (n + 1 < |t| ==> !IsSpace(t[n + 1])))
  }

  predicate AllClean(ts: seq<string>) { forall i :: 0 <= i < |ts| ==> Clean(ts[i]) }

  lemma FeedPieces1(p: Parse, a: string)
    ensures FeedAll(p, [a]) == Feed(p, a)
  {
    assert FeedAll(Feed(p, a), []) == Feed(p, a);
  }

  lemma FeedClean(p: Parse, t: string)
    requires Clean(t) && t != ""
    ensures FeedAll(p, Split(t)) == Feed(p, t)
  {
    var n := FirstPipe(t);
    if n == |t| {
      FeedPieces1(p, t);
    } else {
      var left, right := t[..n], t[n + 1..];
      FirstPipeWord(t, n);
      var before := if n == 0 then p else AddArgument(p, left);
      var pre: seq<string> := if n == 0 then [] else [left];
      FeedPieces1(p, left);
      assert FeedAll(p, pre) == before;
      FeedAllConcat(p, pre, ["|"]);
      FeedPieces1(before, "|");
      assert Feed(before, "|") == NextCommand(before);
      FeedAllConcat(p, pre + ["|"], Split(right));
      if right != "" { FeedPieces1(NextCommand(before), right); }
    }
  }

  lemma {:induction false} FeedAllClean(p: Parse, ts: seq<string>)
    requires AllClean(ts) && forall i :: 0 <= i < |ts| ==> ts[i] != ""
    ensures FeedAll(p, SplitAll(ts)) == FeedAll(p, ts)
    decreases |ts|
  {
    if ts != [] {
      FeedAllConcat(p, Split(ts[0]), SplitAll(ts[1..]));
      FeedClean(p, ts[0]);
      FeedAllClean(Feed(p, ts[0]), ts[1..]);
    }
  }

  /** Same commands, or the same error, as with every pipe spaced out. */
  lemma GluedEqualsSpaced(input: string)
    requires AllClean(Tokens(input))
    ensures ParseLine(input) == ParseLine(Spaced(input))
  {
    TokensOfSpaced(input);
    FeedAllClean(Start, Tokens(input));
  }

  // ---------- And only then ----------

  function PipeCount(s: string): int { if s == "" then 0 else (if s[0] == '|' then 1 else 0) + PipeCount(s[1..]) }

  function OtherCount(s: string): int { if s == "" then 0 else (if s[0] == '|' then 0 else 1) + OtherCount(s[1..]) }

  lemma {:induction false} CountsConcat(a: string, b: string)
    ensures PipeCount(a + b) == PipeCount(a) + PipeCount(b) && OtherCount(a + b) == OtherCount(a) + OtherCount(b)
  {
    if a == "" {
      assert a + b == b;
    } else {
      assert (a + b)[1..] == a[1..] + b;
      CountsConcat(a[1..], b);
    }
  }

  lemma {:induction false} NoPipes(s: string)
    ensures 0 <= PipeCount(s) && 0 <= OtherCount(s)
    ensures PipeCount(s) == 0 <==> FirstPipe(s) == |s|
  {
    if s != "" { NoPipes(s[1..]); }
  }

  lemma {:induction false} SkipCounts(s: string)
    ensures PipeCount(SkipSpace(s)) == PipeCount(s)
    ensures OtherCount(SkipSpace(s)) <= OtherCount(s)
    ensures s != "" && IsSpace(s[0]) ==> OtherCount(SkipSpace(s)) < OtherCount(s)
  {
    if s != "" && IsSpace(s[0]) { SkipCounts(s[1..]); }
  }

  function Args(f: string -> int): seq<string> -> int { (args: seq<string>) => Sum(args, f) }

  /** The total of f over all arguments of a line. */
  function Weight(l: Line, f: string -> int): int { Sum(l.done, Args(f)) + Sum(l.current, f) }

  /** What a token adds to that total. */
  function Gain(t: string, f: string -> int): int {
    var n := FirstPipe(t);
    if n == |t| then f(t)
    else (if n == 0 then 0 else f(t[..n])) + (if n + 1 == |t| then 0 else f(SkipSpace(t[n + 1..])))
  }

  function GainOf(f: string -> int): string -> int { (t: string) => Gain(t, f) }

  lemma {:induction false} SumAppend<T>(s: seq<T>, x: T, f: T -> int)
    ensures Sum(s + [x], f) == Sum(s, f) + f(x)
  {
    if s == [] {
      assert s + [x] == [x] && Sum([x][1..], f) == 0;
    } else {
      assert (s + [x])[1..] == s[1..] + [x];
      SumAppend(s[1..], x, f);
    }
  }

  lemma WeightAdd(p: Parse, arg: string, f: string -> int)
    requires AddArgument(p, arg).Running?
    ensures p.Running? && Weight(AddArgument(p, arg).line, f) == Weight(p.line, f) + f(arg)
  {
    SumAppend(p.line.current, arg, f);
  }

  lemma WeightNext(p: Parse, f: string -> int)
    requires NextCommand(p).Running?
    ensures p.Running? && Weight(NextCommand(p).line, f) == Weight(p.line, f)
  {
    SumAppend(p.line.done, p.line.current, Args(f));
  }

  lemma WeightFeed(p: Parse, t: string, f: string -> int)
    requires Feed(p, t).Running?
    ensures p.Running? && Weight(Feed(p, t).line, f) == Weight(p.line, f) + Gain(t, f)
  {
    var n := FirstPipe(t);
    if n == |t| {
      WeightAdd(p, t, f);
    } else {
      var before := if n == 0 then p else AddArgument(p, t[..n]);
      if n + 1 < |t| { WeightAdd(NextCommand(before), SkipSpace(t[n + 1..]), f); }
      WeightNext(before, f);
      if 0 < n { WeightAdd(p, t[..n], f); }
    }
  }

  lemma {:induction false} WeightFeedAll(p: Parse, ts: seq<string>, f: string -> int)
    requires FeedAll(p, ts).Running?
    ensures p.Running? && Weight(FeedAll(p, ts).line, f) == Weight(p.line, f) + Sum(ts, GainOf(f))
    decreases |ts|
  {
    if ts != [] {
      WeightFeedAll(Feed(p, ts[0]), ts[1..], f);
      WeightFeed(p, ts[0], f);
    }
  }

  /** The total over an accepted line. */
  lemma WeightOfResult(ts: seq<string>, f: string -> int)
    requires Finish(FeedAll(Start, ts)).Ok?
    ensures Sum(Finish(FeedAll(Start, ts)).commands, Args(f)) == Sum(ts, GainOf(f))
  {
    WeightFeedAll(Start, ts, f);
    var l := FeedAll(Start, ts).line;
    SumAppend(l.done, l.current, Args(f));
  }

  lemma {:induction false} SumConcat<T>(a: seq<T>, b: seq<T>, f: T -> int)
    ensures Sum(a + b, f) == Sum(a, f) + Sum(b, f)
  {
    if a == [] {
      assert a + b == b;
    } else {
      assert (a + b)[1..] == a[1..] + b;
      SumConcat(a[1..], b, f);
    }
  }

  lemma CountsAtPipe(t: string, n: nat)
    requires n == FirstPipe(t) < |t|
    ensures PipeCount(t) == 1 + PipeCount(t[n + 1..]) && PipeCount(t[..n]) == 0
    ensures OtherCount(t) == OtherCount(t[..n]) + OtherCount(t[n + 1..])
  {
    CutAtPipe(t, n);
    CountsConcat(t[..n] + "|", t[n + 1..]);
    CountsConcat(t[..n], "|");
    FirstPipeWord(t, n);
    NoPipes(t[..n]);
    CountsOfPipe();
  }

  lemma CountsOfPipe()
    ensures PipeCount("|") == 1 && OtherCount("|") == 0
  {
    assert PipeCount("|"[1..]) == 0 && OtherCount("|"[1..]) == 0;
  }

  lemma SumOne<T>(x: T, f: T -> int)
    ensures Sum([x], f) == f(x)
  {
    assert Sum([x][1..], f) == 0;
  }

  lemma WordGain(w: string, f: string -> int)
    requires FirstPipe(w) == |w|
    ensures Gain(w, f) == f(w) && Sum([w], GainOf(f)) == f(w)
  {
    SumOne(w, GainOf(f));
  }

  lemma SplitSum(t: string, n: nat, f: string -> int)
    requires n == FirstPipe(t) < |t|
    ensures Sum(Split(t), GainOf(f)) == (if n == 0 then 0 else f(t[..n])) + Sum(Split(t[n + 1..]), GainOf(f))
  {
    var pre: seq<string> := if n == 0 then [] else [t[..n]];
    SumConcat(pre + ["|"], Split(t[n + 1..]), GainOf(f));
    SumConcat(pre, ["|"], GainOf(f));
    SumOne("|", GainOf(f));
    FirstPipeWord(t, n);
    WordGain(t[..n], f);
  }

  /** The pieces of a token lose nothing but its pipes. */
  lemma {:induction false} SplitGain(t: string)
    ensures Sum(Split(t), GainOf(PipeCount)) == 0
    ensures Sum(Split(t), GainOf(OtherCount)) == OtherCount(t)
    decreases |t|
  {
    var n := FirstPipe(t);
    if n == |t| {
      NoPipes(t);
      WordGain(t, PipeCount);
      WordGain(t, OtherCount);
    } else {
      SplitGain(t[n + 1..]);
      CountsAtPipe(t, n);
      SplitSum(t, n, PipeCount);
      SplitSum(t, n, OtherCount);
      assert n == 0 ==> OtherCount(t[..n]) == 0;
    }
  }

  lemma {:induction false} SplitAllGain(ts: seq<string>)
    ensures Sum(SplitAll(ts), GainOf(PipeCount)) == 0
    ensures Sum(SplitAll(ts), GainOf(OtherCount)) == Sum(ts, OtherCount)
  {
    if ts != [] {
      SplitAllGain(ts[1..]);
      SplitGain(ts[0]);
      SumConcat(Split(ts[0]), SplitAll(ts[1..]), GainOf(PipeCount));
      SumConcat(Split(ts[0]), SplitAll(ts[1..]), GainOf(OtherCount));
    }
  }

  lemma GainPipes(t: string)
    ensures FirstPipe(t) == |t| ==> Gain(t, PipeCount) == 0
    ensures FirstPipe(t) < |t| ==> Gain(t, PipeCount) == PipeCount(t[FirstPipe(t) + 1..])
  {
    var n := FirstPipe(t);
    if n == |t| {
      NoPipes(t);
    } else {
      CountsAtPipe(t, n);
      GainRight(t, n, t[n + 1..]);
    }
  }

  lemma GainRight(t: string, n: nat, right: string)
    requires n == FirstPipe(t) < |t| && right == t[n + 1..] && PipeCount(t[..n]) == 0
    ensures Gain(t, PipeCount) == PipeCount(right)
  {
    SkipCounts(right);
    assert |right| == |t| - n - 1;
  }

  lemma GainOthers(t: string)
    ensures Gain(t, OtherCount) <= OtherCount(t)
    ensures var n := FirstPipe(t); n + 1 < |t| && IsSpace(t[n + 1]) ==> Gain(t, OtherCount) < OtherCount(t)
  {
    var n := FirstPipe(t);
    if n < |t| {
      var right := t[n + 1..];
      CountsAtPipe(t, n);
      NoPipes(right);
      NoPipes(t[..n]);
      SkipCounts(right);
      if n + 1 < |t| { assert right[0] == t[n + 1]; }
    }
  }

  /** A token that is not clean leaves a pipe in an argument or drops a character. */
  lemma GainOfToken(t: string)
    ensures 0 <= Gain(t, PipeCount) && Gain(t, OtherCount) <= OtherCount(t)
    ensures !Clean(t) ==> 0 < Gain(t, PipeCount) || Gain(t, OtherCount) < OtherCount(t)
  {
    GainPipes(t);
    GainOthers(t);
    if FirstPipe(t) < |t| { NoPipes(t[FirstPipe(t) + 1..]); }
  }

  lemma CleanTail(ts: seq<string>)
    requires ts != []
    ensures AllClean(ts) <==> Clean(ts[0]) && AllClean(ts[1..])
  {
    if AllClean(ts[1..]) && Clean(ts[0]) {
      forall i | 0 <= i < |ts| ensures Clean(ts[i]) { assert i > 0 ==> ts[i] == ts[1..][i - 1]; }
    }
  }

  lemma SumFirst(ts: seq<string>, f: string -> int)
    requires ts != []
    ensures Sum(ts, f) == f(ts[0]) + Sum(ts[1..], f)
  {}

  lemma {:induction false} UncleanShows(ts: seq<string>)
    ensures 0 <= Sum(ts, GainOf(PipeCount)) && Sum(ts, GainOf(OtherCount)) <= Sum(ts, OtherCount)
    ensures !AllClean(ts) ==> 0 < Sum(ts, GainOf(PipeCount)) || Sum(ts, GainOf(OtherCount)) < Sum(ts, OtherCount)
  {
    if ts != [] {
      GainOfToken(ts[0]);
      UncleanShows(ts[1..]);
      CleanTail(ts);
      SumFirst(ts, GainOf(PipeCount));
      SumFirst(ts, GainOf(OtherCount));
      SumFirst(ts, OtherCount);
    }
  }

  /**
   For every accepted line, spacing out the pipes changes nothing exactly when every token has at most
   one pipe and no vertical tab, form feed or carriage return right after it.
   */
  lemma GluedIffClean(input: string)
    requires ParseLine(input).Ok?
    ensures ParseLine(input) == ParseLine(Spaced(input)) <==> AllClean(Tokens(input))
  {
    if AllClean(Tokens(input)) {
      GluedEqualsSpaced(input);
    } else if ParseLine(input) == ParseLine(Spaced(input)) {
      var ts := Tokens(input);
      TokensOfSpaced(input);
      SplitAllGain(ts);
      UncleanShows(ts);
      WeightOfResult(ts, PipeCount);
      WeightOfResult(ts, OtherCount);
      WeightOfResult(SplitAll(ts), PipeCount);
      WeightOfResult(SplitAll(ts), OtherCount);
      assert false;
    }
  }

  lemma FirstPipeAt(left: string, right: string)
    requires FirstPipe(left) == |left|
    ensures FirstPipe(left + "|" + right) == |left|
  {
    var t := left + "|" + right;
    assert t[|left|] == '|';
    assert forall i :: 0 <= i < |left| ==> t[i] == left[i];
  }

  lemma TwoPipesToken(a: string, b: string, c: string)
    requires IsWord(a) && IsWord(b) && IsWord(c) && !IsSpace(b[0])
    ensures var right := b + "|" + c;
            var t := a + "|" + right;
            && IsToken(t) && FirstPipe(t) == |a| && t[..|a|] == a && t[|a| + 1..] == right
            && right != "" && !IsSpace(right[0]) && FirstPipe(right) < |right|
  {
    var right := b + "|" + c;
    var t := a + "|" + right;
    FirstPipeAt(a, right);
    FirstPipeAt(b, c);
    assert t[..|a|] == a && t[|a| + 1..] == right && right[0] == b[0];
  }

  lemma OneToken(t: string)
    requires IsToken(t)
    ensures Tokens(t) == [t] && ParseLine(t) == Finish(Feed(Start, t))
  {
    TokenFirst(t, "");
    assert t + "" == t && [t] + Tokens("") == [t];
    FeedPieces1(Start, t);
  }

  /** Only the first pipe of a token separates commands: "a|b|c" is a, then the single argument "b|c". */
  lemma SecondPipeIsKept(a: string, b: string, c: string)
    requires IsWord(a) && IsWord(b) && IsWord(c) && !IsSpace(b[0])
    ensures ParseLine(a + "|" + (b + "|" + c)) == Ok([[a], [b + "|" + c]])
    ensures ParseLine(a + "|" + (b + "|" + c)) != ParseLine(Spaced(a + "|" + (b + "|" + c)))
  {
    var right := b + "|" + c;
    var t := a + "|" + right;
    TwoPipesToken(a, b, c);
    OneToken(t);
    FeedTwo(a, right, t);
    assert [[a]] + [[right]] == [[a], [right]];
    assert !Clean(Tokens(t)[0]);
    GluedIffClean(t);
  }

  lemma FeedTwo(a: string, right: string, t: string)
    requires a != "" && right != "" && !IsSpace(right[0])
    requires FirstPipe(t) == |a| < |t| - 1 && t[..|a|] == a && t[|a| + 1..] == right
    ensures Feed(Start, t) == Running(Line([[a]], [right]))
  {
    assert [] + [a] == [a] && [] + [[a]] == [[a]] && [] + [right] == [right];
    assert PastPipe(Start, t) == Running(Line([[a]], []));
  }
}
