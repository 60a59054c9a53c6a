/** How many commands an accepted line has, and which of them are empty. */
module CommandShape {
  import opened CText
  import opened CommandLineSpec

  predicate HasPipe(t: string) { FirstPipe(t) < |t| }

  /** Nothing follows the pipe that separates. */
  predicate EndsAtPipe(t: string) { FirstPipe(t) + 1 == |t| }

  /** How many tokens separate two commands. */
  function PipeTokens(ts: seq<string>): nat {
    if ts == [] then 0 else PipeTokens(ts[..|ts| - 1]) + if HasPipe(ts[|ts| - 1]) then 1 else 0
  }

  /** Something follows the last separating pipe, or stands in a line without one. */
  predicate Open(ts: seq<string>) { ts != [] && !EndsAtPipe(ts[|ts| - 1]) }

  lemma FeedLast(p: Parse, ts: seq<string>)
    requires ts != []
    ensures FeedAll(p, ts) == Feed(FeedAll(p, ts[..|ts| - 1]), ts[|ts| - 1])
  {
    var fs, t := ts[..|ts| - 1], ts[|ts| - 1];
    assert ts == fs + [t];
    FeedAllConcat(p, fs, [t]);
    assert FeedAll(Feed(FeedAll(p, fs), t), []) == Feed(FeedAll(p, fs), t);
  }

  /** What one token does to the finished commands and the current one. */
  lemma FeedShape(p: Parse, t: string)
    requires Feed(p, t).Running? && t != ""
    ensures p.Running?
    ensures var l, m := p.line, Feed(p, t).line;
            && (m.current == [] <==> EndsAtPipe(t))
            && m.done ==
               if HasPipe(t) then l.done + [if FirstPipe(t) == 0 then l.current else l.current + [t[..FirstPipe(t)]]]
               else l.done
  {
    if HasPipe(t) { assert |t[FirstPipe(t) + 1..]| == |t| - FirstPipe(t) - 1; }
  }

  lemma {:induction false} LineShape(ts: seq<string>)
    requires FeedAll(Start, ts).Running? && forall i :: 0 <= i < |ts| ==> ts[i] != ""
    ensures var l := FeedAll(Start, ts).line; |l.done| == PipeTokens(ts) && (l.current == [] <==> !Open(ts))
    decreases |ts|
  {
    if ts != [] {
      FeedLast(Start, ts);
      FeedShape(FeedAll(Start, ts[..|ts| - 1]), ts[|ts| - 1]);
      LineShape(ts[..|ts| - 1]);
    }
  }

  /** An accepted line has a command for each separating token, and one more exactly if something follows the last. */
  lemma CommandCount(input: string)
    requires ParseLine(input).Ok?
    ensures |ParseLine(input).commands| == PipeTokens(Tokens(input)) + if Open(Tokens(input)) then 1 else 0
  {
    LineShape(Tokens(input));
  }

  /** No command at all is found exactly in a line without tokens. */
  lemma NoCommandIff(input: string)
    ensures ParseLine(input) == Ok([]) <==> Tokens(input) == []
  {
    if ParseLine(input).Ok? { CommandCount(input); }
  }

  /** Token k ends a command to which nothing was added: a pipe at its front, behind nothing or behind a pipe. */
  predicate Starved(ts: seq<string>, k: nat)
    requires k < |ts|
  {
    HasPipe(ts[k]) && FirstPipe(ts[k]) == 0 && !Open(ts[..k])
  }

  lemma {:induction false} DoneCommand(ts: seq<string>, k: nat)
    requires FeedAll(Start, ts).Running? && k < |ts| && HasPipe(ts[k]) && forall i :: 0 <= i < |ts| ==> ts[i] != ""
    ensures var done, c := FeedAll(Start, ts).line.done, PipeTokens(ts[..k]);
            c < |done| && (done[c] == [] <==> Starved(ts, k))
    decreases |ts|
  {
    var fs, t := ts[..|ts| - 1], ts[|ts| - 1];
    FeedLast(Start, ts);
    FeedShape(FeedAll(Start, fs), t);
    LineShape(fs);
    if k < |fs| {
      assert fs[..k] == ts[..k] && fs[k] == ts[k];
      DoneCommand(fs, k);
    }
  }

  lemma {:induction false} PipeTokenNumber(ts: seq<string>, c: nat) returns (k: nat)
    requires c < PipeTokens(ts)
    ensures k < |ts| && HasPipe(ts[k]) && PipeTokens(ts[..k]) == c
    decreases |ts|
  {
    var fs := ts[..|ts| - 1];
    if c < PipeTokens(fs) {
      k := PipeTokenNumber(fs, c);
      assert fs[..k] == ts[..k];
    } else {
      k := |fs|;
    }
  }

  /** Command number c, ended by token k, is empty exactly if that token is starved. */
  lemma CommandIsEmptyIff(input: string, k: nat)
    requires ParseLine(input).Ok? && k < |Tokens(input)| && HasPipe(Tokens(input)[k])
    ensures var cmds, c := ParseLine(input).commands, PipeTokens(Tokens(input)[..k]);
            c < |cmds| && (cmds[c] == [] <==> Starved(Tokens(input), k))
  {
    DoneCommand(Tokens(input), k);
  }

  /** An accepted line has an empty command if and only if some token is starved. */
  lemma EmptyCommandIff(input: string)
    requires ParseLine(input).Ok?
    ensures (exists c :: 0 <= c < |ParseLine(input).commands| && ParseLine(input).commands[c] == []) <==>
              exists k :: 0 <= k < |Tokens(input)| && Starved(Tokens(input), k)
  {
    var ts, cmds := Tokens(input), ParseLine(input).commands;
    LineShape(ts);
    if c :| 0 <= c < |cmds| && cmds[c] == [] {
      var k := PipeTokenNumber(ts, c);
      CommandIsEmptyIff(input, k);
    }
    if k :| 0 <= k < |ts| && Starved(ts, k) {
      CommandIsEmptyIff(input, k);
    }
  }

  /** The last command of an accepted line is empty only if the line ends in a starved pipe. */
  lemma LastCommandIsEmptyIff(input: string)
    requires ParseLine(input).Ok? && Tokens(input) != []
    ensures var ts, cmds := Tokens(input), ParseLine(input).commands;
            cmds != [] && (cmds[|cmds| - 1] == [] <==> !Open(ts) && Starved(ts, |ts| - 1))
  {
    var ts := Tokens(input);
    LineShape(ts);
    if !Open(ts) { CommandIsEmptyIff(input, |ts| - 1); }
  }

  lemma TokensOfOne(t: string)
    requires IsToken(t)
    ensures Tokens(t) == [t]
  {
    TokenFirst(t, "");
    assert t + "" == t && [t] + Tokens("") == [t];
  }

  /** A pipe alone is accepted as one command without a word; a blank line as no command. */
  lemma LonePipe()
    ensures ParseLine("|") == Ok([[]]) && ParseLine("") == Ok([])
  {
    TokensOfOne("|");
    FeedLast(Start, ["|"]);
    assert Feed(Start, "|") == Running(Line([[]], []));
  }

  /** A pipe behind the only word does not start a second command. */
  lemma TrailingPipe(w: string)
    requires IsWord(w)
    ensures ParseLine(w + (" " + "|")) == Ok([[w]])
  {
    TokenFirst(w, " " + "|");
    SkipSeparator(' ', "|");
    TokensOfOne("|");
    var ts := [w, "|"];
    assert Tokens(w + (" " + "|")) == ts && ts[..1] == [w] && [w][..0] == [];
    FeedLast(Start, ts);
    FeedLast(Start, [w]);
    assert [] + [w] == [w] && [] + [[w]] == [[w]];
  }

  // ---------- Separators ----------

  /** Tabs and newlines as blanks. */
  function Blanked(s: string): (r: string)
    ensures |r| == |s| && forall i :: 0 <= i < |s| ==> r[i] == if s[i] == '\t' || s[i] == '\n' then ' ' else s[i]
  {
    if s == "" then "" else [if s[0] == '\t' || s[0] == '\n' then ' ' else s[0]] + Blanked(s[1..])
  }

  lemma {:induction false} BlankedTail(s: string, k: nat)
    requires k <= |s|
    ensures Blanked(s)[k..] == Blanked(s[k..])
  {
    assert Blanked(s)[k..] == Blanked(s[k..]);
  }

  lemma {:induction false} BlankedLength(s: string)
    ensures TokenLength(Blanked(s)) == TokenLength(s)
  {
    if s != "" && !IsSeparator(s[0]) { BlankedLength(s[1..]); }
  }

  /** It makes no difference which of blank, tab and newline stands between two words. */
  lemma {:induction false} BlanksAreAlike(s: string)
    ensures Tokens(Blanked(s)) == Tokens(s) && ParseLine(Blanked(s)) == ParseLine(s)
    decreases |s|
  {
    if s != "" {
      if IsSeparator(s[0]) {
        BlankedTail(s, 1);
        BlanksAreAlike(s[1..]);
      } else {
        var k := TokenLength(s);
        BlankedLength(s);
        BlankedTail(s, k);
        BlanksAreAlike(s[k..]);
        assert Blanked(s)[..k] == s[..k];
      }
    }
  }

  /** Of the white space of isspace, vertical tab, form feed and carriage return do not separate words. */
  lemma SeparatorsAmongSpace(c: char)
    ensures IsSeparator(c) <==> IsSpace(c) && c != 11 as char && c != 12 as char && c != '\r'
  {}
}
