/**
 Unified diffs as text, and the patch that reads them: what save_diff and restore_file_to_sample call
 the external programs for.  Which hunks diff prints for two files is left to it; patch reads each
 hunk by the two line counts in its header.
 */
module LineDiff {
  import opened CText
  import opened Runs
  import opened MetadataFilter

  datatype Edit = Keep(line: string) | Remove(line: string) | Add(line: string) {
    /** The line is one of the old file. */
    predicate Old() { !Add? }

    /** The line is one of the new file. */
    predicate New() { !Remove? }
  }

  /** Edits behind the first `before` lines of the old file and `targetBefore` of the new one. */
  datatype Hunk = Hunk(before: nat, targetBefore: nat, edits: seq<Edit>)

  datatype Labels = Labels(base: string, target: string)

  datatype Output = Output(labels: Labels, hunks: seq<Hunk>)

  const MARKER := "\\ No newline at end of file\n"

  // ---------- Lines ----------

  function FirstLine(s: string): (n: nat)
    ensures n <= |s| && (s != "" ==> 0 < n)
    ensures forall i :: 0 <= i < n - 1 ==> s[i] != '\n'
    ensures n < |s| ==> 0 < n && s[n - 1] == '\n'
  {
    var k := LineLength(s);
    if k < |s| then k + 1 else k
  }

  /** The lines of a text with their newlines; only the last may lack one. */
  function Lines(s: string): (ls: seq<string>)
    ensures forall i :: 0 <= i < |ls| ==> IsText(ls[i])
    decreases |s|
  {
    if s == "" then [] else [s[..FirstLine(s)]] + Lines(s[FirstLine(s)..])
  }

  predicate IsText(l: string) { l != "" && forall i :: 0 <= i < |l| - 1 ==> l[i] != '\n' }

  lemma FirstOfLines(s: string)
    requires s != ""
    ensures var ls := Lines(s); ls[0] == s[..FirstLine(s)] && ls[1..] == Lines(s[FirstLine(s)..])
  {
    var first, rest := s[..FirstLine(s)], Lines(s[FirstLine(s)..]);
    assert Lines(s) == [first] + rest && ([first] + rest)[1..] == rest;
  }

  lemma {:induction false} JoinLines(s: string)
    ensures Join(Lines(s)) == s
    decreases |s|
  {
    if s != "" {
      var n := FirstLine(s);
      JoinLines(s[n..]);
      FirstOfLines(s);
      assert s[..n] + s[n..] == s;
    }
  }

  // ---------- Applying a script ----------

  function OldCount(es: seq<Edit>): nat {
    if es == [] then 0 else (if es[0].Old() then 1 else 0) + OldCount(es[1..])
  }

  function NewCount(es: seq<Edit>): nat {
    if es == [] then 0 else (if es[0].New() then 1 else 0) + NewCount(es[1..])
  }

  /** New lines, and the old lines that are left. */
  datatype Applied = Applied(made: seq<string>, left: seq<string>)

  /** None when the edits do not fit the old lines. */
  function ApplyEdits(lines: seq<string>, es: seq<Edit>): Option<Applied>
    decreases |es|
  {
    if es == [] then Some(Applied([], lines))
    else if !es[0].Add? && (lines == [] || lines[0] != es[0].line) then None
    else
      var r := ApplyEdits(if es[0].Add? then lines else lines[1..], es[1..]);
      if r.None? then None
      else Some(Applied(if es[0].Remove? then r.value.made else [es[0].line] + r.value.made, r.value.left))
  }

  /** The hunks applied to the lines of the old file from line `at` on. */
  function ApplyHunks(lines: seq<string>, at: nat, hs: seq<Hunk>): Option<seq<string>>
    decreases |hs|
  {
    if hs == [] then Some(lines)
    else if hs[0].before < at || hs[0].before - at > |lines| then None
    else
      var skip := hs[0].before - at;
      var r := ApplyEdits(lines[skip..], hs[0].edits);
      if r.None? then None
      else
        var more := ApplyHunks(r.value.left, hs[0].before + OldCount(hs[0].edits), hs[1..]);
        if more.None? then None else Some(lines[..skip] + r.value.made + more.value)
  }

  predicate AllText(hs: seq<Hunk>) {
    forall i, j :: 0 <= i < |hs| && 0 <= j < |hs[i].edits| ==> IsText(hs[i].edits[j].line)
  }

  /** What diff promises of the hunks it prints for two different files. */
  predicate Describes(hs: seq<Hunk>, base: string, target: string) {
    AllText(hs) && ApplyHunks(Lines(base), 0, hs) == Some(Lines(target))
  }

  // ---------- The text of a diff ----------

  function Tag(e: Edit): char { match e case Keep(_) => ' ' case Remove(_) => '-' case Add(_) => '+' }

  predicate Terminated(l: string) { l != "" && l[|l| - 1] == '\n' }

  /** The line of an edit in a diff, always with a newline. */
  function TaggedLine(e: Edit): string { [Tag(e)] + e.line + if Terminated(e.line) then "" else "\n" }

  function Render(e: Edit): string { TaggedLine(e) + if Terminated(e.line) then "" else MARKER }

  function RenderAll(es: seq<Edit>): string { if es == [] then "" else Render(es[0]) + RenderAll(es[1..]) }

  /** Line numbers count from 1; an empty range names the line before it, a count of 1 is left out. */
  function Range(before: nat, count: nat): string {
    if count == 0 then Decimal(before) + ",0"
    else if count == 1 then Decimal(before + 1)
    else Decimal(before + 1) + ("," + Decimal(count))
  }

  function HunkLine(h: Hunk): string {
    "@@ -" + (Range(h.before, OldCount(h.edits)) + (" +" + (Range(h.targetBefore, NewCount(h.edits)) + " @@\n")))
  }

  function RenderHunks(hs: seq<Hunk>): string {
    if hs == [] then "" else HunkLine(hs[0]) + (RenderAll(hs[0].edits) + RenderHunks(hs[1..]))
  }

  function WithLabels(labels: Labels, text: string): string {
    ("--- " + labels.base + "\n") + (("+++ " + labels.target + "\n") + text)
  }

  /** diff -u: nothing for equal files. */
  function DiffText(d: Output, base: string, target: string): string {
    if base == target then "" else WithLabels(d.labels, RenderHunks(d.hunks))
  }

  // ---------- Reading a diff ----------

  datatype Span = Span(before: nat, count: nat)

  datatype Parsed<T> = Parsed(value: T, rest: string)

  function ParseRange(s: string): (r: Option<Parsed<Span>>)
    ensures r.Some? ==> |r.value.rest| < |s|
  {
    var k := DigitRun(s);
    if k == 0 then None
    else if k < |s| && s[k] == ',' then
      var j := DigitRun(s[k + 1..]);
      if j == 0 then None else FromOne(Value(s[..k]), Value(s[k + 1..][..j]), s[k + 1..][j..])
    else FromOne(Value(s[..k]), 1, s[k..])
  }

  function FromOne(line: nat, count: nat, rest: string): Option<Parsed<Span>> {
    if count == 0 then Some(Parsed(Span(line, 0), rest))
    else if line == 0 then None
    else Some(Parsed(Span(line - 1, count), rest))
  }

  datatype Header = Header(base: Span, target: Span)

  function ParseHeader(s: string): (r: Option<Parsed<Header>>)
    ensures r.Some? ==> |r.value.rest| < |s|
  {
    if !("@@ -" <= s) then None
    else
      var a := ParseRange(s[4..]);
      if a.None? || !(" +" <= a.value.rest) then None
      else
        var b := ParseRange(a.value.rest[2..]);
        if b.None? || !(" @@\n" <= b.value.rest) then None
        else Some(Parsed(Header(a.value.value, b.value.value), b.value.rest[4..]))
  }

  function Tagged(tag: char, line: string): Edit {
    if tag == ' ' then Keep(line) else if tag == '-' then Remove(line) else Add(line)
  }

  /** A line of a diff below its labels. */
  datatype Item = EditItem(edit: Edit) | HeaderItem(header: Header) | Other

  /** The first line of s; a marker behind an edit belongs to it. */
  function FirstItem(s: string): (r: Parsed<Item>)
    requires s != ""
    ensures |r.rest| < |s|
  {
    var n := FirstLine(s);
    if s[n - 1] != '\n' then Parsed(Other, s[n..])
    else if s[0] !in " -+" then Parsed(LineItem(ParseHeader(s[..n])), s[n..])
    else if MARKER <= s[n..] then Parsed(EditItem(Tagged(s[0], s[1..n - 1])), s[n..][|MARKER|..])
    else Parsed(EditItem(Tagged(s[0], s[1..n])), s[n..])
  }

  function LineItem(h: Option<Parsed<Header>>): Item {
    if h.Some? && h.value.rest == "" then HeaderItem(h.value.value) else Other
  }

  function Items(s: string): seq<Item>
    decreases |s|
  {
    if s == "" then [] else [FirstItem(s).value] + Items(FirstItem(s).rest)
  }

  datatype Read = Read(edits: seq<Edit>, left: seq<Item>)

  /** Edits for n old and m new lines; an item that is none of them makes the patch malformed. */
  function ReadEdits(items: seq<Item>, n: nat, m: nat): (r: Option<Read>)
    ensures r.Some? ==> |r.value.left| <= |items|
  {
    if n == 0 && m == 0 then Some(Read([], items))
    else if items == [] || !items[0].EditItem? then None
    else
      var e := items[0].edit;
      if (e.Old() && n == 0) || (e.New() && m == 0) then None
      else
        var r := ReadEdits(items[1..], if e.Old() then n - 1 else n, if e.New() then m - 1 else m);
        if r.None? then None else Some(Read([e] + r.value.edits, r.value.left))
  }

  function ReadHunks(items: seq<Item>): Option<seq<Hunk>>
    decreases |items|
  {
    if items == [] then Some([])
    else if !items[0].HeaderItem? then None
    else
      var h := items[0].header;
      var es := ReadEdits(items[1..], h.base.count, h.target.count);
      if es.None? then None
      else
        var more := ReadHunks(es.value.left);
        if more.None? then None else Some([Hunk(h.base.before, h.target.before, es.value.edits)] + more.value)
  }

  /** patch: the changed file, or None when the diff is malformed or does not fit. */
  function Patch(base: string, text: string): Option<string> {
    if text == "" then Some(base)
    else
      var second := text[FirstLine(text)..];
      if !("--- " <= text && "+++ " <= second) then None
      else
        var hs := ReadHunks(Items(second[FirstLine(second)..]));
        if hs.None? || hs.value == [] then None
        else
          var r := ApplyHunks(Lines(base), 0, hs.value);
          if r.None? then None else Some(Join(r.value))
  }
}
