/** A saved diff on its way back through the metadata filter. */
module DiffFilter {
  import opened CText
  import opened Runs
  import opened Sequences
  import opened MetadataFilter
  import opened LineDiff
  import opened LineDiffProofs

  // ---------- The metadata filter on a diff ----------

  /** A removed line "--", whose line in the diff is "---". */
  predicate IsDashes(e: Edit) { e.Remove? && (e.line == "--\n" || e.line == "--") }

  predicate LinesFit(es: seq<Edit>) {
    forall i :: 0 <= i < |es| ==> IsText(es[i].line) && |es[i].line| <= LINE_BUFFER - 3
  }

  /** Every line of the diff fits the line buffer. */
  predicate HunksFit(hs: seq<Hunk>) {
    forall i :: 0 <= i < |hs| ==> LinesFit(hs[i].edits) && |HunkLine(hs[i])| < LINE_BUFFER
  }

  function Stripped(es: seq<Edit>): string {
    if es == [] then ""
    else (if IsDashes(es[0]) then Render(es[0])[|TaggedLine(es[0])|..] else Render(es[0])) + Stripped(es[1..])
  }

  function StrippedHunks(hs: seq<Hunk>): string {
    if hs == [] then "" else HunkLine(hs[0]) + (Stripped(hs[0].edits) + StrippedHunks(hs[1..]))
  }

  function Dashes(es: seq<Edit>): nat {
    if es == [] then 0 else (if IsDashes(es[0]) then 1 else 0) + Dashes(es[1..])
  }

  predicate NoDashes(hs: seq<Hunk>) { forall i :: 0 <= i < |hs| ==> Dashes(hs[i].edits) == 0 }

  lemma DashesAreMetadata(e: Edit)
    requires IsText(e.line)
    ensures Keeps(TaggedLine(e)) <==> !IsDashes(e)
  {
    var l := TaggedLine(e);
    TaggedIsText(e);
    if "---\n" <= l {
      assert l[0] == '-' && l[1] == '-' && l[2] == '-' && l[3] == '\n';
      assert |l| == 4;
      if Terminated(e.line) { assert e.line == l[1..] == "--\n"; } else { assert e.line == l[1..3] == "--"; }
    }
    if IsDashes(e) { assert l == "---\n"; }
  }

  lemma StripTagged(e: Edit, rest: string)
    requires IsText(e.line) && |e.line| <= LINE_BUFFER - 3
    ensures Strip(TaggedLine(e) + rest) == (if IsDashes(e) then "" else TaggedLine(e)) + Strip(rest)
  {
    TaggedIsText(e);
    DashesAreMetadata(e);
    LineIsPiece(TaggedLine(e), rest);
    assert "" + Strip(rest) == Strip(rest);
  }

  lemma StripMarker(rest: string)
    ensures Strip(MARKER + rest) == MARKER + Strip(rest)
  {
    LineIsPiece(MARKER, rest);
  }

  lemma StripEdit(e: Edit, rest: string)
    requires IsText(e.line) && |e.line| <= LINE_BUFFER - 3
    ensures Strip(Render(e) + rest) == (if IsDashes(e) then Render(e)[|TaggedLine(e)|..] else Render(e)) + Strip(rest)
  {
    var l, marker := TaggedLine(e), if Terminated(e.line) then "" else MARKER;
    assert Render(e)[|l|..] == marker;
    Assoc(l, marker, rest);
    StripTagged(e, marker + rest);
    if Terminated(e.line) {
      assert marker + rest == rest && marker + Strip(rest) == Strip(rest);
    } else {
      StripMarker(rest);
    }
    assert "" + (marker + Strip(rest)) == marker + Strip(rest);
    Assoc(l, marker, Strip(rest));
  }

  lemma {:induction false} StripEdits(es: seq<Edit>, rest: string)
    requires LinesFit(es)
    ensures Strip(RenderAll(es) + rest) == Stripped(es) + Strip(rest)
  {
    if es == [] {
      assert RenderAll(es) + rest == rest && Stripped(es) + Strip(rest) == Strip(rest);
    } else {
      var tail := RenderAll(es[1..]);
      StripEdits(es[1..], rest);
      Assoc(Render(es[0]), tail, rest);
      StripEdit(es[0], tail + rest);
      var front := if IsDashes(es[0]) then Render(es[0])[|TaggedLine(es[0])|..] else Render(es[0]);
      Assoc(front, Stripped(es[1..]), Strip(rest));
    }
  }

  lemma KeepHunkLine(h: Hunk, rest: string)
    requires |HunkLine(h)| < LINE_BUFFER
    ensures Strip(HunkLine(h) + rest) == HunkLine(h) + Strip(rest)
  {
    HunkLineIsText(h);
    LineIsPiece(HunkLine(h), rest);
  }

  lemma {:induction false} StripHunks(hs: seq<Hunk>)
    requires HunksFit(hs)
    ensures Strip(RenderHunks(hs)) == StrippedHunks(hs)
  {
    if hs != [] {
      var h, rest := hs[0], RenderHunks(hs[1..]);
      StripHunks(hs[1..]);
      StripEdits(h.edits, rest);
      KeepHunkLine(h, RenderAll(h.edits) + rest);
    }
  }

  lemma KeepLabel(title: string, text: string, rest: string)
    requires |title| == 4 && title[3] == ' ' && title[0] != '#' && |text| <= 4000 && '\n' !in title && '\n' !in text
    ensures Strip(title + text + "\n" + rest) == title + text + "\n" + Strip(rest)
  {
    var l := title + text + "\n";
    assert l[3] == ' ' && l[0] == title[0];
    LineIsPiece(l, rest);
  }

  lemma StripLabels(labels: Labels, text: string)
    requires LabelsFit(labels)
    ensures Strip(WithLabels(labels, text)) == WithLabels(labels, Strip(text))
  {
    KeepLabel("+++ ", labels.target, text);
    KeepLabel("--- ", labels.base, "+++ " + labels.target + "\n" + text);
  }

  // ---------- A dropped line makes the patch malformed ----------

  /** How many lines begin with ' ' or '-', up to a line that belongs to no hunk. */
  function OldRun(s: string): nat
    decreases |s|
  {
    if s == "" || s[0] !in " -+\\" then 0
    else (if s[0] == ' ' || s[0] == '-' then 1 else 0) + OldRun(s[FirstLine(s)..])
  }

  lemma OldRunFront(l: string, rest: string)
    requires Terminated(l) && IsText(l) && l[0] in " -+\\"
    ensures OldRun(l + rest) == (if l[0] == ' ' || l[0] == '-' then 1 else 0) + OldRun(rest)
  {
    FirstLineOf(l, rest);
  }

  lemma OldRunSkip(s: string, l: string)
    requires Terminated(l) && IsText(l) && l[0] == '\\' && l <= s
    ensures OldRun(s) == OldRun(s[|l|..])
  {
    assert s == l + s[|l|..];
    OldRunFront(l, s[|l|..]);
  }

  lemma OldRunMarker(s: string)
    requires MARKER <= s
    ensures OldRun(s) == OldRun(s[|MARKER|..])
  {
    OldRunSkip(s, MARKER);
  }

  function ItemRun(items: seq<Item>): nat {
    if items == [] || !items[0].EditItem? then 0 else (if items[0].edit.Old() then 1 else 0) + ItemRun(items[1..])
  }

  /** An edit at the front of s counts for its line. */
  lemma OldRunOfItem(s: string)
    requires s != "" && FirstItem(s).value.EditItem?
    ensures OldRun(s) == (if FirstItem(s).value.edit.Old() then 1 else 0) + OldRun(FirstItem(s).rest)
  {
    var k := FirstLine(s);
    if MARKER <= s[k..] { OldRunMarker(s[k..]); }
  }

  lemma {:induction false} RunOfItems(s: string)
    ensures ItemRun(Items(s)) <= OldRun(s)
    decreases |s|
  {
    if s != "" && FirstItem(s).value.EditItem? {
      RunOfItems(FirstItem(s).rest);
      OldRunOfItem(s);
      assert Items(s)[1..] == Items(FirstItem(s).rest);
    }
  }

  /** A hunk cannot take more old lines than there are. */
  lemma {:induction false} EnoughOldLines(items: seq<Item>, n: nat, m: nat)
    requires ReadEdits(items, n, m).Some?
    ensures n <= ItemRun(items)
    decreases |items|
  {
    if n != 0 || m != 0 {
      var e := items[0].edit;
      EnoughOldLines(items[1..], if e.Old() then n - 1 else n, if e.New() then m - 1 else m);
    }
  }

  lemma {:induction false} StrippedOldRun(es: seq<Edit>, rest: string)
    requires LinesFit(es) && EndsHunk(rest)
    ensures OldRun(Stripped(es) + rest) + Dashes(es) == OldCount(es)
    ensures Dashes(es) == 0 ==> Stripped(es) == RenderAll(es)
  {
    if es == [] {
      assert Stripped(es) + rest == rest;
    } else {
      var e, tail := es[0], Stripped(es[1..]) + rest;
      StrippedOldRun(es[1..], rest);
      var front := if IsDashes(e) then Render(e)[|TaggedLine(e)|..] else Render(e);
      Assoc(front, Stripped(es[1..]), rest);
      OldRunOfEdit(e, tail);
    }
  }

  lemma OldRunOfEdit(e: Edit, tail: string)
    requires IsText(e.line)
    ensures OldRun((if IsDashes(e) then Render(e)[|TaggedLine(e)|..] else Render(e)) + tail) ==
            (if IsDashes(e) || e.Add? then 0 else 1) + OldRun(tail)
  {
    var l, marker := TaggedLine(e), if Terminated(e.line) then "" else MARKER;
    TaggedIsText(e);
    assert Render(e)[|l|..] == marker;
    if Terminated(e.line) {
      assert marker + tail == tail;
    } else {
      MarkerFirst(tail);
      OldRunMarker(MARKER + tail);
    }
    if !IsDashes(e) {
      Assoc(l, marker, tail);
      OldRunFront(l, marker + tail);
    }
  }

  lemma StrippedHunksEnd(hs: seq<Hunk>)
    ensures EndsHunk(StrippedHunks(hs))
  {
    if hs != [] { HunkLineIsText(hs[0]); }
  }

  lemma DashesSplit(hs: seq<Hunk>)
    requires hs != []
    ensures NoDashes(hs) <==> Dashes(hs[0].edits) == 0 && NoDashes(hs[1..])
  {
    assert forall i :: 0 < i < |hs| ==> hs[i] == hs[1..][i - 1];
  }

  /** A hunk that has lost a line ends the reading. */
  lemma DirtyHunk(h: Hunk, rest: string)
    requires LinesFit(h.edits) && EndsHunk(rest) && 0 < Dashes(h.edits)
    ensures ReadHunks(Items(HunkLine(h) + (Stripped(h.edits) + rest))).None?
  {
    var text, n, m := Stripped(h.edits) + rest, OldCount(h.edits), NewCount(h.edits);
    FirstHeaderBack(h, text);
    StrippedOldRun(h.edits, rest);
    RunOfItems(text);
    var items := Items(HunkLine(h) + text);
    assert items[1..] == Items(text);
    if ReadEdits(Items(text), n, m).Some? { EnoughOldLines(Items(text), n, m); }
  }

  lemma CleanHunk(h: Hunk, rest: string)
    requires LinesFit(h.edits) && EndsHunk(rest) && Dashes(h.edits) == 0
    ensures Stripped(h.edits) == RenderAll(h.edits)
    ensures ReadHunks(Items(rest)).None? ==> ReadHunks(Items(HunkLine(h) + (Stripped(h.edits) + rest))).None?
  {
    var text := RenderAll(h.edits) + rest;
    StrippedOldRun(h.edits, rest);
    FirstHeaderBack(h, text);
    ItemsOfEdits(h.edits, rest);
    EditsBack(h.edits, Items(rest));
    assert Items(HunkLine(h) + text)[1..] == Items(text);
  }

  lemma {:induction false} StrippedIsMalformed(hs: seq<Hunk>)
    requires HunksFit(hs)
    ensures NoDashes(hs) ==> StrippedHunks(hs) == RenderHunks(hs)
    ensures !NoDashes(hs) ==> ReadHunks(Items(StrippedHunks(hs))).None?
  {
    if hs != [] {
      StrippedIsMalformed(hs[1..]);
      StrippedHunksEnd(hs[1..]);
      DashesSplit(hs);
      if Dashes(hs[0].edits) == 0 {
        CleanHunk(hs[0], StrippedHunks(hs[1..]));
      } else {
        DirtyHunk(hs[0], StrippedHunks(hs[1..]));
      }
    }
  }

  /** The output of diff and its labels, line by line, fit the buffers. */
  predicate OutputFits(d: Output) { LabelsFit(d.labels) && HunksFit(d.hunks) }

  /**
   Whatever hunks diff chooses: a diff saved with its metadata restores the file if and only if no line of
   it is "---", that is, if it removes no line "--"; otherwise the filter drops that line and the patch is
   malformed.
   */
  lemma RestoreIffNoDashes(m: Metadata, d: Output, base: string, target: string)
    requires Fits(m) && (base != target ==> Describes(d.hunks, base, target) && OutputFits(d))
    ensures Patch(base, Strip(WithMetadata(m, DiffText(d, base, target)))) ==
            if base == target || NoDashes(d.hunks) then Some(target) else None
  {
    StripDropsMetadata(m, DiffText(d, base, target));
    if base != target {
      StripLabels(d.labels, RenderHunks(d.hunks));
      StripHunks(d.hunks);
      StrippedIsMalformed(d.hunks);
      if NoDashes(d.hunks) {
        PatchUndoesDiff(d, base, target);
      } else {
        PatchBehindLabels(base, d.labels, StrippedHunks(d.hunks));
      }
    }
  }

  /** The condition is the guard of the filter: no piece of the saved diff looks like metadata. */
  lemma NoDashesIffClean(d: Output, base: string, target: string)
    requires base != target && OutputFits(d)
    ensures Clean(DiffText(d, base, target)) <==> NoDashes(d.hunks)
  {
    var text := RenderHunks(d.hunks);
    StripLabels(d.labels, text);
    StripHunks(d.hunks);
    StrippedIsMalformed(d.hunks);
    StripIsIdentityIffClean(WithLabels(d.labels, text));
    HunksTextFit(d.hunks);
    ItemsOfHunks(d.hunks);
    HunksBack(d.hunks);
    if Strip(WithLabels(d.labels, text)) == WithLabels(d.labels, text) {
      LabelsSame(d.labels, StrippedHunks(d.hunks), text);
    }
  }

  lemma HunksTextFit(hs: seq<Hunk>)
    requires HunksFit(hs)
    ensures AllText(hs)
  {
    forall i, j | 0 <= i < |hs| && 0 <= j < |hs[i].edits| ensures IsText(hs[i].edits[j].line) {
      assert LinesFit(hs[i].edits);
    }
  }

  lemma LabelsSame(labels: Labels, a: string, b: string)
    requires WithLabels(labels, a) == WithLabels(labels, b)
    ensures a == b
  {
    var x, y := "--- " + labels.base + "\n", "+++ " + labels.target + "\n";
    assert WithLabels(labels, a)[|x|..][|y|..] == a && WithLabels(labels, b)[|x|..][|y|..] == b;
  }

  /** Without any limit on the lines: a diff that passes the filter unchanged restores the file. */
  lemma CleanDiffRestores(m: Metadata, d: Output, base: string, target: string)
    requires Fits(m) && (base != target ==> Describes(d.hunks, base, target) && LabelsFit(d.labels))
    requires Clean(DiffText(d, base, target))
    ensures Patch(base, Strip(WithMetadata(m, DiffText(d, base, target)))) == Some(target)
  {
    StripUndoesMetadata(m, DiffText(d, base, target));
    PatchUndoesDiff(d, base, target);
  }

  const DASHES := "--\n"

  function Removal(): Output { Output(Labels("", ""), [Hunk(0, 0, [Remove(DASHES)])]) }

  /** Emptying a file whose only line is "--" cannot be undone by restore. */
  lemma RemovedDashesAreLost(m: Metadata)
    requires Fits(m)
    ensures Describes(Removal().hunks, DASHES, "")
    ensures Patch(DASHES, Strip(WithMetadata(m, DiffText(Removal(), DASHES, "")))) == None
  {
    var e := Remove(DASHES);
    LinesOf(DASHES, "");
    assert DASHES + "" == DASHES && Lines("") == [];
    assert [e][1..] == [] && [DASHES][1..] == [];
    OneHunkDescribes([e], DASHES, "");
    HunkFits(0, 0, [e]);
    assert Dashes([e]) == 1 + Dashes([]);
    assert !NoDashes(Removal().hunks) by { assert Removal().hunks[0].edits == [e]; }
    RestoreIffNoDashes(m, Removal(), DASHES, "");
  }

  lemma {:induction false} DecimalShort(n: nat)
    requires n < 1000
    ensures |Decimal(n)| <= 3
  {
    ThousandTimes(0);
    DecimalLength(n, 3);
  }

  lemma HunkFits(before: nat, targetBefore: nat, es: seq<Edit>)
    requires before < 900 && targetBefore < 900 && OldCount(es) < 1000 && NewCount(es) < 1000
    ensures |HunkLine(Hunk(before, targetBefore, es))| < LINE_BUFFER
  {
    DecimalShort(before);
    DecimalShort(before + 1);
    DecimalShort(targetBefore);
    DecimalShort(targetBefore + 1);
    DecimalShort(OldCount(es));
    DecimalShort(NewCount(es));
  }

  lemma ApplyOne(e: Edit, es: seq<Edit>, lines: seq<string>, made: seq<string>)
    requires ApplyEdits(lines, es) == Some(Applied(made, []))
    ensures ApplyEdits(if e.Old() then [e.line] + lines else lines, [e] + es) ==
            Some(Applied(if e.New() then [e.line] + made else made, []))
  {
    assert ([e] + es)[1..] == es && ([e.line] + lines)[1..] == lines;
  }

  lemma FirstMoves(x: string, y: string)
    ensures ApplyEdits([x, y], [Remove(x), Keep(y), Add(x)]) == Some(Applied([y, x], []))
  {
    ApplyOne(Add(x), [], [], []);
    assert [Add(x)] + [] == [Add(x)] && [x] + [] == [x];
    ApplyOne(Keep(y), [Add(x)], [], [x]);
    assert [y] + [] == [y] && [Keep(y)] + [Add(x)] == [Keep(y), Add(x)] && [y] + [x] == [y, x];
    ApplyOne(Remove(x), [Keep(y), Add(x)], [y], [y, x]);
    assert [x] + [y] == [x, y] && [Remove(x)] + [Keep(y), Add(x)] == [Remove(x), Keep(y), Add(x)];
  }

  lemma SecondMoves(x: string, y: string)
    ensures ApplyEdits([x, y], [Add(y), Keep(x), Remove(y)]) == Some(Applied([y, x], []))
  {
    ApplyOne(Remove(y), [], [], []);
    assert [Remove(y)] + [] == [Remove(y)] && [y] + [] == [y];
    ApplyOne(Keep(x), [Remove(y)], [y], []);
    assert [x] + [y] == [x, y] && [Keep(x)] + [Remove(y)] == [Keep(x), Remove(y)] && [x] + [] == [x];
    ApplyOne(Add(y), [Keep(x), Remove(y)], [x, y], [x]);
    assert [y] + [x] == [y, x] && [Add(y)] + [Keep(x), Remove(y)] == [Add(y), Keep(x), Remove(y)];
  }

  lemma TwoLines(l: string, k: string)
    requires Terminated(l) && IsText(l) && Terminated(k) && IsText(k)
    ensures Lines(l + k) == [l, k]
  {
    LinesOf(l, k);
    LinesOf(k, "");
    assert k + "" == k && Lines("") == [] && [k] + [] == [k] && [l] + [k] == [l, k];
  }

  lemma DashesOfThree(a: Edit, b: Edit, c: Edit)
    ensures Dashes([a, b, c]) ==
            (if IsDashes(a) then 1 else 0) + (if IsDashes(b) then 1 else 0) + (if IsDashes(c) then 1 else 0)
  {
    assert [a, b, c][1..] == [b, c] && [b, c][1..] == [c] && [c][1..] == [];
    assert Dashes([c]) == if IsDashes(c) then 1 else 0;
    assert Dashes([b, c]) == (if IsDashes(b) then 1 else 0) + Dashes([c]);
  }

  /**
   Two scripts can describe one change and only one of them remove a line "--": whether a file that has
   such a line can be restored depends on the script that diff prints.
   */
  lemma ScriptsDiffer(l: string) returns (clean: seq<Hunk>, dirty: seq<Hunk>)
    requires Terminated(l) && IsText(l) && l != DASHES
    ensures Describes(clean, l + DASHES, DASHES + l) && NoDashes(clean)
    ensures Describes(dirty, l + DASHES, DASHES + l) && !NoDashes(dirty)
  {
    TwoLines(l, DASHES);
    TwoLines(DASHES, l);
    var a, b := [Remove(l), Keep(DASHES), Add(l)], [Add(DASHES), Keep(l), Remove(DASHES)];
    FirstMoves(l, DASHES);
    SecondMoves(l, DASHES);
    OneHunkDescribes(a, l + DASHES, DASHES + l);
    OneHunkDescribes(b, l + DASHES, DASHES + l);
    DashesOfThree(Remove(l), Keep(DASHES), Add(l));
    DashesOfThree(Add(DASHES), Keep(l), Remove(DASHES));
    clean, dirty := [Hunk(0, 0, a)], [Hunk(0, 0, b)];
    assert dirty[0].edits == b;
  }
}
