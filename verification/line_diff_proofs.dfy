/** Patch reads back what diff prints, hunk by hunk. */
module LineDiffProofs {
  import opened CText
  import opened Runs
  import opened Sequences
  import opened MetadataFilter
  import opened LineDiff

  // ---------- Reading back ----------

  /** A line at the front of a text. */
  lemma FirstLineOf(l: string, rest: string)
    requires Terminated(l) && IsText(l)
    ensures FirstLine(l + rest) == |l| && LineLength(l + rest) == |l| - 1
    ensures (l + rest)[..|l|] == l && (l + rest)[|l|..] == rest
  {
    var front := l[..|l| - 1];
    assert l == front + "\n";
    LineOf(front, rest);
  }

  lemma RunOfDecimal(n: nat, rest: string)
    requires rest == "" || !IsDigit(rest[0])
    ensures var s := Decimal(n) + rest;
            DigitRun(s) == |Decimal(n)| && Value(s[..DigitRun(s)]) == n && s[DigitRun(s)..] == rest
  {
    var ds := Decimal(n);
    DigitRunBefore(ds, rest);
    assert (ds + rest)[..|ds|] == ds && (ds + rest)[|ds|..] == rest;
    ValueOfDecimal(n);
  }

  lemma PairBack(line: nat, count: nat, rest: string)
    requires rest != "" && rest[0] == ' '
    ensures ParseRange(Decimal(line) + ("," + (Decimal(count) + rest))) == FromOne(line, count, rest)
  {
    var tail := Decimal(count) + rest;
    RunOfDecimal(line, "," + tail);
    var s, k := Decimal(line) + ("," + tail), |Decimal(line)|;
    assert s[k] == ',' && s[k + 1..] == tail;
    RunOfDecimal(count, rest);
  }

  lemma RangeBack(before: nat, count: nat, rest: string)
    requires rest != "" && rest[0] == ' '
    ensures ParseRange(Range(before, count) + rest) == Some(Parsed(Span(before, count), rest))
  {
    if count == 1 {
      RunOfDecimal(before + 1, rest);
    } else {
      var line := if count == 0 then before else before + 1;
      PairBack(line, count, rest);
      assert Decimal(0) == "0";
      assert Range(before, count) == Decimal(line) + ("," + Decimal(count));
      Assoc(Decimal(line), "," + Decimal(count), rest);
      Assoc(",", Decimal(count), rest);
    }
  }

  lemma HeaderFrom(s: string, t: string, u: string, rest: string, base: Span, target: Span)
    requires s == "@@ -" + t && ParseRange(t) == Some(Parsed(base, " +" + u))
    requires ParseRange(u) == Some(Parsed(target, " @@\n" + rest))
    ensures ParseHeader(s) == Some(Parsed(Header(base, target), rest))
  {
    assert s[4..] == t && (" +" + u)[2..] == u && (" @@\n" + rest)[4..] == rest;
  }

  lemma HeaderParts(a: string, b: string, rest: string)
    ensures "@@ -" + (a + (" +" + (b + " @@\n"))) + rest == "@@ -" + (a + (" +" + (b + (" @@\n" + rest))))
  {
    Assoc("@@ -", a + (" +" + (b + " @@\n")), rest);
    Assoc(a, " +" + (b + " @@\n"), rest);
    Assoc(" +", b + " @@\n", rest);
    Assoc(b, " @@\n", rest);
  }

  function HeaderOf(h: Hunk): Header {
    Header(Span(h.before, OldCount(h.edits)), Span(h.targetBefore, NewCount(h.edits)))
  }

  lemma HeaderBack(h: Hunk)
    ensures ParseHeader(HunkLine(h)) == Some(Parsed(HeaderOf(h), ""))
  {
    var rest := "";
    assert HunkLine(h) + "" == HunkLine(h);
    var n, m := OldCount(h.edits), NewCount(h.edits);
    var u := Range(h.targetBefore, m) + (" @@\n" + rest);
    var t := Range(h.before, n) + (" +" + u);
    RangeBack(h.before, n, " +" + u);
    RangeBack(h.targetBefore, m, " @@\n" + rest);
    HeaderParts(Range(h.before, n), Range(h.targetBefore, m), rest);
    HeaderFrom(HunkLine(h) + rest, t, u, rest, Span(h.before, n), Span(h.targetBefore, m));
  }

  lemma TaggedIsText(e: Edit)
    requires IsText(e.line)
    ensures Terminated(TaggedLine(e)) && IsText(TaggedLine(e))
    ensures |TaggedLine(e)| == |e.line| + if Terminated(e.line) then 1 else 2
  {}

  lemma TaggedBack(e: Edit)
    requires IsText(e.line)
    ensures var l := TaggedLine(e);
            && l[0] in " -+" && Tagged(l[0], if Terminated(e.line) then l[1..] else l[1..|l| - 1]) == e
  {
    var l := TaggedLine(e);
    if Terminated(e.line) { assert l[1..] == e.line; } else { assert l[1..|l| - 1] == e.line; }
  }

  lemma MarkerFirst(rest: string)
    ensures MARKER <= MARKER + rest && (MARKER + rest)[|MARKER|..] == rest
  {}

  /** The first edit of a text is read as it was rendered. */
  lemma FirstEditBack(e: Edit, rest: string)
    requires IsText(e.line) && !(MARKER <= rest)
    ensures var s := Render(e) + rest;
            s != "" && FirstItem(s) == Parsed(EditItem(e), rest)
  {
    var l := TaggedLine(e);
    TaggedIsText(e);
    TaggedBack(e);
    if Terminated(e.line) {
      assert Render(e) == l;
      FirstLineOf(l, rest);
      assert (l + rest)[1..|l|] == l[1..];
    } else {
      UnterminatedBack(e, l, rest);
    }
  }

  lemma UnterminatedBack(e: Edit, l: string, rest: string)
    requires Terminated(l) && IsText(l) && l[0] in " -+"
    requires !Terminated(e.line) && l == TaggedLine(e) && Tagged(l[0], l[1..|l| - 1]) == e
    ensures var s := Render(e) + rest;
            s != "" && FirstItem(s) == Parsed(EditItem(e), rest)
  {
    var after := MARKER + rest;
    Assoc(l, MARKER, rest);
    FirstLineOf(l, after);
    MarkerFirst(rest);
    var s := l + after;
    assert s[1..|l| - 1] == l[1..|l| - 1];
  }

  lemma RangeHasNoNewline(before: nat, count: nat)
    ensures '\n' !in Range(before, count)
  {
    NoNewline(before);
    NoNewline(before + 1);
    NoNewline(count);
  }

  lemma HunkLineIsText(h: Hunk)
    ensures Terminated(HunkLine(h)) && IsText(HunkLine(h)) && HunkLine(h)[0] == '@'
  {
    RangeHasNoNewline(h.before, OldCount(h.edits));
    RangeHasNoNewline(h.targetBefore, NewCount(h.edits));
  }

  lemma FirstHeaderBack(h: Hunk, rest: string)
    ensures var s := HunkLine(h) + rest;
            s != "" && FirstItem(s) == Parsed(HeaderItem(HeaderOf(h)), rest)
  {
    HunkLineIsText(h);
    FirstLineOf(HunkLine(h), rest);
    HeaderBack(h);
  }

  predicate EndsHunk(rest: string) { rest == "" || rest[0] == '@' }

  lemma NoMarker(es: seq<Edit>, rest: string)
    requires EndsHunk(rest)
    ensures !(MARKER <= RenderAll(es) + rest)
  {
    var s := RenderAll(es) + rest;
    assert MARKER[0] == '\\';
    if es == [] { assert s == rest; } else { assert s[0] == Tag(es[0]); }
  }

  function EditItems(es: seq<Edit>): seq<Item> { if es == [] then [] else [EditItem(es[0])] + EditItems(es[1..]) }

  lemma {:induction false} ItemsOfEdits(es: seq<Edit>, rest: string)
    requires (forall i :: 0 <= i < |es| ==> IsText(es[i].line)) && EndsHunk(rest)
    ensures Items(RenderAll(es) + rest) == EditItems(es) + Items(rest)
  {
    if es == [] {
      assert RenderAll(es) + rest == rest;
    } else {
      var tail := RenderAll(es[1..]) + rest;
      ItemsOfEdits(es[1..], rest);
      NoMarker(es[1..], rest);
      Assoc(Render(es[0]), RenderAll(es[1..]), rest);
      FirstEditBack(es[0], tail);
      Assoc([EditItem(es[0])], EditItems(es[1..]), Items(rest));
    }
  }

  lemma HunksEnd(hs: seq<Hunk>)
    ensures EndsHunk(RenderHunks(hs))
  {
    if hs != [] { HunkLineIsText(hs[0]); }
  }

  function HunkItems(hs: seq<Hunk>): seq<Item> {
    if hs == [] then [] else [HeaderItem(HeaderOf(hs[0]))] + (EditItems(hs[0].edits) + HunkItems(hs[1..]))
  }

  lemma {:induction false} ItemsOfHunks(hs: seq<Hunk>)
    requires AllText(hs)
    ensures Items(RenderHunks(hs)) == HunkItems(hs)
  {
    if hs != [] {
      var rest := RenderHunks(hs[1..]);
      ItemsOfHunks(hs[1..]);
      HunksEnd(hs[1..]);
      FirstHeaderBack(hs[0], RenderAll(hs[0].edits) + rest);
      ItemsOfEdits(hs[0].edits, rest);
    }
  }

  lemma FirstEdit(es: seq<Edit>, rest: seq<Item>)
    requires es != []
    ensures var items := EditItems(es) + rest;
            items != [] && items[0] == EditItem(es[0]) && items[1..] == EditItems(es[1..]) + rest
  {
    Assoc([EditItem(es[0])], EditItems(es[1..]), rest);
    Behind(EditItem(es[0]), EditItems(es[1..]) + rest);
  }

  lemma Behind<T>(x: T, s: seq<T>)
    ensures ([x] + s)[0] == x && ([x] + s)[1..] == s
  {}

  lemma FirstRead(es: seq<Edit>, rest: seq<Item>)
    requires es != []
    ensures var r := ReadEdits(EditItems(es[1..]) + rest, OldCount(es[1..]), NewCount(es[1..]));
            ReadEdits(EditItems(es) + rest, OldCount(es), NewCount(es)) ==
            if r.None? then None else Some(Read([es[0]] + r.value.edits, r.value.left))
  {
    FirstEdit(es, rest);
  }

  lemma {:induction false} EditsBack(es: seq<Edit>, rest: seq<Item>)
    ensures ReadEdits(EditItems(es) + rest, OldCount(es), NewCount(es)) == Some(Read(es, rest))
  {
    if es == [] {
      assert EditItems(es) + rest == rest;
    } else {
      EditsBack(es[1..], rest);
      FirstRead(es, rest);
      assert [es[0]] + es[1..] == es;
    }
  }

  lemma {:induction false} HunksBack(hs: seq<Hunk>)
    ensures ReadHunks(HunkItems(hs)) == Some(hs)
  {
    if hs != [] {
      HunksBack(hs[1..]);
      EditsBack(hs[0].edits, HunkItems(hs[1..]));
      Behind(HeaderItem(HeaderOf(hs[0])), EditItems(hs[0].edits) + HunkItems(hs[1..]));
      FirstHunkBack(HunkItems(hs), hs[0], EditItems(hs[0].edits) + HunkItems(hs[1..]), HunkItems(hs[1..]), hs[1..]);
      assert [hs[0]] + hs[1..] == hs;
    }
  }

  lemma FirstHunkBack(items: seq<Item>, h: Hunk, below: seq<Item>, left: seq<Item>, more: seq<Hunk>)
    requires items != [] && items[0] == HeaderItem(HeaderOf(h)) && items[1..] == below
    requires ReadEdits(below, OldCount(h.edits), NewCount(h.edits)) == Some(Read(h.edits, left))
    requires ReadHunks(left) == Some(more)
    ensures ReadHunks(items) == Some([h] + more)
  {}

  /** The lines of a diff, as they stand in its text. */
  lemma UnifiedFormat()
    ensures Render(Keep("x\n")) == " x\n" && Render(Remove("y\n")) == "-y\n" && Render(Add("z\n")) == "+z\n"
    ensures Range(4, 2) == "5,2" && Range(4, 1) == "5" && Range(4, 0) == "4,0"
    ensures WithLabels(Labels("a", "b"), "") == "--- a\n+++ b\n"
  {
    assert Decimal(2) == "2" && Decimal(4) == "4" && Decimal(5) == "5";
  }

  // ---------- Patch undoes diff ----------

  predicate LabelsFit(labels: Labels) {
    |labels.base| <= 4000 && |labels.target| <= 4000 && '\n' !in labels.base && '\n' !in labels.target
  }

  lemma SkipLabel(title: string, text: string, rest: string)
    requires |title| == 4 && '\n' !in title && '\n' !in text
    ensures var s := title + text + "\n" + rest;
            title <= s && s != "" && s[FirstLine(s)..] == rest
  {
    FirstLineOf(title + text + "\n", rest);
  }

  lemma PatchBehindLabels(base: string, labels: Labels, text: string)
    requires LabelsFit(labels)
    ensures Patch(base, WithLabels(labels, text)) ==
            var hs := ReadHunks(Items(text));
            if hs.None? || hs.value == [] then None
            else
              var r := ApplyHunks(Lines(base), 0, hs.value);
              if r.None? then None else Some(Join(r.value))
  {
    SkipLabel("--- ", labels.base, "+++ " + labels.target + "\n" + text);
    SkipLabel("+++ ", labels.target, text);
  }

  /** Whatever hunks diff chooses, patch applied to its output turns the first file into the second. */
  lemma PatchUndoesDiff(d: Output, base: string, target: string)
    requires base != target ==> Describes(d.hunks, base, target) && LabelsFit(d.labels)
    ensures Patch(base, DiffText(d, base, target)) == Some(target)
  {
    if base != target {
      ItemsOfHunks(d.hunks);
      HunksBack(d.hunks);
      PatchBehindLabels(base, d.labels, RenderHunks(d.hunks));
      JoinLines(base);
      JoinLines(target);
    }
  }

  lemma LinesOf(l: string, rest: string)
    requires Terminated(l) && IsText(l)
    ensures Lines(l + rest) == [l] + Lines(rest)
  {
    FirstLineOf(l, rest);
  }

  /** One hunk that covers both files. */
  lemma OneHunkDescribes(es: seq<Edit>, base: string, target: string)
    requires (forall i :: 0 <= i < |es| ==> IsText(es[i].line))
    requires ApplyEdits(Lines(base), es) == Some(Applied(Lines(target), []))
    ensures Describes([Hunk(0, 0, es)], base, target)
  {
    var hs := [Hunk(0, 0, es)];
    assert Lines(base)[0..] == Lines(base) && hs[1..] == [];
    assert Lines(base)[..0] + Lines(target) + [] == Lines(target);
  }

  // ---------- There always is a script ----------

  function Replace(base: seq<string>, target: seq<string>): (es: seq<Edit>)
    decreases |base| + |target|
  {
    if base != [] then [Remove(base[0])] + Replace(base[1..], target)
    else if target != [] then [Add(target[0])] + Replace(base, target[1..])
    else []
  }

  lemma {:induction false} ReplaceApplies(base: seq<string>, target: seq<string>)
    requires forall i :: 0 <= i < |base| ==> IsText(base[i])
    requires forall i :: 0 <= i < |target| ==> IsText(target[i])
    ensures var es := Replace(base, target);
            (forall i :: 0 <= i < |es| ==> IsText(es[i].line)) && ApplyEdits(base, es) == Some(Applied(target, []))
    decreases |base| + |target|
  {
    var es := Replace(base, target);
    if base != [] {
      ReplaceApplies(base[1..], target);
      assert es[1..] == Replace(base[1..], target);
    } else if target != [] {
      ReplaceApplies(base, target[1..]);
      assert es[1..] == Replace(base, target[1..]);
      assert [target[0]] + target[1..] == target;
    }
  }

  /** Any two files have a script that describes the change. */
  lemma ScriptExists(base: string, target: string)
    ensures Describes([Hunk(0, 0, Replace(Lines(base), Lines(target)))], base, target)
  {
    ReplaceApplies(Lines(base), Lines(target));
    OneHunkDescribes(Replace(Lines(base), Lines(target)), base, target);
  }
}
