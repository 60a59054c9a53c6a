/** The metadata that save_diff puts in front of a diff, and the filter that restore puts it through. */
module MetadataFilter {
  import opened CText
  import opened Sequences

  const LINE_BUFFER := 4096

  // ---------- fgets ----------

  /** The length of what fgets takes: through the next newline, but no more than `limit`. */
  function PieceEnd(s: string, limit: nat): (n: nat)
    ensures n <= |s| && n <= limit && (s != "" && 0 < limit ==> 0 < n)
    ensures forall i :: 0 <= i < n - 1 ==> s[i] != '\n'
    ensures n < |s| && n < limit ==> 0 < n && s[n - 1] == '\n'
  {
    if s == "" || limit == 0 then 0 else if s[0] == '\n' then 1 else 1 + PieceEnd(s[1..], limit - 1)
  }

  /** What repeated fgets calls return. */
  function Pieces(s: string): (ps: seq<string>)
    ensures forall i :: 0 <= i < |ps| ==> ps[i] != ""
    decreases |s|
  {
    if s == "" then []
    else
      var n := PieceEnd(s, LINE_BUFFER - 1);
      [s[..n]] + Pieces(s[n..])
  }

  function Join(ps: seq<string>): string { if ps == [] then "" else ps[0] + Join(ps[1..]) }

  lemma {:induction false} JoinPieces(s: string)
    ensures Join(Pieces(s)) == s
    decreases |s|
  {
    if s != "" {
      var n := PieceEnd(s, LINE_BUFFER - 1);
      JoinPieces(s[n..]);
      assert Pieces(s)[0] == s[..n] && Pieces(s)[1..] == Pieces(s[n..]);
      assert s[..n] + s[n..] == s;
    }
  }

  // ---------- The filter ----------

  predicate Keeps(piece: string)
    requires piece != ""
  {
    piece[0] != '#' && !("---\n" <= piece)
  }

  function Filter(ps: seq<string>): (r: seq<string>)
    requires forall i :: 0 <= i < |ps| ==> ps[i] != ""
    ensures forall i :: 0 <= i < |r| ==> r[i] != ""
  {
    if ps == [] then [] else (if Keeps(ps[0]) then [ps[0]] else []) + Filter(ps[1..])
  }

  function Strip(s: string): string { Join(Filter(Pieces(s))) }

  predicate Clean(s: string) { forall i :: 0 <= i < |Pieces(s)| ==> Keeps(Pieces(s)[i]) }

  lemma {:induction false} FilterShortens(ps: seq<string>)
    requires forall i :: 0 <= i < |ps| ==> ps[i] != ""
    ensures |Join(Filter(ps))| <= |Join(ps)|
    ensures |Join(Filter(ps))| == |Join(ps)| <==> forall i :: 0 <= i < |ps| ==> Keeps(ps[i])
    ensures (forall i :: 0 <= i < |ps| ==> Keeps(ps[i])) ==> Filter(ps) == ps
  {
    if ps != [] {
      FilterShortens(ps[1..]);
      assert forall i :: 0 < i < |ps| ==> ps[i] == ps[1..][i - 1];
      if Keeps(ps[0]) {
        assert ([ps[0]] + Filter(ps[1..]))[1..] == Filter(ps[1..]);
      } else {
        assert [] + Filter(ps[1..]) == Filter(ps[1..]);
      }
    }
  }

  /** Filtering changes a text exactly when some piece of it looks like metadata. */
  lemma StripIsIdentityIffClean(s: string)
    ensures Strip(s) == s <==> Clean(s)
  {
    FilterShortens(Pieces(s));
    JoinPieces(s);
  }

  predicate IsLine(l: string) {
    l != "" && l[|l| - 1] == '\n' && |l| < LINE_BUFFER && forall i :: 0 <= i < |l| - 1 ==> l[i] != '\n'
  }

  lemma {:induction false} PieceEndOfLine(l: string, rest: string, limit: nat)
    requires l != "" && l[|l| - 1] == '\n' && |l| <= limit && forall i :: 0 <= i < |l| - 1 ==> l[i] != '\n'
    ensures PieceEnd(l + rest, limit) == |l|
    decreases |l|
  {
    if |l| == 1 {
      assert l[0] == '\n';
    } else {
      assert (l + rest)[1..] == l[1..] + rest;
      PieceEndOfLine(l[1..], rest, limit - 1);
    }
  }

  /** A line that fits the buffer is a piece of its own. */
  lemma LineIsPiece(l: string, rest: string)
    requires IsLine(l)
    ensures Pieces(l + rest) == [l] + Pieces(rest)
    ensures Strip(l + rest) == if Keeps(l) then l + Strip(rest) else Strip(rest)
  {
    PieceEndOfLine(l, rest, LINE_BUFFER - 1);
    assert (l + rest)[..|l|] == l && (l + rest)[|l|..] == rest;
    var ps := [l] + Pieces(rest);
    assert ps[0] == l && ps[1..] == Pieces(rest);
    if Keeps(l) {
      assert ([l] + Filter(Pieces(rest)))[1..] == Filter(Pieces(rest));
    } else {
      assert [] + Filter(Pieces(rest)) == Filter(Pieces(rest));
    }
  }

  lemma {:induction false} LongPiece(front: string, rest: string, limit: nat)
    requires |front| == limit && '\n' !in front
    ensures PieceEnd(front + rest, limit) == limit
    decreases limit
  {
    if 0 < limit {
      assert (front + rest)[1..] == front[1..] + rest;
      LongPiece(front[1..], rest, limit - 1);
    }
  }

  /**
   A line of more than 4095 characters reaches the filter in pieces: what follows the first 4095 is judged as
   if it were a line of its own, so a line with "---" there loses it, together with its newline.
   */
  lemma LongLinesAreBroken(front: string, rest: string)
    requires |front| == 4095 && '\n' !in front && front[0] != '#' && !("---\n" <= front)
    ensures Strip(front + rest) == front + Strip(rest)
    ensures Strip(front + "---\n") == front
  {
    CutFront(front, rest);
    CutFront(front, "---\n");
    LineIsPiece("---\n", "");
    assert "---\n" + "" == "---\n" && Strip("") == "" && front + "" == front;
  }

  lemma CutFront(front: string, rest: string)
    requires |front| == 4095 && '\n' !in front && front[0] != '#' && !("---\n" <= front)
    ensures Strip(front + rest) == front + Strip(rest)
  {
    LongPiece(front, rest, LINE_BUFFER - 1);
    assert (front + rest)[..|front|] == front && (front + rest)[|front|..] == rest;
    var ps := [front] + Pieces(rest);
    assert ps[0] == front && ps[1..] == Pieces(rest);
    assert ([front] + Filter(Pieces(rest)))[1..] == Filter(Pieces(rest));
  }

  // ---------- The metadata ----------

  datatype Metadata = Metadata(timestamp: nat, sample: nat, oldFile: string, newFile: string)

  /** Every line of the metadata fits the line buffer and is one line. */
  predicate Fits(m: Metadata) {
    && m.timestamp <= LONG_MAX && m.sample <= LONG_MAX
    && |m.oldFile| <= 4082 && |m.newFile| <= 4082 && '\n' !in m.oldFile && '\n' !in m.newFile
  }

  function TimestampLine(m: Metadata): string { "# Timestamp: " + Decimal(m.timestamp) + "\n" }
  function SampleLine(m: Metadata): string { "# Sample: " + Decimal(m.sample) + "\n" }
  function OldFileLine(m: Metadata): string { "# Old file: " + m.oldFile + "\n" }
  function NewFileLine(m: Metadata): string { "# New file: " + m.newFile + "\n" }

  /** The contents of a diff file. */
  function WithMetadata(m: Metadata, body: string): string {
    TimestampLine(m) + (SampleLine(m) + (OldFileLine(m) + (NewFileLine(m) + ("---\n" + body))))
  }

  /** A line of metadata is dropped. */
  lemma DropTitled(title: string, text: string, rest: string)
    requires title != "" && title[0] == '#' && |title| + |text| < LINE_BUFFER - 1
    requires '\n' !in title && '\n' !in text
    ensures Strip(title + text + "\n" + rest) == Strip(rest)
  {
    LineIsPiece(title + text + "\n", rest);
  }

  lemma NoNewline(n: nat)
    ensures '\n' !in Decimal(n)
  {
    var ds := Decimal(n);
    assert forall i :: 0 <= i < |ds| ==> IsDigit(ds[i]);
  }

  lemma StripDropsNumbers(m: Metadata, rest: string)
    requires Fits(m)
    ensures Strip(TimestampLine(m) + (SampleLine(m) + rest)) == Strip(rest)
  {
    DecimalFits(m.timestamp);
    DecimalFits(m.sample);
    NoNewline(m.timestamp);
    NoNewline(m.sample);
    DropTitled("# Sample: ", Decimal(m.sample), rest);
    DropTitled("# Timestamp: ", Decimal(m.timestamp), SampleLine(m) + rest);
  }

  lemma StripDropsFiles(m: Metadata, rest: string)
    requires Fits(m)
    ensures Strip(OldFileLine(m) + (NewFileLine(m) + rest)) == Strip(rest)
  {
    DropTitled("# New file: ", m.newFile, rest);
    DropTitled("# Old file: ", m.oldFile, NewFileLine(m) + rest);
  }

  /** The filter drops the metadata, whatever follows, and treats the rest as a text of its own. */
  lemma StripDropsMetadata(m: Metadata, body: string)
    requires Fits(m)
    ensures Strip(WithMetadata(m, body)) == Strip(body)
  {
    LineIsPiece("---\n", body);
    StripDropsFiles(m, "---\n" + body);
    StripDropsNumbers(m, OldFileLine(m) + (NewFileLine(m) + ("---\n" + body)));
  }

  /** Restore gets back the diff that was saved if and only if no piece of it looks like metadata. */
  lemma StripUndoesMetadata(m: Metadata, body: string)
    requires Fits(m)
    ensures Strip(WithMetadata(m, body)) == body <==> Clean(body)
  {
    StripDropsMetadata(m, body);
    StripIsIdentityIffClean(body);
  }

  // ---------- The loops ----------

  /** The copying loop of save_diff. */
  method SaveDiff(m: Metadata, diffOutput: string) returns (out: string)
    ensures out == WithMetadata(m, diffOutput)
  {
    ghost var head := TimestampLine(m) + (SampleLine(m) + (OldFileLine(m) + (NewFileLine(m) + "---\n")));
    out := TimestampLine(m) + (SampleLine(m) + (OldFileLine(m) + (NewFileLine(m) + "---\n")));
    var rest := diffOutput;
    while rest != ""
      invariant out + rest == head + diffOutput
      decreases |rest|
    {
      var n := PieceEnd(rest, LINE_BUFFER - 1);
      assert rest[..n] + rest[n..] == rest;
      Assoc(out, rest[..n], rest[n..]);
      out, rest := out + rest[..n], rest[n..];
    }
    assert out == out + rest;
    assert head + diffOutput == WithMetadata(m, diffOutput);
  }

  /** The filtering loop of restore_file_to_sample. */
  method StripMetadata(text: string) returns (clean: string)
    ensures clean == Strip(text)
  {
    clean := "";
    var rest, pastMetadata := text, false;
    while rest != ""
      invariant clean + Strip(rest) == Strip(text)
      decreases |rest|
    {
      var n := PieceEnd(rest, LINE_BUFFER - 1);
      var line := rest[..n];
      ghost var tail := rest[n..];
      assert Pieces(rest)[0] == line && Pieces(rest)[1..] == Pieces(tail);
      assert Strip(rest) == if Keeps(line) then line + Strip(tail) else Strip(tail) by {
        if Keeps(line) {
          assert ([line] + Filter(Pieces(tail)))[1..] == Filter(Pieces(tail));
        } else {
          assert [] + Filter(Pieces(tail)) == Filter(Pieces(tail));
        }
      }
      rest := rest[n..];
      if line[0] == '#' {
        continue;
      }
      if "---\n" <= line {
        pastMetadata := true;
        continue;
      }
      if pastMetadata || line[0] != '#' {
        Assoc(clean, line, Strip(tail));
        clean := clean + line;
      }
    }
    assert clean + "" == clean;
  }
}
