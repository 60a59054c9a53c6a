/** The file frames of the FIFO server: a line "SIZE:<decimal>" and then the bytes of the file. */
module Framing {
  import opened Runs
  import opened Sequences
  import opened CText

  const HEADER_SIZE := 64
  const BUFFER_SIZE := 4096
  const PREFIX := "SIZE:"

  /** sscanf(header, "SIZE:%zu", ...) */
  function ScanHeader(header: string): Option<nat> {
    if !(PREFIX <= header) then None
    else
      var r := ScanSize(header[|PREFIX|..]);
      if r.None? then None else Some(r.value.0)
  }

  function Header(size: nat): string { PREFIX + Decimal(size) + "\n" }

  /** The header of any file length is read back as that length and fits the header buffer. */
  lemma HeaderRoundTrip(size: nat)
    requires size <= LONG_MAX
    ensures ScanHeader(PREFIX + Decimal(size)) == Some(size) && |Header(size)| < HEADER_SIZE
  {
    var ds := Decimal(size);
    assert (PREFIX + ds)[|PREFIX|..] == ds == ds + "";
    SizeBack(size, "");
    DecimalFits(size);
  }

  /** The header of a file of five bytes, as it stands in the FIFO. */
  lemma HeaderOfFive()
    ensures Header(5) == "SIZE:5\n"
  {
    assert Decimal(5) == "5";
  }

  // ---------- What receive_file makes of a stream ----------

  /** The frame at the beginning of s: where its body begins and ends; None if receive_file cannot accept s. */
  datatype Extent = Extent(body: nat, end: nat)

  function FirstFrame(s: string): (r: Option<Extent>)
    ensures r.Some? ==> 0 < r.value.body <= r.value.end <= |s|
  {
    var n := LineLength(s);
    if n == |s| || n >= HEADER_SIZE - 1 then None
    else
      match ScanHeader(s[..n])
      case None => None
      case Some(size) => if n + 1 + size > |s| then None else Some(Extent(n + 1, n + 1 + size))
  }

  /** A first line of more than 62 characters is no header, whatever it says. */
  lemma HeaderLimit(s: string)
    requires LineLength(s) < |s| && ScanHeader(s[..LineLength(s)]).Some?
    requires LineLength(s) + 1 + ScanHeader(s[..LineLength(s)]).value <= |s|
    ensures FirstFrame(s).Some? <==> LineLength(s) <= 62
  {}

  function Frame(content: string): string { Header(|content|) + content }

  function Frames(files: seq<string>): string {
    if files == [] then "" else Frame(files[0]) + Frames(files[1..])
  }

  lemma HeaderLine(content: string, rest: string)
    ensures var line, s := PREFIX + Decimal(|content|), Frame(content) + rest;
            LineLength(s) == |line| && s[..|line|] == line
  {
    var line := PREFIX + Decimal(|content|);
    assert Header(|content|) == line + "\n";
    Assoc(Header(|content|), content, rest);
    LineOf(line, content + rest);
    TakeConcat(line, "\n" + (content + rest), 0);
    Assoc(line, "\n", content + rest);
  }

  /** Whatever follows a frame, it is recognised whole and nothing more. */
  lemma FrameFirst(content: string, rest: string)
    requires |content| <= LONG_MAX
    ensures FirstFrame(Frame(content) + rest) == Some(Extent(|Header(|content|)|, |Frame(content)|))
  {
    var line, s := PREFIX + Decimal(|content|), Frame(content) + rest;
    HeaderRoundTrip(|content|);
    HeaderLine(content, rest);
    assert LineLength(s) == |line| && s[..|line|] == line && |s| == |line| + 1 + |content| + |rest|;
  }

  /** Where frame k begins. */
  function Start(files: seq<string>, k: nat): nat
    requires k <= |files|
  {
    |Frames(files[..k])|
  }

  lemma {:induction false} FramesSplit(files: seq<string>, k: nat)
    requires k < |files|
    ensures Start(files, k + 1) == Start(files, k) + |Frame(files[k])| <= |Frames(files)|
    ensures Frames(files)[Start(files, k)..] == Frame(files[k]) + Frames(files[k + 1..])
    decreases k
  {
    if k == 0 {
      assert files[..1][1..] == [] && files[..0] == [];
      assert Frames(files[..1]) == Frame(files[0]) + "";
    } else {
      var tail := files[1..];
      FramesSplit(tail, k - 1);
      assert files[..k][1..] == tail[..k - 1] && files[..k + 1][1..] == tail[..k];
      assert tail[k..] == files[k + 1..];
      var s := Frames(tail);
      assert (Frame(files[0]) + s)[|Frame(files[0])| + Start(tail, k - 1)..] == s[Start(tail, k - 1)..];
    }
  }

  lemma BodyOf(stream: string, from: nat, content: string, after: string)
    requires from <= |stream| && stream[from..] == Frame(content) + after && |content| <= LONG_MAX
    ensures var r := FirstFrame(stream[from..]);
            && r == Some(Extent(|Header(|content|)|, |Frame(content)|))
            && stream[from + r.value.body..from + r.value.end] == content
  {
    FrameFirst(content, after);
    var body, end := |Header(|content|)|, |Frame(content)|;
    assert Frame(content)[body..] == content;
    TakeConcat(Frame(content), after, body);
    SliceShift(stream, from, body, end);
  }

  /** receive_file at `from` accepts a frame that holds `content` and stops at `to`. */
  predicate Recovers(stream: string, from: nat, content: string, to: nat) {
    && from <= to <= |stream|
    && var r := FirstFrame(stream[from..]);
       r.Some? && from + r.value.end == to && stream[from + r.value.body..to] == content
  }

  lemma BodyIn(frames: string, rest: string, from: nat, content: string, to: nat, after: string)
    requires from <= |frames| && frames[from..] == Frame(content) + after && |content| <= LONG_MAX
    requires to == from + |Frame(content)|
    ensures Recovers(frames + rest, from, content, to)
  {
    DropConcat(frames, rest, from);
    Assoc(Frame(content), after, rest);
    BodyOf(frames + rest, from, content, after + rest);
  }

  /**
   For any files sent one after the other, the receiver that stands at frame k recovers file k and
   stops at the start of frame k + 1.
   */
  lemma FramesRecovered(files: seq<string>, k: nat, rest: string)
    requires k < |files| && |files[k]| <= LONG_MAX
    ensures Recovers(Frames(files) + rest, Start(files, k), files[k], Start(files, k + 1))
  {
    FramesSplit(files, k);
    BodyIn(Frames(files), rest, Start(files, k), files[k], Start(files, k + 1), Frames(files[k + 1..]));
  }
}
