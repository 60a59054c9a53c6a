/** send_file_to_client and receive_file as they are written, over system calls that may do less than asked. */
module FileTransfer {
  import opened CText
  import opened Runs
  import opened Sequences
  import opened Framing

  /** What the calls do at each position of the file: bytes read, bytes taken by write, the server still running. */
  datatype Calls = Calls(header: int, given: nat -> nat, takes: nat -> int, runs: nat -> bool)

  /** write of n bytes of which the other side would take `want`: -1, or the number of bytes taken. */
  function Taken(want: int, n: nat): (m: int)
    ensures -1 <= m <= n
  {
    if want < 0 then -1 else if want <= n then want else n
  }

  /** fread of at most BUFFER_SIZE bytes; 0 at the end of the file or on an error. */
  function BlockRead(content: string, pos: nat, want: nat): (n: nat)
    requires pos <= |content|
    ensures n <= BUFFER_SIZE && pos + n <= |content|
  {
    var left := |content| - pos;
    var most := if left < BUFFER_SIZE then left else BUFFER_SIZE;
    if want < most then want else most
  }

  datatype Sent = Sent(bytes: string, count: nat)

  /** What the body loop writes from position pos on, `count` bytes having been taken before. */
  function BodySent(content: string, pos: nat, count: nat, calls: Calls): Sent
    requires count <= pos <= |content|
    decreases |content| - pos
  {
    if count == |content| || !calls.runs(pos) then Sent("", count)
    else
      var n := BlockRead(content, pos, calls.given(pos));
      var m := Taken(calls.takes(pos), n);
      if n == 0 || m <= 0 then Sent("", count)
      else
        var rest := BodySent(content, pos + n, count + m, calls);
        Sent(content[pos..pos + m] + rest.bytes, rest.count)
  }

  /** The first turn of the loop, when it goes on. */
  lemma BodyUnfolds(content: string, pos: nat, count: nat, calls: Calls)
    requires count <= pos <= |content| && count != |content| && calls.runs(pos)
    requires 0 < Taken(calls.takes(pos), BlockRead(content, pos, calls.given(pos)))
    ensures var n := BlockRead(content, pos, calls.given(pos));
            var m := Taken(calls.takes(pos), n);
            var rest := BodySent(content, pos + n, count + m, calls);
            BodySent(content, pos, count, calls) == Sent(content[pos..pos + n][..m] + rest.bytes, rest.count)
  {
    var n := BlockRead(content, pos, calls.given(pos));
    var m := Taken(calls.takes(pos), n);
    assert content[pos..pos + n][..m] == content[pos..pos + m];
  }

  datatype Transfer = Transfer(bytes: string, completed: bool)

  /** send_file_to_client: what reaches the FIFO, and whether the transfer is logged as completed. */
  function FileSent(content: string, calls: Calls): Transfer {
    var header := Header(|content|);
    var written := Taken(calls.header, |header|);
    if written <= 0 then Transfer("", false)
    else
      var body := BodySent(content, 0, 0, calls);
      Transfer(header[..written] + body.bytes, body.count == |content|)
  }

  lemma {:induction false} BodyCounts(content: string, pos: nat, count: nat, calls: Calls)
    requires count <= pos <= |content|
    ensures var r := BodySent(content, pos, count, calls);
            && |r.bytes| + count == r.count <= |content|
            && (r.count == |content| ==> count == pos && r.bytes == content[pos..])
    decreases |content| - pos
  {
    var n := BlockRead(content, pos, calls.given(pos));
    var m := Taken(calls.takes(pos), n);
    if count != |content| && calls.runs(pos) && n != 0 && 0 < m {
      BodyCounts(content, pos + n, count + m, calls);
      SplitAt(content, pos, n);
    }
  }

  /**
   The FIFO gets the whole frame if and only if the transfer is logged as completed and the header was
   not cut short: a short write of the header goes unnoticed.
   */
  lemma DeliveredIff(content: string, calls: Calls)
    ensures FileSent(content, calls).bytes == Frame(content) <==>
              FileSent(content, calls).completed && |Header(|content|)| <= calls.header
  {
    var header := Header(|content|);
    var written := Taken(calls.header, |header|);
    BodyCounts(content, 0, 0, calls);
    assert content[0..] == content && header[..|header|] == header;
    if 0 < written < |header| {
      assert |FileSent(content, calls).bytes| < |Frame(content)|;
    }
  }

  /** A header that cannot be written ends the transfer, and a stopped server sends no body of a non-empty file. */
  lemma NothingIsSent(content: string, calls: Calls)
    ensures calls.header <= 0 ==> FileSent(content, calls) == Transfer("", false)
    ensures 0 < calls.header && content != "" && !calls.runs(0) ==>
              FileSent(content, calls) == Transfer(Header(|content|)[..Taken(calls.header, |Header(|content|)|)], false)
  {
    var header := Header(|content|);
    assert header != "";
    assert header[..Taken(1, |header|)] + "" == header[..Taken(1, |header|)];
  }

  /** A transfer that is logged as completed was never interrupted by a stop, a failed read or a short write. */
  lemma {:induction false} CompletedMeansUndisturbed(content: string, pos: nat, calls: Calls)
    requires pos < |content| && BodySent(content, pos, pos, calls).count == |content|
    ensures var n := BlockRead(content, pos, calls.given(pos));
            && calls.runs(pos) && 0 < n && n <= calls.takes(pos)
            && (pos + n < |content| ==> BodySent(content, pos + n, pos + n, calls).count == |content|)
  {
    BodyCounts(content, pos, pos, calls);
    var n := BlockRead(content, pos, calls.given(pos));
    var m := Taken(calls.takes(pos), n);
    if calls.runs(pos) && 0 < n && 0 < m { BodyCounts(content, pos + n, pos + m, calls); }
  }

  /** All of every block is read and taken. */
  predicate FullBlocks(calls: Calls, size: nat) {
    forall pos :: 0 <= pos < size ==>
      calls.given(pos) >= BUFFER_SIZE && calls.takes(pos) >= BUFFER_SIZE && calls.runs(pos)
  }

  lemma {:induction false} FullBlocksComplete(content: string, pos: nat, calls: Calls)
    requires pos <= |content| && FullBlocks(calls, |content|)
    ensures BodySent(content, pos, pos, calls).count == |content|
    decreases |content| - pos
  {
    if pos < |content| {
      FullBlocksComplete(content, pos + BlockRead(content, pos, calls.given(pos)), calls);
    }
  }

  /** For every file: one byte of the header taken and the whole body, logged as completed, and no frame. */
  lemma ShortHeaderGoesUnnoticed(content: string)
    ensures var r := FileSent(content, Calls(1, pos => BUFFER_SIZE, pos => BUFFER_SIZE, pos => true));
            r.completed && r.bytes == "S" + content && r.bytes != Frame(content)
  {
    var calls := Calls(1, pos => BUFFER_SIZE, pos => BUFFER_SIZE, pos => true);
    FullBlocksComplete(content, 0, calls);
    BodyCounts(content, 0, 0, calls);
    assert content[0..] == content;
    var header := Header(|content|);
    assert header[0] == 'S' && header[..1] == "S";
    DeliveredIff(content, calls);
  }

  /** The writing end of a client's FIFO: all bytes ever written. */
  class Fifo {
    var bytes: string

    constructor ()
      ensures bytes == ""
    {
      bytes := "";
    }

    method Write(data: string, want: int) returns (n: int)
      modifies this
      ensures n == Taken(want, |data|)
      ensures bytes == old(bytes) + if 0 < n then data[..n] else ""
    {
      n := Taken(want, |data|);
      if 0 < n { bytes := bytes + data[..n]; }
    }
  }

  /** With the bytes of `rest` to come, r will have been written behind `before`. */
  predicate Completes(sent: string, rest: Sent, before: string, r: Sent) {
    rest.count == r.count && sent + rest.bytes == before + r.bytes
  }

  lemma OneMorePiece(sent: string, piece: string, rest: Sent, before: string, r: Sent)
    requires Completes(sent, Sent(piece + rest.bytes, rest.count), before, r)
    ensures Completes(sent + piece, rest, before, r)
  {
    Assoc(sent, piece, rest.bytes);
  }

  lemma BodyStops(content: string, pos: nat, count: nat, calls: Calls, sent: string, before: string, r: Sent)
    requires count <= pos <= |content| && Completes(sent, BodySent(content, pos, count, calls), before, r)
    requires count == |content| || !calls.runs(pos)
             || Taken(calls.takes(pos), BlockRead(content, pos, calls.given(pos))) <= 0
    ensures count == r.count && sent == before + r.bytes
  {}

  lemma BodyGoesOn(content: string, pos: nat, count: nat, calls: Calls, sent: string, before: string, r: Sent)
    requires count <= pos <= |content| && Completes(sent, BodySent(content, pos, count, calls), before, r)
    requires count != |content| && calls.runs(pos)
    requires 0 < Taken(calls.takes(pos), BlockRead(content, pos, calls.given(pos)))
    ensures var n := BlockRead(content, pos, calls.given(pos));
            var m := Taken(calls.takes(pos), n);
            Completes(sent + content[pos..pos + n][..m], BodySent(content, pos + n, count + m, calls), before, r)
  {
    BodyUnfolds(content, pos, count, calls);
    var n := BlockRead(content, pos, calls.given(pos));
    var m := Taken(calls.takes(pos), n);
    OneMorePiece(sent, content[pos..pos + n][..m], BodySent(content, pos + n, count + m, calls), before, r);
  }

  /** fread and write for one block; m is not positive when the loop is to end. */
  method SendBlock(out: Fifo, content: string, pos: nat, calls: Calls) returns (n: nat, m: int)
    requires pos <= |content|
    modifies out
    ensures n == BlockRead(content, pos, calls.given(pos)) && m == Taken(calls.takes(pos), n)
    ensures out.bytes == if 0 < m then old(out.bytes) + content[pos..pos + n][..m] else old(out.bytes)
  {
    n := BlockRead(content, pos, calls.given(pos));
    if n == 0 {
      return n, Taken(calls.takes(pos), n);
    }
    m := out.Write(content[pos..pos + n], calls.takes(pos));
  }

  /** The loop over the file, which ends early on an error or when the server is told to stop. */
  method SendBody(out: Fifo, content: string, calls: Calls) returns (totalSent: nat)
    modifies out
    ensures var r := BodySent(content, 0, 0, calls);
            totalSent == r.count && out.bytes == old(out.bytes) + r.bytes
  {
    ghost var r, before := BodySent(content, 0, 0, calls), out.bytes;
    var pos := 0;
    totalSent := 0;
    while totalSent < |content| && calls.runs(pos)
      invariant totalSent <= pos <= |content|
      invariant Completes(out.bytes, BodySent(content, pos, totalSent, calls), before, r)
      decreases |content| - pos
    {
      ghost var sent := out.bytes;
      var n, m := SendBlock(out, content, pos, calls);
      if m <= 0 { break; }
      BodyGoesOn(content, pos, totalSent, calls, sent, before, r);
      totalSent, pos := totalSent + m, pos + n;
    }
    BodyStops(content, pos, totalSent, calls, out.bytes, before, r);
  }

  method SendFile(out: Fifo, content: string, calls: Calls) returns (completed: bool)
    requires |content| <= LONG_MAX
    modifies out
    ensures out.bytes == old(out.bytes) + FileSent(content, calls).bytes
    ensures completed == FileSent(content, calls).completed
  {
    var header := Header(|content|);
    var written := out.Write(header, calls.header);
    if written <= 0 {
      return false;
    }
    var totalSent := SendBody(out, content, calls);
    completed := totalSent == |content|;
    Assoc(old(out.bytes), header[..written], BodySent(content, 0, 0, calls).bytes);
  }

  /** The reading end: what the server has written so far, with `interrupts` signals still to arrive. */
  class Stream {
    const bytes: string
    var pos: nat
    var interrupts: nat
    var failed: bool

    constructor (bytes: string, interrupts: nat)
      ensures this.bytes == bytes && pos == 0 && this.interrupts == interrupts && !failed
    {
      this.bytes, this.pos, this.interrupts, this.failed := bytes, 0, interrupts, false;
    }

    ghost predicate Valid()
      reads this
    {
      pos <= |bytes|
    }

    /** read: EINTR, any other error, or at least one of the bytes that are left, 0 only at their end. */
    method Read(max: nat) returns (n: int, interrupted: bool)
      requires Valid() && 0 < max
      modifies this
      ensures Valid() && -1 <= n <= max && (n == 0 ==> pos == |bytes|)
      ensures pos == if 0 < n then old(pos) + n else old(pos)
      ensures interrupted ==> n == -1 && interrupts + 1 == old(interrupts)
      ensures !interrupted ==> interrupts == old(interrupts)
      ensures failed == (old(failed) || (n == -1 && !interrupted))
    {
      n, interrupted := -1, false;
      if * {
        if 0 < interrupts {
          interrupted, interrupts := true, interrupts - 1;
        } else {
          failed := true;
        }
      } else if * {
        failed := true;
      } else {
        var left := |bytes| - pos;
        n := 0;
        if 0 < left {
          n :| 0 < n <= left && n <= max;
          pos := pos + n;
        }
      }
    }
  }

  /** The loop over the header, one byte at a time; None when it gives up. */
  method ReadHeader(stream: Stream, header: array<char>) returns (length: Option<nat>)
    requires stream.Valid() && !stream.failed && header.Length == HEADER_SIZE
    modifies stream, header
    ensures stream.Valid() && old(stream.pos) <= stream.pos
    ensures var s := old(stream.bytes[stream.pos..]);
            var n := LineLength(s);
            && (length.Some? ==> length.value == n < HEADER_SIZE - 1 && n < |s| && header[..n] == s[..n]
                                 && stream.pos == old(stream.pos) + n + 1 && !stream.failed)
            && (length.None? ==> stream.failed || n == |s| || n >= HEADER_SIZE - 1)
  {
    ghost var s, start := stream.bytes[stream.pos..], stream.pos;
    var cur := 0;
    while cur < HEADER_SIZE - 1
      invariant cur <= HEADER_SIZE - 1 && stream.Valid() && !stream.failed
      invariant stream.pos == start + cur && header[..cur] == s[..cur] && cur <= LineLength(s)
      decreases HEADER_SIZE - cur, stream.interrupts
    {
      var n, interrupted := stream.Read(1);
      if n <= 0 {
        if interrupted { continue; }
        return None;
      }
      header[cur] := stream.bytes[stream.pos - 1];
      assert header[cur] == s[cur];
      if header[cur] == '\n' {
        return Some(cur);
      }
      cur := cur + 1;
    }
    length := None;
  }

  /**
   receive_file, which counts the bytes of the body.  Unless a read fails, it succeeds exactly on a stream
   that begins with a whole frame, whatever the sizes of the reads, and stops at the end of that frame.
   */
  method ReceiveFile(stream: Stream) returns (ok: bool, size: nat)
    requires stream.Valid() && !stream.failed
    modifies stream
    ensures stream.Valid()
    ensures var r := FirstFrame(old(stream.bytes[stream.pos..]));
            && (ok ==> !stream.failed && r.Some? && stream.pos == old(stream.pos) + r.value.end
                       && size == r.value.end - r.value.body)
            && (!ok ==> r.None? || stream.failed)
  {
    ghost var s, start := stream.bytes[stream.pos..], stream.pos;
    var header := new char[HEADER_SIZE](i => '\0');
    size := 0;
    var length := ReadHeader(stream, header);
    if length.None? {
      return false, size;
    }
    var scanned := ScanHeader(header[..length.value]);
    if scanned.None? {
      return false, size;
    }
    size := scanned.value;
    var totalReceived := 0;
    ghost var body := length.value + 1;
    while totalReceived < size
      invariant totalReceived <= size && stream.Valid() && !stream.failed
      invariant stream.pos == start + body + totalReceived
      decreases size - totalReceived, stream.interrupts
    {
      var toRead := BUFFER_SIZE;
      var remaining := size - totalReceived;
      if toRead > remaining { toRead := remaining; }
      var n, interrupted := stream.Read(toRead);
      if n <= 0 {
        if interrupted { continue; }
        return false, size;
      }
      totalReceived := totalReceived + n;
    }
    ok := true;
  }

  /** The stream holds the frames of these files and then `rest`, and the receiver is at frame k. */
  ghost predicate AtFrame(stream: Stream, files: seq<string>, k: nat, rest: string)
    reads stream
  {
    && k <= |files| && stream.Valid() && !stream.failed
    && stream.bytes == Frames(files) + rest && stream.pos == Start(files, k)
  }

  method ReceiveNext(stream: Stream, ghost files: seq<string>, ghost k: nat, ghost rest: string)
    returns (ok: bool, size: nat)
    requires AtFrame(stream, files, k, rest) && k < |files| && |files[k]| <= LONG_MAX
    modifies stream
    ensures ok ==> AtFrame(stream, files, k + 1, rest) && size == |files[k]|
    ensures !ok ==> stream.failed
  {
    FramesRecovered(files, k, rest);
    ok, size := ReceiveFile(stream);
  }

  /**
   One call of receive_file after the other: the k-th reports the size of file k and stops at the start of
   frame k + 1, so all files are received, up to `rest`, unless a read fails.
   */
  method ReceiveFiles(stream: Stream, count: nat, ghost files: seq<string>, ghost rest: string)
    returns (sizes: seq<nat>)
    requires AtFrame(stream, files, 0, rest) && count == |files|
    requires forall i :: 0 <= i < |files| ==> |files[i]| <= LONG_MAX
    modifies stream
    ensures |sizes| <= |files| && forall i :: 0 <= i < |sizes| ==> sizes[i] == |files[i]|
    ensures stream.failed || (|sizes| == |files| && AtFrame(stream, files, |files|, rest))
  {
    sizes := [];
    while |sizes| < count
      invariant AtFrame(stream, files, |sizes|, rest)
      invariant forall i :: 0 <= i < |sizes| ==> sizes[i] == |files[i]|
    {
      var ok, size := ReceiveNext(stream, files, |sizes|, rest);
      if !ok { return; }
      sizes := sizes + [size];
    }
  }

  lemma AfterAllFrames(stream: Stream, files: seq<string>, rest: string)
    requires AtFrame(stream, files, |files|, rest)
    ensures stream.bytes[stream.pos..] == rest
  {
    assert files[..|files|] == files;
  }
}
