/** The loops of the sem_3 programs as they are written, each side run on its own. */
module CopyLoops {
  import opened Runs
  import opened Sequences
  import opened MqTransfer

  /** The result of read or write when the other side would give or take `want` of at most `max` bytes. */
  function Clip(want: int, max: nat): int {
    if want < 0 then -1 else if want <= max then want else max
  }

  class OutputFile {
    var contents: seq<byte>

    constructor ()
      ensures contents == []
    {
      contents := [];
    }

    method WriteOnce(data: seq<byte>, want: int) returns (n: int)
      modifies this
      ensures n == Clip(want, |data|)
      ensures contents == if 0 < n then old(contents) + data[..n] else old(contents)
    {
      n := Clip(want, |data|);
      if 0 < n { contents := contents + data[..n]; }
    }

    /** Repeats write until `size` bytes are out; a result of 0 or -1 ends the program. */
    method WriteAll(buffer: array<byte>, size: nat, takes: nat -> int) returns (ok: bool)
      requires size <= buffer.Length
      modifies this
      ensures ok ==> contents == old(contents) + buffer[..size]
      ensures !ok ==> exists k :: 0 <= k < size && contents == old(contents) + buffer[..k] && takes(k) <= 0
    {
      var written := 0;
      while written < size
        invariant written <= size && contents == old(contents) + buffer[..written]
      {
        var w := WriteOnce(buffer[written..size], takes(written));
        if w <= 0 { return false; }
        assert buffer[written..size][..w] == buffer[written..written + w];
        assert buffer[..written] + buffer[written..written + w] == buffer[..written + w];
        Assoc(old(contents), buffer[..written], buffer[written..written + w]);
        written := written + w;
      }
      ok := true;
    }
  }

  /** read into a buffer; bytes after the ones stored stay. */
  method ReadOnce(input: seq<byte>, pos: nat, buffer: array<byte>, want: int) returns (n: int)
    requires pos <= |input|
    modifies buffer
    ensures -1 <= n <= buffer.Length && n <= |input| - pos
    ensures n == 0 ==> pos == |input| || buffer.Length == 0
    ensures 0 < n ==> buffer[..] == input[pos..pos + n] + old(buffer[..])[n..] && buffer[..n] == input[pos..pos + n]
    ensures n <= 0 ==> buffer[..] == old(buffer[..])
    ensures want < 0 <==> n < 0
  {
    if want < 0 { return -1; }
    var rest := |input| - pos;
    n := if buffer.Length <= rest then buffer.Length else rest;
    if 0 < want < n { n := want; }
    forall i | 0 <= i < n { buffer[i] := input[pos + i]; }
    assert buffer[..n] == input[pos..pos + n];
    assert buffer[..] == input[pos..pos + n] + old(buffer[..])[n..];
  }

  lemma PartOfPiece<T>(a: seq<T>, b: seq<T>, pos: nat, n: nat, k: nat)
    requires k <= n <= |a| && pos + n <= |b| && a[..n] == b[pos..pos + n]
    ensures a[..k] == b[pos..pos + k]
  {
    assert a[..n][..k] == a[..k] && b[pos..pos + n][..k] == b[pos..pos + k];
  }

  /** How a copying loop ends. */
  datatype CopyEnd = AtEnd | ReadFailed | WriteFailed

  lemma PartWrittenOut(before: seq<byte>, input: seq<byte>, pos: nat, n: nat, buffer: seq<byte>, k: nat)
    requires k <= n <= |buffer| && pos + n <= |input| && buffer[..n] == input[pos..pos + n]
    ensures before + input[..pos] + buffer[..k] == before + input[..pos + k]
  {
    PartOfPiece(buffer, input, pos, n, k);
    SplitAt(input, pos, k);
    Assoc(before, input[..pos], input[pos..pos + k]);
  }

  /**
   The nested loops of both sides of the FIFO program: read a block, write all of it, until read gives 0.
   They give up only at a call that failed: the read at position `pos`, or the write behind `part` more bytes.
   */
  method CopyLoop(input: seq<byte>, buffer: array<byte>, out: OutputFile, gives: nat -> int, takes: nat -> nat -> int)
    returns (r: CopyEnd, ghost pos: nat, ghost part: nat)
    requires 0 < buffer.Length
    modifies buffer, out
    ensures pos + part <= |input| && out.contents == old(out.contents) + input[..pos + part]
    ensures r == AtEnd ==> pos == |input| && 0 <= gives(pos)
    ensures r == ReadFailed ==> part == 0 && gives(pos) < 0
    ensures r == WriteFailed ==> pos + part < |input| && takes(pos)(part) <= 0
  {
    var at := 0;
    part := 0;
    var n := ReadOnce(input, 0, buffer, gives(0));
    while 0 < n
      invariant at <= |input| && out.contents == old(out.contents) + input[..at]
      invariant -1 <= n <= buffer.Length && n <= |input| - at
      invariant n == 0 ==> at == |input|
      invariant gives(at) < 0 <==> n < 0
      invariant 0 < n ==> buffer[..n] == input[at..at + n]
      decreases |input| - at, n
    {
      var ok := out.WriteAll(buffer, n, takes(at));
      if !ok {
        part :| 0 <= part < n && out.contents == old(out.contents) + input[..at] + buffer[..part]
                && takes(at)(part) <= 0;
        PartWrittenOut(old(out.contents), input, at, n, buffer[..], part);
        return WriteFailed, at, part;
      }
      PartWrittenOut(old(out.contents), input, at, n, buffer[..], n);
      at := at + n;
      n := ReadOnce(input, at, buffer, gives(at));
    }
    pos := at;
    r := if n == 0 then AtEnd else ReadFailed;
  }

  /**
   The sender of the message-queue program; `failed` says that a send failed.  It queues a prefix of the
   input in blocks, stopping early only at a block that is not accepted, and then tries to queue the end
   message, unless a read has failed.
   */
  method SendLoop(input: seq<byte>, buffer: array<byte>, gives: nat -> int, accepts: nat -> bool)
    returns (code: int, messages: seq<seq<byte>>, failed: bool, ghost blocks: seq<seq<byte>>)
    requires buffer.Length == MQ_SIZE
    modifies buffer
    ensures code in {0, 1} && Fits(blocks) && Concat(blocks) <= input
    ensures code == 1 <==> gives(|Concat(blocks)|) < 0
    ensures code == 1 ==> messages == blocks && !failed
    ensures code == 0 ==> messages == if accepts(|input|) then blocks + [EOF_MSG] else blocks
    ensures code == 0 ==> Concat(blocks) == input || !accepts(|Concat(blocks)|)
    ensures code == 0 ==> (failed <==> Concat(blocks) != input || !accepts(|input|))
  {
    messages, blocks, failed, code := [], [], false, 0;
    var pos := 0;
    var n := ReadOnce(input, 0, buffer, gives(0));
    while 0 < n
      invariant pos <= |input| && messages == blocks && Fits(blocks) && Concat(blocks) == input[..pos]
      invariant -1 <= n <= MQ_SIZE && n <= |input| - pos && (n == 0 ==> pos == |input|) && !failed
      invariant gives(pos) < 0 <==> n < 0
      invariant 0 < n ==> buffer[..n] == input[pos..pos + n]
      decreases |input| - pos, n
    {
      if !accepts(pos) {
        failed := true;
        break;
      }
      SplitAt(input, pos, n);
      ConcatAppend(blocks, input[pos..pos + n]);
      messages := messages + [buffer[..n]];
      blocks := blocks + [input[pos..pos + n]];
      pos := pos + n;
      n := ReadOnce(input, pos, buffer, gives(pos));
    }
    assert input[..pos] == input <==> pos == |input|;
    if n == -1 {
      return 1, messages, failed, blocks;
    }
    if accepts(|input|) {
      messages := messages + [EOF_MSG];
    } else {
      failed := true;
    }
  }

  /** msgrcv into a buffer; bytes after the message stay. */
  method TakeMessage(m: seq<byte>, buffer: array<byte>)
    requires |m| <= buffer.Length
    modifies buffer
    ensures buffer[..] == Overlay(old(buffer[..]), m)
  {
    forall i | 0 <= i < |m| { buffer[i] := m[i]; }
    assert buffer[..] == m + old(buffer[..])[|m|..];
  }

  lemma OverlaidNext(messages: seq<seq<byte>>, k: nat)
    requires Fits(messages) && k < |messages|
    ensures Fits(messages[..k]) && Fits(messages[..k + 1])
    ensures Overlaid(messages[..k + 1]) == Overlay(Overlaid(messages[..k]), messages[k])
    ensures Concat(messages[..k + 1]) == Concat(messages[..k]) + messages[k]
  {
    TakeOne(messages, k);
    ConcatAppend(messages[..k], messages[k]);
  }

  /** msgrcv of message k, over what the buffer holds. */
  method TakeNext(messages: seq<seq<byte>>, k: nat, buffer: array<byte>)
    requires Fits(messages) && k < |messages| && buffer.Length == MQ_SIZE && buffer[..] == Overlaid(messages[..k])
    modifies buffer
    ensures buffer[..] == Overlaid(messages[..k + 1]) && buffer[..|messages[k]|] == messages[k]
  {
    OverlaidNext(messages, k);
    TakeMessage(messages[k], buffer);
    assert buffer[..|messages[k]|] == buffer[..][..|messages[k]|];
  }

  lemma OneMoreMessage(before: seq<byte>, messages: seq<seq<byte>>, k: nat)
    requires k < |messages|
    ensures before + Concat(messages[..k]) + messages[k] == before + Concat(messages[..k + 1])
  {
    TakeOne(messages, k);
    ConcatAppend(messages[..k], messages[k]);
    Assoc(before, Concat(messages[..k]), messages[k]);
  }

  /** The test behind message j: the flag is set and the buffer, with what was left in it, begins with "EOF". */
  predicate StopsAt(messages: seq<seq<byte>>, flag: nat -> bool, j: nat)
    requires Fits(messages) && j < |messages|
  {
    flag(j) && StartsWithEof(Overlaid(messages[..j + 1]))
  }

  /** What is out when a write behind `part` bytes of message k has failed. */
  predicate GaveUpAt(messages: seq<seq<byte>>, flag: nat -> bool, takes: nat -> nat -> int, k: nat, part: nat)
    requires Fits(messages)
  {
    k < |messages| && !StopsAt(messages, flag, k) && part < |messages[k]| && takes(k)(part) <= 0
  }

  /** Every write of every message takes something. */
  ghost predicate EveryWriteTakes(messages: seq<seq<byte>>, takes: nat -> nat -> int) {
    forall j, p :: 0 <= j < |messages| && 0 <= p < |messages[j]| ==> takes(j)(p) > 0
  }

  /** The write loop for message k, which is at the front of the buffer. */
  method WriteMessage(messages: seq<seq<byte>>, k: nat, buffer: array<byte>, out: OutputFile, takes: nat -> int)
    returns (ok: bool, ghost part: nat)
    requires k < |messages| && |messages[k]| <= buffer.Length && buffer[..|messages[k]|] == messages[k]
    modifies out
    ensures ok ==> out.contents == old(out.contents) + messages[k]
    ensures !ok ==> part < |messages[k]| && takes(part) <= 0
                    && out.contents == old(out.contents) + messages[k][..part]
  {
    var m := messages[k];
    part := 0;
    ok := out.WriteAll(buffer, |m|, takes);
    if !ok {
      part :| 0 <= part < |m| && out.contents == old(out.contents) + buffer[..part] && takes(part) <= 0;
      assert buffer[..part] == buffer[..|m|][..part] == m[..part];
    }
  }

  /**
   The receiver loop of the message-queue program for the messages it will be given and the value of
   the shared flag at each test.  It exits with 0 at the first message at which the flag is set and the
   buffer begins with "EOF", having written exactly the messages before it; with 1 at the first write that
   takes nothing, or behind the last message if msgrcv then fails; otherwise it waits there: None.
   */
  method ReceiveLoop(messages: seq<seq<byte>>, fails: bool, flag: nat -> bool, buffer: array<byte>, out: OutputFile,
                     takes: nat -> nat -> int) returns (code: Option<int>, k: nat, ghost part: nat)
    requires Fits(messages) && buffer.Length == MQ_SIZE && buffer[..] == seq(MQ_SIZE, i => 0)
    modifies buffer, out
    ensures k <= |messages| && code in {Some(0), Some(1), None}
    ensures forall j :: 0 <= j < k ==> !StopsAt(messages, flag, j)
    ensures code == Some(0) ==> k < |messages| && StopsAt(messages, flag, k)
    ensures code == None ==> k == |messages| && !fails
    ensures code == Some(1) ==> (k == |messages| && fails && part == 0) || GaveUpAt(messages, flag, takes, k, part)
    ensures code != Some(1) ==> part == 0
    ensures out.contents ==
            old(out.contents) + Concat(messages[..k]) + if part == 0 then [] else messages[k][..part]
    ensures !fails && EveryWriteTakes(messages, takes) ==> code != Some(1)
  {
    k, part := 0, 0;
    assert messages[..0] == [];
    while k < |messages|
      invariant k <= |messages| && buffer[..] == Overlaid(messages[..k])
      invariant out.contents == old(out.contents) + Concat(messages[..k])
      invariant forall j :: 0 <= j < k ==> !StopsAt(messages, flag, j)
    {
      TakeNext(messages, k, buffer);
      if flag(k) && StartsWithEof(buffer[..]) {
        return Some(0), k, 0;
      }
      var ok;
      ok, part := WriteMessage(messages, k, buffer, out, takes(k));
      if !ok {
        return Some(1), k, part;
      }
      part := 0;
      OneMoreMessage(old(out.contents), messages, k);
      k := k + 1;
    }
    code := if fails then Some(1) else None;
  }
}
