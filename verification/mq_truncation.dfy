/** Exactly when the message-queue copy can end early: a block that looks like the end message, late enough. */
module MqTruncation {
  import opened Runs
  import opened Sequences
  import opened MqTransfer

  predicate Harmless(e: Event) {
    e != Read(-1) && e != Send(false) && e != SendEof(false) && e != Receive(false) && (e.Write? ==> 0 < e.n)
  }

  /** No call fails. */
  predicate NoFailure(es: seq<Event>) { forall e :: e in es ==> Harmless(e) }

  /** A run without any failure in which the receiver leaves its loop normally and the output is not the input. */
  predicate Truncates(s: State, es: seq<Event>) {
    && Exec(Step, s, es).Some? && NoFailure(es)
    && var t := Exec(Step, s, es).value;
       t.receiver.RDone? && t.receiver.code == 0 && t.output != s.input
  }

  /** After k blocks the buffer begins with "EOF", and the blocks behind them fit the queue together. */
  predicate Dangerous(blocks: seq<seq<byte>>, k: nat, capacity: nat)
    requires Fits(blocks)
  {
    0 < k <= |blocks| && StartsWithEof(Overlaid(blocks[..k])) && |blocks| - k <= capacity
  }

  // ---------- Only a late lookalike can ----------

  predicate Bounded(s: State, t: State) { |t.queue| <= s.capacity && t.capacity == s.capacity }

  lemma BoundedStep(s: State, t: State, e: Event)
    requires Bounded(s, t) && Enabled(t, e)
    ensures Bounded(s, Apply(t, e))
  {}

  lemma BoundedRun(s: State, es: seq<Event>)
    requires Init(s) && Exec(Step, s, es).Some?
    ensures Bounded(s, Exec(Step, s, es).value)
  {
    var inv := (t: State) => Bounded(s, t);
    forall t, e | inv(t) && Step(t, e).Some? ensures inv(Step(t, e).value) { BoundedStep(s, t, e); }
    Invariance(Step, inv, s, es);
  }

  lemma {:induction false} SendsSucceed(s: State, es: seq<Event>)
    requires Init(s) && Exec(Step, s, es).Some? && NoFailure(es)
    ensures !Exec(Step, s, es).value.sendFailed
    decreases |es|
  {
    if es != [] {
      var fs, e := es[..|es| - 1], es[|es| - 1];
      assert e in es && forall d :: d in fs ==> d in es;
      SendsSucceed(s, fs);
    }
  }

  lemma TruncationIsDangerous(s: State, es: seq<Event>)
    requires Init(s) && Truncates(s, es)
    ensures var t := Exec(Step, s, es).value;
            Fits(t.blocks) && Concat(t.blocks) == s.input && Dangerous(t.blocks, t.received, s.capacity)
  {
    var t := Exec(Step, s, es).value;
    InvRun(s, es);
    BoundedRun(s, es);
    SendsSucceed(s, es);
    CompleteIffEndedByEof(s, es);
    assert t.input[..t.pos] == t.input;
  }

  // ---------- Every late lookalike does ----------

  /** m blocks sent, r received, o written out; the receiver at rc. */
  function Mid(s: State, blocks: seq<seq<byte>>, m: nat, r: nat, o: nat, rc: Receiver): State
    requires o <= r <= m <= |blocks| && Fits(blocks)
  {
    s.(pos := |Concat(blocks[..m])|, blocks := blocks[..m], sent := m, queue := blocks[r..m], received := r,
       buffer := Overlaid(blocks[..r]), output := Concat(blocks[..o]), receiver := rc)
  }

  predicate Setup(s: State, blocks: seq<seq<byte>>) {
    Init(s) && Fits(blocks) && s.input == Concat(blocks)
  }

  lemma NextBlock(blocks: seq<seq<byte>>, k: nat)
    requires k < |blocks|
    ensures var pos := |Concat(blocks[..k])|;
            pos + |blocks[k]| <= |Concat(blocks)| && Concat(blocks)[pos..pos + |blocks[k]|] == blocks[k]
            && |Concat(blocks[..k + 1])| == pos + |blocks[k]|
  {
    TakeOne(blocks, k);
    ConcatAppend(blocks[..k], blocks[k]);
    ConcatPrefix(blocks, k + 1);
  }

  /** A run without failures from s to t. */
  predicate Leads(s: State, es: seq<Event>, t: State) { Exec(Step, s, es) == Some(t) && NoFailure(es) }

  /** One more event of a run without failures. */
  lemma Then(s: State, es: seq<Event>, t: State, e: Event, u: State)
    requires Leads(s, es, t) && Enabled(t, e) && Harmless(e) && u == Apply(t, e)
    ensures Leads(s, es + [e], u)
  {
    Extend(s, es, t, e, u);
  }

  /** The state between reading block m and sending it. */
  function AfterReading(t: State, blocks: seq<seq<byte>>, m: nat): State
    requires m < |blocks|
  {
    t.(pos := t.pos + |blocks[m]|, blocks := blocks[..m + 1], sender := SSend)
  }

  lemma ReadNext(s: State, blocks: seq<seq<byte>>, m: nat, r: nat, o: nat, rc: Receiver)
    requires Setup(s, blocks) && o <= r <= m < |blocks|
    ensures var t, n := Mid(s, blocks, m, r, o, rc), |blocks[m]|;
            Enabled(t, Read(n)) && AfterRead(t, n) == AfterReading(t, blocks, m)
  {
    NextBlock(blocks, m);
    TakeOne(blocks, m);
  }

  lemma SendRead(s: State, blocks: seq<seq<byte>>, m: nat, r: nat, o: nat, rc: Receiver)
    requires Setup(s, blocks) && o <= r <= m < |blocks| && m - r < s.capacity
    ensures var u := AfterReading(Mid(s, blocks, m, r, o, rc), blocks, m);
            Enabled(u, Send(true)) && AfterSend(u, true) == Mid(s, blocks, m + 1, r, o, rc)
  {
    NextBlock(blocks, m);
    TakeOne(blocks, m);
    RangeGrows(blocks, r, m);
  }

  lemma SendNext(s: State, blocks: seq<seq<byte>>, m: nat, r: nat, o: nat, rc: Receiver, es: seq<Event>)
    returns (fs: seq<Event>)
    requires Setup(s, blocks) && o <= r <= m < |blocks| && m - r < s.capacity
    requires Leads(s, es, Mid(s, blocks, m, r, o, rc))
    ensures Leads(s, fs, Mid(s, blocks, m + 1, r, o, rc))
  {
    var t, n := Mid(s, blocks, m, r, o, rc), |blocks[m]|;
    ReadNext(s, blocks, m, r, o, rc);
    SendRead(s, blocks, m, r, o, rc);
    Then(s, es, t, Read(n), AfterReading(t, blocks, m));
    Then(s, es + [Read(n)], AfterReading(t, blocks, m), Send(true), Mid(s, blocks, m + 1, r, o, rc));
    fs := es + [Read(n)] + [Send(true)];
  }

  lemma TakeNext(s: State, blocks: seq<seq<byte>>, m: nat, r: nat, o: nat, es: seq<Event>) returns (fs: seq<Event>)
    requires Setup(s, blocks) && o <= r < m <= |blocks|
    requires Leads(s, es, Mid(s, blocks, m, r, o, RReceive))
    ensures Leads(s, fs, Mid(s, blocks, m, r + 1, o, RTest(|blocks[r]|, false)))
  {
    var t := Mid(s, blocks, m, r, o, RReceive);
    TakeOne(blocks, r);
    assert t.queue[0] == blocks[r] && t.queue[1..] == blocks[r + 1..m];
    Then(s, es, t, Receive(true), Mid(s, blocks, m, r + 1, o, RTest(|blocks[r]|, false)));
    fs := es + [Receive(true)];
  }

  lemma WriteBlock(s: State, blocks: seq<seq<byte>>, m: nat, r: nat)
    requires Setup(s, blocks) && r < m <= |blocks|
    ensures var u, n := Mid(s, blocks, m, r + 1, r, RWrite(|blocks[r]|, 0)), |blocks[r]|;
            Enabled(u, Write(n)) && AfterWrite(u, n) == Mid(s, blocks, m, r + 1, r + 1, RReceive)
  {
    TakeOne(blocks, r);
    ConcatPrefix(blocks, m);
    assert Overlaid(blocks[..r + 1])[0..|blocks[r]|] == blocks[r];
    ConcatAppend(blocks[..r], blocks[r]);
  }

  lemma WriteNext(s: State, blocks: seq<seq<byte>>, m: nat, r: nat, es: seq<Event>) returns (fs: seq<Event>)
    requires Setup(s, blocks) && r < m <= |blocks|
    requires Leads(s, es, Mid(s, blocks, m, r + 1, r, RTest(|blocks[r]|, false)))
    ensures Leads(s, fs, Mid(s, blocks, m, r + 1, r + 1, RReceive))
  {
    var n := |blocks[r]|;
    var t, u := Mid(s, blocks, m, r + 1, r, RTest(n, false)), Mid(s, blocks, m, r + 1, r, RWrite(n, 0));
    Then(s, es, t, Test, u);
    WriteBlock(s, blocks, m, r);
    Then(s, es + [Test], u, Write(n), Mid(s, blocks, m, r + 1, r + 1, RReceive));
    fs := es + [Test] + [Write(n)];
  }

  /** The receiver keeps up with the sender for j blocks. */
  lemma {:induction false} KeepUp(s: State, blocks: seq<seq<byte>>, j: nat) returns (es: seq<Event>)
    requires Setup(s, blocks) && 0 < s.capacity && j <= |blocks|
    ensures Leads(s, es, Mid(s, blocks, j, j, j, RReceive))
  {
    if j == 0 {
      es := [];
    } else {
      es := KeepUp(s, blocks, j - 1);
      es := SendNext(s, blocks, j - 1, j - 1, j - 1, RReceive, es);
      es := TakeNext(s, blocks, j, j - 1, j - 1, es);
      es := WriteNext(s, blocks, j, j - 1, es);
    }
  }

  /** Block j is taken and not yet tested. */
  lemma TakeUntested(s: State, blocks: seq<seq<byte>>, j: nat) returns (es: seq<Event>)
    requires Setup(s, blocks) && 0 < s.capacity && j < |blocks|
    ensures Leads(s, es, Mid(s, blocks, j + 1, j + 1, j, RTest(|blocks[j]|, false)))
  {
    es := KeepUp(s, blocks, j);
    es := SendNext(s, blocks, j, j, j, RReceive, es);
    es := TakeNext(s, blocks, j + 1, j, j, es);
  }

  /** The sender goes on from block k up to block m while the receiver does nothing. */
  lemma {:induction false} SendMore(s: State, blocks: seq<seq<byte>>, k: nat, m: nat, r: nat, o: nat, rc: Receiver,
                                    es: seq<Event>)
    returns (fs: seq<Event>)
    requires Setup(s, blocks) && o <= r <= k <= m <= |blocks| && m - r <= s.capacity
    requires Leads(s, es, Mid(s, blocks, k, r, o, rc))
    ensures Leads(s, fs, Mid(s, blocks, m, r, o, rc))
    decreases m - k
  {
    if k == m {
      fs := es;
    } else {
      fs := SendNext(s, blocks, k, r, o, rc, es);
      fs := SendMore(s, blocks, k + 1, m, r, o, rc, fs);
    }
  }

  /** The sender goes on up to block m while the receiver holds block j. */
  lemma SendOn(s: State, blocks: seq<seq<byte>>, j: nat, m: nat) returns (es: seq<Event>)
    requires Setup(s, blocks) && 0 < s.capacity && j < m <= |blocks| && m - j - 1 <= s.capacity
    ensures Leads(s, es, Mid(s, blocks, m, j + 1, j, RTest(|blocks[j]|, false)))
  {
    es := TakeUntested(s, blocks, j);
    es := SendMore(s, blocks, j + 1, m, j + 1, j, RTest(|blocks[j]|, false), es);
  }

  /** The flag is set while the receiver holds the lookalike, which ends its loop. */
  lemma DangerousTruncates(s: State, blocks: seq<seq<byte>>, k: nat) returns (es: seq<Event>)
    requires Setup(s, blocks) && 0 < s.capacity && Dangerous(blocks, k, s.capacity)
    ensures Truncates(s, es)
    ensures var t := Exec(Step, s, es).value;
            t.blocks == blocks && t.sender == SSendEof && t.receiver == RDone(0, false) && |t.queue| == |blocks| - k
  {
    var n := |blocks|;
    var rc := RTest(|blocks[k - 1]|, false);
    es := SendOn(s, blocks, k - 1, n);
    var t := Mid(s, blocks, n, k, k - 1, rc);
    assert blocks[..n] == blocks;
    var u := t.(sender := SFlag);
    Then(s, es, t, Read(0), u);
    var v := u.(eofFlag := true, sender := SSendEof);
    Then(s, es + [Read(0)], u, SetFlag, v);
    Then(s, es + [Read(0)] + [SetFlag], v, Test, v.(receiver := RDone(0, false)));
    es := es + [Read(0)] + [SetFlag] + [Test];
    CompleteIffEndedByEof(s, es);
  }

  // ---------- Main results ----------

  /**
   Some run without failures over these blocks truncates the copy if and only if some block, laid over what
   the buffer held before, begins with "EOF" and all blocks behind it fit the queue together.
   */
  lemma BlocksTruncateIff(s: State, blocks: seq<seq<byte>>)
    requires Setup(s, blocks) && 0 < s.capacity
    ensures (exists es :: Truncates(s, es) && Exec(Step, s, es).value.blocks == blocks) <==>
            exists k :: Dangerous(blocks, k, s.capacity)
  {
    if es :| Truncates(s, es) && Exec(Step, s, es).value.blocks == blocks {
      TruncationIsDangerous(s, es);
    }
    if k :| Dangerous(blocks, k, s.capacity) {
      var es := DangerousTruncates(s, blocks, k);
    }
  }

  /** A file can be truncated if and only if it can be read in such blocks. */
  lemma FileTruncatesIff(s: State)
    requires Init(s) && 0 < s.capacity
    ensures (exists es :: Truncates(s, es)) <==>
            exists blocks: seq<seq<byte>>, k :: Fits(blocks) && Concat(blocks) == s.input
              && Dangerous(blocks, k, s.capacity)
  {
    if es :| Truncates(s, es) {
      TruncationIsDangerous(s, es);
    }
    if blocks: seq<seq<byte>>, k :| Fits(blocks) && Concat(blocks) == s.input && Dangerous(blocks, k, s.capacity) {
      var es := DangerousTruncates(s, blocks, k);
    }
  }

  /** The smallest case: a file that consists of the three letters EOF. */
  lemma EofFileIsTruncated(s: State) returns (es: seq<Event>)
    requires Init(s) && s.input == EOF_MSG && 0 < s.capacity
    ensures Truncates(s, es)
  {
    ConcatAppend<byte>([], EOF_MSG);
    assert [] + [EOF_MSG] == [EOF_MSG];
    assert [EOF_MSG][..1] == [EOF_MSG];
    assert StartsWithEof(Overlaid([EOF_MSG][..1]));
    es := DangerousTruncates(s, [EOF_MSG], 1);
  }
}
