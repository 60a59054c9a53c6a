/** What the three copy programs of sem_3 have in common: the output only grows by the next input bytes. */
module CopySpec {
  import opened Runs

  /** One step of the specification: nothing, or the next unread bytes are appended. */
  predicate CopyStep(input: seq<byte>, output: seq<byte>, output': seq<byte>) {
    output' == output || (output <= input && |output| < |output'| && output' <= input)
  }

  /** A run of the specification from an empty output keeps the output a prefix of the input. */
  lemma {:induction false} CopyRun(input: seq<byte>, outputs: seq<seq<byte>>)
    requires outputs != [] && outputs[0] == []
    requires forall i :: 0 <= i < |outputs| - 1 ==> CopyStep(input, outputs[i], outputs[i + 1])
    ensures outputs[|outputs| - 1] <= input
  {
    if 1 < |outputs| {
      var prev := outputs[..|outputs| - 1];
      CopyRun(input, prev);
      assert CopyStep(input, outputs[|outputs| - 2], outputs[|outputs| - 1]);
    }
  }
}
