/** `batch_contents` (src/scheduler/leaderboard_task.rs, and the identical
    copy in src/discord/leaderboard_command.rs): leaderboard messages packed,
    whole and in order, into as few Discord messages as the length limit
    allows. */
module Batching {
  import opened Strings

  /** The loop state: the batches pushed so far, the batch being filled, and
      where each batch's inputs begin (`cuts[k]` for batch `k`, the last
      entry for the current one). The cuts are not in the source; they record
      which inputs went where. */
  datatype Batcher = Batcher(batches: seq<string>, current: string, cuts: seq<nat>)

  /** The separator the source counts (one character for a newline between
      two messages) but never inserts. */
  function SeparatorLength(current: string): nat {
    if |current| == 0 then 0 else 1
  }

  /** One turn of the loop for the input `content` at position `at`. As
      written (`skipEmpty` false), an input that does not fit pushes the
      current batch even when it is empty; the corrected loop (`skipEmpty`
      true) starts the new batch in place of an empty one. */
  function Step(b: Batcher, content: string, at: nat, maxLength: nat, skipEmpty: bool): Batcher {
    if |b.current| + |content| + SeparatorLength(b.current) > maxLength then
      if skipEmpty && |b.current| == 0 then Batcher(b.batches, content, b.cuts)
      else Batcher(b.batches + [b.current], content, b.cuts + [at])
    else Batcher(b.batches, b.current + content, b.cuts)
  }

  /** The loop over all inputs. */
  function Run(contents: seq<string>, maxLength: nat, skipEmpty: bool): Batcher {
    if |contents| == 0 then Batcher([], "", [0])
    else
      Step(Run(contents[..|contents| - 1], maxLength, skipEmpty), contents[|contents| - 1],
           |contents| - 1, maxLength, skipEmpty)
  }

  /** After the loop: a non-empty current batch is pushed as the last one. */
  function Finish(b: Batcher, n: nat): Batcher {
    if |b.current| > 0 then Batcher(b.batches + [b.current], "", b.cuts + [n]) else b
  }

  /** `batch_contents` as the source writes it. */
  function BatchContentsAsWritten(contents: seq<string>, maxLength: nat): seq<string> {
    Finish(Run(contents, maxLength, false), |contents|).batches
  }

  // -------------------------------------------------------------------------
  // What a batching must satisfy
  // -------------------------------------------------------------------------

  /** `count + 1` batch starts from 0, non-decreasing, within `n` inputs. */
  predicate CutsFit(cuts: seq<nat>, count: nat, n: nat) {
    && |cuts| == count + 1
    && cuts[0] == 0
    && (forall k :: 0 <= k < |cuts| ==> cuts[k] <= n)
    && (forall k :: 0 <= k < count ==> cuts[k] <= cuts[k + 1])
  }

  /** `batch` is the inputs from `lo` up to `hi` run together, and if it is
      longer than the limit it is a single one of those inputs. */
  predicate Holds(contents: seq<string>, batch: string, lo: nat, hi: nat, maxLength: nat)
    requires lo <= hi <= |contents|
  {
    && batch == Concat(contents[lo..hi])
    && (|batch| <= maxLength || exists j :: lo <= j < hi && batch == contents[j])
  }

  /** Batch `k` holds the inputs from `cuts[k]` up to `cuts[k + 1]`. */
  predicate AllHold(contents: seq<string>, batches: seq<string>, cuts: seq<nat>, maxLength: nat)
    requires CutsFit(cuts, |batches|, |contents|)
  {
    forall k :: 0 <= k < |batches| ==> Holds(contents, batches[k], cuts[k], cuts[k + 1], maxLength)
  }

  /** Inputs are never split and keep their order, and a batch over the
      limit is a single input. Whatever follows the last batch is empty
      text. */
  predicate Grouped(contents: seq<string>, batches: seq<string>, cuts: seq<nat>, maxLength: nat) {
    && CutsFit(cuts, |batches|, |contents|)
    && AllHold(contents, batches, cuts, maxLength)
    && Concat(contents[cuts[|batches|]..]) == ""
  }

  /** What holds after each turn of the loop. */
  predicate Invariant(contents: seq<string>, b: Batcher, maxLength: nat, skipEmpty: bool) {
    && CutsFit(b.cuts, |b.batches|, |contents|)
    && AllHold(contents, b.batches, b.cuts, maxLength)
    && Holds(contents, b.current, b.cuts[|b.batches|], |contents|, maxLength)
    && (skipEmpty ==> forall k :: 0 <= k < |b.batches| ==> |b.batches[k]| > 0)
  }

  lemma ConcatSnoc(xs: seq<string>, x: string)
    ensures Concat(xs + [x]) == Concat(xs) + x
  {
    assert (xs + [x])[..|xs + [x]| - 1] == xs;
  }

  /** Appending an input leaves what earlier ranges hold alone. */
  lemma HoldsExtended(contents: seq<string>, c: string, batch: string, lo: nat, hi: nat, maxLength: nat)
    requires lo <= hi <= |contents|
    requires Holds(contents, batch, lo, hi, maxLength)
    ensures Holds(contents + [c], batch, lo, hi, maxLength)
  {
    var xs := contents + [c];
    assert xs[lo..hi] == contents[lo..hi];
    if |batch| > maxLength {
      var j :| lo <= j < hi && batch == contents[j];
      assert xs[j] == contents[j];
    }
  }

  lemma AllHoldExtended(contents: seq<string>, c: string, b: Batcher, maxLength: nat, skipEmpty: bool)
    requires Invariant(contents, b, maxLength, skipEmpty)
    ensures CutsFit(b.cuts, |b.batches|, |contents| + 1)
    ensures AllHold(contents + [c], b.batches, b.cuts, maxLength)
  {
    forall k | 0 <= k < |b.batches|
      ensures Holds(contents + [c], b.batches[k], b.cuts[k], b.cuts[k + 1], maxLength)
    {
      HoldsExtended(contents, c, b.batches[k], b.cuts[k], b.cuts[k + 1], maxLength);
    }
  }

  /** The current batch grows by the input. */
  lemma StepAppends(contents: seq<string>, b: Batcher, c: string, maxLength: nat, skipEmpty: bool)
    requires Invariant(contents, b, maxLength, skipEmpty)
    requires |b.current| + |c| + SeparatorLength(b.current) <= maxLength
    ensures Invariant(contents + [c], Step(b, c, |contents|, maxLength, skipEmpty), maxLength, skipEmpty)
  {
    var xs := contents + [c];
    var lo := b.cuts[|b.batches|];
    AllHoldExtended(contents, c, b, maxLength, skipEmpty);
    assert xs[lo..|xs|] == contents[lo..|contents|] + [c];
    ConcatSnoc(contents[lo..|contents|], c);
  }

  /** Pushing a batch that holds the next range keeps every batch holding. */
  lemma PushHolds(xs: seq<string>, batches: seq<string>, cuts: seq<nat>, batch: string, hi: nat, maxLength: nat)
    requires CutsFit(cuts, |batches|, |xs|) && AllHold(xs, batches, cuts, maxLength)
    requires cuts[|batches|] <= hi <= |xs|
    requires Holds(xs, batch, cuts[|batches|], hi, maxLength)
    ensures CutsFit(cuts + [hi], |batches| + 1, |xs|)
    ensures AllHold(xs, batches + [batch], cuts + [hi], maxLength)
  {
    var bs, cs := batches + [batch], cuts + [hi];
    forall k | 0 <= k < |bs|
      ensures Holds(xs, bs[k], cs[k], cs[k + 1], maxLength)
    {
      if k < |batches| {
        assert bs[k] == batches[k] && cs[k] == cuts[k] && cs[k + 1] == cuts[k + 1];
      }
    }
  }

  /** The input starts a new batch, after pushing the current one. */
  lemma StepPushes(contents: seq<string>, b: Batcher, c: string, maxLength: nat, skipEmpty: bool)
    requires Invariant(contents, b, maxLength, skipEmpty)
    requires |b.current| + |c| + SeparatorLength(b.current) > maxLength
    requires !(skipEmpty && |b.current| == 0)
    ensures Invariant(contents + [c], Step(b, c, |contents|, maxLength, skipEmpty), maxLength, skipEmpty)
  {
    var n := |contents|;
    var xs := contents + [c];
    var r := Step(b, c, n, maxLength, skipEmpty);
    assert r == Batcher(b.batches + [b.current], c, b.cuts + [n]);
    AllHoldExtended(contents, c, b, maxLength, skipEmpty);
    HoldsExtended(contents, c, b.current, b.cuts[|b.batches|], n, maxLength);
    SingleHolds(xs, n, maxLength);
    PushHolds(xs, b.batches, b.cuts, b.current, n, maxLength);
    if skipEmpty {
      forall k | 0 <= k < |r.batches|
        ensures |r.batches[k]| > 0
      {
        if k < |b.batches| {
          assert r.batches[k] == b.batches[k];
        }
      }
    }
  }

  /** A single input holds itself. */
  lemma SingleHolds(xs: seq<string>, n: nat, maxLength: nat)
    requires n < |xs|
    ensures Holds(xs, xs[n], n, n + 1, maxLength)
  {
    assert xs[n..n + 1] == [xs[n]];
    assert Concat([xs[n]]) == Concat([]) + xs[n];
  }

  /** The corrected loop: an empty current batch is replaced, not pushed. */
  lemma StepReplacesEmpty(contents: seq<string>, b: Batcher, c: string, maxLength: nat)
    requires Invariant(contents, b, maxLength, true)
    requires |b.current| + |c| + SeparatorLength(b.current) > maxLength
    requires |b.current| == 0
    ensures Invariant(contents + [c], Step(b, c, |contents|, maxLength, true), maxLength, true)
  {
    var n := |contents|;
    var xs := contents + [c];
    var lo := b.cuts[|b.batches|];
    AllHoldExtended(contents, c, b, maxLength, true);
    assert xs[lo..|xs|] == contents[lo..n] + [c];
    ConcatSnoc(contents[lo..n], c);
    assert xs[n] == c;
  }

  lemma {:induction false} RunInvariant(contents: seq<string>, maxLength: nat, skipEmpty: bool)
    ensures Invariant(contents, Run(contents, maxLength, skipEmpty), maxLength, skipEmpty)
    decreases |contents|
  {
    if |contents| == 0 {
      assert contents[0..0] == [];
    } else {
      var n := |contents| - 1;
      var init, c := contents[..n], contents[n];
      assert init + [c] == contents;
      RunInvariant(init, maxLength, skipEmpty);
      var b := Run(init, maxLength, skipEmpty);
      if |b.current| + |c| + SeparatorLength(b.current) <= maxLength {
        StepAppends(init, b, c, maxLength, skipEmpty);
      } else if skipEmpty && |b.current| == 0 {
        StepReplacesEmpty(init, b, c, maxLength);
      } else {
        StepPushes(init, b, c, maxLength, skipEmpty);
      }
    }
  }

  lemma FinishGrouped(contents: seq<string>, b: Batcher, maxLength: nat, skipEmpty: bool)
    requires Invariant(contents, b, maxLength, skipEmpty)
    ensures var f := Finish(b, |contents|);
      Grouped(contents, f.batches, f.cuts, maxLength)
      && (skipEmpty ==> forall k :: 0 <= k < |f.batches| ==> |f.batches[k]| > 0)
  {
    var n := |contents|;
    var lo := b.cuts[|b.batches|];
    assert contents[lo..] == contents[lo..n];
    if |b.current| > 0 {
      var f := Finish(b, n);
      assert contents[n..] == [];
      forall k | 0 <= k < |f.batches|
        ensures Holds(contents, f.batches[k], f.cuts[k], f.cuts[k + 1], maxLength)
      {
        if k < |b.batches| {
          assert f.batches[k] == b.batches[k] && f.cuts[k] == b.cuts[k] && f.cuts[k + 1] == b.cuts[k + 1];
        }
      }
    }
  }

  /** Both versions group the inputs as `Grouped` says; the corrected one
      never produces an empty batch. */
  lemma BatchesAreGrouped(contents: seq<string>, maxLength: nat, skipEmpty: bool)
    ensures var f := Finish(Run(contents, maxLength, skipEmpty), |contents|);
      Grouped(contents, f.batches, f.cuts, maxLength)
      && (skipEmpty ==> forall k :: 0 <= k < |f.batches| ==> |f.batches[k]| > 0)
  {
    RunInvariant(contents, maxLength, skipEmpty);
    FinishGrouped(contents, Run(contents, maxLength, skipEmpty), maxLength, skipEmpty);
  }

  // -------------------------------------------------------------------------
  // Consequences
  // -------------------------------------------------------------------------

  lemma ConcatSplit(xs: seq<string>, i: nat)
    requires i <= |xs|
    ensures Concat(xs) == Concat(xs[..i]) + Concat(xs[i..])
  {
    assert xs == xs[..i] + xs[i..];
    ConcatAppend(xs[..i], xs[i..]);
  }

  /** One batch in front of the rest, as ranges of the inputs. */
  lemma ConcatStep(contents: seq<string>, lo: nat, mid: nat, batch: string, tail: seq<string>)
    requires lo <= mid <= |contents|
    requires batch == Concat(contents[lo..mid])
    requires Concat(tail) == Concat(contents[mid..])
    ensures Concat([batch] + tail) == Concat(contents[lo..])
  {
    var rest := contents[lo..];
    ConcatSplit(rest, mid - lo);
    assert rest[..mid - lo] == contents[lo..mid];
    assert rest[mid - lo..] == contents[mid..];
    ConcatAppend([batch], tail);
    assert Concat([batch]) == Concat([]) + batch;
  }

  /** The batches from `k` on concatenate to the inputs from `cuts[k]` on. */
  lemma {:induction false} GroupedConcatFrom(contents: seq<string>, batches: seq<string>, cuts: seq<nat>,
                                             maxLength: nat, k: nat)
    requires Grouped(contents, batches, cuts, maxLength)
    requires k <= |batches|
    ensures cuts[k] <= |contents|
    ensures Concat(batches[k..]) == Concat(contents[cuts[k]..])
    decreases |batches| - k
  {
    if k == |batches| {
      assert batches[k..] == [];
    } else {
      GroupedConcatFrom(contents, batches, cuts, maxLength, k + 1);
      assert Holds(contents, batches[k], cuts[k], cuts[k + 1], maxLength);
      assert batches[k..] == [batches[k]] + batches[k + 1..];
      ConcatStep(contents, cuts[k], cuts[k + 1], batches[k], batches[k + 1..]);
    }
  }

  /** A grouping loses and adds nothing: the batches concatenate to the
      inputs. */
  lemma GroupedConcat(contents: seq<string>, batches: seq<string>, cuts: seq<nat>, maxLength: nat)
    requires Grouped(contents, batches, cuts, maxLength)
    ensures Concat(batches) == Concat(contents)
  {
    GroupedConcatFrom(contents, batches, cuts, maxLength, 0);
    assert batches[0..] == batches && contents[0..] == contents;
  }

  /** `batch_contents` as written: the batches concatenate to the inputs,
      each input lies inside one batch, and a batch over the limit is a single
      input. */
  lemma AsWrittenGroups(contents: seq<string>, maxLength: nat)
    ensures Concat(BatchContentsAsWritten(contents, maxLength)) == Concat(contents)
    ensures var f := Finish(Run(contents, maxLength, false), |contents|);
      Grouped(contents, BatchContentsAsWritten(contents, maxLength), f.cuts, maxLength)
  {
    BatchesAreGrouped(contents, maxLength, false);
    var f := Finish(Run(contents, maxLength, false), |contents|);
    GroupedConcat(contents, f.batches, f.cuts, maxLength);
  }

  /** The corrected `batch_contents`: the same guarantees, and no batch is
      empty. */
  function BatchContents(contents: seq<string>, maxLength: nat): (batches: seq<string>)
    ensures Concat(batches) == Concat(contents)
    ensures exists cuts :: Grouped(contents, batches, cuts, maxLength)
    ensures forall k :: 0 <= k < |batches| ==> |batches[k]| > 0
  {
    BatchesAreGrouped(contents, maxLength, true);
    var f := Finish(Run(contents, maxLength, true), |contents|);
    GroupedConcat(contents, f.batches, f.cuts, maxLength);
    f.batches
  }

  /** No inputs, no batches. */
  lemma NoInputsNoBatches(maxLength: nat)
    ensures BatchContentsAsWritten([], maxLength) == []
    ensures BatchContents([], maxLength) == []
  {
  }

  /** As written, an input longer than the limit that arrives at an empty
      buffer is preceded by an empty batch: one oversized message becomes an
      empty message and itself. */
  lemma EmptyBatchAsWritten(s: string, maxLength: nat)
    requires |s| > maxLength
    ensures BatchContentsAsWritten([s], maxLength) == ["", s]
    ensures BatchContents([s], maxLength) == [s]
  {
    assert [s][..0] == [];
    assert Run([s], maxLength, false) == Batcher([""], s, [0, 0]);
    assert Run([s], maxLength, true) == Batcher([], s, [0]);
  }

  /** The source's loop, as a method. */
  method BatchContentsLoop(contents: seq<string>, maxLength: nat) returns (batches: seq<string>)
    ensures batches == BatchContentsAsWritten(contents, maxLength)
    ensures Concat(batches) == Concat(contents)
  {
    var b := Batcher([], "", [0]);
    var i := 0;
    while i < |contents|
      invariant 0 <= i <= |contents|
      invariant b == Run(contents[..i], maxLength, false)
    {
      assert contents[..i + 1][..i] == contents[..i];
      b := Step(b, contents[i], i, maxLength, false);
      i := i + 1;
    }
    assert contents[..i] == contents;
    batches := Finish(b, |contents|).batches;
    AsWrittenGroups(contents, maxLength);
  }
}
