/** What one upload run promises, and what any chain of interrupted runs therefore achieves. */
module UploadRuns {
  import opened Wrappers
  import opened Machine
  import opened UploadTypes
  import opened UploadSession

  /** The parts a remote upload session holds. */
  type Remote = map<U32, Bytes>

  datatype Ending =
    | Interrupted(after: Checkpoint)
    | Finished(after: Checkpoint, result: UploadResult, assembled: Bytes)

  /** One run: what it was given, the part numbers it sent, and what it left behind. */
  datatype Run = Run(
    source: Bytes, before: Checkpoint, partsBefore: Remote, uploads: seq<U32>, partsAfter: Remote, ending: Ending)

  /** Two maps agree on one part number. */
  ghost predicate SameOn<V>(a: map<U32, V>, b: map<U32, V>, k: U32) {
    (k in a <==> k in b) && (k in a ==> a[k] == b[k])
  }

  /**
    The account of part `k`. If it was sent, no valid entry covered it, and an entry it has now was
    accepted in this run for the bytes now held remotely; otherwise its entry and bytes are untouched.
   */
  ghost predicate PartAccounted(
    options: Options, digest: Digest, chunks: seq<Bytes>, before: Parts, partsBefore: Remote,
    sent: bool, partsAfter: Remote, after: Parts, k: U32)
  {
    if sent then
      && 1 <= k <= |chunks|
      && !(k in before && Describes(options, digest, before[k], chunks[k - 1]))
      && (k in after ==>
            Describes(options, digest, after[k], chunks[k - 1]) && k in partsAfter && partsAfter[k] == chunks[k - 1])
    else
      SameOn(before, after, k) && SameOn(partsBefore, partsAfter, k)
  }

  ghost predicate Accounted(
    options: Options, digest: Digest, chunks: seq<Bytes>, before: Parts, partsBefore: Remote,
    uploads: seq<U32>, partsAfter: Remote, after: Parts)
  {
    forall k: U32 :: PartAccounted(options, digest, chunks, before, partsBefore, k in uploads, partsAfter, after, k)
  }

  /** Exactly the parts of the source are recorded, each by an entry that describes it. */
  ghost predicate Covers(options: Options, digest: Digest, chunks: seq<Bytes>, completed: Parts) {
    && 0 < |chunks| <= U32_MAX
    && (forall k: U32 :: k in completed <==> 1 <= k <= |chunks|)
    && forall k: U32 :: 1 <= k <= |chunks| ==> Describes(options, digest, completed[k], chunks[k - 1])
  }

  /** The object a remote session assembles from the listed parts. */
  ghost function Assemble(remote: Remote, listed: seq<UploadedPart>): Bytes
    requires forall p :: p in listed ==> p.partNumber in remote
  {
    if listed == [] then [] else remote[listed[0].partNumber] + Assemble(remote, listed[1..])
  }

  ghost predicate Listed(remote: Remote, listed: seq<UploadedPart>) {
    forall p :: p in listed ==> p.partNumber in remote
  }

  /** The promise of a run, whatever the backend and the reader did. */
  ghost predicate RunSpec(options: Options, digest: Digest, run: Run) {
    && options.Valid()
    && ValidCheckpoint(options, run.ending.after)
    && run.ending.after == run.before.(completed := run.ending.after.completed)
    && var chunks := Chunks(run.source, options.partSize);
    && Accounted(options, digest, chunks, run.before.completed, run.partsBefore,
                 run.uploads, run.partsAfter, run.ending.after.completed)
    && (run.ending.Finished? ==>
          && Covers(options, digest, chunks, run.ending.after.completed)
          && var result := run.ending.result;
          && result.completedParts == Ordered(run.ending.after.completed, |chunks|)
          && result.totalParts == |chunks|
          && result.totalBytes == Min(|run.source|, U64_MAX)
          && result.uploadId == run.before.uploadId
          && Listed(run.partsAfter, result.completedParts)
          && run.ending.assembled == Assemble(run.partsAfter, result.completedParts))
  }

  /** Each run starts where the previous one stopped: same session, same remote parts. */
  ghost predicate Chain(options: Options, digest: Digest, runs: seq<Run>) {
    && options.Valid()
    && (forall i :: 0 <= i < |runs| ==> RunSpec(options, digest, runs[i]))
    && (forall i :: 0 <= i < |runs| - 1 ==> runs[i].ending.Interrupted?)
    && (forall i, j :: 0 <= i < j == i + 1 < |runs| ==>
          runs[j].before == runs[i].ending.after && runs[j].partsBefore == runs[i].partsAfter)
  }

  // ------------------------------------------------------ unchanged source

  /** Every recorded part is a part of this source, described by its entry and held remotely. */
  ghost predicate Faithful(options: Options, digest: Digest, chunks: seq<Bytes>, completed: Parts, remote: Remote) {
    forall k :: k in completed ==>
      && 1 <= k <= |chunks|
      && Describes(options, digest, completed[k], chunks[k - 1])
      && k in remote && remote[k] == chunks[k - 1]
  }

  lemma RunKeepsFaithful(options: Options, digest: Digest, run: Run)
    requires RunSpec(options, digest, run)
    requires Faithful(options, digest, Chunks(run.source, options.partSize), run.before.completed, run.partsBefore)
    ensures Faithful(options, digest, Chunks(run.source, options.partSize), run.ending.after.completed, run.partsAfter)
    ensures forall k :: k in run.before.completed ==> k in run.ending.after.completed && k !in run.uploads
  {
    hide Describes, Covers, Assemble;
    forall k: U32
      ensures k in run.before.completed ==> k in run.ending.after.completed && k !in run.uploads
      ensures k in run.ending.after.completed ==>
                var chunks := Chunks(run.source, options.partSize);
                && 1 <= k <= |chunks|
                && Describes(options, digest, run.ending.after.completed[k], chunks[k - 1])
                && k in run.partsAfter && run.partsAfter[k] == chunks[k - 1]
    {
      AccountOf(options, digest, run, k);
    }
  }

  lemma AccountOf(options: Options, digest: Digest, run: Run, k: U32)
    requires RunSpec(options, digest, run)
    ensures PartAccounted(options, digest, Chunks(run.source, options.partSize), run.before.completed, run.partsBefore,
                          k in run.uploads, run.partsAfter, run.ending.after.completed, k)
  {
  }

  lemma {:induction false} ChainKeepsFaithful(options: Options, digest: Digest, source: Bytes, runs: seq<Run>, i: nat)
    requires Chain(options, digest, runs) && i < |runs|
    requires forall r :: r in runs ==> r.source == source
    requires Faithful(options, digest, Chunks(source, options.partSize), runs[0].before.completed, runs[0].partsBefore)
    ensures Faithful(options, digest, Chunks(source, options.partSize), runs[i].before.completed, runs[i].partsBefore)
    ensures Faithful(options, digest, Chunks(source, options.partSize), runs[i].ending.after.completed, runs[i].partsAfter)
    decreases i
  {
    if i > 0 {
      ChainKeepsFaithful(options, digest, source, runs, i - 1);
    }
    assert runs[i] in runs;
    RunKeepsFaithful(options, digest, runs[i]);
  }

  /** A part recorded after run `i` is still recorded, and was never sent again, by the end of run `j`. */
  lemma {:induction false} AcceptedStaysAccepted(
    options: Options, digest: Digest, source: Bytes, runs: seq<Run>, i: nat, j: nat, k: U32)
    requires Chain(options, digest, runs) && i < j < |runs|
    requires forall r :: r in runs ==> r.source == source
    requires Faithful(options, digest, Chunks(source, options.partSize), runs[0].before.completed, runs[0].partsBefore)
    requires k in runs[i].ending.after.completed
    ensures k in runs[j].before.completed && k in runs[j].ending.after.completed
    ensures k !in runs[j].uploads
    decreases j
  {
    if i < j - 1 {
      AcceptedStaysAccepted(options, digest, source, runs, i, j - 1, k);
    }
    assert runs[j] in runs && runs[j].before == runs[j - 1].ending.after;
    ChainKeepsFaithful(options, digest, source, runs, j);
    RunKeepsFaithful(options, digest, runs[j]);
  }

  lemma {:induction false} AssembleChunks(remote: Remote, completed: Parts, chunks: seq<Bytes>, from: nat)
    requires from <= |chunks| <= U32_MAX && KeysMatch(completed)
    requires forall k: U32 :: 1 <= k <= |chunks| ==> k in completed && k in remote && remote[k] == chunks[k - 1]
    ensures Listed(remote, Ordered(completed, |chunks|)[from..])
    ensures Assemble(remote, Ordered(completed, |chunks|)[from..]) == Concat(chunks[from..])
    decreases |chunks| - from
  {
    var listed := Ordered(completed, |chunks|);
    forall i | 0 <= i < |chunks| ensures listed[i].partNumber == i + 1 {
      var k: U32 := i + 1;
      assert listed[k - 1] == completed[k];
    }
    if from < |chunks| {
      AssembleChunks(remote, completed, chunks, from + 1);
      var k: U32 := from + 1;
      assert remote[k] == chunks[k - 1];
      assert listed[from..][1..] == listed[from + 1..] && chunks[from..][1..] == chunks[from + 1..];
    }
  }

  /** A finished run assembles whatever bytes the remote session holds for the parts of its source. */
  lemma FinishedObject(options: Options, digest: Digest, run: Run, held: seq<Bytes>)
    requires RunSpec(options, digest, run) && run.ending.Finished?
    requires |held| == |Chunks(run.source, options.partSize)|
    requires forall k: U32 :: 1 <= k <= |held| ==> k in run.partsAfter && run.partsAfter[k] == held[k - 1]
    ensures run.ending.assembled == Concat(held)
  {
    AssembleChunks(run.partsAfter, run.ending.after.completed, held, 0);
    var listed := run.ending.result.completedParts;
    assert listed[0..] == listed && held[0..] == held;
  }

  /**
    An unchanged source, uploaded through any number of interruptions, ends as exactly that source:
    part k is chunk k, the totals are right, and nothing accepted in one run is sent in a later one.
   */
  lemma InterruptedUploadIsExact(options: Options, digest: Digest, source: Bytes, runs: seq<Run>)
    requires Chain(options, digest, runs) && runs != []
    requires forall r :: r in runs ==> r.source == source
    requires runs[0].before.completed == map[]
    requires runs[|runs| - 1].ending.Finished?
    ensures var last := runs[|runs| - 1]; var chunks := Chunks(source, options.partSize);
            && last.ending.assembled == source
            && last.ending.result.totalBytes == Min(|source|, U64_MAX)
            && last.ending.result.totalParts == |chunks|
            && (forall k: U32 :: 1 <= k <= |chunks| ==>
                  k in last.partsAfter && last.partsAfter[k] == chunks[k - 1])
    ensures forall i, j, k :: 0 <= i < j < |runs| && k in runs[i].ending.after.completed ==> k !in runs[j].uploads
  {
    var chunks := Chunks(source, options.partSize);
    var last := runs[|runs| - 1];
    assert last in runs;
    ChainKeepsFaithful(options, digest, source, runs, |runs| - 1);
    FinishedObject(options, digest, last, chunks);
    ConcatChunks(source, options.partSize);
    forall i, j, k | 0 <= i < j < |runs| && k in runs[i].ending.after.completed
      ensures k !in runs[j].uploads
    {
      AcceptedStaysAccepted(options, digest, source, runs, i, j, k);
    }
  }

  // ------------------------------------------------------- changing source

  /** Every checkpoint entry is a true description of the bytes held remotely. */
  ghost predicate Truthful(options: Options, digest: Digest, completed: Parts, remote: Remote) {
    forall k :: k in completed ==> k in remote && Describes(options, digest, completed[k], remote[k])
  }

  /** Whatever the source, the backend and the reader do, a run leaves a truthful checkpoint truthful. */
  lemma RunKeepsTruthful(options: Options, digest: Digest, run: Run)
    requires RunSpec(options, digest, run)
    requires Truthful(options, digest, run.before.completed, run.partsBefore)
    ensures Truthful(options, digest, run.ending.after.completed, run.partsAfter)
  {
    hide Describes, Covers, Assemble;
    forall k | k in run.ending.after.completed
      ensures k in run.partsAfter && Describes(options, digest, run.ending.after.completed[k], run.partsAfter[k])
    {
      AccountOf(options, digest, run, k);
    }
  }

  lemma {:induction false} ChainKeepsTruthful(options: Options, digest: Digest, runs: seq<Run>, i: nat)
    requires Chain(options, digest, runs) && i < |runs|
    requires Truthful(options, digest, runs[0].before.completed, runs[0].partsBefore)
    ensures Truthful(options, digest, runs[i].ending.after.completed, runs[i].partsAfter)
    decreases i
  {
    if i > 0 {
      ChainKeepsTruthful(options, digest, runs, i - 1);
    }
    RunKeepsTruthful(options, digest, runs[i]);
  }

  lemma CoveredPart(
    options: Options, digest: Digest, chunks: seq<Bytes>, completed: Parts, remote: Remote, k: U32)
    requires options.algorithm.Some? && Injective(digest, options.algorithm.value)
    requires Covers(options, digest, chunks, completed) && Truthful(options, digest, completed, remote)
    requires 1 <= k <= |chunks|
    ensures k in remote && remote[k] == chunks[k - 1]
  {
    assert k in completed;
    DescribesOnlyOne(options, digest, completed[k], remote[k], chunks[k - 1]);
  }

  lemma TruthfulRunIsExact(options: Options, digest: Digest, run: Run)
    requires RunSpec(options, digest, run) && run.ending.Finished?
    requires options.algorithm.Some? && Injective(digest, options.algorithm.value)
    requires Truthful(options, digest, run.ending.after.completed, run.partsAfter)
    ensures run.ending.assembled == run.source
  {
    hide Accounted, Assemble, Injective, Describes, Truthful, ValidCheckpoint, Listed;
    var chunks := Chunks(run.source, options.partSize);
    forall k: U32 | 1 <= k <= |chunks| ensures k in run.partsAfter && run.partsAfter[k] == chunks[k - 1] {
      CoveredPart(options, digest, chunks, run.ending.after.completed, run.partsAfter, k);
    }
    FinishedObject(options, digest, run, chunks);
    ConcatChunks(run.source, options.partSize);
  }

  /** With an ideal checksum, a chain whose source changes between runs still ends as the latest source. */
  lemma ResumeYieldsLatestSource(options: Options, digest: Digest, runs: seq<Run>)
    requires Chain(options, digest, runs) && runs != []
    requires options.algorithm.Some? && Injective(digest, options.algorithm.value)
    requires Truthful(options, digest, runs[0].before.completed, runs[0].partsBefore)
    requires runs[|runs| - 1].ending.Finished?
    ensures var last := runs[|runs| - 1];
            && last.ending.assembled == last.source
            && (forall k: U32 :: k in last.ending.after.completed <==>
                                 1 <= k <= |Chunks(last.source, options.partSize)|)
  {
    ChainKeepsTruthful(options, digest, runs, |runs| - 1);
    TruthfulRunIsExact(options, digest, runs[|runs| - 1]);
  }

  // ------------------------------------------------ resuming on sizes alone

  lemma {:induction false} EqualPieces(a: seq<Bytes>, b: seq<Bytes>)
    requires |a| == |b| && (forall i :: 0 <= i < |a| ==> |a[i]| == |b[i]|)
    requires Concat(a) == Concat(b)
    ensures a == b
  {
    if a != [] {
      assert a[0] == Concat(a)[..|a[0]|] == Concat(b)[..|b[0]|] == b[0];
      assert Concat(a[1..]) == Concat(a)[|a[0]|..] == Concat(b)[|b[0]|..] == Concat(b[1..]);
      EqualPieces(a[1..], b[1..]);
    }
  }

  /** Every remote part that a resume would skip on its size alone already holds the new chunk. */
  ghost predicate FittingPartsUnchanged(before: Parts, partsBefore: Remote, chunks: seq<Bytes>) {
    forall k :: k in before && 1 <= k <= |chunks| && before[k].size == |chunks[k - 1]|
                ==> k in partsBefore && partsBefore[k] == chunks[k - 1]
  }

  /** What a finished size-only resume leaves as part `k`: old bytes where the size fitted, else the new chunk. */
  ghost predicate HeldAt(before: Parts, partsBefore: Remote, chunk: Bytes, k: U32, bytes: Bytes) {
    && |bytes| == |chunk|
    && (if k in before && before[k].size == |chunk| then k in partsBefore && bytes == partsBefore[k]
        else bytes == chunk)
  }

  ghost predicate HeldPart(before: Parts, partsBefore: Remote, chunks: seq<Bytes>, held: seq<Bytes>, k: U32)
    requires 1 <= k <= |chunks| == |held|
  {
    HeldAt(before, partsBefore, chunks[k - 1], k, held[k - 1])
  }

  ghost predicate HeldBySize(before: Parts, partsBefore: Remote, chunks: seq<Bytes>, held: seq<Bytes>) {
    && |held| == |chunks| <= U32_MAX
    && forall k: U32 :: 1 <= k <= |chunks| ==> HeldPart(before, partsBefore, chunks, held, k)
  }

  lemma PartHeld(options: Options, digest: Digest, run: Run, k: U32)
    requires RunSpec(options, digest, run) && run.ending.Finished? && options.algorithm.None?
    requires Truthful(options, digest, run.before.completed, run.partsBefore)
    requires 1 <= k <= |Chunks(run.source, options.partSize)|
    ensures k in run.partsAfter
    ensures HeldAt(run.before.completed, run.partsBefore, Chunks(run.source, options.partSize)[k - 1], k, run.partsAfter[k])
  {
    assert k in run.ending.after.completed;
    AccountOf(options, digest, run, k);
  }

  /** The first `n` parts a remote session holds. */
  ghost function HeldParts(remote: Remote, n: nat): (held: seq<Bytes>)
    requires n <= U32_MAX && forall k: U32 :: 1 <= k <= n ==> k in remote
    ensures |held| == n && forall k: U32 :: 1 <= k <= n ==> held[k - 1] == remote[k]
  {
    seq(n, i requires 0 <= i < n => var k: U32 := i + 1; remote[k])
  }

  lemma HeldAfter(options: Options, digest: Digest, run: Run) returns (held: seq<Bytes>)
    requires RunSpec(options, digest, run) && run.ending.Finished? && options.algorithm.None?
    requires Truthful(options, digest, run.before.completed, run.partsBefore)
    ensures HeldBySize(run.before.completed, run.partsBefore, Chunks(run.source, options.partSize), held)
    ensures run.ending.assembled == Concat(held)
  {
    hide Accounted, HeldAt, Assemble;
    var n := |Chunks(run.source, options.partSize)|;
    forall k: U32 | 1 <= k <= n
      ensures k in run.partsAfter
      ensures HeldAt(run.before.completed, run.partsBefore, Chunks(run.source, options.partSize)[k - 1], k, run.partsAfter[k])
    {
      PartHeld(options, digest, run, k);
    }
    held := HeldParts(run.partsAfter, n);
    FinishedObject(options, digest, run, held);
  }

  lemma HeldIsSource(before: Parts, partsBefore: Remote, chunks: seq<Bytes>, held: seq<Bytes>)
    requires HeldBySize(before, partsBefore, chunks, held)
    ensures Concat(held) == Concat(chunks) <==> FittingPartsUnchanged(before, partsBefore, chunks)
  {
    forall i | 0 <= i < |chunks| ensures |held[i]| == |chunks[i]| {
      assert HeldPart(before, partsBefore, chunks, held, i + 1);
    }
    if Concat(held) == Concat(chunks) {
      EqualPieces(held, chunks);
      forall k | k in before && 1 <= k <= |chunks| && before[k].size == |chunks[k - 1]|
        ensures k in partsBefore && partsBefore[k] == chunks[k - 1]
      {
        assert HeldPart(before, partsBefore, chunks, held, k);
      }
    }
    if FittingPartsUnchanged(before, partsBefore, chunks) {
      forall i | 0 <= i < |chunks| ensures held[i] == chunks[i] {
        assert HeldPart(before, partsBefore, chunks, held, i + 1);
      }
      assert held == chunks;
    }
  }

  /**
    Without checksums a finished resume yields the source it was given exactly when every remote part
    whose recorded size fits its chunk already held that chunk.
   */
  lemma SizeOnlyResume(options: Options, digest: Digest, run: Run)
    requires RunSpec(options, digest, run) && run.ending.Finished? && options.algorithm.None?
    requires Truthful(options, digest, run.before.completed, run.partsBefore)
    ensures run.ending.assembled == run.source <==>
            FittingPartsUnchanged(run.before.completed, run.partsBefore, Chunks(run.source, options.partSize))
  {
    var held := HeldAfter(options, digest, run);
    HeldIsSource(run.before.completed, run.partsBefore, Chunks(run.source, options.partSize), held);
    ConcatChunks(run.source, options.partSize);
  }
}
