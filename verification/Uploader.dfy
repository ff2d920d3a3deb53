/** The blocking upload driver: the chunk loop, the per-part retry loop and abort handling. */
module Uploader {
  import opened Wrappers
  import opened Machine
  import opened UploadTypes
  import opened UploadSession
  import opened UploadRuns

  /**
    A backend holding one remote session. It may fail any call and return any metadata; it is honest
    in that a part it accepts is stored, and a call for one part never touches another. An obliging
    backend fails no call it can serve and returns the metadata of what it stored.
   */
  class Backend {
    const obliging: bool
    const tagOf: Bytes -> string
    var parts: Remote
    var assembled: Option<Bytes>
    var uploads: seq<U32>
    var aborts: nat

    constructor (obliging: bool, tagOf: Bytes -> string)
      ensures this.obliging == obliging && this.tagOf == tagOf
      ensures parts == map[] && assembled == None && uploads == [] && aborts == 0
    {
      this.obliging, this.tagOf := obliging, tagOf;
      parts, assembled, uploads, aborts := map[], None, [], 0;
    }

    method CreateUpload() returns (uploadId: Option<string>)
      modifies this`parts
    {
      uploadId := *;
      parts := map[];
    }

    method UploadPart(partNumber: U32, chunk: Bytes) returns (uploaded: Option<UploadedPart>)
      modifies this`parts, this`uploads
      ensures uploads == old(uploads) + [partNumber]
      ensures uploaded.Some? ==> parts == old(parts)[partNumber := chunk]
      ensures obliging ==> uploaded == Some(UploadedPart(partNumber, tagOf(chunk), |chunk|, None))
      ensures forall k: U32 :: k != partNumber ==> SameOn(old(parts), parts, k)
    {
      uploads := uploads + [partNumber];
      uploaded := *;
      if obliging {
        uploaded := Some(UploadedPart(partNumber, tagOf(chunk), |chunk|, None));
      }
      var leftover: Option<Bytes> := *;
      if uploaded.Some? {
        parts := parts[partNumber := chunk];
      } else if leftover.Some? {
        parts := parts[partNumber := leftover.value];
      } else {
        parts := parts - {partNumber};
      }
    }

    method CompleteUpload(listed: seq<UploadedPart>) returns (ok: bool)
      modifies this`assembled
      ensures ok ==> Listed(parts, listed) && assembled == Some(Assemble(parts, listed))
      ensures !ok ==> assembled == old(assembled)
      ensures obliging && Listed(parts, listed) ==> ok
    {
      ok := *;
      ok := ok || obliging;
      var body: Bytes := [];
      var i := |listed|;
      while ok && i > 0
        invariant 0 <= i <= |listed|
        invariant ok ==> Listed(parts, listed[i..]) && body == Assemble(parts, listed[i..])
        invariant obliging && Listed(parts, listed) ==> ok
      {
        i := i - 1;
        assert listed[i..][1..] == listed[i + 1..];
        if listed[i].partNumber in parts {
          body := parts[listed[i].partNumber] + body;
        } else {
          ok := false;
        }
      }
      if ok {
        assert listed[0..] == listed;
        assembled := Some(body);
      }
    }

    /** Aborting may destroy the remote session. */
    method AbortUpload() returns (ok: bool)
      modifies this`parts, this`aborts
      ensures aborts == old(aborts) + 1
    {
      aborts := aborts + 1;
      ok := *;
      parts := *;
    }
  }

  /** The source from its current position; a read may fail unless the reader is steady. */
  class Reader {
    const steady: bool
    var rest: Bytes

    constructor (steady: bool, source: Bytes)
      ensures this.steady == steady && rest == source
    {
      this.steady, rest := steady, source;
    }

    method ReadChunk(partSize: nat) returns (chunk: Option<Bytes>)
      modifies this
      ensures steady ==> chunk.Some?
      ensures chunk.Some? ==>
                && chunk.value == old(rest)[..Min(partSize, |old(rest)|)]
                && rest == old(rest)[Min(partSize, |old(rest)|)..]
    {
      var failed: bool := *;
      if failed && !steady {
        rest := *;
        return None;
      }
      var size := Min(partSize, |rest|);
      chunk := Some(rest[..size]);
      rest := rest[size..];
    }
  }

  class PartRetry {
    const options: Options
    var attempt: nat

    constructor (options: Options)
      ensures this.options == options && attempt == 1
    {
      this.options := options;
      attempt := 1;
    }

    method RecordFailure(checkpoint: Checkpoint, partNumber: U32) returns (error: Option<UploadError>)
      modifies this`attempt
      ensures if old(attempt) >= options.maxAttempts
              then attempt == old(attempt) && error == Some(PartUploadFailed(partNumber, attempt, checkpoint))
              else attempt == old(attempt) + 1 && error == None
    {
      if attempt >= options.maxAttempts {
        return Some(PartUploadFailed(partNumber, attempt, checkpoint));
      }
      attempt := attempt + 1;
      error := None;
    }
  }

  /** An obliging backend whose tags pass whatever verification is asked for. */
  ghost predicate Willing(options: Options, digest: Digest, backend: Backend) {
    && backend.obliging
    && forall chunk: Bytes :: TagPasses(options, digest, chunk, backend.tagOf(chunk))
  }

  lemma WillingObliges(options: Options, digest: Digest, backend: Backend)
    ensures Willing(options, digest, backend) ==> backend.obliging
  {
  }

  predicate TagPasses(options: Options, digest: Digest, chunk: Bytes, tag: string) {
    var expected := ExpectedChecksum(options, digest, chunk);
    options.verifyRemoteEtag && expected.Some? ==> NormalizeToken(tag) == NormalizeToken(expected.value)
  }

  /** The error behind a failed abort. */
  function Root(error: UploadError): UploadError {
    if error.AbortFailed? then Root(error.original) else error
  }

  lemma ChunksStep(rest: Bytes, partSize: nat)
    requires 0 < partSize
    ensures rest == [] <==> Chunks(rest, partSize) == []
    ensures rest != [] ==>
              var size := Min(partSize, |rest|);
              Chunks(rest, partSize)[0] == rest[..size] && Chunks(rest, partSize)[1..] == Chunks(rest[size..], partSize)
  {
  }

  class ResumableUploader {
    const options: Options
    const digest: Digest

    constructor (options: Options, digest: Digest)
      ensures this.options == options && this.digest == digest
    {
      this.options := options;
      this.digest := digest;
    }

    /** Sends one part until the backend takes it or the attempts run out. */
    method UploadPartWithRetries(backend: Backend, session: Session, plan: Plan)
      returns (r: Result<UploadedPart, UploadError>, ghost sent: nat)
      requires options.Valid()
      modifies backend`parts, backend`uploads
      ensures backend.assembled == old(backend.assembled)
      ensures 1 <= sent <= options.maxAttempts && (r.Err? ==> sent == options.maxAttempts)
      ensures SentOnly(old(backend.uploads), backend.uploads, plan.partNumber)
      ensures |backend.uploads| == |old(backend.uploads)| + sent
      ensures r.Ok? ==> plan.partNumber in backend.parts && backend.parts[plan.partNumber] == plan.chunk
      ensures r.Err? ==> r.error == PartUploadFailed(plan.partNumber, options.maxAttempts, session.checkpoint)
      ensures backend.obliging ==>
                r == Ok(UploadedPart(plan.partNumber, backend.tagOf(plan.chunk), |plan.chunk|, None))
      ensures forall k: U32 :: k != plan.partNumber ==> SameOn(old(backend.parts), backend.parts, k)
    {
      var retry := new PartRetry(options);
      while true
        invariant 1 <= retry.attempt <= options.maxAttempts && retry.options == options && fresh(retry)
        invariant backend.assembled == old(backend.assembled)
        invariant |backend.uploads| == |old(backend.uploads)| + retry.attempt - 1
        invariant retry.attempt == 1 ==> backend.uploads == old(backend.uploads)
        invariant retry.attempt > 1 ==> SentOnly(old(backend.uploads), backend.uploads, plan.partNumber)
        invariant forall k: U32 :: k != plan.partNumber ==> SameOn(old(backend.parts), backend.parts, k)
        decreases options.maxAttempts - retry.attempt
      {
        ghost var before := backend.parts;
        var uploaded := backend.UploadPart(plan.partNumber, plan.chunk);
        sent := retry.attempt;
        forall k: U32 | k != plan.partNumber ensures SameOn(old(backend.parts), backend.parts, k) {
          assert SameOn(old(backend.parts), before, k) && SameOn(before, backend.parts, k);
        }
        if uploaded.Some? {
          r := Ok(uploaded.value);
          return;
        }
        var error := retry.RecordFailure(session.checkpoint, plan.partNumber);
        if error.Some? {
          r := Err(error.value);
          return;
        }
      }
    }

    /** Sends a planned part and records it; a failure leaves it unrecorded. */
    method SendPlanned(backend: Backend, session: Session, plan: Plan) returns (error: Option<UploadError>)
      requires session.Valid() && session.options == options && session.digest == digest
      requires plan.partNumber == session.partNumber && plan.partNumber !in session.checkpoint.completed
      requires plan.expectedChecksum == ExpectedChecksum(options, digest, plan.chunk)
      modifies backend`parts, backend`uploads, session`checkpoint, session`partNumber
      ensures session.Valid() && backend.assembled == old(backend.assembled)
      ensures error.Some? ==> Plain(error.value, session.checkpoint)
      ensures Willing(options, digest, backend) ==> error.None?
      ensures Transmitted(options, digest, plan.chunk, old(SnapOf(session, backend)), SnapOf(session, backend), error.None?)
    {
      hide SentOnly, Describes, ExpectedChecksum, MetadataError;
      var uploaded, sent := UploadPartWithRetries(backend, session, plan);
      if uploaded.Err? {
        return Some(uploaded.error);
      }
      error := session.AcceptUploadedPart(plan, uploaded.value);
    }

    /** One turn of the chunk loop: `None` to go on, `Some(None)` at the end, `Some(Some(e))` on an error. */
    method OneChunk(backend: Backend, reader: Reader, session: Session) returns (stop: Option<Option<UploadError>>)
      requires session.Valid() && session.options == options && session.digest == digest
      modifies backend`parts, backend`uploads, reader, session
      ensures session.Valid() && backend.assembled == old(backend.assembled)
      ensures stop.Some? && stop.value.Some? ==> Plain(stop.value.value, session.checkpoint)
      ensures stop.Some? && stop.value.None? ==>
                && old(reader.rest) == [] == reader.rest
                && SnapOf(session, backend) == old(SnapOf(session, backend))
                && FirstRemaining(session.checkpoint.completed, session.partNumber).None?
      ensures Willing(options, digest, backend) && reader.steady && stop.Some? && stop.value.Some? ==>
                && SnapOf(session, backend) == old(SnapOf(session, backend))
                && Stuck(old(reader.rest), SnapOf(session, backend))
      ensures stop.Some? && stop.value.Some? ==>
                || SnapOf(session, backend) == old(SnapOf(session, backend))
                || (old(reader.rest) != []
                    && SendTurn(options, digest, FirstChunk(old(reader.rest), options.partSize),
                                old(SnapOf(session, backend)), SnapOf(session, backend), false))
      ensures stop.None? ==>
                && old(reader.rest) != []
                && var chunk := FirstChunk(old(reader.rest), options.partSize);
                && reader.rest == old(reader.rest)[|chunk|..]
                && (|| SkipTurn(options, digest, chunk, old(SnapOf(session, backend)), SnapOf(session, backend))
                    || SendTurn(options, digest, chunk, old(SnapOf(session, backend)), SnapOf(session, backend), true))
    {
      hide SentOnly, Describes, ExpectedChecksum, FirstRemaining, Transmitted, SameOn, Willing;
      ghost var start := SnapOf(session, backend);
      var read := reader.ReadChunk(options.partSize);
      if read.None? {
        return Some(Some(SourceRead(None, session.checkpoint)));
      }
      var next := session.NextChunk(read.value);
      if next.Err? {
        return Some(Some(next.error));
      }
      match next.value {
        case Finish =>
          stop := Some(None);
        case Skip =>
          stop := None;
        case Upload(plan) =>
          ghost var forgot := SnapOf(session, backend);
          var error := SendPlanned(backend, session, plan);
          ForgetThenTransmit(options, digest, plan.chunk, start, forgot, SnapOf(session, backend), error.None?);
          stop := if error.None? then None else Some(error);
      }
    }

    /** The chunk loop, up to the end of the source or the first error. */
    method ChunkLoop(backend: Backend, reader: Reader, session: Session) returns (error: Option<UploadError>)
      requires session.Valid() && session.options == options && session.digest == digest
      requires session.totalBytes == 0 && session.partNumber == 1
      modifies backend`parts, backend`uploads, reader, session
      ensures session.Valid() && backend.assembled == old(backend.assembled)
      ensures error.Some? ==> Plain(error.value, session.checkpoint)
      ensures Recorded(options, digest, old(reader.rest), old(SnapOf(session, backend)), SnapOf(session, backend))
      ensures error.None? ==>
                && InLoop(options, digest, old(reader.rest), old(SnapOf(session, backend)), [], SnapOf(session, backend))
                && FirstRemaining(session.checkpoint.completed, session.partNumber).None?
      ensures Willing(options, digest, backend) && reader.steady && error.Some? ==>
                !Finishable(options, digest, old(reader.rest), old(session.checkpoint.completed), old(backend.parts))
    {
      hide InLoop, Recorded, SkipTurn, SendTurn, FirstRemaining, Willing, Stuck, Finishable;
      ghost var source, start := reader.rest, SnapOf(session, backend);
      LoopStarts(options, digest, source, start);
      while true
        invariant session.Valid() && backend.assembled == old(backend.assembled)
        invariant InLoop(options, digest, source, start, reader.rest, SnapOf(session, backend))
        invariant Recorded(options, digest, source, start, SnapOf(session, backend))
        decreases |reader.rest|
      {
        ghost var rest, before := reader.rest, SnapOf(session, backend);
        var stop := OneChunk(backend, reader, session);
        ghost var after := SnapOf(session, backend);
        if stop.Some? {
          if stop.value.Some? && after != before {
            FailedTurn(options, digest, source, start, rest, before, after);
          }
          if stop.value.Some? && Willing(options, digest, backend) && reader.steady {
            StuckIsUnfinishable(options, digest, source, start, rest, before);
          }
          return stop.value;
        }
        GoodTurn(options, digest, source, start, rest, before, after);
      }
    }

    /** Orders the recorded parts and asks the backend to assemble them. */
    method CompleteRun(backend: Backend, session: Session) returns (r: Result<seq<UploadedPart>, UploadError>)
      requires session.Valid()
      modifies backend`assembled
      ensures r.Err? ==> Plain(r.error, session.checkpoint) && backend.assembled == old(backend.assembled)
      ensures r.Ok? ==>
                && session.partNumber > 1 && r.value == Ordered(session.checkpoint.completed, session.partNumber - 1)
                && Listed(backend.parts, r.value) && backend.assembled == Some(Assemble(backend.parts, r.value))
      ensures backend.obliging && session.partNumber > 1 ==>
                (Listed(backend.parts, Ordered(session.checkpoint.completed, session.partNumber - 1)) ==> r.Ok?)
    {
      r := session.OrderedCompletedParts();
      if r.Err? {
        return;
      }
      var completed := backend.CompleteUpload(r.value);
      if !completed {
        r := Err(CompleteFailed(session.checkpoint));
      }
    }

    /** The whole run after validation: the loop, then completion with the ordered parts. */
    method RunToEnd(backend: Backend, reader: Reader, session: Session)
      returns (r: Result<seq<UploadedPart>, UploadError>, ghost run: Run)
      requires session.Valid() && session.options == options && session.digest == digest
      requires session.totalBytes == 0 && session.partNumber == 1
      modifies backend`parts, backend`uploads, backend`assembled, reader, session
      ensures session.Valid() && RunSpec(options, digest, run)
      ensures run == RunOf(old(reader.rest), old(SnapOf(session, backend)), SnapOf(session, backend), run.ending)
      ensures run.ending.after == session.checkpoint && (r.Ok? <==> run.ending.Finished?)
      ensures backend.uploads == old(backend.uploads) + run.uploads
      ensures r.Err? ==> Plain(r.error, session.checkpoint) && backend.assembled == old(backend.assembled)
      ensures Willing(options, digest, backend) && reader.steady ==>
                (r.Ok? <== Finishable(options, digest, old(reader.rest), old(session.checkpoint.completed), old(backend.parts)))
      ensures r.Ok? ==>
                && backend.assembled == Some(run.ending.assembled)
                && run.ending.result == UploadResult(session.checkpoint.uploadId, session.totalBytes,
                                                     session.partNumber - 1, session.resumed, r.value)
    {
      hide InLoop, Recorded, RunSpec, FirstRemaining, Accounted, Willing, Finishable;
      ghost var source, start := reader.rest, SnapOf(session, backend);
      var error := ChunkLoop(backend, reader, session);
      ghost var s := SnapOf(session, backend);
      run := RunOf(source, start, s, Interrupted(session.checkpoint));
      InterruptedSpec(options, digest, source, start, s);
      if error.Some? {
        r := Err(error.value);
        return;
      }
      CanFinish(options, digest, source, start, s);
      WillingObliges(options, digest, backend);
      r := CompleteRun(backend, session);
      if r.Err? {
        return;
      }
      ghost var result := UploadResult(session.checkpoint.uploadId, session.totalBytes,
                                       session.partNumber - 1, session.resumed, r.value);
      FinishedSpec(options, digest, source, start, s, result, backend.assembled.value);
      run := RunOf(source, start, s, Finished(session.checkpoint, result, backend.assembled.value));
    }

    method AbortErrorIfConfigured(backend: Backend, uploadId: string, error: UploadError) returns (e: UploadError)
      modifies backend`parts, backend`aborts
      ensures backend.aborts == old(backend.aborts) + if options.abortOnError then 1 else 0
      ensures !options.abortOnError ==> e == error && backend.parts == old(backend.parts)
      ensures e == error || e == AbortFailed(uploadId, error)
    {
      if options.abortOnError {
        var ok := backend.AbortUpload();
        if !ok {
          return AbortFailed(uploadId, error);
        }
      }
      e := error;
    }

    /** One run from a checkpoint: rejected before any I/O, or a run that keeps its promise. */
    method UploadWithCheckpoint(backend: Backend, reader: Reader, checkpoint: Checkpoint, resumed: bool)
      returns (r: Result<UploadResult, UploadError>, ghost run: Run)
      requires options.Valid()
      modifies backend, reader
      ensures !ValidCheckpoint(options, checkpoint) ==>
                r.Err? && Rejects(options, checkpoint, r.error) && unchanged(backend) && unchanged(reader)
      ensures ValidCheckpoint(options, checkpoint) ==> Promise(options, digest, checkpoint, resumed, r, run)
      ensures ValidCheckpoint(options, checkpoint) ==>
                backend.aborts == old(backend.aborts) + if r.Err? && options.abortOnError then 1 else 0
      ensures ValidCheckpoint(options, checkpoint) ==>
                && run.source == old(reader.rest) && run.partsBefore == old(backend.parts)
                && (r.Ok? || !options.abortOnError ==> backend.parts == run.partsAfter)
                && backend.uploads == old(backend.uploads) + run.uploads
                && backend.assembled == if r.Ok? then Some(run.ending.assembled) else old(backend.assembled)
      ensures ValidCheckpoint(options, checkpoint) && Willing(options, digest, backend) && reader.steady ==>
                (r.Ok? <==> Finishable(options, digest, old(reader.rest), checkpoint.completed, old(backend.parts)))
    {
      run := *;
      var rejected := ValidateCheckpoint(options, checkpoint);
      if rejected.Some? {
        r := Err(rejected.value);
        return;
      }
      hide RunSpec, Rejects, Willing, Finishable;
      var session := new Session(options, digest, checkpoint, resumed);
      var ordered;
      ordered, run := RunToEnd(backend, reader, session);
      if ordered.Err? {
        var error := AbortErrorIfConfigured(backend, session.checkpoint.uploadId, ordered.error);
        assert Root(error) == ordered.error;
        r := Err(error);
        return;
      }
      FinishedWasFinishable(options, digest, run);
      var result := session.FinishWith(ordered.value);
      r := Ok(result);
    }

    /** A fresh upload: a new remote session and an empty checkpoint. */
    method Upload(backend: Backend, reader: Reader) returns (r: Result<UploadResult, UploadError>, ghost run: Run)
      modifies backend, reader
      ensures r.Err? && r.error.Carried().None? ==> backend.uploads == old(backend.uploads) && unchanged(reader)
      ensures r.Ok? || r.error.Carried().Some? ==>
                && options.Valid() && Promise(options, digest, run.before, false, r, run)
                && run.before.completed == map[] && run.source == old(reader.rest)
                && (r.Ok? || !options.abortOnError ==> backend.parts == run.partsAfter)
                && backend.uploads == old(backend.uploads) + run.uploads
                && (Willing(options, digest, backend) && reader.steady ==>
                      (r.Ok? <==> 0 < |Chunks(old(reader.rest), options.partSize)| <= U32_MAX))
                && backend.assembled == if r.Ok? then Some(run.ending.assembled) else old(backend.assembled)
    {
      run := *;
      if !options.Valid() {
        r := Err(InvalidOptions);
        return;
      }
      var uploadId := backend.CreateUpload();
      if uploadId.None? {
        r := Err(CreateFailed);
        return;
      }
      var checkpoint := Checkpoint(CHECKPOINT_VERSION, uploadId.value, options.partSize, options.algorithm, map[]);
      r, run := UploadWithCheckpoint(backend, reader, checkpoint, false);
    }

    /** Resumes from a checkpoint with the whole source from its beginning. */
    method Resume(backend: Backend, reader: Reader, checkpoint: Checkpoint)
      returns (r: Result<UploadResult, UploadError>, ghost run: Run)
      modifies backend, reader
      ensures !options.Valid() || !ValidCheckpoint(options, checkpoint) ==>
                r.Err? && r.error.Carried().None? && unchanged(backend) && unchanged(reader)
      ensures options.Valid() && ValidCheckpoint(options, checkpoint) ==>
                && Promise(options, digest, checkpoint, true, r, run)
                && run.source == old(reader.rest) && run.partsBefore == old(backend.parts)
                && (r.Ok? || !options.abortOnError ==> backend.parts == run.partsAfter)
                && backend.uploads == old(backend.uploads) + run.uploads
                && (Willing(options, digest, backend) && reader.steady ==>
                      (r.Ok? <==> Finishable(options, digest, old(reader.rest), checkpoint.completed, old(backend.parts))))
                && backend.assembled == if r.Ok? then Some(run.ending.assembled) else old(backend.assembled)
    {
      run := *;
      if !options.Valid() {
        r := Err(InvalidOptions);
        return;
      }
      r, run := UploadWithCheckpoint(backend, reader, checkpoint, true);
    }

    /**
      A caller that uploads and then resumes from each checkpoint it is handed, with a reader reopened on the same
      source every time. However the runs are interrupted, success means the object is the source, nothing accepted in
      one run is sent in a later one, and a backend and a last reader that do not fail bring the upload to its end.
     */
    method UploadUntilDone(backend: Backend, readers: seq<Reader>, ghost source: Bytes)
      returns (r: Result<UploadResult, UploadError>, ghost runs: seq<Run>)
      requires readers != [] && forall i :: 0 <= i < |readers| ==> readers[i].rest == source
      requires forall i, j :: 0 <= i < j < |readers| ==> readers[i] != readers[j]
      modifies backend, readers
      ensures runs == [] ==> r.Err? && r.error.Carried().None? && backend.uploads == old(backend.uploads)
      ensures runs != [] ==>
                && options.Valid() && Chain(options, digest, runs) && runs[0].before.completed == map[]
                && (forall run :: run in runs ==> run.source == source)
                && backend.uploads == old(backend.uploads) + AllUploads(runs)
      ensures r.Ok? ==>
                && runs != [] && backend.assembled == Some(source)
                && r.value.totalBytes == Min(|source|, U64_MAX) && r.value.totalParts == |Chunks(source, options.partSize)|
                && forall i, j, k :: 0 <= i < j < |runs| && k in runs[i].ending.after.completed ==> k !in runs[j].uploads
      ensures runs != [] && !options.abortOnError && Willing(options, digest, backend) && readers[|readers| - 1].steady ==>
                (0 < |Chunks(source, options.partSize)| <= U32_MAX ==> r.Ok?)
    {
      hide Chain, RunSpec, Willing, Finishable, Chunks, ValidCheckpoint;
      ghost var run;
      r, run := Upload(backend, readers[0]);
      runs := [];
      if r.Err? && r.error.Carried().None? {
        return;
      }
      runs := [run];
      ChainOfOne(options, digest, run);
      var i := 1;
      while i < |readers| && r.Err? && !options.abortOnError
        invariant 1 <= i <= |readers|
        invariant InChain(options, digest, source, runs, r) && backend.uploads == old(backend.uploads) + AllUploads(runs)
        invariant r.Ok? || !options.abortOnError ==> backend.parts == runs[|runs| - 1].partsAfter
        invariant r.Ok? ==> backend.assembled == Some(runs[|runs| - 1].ending.assembled)
        invariant forall j :: i <= j < |readers| ==> readers[j].rest == source
        invariant Willing(options, digest, backend) && readers[i - 1].steady ==>
                    (0 < |Chunks(source, options.partSize)| <= U32_MAX ==> r.Ok?)
      {
        InterruptedMayFinish(options, digest, source, runs, r);
        r, run := Resume(backend, readers[i], r.error.Carried().value);
        ChainGrows(options, digest, runs, run);
        runs := runs + [run];
        i := i + 1;
      }
      if r.Ok? {
        InterruptedUploadIsExact(options, digest, source, runs);
      }
    }
  }

  // ----------------------------------------------------- chains of real calls

  /** Every part number that a chain of runs sent, in order. */
  ghost function AllUploads(runs: seq<Run>): seq<U32> {
    if runs == [] then [] else AllUploads(runs[..|runs| - 1]) + runs[|runs| - 1].uploads
  }

  /** The runs so far, and what the last of them returned. */
  ghost predicate InChain(options: Options, digest: Digest, source: Bytes, runs: seq<Run>, r: Result<UploadResult, UploadError>) {
    && runs != [] && Chain(options, digest, runs)
    && runs[0].before.completed == map[] && (forall run :: run in runs ==> run.source == source)
    && var ending := runs[|runs| - 1].ending;
    && (r.Ok? ==> ending.Finished? && r.value == ending.result)
    && (r.Err? ==> ending.Interrupted? && r.error.Carried() == Some(ending.after) && ValidCheckpoint(options, ending.after))
  }

  lemma ChainOfOne(options: Options, digest: Digest, run: Run)
    requires RunSpec(options, digest, run)
    ensures Chain(options, digest, [run]) && AllUploads([run]) == run.uploads
  {
    hide Accounted, Covers, Assemble;
    assert [run][..0] == [] && [] + run.uploads == run.uploads;
  }

  lemma ChainGrows(options: Options, digest: Digest, runs: seq<Run>, run: Run)
    requires Chain(options, digest, runs) && runs != [] && RunSpec(options, digest, run)
    requires var last := runs[|runs| - 1];
             last.ending.Interrupted? && run.before == last.ending.after && run.partsBefore == last.partsAfter
    ensures Chain(options, digest, runs + [run]) && AllUploads(runs + [run]) == AllUploads(runs) + run.uploads
  {
    hide RunSpec;
    var longer, n := runs + [run], |runs|;
    assert longer[..n] == runs && longer[n] == run;
    forall i, j | 0 <= i < j == i + 1 < |longer|
      ensures longer[j].before == longer[i].ending.after && longer[j].partsBefore == longer[i].partsAfter
    {
      assert j < n ==> longer[j] == runs[j];
      assert longer[i] == runs[i];
    }
    assert forall i :: 0 <= i < n ==> longer[i] == runs[i];
  }

  lemma InterruptedMayFinish(options: Options, digest: Digest, source: Bytes, runs: seq<Run>, r: Result<UploadResult, UploadError>)
    requires options.Valid() && InChain(options, digest, source, runs, r)
    ensures 0 < |Chunks(source, options.partSize)| <= U32_MAX ==>
              Finishable(options, digest, source, runs[|runs| - 1].ending.after.completed, runs[|runs| - 1].partsAfter)
  {
    hide Chain, Finishable, ValidCheckpoint;
    if 0 < |Chunks(source, options.partSize)| <= U32_MAX {
      InterruptedIsFinishable(options, digest, source, runs);
    }
  }

  /** Without a checksum a resume may mix: the entry's size fits, so the old byte stays although the source has a new one. */
  method SizeOnlyResumeMixes(digest: Digest) returns (r: Result<UploadResult, UploadError>, source: Bytes, assembled: Bytes)
    ensures r.Ok? && source == [1] && assembled == [0]
  {
    var options := Options(1, 1, false, None, false);
    var part := UploadedPart(1, "", 1, None);
    var checkpoint := Checkpoint(CHECKPOINT_VERSION, "u", 1, None, map[1 := part]);
    source := [1];
    var backend := new Backend(true, _ => "");
    var reader := new Reader(true, source);
    backend.parts := map[1 := [0]];
    var uploader := new ResumableUploader(options, digest);
    ghost var run;
    assert Chunks(source, 1) == [source];
    r, run := uploader.Resume(backend, reader, checkpoint);
    assembled := backend.assembled.value;
    ghost var held := HeldAfter(options, digest, run);
    assert HeldPart(run.before.completed, run.partsBefore, [source], held, 1);
  }

  // ------------------------------------------------- when a run must finish

  /**
    With a source that fits the part numbers, no entry beyond its parts, and every entry that will be
    skipped backed by remote bytes, nothing but a failing backend or reader can stop a run.
   */
  ghost predicate Finishable(options: Options, digest: Digest, source: Bytes, before: Parts, parts: Remote)
    requires options.Valid()
  {
    var chunks := Chunks(source, options.partSize);
    && 0 < |chunks| <= U32_MAX
    && forall k :: k in before ==> 1 <= k <= |chunks| && (Describes(options, digest, before[k], chunks[k - 1]) ==> k in parts)
  }

  /** Why a turn stops although nothing failed: leftover entries, or more parts than can be numbered. */
  ghost predicate Stuck(rest: Bytes, s: Snap) {
    if rest == [] then FirstRemaining(s.checkpoint.completed, s.partNumber).Some? else s.partNumber > U32_MAX
  }

  lemma StuckIsUnfinishable(options: Options, digest: Digest, source: Bytes, start: Snap, rest: Bytes, s: Snap)
    requires options.Valid() && InLoop(options, digest, source, start, rest, s)
    requires Recorded(options, digest, source, start, s) && Stuck(rest, s)
    ensures !Finishable(options, digest, source, start.checkpoint.completed, start.parts)
  {
    hide Describes, Sent;
    var chunks := Chunks(source, options.partSize);
    ChunksStep(rest, options.partSize);
    if rest == [] {
      var k := FirstRemaining(s.checkpoint.completed, s.partNumber).value;
      assert PartAccounted(options, digest, chunks, start.checkpoint.completed, start.parts,
                           k in Sent(start, s), s.parts, s.checkpoint.completed, k);
      assert k in start.checkpoint.completed && k > |chunks|;
    }
  }

  /** At the end of a finishable source every recorded part is held remotely. */
  lemma CanFinish(options: Options, digest: Digest, source: Bytes, start: Snap, s: Snap)
    requires options.Valid() && InLoop(options, digest, source, start, [], s)
    requires Recorded(options, digest, source, start, s) && KeysMatch(s.checkpoint.completed)
    ensures Finishable(options, digest, source, start.checkpoint.completed, start.parts) ==>
              && 1 < s.partNumber <= U32_MAX + 1
              && (forall k: U32 :: 1 <= k < s.partNumber ==> k in s.checkpoint.completed)
              && Listed(s.parts, Ordered(s.checkpoint.completed, s.partNumber - 1))
  {
    hide Describes, Sent;
    var chunks := Chunks(source, options.partSize);
    if Finishable(options, digest, source, start.checkpoint.completed, start.parts) {
      forall k: U32 | 1 <= k < s.partNumber ensures k in s.checkpoint.completed && k in s.parts {
        assert PartAccounted(options, digest, chunks, start.checkpoint.completed, start.parts,
                             k in Sent(start, s), s.parts, s.checkpoint.completed, k);
      }
      var listed := Ordered(s.checkpoint.completed, s.partNumber - 1);
      forall i | 0 <= i < |listed| ensures listed[i].partNumber in s.parts {
        var k: U32 := i + 1;
        assert listed[k - 1] == s.checkpoint.completed[k];
      }
    }
  }

  lemma FinishedWasFinishable(options: Options, digest: Digest, run: Run)
    requires RunSpec(options, digest, run) && run.ending.Finished? && ValidCheckpoint(options, run.before)
    ensures Finishable(options, digest, run.source, run.before.completed, run.partsBefore)
  {
    hide Describes, Assemble;
    var chunks, after := Chunks(run.source, options.partSize), run.ending.after.completed;
    forall k | k in run.before.completed
      ensures 1 <= k <= |chunks| && (Describes(options, digest, run.before.completed[k], chunks[k - 1]) ==> k in run.partsBefore)
    {
      AccountOf(options, digest, run, k);
      assert k in after ==> run.ending.result.completedParts[k - 1] == after[k];
    }
  }

  /** However often an unchanged source was interrupted, its checkpoint can always be resumed to the end. */
  lemma InterruptedIsFinishable(options: Options, digest: Digest, source: Bytes, runs: seq<Run>)
    requires Chain(options, digest, runs) && runs != [] && runs[0].before.completed == map[]
    requires forall r :: r in runs ==> r.source == source
    requires 0 < |Chunks(source, options.partSize)| <= U32_MAX
    ensures var last := runs[|runs| - 1];
            Finishable(options, digest, source, last.ending.after.completed, last.partsAfter)
  {
    hide Describes, RunSpec;
    ChainKeepsFaithful(options, digest, source, runs, |runs| - 1);
  }

  /** A finished run returns its result; a failed one hands back a valid checkpoint to resume from. */
  ghost predicate Promise(options: Options, digest: Digest, checkpoint: Checkpoint, resumed: bool,
                          r: Result<UploadResult, UploadError>, run: Run)
  {
    && RunSpec(options, digest, run) && run.before == checkpoint
    && (r.Ok? ==> run.ending.Finished? && r.value == run.ending.result && r.value.resumed == resumed)
    && (r.Err? ==> run.ending.Interrupted? && r.error.Carried() == Some(run.ending.after)
                   && Plain(Root(r.error), run.ending.after) && ValidCheckpoint(options, run.ending.after))
  }

  ghost function RunOf(source: Bytes, start: Snap, s: Snap, ending: Ending): Run {
    Run(source, start.checkpoint, start.parts, Sent(start, s), s.parts, ending)
  }

  lemma InterruptedSpec(options: Options, digest: Digest, source: Bytes, start: Snap, s: Snap)
    requires options.Valid() && ValidCheckpoint(options, s.checkpoint) && Recorded(options, digest, source, start, s)
    ensures RunSpec(options, digest, RunOf(source, start, s, Interrupted(s.checkpoint)))
    ensures s.uploads == start.uploads + Sent(start, s)
  {
  }

  /** At the end of the source exactly its parts are recorded, and its length is counted. */
  lemma LoopCovers(options: Options, digest: Digest, source: Bytes, start: Snap, s: Snap)
    requires options.Valid() && KeysMatch(s.checkpoint.completed) && 1 < s.partNumber <= U32_MAX + 1
    requires InLoop(options, digest, source, start, [], s) && FirstRemaining(s.checkpoint.completed, s.partNumber).None?
    ensures Covers(options, digest, Chunks(source, options.partSize), s.checkpoint.completed)
    ensures |Chunks(source, options.partSize)| == s.partNumber - 1 && s.totalBytes == Min(|source|, U64_MAX)
  {
    hide Describes;
    assert |Chunks(source, options.partSize)| == s.partNumber - 1;
  }

  lemma FinishedSpec(options: Options, digest: Digest, source: Bytes, start: Snap, s: Snap, result: UploadResult, assembled: Bytes)
    requires options.Valid() && ValidCheckpoint(options, s.checkpoint) && Recorded(options, digest, source, start, s)
    requires InLoop(options, digest, source, start, [], s) && FirstRemaining(s.checkpoint.completed, s.partNumber).None?
    requires 1 < s.partNumber <= U32_MAX + 1
    requires forall k: U32 :: 1 <= k < s.partNumber ==> k in s.checkpoint.completed
    requires result.uploadId == s.checkpoint.uploadId && result.totalBytes == s.totalBytes
    requires result.totalParts == s.partNumber - 1
    requires result.completedParts == Ordered(s.checkpoint.completed, s.partNumber - 1)
    requires Listed(s.parts, result.completedParts) && assembled == Assemble(s.parts, result.completedParts)
    ensures RunSpec(options, digest, RunOf(source, start, s, Finished(s.checkpoint, result, assembled)))
  {
    LoopCovers(options, digest, source, start, s);
    hide Accounted, Assemble, Describes, ValidCheckpoint, Covers, InLoop, FirstRemaining;
  }

  /** The values a turn of the loop works on. */
  datatype Snap = Snap(checkpoint: Checkpoint, partNumber: nat, totalBytes: nat, parts: Remote, uploads: seq<U32>)

  ghost function SnapOf(session: Session, backend: Backend): Snap
    reads session, backend
  {
    Snap(session.checkpoint, session.partNumber, session.totalBytes, backend.parts, backend.uploads)
  }

  function FirstChunk(rest: Bytes, partSize: nat): Bytes {
    rest[..Min(partSize, |rest|)]
  }

  ghost predicate SkipTurn(options: Options, digest: Digest, chunk: Bytes, s: Snap, s': Snap) {
    && s.partNumber <= U32_MAX
    && s.partNumber in s.checkpoint.completed
    && Describes(options, digest, s.checkpoint.completed[s.partNumber], chunk)
    && s' == s.(partNumber := s.partNumber + 1, totalBytes := Min(s.totalBytes + |chunk|, U64_MAX))
  }

  /** Part `n` was sent at least once and nothing else was touched; it is recorded if and only if it was accepted. */
  ghost predicate Transmitted(options: Options, digest: Digest, chunk: Bytes, s: Snap, s': Snap, accepted: bool) {
    && s.partNumber <= U32_MAX
    && var n: U32 := s.partNumber;
    && s'.checkpoint == s.checkpoint.(completed := s'.checkpoint.completed)
    && SentOnly(s.uploads, s'.uploads, n)
    && (forall k: U32 :: k != n ==> SameOn(s.parts, s'.parts, k))
    && (forall k: U32 :: k != n ==> SameOn(s.checkpoint.completed, s'.checkpoint.completed, k))
    && (n in s'.checkpoint.completed <==> accepted)
    && (accepted ==>
          && s'.partNumber == n + 1
          && n in s'.parts && s'.parts[n] == chunk
          && Describes(options, digest, s'.checkpoint.completed[n], chunk))
  }

  /** A chunk whose entry is missing or stale: the entry is forgotten and the part is sent. */
  ghost predicate SendTurn(options: Options, digest: Digest, chunk: Bytes, s: Snap, s': Snap, accepted: bool) {
    && Transmitted(options, digest, chunk, s, s', accepted)
    && !(s.partNumber in s.checkpoint.completed && Describes(options, digest, s.checkpoint.completed[s.partNumber], chunk))
    && s'.totalBytes == Min(s.totalBytes + |chunk|, U64_MAX)
  }

  lemma ForgetThenTransmit(options: Options, digest: Digest, chunk: Bytes, s: Snap, forgot: Snap, s': Snap, accepted: bool)
    requires s.partNumber <= U32_MAX && forgot.partNumber == s.partNumber
    requires forgot.checkpoint == s.checkpoint.(completed := s.checkpoint.completed - {s.partNumber})
    requires forgot.parts == s.parts && forgot.uploads == s.uploads
    requires Transmitted(options, digest, chunk, forgot, s', accepted)
    ensures Transmitted(options, digest, chunk, s, s', accepted)
  {
    forall k: U32 | k != s.partNumber ensures SameOn(s.checkpoint.completed, s'.checkpoint.completed, k) {
      assert SameOn(forgot.checkpoint.completed, s'.checkpoint.completed, k);
    }
  }

  /** Between one and many more calls, all for part `n`. */
  ghost predicate SentOnly(before: seq<U32>, after: seq<U32>, n: U32) {
    && |before| < |after| && before == after[..|before|]
    && forall i :: |before| <= i < |after| ==> after[i] == n
  }

  // -------------------------------------------------- the loop on its values

  ghost function Sent(start: Snap, s: Snap): seq<U32> {
    if |start.uploads| <= |s.uploads| then s.uploads[|start.uploads|..] else []
  }

  /** What holds at every exit of the loop. */
  ghost predicate Recorded(options: Options, digest: Digest, source: Bytes, start: Snap, s: Snap)
    requires options.Valid()
  {
    && s.checkpoint == start.checkpoint.(completed := s.checkpoint.completed)
    && |start.uploads| <= |s.uploads| && start.uploads == s.uploads[..|start.uploads|]
    && Accounted(options, digest, Chunks(source, options.partSize), start.checkpoint.completed, start.parts,
                 Sent(start, s), s.parts, s.checkpoint.completed)
  }

  /** What holds between turns, with `rest` still to be read. */
  ghost predicate InLoop(options: Options, digest: Digest, source: Bytes, start: Snap, rest: Bytes, s: Snap)
    requires options.Valid()
  {
    var chunks := Chunks(source, options.partSize);
    && 1 <= s.partNumber <= |chunks| + 1
    && Chunks(rest, options.partSize) == chunks[s.partNumber - 1..]
    && |rest| <= |source|
    && s.totalBytes == Min(|source| - |rest|, U64_MAX)
    && (forall n :: n in Sent(start, s) ==> n < s.partNumber)
    && (forall k: U32 :: 1 <= k < s.partNumber ==>
          k in s.checkpoint.completed && Describes(options, digest, s.checkpoint.completed[k], chunks[k - 1]))
  }

  lemma LoopStarts(options: Options, digest: Digest, source: Bytes, start: Snap)
    requires options.Valid() && start.partNumber == 1 && start.totalBytes == 0
    ensures InLoop(options, digest, source, start, source, start)
    ensures Recorded(options, digest, source, start, start)
  {
  }

  lemma NextOf(options: Options, digest: Digest, source: Bytes, start: Snap, rest: Bytes, s: Snap)
    requires options.Valid() && InLoop(options, digest, source, start, rest, s) && rest != []
    ensures var chunks := Chunks(source, options.partSize); var chunk := FirstChunk(rest, options.partSize);
            && s.partNumber <= |chunks| && chunk == chunks[s.partNumber - 1] && chunk != []
            && Chunks(rest[|chunk|..], options.partSize) == chunks[s.partNumber..]
  {
    var chunks := Chunks(source, options.partSize);
    ChunksStep(rest, options.partSize);
    assert chunks[s.partNumber - 1..][1..] == chunks[s.partNumber..];
  }

  lemma SentMembers(start: Snap, s: Snap, s': Snap, n: U32)
    requires |start.uploads| <= |s.uploads| && start.uploads == s.uploads[..|start.uploads|]
    requires SentOnly(s.uploads, s'.uploads, n)
    ensures |start.uploads| <= |s'.uploads| && start.uploads == s'.uploads[..|start.uploads|]
    ensures forall k :: k in Sent(start, s') <==> k in Sent(start, s) || k == n
  {
    var from, mid := |start.uploads|, |s.uploads|;
    assert start.uploads == s'.uploads[..mid][..from] == s'.uploads[..from];
    assert s.uploads[from..] == s'.uploads[from..mid];
    assert s'.uploads[from..] == s'.uploads[from..mid] + s'.uploads[mid..];
    assert s'.uploads[mid] == n;
  }

  /** Sending part `n` keeps the account, whether or not it was accepted. */
  lemma AccountedAfterSend(
    options: Options, digest: Digest, chunks: seq<Bytes>, before: Parts, partsBefore: Remote,
    sent: seq<U32>, sent': seq<U32>, parts: Remote, parts': Remote, entries: Parts, entries': Parts, n: U32)
    requires Accounted(options, digest, chunks, before, partsBefore, sent, parts, entries)
    requires 1 <= n <= |chunks| && n !in sent
    requires forall k :: k in sent' <==> k in sent || k == n
    requires forall k: U32 :: k != n ==> SameOn(parts, parts', k)
    requires n in entries ==> !Describes(options, digest, entries[n], chunks[n - 1])
    requires forall k: U32 :: k != n ==> SameOn(entries, entries', k)
    requires n in entries' ==>
               n in parts' && parts'[n] == chunks[n - 1] && Describes(options, digest, entries'[n], chunks[n - 1])
    ensures Accounted(options, digest, chunks, before, partsBefore, sent', parts', entries')
  {
    hide Describes;
    forall k: U32
      ensures PartAccounted(options, digest, chunks, before, partsBefore, k in sent', parts', entries', k)
    {
      assert PartAccounted(options, digest, chunks, before, partsBefore, k in sent, parts, entries, k);
      assert k != n ==> SameOn(entries, entries', k) && SameOn(parts, parts', k);
    }
  }

  lemma SendRecorded(options: Options, digest: Digest, source: Bytes, start: Snap, rest: Bytes, s: Snap, s': Snap, accepted: bool)
    requires options.Valid() && InLoop(options, digest, source, start, rest, s) && rest != []
    requires Recorded(options, digest, source, start, s)
    requires SendTurn(options, digest, FirstChunk(rest, options.partSize), s, s', accepted)
    ensures Recorded(options, digest, source, start, s')
  {
    hide Accounted, Describes, Chunks, SentOnly, Sent, SameOn;
    NextOf(options, digest, source, start, rest, s);
    SentMembers(start, s, s', s.partNumber);
    AccountedAfterSend(options, digest, Chunks(source, options.partSize), start.checkpoint.completed, start.parts,
                       Sent(start, s), Sent(start, s'), s.parts, s'.parts,
                       s.checkpoint.completed, s'.checkpoint.completed, s.partNumber);
  }

  lemma FailedTurn(options: Options, digest: Digest, source: Bytes, start: Snap, rest: Bytes, s: Snap, s': Snap)
    requires options.Valid() && InLoop(options, digest, source, start, rest, s) && rest != []
    requires Recorded(options, digest, source, start, s)
    requires SendTurn(options, digest, FirstChunk(rest, options.partSize), s, s', false)
    ensures Recorded(options, digest, source, start, s')
  {
    SendRecorded(options, digest, source, start, rest, s, s', false);
  }

  lemma GoodTurn(options: Options, digest: Digest, source: Bytes, start: Snap, rest: Bytes, s: Snap, s': Snap)
    requires options.Valid() && InLoop(options, digest, source, start, rest, s) && rest != []
    requires Recorded(options, digest, source, start, s)
    requires var chunk := FirstChunk(rest, options.partSize);
             SkipTurn(options, digest, chunk, s, s') || SendTurn(options, digest, chunk, s, s', true)
    ensures var chunk := FirstChunk(rest, options.partSize);
            && |rest[|chunk|..]| < |rest|
            && InLoop(options, digest, source, start, rest[|chunk|..], s')
    ensures Recorded(options, digest, source, start, s')
  {
    NextOf(options, digest, source, start, rest, s);
    var chunk := FirstChunk(rest, options.partSize);
    if !SkipTurn(options, digest, chunk, s, s') {
      SendRecorded(options, digest, source, start, rest, s, s', true);
      SendLoops(options, digest, source, start, rest, s, s');
    }
  }

  lemma SendLoops(options: Options, digest: Digest, source: Bytes, start: Snap, rest: Bytes, s: Snap, s': Snap)
    requires options.Valid() && InLoop(options, digest, source, start, rest, s) && rest != []
    requires Recorded(options, digest, source, start, s)
    requires SendTurn(options, digest, FirstChunk(rest, options.partSize), s, s', true)
    ensures InLoop(options, digest, source, start, rest[|FirstChunk(rest, options.partSize)|..], s')
  {
    NextOf(options, digest, source, start, rest, s);
    var n: U32 := s.partNumber;
    SentMembers(start, s, s', n);
    forall k: U32 | 1 <= k < s'.partNumber && k != n
      ensures k in s'.checkpoint.completed && s'.checkpoint.completed[k] == s.checkpoint.completed[k]
    {
      assert SameOn(s.checkpoint.completed, s'.checkpoint.completed, k);
    }
  }
}
