/** `ResumableUploadSession`: the mutable progress of one upload run. */
module UploadSession {
  import opened Wrappers
  import opened Machine
  import opened UploadTypes

  datatype Plan = Plan(partNumber: U32, chunk: Bytes, expectedChecksum: Option<string>)

  datatype ChunkAction = Finish | Skip | Upload(plan: Plan)

  datatype UploadResult = UploadResult(
    uploadId: string, totalBytes: nat, totalParts: nat, resumed: bool, completedParts: seq<UploadedPart>)

  /** The parts `1..count` of a checkpoint in order. */
  function Ordered(completed: Parts, count: nat): (parts: seq<UploadedPart>)
    requires count <= U32_MAX && forall k: U32 :: 1 <= k <= count ==> k in completed
    ensures |parts| == count
    ensures forall k: U32 :: 1 <= k <= count ==> parts[k - 1] == completed[k]
  {
    seq(count, i requires 0 <= i < count => completed[i + 1])
  }

  /** `validate_uploaded_part`: what a backend's metadata is rejected for. */
  function MetadataError(options: Options, checkpoint: Checkpoint, plan: Plan, uploaded: UploadedPart)
    : (error: Option<UploadError>)
    ensures error.None? <==>
            (plan.expectedChecksum.Some? ==>
               var expected := NormalizeToken(plan.expectedChecksum.value);
               && (uploaded.checksum.Some? ==> NormalizeToken(uploaded.checksum.value) == expected)
               && (options.verifyRemoteEtag ==> NormalizeToken(uploaded.etag) == expected))
    ensures error.Some? ==> Plain(error.value, checkpoint)
  {
    if plan.expectedChecksum.None? then None
    else
      var expected := NormalizeToken(plan.expectedChecksum.value);
      if uploaded.checksum.Some? && NormalizeToken(uploaded.checksum.value) != expected then
        Some(PartChecksumMismatch(plan.partNumber, expected, NormalizeToken(uploaded.checksum.value), checkpoint))
      else if options.verifyRemoteEtag && NormalizeToken(uploaded.etag) != expected then
        Some(PartEtagMismatch(plan.partNumber, expected, NormalizeToken(uploaded.etag), checkpoint))
      else None
  }

  class Session {
    const options: Options
    const digest: Digest
    const resumed: bool
    var checkpoint: Checkpoint
    var totalBytes: nat
    var partNumber: nat

    /** What every operation keeps: valid keys, and an entry for every part already passed. */
    ghost predicate Valid()
      reads this
    {
      && options.Valid()
      && ValidCheckpoint(options, checkpoint)
      && 1 <= partNumber <= U32_MAX + 1
      && forall k: U32 :: 1 <= k < partNumber ==> k in checkpoint.completed
    }

    constructor (options: Options, digest: Digest, checkpoint: Checkpoint, resumed: bool)
      requires options.Valid() && ValidCheckpoint(options, checkpoint)
      ensures Valid()
      ensures this.options == options && this.digest == digest && this.resumed == resumed
      ensures this.checkpoint == checkpoint && totalBytes == 0 && partNumber == 1
    {
      this.options := options;
      this.digest := digest;
      this.resumed := resumed;
      this.checkpoint := checkpoint;
      totalBytes := 0;
      partNumber := 1;
    }

    /** Counts one non-empty chunk: skips it when its entry describes it, else forgets the entry and plans an upload. */
    method NextChunk(chunk: Bytes) returns (r: Result<ChunkAction, UploadError>)
      requires Valid()
      modifies this
      ensures Valid() && checkpoint == old(checkpoint).(completed := checkpoint.completed)
      ensures chunk == [] ==> unchanged(this)
      ensures chunk == [] ==>
                r == match FirstRemaining(checkpoint.completed, partNumber)
                     case Some(part) => Err(SourceRead(Some(part), checkpoint))
                     case None => Ok(Finish)
      ensures r.Err? ==> Plain(r.error, checkpoint)
      ensures chunk != [] && old(partNumber) > U32_MAX ==>
                unchanged(this) && r == Err(TooManyUploadParts(partNumber, checkpoint))
      ensures chunk != [] && old(partNumber) <= U32_MAX ==>
                && totalBytes == Min(old(totalBytes) + |chunk|, U64_MAX)
                && var n: U32 := old(partNumber);
                   if n in old(checkpoint).completed && Describes(options, digest, old(checkpoint).completed[n], chunk)
                   then r == Ok(Skip) && partNumber == n + 1 && checkpoint == old(checkpoint)
                   else && r == Ok(Upload(Plan(n, chunk, ExpectedChecksum(options, digest, chunk))))
                        && partNumber == n
                        && checkpoint.completed == old(checkpoint).completed - {n}
    {
      if chunk == [] {
        var remaining := FirstRemaining(checkpoint.completed, partNumber);
        if remaining.Some? {
          return Err(SourceRead(Some(remaining.value), checkpoint));
        }
        return Ok(Finish);
      }
      if partNumber > U32_MAX {
        return Err(TooManyUploadParts(partNumber, checkpoint));
      }
      var n: U32 := partNumber;
      totalBytes := Min(totalBytes + |chunk|, U64_MAX);
      var expected := ComputeChecksum(options, digest, chunk);
      if n in checkpoint.completed {
        if CheckpointPartMatches(checkpoint.completed[n], |chunk|, expected, options.verifyRemoteEtag) {
          partNumber := partNumber + 1;
          return Ok(Skip);
        }
        checkpoint := checkpoint.(completed := checkpoint.completed - {n});
      }
      assert checkpoint.completed == old(checkpoint).completed - {n};
      r := Ok(Upload(Plan(n, chunk, expected)));
    }

    /** Records a part: on success its entry describes the planned chunk, on failure nothing moves. */
    method AcceptUploadedPart(plan: Plan, uploaded: UploadedPart) returns (error: Option<UploadError>)
      requires Valid() && plan.partNumber == partNumber
      requires plan.expectedChecksum == ExpectedChecksum(options, digest, plan.chunk)
      modifies this`checkpoint, this`partNumber
      ensures Valid()
      ensures error.Some? ==> unchanged(this) && Plain(error.value, checkpoint)
      ensures error.None? ==>
                && partNumber == old(partNumber) + 1
                && checkpoint == old(checkpoint).(completed := checkpoint.completed)
                && plan.partNumber in checkpoint.completed
                && checkpoint.completed == old(checkpoint).completed[plan.partNumber := checkpoint.completed[plan.partNumber]]
                && Describes(options, digest, checkpoint.completed[plan.partNumber], plan.chunk)
                && checkpoint.completed[plan.partNumber].etag == uploaded.etag
      ensures error.None? <==>
              && uploaded.partNumber == plan.partNumber
              && uploaded.size == |plan.chunk|
              && MetadataError(options, old(checkpoint), plan, uploaded).None?
    {
      if uploaded.partNumber != plan.partNumber {
        return Some(PartNumberMismatch(plan.partNumber, uploaded.partNumber, checkpoint));
      }
      if uploaded.size != |plan.chunk| {
        return Some(PartSizeMismatch(plan.partNumber, |plan.chunk|, uploaded.size, checkpoint));
      }
      error := MetadataError(options, checkpoint, plan, uploaded);
      if error.Some? {
        return;
      }
      var recorded := if uploaded.checksum.None? then uploaded.(checksum := plan.expectedChecksum) else uploaded;
      checkpoint := checkpoint.(completed := checkpoint.completed[plan.partNumber := recorded]);
      partNumber := partNumber + 1;
    }

    function TotalParts(): (count: nat)
      requires 1 <= partNumber
      reads this
      ensures count <= U32_MAX
      ensures partNumber <= U32_MAX + 1 ==> count == partNumber - 1
    {
      Min(partNumber - 1, U32_MAX)
    }

    /** Collects the parts in order; the missing-part error is never returned. */
    method OrderedCompletedParts() returns (r: Result<seq<UploadedPart>, UploadError>)
      requires Valid()
      ensures r == if partNumber == 1 then Err(EmptyUploadBody(checkpoint))
                   else Ok(Ordered(checkpoint.completed, partNumber - 1))
    {
      var total := TotalParts();
      if total == 0 {
        return Err(EmptyUploadBody(checkpoint));
      }
      var ordered := [];
      for current := 1 to total + 1
        invariant |ordered| == current - 1
        invariant forall k: U32 :: 1 <= k < current ==> ordered[k - 1] == checkpoint.completed[k]
      {
        var number: U32 := current;
        if number !in checkpoint.completed {
          return Err(MissingCompletedPart(number, checkpoint));
        }
        ordered := ordered + [checkpoint.completed[number]];
      }
      forall i | 0 <= i < total ensures ordered[i] == Ordered(checkpoint.completed, total)[i] {
        var k: U32 := i + 1;
        assert ordered[k - 1] == checkpoint.completed[k];
      }
      assert ordered == Ordered(checkpoint.completed, total);
      r := Ok(ordered);
    }

    method FinishWith(completedParts: seq<UploadedPart>) returns (result: UploadResult)
      requires Valid()
      ensures result ==
              UploadResult(checkpoint.uploadId, totalBytes, partNumber - 1, resumed, completedParts)
    {
      result := UploadResult(checkpoint.uploadId, totalBytes, TotalParts(), resumed, completedParts);
    }
  }
}
