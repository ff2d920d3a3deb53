/** Checkpoints, options and part metadata of a resumable upload, and what an entry says about bytes. */
module UploadTypes {
  import opened Wrappers
  import opened Machine
  import opened Text

  const CHECKPOINT_VERSION: nat := 2

  datatype Algorithm = Md5 | Sha256

  /** The raw hash of a chunk; its internals are not modelled. */
  type Digest = (Algorithm, Bytes) -> Bytes

  datatype UploadedPart = UploadedPart(partNumber: U32, etag: string, size: nat, checksum: Option<string>)

  type Parts = map<U32, UploadedPart>

  datatype Checkpoint = Checkpoint(
    version: nat, uploadId: string, partSize: nat, algorithm: Option<Algorithm>, completed: Parts)

  datatype Options = Options(
    partSize: nat, maxAttempts: nat, abortOnError: bool, algorithm: Option<Algorithm>, verifyRemoteEtag: bool)
  {
    /** What `validate` accepts, apart from the backoff settings. */
    predicate Valid() {
      0 < partSize && 0 < maxAttempts && (verifyRemoteEtag ==> algorithm.Some?)
    }
  }

  datatype UploadError =
    | InvalidOptions
    | CreateFailed
    | UnsupportedCheckpointVersion(checkpointVersion: nat)
    | CheckpointPartSizeMismatch(checkpointPartSize: nat, optionsPartSize: nat)
    | EmptyUploadId
    | CheckpointChecksumAlgorithmMismatch(checkpointAlgorithm: Option<Algorithm>, optionsAlgorithm: Option<Algorithm>)
    | InvalidCheckpointPartNumber(key: U32, recorded: U32)
    | SourceRead(expectedPart: Option<U32>, checkpoint: Checkpoint)
    | PartUploadFailed(partNumber: U32, attempts: nat, checkpoint: Checkpoint)
    | PartNumberMismatch(expectedNumber: U32, actualNumber: U32, checkpoint: Checkpoint)
    | PartSizeMismatch(partNumber: U32, expectedSize: nat, actualSize: nat, checkpoint: Checkpoint)
    | PartChecksumMismatch(partNumber: U32, expectedToken: string, actualToken: string, checkpoint: Checkpoint)
    | PartEtagMismatch(partNumber: U32, expectedToken: string, actualToken: string, checkpoint: Checkpoint)
    | CompleteFailed(checkpoint: Checkpoint)
    | EmptyUploadBody(checkpoint: Checkpoint)
    | MissingCompletedPart(partNumber: U32, checkpoint: Checkpoint)
    | TooManyUploadParts(attemptedNumber: nat, checkpoint: Checkpoint)
    | AbortFailed(uploadId: string, original: UploadError)
  {
    /** The checkpoint an error hands back, looking through a failed abort. */
    function Carried(): Option<Checkpoint> {
      match this
      case InvalidOptions => None
      case CreateFailed => None
      case UnsupportedCheckpointVersion(_) => None
      case CheckpointPartSizeMismatch(_, _) => None
      case EmptyUploadId => None
      case CheckpointChecksumAlgorithmMismatch(_, _) => None
      case InvalidCheckpointPartNumber(_, _) => None
      case AbortFailed(_, original) => original.Carried()
      case _ => Some(checkpoint)
    }
  }

  /** An error of the run itself that hands back this checkpoint; never a missing part. */
  predicate Plain(error: UploadError, checkpoint: Checkpoint) {
    error.Carried() == Some(checkpoint) && !error.MissingCompletedPart? && !error.AbortFailed?
  }

  // ---------------------------------------------------------------- tokens

  const HEX_DIGITS: string := "0123456789abcdef"

  function HexOf(bytes: Bytes): string {
    if bytes == [] then ""
    else [HEX_DIGITS[bytes[0] / 16], HEX_DIGITS[bytes[0] % 16]] + HexOf(bytes[1..])
  }

  /** The loop of `encode_hex_lower`. */
  method EncodeHexLower(bytes: Bytes) returns (encoded: string)
    ensures encoded == HexOf(bytes)
    ensures |encoded| == 2 * |bytes| && forall i :: 0 <= i < |bytes| ==> ReadsAs(encoded, i, bytes[i])
  {
    encoded := "";
    for i := 0 to |bytes|
      invariant encoded + HexOf(bytes[i..]) == HexOf(bytes)
    {
      var high, low := HEX_DIGITS[bytes[i] / 16], HEX_DIGITS[bytes[i] % 16];
      assert HexOf(bytes[i..]) == [high, low] + HexOf(bytes[i + 1..]) by {
        assert bytes[i..][1..] == bytes[i + 1..];
      }
      hide HexOf;
      ghost var rest := HexOf(bytes[i + 1..]);
      assert encoded + ([high, low] + rest) == (encoded + [high] + [low]) + rest;
      encoded := encoded + [high] + [low];
    }
    assert encoded + HexOf([]) == encoded && bytes[|bytes|..] == [];
    HexChars(bytes);
    forall i | 0 <= i < |bytes| ensures ReadsAs(encoded, i, bytes[i]) {
      HexReadsBack(bytes, i);
    }
  }

  /** Digits `2i` and `2i + 1`, high before low, are the value of a byte. */
  predicate ReadsAs(encoded: string, i: nat, b: byte)
    requires 2 * i + 1 < |encoded|
  {
    Value(encoded[2 * i]) * 16 + Value(encoded[2 * i + 1]) == b as int
  }

  function NormalizeToken(value: string): string {
    AsciiLower(TrimBoth(TrimBoth(Trim(value), c => c == '"'), c => c == '\''))
  }

  predicate IsHexDigit(c: char) {
    '0' <= c <= '9' || 'a' <= c <= 'f'
  }

  lemma {:induction false} HexChars(bytes: Bytes)
    ensures |HexOf(bytes)| == 2 * |bytes|
    ensures forall i :: 0 <= i < |HexOf(bytes)| ==> IsHexDigit(HexOf(bytes)[i])
  {
    if bytes != [] {
      HexChars(bytes[1..]);
      assert IsHexDigit(HEX_DIGITS[bytes[0] / 16]) && IsHexDigit(HEX_DIGITS[bytes[0] % 16]);
    }
  }

  /** Encoded digests survive normalisation, so comparing tokens compares digests. */
  lemma {:induction false} NormalizedHex(bytes: Bytes)
    ensures NormalizeToken(HexOf(bytes)) == HexOf(bytes)
  {
    HexChars(bytes);
    hide HexOf;
    var token := HexOf(bytes);
    forall i | 0 <= i < |token|
      ensures !IsWhitespace(token[i]) && token[i] != '"' && token[i] != '\'' && LowerChar(token[i]) == token[i]
    {
      assert IsHexDigit(token[i]);
    }
    TrimNothing(token, IsWhitespace);
    TrimNothing(token, c => c == '"');
    TrimNothing(token, c => c == '\'');
    assert AsciiLower(token) == token;
  }

  /** The value of a lower-case hexadecimal digit. */
  function Value(c: char): int {
    if c <= '9' then c as int - 48 else c as int - 87
  }

  /** Read as digits, high before low, an encoding gives back its bytes. */
  lemma {:induction false} HexReadsBack(bytes: Bytes, i: nat)
    requires i < |bytes|
    ensures |HexOf(bytes)| == 2 * |bytes|
    ensures ReadsAs(HexOf(bytes), i, bytes[i])
    decreases i
  {
    HexChars(bytes);
    if i > 0 {
      HexReadsBack(bytes[1..], i - 1);
      assert HexOf(bytes)[2 * i] == HexOf(bytes[1..])[2 * (i - 1)];
      assert HexOf(bytes)[2 * i + 1] == HexOf(bytes[1..])[2 * (i - 1) + 1];
    } else {
      DigitValue(bytes[0] / 16);
      DigitValue(bytes[0] % 16);
    }
  }

  lemma DigitValue(d: byte)
    requires d < 16
    ensures Value(HEX_DIGITS[d]) == d as int
  {
  }

  /** Padding, then double quotes, then single quotes fall away, and letters become lower case. */
  lemma TokenIsNormalized(before: string, open: string, open': string, token: string, close': string, close: string, after: string)
    requires All(before, IsWhitespace) && All(after, IsWhitespace)
    requires All(open, c => c == '"') && All(close, c => c == '"') && All(open', c => c == '\'') && All(close', c => c == '\'')
    requires token != "" && Bare(token, IsWhitespace) && Bare(token, c => c == '"') && Bare(token, c => c == '\'')
    ensures NormalizeToken(before + (open + (open' + token + close') + close) + after) == AsciiLower(token)
  {
    var single := open' + token + close';
    var double := open + single + close;
    hide TrimBoth;
    TrimDrops(before, double, after, IsWhitespace);
    TrimDrops(open, single, close, c => c == '"');
    TrimDrops(open', token, close', c => c == '\'');
  }

  lemma {:induction false} HexInjective(a: Bytes, b: Bytes)
    requires HexOf(a) == HexOf(b)
    ensures a == b
  {
    HexChars(a);
    HexChars(b);
    if a != [] {
      assert HexOf(a)[2..] == HexOf(a[1..]) && HexOf(b)[2..] == HexOf(b[1..]);
      assert HexOf(a)[0] == HexOf(b)[0] && HexOf(a)[1] == HexOf(b)[1];
      DigitInjective(a[0] / 16, b[0] / 16);
      DigitInjective(a[0] % 16, b[0] % 16);
      HexInjective(a[1..], b[1..]);
      assert a == [a[0]] + a[1..] && b == [b[0]] + b[1..];
    }
  }

  lemma DigitInjective(i: byte, j: byte)
    requires i < 16 && j < 16 && HEX_DIGITS[i] == HEX_DIGITS[j]
    ensures i == j
  {
  }

  // ----------------------------------------------- entries describe bytes

  function ExpectedChecksum(options: Options, digest: Digest, chunk: Bytes): Option<string> {
    match options.algorithm
    case None => None
    case Some(algorithm) => Some(HexOf(digest(algorithm, chunk)))
  }

  /** `expected_checksum`, which hashes and then encodes. */
  method ComputeChecksum(options: Options, digest: Digest, chunk: Bytes) returns (checksum: Option<string>)
    ensures checksum == ExpectedChecksum(options, digest, chunk)
  {
    match options.algorithm
    case None => checksum := None;
    case Some(algorithm) =>
      var encoded := EncodeHexLower(digest(algorithm, chunk));
      checksum := Some(encoded);
  }

  predicate CheckpointPartMatches(
    existing: UploadedPart, expectedSize: nat, expectedChecksum: Option<string>, verifyRemoteEtag: bool)
  {
    existing.size == expectedSize &&
    (expectedChecksum.Some? ==>
       && existing.checksum.Some?
       && NormalizeToken(existing.checksum.value) == NormalizeToken(expectedChecksum.value)
       && (verifyRemoteEtag ==> NormalizeToken(existing.etag) == NormalizeToken(expectedChecksum.value)))
  }

  /** A checkpoint entry is a true description of `bytes` under the upload's options. */
  predicate Describes(options: Options, digest: Digest, entry: UploadedPart, bytes: Bytes) {
    CheckpointPartMatches(entry, |bytes|, ExpectedChecksum(options, digest, bytes), options.verifyRemoteEtag)
  }

  ghost predicate Injective(digest: Digest, algorithm: Algorithm) {
    forall a, b :: digest(algorithm, a) == digest(algorithm, b) ==> a == b
  }

  /** With an ideal checksum an entry describes at most one chunk. */
  lemma DescribesOnlyOne(options: Options, digest: Digest, entry: UploadedPart, a: Bytes, b: Bytes)
    requires options.algorithm.Some? && Injective(digest, options.algorithm.value)
    requires Describes(options, digest, entry, a) && Describes(options, digest, entry, b)
    ensures a == b
  {
    var rawA, rawB := digest(options.algorithm.value, a), digest(options.algorithm.value, b);
    NormalizedHex(rawA);
    NormalizedHex(rawB);
    HexInjective(rawA, rawB);
  }

  // ------------------------------------------------------------ validation

  predicate KeysMatch(completed: Parts) {
    forall k :: k in completed ==> k != 0 && completed[k].partNumber == k
  }

  predicate ValidCheckpoint(options: Options, checkpoint: Checkpoint) {
    && checkpoint.version == CHECKPOINT_VERSION
    && checkpoint.partSize == options.partSize
    && Trim(checkpoint.uploadId) != ""
    && checkpoint.algorithm == options.algorithm
    && KeysMatch(checkpoint.completed)
  }

  /** `error` names the first thing wrong with the checkpoint, in the order the checks are made. */
  predicate Rejects(options: Options, checkpoint: Checkpoint, error: UploadError) {
    if checkpoint.version != CHECKPOINT_VERSION then
      error == UnsupportedCheckpointVersion(checkpoint.version)
    else if checkpoint.partSize != options.partSize then
      error == CheckpointPartSizeMismatch(checkpoint.partSize, options.partSize)
    else if Trim(checkpoint.uploadId) == "" then
      error == EmptyUploadId
    else if checkpoint.algorithm != options.algorithm then
      error == CheckpointChecksumAlgorithmMismatch(checkpoint.algorithm, options.algorithm)
    else
      && error.InvalidCheckpointPartNumber?
      && error.key in checkpoint.completed
      && error.recorded == checkpoint.completed[error.key].partNumber
      && (error.key == 0 || error.key != error.recorded)
  }

  /** `validate_checkpoint`, looping over the entries until one is rejected. */
  method ValidateCheckpoint(options: Options, checkpoint: Checkpoint) returns (error: Option<UploadError>)
    ensures error.None? <==> ValidCheckpoint(options, checkpoint)
    ensures error.Some? ==> Rejects(options, checkpoint, error.value)
  {
    if checkpoint.version != CHECKPOINT_VERSION {
      return Some(UnsupportedCheckpointVersion(checkpoint.version));
    }
    if checkpoint.partSize != options.partSize {
      return Some(CheckpointPartSizeMismatch(checkpoint.partSize, options.partSize));
    }
    if Trim(checkpoint.uploadId) == "" {
      return Some(EmptyUploadId);
    }
    if checkpoint.algorithm != options.algorithm {
      return Some(CheckpointChecksumAlgorithmMismatch(checkpoint.algorithm, options.algorithm));
    }
    var unchecked := checkpoint.completed.Keys;
    while unchecked != {}
      invariant unchecked <= checkpoint.completed.Keys
      invariant forall k :: k in checkpoint.completed && k !in unchecked ==>
                              k != 0 && checkpoint.completed[k].partNumber == k
      decreases |unchecked|
    {
      var key :| key in unchecked;
      if key == 0 || checkpoint.completed[key].partNumber != key {
        return Some(InvalidCheckpointPartNumber(key, checkpoint.completed[key].partNumber));
      }
      unchecked := unchecked - {key};
    }
    error := None;
  }

  /** The first checkpointed part at or after `next`, as `range(next..).next()` finds it. */
  function FirstRemaining(completed: Parts, next: nat): (part: Option<U32>)
    ensures part.None? ==> forall k :: k in completed ==> k < next
    ensures part.Some? ==> part.value in completed && next <= part.value
    ensures part.Some? ==> forall k :: k in completed && next <= k ==> part.value <= k
    decreases U32_MAX + 1 - next
  {
    if next > U32_MAX then None
    else if next in completed then Some(next)
    else FirstRemaining(completed, next + 1)
  }

  // ---------------------------------------------------------------- chunks

  /** The parts a source is cut into: all of `partSize` bytes except a shorter last one. */
  function Chunks(source: Bytes, partSize: nat): seq<Bytes>
    requires 0 < partSize
  {
    if source == [] then []
    else if |source| <= partSize then [source]
    else [source[..partSize]] + Chunks(source[partSize..], partSize)
  }

  function Concat(chunks: seq<Bytes>): Bytes {
    if chunks == [] then [] else chunks[0] + Concat(chunks[1..])
  }

  lemma {:induction false} ConcatChunks(source: Bytes, partSize: nat)
    requires 0 < partSize
    ensures Concat(Chunks(source, partSize)) == source
    decreases |source|
  {
    if |source| > partSize {
      ConcatChunks(source[partSize..], partSize);
      assert Chunks(source, partSize)[1..] == Chunks(source[partSize..], partSize);
    }
  }

  lemma SliceAfter(source: Bytes, n: nat, from: nat, to: nat)
    requires n <= |source| && from <= to <= |source| - n
    ensures source[n..][from..to] == source[n + from..n + to]
  {
  }

  /** Chunk `i` is the `i`-th window of the source; all but the last are full. */
  lemma {:induction false} ChunkWindow(source: Bytes, partSize: nat, i: nat)
    requires 0 < partSize && i < |Chunks(source, partSize)|
    ensures i * partSize < |source|
    ensures Chunks(source, partSize)[i] == source[i * partSize..Min((i + 1) * partSize, |source|)]
    ensures i + 1 < |Chunks(source, partSize)| ==> |Chunks(source, partSize)[i]| == partSize
    decreases i
  {
    if i > 0 {
      var rest := source[partSize..];
      assert Chunks(source, partSize)[i] == Chunks(rest, partSize)[i - 1];
      ChunkWindow(rest, partSize, i - 1);
      var from := (i - 1) * partSize;
      assert i * partSize == partSize + from && (i + 1) * partSize == partSize + (from + partSize);
      SliceAfter(source, partSize, from, Min(from + partSize, |rest|));
    } else {
      assert i * partSize == 0 && (i + 1) * partSize == partSize;
    }
  }
}
