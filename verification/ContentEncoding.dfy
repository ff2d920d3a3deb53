/** Unwinding a response's content codings under a size limit, per sections 5.3 and 8.4 of RFC 9110. */
module ContentEncoding {
  import opened Wrappers
  import opened Machine
  import opened Text

  datatype DecodeError = Undecodable(encoding: string) | TooLarge(actual: nat)

  type Decoded = Result<Bytes, DecodeError>

  // ---------------------------------------------------------- reading a decoder

  /** What one read gives: some bytes (none at the end), an interruption, or a fault. */
  datatype Read = Data(bytes: Bytes) | Interrupted | Fault

  /** Everything a reader will give; past the end it gives nothing. */
  type Script = seq<Read>

  /** The bytes a reader delivers before it ends or fails, however they are cut. */
  function Delivered(script: Script): Bytes {
    if script == [] then []
    else match script[0]
      case Data(bytes) => if bytes == [] then [] else bytes + Delivered(script[1..])
      case Interrupted => Delivered(script[1..])
      case Fault => []
  }

  predicate Fails(script: Script) {
    if script == [] then false
    else match script[0]
      case Data(bytes) => bytes != [] && Fails(script[1..])
      case Interrupted => Fails(script[1..])
      case Fault => true
  }

  class Reader {
    var script: Script

    constructor (script: Script)
      ensures this.script == script
    {
      this.script := script;
    }

    method Next() returns (r: Read)
      modifies this
      ensures old(script) == [] ==> r == Data([]) && script == []
      ensures old(script) != [] ==> r == old(script)[0] && script == old(script)[1..]
    {
      if script == [] {
        return Data([]);
      }
      r := script[0];
      script := script[1..];
    }

    /** Reads until something other than an interruption comes. */
    method ReadRetryInterrupted() returns (r: Read)
      modifies this
      ensures !r.Interrupted? && Told(old(script), r, script)
    {
      r := Next();
      while r.Interrupted?
        invariant if r.Interrupted? then |script| < |old(script)| && Quiet(old(script)) == Quiet(script)
                  else Told(old(script), r, script)
        decreases |script|, r.Interrupted?
      {
        r := Next();
      }
    }
  }

  /** The script without the interruptions it starts with. */
  function Quiet(script: Script): Script {
    if script != [] && script[0].Interrupted? then Quiet(script[1..]) else script
  }

  /** The first read that is not an interruption, and what follows it. */
  ghost predicate Told(before: Script, r: Read, after: Script) {
    var quiet := Quiet(before);
    if quiet == [] then r == Data([]) else r == quiet[0] && after == quiet[1..] && |after| < |before|
  }

  /** Reads on until the end, a fault, or one byte too many. */
  function Gathered(script: Script, encoding: string, maxBytes: nat, decoded: Bytes): Decoded {
    if script == [] then Ok(decoded)
    else match script[0]
      case Interrupted => Gathered(script[1..], encoding, maxBytes, decoded)
      case Fault => Err(Undecodable(encoding))
      case Data(bytes) =>
        if bytes == [] then Ok(decoded)
        else if |decoded| + |bytes| > maxBytes then Err(TooLarge(|decoded| + |bytes|))
        else Gathered(script[1..], encoding, maxBytes, decoded + bytes)
  }

  lemma {:induction false} GatheredQuiet(script: Script, encoding: string, maxBytes: nat, decoded: Bytes)
    ensures Gathered(script, encoding, maxBytes, decoded) == Gathered(Quiet(script), encoding, maxBytes, decoded)
  {
    if script != [] && script[0].Interrupted? {
      GatheredQuiet(script[1..], encoding, maxBytes, decoded);
    }
  }

  method ReadToEndLimited(reader: Reader, encoding: string, maxBytes: nat) returns (r: Decoded)
    modifies reader
    ensures r == Gathered(old(reader.script), encoding, maxBytes, [])
  {
    var decoded: Bytes := [];
    while true
      invariant Gathered(reader.script, encoding, maxBytes, decoded) == Gathered(old(reader.script), encoding, maxBytes, [])
      decreases |reader.script|
    {
      GatheredQuiet(reader.script, encoding, maxBytes, decoded);
      var read := reader.ReadRetryInterrupted();
      if read.Fault? {
        return Err(Undecodable(encoding));
      }
      if read.bytes == [] {
        break;
      }
      var size := |decoded| + |read.bytes|;
      if size > maxBytes {
        return Err(TooLarge(size));
      }
      decoded := decoded + read.bytes;
    }
    r := Ok(decoded);
  }

  /** What a reader's whole delivery comes to: only the size reported may depend on how it is cut. */
  ghost predicate Collects(delivered: Bytes, fails: bool, encoding: string, maxBytes: nat, r: Decoded) {
    if |delivered| > maxBytes then r.Err? && r.error.TooLarge? && maxBytes < r.error.actual <= |delivered|
    else if fails then r == Err(Undecodable(encoding))
    else r == Ok(delivered)
  }

  lemma {:induction false} GatheredCollects(script: Script, encoding: string, maxBytes: nat, decoded: Bytes)
    requires |decoded| <= maxBytes
    ensures Collects(decoded + Delivered(script), Fails(script), encoding, maxBytes,
                     Gathered(script, encoding, maxBytes, decoded))
  {
    if script == [] {
      assert decoded + [] == decoded;
    } else {
      match script[0] {
        case Interrupted => GatheredCollects(script[1..], encoding, maxBytes, decoded);
        case Fault => assert decoded + [] == decoded;
        case Data(bytes) =>
          if bytes == [] {
            assert decoded + [] == decoded;
          } else {
            assert decoded + (bytes + Delivered(script[1..])) == (decoded + bytes) + Delivered(script[1..]);
            if |decoded| + |bytes| <= maxBytes {
              GatheredCollects(script[1..], encoding, maxBytes, decoded + bytes);
            }
          }
      }
    }
  }

  lemma ReadAllCollects(script: Script, encoding: string, maxBytes: nat)
    ensures Collects(Delivered(script), Fails(script), encoding, maxBytes, ReadAll(script, encoding, maxBytes))
  {
    GatheredCollects(script, encoding, maxBytes, []);
    assert [] + Delivered(script) == Delivered(script);
  }

  // ---------------------------------------------------------- the codings

  /** The decoders of the build; each turns a body into a reader. */
  datatype Codecs = Codecs(
    gzip: Bytes -> Script, zlib: Bytes -> Script, deflate: Bytes -> Script, brotli: Bytes -> Script, zstd: Bytes -> Script,
    hasGzip: bool, hasBrotli: bool, hasZstd: bool)

  function ReadAll(script: Script, encoding: string, maxBytes: nat): Decoded {
    Gathered(script, encoding, maxBytes, [])
  }

  /** Deflate is tried with the zlib wrapper first, and without it only when that cannot be decoded. */
  function Inflated(d: Codecs, body: Bytes, encoding: string, maxBytes: nat): Decoded {
    var wrapped := ReadAll(d.zlib(body), encoding, maxBytes);
    if wrapped.Err? && wrapped.error.Undecodable? then ReadAll(d.deflate(body), encoding, maxBytes) else wrapped
  }

  function Stage(d: Codecs, body: Bytes, encoding: string, maxBytes: nat): Decoded {
    var name := AsciiLower(encoding);
    if name == "identity" then Ok(body)
    else if name == "gzip" && d.hasGzip then ReadAll(d.gzip(body), encoding, maxBytes)
    else if name == "deflate" && d.hasGzip then Inflated(d, body, encoding, maxBytes)
    else if name == "br" && d.hasBrotli then ReadAll(d.brotli(body), encoding, maxBytes)
    else if name == "zstd" && d.hasZstd then ReadAll(d.zstd(body), encoding, maxBytes)
    else Err(Undecodable(name))
  }

  /** The last coding listed was applied last, and is undone first. */
  function Unwound(d: Codecs, body: Bytes, encodings: seq<string>, maxBytes: nat): Decoded
    decreases |encodings|
  {
    if encodings == [] then Ok(body)
    else
      var n := |encodings| - 1;
      var stage := Stage(d, body, encodings[n], maxBytes);
      if stage.Err? then stage else Unwound(d, stage.value, encodings[..n], maxBytes)
  }

  function NonEmpty(pieces: seq<string>): seq<string> {
    if pieces == [] then []
    else (if Trim(pieces[0]) == "" then [] else [Trim(pieces[0])]) + NonEmpty(pieces[1..])
  }

  /** The codings of one field line. */
  function Listed(line: string): seq<string> {
    NonEmpty(Split(line, ','))
  }

  /** The codings of all field lines, in order; `None` when a line is not visible ASCII. */
  function AllListed(lines: seq<Option<string>>): Option<seq<string>> {
    if lines == [] then Some([])
    else if lines[0].None? then None
    else
      var rest := AllListed(lines[1..]);
      if rest.None? then None else Some(Listed(lines[0].value) + rest.value)
  }

  function Decode(d: Codecs, body: Bytes, lines: seq<Option<string>>, maxBytes: nat): Decoded {
    if |body| > maxBytes then Err(TooLarge(|body|))
    else
      var encodings := AllListed(lines);
      if encodings.None? then Err(Undecodable("content-encoding")) else Unwound(d, body, encodings.value, maxBytes)
  }

  // ---------------------------------------------------------- the loops

  method DecodeDeflateLimited(d: Codecs, body: Bytes, encoding: string, maxBytes: nat) returns (r: Decoded)
    ensures r == Inflated(d, body, encoding, maxBytes)
  {
    var wrapped := new Reader(d.zlib(body));
    r := ReadToEndLimited(wrapped, encoding, maxBytes);
    if r.Err? && r.error.Undecodable? {
      var raw := new Reader(d.deflate(body));
      r := ReadToEndLimited(raw, encoding, maxBytes);
    }
  }

  method DecodeStage(d: Codecs, body: Bytes, encoding: string, maxBytes: nat) returns (r: Decoded)
    ensures r == Stage(d, body, encoding, maxBytes)
  {
    var name := AsciiLower(encoding);
    if name == "identity" {
      return Ok(body);
    }
    if name == "deflate" && d.hasGzip {
      r := DecodeDeflateLimited(d, body, encoding, maxBytes);
      return;
    }
    var script;
    if name == "gzip" && d.hasGzip {
      script := d.gzip(body);
    } else if name == "br" && d.hasBrotli {
      script := d.brotli(body);
    } else if name == "zstd" && d.hasZstd {
      script := d.zstd(body);
    } else {
      return Err(Undecodable(name));
    }
    var decoder := new Reader(script);
    r := ReadToEndLimited(decoder, encoding, maxBytes);
  }

  method ListEncodings(lines: seq<Option<string>>) returns (encodings: Option<seq<string>>)
    ensures encodings == AllListed(lines)
  {
    var listed := [];
    assert lines[0..] == lines;
    assert AllListed(lines).Some? ==> [] + AllListed(lines).value == AllListed(lines).value;
    for i := 0 to |lines|
      invariant AllListed(lines) == Prepended(listed, AllListed(lines[i..]))
    {
      ListStep(listed, lines[i..]);
      if lines[i].None? {
        return None;
      }
      assert lines[i..][1..] == lines[i + 1..];
      listed := listed + Listed(lines[i].value);
    }
    assert listed + [] == listed;
    encodings := Some(listed);
  }

  function Prepended(listed: seq<string>, rest: Option<seq<string>>): Option<seq<string>> {
    if rest.None? then None else Some(listed + rest.value)
  }

  lemma ListStep(listed: seq<string>, lines: seq<Option<string>>)
    requires lines != []
    ensures Prepended(listed, AllListed(lines))
         == if lines[0].None? then None else Prepended(listed + Listed(lines[0].value), AllListed(lines[1..]))
  {
    hide Listed;
    if lines[0].Some? && AllListed(lines[1..]).Some? {
      var first, rest := Listed(lines[0].value), AllListed(lines[1..]).value;
      assert listed + (first + rest) == (listed + first) + rest;
    }
  }

  method DecodeContentEncodedBodyLimited(d: Codecs, body: Bytes, lines: seq<Option<string>>, maxBytes: nat)
    returns (r: Decoded)
    ensures r == Decode(d, body, lines, maxBytes)
  {
    if |body| > maxBytes {
      return Err(TooLarge(|body|));
    }
    var listed := ListEncodings(lines);
    if listed.None? {
      return Err(Undecodable("content-encoding"));
    }
    var current, encodings := body, listed.value;
    hide Stage, AllListed;
    while encodings != []
      invariant Unwound(d, current, encodings, maxBytes) == Unwound(d, body, listed.value, maxBytes)
      decreases |encodings|
    {
      var n := |encodings| - 1;
      var stage := DecodeStage(d, current, encodings[n], maxBytes);
      if stage.Err? {
        return stage;
      }
      current, encodings := stage.value, encodings[..n];
    }
    r := Ok(current);
  }

  // ---------------------------------------------------------- never above the limit

  lemma StageWithinLimit(d: Codecs, body: Bytes, encoding: string, maxBytes: nat)
    requires |body| <= maxBytes
    ensures var r := Stage(d, body, encoding, maxBytes); r.Ok? ==> |r.value| <= maxBytes
  {
    hide ReadAll;
    forall script: Script
      ensures var r := ReadAll(script, encoding, maxBytes); r.Ok? ==> |r.value| <= maxBytes
    {
      ReadAllCollects(script, encoding, maxBytes);
    }
  }

  lemma {:induction false} UnwoundWithinLimit(d: Codecs, body: Bytes, encodings: seq<string>, maxBytes: nat)
    requires |body| <= maxBytes
    ensures var r := Unwound(d, body, encodings, maxBytes); r.Ok? ==> |r.value| <= maxBytes
    decreases |encodings|
  {
    hide Stage;
    if encodings != [] {
      var n := |encodings| - 1;
      var stage := Stage(d, body, encodings[n], maxBytes);
      StageWithinLimit(d, body, encodings[n], maxBytes);
      if stage.Ok? {
        UnwoundWithinLimit(d, stage.value, encodings[..n], maxBytes);
      }
    }
  }

  /** Whatever the decoders do, a body is never handed out above the limit. */
  lemma NeverAboveLimit(d: Codecs, body: Bytes, lines: seq<Option<string>>, maxBytes: nat)
    ensures var r := Decode(d, body, lines, maxBytes); r.Ok? ==> |r.value| <= maxBytes
  {
    hide Unwound;
    var encodings := AllListed(lines);
    if |body| <= maxBytes && encodings.Some? {
      UnwoundWithinLimit(d, body, encodings.value, maxBytes);
    }
  }

  // ---------------------------------------------------------- however the reader cuts its data

  predicate Alike(r: Decoded, r': Decoded) {
    r == r' || (r.Err? && r'.Err? && r.error.TooLarge? && r'.error.TooLarge?)
  }

  ghost predicate SameDelivery(s: Script, s': Script) {
    Delivered(s) == Delivered(s') && Fails(s) == Fails(s')
  }

  /** Decoders that deliver the same bytes, in other pieces and with other interruptions. */
  ghost predicate SameDecoders(d: Codecs, d': Codecs) {
    && d.hasGzip == d'.hasGzip && d.hasBrotli == d'.hasBrotli && d.hasZstd == d'.hasZstd
    && (forall b :: SameDelivery(d.gzip(b), d'.gzip(b)))
    && (forall b :: SameDelivery(d.zlib(b), d'.zlib(b)))
    && (forall b :: SameDelivery(d.deflate(b), d'.deflate(b)))
    && (forall b :: SameDelivery(d.brotli(b), d'.brotli(b)))
    && (forall b :: SameDelivery(d.zstd(b), d'.zstd(b)))
  }

  lemma ReadsAlike(s: Script, s': Script, encoding: string, maxBytes: nat)
    requires SameDelivery(s, s')
    ensures Alike(ReadAll(s, encoding, maxBytes), ReadAll(s', encoding, maxBytes))
  {
    hide ReadAll;
    ReadAllCollects(s, encoding, maxBytes);
    ReadAllCollects(s', encoding, maxBytes);
  }

  lemma StagesAlike(d: Codecs, d': Codecs, body: Bytes, encoding: string, maxBytes: nat)
    requires SameDecoders(d, d')
    ensures Alike(Stage(d, body, encoding, maxBytes), Stage(d', body, encoding, maxBytes))
  {
    hide ReadAll, AsciiLower;
    ReadsAlike(d.gzip(body), d'.gzip(body), encoding, maxBytes);
    ReadsAlike(d.zlib(body), d'.zlib(body), encoding, maxBytes);
    ReadsAlike(d.deflate(body), d'.deflate(body), encoding, maxBytes);
    ReadsAlike(d.brotli(body), d'.brotli(body), encoding, maxBytes);
    ReadsAlike(d.zstd(body), d'.zstd(body), encoding, maxBytes);
  }

  lemma {:induction false} UnwoundAlike(d: Codecs, d': Codecs, body: Bytes, encodings: seq<string>, maxBytes: nat)
    requires SameDecoders(d, d')
    ensures Alike(Unwound(d, body, encodings, maxBytes), Unwound(d', body, encodings, maxBytes))
    decreases |encodings|
  {
    hide Stage;
    if encodings != [] {
      var n := |encodings| - 1;
      StagesAlike(d, d', body, encodings[n], maxBytes);
      var stage := Stage(d, body, encodings[n], maxBytes);
      if stage.Ok? {
        UnwoundAlike(d, d', stage.value, encodings[..n], maxBytes);
      }
    }
  }

  /** How a reader cuts its data changes nothing but the size an oversized body is reported with. */
  lemma CutsDoNotMatter(d: Codecs, d': Codecs, body: Bytes, lines: seq<Option<string>>, maxBytes: nat)
    requires SameDecoders(d, d')
    ensures Alike(Decode(d, body, lines, maxBytes), Decode(d', body, lines, maxBytes))
  {
    hide Unwound, SameDecoders;
    var encodings := AllListed(lines);
    if encodings.Some? {
      UnwoundAlike(d, d', body, encodings.value, maxBytes);
    }
  }

  /** The size does depend on the cut: the same two bytes, over a limit of none, in one read and in two. */
  lemma CutsShowInTheSize(encoding: string, b: byte)
    ensures SameDelivery([Data([b, b])], [Data([b]), Data([b])])
    ensures ReadAll([Data([b, b])], encoding, 0) == Err(TooLarge(2))
    ensures ReadAll([Data([b]), Data([b])], encoding, 0) == Err(TooLarge(1))
  {
    var whole, cut: Script := [Data([b, b])], [Data([b]), Data([b])];
    assert whole[1..] == [] && cut[1..] == [Data([b])] && cut[1..][1..] == [];
    assert Delivered(cut[1..]) == [b];
  }

  // ---------------------------------------------------------- decoding undoes encoding

  /** Deflate may be sent with or without the zlib wrapper. */
  datatype Coding = Identity | Gzip | Zlib | RawDeflate | Brotli | Zstd

  function NameOf(coding: Coding): string {
    match coding
    case Identity => "identity"
    case Gzip => "gzip"
    case Zlib => "deflate"
    case RawDeflate => "deflate"
    case Brotli => "br"
    case Zstd => "zstd"
  }

  datatype Encoders = Encoders(
    gzip: Bytes -> Bytes, zlib: Bytes -> Bytes, deflate: Bytes -> Bytes, brotli: Bytes -> Bytes, zstd: Bytes -> Bytes)

  predicate Supported(d: Codecs, coding: Coding) {
    match coding
    case Identity => true
    case Brotli => d.hasBrotli
    case Zstd => d.hasZstd
    case _ => d.hasGzip
  }

  predicate FailsWithin(script: Script, maxBytes: nat) {
    |Delivered(script)| <= maxBytes && Fails(script)
  }

  ghost predicate Restores(script: Script, body: Bytes) {
    Delivered(script) == body && !Fails(script)
  }

  /** Every decoder undoes its encoder, and the zlib decoder fails on raw deflate before it exceeds the limit. */
  ghost predicate Inverse(d: Codecs, e: Encoders, maxBytes: nat) {
    && (forall b :: Restores(d.gzip(e.gzip(b)), b))
    && (forall b :: Restores(d.zlib(e.zlib(b)), b))
    && (forall b :: Restores(d.deflate(e.deflate(b)), b))
    && (forall b :: Restores(d.brotli(e.brotli(b)), b))
    && (forall b :: Restores(d.zstd(e.zstd(b)), b))
    && (forall b :: FailsWithin(d.zlib(e.deflate(b)), maxBytes))
  }

  function Apply(e: Encoders, coding: Coding, body: Bytes): Bytes {
    match coding
    case Identity => body
    case Gzip => e.gzip(body)
    case Zlib => e.zlib(body)
    case RawDeflate => e.deflate(body)
    case Brotli => e.brotli(body)
    case Zstd => e.zstd(body)
  }

  /** The codings applied in the order in which they are listed. */
  function Encoded(e: Encoders, codings: seq<Coding>, body: Bytes): Bytes {
    if codings == [] then body
    else Apply(e, codings[|codings| - 1], Encoded(e, codings[..|codings| - 1], body))
  }

  /** The body fits the limit before the first coding and after every one of them. */
  predicate Fits(e: Encoders, codings: seq<Coding>, body: Bytes, maxBytes: nat) {
    && |Encoded(e, codings, body)| <= maxBytes
    && (codings == [] || Fits(e, codings[..|codings| - 1], body, maxBytes))
  }

  predicate Names(encodings: seq<string>, codings: seq<Coding>) {
    |encodings| == |codings| && forall i :: 0 <= i < |codings| ==> AsciiLower(encodings[i]) == NameOf(codings[i])
  }

  lemma ReadRestores(script: Script, body: Bytes, encoding: string, maxBytes: nat)
    requires Restores(script, body)
    ensures Collects(body, false, encoding, maxBytes, ReadAll(script, encoding, maxBytes))
  {
    hide ReadAll;
    ReadAllCollects(script, encoding, maxBytes);
  }

  /** One stage gives back what was encoded when that fits, and is too large when it does not. */
  lemma StageRestores(d: Codecs, e: Encoders, coding: Coding, body: Bytes, encoding: string, maxBytes: nat)
    requires Inverse(d, e, maxBytes) && Supported(d, coding) && AsciiLower(encoding) == NameOf(coding)
    requires |Apply(e, coding, body)| <= maxBytes
    ensures Collects(body, false, encoding, maxBytes, Stage(d, Apply(e, coding, body), encoding, maxBytes))
  {
    hide ReadAll, AsciiLower;
    match coding {
      case Identity =>
      case Gzip => ReadRestores(d.gzip(e.gzip(body)), body, encoding, maxBytes);
      case Zlib => ReadRestores(d.zlib(e.zlib(body)), body, encoding, maxBytes);
      case RawDeflate =>
        NotZlib(d.zlib(e.deflate(body)), encoding, maxBytes);
        ReadRestores(d.deflate(e.deflate(body)), body, encoding, maxBytes);
      case Brotli => ReadRestores(d.brotli(e.brotli(body)), body, encoding, maxBytes);
      case Zstd => ReadRestores(d.zstd(e.zstd(body)), body, encoding, maxBytes);
    }
  }

  lemma NotZlib(script: Script, encoding: string, maxBytes: nat)
    requires FailsWithin(script, maxBytes)
    ensures ReadAll(script, encoding, maxBytes) == Err(Undecodable(encoding))
  {
    hide ReadAll;
    ReadAllCollects(script, encoding, maxBytes);
  }

  lemma {:induction false} UnwoundRestores(d: Codecs, e: Encoders, codings: seq<Coding>, body: Bytes, encodings: seq<string>,
                                           maxBytes: nat)
    requires Inverse(d, e, maxBytes) && Names(encodings, codings) && forall c :: c in codings ==> Supported(d, c)
    requires |Encoded(e, codings, body)| <= maxBytes
    ensures var r := Unwound(d, Encoded(e, codings, body), encodings, maxBytes);
            if Fits(e, codings, body, maxBytes) then r == Ok(body) else r.Err? && r.error.TooLarge?
    decreases |codings|
  {
    hide Stage, Apply, Inverse, Supported, NameOf, AsciiLower;
    if codings == [] {
      assert Fits(e, codings, body, maxBytes);
    } else {
      var n := |codings| - 1;
      var inner := Encoded(e, codings[..n], body);
      StageRestores(d, e, codings[n], inner, encodings[n], maxBytes);
      assert Fits(e, codings[..n], body, maxBytes) ==> |inner| <= maxBytes;
      if |inner| <= maxBytes {
        UnwoundRestores(d, e, codings[..n], body, encodings[..n], maxBytes);
      }
    }
  }

  lemma ListedCodingsAreUndone(d: Codecs, e: Encoders, codings: seq<Coding>, body: Bytes, lines: seq<Option<string>>,
                               encodings: seq<string>, maxBytes: nat)
    requires Inverse(d, e, maxBytes) && forall c :: c in codings ==> Supported(d, c)
    requires AllListed(lines) == Some(encodings) && Names(encodings, codings)
    ensures var r := Decode(d, Encoded(e, codings, body), lines, maxBytes);
            if Fits(e, codings, body, maxBytes) then r == Ok(body) else r.Err? && r.error.TooLarge?
  {
    hide Inverse, Unwound, AllListed, Encoded;
    assert codings[..|codings|] == codings;
    if |Encoded(e, codings, body)| <= maxBytes {
      UnwoundRestores(d, e, codings, body, encodings, maxBytes);
    }
  }

  // ---------------------------------------------------------- field lines

  lemma {:induction false} NonEmptyJoins(a: seq<string>, b: seq<string>)
    ensures NonEmpty(a + b) == NonEmpty(a) + NonEmpty(b)
    decreases |a|
  {
    hide Trim;
    if a == [] {
      assert a + b == b;
    } else {
      NonEmptyJoins(a[1..], b);
      assert (a + b)[1..] == a[1..] + b;
    }
  }

  /** Combining two field lines with a comma lists the same codings, as section 5.3 of RFC 9110 allows. */
  lemma LinesCombine(a: string, b: string, rest: seq<Option<string>>)
    ensures AllListed([Some(a), Some(b)] + rest) == AllListed([Some(a + "," + b)] + rest)
  {
    hide Listed;
    ListedJoins(a, b);
    var two, one := [Some(a), Some(b)] + rest, [Some(a + "," + b)] + rest;
    assert two[1..] == [Some(b)] + rest && two[1..][1..] == rest && one[1..] == rest;
    if AllListed(rest).Some? {
      var last := AllListed(rest).value;
      assert Listed(a) + (Listed(b) + last) == (Listed(a) + Listed(b)) + last;
    }
  }

  lemma ListedJoins(a: string, b: string)
    ensures Listed(a + "," + b) == Listed(a) + Listed(b)
  {
    SplitJoins(a, b, ',');
    NonEmptyJoins(Split(a, ','), Split(b, ','));
  }

  /** One element of a list in a field line: a name, or nothing, between white space. */
  datatype Item = Item(before: string, name: string, after: string) {
    predicate WellFormed() {
      All(before, IsWhitespace) && All(after, IsWhitespace) && Bare(name, IsWhitespace) && ',' !in name
    }

    function Text(): string {
      before + name + after
    }
  }

  function NamesOf(items: seq<Item>): seq<string> {
    if items == [] then [] else (if items[0].name == "" then [] else [items[0].name]) + NamesOf(items[1..])
  }

  function TextsOf(items: seq<Item>): seq<string> {
    seq(|items|, i requires 0 <= i < |items| => items[i].Text())
  }

  /** A field line, written as its elements between commas. */
  function LineOf(items: seq<Item>): string {
    Join(TextsOf(items), ',')
  }

  lemma {:induction false} NonEmptyNames(items: seq<Item>)
    requires forall x :: x in items ==> x.WellFormed()
    ensures NonEmpty(TextsOf(items)) == NamesOf(items)
    decreases |items|
  {
    if items != [] {
      var x := items[0];
      assert x in items;
      TrimDrops(x.before, x.name, x.after, IsWhitespace);
      assert TextsOf(items)[1..] == TextsOf(items[1..]);
      NonEmptyNames(items[1..]);
      hide TrimBoth;
    }
  }

  /** A line lists exactly the names it is written with, in order, whatever the padding and the empty elements. */
  lemma ListsItsNames(items: seq<Item>)
    requires WrittenLine(items)
    ensures Listed(LineOf(items)) == NamesOf(items)
  {
    var texts := TextsOf(items);
    forall p | p in texts ensures ',' !in p {
      var i :| 0 <= i < |items| && p == items[i].Text();
      assert items[i] in items;
      NoComma(items[i].before);
      NoComma(items[i].after);
    }
    SplitUndoesJoin(texts, ',');
    NonEmptyNames(items);
    hide Split, NonEmpty, Join, TextsOf, NamesOf;
  }

  lemma NoComma(padding: string)
    requires All(padding, IsWhitespace)
    ensures ',' !in padding
  {
    assert !IsWhitespace(',');
  }

  /** The field lines of a message, and all their names. */
  function LinesOf(lines: seq<seq<Item>>): seq<Option<string>> {
    seq(|lines|, i requires 0 <= i < |lines| => Some(LineOf(lines[i])))
  }

  function AllNames(lines: seq<seq<Item>>): seq<string> {
    if lines == [] then [] else NamesOf(lines[0]) + AllNames(lines[1..])
  }

  ghost predicate WrittenLine(items: seq<Item>) {
    items != [] && forall x :: x in items ==> x.WellFormed()
  }

  ghost predicate Written(lines: seq<seq<Item>>) {
    forall i :: 0 <= i < |lines| ==> WrittenLine(lines[i])
  }

  lemma {:induction false} LinesListTheirNames(lines: seq<seq<Item>>)
    requires Written(lines)
    ensures AllListed(LinesOf(lines)) == Some(AllNames(lines))
    decreases |lines|
  {
    hide Listed, LineOf, NamesOf, WrittenLine;
    if lines != [] {
      ListsItsNames(lines[0]);
      assert LinesOf(lines)[1..] == LinesOf(lines[1..]);
      LinesListTheirNames(lines[1..]);
    }
  }

  /**
   * For every list of supported codings, named in any letter case over any number of field lines, with any padding and
   * any empty elements, and for any cuts of the decoders' data: the original comes back exactly when every stage fits
   * the limit, and otherwise the body is too large.
   */
  lemma DecodingUndoesEncoding(d: Codecs, e: Encoders, codings: seq<Coding>, body: Bytes, lines: seq<seq<Item>>, maxBytes: nat)
    requires Inverse(d, e, maxBytes) && forall c :: c in codings ==> Supported(d, c)
    requires Written(lines) && Names(AllNames(lines), codings)
    ensures var r := Decode(d, Encoded(e, codings, body), LinesOf(lines), maxBytes);
            if Fits(e, codings, body, maxBytes) then r == Ok(body) else r.Err? && r.error.TooLarge?
  {
    hide Inverse, Decode, AllListed, AllNames, LinesOf, Fits, Encoded, Names;
    LinesListTheirNames(lines);
    ListedCodingsAreUndone(d, e, codings, body, LinesOf(lines), AllNames(lines), maxBytes);
  }

  /** A name this build can decode. */
  predicate Known(d: Codecs, encoding: string) {
    var name := AsciiLower(encoding);
    || name == "identity"
    || (name in {"gzip", "deflate"} && d.hasGzip)
    || (name == "br" && d.hasBrotli)
    || (name == "zstd" && d.hasZstd)
  }

  /** A name that is not known is refused by its lower-case name, and no list that holds one ever decodes. */
  lemma {:induction false} UnknownIsRefused(d: Codecs, body: Bytes, encodings: seq<string>, maxBytes: nat)
    requires exists x :: x in encodings && !Known(d, x)
    ensures Unwound(d, body, encodings, maxBytes).Err?
    ensures !Known(d, encodings[|encodings| - 1]) ==>
              Unwound(d, body, encodings, maxBytes) == Err(Undecodable(AsciiLower(encodings[|encodings| - 1])))
    decreases |encodings|
  {
    hide AsciiLower, Inflated, ReadAll;
    var n := |encodings| - 1;
    var stage := Stage(d, body, encodings[n], maxBytes);
    if stage.Ok? {
      var x :| x in encodings && !Known(d, x);
      assert encodings == encodings[..n] + [encodings[n]];
      assert x in encodings[..n];
      hide Stage;
      UnknownIsRefused(d, stage.value, encodings[..n], maxBytes);
    }
  }

  /** A line that is not visible ASCII makes a body within the limit undecodable, wherever it stands. */
  lemma UnreadableLineIsRefused(d: Codecs, body: Bytes, lines: seq<Option<string>>, maxBytes: nat)
    requires None in lines && |body| <= maxBytes
    ensures Decode(d, body, lines, maxBytes) == Err(Undecodable("content-encoding"))
  {
    hide Unwound, AllListed;
    UnreadableListsNothing(lines);
  }

  lemma {:induction false} UnreadableListsNothing(lines: seq<Option<string>>)
    requires None in lines
    ensures AllListed(lines) == None
  {
    hide Listed;
    if lines[0].Some? {
      assert lines == [lines[0]] + lines[1..];
      UnreadableListsNothing(lines[1..]);
    }
  }
}
