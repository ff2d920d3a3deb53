/** Splitting a PEM bundle into its certificate blocks, per sections 2 and 5 of RFC 7468. */
module Pem {
  import opened Wrappers

  function BeginPrefix(): string { "-----BEGIN " }

  function EndPrefix(): string { "-----END " }

  function Begin(): string { "-----BEGIN CERTIFICATE-----" }

  function End(): string { "-----END CERTIFICATE-----" }

  /** All the proofs need of the four markers. */
  lemma Markers()
    ensures |BeginPrefix()| == 11 && |EndPrefix()| == 9 && |Begin()| == 27 && |End()| == 25
    ensures BeginPrefix() <= Begin() && BeginPrefix()[0] == '-' == EndPrefix()[0] == Begin()[0]
    ensures EndPrefix()[5] != Begin()[5]
  {
  }

  datatype PemError = OutsideData | EndWithoutBegin | NonCertificate | MissingEnd | NestedBegin | NoBlocks

  predicate OccursAt(haystack: string, needle: string, i: nat) {
    i + |needle| <= |haystack| && haystack[i..i + |needle|] == needle
  }

  /** The first place where `needle` occurs; an empty needle is not looked for. */
  function Find(haystack: string, needle: string): (r: Option<nat>)
    ensures r.Some? ==> OccursAt(haystack, needle, r.value) && forall j: nat :: j < r.value ==> !OccursAt(haystack, needle, j)
    ensures r.None? && needle != "" ==> forall j: nat :: !OccursAt(haystack, needle, j)
  {
    FindFrom(haystack, needle, 0)
  }

  function FindFrom(haystack: string, needle: string, i: nat): (r: Option<nat>)
    ensures r.Some? ==> i <= r.value && OccursAt(haystack, needle, r.value)
                        && forall j: nat :: i <= j < r.value ==> !OccursAt(haystack, needle, j)
    ensures r.None? && needle != "" ==> forall j: nat :: i <= j ==> !OccursAt(haystack, needle, j)
    decreases |haystack| - i
  {
    if needle == "" || |haystack| < i + |needle| then None
    else if OccursAt(haystack, needle, i) then Some(i)
    else FindFrom(haystack, needle, i + 1)
  }

  predicate IsPaddingByte(c: char) {
    c == ' ' || c == '\t' || c == '\n' || c == '\U{C}' || c == '\r'
  }

  predicate IsPadding(s: string) {
    forall i :: 0 <= i < |s| ==> IsPaddingByte(s[i])
  }

  predicate IsNewline(c: char) {
    c == '\n' || c == '\r'
  }

  predicate StartsLine(s: string) {
    s != "" && IsNewline(s[0])
  }

  /** How many line breaks `s` starts with. */
  function Newlines(s: string): (n: nat)
    ensures n <= |s| && (forall i :: 0 <= i < n ==> IsNewline(s[i])) && !StartsLine(s[n..])
  {
    if StartsLine(s) then 1 + Newlines(s[1..]) else 0
  }

  /** What the text goes on with: nothing but padding, an error, or padding and the block `begin..end`. */
  datatype Piece = Nothing | Malformed(error: PemError) | Block(begin: nat, end: nat)

  function NextPiece(s: string): (p: Piece)
    ensures p.Block? ==> p.begin < p.end <= |s|
  {
    Markers();
    var begin, end := Find(s, BeginPrefix()), Find(s, EndPrefix());
    if begin.None? then
      if end.Some? then Malformed(EndWithoutBegin) else if IsPadding(s) then Nothing else Malformed(OutsideData)
    else if end.Some? && end.value < begin.value then Malformed(EndWithoutBegin)
    else if !IsPadding(s[..begin.value]) then Malformed(OutsideData)
    else if !OccursAt(s, Begin(), begin.value) then Malformed(NonCertificate)
    else
      var start := begin.value + |Begin()|;
      var stop := FindFrom(s, End(), start);
      if stop.None? then Malformed(MissingEnd)
      else if Find(s[start..stop.value], BeginPrefix()).Some? then Malformed(NestedBegin)
      else
        var last := stop.value + |End()|;
        Block(begin.value, last + Newlines(s[last..]))
  }

  function ParseFrom(s: string): Result<seq<string>, PemError>
    decreases |s|
  {
    match NextPiece(s)
    case Nothing => Ok([])
    case Malformed(error) => Err(error)
    case Block(begin, end) =>
      var rest := ParseFrom(s[end..]);
      if rest.Err? then rest else Ok([s[begin..end]] + rest.value)
  }

  function Parse(s: string): Result<seq<string>, PemError> {
    var blocks := ParseFrom(s);
    if blocks == Ok([]) then Err(NoBlocks) else blocks
  }

  // ---------------------------------------------------------- what a bundle is

  /** A certificate block: its text holds no other marker of its kind, its tail is line breaks. */
  datatype Certificate = Certificate(text: string, tail: string)

  function Written(c: Certificate): string {
    Begin() + c.text + End() + c.tail
  }

  ghost predicate WellFormed(c: Certificate) {
    && Find(c.text, BeginPrefix()).None?
    && Find(c.text + End(), End()) == Some(|c.text|)
    && Newlines(c.tail) == |c.tail|
  }

  /** Padding around and between blocks; line breaks after a block belong to the block. */
  datatype Bundle = Last(gap: string) | More(gap: string, certificate: Certificate, rest: Bundle)

  ghost predicate IsBundle(b: Bundle) {
    && IsPadding(b.gap)
    && (b.More? ==> WellFormed(b.certificate) && !StartsLine(b.rest.gap) && IsBundle(b.rest))
  }

  function BundleText(b: Bundle): string {
    match b
    case Last(gap) => gap
    case More(gap, certificate, rest) => gap + Written(certificate) + BundleText(rest)
  }

  function Blocks(b: Bundle): seq<string> {
    match b
    case Last(_) => []
    case More(_, certificate, rest) => [Written(certificate)] + Blocks(rest)
  }

  // ---------------------------------------------------------- the loop

  method ParseCertificateBlocks(bundle: string) returns (r: Result<seq<string>, PemError>)
    ensures r == Parse(bundle)
  {
    var blocks: seq<string> := [];
    var cursor := 0;
    assert bundle[0..] == bundle;
    hide NextPiece, ParseFrom, Extended;
    ExtendsNothing(ParseFrom(bundle));
    while true
      invariant 0 <= cursor <= |bundle|
      invariant Extended(blocks, ParseFrom(bundle[cursor..])) == ParseFrom(bundle)
      decreases |bundle| - cursor
    {
      var remaining := bundle[cursor..];
      var piece := Look(remaining);
      ParseStep(blocks, remaining);
      match piece {
        case Nothing => break;
        case Malformed(error) => return Err(error);
        case Block(begin, end) =>
          blocks := blocks + [remaining[begin..end]];
          cursor := cursor + end;
          assert remaining[end..] == bundle[cursor..];
      }
    }
    r := if blocks == [] then Err(NoBlocks) else Ok(blocks);
  }

  lemma ExtendsNothing(rest: Result<seq<string>, PemError>)
    ensures Extended([], rest) == rest
  {
    assert rest.Ok? ==> [] + rest.value == rest.value;
  }

  /** What the loop still owes after one look. */
  lemma ParseStep(blocks: seq<string>, s: string)
    ensures var p := NextPiece(s);
            && (p.Nothing? ==> Extended(blocks, ParseFrom(s)) == Ok(blocks))
            && (p.Malformed? ==> Extended(blocks, ParseFrom(s)) == Err(p.error))
            && (p.Block? ==>
                  Extended(blocks, ParseFrom(s)) == Extended(blocks + [s[p.begin..p.end]], ParseFrom(s[p.end..])))
  {
    hide NextPiece;
    var p := NextPiece(s);
    assert blocks + [] == blocks;
    if p.Block? && ParseFrom(s[p.end..]).Ok? {
      var block, rest := s[p.begin..p.end], ParseFrom(s[p.end..]).value;
      assert blocks + ([block] + rest) == (blocks + [block]) + rest;
    }
  }

  function Extended(blocks: seq<string>, rest: Result<seq<string>, PemError>): Result<seq<string>, PemError> {
    if rest.Err? then rest else Ok(blocks + rest.value)
  }

  /** One turn of the loop. */
  method Look(s: string) returns (p: Piece)
    ensures p == NextPiece(s)
  {
    Markers();
    hide Begin, End, BeginPrefix, EndPrefix;
    var begin, end := Find(s, BeginPrefix()), Find(s, EndPrefix());
    match (begin, end) {
      case (None, None) => return if IsPadding(s) then Nothing else Malformed(OutsideData);
      case (None, Some(_)) => return Malformed(EndWithoutBegin);
      case (Some(b), Some(e)) =>
        if e < b {
          return Malformed(EndWithoutBegin);
        }
      case (Some(_), None) =>
    }
    if !IsPadding(s[..begin.value]) {
      return Malformed(OutsideData);
    }
    if !OccursAt(s, Begin(), begin.value) {
      return Malformed(NonCertificate);
    }
    var start := begin.value + |Begin()|;
    var stop := FindFrom(s, End(), start);
    if stop.None? {
      return Malformed(MissingEnd);
    }
    if Find(s[start..stop.value], BeginPrefix()).Some? {
      return Malformed(NestedBegin);
    }
    var blockEnd := SkipNewlines(s, stop.value + |End()|);
    p := Block(begin.value, blockEnd);
  }

  method SkipNewlines(s: string, from: nat) returns (blockEnd: nat)
    requires from <= |s|
    ensures blockEnd == from + Newlines(s[from..])
  {
    blockEnd := from;
    while blockEnd < |s| && IsNewline(s[blockEnd])
      invariant from <= blockEnd <= |s|
      invariant from + Newlines(s[from..]) == blockEnd + Newlines(s[blockEnd..])
    {
      assert s[blockEnd..][1..] == s[blockEnd + 1..];
      blockEnd := blockEnd + 1;
    }
  }

  // ---------------------------------------------------------- searching and cutting

  lemma FindIs(haystack: string, needle: string, from: nat, i: nat)
    requires needle != "" && from <= i && OccursAt(haystack, needle, i)
    requires forall j: nat :: from <= j < i ==> !OccursAt(haystack, needle, j)
    ensures FindFrom(haystack, needle, from) == Some(i)
  {
    var found := FindFrom(haystack, needle, from);
    assert found.Some?;
  }

  /** A window of a longer text, seen from its start. */
  lemma OccursShifted(before: string, s: string, after: string, needle: string, j: nat)
    requires j + |needle| <= |s|
    ensures OccursAt(before + s + after, needle, |before| + j) == OccursAt(s, needle, j)
  {
    assert (before + s + after)[|before| + j..|before| + j + |needle|] == s[j..j + |needle|];
  }

  lemma Cut(s: string, a: nat, b: nat, c: nat)
    requires a <= b <= c <= |s|
    ensures s[a..c] == s[a..b] + s[b..c]
  {
  }

  ghost predicate FirstAt(s: string, needle: string, from: nat, i: nat) {
    from <= i && OccursAt(s, needle, i) && forall j: nat :: from <= j < i ==> !OccursAt(s, needle, j)
  }

  lemma FoundIsFirst(s: string, needle: string, from: nat, i: nat)
    requires needle != ""
    ensures FindFrom(s, needle, from) == Some(i) <==> FirstAt(s, needle, from, i)
  {
    if FirstAt(s, needle, from, i) {
      FindIs(s, needle, from, i);
    }
  }

  /** What ends a window first ends it first in any text around the window. */
  lemma FirstInWindow(before: string, text: string, needle: string, after: string)
    requires needle != ""
    ensures FindFrom(before + (text + needle) + after, needle, |before|) == Some(|before| + |text|)
       <==> Find(text + needle, needle) == Some(|text|)
  {
    var h := text + needle;
    var s := before + h + after;
    FoundIsFirst(s, needle, |before|, |before| + |text|);
    FoundIsFirst(h, needle, 0, |text|);
    hide FindFrom;
    forall j: nat | j <= |text| ensures OccursAt(s, needle, |before| + j) == OccursAt(h, needle, j) {
      OccursShifted(before, h, after, needle, j);
    }
    hide OccursAt;
    if FirstAt(h, needle, 0, |text|) {
      forall i: nat | |before| <= i < |before| + |text| ensures !OccursAt(s, needle, i) {
        assert OccursAt(s, needle, |before| + (i - |before|)) == OccursAt(h, needle, i - |before|);
      }
    }
  }

  lemma SliceOf(s: string, a: nat, b: nat, c: nat, d: nat)
    requires a <= b <= |s| && c <= d <= b - a
    ensures s[a..b][c..d] == s[a + c..a + d]
  {
    var inner, outer := s[a..b][c..d], s[a + c..a + d];
    assert |inner| == |outer| && forall i :: 0 <= i < |inner| ==> inner[i] == outer[i];
  }

  lemma {:induction false} NewlinesTake(s: string)
    ensures Newlines(s[..Newlines(s)]) == Newlines(s)
  {
    if StartsLine(s) {
      NewlinesTake(s[1..]);
      assert s[..Newlines(s)][1..] == s[1..][..Newlines(s[1..])];
    }
  }

  lemma {:induction false} NewlinesStop(tail: string, rest: string)
    requires Newlines(tail) == |tail| && !StartsLine(rest)
    ensures Newlines(tail + rest) == |tail|
  {
    if tail == "" {
      assert tail + rest == rest;
    } else {
      NewlinesStop(tail[1..], rest);
      assert (tail + rest)[1..] == tail[1..] + rest;
    }
  }

  // ---------------------------------------------------------- everything accepted is a bundle

  function CertificateAt(s: string): Certificate
    requires NextPiece(s).Block?
  {
    Markers();
    var piece := NextPiece(s);
    var start := piece.begin + |Begin()|;
    var stop := FindFrom(s, End(), start).value;
    Certificate(s[start..stop], s[stop + |End()|..piece.end])
  }

  /** Where the parts of a block lie. */
  lemma BlockParts(s: string)
    requires NextPiece(s).Block?
    ensures var p, c := NextPiece(s), CertificateAt(s);
            var start := p.begin + |Begin()|;
            var stop := start + |c.text|;
            && IsPadding(s[..p.begin]) && stop + |End()| <= p.end == stop + |End()| + Newlines(s[stop + |End()|..])
            && s[p.begin..start] == Begin() && s[stop..stop + |End()|] == End() && FindFrom(s, End(), start) == Some(stop)
            && c == Certificate(s[start..stop], s[stop + |End()|..p.end]) && Find(c.text, BeginPrefix()).None?
  {
    hide Begin, End, BeginPrefix, EndPrefix, Find, FindFrom, Newlines, IsPadding;
    Markers();
  }

  lemma FourJoined(a: string, b: string, c: string, d: string)
    ensures a + (b + (c + d)) == a + b + c + d
  {
  }

  lemma BlockIsWritten(s: string)
    requires NextPiece(s).Block?
    ensures var p := NextPiece(s); s[p.begin..p.end] == Written(CertificateAt(s))
  {
    hide NextPiece, CertificateAt, Begin, End, BeginPrefix, EndPrefix, Newlines, Find, FindFrom, IsPadding, OccursAt, StartsLine;
    Markers();
    BlockParts(s);
    var p, c := NextPiece(s), CertificateAt(s);
    var start := p.begin + |Begin()|;
    var stop := start + |c.text|;
    Cut(s, p.begin, start, p.end);
    Cut(s, start, stop, p.end);
    Cut(s, stop, stop + |End()|, p.end);
    FourJoined(Begin(), c.text, End(), c.tail);
  }

  /** The same, seen from the whole text. */
  lemma FirstInSlice(s: string, needle: string, start: nat, stop: nat)
    requires needle != "" && start <= stop <= stop + |needle| <= |s| && s[stop..stop + |needle|] == needle
    ensures FindFrom(s, needle, start) == Some(stop) <==> Find(s[start..stop] + needle, needle) == Some(stop - start)
  {
    hide FindFrom, Find, OccursAt;
    var last := stop + |needle|;
    Cut(s, start, stop, last);
    Cut(s, 0, start, last);
    Cut(s, 0, last, |s|);
    assert s[0..|s|] == s && s[..start] == s[0..start] && s[last..] == s[last..|s|];
    FirstInWindow(s[..start], s[start..stop], needle, s[stop + |needle|..]);
  }

  lemma TextIsFirst(s: string)
    requires NextPiece(s).Block?
    ensures var c := CertificateAt(s); Find(c.text + End(), End()) == Some(|c.text|)
  {
    hide *;
    Markers();
    BlockParts(s);
    var start := NextPiece(s).begin + |Begin()|;
    FirstInSlice(s, End(), start, start + |CertificateAt(s).text|);
  }

  lemma BlockIsWellFormed(s: string)
    requires NextPiece(s).Block?
    ensures var p, c := NextPiece(s), CertificateAt(s);
            IsPadding(s[..p.begin]) && WellFormed(c) && !StartsLine(s[p.end..])
  {
    TextIsFirst(s);
    BlockParts(s);
    Markers();
    hide NextPiece, CertificateAt, Begin, End, BeginPrefix, EndPrefix, Find, FindFrom;
    var p, c := NextPiece(s), CertificateAt(s);
    var last := p.begin + |Begin()| + |c.text| + |End()|;
    NewlinesTake(s[last..]);
    assert s[last..][..p.end - last] == c.tail;
    assert s[last..][p.end - last..] == s[p.end..];
  }

  ghost function LayoutOf(s: string): Bundle
    requires ParseFrom(s).Ok?
    decreases |s|
  {
    match NextPiece(s)
    case Nothing => Last(s)
    case Block(begin, end) => More(s[..begin], CertificateAt(s), LayoutOf(s[end..]))
  }

  /** On success the input is exactly padding and well-formed blocks, and the blocks are what is returned, in order. */
  lemma {:induction false} AcceptedIsBundle(s: string)
    requires ParseFrom(s).Ok?
    ensures var b := LayoutOf(s); IsBundle(b) && BundleText(b) == s && Blocks(b) == ParseFrom(s).value
    decreases |s|
  {
    hide NextPiece, CertificateAt, WellFormed, Written;
    var piece := NextPiece(s);
    match piece {
      case Nothing => NothingIsPadding(s);
      case Block(begin, end) =>
        BlockIsWellFormed(s);
        BlockIsWritten(s);
        AcceptedIsBundle(s[end..]);
        GapStartsLikeText(LayoutOf(s[end..]));
        assert s == s[..begin] + s[begin..end] + s[end..];
    }
  }

  lemma NothingIsPadding(s: string)
    requires NextPiece(s).Nothing?
    ensures IsPadding(s)
  {
  }

  lemma GapStartsLikeText(b: Bundle)
    ensures StartsLine(b.gap) ==> StartsLine(BundleText(b))
  {
  }

  // ---------------------------------------------------------- every bundle is accepted

  /** A marker starts with a dash, which padding never holds. */
  lemma PaddingHidesNothing(gap: string, rest: string, marker: string, j: nat)
    requires IsPadding(gap) && marker != "" && marker[0] == '-' && j < |gap|
    ensures !OccursAt(gap + rest, marker, j)
  {
    assert IsPaddingByte(gap[j]) && (gap + rest)[j] == gap[j];
  }

  lemma PaddingIsNothing(gap: string)
    requires IsPadding(gap)
    ensures NextPiece(gap) == Nothing
  {
    Markers();
    hide Begin, End, BeginPrefix, EndPrefix, FindFrom;
    assert gap + "" == gap;
    forall marker: string, j: nat | marker in {BeginPrefix(), EndPrefix()}
      ensures !OccursAt(gap, marker, j)
    {
      if j < |gap| {
        PaddingHidesNothing(gap, "", marker, j);
      }
    }
    assert Find(gap, BeginPrefix()).None? && Find(gap, EndPrefix()).None?;
  }

  /** What makes a piece a block, read off the text. */
  lemma PieceIs(s: string, begin: nat, stop: nat)
    requires begin + |Begin()| <= stop <= stop + |End()| <= |s|
    requires Find(s, BeginPrefix()) == Some(begin) && IsPadding(s[..begin]) && OccursAt(s, Begin(), begin)
    requires Find(s, EndPrefix()).Some? ==> begin <= Find(s, EndPrefix()).value
    requires FindFrom(s, End(), begin + |Begin()|) == Some(stop)
    requires Find(s[begin + |Begin()|..stop], BeginPrefix()).None?
    ensures NextPiece(s) == Block(begin, stop + |End()| + Newlines(s[stop + |End()|..]))
  {
    hide Begin, End, BeginPrefix, EndPrefix, Find, FindFrom, Newlines, IsPadding, OccursAt;
  }

  /** The first markers after padding are those of the block that follows it. */
  lemma MarkersAfterPadding(gap: string, rest: string)
    requires IsPadding(gap) && OccursAt(rest, Begin(), 0)
    ensures var s := gap + rest;
            && OccursAt(s, Begin(), |gap|) && Find(s, BeginPrefix()) == Some(|gap|)
            && (Find(s, EndPrefix()).Some? ==> |gap| <= Find(s, EndPrefix()).value)
  {
    Markers();
    hide Begin, End, BeginPrefix, EndPrefix, FindFrom;
    var s := gap + rest;
    assert s[|gap|..|gap| + |Begin()|] == rest[0..|Begin()|];
    assert s[|gap|..|gap| + |BeginPrefix()|] == Begin()[..|BeginPrefix()|] == BeginPrefix();
    forall marker: string, j: nat | marker in {BeginPrefix(), EndPrefix()} && j < |gap|
      ensures !OccursAt(s, marker, j)
    {
      PaddingHidesNothing(gap, rest, marker, j);
    }
    FindIs(s, BeginPrefix(), 0, |gap|);
  }

  lemma PieceOfBundle(gap: string, c: Certificate, rest: string)
    requires IsPadding(gap) && WellFormed(c) && !StartsLine(rest)
    ensures NextPiece(gap + Written(c) + rest) == Block(|gap|, |gap| + |Written(c)|)
  {
    Markers();
    hide Begin, End, BeginPrefix, EndPrefix, Find, FindFrom, NextPiece, Newlines;
    var s := gap + Written(c) + rest;
    var start := |gap| + |Begin()|;
    var stop := start + |c.text|;
    assert s == gap + (Written(c) + rest) && OccursAt(Written(c) + rest, Begin(), 0);
    MarkersAfterPadding(gap, Written(c) + rest);
    assert s == (gap + Begin()) + (c.text + End()) + (c.tail + rest);
    FirstInWindow(gap + Begin(), c.text, End(), c.tail + rest);
    assert s[..|gap|] == gap && s[start..stop] == c.text && s[stop + |End()|..] == c.tail + rest;
    NewlinesStop(c.tail, rest);
    PieceIs(s, |gap|, stop);
  }

  /** Text after a block goes on with padding that is no line break, or with the next block's dash. */
  lemma GoesOnWithinLine(b: Bundle)
    requires !StartsLine(b.gap)
    ensures !StartsLine(BundleText(b))
  {
    if b.More? && b.gap == "" {
      Markers();
      assert BundleText(b)[0] == Begin()[0];
    }
  }

  /** Every bundle is accepted, and parsing gives back exactly its blocks. */
  lemma {:induction false} BundleIsAccepted(b: Bundle)
    requires IsBundle(b)
    ensures ParseFrom(BundleText(b)) == Ok(Blocks(b))
  {
    hide NextPiece, WellFormed, Written, Newlines;
    match b {
      case Last(gap) => PaddingIsNothing(gap);
      case More(gap, c, rest) =>
        GoesOnWithinLine(rest);
        PieceOfBundle(gap, c, BundleText(rest));
        BundleIsAccepted(rest);
        var s := BundleText(b);
        assert s[|gap|..|gap| + |Written(c)|] == Written(c) && s[|gap| + |Written(c)|..] == BundleText(rest);
    }
  }

  /** The parser accepts exactly the bundles that hold a block. */
  lemma AcceptsExactlyBundles(s: string)
    ensures Parse(s).Ok? <==> exists b :: IsBundle(b) && b.More? && BundleText(b) == s
    ensures Parse(s).Ok? ==> Parse(s).value != []
  {
    hide IsBundle, BundleText, NextPiece;
    if Parse(s).Ok? {
      AcceptedIsBundle(s);
      BlocksOf(LayoutOf(s));
    }
    if b :| IsBundle(b) && b.More? && BundleText(b) == s {
      BundleIsAccepted(b);
      BlocksOf(b);
    }
  }

  lemma BlocksOf(b: Bundle)
    ensures Blocks(b) != [] <==> b.More?
  {
  }

  function Joined(blocks: seq<string>): string {
    if blocks == [] then "" else blocks[0] + Joined(blocks[1..])
  }

  function WithoutPadding(b: Bundle): Bundle {
    match b
    case Last(_) => Last("")
    case More(_, c, rest) => More("", c, WithoutPadding(rest))
  }

  lemma {:induction false} PaddingIsOptional(b: Bundle)
    requires IsBundle(b)
    ensures IsBundle(WithoutPadding(b)) && BundleText(WithoutPadding(b)) == Joined(Blocks(b))
    ensures Blocks(WithoutPadding(b)) == Blocks(b)
  {
    hide WellFormed, Written;
    if b.More? {
      PaddingIsOptional(b.rest);
      assert Blocks(b)[1..] == Blocks(b.rest);
      assert "" + Written(b.certificate) == Written(b.certificate);
    }
  }

  /** Concatenating the blocks of a bundle and parsing again gives the same blocks. */
  lemma ReparsesToItself(s: string)
    requires Parse(s).Ok?
    ensures Parse(Joined(Parse(s).value)) == Parse(s)
  {
    hide IsBundle, BundleText, NextPiece, WithoutPadding, Blocks, Joined;
    AcceptedIsBundle(s);
    var b := LayoutOf(s);
    PaddingIsOptional(b);
    BundleIsAccepted(WithoutPadding(b));
    AcceptsExactlyBundles(s);
  }

  // ---------------------------------------------------------- what the errors mean

  ghost predicate NoMarker(s: string, marker: string, from: nat, to: nat) {
    forall j: nat :: from <= j < to ==> !OccursAt(s, marker, j)
  }

  /** Every error names something that is wrong at the place where parsing stopped. */
  lemma ErrorsAreTrue(s: string)
    requires NextPiece(s).Malformed?
    ensures match NextPiece(s).error
            case EndWithoutBegin =>
              exists e: nat :: OccursAt(s, EndPrefix(), e) && NoMarker(s, BeginPrefix(), 0, e)
            case OutsideData =>
              exists i: nat :: i < |s| && !IsPaddingByte(s[i]) && NoMarker(s, BeginPrefix(), 0, i + 1)
            case NonCertificate =>
              exists b: nat :: OccursAt(s, BeginPrefix(), b) && IsPadding(s[..b]) && !OccursAt(s, Begin(), b)
            case MissingEnd =>
              exists b: nat :: OccursAt(s, Begin(), b) && IsPadding(s[..b]) && NoMarker(s, End(), b + |Begin()|, |s|)
            case NestedBegin =>
              exists b: nat, n: nat ::
                OccursAt(s, Begin(), b) && IsPadding(s[..b]) && b + |Begin()| <= n && OccursAt(s, BeginPrefix(), n)
                && NoMarker(s, End(), b + |Begin()|, n)
            case NoBlocks => false
  {
    Markers();
    if NextPiece(s).error == NestedBegin {
      NestedIsTrue(s);
    }
    hide Begin, End, BeginPrefix, EndPrefix, FindFrom;
  }

  lemma NestedIsTrue(s: string)
    requires NextPiece(s) == Malformed(NestedBegin)
    ensures exists b: nat, n: nat ::
              OccursAt(s, Begin(), b) && IsPadding(s[..b]) && b + |Begin()| <= n && OccursAt(s, BeginPrefix(), n)
              && NoMarker(s, End(), b + |Begin()|, n)
  {
    Markers();
    hide Begin, End, BeginPrefix, EndPrefix, FindFrom;
    var b := Find(s, BeginPrefix()).value;
    var start := b + |Begin()|;
    var stop := FindFrom(s, End(), start).value;
    var text := s[start..stop];
    var i := Find(text, BeginPrefix()).value;
    SliceOf(s, start, stop, i, i + |BeginPrefix()|);
    assert OccursAt(s, BeginPrefix(), start + i) && NoMarker(s, End(), start, start + i);
  }
}
