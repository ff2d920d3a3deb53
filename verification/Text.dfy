/** The string helpers that the upload, host-key and header code share. */
module Text {
  import opened Wrappers

  type Class = char -> bool

  /** Unicode White_Space, which is what `str::trim` removes. */
  predicate IsWhitespace(c: char) {
    || '\U{9}' <= c <= '\U{D}' || c == ' ' || c == '\U{85}' || c == '\U{A0}' || c == '\U{1680}'
    || '\U{2000}' <= c <= '\U{200A}' || c == '\U{2028}' || c == '\U{2029}' || c == '\U{202F}'
    || c == '\U{205F}' || c == '\U{3000}'
  }

  function TrimStart(s: string, drop: Class): string {
    if s != "" && drop(s[0]) then TrimStart(s[1..], drop) else s
  }

  function TrimEnd(s: string, drop: Class): string {
    if s != "" && drop(s[|s| - 1]) then TrimEnd(s[..|s| - 1], drop) else s
  }

  function TrimBoth(s: string, drop: Class): string {
    TrimEnd(TrimStart(s, drop), drop)
  }

  lemma TrimNothing(s: string, drop: Class)
    requires s != "" ==> !drop(s[0]) && !drop(s[|s| - 1])
    ensures TrimBoth(s, drop) == s
  {
  }

  function Trim(s: string): string {
    TrimBoth(s, IsWhitespace)
  }

  function LowerChar(c: char): char {
    if 'A' <= c <= 'Z' then c - 'A' + 'a' else c
  }

  function AsciiLower(s: string): string {
    seq(|s|, i requires 0 <= i < |s| => LowerChar(s[i]))
  }

  /** The pieces between separators; there is always at least one. */
  function Split(s: string, separator: char): (pieces: seq<string>)
    ensures |pieces| >= 1
  {
    if s == "" then [""] else Glued(s[0], Split(s[1..], separator), separator)
  }

  /** The pieces when `c` comes before them. */
  function Glued(c: char, pieces: seq<string>, separator: char): seq<string>
    requires pieces != []
  {
    if c == separator then [""] + pieces else [[c] + pieces[0]] + pieces[1..]
  }

  /** The key under which a host is limited: `None` for a blank host. */
  function NormalizeHostKey(host: string): Option<string> {
    var key := AsciiLower(TrimEnd(Trim(host), c => c == '.'));
    if key == "" then None else Some(key)
  }

  // ---------------------------------------------------------- what they mean

  predicate All(s: string, drop: Class) {
    forall i :: 0 <= i < |s| ==> drop(s[i])
  }

  /** Nothing to drop at either end. */
  predicate Bare(s: string, drop: Class) {
    s != "" ==> !drop(s[0]) && !drop(s[|s| - 1])
  }

  lemma {:induction false} TrimStartDrops(before: string, s: string, drop: Class)
    requires All(before, drop) && (s != "" ==> !drop(s[0]))
    ensures TrimStart(before + s, drop) == s
    decreases |before|
  {
    if before == "" {
      assert before + s == s;
    } else {
      assert (before + s)[0] == before[0] && (before + s)[1..] == before[1..] + s;
      TrimStartDrops(before[1..], s, drop);
    }
  }

  lemma EndsWith(s: string, after: string)
    requires after != ""
    ensures var whole := s + after;
            whole[|whole| - 1] == after[|after| - 1] && whole[..|whole| - 1] == s + after[..|after| - 1]
  {
  }

  lemma {:induction false} TrimEndDrops(s: string, after: string, drop: Class)
    requires All(after, drop) && (s != "" ==> !drop(s[|s| - 1]))
    ensures TrimEnd(s + after, drop) == s
    decreases |after|
  {
    if after == "" {
      assert s + after == s;
    } else {
      var n := |after| - 1;
      EndsWith(s, after);
      TrimEndDrops(s, after[..n], drop);
    }
  }

  /** Trimming takes away exactly what is to be dropped at the ends. */
  lemma TrimDrops(before: string, s: string, after: string, drop: Class)
    requires All(before, drop) && All(after, drop) && Bare(s, drop)
    ensures TrimBoth(before + s + after, drop) == s
  {
    hide TrimStart, TrimEnd;
    if s == "" {
      var whole := before + s + after;
      assert whole == whole + "" && All(whole, drop);
      TrimStartDrops(whole, "", drop);
      TrimEndDrops("", "", drop);
      assert "" + "" == "";
    } else {
      assert before + s + after == before + (s + after);
      TrimStartDrops(before, s + after, drop);
      TrimEndDrops(s, after, drop);
    }
  }

  /** Lower-casing moves the letters A to Z by 32 and nothing else. */
  lemma LowerMoves(s: string, i: nat)
    requires i < |s|
    ensures |AsciiLower(s)| == |s|
    ensures AsciiLower(s)[i] as int == s[i] as int + if 65 <= s[i] as int <= 90 then 32 else 0
  {
  }

  /** Hosts that differ in padding, trailing dots and letter case share a key. */
  lemma HostKeyIs(before: string, host: string, dots: string, after: string)
    requires All(before, IsWhitespace) && All(after, IsWhitespace) && All(dots, c => c == '.')
    requires host != "" ==> !IsWhitespace(host[0]) && host[|host| - 1] != '.' && !IsWhitespace(host[|host| - 1])
    ensures NormalizeHostKey(before + (host + dots) + after) == if host == "" then None else Some(AsciiLower(host))
  {
    TrimDrops(before, host + dots, after, IsWhitespace);
    TrimEndDrops(host, dots, c => c == '.');
    hide TrimStart, TrimEnd, TrimBoth;
  }

  function Join(pieces: seq<string>, separator: char): string {
    if pieces == [] then "" else if |pieces| == 1 then pieces[0]
    else pieces[0] + [separator] + Join(pieces[1..], separator)
  }

  lemma {:induction false} SplitPlain(s: string, separator: char)
    requires separator !in s
    ensures Split(s, separator) == [s]
  {
    if s != "" {
      SplitPlain(s[1..], separator);
      assert [s[0]] + s[1..] == s;
    }
  }

  lemma GluedJoins(c: char, first: seq<string>, rest: seq<string>, separator: char)
    requires first != []
    ensures Glued(c, first + rest, separator) == Glued(c, first, separator) + rest
  {
    assert [""] + (first + rest) == ([""] + first) + rest;
    assert (first + rest)[1..] == first[1..] + rest;
  }

  lemma {:induction false} SplitJoins(a: string, b: string, separator: char)
    ensures Split(a + [separator] + b, separator) == Split(a, separator) + Split(b, separator)
    decreases |a|
  {
    var s := a + [separator] + b;
    if a == "" {
      assert s[0] == separator && s[1..] == b;
    } else {
      assert s[0] == a[0] && s[1..] == a[1..] + [separator] + b;
      SplitJoins(a[1..], b, separator);
      GluedJoins(a[0], Split(a[1..], separator), Split(b, separator), separator);
      hide Glued;
    }
  }

  /** Splitting undoes joining, for every list of pieces without the separator. */
  lemma {:induction false} SplitUndoesJoin(pieces: seq<string>, separator: char)
    requires pieces != [] && forall p :: p in pieces ==> separator !in p
    ensures Split(Join(pieces, separator), separator) == pieces
    decreases |pieces|
  {
    hide Split;
    assert pieces[0] in pieces;
    SplitPlain(pieces[0], separator);
    if |pieces| > 1 {
      SplitUndoesJoin(pieces[1..], separator);
      SplitJoins(pieces[0], Join(pieces[1..], separator), separator);
      assert [pieces[0]] + pieces[1..] == pieces;
    }
  }
}
