/**
 The string operations of the host language's standard library that the panel's parsers
 are written with: trimming, splitting at the first separator, searching, and splitting a
 text into lines.  A `char` is a Unicode scalar value.
 */
module Text {

  datatype Option<+T> = None | Some(value: T)

  datatype Result<+T, +E> = Ok(value: T) | Err(error: E)

  /** The Unicode White_Space property. */
  predicate IsWhitespace(c: char) {
    var n := c as int;
    || 0x9 <= n <= 0xD || n == 0x20 || n == 0x85 || n == 0xA0 || n == 0x1680
    || 0x2000 <= n <= 0x200A || n == 0x2028 || n == 0x2029 || n == 0x202F || n == 0x205F
    || n == 0x3000
  }

  predicate IsDigit(c: char) { '0' <= c <= '9' }

  predicate IsLower(c: char) { 'a' <= c <= 'z' }

  predicate IsUpper(c: char) { 'A' <= c <= 'Z' }

  predicate IsAlphanumeric(c: char) { IsDigit(c) || IsLower(c) || IsUpper(c) }

  predicate IsHexDigit(c: char) { IsDigit(c) || 'a' <= c <= 'f' || 'A' <= c <= 'F' }

  predicate All(s: string, p: char -> bool) {
    forall i :: 0 <= i < |s| ==> p(s[i])
  }

  /** The first position of `c`, or the length when there is none. */
  function IndexOf(s: string, c: char): (i: nat)
    ensures i <= |s|
    ensures i < |s| ==> s[i] == c
    ensures forall j :: 0 <= j < i ==> s[j] != c
  {
    if s == "" || s[0] == c then 0 else 1 + IndexOf(s[1..], c)
  }

  function SplitOnce(s: string, c: char): (r: Option<(string, string)>)
    ensures r.None? <==> c !in s
    ensures r.Some? ==> s == r.value.0 + [c] + r.value.1 && c !in r.value.0
  {
    var i := IndexOf(s, c);
    if i == |s| then None else Some((s[..i], s[i + 1..]))
  }

  /** There is only one way to split at the first separator. */
  lemma SplitOnceAt(a: string, c: char, b: string)
    requires c !in a
    ensures SplitOnce(a + [c] + b, c) == Some((a, b))
  {
    var s := a + [c] + b;
    assert s[|a|] == c;
    assert forall j :: 0 <= j < |a| ==> s[j] == a[j];
    assert IndexOf(s, c) == |a|;
    assert s[..|a|] == a && s[|a| + 1..] == b;
  }

  predicate Blank(s: string) {
    forall i :: 0 <= i < |s| ==> IsWhitespace(s[i])
  }

  function TrimStart(s: string): (t: string)
    ensures |t| <= |s|
  {
    if s == "" || !IsWhitespace(s[0]) then s else TrimStart(s[1..])
  }

  function TrimEnd(s: string): (t: string)
    ensures |t| <= |s|
  {
    if s == "" || !IsWhitespace(s[|s| - 1]) then s else TrimEnd(s[..|s| - 1])
  }

  lemma {:induction false} TrimStartIs(s: string)
    ensures var t := TrimStart(s);
            && s == s[..|s| - |t|] + t
            && Blank(s[..|s| - |t|])
            && (t != "" ==> !IsWhitespace(t[0]))
  {
    if s != "" && IsWhitespace(s[0]) {
      TrimStartIs(s[1..]);
      var t := TrimStart(s[1..]);
      assert s[..|s| - |t|] == [s[0]] + s[1..][..|s| - 1 - |t|];
    }
  }

  lemma {:induction false} TrimEndIs(s: string)
    ensures var t := TrimEnd(s);
            && s == t + s[|t|..]
            && Blank(s[|t|..])
            && (t != "" ==> !IsWhitespace(t[|t| - 1]))
  {
    if s == "" || !IsWhitespace(s[|s| - 1]) {
      assert s[|s|..] == "" && Blank("");
    } else {
      var init, c := s[..|s| - 1], s[|s| - 1];
      TrimEndIs(init);
      TrimmedTail(init, c, |TrimEnd(init)|);
      assert s == init + [c];
    }
  }

  lemma TrimmedTail(init: string, c: char, n: nat)
    requires n <= |init| && Blank(init[n..]) && IsWhitespace(c)
    ensures (init + [c])[n..] == init[n..] + [c] && Blank((init + [c])[n..])
  {
  }

  function Trim(s: string): string {
    TrimEnd(TrimStart(s))
  }

  /** Neither end is white space. */
  predicate Tight(s: string) {
    s != "" ==> !IsWhitespace(s[0]) && !IsWhitespace(s[|s| - 1])
  }

  lemma TrimTight(s: string)
    ensures Tight(Trim(s))
    ensures Tight(s) ==> Trim(s) == s
  {
    var t := TrimStart(s);
    TrimStartIs(s);
    var u := TrimEnd(t);
    TrimEndIs(t);
    if u != "" {
      assert u[0] == t[0];
    }
  }

  /** Trailing white space never reaches a trimmed text. */
  lemma TrimDropsTail(s: string, c: char)
    requires IsWhitespace(c)
    ensures Trim(s + [c]) == Trim(s)
  {
    TrimStartTail(s, c);
    var t := TrimStart(s);
    if t == "" {
    } else {
      assert (t + [c])[..|t|] == t;
    }
  }

  lemma {:induction false} TrimStartTail(s: string, c: char)
    requires IsWhitespace(c)
    ensures TrimStart(s + [c]) == if TrimStart(s) == "" then "" else TrimStart(s) + [c]
  {
    if s == "" {
      assert s + [c] == [c];
      assert [c][1..] == "";
    } else if IsWhitespace(s[0]) {
      assert (s + [c])[1..] == s[1..] + [c];
      TrimStartTail(s[1..], c);
    }
  }

  /** Leading white space never reaches a trimmed text. */
  lemma {:induction false} TrimDropsLead(w: string, s: string)
    requires Blank(w)
    ensures Trim(w + s) == Trim(s)
  {
    if w == "" {
      assert w + s == s;
    } else {
      assert (w + s)[1..] == w[1..] + s;
      assert (w + s)[0] == w[0];
      TrimDropsLead(w[1..], s);
    }
  }

  // ----------------------------------------------------------------- searching

  predicate HasPrefix(s: string, p: string) {
    |p| <= |s| && s[..|p|] == p
  }

  /** The first position where `needle` occurs, or `None`. */
  function Find(s: string, needle: string): (r: Option<nat>)
    ensures r.Some? ==> r.value + |needle| <= |s| && s[r.value..r.value + |needle|] == needle
    ensures r.Some? ==> forall j {:trigger s[j..]} :: 0 <= j < r.value ==> !HasPrefix(s[j..], needle)
    ensures r.None? ==> forall j {:trigger s[j..]} :: 0 <= j <= |s| ==> !HasPrefix(s[j..], needle)
    decreases |s|
  {
    if HasPrefix(s, needle) then
      assert s[0..] == s;
      Some(0)
    else if s == "" then
      assert s[0..] == s;
      None
    else
      var rest := Find(s[1..], needle);
      assert forall j {:trigger s[j..]} :: 1 <= j <= |s| ==> s[j..] == s[1..][j - 1..];
      assert s[0..] == s;
      if rest.None? then None else
        assert s[1..][rest.value..rest.value + |needle|] == s[rest.value + 1..rest.value + 1 + |needle|];
        Some(rest.value + 1)
  }

  predicate Contains(s: string, needle: string) {
    Find(s, needle).Some?
  }

  lemma ContainsAt(s: string, needle: string, i: nat)
    requires i <= |s| && HasPrefix(s[i..], needle)
    ensures Contains(s, needle)
  {
  }

  // ----------------------------------------------------------------- lines

  function StripCr(line: string): string {
    if line != "" && line[|line| - 1] == '\r' then line[..|line| - 1] else line
  }

  /**
   The lines of a text: a line ends at a line feed, a carriage return just before the line
   feed is not part of it, and a final line without a line feed is kept as it is.
   */
  function Lines(text: string): (ls: seq<string>)
    ensures forall l :: l in ls ==> '\n' !in l
  {
    if text == "" then []
    else
      match SplitOnce(text, '\n')
      case None => [text]
      case Some((first, rest)) =>
        assert |rest| < |text|;
        [StripCr(first)] + Lines(rest)
  }

  /** Every line followed by a line feed. */
  function JoinLines(ls: seq<string>): string {
    if ls == [] then "" else ls[0] + "\n" + JoinLines(ls[1..])
  }

  function StripCrs(ls: seq<string>): (rs: seq<string>)
    ensures |rs| == |ls|
  {
    if ls == [] then [] else [StripCr(ls[0])] + StripCrs(ls[1..])
  }

  predicate OneLiners(ls: seq<string>) {
    forall l :: l in ls ==> '\n' !in l
  }

  lemma {:induction false} LinesOfJoin(ls: seq<string>)
    requires OneLiners(ls)
    ensures Lines(JoinLines(ls)) == StripCrs(ls)
  {
    if ls != [] {
      SplitOnceAt(ls[0], '\n', JoinLines(ls[1..]));
      assert ls[0] + "\n" + JoinLines(ls[1..]) == ls[0] + ['\n'] + JoinLines(ls[1..]);
      LinesOfJoin(ls[1..]);
    }
  }

  lemma {:induction false} JoinAppend(a: seq<string>, b: seq<string>)
    ensures JoinLines(a + b) == JoinLines(a) + JoinLines(b)
  {
    if a == [] {
      assert a + b == b;
    } else {
      assert (a + b)[1..] == a[1..] + b;
      JoinAppend(a[1..], b);
    }
  }

  lemma {:induction false} LinesFreeOfCr(text: string)
    requires '\r' !in text
    ensures forall l :: l in Lines(text) ==> '\r' !in l
  {
    if text != "" {
      match SplitOnce(text, '\n')
      case None =>
      case Some((first, rest)) =>
        assert forall i :: 0 <= i < |rest| ==> rest[i] == text[|first| + 1 + i];
        assert forall i :: 0 <= i < |first| ==> first[i] == text[i];
        LinesFreeOfCr(rest);
    }
  }
}
