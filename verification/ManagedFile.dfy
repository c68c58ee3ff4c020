/**
 Managed files: a header records the digest of what follows it, so that a human's edit can be
 told from the panel's own text.

 SHA-256 itself is not modelled.  Everything here holds for every hash function whose values
 are 64 lower-case hexadecimal digits.
 */
module ManagedFile {
  import opened Text

  predicate IsLowerHex(c: char) { IsDigit(c) || 'a' <= c <= 'f' }

  predicate IsDigest(d: string) {
    |d| == 64 && forall i :: 0 <= i < |d| ==> IsLowerHex(d[i])
  }

  ghost predicate GivesDigests(f: string -> string) {
    forall s :: IsDigest(f(s))
  }

  const ZERO_DIGEST := seq(64, _ => '0')

  type Hasher = f: string -> string | GivesDigests(f) witness (s: string) => ZERO_DIGEST

  const MARKER := "UNIHELM-MANAGED sha256:"

  const NOTICE := "generated by Unihelm — " + "edits are detected, " + "not overwritten"

  datatype CommentStyle = Hash | Semicolon {
    function Prefix(): char {
      if Hash? then '#' else ';'
    }
  }

  /** The two header lines, around a digest. */
  function HeaderFor(digest: string, style: CommentStyle): string {
    [style.Prefix()] + " " + MARKER + digest + "\n" + [style.Prefix()] + " " + NOTICE + "\n"
  }

  /** A rendered body under its header. */
  function WithHeader(hash: Hasher, body: string, style: CommentStyle): string {
    HeaderFor(hash(body), style) + body
  }

  predicate IsLead(s: string) {
    forall i :: 0 <= i < |s| ==> s[i] == '#' || s[i] == ';' || IsWhitespace(s[i])
  }

  /** The hexadecimal digits a text begins with. */
  function HexRun(s: string): string {
    if s == "" || !IsHexDigit(s[0]) then "" else [s[0]] + HexRun(s[1..])
  }

  /** The digest a first line claims, if it is a header line. */
  function Claim(first: string): Option<string> {
    match Find(first, MARKER)
    case None => None
    case Some(at) =>
      if !IsLead(TrimEnd(first[..at])) then None
      else
        var digest := HexRun(Trim(first[at + |MARKER|..]));
        if |digest| != 64 then None else Some(digest)
  }

  /** What follows the first line, without the notice line when there is one. */
  function AfterNotice(rest: string): string {
    match SplitOnce(rest, '\n')
    case Some((notice, after)) => if Contains(notice, NOTICE) then after else rest
    case None => rest
  }

  /** The claimed digest and the body, or `None` for a file without a header. */
  function SplitHeader(contents: string): Option<(string, string)> {
    match SplitOnce(contents, '\n')
    case None => None
    case Some((first, rest)) =>
      match Claim(first)
      case None => None
      case Some(digest) => Some((digest, AfterNotice(rest)))
  }

  /** Permission bits, by number. */
  type Mode = set<nat>

  /** A file as it stands on disk; `Opaque` is one that cannot be read as text. */
  datatype Entry = Readable(content: string, mode: Mode) | Opaque(mode: Mode)

  datatype FileState =
    | Absent
    | Managed(hash: string)
    | Drifted(expected: string, actual: string)
    | Foreign
    | Unreadable

  function Inspect(hash: Hasher, at: Option<Entry>): FileState {
    match at
    case None => Absent
    case Some(Opaque(_)) => Unreadable
    case Some(Readable(content, _)) =>
      match SplitHeader(content)
      case None => Foreign
      case Some((claimed, body)) =>
        if hash(body) == claimed then Managed(claimed) else Drifted(claimed, hash(body))
  }

  /** What follows the header, if the text has one. */
  function BodyOf(content: string): Option<string> {
    match SplitHeader(content)
    case None => None
    case Some((_, body)) => Some(body)
  }

  // ----------------------------------------------------------------- printing and parsing agree

  lemma FindAt(s: string, needle: string, i: nat)
    requires i <= |s| && HasPrefix(s[i..], needle) && needle != ""
    requires forall j :: 0 <= j < i ==> s[j] != needle[0]
    ensures Find(s, needle) == Some(i)
  {
    forall j | 0 <= j < i
      ensures !HasPrefix(s[j..], needle)
    {
      assert s[j..][0] == s[j];
    }
    var r := Find(s, needle);
    if r.Some? {
      assert HasPrefix(s[r.value..], needle);
    }
  }

  lemma {:induction false} HexRunOfDigest(d: string)
    requires forall i :: 0 <= i < |d| ==> IsLowerHex(d[i])
    ensures HexRun(d) == d
  {
    if d != "" {
      HexRunOfDigest(d[1..]);
      assert d == [d[0]] + d[1..];
    }
  }

  lemma DigestTight(d: string)
    requires IsDigest(d)
    ensures Tight(d) && '\n' !in d
  {
    assert forall c :: IsLowerHex(c) ==> !IsWhitespace(c) && c != '\n';
  }

  lemma MarkerStarts(s: string)
    ensures HasPrefix(MARKER + s, MARKER) && MARKER[0] == 'U'
  {
  }

  lemma ClaimOfHeader(digest: string, style: CommentStyle)
    requires IsDigest(digest)
    ensures Claim([style.Prefix()] + " " + MARKER + digest) == Some(digest)
  {
    var lead := [style.Prefix()] + " ";
    var first := [style.Prefix()] + " " + MARKER + digest;
    assert first == lead + (MARKER + digest);
    assert first[2..] == MARKER + digest && first[..2] == lead;
    MarkerStarts(digest);
    assert first[0] == style.Prefix() && first[1] == ' ';
    FindAt(first, MARKER, 2);
    LeadTrims(style);
    assert first[2 + |MARKER|..] == digest;
    DigestTight(digest);
    TrimTight(digest);
    HexRunOfDigest(digest);
  }

  lemma LeadTrims(style: CommentStyle)
    ensures IsLead(TrimEnd([style.Prefix()] + " "))
  {
    var s := [style.Prefix()] + " ";
    assert s[..1] == [style.Prefix()];
    assert s[1] == ' ';
  }

  lemma NoticeFound(style: CommentStyle, body: string)
    ensures AfterNotice([style.Prefix()] + " " + NOTICE + "\n" + body) == body
  {
    var notice := [style.Prefix()] + " " + NOTICE;
    assert [style.Prefix()] + " " + NOTICE + "\n" + body == notice + ['\n'] + body;
    NoticeIsOneLine();
    SplitOnceAt(notice, '\n', body);
    assert notice[2..] == NOTICE;
    ContainsAt(notice, NOTICE, 2);
  }

  lemma NoticeIsOneLine()
    ensures '\n' !in NOTICE && '\n' !in MARKER
  {
  }

  /** Whatever body stands under a header, splitting gives back the digest and that body. */
  lemma SplitOfHeader(digest: string, style: CommentStyle, body: string)
    requires IsDigest(digest)
    ensures SplitHeader(HeaderFor(digest, style) + body) == Some((digest, body))
  {
    var first := [style.Prefix()] + " " + MARKER + digest;
    var rest := [style.Prefix()] + " " + NOTICE + "\n" + body;
    assert HeaderFor(digest, style) + body == first + ['\n'] + rest;
    DigestTight(digest);
    NoticeIsOneLine();
    SplitOnceAt(first, '\n', rest);
    ClaimOfHeader(digest, style);
    NoticeFound(style, body);
  }

  /** A file under a printed header is managed exactly when its body still has the claimed hash. */
  lemma InspectUnderHeader(hash: Hasher, rendered: string, style: CommentStyle, body: string, mode: Mode)
    ensures Inspect(hash, Some(Readable(HeaderFor(hash(rendered), style) + body, mode)))
         == if hash(body) == hash(rendered) then Managed(hash(rendered)) else Drifted(hash(rendered), hash(body))
  {
    SplitOfHeader(hash(rendered), style, body);
  }

  /** What the panel writes it classifies as its own, and finds its text in again. */
  lemma FreshFileIsManaged(hash: Hasher, body: string, style: CommentStyle, mode: Mode)
    ensures Inspect(hash, Some(Readable(WithHeader(hash, body, style), mode))) == Managed(hash(body))
    ensures BodyOf(WithHeader(hash, body, style)) == Some(body)
  {
    SplitOfHeader(hash(body), style, body);
  }

  // ----------------------------------------------------------------- exactly which files have a header

  predicate AllHex(s: string) {
    forall i :: 0 <= i < |s| ==> IsHexDigit(s[i])
  }

  /** Comment signs and white space, the marker, 64 hexadecimal digits, and whatever follows them. */
  predicate HeaderShape(first: string, lead: string, gap: string, digest: string, tail: string) {
    && first == lead + MARKER + (gap + digest + tail)
    && IsLead(lead) && Blank(gap)
    && |digest| == 64 && AllHex(digest)
    && (tail != "" ==> !IsHexDigit(tail[0]))
  }

  lemma {:induction false} HexRunIs(s: string)
    ensures var d := HexRun(s);
            d <= s && AllHex(d) && (|d| < |s| ==> !IsHexDigit(s[|d|]))
    decreases |s|
  {
    if s != "" && IsHexDigit(s[0]) {
      HexRunIs(s[1..]);
    }
  }

  lemma {:induction false} HexRunOf(d: string, v: string)
    requires AllHex(d) && (v != "" ==> !IsHexDigit(v[0]))
    ensures HexRun(d + v) == d
    decreases |d|
  {
    if d == "" {
      assert d + v == v;
    } else {
      assert (d + v)[0] == d[0] && (d + v)[1..] == d[1..] + v;
      HexRunOf(d[1..], v);
    }
  }

  /** A text is white space, its trimmed part, and white space. */
  lemma TrimParts(s: string) returns (w: string, v: string)
    ensures s == w + Trim(s) + v && Blank(w) && Blank(v)
  {
    TrimStartIs(s);
    TrimEndIs(TrimStart(s));
    w := s[..|s| - |TrimStart(s)|];
    v := TrimStart(s)[|Trim(s)|..];
  }

  lemma LeadAndBlank(lead: string)
    requires IsLead(TrimEnd(lead))
    ensures IsLead(lead)
  {
    TrimEndIs(lead);
    var kept := TrimEnd(lead);
    LeadThenBlank(kept, lead[|kept|..]);
    assert lead == kept + lead[|kept|..];
  }

  lemma LeadThenBlank(lead: string, blank: string)
    requires IsLead(lead) && Blank(blank)
    ensures IsLead(lead + blank)
  {
  }

  lemma LeadTrimmed(lead: string)
    requires IsLead(lead)
    ensures IsLead(TrimEnd(lead))
  {
    TrimEndIs(lead);
  }

  /** Trimmed, a text that begins with blanks and a digest begins with the digest. */
  lemma DigestFirst(gap: string, digest: string, tail: string)
    requires Blank(gap) && |digest| == 64 && AllHex(digest) && (tail != "" ==> !IsHexDigit(tail[0]))
    ensures HexRun(Trim(gap + digest + tail)) == digest
  {
    var text := digest + tail;
    assert gap + digest + tail == gap + text;
    TrimDropsLead(gap, text);
    var w, v := TrimParts(text);
    var u := Trim(text);
    assert IsHexDigit(digest[0]) && IsHexDigit(digest[63]);
    assert w == "";
    assert text == u + v;
    forall k | |u| <= k < |text|
      ensures IsWhitespace(text[k])
    {
      assert text[k] == v[k - |u|];
    }
    assert text[63] == digest[63];
    assert |u| >= 64;
    assert u[..64] == text[..64] == digest;
    assert u == u[..64] + u[64..];
    assert u[64..] != "" ==> u[64] == text[64] == tail[0];
    HexRunOf(digest, u[64..]);
  }

  lemma MarkerFirst(lead: string, rest: string)
    requires IsLead(lead)
    ensures Find(lead + MARKER + rest, MARKER) == Some(|lead|)
  {
    var s := lead + MARKER + rest;
    assert s[|lead|..][..|MARKER|] == MARKER;
    ContainsAt(s, MARKER, |lead|);
    var at := Find(s, MARKER).value;
    assert HasPrefix(s[|lead|..], MARKER);
    assert s[at] == s[at..at + |MARKER|][0] == MARKER[0] == 'U';
    assert at >= |lead|;
  }

  lemma ShapedClaims(first: string, lead: string, gap: string, digest: string, tail: string)
    requires HeaderShape(first, lead, gap, digest, tail)
    ensures Claim(first) == Some(digest)
  {
    var rest := gap + digest + tail;
    MarkerFirst(lead, rest);
    assert first[..|lead|] == lead && first[|lead| + |MARKER|..] == rest;
    LeadTrimmed(lead);
    DigestFirst(gap, digest, tail);
  }

  lemma DigestIsShaped(rest: string) returns (gap: string, tail: string)
    requires |HexRun(Trim(rest))| == 64
    ensures var digest := HexRun(Trim(rest));
            rest == gap + digest + tail && Blank(gap) && AllHex(digest) && (tail != "" ==> !IsHexDigit(tail[0]))
  {
    var u := Trim(rest);
    var v;
    gap, v := TrimParts(rest);
    HexRunIs(u);
    tail := u[64..] + v;
    assert u == u[..64] + u[64..];
    assert rest == gap + u[..64] + tail;
    assert |u| == 64 ==> tail == v;
  }

  lemma CutAround(s: string, needle: string)
    requires Find(s, needle).Some?
    ensures var at := Find(s, needle).value; s == s[..at] + needle + s[at + |needle|..]
  {
    CutOut(s, needle, Find(s, needle).value);
  }

  lemma CutOut(s: string, needle: string, at: nat)
    requires at + |needle| <= |s| && s[at..at + |needle|] == needle
    ensures s == s[..at] + needle + s[at + |needle|..]
  {
  }

  lemma ClaimIsShaped(first: string) returns (lead: string, gap: string, tail: string)
    requires Claim(first).Some?
    ensures HeaderShape(first, lead, gap, Claim(first).value, tail)
  {
    var at := Find(first, MARKER).value;
    CutAround(first, MARKER);
    lead := first[..at];
    LeadAndBlank(lead);
    gap, tail := DigestIsShaped(first[at + |MARKER|..]);
  }

  /**
   A file is taken for the panel's exactly when its first line has that shape, and the digest
   it claims is those digits; a marker after anything else, or a shorter or longer number,
   leaves the file foreign.
   */
  lemma HeaderExactlyWhen(first: string, rest: string, digest: string)
    requires '\n' !in first
    ensures (SplitHeader(first + ['\n'] + rest).Some? && SplitHeader(first + ['\n'] + rest).value.0 == digest)
       <==> exists lead, gap, tail :: HeaderShape(first, lead, gap, digest, tail)
  {
    SplitOnceAt(first, '\n', rest);
    if Claim(first) == Some(digest) {
      var lead, gap, tail := ClaimIsShaped(first);
    }
    if lead, gap, tail :| HeaderShape(first, lead, gap, digest, tail) {
      ShapedClaims(first, lead, gap, digest, tail);
    }
  }

  /** The first of these lines holds the notice, and the body is what follows that line. */
  predicate NoticeThen(rest: string, before: string, after: string, body: string) {
    rest == (before + NOTICE + after) + ['\n'] + body && '\n' !in before && '\n' !in after
  }

  /**
   The body is what follows the notice when the line after the header holds it, and otherwise
   everything after the header: a line without the notice belongs to the body.
   */
  lemma BodyExactlyWhen(first: string, rest: string, body: string)
    requires '\n' !in first
    requires exists lead, gap, digest, tail :: HeaderShape(first, lead, gap, digest, tail)
    ensures BodyOf(first + ['\n'] + rest) == Some(body)
       <==> (exists before, after :: NoticeThen(rest, before, after, body))
            || (body == rest && !exists before, after, other :: NoticeThen(rest, before, after, other))
  {
    var lead, gap, digest, tail :| HeaderShape(first, lead, gap, digest, tail);
    ShapedClaims(first, lead, gap, digest, tail);
    SplitOnceAt(first, '\n', rest);
    assert BodyOf(first + ['\n'] + rest) == Some(AfterNotice(rest));
    forall before, after, other | NoticeThen(rest, before, after, other)
      ensures AfterNotice(rest) == other
    {
      NoticeSkipped(rest, before, after, other);
    }
    var cut := SplitOnce(rest, '\n');
    if cut.Some? && Contains(cut.value.0, NOTICE) {
      var before, after := NoticeAround(rest);
      assert NoticeThen(rest, before, after, AfterNotice(rest));
    }
  }

  lemma NoticeSkipped(rest: string, before: string, after: string, body: string)
    requires NoticeThen(rest, before, after, body)
    ensures AfterNotice(rest) == body
  {
    var notice := before + NOTICE + after;
    NoticeIsOneLine();
    SplitOnceAt(notice, '\n', body);
    assert notice[|before|..][..|NOTICE|] == NOTICE;
    ContainsAt(notice, NOTICE, |before|);
  }

  lemma NoticeAround(rest: string) returns (before: string, after: string)
    requires SplitOnce(rest, '\n').Some? && Contains(SplitOnce(rest, '\n').value.0, NOTICE)
    ensures NoticeThen(rest, before, after, AfterNotice(rest))
  {
    var notice := SplitOnce(rest, '\n').value.0;
    var at := Find(notice, NOTICE).value;
    CutAround(notice, NOTICE);
    before, after := notice[..at], notice[at + |NOTICE|..];
  }

  // ----------------------------------------------------------------- the edit screen

  datatype DiffKind = Same | Added | Removed

  datatype DiffLine = DiffLine(line: nat, kind: DiffKind, text: string)

  /** What the screen shows for position `i` of the two texts. */
  function DiffAt(a: seq<string>, b: seq<string>, i: nat): seq<DiffLine>
    requires i < |a| || i < |b|
  {
    if i < |a| && i < |b| then
      if a[i] == b[i] then [DiffLine(i + 1, Same, a[i])]
      else [DiffLine(i + 1, Removed, a[i]), DiffLine(i + 1, Added, b[i])]
    else if i < |a| then [DiffLine(i + 1, Removed, a[i])]
    else [DiffLine(i + 1, Added, b[i])]
  }

  /** The two texts compared line by line, from position `i` on. */
  function DiffFrom(a: seq<string>, b: seq<string>, i: nat): seq<DiffLine>
    decreases |a| + |b| - i
  {
    if i < |a| || i < |b| then DiffAt(a, b, i) + DiffFrom(a, b, i + 1) else []
  }

  function Diff(current: string, proposed: string): seq<DiffLine> {
    DiffFrom(Lines(current), Lines(proposed), 0)
  }

  /** One turn of the comparing loop. */
  method CompareAt(a: seq<string>, b: seq<string>, i: nat) returns (out: seq<DiffLine>)
    requires i < |a| || i < |b|
    ensures out == DiffAt(a, b, i)
  {
    if i < |a| && i < |b| {
      if a[i] == b[i] {
        out := [DiffLine(i + 1, Same, a[i])];
      } else {
        out := [DiffLine(i + 1, Removed, a[i])];
        out := out + [DiffLine(i + 1, Added, b[i])];
      }
    } else if i < |a| {
      out := [DiffLine(i + 1, Removed, a[i])];
    } else {
      out := [DiffLine(i + 1, Added, b[i])];
    }
  }

  method SimpleDiff(current: string, proposed: string) returns (out: seq<DiffLine>)
    ensures out == Diff(current, proposed)
  {
    var a, b := Lines(current), Lines(proposed);
    out := [];
    var i := 0;
    while i < |a| || i < |b|
      invariant out + DiffFrom(a, b, i) == Diff(current, proposed)
      decreases |a| + |b| - i
    {
      DiffStep(out, a, b, i);
      var here := CompareAt(a, b, i);
      out := out + here;
      i := i + 1;
    }
  }

  lemma DiffStep(before: seq<DiffLine>, a: seq<string>, b: seq<string>, i: nat)
    requires i < |a| || i < |b|
    ensures before + DiffAt(a, b, i) + DiffFrom(a, b, i + 1) == before + DiffFrom(a, b, i)
  {
  }

  /** One side of a diff: the lines of the given kind, and the common ones. */
  function Side(diff: seq<DiffLine>, kind: DiffKind): seq<string> {
    if diff == [] then []
    else (if diff[0].kind == Same || diff[0].kind == kind then [diff[0].text] else []) + Side(diff[1..], kind)
  }

  lemma {:induction false} SideAppend(a: seq<DiffLine>, b: seq<DiffLine>, kind: DiffKind)
    ensures Side(a + b, kind) == Side(a, kind) + Side(b, kind)
  {
    if a == [] {
      assert a + b == b;
    } else {
      assert (a + b)[1..] == a[1..] + b;
      SideAppend(a[1..], b, kind);
    }
  }

  lemma SideOne(l: DiffLine, kind: DiffKind)
    ensures Side([l], kind) == if l.kind == Same || l.kind == kind then [l.text] else []
  {
    assert [l][1..] == [];
  }

  lemma SideTwo(l: DiffLine, m: DiffLine, kind: DiffKind)
    ensures Side([l, m], kind) == Side([l], kind) + Side([m], kind)
  {
    assert [l, m] == [l] + [m];
    SideAppend([l], [m], kind);
  }

  function From(s: seq<string>, i: nat): seq<string> {
    if i <= |s| then s[i..] else []
  }

  function Here(s: seq<string>, i: nat): seq<string> {
    if i < |s| then [s[i]] else []
  }

  lemma FromStep(s: seq<string>, i: nat)
    ensures From(s, i) == Here(s, i) + From(s, i + 1)
  {
  }

  function Shown(a: seq<string>, b: seq<string>, kind: DiffKind): seq<string> {
    if kind == Removed then a else b
  }

  lemma SideAt(a: seq<string>, b: seq<string>, i: nat, kind: DiffKind)
    requires (i < |a| || i < |b|) && kind != Same
    ensures Side(DiffAt(a, b, i), kind) == Here(Shown(a, b, kind), i)
  {
    var d := DiffAt(a, b, i);
    SideOne(d[0], kind);
    if |d| == 2 {
      SideOne(d[1], kind);
      SideTwo(d[0], d[1], kind);
    }
  }

  /** A diff loses nothing: each of the two texts is one of its sides. */
  lemma {:induction false} DiffKeepsSide(a: seq<string>, b: seq<string>, i: nat, kind: DiffKind)
    requires kind != Same
    ensures Side(DiffFrom(a, b, i), kind) == From(Shown(a, b, kind), i)
    decreases |a| + |b| - i
  {
    if i < |a| || i < |b| {
      DiffKeepsSide(a, b, i + 1, kind);
      SideAt(a, b, i, kind);
      SideAppend(DiffAt(a, b, i), DiffFrom(a, b, i + 1), kind);
      FromStep(Shown(a, b, kind), i);
    }
  }

  predicate AllSame(d: seq<DiffLine>) {
    forall l :: l in d ==> l.kind == Same
  }

  lemma {:induction false} SidesOfSame(d: seq<DiffLine>)
    requires AllSame(d)
    ensures Side(d, Removed) == Side(d, Added)
  {
    if d != [] {
      assert d[0] in d;
      SidesOfSame(d[1..]);
    }
  }

  lemma {:induction false} NoChange(a: seq<string>, i: nat)
    ensures AllSame(DiffFrom(a, a, i))
    decreases |a| + |a| - i
  {
    if i < |a| {
      NoChange(a, i + 1);
    }
  }

  /** Each line is numbered as in the text, or the texts, it comes from. */
  predicate NumberedLines(d: seq<DiffLine>, a: seq<string>, b: seq<string>) {
    forall k :: 0 <= k < |d| ==>
      && (d[k].kind != Added ==> 1 <= d[k].line <= |a| && a[d[k].line - 1] == d[k].text)
      && (d[k].kind != Removed ==> 1 <= d[k].line <= |b| && b[d[k].line - 1] == d[k].text)
  }

  lemma DiffAtIsNumbered(a: seq<string>, b: seq<string>, i: nat)
    requires i < |a| || i < |b|
    ensures NumberedLines(DiffAt(a, b, i), a, b)
  {
  }

  lemma NumberedJoins(d: seq<DiffLine>, e: seq<DiffLine>, a: seq<string>, b: seq<string>)
    requires NumberedLines(d, a, b) && NumberedLines(e, a, b)
    ensures NumberedLines(d + e, a, b)
  {
  }

  lemma {:induction false} DiffFromIsNumbered(a: seq<string>, b: seq<string>, i: nat)
    ensures NumberedLines(DiffFrom(a, b, i), a, b)
    decreases |a| + |b| - i
  {
    if i < |a| || i < |b| {
      DiffAtIsNumbered(a, b, i);
      DiffFromIsNumbered(a, b, i + 1);
      NumberedJoins(DiffAt(a, b, i), DiffFrom(a, b, i + 1), a, b);
    }
  }

  /** Every line shown has the number it has in its own text. */
  lemma DiffIsNumbered(current: string, proposed: string)
    ensures NumberedLines(Diff(current, proposed), Lines(current), Lines(proposed))
  {
    DiffFromIsNumbered(Lines(current), Lines(proposed), 0);
  }

  /** The screen shows both texts in full, and shows no change exactly when their lines agree. */
  lemma DiffTellsTheTruth(current: string, proposed: string)
    ensures var d := Diff(current, proposed);
            && Side(d, Removed) == Lines(current)
            && Side(d, Added) == Lines(proposed)
            && (AllSame(d) <==> Lines(current) == Lines(proposed))
  {
    DiffKeepsSide(Lines(current), Lines(proposed), 0, Removed);
    DiffKeepsSide(Lines(current), Lines(proposed), 0, Added);
    if AllSame(Diff(current, proposed)) {
      SidesOfSame(Diff(current, proposed));
    }
    NoChange(Lines(current), 0);
  }
}
