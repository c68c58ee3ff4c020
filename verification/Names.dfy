/**
 The validated names: the string types whose values can only come out of their parsers.

 A length is a number of bytes of UTF-8.
 */
module Names {
  import opened Text

  /** The check that an input fails first. */
  datatype Refusal =
    | BadLength | BadStart | BadCharacter | Reserved
    | TooFewLabels | EmptyLabel | LabelTooLong | HyphenAtEdge | LooksLikeAddress
    | NoAtSign | BadLocalPart | BadDomain
    | Absolute | HasNul | HasControl | HasBackslash
    | EmptyComponent | DotComponent | DotDotComponent | ComponentTooLong

  type Parsed = Result<string, Refusal>

  // ----------------------------------------------------------------- characters

  function Utf8Width(c: char): (n: nat)
    ensures 1 <= n <= 4
  {
    var n := c as int;
    if n < 0x80 then 1 else if n < 0x800 then 2 else if n < 0x10000 then 3 else 4
  }

  function ByteLength(s: string): (n: nat)
    ensures n >= |s|
  {
    if s == "" then 0 else Utf8Width(s[0]) + ByteLength(s[1..])
  }

  predicate IsAsciiControl(c: char) { c as int < 0x20 || c as int == 0x7F }

  predicate IsControl(c: char) { IsAsciiControl(c) || 0x80 <= c as int < 0xA0 }

  function LowerChar(c: char): char {
    if IsUpper(c) then (c as int + 32) as char else c
  }

  function ToLower(s: string): (t: string)
    ensures |t| == |s|
    ensures forall i :: 0 <= i < |s| ==> t[i] == LowerChar(s[i])
  {
    seq(|s|, i requires 0 <= i < |s| => LowerChar(s[i]))
  }

  lemma LowerTwice(s: string)
    ensures ToLower(ToLower(s)) == ToLower(s)
  {
  }

  lemma LowerTight(s: string)
    requires Tight(s)
    ensures Tight(ToLower(s))
  {
    if s != "" {
      assert IsWhitespace(LowerChar(s[0])) <==> IsWhitespace(s[0]);
    }
  }

  // ----------------------------------------------------------------- splitting at a separator

  /** The pieces between the separators; never none. */
  function Split(s: string, c: char): (parts: seq<string>)
    ensures parts != []
    ensures forall p :: p in parts ==> c !in p
    decreases |s|
  {
    var i := IndexOf(s, c);
    if i == |s| then [s] else [s[..i]] + Split(s[i + 1..], c)
  }

  function Join(parts: seq<string>, c: char): string {
    if parts == [] then "" else if |parts| == 1 then parts[0] else parts[0] + [c] + Join(parts[1..], c)
  }

  lemma JoinCons(p: string, rest: seq<string>, c: char)
    requires rest != []
    ensures Join([p] + rest, c) == p + [c] + Join(rest, c)
  {
    assert ([p] + rest)[1..] == rest;
  }

  lemma CutAtFirst(s: string, c: char)
    requires IndexOf(s, c) < |s|
    ensures var i := IndexOf(s, c); s == s[..i] + [c] + s[i + 1..]
  {
  }

  /** Joining undoes splitting. */
  lemma {:induction false} JoinOfSplit(s: string, c: char)
    ensures Join(Split(s, c), c) == s
    decreases |s|
  {
    var i := IndexOf(s, c);
    if i < |s| {
      JoinOfSplit(s[i + 1..], c);
      JoinCons(s[..i], Split(s[i + 1..], c), c);
      CutAtFirst(s, c);
    }
  }

  lemma IndexPast(p: string, c: char, rest: string)
    requires c !in p
    ensures IndexOf(p + [c] + rest, c) == |p|
  {
    var s := p + [c] + rest;
    assert s[|p|] == c;
    assert forall j :: 0 <= j < |p| ==> s[j] == p[j];
  }

  lemma SplitFirst(p: string, c: char, rest: string)
    requires c !in p
    ensures Split(p + [c] + rest, c) == [p] + Split(rest, c)
  {
    var s := p + [c] + rest;
    IndexPast(p, c, rest);
    assert s[..|p|] == p && s[|p| + 1..] == rest;
  }

  lemma SplitWhole(p: string, c: char)
    requires c !in p
    ensures Split(p, c) == [p]
  {
    assert IndexOf(p, c) == |p|;
  }

  predicate FreeOf(parts: seq<string>, c: char) {
    forall i :: 0 <= i < |parts| ==> c !in parts[i]
  }

  lemma HeadAndTail(parts: seq<string>, c: char)
    requires parts != [] && FreeOf(parts, c)
    ensures parts == [parts[0]] + parts[1..] && c !in parts[0] && FreeOf(parts[1..], c)
  {
  }

  /** Splitting undoes joining. */
  lemma {:induction false} SplitOfJoin(parts: seq<string>, c: char)
    requires parts != [] && FreeOf(parts, c)
    ensures Split(Join(parts, c), c) == parts
    decreases |parts|
  {
    var p, rest := parts[0], parts[1..];
    HeadAndTail(parts, c);
    if rest == [] {
      SplitWhole(p, c);
    } else {
      SplitOfJoin(rest, c);
      JoinCons(p, rest, c);
      SplitFirst(p, c, Join(rest, c));
    }
  }

  // ----------------------------------------------------------------- tenant paths

  function ComponentRefusal(part: string): Option<Refusal> {
    if part == "" then Some(EmptyComponent)
    else if part == "." then Some(DotComponent)
    else if part == ".." then Some(DotDotComponent)
    else if ByteLength(part) > 255 then Some(ComponentTooLong)
    else None
  }

  /** The first refusal among the parts. */
  function FirstRefusal(parts: seq<string>, refuse: string -> Option<Refusal>): Option<Refusal> {
    if parts == [] then None
    else if refuse(parts[0]).Some? then refuse(parts[0])
    else FirstRefusal(parts[1..], refuse)
  }

  lemma {:induction false} NoneRefused(parts: seq<string>, refuse: string -> Option<Refusal>)
    ensures FirstRefusal(parts, refuse).None? <==> forall i :: 0 <= i < |parts| ==> refuse(parts[i]).None?
    decreases |parts|
  {
    if parts != [] {
      NoneRefused(parts[1..], refuse);
    }
  }

  lemma {:induction false} RefusedAfter(good: seq<string>, rest: seq<string>, refuse: string -> Option<Refusal>)
    requires forall i :: 0 <= i < |good| ==> refuse(good[i]).None?
    ensures FirstRefusal(good + rest, refuse) == FirstRefusal(rest, refuse)
    decreases |good|
  {
    if good == [] {
      assert good + rest == rest;
    } else {
      assert (good + rest)[1..] == good[1..] + rest;
      RefusedAfter(good[1..], rest, refuse);
    }
  }

  function PathRefusal(s: string): Option<Refusal> {
    if ByteLength(s) > 4096 then Some(BadLength)
    else if HasPrefix(s, "/") then Some(Absolute)
    else if '\0' in s then Some(HasNul)
    else if exists i :: 0 <= i < |s| && IsControl(s[i]) then Some(HasControl)
    else if '\\' in s then Some(HasBackslash)
    else None
  }

  /** A tenant path is its trimmed input, unless that is refused. */
  function TenantPath(input: string): Parsed {
    var s := Trim(input);
    if s == "" then Ok("")
    else
      var whole := PathRefusal(s);
      var part := FirstRefusal(Split(s, '/'), ComponentRefusal);
      if whole.Some? then Err(whole.value)
      else if part.Some? then Err(part.value)
      else Ok(s)
  }

  /** The parser: it keeps the components that pass and joins them again. */
  method ParseTenantPath(input: string) returns (r: Parsed)
    ensures r == TenantPath(input)
  {
    var s := Trim(input);
    if s == "" {
      return Ok("");
    }
    var whole := PathRefusal(s);
    if whole.Some? {
      return Err(whole.value);
    }
    var parts := [];
    var all := Split(s, '/');
    for i := 0 to |all|
      invariant parts == all[..i]
      invariant forall k :: 0 <= k < i ==> ComponentRefusal(all[k]).None?
    {
      var part := all[i];
      assert all == all[..i] + all[i..];
      RefusedAfter(all[..i], all[i..], ComponentRefusal);
      if part == "" {
        return Err(EmptyComponent);
      } else if part == "." {
        return Err(DotComponent);
      } else if part == ".." {
        return Err(DotDotComponent);
      } else if ByteLength(part) > 255 {
        return Err(ComponentTooLong);
      }
      parts := parts + [part];
    }
    assert parts == all;
    NoneRefused(all, ComponentRefusal);
    JoinOfSplit(s, '/');
    return Ok(Join(parts, '/'));
  }

  /** Where a relative path leads from a directory. */
  function Resolve(dir: seq<string>, parts: seq<string>): seq<string> {
    if parts == [] then dir
    else
      var here := Resolve(dir, parts[..|parts| - 1]);
      var part := parts[|parts| - 1];
      if part == "" || part == "." then here
      else if part == ".." then (if here == [] then [] else here[..|here| - 1])
      else here + [part]
  }

  lemma {:induction false} PlainPartsAppend(home: seq<string>, parts: seq<string>)
    requires forall i :: 0 <= i < |parts| ==> ComponentRefusal(parts[i]).None?
    ensures Resolve(home, parts) == home + parts
    decreases |parts|
  {
    if parts != [] {
      PlainPartsAppend(home, parts[..|parts| - 1]);
      assert parts == parts[..|parts| - 1] + [parts[|parts| - 1]];
    }
  }

  /** The components of a path value; the root of the home has none. */
  function Components(v: string): seq<string> {
    if v == "" then [] else Split(v, '/')
  }

  /**
   An accepted path is its trimmed input, and its components, walked one by one from any
   home, are below that home after every one of them.
   */
  lemma TenantPathStaysHome(input: string, home: seq<string>, k: nat)
    requires TenantPath(input).Ok?
    requires k <= |Components(TenantPath(input).value)|
    ensures TenantPath(input).value == Trim(input)
    ensures Resolve(home, Components(TenantPath(input).value)[..k])
            == home + Components(TenantPath(input).value)[..k]
  {
    var parts := Components(TenantPath(input).value);
    if parts != [] {
      NoneRefused(parts, ComponentRefusal);
    }
    PlainPartsAppend(home, parts[..k]);
  }

  /** Two accepted paths that resolve to the same place are the same value. */
  lemma TenantPathIsCanonical(a: string, b: string, home: seq<string>)
    requires TenantPath(a).Ok? && TenantPath(b).Ok?
    requires Resolve(home, Components(TenantPath(a).value)) == Resolve(home, Components(TenantPath(b).value))
    ensures TenantPath(a) == TenantPath(b)
  {
    var x, y := Components(TenantPath(a).value), Components(TenantPath(b).value);
    TenantPathStaysHome(a, home, |x|);
    TenantPathStaysHome(b, home, |y|);
    assert x[..|x|] == x && y[..|y|] == y;
    assert (home + x)[|home|..] == x && (home + y)[|home|..] == y;
    JoinOfSplit(TenantPath(a).value, '/');
    JoinOfSplit(TenantPath(b).value, '/');
  }

  // ----------------------------------------------------------------- domains

  predicate IsLabelChar(c: char) { IsAlphanumeric(c) || c == '-' }

  function LabelRefusal(tag: string): Option<Refusal> {
    if tag == "" then Some(EmptyLabel)
    else if ByteLength(tag) > 63 then Some(LabelTooLong)
    else if tag[0] == '-' || tag[|tag| - 1] == '-' then Some(HyphenAtEdge)
    else if exists i :: 0 <= i < |tag| && !IsLabelChar(tag[i]) then Some(BadCharacter)
    else None
  }

  predicate AllDigits(s: string) {
    forall i :: 0 <= i < |s| ==> IsDigit(s[i])
  }

  function TrimDots(s: string): (t: string)
    ensures t <= s
    ensures t != "" ==> t[|t| - 1] != '.'
  {
    if s == "" || s[|s| - 1] != '.' then s else TrimDots(s[..|s| - 1])
  }

  /** What is stored if the input is accepted. */
  function NormalDomain(input: string): string {
    ToLower(TrimDots(Trim(input)))
  }

  function Domain(input: string): Parsed {
    var s := NormalDomain(input);
    if s == "" || ByteLength(s) > 253 then Err(BadLength)
    else
      var labels := Split(s, '.');
      var bad := FirstRefusal(labels, LabelRefusal);
      if |labels| < 2 then Err(TooFewLabels)
      else if bad.Some? then Err(bad.value)
      else if AllDigits(labels[|labels| - 1]) then Err(LooksLikeAddress)
      else Ok(s)
  }

  /** The parser checks the labels one by one. */
  method ParseDomain(input: string) returns (r: Parsed)
    ensures r == Domain(input)
  {
    var s := NormalDomain(input);
    if s == "" {
      return Err(BadLength);
    }
    if ByteLength(s) > 253 {
      return Err(BadLength);
    }
    var labels := Split(s, '.');
    if |labels| < 2 {
      return Err(TooFewLabels);
    }
    for i := 0 to |labels|
      invariant forall k :: 0 <= k < i ==> LabelRefusal(labels[k]).None?
    {
      var tag := labels[i];
      assert labels == labels[..i] + labels[i..];
      RefusedAfter(labels[..i], labels[i..], LabelRefusal);
      if tag == "" {
        return Err(EmptyLabel);
      }
      if ByteLength(tag) > 63 {
        return Err(LabelTooLong);
      }
      if tag[0] == '-' || tag[|tag| - 1] == '-' {
        return Err(HyphenAtEdge);
      }
      if exists k :: 0 <= k < |tag| && !IsLabelChar(tag[k]) {
        return Err(BadCharacter);
      }
    }
    NoneRefused(labels, LabelRefusal);
    if AllDigits(labels[|labels| - 1]) {
      return Err(LooksLikeAddress);
    }
    return Ok(s);
  }

  /** One label of a name as sections 2.3.1 and 2.3.4 of RFC 1035 have it, in lower case, a digit allowed in front. */
  predicate IsLabel(tag: string) {
    && 1 <= |tag| <= 63
    && tag[0] != '-' && tag[|tag| - 1] != '-'
    && forall i :: 0 <= i < |tag| ==> IsDigit(tag[i]) || IsLower(tag[i]) || tag[i] == '-'
  }

  /** The form of a stored domain name. */
  predicate IsDomain(v: string) {
    var labels := Split(v, '.');
    && 2 <= |labels| && |v| <= 253
    && (forall i :: 0 <= i < |labels| ==> IsLabel(labels[i]))
    && !AllDigits(labels[|labels| - 1])
  }

  predicate IsDomainChar(c: char) { IsDigit(c) || IsLower(c) || c == '-' || c == '.' }

  lemma {:induction false} AsciiLength(s: string)
    requires forall i :: 0 <= i < |s| ==> s[i] as int < 0x80
    ensures ByteLength(s) == |s|
    decreases |s|
  {
    if s != "" {
      AsciiLength(s[1..]);
    }
  }

  lemma {:induction false} SplitChars(s: string, c: char, ok: char -> bool)
    requires forall p, i :: p in Split(s, c) && 0 <= i < |p| ==> ok(p[i])
    ensures forall i :: 0 <= i < |s| ==> ok(s[i]) || s[i] == c
    decreases |s|
  {
    var i := IndexOf(s, c);
    var parts := Split(s, c);
    if i == |s| {
      assert parts[0] == s && parts[0] in parts;
    } else {
      var rest := Split(s[i + 1..], c);
      assert forall p :: p in rest ==> p in parts;
      SplitChars(s[i + 1..], c, ok);
      assert parts[0] == s[..i] && parts[0] in parts;
      forall k | 0 <= k < |s|
        ensures ok(s[k]) || s[k] == c
      {
        if k < i {
          assert s[k] == parts[0][k];
        } else if k > i {
          assert s[k] == s[i + 1..][k - i - 1];
        }
      }
    }
  }

  lemma {:induction false} PieceChars(s: string, c: char, p: string, i: nat)
    requires p in Split(s, c) && i < |p|
    ensures p[i] in s
    decreases |s|
  {
    var k := IndexOf(s, c);
    if k < |s| && p != s[..k] {
      PieceChars(s[k + 1..], c, p, i);
    }
  }

  lemma {:induction false} LastPiece(s: string, c: char)
    requires s != "" && s[|s| - 1] == c
    ensures var parts := Split(s, c); parts[|parts| - 1] == ""
    decreases |s|
  {
    var i := IndexOf(s, c);
    if i + 1 < |s| {
      LastPiece(s[i + 1..], c);
    }
  }

  lemma LabelIs(tag: string)
    requires IsLabel(tag)
    ensures LabelRefusal(tag).None?
  {
    AsciiLength(tag);
  }

  lemma IsLabelIs(tag: string)
    requires LabelRefusal(tag).None? && forall i :: 0 <= i < |tag| ==> !IsUpper(tag[i])
    ensures IsLabel(tag)
  {
  }

  lemma DomainChars(v: string)
    requires IsDomain(v)
    ensures forall i :: 0 <= i < |v| ==> IsDomainChar(v[i])
    ensures v != "" && v[|v| - 1] != '.'
  {
    var labels := Split(v, '.');
    assert IsLabel(labels[|labels| - 1]);
    if v != "" && v[|v| - 1] == '.' {
      LastPiece(v, '.');
    }
    forall p, i | p in labels && 0 <= i < |p|
      ensures IsDomainChar(p[i])
    {
      assert IsLabel(p);
    }
    SplitChars(v, '.', IsDomainChar);
  }

  lemma LowerAlready(v: string)
    requires forall i :: 0 <= i < |v| ==> IsDomainChar(v[i])
    ensures ToLower(v) == v
  {
    forall i | 0 <= i < |v|
      ensures LowerChar(v[i]) == v[i]
    {
      assert IsDomainChar(v[i]);
    }
  }

  lemma PlainLength(v: string)
    requires forall i :: 0 <= i < |v| ==> IsDomainChar(v[i])
    ensures ByteLength(v) == |v|
  {
    forall i | 0 <= i < |v|
      ensures v[i] as int < 0x80
    {
      assert IsDomainChar(v[i]);
    }
    AsciiLength(v);
  }

  lemma PlainEnds(v: string)
    requires forall i :: 0 <= i < |v| ==> IsDomainChar(v[i])
    ensures Trim(v) == v
  {
    if v != "" {
      assert IsDomainChar(v[0]) && IsDomainChar(v[|v| - 1]);
    }
    TrimTight(v);
  }

  lemma NormalAlready(v: string)
    requires forall i :: 0 <= i < |v| ==> IsDomainChar(v[i])
    requires v != "" && v[|v| - 1] != '.'
    ensures NormalDomain(v) == v && ByteLength(v) == |v|
  {
    PlainEnds(v);
    PlainLength(v);
    LowerAlready(v);
    assert TrimDots(v) == v;
  }

  lemma LabelsPass(labels: seq<string>)
    requires forall i :: 0 <= i < |labels| ==> IsLabel(labels[i])
    ensures FirstRefusal(labels, LabelRefusal).None?
  {
    forall i | 0 <= i < |labels|
      ensures LabelRefusal(labels[i]).None?
    {
      LabelIs(labels[i]);
    }
    NoneRefused(labels, LabelRefusal);
  }

  lemma IsDomainParses(v: string)
    requires IsDomain(v)
    ensures Domain(v) == Ok(v)
  {
    DomainChars(v);
    NormalAlready(v);
    LabelsPass(Split(v, '.'));
  }

  lemma AcceptedIsDomain(input: string)
    requires Domain(input).Ok?
    ensures IsDomain(Domain(input).value)
  {
    var v := NormalDomain(input);
    var labels := Split(v, '.');
    NoneRefused(labels, LabelRefusal);
    LowerTwice(TrimDots(Trim(input)));
    assert forall i :: 0 <= i < |v| ==> !IsUpper(v[i]);
    forall k | 0 <= k < |labels|
      ensures IsLabel(labels[k])
    {
      forall i | 0 <= i < |labels[k]|
        ensures !IsUpper(labels[k][i])
      {
        PieceChars(v, '.', labels[k], i);
      }
      IsLabelIs(labels[k]);
    }
  }

  /** The stored domain names are exactly the well-formed lower-case ones, and each is its own stored form. */
  lemma DomainsAreExactly(v: string)
    ensures Domain(v) == Ok(v) <==> IsDomain(v)
    ensures (exists input :: Domain(input) == Ok(v)) <==> IsDomain(v)
  {
    if IsDomain(v) {
      IsDomainParses(v);
    }
    if input :| Domain(input) == Ok(v) {
      AcceptedIsDomain(input);
    }
  }

  lemma LongerDomain(tag: string, v: string)
    requires IsLabel(tag) && IsDomain(v) && '.' !in tag && |tag| + 1 + |v| <= 253
    ensures IsDomain(tag + ['.'] + v)
  {
    SplitFirst(tag, '.', v);
    var labels := Split(v, '.');
    assert ([tag] + labels)[|labels|] == labels[|labels| - 1];
    forall i | 0 <= i <= |labels|
      ensures IsLabel(([tag] + labels)[i])
    {
      assert i > 0 ==> ([tag] + labels)[i] == labels[i - 1];
    }
  }

  lemma LongerChars(tag: string, v: string)
    requires IsLabel(tag) && IsDomain(v)
    ensures var w := tag + ['.'] + v;
            && (forall i :: 0 <= i < |w| ==> IsDomainChar(w[i]))
            && w[|w| - 1] != '.'
  {
    DomainChars(v);
    var w := tag + ['.'] + v;
    assert w[|w| - 1] == v[|v| - 1];
    forall i | 0 <= i < |w|
      ensures IsDomainChar(w[i])
    {
      assert i < |tag| ==> w[i] == tag[i];
      assert i > |tag| ==> w[i] == v[i - |tag| - 1];
    }
  }

  /**
   A domain name takes another label in front, `www` for one, exactly when there is room for
   it: the result is then itself, unchanged, a stored domain name.
   */
  lemma SubdomainExactlyWhen(tag: string, v: string)
    requires IsLabel(tag) && IsDomain(v)
    ensures Domain(tag + ['.'] + v)
            == if |tag| + 1 + |v| <= 253 then Ok(tag + ['.'] + v) else Err(BadLength)
  {
    LongerChars(tag, v);
    if |tag| + 1 + |v| <= 253 {
      LongerDomain(tag, v);
      IsDomainParses(tag + ['.'] + v);
    } else {
      NormalAlready(tag + ['.'] + v);
    }
  }

  // ----------------------------------------------------------------- the other names

  predicate IsUserChar(c: char) { IsLower(c) || IsDigit(c) || c == '_' || c == '-' }

  predicate IsReservedUser(s: string) {
    s in [
      "root", "daemon", "bin", "sys", "sync", "games", "man", "lp", "mail", "news", "uucp", "proxy",
      "www-data", "backup", "list", "irc", "nobody", "systemd-network", "systemd-resolve", "messagebus",
      "sshd", "nginx", "apache", "httpd", "mysql", "mariadb", "postgres", "redis", "valkey", "docker",
      "unihelm", "unihelm-web", "unihelm-agent", "adm", "operator", "ftp", "dbus", "polkitd", "chrony"]
  }

  function LinuxUser(input: string): Parsed {
    var s := Trim(input);
    if s == "" || ByteLength(s) > 32 then Err(BadLength)
    else if !(IsLower(s[0]) || s[0] == '_') then Err(BadStart)
    else if exists i :: 1 <= i < |s| && !IsUserChar(s[i]) then Err(BadCharacter)
    else if IsReservedUser(s) then Err(Reserved)
    else Ok(s)
  }

  function Username(input: string): Parsed {
    var s := ToLower(Trim(input));
    if ByteLength(s) < 3 || ByteLength(s) > 32 then Err(BadLength)
    else if s == "" || !IsAlphanumeric(s[0]) then Err(BadStart)
    else if exists i :: 0 <= i < |s| && !(IsUserChar(s[i]) || s[i] == '.') then Err(BadCharacter)
    else Ok(s)
  }

  predicate IsBadInEmail(c: char) { IsAsciiControl(c) || c == ' ' || c == ',' || c == ';' }

  function Email(input: string): Parsed {
    CheckedEmail(ToLower(Trim(input)))
  }

  function CheckedEmail(s: string): (r: Parsed)
    ensures r.Ok? ==> r.value == s
  {
    if ByteLength(s) < 3 || ByteLength(s) > 254 then Err(BadLength)
    else if exists i :: 0 <= i < |s| && IsBadInEmail(s[i]) then Err(BadCharacter)
    else
      match SplitOnce(s, '@')
      case None => Err(NoAtSign)
      case Some((local, domain)) =>
        if local == "" || ByteLength(local) > 64 then Err(BadLocalPart)
        else if Domain(domain).Err? then Err(BadDomain)
        else Ok(s)
  }

  predicate IsReservedDatabase(s: string) {
    || s in ["information_schema", "mysql", "performance_schema", "sys", "postgres", "template0", "template1"]
    || HasPrefix(s, "pg_")
  }

  function DbName(input: string): Parsed {
    var s := Trim(input);
    if s == "" || ByteLength(s) > 63 then Err(BadLength)
    else if !(IsLower(s[0]) || IsUpper(s[0]) || s[0] == '_') then Err(BadStart)
    else if exists i :: 0 <= i < |s| && !(IsAlphanumeric(s[i]) || s[i] == '_') then Err(BadCharacter)
    else if IsReservedDatabase(ToLower(s)) then Err(Reserved)
    else Ok(s)
  }

  function AppName(input: string): Parsed {
    var s := ToLower(Trim(input));
    if s == "" || ByteLength(s) > 32 then Err(BadLength)
    else if !IsAlphanumeric(s[0]) then Err(BadStart)
    else if exists i :: 0 <= i < |s| && !IsUserChar(s[i]) then Err(BadCharacter)
    else Ok(s)
  }

  // ----------------------------------------------------------------- the stored form

  datatype Kind = AppNames | Domains | LinuxUsers | Usernames | Emails | DbNames | TenantPaths

  function Parse(kind: Kind, input: string): Parsed {
    match kind
    case AppNames => AppName(input)
    case Domains => Domain(input)
    case LinuxUsers => LinuxUser(input)
    case Usernames => Username(input)
    case Emails => Email(input)
    case DbNames => DbName(input)
    case TenantPaths => TenantPath(input)
  }

  lemma TrimmedIsFixed(input: string)
    ensures Trim(Trim(input)) == Trim(input)
  {
    TrimTight(input);
    TrimTight(Trim(input));
  }

  lemma TrimmedLowerIsFixed(input: string)
    ensures ToLower(Trim(ToLower(Trim(input)))) == ToLower(Trim(input))
  {
    TrimTight(input);
    LowerTight(Trim(input));
    TrimTight(ToLower(Trim(input)));
    LowerTwice(Trim(input));
  }

  lemma LinuxUserReparses(input: string)
    requires LinuxUser(input).Ok?
    ensures LinuxUser(LinuxUser(input).value) == LinuxUser(input)
  {
    TrimmedIsFixed(input);
  }

  lemma UsernameReparses(input: string)
    requires Username(input).Ok?
    ensures Username(Username(input).value) == Username(input)
  {
    TrimmedLowerIsFixed(input);
  }

  lemma EmailReparses(input: string)
    requires Email(input).Ok?
    ensures Email(Email(input).value) == Email(input)
  {
    TrimmedLowerIsFixed(input);
  }

  lemma DbNameReparses(input: string)
    requires DbName(input).Ok?
    ensures DbName(DbName(input).value) == DbName(input)
  {
    TrimmedIsFixed(input);
  }

  lemma AppNameReparses(input: string)
    requires AppName(input).Ok?
    ensures AppName(AppName(input).value) == AppName(input)
  {
    TrimmedLowerIsFixed(input);
  }

  lemma TenantPathReparses(input: string)
    requires TenantPath(input).Ok?
    ensures TenantPath(TenantPath(input).value) == TenantPath(input)
  {
    TrimmedIsFixed(input);
  }

  /** For every kind of name, parsing the stored form of an accepted value gives that value again. */
  lemma StoredFormReparses(kind: Kind, input: string)
    requires Parse(kind, input).Ok?
    ensures Parse(kind, Parse(kind, input).value) == Parse(kind, input)
  {
    match kind
    case AppNames => AppNameReparses(input);
    case Domains =>
      AcceptedIsDomain(input);
      IsDomainParses(Domain(input).value);
    case LinuxUsers => LinuxUserReparses(input);
    case Usernames => UsernameReparses(input);
    case Emails => EmailReparses(input);
    case DbNames => DbNameReparses(input);
    case TenantPaths => TenantPathReparses(input);
  }

  // ----------------------------------------------------------------- exactly which values are stored

  /** A letter, a digit or punctuation: ASCII, and not white space. */
  predicate IsInk(c: char) { 0x21 <= c as int < 0x7F }

  predicate AllInk(v: string) {
    forall i :: 0 <= i < |v| ==> IsInk(v[i])
  }

  lemma InkIsFixed(v: string)
    requires AllInk(v)
    ensures Trim(v) == v && ByteLength(v) == |v|
    ensures (forall i :: 0 <= i < |v| ==> !IsUpper(v[i])) ==> ToLower(v) == v
  {
    if v != "" {
      assert IsInk(v[0]) && IsInk(v[|v| - 1]);
    }
    TrimTight(v);
    AsciiLength(v);
  }

  lemma UserCharsAreInk(v: string)
    requires forall i :: 0 <= i < |v| ==> IsUserChar(v[i]) || v[i] == '.'
    ensures AllInk(v) && forall i :: 0 <= i < |v| ==> !IsUpper(v[i])
  {
  }

  predicate IsLinuxUser(v: string) {
    && 1 <= |v| <= 32
    && (IsLower(v[0]) || v[0] == '_')
    && (forall i :: 0 <= i < |v| ==> IsLower(v[i]) || IsDigit(v[i]) || v[i] == '_' || v[i] == '-')
    && !IsReservedUser(v)
  }

  lemma LinuxUserIs(input: string)
    requires LinuxUser(input).Ok?
    ensures IsLinuxUser(LinuxUser(input).value)
  {
    var v := LinuxUser(input).value;
    forall i | 0 <= i < |v|
      ensures IsUserChar(v[i])
    {
      assert i >= 1 ==> IsUserChar(v[i]);
    }
  }

  lemma SystemAccounts()
    ensures IsReservedUser("root") && IsReservedUser("nginx") && IsReservedUser("unihelm")
    ensures IsReservedUser("unihelm-web") && IsReservedUser("unihelm-agent")
  {
  }

  /** No tenant ever gets root, the web server's account or one of the panel's own. */
  lemma NoTenantIsASystemAccount(input: string)
    requires LinuxUser(input).Ok?
    ensures LinuxUser(input).value !in {"root", "nginx", "unihelm", "unihelm-web", "unihelm-agent"}
  {
    SystemAccounts();
    LinuxUserIs(input);
  }

  predicate IsUsername(v: string) {
    && 3 <= |v| <= 32
    && (IsLower(v[0]) || IsDigit(v[0]))
    && forall i :: 0 <= i < |v| ==> IsLower(v[i]) || IsDigit(v[i]) || v[i] == '.' || v[i] == '_' || v[i] == '-'
  }

  lemma UsernameIs(input: string)
    requires Username(input).Ok?
    ensures IsUsername(Username(input).value)
  {
    var v := Username(input).value;
    assert forall i :: 0 <= i < |v| ==> IsUserChar(v[i]) || v[i] == '.';
    UserCharsAreInk(v);
    InkIsFixed(v);
  }

  predicate IsAppName(v: string) {
    && 1 <= |v| <= 32
    && (IsLower(v[0]) || IsDigit(v[0]))
    && forall i :: 0 <= i < |v| ==> IsLower(v[i]) || IsDigit(v[i]) || v[i] == '_' || v[i] == '-'
  }

  lemma AppNameIs(input: string)
    requires AppName(input).Ok?
    ensures IsAppName(AppName(input).value)
  {
    var v := AppName(input).value;
    assert forall i :: 0 <= i < |v| ==> IsUserChar(v[i]);
    UserCharsAreInk(v);
    InkIsFixed(v);
  }

  predicate IsDbName(v: string) {
    && 1 <= |v| <= 63
    && !IsDigit(v[0])
    && (forall i :: 0 <= i < |v| ==> IsLower(v[i]) || IsUpper(v[i]) || IsDigit(v[i]) || v[i] == '_')
    && !IsReservedDatabase(ToLower(v))
  }

  lemma DbNameIs(input: string)
    requires DbName(input).Ok?
    ensures IsDbName(DbName(input).value)
  {
  }

  /** The two sides of an address. */
  predicate IsAddress(local: string, domain: string) {
    local != "" && '@' !in local && ByteLength(local) <= 64 && Domain(domain).Ok?
  }

  predicate IsEmail(v: string) {
    && Tight(v) && ToLower(v) == v
    && 3 <= ByteLength(v) <= 254
    && IsClean(v) && HasSides(v)
  }

  /** No control character, space, comma or semicolon. */
  predicate IsClean(v: string) {
    forall i :: 0 <= i < |v| ==> !IsAsciiControl(v[i]) && v[i] != ' ' && v[i] != ',' && v[i] != ';'
  }

  /** Two sides around the first at sign. */
  predicate HasSides(v: string) {
    exists k :: 0 <= k < |v| && v[k] == '@' && IsAddress(v[..k], v[k + 1..])
  }

  lemma SplitAtSign(v: string, k: nat)
    requires k < |v| && v[k] == '@' && '@' !in v[..k]
    ensures SplitOnce(v, '@') == Some((v[..k], v[k + 1..]))
  {
    assert v == v[..k] + ['@'] + v[k + 1..];
    SplitOnceAt(v[..k], '@', v[k + 1..]);
  }

  lemma SplitPosition(v: string)
    requires SplitOnce(v, '@').Some?
    ensures var k := |SplitOnce(v, '@').value.0|;
            k < |v| && v[k] == '@' && SplitOnce(v, '@') == Some((v[..k], v[k + 1..]))
  {
  }

  lemma SidesAre(v: string)
    ensures HasSides(v) <==> SplitOnce(v, '@').Some? && IsAddress(SplitOnce(v, '@').value.0, SplitOnce(v, '@').value.1)
  {
    if HasSides(v) {
      var k :| 0 <= k < |v| && v[k] == '@' && IsAddress(v[..k], v[k + 1..]);
      SplitAtSign(v, k);
    }
    if SplitOnce(v, '@').Some? {
      SplitPosition(v);
    }
  }

  lemma CheckedEmailIs(v: string)
    ensures CheckedEmail(v).Ok? <==> 3 <= ByteLength(v) <= 254 && IsClean(v) && HasSides(v)
  {
    SidesAre(v);
    assert IsClean(v) <==> !exists i :: 0 <= i < |v| && IsBadInEmail(v[i]);
  }

  /** One step of a tenant path: a name of its own, not too long. */
  predicate IsStep(part: string) {
    part != "" && part != "." && part != ".." && ByteLength(part) <= 255
  }

  predicate IsTenantPath(v: string) {
    && Tight(v)
    && ByteLength(v) <= 4096
    && (forall i :: 0 <= i < |v| ==> !IsControl(v[i]) && v[i] != '\\')
    && AllSteps(Components(v))
  }

  lemma PathPasses(v: string)
    ensures PathRefusal(v).None? <==>
              && ByteLength(v) <= 4096 && !HasPrefix(v, "/")
              && forall i :: 0 <= i < |v| ==> !IsControl(v[i]) && v[i] != '\\'
  {
    if '\0' in v {
      var i :| 0 <= i < |v| && v[i] == '\0';
      assert IsControl(v[i]);
    }
    if '\\' in v {
      var i :| 0 <= i < |v| && v[i] == '\\';
    }
  }

  lemma NoLeadingSlash(v: string)
    requires HasPrefix(v, "/")
    ensures Split(v, '/')[0] == ""
  {
    assert v[0] == '/';
    assert IndexOf(v, '/') == 0;
  }

  predicate AllSteps(parts: seq<string>) {
    forall i :: 0 <= i < |parts| ==> IsStep(parts[i])
  }

  lemma StepsPass(parts: seq<string>)
    ensures FirstRefusal(parts, ComponentRefusal).None? <==> AllSteps(parts)
  {
    NoneRefused(parts, ComponentRefusal);
    if FirstRefusal(parts, ComponentRefusal).None? {
      forall i | 0 <= i < |parts|
        ensures IsStep(parts[i])
      {
        assert ComponentRefusal(parts[i]).None?;
      }
    }
  }

  lemma PassesExactlyWhen(v: string)
    requires Tight(v) && v != ""
    ensures TenantPath(v) == Ok(v) <==> IsTenantPath(v)
  {
    var parts := Split(v, '/');
    TrimTight(v);
    PathPasses(v);
    StepsPass(parts);
    assert Components(v) == parts;
    if HasPrefix(v, "/") {
      NoLeadingSlash(v);
      assert !IsStep(parts[0]);
    }
  }

  /** What is left of an input's spelling: no white space around it, and for some kinds no case and no final dots. */
  function NormalForm(kind: Kind, input: string): string {
    match kind
    case AppNames => ToLower(Trim(input))
    case Domains => ToLower(TrimDots(Trim(input)))
    case LinuxUsers => Trim(input)
    case Usernames => ToLower(Trim(input))
    case Emails => ToLower(Trim(input))
    case DbNames => Trim(input)
    case TenantPaths => Trim(input)
  }

  predicate IsStored(kind: Kind, v: string) {
    match kind
    case AppNames => IsAppName(v)
    case Domains => IsDomain(v)
    case LinuxUsers => IsLinuxUser(v)
    case Usernames => IsUsername(v)
    case Emails => IsEmail(v)
    case DbNames => IsDbName(v)
    case TenantPaths => IsTenantPath(v)
  }

  lemma AppNameAccepts(input: string)
    ensures AppName(input).Ok? <==> IsAppName(ToLower(Trim(input)))
    ensures AppName(input).Ok? ==> AppName(input).value == ToLower(Trim(input))
  {
    if IsAppName(ToLower(Trim(input))) {
      UserCharsAreInk(ToLower(Trim(input)));
      InkIsFixed(ToLower(Trim(input)));
    }
    if AppName(input).Ok? {
      AppNameIs(input);
    }
  }

  lemma UsernameAccepts(input: string)
    ensures Username(input).Ok? <==> IsUsername(ToLower(Trim(input)))
    ensures Username(input).Ok? ==> Username(input).value == ToLower(Trim(input))
  {
    if IsUsername(ToLower(Trim(input))) {
      UserCharsAreInk(ToLower(Trim(input)));
      InkIsFixed(ToLower(Trim(input)));
    }
    if Username(input).Ok? {
      UsernameIs(input);
    }
  }

  lemma LinuxUserAccepts(input: string)
    ensures LinuxUser(input).Ok? <==> IsLinuxUser(Trim(input))
    ensures LinuxUser(input).Ok? ==> LinuxUser(input).value == Trim(input)
  {
    if IsLinuxUser(Trim(input)) {
      UserCharsAreInk(Trim(input));
      InkIsFixed(Trim(input));
    }
    if LinuxUser(input).Ok? {
      LinuxUserIs(input);
    }
  }

  lemma DbNameAccepts(input: string)
    ensures DbName(input).Ok? <==> IsDbName(Trim(input))
    ensures DbName(input).Ok? ==> DbName(input).value == Trim(input)
  {
    if IsDbName(Trim(input)) {
      InkIsFixed(Trim(input));
    }
    if DbName(input).Ok? {
      DbNameIs(input);
    }
  }

  lemma EmailAccepts(input: string)
    ensures Email(input).Ok? <==> IsEmail(ToLower(Trim(input)))
    ensures Email(input).Ok? ==> Email(input).value == ToLower(Trim(input))
  {
    var v := ToLower(Trim(input));
    CheckedEmailIs(v);
    TrimTight(input);
    LowerTight(Trim(input));
    LowerTwice(Trim(input));
  }

  lemma DomainAccepts(input: string)
    ensures Domain(input).Ok? <==> IsDomain(NormalDomain(input))
    ensures Domain(input).Ok? ==> Domain(input).value == NormalDomain(input)
  {
    if Domain(input).Ok? {
      AcceptedIsDomain(input);
    }
    if IsDomain(NormalDomain(input)) {
      IsDomainParses(NormalDomain(input));
      DomainChars(NormalDomain(input));
      NormalAlready(NormalDomain(input));
    }
  }

  lemma TenantPathAccepts(input: string)
    ensures TenantPath(input).Ok? <==> IsTenantPath(Trim(input))
    ensures TenantPath(input).Ok? ==> TenantPath(input).value == Trim(input)
  {
    TrimTight(input);
    TrimTight(Trim(input));
    if Trim(input) != "" {
      PassesExactlyWhen(Trim(input));
    }
  }

  /**
   For every kind of name, an input is accepted exactly when its normal form is one of the
   stored values of that kind, and the normal form is what is stored.
   */
  lemma AcceptedExactlyWhen(kind: Kind, input: string)
    ensures Parse(kind, input).Ok? <==> IsStored(kind, NormalForm(kind, input))
    ensures Parse(kind, input).Ok? ==> Parse(kind, input).value == NormalForm(kind, input)
  {
    match kind
    case AppNames => AppNameAccepts(input);
    case Domains => DomainAccepts(input);
    case LinuxUsers => LinuxUserAccepts(input);
    case Usernames => UsernameAccepts(input);
    case Emails => EmailAccepts(input);
    case DbNames => DbNameAccepts(input);
    case TenantPaths => TenantPathAccepts(input);
  }
}
