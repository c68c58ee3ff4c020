/**
 The audit trail: the prefix filter, which hands its prefix to SQL as an escaped LIKE
 pattern, and the redaction of sensitive values before a row is written.
 */
module Audit {
  import opened Text
  import Names

  // ----------------------------------------------------------------- LIKE

  const ESCAPE: char := '\\'

  /** SQL LIKE takes two characters for equal when they differ only in ASCII case. */
  predicate Same(a: char, b: char) {
    Names.LowerChar(a) == Names.LowerChar(b)
  }

  /** `text LIKE pattern ESCAPE '\'`. */
  predicate Like(pattern: string, text: string)
    decreases |pattern| + |text|
  {
    if pattern == "" then text == ""
    else if pattern[0] == '%' then Like(pattern[1..], text) || (text != "" && Like(pattern, text[1..]))
    else if pattern[0] == ESCAPE then
      |pattern| > 1 && text != "" && Same(pattern[1], text[0]) && Like(pattern[2..], text[1..])
    else text != "" && (pattern[0] == '_' || Same(pattern[0], text[0])) && Like(pattern[1..], text[1..])
  }

  function Replace(s: string, c: char, sub: string): string {
    if s == "" then "" else (if s[0] == c then sub else [s[0]]) + Replace(s[1..], c, sub)
  }

  /** The pattern for the actions that start with a prefix. */
  function Pattern(prefix: string): string {
    Replace(Replace(prefix, '%', [ESCAPE, '%']), '_', [ESCAPE, '_']) + ['%']
  }

  predicate StartsWith(text: string, prefix: string) {
    |prefix| <= |text| && forall i :: 0 <= i < |prefix| ==> Same(prefix[i], text[i])
  }

  // -- how a pattern is built, one character at a time

  function Escaped(c: char): string {
    if c == '%' || c == '_' then [ESCAPE, c] else [c]
  }

  lemma {:induction false} ReplaceJoins(s: string, t: string, c: char, sub: string)
    ensures Replace(s + t, c, sub) == Replace(s, c, sub) + Replace(t, c, sub)
    decreases |s|
  {
    if s == "" {
      assert s + t == t;
    } else {
      assert (s + t)[1..] == s[1..] + t;
      ReplaceJoins(s[1..], t, c, sub);
    }
  }

  lemma ReplaceIn(s: string, c: char, sub: string)
    requires |s| <= 2 && c !in s
    ensures Replace(s, c, sub) == s
  {
    if |s| == 2 {
      assert s[1..][1..] == "";
      assert s == [s[0]] + [s[1]];
    }
  }

  lemma PatternCons(c: char, rest: string)
    ensures Pattern([c] + rest) == Escaped(c) + Pattern(rest)
  {
    assert ([c] + rest)[1..] == rest;
    var first := if c == '%' then [ESCAPE, '%'] else [c];
    var tail := Replace(rest, '%', [ESCAPE, '%']);
    assert Replace([c] + rest, '%', [ESCAPE, '%']) == first + tail;
    ReplaceJoins(first, tail, '_', [ESCAPE, '_']);
    if c == '_' {
      assert Replace([c], '_', [ESCAPE, '_']) == [ESCAPE, '_'] + Replace([c][1..], '_', [ESCAPE, '_']);
    } else {
      ReplaceIn(first, '_', [ESCAPE, '_']);
    }
  }

  lemma LikeCons(c: char, rest: string, text: string)
    requires c != ESCAPE
    ensures Like(Escaped(c) + rest, text) <==> text != "" && Same(c, text[0]) && Like(rest, text[1..])
  {
    var p := Escaped(c) + rest;
    if c == '%' || c == '_' {
      assert p[2..] == rest;
    } else {
      assert p[1..] == rest;
    }
  }

  lemma LikeEscaped(c: char, rest: string, text: string)
    ensures Like([ESCAPE, c] + rest, text) <==> text != "" && Same(c, text[0]) && Like(rest, text[1..])
  {
    assert ([ESCAPE, c] + rest)[2..] == rest;
  }

  lemma {:induction false} PercentMatchesAll(text: string)
    ensures Like("%", text)
    decreases |text|
  {
    assert "%"[1..] == "";
    if text != "" {
      PercentMatchesAll(text[1..]);
    }
  }

  lemma StartsWithCons(c: char, rest: string, text: string)
    ensures StartsWith(text, [c] + rest) <==> text != "" && Same(c, text[0]) && StartsWith(text[1..], rest)
  {
    var p := [c] + rest;
    assert forall i :: 0 <= i < |rest| ==> p[i + 1] == rest[i];
    if StartsWith(text, p) {
      assert Same(p[0], text[0]);
      forall i | 0 <= i < |rest|
        ensures Same(rest[i], text[1..][i])
      {
        assert Same(p[i + 1], text[i + 1]);
      }
    }
    if text != "" && Same(c, text[0]) && StartsWith(text[1..], rest) {
      forall i | 0 <= i < |p|
        ensures Same(p[i], text[i])
      {
        assert i > 0 ==> Same(rest[i - 1], text[1..][i - 1]);
      }
    }
  }

  /** Without a backslash in the prefix, the pattern matches exactly the texts that start with it. */
  lemma {:induction false} PlainPrefixMatches(prefix: string, text: string)
    requires ESCAPE !in prefix
    ensures Like(Pattern(prefix), text) <==> StartsWith(text, prefix)
    decreases |prefix|
  {
    if prefix == "" {
      assert Pattern(prefix) == "%";
      PercentMatchesAll(text);
    } else {
      var c, rest := prefix[0], prefix[1..];
      assert prefix == [c] + rest;
      PatternCons(c, rest);
      LikeCons(c, Pattern(rest), text);
      StartsWithCons(c, rest, text);
      if text != "" {
        PlainPrefixMatches(rest, text[1..]);
      }
    }
  }

  // -- what a backslash in the prefix does

  lemma LikePercent(rest: string, text: string)
    requires Like(rest, text)
    ensures Like(['%'] + rest, text)
  {
    assert (['%'] + rest)[1..] == rest;
  }

  lemma LikeUnderscore(rest: string, c: char, text: string)
    requires Like(rest, text)
    ensures Like(['_'] + rest, [c] + text)
  {
    assert (['_'] + rest)[1..] == rest && ([c] + text)[1..] == text;
  }

  /** The pattern of a backslash and what comes after it. */
  lemma PatternOfEscape(prefix: string)
    requires prefix != "" && prefix[0] == ESCAPE
    ensures |prefix| == 1 ==> Pattern(prefix) == [ESCAPE, '%']
    ensures |prefix| > 1 ==> Pattern(prefix) == [ESCAPE] + (Escaped(prefix[1]) + Pattern(prefix[2..]))
  {
    assert prefix == [ESCAPE] + prefix[1..];
    PatternCons(ESCAPE, prefix[1..]);
    if |prefix| > 1 {
      assert prefix[1..] == [prefix[1]] + prefix[2..];
      PatternCons(prefix[1], prefix[2..]);
    } else {
      assert Pattern("") == "%";
    }
  }

  /** A text the pattern matches that is no longer than the prefix, `rest` matching what comes after the escape. */
  lemma EscapeMatches(prefix: string, rest: string) returns (text: string)
    requires |prefix| > 1 && prefix[0] == ESCAPE && Like(Pattern(prefix[2..]), rest)
    ensures Like(Pattern(prefix), text)
    ensures text == if prefix[1] == '_' then [ESCAPE, ESCAPE] + rest
                    else if prefix[1] == '%' then [ESCAPE] + rest
                    else [prefix[1]] + rest
  {
    PatternOfEscape(prefix);
    text := MatchAfterEscape(prefix[1], Pattern(prefix[2..]), rest);
  }

  lemma MatchAfterEscape(c: char, tail: string, rest: string) returns (text: string)
    requires Like(tail, rest)
    ensures Like([ESCAPE] + (Escaped(c) + tail), text)
    ensures text == if c == '_' then [ESCAPE, ESCAPE] + rest else if c == '%' then [ESCAPE] + rest else [c] + rest
  {
    if c == '_' {
      LikeUnderscore(tail, ESCAPE, rest);
      text := EscapedMatch(ESCAPE, ['_'] + tail, [ESCAPE] + rest);
      assert [ESCAPE] + (Escaped(c) + tail) == [ESCAPE, ESCAPE] + (['_'] + tail);
    } else if c == '%' {
      LikePercent(tail, rest);
      text := EscapedMatch(ESCAPE, ['%'] + tail, rest);
      assert [ESCAPE] + (Escaped(c) + tail) == [ESCAPE, ESCAPE] + (['%'] + tail);
    } else {
      text := EscapedMatch(c, tail, rest);
      assert [ESCAPE] + (Escaped(c) + tail) == [ESCAPE, c] + tail;
    }
  }

  lemma EscapedMatch(c: char, tail: string, rest: string) returns (text: string)
    requires Like(tail, rest)
    ensures text == [c] + rest && Like([ESCAPE, c] + tail, text)
  {
    text := [c] + rest;
    assert text[1..] == rest;
    LikeEscaped(c, tail, text);
  }

  lemma {:induction false} ShortMatch(prefix: string) returns (text: string)
    ensures Like(Pattern(prefix), text) && |text| <= |prefix|
    decreases |prefix|
  {
    if prefix == "" {
      text := "";
      assert Pattern(prefix) == "%";
      PercentMatchesAll(text);
    } else if prefix[0] != ESCAPE {
      var rest := ShortMatch(prefix[1..]);
      text := [prefix[0]] + rest;
      assert prefix == [prefix[0]] + prefix[1..];
      PatternCons(prefix[0], prefix[1..]);
      assert text[1..] == rest;
      LikeCons(prefix[0], Pattern(prefix[1..]), text);
    } else if |prefix| == 1 {
      text := "%";
      PatternOfEscape(prefix);
      LikeEscaped('%', "", text);
      assert [ESCAPE, '%'] + "" == [ESCAPE, '%'];
    } else {
      var rest := ShortMatch(prefix[2..]);
      text := EscapeMatches(prefix, rest);
    }
  }

  /** A prefix that begins with a backslash has a match that does not start with it. */
  lemma LeadingEscapeFails(prefix: string) returns (text: string)
    requires prefix != "" && prefix[0] == ESCAPE
    ensures Like(Pattern(prefix), text) && !StartsWith(text, prefix)
  {
    if |prefix| == 1 {
      text := "%";
      PatternOfEscape(prefix);
      LikeEscaped('%', "", text);
      assert [ESCAPE, '%'] + "" == [ESCAPE, '%'];
      assert !Same(prefix[0], text[0]);
    } else {
      var rest := ShortMatch(prefix[2..]);
      text := EscapeMatches(prefix, rest);
      if prefix[1] == '_' {
        assert !Same(prefix[1], text[1]);
      } else if prefix[1] == '%' {
        assert |text| < |prefix|;
      } else if prefix[1] == ESCAPE {
        assert |text| < |prefix|;
      } else {
        assert !Same(prefix[0], text[0]);
      }
    }
  }

  lemma {:induction false} EscapeFails(prefix: string) returns (text: string)
    requires ESCAPE in prefix
    ensures Like(Pattern(prefix), text) && !StartsWith(text, prefix)
    decreases |prefix|
  {
    if prefix[0] == ESCAPE {
      text := LeadingEscapeFails(prefix);
    } else {
      var c, rest := prefix[0], prefix[1..];
      assert prefix == [c] + rest;
      var tail := EscapeFails(rest);
      text := [c] + tail;
      assert text[1..] == tail;
      PatternCons(c, rest);
      LikeCons(c, Pattern(rest), text);
      StartsWithCons(c, rest, text);
    }
  }

  /**
   The filter finds exactly the actions that start with the prefix, ignoring ASCII case, for
   every action there could be, exactly when the prefix has no backslash: a backslash is not
   escaped in its turn, so it escapes whatever comes after it.
   */
  lemma FilterIsPrefixExactlyWhen(prefix: string)
    ensures (forall text :: Like(Pattern(prefix), text) <==> StartsWith(text, prefix)) <==> ESCAPE !in prefix
  {
    if ESCAPE in prefix {
      var text := EscapeFails(prefix);
    } else {
      forall text
        ensures Like(Pattern(prefix), text) <==> StartsWith(text, prefix)
      {
        PlainPrefixMatches(prefix, text);
      }
    }
  }

  // ----------------------------------------------------------------- redaction

  datatype Json =
    | Null
    | Bool(b: bool)
    | Number(n: string)
    | Str(s: string)
    | Array(items: seq<Json>)
    | Object(entries: seq<Entry>)

  datatype Entry = Entry(key: string, value: Json)

  const REDACTED := "[redacted]"

  const REDACTED_KEYS: seq<string> :=
    ["password", "new_password", "old_password", "pass", "pass_hash", "secret", "token", "api_key",
     "private_key", "totp_secret", "credentials", "creds"]

  predicate Sensitive(key: string) {
    exists i :: 0 <= i < |REDACTED_KEYS| && Contains(Names.ToLower(key), REDACTED_KEYS[i])
  }

  function Redact(v: Json): Json {
    match v
    case Object(entries) => Object(RedactEntries(entries))
    case Array(items) => Array(RedactItems(items))
    case _ => v
  }

  function RedactItems(items: seq<Json>): (r: seq<Json>)
    ensures |r| == |items|
  {
    if items == [] then [] else [Redact(items[0])] + RedactItems(items[1..])
  }

  function RedactEntries(entries: seq<Entry>): (r: seq<Entry>)
    ensures |r| == |entries|
  {
    if entries == [] then []
    else
      [Entry(entries[0].key, if Sensitive(entries[0].key) then Str(REDACTED) else Redact(entries[0].value))]
      + RedactEntries(entries[1..])
  }

  /** Nothing sensitive is left, at any depth. */
  predicate Clean(v: Json) {
    match v
    case Object(entries) => CleanEntries(entries)
    case Array(items) => CleanItems(items)
    case _ => true
  }

  predicate CleanItems(items: seq<Json>) {
    items == [] || (Clean(items[0]) && CleanItems(items[1..]))
  }

  predicate CleanEntries(entries: seq<Entry>) {
    entries == []
    || ((if Sensitive(entries[0].key) then entries[0].value == Str(REDACTED) else Clean(entries[0].value))
        && CleanEntries(entries[1..]))
  }

  /** Redacting leaves nothing sensitive, and changes a value exactly when something sensitive was there. */
  lemma {:induction false} RedactIsClean(v: Json)
    ensures Clean(Redact(v))
    ensures Redact(v) == v <==> Clean(v)
    decreases v
  {
    match v
    case Object(entries) => RedactedEntriesAreClean(entries);
    case Array(items) => RedactedItemsAreClean(items);
    case _ =>
  }

  lemma {:induction false} RedactedItemsAreClean(items: seq<Json>)
    ensures CleanItems(RedactItems(items))
    ensures RedactItems(items) == items <==> CleanItems(items)
    decreases items
  {
    if items != [] {
      RedactIsClean(items[0]);
      RedactedItemsAreClean(items[1..]);
      var r := RedactItems(items);
      assert r[1..] == RedactItems(items[1..]);
      assert items == [items[0]] + items[1..];
      assert r == items ==> r[1..] == items[1..] && r[0] == items[0];
    }
  }

  lemma {:induction false} RedactedEntriesAreClean(entries: seq<Entry>)
    ensures CleanEntries(RedactEntries(entries))
    ensures RedactEntries(entries) == entries <==> CleanEntries(entries)
    decreases entries
  {
    if entries != [] {
      RedactIsClean(entries[0].value);
      RedactedEntriesAreClean(entries[1..]);
      var r := RedactEntries(entries);
      assert r[1..] == RedactEntries(entries[1..]);
      assert entries == [entries[0]] + entries[1..];
      assert r == entries ==> r[1..] == entries[1..] && r[0] == entries[0];
    }
  }

  /** What is found at a path of positions into objects and arrays. */
  function At(v: Json, path: seq<nat>): Option<Json>
    decreases |path|
  {
    if path == [] then Some(v)
    else
      match v
      case Object(entries) => if path[0] < |entries| then At(entries[path[0]].value, path[1..]) else None
      case Array(items) => if path[0] < |items| then At(items[path[0]], path[1..]) else None
      case _ => None
  }

  /** The path goes through a sensitive key. */
  predicate Hidden(v: Json, path: seq<nat>)
    decreases |path|
  {
    path != [] &&
    match v
    case Object(entries) =>
      path[0] < |entries| && (Sensitive(entries[path[0]].key) || Hidden(entries[path[0]].value, path[1..]))
    case Array(items) => path[0] < |items| && Hidden(items[path[0]], path[1..])
    case _ => false
  }

  lemma {:induction false} RedactedItem(items: seq<Json>, i: nat)
    requires i < |items|
    ensures RedactItems(items)[i] == Redact(items[i])
    decreases |items|
  {
    if i > 0 {
      RedactedItem(items[1..], i - 1);
    }
  }

  lemma {:induction false} RedactedEntry(entries: seq<Entry>, i: nat)
    requires i < |entries|
    ensures RedactEntries(entries)[i]
            == Entry(entries[i].key, if Sensitive(entries[i].key) then Str(REDACTED) else Redact(entries[i].value))
    decreases |entries|
  {
    if i > 0 {
      RedactedEntry(entries[1..], i - 1);
    }
  }

  /** Wherever no sensitive key is on the way, the same is found after redacting, redacted itself. */
  lemma {:induction false} RedactKeepsTheRest(v: Json, path: seq<nat>)
    requires !Hidden(v, path)
    ensures At(Redact(v), path) == if At(v, path).Some? then Some(Redact(At(v, path).value)) else None
    decreases |path|
  {
    if path != [] {
      match v
      case Object(entries) =>
        if path[0] < |entries| {
          RedactedEntry(entries, path[0]);
          RedactKeepsTheRest(entries[path[0]].value, path[1..]);
        }
      case Array(items) =>
        if path[0] < |items| {
          RedactedItem(items, path[0]);
          RedactKeepsTheRest(items[path[0]], path[1..]);
        }
      case _ =>
    }
  }

  // -- which keys are sensitive

  lemma ContainsPart(s: string, needle: string, part: string)
    requires Contains(s, needle) && Contains(needle, part)
    ensures Contains(s, part)
  {
    var i, j := Find(s, needle).value, Find(needle, part).value;
    assert needle == s[i..i + |needle|] && part == needle[j..j + |part|];
    assert s[i + j..][..|part|] == s[i + j..i + j + |part|] == part;
    ContainsAt(s, part, i + j);
  }

  lemma HasPart(needle: string, part: string, j: nat)
    requires j + |part| <= |needle| && needle[j..j + |part|] == part
    ensures Contains(needle, part)
  {
    assert needle[j..][..|part|] == part;
    ContainsAt(needle, part, j);
  }

  /** The seven words that matter: every other word in the list contains one of them. */
  predicate SpeaksOfSecrets(lower: string) {
    || Contains(lower, "pass") || Contains(lower, "secret") || Contains(lower, "token")
    || Contains(lower, "api_key") || Contains(lower, "private_key")
    || Contains(lower, "credentials") || Contains(lower, "creds")
  }

  lemma Password()
    ensures Contains("password", "pass")
  {
    HasPart("password", "pass", 0);
  }

  lemma NewPassword()
    ensures Contains("new_password", "pass")
  {
    HasPart("new_password", "pass", 4);
  }

  lemma OldPassword()
    ensures Contains("old_password", "pass")
  {
    HasPart("old_password", "pass", 4);
  }

  lemma PassHash()
    ensures Contains("pass_hash", "pass")
  {
    HasPart("pass_hash", "pass", 0);
  }

  lemma TotpSecret()
    ensures Contains("totp_secret", "secret")
  {
    HasPart("totp_secret", "secret", 5);
  }

  /** The five words that contain a shorter one of the list. */
  lemma LongerWords(i: nat)
    requires i < 5 || i == 9
    ensures Contains(REDACTED_KEYS[i], if i < 5 then "pass" else "secret")
  {
    if i == 0 {
      Password();
    } else if i == 1 {
      NewPassword();
    } else if i == 2 {
      OldPassword();
    } else if i == 3 {
      HasPart("pass", "pass", 0);
    } else if i == 4 {
      PassHash();
    } else {
      TotpSecret();
    }
  }

  lemma ListedWords()
    ensures REDACTED_KEYS[3] == "pass" && REDACTED_KEYS[5] == "secret" && REDACTED_KEYS[6] == "token"
    ensures REDACTED_KEYS[7] == "api_key" && REDACTED_KEYS[8] == "private_key"
    ensures REDACTED_KEYS[10] == "credentials" && REDACTED_KEYS[11] == "creds"
  {
  }

  lemma ListedIsSecret(lower: string, i: nat)
    requires i < |REDACTED_KEYS| && Contains(lower, REDACTED_KEYS[i])
    ensures SpeaksOfSecrets(lower)
  {
    if i < 5 {
      LongerWords(i);
      ContainsPart(lower, REDACTED_KEYS[i], "pass");
    } else if i == 9 {
      LongerWords(i);
      ContainsPart(lower, REDACTED_KEYS[i], "secret");
    }
  }

  /** A key is sensitive exactly when it contains one of seven words, in whatever case. */
  lemma SensitiveExactlyWhen(key: string)
    ensures Sensitive(key) <==> SpeaksOfSecrets(Names.ToLower(key))
  {
    var lower := Names.ToLower(key);
    ListedWords();
    if Sensitive(key) {
      var i :| 0 <= i < |REDACTED_KEYS| && Contains(lower, REDACTED_KEYS[i]);
      ListedIsSecret(lower, i);
    }
  }
}
