/**
 What a configuration document means, key by key: which line decides each setting, which
 documents are refused and at which line, that layout does not matter, and that a printed
 configuration reads back as itself.
 */
module ConfigKeys {
  import opened Text
  import opened ConfigDocument
  import opened ConfigDocumentLaws

  // ----------------------------------------------------------------- the settings

  datatype Field =
    | Listen | Database | StateDir | CliSocket | Tls | SecureCookies
    | Socket | WebUser | Workers
    | Level | Format

  function TableName(f: Field): string {
    match f
    case Listen => "panel"
    case Database => "panel"
    case StateDir => "panel"
    case CliSocket => "panel"
    case Tls => "panel"
    case SecureCookies => "panel"
    case Socket => "agent"
    case WebUser => "agent"
    case Workers => "agent"
    case Level => "log"
    case Format => "log"
  }

  function KeyName(f: Field): string {
    match f
    case Listen => "listen"
    case Database => "database"
    case StateDir => "state_dir"
    case CliSocket => "cli_socket"
    case Tls => "tls"
    case SecureCookies => "secure_cookies"
    case Socket => "socket"
    case WebUser => "web_user"
    case Workers => "workers"
    case Level => "level"
    case Format => "format"
  }

  function TlsWord(tls: PanelTls): string {
    if tls.SelfSigned? then "self-signed" else "off"
  }

  function FormatWord(format: LogFormat): string {
    if format.Json? then "json" else "text"
  }

  function Word(b: bool): string {
    if b then "true" else "false"
  }

  /** The setting is what this value says. */
  predicate Says(cfg: Config, f: Field, value: string) {
    match f
    case Listen => cfg.panel.listen == value
    case Database => cfg.panel.database == value
    case StateDir => cfg.panel.stateDir == value
    case CliSocket => cfg.panel.cliSocket == value
    case Tls => TlsWord(cfg.panel.tls) == value
    case SecureCookies => Word(cfg.panel.secureCookies) == value
    case Socket => cfg.agent.socket == value
    case WebUser => cfg.agent.webUser == value
    case Workers => ParseUsize(value) == Some(cfg.agent.workers)
    case Level => cfg.log.level == value
    case Format => FormatWord(cfg.log.format) == value
  }

  predicate SameSetting(a: Config, b: Config, f: Field) {
    match f
    case Listen => a.panel.listen == b.panel.listen
    case Database => a.panel.database == b.panel.database
    case StateDir => a.panel.stateDir == b.panel.stateDir
    case CliSocket => a.panel.cliSocket == b.panel.cliSocket
    case Tls => a.panel.tls == b.panel.tls
    case SecureCookies => a.panel.secureCookies == b.panel.secureCookies
    case Socket => a.agent.socket == b.agent.socket
    case WebUser => a.agent.webUser == b.agent.webUser
    case Workers => a.agent.workers == b.agent.workers
    case Level => a.log.level == b.log.level
    case Format => a.log.format == b.log.format
  }

  /** The values a setting can be given. */
  predicate Acceptable(f: Field, value: string) {
    match f
    case Tls => value == "self-signed" || value == "off"
    case SecureCookies => value == "true" || value == "false"
    case Workers => ParseUsize(value).Some?
    case Format => value == "json" || value == "text"
    case _ => true
  }

  predicate Names(table: string, key: string, f: Field) {
    table == TableName(f) && key == KeyName(f)
  }

  predicate Known(table: string, key: string, value: string) {
    exists f :: Names(table, key, f) && Acceptable(f, value)
  }

  function LineOf(e: DocError): nat {
    match e
    case NotAnEntry(line, _) => line
    case BadTls(line, _) => line
    case BadSecureCookies(line, _) => line
    case BadWorkers(line) => line
    case BadLogFormat(line, _) => line
    case OutsideTables(line, _) => line
    case UnknownKey(line, _, _) => line
    case _ => 0
  }

  // ----------------------------------------------------------------- one entry

  /** The assignment gives the setting this value, if it can have it, and touches no other. */
  predicate Assigned(cfg: Config, f: Field, value: string, line: nat, r: Result<Config, DocError>) {
    if Acceptable(f, value)
    then r.Ok? && Says(r.value, f, value) && forall g :: g != f ==> SameSetting(r.value, cfg, g)
    else r.Err? && LineOf(r.error) == line
  }

  lemma TablesDiffer()
    ensures "panel" != "agent" && "panel" != "log" && "agent" != "log"
    ensures "panel" != "" && "agent" != "" && "log" != ""
  {
    assert "panel"[0] == 'p' && "agent"[0] == 'a' && "log"[0] == 'l';
  }

  lemma AssignPanel(cfg: Config, f: Field, value: string, line: nat)
    requires f.Listen? || f.Database? || f.StateDir? || f.CliSocket? || f.Tls? || f.SecureCookies?
    ensures Assigned(cfg, f, value, line, Assign(cfg, "panel", KeyName(f), value, line))
  {
    TablesDiffer();
  }

  lemma AssignAgent(cfg: Config, f: Field, value: string, line: nat)
    requires f.Socket? || f.WebUser? || f.Workers?
    ensures Assigned(cfg, f, value, line, Assign(cfg, "agent", KeyName(f), value, line))
  {
    TablesDiffer();
  }

  lemma AssignLog(cfg: Config, f: Field, value: string, line: nat)
    requires f.Level? || f.Format?
    ensures Assigned(cfg, f, value, line, Assign(cfg, "log", KeyName(f), value, line))
  {
    TablesDiffer();
  }

  lemma AssignKnown(cfg: Config, f: Field, value: string, line: nat)
    ensures Assigned(cfg, f, value, line, Assign(cfg, TableName(f), KeyName(f), value, line))
  {
    if TableName(f) == "panel" {
      TablesDiffer();
      AssignPanel(cfg, f, value, line);
    } else if TableName(f) == "agent" {
      TablesDiffer();
      AssignAgent(cfg, f, value, line);
    } else {
      AssignLog(cfg, f, value, line);
    }
  }

  lemma AssignUnknown(cfg: Config, table: string, key: string, value: string, line: nat)
    requires forall f :: !Names(table, key, f)
    ensures var r := Assign(cfg, table, key, value, line); r.Err? && LineOf(r.error) == line
  {
    assert !Names(table, key, Listen) && !Names(table, key, Database) && !Names(table, key, StateDir);
    assert !Names(table, key, CliSocket) && !Names(table, key, Tls) && !Names(table, key, SecureCookies);
    assert !Names(table, key, Socket) && !Names(table, key, WebUser) && !Names(table, key, Workers);
    assert !Names(table, key, Level) && !Names(table, key, Format);
  }

  // ----------------------------------------------------------------- one line

  /** What a line says. */
  datatype Saying = Silent | Opens(table: string) | Sets(key: string, value: string) | Nonsense

  function Meaning(raw: string): Saying {
    var said := Logical(raw);
    if said == "" then Silent
    else if Header(said).Some? then Opens(Header(said).value)
    else
      match SplitOnce(said, '=')
      case None => Nonsense
      case Some((key, value)) => Sets(Trim(key), Unquote(Trim(value)))
  }

  lemma EffectFollowsMeaning(cfg: Config, table: string, raw: string, n: nat)
    ensures var m := Meaning(raw);
            && TableAfter(table, raw) == (if m.Opens? then m.table else table)
            && (m.Silent? || m.Opens? ==> Effect(cfg, table, raw, n) == Ok(cfg))
            && (m.Nonsense? ==> Effect(cfg, table, raw, n).Err? && LineOf(Effect(cfg, table, raw, n).error) == n)
            && (m.Sets? ==> Effect(cfg, table, raw, n) == Assign(cfg, table, m.key, m.value, n))
  {
    assert Header("").None?;
  }

  /** The line sets this setting. */
  predicate SetsField(table: string, raw: string, f: Field) {
    var m := Meaning(raw);
    m.Sets? && Names(table, m.key, f)
  }

  /** The line is one that a document may have under this table. */
  predicate Good(table: string, raw: string) {
    match Meaning(raw)
    case Sets(key, value) => Known(table, key, value)
    case Nonsense => false
    case _ => true
  }

  lemma OneField(table: string, key: string, f: Field, g: Field)
    requires Names(table, key, f) && Names(table, key, g)
    ensures f == g
  {
    TablesDiffer();
  }

  lemma LineEffect(cfg: Config, table: string, raw: string, n: nat)
    ensures var r := Effect(cfg, table, raw, n);
            && (r.Ok? <==> Good(table, raw))
            && (r.Err? ==> LineOf(r.error) == n)
            && (r.Ok? ==> forall f :: if SetsField(table, raw, f) then Says(r.value, f, Meaning(raw).value)
                                      else SameSetting(r.value, cfg, f))
  {
    EffectFollowsMeaning(cfg, table, raw, n);
    var m := Meaning(raw);
    if m.Sets? {
      if f :| Names(table, m.key, f) {
        AssignKnown(cfg, f, m.value, n);
        forall g
          ensures Names(table, m.key, g) <==> f == g
        {
          if Names(table, m.key, g) {
            OneField(table, m.key, f, g);
          }
        }
      } else {
        AssignUnknown(cfg, table, m.key, m.value, n);
      }
    }
  }

  // ----------------------------------------------------------------- whole documents

  /** The first line that a document may not have where it stands. */
  function FirstBad(ls: seq<string>, table: string): Option<nat> {
    if ls == [] then None
    else if !Good(table, ls[0]) then Some(0)
    else
      match FirstBad(ls[1..], TableAfter(table, ls[0]))
      case None => None
      case Some(i) => Some(i + 1)
  }

  /** What the last line that sets this setting says. */
  function LastValue(ls: seq<string>, table: string, f: Field): Option<string> {
    if ls == [] then None
    else
      var rest := LastValue(ls[1..], TableAfter(table, ls[0]), f);
      if rest.Some? then rest
      else if SetsField(table, ls[0], f) then Some(Meaning(ls[0]).value)
      else None
  }

  lemma SameSays(a: Config, b: Config, f: Field, value: string)
    requires SameSetting(a, b, f)
    ensures Says(a, f, value) <==> Says(b, f, value)
  {
  }

  lemma SameChains(a: Config, b: Config, c: Config, f: Field)
    requires SameSetting(a, b, f) && SameSetting(b, c, f)
    ensures SameSetting(a, c, f)
  {
  }

  /** The setting is what the last line says of it, and otherwise as it was. */
  predicate Decided(cfg: Config, before: Config, last: Option<string>, f: Field) {
    match last
    case Some(value) => Says(cfg, f, value)
    case None => SameSetting(cfg, before, f)
  }

  lemma DecidedLater(c: Config, next: Config, cfg: Config, table: string, raw: string, rest: Option<string>, f: Field)
    requires Decided(c, next, rest, f)
    requires if SetsField(table, raw, f) then Says(next, f, Meaning(raw).value) else SameSetting(next, cfg, f)
    ensures Decided(c, cfg, if rest.Some? then rest else if SetsField(table, raw, f) then Some(Meaning(raw).value) else None, f)
  {
    if rest.None? {
      if SetsField(table, raw, f) {
        SameSays(c, next, f, Meaning(raw).value);
      } else {
        SameChains(c, next, cfg, f);
      }
    }
  }

  lemma {:induction false} ReadMeans(ls: seq<string>, n: nat, cfg: Config, table: string)
    ensures var r, bad := Read(ls, n, cfg, table), FirstBad(ls, table);
            && (r.Ok? <==> bad.None?)
            && (r.Err? ==> LineOf(r.error) == n + bad.value)
            && (r.Ok? ==> forall f :: Decided(r.value, cfg, LastValue(ls, table, f), f))
    decreases |ls|
  {
    if ls == [] {
      forall f
        ensures Decided(cfg, cfg, None, f)
      {
      }
    } else {
      ReadCons(ls, n, cfg, table);
      LineEffect(cfg, table, ls[0], n);
      var first := Effect(cfg, table, ls[0], n);
      if first.Ok? {
        ReadMeans(ls[1..], n + 1, first.value, TableAfter(table, ls[0]));
        var r := Read(ls, n, cfg, table);
        if r.Ok? {
          forall f
            ensures Decided(r.value, cfg, LastValue(ls, table, f), f)
          {
            DecidedLater(r.value, first.value, cfg, table, ls[0], LastValue(ls[1..], TableAfter(table, ls[0]), f), f);
          }
        }
      }
    }
  }

  /**
   What a document means.  It parses exactly when every line is blank, a table header, or an
   entry with a known key of its table and a value that key can have; if not, the error names
   the first line that is none of these.  If it does, each setting is what the last line with
   its key under its table says, or the default.
   */
  lemma ParsedMeans(text: string)
    ensures var r, bad := Parsed(text), FirstBad(Lines(text), "");
            && (r.Ok? <==> bad.None?)
            && (r.Err? ==> LineOf(r.error) == 1 + bad.value)
            && (r.Ok? ==> forall f :: Decided(r.value, DEFAULT, LastValue(Lines(text), "", f), f))
  {
    ReadMeans(Lines(text), 1, DEFAULT, "");
  }

  // ----------------------------------------------------------------- layout does not matter

  /** What the table names and the keys are written with. */
  predicate NameChar(c: char) { IsLower(c) || IsDigit(c) || c == '_' }

  predicate Plain(s: string) {
    s != "" && forall i :: 0 <= i < |s| ==> NameChar(s[i])
  }

  /** Whether a quoted text is still open after `s`. */
  function StillQuoted(s: string, inQuotes: bool): bool {
    if s == "" then inQuotes else StillQuoted(s[1..], if s[0] == '"' then !inQuotes else inQuotes)
  }

  lemma {:induction false} CommentFurther(a: string, b: string, inQuotes: bool)
    requires CommentAt(a, inQuotes) == |a|
    ensures CommentAt(a + b, inQuotes) == |a| + CommentAt(b, StillQuoted(a, inQuotes))
    decreases |a|
  {
    if a == "" {
      assert a + b == b;
    } else {
      assert (a + b)[0] == a[0] && (a + b)[1..] == a[1..] + b;
      CommentFurther(a[1..], b, if a[0] == '"' then !inQuotes else inQuotes);
    }
  }

  lemma {:induction false} Unquoted(s: string, inQuotes: bool)
    requires '"' !in s && (inQuotes || '#' !in s)
    ensures CommentAt(s, inQuotes) == |s| && StillQuoted(s, inQuotes) == inQuotes
    decreases |s|
  {
    if s != "" {
      Unquoted(s[1..], inQuotes);
    }
  }

  lemma {:induction false} TrimDropsTails(s: string, w: string)
    requires Blank(w)
    ensures Trim(s + w) == Trim(s)
    decreases |w|
  {
    if w == "" {
      assert s + w == s;
    } else {
      assert s + w == (s + [w[0]]) + w[1..];
      TrimDropsTails(s + [w[0]], w[1..]);
      TrimDropsTail(s, w[0]);
    }
  }

  lemma TrimAround(w: string, s: string, v: string)
    requires Blank(w) && Blank(v) && Tight(s)
    ensures Trim(w + s + v) == s
  {
    TrimDropsTails(w + s, v);
    TrimDropsLead(w, s);
    TrimTight(s);
  }

  predicate IsComment(s: string) {
    s == "" || s[0] == '#'
  }

  lemma PlainTight(s: string)
    requires Plain(s)
    ensures Tight(s) && '#' !in s && '"' !in s && '=' !in s && '[' !in s && ']' !in s
  {
    assert NameChar(s[0]) && NameChar(s[|s| - 1]);
  }

  lemma BlankIsPlain(w: string)
    requires Blank(w)
    ensures '#' !in w && '"' !in w && '=' !in w
  {
  }

  /** A comment is no part of what a line says. */
  lemma CommentSaysNothing(said: string, comment: string)
    requires CommentAt(said, false) == |said| && !StillQuoted(said, false) && IsComment(comment)
    ensures Logical(said + comment) == Trim(said)
  {
    CommentFurther(said, comment, false);
    assert (said + comment)[..|said|] == said;
  }

  function Quoted(value: string): string {
    ['"'] + value + ['"']
  }

  lemma QuotedIsWhole(value: string)
    requires '"' !in value
    ensures CommentAt(Quoted(value), false) == |Quoted(value)| && !StillQuoted(Quoted(value), false)
    ensures Tight(Quoted(value)) && Unquote(Quoted(value)) == value
  {
    var rest := value + ['"'];
    assert Quoted(value)[1..] == rest;
    Unquoted(value, true);
    CommentFurther(value, ['"'], true);
    StillFurther(value, ['"'], true);
    assert Quoted(value)[1..|Quoted(value)| - 1] == value;
  }

  lemma {:induction false} StillFurther(a: string, b: string, inQuotes: bool)
    ensures StillQuoted(a + b, inQuotes) == StillQuoted(b, StillQuoted(a, inQuotes))
    decreases |a|
  {
    if a == "" {
      assert a + b == b;
    } else {
      assert (a + b)[0] == a[0] && (a + b)[1..] == a[1..] + b;
      StillFurther(a[1..], b, if a[0] == '"' then !inQuotes else inQuotes);
    }
  }

  lemma WholeJoins(a: string, b: string)
    requires CommentAt(a, false) == |a| && !StillQuoted(a, false)
    requires CommentAt(b, false) == |b| && !StillQuoted(b, false)
    ensures CommentAt(a + b, false) == |a + b| && !StillQuoted(a + b, false)
  {
    CommentFurther(a, b, false);
    StillFurther(a, b, false);
  }

  /** An entry without its surroundings. */
  function Entry(key: string, w: string, v: string, value: string): string {
    (key + w) + ['='] + (v + Quoted(value))
  }

  lemma EntryTight(key: string, w: string, v: string, value: string)
    requires Plain(key)
    ensures var e := Entry(key, w, v, value); e != "" && Tight(e) && Header(e).None?
  {
    PlainTight(key);
    var e := Entry(key, w, v, value);
    assert e[0] == key[0] && e[|e| - 1] == '"';
    assert NameChar(e[0]);
  }

  lemma EntrySplits(key: string, w: string, v: string, value: string)
    requires Plain(key) && Blank(w) && Blank(v) && '"' !in value
    ensures SplitOnce(Entry(key, w, v, value), '=') == Some((key + w, v + Quoted(value)))
    ensures Trim(key + w) == key && Unquote(Trim(v + Quoted(value))) == value
  {
    PlainTight(key);
    BlankIsPlain(w);
    SplitOnceAt(key + w, '=', v + Quoted(value));
    TrimDropsTails(key, w);
    TrimTight(key);
    QuotedIsWhole(value);
    TrimDropsLead(v, Quoted(value));
    TrimTight(Quoted(value));
  }

  lemma EntryIsWhole(key: string, w: string, v: string, value: string)
    requires Plain(key) && Blank(w) && Blank(v) && '"' !in value
    ensures var e := Entry(key, w, v, value); CommentAt(e, false) == |e| && !StillQuoted(e, false)
  {
    PlainTight(key);
    BlankIsPlain(w);
    BlankIsPlain(v);
    var head := (key + w) + ['='] + v;
    Unquoted(head, false);
    QuotedIsWhole(value);
    WholeJoins(head, Quoted(value));
    assert head + Quoted(value) == Entry(key, w, v, value);
  }

  lemma SurroundedIs(indent: string, said: string, tail: string, comment: string)
    requires Blank(indent) && Blank(tail) && IsComment(comment) && Tight(said)
    requires CommentAt(said, false) == |said| && !StillQuoted(said, false)
    ensures Logical(indent + said + tail + comment) == said
  {
    BlankIsPlain(indent);
    BlankIsPlain(tail);
    Unquoted(indent, false);
    Unquoted(tail, false);
    WholeJoins(indent, said);
    WholeJoins(indent + said, tail);
    CommentSaysNothing(indent + said + tail, comment);
    TrimAround(indent, said, tail);
  }

  /** White space around an entry and its parts, and a comment after it, do not matter. */
  lemma EntryLayoutDoesNotMatter(indent: string, key: string, w: string, v: string, value: string, tail: string, comment: string)
    requires Plain(key) && '"' !in value
    requires Blank(indent) && Blank(w) && Blank(v) && Blank(tail) && IsComment(comment)
    ensures Meaning(indent + Entry(key, w, v, value) + tail + comment) == Sets(key, value)
  {
    EntryTight(key, w, v, value);
    EntryIsWhole(key, w, v, value);
    SurroundedIs(indent, Entry(key, w, v, value), tail, comment);
    EntrySplits(key, w, v, value);
  }

  /** The same of a table header. */
  lemma HeaderLayoutDoesNotMatter(indent: string, w: string, name: string, v: string, tail: string, comment: string)
    requires Plain(name) && Blank(indent) && Blank(w) && Blank(v) && Blank(tail) && IsComment(comment)
    ensures Meaning(indent + (['['] + (w + name + v) + [']']) + tail + comment) == Opens(name)
  {
    PlainTight(name);
    BlankIsPlain(w);
    BlankIsPlain(v);
    var said := ['['] + (w + name + v) + [']'];
    assert said[0] == '[' && said[|said| - 1] == ']';
    Unquoted(said, false);
    SurroundedIs(indent, said, tail, comment);
    assert said[1..|said| - 1] == w + name + v;
    TrimAround(w, name, v);
  }

  /** A line of white space, or of nothing but a comment, says nothing. */
  lemma CommentLineIsSilent(indent: string, comment: string)
    requires Blank(indent) && IsComment(comment)
    ensures Meaning(indent + comment) == Silent
  {
    assert Tight("");
    SurroundedIs(indent, "", "", comment);
    assert indent + "" + "" + comment == indent + comment;
  }

  // ----------------------------------------------------------------- printing and reading back

  function PrintNumber(n: nat): string {
    if n < 10 then [('0' as int + n) as char] else PrintNumber(n / 10) + [('0' as int + n % 10) as char]
  }

  lemma {:induction false} NumberReadsBack(n: nat)
    ensures var s := PrintNumber(n);
            s != "" && All(s, IsDigit) && Decimal(s) == n && s[0] != '+'
    decreases n
  {
    var s := PrintNumber(n);
    if n < 10 {
      assert s[..0] == "";
    } else {
      NumberReadsBack(n / 10);
      assert s[..|s| - 1] == PrintNumber(n / 10);
    }
  }

  predicate Digits(s: string) {
    s != "" && forall i :: 0 <= i < |s| ==> '0' <= s[i] <= '9'
  }

  /** The number a run of digits spells: each digit times its power of ten. */
  function Value(s: string): int {
    if s == "" then 0 else (s[0] as int - '0' as int) * Pow10(|s| - 1) + Value(s[1..])
  }

  function Pow10(n: nat): nat {
    if n == 0 then 1 else 10 * Pow10(n - 1)
  }

  lemma TenTimes(digit: int, power: nat)
    ensures digit * (10 * power) == 10 * (digit * power)
  {
  }

  lemma {:induction false} ValueOfLast(s: string, c: char)
    ensures Value(s + [c]) == 10 * Value(s) + (c as int - '0' as int)
  {
    if s == "" {
      assert (s + [c])[1..] == "";
    } else {
      assert (s + [c])[1..] == s[1..] + [c];
      ValueOfLast(s[1..], c);
      TenTimes(s[0] as int - '0' as int, Pow10(|s| - 1));
    }
  }

  lemma {:induction false} DecimalIsValue(s: string)
    requires All(s, IsDigit)
    ensures Decimal(s) == Value(s)
  {
    if s != "" {
      var last := |s| - 1;
      DecimalIsValue(s[..last]);
      ValueOfLast(s[..last], s[last]);
      assert s == s[..last] + [s[last]];
    }
  }

  /**
   A number of workers is a run of digits, with or without a plus before it, that spells at
   most 2^64 - 1, and it is the number they spell.
   */
  lemma NumberExactlyWhen(v: string, n: nat)
    ensures ParseUsize(v) == Some(n)
       <==> exists digits :: Digits(digits) && (v == digits || v == "+" + digits)
                             && Value(digits) == n <= 18_446_744_073_709_551_615
  {
    var digits := if v != "" && v[0] == '+' then v[1..] else v;
    assert v == digits || v == "+" + digits;
    if ParseUsize(v) == Some(n) {
      DecimalIsValue(digits);
      assert Digits(digits);
    }
    forall other | Digits(other) && (v == other || v == "+" + other)
      ensures other == digits && Decimal(other) == Value(other)
    {
      assert v == "+" + other ==> v[1..] == other;
      DecimalIsValue(other);
    }
  }

  /** What a printed document says of a setting. */
  function Shown(cfg: Config, f: Field): string {
    match f
    case Listen => cfg.panel.listen
    case Database => cfg.panel.database
    case StateDir => cfg.panel.stateDir
    case CliSocket => cfg.panel.cliSocket
    case Tls => TlsWord(cfg.panel.tls)
    case SecureCookies => Word(cfg.panel.secureCookies)
    case Socket => cfg.agent.socket
    case WebUser => cfg.agent.webUser
    case Workers => PrintNumber(cfg.agent.workers)
    case Level => cfg.log.level
    case Format => FormatWord(cfg.log.format)
  }

  function Entries(cfg: Config, fs: seq<Field>): seq<string> {
    if fs == [] then [] else [Entry(KeyName(fs[0]), " ", " ", Shown(cfg, fs[0]))] + Entries(cfg, fs[1..])
  }

  function Section(cfg: Config, table: string, fs: seq<Field>): seq<string> {
    ["[" + table + "]"] + Entries(cfg, fs)
  }

  const PANEL := [Listen, Database, StateDir, CliSocket, Tls, SecureCookies]
  const AGENT := [Socket, WebUser, Workers]
  const LOG := [Level, Format]

  function PrintedLines(cfg: Config): seq<string> {
    Section(cfg, "panel", PANEL) + Section(cfg, "agent", AGENT) + Section(cfg, "log", LOG)
  }

  /** A configuration as a document: every setting, under its table. */
  function Printed(cfg: Config): string {
    JoinLines(PrintedLines(cfg))
  }

  predicate Writable(s: string) {
    '"' !in s && '\n' !in s
  }

  /** No quote and no line end in any setting, and the number is a 64-bit one. */
  predicate Printable(cfg: Config) {
    (forall f :: Writable(Shown(cfg, f))) && cfg.agent.workers <= USIZE_MAX
  }

  lemma KeysArePlain(f: Field)
    ensures Plain(KeyName(f))
  {
  }

  lemma ShownIsAcceptable(cfg: Config, f: Field)
    requires cfg.agent.workers <= USIZE_MAX
    ensures Acceptable(f, Shown(cfg, f)) && Says(cfg, f, Shown(cfg, f))
  {
    if f.Workers? {
      NumberReadsBack(cfg.agent.workers);
    }
  }

  lemma NothingAround(e: string)
    ensures "" + e + "" + "" == e
  {
  }

  lemma BareEntryMeans(key: string, value: string)
    requires Plain(key) && '"' !in value
    ensures Meaning(Entry(key, " ", " ", value)) == Sets(key, value)
  {
    var e := Entry(key, " ", " ", value);
    EntryLayoutDoesNotMatter("", key, " ", " ", value, "", "");
    NothingAround(e);
  }

  lemma EntryMeans(cfg: Config, f: Field)
    requires Printable(cfg)
    ensures Meaning(Entry(KeyName(f), " ", " ", Shown(cfg, f))) == Sets(KeyName(f), Shown(cfg, f))
  {
    KeysArePlain(f);
    assert Writable(Shown(cfg, f));
    BareEntryMeans(KeyName(f), Shown(cfg, f));
  }

  /** A printed entry sets its setting to what is shown, and no other. */
  lemma PrintedEntryReads(cfg: Config, f: Field, before: Config, n: nat)
    requires Printable(cfg)
    ensures var e := Entry(KeyName(f), " ", " ", Shown(cfg, f));
            var r := Effect(before, TableName(f), e, n);
            && r.Ok? && Says(r.value, f, Shown(cfg, f))
            && (forall g :: g != f ==> SameSetting(r.value, before, g))
            && TableAfter(TableName(f), e) == TableName(f)
  {
    var e := Entry(KeyName(f), " ", " ", Shown(cfg, f));
    EntryMeans(cfg, f);
    EffectFollowsMeaning(before, TableName(f), e, n);
    ShownIsAcceptable(cfg, f);
    AssignKnown(before, f, Shown(cfg, f), n);
  }

  /** These settings are as in `cfg`, the others as they were. */
  predicate TakenOver(c: Config, cfg: Config, before: Config, fs: seq<Field>) {
    forall f :: if f in fs then Says(c, f, Shown(cfg, f)) else SameSetting(c, before, f)
  }

  lemma TakenOverLater(c: Config, next: Config, cfg: Config, before: Config, fs: seq<Field>)
    requires fs != [] && TakenOver(c, cfg, next, fs[1..])
    requires Says(next, fs[0], Shown(cfg, fs[0])) && forall g :: g != fs[0] ==> SameSetting(next, before, g)
    ensures TakenOver(c, cfg, before, fs)
  {
    forall f
      ensures if f in fs then Says(c, f, Shown(cfg, f)) else SameSetting(c, before, f)
    {
      assert f in fs <==> f == fs[0] || f in fs[1..];
      if f !in fs[1..] {
        if f == fs[0] {
          SameSays(c, next, f, Shown(cfg, f));
        } else {
          SameChains(c, next, before, f);
        }
      }
    }
  }

  predicate Under(fs: seq<Field>, table: string) {
    forall i :: 0 <= i < |fs| ==> TableName(fs[i]) == table
  }

  lemma {:induction false} EntriesRead(cfg: Config, fs: seq<Field>, before: Config, n: nat, table: string)
    requires Printable(cfg) && Under(fs, table)
    ensures var r := Read(Entries(cfg, fs), n, before, table); r.Ok? && TakenOver(r.value, cfg, before, fs)
    ensures ConfigDocumentLaws.TableOf(Entries(cfg, fs), table) == table
    decreases |fs|
  {
    if fs != [] {
      var ls := Entries(cfg, fs);
      assert ls[1..] == Entries(cfg, fs[1..]);
      PrintedEntryReads(cfg, fs[0], before, n);
      ReadCons(ls, n, before, table);
      var next := Effect(before, table, ls[0], n).value;
      EntriesRead(cfg, fs[1..], next, n + 1, table);
      TakenOverLater(Read(ls, n, before, table).value, next, cfg, before, fs);
    }
  }

  lemma SectionRead(cfg: Config, fs: seq<Field>, before: Config, n: nat, was: string, table: string) returns (c: Config)
    requires Printable(cfg) && Under(fs, table) && Plain(table)
    ensures Read(Section(cfg, table, fs), n, before, was) == Ok(c) && TakenOver(c, cfg, before, fs)
  {
    var ls := Section(cfg, table, fs);
    PlainTight(table);
    HeaderLine(table);
    assert ls[0] == "[" + table + "]" && ls[1..] == Entries(cfg, fs);
    ReadCons(ls, n, before, was);
    EntriesRead(cfg, fs, before, n + 1, table);
    c := Read(ls, n, before, was).value;
  }

  lemma TakenOverTwice(c: Config, next: Config, cfg: Config, before: Config, fs: seq<Field>, gs: seq<Field>)
    requires TakenOver(next, cfg, before, fs) && TakenOver(c, cfg, next, gs)
    ensures TakenOver(c, cfg, before, fs + gs)
  {
    forall f
      ensures if f in fs + gs then Says(c, f, Shown(cfg, f)) else SameSetting(c, before, f)
    {
      if f !in gs {
        if f in fs {
          SameSays(c, next, f, Shown(cfg, f));
        } else {
          SameChains(c, next, before, f);
        }
      }
    }
  }

  lemma ReadsOn(a: seq<string>, b: seq<string>, n: nat, before: Config, next: Config, c: Config, was: string)
    requires Read(a, n, before, was) == Ok(next)
    requires Read(b, n + |a|, next, ConfigDocumentLaws.TableOf(a, was)) == Ok(c)
    ensures Read(a + b, n, before, was) == Ok(c)
  {
    ReadAppend(a, b, n, before, was);
  }

  lemma EveryFieldIsPrinted(f: Field)
    ensures f in PANEL + AGENT + LOG
  {
    assert Listen == PANEL[0] && Database == PANEL[1] && StateDir == PANEL[2];
    assert CliSocket == PANEL[3] && Tls == PANEL[4] && SecureCookies == PANEL[5];
    assert Socket == AGENT[0] && WebUser == AGENT[1] && Workers == AGENT[2];
    assert Level == LOG[0] && Format == LOG[1];
  }

  /** A configuration is determined by what it says. */
  lemma SameWords(a: Config, cfg: Config)
    requires cfg.agent.workers <= USIZE_MAX && forall f :: Says(a, f, Shown(cfg, f))
    ensures a == cfg
  {
    assert Says(a, Listen, Shown(cfg, Listen)) && Says(a, Database, Shown(cfg, Database));
    assert Says(a, StateDir, Shown(cfg, StateDir)) && Says(a, CliSocket, Shown(cfg, CliSocket));
    assert Says(a, Tls, Shown(cfg, Tls)) && Says(a, SecureCookies, Shown(cfg, SecureCookies));
    assert Says(a, Socket, Shown(cfg, Socket)) && Says(a, WebUser, Shown(cfg, WebUser));
    assert Says(a, Workers, Shown(cfg, Workers)) && Says(a, Level, Shown(cfg, Level));
    assert Says(a, Format, Shown(cfg, Format));
    NumberReadsBack(cfg.agent.workers);
    WordsDiffer();
  }

  lemma WordsDiffer()
    ensures TlsWord(SelfSigned) != TlsWord(Off) && FormatWord(Json) != FormatWord(ConfigDocument.Plain)
    ensures Word(true) != Word(false)
  {
    assert "json"[0] == 'j' && "text"[0] == 't';
  }

  lemma AllTakenOver(c: Config, cfg: Config)
    requires Printable(cfg) && TakenOver(c, cfg, DEFAULT, PANEL + AGENT + LOG)
    ensures c == cfg
  {
    forall f
      ensures Says(c, f, Shown(cfg, f))
    {
      EveryFieldIsPrinted(f);
    }
    SameWords(c, cfg);
  }

  lemma TableNamesArePlain()
    ensures Plain("panel") && Plain("agent") && Plain("log")
  {
  }

  /** These lines read well from `before`, and take over these settings. */
  predicate TakesOver(cfg: Config, ls: seq<string>, before: Config, c: Config, fs: seq<Field>) {
    Read(ls, 1, before, "") == Ok(c) && TakenOver(c, cfg, before, fs)
  }

  /** One more section. */
  lemma AddSection(cfg: Config, ls: seq<string>, before: Config, next: Config, fs: seq<Field>,
                   section: seq<string>, c: Config, gs: seq<Field>)
    requires TakesOver(cfg, ls, before, next, fs)
    requires Read(section, 1 + |ls|, next, ConfigDocumentLaws.TableOf(ls, "")) == Ok(c) && TakenOver(c, cfg, next, gs)
    ensures TakesOver(cfg, ls + section, before, c, fs + gs)
  {
    ReadsOn(ls, section, 1, before, next, c, "");
    TakenOverTwice(c, next, cfg, before, fs, gs);
  }

  lemma FurtherSection(cfg: Config, ls: seq<string>, before: Config, next: Config, fs: seq<Field>, table: string, gs: seq<Field>)
    returns (c: Config)
    requires Printable(cfg) && Under(gs, table) && Plain(table)
    requires TakesOver(cfg, ls, before, next, fs)
    ensures TakesOver(cfg, ls + Section(cfg, table, gs), before, c, fs + gs)
  {
    var section := Section(cfg, table, gs);
    c := SectionRead(cfg, gs, next, 1 + |ls|, ConfigDocumentLaws.TableOf(ls, ""), table);
    AddSection(cfg, ls, before, next, fs, section, c, gs);
  }

  lemma NothingTakenOver(cfg: Config, before: Config)
    ensures TakesOver(cfg, [], before, before, [])
  {
  }

  /** Three sections, one after the other. */
  lemma SectionsRead(cfg: Config, before: Config, fs: seq<Field>, t: string, gs: seq<Field>, u: string, hs: seq<Field>, v: string)
    returns (c: Config)
    requires Printable(cfg) && Under(fs, t) && Under(gs, u) && Under(hs, v) && Plain(t) && Plain(u) && Plain(v)
    ensures TakesOver(cfg, [] + Section(cfg, t, fs) + Section(cfg, u, gs) + Section(cfg, v, hs), before, c, [] + fs + gs + hs)
  {
    NothingTakenOver(cfg, before);
    var c1 := FurtherSection(cfg, [], before, before, [], t, fs);
    var c2 := FurtherSection(cfg, [] + Section(cfg, t, fs), before, c1, [] + fs, u, gs);
    c := FurtherSection(cfg, [] + Section(cfg, t, fs) + Section(cfg, u, gs), before, c2, [] + fs + gs, v, hs);
  }

  lemma FieldsUnderTheirTables()
    ensures Under(PANEL, "panel") && Under(AGENT, "agent") && Under(LOG, "log")
  {
  }

  lemma PrintedLinesRead(cfg: Config)
    requires Printable(cfg)
    ensures Read(PrintedLines(cfg), 1, DEFAULT, "") == Ok(cfg)
  {
    TableNamesArePlain();
    FieldsUnderTheirTables();
    var c := SectionsRead(cfg, DEFAULT, PANEL, "panel", AGENT, "agent", LOG, "log");
    assert [] + Section(cfg, "panel", PANEL) == Section(cfg, "panel", PANEL) && [] + PANEL == PANEL;
    AllTakenOver(c, cfg);
  }

  // -- the lines of a printed document

  /** One line, and no carriage return at its end. */
  predicate Solid(l: string) {
    '\n' !in l && l != "" && l[|l| - 1] != '\r'
  }

  lemma EntrySolid(cfg: Config, f: Field)
    requires Printable(cfg)
    ensures Solid(Entry(KeyName(f), " ", " ", Shown(cfg, f)))
  {
    KeysArePlain(f);
    assert Writable(Shown(cfg, f));
    var e := Entry(KeyName(f), " ", " ", Shown(cfg, f));
    assert e[|e| - 1] == '"';
    assert forall i :: 0 <= i < |KeyName(f)| ==> NameChar(KeyName(f)[i]);
  }

  lemma {:induction false} EntriesSolid(cfg: Config, fs: seq<Field>)
    requires Printable(cfg)
    ensures forall l :: l in Entries(cfg, fs) ==> Solid(l)
    decreases |fs|
  {
    if fs != [] {
      EntrySolid(cfg, fs[0]);
      EntriesSolid(cfg, fs[1..]);
    }
  }

  lemma SectionSolid(cfg: Config, table: string, fs: seq<Field>)
    requires Printable(cfg) && Plain(table)
    ensures forall l :: l in Section(cfg, table, fs) ==> Solid(l)
  {
    EntriesSolid(cfg, fs);
    var h := "[" + table + "]";
    assert forall i :: 0 <= i < |table| ==> NameChar(table[i]);
    assert h[|h| - 1] == ']';
    assert Solid(h);
  }

  lemma {:induction false} SolidLines(ls: seq<string>)
    requires forall l :: l in ls ==> Solid(l)
    ensures StripCrs(ls) == ls
    decreases |ls|
  {
    if ls != [] {
      assert ls[0] in ls;
      SolidLines(ls[1..]);
    }
  }

  /**
   Reading undoes printing: a configuration printed as a document parses to itself, setting by
   setting, for every configuration without quotes and line ends in its texts.
   */
  lemma PrintedReadsBack(cfg: Config)
    requires Printable(cfg)
    ensures Parsed(Printed(cfg)) == Ok(cfg)
  {
    TableNamesArePlain();
    SectionSolid(cfg, "panel", PANEL);
    SectionSolid(cfg, "agent", AGENT);
    SectionSolid(cfg, "log", LOG);
    var ls := PrintedLines(cfg);
    assert forall l :: l in ls ==> Solid(l);
    SolidLines(ls);
    LinesOfJoin(ls);
    PrintedLinesRead(cfg);
  }
}
