/**
 The bootstrap configuration document: its line-by-line reader, and the rewriter that
 changes `panel.listen` in place and nothing else.

 The methods are the loops of the program.  Each is proved equal to a function over the
 document's lines, and the laws of reading and rewriting are lemmas about those functions.
 */
module ConfigDocument {
  import opened Text

  // ----------------------------------------------------------------- the configuration

  datatype PanelTls = SelfSigned | Off

  datatype LogFormat = Json | Plain

  datatype Panel = Panel(
    listen: string, database: string, stateDir: string, cliSocket: string,
    secureCookies: bool, tls: PanelTls)

  datatype Agent = Agent(socket: string, webUser: string, workers: nat)

  datatype Log = Log(level: string, format: LogFormat)

  datatype Config = Config(panel: Panel, agent: Agent, log: Log) {
    function WithListen(listen: string): Config {
      this.(panel := panel.(listen := listen))
    }
  }

  const DEFAULT := Config(
    Panel("0.0.0.0:8088", "/var/lib/unihelm/panel.db", "/var/lib/unihelm/state",
          "/run/unihelm/web.sock", true, SelfSigned),
    Agent("/run/unihelm/agent.sock", "unihelm", 2),
    Log("info", Json))

  datatype DocError =
    | NotAnEntry(line: nat, text: string)
    | BadTls(line: nat, value: string)
    | BadSecureCookies(line: nat, value: string)
    | BadWorkers(line: nat)
    | BadLogFormat(line: nat, value: string)
    | OutsideTables(line: nat, key: string)
    | UnknownKey(line: nat, table: string, key: string)
    | NotAnAddress(text: string)
    | WouldNotParse(cause: DocError)
    | ReadsBackAs(got: string)

  // ----------------------------------------------------------------- one line

  /** How much of a line comes before its comment; quotes hide a `#`. */
  function CommentAt(line: string, inQuotes: bool): (n: nat)
    ensures n <= |line|
    ensures n < |line| ==> line[n] == '#'
  {
    if line == "" then 0
    else if line[0] == '#' && !inQuotes then 0
    else 1 + CommentAt(line[1..], if line[0] == '"' then !inQuotes else inQuotes)
  }

  function StripComment(line: string): string {
    line[..CommentAt(line, false)]
  }

  /** What a line says: no comment, no surrounding white space. */
  function Logical(raw: string): string {
    Trim(StripComment(raw))
  }

  /** The table a `[name]` line opens. */
  function Header(line: string): Option<string> {
    if |line| >= 2 && line[0] == '[' && line[|line| - 1] == ']'
    then Some(Trim(line[1..|line| - 1]))
    else None
  }

  function Unquote(v: string): string {
    if |v| >= 2 && v[0] == '"' && v[|v| - 1] == '"' then v[1..|v| - 1] else v
  }

  const USIZE_MAX: nat := 0xFFFF_FFFF_FFFF_FFFF

  function Decimal(digits: string): nat
    requires All(digits, IsDigit)
  {
    if digits == "" then 0
    else
      var last := |digits| - 1;
      10 * Decimal(digits[..last]) + (digits[last] as int - '0' as int)
  }

  /** A 64-bit unsigned number: an optional `+`, then at least one digit. */
  function ParseUsize(v: string): Option<nat> {
    var digits := if v != "" && v[0] == '+' then v[1..] else v;
    if digits == "" || !All(digits, IsDigit) then None
    else if Decimal(digits) > USIZE_MAX then None
    else Some(Decimal(digits))
  }

  /** The effect of `key = value` under `table`, or why the document is refused. */
  function Assign(cfg: Config, table: string, key: string, value: string, line: nat): Result<Config, DocError> {
    if table == "panel" && key == "listen" then Ok(cfg.WithListen(value))
    else if table == "panel" && key == "database" then Ok(cfg.(panel := cfg.panel.(database := value)))
    else if table == "panel" && key == "state_dir" then Ok(cfg.(panel := cfg.panel.(stateDir := value)))
    else if table == "panel" && key == "cli_socket" then Ok(cfg.(panel := cfg.panel.(cliSocket := value)))
    else if table == "panel" && key == "tls" then
      if value == "self-signed" then Ok(cfg.(panel := cfg.panel.(tls := SelfSigned)))
      else if value == "off" then Ok(cfg.(panel := cfg.panel.(tls := Off)))
      else Err(BadTls(line, value))
    else if table == "panel" && key == "secure_cookies" then
      if value == "true" then Ok(cfg.(panel := cfg.panel.(secureCookies := true)))
      else if value == "false" then Ok(cfg.(panel := cfg.panel.(secureCookies := false)))
      else Err(BadSecureCookies(line, value))
    else if table == "agent" && key == "socket" then Ok(cfg.(agent := cfg.agent.(socket := value)))
    else if table == "agent" && key == "web_user" then Ok(cfg.(agent := cfg.agent.(webUser := value)))
    else if table == "agent" && key == "workers" then
      match ParseUsize(value)
      case Some(n) => Ok(cfg.(agent := cfg.agent.(workers := n)))
      case None => Err(BadWorkers(line))
    else if table == "log" && key == "level" then Ok(cfg.(log := cfg.log.(level := value)))
    else if table == "log" && key == "format" then
      if value == "json" then Ok(cfg.(log := cfg.log.(format := Json)))
      else if value == "text" then Ok(cfg.(log := cfg.log.(format := Plain)))
      else Err(BadLogFormat(line, value))
    else if table == "" then Err(OutsideTables(line, key))
    else Err(UnknownKey(line, table, key))
  }

  /** The table in force after a line. */
  function TableAfter(table: string, raw: string): string {
    match Header(Logical(raw))
    case Some(name) => name
    case None => table
  }

  /** The effect of one line on the configuration read so far. */
  function Effect(cfg: Config, table: string, raw: string, line: nat): Result<Config, DocError> {
    var said := Logical(raw);
    if said == "" || Header(said).Some? then Ok(cfg)
    else
      match SplitOnce(said, '=')
      case None => Err(NotAnEntry(line, said))
      case Some((key, value)) => Assign(cfg, table, Trim(key), Unquote(Trim(value)), line)
  }

  // ----------------------------------------------------------------- reading

  /** Read the lines in order; `line` is the number of the first of them. */
  function Read(ls: seq<string>, line: nat, cfg: Config, table: string): Result<Config, DocError> {
    if ls == [] then Ok(cfg)
    else
      match Effect(cfg, table, ls[0], line)
      case Err(e) => Err(e)
      case Ok(next) => Read(ls[1..], line + 1, next, TableAfter(table, ls[0]))
  }

  function Parsed(text: string): Result<Config, DocError> {
    Read(Lines(text), 1, DEFAULT, "")
  }

  function Quotes(s: string): nat {
    if s == "" then 0 else (if s[0] == '"' then 1 else 0) + Quotes(s[1..])
  }

  /** An even number of quotes comes before this position. */
  predicate OutsideQuotes(line: string, i: nat)
    requires i <= |line|
  {
    Quotes(line[..i]) % 2 == 0
  }

  /** A line is cut at its first `#` outside quotes: every earlier one is inside. */
  predicate CutAt(line: string, n: nat) {
    && n <= |line|
    && (n < |line| ==> line[n] == '#' && OutsideQuotes(line, n))
    && forall k :: 0 <= k < n && line[k] == '#' ==> !OutsideQuotes(line, k)
  }

  lemma QuotesBefore(line: string, k: nat)
    requires 0 < k <= |line|
    ensures Quotes(line[..k]) == (if line[0] == '"' then 1 else 0) + Quotes(line[1..][..k - 1])
  {
    assert line[..k][1..] == line[1..][..k - 1];
  }

  lemma {:induction false} CommentIsCut(line: string, inQuotes: bool)
    ensures var n := CommentAt(line, inQuotes);
            && (n < |line| ==> (OutsideQuotes(line, n) <==> !inQuotes))
            && forall k :: 0 <= k < n && line[k] == '#' ==> (OutsideQuotes(line, k) <==> inQuotes)
    decreases |line|
  {
    if line != "" && !(line[0] == '#' && !inQuotes) {
      var n := CommentAt(line, inQuotes);
      CommentIsCut(line[1..], if line[0] == '"' then !inQuotes else inQuotes);
      QuotesBefore(line, n);
      forall k | 0 <= k < n && line[k] == '#'
        ensures OutsideQuotes(line, k) <==> inQuotes
      {
        if k > 0 {
          QuotesBefore(line, k);
          assert line[1..][k - 1] == '#';
        }
      }
    }
  }

  method StripCommentOf(line: string) returns (r: string)
    ensures r == StripComment(line)
    ensures r <= line && CutAt(line, |r|)
  {
    CommentIsCut(line, false);
    var inQuotes := false;
    var i := 0;
    while i < |line|
      invariant 0 <= i <= |line|
      invariant CommentAt(line, false) == i + CommentAt(line[i..], inQuotes)
    {
      if line[i] == '"' {
        inQuotes := !inQuotes;
      } else if line[i] == '#' && !inQuotes {
        return line[..i];
      }
      assert line[i..][1..] == line[i + 1..];
      i := i + 1;
    }
    assert line[..|line|] == line;
    return line;
  }

  /** One turn of the reading loop: the configuration and the table in force after the line. */
  method ParseLine(cfg: Config, table: string, raw: string, n: nat)
    returns (r: Result<Config, DocError>, next: string)
    ensures r == Effect(cfg, table, raw, n)
    ensures next == TableAfter(table, raw)
  {
    var stripped := StripCommentOf(raw);
    var line := Trim(stripped);
    if line == "" {
      return Ok(cfg), table;
    }
    match Header(line) {
      case Some(name) =>
        return Ok(cfg), name;
      case None =>
        match SplitOnce(line, '=') {
          case None =>
            return Err(NotAnEntry(n, line)), table;
          case Some((key, value)) =>
            r := Assign(cfg, table, Trim(key), Unquote(Trim(value)), n);
            return r, table;
        }
    }
  }

  method Parse(text: string) returns (r: Result<Config, DocError>)
    ensures r == Parsed(text)
  {
    var cfg := DEFAULT;
    var table := "";
    var ls := Lines(text);
    assert ls[0..] == ls;
    for i := 0 to |ls|
      invariant Parsed(text) == Read(ls[i..], i + 1, cfg, table)
    {
      assert ls[i..][0] == ls[i] && ls[i..][1..] == ls[i + 1..];
      var outcome, next := ParseLine(cfg, table, ls[i], i + 1);
      match outcome {
        case Err(e) =>
          return Err(e);
        case Ok(updated) =>
          cfg, table := updated, next;
      }
    }
    return Ok(cfg);
  }

  // ----------------------------------------------------------------- rewriting

  /** The characters an address:port is written with. */
  predicate AddressChar(c: char) {
    IsHexDigit(c) || c == '.' || c == ':' || c == '[' || c == ']' || c == '%'
  }

  ghost predicate AcceptsAddressesOnly(f: string -> bool) {
    forall s :: f(s) ==> All(s, AddressChar)
  }

  /** A recogniser of address:port texts, as the standard library provides one. */
  type AddressSyntax = f: string -> bool | AcceptsAddressesOnly(f)
    witness (s: string) => All(s, AddressChar)

  function ListenLine(listen: string): string {
    "listen = \"" + listen + "\""
  }

  /** Does this line set `listen` in the table `panel`? */
  predicate SetsListen(table: string, raw: string) {
    var said := Logical(raw);
    && Header(said).None?
    && table == "panel"
    && match SplitOnce(said, '=') {
         case None => false
         case Some((key, _)) => Trim(key) == "listen"
       }
  }

  function Indent(raw: string): string {
    raw[..|raw| - |TrimStart(raw)|]
  }

  /** Every `listen` line of the table `panel` replaced, each under its own indentation. */
  function Relisted(ls: seq<string>, table: string, line: string): (rs: seq<string>)
    ensures |rs| == |ls|
  {
    if ls == [] then []
    else
      [if SetsListen(table, ls[0]) then Indent(ls[0]) + line else ls[0]]
      + Relisted(ls[1..], TableAfter(table, ls[0]), line)
  }

  predicate NamesListen(ls: seq<string>, table: string) {
    ls != [] && (SetsListen(table, ls[0]) || NamesListen(ls[1..], TableAfter(table, ls[0])))
  }

  predicate OpensPanel(raw: string) {
    Header(Logical(raw)) == Some("panel")
  }

  /** The position just after the first `[panel]` line. */
  function AfterPanel(ls: seq<string>): (r: Option<nat>)
    ensures r.Some? ==> 0 < r.value <= |ls|
  {
    if ls == [] then None
    else if OpensPanel(ls[0]) then Some(1)
    else
      match AfterPanel(ls[1..])
      case None => None
      case Some(n) => Some(n + 1)
  }

  /** The rewritten document, line by line. */
  function Rewritten(ls: seq<string>, line: string): seq<string> {
    if NamesListen(ls, "") then Relisted(ls, "", line)
    else
      match AfterPanel(ls)
      case Some(n) => ls[..n] + [line] + ls[n..]
      case None => ls + ["", "[panel]", line]
  }

  function RewrittenText(text: string, listen: string): string {
    JoinLines(Rewritten(Lines(text), ListenLine(listen)))
  }

  /** The rewriter: refuse what is not an address, rewrite, and read the result back. */
  function Rewrite(text: string, listen: string, isAddress: AddressSyntax): Result<string, DocError> {
    if !isAddress(listen) then Err(NotAnAddress(listen))
    else
      var out := RewrittenText(text, listen);
      match Parsed(out)
      case Err(e) => Err(WouldNotParse(e))
      case Ok(cfg) => if cfg.panel.listen != listen then Err(ReadsBackAs(cfg.panel.listen)) else Ok(out)
  }

  /** One turn of the pass: the table in force afterwards, what is written, and whether it was replaced. */
  method RelistLine(table: string, raw: string, replacement: string)
    returns (next: string, emitted: string, hit: bool)
    ensures next == TableAfter(table, raw)
    ensures hit == SetsListen(table, raw)
    ensures emitted == if hit then Indent(raw) + replacement else raw
  {
    next, emitted, hit := table, raw, false;
    var stripped := StripCommentOf(raw);
    var line := Trim(stripped);
    match Header(line) {
      case Some(name) =>
        next := name;
      case None =>
        if table == "panel" {
          match SplitOnce(line, '=') {
            case None =>
            case Some((key, _)) =>
              if Trim(key) == "listen" {
                emitted := raw[..|raw| - |TrimStart(raw)|] + replacement;
                hit := true;
              }
          }
        }
    }
  }

  /** The pass has dealt with the first `i` lines: what is left to do completes what is done. */
  ghost predicate Scanned(ls: seq<string>, line: string, i: nat, table: string,
                          done: seq<string>, replaced: bool, afterPanel: Option<nat>)
  {
    && i <= |ls|
    && done == Relisted(ls, "", line)[..i]
    && Relisted(ls[i..], table, line) == Relisted(ls, "", line)[i..]
    && NamesListen(ls, "") == (replaced || NamesListen(ls[i..], table))
    && AfterPanel(ls) == Shifted(afterPanel, i, AfterPanel(ls[i..]))
  }

  lemma ScanLine(ls: seq<string>, line: string, i: nat, table: string,
                 done: seq<string>, replaced: bool, afterPanel: Option<nat>)
    requires Scanned(ls, line, i, table, done, replaced, afterPanel) && i < |ls|
    ensures var hit := SetsListen(table, ls[i]);
            Scanned(ls, line, i + 1, TableAfter(table, ls[i]),
                    done + [if hit then Indent(ls[i]) + line else ls[i]],
                    replaced || hit,
                    if !hit && OpensPanel(ls[i]) && afterPanel == None then Some(i + 1) else afterPanel)
  {
    assert ls[i..][0] == ls[i] && ls[i..][1..] == ls[i + 1..];
    RelistedStep(ls[i..], table, line);
    NextOf(Relisted(ls, "", line), i, Relisted(ls[i..], table, line));
    NamesListenStep(ls[i..], table);
    AfterPanelStep(ls[i..]);
    ListenOpensNothing(ls[i], table);
    ShiftedStep(afterPanel, i, OpensPanel(ls[i]), AfterPanel(ls[i + 1..]));
  }

  lemma ShiftedStep(found: Option<nat>, i: nat, here: bool, rest: Option<nat>)
    ensures Shifted(found, i, if here then Some(1) else Shifted(None, 1, rest))
         == Shifted(if here && found == None then Some(i + 1) else found, i + 1, rest)
  {
  }

  lemma NextOf(all: seq<string>, i: nat, rest: seq<string>)
    requires i < |all| && rest == all[i..]
    ensures rest[0] == all[i] && rest[1..] == all[i + 1..]
    ensures all[..i] + [rest[0]] == all[..i + 1]
  {
  }

  lemma RelistedStep(ls: seq<string>, table: string, line: string)
    requires ls != []
    ensures var rs := Relisted(ls, table, line);
            && rs[0] == (if SetsListen(table, ls[0]) then Indent(ls[0]) + line else ls[0])
            && rs[1..] == Relisted(ls[1..], TableAfter(table, ls[0]), line)
  {
  }

  lemma NamesListenStep(ls: seq<string>, table: string)
    requires ls != []
    ensures NamesListen(ls, table) == (SetsListen(table, ls[0]) || NamesListen(ls[1..], TableAfter(table, ls[0])))
  {
  }

  lemma AfterPanelStep(ls: seq<string>)
    requires ls != []
    ensures AfterPanel(ls) == if OpensPanel(ls[0]) then Some(1) else Shifted(None, 1, AfterPanel(ls[1..]))
  {
  }

  lemma ListenOpensNothing(raw: string, table: string)
    ensures SetsListen(table, raw) ==> !OpensPanel(raw)
  {
  }

  /** One pass over the lines: the text with its `listen` lines replaced, and what was seen on the way. */
  method Relist(ls: seq<string>, replacement: string)
    returns (out: string, replaced: bool, afterPanel: Option<nat>)
    ensures out == JoinLines(Relisted(ls, "", replacement))
    ensures replaced == NamesListen(ls, "")
    ensures afterPanel == AfterPanel(ls)
  {
    out, replaced, afterPanel := "", false, None;
    var table := "";
    ghost var done: seq<string> := [];
    assert ls[0..] == ls;
    for i := 0 to |ls|
      invariant out == JoinLines(done)
      invariant Scanned(ls, replacement, i, table, done, replaced, afterPanel)
    {
      ScanLine(ls, replacement, i, table, done, replaced, afterPanel);
      var emitted, hit;
      table, emitted, hit := RelistLine(table, ls[i], replacement);
      if hit {
        replaced := true;
      } else if OpensPanel(ls[i]) && afterPanel == None {
        afterPanel := Some(i + 1);
      }
      ExtendJoin(done, emitted);
      out := out + emitted + "\n";
      done := done + [emitted];
    }
    assert done == Relisted(ls, "", replacement);
  }

  /** What a search over all lines found, given what it found in the first `i` and in the rest. */
  function Shifted(found: Option<nat>, i: nat, rest: Option<nat>): Option<nat> {
    match found
    case Some(n) => Some(n)
    case None =>
      match rest
      case Some(m) => Some(i + m)
      case None => None
  }

  /** A second pass, for a `[panel]` table that never named `listen`. */
  method InsertAt(ls: seq<string>, n: nat, replacement: string) returns (rebuilt: string)
    requires 0 < n <= |ls|
    ensures rebuilt == JoinLines(ls[..n] + [replacement] + ls[n..])
  {
    rebuilt := "";
    var j := 0;
    ghost var done: seq<string> := [];
    while j < |ls|
      invariant 0 <= j <= |ls|
      invariant rebuilt == JoinLines(done)
      invariant done == if j < n then ls[..j] else ls[..n] + [replacement] + ls[n..j]
    {
      ExtendJoin(done, ls[j]);
      rebuilt := rebuilt + ls[j] + "\n";
      done := done + [ls[j]];
      if j + 1 == n {
        ExtendJoin(done, replacement);
        rebuilt := rebuilt + replacement + "\n";
        done := done + [replacement];
      }
      j := j + 1;
    }
    assert done == ls[..n] + [replacement] + ls[n..];
  }

  method SetPanelListen(text: string, listen: string, isAddress: AddressSyntax)
    returns (r: Result<string, DocError>)
    ensures r == Rewrite(text, listen, isAddress)
  {
    if !isAddress(listen) {
      return Err(NotAnAddress(listen));
    }
    var replacement := ListenLine(listen);
    var ls := Lines(text);
    var out, replaced, afterPanel := Relist(ls, replacement);
    if !replaced {
      NothingToRelist(ls, "", replacement);
      match afterPanel {
        case Some(n) =>
          out := InsertAt(ls, n, replacement);
        case None =>
          JoinEnds(ls);
          if out != "" && out[|out| - 1] != '\n' {
            assert false;
          }
          JoinPanelTable(ls, replacement);
          out := out + "\n[panel]\n";
          out := out + replacement + "\n";
      }
    }
    var parsed := Parse(out);
    match parsed {
      case Err(e) =>
        return Err(WouldNotParse(e));
      case Ok(cfg) =>
        if cfg.panel.listen != listen {
          return Err(ReadsBackAs(cfg.panel.listen));
        }
        return Ok(out);
    }
  }

  lemma {:induction false} NothingToRelist(ls: seq<string>, table: string, line: string)
    requires !NamesListen(ls, table)
    ensures Relisted(ls, table, line) == ls
  {
    if ls != [] {
      NothingToRelist(ls[1..], TableAfter(table, ls[0]), line);
    }
  }

  lemma JoinPanelTable(ls: seq<string>, line: string)
    ensures JoinLines(ls + ["", "[panel]", line]) == JoinLines(ls) + "\n[panel]\n" + line + "\n"
  {
    ExtendJoin(ls, "");
    ExtendJoin(ls + [""], "[panel]");
    ExtendJoin(ls + [""] + ["[panel]"], line);
    assert ls + [""] + ["[panel]"] + [line] == ls + ["", "[panel]", line];
    var t := JoinLines(ls);
    assert t + "" + "\n" + "[panel]" + "\n" == t + "\n[panel]\n";
  }

  lemma ExtendJoin(ls: seq<string>, l: string)
    ensures JoinLines(ls + [l]) == JoinLines(ls) + l + "\n"
  {
    JoinAppend(ls, [l]);
    assert JoinLines([l]) == l + "\n" + JoinLines([l][1..]);
    assert JoinLines(ls) + (l + "\n") == JoinLines(ls) + l + "\n";
  }

  lemma {:induction false} JoinEnds(ls: seq<string>)
    ensures var t := JoinLines(ls); t != "" ==> t[|t| - 1] == '\n'
  {
    if ls != [] {
      JoinEnds(ls[1..]);
    }
  }
}
