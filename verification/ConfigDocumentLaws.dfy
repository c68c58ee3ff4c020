/**
 What rewriting `panel.listen` promises: the document means what it meant except for that
 one setting, its other lines are all still there in order, and the last rewrite wins.
 */
module ConfigDocumentLaws {
  import opened Text
  import opened ConfigDocument

  // ----------------------------------------------------------------- one line

  lemma {:induction false} CommentAtTail(line: string, c: char, inQuotes: bool)
    requires c != '#'
    ensures CommentAt(line + [c], inQuotes)
         == var n := CommentAt(line, inQuotes); if n < |line| then n else n + 1
  {
    var whole := line + [c];
    if line == "" {
      assert whole[1..] == "";
    } else {
      assert whole[0] == line[0] && whole[1..] == line[1..] + [c];
      CommentAtTail(line[1..], c, if line[0] == '"' then !inQuotes else inQuotes);
    }
  }

  /** A carriage return at the end of a line says nothing. */
  lemma LogicalDropsCr(raw: string)
    ensures Logical(StripCr(raw)) == Logical(raw)
  {
    if raw != "" && raw[|raw| - 1] == '\r' {
      var line := raw[..|raw| - 1];
      assert raw == line + ['\r'];
      CommentAtTail(line, '\r', false);
      var n := CommentAt(line, false);
      if n < |line| {
        assert raw[..n] == line[..n];
      } else {
        assert line[..n] == line && raw[..n + 1] == raw;
        TrimDropsTail(line, '\r');
      }
    }
  }

  lemma {:induction false} NoHash(line: string, inQuotes: bool)
    requires '#' !in line
    ensures CommentAt(line, inQuotes) == |line|
  {
    if line != "" {
      NoHash(line[1..], if line[0] == '"' then !inQuotes else inQuotes);
    }
  }

  /** The line says `listen = listen`, whatever table it stands in. */
  predicate SaysListen(raw: string, listen: string) {
    var said := Logical(raw);
    && said != ""
    && Header(said).None?
    && match SplitOnce(said, '=') {
         case None => false
         case Some((key, value)) => Trim(key) == "listen" && Unquote(Trim(value)) == listen
       }
  }

  lemma AddressTight(listen: string)
    requires All(listen, AddressChar)
    ensures Trim(" \"" + listen + "\"") == "\"" + listen + "\""
  {
    var quoted := "\"" + listen + "\"";
    assert " \"" + listen + "\"" == " " + quoted;
    TrimDropsLead(" ", quoted);
    TrimTight(quoted);
  }

  lemma KeyTrims()
    ensures Trim("listen ") == "listen"
  {
    TrimTight("listen");
    TrimDropsTail("listen", ' ');
    assert "listen" + [' '] == "listen ";
  }

  lemma ListenLineTight(listen: string)
    ensures Tight(ListenLine(listen)) && Header(ListenLine(listen)).None?
  {
    var line := ListenLine(listen);
    assert line[0] == 'l' && line[|line| - 1] == '"';
  }

  lemma ListenLineSplits(listen: string)
    requires All(listen, AddressChar)
    ensures SplitOnce(ListenLine(listen), '=') == Some(("listen ", " \"" + listen + "\""))
  {
    SplitOnceAt("listen ", '=', " \"" + listen + "\"");
    assert ListenLine(listen) == "listen " + ['='] + (" \"" + listen + "\"");
  }

  lemma ListenLineLogical(indent: string, listen: string)
    requires Blank(indent) && All(listen, AddressChar)
    ensures Logical(indent + ListenLine(listen)) == ListenLine(listen)
  {
    var line := ListenLine(listen);
    NoHash(indent + line, false);
    assert (indent + line)[..|indent + line|] == indent + line;
    TrimDropsLead(indent, line);
    ListenLineTight(listen);
    TrimTight(line);
  }

  /** What the rewriter writes reads back as the address it was given. */
  lemma ListenLineReadsBack(indent: string, listen: string)
    requires Blank(indent) && All(listen, AddressChar)
    ensures SaysListen(indent + ListenLine(listen), listen)
  {
    ListenLineLogical(indent, listen);
    ListenLineTight(listen);
    ListenLineSplits(listen);
    KeyTrims();
    AddressTight(listen);
    var quoted := "\"" + listen + "\"";
    assert quoted[1..|quoted| - 1] == listen;
  }

  lemma IndentBlank(raw: string)
    ensures Blank(Indent(raw))
  {
    TrimStartIs(raw);
  }

  lemma {:induction false} TrimStartLead(w: string, s: string)
    requires Blank(w) && s != "" && !IsWhitespace(s[0])
    ensures TrimStart(w + s) == s
  {
    if w == "" {
      assert w + s == s;
    } else {
      assert (w + s)[1..] == w[1..] + s && (w + s)[0] == w[0];
      TrimStartLead(w[1..], s);
    }
  }

  lemma IndentKept(indent: string, listen: string)
    requires Blank(indent)
    ensures Indent(indent + ListenLine(listen)) == indent
  {
    var line := ListenLine(listen);
    assert line[0] == 'l';
    TrimStartLead(indent, line);
    assert (indent + line)[..|indent|] == indent;
  }

  // ----------------------------------------------------------------- one line's effect

  /** The second reading ends as the first does, with `listen` in place of its address. */
  predicate SameBut(r: Result<Config, DocError>, s: Result<Config, DocError>, listen: string) {
    r.Ok? == s.Ok? && (r.Ok? ==> s.value == r.value.WithListen(listen))
  }

  lemma AssignIgnoresListen(cfg: Config, x: string, table: string, key: string, value: string, n: nat, m: nat)
    requires !(table == "panel" && key == "listen")
    ensures SameBut(Assign(cfg, table, key, value, n), Assign(cfg.WithListen(x), table, key, value, m), x)
  {
  }

  lemma EffectIgnoresListen(cfg: Config, x: string, table: string, raw: string, n: nat, m: nat)
    requires !SetsListen(table, raw)
    ensures SameBut(Effect(cfg, table, raw, n), Effect(cfg.WithListen(x), table, raw, m), x)
  {
    var said := Logical(raw);
    if said != "" && Header(said).None? {
      match SplitOnce(said, '=')
      case None =>
      case Some((key, value)) =>
        AssignIgnoresListen(cfg, x, table, Trim(key), Unquote(Trim(value)), n, m);
    }
  }

  lemma EffectSetsListen(cfg: Config, table: string, raw: string, n: nat)
    requires SetsListen(table, raw)
    ensures exists v :: Effect(cfg, table, raw, n) == Ok(cfg.WithListen(v))
    ensures TableAfter(table, raw) == table
  {
    var said := Logical(raw);
    SaysSomething(table, raw);
    var value := Unquote(Trim(SplitOnce(said, '=').value.1));
    assert Effect(cfg, table, raw, n) == Ok(cfg.WithListen(value));
  }

  lemma EffectOfListen(cfg: Config, raw: string, listen: string, n: nat)
    requires SaysListen(raw, listen)
    ensures Effect(cfg, "panel", raw, n) == Ok(cfg.WithListen(listen))
    ensures SetsListen("panel", raw)
    ensures forall t :: TableAfter(t, raw) == t
  {
  }

  lemma {:induction false} ReadDropsCrs(ls: seq<string>, n: nat, cfg: Config, table: string)
    ensures Read(StripCrs(ls), n, cfg, table) == Read(ls, n, cfg, table)
  {
    if ls != [] {
      var rs := StripCrs(ls);
      LogicalDropsCr(ls[0]);
      assert rs[0] == StripCr(ls[0]) && rs[1..] == StripCrs(ls[1..]);
      SameSaying(cfg, table, rs[0], ls[0], n);
      match Effect(cfg, table, ls[0], n)
      case Err(_) =>
      case Ok(next) =>
        ReadDropsCrs(ls[1..], n + 1, next, TableAfter(table, ls[0]));
    }
  }

  lemma SameSaying(cfg: Config, table: string, a: string, b: string, n: nat)
    requires Logical(a) == Logical(b)
    ensures Effect(cfg, table, a, n) == Effect(cfg, table, b, n)
    ensures TableAfter(table, a) == TableAfter(table, b)
    ensures SetsListen(table, a) == SetsListen(table, b)
  {
  }

  // ----------------------------------------------------------------- all the lines

  /** Replacing every `listen` line changes the listen address and no other outcome. */
  lemma {:induction false} ReadRelisted(ls: seq<string>, n: nat, m: nat, cfg: Config, x: string, table: string, listen: string)
    requires All(listen, AddressChar)
    ensures SameBut(Read(ls, n, cfg, table),
                    Read(Relisted(ls, table, ListenLine(listen)), m, cfg.WithListen(x), table),
                    if NamesListen(ls, table) then listen else x)
  {
    if ls != [] {
      var line := ListenLine(listen);
      RelistedStep(ls, table, line);
      NamesListenStep(ls, table);
      var next := TableAfter(table, ls[0]);
      if SetsListen(table, ls[0]) {
        EffectSetsListen(cfg, table, ls[0], n);
        var v :| Effect(cfg, table, ls[0], n) == Ok(cfg.WithListen(v));
        IndentBlank(ls[0]);
        ListenLineReadsBack(Indent(ls[0]), listen);
        EffectOfListen(cfg.WithListen(x), Indent(ls[0]) + line, listen, m);
        assert cfg.WithListen(x).WithListen(listen) == cfg.WithListen(v).WithListen(listen);
        ReadRelisted(ls[1..], n + 1, m + 1, cfg.WithListen(v), listen, next, listen);
      } else {
        EffectIgnoresListen(cfg, x, table, ls[0], n, m);
        match Effect(cfg, table, ls[0], n)
        case Err(_) =>
        case Ok(c) =>
          ReadRelisted(ls[1..], n + 1, m + 1, c, x, next, listen);
      }
    }
  }

  function TableOf(ls: seq<string>, table: string): string {
    if ls == [] then table else TableOf(ls[1..], TableAfter(table, ls[0]))
  }

  /** Carry on reading `rest` after a first reading, if that went well. */
  function Then(first: Result<Config, DocError>, rest: seq<string>, n: nat, table: string): Result<Config, DocError> {
    match first
    case Err(e) => Err(e)
    case Ok(c) => Read(rest, n, c, table)
  }

  lemma ReadCons(ls: seq<string>, n: nat, cfg: Config, table: string)
    requires ls != []
    ensures Read(ls, n, cfg, table) == Then(Effect(cfg, table, ls[0], n), ls[1..], n + 1, TableAfter(table, ls[0]))
  {
  }

  lemma {:induction false} ReadAppend(a: seq<string>, b: seq<string>, n: nat, cfg: Config, table: string)
    ensures Read(a + b, n, cfg, table) == Then(Read(a, n, cfg, table), b, n + |a|, TableOf(a, table))
    decreases |a|, 0
  {
    if a == [] {
      assert a + b == b;
    } else {
      assert (a + b)[0] == a[0] && (a + b)[1..] == a[1..] + b;
      ReadCons(a + b, n, cfg, table);
      ReadCons(a, n, cfg, table);
      ThenAppend(Effect(cfg, table, a[0], n), a[1..], b, n + 1, TableAfter(table, a[0]));
      TableOfCons(a, table);
    }
  }

  lemma {:induction false} ThenAppend(first: Result<Config, DocError>, a: seq<string>, b: seq<string>, n: nat, table: string)
    ensures Then(first, a + b, n, table) == Then(Then(first, a, n, table), b, n + |a|, TableOf(a, table))
    decreases |a|, 1
  {
    if first.Ok? {
      ReadAppend(a, b, n, first.value, table);
    }
  }

  lemma TableOfCons(ls: seq<string>, table: string)
    requires ls != []
    ensures TableOf(ls, table) == TableOf(ls[1..], TableAfter(table, ls[0]))
  {
  }

  lemma {:induction false} NamesAppend(a: seq<string>, b: seq<string>, table: string)
    ensures NamesListen(a + b, table) == (NamesListen(a, table) || NamesListen(b, TableOf(a, table)))
  {
    if a == [] {
      assert a + b == b;
    } else {
      assert (a + b)[0] == a[0] && (a + b)[1..] == a[1..] + b;
      NamesListenStep(a + b, table);
      NamesListenStep(a, table);
      NamesAppend(a[1..], b, TableAfter(table, a[0]));
    }
  }

  lemma {:induction false} RelistedAppend(a: seq<string>, b: seq<string>, table: string, line: string)
    ensures Relisted(a + b, table, line) == Relisted(a, table, line) + Relisted(b, TableOf(a, table), line)
  {
    if a == [] {
      assert a + b == b;
    } else {
      var head := if SetsListen(table, a[0]) then Indent(a[0]) + line else a[0];
      var next := TableAfter(table, a[0]);
      assert (a + b)[0] == a[0] && (a + b)[1..] == a[1..] + b;
      RelistedCons(a + b, table, line);
      RelistedCons(a, table, line);
      RelistedAppend(a[1..], b, next, line);
      Associative([head], Relisted(a[1..], next, line), Relisted(b, TableOf(a, table), line));
    }
  }

  lemma RelistedCons(ls: seq<string>, table: string, line: string)
    requires ls != []
    ensures Relisted(ls, table, line)
         == [if SetsListen(table, ls[0]) then Indent(ls[0]) + line else ls[0]]
            + Relisted(ls[1..], TableAfter(table, ls[0]), line)
  {
  }

  lemma Associative(a: seq<string>, b: seq<string>, c: seq<string>)
    ensures a + (b + c) == a + b + c
  {
  }

  lemma {:induction false} AfterPanelIsPanel(ls: seq<string>, table: string)
    requires AfterPanel(ls).Some?
    ensures TableOf(ls[..AfterPanel(ls).value], table) == "panel"
  {
    var n := AfterPanel(ls).value;
    assert ls[..n][0] == ls[0] && ls[..n][1..] == ls[1..][..n - 1];
    if OpensPanel(ls[0]) {
      assert ls[..1][1..] == [];
    } else {
      AfterPanelIsPanel(ls[1..], TableAfter(table, ls[0]));
    }
  }

  lemma {:induction false} ListenNeedsPanel(ls: seq<string>, table: string)
    requires AfterPanel(ls).None? && table != "panel"
    ensures !NamesListen(ls, table) && TableOf(ls, table) != "panel"
  {
    if ls != [] {
      ListenNeedsPanel(ls[1..], TableAfter(table, ls[0]));
    }
  }

  lemma BlankLine()
    ensures Logical("") == "" && Header("").None?
  {
  }

  lemma HeaderLine(name: string)
    requires '#' !in name && Tight(name)
    ensures Logical("[" + name + "]") == "[" + name + "]"
    ensures Header("[" + name + "]") == Some(name)
  {
    var line := "[" + name + "]";
    NoHash(line, false);
    assert line[0] == '[' && line[|line| - 1] == ']';
    TrimTight(line);
    assert line[..|line|] == line;
    assert line[1..|line| - 1] == name;
    TrimTight(name);
  }

  lemma PanelHeader()
    ensures Logical("[panel]") == "[panel]" && Header("[panel]") == Some("panel")
  {
    HeaderLine("panel");
    assert "[" + "panel" + "]" == "[panel]";
  }

  /** The three shapes a rewritten document takes, by the table each part is read under. */
  lemma RewrittenShape(ls: seq<string>, line: string)
    ensures var rs := Rewritten(ls, line);
            || (NamesListen(ls, "") && rs == Relisted(ls, "", line))
            || (exists a, b ::
                  && ls == a + b && rs == a + [line] + b && TableOf(a, "") == "panel"
                  && !NamesListen(a, "") && !NamesListen(b, "panel"))
            || (!NamesListen(ls, "") && rs == ls + ["", "[panel]"] + [line]
                && TableOf(ls + ["", "[panel]"], "") == "panel" && !NamesListen(ls + ["", "[panel]"], ""))
  {
    if !NamesListen(ls, "") {
      match AfterPanel(ls)
      case Some(n) =>
        var a, b := ls[..n], ls[n..];
        assert ls == a + b;
        AfterPanelIsPanel(ls, "");
        NamesAppend(a, b, "");
      case None =>
        assert ls + ["", "[panel]", line] == ls + ["", "[panel]"] + [line];
        NoPanelTable(ls);
    }
  }

  lemma TailTable(table: string)
    ensures TableOf(["", "[panel]"], table) == "panel"
    ensures !NamesListen(["", "[panel]"], table)
  {
    PanelHeader();
    BlankLine();
    var tail := ["", "[panel]"];
    assert tail[1..] == ["[panel]"] && tail[1..][1..] == [];
    assert SplitOnce("", '=').None?;
    assert !SetsListen(table, "") && TableAfter(table, "") == table;
    assert !SetsListen(table, "[panel]") && TableAfter(table, "[panel]") == "panel";
    assert TableOf(tail[1..], table) == TableOf(tail[1..][1..], "panel") == "panel";
    NamesListenStep(tail, table);
    NamesListenStep(tail[1..], table);
  }

  lemma {:induction false} TableAppend(a: seq<string>, b: seq<string>, table: string)
    ensures TableOf(a + b, table) == TableOf(b, TableOf(a, table))
  {
    if a == [] {
      assert a + b == b;
    } else {
      assert (a + b)[0] == a[0] && (a + b)[1..] == a[1..] + b;
      TableAppend(a[1..], b, TableAfter(table, a[0]));
    }
  }

  lemma ReadListenFirst(line: string, b: seq<string>, n: nat, c: Config, listen: string)
    requires All(listen, AddressChar) && SaysListen(line, listen) && !NamesListen(b, "panel")
    ensures SameBut(Read(b, n, c, "panel"), Read([line] + b, n, c, "panel"), listen)
  {
    var rest := [line] + b;
    EffectOfListen(c, line, listen, n);
    assert rest[0] == line && rest[1..] == b;
    NothingToRelist(b, "panel", ListenLine(listen));
    ReadRelisted(b, n, n + 1, c, listen, "panel", listen);
  }

  /** Putting a listen line into a `panel` table that had none sets the address and nothing else. */
  lemma ReadInserted(a: seq<string>, line: string, b: seq<string>, listen: string)
    requires All(listen, AddressChar) && SaysListen(line, listen)
    requires TableOf(a, "") == "panel" && !NamesListen(b, "panel")
    ensures SameBut(Read(a + b, 1, DEFAULT, ""), Read(a + [line] + b, 1, DEFAULT, ""), listen)
  {
    var rest := [line] + b;
    assert a + [line] + b == a + rest;
    ReadAppend(a, b, 1, DEFAULT, "");
    ReadAppend(a, rest, 1, DEFAULT, "");
    var first := Read(a, 1, DEFAULT, "");
    if first.Ok? {
      ReadListenFirst(line, b, 1 + |a|, first.value, listen);
    }
  }

  lemma ReadNothing(c: Config, t: string, n: nat)
    ensures Read(["", "[panel]"], n, c, t) == Ok(c)
  {
    PanelHeader();
    BlankLine();
    var tail := ["", "[panel]"];
    assert tail[1..] == ["[panel]"] && tail[1..][1..] == [];
    var t' := TableAfter(t, tail[0]);
    assert Effect(c, t, tail[0], n) == Ok(c);
    assert Effect(c, t', tail[1..][0], n + 1) == Ok(c);
    assert Read(tail[1..], n + 1, c, t') == Read(tail[1..][1..], n + 2, c, TableAfter(t', tail[1..][0]));
  }

  lemma ReadTail(ls: seq<string>)
    ensures Read(ls + ["", "[panel]"], 1, DEFAULT, "") == Read(ls, 1, DEFAULT, "")
  {
    ReadAppend(ls, ["", "[panel]"], 1, DEFAULT, "");
    var first := Read(ls, 1, DEFAULT, "");
    if first.Ok? {
      ReadNothing(first.value, TableOf(ls, ""), 1 + |ls|);
    }
  }

  lemma RewrittenReads(ls: seq<string>, listen: string)
    requires All(listen, AddressChar)
    ensures SameBut(Read(ls, 1, DEFAULT, ""), Read(Rewritten(ls, ListenLine(listen)), 1, DEFAULT, ""), listen)
  {
    var line := ListenLine(listen);
    RewrittenShape(ls, line);
    ListenLineReadsBack("", listen);
    assert "" + line == line;
    if NamesListen(ls, "") {
      assert DEFAULT.WithListen(DEFAULT.panel.listen) == DEFAULT;
      ReadRelisted(ls, 1, 1, DEFAULT, DEFAULT.panel.listen, "", listen);
    } else if exists a, b :: ls == a + b && Rewritten(ls, line) == a + [line] + b && TableOf(a, "") == "panel"
                             && !NamesListen(a, "") && !NamesListen(b, "panel") {
      var a, b :| ls == a + b && Rewritten(ls, line) == a + [line] + b && TableOf(a, "") == "panel"
                  && !NamesListen(a, "") && !NamesListen(b, "panel");
      ReadInserted(a, line, b, listen);
    } else {
      var a := ls + ["", "[panel]"];
      assert a + [] == a && a + [line] + [] == a + [line];
      ReadTail(ls);
      ReadInserted(a, line, [], listen);
    }
  }

  // ----------------------------------------------------------------- the document

  lemma {:induction false} RelistedOneLiners(ls: seq<string>, table: string, line: string)
    requires OneLiners(ls) && '\n' !in line
    ensures OneLiners(Relisted(ls, table, line))
  {
    if ls != [] {
      RelistedStep(ls, table, line);
      RelistedOneLiners(ls[1..], TableAfter(table, ls[0]), line);
      var rs := Relisted(ls, table, line);
      assert ls[0] in ls;
      assert rs == [rs[0]] + rs[1..];
      assert '\n' !in rs[0];
    }
  }

  lemma ListenLinePlain(listen: string)
    requires All(listen, AddressChar)
    ensures '\n' !in ListenLine(listen) && '\r' !in ListenLine(listen)
  {
  }

  lemma RewrittenOneLiners(ls: seq<string>, line: string)
    requires OneLiners(ls) && '\n' !in line
    ensures OneLiners(Rewritten(ls, line))
  {
    RelistedOneLiners(ls, "", line);
  }

  lemma LinesOfRewritten(text: string, listen: string)
    requires All(listen, AddressChar)
    ensures Lines(RewrittenText(text, listen)) == StripCrs(Rewritten(Lines(text), ListenLine(listen)))
  {
    var line := ListenLine(listen);
    ListenLinePlain(listen);
    RewrittenOneLiners(Lines(text), line);
    LinesOfJoin(Rewritten(Lines(text), line));
  }

  /**
   Rewriting succeeds exactly on an address and a document that parses; the result parses
   to the same configuration with only `panel.listen` changed.  The closing self-check
   therefore never turns down a document that parsed.
   */
  lemma RewriteKeepsMeaning(text: string, listen: string, isAddress: AddressSyntax)
    ensures var r := Rewrite(text, listen, isAddress);
            && (r.Ok? <==> isAddress(listen) && Parsed(text).Ok?)
            && (r.Ok? ==> Parsed(r.value) == Ok(Parsed(text).value.WithListen(listen)))
            && (isAddress(listen) && r.Err? ==> r.error.WouldNotParse?)
  {
    if isAddress(listen) {
      var ls := Lines(text);
      var line := ListenLine(listen);
      LinesOfRewritten(text, listen);
      ReadDropsCrs(Rewritten(ls, line), 1, DEFAULT, "");
      RewrittenReads(ls, listen);
    }
  }

  // ----------------------------------------------------------------- the last rewrite wins

  lemma {:induction false} RelistedTwice(ls: seq<string>, table: string, a: string, b: string)
    requires All(a, AddressChar) && All(b, AddressChar)
    ensures var once := Relisted(ls, table, ListenLine(a));
            && Relisted(once, table, ListenLine(b)) == Relisted(ls, table, ListenLine(b))
            && NamesListen(once, table) == NamesListen(ls, table)
  {
    if ls != [] {
      var once := Relisted(ls, table, ListenLine(a));
      RelistedStep(ls, table, ListenLine(a));
      RelistedStep(ls, table, ListenLine(b));
      RelistedStep(once, table, ListenLine(b));
      NamesListenStep(ls, table);
      NamesListenStep(once, table);
      if SetsListen(table, ls[0]) {
        IndentBlank(ls[0]);
        ListenLineReadsBack(Indent(ls[0]), a);
        EffectOfListen(DEFAULT, once[0], a, 1);
        EffectSetsListen(DEFAULT, table, ls[0], 1);
        IndentKept(Indent(ls[0]), a);
      }
      RelistedTwice(ls[1..], TableAfter(table, ls[0]), a, b);
      var x, y := Relisted(once, table, ListenLine(b)), Relisted(ls, table, ListenLine(b));
      assert x == [x[0]] + x[1..] && y == [y[0]] + y[1..];
    }
  }

  lemma RelistFirst(la: string, r: seq<string>, lb: string)
    requires SetsListen("panel", la) && Indent(la) == "" && TableAfter("panel", la) == "panel"
    requires !NamesListen(r, "panel")
    ensures NamesListen([la] + r, "panel")
    ensures Relisted([la] + r, "panel", lb) == [lb] + r
  {
    var rest := [la] + r;
    assert rest[0] == la && rest[1..] == r;
    NamesListenStep(rest, "panel");
    RelistedStep(rest, "panel", lb);
    NothingToRelist(r, "panel", lb);
    var rs := Relisted(rest, "panel", lb);
    assert rs == [rs[0]] + rs[1..];
    assert "" + lb == lb;
  }

  lemma RelistInserted(l: seq<string>, la: string, r: seq<string>, lb: string)
    requires SetsListen("panel", la) && Indent(la) == "" && TableAfter("panel", la) == "panel"
    requires TableOf(l, "") == "panel" && !NamesListen(l, "") && !NamesListen(r, "panel")
    ensures NamesListen(l + [la] + r, "")
    ensures Relisted(l + [la] + r, "", lb) == l + [lb] + r
  {
    var rest := [la] + r;
    Associative(l, [la], r);
    RelistFirst(la, r, lb);
    NamesAppend(l, rest, "");
    RelistedAppend(l, rest, "", lb);
    NothingToRelist(l, "", lb);
    Associative(l, [lb], r);
  }

  lemma FreshListenLine(listen: string)
    requires All(listen, AddressChar)
    ensures var line := ListenLine(listen);
            && SetsListen("panel", line) && Indent(line) == "" && TableAfter("panel", line) == "panel"
  {
    var line := ListenLine(listen);
    ListenLineReadsBack("", listen);
    assert "" + line == line;
    EffectOfListen(DEFAULT, line, listen, 1);
    IndentKept("", listen);
  }

  lemma NoPanelTable(ls: seq<string>)
    requires !NamesListen(ls, "")
    ensures var l := ls + ["", "[panel]"]; TableOf(l, "") == "panel" && !NamesListen(l, "")
  {
    var tail := ["", "[panel]"];
    TailTable(TableOf(ls, ""));
    TableAppend(ls, tail, "");
    NamesAppend(ls, tail, "");
  }

  lemma RewrittenTwice(ls: seq<string>, a: string, b: string)
    requires All(a, AddressChar) && All(b, AddressChar)
    ensures Rewritten(Rewritten(ls, ListenLine(a)), ListenLine(b)) == Rewritten(ls, ListenLine(b))
  {
    if NamesListen(ls, "") {
      RelistedTwice(ls, "", a, b);
    } else {
      FreshListenLine(a);
      RewrittenTwiceAdded(ls, ListenLine(a), ListenLine(b));
    }
  }

  lemma RewrittenTwiceAdded(ls: seq<string>, la: string, lb: string)
    requires !NamesListen(ls, "")
    requires SetsListen("panel", la) && Indent(la) == "" && TableAfter("panel", la) == "panel"
    ensures Rewritten(Rewritten(ls, la), lb) == Rewritten(ls, lb)
  {
    if AfterPanel(ls).Some? {
      RewrittenTwiceInserted(ls, AfterPanel(ls).value, la, lb);
    } else {
      RewrittenTwiceAppended(ls, la, lb);
    }
  }

  lemma RewrittenTwiceInserted(ls: seq<string>, n: nat, la: string, lb: string)
    requires !NamesListen(ls, "") && AfterPanel(ls) == Some(n)
    requires SetsListen("panel", la) && Indent(la) == "" && TableAfter("panel", la) == "panel"
    ensures Rewritten(Rewritten(ls, la), lb) == Rewritten(ls, lb)
  {
    assert ls == ls[..n] + ls[n..];
    AfterPanelIsPanel(ls, "");
    NamesAppend(ls[..n], ls[n..], "");
    RelistInserted(ls[..n], la, ls[n..], lb);
  }

  lemma RewrittenTwiceAppended(ls: seq<string>, la: string, lb: string)
    requires !NamesListen(ls, "") && AfterPanel(ls) == None
    requires SetsListen("panel", la) && Indent(la) == "" && TableAfter("panel", la) == "panel"
    ensures Rewritten(Rewritten(ls, la), lb) == Rewritten(ls, lb)
  {
    var l := ls + ["", "[panel]"];
    NoPanelTable(ls);
    RelistInserted(l, la, [], lb);
    RewrittenAppended(ls, la);
    RewrittenAppended(ls, lb);
  }

  lemma RewrittenAppended(ls: seq<string>, line: string)
    requires !NamesListen(ls, "") && AfterPanel(ls) == None
    ensures Rewritten(ls, line) == ls + ["", "[panel]"] + [line] + []
  {
    assert ls + ["", "[panel]", line] == ls + ["", "[panel]"] + [line] + [];
  }

  // ----------------------------------------------------------------- on the text

  /** No line that a rewrite keeps ends in a carriage return of its own. */
  predicate Settled(ls: seq<string>, table: string) {
    ls != [] ==>
      && (SetsListen(table, ls[0]) || StripCr(ls[0]) == ls[0])
      && Settled(ls[1..], TableAfter(table, ls[0]))
  }

  lemma {:induction false} RelistedStripCrs(ls: seq<string>, table: string, line: string)
    requires StripCr(line) == line && line != ""
    ensures Relisted(StripCrs(ls), table, line) == StripCrs(Relisted(ls, table, line))
    ensures NamesListen(StripCrs(ls), table) == NamesListen(ls, table)
    ensures AfterPanel(StripCrs(ls)) == AfterPanel(ls)
  {
    if ls != [] {
      var rs := StripCrs(ls);
      assert rs[0] == StripCr(ls[0]) && rs[1..] == StripCrs(ls[1..]);
      LogicalDropsCr(ls[0]);
      SameSaying(DEFAULT, table, rs[0], ls[0], 1);
      RelistedCons(rs, table, line);
      RelistedCons(ls, table, line);
      NamesListenStep(rs, table);
      NamesListenStep(ls, table);
      AfterPanelStep(rs);
      AfterPanelStep(ls);
      if SetsListen(table, ls[0]) {
        HeadStripCr(table, ls[0], line);
      }
      RelistedStripCrs(ls[1..], TableAfter(table, ls[0]), line);
      StripCrsCons(if SetsListen(table, ls[0]) then Indent(ls[0]) + line else ls[0],
                   Relisted(ls[1..], TableAfter(table, ls[0]), line));
    }
  }

  lemma StripCrsCons(head: string, tail: seq<string>)
    ensures StripCrs([head] + tail) == [StripCr(head)] + StripCrs(tail)
  {
    assert ([head] + tail)[1..] == tail;
  }

  lemma {:induction false} BlankSaysNothing(s: string)
    requires TrimStart(s) == ""
    ensures Logical(s) == ""
  {
    TrimStartIs(s);
    assert s[..|s|] == s;
    NoHash(s, false);
  }

  lemma HeadStripCr(table: string, raw: string, line: string)
    requires StripCr(line) == line && line != ""
    requires SetsListen(table, raw)
    ensures Indent(StripCr(raw)) + line == StripCr(Indent(raw) + line)
  {
    KeepsCr(Indent(raw), line);
    if StripCr(raw) != raw {
      LogicalDropsCr(raw);
      SaysSomething(table, raw);
      if TrimStart(StripCr(raw)) == "" {
        BlankSaysNothing(StripCr(raw));
      }
      IndentStripCr(raw);
    }
  }

  lemma KeepsCr(indent: string, line: string)
    requires StripCr(line) == line && line != ""
    ensures StripCr(indent + line) == indent + line
  {
    var whole := indent + line;
    assert whole[|whole| - 1] == line[|line| - 1];
  }

  lemma SaysSomething(table: string, raw: string)
    requires SetsListen(table, raw)
    ensures Logical(raw) != ""
  {
    assert SplitOnce("", '=').None?;
  }

  lemma IndentStripCr(raw: string)
    requires TrimStart(StripCr(raw)) != ""
    ensures Indent(StripCr(raw)) == Indent(raw)
  {
    if StripCr(raw) != raw {
      var s := raw[..|raw| - 1];
      assert raw == s + ['\r'];
      TrimStartTail(s, '\r');
    }
  }

  lemma {:induction false} StripCrsAppend(a: seq<string>, b: seq<string>)
    ensures StripCrs(a + b) == StripCrs(a) + StripCrs(b)
  {
    if a == [] {
      assert a + b == b;
    } else {
      assert (a + b)[0] == a[0] && (a + b)[1..] == a[1..] + b;
      StripCrsAppend(a[1..], b);
      Associative([StripCr(a[0])], StripCrs(a[1..]), StripCrs(b));
    }
  }

  lemma StripCrsInserted(a: seq<string>, line: string, b: seq<string>)
    requires StripCr(line) == line
    ensures StripCrs(a + [line] + b) == StripCrs(a) + [line] + StripCrs(b)
  {
    StripCrsAppend(a + [line], b);
    StripCrsAppend(a, [line]);
    StripCrsCons(line, []);
    assert [line] + [] == [line];
  }

  lemma StripCrsSplit(ls: seq<string>, n: nat)
    requires n <= |ls|
    ensures StripCrs(ls)[..n] == StripCrs(ls[..n]) && StripCrs(ls)[n..] == StripCrs(ls[n..])
  {
    assert ls == ls[..n] + ls[n..];
    StripCrsAppend(ls[..n], ls[n..]);
  }

  /** Dropping stray carriage returns before a rewrite or after it is the same. */
  lemma RewrittenStripCrs(ls: seq<string>, line: string)
    requires StripCr(line) == line && line != ""
    ensures Rewritten(StripCrs(ls), line) == StripCrs(Rewritten(ls, line))
  {
    RelistedStripCrs(ls, "", line);
    if !NamesListen(ls, "") {
      match AfterPanel(ls)
      case Some(n) =>
        StripCrsInserted(ls[..n], line, ls[n..]);
        StripCrsSplit(ls, n);
      case None =>
        AppendedStripCrs(ls, line);
    }
  }

  lemma AppendedStripCrs(ls: seq<string>, line: string)
    requires StripCr(line) == line
    ensures StripCrs(ls + ["", "[panel]", line]) == StripCrs(ls) + ["", "[panel]", line]
  {
    var tail := ["", "[panel]", line];
    StripCrsAppend(ls, tail);
    assert tail[1..] == ["[panel]", line] && tail[2..] == [line] && tail[1..][1..] == tail[2..];
    assert tail[2..][1..] == [];
    assert StripCrs(tail[2..]) == [line];
    assert StripCrs(tail[1..]) == ["[panel]"] + [line];
    assert StripCrs(tail) == [""] + (["[panel]"] + [line]);
  }

  lemma {:induction false} JoinOfStripCrs(ls: seq<string>)
    ensures |JoinLines(StripCrs(ls))| <= |JoinLines(ls)|
    ensures |JoinLines(StripCrs(ls))| == |JoinLines(ls)| ==> StripCrs(ls) == ls
  {
    if ls != [] {
      JoinOfStripCrs(ls[1..]);
      var rs := StripCrs(ls);
      assert rs[0] == StripCr(ls[0]) && rs[1..] == StripCrs(ls[1..]);
      assert rs == [rs[0]] + rs[1..] && ls == [ls[0]] + ls[1..];
    }
  }

  lemma {:induction false} SettledRelisted(ls: seq<string>, table: string, line: string)
    requires StripCr(line) == line && line != ""
    ensures StripCrs(Relisted(ls, table, line)) == Relisted(ls, table, line) <==> Settled(ls, table)
  {
    if ls != [] {
      var head := if SetsListen(table, ls[0]) then Indent(ls[0]) + line else ls[0];
      var tail := Relisted(ls[1..], TableAfter(table, ls[0]), line);
      RelistedCons(ls, table, line);
      StripCrsCons(head, tail);
      SettledRelisted(ls[1..], TableAfter(table, ls[0]), line);
      HeadsAndTails(head, tail);
      if SetsListen(table, ls[0]) {
        assert head[|head| - 1] == line[|line| - 1];
      }
    }
  }

  lemma HeadsAndTails(head: string, tail: seq<string>)
    ensures [StripCr(head)] + StripCrs(tail) == [head] + tail <==> StripCr(head) == head && StripCrs(tail) == tail
  {
    var a, b := [StripCr(head)] + StripCrs(tail), [head] + tail;
    assert a[0] == StripCr(head) && b[0] == head && a[1..] == StripCrs(tail) && b[1..] == tail;
  }

  lemma SettledRewritten(ls: seq<string>, line: string)
    requires StripCr(line) == line && line != ""
    ensures StripCrs(Rewritten(ls, line)) == Rewritten(ls, line) <==> Settled(ls, "")
  {
    SettledRelisted(ls, "", line);
    if !NamesListen(ls, "") {
      NothingToRelist(ls, "", line);
      match AfterPanel(ls)
      case Some(n) =>
        var a, b := ls[..n], ls[n..];
        assert ls == a + b;
        StripCrsInserted(a, line, b);
        StripCrsAppend(a, b);
        SplitsAlike(StripCrs(a), a, [line], StripCrs(b), b);
        SplitsAlike(StripCrs(a), a, [], StripCrs(b), b);
        assert a + [] == a && StripCrs(a) + [] == StripCrs(a);
      case None =>
        AppendedStripCrs(ls, line);
        SplitsAlike(StripCrs(ls), ls, ["", "[panel]", line], [], []);
        assert forall x: seq<string> {:trigger x + []} :: x + [] == x;
    }
  }

  lemma SplitsAlike(a: seq<string>, a': seq<string>, m: seq<string>, b: seq<string>, b': seq<string>)
    requires |a| == |a'|
    ensures a + m + b == a' + m + b' <==> a == a' && b == b'
  {
    var x, y := a + m + b, a' + m + b';
    var n := |a|;
    assert x[..n] == a && y[..n] == a' && x[n + |m|..] == b && y[n + |m|..] == b';
  }

  /**
   Rewriting twice is rewriting once with the last address, exactly when no line that the
   rewrite keeps ends in a carriage return of its own.  (A carriage return and line feed is
   one line ending; it is a second carriage return before it that does not survive.)
   */
  lemma LastRewriteWins(text: string, a: string, b: string, isAddress: AddressSyntax)
    requires isAddress(a) && isAddress(b) && Parsed(text).Ok?
    ensures var once := Rewrite(text, a, isAddress);
            && once.Ok?
            && Rewrite(once.value, b, isAddress).Ok?
            && Rewrite(text, b, isAddress).Ok?
            && (Rewrite(once.value, b, isAddress) == Rewrite(text, b, isAddress) <==> Settled(Lines(text), ""))
  {
    RewriteKeepsMeaning(text, a, isAddress);
    RewriteKeepsMeaning(text, b, isAddress);
    var ls := Lines(text);
    var once := RewrittenText(text, a);
    RewriteKeepsMeaning(once, b, isAddress);
    var lb := ListenLine(b);
    ListenLinePlain(b);
    assert lb[|lb| - 1] == '"';
    LinesOfRewritten(text, a);
    RewrittenStripCrs(Rewritten(ls, ListenLine(a)), lb);
    RewrittenTwice(ls, a, b);
    assert RewrittenText(once, b) == JoinLines(StripCrs(Rewritten(ls, lb)));
    JoinOfStripCrs(Rewritten(ls, lb));
    SettledRewritten(ls, lb);
  }

  lemma {:induction false} PlainLinesAreSettled(ls: seq<string>, table: string)
    requires forall l :: l in ls ==> '\r' !in l
    ensures Settled(ls, table)
  {
    if ls != [] {
      PlainLinesAreSettled(ls[1..], TableAfter(table, ls[0]));
      assert ls[0] in ls;
    }
  }

  /** On a text without carriage returns, the last of two rewrites wins. */
  lemma LastRewriteWinsOnPlainText(text: string, a: string, b: string, isAddress: AddressSyntax)
    requires isAddress(a) && isAddress(b) && Parsed(text).Ok? && '\r' !in text
    ensures var once := Rewrite(text, a, isAddress);
            once.Ok? && Rewrite(once.value, b, isAddress) == Rewrite(text, b, isAddress)
  {
    LinesFreeOfCr(text);
    PlainLinesAreSettled(Lines(text), "");
    LastRewriteWins(text, a, b, isAddress);
  }

  lemma StrayCarriageReturn()
    ensures Parsed("\r\r\n").Ok? && !Settled(Lines("\r\r\n"), "")
  {
    assert StripCr("\r\r") == "\r";
    LinesOfJoin(["\r\r"]);
    assert ["\r\r"][1..] == [] && JoinLines(["\r\r"]) == "\r\r\n";
    assert Lines("\r\r\n") == ["\r"];
  }

  /** On this one the first rewrite shows: the stray carriage return goes with the second rewrite only. */
  lemma FirstRewriteShows(a: string, b: string, isAddress: AddressSyntax)
    requires isAddress(a) && isAddress(b)
    ensures var once := Rewrite("\r\r\n", a, isAddress);
            once.Ok? && Rewrite(once.value, b, isAddress) != Rewrite("\r\r\n", b, isAddress)
  {
    StrayCarriageReturn();
    LastRewriteWins("\r\r\n", a, b, isAddress);
  }

  // ----------------------------------------------------------------- nothing else is lost

  /** The lines that do not set `panel.listen`, in order. */
  function Others(ls: seq<string>, table: string): seq<string> {
    if ls == [] then []
    else (if SetsListen(table, ls[0]) then [] else [ls[0]]) + Others(ls[1..], TableAfter(table, ls[0]))
  }

  lemma {:induction false} OthersAppend(a: seq<string>, b: seq<string>, table: string)
    ensures Others(a + b, table) == Others(a, table) + Others(b, TableOf(a, table))
  {
    if a == [] {
      assert a + b == b;
    } else {
      assert (a + b)[0] == a[0] && (a + b)[1..] == a[1..] + b;
      OthersAppend(a[1..], b, TableAfter(table, a[0]));
      Associative(if SetsListen(table, a[0]) then [] else [a[0]],
                  Others(a[1..], TableAfter(table, a[0])), Others(b, TableOf(a, table)));
    }
  }

  lemma {:induction false} OthersOfRelisted(ls: seq<string>, table: string, listen: string)
    requires All(listen, AddressChar)
    ensures Others(Relisted(ls, table, ListenLine(listen)), table) == Others(ls, table)
  {
    if ls != [] {
      var rs := Relisted(ls, table, ListenLine(listen));
      RelistedStep(ls, table, ListenLine(listen));
      if SetsListen(table, ls[0]) {
        IndentBlank(ls[0]);
        ListenLineReadsBack(Indent(ls[0]), listen);
        EffectOfListen(DEFAULT, rs[0], listen, 1);
        EffectSetsListen(DEFAULT, table, ls[0], 1);
      }
      OthersOfRelisted(ls[1..], TableAfter(table, ls[0]), listen);
    }
  }

  lemma OthersOfInserted(a: seq<string>, line: string, b: seq<string>)
    requires SetsListen("panel", line) && TableAfter("panel", line) == "panel"
    requires TableOf(a, "") == "panel"
    ensures Others(a + [line] + b, "") == Others(a + b, "")
  {
    Associative(a, [line], b);
    OthersAppend(a, [line] + b, "");
    OthersAppend(a, b, "");
    OthersFirst(line, b);
  }

  lemma OthersFirst(line: string, b: seq<string>)
    requires SetsListen("panel", line) && TableAfter("panel", line) == "panel"
    ensures Others([line] + b, "panel") == Others(b, "panel")
  {
    var rest := [line] + b;
    assert rest[0] == line && rest[1..] == b;
    assert [] + Others(b, "panel") == Others(b, "panel");
  }

  lemma {:induction false} OthersStripCrs(ls: seq<string>, table: string)
    ensures Others(StripCrs(ls), table) == StripCrs(Others(ls, table))
  {
    if ls != [] {
      var rs := StripCrs(ls);
      assert rs[0] == StripCr(ls[0]) && rs[1..] == StripCrs(ls[1..]);
      LogicalDropsCr(ls[0]);
      SameSaying(DEFAULT, table, rs[0], ls[0], 1);
      OthersStripCrs(ls[1..], TableAfter(table, ls[0]));
      StripCrsCons(ls[0], Others(ls[1..], TableAfter(table, ls[0])));
      assert [] + Others(ls[1..], TableAfter(table, ls[0])) == Others(ls[1..], TableAfter(table, ls[0]));
    }
  }

  /** What a rewrite adds to a document besides listen lines: a table to put one in, if there was none. */
  function AddedTable(ls: seq<string>): seq<string> {
    if AfterPanel(ls).None? then ["", "[panel]"] else []
  }

  lemma OthersOfRewritten(ls: seq<string>, listen: string)
    requires All(listen, AddressChar)
    ensures var rs := Rewritten(ls, ListenLine(listen));
            && Others(rs, "") == Others(ls, "") + AddedTable(ls)
            && |rs| == |ls| + (if NamesListen(ls, "") then 0 else 1) + |AddedTable(ls)|
  {
    if AfterPanel(ls).None? {
      OthersOfAppended(ls, listen);
    } else if NamesListen(ls, "") {
      OthersOfRelisted(ls, "", listen);
      assert Others(ls, "") + [] == Others(ls, "");
    } else {
      OthersOfFilledIn(ls, listen);
    }
  }

  lemma OthersOfAppended(ls: seq<string>, listen: string)
    requires All(listen, AddressChar) && AfterPanel(ls).None?
    ensures !NamesListen(ls, "")
    ensures var rs := Rewritten(ls, ListenLine(listen));
            Others(rs, "") == Others(ls, "") + ["", "[panel]"] && |rs| == |ls| + 3
  {
    var line, tail := ListenLine(listen), ["", "[panel]"];
    FreshListenLine(listen);
    ListenNeedsPanel(ls, "");
    NoPanelTable(ls);
    RewrittenAppended(ls, line);
    assert ls + tail + [] == ls + tail;
    OthersOfInserted(ls + tail, line, []);
    OthersAppend(ls, tail, "");
    OthersOfTail(TableOf(ls, ""));
  }

  lemma OthersOfFilledIn(ls: seq<string>, listen: string)
    requires All(listen, AddressChar) && AfterPanel(ls).Some? && !NamesListen(ls, "")
    ensures var rs := Rewritten(ls, ListenLine(listen));
            Others(rs, "") == Others(ls, "") && |rs| == |ls| + 1
  {
    var line, n := ListenLine(listen), AfterPanel(ls).value;
    FreshListenLine(listen);
    assert ls == ls[..n] + ls[n..];
    AfterPanelIsPanel(ls, "");
    OthersOfInserted(ls[..n], line, ls[n..]);
  }

  lemma OthersOfTail(table: string)
    ensures Others(["", "[panel]"], table) == ["", "[panel]"]
  {
    PanelHeader();
    BlankLine();
    var tail := ["", "[panel]"];
    assert tail[1..] == ["[panel]"] && tail[1..][1..] == [];
    assert SplitOnce("", '=').None?;
    assert Others(tail[1..], TableAfter(table, "")) == ["[panel]"];
  }

  /**
   Every line that does not set `panel.listen` is still there, in its order and as it was
   but for a stray carriage return at its end; at most the listen line, or the table and the
   line, are added.
   */
  lemma OtherLinesSurvive(text: string, listen: string, isAddress: AddressSyntax)
    requires isAddress(listen)
    ensures var ls, rs := Lines(text), Lines(RewrittenText(text, listen));
            && Others(rs, "") == StripCrs(Others(ls, "")) + AddedTable(ls)
            && |rs| == |ls| + (if NamesListen(ls, "") then 0 else 1) + |AddedTable(ls)|
  {
    var ls := Lines(text);
    LinesOfRewritten(text, listen);
    OthersOfRewritten(ls, listen);
    OthersStripCrs(Rewritten(ls, ListenLine(listen)), "");
    StripCrsAppend(Others(ls, ""), AddedTable(ls));
    PanelTableStripCrs();
  }

  lemma PanelTableStripCrs()
    ensures StripCrs(["", "[panel]"]) == ["", "[panel]"]
  {
    var tail := ["", "[panel]"];
    assert tail[1..] == ["[panel]"] && tail[1..][1..] == [];
    assert StripCrs(tail[1..]) == ["[panel]"];
  }
}
