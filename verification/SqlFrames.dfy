/** The fixed text around the compiled parts, and the text and layout of whole statements. */
module SqlFrames {
  import opened Wrappers
  import opened Text
  import opened Catalog
  import opened SqlTokens
  import opened SqlStatements

  // ---------------------------------------------------------------- keywords on one line

  predicate Keywords(words: seq<string>) {
    words != [] && forall i | 0 <= i < |words| :: IsIdent(words[i])
  }

  function WordsLayout(gap: string, words: seq<string>, rest: Layout): (l: Layout)
    requires words != []
    ensures l.Tok? && l.gap == gap
    decreases |words|
  {
    Tok(gap, Word(words[0]), if |words| == 1 then rest else WordsLayout(" ", words[1..], rest))
  }

  lemma {:induction false} WordsLaid(gap: string, words: seq<string>, rest: Layout, n: nat, m: nat)
    requires AllSpace(gap) && Keywords(words) && Ready(rest, n, m)
    ensures Laid(WordsLayout(gap, words, rest), n, m)
    decreases |words|
  {
    hide Laid;
    if |words| > 1 {
      WordsLaid(" ", words[1..], rest, n, m);
      TokLaid(gap, Word(words[0]), WordsLayout(" ", words[1..], rest), n, m);
    } else {
      TokLaid(gap, Word(words[0]), rest, n, m);
    }
  }

  lemma {:induction false} WordsSpelled(gap: string, words: seq<string>, rest: Layout)
    requires words != []
    ensures Spell(WordsLayout(gap, words, rest)) == gap + Join(words, " ") + Spell(rest)
    decreases |words|
  {
    var head := words[0];
    assert TokenText(Word(head)) == head;
    hide Spell, TokenText;
    if |words| > 1 {
      var l := WordsLayout(" ", words[1..], rest);
      WordsSpelled(" ", words[1..], rest);
      OneSpelled(gap, Word(head), l);
      assert Join(words, " ") == head + " " + Join(words[1..], " ");
      hide Join;
    } else {
      OneSpelled(gap, Word(head), rest);
    }
  }

  // ---------------------------------------------------------------- frames

  function CallLayout(f: seq<string>, gap: string, x: string, rest: Layout): (l: Layout)
    requires f != []
    ensures l.Tok? && l.gap == gap
  {
    WordsLayout(gap, f, Tok("", Sym("("), Tok("", Word(x), Tok("", Sym(")"), rest))))
  }

  /** `SELECT row_to_json(x) AS data` */
  function JsonLayout(gap: string, x: string, rest: Layout): (l: Layout)
    ensures l.Tok? && l.gap == gap
  {
    CallLayout(["SELECT", "row_to_json"], gap, x, WordsLayout(" ", ["AS", "data"], rest))
  }

  function JsonText(gap: string, x: string): string {
    gap + "SELECT row_to_json(" + x + ") AS data"
  }

  lemma CallLaid(f: seq<string>, gap: string, x: string, rest: Layout, n: nat, m: nat)
    requires AllSpace(gap) && Keywords(f) && IsIdent(x) && Ready(rest, n, m)
    ensures Laid(CallLayout(f, gap, x, rest), n, m)
  {
    hide Laid;
    var l3 := Tok("", Sym(")"), rest);
    var l2 := Tok("", Word(x), l3);
    TokLaid("", Sym(")"), rest, n, m);
    TokLaid("", Word(x), l3, n, m);
    TokLaid("", Sym("("), l2, n, m);
    WordsLaid(gap, f, Tok("", Sym("("), l2), n, m);
  }

  lemma CallSpelled(f: seq<string>, gap: string, x: string, rest: Layout)
    requires f != []
    ensures Spell(CallLayout(f, gap, x, rest)) == gap + Join(f, " ") + ("(" + x + ")") + Spell(rest)
  {
    var l3 := Tok("", Sym(")"), rest);
    assert TokenText(Sym("(")) == "(" && TokenText(Word(x)) == x && TokenText(Sym(")")) == ")";
    hide Spell, TokenText, Join;
    TwoSpelled("", Sym("("), "", Word(x), l3);
    OneSpelled("", Sym(")"), rest);
    WordsSpelled(gap, f, Tok("", Sym("("), Tok("", Word(x), l3)));
    CallSeam(x, Spell(rest));
    Associative(gap + Join(f, " "), "(" + x + ")", Spell(rest));
  }

  lemma CallSeam(x: string, rest: string)
    ensures "" + "(" + "" + x + ("" + ")" + rest) == "(" + x + ")" + rest
  {
  }

  lemma JsonLaid(gap: string, x: string, rest: Layout, n: nat, m: nat)
    requires AllSpace(gap) && IsIdent(x) && Ready(rest, n, m)
    ensures Laid(JsonLayout(gap, x, rest), n, m)
  {
    WordsLaid(" ", ["AS", "data"], rest, n, m);
    CallLaid(["SELECT", "row_to_json"], gap, x, WordsLayout(" ", ["AS", "data"], rest), n, m);
  }

  lemma JsonSpelled(gap: string, x: string, rest: Layout)
    ensures Spell(JsonLayout(gap, x, rest)) == JsonText(gap, x) + Spell(rest)
  {
    assert Join(["AS", "data"], " ") == "AS data";
    assert Join(["SELECT", "row_to_json"], " ") == "SELECT row_to_json";
    hide Spell, Join, CallLayout, WordsLayout;
    WordsSpelled(" ", ["AS", "data"], rest);
    CallSpelled(["SELECT", "row_to_json"], gap, x, WordsLayout(" ", ["AS", "data"], rest));
    JsonSeam(gap, x, Spell(rest));
  }

  lemma JsonSeam(gap: string, x: string, rest: string)
    ensures gap + "SELECT row_to_json" + ("(" + x + ")") + (" " + "AS data" + rest)
         == gap + "SELECT row_to_json(" + x + ") AS data" + rest
  {
    assert "SELECT row_to_json" + "(" == "SELECT row_to_json(";
    assert ")" + " " + "AS data" == ") AS data";
  }

  /** `"schema"."table"` */
  function TableLayout(gap: string, schema: string, table: string, rest: Layout): (l: Layout)
    ensures l.Tok? && l.gap == gap
  {
    Tok(gap, Quoted(schema), Tok("", Sym("."), Tok("", Quoted(table), rest)))
  }

  function TableText(schema: string, table: string): string {
    QuoteName(schema) + "." + QuoteName(table)
  }

  lemma TableLaid(gap: string, schema: string, table: string, rest: Layout, n: nat, m: nat)
    requires AllSpace(gap) && ValidName(schema) && ValidName(table) && Ready(rest, n, m)
    ensures Laid(TableLayout(gap, schema, table, rest), n, m)
  {
    hide Laid;
    TokLaid("", Quoted(table), rest, n, m);
    TokLaid("", Sym("."), Tok("", Quoted(table), rest), n, m);
    TokLaid(gap, Quoted(schema), Tok("", Sym("."), Tok("", Quoted(table), rest)), n, m);
  }

  lemma TableSpelled(gap: string, schema: string, table: string, rest: Layout)
    ensures Spell(TableLayout(gap, schema, table, rest)) == gap + TableText(schema, table) + Spell(rest)
  {
    var l := Tok("", Quoted(table), rest);
    assert TokenText(Quoted(schema)) == QuoteName(schema) && TokenText(Quoted(table)) == QuoteName(table);
    assert TokenText(Sym(".")) == ".";
    hide Spell, TokenText, QuoteName;
    OneSpelled("", Quoted(table), rest);
    TwoSpelled(gap, Quoted(schema), "", Sym("."), l);
  }

  /** `WITH x AS (` with the white space of its template. */
  function OpenLayout(gap: string, x: string, rest: Layout): (l: Layout)
    ensures l.Tok? && l.gap == gap
  {
    WordsLayout(gap, ["WITH", x, "AS"], Tok(" ", Sym("("), rest))
  }

  /** `RETURNING * ) SELECT row_to_json(x) AS data FROM x` with the white space of its template. */
  function CloseLayout(inner: string, outer: string, from: string, x: string): (l: Layout)
    ensures l.Tok? && l.gap == inner
  {
    Tok(inner, Word("RETURNING"), Tok(" ", Sym("*"), Tok(outer, Sym(")"),
      JsonLayout(outer, x, WordsLayout(from, ["FROM", x], End(outer))))))
  }

  function OpenText(gap: string, x: string): string {
    gap + "WITH " + x + " AS ("
  }

  function CloseText(inner: string, outer: string, from: string, x: string): string {
    inner + "RETURNING *" + outer + ")" + JsonText(outer, x) + from + "FROM " + x + outer
  }

  lemma OpenLaid(gap: string, x: string, rest: Layout, n: nat, m: nat)
    requires AllSpace(gap) && IsIdent(x) && Laid(rest, n, m)
    ensures Laid(OpenLayout(gap, x, rest), n, m)
  {
    hide Laid;
    TokLaid(" ", Sym("("), rest, n, m);
    WordsLaid(gap, ["WITH", x, "AS"], Tok(" ", Sym("("), rest), n, m);
  }

  lemma OpenSpelled(gap: string, x: string, rest: Layout)
    ensures Spell(OpenLayout(gap, x, rest)) == OpenText(gap, x) + Spell(rest)
  {
    assert ["WITH", x, "AS"][1..] == [x, "AS"] && [x, "AS"][1..] == ["AS"];
    assert Join([x, "AS"], " ") == x + " " + "AS";
    assert Join(["WITH", x, "AS"], " ") == "WITH" + " " + (x + " " + "AS");
    assert TokenText(Sym("(")) == "(";
    hide Spell, TokenText, Join, WordsLayout;
    OneSpelled(" ", Sym("("), rest);
    WordsSpelled(gap, ["WITH", x, "AS"], Tok(" ", Sym("("), rest));
    OpenSeam(gap, x, Spell(rest));
  }

  lemma OpenSeam(gap: string, x: string, rest: string)
    ensures gap + ("WITH" + " " + (x + " " + "AS")) + (" " + "(" + rest) == gap + "WITH " + x + " AS (" + rest
  {
    assert "WITH" + " " == "WITH ";
    assert " " + "AS" + " " + "(" == " AS (";
  }

  lemma CloseLaid(inner: string, outer: string, from: string, x: string, n: nat)
    requires AllSpace(inner) && AllSpace(outer) && AllSpace(from)
    requires outer != "" && from != "" && IsIdent(x)
    ensures Laid(CloseLayout(inner, outer, from, x), n, n)
  {
    assert Ready(End(outer), n, n);
    hide Laid;
    var l1 := WordsLayout(from, ["FROM", x], End(outer));
    WordsLaid(from, ["FROM", x], End(outer), n, n);
    JsonLaid(outer, x, l1, n, n);
    var l2 := Tok(outer, Sym(")"), JsonLayout(outer, x, l1));
    TokLaid(outer, Sym(")"), JsonLayout(outer, x, l1), n, n);
    TokLaid(" ", Sym("*"), l2, n, n);
    TokLaid(inner, Word("RETURNING"), Tok(" ", Sym("*"), l2), n, n);
  }

  lemma CloseSpelled(inner: string, outer: string, from: string, x: string)
    ensures Spell(CloseLayout(inner, outer, from, x)) == CloseText(inner, outer, from, x)
  {
    assert ["FROM", x][1..] == [x];
    assert Join(["FROM", x], " ") == "FROM" + " " + x;
    assert TokenText(Sym("*")) == "*" && TokenText(Sym(")")) == ")" && TokenText(Word("RETURNING")) == "RETURNING";
    assert Spell(End(outer)) == outer;
    hide Spell, TokenText, Join, WordsLayout, JsonLayout, JsonText;
    var l1 := WordsLayout(from, ["FROM", x], End(outer));
    var l2 := Tok(outer, Sym(")"), JsonLayout(outer, x, l1));
    WordsSpelled(from, ["FROM", x], End(outer));
    JsonSpelled(outer, x, l1);
    OneSpelled(outer, Sym(")"), JsonLayout(outer, x, l1));
    TwoSpelled(inner, Word("RETURNING"), " ", Sym("*"), l2);
    CloseSeam(inner, outer, JsonText(outer, x), from, x);
  }

  lemma CloseSeam(inner: string, outer: string, json: string, from: string, x: string)
    ensures inner + "RETURNING" + " " + "*" + (outer + ")" + (json + (from + ("FROM" + " " + x) + outer)))
         == inner + "RETURNING *" + outer + ")" + json + from + "FROM " + x + outer
  {
    assert "RETURNING" + " " + "*" == "RETURNING *";
    assert "FROM" + " " == "FROM ";
  }

  // ---------------------------------------------------------------- clauses

  function WhereLayout(conds: seq<Cond>, n: nat, rest: Layout): (l: Layout)
    ensures rest.Tok? ==> l.Tok?
  {
    if conds == [] then rest else Tok(" ", Word("WHERE"), CondsLayout(conds, n, rest))
  }

  function WhereText(conds: seq<Cond>, n: nat): string {
    if conds == [] then "" else " WHERE " + Join(CondTexts(conds, n), " AND ")
  }

  lemma WhereLaid(conds: seq<Cond>, n: nat, rest: Layout, m: nat)
    requires ValidConds(conds) && Ready(rest, n + |CondsBinds(conds)|, m)
    ensures Ready(WhereLayout(conds, n, rest), n, m)
  {
    hide Laid;
    if conds != [] {
      CondsLaid(conds, n, rest, m);
      TokLaid(" ", Word("WHERE"), CondsLayout(conds, n, rest), n, m);
    }
  }

  lemma AndText()
    ensures " " + "AND" + " " == " AND "
  {
  }

  lemma WhereSeam(conds: string, rest: string)
    ensures " " + "WHERE" + (" " + conds + rest) == " WHERE " + conds + rest
  {
    assert " " + "WHERE" + " " == " WHERE ";
  }

  lemma WhereSpelled(conds: seq<Cond>, n: nat, rest: Layout)
    ensures Spell(WhereLayout(conds, n, rest)) == WhereText(conds, n) + Spell(rest)
  {
    if conds != [] {
      assert TokenText(Word("WHERE")) == "WHERE";
      AndText();
      hide Spell, TokenText, CondsLayout, CondTexts, Join;
      CondsSpelled(conds, n, rest);
      OneSpelled(" ", Word("WHERE"), CondsLayout(conds, n, rest));
      WhereSeam(Join(CondTexts(conds, n), " AND "), Spell(rest));
    }
  }

  function Direction(desc: bool): string {
    if desc then "DESC" else "ASC"
  }

  function OrderLayout(order: Option<(string, bool)>, rest: Layout): (l: Layout)
    ensures rest.Tok? ==> l.Tok?
  {
    if order.None? then rest
    else WordsLayout(" ", ["ORDER", "BY"],
      Tok(" ", Quoted(order.value.0), Tok(" ", Word(Direction(order.value.1)), rest)))
  }

  function OrderText(order: Option<(string, bool)>): string {
    if order.None? then "" else " ORDER BY " + QuoteName(order.value.0) + " " + Direction(order.value.1)
  }

  lemma OrderLaid(order: Option<(string, bool)>, rest: Layout, n: nat, m: nat)
    requires order.Some? ==> ValidName(order.value.0)
    requires Ready(rest, n, m)
    ensures Ready(OrderLayout(order, rest), n, m)
  {
    hide Laid;
    if order.Some? {
      var l := Tok(" ", Word(Direction(order.value.1)), rest);
      TokLaid(" ", Word(Direction(order.value.1)), rest, n, m);
      TokLaid(" ", Quoted(order.value.0), l, n, m);
      WordsLaid(" ", ["ORDER", "BY"], Tok(" ", Quoted(order.value.0), l), n, m);
    }
  }

  lemma OrderSpelled(order: Option<(string, bool)>, rest: Layout)
    ensures Spell(OrderLayout(order, rest)) == OrderText(order) + Spell(rest)
  {
    if order.Some? {
      var (col, desc) := order.value;
      assert " " + Join(["ORDER", "BY"], " ") + " " == " ORDER BY ";
      assert TokenText(Quoted(col)) == QuoteName(col);
      assert TokenText(Word(Direction(desc))) == Direction(desc);
      hide Spell, TokenText, QuoteName, Direction, Join, WordsLayout;
      TwoSpelled(" ", Quoted(col), " ", Word(Direction(desc)), rest);
      WordsSpelled(" ", ["ORDER", "BY"], Tok(" ", Quoted(col), Tok(" ", Word(Direction(desc)), rest)));
    }
  }

  /** `LIMIT $n` or `OFFSET $n`, when the option is present. */
  function BoundClauseLayout(word: string, o: Option<string>, n: nat, rest: Layout): (l: Layout)
    ensures rest.Tok? ==> l.Tok?
  {
    if o.None? then rest else Tok(" ", Word(word), Tok(" ", Param(n + 1), rest))
  }

  function BoundClauseText(word: string, o: Option<string>, n: nat): string {
    if o.None? then "" else " " + word + " " + ("$" + Dec(n + 1))
  }

  lemma BoundClauseLaid(word: string, o: Option<string>, n: nat, rest: Layout, m: nat)
    requires IsIdent(word) && Ready(rest, n + |OptionBinds(o)|, m)
    ensures Ready(BoundClauseLayout(word, o, n, rest), n, m)
  {
    if o.Some? {
      var l := Tok(" ", Param(n + 1), rest);
      assert Laid(l, n, m);
      hide Laid;
      TokLaid(" ", Word(word), l, n, m);
    }
  }

  lemma BoundClauseSpelled(word: string, o: Option<string>, n: nat, rest: Layout)
    ensures Spell(BoundClauseLayout(word, o, n, rest)) == BoundClauseText(word, o, n) + Spell(rest)
  {
    if o.Some? {
      assert TokenText(Word(word)) == word && TokenText(Param(n + 1)) == "$" + Dec(n + 1);
      hide Spell, TokenText;
      TwoSpelled(" ", Word(word), " ", Param(n + 1), rest);
    }
  }

  /** White space in front of a layout. */
  function Indent(gap: string, l: Layout): (r: Layout)
    requires l.Tok?
    ensures r.Tok? && r.gap == gap + l.gap
  {
    l.(gap := gap + l.gap)
  }

  lemma IndentLaid(gap: string, l: Layout, n: nat, m: nat)
    requires l.Tok? && AllSpace(gap) && gap != "" && Laid(l, n, m)
    ensures Ready(Indent(gap, l), n, m)
  {
  }

  lemma IndentSpelled(gap: string, l: Layout)
    requires l.Tok?
    ensures Spell(Indent(gap, l)) == gap + Spell(l)
  {
    Associative(gap, l.gap, TokenText(l.token) + Spell(l.rest));
  }

  // ---------------------------------------------------------------- whole statements

  // The line breaks and indentation of the source's raw string templates.
  const GAP8 := "\n        "
  const GAP12 := "\n            "
  const GAP16 := "\n                "

  function SelectEnd(): Layout {
    Tok("\n        ", Sym(")"), Tok(" ", Word("t"), End("\n        ")))
  }

  lemma SelectEndLaid(m: nat)
    ensures Ready(SelectEnd(), m, m)
  {
    var e := End("\n        ");
    assert Laid(e, m, m);
    TokLaid(" ", Word("t"), e, m, m);
    TokLaid("\n        ", Sym(")"), Tok(" ", Word("t"), e), m, m);
  }

  lemma SelectEndSpelled()
    ensures Spell(SelectEnd()) == "\n        ) t\n        "
  {
    var e := End("\n        ");
    assert TokenText(Sym(")")) == ")" && TokenText(Word("t")) == "t" && Spell(e) == "\n        ";
    assert "\n        " + ")" + " " + "t" + "\n        " == "\n        ) t\n        ";
    hide Spell, TokenText;
    TwoSpelled("\n        ", Sym(")"), " ", Word("t"), e);
  }

  /** The LIMIT and OFFSET clauses after `n` bound values, and the end of the SELECT. */
  function LimitsLayout(limit: Option<string>, offset: Option<string>, n: nat): (l: Layout)
    ensures l.Tok?
  {
    BoundClauseLayout("LIMIT", limit, n, BoundClauseLayout("OFFSET", offset, n + |OptionBinds(limit)|, SelectEnd()))
  }

  function LimitsText(limit: Option<string>, offset: Option<string>, n: nat): string {
    BoundClauseText("LIMIT", limit, n)
    + (BoundClauseText("OFFSET", offset, n + |OptionBinds(limit)|) + "\n        ) t\n        ")
  }

  lemma LimitsLaid(limit: Option<string>, offset: Option<string>, n: nat, m: nat)
    requires m == n + |OptionBinds(limit)| + |OptionBinds(offset)|
    ensures Ready(LimitsLayout(limit, offset, n), n, m)
  {
    hide Ready, Laid, SelectEnd, OptionBinds, BoundClauseLayout;
    var k := n + |OptionBinds(limit)|;
    SelectEndLaid(m);
    BoundClauseLaid("OFFSET", offset, k, SelectEnd(), m);
    BoundClauseLaid("LIMIT", limit, n, BoundClauseLayout("OFFSET", offset, k, SelectEnd()), m);
  }

  lemma LimitsSpelled(limit: Option<string>, offset: Option<string>, n: nat)
    ensures Spell(LimitsLayout(limit, offset, n)) == LimitsText(limit, offset, n)
  {
    hide Spell, SelectEnd, OptionBinds, BoundClauseLayout, BoundClauseText;
    var k := n + |OptionBinds(limit)|;
    SelectEndSpelled();
    BoundClauseSpelled("OFFSET", offset, k, SelectEnd());
    BoundClauseSpelled("LIMIT", limit, n, BoundClauseLayout("OFFSET", offset, k, SelectEnd()));
  }

  function SelectClauses(conds: seq<Cond>, order: Option<(string, bool)>, limit: Option<string>,
                         offset: Option<string>): (l: Layout)
    ensures l.Tok?
  {
    WhereLayout(conds, 0, OrderLayout(order, LimitsLayout(limit, offset, |CondsBinds(conds)|)))
  }

  function SelectClausesText(conds: seq<Cond>, order: Option<(string, bool)>, limit: Option<string>,
                             offset: Option<string>): string {
    WhereText(conds, 0) + (OrderText(order) + LimitsText(limit, offset, |CondsBinds(conds)|))
  }

  lemma SelectClausesLaid(conds: seq<Cond>, order: Option<(string, bool)>, limit: Option<string>,
                          offset: Option<string>, m: nat)
    requires ValidConds(conds) && (order.Some? ==> ValidName(order.value.0))
    requires m == |CondsBinds(conds)| + |OptionBinds(limit)| + |OptionBinds(offset)|
    ensures Ready(SelectClauses(conds, order, limit, offset), 0, m)
  {
    hide Ready, CondsBinds, OptionBinds, LimitsLayout, OrderLayout, WhereLayout, ValidConds;
    var n := |CondsBinds(conds)|;
    LimitsLaid(limit, offset, n, m);
    OrderLaid(order, LimitsLayout(limit, offset, n), n, m);
    WhereLaid(conds, 0, OrderLayout(order, LimitsLayout(limit, offset, n)), m);
  }

  lemma SelectClausesSpelled(conds: seq<Cond>, order: Option<(string, bool)>, limit: Option<string>,
                             offset: Option<string>)
    ensures Spell(SelectClauses(conds, order, limit, offset)) == SelectClausesText(conds, order, limit, offset)
  {
    hide Spell, CondsBinds, LimitsLayout, LimitsText, OrderLayout, OrderText, WhereLayout, WhereText;
    var l := LimitsLayout(limit, offset, |CondsBinds(conds)|);
    LimitsSpelled(limit, offset, |CondsBinds(conds)|);
    OrderSpelled(order, l);
    WhereSpelled(conds, 0, OrderLayout(order, l));
  }

  function ProjectionLayout(p: Projection, rest: Layout): (l: Layout)
    requires p.Columns? ==> p.names != []
    ensures l.Tok? && l.gap == " "
  {
    if p.AllColumns? then Tok(" ", Sym("*"), rest) else NamesLayout(" ", p.names, rest)
  }

  function ProjectionText(p: Projection): string {
    if p.AllColumns? then "*" else Join(NameTexts(p.names), ", ")
  }

  lemma ProjectionLaid(p: Projection, rest: Layout, n: nat, m: nat)
    requires (p.Columns? ==> ValidNames(p.names)) && Ready(rest, n, m)
    ensures Laid(ProjectionLayout(p, rest), n, m)
  {
    if p.AllColumns? {
      TokLaid(" ", Sym("*"), rest, n, m);
    } else {
      NamesLaid(" ", p.names, rest, n, m);
    }
  }

  lemma ProjectionSpelled(p: Projection, rest: Layout)
    requires p.Columns? ==> p.names != []
    ensures Spell(ProjectionLayout(p, rest)) == " " + ProjectionText(p) + Spell(rest)
  {
    assert "," + " " == ", ";
    if p.AllColumns? {
      OneSpelled(" ", Sym("*"), rest);
    } else {
      hide Spell, Join, NameTexts;
      NamesSpelled(" ", p.names, rest);
    }
  }

  /** `FROM "schema"."table"` and the clauses of a SELECT. */
  function SelectFrom(schema: string, table: string, clauses: Layout): (l: Layout)
    requires clauses.Tok?
    ensures l.Tok? && l.gap == GAP12
  {
    Tok(GAP12, Word("FROM"), TableLayout(" ", schema, table, Indent(GAP12, clauses)))
  }

  function SelectHead(rest: Layout): (l: Layout)
    ensures l.Tok?
  {
    JsonLayout(GAP8, "t", Tok(GAP8, Word("FROM"), Tok(" ", Sym("("), Tok(GAP12, Word("SELECT"), rest))))
  }

  function SelectHeadText(): string {
    JsonText(GAP8, "t") + "\n        FROM (\n            SELECT"
  }

  lemma SelectFromLaid(schema: string, table: string, clauses: Layout, m: nat)
    requires ValidName(schema) && ValidName(table) && Ready(clauses, 0, m) && clauses.Tok?
    ensures Ready(SelectFrom(schema, table, clauses), 0, m)
  {
    IndentLaid(GAP12, clauses, 0, m);
    hide Laid;
    TableLaid(" ", schema, table, Indent(GAP12, clauses), 0, m);
    TokLaid(GAP12, Word("FROM"), TableLayout(" ", schema, table, Indent(GAP12, clauses)), 0, m);
  }

  lemma SelectFromSpelled(schema: string, table: string, clauses: Layout)
    requires clauses.Tok?
    ensures Spell(SelectFrom(schema, table, clauses))
         == "\n            FROM " + TableText(schema, table) + "\n            " + Spell(clauses)
  {
    var l := Indent(GAP12, clauses);
    IndentSpelled(GAP12, clauses);
    assert TokenText(Word("FROM")) == "FROM" && GAP12 + "FROM" + " " == "\n            FROM ";
    hide Spell, TokenText, TableText;
    TableSpelled(" ", schema, table, l);
    OneSpelled(GAP12, Word("FROM"), TableLayout(" ", schema, table, l));
  }

  lemma SelectHeadLaid(rest: Layout, m: nat)
    requires rest.Tok? && rest.gap == " " && Laid(rest, 0, m)
    ensures Laid(SelectHead(rest), 0, m)
  {
    hide Laid;
    var l1 := Tok(GAP12, Word("SELECT"), rest);
    TokLaid(GAP12, Word("SELECT"), rest, 0, m);
    TokLaid(" ", Sym("("), l1, 0, m);
    TokLaid(GAP8, Word("FROM"), Tok(" ", Sym("("), l1), 0, m);
    JsonLaid(GAP8, "t", Tok(GAP8, Word("FROM"), Tok(" ", Sym("("), l1)), 0, m);
  }

  lemma SelectHeadSpelled(rest: Layout)
    ensures Spell(SelectHead(rest)) == SelectHeadText() + Spell(rest)
  {
    var l1 := Tok(GAP12, Word("SELECT"), rest);
    assert TokenText(Word("FROM")) == "FROM" && TokenText(Word("SELECT")) == "SELECT" && TokenText(Sym("(")) == "(";
    hide Spell, TokenText, JsonText, JsonLayout;
    OneSpelled(GAP12, Word("SELECT"), rest);
    TwoSpelled(GAP8, Word("FROM"), " ", Sym("("), l1);
    JsonSpelled(GAP8, "t", Tok(GAP8, Word("FROM"), Tok(" ", Sym("("), l1)));
    SelectHeadSeam(JsonText(GAP8, "t"), Spell(rest));
  }

  lemma SelectHeadSeam(json: string, rest: string)
    ensures json + (GAP8 + "FROM" + " " + "(" + (GAP12 + "SELECT" + rest))
         == json + "\n        FROM (\n            SELECT" + rest
  {
    assert GAP8 + "FROM" + " " + "(" + (GAP12 + "SELECT") == "\n        FROM (\n            SELECT";
  }

  /** The end of an INSERT: `RETURNING` and the outer SELECT. */
  function InsertEnd(): (l: Layout)
    ensures l.Tok? && l.gap == GAP16
  {
    CloseLayout(GAP16, GAP12, GAP12, "ins")
  }

  function InsertHead(schema: string, table: string, rest: Layout): (l: Layout)
    ensures l.Tok?
  {
    OpenLayout(GAP12, "ins", WordsLayout(GAP16, ["INSERT", "INTO"], TableLayout(" ", schema, table, rest)))
  }

  function InsertHeadText(schema: string, table: string): string {
    OpenText(GAP12, "ins") + "\n                INSERT INTO " + TableText(schema, table)
  }

  lemma InsertHeadLaid(schema: string, table: string, rest: Layout, m: nat)
    requires ValidName(schema) && ValidName(table) && Ready(rest, 0, m)
    ensures Laid(InsertHead(schema, table, rest), 0, m)
  {
    hide Laid;
    TableLaid(" ", schema, table, rest, 0, m);
    WordsLaid(GAP16, ["INSERT", "INTO"], TableLayout(" ", schema, table, rest), 0, m);
    OpenLaid(GAP12, "ins", WordsLayout(GAP16, ["INSERT", "INTO"], TableLayout(" ", schema, table, rest)), 0, m);
  }

  lemma InsertHeadSpelled(schema: string, table: string, rest: Layout)
    ensures Spell(InsertHead(schema, table, rest)) == InsertHeadText(schema, table) + Spell(rest)
  {
    var l := TableLayout(" ", schema, table, rest);
    assert GAP16 + Join(["INSERT", "INTO"], " ") + " " == "\n                INSERT INTO ";
    hide Spell, Join, TableText, OpenText;
    TableSpelled(" ", schema, table, rest);
    WordsSpelled(GAP16, ["INSERT", "INTO"], l);
    OpenSpelled(GAP12, "ins", WordsLayout(GAP16, ["INSERT", "INTO"], l));
  }

  /** `("c1", "c2") VALUES (...), (...)` */
  function ValuesLayout(columns: seq<string>, rows: seq<seq<Cell>>): (l: Layout)
    requires columns != [] && ValidRows(rows)
    ensures l.Tok? && l.gap == " "
  {
    Tok(" ", Sym("("), NamesLayout("", columns,
      Tok("", Sym(")"), Tok(GAP16, Word("VALUES"), RowsLayout(rows, 0, InsertEnd())))))
  }

  function ValuesText(columns: seq<string>, rows: seq<seq<Cell>>): string {
    " (" + Join(NameTexts(columns), ", ") + ")" + "\n                VALUES " + Join(RowTexts(rows, 0), ", ")
  }

  lemma InsertEndLaid(m: nat)
    ensures Ready(InsertEnd(), m, m)
  {
    CloseLaid(GAP16, GAP12, GAP12, "ins", m);
  }

  lemma ValuesLaid(columns: seq<string>, rows: seq<seq<Cell>>)
    requires ValidNames(columns) && ValidRows(rows)
    ensures Ready(ValuesLayout(columns, rows), 0, |RowsBinds(rows)|)
  {
    hide Laid, RowsBinds, RowsLayout, ValidRows, InsertEnd;
    var m := |RowsBinds(rows)|;
    InsertEndLaid(m);
    RowsLaid(rows, 0, InsertEnd(), m);
    var l1 := Tok(GAP16, Word("VALUES"), RowsLayout(rows, 0, InsertEnd()));
    TokLaid(GAP16, Word("VALUES"), RowsLayout(rows, 0, InsertEnd()), 0, m);
    TokLaid("", Sym(")"), l1, 0, m);
    NamesLaid("", columns, Tok("", Sym(")"), l1), 0, m);
    TokLaid(" ", Sym("("), NamesLayout("", columns, Tok("", Sym(")"), l1)), 0, m);
  }

  lemma ValuesSpelled(columns: seq<string>, rows: seq<seq<Cell>>)
    requires columns != [] && ValidRows(rows)
    ensures Spell(ValuesLayout(columns, rows)) == ValuesText(columns, rows) + Spell(InsertEnd())
  {
    assert TokenText(Sym("(")) == "(" && TokenText(Sym(")")) == ")" && TokenText(Word("VALUES")) == "VALUES";
    assert "," + " " == ", ";
    hide Spell, TokenText, Join, RowTexts, NameTexts, RowsLayout, NamesLayout, ValidRows, InsertEnd;
    var l2 := RowsLayout(rows, 0, InsertEnd());
    RowsSpelled(rows, 0, InsertEnd());
    var l1 := Tok(GAP16, Word("VALUES"), l2);
    TwoSpelled("", Sym(")"), GAP16, Word("VALUES"), l2);
    NamesSpelled("", columns, Tok("", Sym(")"), l1));
    OneSpelled(" ", Sym("("), NamesLayout("", columns, Tok("", Sym(")"), l1)));
    ValuesSeam(Join(NameTexts(columns), ", "), Join(RowTexts(rows, 0), ", "), Spell(InsertEnd()));
  }

  lemma ValuesSeam(names: string, rows: string, rest: string)
    ensures " " + "(" + ("" + names + ("" + ")" + GAP16 + "VALUES" + (" " + rows + rest)))
         == " (" + names + ")" + "\n                VALUES " + rows + rest
  {
    assert " " + "(" == " (";
    assert GAP16 + "VALUES" + " " == "\n                VALUES ";
  }

  function UpdateEnd(): (l: Layout)
    ensures l.Tok? && l.gap == GAP12
  {
    CloseLayout(GAP12, GAP8, " ", "updated")
  }

  function DeleteEnd(): (l: Layout)
    ensures l.Tok? && l.gap == GAP12
  {
    CloseLayout(GAP12, GAP8, GAP8, "deleted")
  }

  function WhereAndEnd(conds: seq<Cond>, n: nat, end: Layout): (l: Layout)
    requires end.Tok?
    ensures l.Tok? && l.gap != ""
  {
    Indent(GAP12, WhereLayout(conds, n, end))
  }

  lemma WhereAndEndLaid(conds: seq<Cond>, n: nat, end: Layout, m: nat)
    requires end.Tok? && ValidConds(conds) && Ready(end, n + |CondsBinds(conds)|, m)
    ensures Ready(WhereAndEnd(conds, n, end), n, m)
  {
    hide WhereLayout, CondsBinds, Laid, ValidConds;
    WhereLaid(conds, n, end, m);
    IndentLaid(GAP12, WhereLayout(conds, n, end), n, m);
  }

  lemma WhereAndEndSpelled(conds: seq<Cond>, n: nat, end: Layout)
    requires end.Tok?
    ensures Spell(WhereAndEnd(conds, n, end)) == "\n            " + WhereText(conds, n) + Spell(end)
  {
    hide WhereLayout, WhereText, Spell;
    WhereSpelled(conds, n, end);
    IndentSpelled(GAP12, WhereLayout(conds, n, end));
    Associative(GAP12, WhereText(conds, n), Spell(end));
  }

  function UpdateHead(schema: string, table: string, rest: Layout): (l: Layout)
    ensures l.Tok?
  {
    OpenLayout(GAP8, "updated",
      Tok(GAP12, Word("UPDATE"), TableLayout(" ", schema, table, Tok(GAP12, Word("SET"), rest))))
  }

  function UpdateHeadText(schema: string, table: string): string {
    OpenText(GAP8, "updated") + "\n            UPDATE " + TableText(schema, table) + "\n            SET"
  }

  lemma UpdateHeadLaid(schema: string, table: string, rest: Layout, m: nat)
    requires ValidName(schema) && ValidName(table) && Laid(rest, 0, m) && Detached(rest)
    ensures Laid(UpdateHead(schema, table, rest), 0, m)
  {
    hide Laid;
    var l1 := Tok(GAP12, Word("SET"), rest);
    TokLaid(GAP12, Word("SET"), rest, 0, m);
    TableLaid(" ", schema, table, l1, 0, m);
    var l2 := Tok(GAP12, Word("UPDATE"), TableLayout(" ", schema, table, l1));
    TokLaid(GAP12, Word("UPDATE"), TableLayout(" ", schema, table, l1), 0, m);
    OpenLaid(GAP8, "updated", l2, 0, m);
  }

  lemma UpdateHeadSpelled(schema: string, table: string, rest: Layout)
    ensures Spell(UpdateHead(schema, table, rest)) == UpdateHeadText(schema, table) + Spell(rest)
  {
    var l1 := Tok(GAP12, Word("SET"), rest);
    assert TokenText(Word("SET")) == "SET" && TokenText(Word("UPDATE")) == "UPDATE";
    assert GAP12 + "UPDATE" + " " == "\n            UPDATE " && GAP12 + "SET" == "\n            SET";
    hide Spell, TokenText, TableText, OpenText;
    OneSpelled(GAP12, Word("SET"), rest);
    TableSpelled(" ", schema, table, l1);
    OneSpelled(GAP12, Word("UPDATE"), TableLayout(" ", schema, table, l1));
    OpenSpelled(GAP8, "updated", Tok(GAP12, Word("UPDATE"), TableLayout(" ", schema, table, l1)));
  }

  function DeleteHead(schema: string, table: string, rest: Layout): (l: Layout)
    ensures l.Tok?
  {
    OpenLayout(GAP8, "deleted", WordsLayout(GAP12, ["DELETE", "FROM"], TableLayout(" ", schema, table, rest)))
  }

  function DeleteHeadText(schema: string, table: string): string {
    OpenText(GAP8, "deleted") + "\n            DELETE FROM " + TableText(schema, table)
  }

  lemma DeleteHeadLaid(schema: string, table: string, rest: Layout, m: nat)
    requires ValidName(schema) && ValidName(table) && Ready(rest, 0, m)
    ensures Laid(DeleteHead(schema, table, rest), 0, m)
  {
    hide Laid;
    TableLaid(" ", schema, table, rest, 0, m);
    WordsLaid(GAP12, ["DELETE", "FROM"], TableLayout(" ", schema, table, rest), 0, m);
    OpenLaid(GAP8, "deleted", WordsLayout(GAP12, ["DELETE", "FROM"], TableLayout(" ", schema, table, rest)), 0, m);
  }

  lemma DeleteHeadSpelled(schema: string, table: string, rest: Layout)
    ensures Spell(DeleteHead(schema, table, rest)) == DeleteHeadText(schema, table) + Spell(rest)
  {
    var l := TableLayout(" ", schema, table, rest);
    assert GAP12 + Join(["DELETE", "FROM"], " ") + " " == "\n            DELETE FROM ";
    hide Spell, Join, TableText, OpenText;
    TableSpelled(" ", schema, table, rest);
    WordsSpelled(GAP12, ["DELETE", "FROM"], l);
    OpenSpelled(GAP8, "deleted", WordsLayout(GAP12, ["DELETE", "FROM"], l));
  }

  /** The layout of a whole statement. */
  function StatementLayout(s: Statement): (l: Layout)
    requires ValidStatement(s)
  {
    match s
    case Select(schema, table, projection, conds, order, limit, offset) =>
      SelectHead(ProjectionLayout(projection, SelectFrom(schema, table, SelectClauses(conds, order, limit, offset))))
    case InsertDefault(schema, table) =>
      InsertHead(schema, table, WordsLayout(" ", ["DEFAULT", "VALUES"], InsertEnd()))
    case Insert(schema, table, columns, rows) =>
      InsertHead(schema, table, ValuesLayout(columns, rows))
    case Update(schema, table, sets, conds) =>
      UpdateHead(schema, table, SetsLayout(sets, 0, WhereAndEnd(conds, |SetsBinds(sets)|, UpdateEnd())))
    case Delete(schema, table, conds) =>
      DeleteHead(schema, table, WhereAndEnd(conds, 0, DeleteEnd()))
  }

  /** The text of a whole statement, as the `format!` templates write it. */
  function StatementText(s: Statement): string {
    match s
    case Select(schema, table, projection, conds, order, limit, offset) =>
      SelectHeadText() + " " + ProjectionText(projection) + "\n            FROM " + TableText(schema, table)
      + "\n            " + SelectClausesText(conds, order, limit, offset)
    case InsertDefault(schema, table) =>
      InsertHeadText(schema, table) + " DEFAULT VALUES" + CloseText(GAP16, GAP12, GAP12, "ins")
    case Insert(schema, table, columns, rows) =>
      InsertHeadText(schema, table) + ValuesText(columns, rows) + CloseText(GAP16, GAP12, GAP12, "ins")
    case Update(schema, table, sets, conds) =>
      UpdateHeadText(schema, table) + " " + Join(SetTexts(sets, 0), ", ")
      + "\n            " + WhereText(conds, |SetsBinds(sets)|) + CloseText(GAP12, GAP8, " ", "updated")
    case Delete(schema, table, conds) =>
      DeleteHeadText(schema, table) + "\n            " + WhereText(conds, 0) + CloseText(GAP12, GAP8, GAP8, "deleted")
  }

  lemma UpdateLaid(s: Statement)
    requires ValidStatement(s) && s.Update?
    ensures Laid(StatementLayout(s), 0, |StatementBinds(s)|)
  {
    hide Laid, CondsBinds, SetsBinds, UpdateEnd, UpdateHead, SetsLayout, WhereAndEnd, ValidConds;
    var k, m := |SetsBinds(s.sets)|, |StatementBinds(s)|;
    UpdateEndLaid(m);
    var l1 := WhereAndEnd(s.conds, k, UpdateEnd());
    WhereAndEndLaid(s.conds, k, UpdateEnd(), m);
    SetsLaid(s.sets, 0, l1, m);
    UpdateHeadLaid(s.schema, s.table, SetsLayout(s.sets, 0, l1), m);
  }

  lemma UpdateSpelled(s: Statement)
    requires ValidStatement(s) && s.Update?
    ensures Spell(StatementLayout(s)) == StatementText(s)
  {
    assert "," + " " == ", ";
    hide Laid, Spell, SetsBinds, UpdateEnd, UpdateHead, UpdateHeadText, CloseText, WhereText, SetsLayout,
      SetTexts, Join, WhereAndEnd, CloseLayout, ValidConds, ValidSets;
    var k := |SetsBinds(s.sets)|;
    UpdateEndLaid(0);
    var l1 := WhereAndEnd(s.conds, k, UpdateEnd());
    WhereAndEndSpelled(s.conds, k, UpdateEnd());
    SetsSpelled(s.sets, 0, l1);
    UpdateHeadSpelled(s.schema, s.table, SetsLayout(s.sets, 0, l1));
    UpdateSeam(UpdateHeadText(s.schema, s.table), Join(SetTexts(s.sets, 0), ", "), WhereText(s.conds, k),
      Spell(UpdateEnd()));
  }

  lemma UpdateSeam(head: string, sets: string, conds: string, end: string)
    ensures head + (" " + sets + ("\n            " + conds + end)) == head + " " + sets + "\n            " + conds + end
  {
  }

  lemma UpdateEndLaid(m: nat)
    ensures Ready(UpdateEnd(), m, m)
    ensures Spell(UpdateEnd()) == CloseText(GAP12, GAP8, " ", "updated")
  {
    CloseLaid(GAP12, GAP8, " ", "updated", m);
    CloseSpelled(GAP12, GAP8, " ", "updated");
  }

  lemma DeleteLaid(s: Statement)
    requires ValidStatement(s) && s.Delete?
    ensures Laid(StatementLayout(s), 0, |StatementBinds(s)|)
  {
    hide Laid, CondsBinds, DeleteEnd, DeleteHead, WhereAndEnd, ValidConds;
    var m := |StatementBinds(s)|;
    DeleteEndLaid(m);
    var l1 := WhereAndEnd(s.conds, 0, DeleteEnd());
    WhereAndEndLaid(s.conds, 0, DeleteEnd(), m);
    DeleteHeadLaid(s.schema, s.table, l1, m);
  }

  lemma DeleteSpelled(s: Statement)
    requires ValidStatement(s) && s.Delete?
    ensures Spell(StatementLayout(s)) == StatementText(s)
  {
    hide Laid, Spell, DeleteEnd, DeleteHead, DeleteHeadText, CloseText, WhereText, WhereAndEnd, CloseLayout, ValidConds;
    DeleteEndLaid(0);
    var l1 := WhereAndEnd(s.conds, 0, DeleteEnd());
    WhereAndEndSpelled(s.conds, 0, DeleteEnd());
    DeleteHeadSpelled(s.schema, s.table, l1);
    Associative(DeleteHeadText(s.schema, s.table), "\n            ", WhereText(s.conds, 0));
    Associative(DeleteHeadText(s.schema, s.table), "\n            " + WhereText(s.conds, 0), Spell(DeleteEnd()));
  }

  lemma DeleteEndLaid(m: nat)
    ensures Ready(DeleteEnd(), m, m)
    ensures Spell(DeleteEnd()) == CloseText(GAP12, GAP8, GAP8, "deleted")
  {
    CloseLaid(GAP12, GAP8, GAP8, "deleted", m);
    CloseSpelled(GAP12, GAP8, GAP8, "deleted");
  }

  lemma InsertLaid(s: Statement)
    requires ValidStatement(s) && s.Insert?
    ensures Laid(StatementLayout(s), 0, |StatementBinds(s)|)
  {
    hide Laid, RowsBinds, InsertHead, ValuesLayout, ValidRows;
    ValuesLaid(s.columns, s.rows);
    InsertHeadLaid(s.schema, s.table, ValuesLayout(s.columns, s.rows), |StatementBinds(s)|);
  }

  lemma InsertSpelled(s: Statement)
    requires ValidStatement(s) && s.Insert?
    ensures Spell(StatementLayout(s)) == StatementText(s)
  {
    InsertEndSpelled();
    hide Laid, Spell, InsertEnd, InsertHead, InsertHeadText, ValuesLayout, ValuesText, CloseText, ValidRows;
    ValuesSpelled(s.columns, s.rows);
    InsertHeadSpelled(s.schema, s.table, ValuesLayout(s.columns, s.rows));
    Associative(InsertHeadText(s.schema, s.table), ValuesText(s.columns, s.rows), Spell(InsertEnd()));
  }

  lemma InsertEndSpelled()
    ensures Spell(InsertEnd()) == CloseText(GAP16, GAP12, GAP12, "ins")
  {
    CloseSpelled(GAP16, GAP12, GAP12, "ins");
  }

  lemma DefaultValuesText()
    ensures " " + Join(["DEFAULT", "VALUES"], " ") == " DEFAULT VALUES"
  {
  }

  lemma InsertDefaultLaid(s: Statement)
    requires ValidStatement(s) && s.InsertDefault?
    ensures Laid(StatementLayout(s), 0, |StatementBinds(s)|)
  {
    hide Laid, InsertEnd, InsertHead, WordsLayout;
    var l := WordsLayout(" ", ["DEFAULT", "VALUES"], InsertEnd());
    InsertEndLaid(0);
    WordsLaid(" ", ["DEFAULT", "VALUES"], InsertEnd(), 0, 0);
    InsertHeadLaid(s.schema, s.table, l, 0);
  }

  lemma InsertDefaultSpelled(s: Statement)
    requires ValidStatement(s) && s.InsertDefault?
    ensures Spell(StatementLayout(s)) == StatementText(s)
  {
    DefaultValuesText();
    hide Laid, Spell, Join, InsertEnd, InsertHead, InsertHeadText, CloseText, WordsLayout;
    var l := WordsLayout(" ", ["DEFAULT", "VALUES"], InsertEnd());
    InsertEndSpelled();
    WordsSpelled(" ", ["DEFAULT", "VALUES"], InsertEnd());
    InsertHeadSpelled(s.schema, s.table, l);
    Associative(InsertHeadText(s.schema, s.table), " DEFAULT VALUES", Spell(InsertEnd()));
  }

  lemma SelectLaid(s: Statement)
    requires ValidStatement(s) && s.Select?
    ensures Laid(StatementLayout(s), 0, |StatementBinds(s)|)
  {
    var Select(schema, table, projection, conds, order, limit, offset) := s;
    var m := |StatementBinds(s)|;
    hide Laid, CondsBinds, SelectHead, SelectClauses, SelectFrom, ProjectionLayout, ValidConds, ValidNames;
    var l0 := SelectClauses(conds, order, limit, offset);
    SelectClausesLaid(conds, order, limit, offset, m);
    var l1 := SelectFrom(schema, table, l0);
    SelectFromLaid(schema, table, l0, m);
    var l2 := ProjectionLayout(projection, l1);
    ProjectionLaid(projection, l1, 0, m);
    SelectHeadLaid(l2, m);
  }

  lemma SelectSpelled(s: Statement)
    requires ValidStatement(s) && s.Select?
    ensures Spell(StatementLayout(s)) == StatementText(s)
  {
    var Select(schema, table, projection, conds, order, limit, offset) := s;
    hide Laid, Spell, SelectHead, SelectHeadText, SelectClauses, SelectClausesText, SelectFrom,
      ProjectionLayout, ProjectionText, TableText, ValidConds, ValidNames;
    var l0 := SelectClauses(conds, order, limit, offset);
    SelectClausesSpelled(conds, order, limit, offset);
    var l1 := SelectFrom(schema, table, l0);
    SelectFromSpelled(schema, table, l0);
    var l2 := ProjectionLayout(projection, l1);
    ProjectionSpelled(projection, l1);
    SelectHeadSpelled(l2);
    SelectSeam(SelectHeadText(), ProjectionText(projection), TableText(schema, table), Spell(l0));
  }

  lemma SelectSeam(head: string, cols: string, table: string, clauses: string)
    ensures head + (" " + cols + ("\n            FROM " + table + "\n            " + clauses))
         == head + " " + cols + "\n            FROM " + table + "\n            " + clauses
  {
  }

  /** Every statement is laid out readably, with placeholders `$1` to `$n` for its `n` bound values. */
  lemma StatementLaid(s: Statement)
    requires ValidStatement(s)
    ensures Laid(StatementLayout(s), 0, |StatementBinds(s)|)
    ensures Spell(StatementLayout(s)) == StatementText(s)
  {
    hide Laid, StatementLayout, StatementText, ValidStatement;
    match s
    case Select(_, _, _, _, _, _, _) =>
      SelectLaid(s);
      SelectSpelled(s);
    case InsertDefault(_, _) =>
      InsertDefaultLaid(s);
      InsertDefaultSpelled(s);
    case Insert(_, _, _, _) =>
      InsertLaid(s);
      InsertSpelled(s);
    case Update(_, _, _, _) =>
      UpdateLaid(s);
      UpdateSpelled(s);
    case Delete(_, _, _) =>
      DeleteLaid(s);
      DeleteSpelled(s);
  }
}
