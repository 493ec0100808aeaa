/** `build_select_sql` of `virtual_crud/select.rs`: markers patched into placeholders. */
module SelectBuilder {
  import opened Wrappers
  import opened Text
  import opened Catalog
  import opened SqlTokens
  import opened SqlStatements
  import opened SqlFrames
  import opened SqlReader
  import opened SqlNames
  import opened SqlMeaning
  import opened WhereClause
  import opened Markers

  // ---------------------------------------------------------------- the request

  function ProjectionOf(meta: TableMeta, select: Option<seq<string>>): Result<Projection> {
    if select.None? || select.value == [] then Ok(AllColumns)
    else
      var _ :- CheckColumns(meta, select.value);
      Ok(Columns(select.value))
  }

  function CheckOrder(meta: TableMeta, order: Option<(string, bool)>): Result<()> {
    if order.None? then Ok(()) else CheckColumn(meta, order.value.0)
  }

  function IntOption(o: Option<int>): Option<string> {
    if o.Some? then Some(IntText(o.value)) else None
  }

  /** The statement the options ask for, or the first error in the order of the checks. */
  function SelectRequest(meta: TableMeta, opts: QueryOptions): Result<Statement> {
    var projection :- ProjectionOf(meta, opts.select);
    var conds :- CondsOf(meta, opts.filters);
    var _ :- CheckOrder(meta, opts.orderBy);
    Ok(Select(meta.schema, meta.name, projection, conds, opts.orderBy, IntOption(opts.limit), IntOption(opts.offset)))
  }

  /** What a SELECT needs of its options. */
  predicate SelectAccepts(meta: TableMeta, opts: QueryOptions) {
    && (opts.select.Some? ==> forall i | 0 <= i < |opts.select.value| :: KnownColumn(meta, opts.select.value[i]))
    && AllAccepted(meta, opts.filters)
    && (opts.orderBy.Some? ==> KnownColumn(meta, opts.orderBy.value.0))
  }

  lemma SelectAccepted(meta: TableMeta, opts: QueryOptions)
    ensures SelectRequest(meta, opts).Ok? <==> SelectAccepts(meta, opts)
  {
    CondsOfAccepted(meta, opts.filters);
    if opts.select.Some? {
      CheckColumnsKnown(meta, opts.select.value);
    }
  }

  // ---------------------------------------------------------------- the text before and after patching

  const SELECT_END := "\n        ) t\n        "

  /** The statement up to its LIMIT. */
  function SelectBody(s: Statement): string
    requires s.Select?
  {
    SelectHeadText() + " " + ProjectionText(s.projection) + "\n            FROM " + TableText(s.schema, s.table)
    + "\n            " + WhereText(s.conds, 0) + OrderText(s.order)
  }

  function MarkedClause(word: string, mark: string, o: Option<string>): string {
    if o.Some? then word + mark else ""
  }

  function MarkedText(s: Statement): string
    requires s.Select?
  {
    SelectBody(s) + MarkedClause(" LIMIT ", LIM, s.limit) + MarkedClause(" OFFSET ", OFF, s.offset) + SELECT_END
  }

  function Patch(sql: string, mark: string, o: Option<string>, n: nat): string
    requires mark != ""
  {
    if o.Some? then Replace(sql, mark, "$" + Dec(n)) else sql
  }

  /** The text with `$LIM` replaced first, then `$OFF`, wherever they occur. */
  function PatchedText(s: Statement): string
    requires s.Select?
  {
    var n := |CondsBinds(s.conds)|;
    Patch(Patch(MarkedText(s), LIM, s.limit, n + 1), OFF, s.offset, n + |OptionBinds(s.limit)| + 1)
  }

  // ---------------------------------------------------------------- the builder

  method ProjectionSql(meta: TableMeta, coltypes: map<string, string>,
                       select: Option<seq<string>>) returns (r: Result<string>)
    requires coltypes == ColumnTypes(meta.columns)
    ensures match ProjectionOf(meta, select)
      case Ok(p) => r == Ok(ProjectionText(p))
      case Err(e) => r == Err(e)
  {
    if select.None? || select.value == [] {
      return Ok("*");
    }
    var cols, acc := select.value, [];
    assert NameTexts([]) == [] && cols[..0] == [] && CheckColumns(meta, []) == Ok(());
    hide ColumnTypes, IsIdent, NameTexts, Join, KnownColumn;
    for i := 0 to |cols|
      invariant CheckColumns(meta, cols[..i]).Ok?
      invariant acc == NameTexts(cols[..i])
    {
      var c := CheckColumn(meta, cols[i]);
      if c.Err? {
        CheckColumnsError(meta, cols, i);
        return Err(c.error);
      }
      assert cols[..i + 1][..i] == cols[..i];
      NameTextsSnoc(cols[..i], cols[i]);
      assert cols[..i + 1] == cols[..i] + [cols[i]];
      acc := acc + ["\"" + cols[i] + "\""];
    }
    assert cols[..|cols|] == cols;
    r := Ok(Join(acc, ", "));
  }

  /** The unpatched text, and the values that WHERE binds. */
  method MarkedSql(meta: TableMeta, opts: QueryOptions) returns (r: Result<(string, seq<string>)>)
    ensures match SelectRequest(meta, opts)
      case Ok(s) => r == Ok((MarkedText(s), CondsBinds(s.conds)))
      case Err(e) => r == Err(e)
  {
    hide CondsOf, CondsBinds, ProjectionText, WhereText, ColumnTypes, IsIdent, CheckColumns, TableText, SelectHeadText;
    var coltypes := IndexColumns(meta.columns);
    var cols :- ProjectionSql(meta, coltypes, opts.select);
    var vec := new BindVec();
    var where :- BuildWhereSql(meta, opts, vec);
    var order := "";
    if opts.orderBy.Some? {
      var (col, desc) := opts.orderBy.value;
      var _ :- CheckColumn(meta, col);
      order := " ORDER BY \"" + col + "\" " + (if desc then "DESC" else "ASC");
      OrderShape(col, desc);
    }
    var limit := if opts.limit.Some? then " LIMIT $LIM" else "";
    var offset := if opts.offset.Some? then " OFFSET $OFF" else "";
    MarkShapes();
    var sql := SelectHeadText() + " " + cols + "\n            FROM " + TableText(meta.schema, meta.name)
      + "\n            " + where + order + limit + offset + SELECT_END;
    ghost var s := SelectRequest(meta, opts).value;
    assert vec.items == CondsBinds(s.conds);
    assert sql == MarkedText(s);
    r := Ok((sql, vec.items));
  }

  /** The statement text and its bound values, or the first error. */
  method BuildSelectSql(meta: TableMeta, opts: QueryOptions) returns (r: Result<(string, seq<string>)>)
    ensures match SelectRequest(meta, opts)
      case Ok(s) => r == Ok((PatchedText(s), StatementBinds(s)))
      case Err(e) => r == Err(e)
  {
    hide CondsOf, CondsBinds, MarkedText, Replace, Dec, ProjectionOf, CheckOrder, IntText;
    var marked :- MarkedSql(meta, opts);
    var (sql, binds) := marked;
    var extra: seq<int> := [];
    if opts.limit.Some? {
      sql := Replace(sql, "$LIM", "$" + Dec(|binds| + 1));
      extra := extra + [opts.limit.value];
    }
    if opts.offset.Some? {
      sql := Replace(sql, "$OFF", "$" + Dec(|binds| + |extra| + 1));
      extra := extra + [opts.offset.value];
    }
    ExtraBinds(opts.limit, opts.offset);
    ghost var before := binds;
    for i := 0 to |extra|
      invariant binds == before + Decimals(extra[..i])
    {
      assert extra[..i + 1] == extra[..i] + [extra[i]];
      binds := binds + [IntText(extra[i])];
    }
    assert extra[..|extra|] == extra;
    ghost var s := SelectRequest(meta, opts).value;
    assert before == CondsBinds(s.conds);
    assert sql == PatchedText(s);
    assert binds == StatementBinds(s);
    r := Ok((sql, binds));
  }

  function Decimals(vs: seq<int>): seq<string> {
    seq(|vs|, i requires 0 <= i < |vs| => IntText(vs[i]))
  }

  lemma ExtraBinds(limit: Option<int>, offset: Option<int>)
    ensures var extra := (if limit.Some? then [limit.value] else []) + (if offset.Some? then [offset.value] else []);
      Decimals(extra) == OptionBinds(IntOption(limit)) + OptionBinds(IntOption(offset))
    ensures |OptionBinds(IntOption(limit))| == if limit.Some? then 1 else 0
  {
  }

  lemma OrderShape(col: string, desc: bool)
    ensures " ORDER BY \"" + col + "\" " + Direction(desc) == OrderText(Some((col, desc)))
  {
    assert " ORDER BY \"" == " ORDER BY " + "\"" && "\" " == "\"" + " ";
  }

  lemma MarkShapes()
    ensures " LIMIT $LIM" == " LIMIT " + LIM && " OFFSET $OFF" == " OFFSET " + OFF
  {
  }

  // ---------------------------------------------------------------- when patching is harmless

  predicate IdentStatement(s: Statement) {
    && s.Select?
    && (s.projection.Columns? ==> s.projection.names != [] && forall i | 0 <= i < |s.projection.names| :: IsIdent(s.projection.names[i]))
    && (forall i | 0 <= i < |s.conds| :: IdentCond(s.conds[i]))
    && (s.order.Some? ==> IsIdent(s.order.value.0))
  }

  lemma CondIdents(meta: TableMeta, f: Filter)
    requires CondOf(meta, f).Ok?
    ensures IdentCond(CondOf(meta, f).value)
  {
    CastsAreIdents();
    assert "text" in CASTS;
  }

  lemma RequestIdents(meta: TableMeta, opts: QueryOptions)
    requires SelectRequest(meta, opts).Ok?
    ensures IdentStatement(SelectRequest(meta, opts).value)
  {
    hide CondOf, IsIdent, CondsOf, IdentCond, HasColumn;
    SelectAccepted(meta, opts);
    CondsOfAccepted(meta, opts.filters);
    var conds := CondsOf(meta, opts.filters).value;
    forall i | 0 <= i < |conds| ensures IdentCond(conds[i]) {
      CondIdents(meta, opts.filters[i]);
    }
  }

  lemma HeadTextNumbered()
    ensures DollarsNumbered(SelectHeadText() + " ")
  {
    assert '$' !in GAP8 && '$' !in "SELECT row_to_json(" && '$' !in "t" && '$' !in ") AS data";
    assert '$' !in "\n        FROM (\n            SELECT" && '$' !in " ";
    assert '$' !in SelectHeadText() + " ";
  }

  lemma HeadNumbered(p: Projection)
    requires p.Columns? ==> forall i | 0 <= i < |p.names| :: IsIdent(p.names[i])
    ensures DollarsNumbered(SelectHeadText() + " " + ProjectionText(p) + "\n            FROM ")
  {
    HeadTextNumbered();
    assert DollarsNumbered("\n            FROM ") && DollarsNumbered("*") && DollarsNumbered(", ");
    hide DollarsNumbered, SelectHeadText, Join, IsIdent;
    if p.Columns? {
      NumberedNames(p.names);
      NumberedJoin(NameTexts(p.names), ", ");
    }
    NumberedConcat(SelectHeadText() + " ", ProjectionText(p));
    NumberedConcat(SelectHeadText() + " " + ProjectionText(p), "\n            FROM ");
  }

  lemma TailNumbered(conds: seq<Cond>, order: Option<(string, bool)>)
    requires forall i | 0 <= i < |conds| :: IdentCond(conds[i])
    requires order.Some? ==> IsIdent(order.value.0)
    ensures DollarsNumbered("\n            " + WhereText(conds, 0) + OrderText(order))
  {
    assert DollarsNumbered("\n            ");
    NumberedWhere(conds, 0);
    OrderNumbered(order);
    hide DollarsNumbered, WhereText, OrderText;
    NumberedConcat("\n            ", WhereText(conds, 0));
    NumberedConcat("\n            " + WhereText(conds, 0), OrderText(order));
  }

  lemma OrderNumbered(order: Option<(string, bool)>)
    requires order.Some? ==> IsIdent(order.value.0)
    ensures DollarsNumbered(OrderText(order))
  {
    if order.Some? {
      var (col, desc) := order.value;
      NumberedName(col);
      assert DollarsNumbered(" ORDER BY ") && DollarsNumbered(" " + Direction(desc));
      hide DollarsNumbered, QuoteName, Direction;
      NumberedConcat(" ORDER BY ", QuoteName(col));
      NumberedConcat(" ORDER BY " + QuoteName(col), " " + Direction(desc));
      Associative(" ORDER BY " + QuoteName(col), " ", Direction(desc));
    }
  }

  lemma QuotedFree(name: string, q: string)
    requires IsMark(q) && FreeOf(name, q)
    ensures FreeOf(QuoteName(name), q)
  {
    NumberedFree("\"", q);
    FreeOfConcat("\"", name, q);
    FreeOfConcat("\"" + name, "\"", q);
  }

  lemma TableFree(schema: string, table: string, q: string)
    requires IsMark(q) && FreeOf(schema, q) && FreeOf(table, q)
    ensures FreeOf(TableText(schema, table), q)
  {
    QuotedFree(schema, q);
    QuotedFree(table, q);
    NumberedFree(".", q);
    FreeOfConcat(QuoteName(schema), ".", q);
    FreeOfConcat(QuoteName(schema) + ".", QuoteName(table), q);
  }

  lemma BodyFree(s: Statement, q: string)
    requires IdentStatement(s) && IsMark(q) && FreeOf(s.schema, q) && FreeOf(s.table, q)
    ensures FreeOf(SelectBody(s), q)
  {
    var head := SelectHeadText() + " " + ProjectionText(s.projection) + "\n            FROM ";
    var table := TableText(s.schema, s.table);
    var tail := "\n            " + WhereText(s.conds, 0) + OrderText(s.order);
    HeadNumbered(s.projection);
    TailNumbered(s.conds, s.order);
    TableFree(s.schema, s.table, q);
    assert head[|head| - 1] == ' ' && tail[0] == '\n' && ' ' !in q && '\n' !in q;
    hide DollarsNumbered, FreeOf, SelectHeadText, ProjectionText, TableText, WhereText, OrderText;
    NumberedFree(head, q);
    NumberedFree(tail, q);
    FreeOfConcat(head, table, q);
    FreeOfConcat(head + table, tail, q);
    BodySeam(head, table, WhereText(s.conds, 0), OrderText(s.order));
  }

  lemma BodySeam(head: string, table: string, where: string, order: string)
    ensures head + table + ("\n            " + where + order) == head + table + "\n            " + where + order
  {
  }

  lemma OffsetMarkFree()
    ensures FreeOf(" OFFSET " + OFF, LIM)
  {
    var t := " OFFSET " + OFF;
    assert t == " OFFSET $OFF";
    assert forall i | 0 <= i < 12 && i != 8 :: t[i] != '$';
    forall i: nat ensures !OccursAt(t, LIM, i) {
      assert i + 4 <= |t| ==> t[i..i + 4][0] == t[i] && t[i..i + 4][1] == t[i + 1];
      assert LIM[0] == '$' && LIM[1] == 'L' && t[9] == 'O';
    }
  }

  lemma EndFree(q: string)
    requires IsMark(q)
    ensures FreeOf(SELECT_END, q)
  {
    assert '$' !in SELECT_END;
    NumberedFree(SELECT_END, q);
  }

  /** The text after the body, while it still holds its OFFSET marker, has no LIMIT marker. */
  lemma OffsetClauseFree(offset: Option<string>)
    ensures FreeOf(MarkedClause(" OFFSET ", OFF, offset) + SELECT_END, LIM)
  {
    OffsetMarkFree();
    EndFree(LIM);
    assert SELECT_END[0] == '\n' && '\n' !in LIM;
    hide FreeOf;
    if offset.Some? {
      FreeOfConcat(" OFFSET " + OFF, SELECT_END, LIM);
    } else {
      assert "" + SELECT_END == SELECT_END;
    }
  }

  lemma PatchSeam(a: string, b: string, mark: string, o: Option<string>, n: nat)
    requires IsMark(mark) && b != "" && b[0] !in mark
    ensures Patch(a + b, mark, o, n) == Patch(a, mark, o, n) + Patch(b, mark, o, n)
  {
    hide Replace, Dec;
    if o.Some? {
      ReplaceSeam(a, b, mark, "$" + Dec(n));
    }
  }

  lemma PatchFree(t: string, mark: string, o: Option<string>, n: nat)
    requires IsMark(mark) && (o.Some? ==> FreeOf(t, mark))
    ensures Patch(t, mark, o, n) == t
  {
    hide FreeOf, Replace, Dec;
    if o.Some? {
      ReplaceFree(t, mark, "$" + Dec(n));
    }
  }

  /** Patching rewrites the marker's own clause, and the names before it. */
  lemma PatchClause(body: string, word: string, mark: string, rest: string, o: Option<string>, n: nat)
    requires IsMark(mark) && FreeOf(rest, mark) && rest != "" && rest[0] !in mark
    requires word != "" && word[0] == ' ' && DollarsNumbered(word)
    ensures Patch(body + MarkedClause(word, mark, o) + rest, mark, o, n)
         == Patch(body, mark, o, n) + PatchedClause(word, o, n) + rest
  {
    assert Marker(LIM) && Marker(OFF) && ' ' !in mark;
    NumberedFree(word, mark);
    hide FreeOf, Replace, DollarsNumbered, Dec;
    if o.Some? {
      var with := "$" + Dec(n);
      ReplaceFirst(word, mark, rest, with);
      ReplaceFree(rest, mark, with);
      Associative(body, word + mark, rest);
      Associative(Replace(body, mark, with), word + with, rest);
      assert (word + mark + rest)[0] == ' ';
      ReplaceSeam(body, word + mark + rest, mark, with);
    } else {
      assert body + "" + rest == body + rest;
    }
  }

  function PatchedClause(word: string, o: Option<string>, n: nat): string {
    if o.Some? then word + ("$" + Dec(n)) else ""
  }

  lemma {:induction false} DecNumbered(n: nat)
    ensures DollarsNumbered("$" + Dec(n))
  {
    var d := Dec(n);
    assert IsDigit(d[0]);
    assert forall i | 0 <= i < |d| :: IsDigit(d[i]);
  }

  /** The statement up to its OFFSET, once the LIMIT marker is patched, has no OFFSET marker. */
  lemma LimitedFree(s: Statement, n: nat)
    requires s.Select? && FreeOf(SelectBody(s), OFF)
    ensures FreeOf(SelectBody(s) + (if s.limit.Some? then " LIMIT " + ("$" + Dec(n)) else ""), OFF)
  {
    if s.limit.Some? {
      DecNumbered(n);
      assert DollarsNumbered(" LIMIT ");
      assert ' ' !in OFF;
      NumberedConcat(" LIMIT ", "$" + Dec(n));
      NumberedFree(" LIMIT " + ("$" + Dec(n)), OFF);
      hide FreeOf, SelectBody, Dec, DollarsNumbered;
      FreeOfConcat(SelectBody(s), " LIMIT " + ("$" + Dec(n)), OFF);
    } else {
      assert SelectBody(s) + "" == SelectBody(s);
    }
  }

  /** No name of the table contains a marker that is going to be replaced. */
  ghost predicate NamesUnmarked(s: Statement)
    requires s.Select?
  {
    && (s.limit.Some? ==> FreeOf(s.schema, LIM) && FreeOf(s.table, LIM))
    && (s.offset.Some? ==> FreeOf(s.schema, OFF) && FreeOf(s.table, OFF))
  }

  function Renamed(s: Statement, schema: string, table: string): Statement
    requires s.Select?
  {
    Select(schema, table, s.projection, s.conds, s.order, s.limit, s.offset)
  }

  /** The statement with both names of the table patched. */
  function NamesPatched(s: Statement, mark: string, o: Option<string>, n: nat): (p: Statement)
    requires s.Select? && mark != ""
    ensures p.Select? && p == Renamed(s, p.schema, p.table)
  {
    Renamed(s, Patch(s.schema, mark, o, n), Patch(s.table, mark, o, n))
  }

  lemma QuotedPatched(name: string, mark: string, o: Option<string>, n: nat)
    requires IsMark(mark)
    ensures Patch(QuoteName(name), mark, o, n) == QuoteName(Patch(name, mark, o, n))
  {
    NumberedFree("\"", mark);
    hide FreeOf, Replace, Dec;
    if o.Some? {
      var with := "$" + Dec(n);
      ReplaceSeam("\"" + name, "\"", mark, with);
      ReplaceSeam("\"", name, mark, with);
      ReplaceFree("\"", mark, with);
    }
  }

  lemma TablePatched(schema: string, table: string, mark: string, o: Option<string>, n: nat)
    requires IsMark(mark)
    ensures Patch(TableText(schema, table), mark, o, n)
         == TableText(Patch(schema, mark, o, n), Patch(table, mark, o, n))
  {
    NumberedFree(".", mark);
    QuotedPatched(schema, mark, o, n);
    QuotedPatched(table, mark, o, n);
    PatchFree(".", mark, o, n);
    hide FreeOf, Patch;
    PatchSeam(QuoteName(schema) + ".", QuoteName(table), mark, o, n);
    hide QuoteName;
    PatchSeam(QuoteName(schema), ".", mark, o, n);
  }

  /** Before its LIMIT, a text has markers only in the names of its table. */
  lemma BodyPatched(s: Statement, mark: string, o: Option<string>, n: nat)
    requires IdentStatement(s) && IsMark(mark)
    ensures Patch(SelectBody(s), mark, o, n) == SelectBody(NamesPatched(s, mark, o, n))
  {
    var head := SelectHeadText() + " " + ProjectionText(s.projection) + "\n            FROM ";
    var table := TableText(s.schema, s.table);
    var tail := "\n            " + WhereText(s.conds, 0) + OrderText(s.order);
    HeadNumbered(s.projection);
    TailNumbered(s.conds, s.order);
    assert table[0] == '"' && tail[0] == '\n' && '"' !in mark && '\n' !in mark;
    hide DollarsNumbered, FreeOf, SelectHeadText, ProjectionText, WhereText, OrderText, Patch;
    NumberedFree(head, mark);
    NumberedFree(tail, mark);
    TablePatched(s.schema, s.table, mark, o, n);
    hide TableText;
    PatchSeam(head + table, tail, mark, o, n);
    PatchSeam(head, table, mark, o, n);
    PatchFree(head, mark, o, n);
    PatchFree(tail, mark, o, n);
    BodySeam(head, table, WhereText(s.conds, 0), OrderText(s.order));
    BodySeam(head, TableText(Patch(s.schema, mark, o, n), Patch(s.table, mark, o, n)), WhereText(s.conds, 0), OrderText(s.order));
  }

  lemma LimitPatched(s: Statement, n: nat)
    requires IdentStatement(s)
    ensures Patch(MarkedText(s), LIM, s.limit, n)
         == SelectBody(NamesPatched(s, LIM, s.limit, n)) + PatchedClause(" LIMIT ", s.limit, n)
            + MarkedClause(" OFFSET ", OFF, s.offset) + SELECT_END
  {
    assert DollarsNumbered(" LIMIT ");
    var rest := MarkedClause(" OFFSET ", OFF, s.offset) + SELECT_END;
    assert rest[0] !in LIM by {
      assert rest[0] == ' ' || rest[0] == '\n';
    }
    var s1 := NamesPatched(s, LIM, s.limit, n);
    hide FreeOf, DollarsNumbered, SelectBody, Dec, IdentStatement, MarkedText, Patch;
    BodyPatched(s, LIM, s.limit, n);
    OffsetClauseFree(s.offset);
    MarkedSeam(s);
    PatchClause(SelectBody(s), " LIMIT ", LIM, rest, s.limit, n);
    hide MarkedClause;
    Associative(SelectBody(s1) + PatchedClause(" LIMIT ", s.limit, n), MarkedClause(" OFFSET ", OFF, s.offset),
      SELECT_END);
  }

  lemma OffsetPatched(s: Statement, n: nat, k: nat)
    requires IdentStatement(s)
    ensures Patch(SelectBody(s) + PatchedClause(" LIMIT ", s.limit, n) + MarkedClause(" OFFSET ", OFF, s.offset) + SELECT_END,
                  OFF, s.offset, k)
         == SelectBody(NamesPatched(s, OFF, s.offset, k)) + PatchedClause(" LIMIT ", s.limit, n)
            + PatchedClause(" OFFSET ", s.offset, k) + SELECT_END
  {
    assert DollarsNumbered(" OFFSET ");
    assert SELECT_END[0] == '\n' && '\n' !in OFF;
    var limit := PatchedClause(" LIMIT ", s.limit, n);
    hide FreeOf, DollarsNumbered, SelectBody, Dec, IdentStatement, Patch, MarkedClause;
    EndFree(OFF);
    PatchClause(SelectBody(s) + limit, " OFFSET ", OFF, SELECT_END, s.offset, k);
    LimitKept(SelectBody(s), s.limit, n, s.offset, k);
    BodyPatched(s, OFF, s.offset, k);
  }

  lemma LimitKept(body: string, limit: Option<string>, n: nat, offset: Option<string>, k: nat)
    ensures Patch(body + PatchedClause(" LIMIT ", limit, n), OFF, offset, k)
         == Patch(body, OFF, offset, k) + PatchedClause(" LIMIT ", limit, n)
  {
    if limit.Some? {
      DecNumbered(n);
      assert DollarsNumbered(" LIMIT ");
      assert ' ' !in OFF;
      var clause := " LIMIT " + ("$" + Dec(n));
      NumberedConcat(" LIMIT ", "$" + Dec(n));
      NumberedFree(clause, OFF);
      assert clause[0] == ' ';
      hide FreeOf, Patch, Dec, DollarsNumbered;
      PatchSeam(body, clause, OFF, offset, k);
      PatchFree(clause, OFF, offset, k);
    } else {
      assert body + "" == body && Patch(body, OFF, offset, k) + "" == Patch(body, OFF, offset, k);
    }
  }

  /** The statement whose text is sent: the replacements rewrite the markers in the table's names too. */
  function Rewritten(s: Statement): (p: Statement)
    requires s.Select?
    ensures p.Select? && p == Renamed(s, p.schema, p.table)
  {
    var n := |CondsBinds(s.conds)|;
    NamesPatched(NamesPatched(s, LIM, s.limit, n + 1), OFF, s.offset, n + |OptionBinds(s.limit)| + 1)
  }

  /** Whatever the names, replacing the markers gives the text of the statement with rewritten names. */
  lemma PatchedIsRewritten(s: Statement)
    requires IdentStatement(s)
    ensures PatchedText(s) == StatementText(Rewritten(s))
  {
    var n := |CondsBinds(s.conds)|;
    var k := n + |OptionBinds(s.limit)|;
    var s1 := NamesPatched(s, LIM, s.limit, n + 1);
    assert IdentStatement(s1);
    hide SelectBody, CondsBinds, IdentStatement, OptionBinds, Patch, PatchedClause, MarkedClause, MarkedText, NamesPatched,
      StatementText;
    LimitPatched(s, n + 1);
    OffsetPatched(s1, n + 1, k + 1);
    StatementSeam(Rewritten(s));
  }

  lemma UnmarkedKept(s: Statement)
    requires s.Select? && NamesUnmarked(s)
    ensures Rewritten(s) == s
  {
    var n := |CondsBinds(s.conds)|;
    var k := n + |OptionBinds(s.limit)|;
    hide FreeOf, Patch, CondsBinds, OptionBinds;
    PatchFree(s.schema, LIM, s.limit, n + 1);
    PatchFree(s.table, LIM, s.limit, n + 1);
    PatchFree(s.schema, OFF, s.offset, k + 1);
    PatchFree(s.table, OFF, s.offset, k + 1);
  }

  /** Each `replace` rewrites exactly its own marker, and the result is the statement's text. */
  lemma PatchedIsStatement(s: Statement)
    requires IdentStatement(s) && NamesUnmarked(s)
    ensures PatchedText(s) == StatementText(s)
  {
    assert s.Select?;
    hide IdentStatement, NamesUnmarked, PatchedText, StatementText, Rewritten;
    PatchedIsRewritten(s);
    UnmarkedKept(s);
  }

  lemma MarkOnce(body: string, word: string, mark: string, rest: string, i: nat)
    requires IsMark(mark) && FreeOf(rest, mark) && FreeOf(body, mark)
    requires word != "" && word[0] == ' ' && DollarsNumbered(word)
    ensures OccursAt(body + (word + mark) + rest, mark, i) <==> i == |body| + |word|
  {
    assert Marker(LIM) && Marker(OFF) && ' ' !in mark;
    NumberedFree(word, mark);
    hide FreeOf, DollarsNumbered;
    FreeOfConcat(body, word, mark);
    OccursOnce(body + word, mark, rest, i);
    Associative(body, word, mark);
  }

  /** When it is replaced, each marker occurs exactly once, in its own clause. */
  lemma MarkersOccurOnce(s: Statement, n: nat, i: nat)
    requires IdentStatement(s) && NamesUnmarked(s)
    ensures s.limit.Some? ==> (OccursAt(MarkedText(s), LIM, i) <==> i == |SelectBody(s) + " LIMIT "|)
    ensures s.offset.Some? ==>
      var t := Patch(MarkedText(s), LIM, s.limit, n);
      OccursAt(t, OFF, i) <==> i == |SelectBody(s) + PatchedClause(" LIMIT ", s.limit, n) + " OFFSET "|
  {
    assert DollarsNumbered(" LIMIT ") && DollarsNumbered(" OFFSET ");
    if s.limit.Some? {
      BodyFree(s, LIM);
    }
    if s.offset.Some? {
      BodyFree(s, OFF);
      LimitedFree(s, n);
    }
    if s.limit.Some? {
      PatchFree(s.schema, LIM, s.limit, n);
      PatchFree(s.table, LIM, s.limit, n);
    }
    assert NamesPatched(s, LIM, s.limit, n) == s;
    hide FreeOf, DollarsNumbered, SelectBody, Dec, IdentStatement, MarkedText, Patch, OccursAt;
    LimitPatched(s, n);
    MarkedSeam(s);
    OffsetClauseFree(s.offset);
    EndFree(OFF);
    if s.limit.Some? {
      MarkOnce(SelectBody(s), " LIMIT ", LIM, MarkedClause(" OFFSET ", OFF, s.offset) + SELECT_END, i);
    }
    if s.offset.Some? {
      MarkOnce(SelectBody(s) + PatchedClause(" LIMIT ", s.limit, n), " OFFSET ", OFF, SELECT_END, i);
    }
  }

  lemma MarkedSeam(s: Statement)
    requires s.Select?
    ensures MarkedText(s)
         == SelectBody(s) + MarkedClause(" LIMIT ", LIM, s.limit)
            + (MarkedClause(" OFFSET ", OFF, s.offset) + SELECT_END)
  {
    hide SelectBody, MarkedClause;
    Associative(SelectBody(s) + MarkedClause(" LIMIT ", LIM, s.limit), MarkedClause(" OFFSET ", OFF, s.offset),
      SELECT_END);
  }

  lemma StatementSeam(s: Statement)
    requires s.Select?
    ensures var n := |CondsBinds(s.conds)|; var k := n + |OptionBinds(s.limit)|;
      StatementText(s) == SelectBody(s) + PatchedClause(" LIMIT ", s.limit, n + 1)
        + PatchedClause(" OFFSET ", s.offset, k + 1) + SELECT_END
  {
    var n := |CondsBinds(s.conds)|;
    var k := n + |OptionBinds(s.limit)|;
    assert " " + "LIMIT" + " " == " LIMIT " && " " + "OFFSET" + " " == " OFFSET ";
    hide SelectHeadText, ProjectionText, TableText, WhereText, OrderText, Dec, CondsBinds, OptionBinds;
    var limit := BoundClauseText("LIMIT", s.limit, n);
    var offset := BoundClauseText("OFFSET", s.offset, k);
    assert limit == PatchedClause(" LIMIT ", s.limit, n + 1);
    assert offset == PatchedClause(" OFFSET ", s.offset, k + 1);
    hide PatchedClause, BoundClauseText;
    var head := SelectHeadText() + " " + ProjectionText(s.projection) + "\n            FROM " + TableText(s.schema, s.table)
      + "\n            ";
    TextSeam(head, WhereText(s.conds, 0), OrderText(s.order), limit, offset, SELECT_END);
  }

  lemma TextSeam(head: string, where: string, order: string, limit: string, offset: string, end: string)
    ensures head + (where + (order + (limit + (offset + end)))) == head + where + order + limit + offset + end
  {
  }

  // ---------------------------------------------------------------- what the SELECT means

  /** After patching, no marker that was patched is left. */
  lemma PatchedFree(s: Statement)
    requires s.Select?
    ensures s.limit.Some? ==> FreeOf(PatchedText(s), LIM)
    ensures s.offset.Some? ==> FreeOf(PatchedText(s), OFF)
  {
    hide FreeOf, MarkedText, CondsBinds, OptionBinds, Dec, Replace;
    var n := |CondsBinds(s.conds)|;
    var k := n + |OptionBinds(s.limit)|;
    var t := Patch(MarkedText(s), LIM, s.limit, n + 1);
    if s.limit.Some? {
      ReplaceRemoves(MarkedText(s), LIM, n + 1, LIM);
    }
    if s.offset.Some? {
      ReplaceRemoves(t, OFF, k + 1, OFF);
      if s.limit.Some? {
        ReplaceRemoves(t, OFF, k + 1, LIM);
      }
    }
  }

  /**
   * The text that `BuildSelectSql` returns means the requested statement exactly when no quote and no
   * patched marker occurs in the schema or table name, which the builder interpolates unchecked.
   */
  lemma SelectMeansRequest(meta: TableMeta, opts: QueryOptions)
    requires SelectRequest(meta, opts).Ok?
    ensures var s := SelectRequest(meta, opts).value;
      Denote(PatchedText(s), StatementBinds(s)) == Some(s)
      <==> ValidName(meta.schema) && ValidName(meta.name) && NamesUnmarked(s)
  {
    var s := SelectRequest(meta, opts).value;
    RequestIdents(meta, opts);
    IdentsValid(s);
    hide SelectRequest, PatchedText, StatementText, StatementBinds, IdentStatement, Denote, FreeOf;
    if ValidName(s.schema) && ValidName(s.table) && NamesUnmarked(s) {
      PatchedIsStatement(s);
      MeansItself(s);
    }
    if Denote(PatchedText(s), StatementBinds(s)) == Some(s) {
      PatchedFree(s);
      DenotedNames(PatchedText(s), StatementBinds(s), LIM);
      DenotedNames(PatchedText(s), StatementBinds(s), OFF);
    }
    RequestTable(meta, opts);
  }

  lemma RequestTable(meta: TableMeta, opts: QueryOptions)
    requires SelectRequest(meta, opts).Ok?
    ensures var s := SelectRequest(meta, opts).value;
      && s.Select? && s.schema == meta.schema && s.table == meta.name
      && s.limit == IntOption(opts.limit) && s.offset == IntOption(opts.offset)
  {
  }

  lemma IdentsValid(s: Statement)
    requires IdentStatement(s)
    ensures ValidParts(s)
  {
    assert !IsWordChar('"');
  }

  /**
   * On names without quotes and markers, the text and its bound values mean the options: projection,
   * table, order, the decimal texts of LIMIT and OFFSET, and on every row the conjunction of the filters.
   */
  lemma SelectMeans<V>(I: Interp<V>, meta: TableMeta, opts: QueryOptions, row: Row<V>)
    requires SelectRequest(meta, opts).Ok?
    requires ValidName(meta.schema) && ValidName(meta.name) && NamesUnmarked(SelectRequest(meta, opts).value)
    ensures AllAccepted(meta, opts.filters)
    ensures var s := SelectRequest(meta, opts).value;
      && var ts := Lex(PatchedText(s));
      && ts.Some?
      && Placeholders(ts.value) == seq(|StatementBinds(s)|, i => 1 + i)
      && var d := Denote(PatchedText(s), StatementBinds(s));
      && d.Some? && d.value.Select?
      && d.value.schema == meta.schema && d.value.table == meta.name
      && d.value.projection == (if opts.select.None? || opts.select.value == [] then AllColumns else Columns(opts.select.value))
      && d.value.order == opts.orderBy
      && d.value.limit == (if opts.limit.Some? then Some(IntText(opts.limit.value)) else None)
      && d.value.offset == (if opts.offset.Some? then Some(IntText(opts.offset.value)) else None)
      && CondsTruth(I, d.value.conds, row) == Conjunction(FilterTruths(I, meta, opts.filters, row))
  {
    var s := SelectRequest(meta, opts).value;
    SelectMeansRequest(meta, opts);
    CondsMeanFilters(I, meta, opts.filters, row);
    RequestIdents(meta, opts);
    IdentsValid(s);
    assert ValidStatement(s);
    hide PatchedText, StatementText, StatementBinds, IdentStatement, Denote, ValidStatement, CondsOf, AllAccepted, FilterTruths,
      CheckColumns, Conjunction, CondsTruth, Lex;
    PatchedIsStatement(s);
    StatementDenotes(s);
  }

  lemma PatchKeepsName(name: string, mark: string, o: Option<string>, n: nat)
    requires ValidName(name) && mark != ""
    ensures ValidName(Patch(name, mark, o, n))
  {
    if o.Some? {
      var with := "$" + Dec(n);
      assert '"' !in with by {
        assert forall i | 0 <= i < |Dec(n)| :: IsDigit(Dec(n)[i]);
      }
      ReplaceKeepsOut(name, mark, with, '"');
    }
  }

  lemma RewrittenNames(s: Statement)
    requires s.Select? && ValidName(s.schema) && ValidName(s.table)
    ensures ValidName(Rewritten(s).schema) && ValidName(Rewritten(s).table)
  {
    var n := |CondsBinds(s.conds)|;
    var k := n + |OptionBinds(s.limit)|;
    hide Patch, ValidName, CondsBinds, OptionBinds;
    PatchKeepsName(s.schema, LIM, s.limit, n + 1);
    PatchKeepsName(s.table, LIM, s.limit, n + 1);
    PatchKeepsName(Patch(s.schema, LIM, s.limit, n + 1), OFF, s.offset, k + 1);
    PatchKeepsName(Patch(s.table, LIM, s.limit, n + 1), OFF, s.offset, k + 1);
  }

  lemma RewrittenParts(s: Statement)
    requires s.Select?
    ensures StatementBinds(Rewritten(s)) == StatementBinds(s)
    ensures ValidParts(s) ==> ValidParts(Rewritten(s))
  {
    hide Patch;
  }

  /**
   * Which table is read, for all names without quotes: the one whose names are those given with every
   * patched marker in them rewritten to its placeholder. All else is as requested.
   */
  lemma SelectReads(meta: TableMeta, opts: QueryOptions)
    requires SelectRequest(meta, opts).Ok? && ValidName(meta.schema) && ValidName(meta.name)
    ensures var s := SelectRequest(meta, opts).value;
      Denote(PatchedText(s), StatementBinds(s)) == Some(Rewritten(s))
  {
    var s := SelectRequest(meta, opts).value;
    RequestIdents(meta, opts);
    RequestTable(meta, opts);
    IdentsValid(s);
    PatchedIsRewritten(s);
    RewrittenNames(s);
    RewrittenParts(s);
    hide SelectRequest, PatchedText, StatementText, StatementBinds, IdentStatement, Denote, Rewritten, ValidName, ValidParts;
    MeansItself(Rewritten(s));
  }

  /** A table called `a$LIM`: with a LIMIT, the table `a$1` is read in its place. */
  lemma MarkedNameIsMisread(limit: int)
    ensures var meta := TableMeta("public", "a$LIM", [], []);
      var opts := QueryOptions(None, [], None, Some(limit), None);
      && SelectRequest(meta, opts).Ok?
      && var s := SelectRequest(meta, opts).value;
      Denote(PatchedText(s), StatementBinds(s))
      == Some(Select("public", "a$1", AllColumns, [], None, Some(IntText(limit)), None))
  {
    MarkedNamesValid();
    MarkedNamePatched();
    UnmarkedNamePatched();
    hide Denote, PatchedText, StatementBinds, SelectRequest, Replace, Dec, IntText, ValidName;
    LimitReads("public", "a$LIM", "a$1", limit);
  }

  lemma MarkedNamesValid()
    ensures ValidName("public") && ValidName("a$LIM")
  {
  }

  /** With a LIMIT and nothing else, which table is read for one of this name. */
  lemma LimitReads(schema: string, table: string, patched: string, limit: int)
    requires ValidName(schema) && ValidName(table)
    requires Replace(schema, LIM, "$" + Dec(1)) == schema && Replace(table, LIM, "$" + Dec(1)) == patched
    ensures var meta := TableMeta(schema, table, [], []);
      var opts := QueryOptions(None, [], None, Some(limit), None);
      && SelectRequest(meta, opts).Ok?
      && var s := SelectRequest(meta, opts).value;
      Denote(PatchedText(s), StatementBinds(s))
      == Some(Select(schema, patched, AllColumns, [], None, Some(IntText(limit)), None))
  {
    var meta := TableMeta(schema, table, [], []);
    var opts := QueryOptions(None, [], None, Some(limit), None);
    var s := Select(schema, table, AllColumns, [], None, Some(IntText(limit)), None);
    PlainRequest(meta, limit);
    assert CondsBinds([]) == [];
    assert Rewritten(s) == Select(schema, patched, AllColumns, [], None, Some(IntText(limit)), None) by {
      hide Replace, Dec, CondsBinds, IntText;
    }
    hide Denote, PatchedText, StatementBinds, SelectRequest, Rewritten, IntText, ValidName, Replace, Dec;
    SelectReads(meta, opts);
  }

  lemma PlainRequest(meta: TableMeta, limit: int)
    ensures SelectRequest(meta, QueryOptions(None, [], None, Some(limit), None))
         == Ok(Select(meta.schema, meta.name, AllColumns, [], None, Some(IntText(limit)), None))
  {
    hide IntText;
  }

  lemma UnmarkedNamePatched()
    ensures Replace("public", LIM, "$" + Dec(1)) == "public"
  {
    var name := "public";
    assert '$' !in name;
    NumberedFree(name, LIM);
    hide Replace, Dec, FreeOf;
    ReplaceFree(name, LIM, "$" + Dec(1));
  }

  lemma MarkedNamePatched()
    ensures Replace("a$LIM", LIM, "$" + Dec(1)) == "a$1"
  {
    var a, with := "a", "$" + Dec(1);
    assert Dec(1) == "1" && Marker(LIM) && '$' !in a;
    NumberedFree(a, LIM);
    assert Replace("", LIM, with) == "";
    assert "a$LIM" == a + LIM + "" && a + with + "" == "a$1";
    hide Replace, FreeOf, Dec, Marker;
    ReplaceFirst(a, LIM, "", with);
  }
}
