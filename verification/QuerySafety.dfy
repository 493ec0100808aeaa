/** Parsing and building together: iteration order does not matter, and no statement changes a whole table. */
module QuerySafety {
  import opened Wrappers
  import opened Text
  import opened Catalog
  import opened SqlTokens
  import opened SqlStatements
  import opened SqlFrames
  import opened SqlReader
  import opened SqlMeaning
  import opened WhereClause
  import opened SelectBuilder
  import opened InsertBuilder
  import opened UpdateBuilder
  import opened DeleteBuilder
  import QP = QueryParser

  // ---------------------------------------------------------------- iteration order

  lemma AcceptedEach(meta: TableMeta, fs: seq<Filter>)
    ensures AllAccepted(meta, fs) <==> forall f | f in fs :: Accepted(meta, f)
  {
    hide Accepted;
    if AllAccepted(meta, fs) {
      forall f | f in fs ensures Accepted(meta, f) {
        var i :| 0 <= i < |fs| && fs[i] == f;
      }
    }
  }

  /** A conjunction of filters depends only on which filters there are. */
  lemma SameConjunction<V>(I: Interp<V>, meta: TableMeta, f1: seq<Filter>, f2: seq<Filter>, row: Row<V>)
    requires AllAccepted(meta, f1) && AllAccepted(meta, f2) && forall f :: f in f1 <==> f in f2
    ensures Conjunction(FilterTruths(I, meta, f1, row)) == Conjunction(FilterTruths(I, meta, f2, row))
  {
    hide FilterTruth, Accepted;
    forall t ensures t in FilterTruths(I, meta, f1, row) <==> t in FilterTruths(I, meta, f2, row) {
      TruthMoves(I, meta, f1, f2, row, t);
      TruthMoves(I, meta, f2, f1, row, t);
    }
  }

  lemma TruthMoves<V>(I: Interp<V>, meta: TableMeta, f1: seq<Filter>, f2: seq<Filter>, row: Row<V>, t: Truth)
    requires AllAccepted(meta, f1) && AllAccepted(meta, f2) && forall f :: f in f1 <==> f in f2
    ensures t in FilterTruths(I, meta, f1, row) ==> t in FilterTruths(I, meta, f2, row)
  {
    hide FilterTruth, Accepted;
    var ts, us := FilterTruths(I, meta, f1, row), FilterTruths(I, meta, f2, row);
    if t in ts {
      var i :| 0 <= i < |ts| && ts[i] == t;
      assert f1[i] in f2;
      var j :| 0 <= j < |f2| && f2[j] == f1[i];
      assert us[j] == t;
    }
  }

  /** Two parses of one map differ at most in the order of their filters. */
  lemma SameOptions(q: map<string, string>, k1: seq<string>, k2: seq<string>)
    requires QP.Enumerates(k1, q) && QP.Enumerates(k2, q)
    ensures QP.Parse(q, k1).Ok? <==> QP.Parse(q, k2).Ok?
    ensures QP.Parse(q, k1).Ok? ==>
      var o1, o2 := QP.Parse(q, k1).value, QP.Parse(q, k2).value;
      o1.(filters := []) == o2.(filters := []) && |o1.filters| == |o2.filters| && forall f :: f in o1.filters <==> f in o2.filters
  {
    QP.ParseEach(q, k1);
    QP.ParseEach(q, k2);
  }

  /**
   * Iteration order decides neither whether a map parses and its WHERE clause builds, nor which rows the
   * clause is true on, although the conditions stand in another order with other placeholder numbers.
   */
  lemma OrderIndependent<V>(I: Interp<V>, meta: TableMeta, q: map<string, string>, k1: seq<string>, k2: seq<string>,
                            b1: seq<string>, b2: seq<string>, row: Row<V>)
    requires QP.Enumerates(k1, q) && QP.Enumerates(k2, q)
    ensures QP.Parse(q, k1).Ok? <==> QP.Parse(q, k2).Ok?
    ensures QP.Parse(q, k1).Ok? ==>
      var f1, f2 := QP.Parse(q, k1).value.filters, QP.Parse(q, k2).value.filters;
      && (CondsOf(meta, f1).Ok? <==> CondsOf(meta, f2).Ok?)
      && (CondsOf(meta, f1).Ok? && f1 != [] ==> SameWhere(I, CondsOf(meta, f1).value, b1, CondsOf(meta, f2).value, b2, row))
  {
    SameOptions(q, k1, k2);
    if QP.Parse(q, k1).Ok? {
      var f1, f2 := QP.Parse(q, k1).value.filters, QP.Parse(q, k2).value.filters;
      AcceptedEach(meta, f1);
      AcceptedEach(meta, f2);
      CondsOfAccepted(meta, f1);
      CondsOfAccepted(meta, f2);
      hide CondsOf, Accepted, Lex, WhereText, CondsBinds, ReadWhere, CondsTruth, FilterTruths, Conjunction;
      if CondsOf(meta, f1).Ok? && f1 != [] {
        WhereTextMeans(I, meta, f1, b1, row);
        WhereTextMeans(I, meta, f2, b2, row);
        SameConjunction(I, meta, f1, f2, row);
      }
    }
  }

  /** The two WHERE texts, read against their own bind lists, are equally true on the row. */
  ghost predicate SameWhere<V>(I: Interp<V>, c1: seq<Cond>, b1: seq<string>, c2: seq<Cond>, b2: seq<string>,
                               row: Row<V>) {
    var t1, t2 := Lex(WhereText(c1, |b1|)), Lex(WhereText(c2, |b2|));
    && t1.Some? && t2.Some?
    && var w1, w2 := ReadWhere(t1.value, b1 + CondsBinds(c1)), ReadWhere(t2.value, b2 + CondsBinds(c2));
    && w1.Some? && w2.Some? && CondsTruth(I, w1.value.0, row) == CondsTruth(I, w2.value.0, row)
  }

  /** Iteration order decides neither whether a request is accepted nor which rows it matches. */
  lemma OrderIndependentRequests<V>(I: Interp<V>, p: Policy, setting: Setting, meta: TableMeta, body: Json,
                                    user: Option<CurrentUser>,
                                    q: map<string, string>, k1: seq<string>, k2: seq<string>, rows: Rows<V>)
    requires QP.Enumerates(k1, q) && QP.Enumerates(k2, q) && QP.Parse(q, k1).Ok?
    ensures QP.Parse(q, k2).Ok?
    ensures var o1, o2 := QP.Parse(q, k1).value, QP.Parse(q, k2).value;
      && (SelectRequest(meta, o1).Ok? <==> SelectRequest(meta, o2).Ok?)
      && (UpdateRequest(meta, body, o1, user).Ok? <==> UpdateRequest(meta, body, o2, user).Ok?)
      && (DeleteRequest(meta, o1).Ok? <==> DeleteRequest(meta, o2).Ok?)
      && (AllAccepted(meta, o1.filters) <==> AllAccepted(meta, o2.filters))
      && (AllAccepted(meta, o1.filters) ==>
            Matching(I, p, setting, meta, o1.filters, rows) == Matching(I, p, setting, meta, o2.filters, rows))
  {
    SameOptions(q, k1, k2);
    var o1, o2 := QP.Parse(q, k1).value, QP.Parse(q, k2).value;
    AcceptedEach(meta, o1.filters);
    AcceptedEach(meta, o2.filters);
    SelectAccepted(meta, o1);
    SelectAccepted(meta, o2);
    UpdateAccepted(meta, body, o1, user);
    UpdateAccepted(meta, body, o2, user);
    DeleteAccepted(meta, o1);
    DeleteAccepted(meta, o2);
    assert o1.select == o2.select && o1.orderBy == o2.orderBy;
    hide SelectRequest, UpdateRequest, DeleteRequest, AllAccepted, Accepted, KnownColumn, Assignable, FilterTruths, Conjunction, Visible;
    if AllAccepted(meta, o1.filters) {
      forall id | id in rows ensures
          Conjunction(FilterTruths(I, meta, o1.filters, rows[id]))
          == Conjunction(FilterTruths(I, meta, o2.filters, rows[id])) {
        SameConjunction(I, meta, o1.filters, o2.filters, rows[id]);
      }
    }
  }

  // ---------------------------------------------------------------- no mass change

  function CondColumns(conds: seq<Cond>): seq<string> {
    seq(|conds|, i requires 0 <= i < |conds| => conds[i].column)
  }

  /** The conditions are on the given columns, one each. */
  ghost predicate OnePerColumn(conds: seq<Cond>, columns: set<string>) {
    |conds| == |columns| && Distinct(CondColumns(conds)) && forall c :: c in columns <==> c in CondColumns(conds)
  }

  lemma CondColumn(meta: TableMeta, f: Filter)
    requires CondOf(meta, f).Ok?
    ensures CondOf(meta, f).value.column == f.column
  {
  }

  lemma CondsColumns(meta: TableMeta, fs: seq<Filter>)
    requires CondsOf(meta, fs).Ok?
    ensures CondColumns(CondsOf(meta, fs).value) == QP.FilterColumns(fs)
  {
    var cs := CondsOf(meta, fs).value;
    CondsOfAccepted(meta, fs);
    hide CondOf, CondsOf;
    forall i | 0 <= i < |fs| ensures cs[i].column == fs[i].column {
      CondColumn(meta, fs[i]);
    }
  }

  lemma ParsedColumns(q: map<string, string>, keys: seq<string>)
    requires QP.Enumerates(keys, q) && QP.Parse(q, keys).Ok?
    ensures var cs := QP.FilterColumns(QP.Parse(q, keys).value.filters);
      |cs| == |QP.NonReserved(q)| && Distinct(cs) && forall c :: c in QP.NonReserved(q) <==> c in cs
  {
    QP.ParseEach(q, keys);
    hide QP.Parse, QP.FilterOf, QP.FilterColumns, Distinct;
    var fs := QP.Parse(q, keys).value.filters;
    forall c | c in QP.FilterColumns(fs) ensures c in QP.NonReserved(q) {
      var i :| 0 <= i < |fs| && QP.FilterColumns(fs)[i] == c;
      assert QP.IsFilterOf(q, fs[i].column, fs[i]);
    }
  }

  lemma ParsedConds(meta: TableMeta, q: map<string, string>, keys: seq<string>)
    requires QP.Enumerates(keys, q) && QP.Parse(q, keys).Ok?
    requires CondsOf(meta, QP.Parse(q, keys).value.filters).Ok?
    ensures OnePerColumn(CondsOf(meta, QP.Parse(q, keys).value.filters).value, QP.NonReserved(q))
  {
    hide CondsOf, QP.Parse, QP.FilterColumns, CondColumns, Distinct, QP.NonReserved;
    ParsedColumns(q, keys);
    CondsColumns(meta, QP.Parse(q, keys).value.filters);
  }

  /** A DELETE has exactly one condition per filter, and at least one. */
  lemma DeleteConds(meta: TableMeta, o: QueryOptions)
    ensures DeleteRequest(meta, o).Ok? ==>
      && o.filters != [] && CondsOf(meta, o.filters).Ok?
      && DeleteRequest(meta, o).value == Delete(meta.schema, meta.name, CondsOf(meta, o.filters).value)
    ensures o.filters == [] ==> DeleteRequest(meta, o) == Err(BadRequest("refuse DELETE without filters"))
  {
    hide CondsOf;
  }

  lemma UpdateConds(meta: TableMeta, body: Json, o: QueryOptions, user: Option<CurrentUser>)
    ensures UpdateRequest(meta, body, o, user).Ok? ==>
      && var s := UpdateRequest(meta, body, o, user).value;
      && o.filters != [] && CondsOf(meta, o.filters).Ok?
      && s.Update? && s.conds == CondsOf(meta, o.filters).value
    ensures o.filters == [] ==> UpdateRequest(meta, body, o, user).Err?
  {
    hide CondsOf, AssignmentsOf;
  }

  /**
   * An UPDATE or DELETE comes only from a map with a non-reserved key, and then its WHERE clause has
   * exactly one condition per non-reserved key; a map of reserved keys alone is always refused.
   */
  lemma NoMassChange(meta: TableMeta, q: map<string, string>, keys: seq<string>, body: Json, user: Option<CurrentUser>)
    requires QP.Enumerates(keys, q) && QP.Parse(q, keys).Ok?
    ensures var o := QP.Parse(q, keys).value; var u, d := UpdateRequest(meta, body, o, user), DeleteRequest(meta, o);
      && (QP.NonReserved(q) == {} ==> u.Err? && d == Err(BadRequest("refuse DELETE without filters")))
      && (u.Ok? ==> u.value.Update? && u.value.conds != [] && OnePerColumn(u.value.conds, QP.NonReserved(q)))
      && (d.Ok? ==> d.value.Delete? && d.value.conds != [] && OnePerColumn(d.value.conds, QP.NonReserved(q)))
  {
    var o := QP.Parse(q, keys).value;
    hide CondsOf, OnePerColumn, QP.Parse, UpdateRequest, DeleteRequest, Distinct, QP.FilterColumns;
    ParsedColumns(q, keys);
    assert |QP.FilterColumns(o.filters)| == |o.filters|;
    DeleteConds(meta, o);
    UpdateConds(meta, body, o, user);
    if CondsOf(meta, o.filters).Ok? {
      ParsedConds(meta, q, keys);
    }
  }

  // ---------------------------------------------------------------- refusals

  lemma {:induction false} ColumnsRefused(meta: TableMeta, cs: seq<string>)
    ensures CheckColumns(meta, cs).Err? ==> CheckColumns(meta, cs).error.BadRequest?
  {
    if cs != [] {
      ColumnsRefused(meta, cs[..|cs| - 1]);
    }
  }

  lemma {:induction false} CondsRefused(meta: TableMeta, fs: seq<Filter>)
    ensures CondsOf(meta, fs).Err? ==> CondsOf(meta, fs).error.BadRequest?
  {
    if fs != [] {
      CondsRefused(meta, fs[..|fs| - 1]);
      hide ColumnTypes, IsIdent;
    }
  }

  lemma {:induction false} FiltersRefused(q: map<string, string>, keys: seq<string>)
    requires forall k | k in keys :: k in q
    ensures QP.FiltersOf(q, keys).Err? ==> QP.FiltersOf(q, keys).error.BadRequest?
  {
    if keys != [] {
      FiltersRefused(q, keys[..|keys| - 1]);
    }
  }

  lemma {:induction false} AssignmentsRefused(meta: TableMeta, fields: Fields, user: Option<CurrentUser>)
    ensures AssignmentsOf(meta, fields, user).Err? ==> AssignmentsOf(meta, fields, user).error.BadRequest?
  {
    if fields != [] {
      AssignmentsRefused(meta, fields[..|fields| - 1], user);
      hide ColumnTypes, IsIdent;
    }
  }

  lemma {:induction false} TupleRefused(types: map<string, string>, fields: Fields, cols: seq<string>,
                                        owner: Option<CurrentUser>)
    ensures TupleOf(types, fields, cols, owner).Err? ==> TupleOf(types, fields, cols, owner).error.BadRequest?
  {
    if cols != [] {
      TupleRefused(types, fields, cols[..|cols| - 1], owner);
      hide PgCastOf, IntText, Member;
    }
  }

  lemma {:induction false} GridRefused(types: map<string, string>, rows: seq<Fields>, cols: seq<string>,
                                       owner: Option<CurrentUser>)
    ensures GridOf(types, rows, cols, owner).Err? ==> GridOf(types, rows, cols, owner).error.BadRequest?
  {
    if rows != [] {
      GridRefused(types, rows[..|rows| - 1], cols, owner);
      TupleRefused(types, rows[|rows| - 1], cols, owner);
      hide TupleOf;
    }
  }

  /** Whatever the parser and the builders refuse, the client is told that its request was bad. */
  lemma RefusalsAreBadRequests(meta: TableMeta, q: map<string, string>, keys: seq<string>, opts: QueryOptions, body: Json,
                               user: Option<CurrentUser>)
    requires QP.Enumerates(keys, q)
    ensures QP.Parse(q, keys).Err? ==> QP.Parse(q, keys).error.BadRequest?
    ensures SelectRequest(meta, opts).Err? ==> SelectRequest(meta, opts).error.BadRequest?
    ensures InsertRequest(meta, body, user).Err? ==> InsertRequest(meta, body, user).error.BadRequest?
    ensures UpdateRequest(meta, body, opts, user).Err? ==> UpdateRequest(meta, body, opts, user).error.BadRequest?
    ensures DeleteRequest(meta, opts).Err? ==> DeleteRequest(meta, opts).error.BadRequest?
  {
    FiltersRefused(q, keys);
    CondsRefused(meta, opts.filters);
    SelectRefused(meta, opts);
    InsertRefused(meta, body, user);
    if body.JObject? {
      AssignmentsRefused(meta, body.fields, user);
    }
    hide QP.FiltersOf, CondsOf, AssignmentsOf, SelectRequest, InsertRequest;
  }

  lemma SelectRefused(meta: TableMeta, opts: QueryOptions)
    ensures SelectRequest(meta, opts).Err? ==> SelectRequest(meta, opts).error.BadRequest?
  {
    CondsRefused(meta, opts.filters);
    if opts.select.Some? {
      ColumnsRefused(meta, opts.select.value);
    }
    hide CondsOf, CheckColumns, ColumnTypes, IsIdent;
  }

  lemma InsertRefused(meta: TableMeta, body: Json, user: Option<CurrentUser>)
    ensures InsertRequest(meta, body, user).Err? ==> InsertRequest(meta, body, user).error.BadRequest?
  {
    if RowsOf(body).Ok? {
      var rows := RowsOf(body).value;
      ColumnsRefused(meta, AllKeys(rows));
      GridRefused(ColumnTypes(meta.columns), rows, UnionColumns(meta, rows, user), OwnerOf(meta, user));
    }
    hide GridOf, CheckColumns, UnionColumns, AllKeys, ColumnTypes, OwnerOf;
  }
}
