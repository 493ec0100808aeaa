/** The SQL-building half of `delete_rows` in `virtual_crud/delete.rs`, and what its DELETE means. */
module DeleteBuilder {
  import opened Wrappers
  import opened Text
  import opened Catalog
  import opened SqlTokens
  import opened SqlStatements
  import opened SqlFrames
  import opened SqlReader
  import opened SqlNames
  import opened SqlMeaning
  import opened WhereClause

  function DeleteRequest(meta: TableMeta, opts: QueryOptions): Result<Statement> {
    if opts.filters == [] then Err(BadRequest("refuse DELETE without filters"))
    else
      var conds :- CondsOf(meta, opts.filters);
      Ok(Delete(meta.schema, meta.name, conds))
  }

  /** The statement text and its bound values, or the first error. */
  method BuildDeleteSql(meta: TableMeta, opts: QueryOptions) returns (r: Result<(string, seq<string>)>)
    ensures match DeleteRequest(meta, opts)
      case Ok(s) => r == Ok((StatementText(s), StatementBinds(s)))
      case Err(e) => r == Err(e)
  {
    hide CondsOf, CondsBinds, WhereText, DeleteHeadText, CloseText;
    if opts.filters == [] {
      return Err(BadRequest("refuse DELETE without filters"));
    }
    var binds := new BindVec();
    var where :- BuildWhereSql(meta, opts, binds);
    var sql := DeleteHeadText(meta.schema, meta.name) + "\n            " + where
      + CloseText(GAP12, GAP8, GAP8, "deleted");
    ghost var s := DeleteRequest(meta, opts).value;
    assert binds.items == StatementBinds(s);
    r := Ok((sql, binds.items));
  }

  /** A DELETE always has a filter, and every filter is one the WHERE builder accepts. */
  lemma DeleteAccepted(meta: TableMeta, opts: QueryOptions)
    ensures DeleteRequest(meta, opts).Ok? <==> opts.filters != [] && AllAccepted(meta, opts.filters)
  {
    CondsOfAccepted(meta, opts.filters);
  }

  /** The text and its bound values mean the requested statement exactly when the table's names have no quote. */
  lemma DeleteMeansRequest(meta: TableMeta, opts: QueryOptions)
    requires DeleteRequest(meta, opts).Ok?
    ensures var s := DeleteRequest(meta, opts).value;
      Denote(StatementText(s), StatementBinds(s)) == Some(s) <==> ValidName(meta.schema) && ValidName(meta.name)
  {
    var s := DeleteRequest(meta, opts).value;
    CondsOfValid(meta, opts.filters);
    hide CondsOf, StatementText, StatementBinds, Denote, ValidConds;
    MeansItself(s);
  }

  /** Executing the DELETE removes exactly the rows that the policy shows and the filters match. */
  lemma DeleteMeansFilters<V>(I: Interp<V>, p: Policy, setting: Setting, meta: TableMeta, opts: QueryOptions,
                              rows: Rows<V>, next: nat, e: Effect<V>)
    requires DeleteRequest(meta, opts).Ok?
    requires Effects(I, p, setting, DeleteRequest(meta, opts).value, rows, next, e)
    ensures AllAccepted(meta, opts.filters)
    ensures e.puts == map[] && e.dels == Matching(I, p, setting, meta, opts.filters, rows) && Lists(e.returned, e.dels)
    ensures Apply(rows, e) == map id | id in rows && id !in Matching(I, p, setting, meta, opts.filters, rows) :: rows[id]
  {
    SelectedMatches(I, p, setting, meta, opts.filters, rows);
    hide CondsOf, Matching, Selected, AllAccepted;
  }
}
