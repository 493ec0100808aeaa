/** The SQL-building half of `update_rows` in `virtual_crud/update.rs`, and what its UPDATE means. */
module UpdateBuilder {
  import opened Wrappers
  import opened Text
  import opened Catalog
  import opened SqlTokens
  import opened SqlStatements
  import opened SqlFrames
  import opened SqlReader
  import opened SqlNames
  import opened SqlMeaning
  import opened JsonMeaning
  import opened WhereClause

  // ---------------------------------------------------------------- the request

  const OWNER_FIXED := BadRequest("cannot update user_id; it is bound to the authenticated user")

  /** The caller may not move a row to another owner. */
  predicate GuardsOwner(meta: TableMeta, user: Option<CurrentUser>, c: string) {
    HasColumn(meta, "user_id") && user.Some? && c == "user_id"
  }

  function CheckAssignable(meta: TableMeta, c: string, user: Option<CurrentUser>): Result<()> {
    var _ :- CheckColumn(meta, c);
    if c in meta.primaryKey then Err(BadRequest("cannot update primary key column '" + c + "'"))
    else if GuardsOwner(meta, user, c) then Err(OWNER_FIXED)
    else Ok(())
  }

  predicate Assignable(meta: TableMeta, c: string, user: Option<CurrentUser>) {
    KnownColumn(meta, c) && c !in meta.primaryKey && !(user.Some? && c == "user_id")
  }

  function AssignmentOf(meta: TableMeta, field: (string, Json), user: Option<CurrentUser>): (r: Result<Assignment>)
    ensures r.Ok? <==> Assignable(meta, field.0, user)
  {
    var _ :- CheckAssignable(meta, field.0, user);
    Ok(Assignment(field.0, if field.1.JNull? then NullCell else Bound(BindText(field.1), CastOf(meta, field.0))))
  }

  function AssignmentsOf(meta: TableMeta, fields: Fields, user: Option<CurrentUser>): (r: Result<seq<Assignment>>)
    ensures r.Ok? ==> |r.value| == |fields|
  {
    if fields == [] then Ok([])
    else
      var init :- AssignmentsOf(meta, fields[..|fields| - 1], user);
      var a :- AssignmentOf(meta, fields[|fields| - 1], user);
      Ok(init + [a])
  }

  /** The statement the body and the filters ask for, or the first error in the order of the checks. */
  function UpdateRequest(meta: TableMeta, body: Json, opts: QueryOptions,
                         user: Option<CurrentUser>): Result<Statement> {
    if !body.JObject? then Err(BadRequest("request body must be a JSON object"))
    else if body.fields == [] then Err(BadRequest("no fields to update"))
    else if opts.filters == [] then Err(BadRequest("refuse UPDATE without filters"))
    else
      var sets :- AssignmentsOf(meta, body.fields, user);
      var conds :- CondsOf(meta, opts.filters);
      Ok(Update(meta.schema, meta.name, sets, conds))
  }

  // ---------------------------------------------------------------- the builder

  lemma {:induction false} SetBindsSnoc(sets: seq<Assignment>, a: Assignment)
    ensures SetsBinds(sets + [a]) == SetsBinds(sets) + CellBinds(a.cell)
  {
    hide CellBinds;
    if sets == [] {
      assert [a][1..] == [];
    } else {
      SetBindsSnoc(sets[1..], a);
      assert (sets + [a])[1..] == sets[1..] + [a];
    }
  }

  lemma {:induction false} SetTextsSnoc(sets: seq<Assignment>, a: Assignment, n: nat)
    ensures SetTexts(sets + [a], n) == SetTexts(sets, n) + [SetText(a, n + |SetsBinds(sets)|)]
  {
    hide SetText, CellBinds;
    if sets == [] {
      assert [a][1..] == [];
    } else {
      SetTextsSnoc(sets[1..], a, n + |CellBinds(sets[0].cell)|);
      assert (sets + [a])[1..] == sets[1..] + [a];
    }
  }

  lemma {:induction false} AssignmentsError(meta: TableMeta, fields: Fields, user: Option<CurrentUser>, i: nat)
    requires i < |fields| && AssignmentsOf(meta, fields[..i], user).Ok? && AssignmentOf(meta, fields[i], user).Err?
    ensures AssignmentsOf(meta, fields, user) == Err(AssignmentOf(meta, fields[i], user).error)
    decreases |fields|
  {
    hide AssignmentOf;
    var init := fields[..|fields| - 1];
    if i == |fields| - 1 {
      assert fields[..i] == init;
    } else {
      assert init[..i] == fields[..i];
      AssignmentsError(meta, init, user, i);
    }
  }

  /** One `"column" = value` part: the body of the builder's loop. */
  method BuildSetPart(meta: TableMeta, coltypes: map<string, string>, field: (string, Json),
                      user: Option<CurrentUser>, binds: BindVec)
    returns (r: Result<string>)
    requires coltypes == ColumnTypes(meta.columns)
    modifies binds
    ensures match AssignmentOf(meta, field, user)
      case Ok(a) => r == Ok(SetText(a, |old(binds.items)|)) && binds.items == old(binds.items) + CellBinds(a.cell)
      case Err(e) => r == Err(e)
  {
    var (k, v) := field;
    hide PgCastOf, Dec, BindText, KnownColumn, ColumnTypes, IsIdent;
    var _ :- CheckColumn(meta, k);
    if k in meta.primaryKey {
      return Err(BadRequest("cannot update primary key column '" + k + "'"));
    }
    if "user_id" in coltypes && user.Some? && k == "user_id" {
      return Err(OWNER_FIXED);
    }
    var cast := PgCastOf(coltypes[k]);
    if v.JNull? {
      r := Ok("\"" + k + "\"" + " = " + "NULL");
    } else {
      binds.Push(BindText(v));
      r := Ok("\"" + k + "\"" + " = " + ("$" + Dec(|binds.items|) + "::" + cast));
    }
  }

  /** The loop has built the first `i` assignments. */
  ghost predicate SetProgress(meta: TableMeta, fields: Fields, user: Option<CurrentUser>, i: nat,
                              sets: seq<Assignment>, parts: seq<string>) {
    i <= |fields| && AssignmentsOf(meta, fields[..i], user) == Ok(sets) && parts == SetTexts(sets, 0)
  }

  lemma NoSetProgress(meta: TableMeta, fields: Fields, user: Option<CurrentUser>)
    ensures SetProgress(meta, fields, user, 0, [], []) && SetsBinds([]) == []
  {
    assert fields[..0] == [];
  }

  lemma MoreSetProgress(meta: TableMeta, fields: Fields, user: Option<CurrentUser>, i: nat, sets: seq<Assignment>,
                        a: Assignment, parts: seq<string>)
    requires i < |fields| && SetProgress(meta, fields, user, i, sets, parts) && AssignmentOf(meta, fields[i], user) == Ok(a)
    ensures SetProgress(meta, fields, user, i + 1, sets + [a], parts + [SetText(a, |SetsBinds(sets)|)])
    ensures SetsBinds(sets + [a]) == SetsBinds(sets) + CellBinds(a.cell)
  {
    hide AssignmentOf, SetText, SetTexts, SetsBinds, CellBinds;
    assert fields[..i + 1][..i] == fields[..i];
    SetBindsSnoc(sets, a);
    SetTextsSnoc(sets, a, 0);
  }

  lemma SetStops(meta: TableMeta, fields: Fields, user: Option<CurrentUser>, i: nat, sets: seq<Assignment>,
                 parts: seq<string>)
    requires i < |fields| && SetProgress(meta, fields, user, i, sets, parts) && AssignmentOf(meta, fields[i], user).Err?
    ensures AssignmentsOf(meta, fields, user) == Err(AssignmentOf(meta, fields[i], user).error)
  {
    AssignmentsError(meta, fields, user, i);
  }

  lemma EndOfSets(meta: TableMeta, fields: Fields, user: Option<CurrentUser>, sets: seq<Assignment>, parts: seq<string>)
    requires SetProgress(meta, fields, user, |fields|, sets, parts)
    ensures AssignmentsOf(meta, fields, user) == Ok(sets) && parts == SetTexts(sets, 0)
  {
    assert fields[..|fields|] == fields;
  }

  method BuildSets(meta: TableMeta, fields: Fields, user: Option<CurrentUser>,
                   binds: BindVec) returns (r: Result<seq<string>>)
    requires binds.items == []
    modifies binds
    ensures match AssignmentsOf(meta, fields, user)
      case Ok(sets) => r == Ok(SetTexts(sets, 0)) && binds.items == SetsBinds(sets)
      case Err(e) => r == Err(e)
  {
    var coltypes := IndexColumns(meta.columns);
    var parts: seq<string> := [];
    ghost var sets: seq<Assignment> := [];
    NoSetProgress(meta, fields, user);
    hide AssignmentOf, AssignmentsOf, SetText, SetTexts, SetsBinds, CellBinds, SetProgress, ColumnTypes, Assignable;
    for i := 0 to |fields|
      invariant SetProgress(meta, fields, user, i, sets, parts)
      invariant binds.items == SetsBinds(sets)
    {
      var piece := BuildSetPart(meta, coltypes, fields[i], user, binds);
      if piece.Err? {
        SetStops(meta, fields, user, i, sets, parts);
        return Err(piece.error);
      }
      ghost var a := AssignmentOf(meta, fields[i], user).value;
      MoreSetProgress(meta, fields, user, i, sets, a, parts);
      parts := parts + [piece.value];
      sets := sets + [a];
    }
    EndOfSets(meta, fields, user, sets, parts);
    r := Ok(parts);
  }

  /** The statement text and its bound values: the WHERE builder extends the SET builder's list. */
  method BuildUpdateSql(meta: TableMeta, body: Json, opts: QueryOptions, user: Option<CurrentUser>)
    returns (r: Result<(string, seq<string>)>)
    ensures match UpdateRequest(meta, body, opts, user)
      case Ok(s) => r == Ok((StatementText(s), StatementBinds(s)))
      case Err(e) => r == Err(e)
  {
    hide AssignmentsOf, CondsOf, SetTexts, SetsBinds, CondsBinds, WhereText, UpdateHeadText, CloseText, Join;
    if !body.JObject? {
      return Err(BadRequest("request body must be a JSON object"));
    }
    if body.fields == [] {
      return Err(BadRequest("no fields to update"));
    }
    if opts.filters == [] {
      return Err(BadRequest("refuse UPDATE without filters"));
    }
    var binds := new BindVec();
    var parts :- BuildSets(meta, body.fields, user, binds);
    var where :- BuildWhereSql(meta, opts, binds);
    var sql := UpdateHeadText(meta.schema, meta.name) + " " + Join(parts, ", ")
      + "\n            " + where + CloseText(GAP12, GAP8, " ", "updated");
    r := Ok((sql, binds.items));
  }

  // ---------------------------------------------------------------- which requests are accepted

  lemma {:induction false} AssignmentsEach(meta: TableMeta, fields: Fields, user: Option<CurrentUser>)
    ensures var r := AssignmentsOf(meta, fields, user);
      && (r.Ok? <==> forall i | 0 <= i < |fields| :: Assignable(meta, fields[i].0, user))
      && (r.Ok? ==> forall i | 0 <= i < |fields| :: AssignmentOf(meta, fields[i], user) == Ok(r.value[i]))
  {
    hide AssignmentOf, Assignable;
    if fields != [] {
      var init := fields[..|fields| - 1];
      AssignmentsEach(meta, init, user);
      assert forall i | 0 <= i < |init| :: init[i] == fields[i];
    }
  }

  /** Exactly which requests become an UPDATE: there is always a filter, and no protected column. */
  lemma UpdateAccepted(meta: TableMeta, body: Json, opts: QueryOptions, user: Option<CurrentUser>)
    ensures UpdateRequest(meta, body, opts, user).Ok? <==>
      && body.JObject? && body.fields != [] && opts.filters != []
      && (forall i | 0 <= i < |body.fields| :: Assignable(meta, body.fields[i].0, user))
      && AllAccepted(meta, opts.filters)
  {
    CondsOfAccepted(meta, opts.filters);
    if body.JObject? {
      AssignmentsEach(meta, body.fields, user);
    }
  }

  // ---------------------------------------------------------------- what the UPDATE means

  lemma AssignmentValid(meta: TableMeta, field: (string, Json), user: Option<CurrentUser>)
    requires AssignmentOf(meta, field, user).Ok?
    ensures var a := AssignmentOf(meta, field, user).value; ValidName(a.column) && ValidCell(a.cell)
  {
    assert !IsWordChar('"');
  }

  lemma UpdateValid(meta: TableMeta, body: Json, opts: QueryOptions, user: Option<CurrentUser>)
    requires UpdateRequest(meta, body, opts, user).Ok?
    ensures ValidParts(UpdateRequest(meta, body, opts, user).value)
  {
    var s := UpdateRequest(meta, body, opts, user).value;
    AssignmentsEach(meta, body.fields, user);
    CondsOfValid(meta, opts.filters);
    hide AssignmentsOf, AssignmentOf, CondsOf, ValidConds, IsIdent, Assignable;
    forall i | 0 <= i < |s.sets| ensures ValidName(s.sets[i].column) && ValidCell(s.sets[i].cell) {
      AssignmentValid(meta, body.fields[i], user);
    }
  }

  /** The text and its bound values mean the requested statement exactly when the table's names have no quote. */
  lemma UpdateMeansRequest(meta: TableMeta, body: Json, opts: QueryOptions, user: Option<CurrentUser>)
    requires UpdateRequest(meta, body, opts, user).Ok?
    ensures var s := UpdateRequest(meta, body, opts, user).value;
      Denote(StatementText(s), StatementBinds(s)) == Some(s) <==> ValidName(meta.schema) && ValidName(meta.name)
  {
    var s := UpdateRequest(meta, body, opts, user).value;
    assert s.schema == meta.schema && s.table == meta.name;
    UpdateValid(meta, body, opts, user);
    hide UpdateRequest, StatementText, StatementBinds, Denote, ValidParts;
    MeansItself(s);
  }

  /** The value the body asks for in column `c` of a row it changes. */
  ghost predicate IsUpdated<V>(I: Interp<V>, meta: TableMeta, fields: Fields, c: string, row: Row<V>, v: Value<V>) {
    match Member(fields, c)
    case None => v == Column(row, c)
    case Some(j) => HasColumn(meta, c) && Stores(I, j, CastOf(meta, c), v)
  }

  lemma {:induction false} SetRowOther<V>(I: Interp<V>, sets: seq<Assignment>, row: Row<V>, id: nat, c: string)
    requires forall i | 0 <= i < |sets| :: sets[i].column != c
    ensures c in SetRow(I, sets, row, id) <==> c in row
    ensures c in row ==> SetRow(I, sets, row, id)[c] == row[c]
  {
    hide CellValue;
    if sets != [] {
      SetRowOther(I, sets[..|sets| - 1], row, id, c);
    }
  }

  lemma {:induction false} SetRowHit<V>(I: Interp<V>, sets: seq<Assignment>, row: Row<V>, id: nat, i: nat)
    requires i < |sets| && forall j | i < j < |sets| :: sets[j].column != sets[i].column
    ensures var c := sets[i].column; c in SetRow(I, sets, row, id) && SetRow(I, sets, row, id)[c] == CellValue(I, c, id, sets[i].cell)
    decreases |sets|
  {
    hide CellValue;
    var k := |sets| - 1;
    if i < k {
      SetRowHit(I, sets[..k], row, id, i);
    }
  }

  lemma AssignedValue<V>(I: Interp<V>, meta: TableMeta, field: (string, Json), user: Option<CurrentUser>, id: nat)
    requires AssignmentOf(meta, field, user).Ok? && CellCasts(I, AssignmentOf(meta, field, user).value.cell)
    ensures var a := AssignmentOf(meta, field, user).value;
      && a.column == field.0 && HasColumn(meta, field.0)
      && Stores(I, field.1, CastOf(meta, field.0), CellValue(I, a.column, id, a.cell))
  {
    hide PgCastOf;
    if !field.1.JNull? {
      BoundStores(I, field.1, CastOf(meta, field.0));
    }
  }

  /** With distinct keys, as in any JSON object, each column ends with the value the body gives it. */
  lemma SetRowColumn<V>(I: Interp<V>, meta: TableMeta, fields: Fields, user: Option<CurrentUser>, row: Row<V>,
                        id: nat, c: string)
    requires AssignmentsOf(meta, fields, user).Ok? && Distinct(Keys(fields))
    requires forall i | 0 <= i < |fields| :: CellCasts(I, AssignmentsOf(meta, fields, user).value[i].cell)
    ensures IsUpdated(I, meta, fields, c, row, Column(SetRow(I, AssignmentsOf(meta, fields, user).value, row, id), c))
  {
    var sets := AssignmentsOf(meta, fields, user).value;
    AssignmentsEach(meta, fields, user);
    hide AssignmentsOf, AssignmentOf, CellValue, CellCasts, Stores, PgCastOf, CastOf, HasColumn, Assignable;
    forall i | 0 <= i < |fields| ensures sets[i].column == fields[i].0 {
      AssignedValue(I, meta, fields[i], user, id);
    }
    if Member(fields, c).None? {
      assert forall i | 0 <= i < |fields| :: Keys(fields)[i] == fields[i].0;
      SetRowOther(I, sets, row, id, c);
    } else {
      var i :| 0 <= i < |fields| && fields[i] == (c, Member(fields, c).value);
      assert forall j | i < j < |fields| :: Keys(fields)[j] == fields[j].0 && Keys(fields)[i] == c;
      AssignedValue(I, meta, fields[i], user, id);
      SetRowHit(I, sets, row, id, i);
    }
  }

  /**
   * Executing the UPDATE writes exactly the rows that the policy shows and the filters match, gives every
   * column of such a row the value the body asks for or else its old value, and adds and removes nothing.
   */
  lemma UpdateMeansBody<V>(I: Interp<V>, p: Policy, setting: Setting, meta: TableMeta, body: Json, opts: QueryOptions,
                           user: Option<CurrentUser>, rows: Rows<V>, next: nat, e: Effect<V>)
    requires UpdateRequest(meta, body, opts, user).Ok? && Distinct(Keys(body.fields))
    requires Effects(I, p, setting, UpdateRequest(meta, body, opts, user).value, rows, next, e)
    ensures AllAccepted(meta, opts.filters)
    ensures e.dels == {} && e.puts.Keys == Matching(I, p, setting, meta, opts.filters, rows)
    ensures Lists(e.returned, e.puts.Keys)
    ensures forall id, c | id in e.puts :: IsUpdated(I, meta, body.fields, c, rows[id], Column(e.puts[id], c))
  {
    var s := UpdateRequest(meta, body, opts, user).value;
    SelectedMatches(I, p, setting, meta, opts.filters, rows);
    UpdatedRows(I, p, setting, s, rows, next, e);
    hide Effects, CondsOf, AssignmentsOf, Selected, Matching, SetRow, IsUpdated, Lists, AllAccepted, CellCasts;
    forall id, c | id in e.puts ensures IsUpdated(I, meta, body.fields, c, rows[id], Column(e.puts[id], c)) {
      SetRowColumn(I, meta, body.fields, user, rows[id], id, c);
    }
  }

  lemma UpdatedRows<V>(I: Interp<V>, p: Policy, setting: Setting, s: Statement, rows: Rows<V>, next: nat, e: Effect<V>)
    requires s.Update? && Effects(I, p, setting, s, rows, next, e)
    ensures e.dels == {} && e.puts.Keys == Selected(I, p, setting, s.conds, rows) && Lists(e.returned, e.puts.Keys)
    ensures forall id | id in e.puts :: id in rows && e.puts[id] == SetRow(I, s.sets, rows[id], id)
    ensures forall i | 0 <= i < |s.sets| :: CellCasts(I, s.sets[i].cell)
  {
    assert e.puts.Keys == Selected(I, p, setting, s.conds, rows);
  }

  /** No column of the primary key, and for an authenticated caller no `user_id`, ever changes. */
  lemma UpdateKeepsKeys<V>(I: Interp<V>, p: Policy, setting: Setting, meta: TableMeta, body: Json, opts: QueryOptions,
                           user: Option<CurrentUser>, rows: Rows<V>, next: nat, e: Effect<V>, id: nat, c: string)
    requires UpdateRequest(meta, body, opts, user).Ok? && Distinct(Keys(body.fields))
    requires Effects(I, p, setting, UpdateRequest(meta, body, opts, user).value, rows, next, e)
    requires id in rows && (c in meta.primaryKey || (user.Some? && c == "user_id"))
    ensures var after := Apply(rows, e); id in after && Column(after[id], c) == Column(rows[id], c)
  {
    UpdateMeansBody(I, p, setting, meta, body, opts, user, rows, next, e);
    AssignmentsEach(meta, body.fields, user);
    hide Effects, UpdateRequest, AllAccepted, Matching, Lists;
    if id in e.puts {
      assert IsUpdated(I, meta, body.fields, c, rows[id], Column(e.puts[id], c));
      ProtectedAbsent(meta, body.fields, user, c);
    }
  }

  lemma ProtectedAbsent(meta: TableMeta, fields: Fields, user: Option<CurrentUser>, c: string)
    requires forall i | 0 <= i < |fields| :: Assignable(meta, fields[i].0, user)
    requires c in meta.primaryKey || (user.Some? && c == "user_id")
    ensures Member(fields, c).None?
  {
    assert forall i | 0 <= i < |fields| :: fields[i].0 != c;
  }
}
