/** The SQL-building half of `insert_rows` in `virtual_crud/insert.rs`, and what its INSERT means. */
module InsertBuilder {
  import opened Wrappers
  import opened Text
  import opened Catalog
  import opened Names
  import opened SqlTokens
  import opened SqlStatements
  import opened SqlFrames
  import opened SqlReader
  import opened SqlNames
  import opened SqlMeaning
  import opened JsonMeaning
  import opened WhereClause

  // ---------------------------------------------------------------- the request

  /** The leading objects of an array, or an error at the first item that is not one. */
  function ObjectsOf(items: seq<Json>): (r: Result<seq<Fields>>)
    ensures r.Ok? <==> forall i | 0 <= i < |items| :: items[i].JObject?
    ensures r.Ok? ==> |r.value| == |items| && forall i | 0 <= i < |items| :: r.value[i] == items[i].fields
    ensures r.Err? ==> r.error == BadRequest("bulk insert expects array of JSON objects")
  {
    if items == [] then Ok([])
    else
      var init :- ObjectsOf(items[..|items| - 1]);
      var last := items[|items| - 1];
      if last.JObject? then Ok(init + [last.fields]) else Err(BadRequest("bulk insert expects array of JSON objects"))
  }

  function RowsOf(body: Json): Result<seq<Fields>> {
    match body
    case JObject(fields, _) => Ok([fields])
    case JArray(items, _) =>
      if items == [] then Err(BadRequest("empty array for bulk insert")) else ObjectsOf(items)
    case _ => Err(BadRequest("request body must be a JSON object or array of objects"))
  }

  function AllKeys(rows: seq<Fields>): seq<string> {
    if rows == [] then [] else AllKeys(rows[..|rows| - 1]) + Keys(rows[|rows| - 1])
  }

  /** The backend manages `user_id`: the table has the column and the caller is authenticated. */
  predicate Owned(meta: TableMeta, user: Option<CurrentUser>) {
    HasColumn(meta, "user_id") && user.Some?
  }

  /** The column list: every key of the body, and `user_id` when the backend manages it. */
  function UnionColumns(meta: TableMeta, rows: seq<Fields>, user: Option<CurrentUser>): (cols: seq<string>)
    ensures Ascending(cols)
    ensures forall c :: c in cols <==> c in AllKeys(rows) || (Owned(meta, user) && c == "user_id")
  {
    SortedNames(AllKeys(rows) + (if Owned(meta, user) then ["user_id"] else []))
  }

  /** The client left `user_id` out, sent null, or sent the caller's own id. */
  predicate KeepsOwner(fields: Fields, user: CurrentUser) {
    var v := Member(fields, "user_id");
    v.Some? && !v.value.JNull? ==> BindText(v.value) == IntText(user.id)
  }

  const OVERRIDE := BadRequest("cannot override user_id; it is bound to the authenticated user")

  /** One cell of the grid; `owner` is the caller when the backend manages `user_id`. */
  function CellOf(types: map<string, string>, fields: Fields, c: string, owner: Option<CurrentUser>): Result<Cell> {
    if c !in types then Err(BadRequest("missing type for column '" + c + "'"))
    else if owner.Some? && c == "user_id" then
      if KeepsOwner(fields, owner.value) then Ok(Bound(IntText(owner.value.id), PgCastOf(types[c]))) else Err(OVERRIDE)
    else
      match Member(fields, c)
      case None => Ok(DefaultCell)
      case Some(v) => Ok(if v.JNull? then NullCell else Bound(BindText(v), PgCastOf(types[c])))
  }

  function TupleOf(types: map<string, string>, fields: Fields, cols: seq<string>,
                   owner: Option<CurrentUser>): (r: Result<seq<Cell>>)
    ensures r.Ok? ==> |r.value| == |cols|
  {
    if cols == [] then Ok([])
    else
      var init :- TupleOf(types, fields, cols[..|cols| - 1], owner);
      var c :- CellOf(types, fields, cols[|cols| - 1], owner);
      Ok(init + [c])
  }

  function GridOf(types: map<string, string>, rows: seq<Fields>, cols: seq<string>,
                  owner: Option<CurrentUser>): (r: Result<seq<seq<Cell>>>)
    ensures r.Ok? ==> |r.value| == |rows|
  {
    if rows == [] then Ok([])
    else
      var init :- GridOf(types, rows[..|rows| - 1], cols, owner);
      var t :- TupleOf(types, rows[|rows| - 1], cols, owner);
      Ok(init + [t])
  }

  function OwnerOf(meta: TableMeta, user: Option<CurrentUser>): Option<CurrentUser> {
    if Owned(meta, user) then user else None
  }

  /** The statement the body asks for, or the first error in the order of the checks. */
  function InsertRequest(meta: TableMeta, body: Json, user: Option<CurrentUser>): Result<Statement> {
    var rows :- RowsOf(body);
    var _ :- CheckColumns(meta, AllKeys(rows));
    var cols := UnionColumns(meta, rows, user);
    if cols == [] then Ok(InsertDefault(meta.schema, meta.name))
    else
      var grid :- GridOf(ColumnTypes(meta.columns), rows, cols, OwnerOf(meta, user));
      Ok(Insert(meta.schema, meta.name, cols, grid))
  }

  // ---------------------------------------------------------------- the builder

  method NormalizeBody(body: Json) returns (r: Result<seq<Fields>>)
    ensures r == RowsOf(body)
    ensures match body
      case JObject(fields, _) => r == Ok([fields])
      case JArray(items, _) =>
        if items == [] then r == Err(BadRequest("empty array for bulk insert"))
        else if forall i | 0 <= i < |items| :: items[i].JObject? then
          r.Ok? && |r.value| == |items| && forall i | 0 <= i < |items| :: r.value[i] == items[i].fields
        else r == Err(BadRequest("bulk insert expects array of JSON objects"))
      case _ => r == Err(BadRequest("request body must be a JSON object or array of objects"))
  {
    match body
    case JObject(fields, _) => return Ok([fields]);
    case JArray(items, _) =>
      if items == [] {
        return Err(BadRequest("empty array for bulk insert"));
      }
      var out: seq<Fields> := [];
      for i := 0 to |items|
        invariant ObjectsOf(items[..i]) == Ok(out)
      {
        if !items[i].JObject? {
          return Err(BadRequest("bulk insert expects array of JSON objects"));
        }
        assert items[..i + 1][..i] == items[..i];
        out := out + [items[i].fields];
      }
      assert items[..|items|] == items;
      return Ok(out);
    case _ => return Err(BadRequest("request body must be a JSON object or array of objects"));
  }

  lemma {:induction false} KeysPrefix(rows: seq<Fields>, i: nat) returns (rest: seq<string>)
    requires i <= |rows|
    ensures AllKeys(rows) == AllKeys(rows[..i]) + rest
    decreases |rows|
  {
    if i == |rows| {
      assert rows[..i] == rows;
      rest := [];
    } else {
      var init := rows[..|rows| - 1];
      rest := KeysPrefix(init, i);
      assert init[..i] == rows[..i];
      Associative(AllKeys(rows[..i]), rest, Keys(rows[|rows| - 1]));
      rest := rest + Keys(rows[|rows| - 1]);
    }
  }

  /** A failing prefix of the keys decides the error. */
  lemma KeysError(meta: TableMeta, rows: seq<Fields>, i: nat, ks: seq<string>, j: nat)
    requires i < |rows| && ks == Keys(rows[i]) && j < |ks|
    requires CheckColumns(meta, AllKeys(rows[..i]) + ks[..j]).Ok? && CheckColumn(meta, ks[j]).Err?
    ensures CheckColumns(meta, AllKeys(rows)) == CheckColumn(meta, ks[j])
  {
    KeyRows(rows, i);
    var rest := KeysPrefix(rows, i + 1);
    hide CheckColumn, CheckColumns, KnownColumn, AllKeys, Keys;
    var before := AllKeys(rows[..i]);
    Around(before, ks, rest, j);
    CheckColumnsError(meta, AllKeys(rows), |before| + j);
  }

  lemma Around<T>(a: seq<T>, b: seq<T>, c: seq<T>, j: nat)
    requires j < |b|
    ensures |a| + j < |a + b + c| && (a + b + c)[|a| + j] == b[j] && (a + b + c)[..|a| + j] == a + b[..j]
  {
  }

  lemma KeyRows(rows: seq<Fields>, i: nat)
    requires i < |rows|
    ensures AllKeys(rows[..i + 1]) == AllKeys(rows[..i]) + Keys(rows[i])
  {
    assert rows[..i + 1][..i] == rows[..i];
  }

  lemma KeyStep(meta: TableMeta, before: seq<string>, ks: seq<string>, j: nat)
    requires j < |ks| && CheckColumns(meta, before + ks[..j]).Ok? && CheckColumn(meta, ks[j]).Ok?
    ensures CheckColumns(meta, before + ks[..j + 1]).Ok?
    ensures Elements(before + ks[..j + 1]) == Elements(before + ks[..j]) + {ks[j]}
  {
    assert before + ks[..j + 1] == before + ks[..j] + [ks[j]];
    CheckColumnsSnoc(meta, before + ks[..j], ks[j]);
    ElementsSnoc(before + ks[..j], ks[j]);
  }

  /** The keys of one object, checked one by one and added to the set. */
  method CollectRowKeys(meta: TableMeta, rows: seq<Fields>, i: nat, names: set<string>) returns (r: Result<set<string>>)
    requires i < |rows| && CheckColumns(meta, AllKeys(rows[..i])).Ok?
    requires names == Elements(AllKeys(rows[..i]))
    ensures match r
      case Ok(all) => CheckColumns(meta, AllKeys(rows[..i + 1])).Ok? && all == Elements(AllKeys(rows[..i + 1]))
      case Err(e) => CheckColumns(meta, AllKeys(rows)) == Err(e)
  {
    var ks := Keys(rows[i]);
    KeyRows(rows, i);
    hide CheckColumn, CheckColumns, KnownColumn, AllKeys, Keys, Elements;
    ghost var before := AllKeys(rows[..i]);
    assert before + ks[..0] == before;
    var all := names;
    for j := 0 to |ks|
      invariant CheckColumns(meta, before + ks[..j]).Ok?
      invariant all == Elements(before + ks[..j])
    {
      var c := CheckColumn(meta, ks[j]);
      if c.Err? {
        KeysError(meta, rows, i, ks, j);
        return Err(c.error);
      }
      KeyStep(meta, before, ks, j);
      all := all + {ks[j]};
    }
    assert ks[..|ks|] == ks;
    r := Ok(all);
  }

  method CollectKeys(meta: TableMeta, rows: seq<Fields>) returns (r: Result<set<string>>)
    ensures match CheckColumns(meta, AllKeys(rows))
      case Ok(_) => r == Ok(Elements(AllKeys(rows)))
      case Err(e) => r == Err(e)
  {
    var names: set<string> := {};
    assert AllKeys([]) == [] && Elements([]) == {} && rows[..0] == [] && CheckColumns(meta, []).Ok?;
    hide CheckColumns, AllKeys;
    for i := 0 to |rows|
      invariant CheckColumns(meta, AllKeys(rows[..i])).Ok?
      invariant names == Elements(AllKeys(rows[..i]))
    {
      names :- CollectRowKeys(meta, rows, i, names);
    }
    assert rows[..|rows|] == rows;
    r := Ok(names);
  }

  method AllColumns(meta: TableMeta, rows: seq<Fields>, user: Option<CurrentUser>) returns (r: Result<seq<string>>)
    ensures match CheckColumns(meta, AllKeys(rows))
      case Ok(_) => r == Ok(UnionColumns(meta, rows, user))
      case Err(e) => r == Err(e)
  {
    hide CheckColumns, AllKeys, Ascending, HasColumn;
    var names :- CollectKeys(meta, rows);
    if HasColumn(meta, "user_id") && user.Some? {
      names := names + {"user_id"};
    }
    var v := Sort(names);
    assert Elements(UnionColumns(meta, rows, user)) == Elements(v) by {
      assert forall c :: c in v <==> c in Elements(v);
    }
    AscendingUnique(v, UnionColumns(meta, rows, user));
    r := Ok(v);
  }

  // ---------------------------------------------------------------- the grid

  method CastsOf(types: map<string, string>, cols: seq<string>) returns (casts: seq<string>)
    requires forall i | 0 <= i < |cols| :: cols[i] in types
    ensures |casts| == |cols| && forall i | 0 <= i < |cols| :: casts[i] == PgCastOf(types[cols[i]])
  {
    casts := [];
    hide PgCastOf;
    for i := 0 to |cols|
      invariant |casts| == i && forall j | 0 <= j < i :: casts[j] == PgCastOf(types[cols[j]])
    {
      casts := casts + [PgCastOf(types[cols[i]])];
    }
  }

  /** The body of the inner loop. */
  method BuildCell(types: map<string, string>, cast: string, fields: Fields, c: string, owner: Option<CurrentUser>,
                   binds: BindVec)
    returns (r: Result<string>)
    requires c in types && cast == PgCastOf(types[c])
    modifies binds
    ensures match CellOf(types, fields, c, owner)
      case Ok(cell) => r == Ok(CellText(cell, |old(binds.items)|)) && binds.items == old(binds.items) + CellBinds(cell)
      case Err(e) => r == Err(e)
  {
    hide PgCastOf, Dec, IntText;
    if owner.Some? && c == "user_id" {
      var v := Member(fields, c);
      if v.Some? {
        if !v.value.JNull? {
          if BindText(v.value) != IntText(owner.value.id) {
            return Err(OVERRIDE);
          }
        }
      }
      binds.Push(IntText(owner.value.id));
      return Ok("$" + Dec(|binds.items|) + "::" + cast);
    }
    match Member(fields, c)
    case None => r := Ok("DEFAULT");
    case Some(v) =>
      if v.JNull? {
        r := Ok("NULL");
      } else {
        binds.Push(BindText(v));
        r := Ok("$" + Dec(|binds.items|) + "::" + cast);
      }
  }

  lemma {:induction false} CellBindsSnoc(cs: seq<Cell>, c: Cell)
    ensures CellsBinds(cs + [c]) == CellsBinds(cs) + CellBinds(c)
  {
    hide CellBinds;
    if cs == [] {
      assert [c][1..] == [];
    } else {
      CellBindsSnoc(cs[1..], c);
      assert (cs + [c])[1..] == cs[1..] + [c];
    }
  }

  lemma {:induction false} CellTextsSnoc(cs: seq<Cell>, c: Cell, n: nat)
    ensures CellTexts(cs + [c], n) == CellTexts(cs, n) + [CellText(c, n + |CellsBinds(cs)|)]
  {
    hide CellText, CellBinds;
    if cs == [] {
      assert [c][1..] == [];
    } else {
      CellTextsSnoc(cs[1..], c, n + |CellBinds(cs[0])|);
      assert (cs + [c])[1..] == cs[1..] + [c];
    }
  }

  lemma {:induction false} RowBindsSnoc(rows: seq<seq<Cell>>, t: seq<Cell>)
    ensures RowsBinds(rows + [t]) == RowsBinds(rows) + CellsBinds(t)
  {
    hide CellsBinds;
    if rows == [] {
      assert [t][1..] == [];
    } else {
      RowBindsSnoc(rows[1..], t);
      assert (rows + [t])[1..] == rows[1..] + [t];
    }
  }

  lemma {:induction false} RowTextsSnoc(rows: seq<seq<Cell>>, t: seq<Cell>, n: nat)
    ensures RowTexts(rows + [t], n) == RowTexts(rows, n) + [TupleText(t, n + |RowsBinds(rows)|)]
  {
    hide TupleText, CellsBinds;
    if rows == [] {
      assert [t][1..] == [];
    } else {
      RowTextsSnoc(rows[1..], t, n + |CellsBinds(rows[0])|);
      assert (rows + [t])[1..] == rows[1..] + [t];
    }
  }

  lemma {:induction false} TupleError(types: map<string, string>, fields: Fields, cols: seq<string>,
                                      owner: Option<CurrentUser>, i: nat)
    requires i < |cols| && TupleOf(types, fields, cols[..i], owner).Ok? && CellOf(types, fields, cols[i], owner).Err?
    ensures TupleOf(types, fields, cols, owner) == Err(CellOf(types, fields, cols[i], owner).error)
    decreases |cols|
  {
    hide CellOf;
    var init := cols[..|cols| - 1];
    if i == |cols| - 1 {
      assert cols[..i] == init;
    } else {
      assert init[..i] == cols[..i];
      TupleError(types, fields, init, owner, i);
    }
  }

  lemma {:induction false} GridError(types: map<string, string>, rows: seq<Fields>, cols: seq<string>,
                                     owner: Option<CurrentUser>, i: nat)
    requires i < |rows| && GridOf(types, rows[..i], cols, owner).Ok? && TupleOf(types, rows[i], cols, owner).Err?
    ensures GridOf(types, rows, cols, owner) == Err(TupleOf(types, rows[i], cols, owner).error)
    decreases |rows|
  {
    hide TupleOf;
    var init := rows[..|rows| - 1];
    if i == |rows| - 1 {
      assert rows[..i] == init;
    } else {
      assert init[..i] == rows[..i];
      GridError(types, init, cols, owner, i);
    }
  }

  /** The inner loop has built the first `i` cells. */
  ghost predicate TupleProgress(types: map<string, string>, fields: Fields, cols: seq<string>,
                                owner: Option<CurrentUser>,
                                i: nat, cs: seq<Cell>, parts: seq<string>, n: nat) {
    i <= |cols| && TupleOf(types, fields, cols[..i], owner) == Ok(cs) && parts == CellTexts(cs, n)
  }

  lemma NoTupleProgress(types: map<string, string>, fields: Fields, cols: seq<string>, owner: Option<CurrentUser>,
                        n: nat)
    ensures TupleProgress(types, fields, cols, owner, 0, [], [], n) && CellsBinds([]) == []
  {
    assert cols[..0] == [];
  }

  lemma MoreTupleProgress(types: map<string, string>, fields: Fields, cols: seq<string>, owner: Option<CurrentUser>,
                          i: nat, cs: seq<Cell>, c: Cell, parts: seq<string>, n: nat)
    requires i < |cols| && TupleProgress(types, fields, cols, owner, i, cs, parts, n)
    requires CellOf(types, fields, cols[i], owner) == Ok(c)
    ensures TupleProgress(types, fields, cols, owner, i + 1, cs + [c], parts + [CellText(c, n + |CellsBinds(cs)|)], n)
    ensures CellsBinds(cs + [c]) == CellsBinds(cs) + CellBinds(c)
  {
    assert cols[..i + 1][..i] == cols[..i];
    CellBindsSnoc(cs, c);
    CellTextsSnoc(cs, c, n);
  }

  lemma EndOfTuple(types: map<string, string>, fields: Fields, cols: seq<string>, owner: Option<CurrentUser>,
                   cs: seq<Cell>, parts: seq<string>, n: nat)
    requires TupleProgress(types, fields, cols, owner, |cols|, cs, parts, n)
    ensures TupleOf(types, fields, cols, owner) == Ok(cs)
    ensures "(" + Join(parts, ", ") + ")" == TupleText(cs, n)
  {
    assert cols[..|cols|] == cols;
  }

  /** The step of the inner loop, once its cell is built. */
  lemma TupleStep(types: map<string, string>, fields: Fields, cols: seq<string>, owner: Option<CurrentUser>,
                  i: nat, cs: seq<Cell>, parts: seq<string>, before: seq<string>, binds: seq<string>, piece: string)
    requires i < |cols| && TupleProgress(types, fields, cols, owner, i, cs, parts, |before|)
    requires CellOf(types, fields, cols[i], owner).Ok?
    requires var c := CellOf(types, fields, cols[i], owner).value;
      piece == CellText(c, |before + CellsBinds(cs)|) && binds == before + CellsBinds(cs) + CellBinds(c)
    ensures var c := CellOf(types, fields, cols[i], owner).value;
      && TupleProgress(types, fields, cols, owner, i + 1, cs + [c], parts + [piece], |before|)
      && binds == before + CellsBinds(cs + [c])
  {
    hide CellOf, TupleOf, CellText, CellsBinds, CellBinds, TupleProgress;
    var c := CellOf(types, fields, cols[i], owner).value;
    MoreTupleProgress(types, fields, cols, owner, i, cs, c, parts, |before|);
    Associative(before, CellsBinds(cs), CellBinds(c));
  }

  /** One row of VALUES: the body of the outer loop. */
  method BuildTuple(types: map<string, string>, casts: seq<string>, fields: Fields, cols: seq<string>,
                    owner: Option<CurrentUser>, binds: BindVec) returns (r: Result<string>)
    requires |casts| == |cols| && forall i | 0 <= i < |cols| :: cols[i] in types && casts[i] == PgCastOf(types[cols[i]])
    modifies binds
    ensures match TupleOf(types, fields, cols, owner)
      case Ok(cs) => r == Ok(TupleText(cs, |old(binds.items)|)) && binds.items == old(binds.items) + CellsBinds(cs)
      case Err(e) => r == Err(e)
  {
    ghost var before := binds.items;
    ghost var cs: seq<Cell> := [];
    var parts: seq<string> := [];
    NoTupleProgress(types, fields, cols, owner, |before|);
    assert before + [] == before;
    hide PgCastOf, CellOf, TupleOf, CellText, CellsBinds, CellBinds, Join, TupleText, TupleProgress;
    for i := 0 to |cols|
      invariant TupleProgress(types, fields, cols, owner, i, cs, parts, |before|)
      invariant binds.items == before + CellsBinds(cs)
    {
      var piece := BuildCell(types, casts[i], fields, cols[i], owner, binds);
      if piece.Err? {
        TupleStops(types, fields, cols, owner, i, cs, parts, |before|);
        return Err(piece.error);
      }
      TupleStep(types, fields, cols, owner, i, cs, parts, before, binds.items, piece.value);
      parts := parts + [piece.value];
      cs := cs + [CellOf(types, fields, cols[i], owner).value];
    }
    EndOfTuple(types, fields, cols, owner, cs, parts, |before|);
    r := Ok("(" + Join(parts, ", ") + ")");
  }

  lemma TupleStops(types: map<string, string>, fields: Fields, cols: seq<string>, owner: Option<CurrentUser>,
                   i: nat, cs: seq<Cell>, parts: seq<string>, n: nat)
    requires i < |cols| && TupleProgress(types, fields, cols, owner, i, cs, parts, n)
    requires CellOf(types, fields, cols[i], owner).Err?
    ensures TupleOf(types, fields, cols, owner) == Err(CellOf(types, fields, cols[i], owner).error)
  {
    TupleError(types, fields, cols, owner, i);
  }

  ghost predicate GridProgress(types: map<string, string>, rows: seq<Fields>, cols: seq<string>,
                               owner: Option<CurrentUser>,
                               i: nat, grid: seq<seq<Cell>>, parts: seq<string>) {
    i <= |rows| && GridOf(types, rows[..i], cols, owner) == Ok(grid) && parts == RowTexts(grid, 0)
  }

  lemma NoGridProgress(types: map<string, string>, rows: seq<Fields>, cols: seq<string>, owner: Option<CurrentUser>)
    ensures GridProgress(types, rows, cols, owner, 0, [], []) && RowsBinds([]) == []
  {
    assert rows[..0] == [];
  }

  lemma MoreGridProgress(types: map<string, string>, rows: seq<Fields>, cols: seq<string>, owner: Option<CurrentUser>,
                         i: nat, grid: seq<seq<Cell>>, t: seq<Cell>, parts: seq<string>)
    requires i < |rows| && GridProgress(types, rows, cols, owner, i, grid, parts)
    requires TupleOf(types, rows[i], cols, owner) == Ok(t)
    ensures GridProgress(types, rows, cols, owner, i + 1, grid + [t], parts + [TupleText(t, |RowsBinds(grid)|)])
    ensures RowsBinds(grid + [t]) == RowsBinds(grid) + CellsBinds(t)
  {
    hide TupleOf;
    assert rows[..i + 1][..i] == rows[..i];
    RowBindsSnoc(grid, t);
    RowTextsSnoc(grid, t, 0);
  }

  lemma GridStops(types: map<string, string>, rows: seq<Fields>, cols: seq<string>, owner: Option<CurrentUser>,
                  i: nat, grid: seq<seq<Cell>>, parts: seq<string>)
    requires i < |rows| && GridProgress(types, rows, cols, owner, i, grid, parts)
    requires TupleOf(types, rows[i], cols, owner).Err?
    ensures GridOf(types, rows, cols, owner) == Err(TupleOf(types, rows[i], cols, owner).error)
  {
    GridError(types, rows, cols, owner, i);
  }

  /** The VALUES rows and the values they bind. */
  method BuildGrid(types: map<string, string>, rows: seq<Fields>, cols: seq<string>, owner: Option<CurrentUser>)
    returns (r: Result<(seq<string>, seq<string>)>)
    requires forall i | 0 <= i < |cols| :: cols[i] in types
    ensures match GridOf(types, rows, cols, owner)
      case Ok(grid) => r == Ok((RowTexts(grid, 0), RowsBinds(grid)))
      case Err(e) => r == Err(e)
  {
    var casts := CastsOf(types, cols);
    var binds := new BindVec();
    ghost var grid: seq<seq<Cell>> := [];
    var values: seq<string> := [];
    NoGridProgress(types, rows, cols, owner);
    hide PgCastOf, TupleOf, GridOf, CellsBinds, RowsBinds, TupleText, RowTexts, GridProgress;
    for i := 0 to |rows|
      invariant GridProgress(types, rows, cols, owner, i, grid, values)
      invariant binds.items == RowsBinds(grid)
    {
      var piece := BuildTuple(types, casts, rows[i], cols, owner, binds);
      if piece.Err? {
        GridStops(types, rows, cols, owner, i, grid, values);
        return Err(piece.error);
      }
      ghost var t := TupleOf(types, rows[i], cols, owner).value;
      MoreGridProgress(types, rows, cols, owner, i, grid, t, values);
      values := values + [piece.value];
      grid := grid + [t];
    }
    EndOfGrid(types, rows, cols, owner, grid, values);
    r := Ok((values, binds.items));
  }

  lemma EndOfGrid(types: map<string, string>, rows: seq<Fields>, cols: seq<string>, owner: Option<CurrentUser>,
                  grid: seq<seq<Cell>>, parts: seq<string>)
    requires GridProgress(types, rows, cols, owner, |rows|, grid, parts)
    ensures GridOf(types, rows, cols, owner) == Ok(grid) && parts == RowTexts(grid, 0)
  {
    assert rows[..|rows|] == rows;
  }

  /** `("c1", "c2")` */
  method ColumnList(cols: seq<string>) returns (sql: string)
    ensures sql == Join(NameTexts(cols), ", ")
  {
    var acc: seq<string> := [];
    assert cols[..0] == [] && NameTexts([]) == [];
    hide NameTexts;
    for i := 0 to |cols|
      invariant acc == NameTexts(cols[..i])
    {
      NameTextsSnoc(cols[..i], cols[i]);
      assert cols[..i + 1] == cols[..i] + [cols[i]];
      acc := acc + ["\"" + cols[i] + "\""];
    }
    assert cols[..|cols|] == cols;
    sql := Join(acc, ", ");
  }

  /** The statement text and its bound values, or the first error. */
  method BuildInsertSql(meta: TableMeta, body: Json,
                        user: Option<CurrentUser>) returns (r: Result<(string, seq<string>)>)
    ensures match InsertRequest(meta, body, user)
      case Ok(s) => r == Ok((StatementText(s), StatementBinds(s)))
      case Err(e) => r == Err(e)
  {
    hide RowsOf, CheckColumns, AllKeys, UnionColumns, GridOf, OwnerOf, RowsBinds, RowTexts, NameTexts, Join, InsertHeadText, CloseText;
    var types := IndexColumns(meta.columns);
    var rows :- NormalizeBody(body);
    var cols :- AllColumns(meta, rows, user);
    if cols == [] {
      var sql := InsertHeadText(meta.schema, meta.name) + " DEFAULT VALUES" + CloseText(GAP16, GAP12, GAP12, "ins");
      return Ok((sql, []));
    }
    UnionTyped(meta, rows, user);
    var grid :- BuildGrid(types, rows, cols, OwnerOf(meta, user));
    var names := ColumnList(cols);
    var values := Join(grid.0, ", ");
    var sql := InsertHeadText(meta.schema, meta.name) + (" (" + names + ")" + "\n                VALUES " + values)
      + CloseText(GAP16, GAP12, GAP12, "ins");
    r := Ok((sql, grid.1));
  }

  /** Every column of the union has a type, so no cast is missing. */
  lemma UnionTyped(meta: TableMeta, rows: seq<Fields>, user: Option<CurrentUser>)
    requires CheckColumns(meta, AllKeys(rows)).Ok?
    ensures var cols := UnionColumns(meta, rows, user);
      forall i | 0 <= i < |cols| :: cols[i] in ColumnTypes(meta.columns) && IsIdent(cols[i])
  {
    var cols, keys := UnionColumns(meta, rows, user), AllKeys(rows);
    CheckColumnsKnown(meta, keys);
    forall i | 0 <= i < |cols| ensures KnownColumn(meta, cols[i]) {
      assert cols[i] in cols;
      if cols[i] in keys {
        var k :| 0 <= k < |keys| && keys[k] == cols[i];
      }
    }
  }

  // ---------------------------------------------------------------- which bodies are accepted

  lemma {:induction false} TupleCells(types: map<string, string>, fields: Fields, cols: seq<string>,
                                      owner: Option<CurrentUser>)
    ensures var t := TupleOf(types, fields, cols, owner);
      && (t.Ok? <==> forall i | 0 <= i < |cols| :: CellOf(types, fields, cols[i], owner).Ok?)
      && (t.Ok? ==> forall i | 0 <= i < |cols| :: CellOf(types, fields, cols[i], owner) == Ok(t.value[i]))
  {
    hide CellOf;
    if cols != [] {
      var init := cols[..|cols| - 1];
      TupleCells(types, fields, init, owner);
      assert forall i | 0 <= i < |init| :: init[i] == cols[i];
    }
  }

  lemma {:induction false} GridTuples(types: map<string, string>, rows: seq<Fields>, cols: seq<string>,
                                      owner: Option<CurrentUser>)
    ensures var g := GridOf(types, rows, cols, owner);
      && (g.Ok? <==> forall i | 0 <= i < |rows| :: TupleOf(types, rows[i], cols, owner).Ok?)
      && (g.Ok? ==> forall i | 0 <= i < |rows| :: TupleOf(types, rows[i], cols, owner) == Ok(g.value[i]))
  {
    hide TupleOf;
    if rows != [] {
      var init := rows[..|rows| - 1];
      GridTuples(types, init, cols, owner);
      assert forall i | 0 <= i < |init| :: init[i] == rows[i];
    }
  }

  /** The object has no owner, or null, or the caller itself, as a string or a number. */
  predicate OwnOrAbsent(fields: Fields, id: int) {
    match Member(fields, "user_id")
    case None => true
    case Some(JNull) => true
    case Some(JString(s)) => s == IntText(id)
    case Some(JScalar(text)) => text == IntText(id)
    case Some(JArray(_, text)) => text == IntText(id)
    case Some(JObject(_, text)) => text == IntText(id)
  }

  /** An object's keys are columns of the table, and it does not try to change the owner. */
  predicate RowAccepted(meta: TableMeta, fields: Fields, user: Option<CurrentUser>) {
    && AllKnown(meta, Keys(fields))
    && (Managed(meta, user) ==> OwnOrAbsent(fields, user.value.id))
  }

  lemma OwnedManaged(meta: TableMeta, user: Option<CurrentUser>)
    ensures Owned(meta, user) <==> Managed(meta, user)
  {
  }

  lemma KeepsOwn(fields: Fields, user: CurrentUser)
    ensures KeepsOwner(fields, user) <==> OwnOrAbsent(fields, user.id)
  {
    hide IntText, Member;
  }

  predicate AllKnown(meta: TableMeta, ks: seq<string>) {
    forall i | 0 <= i < |ks| :: KnownColumn(meta, ks[i])
  }

  lemma AllKnownConcat(meta: TableMeta, a: seq<string>, b: seq<string>)
    ensures AllKnown(meta, a + b) <==> AllKnown(meta, a) && AllKnown(meta, b)
  {
    hide KnownColumn;
    var s := a + b;
    assert forall i | 0 <= i < |a| :: s[i] == a[i];
    assert forall i | 0 <= i < |b| :: s[|a| + i] == b[i];
  }

  lemma {:induction false} KeysKnown(meta: TableMeta, rows: seq<Fields>)
    ensures AllKnown(meta, AllKeys(rows)) <==> forall i | 0 <= i < |rows| :: AllKnown(meta, Keys(rows[i]))
  {
    if rows != [] {
      var init, ks := rows[..|rows| - 1], Keys(rows[|rows| - 1]);
      KeysKnown(meta, init);
      AllKnownConcat(meta, AllKeys(init), ks);
      assert AllKeys(rows) == AllKeys(init) + ks;
      hide KnownColumn, AllKnown, AllKeys, Keys;
      assert forall i | 0 <= i < |init| :: init[i] == rows[i];
    }
  }

  /** One tuple of a grid over known columns is built exactly when the object keeps the owner. */
  lemma TupleAccepted(meta: TableMeta, fields: Fields, cols: seq<string>, user: Option<CurrentUser>)
    requires forall i | 0 <= i < |cols| :: cols[i] in ColumnTypes(meta.columns)
    requires Owned(meta, user) ==> "user_id" in cols
    ensures TupleOf(ColumnTypes(meta.columns), fields, cols, OwnerOf(meta, user)).Ok?
       <==> (Owned(meta, user) ==> KeepsOwner(fields, user.value))
  {
    var types, owner := ColumnTypes(meta.columns), OwnerOf(meta, user);
    hide ColumnTypes, KeepsOwner, PgCastOf, Member;
    TupleCells(types, fields, cols, owner);
    if Owned(meta, user) {
      var k :| 0 <= k < |cols| && cols[k] == "user_id";
      assert CellOf(types, fields, cols[k], owner).Ok? <==> KeepsOwner(fields, user.value);
    }
  }

  /** The rows of a body: the object itself, or the array's items in order. */
  lemma BodyRows(body: Json)
    ensures RowsOf(body).Ok? <==>
      body.JObject? || (body.JArray? && body.items != [] && forall i | 0 <= i < |body.items| :: body.items[i].JObject?)
    ensures RowsOf(body).Ok? && body.JObject? ==> RowsOf(body).value == [body.fields]
    ensures RowsOf(body).Ok? && body.JArray? ==>
      |RowsOf(body).value| == |body.items| && forall i | 0 <= i < |body.items| :: RowsOf(body).value[i] == body.items[i].fields
  {
  }

  lemma RowsAccepted(meta: TableMeta, body: Json, user: Option<CurrentUser>)
    requires RowsOf(body).Ok?
    ensures InsertRequest(meta, body, user).Ok? <==>
      forall i | 0 <= i < |RowsOf(body).value| :: RowAccepted(meta, RowsOf(body).value[i], user)
  {
    var rows := RowsOf(body).value;
    var types, owner := ColumnTypes(meta.columns), OwnerOf(meta, user);
    OwnedManaged(meta, user);
    hide KnownColumn, RowsOf, CheckColumns, ColumnTypes, GridOf, TupleOf, AllKeys, KeepsOwner, OwnOrAbsent, Managed;
    CheckColumnsKnown(meta, AllKeys(rows));
    KeysKnown(meta, rows);
    if CheckColumns(meta, AllKeys(rows)).Ok? {
      var cols := UnionColumns(meta, rows, user);
      UnionTyped(meta, rows, user);
      GridTuples(types, rows, cols, owner);
      forall i | 0 <= i < |rows| ensures TupleOf(types, rows[i], cols, owner).Ok?
          <==> (Managed(meta, user) ==> OwnOrAbsent(rows[i], user.value.id)) {
        TupleAccepted(meta, rows[i], cols, user);
        if user.Some? {
          KeepsOwn(rows[i], user.value);
        }
      }
    }
  }

  /** Exactly which bodies become an INSERT. */
  lemma InsertAccepted(meta: TableMeta, body: Json, user: Option<CurrentUser>)
    ensures InsertRequest(meta, body, user).Ok? <==>
      match body
      case JObject(fields, _) => RowAccepted(meta, fields, user)
      case JArray(items, _) =>
        items != [] && forall i | 0 <= i < |items| :: items[i].JObject? && RowAccepted(meta, items[i].fields, user)
      case _ => false
  {
    BodyRows(body);
    if RowsOf(body).Ok? {
      RowsAccepted(meta, body, user);
    }
    hide RowsOf, RowAccepted, CheckColumns, AllKeys, UnionColumns, GridOf;
  }

  // ---------------------------------------------------------------- what the INSERT means

  lemma TupleValid(types: map<string, string>, fields: Fields, cols: seq<string>, owner: Option<CurrentUser>)
    requires cols != [] && TupleOf(types, fields, cols, owner).Ok?
    ensures ValidCells(TupleOf(types, fields, cols, owner).value)
  {
    CastsAreIdents();
    var t := TupleOf(types, fields, cols, owner).value;
    TupleCells(types, fields, cols, owner);
    hide IsIdent, TupleOf, IntText, KeepsOwner;
    forall i | 0 <= i < |t| ensures ValidCell(t[i]) {
      assert CellOf(types, fields, cols[i], owner) == Ok(t[i]);
    }
  }

  lemma InsertValid(meta: TableMeta, body: Json, user: Option<CurrentUser>)
    requires InsertRequest(meta, body, user).Ok?
    ensures ValidParts(InsertRequest(meta, body, user).value)
  {
    var s := InsertRequest(meta, body, user).value;
    if s.Insert? {
      var rows := RowsOf(body).value;
      var types, owner := ColumnTypes(meta.columns), OwnerOf(meta, user);
      UnionTyped(meta, rows, user);
      GridTuples(types, rows, s.columns, owner);
      forall i | 0 <= i < |s.rows| ensures ValidCells(s.rows[i]) {
        TupleValid(types, rows[i], s.columns, owner);
      }
      NamesValid(s.columns);
      assert |s.rows| > 0;
    }
  }

  lemma NamesValid(names: seq<string>)
    requires names != [] && forall i | 0 <= i < |names| :: IsIdent(names[i])
    ensures ValidNames(names)
  {
    assert !IsWordChar('"');
  }

  /** The text and its bound values mean the requested statement exactly when the table's names have no quote. */
  lemma InsertMeansRequest(meta: TableMeta, body: Json, user: Option<CurrentUser>)
    requires InsertRequest(meta, body, user).Ok?
    ensures var s := InsertRequest(meta, body, user).value;
      Denote(StatementText(s), StatementBinds(s)) == Some(s) <==> ValidName(meta.schema) && ValidName(meta.name)
  {
    var s := InsertRequest(meta, body, user).value;
    assert s.schema == meta.schema && s.table == meta.name;
    InsertValid(meta, body, user);
    hide InsertRequest, StatementText, StatementBinds, Denote, ValidParts;
    MeansItself(s);
  }

  /** What the object asks for in column `c` of the new row `id`. */
  ghost predicate IsRequested<V>(I: Interp<V>, meta: TableMeta, fields: Fields, c: string, user: Option<CurrentUser>,
                                 id: nat, v: Value<V>) {
    if Managed(meta, user) && c == "user_id" then HasColumn(meta, c) && IsCast(I, IntText(user.value.id), CastOf(meta, c), v)
    else match Member(fields, c)
      case None => v == I.default(c, id)
      case Some(j) => HasColumn(meta, c) && Stores(I, j, CastOf(meta, c), v)
  }

  ghost predicate IsRequestedRow<V>(I: Interp<V>, meta: TableMeta, fields: Fields, user: Option<CurrentUser>, id: nat,
                                    row: Row<V>) {
    && row.Keys == I.columns
    && forall c | c in I.columns :: IsRequested(I, meta, fields, c, user, id, row[c])
  }

  lemma CellRequested<V>(I: Interp<V>, meta: TableMeta, fields: Fields, c: string, user: Option<CurrentUser>, id: nat)
    requires HasColumn(meta, c) && CellOf(ColumnTypes(meta.columns), fields, c, OwnerOf(meta, user)).Ok?
    requires CellCasts(I, CellOf(ColumnTypes(meta.columns), fields, c, OwnerOf(meta, user)).value)
    ensures IsRequested(I, meta, fields, c, user, id,
              CellValue(I, c, id, CellOf(ColumnTypes(meta.columns), fields, c, OwnerOf(meta, user)).value))
  {
    OwnedManaged(meta, user);
    hide PgCastOf, KeepsOwner, IntText, Member, Managed;
    if Member(fields, c).Some? && !Member(fields, c).value.JNull? && !(Managed(meta, user) && c == "user_id") {
      BoundStores(I, Member(fields, c).value, CastOf(meta, c));
    }
  }

  lemma RowRequested<V>(I: Interp<V>, meta: TableMeta, rows: seq<Fields>, i: nat, cols: seq<string>, cells: seq<Cell>,
                        user: Option<CurrentUser>, id: nat)
    requires i < |rows| && CheckColumns(meta, AllKeys(rows)).Ok? && cols == UnionColumns(meta, rows, user)
    requires TupleOf(ColumnTypes(meta.columns), rows[i], cols, OwnerOf(meta, user)) == Ok(cells)
    requires forall j | 0 <= j < |cells| :: CellCasts(I, cells[j])
    ensures IsRequestedRow(I, meta, rows[i], user, id, NewRow(I, cols, cells, id))
  {
    var types, owner := ColumnTypes(meta.columns), OwnerOf(meta, user);
    UnionTyped(meta, rows, user);
    TupleCells(types, rows[i], cols, owner);
    var row := NewRow(I, cols, cells, id);
    hide TupleOf, ColumnTypes, CellOf, UnionColumns, IsRequested, CheckColumns, CellValue, CellCasts, IsIdent, AllKeys;
    forall c | c in I.columns ensures IsRequested(I, meta, rows[i], c, user, id, row[c]) {
      if c in cols {
        var k := IndexOf(cols, c);
        assert CellOf(types, rows[i], cols[k], owner) == Ok(cells[k]);
        CellRequested(I, meta, rows[i], c, user, id);
      } else {
        AbsentDefault(I, meta, rows, i, c, user, id);
      }
    }
  }

  /** A column outside the union is absent from every object. */
  lemma AbsentDefault<V>(I: Interp<V>, meta: TableMeta, rows: seq<Fields>, i: nat, c: string,
                         user: Option<CurrentUser>, id: nat)
    requires i < |rows| && c !in UnionColumns(meta, rows, user)
    ensures IsRequested(I, meta, rows[i], c, user, id, I.default(c, id))
  {
    OwnedManaged(meta, user);
    if c in Keys(rows[i]) {
      KeyInAll(rows, i, c);
    }
  }

  lemma {:induction false} KeyInAll(rows: seq<Fields>, i: nat, c: string)
    requires i < |rows| && c in Keys(rows[i])
    ensures c in AllKeys(rows)
    decreases |rows|
  {
    if i < |rows| - 1 {
      KeyInAll(rows[..|rows| - 1], i, c);
    }
  }

  /** No item has a key, and the backend adds no column: there is nothing to insert but defaults. */
  predicate NoColumns(meta: TableMeta, items: seq<Json>, user: Option<CurrentUser>) {
    !Managed(meta, user) && forall i | 0 <= i < |items| :: items[i].JObject? && items[i].fields == []
  }

  ghost predicate IsDefaultRow<V>(I: Interp<V>, id: nat, row: Row<V>) {
    row.Keys == I.columns && forall c | c in I.columns :: row[c] == I.default(c, id)
  }

  /** The `n` rows from identity `next` on. */
  function RowsFrom<V>(rows: Rows<V>, next: nat, n: nat): (out: seq<Row<V>>)
    ensures |out| == n && forall i | 0 <= i < n && next + i in rows :: out[i] == rows[next + i]
  {
    seq(n, i requires 0 <= i < n => if next + i in rows then rows[next + i] else map[])
  }

  /**
   * These new rows, with identities from `next` on, are those that the body asks for: an object one row, an
   * array one row per item in order, or a single row of defaults if there is no column to set.
   */
  ghost predicate RowsAsked<V>(I: Interp<V>, meta: TableMeta, body: Json, user: Option<CurrentUser>, next: nat,
                               out: seq<Row<V>>) {
    match body
    case JObject(fields, _) => |out| == 1 && IsRequestedRow(I, meta, fields, user, next, out[0])
    case JArray(items, _) =>
      if NoColumns(meta, items, user) then |out| == 1 && IsDefaultRow(I, next, out[0])
      else
        && |out| == |items|
        && forall i | 0 <= i < |out| :: items[i].JObject? && IsRequestedRow(I, meta, items[i].fields, user, next + i, out[i])
    case _ => false
  }

  /**
   * Executing the INSERT adds the rows that the body asks for, with in every column of the table the value
   * the object asks for: the default if its key is absent, NULL for null, the cast text otherwise, and
   * the caller's id in a managed `user_id`. Nothing else changes.
   */
  lemma InsertMeansBody<V>(I: Interp<V>, p: Policy, setting: Setting, meta: TableMeta, body: Json,
                           user: Option<CurrentUser>,
                           rows: Rows<V>, next: nat, e: Effect<V>)
    requires InsertRequest(meta, body, user).Ok?
    requires Effects(I, p, setting, InsertRequest(meta, body, user).value, rows, next, e)
    ensures var n := |e.returned|;
      && e.dels == {} && e.returned == seq(n, i => next + i)
      && (forall id :: id in e.puts <==> next <= id < next + n)
      && RowsAsked(I, meta, body, user, next, RowsFrom(e.puts, next, n))
  {
    var objects := RowsOf(body).value;
    RequestShape(meta, body, user);
    ObjectsInserted(I, p, setting, meta, body, user, rows, next, e);
    hide InsertRequest, UnionColumns, Effects, IsRequestedRow, CheckColumns, AllKeys, IsGrid;
    ObjectsAsked(I, meta, body, user, next, RowsFrom(e.puts, next, |e.returned|));
  }

  lemma ObjectsAsked<V>(I: Interp<V>, meta: TableMeta, body: Json, user: Option<CurrentUser>, next: nat,
                        out: seq<Row<V>>)
    requires RowsOf(body).Ok? && RowsOf(body).value != []
    requires var objects := RowsOf(body).value;
      && |out| == (if UnionColumns(meta, objects, user) == [] then 1 else |objects|)
      && forall i | 0 <= i < |out| :: IsRequestedRow(I, meta, objects[i], user, next + i, out[i])
    ensures RowsAsked(I, meta, body, user, next, out)
  {
    BodyRows(body);
    UnionEmpty(meta, RowsOf(body).value, user);
    hide RowsOf, UnionColumns, IsRequestedRow, IsDefaultRow, Managed;
    assert out != [] ==> next + 0 == next;
    if body.JArray? && NoColumns(meta, body.items, user) {
      EmptyRequested(I, meta, user, next, out[0]);
    }
  }

  lemma EmptyRequested<V>(I: Interp<V>, meta: TableMeta, user: Option<CurrentUser>, id: nat, row: Row<V>)
    requires !Managed(meta, user) && IsRequestedRow(I, meta, [], user, id, row)
    ensures IsDefaultRow(I, id, row)
  {
    hide Managed, HasColumn;
  }

  /** The union is empty exactly if no object has a key and the owner is not managed. */
  lemma UnionEmpty(meta: TableMeta, rows: seq<Fields>, user: Option<CurrentUser>)
    ensures UnionColumns(meta, rows, user) == [] <==> !Managed(meta, user) && forall i | 0 <= i < |rows| :: rows[i] == []
  {
    OwnedManaged(meta, user);
    NoKeys(rows);
    hide Owned, Managed, AllKeys, Ascending;
    var cols := UnionColumns(meta, rows, user);
    if AllKeys(rows) != [] {
      assert AllKeys(rows)[0] in cols;
    }
    if Managed(meta, user) {
      assert "user_id" in cols;
    }
    if cols != [] {
      assert cols[0] in cols;
    }
  }

  lemma {:induction false} NoKeys(rows: seq<Fields>)
    ensures AllKeys(rows) == [] <==> forall i | 0 <= i < |rows| :: rows[i] == []
  {
    if rows != [] {
      var k := |rows| - 1;
      NoKeys(rows[..k]);
      assert |Keys(rows[k])| == |rows[k]|;
      assert AllKeys(rows) == [] <==> AllKeys(rows[..k]) == [] && rows[k] == [];
      hide AllKeys, Keys;
      assert forall i | 0 <= i < k :: rows[..k][i] == rows[i];
    }
  }

  lemma ObjectsInserted<V>(I: Interp<V>, p: Policy, setting: Setting, meta: TableMeta, body: Json,
                           user: Option<CurrentUser>,
                           rows: Rows<V>, next: nat, e: Effect<V>)
    requires InsertRequest(meta, body, user).Ok?
    requires Effects(I, p, setting, InsertRequest(meta, body, user).value, rows, next, e)
    ensures var objects := RowsOf(body).value;
      var n := if UnionColumns(meta, objects, user) == [] then 1 else |objects|;
      && n <= |objects|
      && e.dels == {} && e.returned == seq(n, i => next + i)
      && (forall id :: id in e.puts <==> next <= id < next + n)
      && (forall i | 0 <= i < n :: IsRequestedRow(I, meta, objects[i], user, next + i, e.puts[next + i]))
  {
    RequestShape(meta, body, user);
    hide InsertRequest, RowsOf, UnionColumns, Effects, IsRequestedRow, ColumnTypes;
    var s := InsertRequest(meta, body, user).value;
    var objects := RowsOf(body).value;
    if s.InsertDefault? {
      DefaultRequested(I, p, setting, meta, objects, user, rows, next, e);
    } else {
      GridRequested(I, p, setting, meta, objects, s, user, rows, next, e);
    }
  }

  lemma RequestShape(meta: TableMeta, body: Json, user: Option<CurrentUser>)
    requires InsertRequest(meta, body, user).Ok?
    ensures var s, objects := InsertRequest(meta, body, user).value, RowsOf(body).value;
      && RowsOf(body).Ok? && objects != []
      && CheckColumns(meta, AllKeys(objects)).Ok?
      && (if UnionColumns(meta, objects, user) == [] then s == InsertDefault(meta.schema, meta.name)
          else IsGrid(meta, objects, s, user))
  {
  }

  ghost predicate IsGrid(meta: TableMeta, objects: seq<Fields>, s: Statement, user: Option<CurrentUser>) {
    && s.Insert?
    && s.columns == UnionColumns(meta, objects, user)
    && GridOf(ColumnTypes(meta.columns), objects, s.columns, OwnerOf(meta, user)) == Ok(s.rows)
  }

  lemma GridRequested<V>(I: Interp<V>, p: Policy, setting: Setting, meta: TableMeta, objects: seq<Fields>, s: Statement,
                         user: Option<CurrentUser>, rows: Rows<V>, next: nat, e: Effect<V>)
    requires CheckColumns(meta, AllKeys(objects)).Ok? && IsGrid(meta, objects, s, user)
    requires Effects(I, p, setting, s, rows, next, e)
    ensures e.dels == {} && e.returned == seq(|objects|, i => next + i)
    ensures forall id :: id in e.puts <==> next <= id < next + |objects|
    ensures forall i | 0 <= i < |objects| :: IsRequestedRow(I, meta, objects[i], user, next + i, e.puts[next + i])
  {
    InsertedRows(I, p, setting, s, rows, next, e);
    GridSize(meta, objects, s, user);
    hide IsGrid, CheckColumns, AllKeys, NewRow, IsRequestedRow, Effects, CellCasts;
    forall i | 0 <= i < |objects| ensures IsRequestedRow(I, meta, objects[i], user, next + i, e.puts[next + i]) {
      GridRow(I, meta, objects, s, user, i, next + i);
    }
  }

  lemma GridSize(meta: TableMeta, objects: seq<Fields>, s: Statement, user: Option<CurrentUser>)
    requires IsGrid(meta, objects, s, user)
    ensures s.Insert? && |s.rows| == |objects|
  {
  }

  lemma GridRow<V>(I: Interp<V>, meta: TableMeta, objects: seq<Fields>, s: Statement, user: Option<CurrentUser>,
                   i: nat, id: nat)
    requires CheckColumns(meta, AllKeys(objects)).Ok? && IsGrid(meta, objects, s, user) && i < |objects| == |s.rows|
    requires forall j | 0 <= j < |s.rows[i]| :: CellCasts(I, s.rows[i][j])
    ensures |s.rows[i]| == |s.columns|
    ensures IsRequestedRow(I, meta, objects[i], user, id, NewRow(I, s.columns, s.rows[i], id))
  {
    GridTuples(ColumnTypes(meta.columns), objects, s.columns, OwnerOf(meta, user));
    hide TupleOf, GridOf, ColumnTypes, UnionColumns, AllKeys, CheckColumns, NewRow, IsRequestedRow, OwnerOf, CellCasts;
    RowRequested(I, meta, objects, i, s.columns, s.rows[i], user, id);
  }

  lemma DefaultRequested<V>(I: Interp<V>, p: Policy, setting: Setting, meta: TableMeta, objects: seq<Fields>,
                            user: Option<CurrentUser>, rows: Rows<V>, next: nat, e: Effect<V>)
    requires objects != [] && UnionColumns(meta, objects, user) == []
    requires Effects(I, p, setting, InsertDefault(meta.schema, meta.name), rows, next, e)
    ensures e.dels == {} && e.returned == seq(1, i => next + i)
    ensures forall id :: id in e.puts <==> id == next
    ensures IsRequestedRow(I, meta, objects[0], user, next, e.puts[next])
  {
    hide UnionColumns, IsRequested;
    forall c | c in I.columns ensures IsRequested(I, meta, objects[0], c, user, next, NewRow(I, [], [], next)[c]) {
      AbsentDefault(I, meta, objects, 0, c, user, next);
    }
  }

  lemma InsertedRows<V>(I: Interp<V>, p: Policy, setting: Setting, s: Statement, rows: Rows<V>, next: nat, e: Effect<V>)
    requires s.Insert? && Effects(I, p, setting, s, rows, next, e)
    ensures e.dels == {} && e.returned == seq(|s.rows|, i => next + i)
    ensures forall id :: id in e.puts <==> next <= id < next + |s.rows|
    ensures forall i | 0 <= i < |s.rows| :: |s.rows[i]| == |s.columns| && e.puts[next + i] == NewRow(I, s.columns, s.rows[i], next + i)
    ensures forall i, j | 0 <= i < |s.rows| && 0 <= j < |s.rows[i]| :: CellCasts(I, s.rows[i][j])
  {
  }
}
