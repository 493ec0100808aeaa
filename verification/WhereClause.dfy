/** `build_where_sql` of `virtual_crud/query.rs`, and what the WHERE text means. */
module WhereClause {
  import opened Wrappers
  import opened Text
  import opened Catalog
  import opened SqlTokens
  import opened SqlStatements
  import opened SqlFrames
  import opened SqlReader
  import opened SqlMeaning

  /** The shared `Vec<String>` of bound values. */
  class BindVec {
    var items: seq<string>

    constructor ()
      ensures items == []
    {
      items := [];
    }

    method Push(v: string)
      modifies this
      ensures items == old(items) + [v]
    {
      items := items + [v];
    }
  }

  // ---------------------------------------------------------------- the condition of one filter

  function ComparisonOf(op: FilterOp): CompareOp
    requires op != FilterOp.Is
  {
    match op
    case Eq => Equal
    case Neq => NotEqual
    case Gt => Greater
    case Gte => GreaterEqual
    case Lt => Less
    case Lte => LessEqual
    case Like => LikeOp
    case ILike => ILikeOp
  }

  function OrEmpty(v: Option<string>): string {
    if v.Some? then v.value else ""
  }

  function NotTexty(f: Filter, dt: string): ApiError {
    BadRequest((if f.op.Like? then "LIKE" else "ILIKE") + " not supported on non-text column '" + f.column
               + "' (type: " + dt + ")")
  }

  function CondOf(meta: TableMeta, f: Filter): Result<Cond> {
    var _ :- ValidateIdent(f.column);
    if !HasColumn(meta, f.column) then Err(BadRequest("unknown column '" + f.column + "'"))
    else
      var dt := ColumnTypes(meta.columns)[f.column];
      match f.op
      case Is =>
        if f.value == Some("null") then Ok(IsNull(f.column))
        else if f.value == Some("not.null") then Ok(IsNotNull(f.column))
        else Err(BadRequest("is." + (if f.value.Some? then f.value.value else "?")
                            + " not supported (use 'is.null' or 'is.not.null')"))
      case Like =>
        if !IsTexty(dt) then Err(NotTexty(f, dt)) else Ok(Compare(f.column, LikeOp, OrEmpty(f.value), "text"))
      case ILike =>
        if !IsTexty(dt) then Err(NotTexty(f, dt)) else Ok(Compare(f.column, ILikeOp, OrEmpty(f.value), "text"))
      case _ =>
        if f.value.None? then Err(BadRequest("missing value for filter on '" + f.column + "'"))
        else Ok(Compare(f.column, ComparisonOf(f.op), f.value.value, PgCastOf(dt)))
  }

  /** The conditions of a filter list, in order, or the first error. */
  function CondsOf(meta: TableMeta, filters: seq<Filter>): (r: Result<seq<Cond>>)
    ensures r.Ok? ==> |r.value| == |filters|
  {
    if filters == [] then Ok([])
    else
      var cs :- CondsOf(meta, filters[..|filters| - 1]);
      var c :- CondOf(meta, filters[|filters| - 1]);
      Ok(cs + [c])
  }

  // ---------------------------------------------------------------- the builder

  lemma {:induction false} BindsSnoc(cs: seq<Cond>, c: Cond)
    ensures CondsBinds(cs + [c]) == CondsBinds(cs) + CondBinds(c)
  {
    hide CondBinds;
    if cs == [] {
      assert [c][1..] == [];
    } else {
      BindsSnoc(cs[1..], c);
      assert (cs + [c])[1..] == cs[1..] + [c];
    }
  }

  lemma {:induction false} TextsSnoc(cs: seq<Cond>, c: Cond, n: nat)
    ensures CondTexts(cs + [c], n) == CondTexts(cs, n) + [CondText(c, n + |CondsBinds(cs)|)]
  {
    hide CondText, CondBinds;
    if cs == [] {
      assert [c][1..] == [];
    } else {
      TextsSnoc(cs[1..], c, n + |CondBinds(cs[0])|);
      assert (cs + [c])[1..] == cs[1..] + [c];
    }
  }

  /** The closure that checks a value, binds it and names its placeholder. */
  method NextPlaceholder(column: string, cast: string, val: Option<string>, binds: BindVec) returns (r: Result<string>)
    modifies binds
    ensures val.None? ==> r == Err(BadRequest("missing value for filter on '" + column + "'")) && binds.items == old(binds.items)
    ensures val.Some? ==> r == Ok(BoundText(cast, |old(binds.items)|)) && binds.items == old(binds.items) + [val.value]
  {
    if val.None? {
      return Err(BadRequest("missing value for filter on '" + column + "'"));
    }
    binds.Push(val.value);
    r := Ok("$" + Dec(|binds.items|) + "::" + cast);
  }

  lemma OperatorTexts()
    ensures TokenText(OpToken(Equal)) == "=" && TokenText(OpToken(NotEqual)) == "<>"
    ensures TokenText(OpToken(Greater)) == ">" && TokenText(OpToken(GreaterEqual)) == ">="
    ensures TokenText(OpToken(Less)) == "<" && TokenText(OpToken(LessEqual)) == "<="
    ensures TokenText(OpToken(LikeOp)) == "LIKE" && TokenText(OpToken(ILikeOp)) == "ILIKE"
  {
  }

  /** The SQL operator of a comparison filter. */
  function OperatorText(op: FilterOp): (s: string)
    requires op != FilterOp.Is
    ensures s == TokenText(OpToken(ComparisonOf(op)))
  {
    OperatorTexts();
    match op
    case Eq => "="
    case Neq => "<>"
    case Gt => ">"
    case Gte => ">="
    case Lt => "<"
    case Lte => "<="
    case Like => "LIKE"
    case ILike => "ILIKE"
  }

  lemma TextCast(d: string)
    ensures "$" + d + "::text" == "$" + d + "::" + "text"
  {
  }

  /** `LIKE` and `ILIKE`: only on text columns, with the raw value or an empty one. */
  method PatternPiece(f: Filter, dt: string, binds: BindVec) returns (r: Result<string>)
    requires f.op.Like? || f.op.ILike?
    modifies binds
    ensures !IsTexty(dt) ==> r == Err(NotTexty(f, dt)) && binds.items == old(binds.items)
    ensures IsTexty(dt) ==>
      && r == Ok(CondText(Compare(f.column, ComparisonOf(f.op), OrEmpty(f.value), "text"), |old(binds.items)|))
      && binds.items == old(binds.items) + [OrEmpty(f.value)]
  {
    if !IsTexty(dt) {
      return Err(NotTexty(f, dt));
    }
    binds.Push(OrEmpty(f.value));
    var ph := "$" + Dec(|binds.items|) + "::text";
    TextCast(Dec(|binds.items|));
    r := Ok("\"" + f.column + "\"" + " " + OperatorText(f.op) + " " + ph);
  }

  /** The piece of one filter: the body of the builder's loop. */
  method BuildPiece(meta: TableMeta, coltypes: map<string, string>, f: Filter,
                    binds: BindVec) returns (r: Result<string>)
    requires coltypes == ColumnTypes(meta.columns)
    modifies binds
    ensures match CondOf(meta, f)
      case Ok(c) => r == Ok(CondText(c, |old(binds.items)|)) && binds.items == old(binds.items) + CondBinds(c)
      case Err(e) => r == Err(e) && binds.items == old(binds.items)
  {
    hide PgCastOf, IsTexty, ColumnTypes, NotTexty, Dec, BoundText;
    var _ :- ValidateIdent(f.column);
    if f.column !in coltypes {
      return Err(BadRequest("unknown column '" + f.column + "'"));
    }
    var dt := coltypes[f.column];
    if f.op.Is? {
      if f.value == Some("null") {
        return Ok("\"" + f.column + "\"" + " IS NULL");
      } else if f.value == Some("not.null") {
        return Ok("\"" + f.column + "\"" + " IS NOT NULL");
      } else {
        return Err(BadRequest("is." + (if f.value.Some? then f.value.value else "?")
                              + " not supported (use 'is.null' or 'is.not.null')"));
      }
    } else if f.op.Like? || f.op.ILike? {
      r := PatternPiece(f, dt, binds);
    } else {
      var ph :- NextPlaceholder(f.column, PgCastOf(dt), f.value, binds);
      r := Ok("\"" + f.column + "\"" + " " + OperatorText(f.op) + " " + ph);
    }
  }

  /**
   * The WHERE fragment. Values are appended to `binds`, which may already hold some; placeholders
   * count on from there.
   */
  method BuildWhereSql(meta: TableMeta, opts: QueryOptions, binds: BindVec) returns (r: Result<string>)
    modifies binds
    ensures match CondsOf(meta, opts.filters)
      case Ok(cs) =>
        r == Ok(WhereText(cs, |old(binds.items)|)) && binds.items == old(binds.items) + CondsBinds(cs)
      case Err(e) => r == Err(e)
  {
    var coltypes := IndexColumns(meta.columns);
    var fs := opts.filters;
    ghost var before := binds.items;
    NoTexts(meta, |before|);
    if fs == [] {
      return Ok("");
    }
    assert before + [] == before;
    hide CondOf, CondsOf, CondText, CondTexts, CondBinds, CondsBinds, ColumnTypes, Join, WhereText, Progress;
    var parts: seq<string> := [];
    ghost var cs: seq<Cond> := [];
    NoProgress(meta, fs, |before|);
    for i := 0 to |fs|
      invariant Progress(meta, fs, i, cs, parts, |before|)
      invariant binds.items == before + CondsBinds(cs)
    {
      var piece := BuildPiece(meta, coltypes, fs[i], binds);
      if piece.Err? {
        NoMoreProgress(meta, fs, i, cs, parts, |before|);
        return Err(piece.error);
      }
      PieceStep(meta, fs, i, cs, parts, before, binds.items, piece.value);
      parts := parts + [piece.value];
      cs := cs + [CondOf(meta, fs[i]).value];
    }
    EndOfProgress(meta, fs, cs, parts, |before|);
    r := Ok(" WHERE " + Join(parts, " AND "));
  }

  /** The step of the loop, once its piece is built. */
  lemma PieceStep(meta: TableMeta, fs: seq<Filter>, i: nat, cs: seq<Cond>, parts: seq<string>,
                  before: seq<string>, binds: seq<string>, piece: string)
    requires i < |fs| && Progress(meta, fs, i, cs, parts, |before|) && CondOf(meta, fs[i]).Ok?
    requires var c := CondOf(meta, fs[i]).value;
      piece == CondText(c, |before + CondsBinds(cs)|) && binds == before + CondsBinds(cs) + CondBinds(c)
    ensures var c := CondOf(meta, fs[i]).value;
      && Progress(meta, fs, i + 1, cs + [c], parts + [piece], |before|)
      && binds == before + CondsBinds(cs + [c])
  {
    hide CondOf, CondText, CondsBinds, CondBinds, Progress;
    var c := CondOf(meta, fs[i]).value;
    MoreProgress(meta, fs, i, cs, c, parts, |before|);
    Associative(before, CondsBinds(cs), CondBinds(c));
  }

  /** The loop has compiled the first `i` filters. */
  ghost predicate Progress(meta: TableMeta, fs: seq<Filter>, i: nat, cs: seq<Cond>, parts: seq<string>, n: nat) {
    i <= |fs| && CondsOf(meta, fs[..i]) == Ok(cs) && parts == CondTexts(cs, n)
  }

  lemma NoProgress(meta: TableMeta, fs: seq<Filter>, n: nat)
    ensures Progress(meta, fs, 0, [], [], n)
  {
    assert fs[..0] == [];
  }

  lemma MoreProgress(meta: TableMeta, fs: seq<Filter>, i: nat, cs: seq<Cond>, c: Cond, parts: seq<string>, n: nat)
    requires i < |fs| && Progress(meta, fs, i, cs, parts, n) && CondOf(meta, fs[i]) == Ok(c)
    ensures Progress(meta, fs, i + 1, cs + [c], parts + [CondText(c, n + |CondsBinds(cs)|)], n)
    ensures CondsBinds(cs + [c]) == CondsBinds(cs) + CondBinds(c)
  {
    assert fs[..i + 1][..i] == fs[..i];
    BindsSnoc(cs, c);
    TextsSnoc(cs, c, n);
  }

  lemma NoMoreProgress(meta: TableMeta, fs: seq<Filter>, i: nat, cs: seq<Cond>, parts: seq<string>, n: nat)
    requires i < |fs| && Progress(meta, fs, i, cs, parts, n) && CondOf(meta, fs[i]).Err?
    ensures CondsOf(meta, fs) == Err(CondOf(meta, fs[i]).error)
  {
    CondsOfError(meta, fs, i);
  }

  lemma EndOfProgress(meta: TableMeta, fs: seq<Filter>, cs: seq<Cond>, parts: seq<string>, n: nat)
    requires fs != [] && Progress(meta, fs, |fs|, cs, parts, n)
    ensures CondsOf(meta, fs) == Ok(cs)
    ensures WhereText(cs, n) == " WHERE " + Join(parts, " AND ")
  {
    assert fs[..|fs|] == fs;
  }

  lemma NoTexts(meta: TableMeta, n: nat)
    ensures CondsOf(meta, []) == Ok([])
    ensures CondTexts([], n) == [] && CondsBinds([]) == [] && WhereText([], n) == ""
  {
  }

  /** The first filter that fails decides the error. */
  lemma {:induction false} CondsOfError(meta: TableMeta, fs: seq<Filter>, i: nat)
    requires i < |fs| && CondsOf(meta, fs[..i]).Ok? && CondOf(meta, fs[i]).Err?
    ensures CondsOf(meta, fs) == Err(CondOf(meta, fs[i]).error)
    decreases |fs|
  {
    var init := fs[..|fs| - 1];
    if i == |fs| - 1 {
      assert fs[..i] == init;
    } else {
      assert init[..i] == fs[..i];
      CondsOfError(meta, init, i);
    }
  }

  // ---------------------------------------------------------------- which filters are accepted

  const LIKE_TYPES: set<string> := {"character varying", "character", "text", "citext"}

  /** The filter names a column of the table, and its operator fits the column's type and its value. */
  predicate Accepted(meta: TableMeta, f: Filter) {
    && KnownColumn(meta, f.column)
    && (f.op.Is? ==> f.value == Some("null") || f.value == Some("not.null"))
    && (f.op.Like? || f.op.ILike? ==> ToLower(ColumnTypes(meta.columns)[f.column]) in LIKE_TYPES)
    && (!f.op.Is? && !f.op.Like? && !f.op.ILike? ==> f.value.Some?)
  }

  predicate AllAccepted(meta: TableMeta, filters: seq<Filter>) {
    forall i | 0 <= i < |filters| :: Accepted(meta, filters[i])
  }

  lemma CondOfAccepted(meta: TableMeta, f: Filter)
    ensures CondOf(meta, f).Ok? <==> Accepted(meta, f)
  {
  }

  /** Building succeeds exactly when every filter is accepted, and gives one condition per filter. */
  lemma {:induction false} CondsOfAccepted(meta: TableMeta, filters: seq<Filter>)
    ensures CondsOf(meta, filters).Ok? <==> AllAccepted(meta, filters)
    ensures CondsOf(meta, filters).Ok? ==>
      forall i | 0 <= i < |filters| :: CondOf(meta, filters[i]) == Ok(CondsOf(meta, filters).value[i])
  {
    hide CondOf, Accepted;
    if filters != [] {
      var k := |filters| - 1;
      CondsOfAccepted(meta, filters[..k]);
      CondOfAccepted(meta, filters[k]);
      assert AllAccepted(meta, filters) <==> AllAccepted(meta, filters[..k]) && Accepted(meta, filters[k]);
    }
  }

  lemma CondOfValid(meta: TableMeta, f: Filter)
    requires CondOf(meta, f).Ok?
    ensures ValidCond(CondOf(meta, f).value)
  {
    CastsAreIdents();
    assert "text" in CASTS;
  }

  lemma CondsOfValid(meta: TableMeta, filters: seq<Filter>)
    requires CondsOf(meta, filters).Ok?
    ensures ValidConds(CondsOf(meta, filters).value)
  {
    CondsOfAccepted(meta, filters);
    forall i | 0 <= i < |filters| ensures ValidCond(CondsOf(meta, filters).value[i]) {
      CondOfValid(meta, filters[i]);
    }
  }

  // ---------------------------------------------------------------- what the filters mean

  /** The truth of one filter on one row, straight from the request and the column's type. */
  function FilterTruth<V>(I: Interp<V>, meta: TableMeta, f: Filter, row: Row<V>): Truth
    requires Accepted(meta, f)
  {
    var v := Column(row, f.column);
    match f.op
    case Is => if (f.value == Some("null")) == v.Null? then True else False
    case Like => CompareTruth(I, v, LikeOp, if f.value.Some? then f.value.value else "", "text")
    case ILike => CompareTruth(I, v, ILikeOp, if f.value.Some? then f.value.value else "", "text")
    case Eq => CompareTruth(I, v, Equal, f.value.value, CastOf(meta, f.column))
    case Neq => CompareTruth(I, v, NotEqual, f.value.value, CastOf(meta, f.column))
    case Gt => CompareTruth(I, v, Greater, f.value.value, CastOf(meta, f.column))
    case Gte => CompareTruth(I, v, GreaterEqual, f.value.value, CastOf(meta, f.column))
    case Lt => CompareTruth(I, v, Less, f.value.value, CastOf(meta, f.column))
    case Lte => CompareTruth(I, v, LessEqual, f.value.value, CastOf(meta, f.column))
  }

  function FilterTruths<V>(I: Interp<V>, meta: TableMeta, filters: seq<Filter>, row: Row<V>): seq<Truth>
    requires AllAccepted(meta, filters)
  {
    seq(|filters|, i requires 0 <= i < |filters| => FilterTruth(I, meta, filters[i], row))
  }

  lemma CondMeansFilter<V>(I: Interp<V>, meta: TableMeta, f: Filter, row: Row<V>)
    requires Accepted(meta, f) && CondOf(meta, f).Ok?
    ensures CondTruth(I, CondOf(meta, f).value, row) == FilterTruth(I, meta, f, row)
  {
  }

  /** The compiled conditions are the three-valued conjunction of the filters. */
  lemma CondsMeanFilters<V>(I: Interp<V>, meta: TableMeta, filters: seq<Filter>, row: Row<V>)
    requires CondsOf(meta, filters).Ok?
    ensures AllAccepted(meta, filters)
    ensures CondsTruth(I, CondsOf(meta, filters).value, row) == Conjunction(FilterTruths(I, meta, filters, row))
  {
    CondsOfAccepted(meta, filters);
    var cs := CondsOf(meta, filters).value;
    forall i | 0 <= i < |filters| ensures CondTruth(I, cs[i], row) == FilterTruth(I, meta, filters[i], row) {
      CondMeansFilter(I, meta, filters[i], row);
    }
    CondsTruthIsConjunction(I, cs, row);
    assert Truths(I, cs, row) == FilterTruths(I, meta, filters, row);
  }

  /** When a filter is true: a NULL column passes `is.null` alone, any other must compare with the cast value. */
  lemma FilterHolds<V>(I: Interp<V>, meta: TableMeta, f: Filter, row: Row<V>)
    requires Accepted(meta, f)
    ensures FilterTruth(I, meta, f, row).True? <==>
      var empty := f.column !in row || row[f.column].Null?;
      if f.op.Is? then empty <==> f.value == Some("null")
      else
        && !empty
        && var text := if f.value.Some? then f.value.value else "";
        && var cast := if f.op.Like? || f.op.ILike? then "text" else CastOf(meta, f.column);
        && I.cast(text, cast).Some?
        && I.holds(ComparisonOf(f.op), row[f.column].v, I.cast(text, cast).value)
  {
    hide CastOf;
  }

  /** The row is there for the caller: always without policies, with them if its `user_id` is the caller's. */
  predicate Visible<V>(I: Interp<V>, p: Policy, setting: Setting, row: Row<V>) {
    match p
    case Open => true
    case OwnerOnly => setting.User? && "user_id" in row && row["user_id"].Val? && I.bigint(row["user_id"].v) == setting.id
  }

  /** The rows that the policy shows and on which the conjunction of the filters is true. */
  function Matching<V>(I: Interp<V>, p: Policy, setting: Setting, meta: TableMeta, filters: seq<Filter>,
                       rows: Rows<V>): set<nat>
    requires AllAccepted(meta, filters)
  {
    set id | id in rows && Visible(I, p, setting,
      rows[id]) && Conjunction(FilterTruths(I, meta, filters, rows[id])).True?
  }

  lemma AllowsVisible<V>(I: Interp<V>, p: Policy, setting: Setting, row: Row<V>)
    ensures Allows(I, p, setting, row) <==> Visible(I, p, setting, row)
  {
  }

  lemma SelectedMatches<V>(I: Interp<V>, p: Policy, setting: Setting, meta: TableMeta, filters: seq<Filter>,
                           rows: Rows<V>)
    requires CondsOf(meta, filters).Ok?
    ensures AllAccepted(meta, filters)
    ensures Selected(I, p, setting, CondsOf(meta, filters).value, rows) == Matching(I, p, setting, meta, filters, rows)
  {
    CondsOfAccepted(meta, filters);
    hide CondsOf, CondsTruth, FilterTruths, Conjunction, AllAccepted, Allows, Visible;
    forall id | id in rows
      ensures CondsTruth(I, CondsOf(meta, filters).value, rows[id]) == Conjunction(FilterTruths(I, meta, filters, rows[id]))
      ensures Allows(I, p, setting, rows[id]) <==> Visible(I, p, setting, rows[id]) {
      CondsMeanFilters(I, meta, filters, rows[id]);
      AllowsVisible(I, p, setting, rows[id]);
    }
  }

  /**
   * The text of the WHERE clause, for values appended to any bind list `before`: it lexes, its
   * placeholders are the numbers after `before`, it reads as a WHERE clause, and on every row it is
   * the conjunction of the filters.
   */
  lemma WhereTextMeans<V>(I: Interp<V>, meta: TableMeta, filters: seq<Filter>, before: seq<string>, row: Row<V>)
    requires filters != [] && CondsOf(meta, filters).Ok?
    ensures AllAccepted(meta, filters)
    ensures var cs := CondsOf(meta, filters).value;
      && var ts := Lex(WhereText(cs, |before|));
      && ts.Some?
      && Placeholders(ts.value) == seq(|CondsBinds(cs)|, i => |before| + 1 + i)
      && var where := ReadWhere(ts.value, before + CondsBinds(cs));
      && where.Some? && where.value.1 == Nil
      && |where.value.0| == |filters|
      && CondsTruth(I, where.value.0, row) == Conjunction(FilterTruths(I, meta, filters, row))
  {
    var cs := CondsOf(meta, filters).value;
    CondsMeanFilters(I, meta, filters, row);
    CondsOfValid(meta, filters);
    WhereTextReads(cs, before);
  }

  lemma WhereTextReads(cs: seq<Cond>, before: seq<string>)
    requires ValidConds(cs)
    ensures var ts := Lex(WhereText(cs, |before|));
      && ts.Some?
      && Placeholders(ts.value) == seq(|CondsBinds(cs)|, i => |before| + 1 + i)
      && ReadWhere(ts.value, before + CondsBinds(cs)) == Some((cs, Nil))
  {
    var n := |before|;
    assert Tokens(End("")) == Nil;
    hide WhereText, WhereLayout, CondsBinds, ReadWhere, Lex, Placeholders, Tokens, ValidConds, Holds;
    WhereTextLexes(cs, n);
    HoldsAppended(before, CondsBinds(cs));
    WhereReads(cs, n, End(""), before + CondsBinds(cs));
  }

  lemma HoldsAppended(before: seq<string>, part: seq<string>)
    ensures Holds(before + part, |before|, part)
  {
  }

  lemma WhereTextLexes(cs: seq<Cond>, n: nat)
    requires ValidConds(cs)
    ensures var ts := Lex(WhereText(cs, n));
      && ts == Some(Tokens(WhereLayout(cs, n, End(""))))
      && Placeholders(ts.value) == seq(|CondsBinds(cs)|, i => n + 1 + i)
  {
    var m := n + |CondsBinds(cs)|;
    assert Ready(End(""), m, m) && Spell(End("")) == "";
    assert WhereText(cs, n) + "" == WhereText(cs, n);
    hide WhereText, WhereLayout, CondsBinds, Lex, Placeholders, Spell, Tokens, ValidConds;
    WhereLaid(cs, n, End(""), m);
    WhereSpelled(cs, n, End(""));
    LexSpell(WhereLayout(cs, n, End("")));
    CountsPlaceholders(WhereLayout(cs, n, End("")), n, m);
    assert m - n == |CondsBinds(cs)|;
  }
}
