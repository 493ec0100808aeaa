/** The entities of `virtual_crud/types.rs`, JSON bodies, and the pure helpers of `query.rs`. */
module Catalog {
  import opened Wrappers
  import opened Text

  datatype ColumnMeta = ColumnMeta(name: string, dataType: string, isNullable: bool, hasDefault: bool)

  datatype TableMeta = TableMeta(schema: string, name: string, primaryKey: seq<string>, columns: seq<ColumnMeta>)

  datatype FilterOp = Eq | Neq | Gt | Gte | Lt | Lte | Like | ILike | Is

  datatype Filter = Filter(column: string, op: FilterOp, value: Option<string>)

  datatype QueryOptions = QueryOptions(
    select: Option<seq<string>>,
    filters: seq<Filter>,
    orderBy: Option<(string, bool)>,
    limit: Option<int>,
    offset: Option<int>)

  /** The caller established by the `OptionalUser` extractor; only the id is used. */
  datatype CurrentUser = CurrentUser(id: int)

  /**
   * A JSON value. `text` is its compact serialisation (`v.to_string()`), which is not modelled.
   * `fields` lists an object's members in the map's iteration order.
   */
  datatype Json =
    | JNull
    | JString(value: string)
    | JScalar(text: string)
    | JArray(items: seq<Json>, text: string)
    | JObject(fields: seq<(string, Json)>, text: string)

  /** An object's members; a JSON object has each key once. */
  type Fields = seq<(string, Json)>

  /** The text bound for a non-null value: a string as it is, anything else serialised. */
  function BindText(v: Json): string
    requires !v.JNull?
  {
    if v.JString? then v.value else v.text
  }

  function Keys(fields: Fields): (ks: seq<string>)
    ensures |ks| == |fields|
    ensures forall i | 0 <= i < |ks| :: ks[i] == fields[i].0
  {
    seq(|fields|, i requires 0 <= i < |fields| => fields[i].0)
  }

  predicate Distinct(ks: seq<string>) {
    forall i, j | 0 <= i < j < |ks| :: ks[i] != ks[j]
  }

  /** `m.get(k)`. */
  function Member(fields: Fields, k: string): (v: Option<Json>)
    ensures v.Some? ==> exists i | 0 <= i < |fields| :: fields[i] == (k, v.value)
    ensures v.None? <==> k !in Keys(fields)
  {
    if fields == [] then None
    else if fields[0].0 == k then Some(fields[0].1)
    else
      assert forall i | 0 <= i < |fields[1..]| :: fields[1..][i] == fields[i + 1];
      assert Keys(fields) == [fields[0].0] + Keys(fields[1..]);
      Member(fields[1..], k)
  }

  /** The whitelist `^[A-Za-z_][A-Za-z0-9_]*$`. */
  predicate IsIdent(s: string) {
    && s != ""
    && !IsDigit(s[0])
    && forall i | 0 <= i < |s| :: IsWordChar(s[i])
  }

  predicate IsWordChar(c: char) {
    IsLetter(c) || IsDigit(c) || c == '_'
  }

  function ValidateIdent(ident: string): (r: Result<()>)
    ensures r.Ok? <==> IsIdent(ident)
  {
    if IsIdent(ident) then Ok(()) else Err(BadRequest("invalid identifier '" + ident + "'"))
  }

  /** An identifier is accepted exactly if its ASCII codes are those of letters, `_` and, from the second on, digits. */
  lemma AcceptedIdents(ident: string)
    ensures ValidateIdent(ident).Ok? <==>
      && 0 < |ident| && !(48 <= ident[0] as int <= 57)
      && forall i | 0 <= i < |ident| ::
           var code := ident[i] as int; 65 <= code <= 90 || 97 <= code <= 122 || code == 95 || 48 <= code <= 57
  {
    forall c: char ensures IsWordChar(c) <==>
        65 <= c as int <= 90 || 97 <= c as int <= 122 || c as int == 95 || 48 <= c as int <= 57 {
    }
  }

  const CASTS: set<string> := {
    "int2", "int4", "int8", "float4", "float8", "numeric", "bool", "text", "uuid", "timestamptz", "timestamp",
    "date", "time", "jsonb", "json"}

  lemma CastsAreIdents()
    ensures forall c | c in CASTS :: IsIdent(c)
  {
  }

  /** The cast target of an `information_schema` type; unknown types are treated as text. */
  function PgCastOf(dt: string): (cast: string)
    ensures cast in CASTS
    ensures IsTexty(dt) ==> cast == "text"
  {
    CastOfLower(ToLower(dt))
  }

  function CastOfLower(t: string): string {
    if t == "smallint" then "int2"
    else if t == "integer" then "int4"
    else if t == "bigint" then "int8"
    else if t == "real" then "float4"
    else if t == "double precision" then "float8"
    else if t == "numeric" || t == "decimal" then "numeric"
    else if t == "boolean" then "bool"
    else if t == "character varying" || t == "character" || t == "text" || t == "citext" then "text"
    else if t == "uuid" then "uuid"
    else if t == "timestamp with time zone" then "timestamptz"
    else if t == "timestamp without time zone" then "timestamp"
    else if t == "date" then "date"
    else if t == "time without time zone" then "time"
    else if t == "jsonb" then "jsonb"
    else if t == "json" then "json"
    else "text"
  }

  /** The name that `information_schema.columns` gives a type. */
  function TypeName(cast: string): string {
    if cast == "int2" then "smallint"
    else if cast == "int4" then "integer"
    else if cast == "int8" then "bigint"
    else if cast == "float4" then "real"
    else if cast == "float8" then "double precision"
    else if cast == "bool" then "boolean"
    else if cast == "timestamptz" then "timestamp with time zone"
    else if cast == "timestamp" then "timestamp without time zone"
    else if cast == "time" then "time without time zone"
    else cast
  }

  lemma IntegerFound(t: string, cast: string)
    requires cast == "int2" || cast == "int4" || cast == "int8"
    ensures CastOfLower(t) == cast <==> t == TypeName(cast)
  {
  }

  lemma NumberFound(t: string, cast: string)
    requires cast == "float4" || cast == "float8" || cast == "numeric"
    ensures CastOfLower(t) == cast <==> t == TypeName(cast) || (cast == "numeric" && t == "decimal")
  {
  }

  lemma TimeFound(t: string, cast: string)
    requires cast == "timestamptz" || cast == "timestamp" || cast == "time"
    ensures CastOfLower(t) == cast <==> t == TypeName(cast)
  {
  }

  lemma ScalarFound(t: string, cast: string)
    requires cast == "bool" || cast == "uuid" || cast == "date"
    ensures CastOfLower(t) == cast <==> t == TypeName(cast)
  {
  }

  lemma JsonFound(t: string, cast: string)
    requires cast == "jsonb" || cast == "json"
    ensures CastOfLower(t) == cast <==> t == TypeName(cast)
  {
  }

  /**
   * Each cast type is found again from its `information_schema` name, in whatever case that is written, so
   * no two types are confused. Any other name is an alias of `numeric`, or is treated as text.
   */
  lemma CastOfTypeName(dt: string, cast: string)
    requires cast in CASTS
    ensures ToLower(dt) == TypeName(cast) ==> PgCastOf(dt) == cast
    ensures PgCastOf(dt) == cast && ToLower(dt) != TypeName(cast) ==>
      (ToLower(dt) == "decimal" && cast == "numeric") || cast == "text"
    ensures ToLower(dt) == "decimal" ==> PgCastOf(dt) == "numeric"
  {
    var t := ToLower(dt);
    if cast == "int2" || cast == "int4" || cast == "int8" {
      IntegerFound(t, cast);
    } else if cast == "float4" || cast == "float8" || cast == "numeric" {
      NumberFound(t, cast);
    } else if cast == "timestamptz" || cast == "timestamp" || cast == "time" {
      TimeFound(t, cast);
    } else if cast == "bool" || cast == "uuid" || cast == "date" {
      ScalarFound(t, cast);
    } else if cast == "jsonb" || cast == "json" {
      JsonFound(t, cast);
    }
    hide ToLower;
  }

  predicate IsTexty(dt: string) {
    var t := ToLower(dt);
    t == "character varying" || t == "character" || t == "text" || t == "citext"
  }

  /** The type index "column name -> data type"; a later column of the same name wins. */
  function ColumnTypes(columns: seq<ColumnMeta>): (types: map<string, string>)
    ensures forall k :: k in types <==> exists i | 0 <= i < |columns| :: columns[i].name == k
  {
    if columns == [] then map[]
    else
      var c := columns[|columns| - 1];
      ColumnTypes(columns[..|columns| - 1])[c.name := c.dataType]
  }

  lemma {:induction false} LastColumnWins(columns: seq<ColumnMeta>, i: nat)
    requires i < |columns| && forall j | i < j < |columns| :: columns[j].name != columns[i].name
    ensures ColumnTypes(columns)[columns[i].name] == columns[i].dataType
    decreases |columns|
  {
    if i < |columns| - 1 {
      LastColumnWins(columns[..|columns| - 1], i);
    }
  }

  /** The loop every builder runs over `meta.columns`. */
  method IndexColumns(columns: seq<ColumnMeta>) returns (types: map<string, string>)
    ensures types == ColumnTypes(columns)
    ensures forall i | 0 <= i < |columns| && (forall j | i < j < |columns| :: columns[j].name != columns[i].name) ::
              types[columns[i].name] == columns[i].dataType
  {
    forall i | 0 <= i < |columns| && (forall j | i < j < |columns| :: columns[j].name != columns[i].name)
      ensures ColumnTypes(columns)[columns[i].name] == columns[i].dataType {
      LastColumnWins(columns, i);
    }
    types := map[];
    for i := 0 to |columns|
      invariant types == ColumnTypes(columns[..i])
    {
      types := types[columns[i].name := columns[i].dataType];
      assert columns[..i + 1][..i] == columns[..i];
    }
    assert columns[..|columns|] == columns;
  }

  predicate HasColumn(meta: TableMeta, c: string) {
    c in ColumnTypes(meta.columns)
  }

  function CastOf(meta: TableMeta, c: string): (cast: string)
    requires HasColumn(meta, c)
    ensures IsIdent(cast)
  {
    CastsAreIdents();
    PgCastOf(ColumnTypes(meta.columns)[c])
  }

  // ---------------------------------------------------------------- requested columns

  /** An identifier that names a column of the table. */
  predicate KnownColumn(meta: TableMeta, c: string) {
    IsIdent(c) && exists i | 0 <= i < |meta.columns| :: meta.columns[i].name == c
  }

  function CheckColumn(meta: TableMeta, c: string): (r: Result<()>)
    ensures r.Ok? <==> KnownColumn(meta, c)
  {
    var _ :- ValidateIdent(c);
    if HasColumn(meta, c) then Ok(()) else Err(BadRequest("unknown column '" + c + "'"))
  }

  /** The first unknown column decides the error. */
  function CheckColumns(meta: TableMeta, cs: seq<string>): Result<()> {
    if cs == [] then Ok(())
    else
      var _ :- CheckColumns(meta, cs[..|cs| - 1]);
      CheckColumn(meta, cs[|cs| - 1])
  }

  lemma CheckColumnsSnoc(meta: TableMeta, cs: seq<string>, c: string)
    ensures CheckColumns(meta, cs + [c]) == if CheckColumns(meta, cs).Ok? then CheckColumn(meta, c) else CheckColumns(meta, cs)
  {
    assert (cs + [c])[..|cs|] == cs;
  }

  lemma {:induction false} CheckColumnsKnown(meta: TableMeta, cs: seq<string>)
    ensures CheckColumns(meta, cs).Ok? <==> forall i | 0 <= i < |cs| :: KnownColumn(meta, cs[i])
  {
    hide KnownColumn;
    if cs != [] {
      CheckColumnsKnown(meta, cs[..|cs| - 1]);
    }
  }

  lemma {:induction false} CheckColumnsError(meta: TableMeta, cs: seq<string>, i: nat)
    requires i < |cs| && CheckColumns(meta, cs[..i]).Ok? && CheckColumn(meta, cs[i]).Err?
    ensures CheckColumns(meta, cs) == CheckColumn(meta, cs[i])
    decreases |cs|
  {
    var init := cs[..|cs| - 1];
    if i == |cs| - 1 {
      assert cs[..i] == init;
    } else {
      assert init[..i] == cs[..i];
      CheckColumnsError(meta, init, i);
    }
  }
}
