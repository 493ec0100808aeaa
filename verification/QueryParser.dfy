/** `parse_query_options` of `virtual_crud/query.rs`: a string map becomes query options. */
module QueryParser {
  import opened Wrappers
  import opened Text
  import opened Catalog

  const RESERVED: set<string> := {"select", "order", "limit", "offset"}

  /** `keys` is one of the orders in which the map can be iterated. */
  ghost predicate Enumerates(keys: seq<string>, q: map<string, string>) {
    Distinct(keys) && forall k :: k in keys <==> k in q
  }

  // ---------------------------------------------------------------- the four options

  /** Trimmed fields, the empty ones dropped. */
  function Columns(parts: seq<string>): seq<string> {
    if parts == [] then []
    else (if Trim(parts[0]) == "" then [] else [Trim(parts[0])]) + Columns(parts[1..])
  }

  function SelectList(text: string): Option<seq<string>> {
    var cols := Columns(Split(text, ','));
    if cols == [] then None else Some(cols)
  }

  function ParseSelect(q: map<string, string>): Option<seq<string>> {
    if "select" in q then SelectList(q["select"]) else None
  }

  predicate EqIgnoreCase(a: string, b: string) {
    ToLower(a) == ToLower(b)
  }

  function OrderBy(text: string): Option<(string, bool)> {
    var parts := Split(text, '.');
    var col := Trim(parts[0]);
    var dir := if |parts| > 1 then Trim(parts[1]) else "asc";
    if col == "" then None else Some((col, EqIgnoreCase(dir, "desc")))
  }

  function ParseOrder(q: map<string, string>): Option<(string, bool)> {
    if "order" in q then OrderBy(q["order"]) else None
  }

  function Distance(a: int, b: int): nat {
    if a < b then b - a else a - b
  }

  /** The nearest value in the range. */
  function Clamp(v: int, lo: int, hi: int): (r: int)
    requires lo <= hi
    ensures lo <= r <= hi && forall k | lo <= k <= hi :: Distance(v, r) <= Distance(v, k)
  {
    if v < lo then lo else if v > hi then hi else v
  }

  /** A limit that does not parse is ignored. */
  function ParseLimit(q: map<string, string>): Option<int> {
    if "limit" !in q then None
    else
      var v :- ParseI64(q["limit"]);
      Some(Clamp(v, 1, 1000))
  }

  function ParseOffset(q: map<string, string>): Option<int> {
    if "offset" !in q then None
    else
      var v :- ParseI64(q["offset"]);
      Some(if v < 0 then 0 else v)
  }

  // ---------------------------------------------------------------- filters

  function OperatorOf(s: string): Option<FilterOp> {
    if s == "eq" then Some(Eq)
    else if s == "neq" then Some(Neq)
    else if s == "gt" then Some(Gt)
    else if s == "gte" then Some(Gte)
    else if s == "lt" then Some(Lt)
    else if s == "lte" then Some(Lte)
    else if s == "like" then Some(Like)
    else if s == "ilike" then Some(ILike)
    else if s == "is" then Some(Is)
    else None
  }

  /** `op.value`, split at the first dot; without a dot the operator is `eq`. */
  function FilterOf(k: string, v: string): Result<Filter> {
    var (name, value) := match SplitOnce(v, '.') case Some((op, rest)) => (op, rest) case None => ("eq", v);
    match OperatorOf(name)
    case Some(op) => Ok(Filter(k, op, Some(value)))
    case None => Err(BadRequest("unsupported operator '" + name + "'"))
  }

  /** The filters of the non-reserved keys in iteration order, or the first error. */
  function FiltersOf(q: map<string, string>, keys: seq<string>): Result<seq<Filter>>
    requires forall k | k in keys :: k in q
  {
    if keys == [] then Ok([])
    else
      var last := keys[|keys| - 1];
      var init :- FiltersOf(q, keys[..|keys| - 1]);
      if last in RESERVED then Ok(init)
      else
        var f :- FilterOf(last, q[last]);
        Ok(init + [f])
  }

  function Parse(q: map<string, string>, keys: seq<string>): Result<QueryOptions>
    requires forall k | k in keys :: k in q
  {
    var filters :- FiltersOf(q, keys);
    Ok(QueryOptions(ParseSelect(q), filters, ParseOrder(q), ParseLimit(q), ParseOffset(q)))
  }

  lemma {:induction false} FiltersError(q: map<string, string>, keys: seq<string>, i: nat)
    requires (forall k | k in keys :: k in q) && i < |keys| && keys[i] !in RESERVED
    requires FiltersOf(q, keys[..i]).Ok? && FilterOf(keys[i], q[keys[i]]).Err?
    ensures FiltersOf(q, keys) == Err(FilterOf(keys[i], q[keys[i]]).error)
    decreases |keys|
  {
    hide FilterOf;
    var init := keys[..|keys| - 1];
    if i == |keys| - 1 {
      assert keys[..i] == init;
    } else {
      assert init[..i] == keys[..i];
      FiltersError(q, init, i);
    }
  }

  /** The loop over the map, which skips the reserved keys. */
  method ParseFilters(q: map<string, string>, keys: seq<string>) returns (r: Result<seq<Filter>>)
    requires forall k | k in keys :: k in q
    ensures r == FiltersOf(q, keys)
  {
    var filters: seq<Filter> := [];
    assert keys[..0] == [];
    hide FilterOf;
    for i := 0 to |keys|
      invariant FiltersOf(q, keys[..i]) == Ok(filters)
    {
      var k := keys[i];
      assert keys[..i + 1][..i] == keys[..i];
      if k in RESERVED {
        continue;
      }
      var f := FilterOf(k, q[k]);
      if f.Err? {
        FiltersError(q, keys, i);
        return Err(f.error);
      }
      filters := filters + [f.value];
    }
    assert keys[..|keys|] == keys;
    r := Ok(filters);
  }

  /** The parser, for a map iterated in the order `keys`. */
  method ParseQueryOptions(q: map<string, string>, keys: seq<string>) returns (r: Result<QueryOptions>)
    requires Enumerates(keys, q)
    ensures r == Parse(q, keys)
  {
    hide FiltersOf, ParseI64, Clamp, Split, Trim, Columns, EqIgnoreCase, Distinct;
    var opts := QueryOptions(None, [], None, None, None);
    if "select" in q {
      var cols := Columns(Split(q["select"], ','));
      if cols != [] {
        opts := opts.(select := Some(cols));
      }
    }
    if "order" in q {
      var parts := Split(q["order"], '.');
      var col := Trim(parts[0]);
      var dir := if |parts| > 1 then Trim(parts[1]) else "asc";
      if col != "" {
        opts := opts.(orderBy := Some((col, EqIgnoreCase(dir, "desc"))));
      }
    }
    if "limit" in q {
      var v := ParseI64(q["limit"]);
      if v.Some? {
        opts := opts.(limit := Some(Clamp(v.value, 1, 1000)));
      }
    }
    if "offset" in q {
      var v := ParseI64(q["offset"]);
      if v.Some? {
        opts := opts.(offset := Some(if v.value < 0 then 0 else v.value));
      }
    }
    var filters :- ParseFilters(q, keys);
    r := Ok(opts.(filters := filters));
  }

  // ---------------------------------------------------------------- one filter per non-reserved key

  /** Every key but four is a filter on the column it names. */
  predicate NamesFilter(k: string) {
    k != "select" && k != "order" && k != "limit" && k != "offset"
  }

  lemma OthersFilter(k: string)
    ensures k !in RESERVED <==> NamesFilter(k)
  {
  }

  predicate IsFilterOf(q: map<string, string>, k: string, f: Filter) {
    k in q && NamesFilter(k) && FilterOf(k, q[k]) == Ok(f)
  }

  /** The value of every non-reserved key names an operator the parser knows. */
  predicate Parses(q: map<string, string>) {
    forall k | k in q && NamesFilter(k) :: FilterOf(k, q[k]).Ok?
  }

  function NonReserved(q: map<string, string>): set<string> {
    set k | k in q && NamesFilter(k)
  }

  function FilterColumns(fs: seq<Filter>): (cs: seq<string>)
    ensures |cs| == |fs|
    ensures forall i | 0 <= i < |fs| :: cs[i] == fs[i].column
  {
    seq(|fs|, i requires 0 <= i < |fs| => fs[i].column)
  }

  /** `fs` has exactly one filter for each of the non-reserved keys among `keys`. */
  ghost predicate OnePerKey(q: map<string, string>, keys: seq<string>, fs: seq<Filter>) {
    && (forall i | 0 <= i < |fs| :: fs[i].column in keys && IsFilterOf(q, fs[i].column, fs[i]))
    && (forall k | k in keys && NamesFilter(k) :: k in FilterColumns(fs))
    && Distinct(FilterColumns(fs))
  }

  lemma FilterOfColumn(k: string, v: string)
    ensures FilterOf(k, v).Ok? ==> FilterOf(k, v).value.column == k
  {
  }

  lemma {:induction false} FiltersEach(q: map<string, string>, keys: seq<string>)
    requires Distinct(keys) && forall k | k in keys :: k in q
    ensures var r := FiltersOf(q, keys);
      && (r.Ok? <==> forall k | k in keys && NamesFilter(k) :: FilterOf(k, q[k]).Ok?)
      && (r.Ok? ==> OnePerKey(q, keys, r.value))
    decreases |keys|
  {
    hide FilterOf;
    if keys != [] {
      var init, last := keys[..|keys| - 1], keys[|keys| - 1];
      FiltersEach(q, init);
      FilterOfColumn(last, q[last]);
      assert keys == init + [last];
      assert last !in init;
      OthersFilter(last);
      hide NamesFilter;
      if FiltersOf(q, init).Ok? {
        var fs := FiltersOf(q, init).value;
        if NamesFilter(last) && FilterOf(last, q[last]).Ok? {
          FilterColumnsSnoc(fs, FilterOf(last, q[last]).value);
        }
      }
    }
  }

  lemma FilterColumnsSnoc(fs: seq<Filter>, f: Filter)
    ensures FilterColumns(fs + [f]) == FilterColumns(fs) + [f.column]
  {
  }

  /** The order of iteration does not decide whether the map parses, nor which filters it has. */
  lemma ParseEach(q: map<string, string>, keys: seq<string>)
    requires Enumerates(keys, q)
    ensures Parse(q, keys).Ok? <==> Parses(q)
    ensures Parse(q, keys).Ok? ==>
      var o := Parse(q, keys).value;
      && OnePerKey(q, keys, o.filters)
      && (forall f :: f in o.filters <==> IsFilterOf(q, f.column, f))
      && |o.filters| == |NonReserved(q)|
  {
    FiltersEach(q, keys);
    if Parse(q, keys).Ok? {
      var fs := Parse(q, keys).value.filters;
      hide FilterOf, FiltersOf;
      forall f ensures f in fs <==> IsFilterOf(q, f.column, f) {
        if IsFilterOf(q, f.column, f) {
          var i :| 0 <= i < |fs| && FilterColumns(fs)[i] == f.column;
        }
      }
      forall k ensures k in FilterColumns(fs) <==> k in NonReserved(q) {
        if k in FilterColumns(fs) {
          var i :| 0 <= i < |fs| && FilterColumns(fs)[i] == k;
        }
      }
      DistinctLength(FilterColumns(fs), NonReserved(q));
    }
  }

  lemma {:induction false} DistinctLength(ks: seq<string>, s: set<string>)
    requires Distinct(ks) && forall k :: k in ks <==> k in s
    ensures |ks| == |s|
    decreases |ks|
  {
    if ks == [] {
      assert s == {};
    } else {
      var init, last := ks[..|ks| - 1], ks[|ks| - 1];
      assert ks == init + [last];
      assert last !in init;
      DistinctLength(init, s - {last});
    }
  }

  /** The operator names are these nine, in lower case, and no others. */
  lemma OperatorNames(s: string, op: FilterOp)
    ensures OperatorOf(s) == Some(op) <==> s == OperatorName(op)
  {
  }

  /** With a dot, the text before the first one must be an operator's name, and the rest is the value. */
  lemma DottedFilter(k: string, name: string, value: string)
    requires '.' !in name
    ensures forall op | name == OperatorName(op) :: FilterOf(k, name + ['.'] + value) == Ok(Filter(k, op, Some(value)))
    ensures (forall op :: name != OperatorName(op)) ==>
      FilterOf(k, name + ['.'] + value) == Err(BadRequest("unsupported operator '" + name + "'"))
  {
    SplitOnceJoined(name, '.', value);
    forall op ensures OperatorOf(name) == Some(op) <==> name == OperatorName(op) {
      OperatorNames(name, op);
    }
    hide OperatorOf, OperatorName;
    assert OperatorOf(name).Some? ==> name == OperatorName(OperatorOf(name).value);
  }

  /** A bare value is shorthand for the same value after `eq.`. */
  lemma BareValueMeansEq(k: string, v: string)
    requires '.' !in v
    ensures FilterOf(k, v) == FilterOf(k, "eq." + v)
  {
    DottedFilter(k, OperatorName(Eq), v);
    assert "eq" + ['.'] + v == "eq." + v;
  }

  /** The map with `eq.` written out before every bare filter value. */
  function Explicit(q: map<string, string>): map<string, string> {
    map k | k in q :: if NamesFilter(k) && '.' !in q[k] then "eq." + q[k] else q[k]
  }

  lemma {:induction false} ExplicitFilters(q: map<string, string>, keys: seq<string>)
    requires forall k | k in keys :: k in q
    ensures FiltersOf(Explicit(q), keys) == FiltersOf(q, keys)
    decreases |keys|
  {
    hide FilterOf;
    if keys != [] {
      var init, last := keys[..|keys| - 1], keys[|keys| - 1];
      ExplicitFilters(q, init);
      if '.' !in q[last] {
        BareValueMeansEq(last, q[last]);
      }
    }
  }

  lemma ExplicitReserved(q: map<string, string>, k: string)
    requires !NamesFilter(k)
    ensures k in Explicit(q) <==> k in q
    ensures k in q ==> Explicit(q)[k] == q[k]
  {
  }

  /** Writing `eq.` out, or leaving it away, changes nothing of what a query string means. */
  lemma ExplicitParsesAlike(q: map<string, string>, keys: seq<string>)
    requires Enumerates(keys, q)
    ensures Enumerates(keys, Explicit(q)) && Parse(Explicit(q), keys) == Parse(q, keys)
  {
    assert Enumerates(keys, Explicit(q));
    ExplicitFilters(q, keys);
    ExplicitReserved(q, "select");
    ExplicitReserved(q, "order");
    ExplicitReserved(q, "limit");
    ExplicitReserved(q, "offset");
    hide Explicit, FiltersOf, ParseI64, Clamp, SelectList, OrderBy, Enumerates, Distinct;
  }

  /** `desc` in any mixture of cases. */
  predicate IsDesc(dir: string) {
    |dir| == 4 && dir[0] in "dD" && dir[1] in "eE" && dir[2] in "sS" && dir[3] in "cC"
  }

  /** Without a dot, the whole text names the column, and the order is ascending. */
  lemma OrderDefaultsToAsc(col: string)
    requires '.' !in col
    ensures OrderBy(col) == if Trim(col) == "" then None else Some((Trim(col), false))
  {
    FindAt(col, '.', "");
    assert Split(col, '.') == [col];
    TrimTrimmed("asc");
    assert |ToLower("asc")| != |ToLower("desc")|;
  }

  /**
   * With one, the field after it gives the direction, descending for `desc` in any mixture of cases and
   * ascending for anything else; what follows a second dot is ignored.
   */
  lemma OrderDirection(col: string, dir: string, rest: string)
    requires '.' !in col && '.' !in dir && (rest == "" || rest[0] == '.')
    ensures OrderBy(col + "." + dir + rest) == if Trim(col) == "" then None else Some((Trim(col), IsDesc(Trim(dir))))
  {
    OrderFields(col, dir, rest);
    LowerDesc(Trim(dir));
    hide Split, Trim, ToLower, IsDesc;
  }

  lemma OrderFields(col: string, dir: string, rest: string)
    requires '.' !in col && '.' !in dir && (rest == "" || rest[0] == '.')
    ensures var parts := Split(col + "." + dir + rest, '.'); |parts| > 1 && parts[0] == col && parts[1] == dir
  {
    var s := col + "." + dir + rest;
    FindAt(col, '.', dir + rest);
    assert s == col + ['.'] + (dir + rest);
    assert s[|col| + 1..] == dir + rest && s[..|col|] == col;
    if rest == "" {
      FindAt(dir, '.', "");
      assert dir + rest == dir;
    } else {
      FindAt(dir, '.', rest[1..]);
      assert dir + rest == dir + ['.'] + rest[1..];
      assert (dir + rest)[..|dir|] == dir;
    }
  }

  /** `order=name` is shorthand for `order=name.asc`: every query map means the same with it. */
  lemma BareOrderMeansAsc(q: map<string, string>, keys: seq<string>)
    requires Enumerates(keys, q) && "order" in q && '.' !in q["order"]
    ensures var q2 := q["order" := q["order"] + ".asc"]; Enumerates(keys, q2) && Parse(q, keys) == Parse(q2, keys)
    ensures Parse(q, keys).Ok? ==>
      Parse(q, keys).value.orderBy == if Trim(q["order"]) == "" then None else Some((Trim(q["order"]), false))
  {
    OtherOptions(q, keys, q["order"] + ".asc");
    OrderDefaultsToAsc(q["order"]);
    AscWritten(q["order"]);
    hide FiltersOf, ParseSelect, ParseLimit, ParseOffset, OrderBy, Enumerates, Trim;
  }

  lemma AscWritten(col: string)
    requires '.' !in col
    ensures OrderBy(col + ".asc") == OrderBy(col)
  {
    hide OrderBy, Trim, Trimmed, IsDesc, IsWhitespace;
    AscTrimmed();
    TrimTrimmed("asc");
    OrderDefaultsToAsc(col);
    OrderDirection(col, "asc", "");
    assert col + "." + "asc" + "" == col + ".asc";
  }

  lemma AscTrimmed()
    ensures Trimmed("asc") && '.' !in "asc" && !IsDesc("asc")
  {
    var s := "asc";
    assert |s| == 3 && s[0] == 'a' && s[1] == 's' && s[2] == 'c';
  }

  /** Replacing the order of a map changes none of its other options. */
  lemma OtherOptions(q: map<string, string>, keys: seq<string>, order: string)
    requires Enumerates(keys, q) && "order" in q
    ensures var q2 := q["order" := order];
      && Enumerates(keys, q2) && FiltersOf(q, keys) == FiltersOf(q2, keys)
      && ParseSelect(q) == ParseSelect(q2) && ParseLimit(q) == ParseLimit(q2) && ParseOffset(q) == ParseOffset(q2)
  {
    var q2 := q["order" := order];
    assert Enumerates(keys, q2);
    SameFilters(q, q2, keys);
    assert "select" != "order" && "limit" != "order" && "offset" != "order";
    hide FiltersOf, ParseI64, Clamp, SelectList, Enumerates, Distinct;
  }

  lemma {:induction false} SameFilters(q: map<string, string>, q2: map<string, string>, keys: seq<string>)
    requires forall k | k in keys :: k in q && k in q2 && (k !in RESERVED ==> q[k] == q2[k])
    ensures FiltersOf(q, keys) == FiltersOf(q2, keys)
    decreases |keys|
  {
    hide FilterOf;
    if keys != [] {
      SameFilters(q, q2, keys[..|keys| - 1]);
    }
  }

  lemma LowerDesc(dir: string)
    ensures ToLower(dir) == ToLower("desc") <==> IsDesc(dir)
  {
    var l := ToLower("desc");
    assert l[0] == 'd' && l[1] == 'e' && l[2] == 's' && l[3] == 'c';
  }

  /** The select list has the trimmed fields that are not empty, and no others. */
  lemma {:induction false} ColumnsMembers(parts: seq<string>, c: string)
    ensures c in Columns(parts) <==> c != "" && exists p | p in parts :: Trim(p) == c
  {
    hide Trim;
    if parts != [] {
      ColumnsMembers(parts[1..], c);
      assert parts == [parts[0]] + parts[1..];
    }
  }

  /** A number out of range becomes the nearest one in range; a text that is no `i64` is ignored. */
  lemma NumbersClamped(q: map<string, string>, v: int)
    ensures "limit" in q && ParseI64(q["limit"]) == Some(v) ==>
      ParseLimit(q).Some? && 1 <= ParseLimit(q).value <= 1000
      && forall k | 1 <= k <= 1000 :: Distance(v, ParseLimit(q).value) <= Distance(v, k)
    ensures "offset" in q && ParseI64(q["offset"]) == Some(v) ==>
      ParseOffset(q).Some? && 0 <= ParseOffset(q).value
      && forall k | 0 <= k :: Distance(v, ParseOffset(q).value) <= Distance(v, k)
    ensures "limit" in q && ParseI64(q["limit"]).None? ==> ParseLimit(q).None?
    ensures "offset" in q && ParseI64(q["offset"]).None? ==> ParseOffset(q).None?
  {
    hide ParseI64;
  }

  // ---------------------------------------------------------------- canonical options

  predicate CanonicalName(c: string, sep: char) {
    c != "" && Trimmed(c) && sep !in c
  }

  /** The options that the parser can produce. */
  predicate Canonical(o: QueryOptions) {
    && (o.select.Some? ==> o.select.value != [] && forall i | 0 <= i < |o.select.value| :: CanonicalName(o.select.value[i], ','))
    && (o.orderBy.Some? ==> CanonicalName(o.orderBy.value.0, '.'))
    && (o.limit.Some? ==> 1 <= o.limit.value <= 1000)
    && (o.offset.Some? ==> o.offset.value >= 0 && IsI64(o.offset.value))
    && Distinct(FilterColumns(o.filters))
    && (forall i | 0 <= i < |o.filters| :: NamesFilter(o.filters[i].column) && o.filters[i].value.Some?)
  }

  lemma {:induction false} ColumnsCanonical(parts: seq<string>, sep: char)
    requires forall p | p in parts :: sep !in p
    ensures forall i | 0 <= i < |Columns(parts)| :: CanonicalName(Columns(parts)[i], sep)
  {
    if parts != [] {
      assert forall p | p in parts[1..] :: p in parts;
      ColumnsCanonical(parts[1..], sep);
      assert parts[0] in parts;
    }
  }

  lemma FilterHasValue(k: string, v: string)
    ensures FilterOf(k, v).Ok? ==> FilterOf(k, v).value.value.Some?
  {
  }

  lemma SelectCanonical(text: string)
    requires SelectList(text).Some?
    ensures var cols := SelectList(text).value; cols != [] && forall i | 0 <= i < |cols| :: CanonicalName(cols[i], ',')
  {
    ColumnsCanonical(Split(text, ','), ',');
  }

  lemma OrderCanonical(text: string)
    requires OrderBy(text).Some?
    ensures CanonicalName(OrderBy(text).value.0, '.')
  {
    assert Split(text, '.')[0] in Split(text, '.');
  }

  lemma NumbersCanonical(q: map<string, string>)
    ensures ParseLimit(q).Some? ==> 1 <= ParseLimit(q).value <= 1000
    ensures ParseOffset(q).Some? ==> ParseOffset(q).value >= 0 && IsI64(ParseOffset(q).value)
  {
    hide ParseI64;
  }

  /** Every parse result is canonical. */
  lemma ParseCanonical(q: map<string, string>, keys: seq<string>)
    requires Enumerates(keys, q) && Parse(q, keys).Ok?
    ensures Canonical(Parse(q, keys).value)
  {
    var o := Parse(q, keys).value;
    hide FilterOf, FiltersOf, Columns, SelectList, OrderBy, CanonicalName, ParseLimit, ParseOffset, FilterColumns, Distinct;
    ParseEach(q, keys);
    NumbersCanonical(q);
    if o.select.Some? {
      SelectCanonical(q["select"]);
    }
    if o.orderBy.Some? {
      OrderCanonical(q["order"]);
    }
    forall i | 0 <= i < |o.filters| ensures o.filters[i].value.Some? {
      FilterHasValue(o.filters[i].column, q[o.filters[i].column]);
    }
  }

  // ---------------------------------------------------------------- printing

  function OperatorName(op: FilterOp): (s: string)
    ensures OperatorOf(s) == Some(op) && '.' !in s
  {
    match op
    case Eq => "eq"
    case Neq => "neq"
    case Gt => "gt"
    case Gte => "gte"
    case Lt => "lt"
    case Lte => "lte"
    case Like => "like"
    case ILike => "ilike"
    case Is => "is"
  }

  function FilterText(f: Filter): string
    requires f.value.Some?
  {
    OperatorName(f.op) + ['.'] + f.value.value
  }

  function PrintFilters(fs: seq<Filter>): (q: map<string, string>)
    requires forall i | 0 <= i < |fs| :: fs[i].value.Some?
    ensures forall k :: k in q <==> k in FilterColumns(fs)
  {
    if fs == [] then map[]
    else
      var init, last := fs[..|fs| - 1], fs[|fs| - 1];
      assert FilterColumns(fs) == FilterColumns(init) + [last.column];
      PrintFilters(init)[last.column := FilterText(last)]
  }

  function Direction(desc: bool): string {
    if desc then "desc" else "asc"
  }

  function With(q: map<string, string>, k: string, v: Option<string>): map<string, string> {
    if v.Some? then q[k := v.value] else q
  }

  function SelectText(o: QueryOptions): Option<string> {
    if o.select.Some? then Some(Join(o.select.value, ",")) else None
  }

  function OrderText(o: QueryOptions): Option<string> {
    if o.orderBy.Some? then Some(o.orderBy.value.0 + "." + Direction(o.orderBy.value.1)) else None
  }

  function NumberText(v: Option<int>): Option<string> {
    if v.Some? then Some(IntText(v.value)) else None
  }

  /** A query map that asks for the options. */
  function Print(o: QueryOptions): map<string, string>
    requires Canonical(o)
  {
    With(With(With(With(PrintFilters(o.filters),
      "select", SelectText(o)), "order", OrderText(o)), "limit", NumberText(o.limit)), "offset", NumberText(o.offset))
  }

  lemma DistinctPrefix(fs: seq<Filter>, k: nat)
    requires Distinct(FilterColumns(fs)) && k < |fs|
    ensures Distinct(FilterColumns(fs[..k])) && forall i | 0 <= i < k :: fs[i].column != fs[k].column
  {
    assert forall j | 0 <= j < k :: FilterColumns(fs[..k])[j] == FilterColumns(fs)[j];
    assert forall j | 0 <= j < k :: FilterColumns(fs)[j] != FilterColumns(fs)[k];
  }

  lemma {:induction false} PrintFiltersAt(fs: seq<Filter>, i: nat)
    requires forall i | 0 <= i < |fs| :: fs[i].value.Some?
    requires Distinct(FilterColumns(fs)) && i < |fs|
    ensures PrintFilters(fs)[fs[i].column] == FilterText(fs[i])
    decreases |fs|
  {
    hide FilterText, Distinct;
    var k := |fs| - 1;
    if i < k {
      var init := fs[..k];
      DistinctPrefix(fs, k);
      PrintFiltersAt(init, i);
    }
  }

  /** Values with dots survive: the operator has none, and the text is split at the first. */
  lemma FilterTextParses(f: Filter)
    requires f.value.Some?
    ensures FilterOf(f.column, FilterText(f)) == Ok(f)
  {
    SplitOnceJoined(OperatorName(f.op), '.', f.value.value);
  }

  lemma {:induction false} ColumnsKept(parts: seq<string>)
    requires forall i | 0 <= i < |parts| :: parts[i] != "" && Trimmed(parts[i])
    ensures Columns(parts) == parts
  {
    if parts != [] {
      TrimTrimmed(parts[0]);
      ColumnsKept(parts[1..]);
    }
  }

  lemma SelectParses(cols: seq<string>)
    requires cols != [] && forall i | 0 <= i < |cols| :: CanonicalName(cols[i], ',')
    ensures SelectList(Join(cols, ",")) == Some(cols)
  {
    assert "," == [','];
    SplitJoin(cols, ',');
    ColumnsKept(cols);
  }

  lemma OrderParts(col: string, dir: string)
    requires '.' !in col && '.' !in dir
    ensures Split(col + "." + dir, '.') == [col, dir]
  {
    var parts := [col, dir];
    assert "." == ['.'];
    assert parts[1..] == [dir];
    SplitJoin(parts, '.');
  }

  lemma Directions()
    ensures EqIgnoreCase(Direction(true), "desc") && !EqIgnoreCase(Direction(false), "desc")
    ensures forall desc :: Trimmed(Direction(desc)) && '.' !in Direction(desc)
  {
    assert |ToLower("asc")| != |ToLower("desc")|;
  }

  lemma OrderParses(col: string, desc: bool)
    requires CanonicalName(col, '.')
    ensures OrderBy(col + "." + Direction(desc)) == Some((col, desc))
  {
    Directions();
    OrderParts(col, Direction(desc));
    TrimTrimmed(col);
    TrimTrimmed(Direction(desc));
    hide Split, Trim, Trimmed, Direction, EqIgnoreCase;
  }

  predicate Has(q: map<string, string>, k: string, v: Option<string>) {
    if v.Some? then k in q && q[k] == v.value else k !in q
  }

  lemma ReservedUnfiltered(o: QueryOptions)
    requires Canonical(o)
    ensures forall k | !NamesFilter(k) :: k !in PrintFilters(o.filters)
  {
    assert forall c | c in FilterColumns(o.filters) :: NamesFilter(c);
  }

  lemma WithKeeps(q: map<string, string>, k: string, v: Option<string>, j: string, w: Option<string>)
    requires j != k && Has(q, j, w)
    ensures Has(With(q, k, v), j, w)
  {
  }

  lemma WithHas(q: map<string, string>, k: string, v: Option<string>)
    requires Has(q, k, None)
    ensures Has(With(q, k, v), k, v)
  {
  }

  lemma PrintOptionLookup(q: map<string, string>, s: Option<string>, o: Option<string>, l: Option<string>,
                          f: Option<string>)
    requires Has(q, "select", None) && Has(q, "order", None) && Has(q, "limit", None) && Has(q, "offset", None)
    ensures var p := With(With(With(With(q, "select", s), "order", o), "limit", l), "offset", f);
      Has(p, "select", s) && Has(p, "order", o) && Has(p, "limit", l) && Has(p, "offset", f)
  {
    assert "select" != "order" && "select" != "limit" && "select" != "offset";
    assert "order" != "limit" && "order" != "offset" && "limit" != "offset";
    hide With, Has;
    var q1 := With(q, "select", s);
    WithHas(q, "select", s);
    WithKeeps(q, "select", s, "order", None);
    WithKeeps(q, "select", s, "limit", None);
    WithKeeps(q, "select", s, "offset", None);
    var q2 := With(q1, "order", o);
    WithHas(q1, "order", o);
    WithKeeps(q1, "order", o, "select", s);
    WithKeeps(q1, "order", o, "limit", None);
    WithKeeps(q1, "order", o, "offset", None);
    var q3 := With(q2, "limit", l);
    WithHas(q2, "limit", l);
    WithKeeps(q2, "limit", l, "select", s);
    WithKeeps(q2, "limit", l, "order", o);
    WithKeeps(q2, "limit", l, "offset", None);
    WithHas(q3, "offset", f);
    WithKeeps(q3, "offset", f, "select", s);
    WithKeeps(q3, "offset", f, "order", o);
    WithKeeps(q3, "offset", f, "limit", l);
  }

  lemma PrintLookup(o: QueryOptions)
    requires Canonical(o)
    ensures var q := Print(o);
      && (forall k | NamesFilter(k) :: (k in q <==> k in FilterColumns(o.filters)) && (k in q ==> q[k] == PrintFilters(o.filters)[k]))
      && Has(q, "select", SelectText(o)) && Has(q, "order", OrderText(o))
      && Has(q, "limit", NumberText(o.limit)) && Has(q, "offset", NumberText(o.offset))
  {
    ReservedUnfiltered(o);
    hide SelectText, OrderText, NumberText, FilterColumns;
    var p := PrintFilters(o.filters);
    assert Has(p, "select", None) && Has(p, "order", None) && Has(p, "limit", None) && Has(p, "offset", None);
    hide PrintFilters, Has;
    PrintOptionLookup(p, SelectText(o), OrderText(o), NumberText(o.limit), NumberText(o.offset));
  }

  lemma OptionsParse(o: QueryOptions)
    requires Canonical(o)
    ensures var q := Print(o);
      ParseSelect(q) == o.select && ParseOrder(q) == o.orderBy && ParseLimit(q) == o.limit && ParseOffset(q) == o.offset
  {
    PrintLookup(o);
    if o.select.Some? {
      SelectParses(o.select.value);
    }
    if o.orderBy.Some? {
      OrderParses(o.orderBy.value.0, o.orderBy.value.1);
    }
    if o.limit.Some? {
      I64RoundTrip(o.limit.value);
    }
    if o.offset.Some? {
      I64RoundTrip(o.offset.value);
    }
    hide Join, IntText, SelectList, OrderBy, ParseI64, Print, Direction, CanonicalName;
  }

  /**
   * Parsing undoes printing: whatever the order of iteration, the parser gives back the select list, the
   * order, the limit, the offset, and exactly the filters, each once.
   */
  lemma ParseUndoesPrint(o: QueryOptions, keys: seq<string>)
    requires Canonical(o) && Enumerates(keys, Print(o))
    ensures Parse(Print(o), keys).Ok?
    ensures var r := Parse(Print(o), keys).value;
      && r.select == o.select && r.orderBy == o.orderBy && r.limit == o.limit && r.offset == o.offset
      && |r.filters| == |o.filters| && forall f :: f in r.filters <==> f in o.filters
  {
    var q := Print(o);
    PrintLookup(o);
    OptionsParse(o);
    hide Print, FilterOf, FilterText, ParseSelect, ParseOrder, ParseLimit, ParseOffset, CanonicalName, FiltersOf, Has,
      SelectText, OrderText, NumberText;
    forall i | 0 <= i < |o.filters| ensures IsFilterOf(q, o.filters[i].column, o.filters[i]) {
      PrintFiltersAt(o.filters, i);
      FilterTextParses(o.filters[i]);
      assert FilterColumns(o.filters)[i] == o.filters[i].column;
    }
    PrintedFilters(o, q);
    ParseEach(q, keys);
  }

  lemma PrintedFilters(o: QueryOptions, q: map<string, string>)
    requires Distinct(FilterColumns(o.filters))
    requires forall k | NamesFilter(k) :: k in q <==> k in FilterColumns(o.filters)
    requires forall i | 0 <= i < |o.filters| :: IsFilterOf(q, o.filters[i].column, o.filters[i])
    ensures Parses(q) && |NonReserved(q)| == |o.filters|
    ensures forall f :: f in o.filters <==> IsFilterOf(q, f.column, f)
  {
    hide FilterOf;
    var cs := FilterColumns(o.filters);
    forall k ensures k in cs <==> k in NonReserved(q) {
      if k in cs {
        var i :| 0 <= i < |cs| && cs[i] == k;
        assert IsFilterOf(q, o.filters[i].column, o.filters[i]);
      }
    }
    DistinctLength(cs, NonReserved(q));
    forall k | k in q && NamesFilter(k) ensures FilterOf(k, q[k]).Ok? {
      assert k in cs;
      var i :| 0 <= i < |cs| && cs[i] == k;
      assert IsFilterOf(q, o.filters[i].column, o.filters[i]);
    }
    forall f: Filter | IsFilterOf(q, f.column, f) ensures f in o.filters {
      assert f.column in cs;
      var i :| 0 <= i < |cs| && cs[i] == f.column;
      assert IsFilterOf(q, o.filters[i].column, o.filters[i]);
    }
  }

  /** Printing a parse result and parsing it again changes nothing but the order of the filters. */
  lemma ParseIsStable(q: map<string, string>, keys: seq<string>, again: seq<string>)
    requires Enumerates(keys, q) && Parse(q, keys).Ok?
    ensures Canonical(Parse(q, keys).value)
    ensures var o := Parse(q, keys).value;
      Enumerates(again, Print(o)) ==>
        && Parse(Print(o), again).Ok?
        && var r := Parse(Print(o), again).value;
        && r.(filters := []) == o.(filters := [])
        && |r.filters| == |o.filters| && forall f :: f in r.filters <==> f in o.filters
  {
    hide Parse, Print;
    ParseCanonical(q, keys);
    var o := Parse(q, keys).value;
    hide Canonical, Enumerates;
    if Enumerates(again, Print(o)) {
      ParseUndoesPrint(o, again);
    }
  }
}
