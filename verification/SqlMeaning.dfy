/**
 * The effect of a statement on an abstract table. Casts, comparisons, defaults and orderings are
 * left to an arbitrary interpretation; NULL follows the three-valued logic of PostgreSQL (section 9.1).
 */
module SqlMeaning {
  import opened Wrappers
  import opened SqlStatements

  datatype Truth = True | False | Unknown

  function And(a: Truth, b: Truth): Truth {
    if a.False? || b.False? then False
    else if a.Unknown? || b.Unknown? then Unknown
    else True
  }

  datatype Value<V> = Null | Val(v: V)

  type Row<V> = map<string, Value<V>>

  /**
   * What the model leaves to the database. `cast` is `None` when the text does not fit the type; a default
   * may differ from row to row, as a sequence does.
   */
  datatype Interp<!V> = Interp(
    columns: set<string>,
    cast: (string, string) -> Option<V>,
    holds: (CompareOp, V, V) -> bool,
    default: (string, nat) -> Value<V>,
    before: (Value<V>, Value<V>) -> bool,
    count: string -> Option<nat>,
    bigint: V -> int)

  // ---------------------------------------------------------------- conditions

  function Column<V>(row: Row<V>, c: string): Value<V> {
    if c in row then row[c] else Null
  }

  /** A comparison with a cast text: unknown when the column is NULL. */
  function CompareTruth<V>(I: Interp<V>, v: Value<V>, op: CompareOp, text: string, cast: string): Truth {
    match (v, I.cast(text, cast))
    case (Val(a), Some(b)) => if I.holds(op, a, b) then True else False
    case _ => Unknown
  }

  function CondTruth<V>(I: Interp<V>, c: Cond, row: Row<V>): Truth {
    match c
    case Compare(col, op, text, cast) => CompareTruth(I, Column(row, col), op, text, cast)
    case IsNull(col) => if Column(row, col).Null? then True else False
    case IsNotNull(col) => if Column(row, col).Null? then False else True
  }

  /** `c1 AND c2 AND ...`, evaluated from the left. */
  function CondsTruth<V>(I: Interp<V>, cs: seq<Cond>, row: Row<V>): Truth {
    if cs == [] then True else And(CondTruth(I, cs[0], row), CondsTruth(I, cs[1..], row))
  }

  /** The conjunction of a list of truth values, said without an order. */
  function Conjunction(ts: seq<Truth>): Truth {
    if False in ts then False else if Unknown in ts then Unknown else True
  }

  function Truths<V>(I: Interp<V>, cs: seq<Cond>, row: Row<V>): seq<Truth> {
    seq(|cs|, i requires 0 <= i < |cs| => CondTruth(I, cs[i], row))
  }

  lemma {:induction false} CondsTruthIsConjunction<V>(I: Interp<V>, cs: seq<Cond>, row: Row<V>)
    ensures CondsTruth(I, cs, row) == Conjunction(Truths(I, cs, row))
  {
    if cs != [] {
      CondsTruthIsConjunction(I, cs[1..], row);
      assert Truths(I, cs, row) == [CondTruth(I, cs[0], row)] + Truths(I, cs[1..], row);
    }
  }

  // ---------------------------------------------------------------- values

  /** A text cast to a type. */
  function CastValue<V>(I: Interp<V>, text: string, cast: string): Value<V> {
    match I.cast(text, cast) case Some(v) => Val(v) case None => Null
  }

  /** The value of a cell in the row with identity `id`. */
  function CellValue<V>(I: Interp<V>, column: string, id: nat, c: Cell): Value<V> {
    match c
    case DefaultCell => I.default(column, id)
    case NullCell => Null
    case Bound(text, cast) => CastValue(I, text, cast)
  }

  predicate CellCasts<V>(I: Interp<V>, c: Cell) {
    c.Bound? ==> I.cast(c.text, c.cast).Some?
  }

  predicate CondsCast<V>(I: Interp<V>, cs: seq<Cond>) {
    forall i | 0 <= i < |cs| && cs[i].Compare? :: I.cast(cs[i].text, cs[i].cast).Some?
  }

  /** Every bound text fits its type; otherwise the statement fails as a whole. */
  predicate Casts<V>(I: Interp<V>, s: Statement) {
    match s
    case Select(_, _, _, conds, _, limit, offset) =>
      && CondsCast(I, conds)
      && (limit.Some? ==> I.count(limit.value).Some?)
      && (offset.Some? ==> I.count(offset.value).Some?)
    case InsertDefault(_, _) => true
    case Insert(_, _, _, rows) =>
      forall i, j | 0 <= i < |rows| && 0 <= j < |rows[i]| :: CellCasts(I, rows[i][j])
    case Update(_, _, sets, conds) =>
      CondsCast(I, conds) && forall i | 0 <= i < |sets| :: CellCasts(I, sets[i].cell)
    case Delete(_, _, conds) => CondsCast(I, conds)
  }

  // ---------------------------------------------------------------- row policies

  /** `current_setting('app.current_user_id', true)` on one connection. */
  datatype Setting = Unset | User(id: int)

  /** Either no row level security, or the four policies of `posts`, which share one predicate. */
  datatype Policy = Open | OwnerOnly

  predicate OwnedBy<V>(I: Interp<V>, row: Row<V>, u: int) {
    var v := Column(row, "user_id");
    v.Val? && I.bigint(v.v) == u
  }

  /** `user_id = current_setting(...)::bigint` is true, not merely unknown. */
  predicate Allows<V>(I: Interp<V>, p: Policy, setting: Setting, row: Row<V>) {
    p.Open? || (setting.User? && OwnedBy(I, row, setting.id))
  }

  // ---------------------------------------------------------------- effects

  type Rows<V> = map<nat, Row<V>>

  /** The columns that a SELECT asks for. */
  function Projected<V>(p: Projection, row: Row<V>): Row<V> {
    match p
    case AllColumns => row
    case Columns(names) => map c | c in names :: Column(row, c)
  }

  /** What a statement returns of a row: a SELECT its projection, the others the whole row. */
  function Shown<V>(s: Statement, row: Row<V>): Row<V> {
    if s.Select? then Projected(s.projection, row) else row
  }

  /** What a statement writes, and the identities of the rows it returns, in order. */
  datatype Effect<V> = Effect(puts: Rows<V>, dels: set<nat>, returned: seq<nat>)

  function Apply<V>(rows: Rows<V>, e: Effect<V>): Rows<V> {
    (rows - e.dels) + e.puts
  }

  /** The rows a condition selects: allowed by the policy, and every condition true. */
  function Selected<V>(I: Interp<V>, p: Policy, setting: Setting, conds: seq<Cond>, rows: Rows<V>): set<nat> {
    set id | id in rows && Allows(I, p, setting, rows[id]) && CondsTruth(I, conds, rows[id]).True?
  }

  function IndexOf(names: seq<string>, c: string): (i: nat)
    requires c in names
    ensures i < |names| && names[i] == c
  {
    if names[0] == c then 0 else 1 + IndexOf(names[1..], c)
  }

  function NewRow<V>(I: Interp<V>, names: seq<string>, cells: seq<Cell>, id: nat): Row<V>
    requires |cells| == |names|
  {
    map c | c in I.columns :: if c in names then CellValue(I, c, id, cells[IndexOf(names, c)]) else I.default(c, id)
  }

  function SetRow<V>(I: Interp<V>, sets: seq<Assignment>, row: Row<V>, id: nat): Row<V> {
    if sets == [] then row
    else
      var s := sets[|sets| - 1];
      SetRow(I, sets[..|sets| - 1], row, id)[s.column := CellValue(I, s.column, id, s.cell)]
  }

  function IdSet(ids: seq<nat>): set<nat> {
    set id | id in ids
  }

  predicate Lists(ids: seq<nat>, s: set<nat>) {
    && (forall i, j | 0 <= i < j < |ids| :: ids[i] != ids[j])
    && IdSet(ids) == s
  }

  predicate Sorted<V>(I: Interp<V>, order: Option<(string, bool)>, ids: seq<nat>, rows: Rows<V>)
    requires forall id | id in ids :: id in rows
  {
    order.Some? ==> forall i, j | 0 <= i < j < |ids| ::
      var a, b := Column(rows[ids[i]], order.value.0), Column(rows[ids[j]], order.value.0);
      if order.value.1 then !I.before(a, b) else !I.before(b, a)
  }

  function Window(ids: seq<nat>, offset: nat, limit: Option<nat>): seq<nat> {
    var rest := if offset <= |ids| then ids[offset..] else [];
    if limit.Some? && limit.value <= |rest| then rest[..limit.value] else rest
  }

  function CountOf<V>(I: Interp<V>, o: Option<string>): Option<nat> {
    if o.Some? then I.count(o.value) else None
  }

  function OffsetOf<V>(I: Interp<V>, o: Option<string>): nat {
    var n := CountOf(I, o);
    if n.Some? then n.value else 0
  }

  /** The result of a SELECT: a sorted listing of the selected rows, cut to the window. */
  ghost predicate Returns<V>(I: Interp<V>, order: Option<(string, bool)>, limit: Option<string>, offset: Option<string>,
                             selected: set<nat>, rows: Rows<V>, returned: seq<nat>) {
    exists all: seq<nat> ::
      && Lists(all, selected)
      && (forall id | id in all :: id in rows)
      && Sorted(I, order, all, rows)
      && returned == Window(all, OffsetOf(I, offset), CountOf(I, limit))
  }

  /** One new row per tuple, in order, with consecutive identities. */
  function NewRows<V>(I: Interp<V>, names: seq<string>, cells: seq<seq<Cell>>, next: nat): (rows: Rows<V>)
    requires forall i | 0 <= i < |cells| :: |cells[i]| == |names|
    ensures forall id :: id in rows <==> next <= id < next + |cells|
    ensures forall i | 0 <= i < |cells| :: rows[next + i] == NewRow(I, names, cells[i], next + i)
  {
    if cells == [] then map[]
    else
      var k := |cells| - 1;
      NewRows(I, names, cells[..k], next)[next + k := NewRow(I, names, cells[k], next + k)]
  }

  /** A statement that succeeds on `rows` can have effect `e`; new rows get identities from `next` on. */
  ghost predicate Effects<V>(I: Interp<V>, p: Policy, setting: Setting, s: Statement, rows: Rows<V>, next: nat,
                             e: Effect<V>) {
    && Casts(I, s)
    && (forall id | id in e.puts :: Allows(I, p, setting, e.puts[id]))
    && match s
       case Select(_, _, _, conds, order, limit, offset) =>
         && e.puts == map[] && e.dels == {}
         && Returns(I, order, limit, offset, Selected(I, p, setting, conds, rows), rows, e.returned)
       case InsertDefault(_, _) =>
         && e.puts == map[next := NewRow(I, [], [], next)]
         && e.dels == {} && e.returned == [next]
       case Insert(_, _, names, cells) =>
         && (forall i | 0 <= i < |cells| :: |cells[i]| == |names|)
         && e.puts == NewRows(I, names, cells, next)
         && e.dels == {} && e.returned == seq(|cells|, i => next + i)
       case Update(_, _, sets, conds) =>
         && var hit := Selected(I, p, setting, conds, rows);
         && e.puts == (map id | id in hit :: SetRow(I, sets, rows[id], id))
         && e.dels == {} && Lists(e.returned, hit)
       case Delete(_, _, conds) =>
         && e.puts == map[]
         && e.dels == Selected(I, p, setting, conds, rows) && Lists(e.returned, e.dels)
  }

  /** Under the owner policies a statement of user `u` reads, writes and removes only rows of `u`. */
  lemma OwnerEffects<V>(I: Interp<V>, u: int, s: Statement, rows: Rows<V>, next: nat, e: Effect<V>)
    requires Effects(I, OwnerOnly, User(u), s, rows, next, e)
    requires forall id | id in rows :: id < next
    ensures forall id | id in e.puts :: OwnedBy(I, e.puts[id], u) && (id in rows ==> OwnedBy(I, rows[id], u))
    ensures forall id | id in e.dels :: id in rows && OwnedBy(I, rows[id], u)
    ensures forall id | id in e.returned ::
              (id in e.puts && OwnedBy(I, e.puts[id], u)) || (id in rows && OwnedBy(I, rows[id], u))
  {
    match s
    case Select(_, _, _, conds, order, limit, offset) =>
      ReturnsSelected(I, order, limit, offset, Selected(I, OwnerOnly, User(u), conds, rows), rows, e.returned);
    case Insert(_, _, _, _) =>
    case InsertDefault(_, _) =>
    case Update(_, _, _, conds) =>
      forall id | id in e.returned ensures id in Selected(I, OwnerOnly, User(u), conds, rows) {
        assert id in IdSet(e.returned);
      }
    case Delete(_, _, conds) =>
      forall id | id in e.returned ensures id in e.dels {
        assert id in IdSet(e.returned);
      }
  }

  lemma ReturnsSelected<V>(I: Interp<V>, order: Option<(string, bool)>, limit: Option<string>, offset: Option<string>,
                           selected: set<nat>, rows: Rows<V>, returned: seq<nat>)
    requires Returns(I, order, limit, offset, selected, rows, returned)
    ensures forall id | id in returned :: id in selected
  {
    var all: seq<nat> :| Lists(all, selected) && (forall id | id in all :: id in rows) && Sorted(I, order, all, rows)
      && returned == Window(all, OffsetOf(I, offset), CountOf(I, limit));
    forall id | id in returned ensures id in selected {
      assert id in all;
      assert id in IdSet(all);
    }
  }

  /** INSERT, UPDATE and DELETE return exactly rows they wrote or removed. */
  lemma ReturnedWritten<V>(I: Interp<V>, p: Policy, setting: Setting, s: Statement, rows: Rows<V>, next: nat,
                           e: Effect<V>)
    requires Effects(I, p, setting, s, rows, next, e) && !s.Select?
    ensures forall id :: id in e.returned <==> id in e.puts || id in e.dels
  {
    assert forall id :: id in e.returned <==> id in IdSet(e.returned);
    match s
    case InsertDefault(_, _) =>
    case Insert(_, _, names, cells) =>
      forall id ensures id in e.returned <==> id in e.puts {
        if id in e.puts {
          assert e.returned[id - next] == id;
        }
      }
    case Update(_, _, _, conds) =>
    case Delete(_, _, conds) =>
  }

  /** Under the owner policies only a statement of some user reads, writes or removes anything. */
  lemma EffectsNeedUser<V>(I: Interp<V>, setting: Setting, s: Statement, rows: Rows<V>, next: nat, e: Effect<V>)
    requires Effects(I, OwnerOnly, setting, s, rows, next, e)
    requires e.puts != map[] || e.dels != {} || e.returned != []
    ensures setting.User?
  {
    if s.Select? {
      var id := e.returned[0];
      ReturnsSelected(I, s.order, s.limit, s.offset, Selected(I, OwnerOnly, setting, s.conds, rows), rows, e.returned);
      assert id in Selected(I, OwnerOnly, setting, s.conds, rows);
    } else {
      ReturnedWritten(I, OwnerOnly, setting, s, rows, next, e);
      assert e.returned != [] ==> e.returned[0] in e.returned;
      if e.puts != map[] {
        var id :| id in e.puts;
        assert Allows(I, OwnerOnly, setting, e.puts[id]);
      } else {
        var id :| id in e.dels;
        assert Allows(I, OwnerOnly, setting, rows[id]);
      }
    }
  }
}
