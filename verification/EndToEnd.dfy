/** What a request that succeeds did to the table and answered, said without statements or SQL. */
module EndToEnd {
  import opened Wrappers
  import opened Text
  import opened Catalog
  import opened SqlStatements
  import opened SqlMeaning
  import opened WhereClause
  import opened SelectBuilder
  import opened InsertBuilder
  import opened UpdateBuilder
  import opened DeleteBuilder
  import opened Executors

  /** The effect of the statement behind a successful answer. */
  lemma EffectOf<V(!new)>(engine: Engine<V>, user: Option<CurrentUser>, request: Result<Statement>, faults: Faults,
                          before: Rows<V>, next: nat, after: Rows<V>, r: Result<seq<Row<V>>>) returns (e: Effect<V>)
    requires Answered(engine, user, request, faults, before, next, after, r) && r.Ok?
    ensures request.Ok? && Effects(engine.interp, engine.policy, SettingOf(user), request.value, before, next, e)
    ensures after == Apply(before, e) && r.value == Returned(request.value, before, e)
  {
    hide Effects;
    e :| Effects(engine.interp, engine.policy, SettingOf(user), request.value, before, next, e)
      && after == Apply(before, e) && r.value == Returned(request.value, before, e);
  }

  lemma Appended<V(!new)>(s: Statement, before: Rows<V>, next: nat, e: Effect<V>, n: nat)
    requires !s.Select?
    requires Fresh(before, next) && e.dels == {} && e.returned == seq(n, i => next + i)
    requires forall id :: id in e.puts <==> next <= id < next + n
    ensures var after, out := Apply(before, e), Returned(s, before, e);
      && |out| == n
      && (forall id :: id in after <==> id in before || next <= id < next + n)
      && (forall id | id in before :: after[id] == before[id])
      && (forall i | 0 <= i < n :: after[next + i] == e.puts[next + i] == out[i])
  {
  }

  lemma Overwritten<V>(before: Rows<V>, e: Effect<V>)
    requires e.dels == {} && e.puts.Keys <= before.Keys
    ensures Apply(before, e).Keys == before.Keys
    ensures forall id | id in before :: Apply(before, e)[id] == if id in e.puts then e.puts[id] else before[id]
  {
  }

  /** The rows already there stay, and those that the body asks for follow, in order. */
  ghost predicate Inserted<V(!new)>(engine: Engine<V>, meta: TableMeta, body: Json, user: Option<CurrentUser>,
                                    before: Rows<V>, next: nat, after: Rows<V>, out: seq<Row<V>>) {
    && (forall id :: id in after <==> id in before || next <= id < next + |out|)
    && (forall id | id in before :: after[id] == before[id])
    && (forall i | 0 <= i < |out| :: after[next + i] == out[i])
    && RowsAsked(engine.interp, meta, body, user, next, out)
  }

  lemma InsertExecuted<V(!new)>(engine: Engine<V>, meta: TableMeta, body: Json, user: Option<CurrentUser>,
                                before: Rows<V>, next: nat, after: Rows<V>, out: seq<Row<V>>)
    requires InsertRequest(meta, body, user).Ok? && Fresh(before, next)
    requires Executes(engine, user, InsertRequest(meta, body, user).value, before, next, after, out)
    ensures Inserted(engine, meta, body, user, before, next, after, out)
  {
    hide Effects, InsertRequest, RowsAsked, Apply, Returned;
    var s := InsertRequest(meta, body, user).value;
    var e :| Effects(engine.interp, engine.policy, SettingOf(user), s, before, next, e)
      && after == Apply(before, e) && out == Returned(s, before, e);
    InsertIsInsert(meta, body, user);
    InsertMeansBody(engine.interp, engine.policy, SettingOf(user), meta, body, user, before, next, e);
    Appended(s, before, next, e, |e.returned|);
    assert out == RowsFrom(e.puts, next, |e.returned|);
  }

  /**
   * A successful INSERT adds and returns the row that an object asks for, or one for each item of an array,
   * or one row of defaults when no item has a column to set, and touches nothing else.
   */
  lemma InsertDone<V(!new)>(engine: Engine<V>, meta: TableMeta, body: Json, user: Option<CurrentUser>, faults: Faults,
                            before: Rows<V>, next: nat, after: Rows<V>, r: Result<seq<Row<V>>>)
    requires Answered(engine, user, InsertRequest(meta, body, user), faults, before, next, after, r)
    requires r.Ok? && Fresh(before, next)
    ensures Inserted(engine, meta, body, user, before, next, after, r.value)
  {
    hide InsertRequest, Inserted, Executes;
    InsertExecuted(engine, meta, body, user, before, next, after, r.value);
  }

  /**
   * A bulk INSERT is all or nothing whatever fails: either the table is as before, or it has every row that
   * the body asks for. The second comes with an error only if the commit's answer was lost.
   */
  lemma InsertAllOrNone<V(!new)>(engine: Engine<V>, meta: TableMeta, body: Json, user: Option<CurrentUser>, faults: Faults,
                                 before: Rows<V>, next: nat, after: Rows<V>, r: Result<seq<Row<V>>>)
    requires Answered(engine, user, InsertRequest(meta, body, user), faults, before, next, after, r)
    requires Fresh(before, next)
    ensures after == before || exists out: seq<Row<V>> :: Inserted(engine, meta, body, user, before, next, after, out)
    ensures after != before && r.Err? ==> faults.commit.Some? && faults.commit.value.Unacknowledged?
  {
    hide InsertRequest, Inserted, Executes;
    if r.Ok? {
      InsertDone(engine, meta, body, user, faults, before, next, after, r);
    } else if after != before {
      var out :| Executes(engine, user, InsertRequest(meta, body, user).value, before, next, after, out);
      InsertExecuted(engine, meta, body, user, before, next, after, out);
    }
  }

  /** The answer shows each row of `hit` once, as it is in `rows`. */
  ghost predicate Shows<V(!new)>(out: seq<Row<V>>, hit: set<nat>, rows: Rows<V>) {
    exists ids: seq<nat> ::
      Lists(ids, hit) && |out| == |ids| && forall i | 0 <= i < |ids| :: ids[i] in rows && out[i] == rows[ids[i]]
  }

  /** Matching rows get the body's values, all other rows and columns keep theirs. */
  ghost predicate Updated<V(!new)>(engine: Engine<V>, meta: TableMeta, fields: Fields, filters: seq<Filter>,
                                   user: Option<CurrentUser>,
                                   before: Rows<V>, after: Rows<V>)
    requires AllAccepted(meta, filters)
  {
    && after.Keys == before.Keys
    && var hit := Matching(engine.interp, engine.policy, SettingOf(user), meta, filters, before);
    && (forall id | id in before && id !in hit :: after[id] == before[id])
    && (forall id, c | id in hit :: IsUpdated(engine.interp, meta, fields, c, before[id], Column(after[id], c)))
  }

  /** A successful UPDATE gives exactly the matching rows exactly the body's values, and returns them so. */
  lemma UpdateDone<V(!new)>(engine: Engine<V>, meta: TableMeta, body: Json, opts: QueryOptions,
                            user: Option<CurrentUser>, faults: Faults,
                            before: Rows<V>, next: nat, after: Rows<V>, r: Result<seq<Row<V>>>)
    requires Answered(engine, user, UpdateRequest(meta, body, opts, user), faults, before, next, after, r)
    requires r.Ok? && body.JObject? && Distinct(Keys(body.fields))
    ensures AllAccepted(meta, opts.filters)
    ensures Updated(engine, meta, body.fields, opts.filters, user, before, after)
    ensures Shows(r.value, Matching(engine.interp, engine.policy, SettingOf(user), meta, opts.filters, before), after)
  {
    hide Effects, UpdateRequest, Matching, IsUpdated, Lists, AllAccepted, Executes, Answered, Apply, Returned, Distinct, Shows;
    var e := EffectOf(engine, user, UpdateRequest(meta, body, opts, user), faults, before, next, after, r);
    UpdateMeansBody(engine.interp, engine.policy, SettingOf(user), meta, body, opts, user, before, next, e);
    MatchingKnown(engine.interp, engine.policy, SettingOf(user), meta, opts.filters, before);
    Overwritten(before, e);
    UpdateIsUpdate(meta, body, opts, user);
    WrittenShown(UpdateRequest(meta, body, opts, user).value, before, e);
  }

  lemma MatchingKnown<V>(I: Interp<V>, p: Policy, setting: Setting, meta: TableMeta, filters: seq<Filter>,
                         rows: Rows<V>)
    requires AllAccepted(meta, filters)
    ensures Matching(I, p, setting, meta, filters, rows) <= rows.Keys
  {
  }

  lemma WrittenShown<V(!new)>(s: Statement, before: Rows<V>, e: Effect<V>)
    requires !s.Select? && Lists(e.returned, e.puts.Keys)
    ensures Shows(Returned(s, before, e), e.puts.Keys, Apply(before, e))
  {
    forall i | 0 <= i < |e.returned| ensures e.returned[i] in e.puts {
      assert e.returned[i] in IdSet(e.returned);
    }
  }

  lemma RemovedShown<V(!new)>(s: Statement, before: Rows<V>, e: Effect<V>)
    requires !s.Select? && e.puts == map[] && Lists(e.returned, e.dels) && e.dels <= before.Keys
    ensures Shows(Returned(s, before, e), e.dels, before)
  {
    forall i | 0 <= i < |e.returned| ensures e.returned[i] in e.dels {
      assert e.returned[i] in IdSet(e.returned);
    }
  }

  /** A successful DELETE removes exactly the matching rows, and returns them as they were. */
  lemma DeleteDone<V(!new)>(engine: Engine<V>, meta: TableMeta, opts: QueryOptions, user: Option<CurrentUser>,
                            faults: Faults,
                            before: Rows<V>, next: nat, after: Rows<V>, r: Result<seq<Row<V>>>)
    requires Answered(engine, user, DeleteRequest(meta, opts), faults, before, next, after, r)
    requires r.Ok?
    ensures AllAccepted(meta, opts.filters)
    ensures var hit := Matching(engine.interp, engine.policy, SettingOf(user), meta, opts.filters, before);
      after == (map id | id in before && id !in hit :: before[id]) && Shows(r.value, hit, before)
  {
    hide Effects, DeleteRequest, Matching, Lists, AllAccepted, Executes, Answered, Apply, Returned, Shows;
    var e := EffectOf(engine, user, DeleteRequest(meta, opts), faults, before, next, after, r);
    DeleteMeansFilters(engine.interp, engine.policy, SettingOf(user), meta, opts, before, next, e);
    MatchingKnown(engine.interp, engine.policy, SettingOf(user), meta, opts.filters, before);
    DeleteIsDelete(meta, opts);
    RemovedShown(DeleteRequest(meta, opts).value, before, e);
  }

  /** The columns of a row that the options ask for: the listed ones, or all. */
  function Chosen<V>(opts: QueryOptions, row: Row<V>): Row<V> {
    if opts.select.None? || opts.select.value == [] then row
    else map c | c in opts.select.value :: Column(row, c)
  }

  /** No row comes before one that the order puts first; descending turns the comparison round. */
  ghost predicate InOrder<V>(I: Interp<V>, order: Option<(string, bool)>, ids: seq<nat>, rows: Rows<V>)
    requires forall id | id in ids :: id in rows
  {
    order.Some? ==> forall i, j | 0 <= i < j < |ids| ::
      var first, second := Column(rows[ids[i]], order.value.0), Column(rows[ids[j]], order.value.0);
      !(if order.value.1 then I.before(first, second) else I.before(second, first))
  }

  /** `window` is `all` after the first OFFSET elements, and at most LIMIT of them. */
  ghost predicate CutTo<V>(I: Interp<V>, opts: QueryOptions, all: seq<nat>, window: seq<nat>) {
    && (opts.offset.Some? ==> I.count(IntText(opts.offset.value)).Some?)
    && (opts.limit.Some? ==> I.count(IntText(opts.limit.value)).Some?)
    && var skipped: nat := if opts.offset.Some? then I.count(IntText(opts.offset.value)).value else 0;
    && var left: nat := if skipped < |all| then |all| - skipped else 0;
    && |window| == (if opts.limit.Some? && I.count(IntText(opts.limit.value)).value < left
                    then I.count(IntText(opts.limit.value)).value else left)
    && forall i | 0 <= i < |window| :: window[i] == all[skipped + i]
  }

  /** A listing of the matching rows in the requested order, cut to the requested window and columns. */
  ghost predicate Listed<V(!new)>(engine: Engine<V>, meta: TableMeta, opts: QueryOptions, user: Option<CurrentUser>,
                                  rows: Rows<V>, out: seq<Row<V>>)
    requires AllAccepted(meta, opts.filters)
  {
    exists all: seq<nat>, window: seq<nat> ::
      && Lists(all, Matching(engine.interp, engine.policy, SettingOf(user), meta, opts.filters, rows))
      && (forall id | id in all :: id in rows)
      && InOrder(engine.interp, opts.orderBy, all, rows)
      && CutTo(engine.interp, opts, all, window)
      && |out| == |window| && forall i | 0 <= i < |out| :: window[i] in rows && out[i] == Chosen(opts, rows[window[i]])
  }

  lemma WindowCut<V>(I: Interp<V>, opts: QueryOptions, all: seq<nat>)
    requires opts.offset.Some? ==> I.count(IntText(opts.offset.value)).Some?
    requires opts.limit.Some? ==> I.count(IntText(opts.limit.value)).Some?
    ensures CutTo(I, opts, all, Window(all, OffsetOf(I, IntOption(opts.offset)), CountOf(I, IntOption(opts.limit))))
  {
    hide IntText;
  }

  /** A successful SELECT lists the requested columns of the matching rows in order, after OFFSET and up to LIMIT. */
  lemma SelectDone<V(!new)>(engine: Engine<V>, meta: TableMeta, opts: QueryOptions, user: Option<CurrentUser>,
                            faults: Faults,
                            before: Rows<V>, next: nat, after: Rows<V>, r: Result<seq<Row<V>>>)
    requires Answered(engine, user, SelectRequest(meta, opts), faults, before, next, after, r)
    requires r.Ok?
    ensures after == before && AllAccepted(meta, opts.filters)
    ensures Listed(engine, meta, opts, user, before, r.value)
  {
    SelectChangesNothing(engine, user, meta, opts, faults, before, next, after, r);
    hide Effects, SelectRequest, Matching, AllAccepted, Selected, CondsOf, Executes, Answered, Apply, Returned, Listed, Returns, Projected, Chosen, IntOption, IntText;
    var e := EffectOf(engine, user, SelectRequest(meta, opts), faults, before, next, after, r);
    var s := SelectRequest(meta, opts).value;
    SelectParts(meta, opts);
    SelectProjects<V>(meta, opts);
    SelectedMatches(engine.interp, engine.policy, SettingOf(user), meta, opts.filters, before);
    SelectReturns(engine.interp, engine.policy, SettingOf(user), s, before, next, e);
    MatchingKnown(engine.interp, engine.policy, SettingOf(user), meta, opts.filters, before);
    SelectCounts(engine.interp, engine.policy, SettingOf(user), opts, s, before, next, e);
    WindowListed(engine, meta, opts, user, s, before, e);
  }

  lemma SelectCounts<V>(I: Interp<V>, p: Policy, setting: Setting, opts: QueryOptions, s: Statement, rows: Rows<V>,
                        next: nat, e: Effect<V>)
    requires s.Select? && s.limit == IntOption(opts.limit) && s.offset == IntOption(opts.offset)
    requires Effects(I, p, setting, s, rows, next, e)
    ensures opts.offset.Some? ==> I.count(IntText(opts.offset.value)).Some?
    ensures opts.limit.Some? ==> I.count(IntText(opts.limit.value)).Some?
  {
    hide IntText;
  }

  lemma WindowListed<V(!new)>(engine: Engine<V>, meta: TableMeta, opts: QueryOptions, user: Option<CurrentUser>,
                              s: Statement, rows: Rows<V>, e: Effect<V>)
    requires AllAccepted(meta, opts.filters) && e.puts == map[]
    requires s.Select? && forall row: Row<V> :: Projected(s.projection, row) == Chosen(opts, row)
    requires Returns(engine.interp, opts.orderBy, IntOption(opts.limit), IntOption(opts.offset),
                     Matching(engine.interp, engine.policy, SettingOf(user), meta, opts.filters,
                       rows), rows, e.returned)
    requires opts.offset.Some? ==> engine.interp.count(IntText(opts.offset.value)).Some?
    requires opts.limit.Some? ==> engine.interp.count(IntText(opts.limit.value)).Some?
    requires Matching(engine.interp, engine.policy, SettingOf(user), meta, opts.filters, rows) <= rows.Keys
    ensures Listed(engine, meta, opts, user, rows, Returned(s, rows, e))
  {
    hide Matching, Lists, AllAccepted, Window, OffsetOf, CountOf, Projected, Chosen, CutTo, IntOption, IntText;
    var hit := Matching(engine.interp, engine.policy, SettingOf(user), meta, opts.filters, rows);
    ReturnsSelected(engine.interp, opts.orderBy, IntOption(opts.limit), IntOption(opts.offset), hit, rows, e.returned);
    var all: seq<nat> :|
      && Lists(all, hit)
      && (forall id | id in all :: id in rows)
      && Sorted(engine.interp, opts.orderBy, all, rows)
      && e.returned == Window(all, OffsetOf(engine.interp, IntOption(opts.offset)), CountOf(engine.interp, IntOption(opts.limit)));
    WindowCut(engine.interp, opts, all);
    assert InOrder(engine.interp, opts.orderBy, all, rows);
    hide Sorted, InOrder;
    assert forall i | 0 <= i < |e.returned| :: e.returned[i] in e.returned;
  }

  lemma SelectParts(meta: TableMeta, opts: QueryOptions)
    requires SelectRequest(meta, opts).Ok?
    ensures var s := SelectRequest(meta, opts).value;
      && s.Select? && s.order == opts.orderBy && s.limit == IntOption(opts.limit) && s.offset == IntOption(opts.offset)
      && CondsOf(meta, opts.filters) == Ok(s.conds)
  {
  }

  lemma SelectProjects<V(!new)>(meta: TableMeta, opts: QueryOptions)
    requires SelectRequest(meta, opts).Ok?
    ensures var s := SelectRequest(meta, opts).value;
      s.Select? && forall row: Row<V> :: Projected(s.projection, row) == Chosen(opts, row)
  {
    hide CondsOf, CheckColumns;
  }

  lemma SelectReturns<V>(I: Interp<V>, p: Policy, setting: Setting, s: Statement, rows: Rows<V>, next: nat,
                         e: Effect<V>)
    requires s.Select? && Effects(I, p, setting, s, rows, next, e)
    ensures e.puts == map[] && Returns(I, s.order, s.limit, s.offset, Selected(I, p, setting, s.conds, rows), rows, e.returned)
  {
  }
}
