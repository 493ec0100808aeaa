/**
 * The transaction steps of `select_rows`, `insert_rows`, `update_rows` and `delete_rows`: begin, the
 * transaction-local user, one statement, then commit or rollback, on a database that may fail anywhere.
 */
module Executors {
  import opened Wrappers
  import opened Text
  import opened Catalog
  import opened SqlStatements
  import opened SqlFrames
  import opened SqlReader
  import opened SqlNames
  import opened SqlMeaning
  import opened SelectBuilder
  import opened InsertBuilder
  import opened UpdateBuilder
  import opened DeleteBuilder
  import opened WhereClause
  import opened Markers

  // ---------------------------------------------------------------- the database

  /** How the database executes a statement: its effect, or `None` for any database error. */
  datatype Engine<!V(!new)> = Engine(
    interp: Interp<V>,
    policy: Policy,
    run: (Statement, Setting, Rows<V>, nat) -> Option<Effect<V>>)
  {
    /** What an engine does is allowed by the meaning of statements. */
    ghost predicate Sound() {
      forall s, setting, rows, next ::
        var e := run(s, setting, rows, next);
        e.Some? ==> Effects(interp, policy, setting, s, rows, next, e.value)
    }
  }

  /** A failed commit: nothing was committed, or it was but the answer got lost. */
  datatype CommitFault = Lost(error: ApiError) | Unacknowledged(error: ApiError)

  /** The failures one request meets, step by step. */
  datatype Faults = Faults(begin: Option<ApiError>, config: bool, fetch: Option<ApiError>, commit: Option<CommitFault>)

  /** The answer to a statement: the rows it left or removed, or the requested columns of those it read. */
  function Returned<V>(s: Statement, rows: Rows<V>, e: Effect<V>): (out: seq<Row<V>>)
    ensures |out| == |e.returned|
  {
    seq(|e.returned|, i requires 0 <= i < |e.returned| =>
      var id := e.returned[i];
      Shown(s, if id in e.puts then e.puts[id] else if id in rows then rows[id] else map[]))
  }

  /** Identities that are still to be handed out are not in use. */
  ghost predicate Fresh<V>(rows: Rows<V>, next: nat) {
    forall id | id in rows :: id < next
  }

  lemma {:induction false} RangeSize(s: set<nat>, next: nat, n: nat)
    requires forall id :: id in s <==> next <= id < next + n
    ensures |s| == n
  {
    if n == 0 {
      assert s == {};
    } else {
      RangeSize(s - {next + n - 1}, next, n - 1);
    }
  }

  lemma WrittenBelow<V(!new)>(I: Interp<V>, p: Policy, setting: Setting, s: Statement, rows: Rows<V>, next: nat, e: Effect<V>)
    requires Effects(I, p, setting, s, rows, next, e) && Fresh(rows, next)
    ensures forall id | id in e.puts :: id < next + |e.puts|
  {
    match s
    case Insert(_, _, _, _) =>
      InsertedRows(I, p, setting, s, rows, next, e);
      hide Effects;
      RangeSize(e.puts.Keys, next, |s.rows|);
    case InsertDefault(_, _) =>
      RangeSize(e.puts.Keys, next, 1);
    case _ =>
  }

  /** A statement uses up as many identities as it writes rows, so the next ones stay free. */
  lemma EffectFresh<V(!new)>(I: Interp<V>, p: Policy, setting: Setting, s: Statement, rows: Rows<V>, next: nat, e: Effect<V>)
    requires Effects(I, p, setting, s, rows, next, e) && Fresh(rows, next)
    ensures Fresh(Apply(rows, e), next + |e.puts|)
  {
    WrittenBelow(I, p, setting, s, rows, next, e);
    hide Effects;
  }

  /** One table, and the connection that a request uses. */
  class Database<V(!new)> {
    const engine: Engine<V>
    var rows: Rows<V>              // committed
    var next: nat                  // identities handed out so far; a rollback does not give them back
    var working: Option<Rows<V>>   // the open transaction's view
    var setting: Setting           // transaction-local

    constructor (engine: Engine<V>)
      requires engine.Sound()
      ensures Idle() && rows == map[] && this.engine == engine
    {
      this.engine := engine;
      rows, next, working, setting := map[], 0, None, Unset;
    }

    ghost predicate Valid()
      reads this
    {
      && engine.Sound()
      && (working.None? ==> setting == Unset)
      && Fresh(rows, next)
      && (working.Some? ==> Fresh(working.value, next))
    }

    /** No transaction is open, and no user is left behind. */
    ghost predicate Idle()
      reads this
    {
      Valid() && working.None?
    }

    method Begin(fault: Option<ApiError>) returns (r: Result<()>)
      requires Idle()
      modifies this`working
      ensures Valid()
      ensures r == if fault.Some? then Err(fault.value) else Ok(())
      ensures working == if fault.Some? then None else Some(rows)
    {
      if fault.Some? {
        return Err(fault.value);
      }
      working := Some(rows);
      r := Ok(());
    }

    /** `set_config('app.current_user_id', $1, true)` */
    method SetConfig(text: string, fails: bool) returns (r: Result<()>)
      requires Valid() && working.Some? && ParseI64(text).Some?
      modifies this`setting
      ensures Valid()
      ensures r == if fails then Err(Internal("failed to set RLS context")) else Ok(())
      ensures setting == if fails then old(setting) else User(ParseI64(text).value)
    {
      if fails {
        return Err(Internal("failed to set RLS context"));
      }
      setting := User(ParseI64(text).value);
      r := Ok(());
    }

    /** The effect of a text on the open transaction, if the database accepts and executes it. */
    function Outcome(sql: string, binds: seq<string>): Option<Effect<V>>
      reads this
      requires working.Some?
    {
      var s :- Denote(sql, binds);
      engine.run(s, setting, working.value, next)
    }

    method FetchAll(sql: string, binds: seq<string>, fault: Option<ApiError>) returns (r: Result<seq<Row<V>>>)
      requires Valid() && working.Some?
      modifies this`working, this`next
      ensures Valid() && working.Some?
      ensures old(next) <= next
      ensures r.Ok? <==> fault.None? && old(Outcome(sql, binds)).Some?
      ensures r.Err? ==> working == old(working)
      ensures r.Ok? ==>
        && var e := old(Outcome(sql, binds)).value;
        && working.value == Apply(old(working.value), e)
        && r.value == Returned(Denote(sql, binds).value, old(working.value), e)
    {
      if fault.Some? {
        return Err(fault.value);
      }
      var e := Outcome(sql, binds);
      if e.None? {
        return Err(Internal("database error"));
      }
      var s := Denote(sql, binds).value;
      EffectFresh(engine.interp, engine.policy, setting, s, working.value, next, e.value);
      hide Denote, Effects, Apply;
      r := Ok(Returned(s, working.value, e.value));
      working := Some(Apply(working.value, e.value));
      next := next + |e.value.puts|;
    }

    method Commit(fault: Option<CommitFault>) returns (r: Result<()>)
      requires Valid() && working.Some?
      modifies this`rows, this`working, this`setting
      ensures Idle()
      ensures r == if fault.Some? then Err(fault.value.error) else Ok(())
      ensures rows == if fault.Some? && fault.value.Lost? then old(rows) else old(working.value)
    {
      if fault.None? || fault.value.Unacknowledged? {
        rows := working.value;
      }
      working, setting := None, Unset;
      r := if fault.Some? then Err(fault.value.error) else Ok(());
    }

    /** An explicit rollback, or the drop of an unfinished transaction. */
    method Rollback()
      requires Valid()
      modifies this`working, this`setting
      ensures Idle()
    {
      working, setting := None, Unset;
    }
  }

  // ---------------------------------------------------------------- one transaction

  function SettingOf(user: Option<CurrentUser>): Setting {
    if user.Some? then User(user.value.id) else Unset
  }

  predicate ValidUser(user: Option<CurrentUser>) {
    user.Some? ==> IsI64(user.value.id)
  }

  /** Executing `s` for `user` on `before` can leave `after` and answer `out`. */
  ghost predicate Executes<V(!new)>(engine: Engine<V>, user: Option<CurrentUser>, s: Statement, before: Rows<V>,
                                    next: nat,
                                    after: Rows<V>, out: seq<Row<V>>) {
    exists e :: Effects(engine.interp, engine.policy, SettingOf(user), s, before, next, e)
             && after == Apply(before, e) && out == Returned(s, before, e)
  }

  /** No step fails and the database executes the statement. */
  ghost predicate Runs<V(!new)>(engine: Engine<V>, user: Option<CurrentUser>, s: Statement, faults: Faults,
                                before: Rows<V>, next: nat) {
    && faults.begin.None? && (user.Some? ==> !faults.config) && faults.fetch.None? && faults.commit.None?
    && engine.run(s, SettingOf(user), before, next).Some?
  }

  /** One transaction from begin to commit: success exactly if nothing fails, and all of its changes or none. */
  ghost predicate AllOrNothing<V(!new)>(engine: Engine<V>, user: Option<CurrentUser>, sql: string, binds: seq<string>,
                                        faults: Faults,
                                        before: Rows<V>, next: nat, after: Rows<V>, r: Result<seq<Row<V>>>) {
    var s := Denote(sql, binds);
    && (r.Ok? <==> s.Some? && Runs(engine, user, s.value, faults, before, next))
    && (r.Ok? ==> Executes(engine, user, s.value, before, next, after, r.value))
    && (r.Err? && after != before ==>
          && faults.commit.Some? && faults.commit.value.Unacknowledged? && s.Some?
          && exists out :: Executes(engine, user, s.value, before, next, after, out))
  }

  method RunStatement<V(!new)>(db: Database<V>, sql: string, binds: seq<string>, user: Option<CurrentUser>,
                               faults: Faults)
    returns (r: Result<seq<Row<V>>>)
    requires db.Idle() && ValidUser(user)
    modifies db
    ensures db.Idle()
    ensures AllOrNothing(db.engine, user, sql, binds, faults, old(db.rows), old(db.next), db.rows, r)
  {
    hide Denote, Effects, Apply, Returned, Fresh;
    var _ :- db.Begin(faults.begin);
    if user.Some? {
      I64RoundTrip(user.value.id);
      var c := db.SetConfig(IntText(user.value.id), faults.config);
      if c.Err? {
        db.Rollback();
        return Err(c.error);
      }
    }
    ghost var e := db.Outcome(sql, binds);
    assert db.setting == SettingOf(user) && db.working.value == old(db.rows);
    var rows := db.FetchAll(sql, binds, faults.fetch);
    if rows.Err? {
      db.Rollback();
      return Err(rows.error);
    }
    assert Executes(db.engine, user, Denote(sql, binds).value, old(db.rows), old(db.next), db.working.value,
      rows.value) by {
      assert Effects(db.engine.interp, db.engine.policy, SettingOf(user), Denote(sql, binds).value, old(db.rows),
        old(db.next), e.value);
    }
    var _ :- db.Commit(faults.commit);
    ghost var committed := db.rows;
    var out: seq<Row<V>> := [];
    for i := 0 to |rows.value|
      invariant out == rows.value[..i]
      invariant db.Idle() && db.rows == committed
    {
      out := out + [rows.value[i]];
    }
    r := Ok(out);
  }

  // ---------------------------------------------------------------- the executors

  /** The text that the builders emit for a statement. */
  function SentText(s: Statement): string {
    if s.Select? then PatchedText(s) else StatementText(s)
  }

  /**
   * A request on a table of any name: it is refused and changes nothing, or the statement that the
   * database reads from its text is done as a whole, or not at all.
   */
  ghost predicate Sent<V(!new)>(engine: Engine<V>, user: Option<CurrentUser>, request: Result<Statement>,
                                faults: Faults,
                                before: Rows<V>, next: nat, after: Rows<V>, r: Result<seq<Row<V>>>) {
    match request
    case Ok(s) => AllOrNothing(engine, user, SentText(s), StatementBinds(s), faults, before, next, after, r)
    case Err(e) => r == Err(e) && after == before
  }

  /** A request on known table names: it is refused, or done as a whole, or not done at all. */
  ghost predicate Answered<V(!new)>(engine: Engine<V>, user: Option<CurrentUser>, request: Result<Statement>,
                                    faults: Faults,
                                    before: Rows<V>, next: nat, after: Rows<V>, r: Result<seq<Row<V>>>) {
    && (request.Err? ==> r == Err(request.error) && after == before)
    && (r.Ok? <==> request.Ok? && Runs(engine, user, request.value, faults, before, next))
    && (r.Ok? ==> Executes(engine, user, request.value, before, next, after, r.value))
    && (r.Err? && after != before ==>
          && faults.commit.Some? && faults.commit.value.Unacknowledged? && request.Ok?
          && exists out :: Executes(engine, user, request.value, before, next, after, out))
  }

  lemma SentAnswers<V(!new)>(engine: Engine<V>, user: Option<CurrentUser>, request: Result<Statement>, faults: Faults,
                             before: Rows<V>, next: nat, after: Rows<V>, r: Result<seq<Row<V>>>)
    requires Sent(engine, user, request, faults, before, next, after, r)
    requires request.Ok? ==> Denote(SentText(request.value), StatementBinds(request.value)) == Some(request.value)
    ensures Answered(engine, user, request, faults, before, next, after, r)
  {
    hide Denote, Executes, StatementBinds, SentText;
  }

  /** The table's names can be read back from a SELECT with these options. */
  ghost predicate PlainTable(meta: TableMeta, opts: QueryOptions) {
    && ValidName(meta.schema) && ValidName(meta.name)
    && (opts.limit.Some? ==> FreeOf(meta.schema, LIM) && FreeOf(meta.name, LIM))
    && (opts.offset.Some? ==> FreeOf(meta.schema, OFF) && FreeOf(meta.name, OFF))
  }

  method SelectRows<V(!new)>(db: Database<V>, meta: Result<TableMeta>, opts: QueryOptions, user: Option<CurrentUser>,
                             faults: Faults)
    returns (r: Result<seq<Row<V>>>)
    requires db.Idle() && ValidUser(user)
    modifies db
    ensures db.Idle()
    ensures meta.Err? ==> r == Err(meta.error) && db.rows == old(db.rows)
    ensures meta.Ok? ==> Sent(db.engine, user, SelectRequest(meta.value, opts), faults, old(db.rows), old(db.next), db.rows, r)
    ensures meta.Ok? && PlainTable(meta.value, opts) ==>
      Answered(db.engine, user, SelectRequest(meta.value, opts), faults, old(db.rows), old(db.next), db.rows, r)
  {
    hide Answered, AllOrNothing, Denote, SelectRequest, PatchedText, StatementText, StatementBinds, FreeOf;
    var m :- meta;
    var built := BuildSelectSql(m, opts);
    if built.Err? {
      r := Err(built.error);
    } else {
      RequestTable(m, opts);
      assert SentText(SelectRequest(m, opts).value) == built.value.0;
      r := RunStatement(db, built.value.0, built.value.1, user, faults);
    }
    if PlainTable(m, opts) {
      if built.Ok? {
        SelectMeansRequest(m, opts);
      }
      SentAnswers(db.engine, user, SelectRequest(m, opts), faults, old(db.rows), old(db.next), db.rows, r);
    }
  }

  lemma InsertIsInsert(meta: TableMeta, body: Json, user: Option<CurrentUser>)
    requires InsertRequest(meta, body, user).Ok?
    ensures var s := InsertRequest(meta, body, user).value; s.Insert? || s.InsertDefault?
  {
  }

  lemma UpdateIsUpdate(meta: TableMeta, body: Json, opts: QueryOptions, user: Option<CurrentUser>)
    requires UpdateRequest(meta, body, opts, user).Ok?
    ensures UpdateRequest(meta, body, opts, user).value.Update?
  {
  }

  lemma DeleteIsDelete(meta: TableMeta, opts: QueryOptions)
    requires DeleteRequest(meta, opts).Ok?
    ensures DeleteRequest(meta, opts).value.Delete?
  {
  }

  method InsertRows<V(!new)>(db: Database<V>, meta: Result<TableMeta>, body: Json, user: Option<CurrentUser>,
                             faults: Faults)
    returns (r: Result<seq<Row<V>>>)
    requires db.Idle() && ValidUser(user)
    modifies db
    ensures db.Idle()
    ensures meta.Err? ==> r == Err(meta.error) && db.rows == old(db.rows)
    ensures meta.Ok? ==> Sent(db.engine, user, InsertRequest(meta.value, body, user), faults, old(db.rows), old(db.next), db.rows, r)
    ensures meta.Ok? && ValidName(meta.value.schema) && ValidName(meta.value.name) ==>
      Answered(db.engine, user, InsertRequest(meta.value, body, user), faults, old(db.rows), old(db.next), db.rows, r)
  {
    hide Answered, AllOrNothing, Denote, InsertRequest, PatchedText, StatementText, StatementBinds, FreeOf;
    var m :- meta;
    var built := BuildInsertSql(m, body, user);
    if built.Err? {
      r := Err(built.error);
    } else {
      InsertIsInsert(m, body, user);
      assert SentText(InsertRequest(m, body, user).value) == built.value.0;
      r := RunStatement(db, built.value.0, built.value.1, user, faults);
    }
    if ValidName(m.schema) && ValidName(m.name) {
      if built.Ok? {
        InsertMeansRequest(m, body, user);
      }
      SentAnswers(db.engine, user, InsertRequest(m, body, user), faults, old(db.rows), old(db.next), db.rows, r);
    }
  }

  method UpdateRows<V(!new)>(db: Database<V>, meta: Result<TableMeta>, body: Json, opts: QueryOptions,
                             user: Option<CurrentUser>, faults: Faults)
    returns (r: Result<seq<Row<V>>>)
    requires db.Idle() && ValidUser(user)
    modifies db
    ensures db.Idle()
    ensures meta.Err? ==> r == Err(meta.error) && db.rows == old(db.rows)
    ensures meta.Ok? ==> Sent(db.engine, user, UpdateRequest(meta.value, body, opts, user), faults, old(db.rows), old(db.next), db.rows, r)
    ensures meta.Ok? && ValidName(meta.value.schema) && ValidName(meta.value.name) ==>
      Answered(db.engine, user, UpdateRequest(meta.value, body, opts, user), faults, old(db.rows), old(db.next),
        db.rows, r)
  {
    hide Answered, AllOrNothing, Denote, UpdateRequest, PatchedText, StatementText, StatementBinds, FreeOf;
    var m :- meta;
    var built := BuildUpdateSql(m, body, opts, user);
    if built.Err? {
      r := Err(built.error);
    } else {
      UpdateIsUpdate(m, body, opts, user);
      assert SentText(UpdateRequest(m, body, opts, user).value) == built.value.0;
      r := RunStatement(db, built.value.0, built.value.1, user, faults);
    }
    if ValidName(m.schema) && ValidName(m.name) {
      if built.Ok? {
        UpdateMeansRequest(m, body, opts, user);
      }
      SentAnswers(db.engine, user, UpdateRequest(m, body, opts, user), faults, old(db.rows), old(db.next), db.rows, r);
    }
  }

  method DeleteRows<V(!new)>(db: Database<V>, meta: Result<TableMeta>, opts: QueryOptions, user: Option<CurrentUser>,
                             faults: Faults)
    returns (r: Result<seq<Row<V>>>)
    requires db.Idle() && ValidUser(user)
    modifies db
    ensures db.Idle()
    ensures meta.Err? ==> r == Err(meta.error) && db.rows == old(db.rows)
    ensures meta.Ok? ==> Sent(db.engine, user, DeleteRequest(meta.value, opts), faults, old(db.rows), old(db.next), db.rows, r)
    ensures meta.Ok? && ValidName(meta.value.schema) && ValidName(meta.value.name) ==>
      Answered(db.engine, user, DeleteRequest(meta.value, opts), faults, old(db.rows), old(db.next), db.rows, r)
  {
    hide Answered, AllOrNothing, Denote, DeleteRequest, PatchedText, StatementText, StatementBinds, FreeOf;
    var m :- meta;
    var built := BuildDeleteSql(m, opts);
    if built.Err? {
      r := Err(built.error);
    } else {
      DeleteIsDelete(m, opts);
      assert SentText(DeleteRequest(m, opts).value) == built.value.0;
      r := RunStatement(db, built.value.0, built.value.1, user, faults);
    }
    if ValidName(m.schema) && ValidName(m.name) {
      if built.Ok? {
        DeleteMeansRequest(m, opts);
      }
      SentAnswers(db.engine, user, DeleteRequest(m, opts), faults, old(db.rows), old(db.next), db.rows, r);
    }
  }

  /** A SELECT never changes the table, whatever happens. */
  lemma SelectChangesNothing<V(!new)>(engine: Engine<V>, user: Option<CurrentUser>, meta: TableMeta,
                                      opts: QueryOptions, faults: Faults,
                                      before: Rows<V>, next: nat, after: Rows<V>, r: Result<seq<Row<V>>>)
    requires Answered(engine, user, SelectRequest(meta, opts), faults, before, next, after, r)
    ensures after == before
  {
    if after != before {
      RequestTable(meta, opts);
      hide Effects, SelectRequest;
      var s := SelectRequest(meta, opts).value;
      var out :| Executes(engine, user, s, before, next, after, out);
      var e :| Effects(engine.interp, engine.policy, SettingOf(user), s, before, next, e)
        && after == Apply(before, e) && out == Returned(s, before, e);
      SelectWritesNothing(engine.interp, engine.policy, SettingOf(user), s, before, next, e);
    }
  }

  lemma SelectWritesNothing<V(!new)>(I: Interp<V>, p: Policy, setting: Setting, s: Statement, rows: Rows<V>,
                                     next: nat, e: Effect<V>)
    requires s.Select? && Effects(I, p, setting, s, rows, next, e)
    ensures Apply(rows, e) == rows
  {
  }
}
