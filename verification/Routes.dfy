/** The four handlers of `virtual_crud/routes.rs`, from the exposure check to the executor. */
module Routes {
  import opened Wrappers
  import opened Text
  import opened Catalog
  import opened SqlStatements
  import opened SqlMeaning
  import opened Registry
  import opened SelectBuilder
  import opened InsertBuilder
  import opened UpdateBuilder
  import opened DeleteBuilder
  import opened Executors
  import QP = QueryParser

  const SCHEMA := "public"

  /** How the five queries that a request can put to the registry and the catalog go. */
  datatype Queries = Queries(registry: Query, config: Query, table: Query, columns: Query, key: Query)

  /** At an instant of the interval the registry was absent, or exposed the table to such a caller. */
  ghost predicate Admitted(world: World, table: string, authenticated: bool, from: int, to: nat) {
    || ExistsBetween(world, false, from, to)
    || ExposedBetween(world, table, false, from, to)
    || (authenticated && ExposedBetween(world, table, true, from, to))
  }

  /**
   * What can have made the gate refuse: 401 for an anonymous caller of a table that required authentication
   * at an instant since `oldest`, 404 for one that was not exposed, 500 for a failed query or a registry
   * that was dropped during the call.
   */
  ghost predicate Refused(world: World, table: string, authenticated: bool, q: Queries, e: ApiError,
                          oldest: int, from: nat, to: nat) {
    match e
    case Unauthorized(message) =>
      && message == "Authentication required" && !authenticated
      && ExposedBetween(world, table, true, oldest, to)
    case NotFound(_) => HiddenBetween(world, table, oldest, to)
    case Internal(_) => q.registry.fails || q.config.fails || ExistsBetween(world, false, from, to)
    case _ => false
  }

  /** What every handler does first. */
  method Gate(cache: RegistryCache, table: string, user: Option<CurrentUser>, q: Queries) returns (r: Result<()>)
    requires cache.Valid()
    modifies cache`now, cache`slowest, cache`tableExists, cache`tableConfig
    ensures cache.Valid() && cache.Later()
    ensures r.Ok? ==> Admitted(cache.world, table, user.Some?, Oldest(cache.now, cache.slowest), cache.now)
    ensures r.Err? ==>
      Refused(cache.world, table, user.Some?, q, r.error, Oldest(cache.now, cache.slowest), old(cache.now), cache.now)
  {
    hide ExistsBetween, ExposedBetween, HiddenBetween, Loaded, NotLoaded;
    var exposed := cache.EnsureExposed(table, q.registry, q.config);
    if exposed.Err? {
      return Err(exposed.error);
    }
    if exposed.value && user.None? {
      return Err(Unauthorized("Authentication required"));
    }
    r := Ok(());
  }

  lemma AdmittedWider(world: World, table: string, authenticated: bool, from: int, to: nat, from2: int)
    requires Admitted(world, table, authenticated, from, to) && from2 <= from
    ensures Admitted(world, table, authenticated, from2, to)
  {
    hide ExistsBetween, ExposedBetween;
    if ExistsBetween(world, false, from, to) {
      ExistsWider(world, false, from, to, from2, to);
    } else if ExposedBetween(world, table, false, from, to) {
      ExposedWider(world, table, false, from, to, from2, to);
    } else {
      ExposedWider(world, table, true, from, to, from2, to);
    }
  }

  lemma RefusedWider(world: World, table: string, authenticated: bool, q: Queries, e: ApiError,
                     oldest: int, from: nat, to: nat, oldest2: int, to2: nat)
    requires Refused(world, table, authenticated, q, e, oldest, from, to) && oldest2 <= oldest && to <= to2
    ensures Refused(world, table, authenticated, q, e, oldest2, from, to2)
  {
    hide ExistsBetween, ExposedBetween, HiddenBetween;
    match e
    case Unauthorized(_) => ExposedWider(world, table, true, oldest, to, oldest2, to2);
    case NotFound(_) => HiddenWider(world, table, oldest, to, oldest2, to2);
    case Internal(_) =>
      if ExistsBetween(world, false, from, to) {
        ExistsWider(world, false, from, to, from, to2);
      }
    case _ =>
  }

  /** Only the handlers fill the metadata cache, always under their fixed schema. */
  ghost predicate Public(metas: map<string, Entry<TableMeta>>) {
    forall k | k in metas :: metas[k].value.schema == SCHEMA
  }

  lemma PublicKept(before: map<string, Entry<TableMeta>>, after: map<string, Entry<TableMeta>>, k: string)
    requires Public(before) && k in after && after[k].value.schema == SCHEMA && after == before[k := after[k]]
    ensures Public(after)
  {
  }

  lemma PublicHit(metas: map<string, Entry<TableMeta>>, k: string)
    requires Public(metas) && k in metas
    ensures '.' !in metas[k].value.schema
  {
  }

  /** What can have made the metadata unavailable: 404 for a table absent during the call, 500 for a failed query. */
  ghost predicate NoMeta(world: World, table: string, q: Queries, e: ApiError, from: nat, to: nat) {
    if e.NotFound? then Absent(world, SCHEMA, table, from, to)
    else e.Internal? && (q.table.fails || q.columns.fails || q.key.fails)
  }

  lemma NoMetaWider(world: World, table: string, q: Queries, e: ApiError, from: nat, to: nat, from2: nat)
    requires NoMeta(world, table, q, e, from, to) && from2 <= from
    ensures NoMeta(world, table, q, e, from2, to)
  {
    if e.NotFound? {
      var t: nat :| from <= t <= to && (SCHEMA, table) !in At(world, t).tables;
      AbsentAt(world, SCHEMA, table, from2, t, to);
    }
  }

  /** `load_table_meta(state, "public", table)` */
  method LoadMeta(cache: RegistryCache, table: string, q: Queries) returns (r: Result<TableMeta>)
    requires cache.Valid() && Public(cache.tableMeta)
    modifies cache`now, cache`slowest, cache`tableMeta
    ensures cache.Valid() && Public(cache.tableMeta) && cache.Later()
    ensures r.Ok? ==>
      && MetaBetween(cache.world, r.value, Oldest(cache.now, cache.slowest), cache.now)
      && r.value.schema == "public" && r.value.name == table
    ensures r.Err? ==> NoMeta(cache.world, table, q, r.error, old(cache.now), cache.now)
  {
    hide MetaBetween, CacheKey, Public, ExistsCacheOk, ConfigCacheOk, MetaCacheOk, LoadsWithin, Absent;
    var key := CacheKey(SCHEMA, table);
    r := cache.LoadTableMeta(SCHEMA, table, q.table, q.columns, q.key);
    if cache.tableMeta != old(cache.tableMeta) {
      PublicKept(old(cache.tableMeta), cache.tableMeta, key);
    }
    if r.Ok? {
      PublicHit(cache.tableMeta, key);
      CacheKeyInjective(r.value.schema, r.value.name, SCHEMA, table);
    }
  }

  // ---------------------------------------------------------------- what a handler promises

  /**
   * The executor ran on metadata of the requested table, after the registry had let the caller pass, each
   * seen within its staleness window (`d` is the longest load). The statement sent is all or nothing, and
   * it is the request, for a name that can be read back.
   */
  ghost predicate Executed<V(!new)>(world: World, engine: Engine<V>, table: string, user: Option<CurrentUser>,
                                    request: TableMeta -> Result<Statement>, readable: bool, faults: Faults,
                                    before: Rows<V>, next: nat, after: Rows<V>, r: Result<seq<Row<V>>>,
                                    from: nat, d: nat, to: nat) {
    exists t: nat, t2: nat, meta: TableMeta ::
      && from <= t <= t2 <= to
      && Admitted(world, table, user.Some?, Oldest(t, d), t)
      && MetaBetween(world, meta, Oldest(t2, d), t2) && meta.schema == "public" && meta.name == table
      && Sent(engine, user, request(meta), faults, before, next, after, r)
      && (readable ==> Answered(engine, user, request(meta), faults, before, next, after, r))
  }

  /** The request was turned away, and the table is as before. */
  ghost predicate Rejected<V(!new)>(world: World, table: string, user: Option<CurrentUser>, q: Queries,
                                    before: Rows<V>, after: Rows<V>, r: Result<seq<Row<V>>>, from: nat, d: nat, to: nat) {
    && r.Err? && after == before
    && (Refused(world, table, user.Some?, q, r.error, Oldest(from, d), from, to) || NoMeta(world, table, q, r.error, from, to))
  }

  ghost predicate Handled<V(!new)>(world: World, engine: Engine<V>, table: string, user: Option<CurrentUser>, q: Queries,
                                   request: TableMeta -> Result<Statement>, readable: bool, faults: Faults,
                                   before: Rows<V>, next: nat, after: Rows<V>, r: Result<seq<Row<V>>>,
                                   from: nat, d: nat, to: nat) {
    || Rejected(world, table, user, q, before, after, r, from, d, to)
    || Executed(world, engine, table, user, request, readable, faults, before, next, after, r, from, d, to)
  }

  lemma Done<V(!new)>(world: World, engine: Engine<V>, table: string, user: Option<CurrentUser>, q: Queries,
                      request: TableMeta -> Result<Statement>, readable: bool, faults: Faults,
                      before: Rows<V>, next: nat, after: Rows<V>, r: Result<seq<Row<V>>>,
                      from: nat, t: nat, d1: nat, to: nat, d: nat, meta: Result<TableMeta>)
    requires from <= t <= to && d1 <= d && Admitted(world, table, user.Some?, Oldest(t, d1), t)
    requires meta.Err? ==> NoMeta(world, table, q, meta.error, t, to) && r == Err(meta.error) && after == before
    requires meta.Ok? ==>
      && MetaBetween(world, meta.value, Oldest(to, d), to) && meta.value.schema == "public" && meta.value.name == table
      && Sent(engine, user, request(meta.value), faults, before, next, after, r)
      && (readable ==> Answered(engine, user, request(meta.value), faults, before, next, after, r))
    ensures Handled(world, engine, table, user, q, request, readable, faults, before, next, after, r, from, d, to)
  {
    hide Admitted, MetaBetween, Answered, Sent, NoMeta, Refused;
    AdmittedWider(world, table, user.Some?, Oldest(t, d1), t, Oldest(t, d));
    if meta.Err? {
      NoMetaWider(world, table, q, meta.error, t, to, from);
    }
  }

  lemma NotDone<V(!new)>(world: World, table: string, user: Option<CurrentUser>, q: Queries, rows: Rows<V>, e: ApiError,
                         oldest: int, from: nat, d: nat, to: nat)
    requires Refused(world, table, user.Some?, q, e, oldest, from, to) && Oldest(from, d) <= oldest
    ensures Rejected<V>(world, table, user, q, rows, rows, Err(e), from, d, to)
  {
    RefusedWider(world, table, user.Some?, q, e, oldest, from, to, Oldest(from, d), to);
    hide Refused, NoMeta;
  }

  /** The name can be read back from the SELECT. */
  ghost predicate PlainName(table: string, opts: QueryOptions) {
    PlainTable(TableMeta(SCHEMA, table, [], []), opts)
  }

  lemma HandledRejected<V(!new)>(world: World, engine: Engine<V>, table: string, user: Option<CurrentUser>, q: Queries,
                                 request: TableMeta -> Result<Statement>, readable: bool, faults: Faults,
                                 rows: Rows<V>, next: nat, r: Result<seq<Row<V>>>, from: nat, d: nat, to: nat)
    requires Rejected(world, table, user, q, rows, rows, r, from, d, to)
    ensures Handled(world, engine, table, user, q, request, readable, faults, rows, next, rows, r, from, d, to)
  {
    hide Rejected, Executed;
  }

  /** GET: rows of the table. */
  method ListHandler<V(!new)>(cache: RegistryCache, db: Database<V>, table: string, query: map<string, string>,
                              keys: seq<string>, user: Option<CurrentUser>, q: Queries, faults: Faults)
    returns (r: Result<seq<Row<V>>>)
    requires cache.Valid() && Public(cache.tableMeta) && db.Idle() && ValidUser(user) && QP.Enumerates(keys, query)
    modifies cache, db
    ensures cache.Valid() && cache.Later() && Public(cache.tableMeta) && db.Idle()
    ensures QP.Parse(query, keys).Ok? ==>
      var opts := QP.Parse(query, keys).value;
      Handled(cache.world, db.engine, table, user, q, m => SelectRequest(m, opts), PlainName(table, opts), faults,
              old(db.rows), old(db.next), db.rows, r, old(cache.now), cache.slowest, cache.now)
    ensures QP.Parse(query, keys).Err? ==>
      || (r == Err(QP.Parse(query, keys).error) && db.rows == old(db.rows))
      || Rejected(cache.world, table, user, q, old(db.rows), db.rows, r, old(cache.now), cache.slowest, cache.now)
  {
    hide Admitted, MetaBetween, Answered, Sent, Handled, Rejected, Refused, NoMeta, SelectRequest, InsertRequest, UpdateRequest,
      DeleteRequest, QP.Parse, FreeOf, ExistsCacheOk, ConfigCacheOk, MetaCacheOk, LoadsWithin, Public, Distinct, Fresh;
    var g := Gate(cache, table, user, q);
    if g.Err? {
      r := Err(g.error);
      NotDone(cache.world, table, user, q, db.rows, g.error, Oldest(cache.now, cache.slowest), old(cache.now),
        cache.slowest, cache.now);
      if QP.Parse(query, keys).Ok? {
        var opts := QP.Parse(query, keys).value;
        HandledRejected(cache.world, db.engine, table, user, q, m => SelectRequest(m, opts), PlainName(table, opts), faults,
          db.rows, db.next, r, old(cache.now), cache.slowest, cache.now);
      }
      return;
    }
    ghost var t, d := cache.now, cache.slowest;
    var parsed := QP.ParseQueryOptions(query, keys);
    if parsed.Err? {
      return Err(parsed.error);
    }
    var opts := parsed.value;
    var meta := LoadMeta(cache, table, q);
    r := SelectRows(db, meta, opts, user, faults);
    Done(cache.world, db.engine, table, user, q, m => SelectRequest(m, opts), PlainName(table, opts), faults, old(db.rows), old(db.next),
      db.rows, r, old(cache.now), t, d, cache.now, cache.slowest, meta);
  }

  /** POST: one object or an array of objects; the query string is not looked at. */
  method InsertHandler<V(!new)>(cache: RegistryCache, db: Database<V>, table: string, body: Json, user: Option<CurrentUser>,
                                q: Queries, faults: Faults)
    returns (r: Result<seq<Row<V>>>)
    requires cache.Valid() && Public(cache.tableMeta) && db.Idle() && ValidUser(user)
    modifies cache, db
    ensures cache.Valid() && cache.Later() && Public(cache.tableMeta) && db.Idle()
    ensures Handled(cache.world, db.engine, table, user, q, m => InsertRequest(m, body, user), ValidName(table), faults,
              old(db.rows), old(db.next), db.rows, r, old(cache.now), cache.slowest, cache.now)
  {
    hide Admitted, MetaBetween, Answered, Sent, Handled, Rejected, Refused, NoMeta, SelectRequest, InsertRequest, UpdateRequest,
      DeleteRequest, QP.Parse, FreeOf, ExistsCacheOk, ConfigCacheOk, MetaCacheOk, LoadsWithin, Public, Distinct, Fresh;
    var g := Gate(cache, table, user, q);
    if g.Err? {
      r := Err(g.error);
      NotDone(cache.world, table, user, q, db.rows, g.error, Oldest(cache.now, cache.slowest), old(cache.now),
        cache.slowest, cache.now);
      HandledRejected(cache.world, db.engine, table, user, q, m => InsertRequest(m, body, user), ValidName(table), faults,
        db.rows, db.next, r, old(cache.now), cache.slowest, cache.now);
      return;
    }
    ghost var t, d := cache.now, cache.slowest;
    var meta := LoadMeta(cache, table, q);
    r := InsertRows(db, meta, body, user, faults);
    Done(cache.world, db.engine, table, user, q, m => InsertRequest(m, body, user), ValidName(table), faults, old(db.rows), old(db.next),
      db.rows, r, old(cache.now), t, d, cache.now, cache.slowest, meta);
  }

  /** PATCH: the body's columns on the rows that the filters match. */
  method UpdateHandler<V(!new)>(cache: RegistryCache, db: Database<V>, table: string, query: map<string, string>,
                                keys: seq<string>, body: Json, user: Option<CurrentUser>, q: Queries, faults: Faults)
    returns (r: Result<seq<Row<V>>>)
    requires cache.Valid() && Public(cache.tableMeta) && db.Idle() && ValidUser(user) && QP.Enumerates(keys, query)
    modifies cache, db
    ensures cache.Valid() && cache.Later() && Public(cache.tableMeta) && db.Idle()
    ensures QP.Parse(query, keys).Ok? ==>
      var opts := QP.Parse(query, keys).value;
      Handled(cache.world, db.engine, table, user, q, m => UpdateRequest(m, body, opts, user), ValidName(table), faults,
              old(db.rows), old(db.next), db.rows, r, old(cache.now), cache.slowest, cache.now)
    ensures QP.Parse(query, keys).Err? ==>
      || (r == Err(QP.Parse(query, keys).error) && db.rows == old(db.rows))
      || Rejected(cache.world, table, user, q, old(db.rows), db.rows, r, old(cache.now), cache.slowest, cache.now)
  {
    hide Admitted, MetaBetween, Answered, Sent, Handled, Rejected, Refused, NoMeta, SelectRequest, InsertRequest, UpdateRequest,
      DeleteRequest, QP.Parse, FreeOf, ExistsCacheOk, ConfigCacheOk, MetaCacheOk, LoadsWithin, Public, Distinct, Fresh;
    var g := Gate(cache, table, user, q);
    if g.Err? {
      r := Err(g.error);
      NotDone(cache.world, table, user, q, db.rows, g.error, Oldest(cache.now, cache.slowest), old(cache.now),
        cache.slowest, cache.now);
      if QP.Parse(query, keys).Ok? {
        var opts := QP.Parse(query, keys).value;
        HandledRejected(cache.world, db.engine, table, user, q, m => UpdateRequest(m, body, opts, user), ValidName(table), faults,
          db.rows, db.next, r, old(cache.now), cache.slowest, cache.now);
      }
      return;
    }
    ghost var t, d := cache.now, cache.slowest;
    var parsed := QP.ParseQueryOptions(query, keys);
    if parsed.Err? {
      return Err(parsed.error);
    }
    var opts := parsed.value;
    var meta := LoadMeta(cache, table, q);
    r := UpdateRows(db, meta, body, opts, user, faults);
    Done(cache.world, db.engine, table, user, q, m => UpdateRequest(m, body, opts, user), ValidName(table), faults, old(db.rows), old(db.next),
      db.rows, r, old(cache.now), t, d, cache.now, cache.slowest, meta);
  }

  /** DELETE: the rows that the filters match. */
  method DeleteHandler<V(!new)>(cache: RegistryCache, db: Database<V>, table: string, query: map<string, string>,
                                keys: seq<string>, user: Option<CurrentUser>, q: Queries, faults: Faults)
    returns (r: Result<seq<Row<V>>>)
    requires cache.Valid() && Public(cache.tableMeta) && db.Idle() && ValidUser(user) && QP.Enumerates(keys, query)
    modifies cache, db
    ensures cache.Valid() && cache.Later() && Public(cache.tableMeta) && db.Idle()
    ensures QP.Parse(query, keys).Ok? ==>
      var opts := QP.Parse(query, keys).value;
      Handled(cache.world, db.engine, table, user, q, m => DeleteRequest(m, opts), ValidName(table), faults,
              old(db.rows), old(db.next), db.rows, r, old(cache.now), cache.slowest, cache.now)
    ensures QP.Parse(query, keys).Err? ==>
      || (r == Err(QP.Parse(query, keys).error) && db.rows == old(db.rows))
      || Rejected(cache.world, table, user, q, old(db.rows), db.rows, r, old(cache.now), cache.slowest, cache.now)
  {
    hide Admitted, MetaBetween, Answered, Sent, Handled, Rejected, Refused, NoMeta, SelectRequest, InsertRequest, UpdateRequest,
      DeleteRequest, QP.Parse, FreeOf, ExistsCacheOk, ConfigCacheOk, MetaCacheOk, LoadsWithin, Public, Distinct, Fresh;
    var g := Gate(cache, table, user, q);
    if g.Err? {
      r := Err(g.error);
      NotDone(cache.world, table, user, q, db.rows, g.error, Oldest(cache.now, cache.slowest), old(cache.now),
        cache.slowest, cache.now);
      if QP.Parse(query, keys).Ok? {
        var opts := QP.Parse(query, keys).value;
        HandledRejected(cache.world, db.engine, table, user, q, m => DeleteRequest(m, opts), ValidName(table), faults,
          db.rows, db.next, r, old(cache.now), cache.slowest, cache.now);
      }
      return;
    }
    ghost var t, d := cache.now, cache.slowest;
    var parsed := QP.ParseQueryOptions(query, keys);
    if parsed.Err? {
      return Err(parsed.error);
    }
    var opts := parsed.value;
    var meta := LoadMeta(cache, table, q);
    r := DeleteRows(db, meta, opts, user, faults);
    Done(cache.world, db.engine, table, user, q, m => DeleteRequest(m, opts), ValidName(table), faults, old(db.rows), old(db.next),
      db.rows, r, old(cache.now), t, d, cache.now, cache.slowest, meta);
  }
}
