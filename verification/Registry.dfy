/** `virtual_crud/registry`: what the database holds, the three caches in front of it, and the load functions. */
module Registry {
  import opened Wrappers
  import opened Text
  import opened Catalog

  // ---------------------------------------------------------------- the database

  datatype OxydTableConfig = OxydTableConfig(
    tableName: string,
    isExposed: bool,
    requireAuth: bool,
    allowInsert: bool,
    allowUpdate: bool,
    allowDelete: bool,
    description: Option<string>)

  datatype Shape = Shape(columns: seq<ColumnMeta>, primaryKey: seq<string>)

  /** The registry table, if it exists, and the tables of the catalog, at one instant. */
  datatype Db = Db(registry: Option<map<string, OxydTableConfig>>, tables: map<(string, string), Shape>)

  /** The database over time, in milliseconds; anybody may write to it at any instant. */
  type World = nat -> Db

  function At(world: World, t: nat): Db {
    world(t)
  }

  const TTL: nat := 60_000

  /** The configuration that stands for an unregistered table. */
  function LockedDown(table: string): OxydTableConfig {
    OxydTableConfig(table, false, true, false, false, false, None)
  }

  function ConfigAt(db: Db, table: string): OxydTableConfig
    requires db.registry.Some?
  {
    if table in db.registry.value then db.registry.value[table] else LockedDown(table)
  }

  function ColumnsAt(db: Db, schema: string, table: string): seq<ColumnMeta> {
    if (schema, table) in db.tables then db.tables[(schema, table)].columns else []
  }

  function KeyAt(db: Db, schema: string, table: string): seq<string> {
    if (schema, table) in db.tables then db.tables[(schema, table)].primaryKey else []
  }

  /** `ensure_exposed` on a loaded configuration. */
  function Exposure(cfg: Option<OxydTableConfig>, table: string): Result<bool> {
    match cfg
    case None => Ok(false)
    case Some(c) => if c.isExposed then Ok(c.requireAuth) else Err(NotFound("table '" + table + "' not exposed"))
  }

  // ---------------------------------------------------------------- cached values

  /** A value read at `readAt` by a load that lasted from `began` to `inserted`. */
  datatype Entry<T> = Entry(value: T, began: nat, readAt: nat, inserted: nat)
  {
    predicate Timely(now: nat) {
      began <= readAt <= inserted <= now
    }

    /** A load that began at `from` has just put it into the cache. */
    predicate LoadedIn(from: nat, now: nat) {
      began == from && inserted == now && Timely(now)
    }

    /** How long the load took. */
    function Duration(): int {
      inserted - began
    }

    /** The cache still returns the entry. */
    predicate Alive(now: nat) {
      now < inserted + TTL
    }
  }

  predicate ExistsOk(world: World, e: Entry<bool>) {
    e.value == At(world, e.readAt).registry.Some?
  }

  predicate ConfigOk(world: World, table: string, e: Entry<Option<OxydTableConfig>>) {
    At(world, e.readAt).registry.Some? && e.value == Some(ConfigAt(At(world, e.readAt), table))
  }

  /** Existence, columns and key may each come from another instant of the load; `readAt` is the first. */
  ghost predicate MetaOk(world: World, e: Entry<TableMeta>) {
    && (e.value.schema, e.value.name) in At(world, e.readAt).tables
    && exists t2: nat, t3: nat ::
      && e.readAt <= t2 <= t3 <= e.inserted
      && e.value.columns == ColumnsAt(At(world, t2), e.value.schema, e.value.name)
      && e.value.primaryKey == KeyAt(At(world, t3), e.value.schema, e.value.name)
  }

  /** `format!("{}.{}", schema, table)` */
  function CacheKey(schema: string, table: string): string {
    schema + "." + table
  }

  /** Keys of schemas without a dot are never confused. */
  lemma CacheKeyInjective(s1: string, t1: string, s2: string, t2: string)
    requires '.' !in s1 && '.' !in s2 && CacheKey(s1, t1) == CacheKey(s2, t2)
    ensures s1 == s2 && t1 == t2
  {
    assert "." == ['.'];
    SplitOnceJoined(s1, '.', t1);
    SplitOnceJoined(s2, '.', t2);
  }

  /** Two schemas have tables that share a cache entry exactly if one begins with the other and a dot. */
  lemma KeysCollideIff(s1: string, s2: string)
    requires s1 != s2
    ensures (exists t1, t2 :: CacheKey(s1, t1) == CacheKey(s2, t2)) <==> s1 + "." <= s2 || s2 + "." <= s1
  {
    if s1 + "." <= s2 {
      KeysCollide(s1, s2);
    }
    if s2 + "." <= s1 {
      KeysCollide(s2, s1);
    }
    forall t1, t2 | CacheKey(s1, t1) == CacheKey(s2, t2) ensures s1 + "." <= s2 || s2 + "." <= s1 {
      var k := CacheKey(s1, t1);
      assert k[..|s1|] == s1 && k[|s1|] == '.' && k[..|s2|] == s2 && k[|s2|] == '.';
      if |s1| < |s2| {
        assert s2[..|s1|] == s1 && s2[|s1|] == '.';
        assert s2[..|s1| + 1] == s1 + ".";
      } else if |s2| < |s1| {
        assert s1[..|s2|] == s2 && s1[|s2|] == '.';
        assert s1[..|s2| + 1] == s2 + ".";
      }
    }
  }

  lemma KeysCollide(s1: string, s2: string)
    requires s1 + "." <= s2
    ensures CacheKey(s1, s2[|s1| + 1..] + ".c") == CacheKey(s2, "c")
  {
    var rest := s2[|s1| + 1..];
    assert s2 == s1 + "." + rest;
    assert rest + ".c" == rest + "." + "c";
  }

  /** So two different tables can share an entry. */
  lemma CacheKeyCollides()
    ensures ("a.b", "c") != ("a", "b.c") && CacheKey("a.b", "c") == CacheKey("a", "b.c")
  {
    assert "a.b" + "." + "c" == "a" + "." + "b.c";
    assert "a.b" != "a" by {
      assert |"a.b"| != |"a"|;
    }
  }

  // ---------------------------------------------------------------- the caches and their loads

  /** How long one query takes until its instant and after it, and whether it fails. */
  datatype Query = Query(before: nat, after: nat, fails: bool)

  /** The earliest instant that an entry still returned at `now` can be from, if its load took `d`: sixty seconds and that. */
  function Oldest(now: nat, d: int): int {
    now - 60_000 - d + 1
  }

  function Longer(a: nat, d: int): nat {
    if a < d then d else a
  }

  /** At an instant of the interval the registry table existed, or did not. */
  ghost predicate ExistsBetween(world: World, v: bool, from: int, to: nat) {
    exists t: nat :: from <= t <= to && v == At(world, t).registry.Some?
  }

  /** At an instant of the interval this was the table's row, or it had none and this one keeps everybody out. */
  ghost predicate ConfigBetween(world: World, table: string, cfg: OxydTableConfig, from: int, to: nat) {
    exists t: nat ::
      && from <= t <= to && At(world, t).registry.Some?
      && var rows := At(world, t).registry.value;
      cfg == if table in rows then rows[table] else OxydTableConfig(table, false, true, false, false, false, None)
  }

  /** At an instant of the interval the table's row exposed it, with or without authentication. */
  ghost predicate ExposedBetween(world: World, table: string, requireAuth: bool, from: int, to: nat) {
    exists t: nat ::
      && from <= t <= to && At(world, t).registry.Some?
      && var rows := At(world, t).registry.value;
      table in rows && rows[table].isExposed && rows[table].requireAuth == requireAuth
  }

  /** At an instant of the interval the registry had no row for the table, or one that did not expose it. */
  ghost predicate HiddenBetween(world: World, table: string, from: int, to: nat) {
    exists t: nat ::
      && from <= t <= to && At(world, t).registry.Some?
      && var rows := At(world, t).registry.value;
      table in rows ==> !rows[table].isExposed
  }

  lemma ConfigExposes(world: World, table: string, cfg: OxydTableConfig, from: int, to: nat)
    requires ConfigBetween(world, table, cfg, from, to)
    ensures if cfg.isExposed then ExposedBetween(world, table, cfg.requireAuth, from, to)
      else HiddenBetween(world, table, from, to)
  {
    var t: nat :| from <= t <= to && At(world, t).registry.Some?
      && var rows := At(world, t).registry.value;
      cfg == if table in rows then rows[table] else OxydTableConfig(table, false, true, false, false, false, None);
  }

  /** At three instants of the interval the table existed, had these columns, and had this key. */
  ghost predicate MetaBetween(world: World, m: TableMeta, from: int, to: nat) {
    exists t1: nat, t2: nat, t3: nat ::
      && from <= t1 <= t2 <= t3 <= to
      && (m.schema, m.name) in At(world, t1).tables
      && m.columns == (if (m.schema, m.name) in At(world, t2).tables then At(world, t2).tables[(m.schema, m.name)].columns else [])
      && m.primaryKey == (if (m.schema, m.name) in At(world, t3).tables then At(world, t3).tables[(m.schema, m.name)].primaryKey else [])
  }

  lemma ExistsWider(world: World, v: bool, from: int, to: nat, from2: int, to2: nat)
    requires ExistsBetween(world, v, from, to) && from2 <= from && to <= to2
    ensures ExistsBetween(world, v, from2, to2)
  {
  }

  lemma ConfigWider(world: World, table: string, cfg: OxydTableConfig, from: int, to: nat, from2: int, to2: nat)
    requires ConfigBetween(world, table, cfg, from, to) && from2 <= from && to <= to2
    ensures ConfigBetween(world, table, cfg, from2, to2)
  {
  }

  lemma ExposedWider(world: World, table: string, requireAuth: bool, from: int, to: nat, from2: int, to2: nat)
    requires ExposedBetween(world, table, requireAuth, from, to) && from2 <= from && to <= to2
    ensures ExposedBetween(world, table, requireAuth, from2, to2)
  {
  }

  lemma HiddenWider(world: World, table: string, from: int, to: nat, from2: int, to2: nat)
    requires HiddenBetween(world, table, from, to) && from2 <= from && to <= to2
    ensures HiddenBetween(world, table, from2, to2)
  {
  }

  lemma MetaWider(world: World, m: TableMeta, from: int, to: nat, from2: int, to2: nat)
    requires MetaBetween(world, m, from, to) && from2 <= from && to <= to2
    ensures MetaBetween(world, m, from2, to2)
  {
    var t1: nat, t2: nat, t3: nat :|
      && from <= t1 <= t2 <= t3 <= to
      && (m.schema, m.name) in At(world, t1).tables
      && m.columns == (if (m.schema, m.name) in At(world, t2).tables then At(world, t2).tables[(m.schema, m.name)].columns else [])
      && m.primaryKey == (if (m.schema, m.name) in At(world, t3).tables then At(world, t3).tables[(m.schema, m.name)].primaryKey else []);
  }

  ghost predicate ExistsCacheOk(world: World, c: Option<Entry<bool>>, now: nat) {
    c.Some? ==> c.value.Timely(now) && ExistsOk(world, c.value)
  }

  /** Every cached configuration is a real one: never the `None` of an absent registry. */
  ghost predicate ConfigCacheOk(world: World, c: map<string, Entry<Option<OxydTableConfig>>>, now: nat) {
    forall k | k in c :: c[k].Timely(now) && ConfigOk(world, k, c[k])
  }

  ghost predicate MetaCacheOk(world: World, c: map<string, Entry<TableMeta>>, now: nat) {
    forall k | k in c :: c[k].Timely(now) && MetaOk(world, c[k]) && CacheKey(c[k].value.schema, c[k].value.name) == k
  }

  /** No load of a cached entry took longer than `d`. */
  ghost predicate LoadsWithin(a: Option<Entry<bool>>, b: map<string, Entry<Option<OxydTableConfig>>>,
                              c: map<string, Entry<TableMeta>>, d: nat) {
    && (a.Some? ==> a.value.Duration() <= d)
    && (forall k | k in b :: b[k].Duration() <= d)
    && (forall k | k in c :: c[k].Duration() <= d)
  }

  lemma CachesLater(world: World, a: Option<Entry<bool>>, b: map<string, Entry<Option<OxydTableConfig>>>,
                    c: map<string, Entry<TableMeta>>, now: nat, later: nat)
    requires now <= later && ExistsCacheOk(world, a, now) && ConfigCacheOk(world, b, now) && MetaCacheOk(world, c, now)
    ensures ExistsCacheOk(world, a, later) && ConfigCacheOk(world, b, later) && MetaCacheOk(world, c, later)
  {
  }

  lemma ConfigCached(world: World, c: map<string, Entry<Option<OxydTableConfig>>>, now: nat, k: string,
                     e: Entry<Option<OxydTableConfig>>)
    requires ConfigCacheOk(world, c, now) && e.Timely(now) && ConfigOk(world, k, e)
    ensures ConfigCacheOk(world, c[k := e], now)
  {
  }

  lemma ExistsHit(world: World, c: Option<Entry<bool>>, now: nat)
    requires ExistsCacheOk(world, c, now) && c.Some? && c.value.Alive(now)
    ensures ExistsBetween(world, c.value.value, Oldest(now, c.value.Duration()), now)
  {
    assert Oldest(now, c.value.Duration()) <= c.value.readAt <= now;
  }

  lemma ConfigHit(world: World, c: map<string, Entry<Option<OxydTableConfig>>>, now: nat, k: string)
    requires ConfigCacheOk(world, c, now) && k in c && c[k].Alive(now)
    ensures c[k].value.Some? && ConfigBetween(world, k, c[k].value.value, Oldest(now, c[k].Duration()), now)
  {
    assert c[k].Timely(now) && ConfigOk(world, k, c[k]);
    assert Oldest(now, c[k].Duration()) <= c[k].readAt <= now;
  }

  lemma MetaCached(world: World, c: map<string, Entry<TableMeta>>, now: nat, k: string, e: Entry<TableMeta>)
    requires MetaCacheOk(world, c, now) && e.Timely(now) && MetaOk(world, e) && CacheKey(e.value.schema, e.value.name) == k
    ensures MetaCacheOk(world, c[k := e], now)
  {
  }

  lemma MetaRecent(world: World, e: Entry<TableMeta>, now: nat)
    requires e.Timely(now) && e.Alive(now) && MetaOk(world, e)
    ensures MetaBetween(world, e.value, Oldest(now, e.Duration()), now)
  {
    var m := e.value;
    var t2: nat, t3: nat :| e.readAt <= t2 <= t3 <= e.inserted
      && m.columns == ColumnsAt(At(world, t2), m.schema, m.name) && m.primaryKey == KeyAt(At(world, t3), m.schema, m.name);
    hide ColumnsAt, KeyAt, At;
    assert Oldest(now, e.Duration()) <= e.readAt && t3 <= now;
  }

  lemma MetaHit(world: World, c: map<string, Entry<TableMeta>>, now: nat, k: string)
    requires MetaCacheOk(world, c, now) && k in c && c[k].Alive(now)
    ensures MetaBetween(world, c[k].value, Oldest(now, c[k].Duration()), now)
    ensures CacheKey(c[k].value.schema, c[k].value.name) == k
  {
    assert c[k].Timely(now) && MetaOk(world, c[k]) && CacheKey(c[k].value.schema, c[k].value.name) == k;
    hide MetaCacheOk, MetaOk, MetaBetween, CacheKey;
    MetaRecent(world, c[k], now);
  }

  /** At some instant of the interval the table did not exist. */
  ghost predicate Absent(world: World, schema: string, table: string, from: nat, to: nat) {
    exists t: nat :: from <= t <= to && (schema, table) !in At(world, t).tables
  }

  lemma AbsentAt(world: World, schema: string, table: string, from: nat, t: nat, to: nat)
    requires from <= t <= to && (schema, table) !in At(world, t).tables
    ensures Absent(world, schema, table, from, to)
  {
  }

  lemma MetaLoaded(world: World, e: Entry<TableMeta>, t2: nat, t3: nat)
    requires (e.value.schema, e.value.name) in At(world, e.readAt).tables && e.began <= e.readAt <= t2 <= t3 <= e.inserted
    requires e.value.columns == ColumnsAt(At(world, t2), e.value.schema, e.value.name)
    requires e.value.primaryKey == KeyAt(At(world, t3), e.value.schema, e.value.name)
    ensures MetaOk(world, e) && MetaBetween(world, e.value, e.began, e.inserted)
  {
  }

  /** From `from` to `to` the registry's presence was answered, from a live entry or by a load that put one. */
  ghost predicate ExistsStep(world: World, before: Option<Entry<bool>>, from: nat, after: Option<Entry<bool>>, to: nat,
                             v: bool) {
    after.Some? && after.value.value == v &&
    if before.Some? && from < before.value.inserted + 60_000 then to == from && after == before
    else after.value.LoadedIn(from, to) && ExistsOk(world, after.value)
  }

  lemma ExistsStepped(world: World, before: Option<Entry<bool>>, from: nat, after: Option<Entry<bool>>, to: nat)
    requires ExistsCacheOk(world, after, to) && after.Some?
    requires if before.Some? && from < before.value.inserted + 60_000 then to == from && after == before else after.value.LoadedIn(from, to)
    ensures ExistsStep(world, before, from, after, to, after.value.value)
  {
  }

  /** The same for a table's configuration. */
  ghost predicate ConfigStep(world: World, table: string, before: map<string, Entry<Option<OxydTableConfig>>>, from: nat,
                             after: map<string, Entry<Option<OxydTableConfig>>>, to: nat, v: OxydTableConfig) {
    table in after && after[table].value == Some(v) &&
    if table in before && from < before[table].inserted + 60_000 then to == from && after == before
    else after == before[table := after[table]] && after[table].LoadedIn(from, to) && ConfigOk(world, table, after[table])
  }

  /** What `load_table_config` did to the caches on its way to `cfg`. */
  ghost predicate Loaded(world: World, table: string, e0: Option<Entry<bool>>, c0: map<string, Entry<Option<OxydTableConfig>>>,
                         from: nat, e1: Option<Entry<bool>>, c1: map<string, Entry<Option<OxydTableConfig>>>, to: nat,
                         cfg: Option<OxydTableConfig>) {
    match cfg
    case None => ExistsStep(world, e0, from, e1, to, false) && c1 == c0
    case Some(c) => exists mid: nat :: ExistsStep(world, e0, from, e1, mid, true) && ConfigStep(world, table, c0, mid, c1, to, c)
  }

  /** It failed, before or after the registry was found present. */
  ghost predicate NotLoaded(world: World, e0: Option<Entry<bool>>, c0: map<string, Entry<Option<OxydTableConfig>>>,
                            from: nat, e1: Option<Entry<bool>>, c1: map<string, Entry<Option<OxydTableConfig>>>, to: nat) {
    && c1 == c0 && from <= to
    && (e1 == e0 || exists mid: nat :: mid <= to && ExistsStep(world, e0, from, e1, mid, true))
  }

  class RegistryCache {
    const world: World
    var now: nat
    var tableExists: Option<Entry<bool>>                             // under its one fixed key
    var tableConfig: map<string, Entry<Option<OxydTableConfig>>>
    var tableMeta: map<string, Entry<TableMeta>>
    ghost var slowest: nat                                           // the longest load so far

    constructor (world: World)
      ensures Valid() && this.world == world
    {
      this.world := world;
      now, tableExists, tableConfig, tableMeta := 0, None, map[], map[];
      slowest := 0;
    }

    ghost predicate Valid()
      reads this
    {
      && ExistsCacheOk(world, tableExists, now)
      && ConfigCacheOk(world, tableConfig, now)
      && MetaCacheOk(world, tableMeta, now)
      && LoadsWithin(tableExists, tableConfig, tableMeta, slowest)
    }

    /** Time has passed, and no load in it took longer than that. */
    twostate predicate Later()
      reads this
    {
      old(now) <= now && old(slowest) <= slowest && (slowest == old(slowest) || slowest <= now - old(now))
    }

    /** The cache may drop anything at any time. */
    method Evict(registry: bool, configs: set<string>, metas: set<string>)
      requires Valid()
      modifies this`tableExists, this`tableConfig, this`tableMeta
      ensures Valid()
      ensures tableExists == if registry then None else old(tableExists)
      ensures tableConfig == old(tableConfig) - configs && tableMeta == old(tableMeta) - metas
    {
      if registry {
        tableExists := None;
      }
      tableConfig := tableConfig - configs;
      tableMeta := tableMeta - metas;
    }

    /** One query: the instant at which it sees the database, while time passes before and after. */
    method Ask(q: Query) returns (r: Result<nat>)
      requires Valid()
      modifies this`now
      ensures Valid() && old(now) <= now
      ensures if q.fails then r == Err(Internal("database error")) else r.Ok? && old(now) <= r.value <= now
    {
      CachesLater(world, tableExists, tableConfig, tableMeta, now, now + q.before + q.after);
      hide ExistsCacheOk, ConfigCacheOk, MetaCacheOk;
      var t := now + q.before;
      now := t + q.after;
      if q.fails {
        return Err(Internal("database error"));
      }
      r := Ok(t);
    }

    /** A cached answer is the entry's, of an instant of its window; a miss answers from an instant of the call. */
    method OxydTablesExists(q: Query) returns (r: Result<bool>)
      requires Valid()
      modifies this`now, this`slowest, this`tableExists
      ensures Valid() && Later()
      ensures old(tableExists.Some? && now < tableExists.value.inserted + 60_000) ==>
        && now == old(now) && tableExists == old(tableExists) && r == Ok(tableExists.value.value)
        && ExistsBetween(world, r.value, Oldest(now, tableExists.value.Duration()), now)
      ensures !old(tableExists.Some? && now < tableExists.value.inserted + 60_000) ==>
        && (r.Ok? <==> !q.fails)
        && (r.Ok? ==>
              && ExistsBetween(world, r.value, old(now), now)
              && tableExists.Some? && tableExists.value.value == r.value && tableExists.value.LoadedIn(old(now), now))
      ensures r.Ok? ==> ExistsBetween(world, r.value, Oldest(now, slowest), now)
      ensures r.Err? ==> q.fails && r.error.Internal? && tableExists == old(tableExists)
    {
      if tableExists.Some? && tableExists.value.Alive(now) {
        ExistsHit(world, tableExists, now);
        return Ok(tableExists.value.value);
      }
      hide At, ConfigCacheOk, MetaCacheOk;
      var began := now;
      var t :- Ask(q);
      var e := Entry(At(world, t).registry.Some?, began, t, now);
      tableExists := Some(e);
      slowest := Longer(slowest, e.Duration());
      assert e.Timely(now) && ExistsOk(world, e);
      r := Ok(e.value);
    }

    /** The query for one row of an existing registry; an absent row becomes the locked-down configuration. */
    method FetchTableConfig(table: string, q: Query) returns (r: Result<Option<OxydTableConfig>>)
      requires Valid()
      modifies this`now, this`slowest, this`tableConfig
      ensures Valid() && Later()
      ensures r.Ok? ==>
        && r.value.Some? && ConfigBetween(world, table, r.value.value, old(now), now)
        && table in tableConfig && tableConfig[table].value == r.value && tableConfig[table].LoadedIn(old(now), now)
        && ConfigOk(world, table, tableConfig[table])
        && tableConfig == old(tableConfig)[table := tableConfig[table]]
      ensures r.Err? ==>
        && r.error.Internal? && tableConfig == old(tableConfig)
        && (q.fails || ExistsBetween(world, false, old(now), now))
    {
      hide At, ExistsCacheOk, ConfigCacheOk, MetaCacheOk;
      var began := now;
      var t :- Ask(q);
      if At(world, t).registry.None? {
        return Err(Internal("database error"));
      }
      var rows := At(world, t).registry.value;
      var cfg := if table in rows then rows[table] else LockedDown(table);
      var e := Entry(Some(cfg), began, t, now);
      assert e.Timely(now) && ConfigOk(world, table, e);
      ConfigCached(world, tableConfig, now, table, e);
      tableConfig := tableConfig[table := e];
      slowest := Longer(slowest, e.Duration());
      r := Ok(e.value);
    }

    /** `None` stands for an absent registry, `Some` for the table's configuration, of an instant of the window. */
    method LoadTableConfig(table: string, q1: Query, q2: Query) returns (r: Result<Option<OxydTableConfig>>)
      requires Valid()
      modifies this`now, this`slowest, this`tableExists, this`tableConfig
      ensures Valid() && Later()
      ensures r.Ok? ==> match r.value
        case None => ExistsBetween(world, false, Oldest(now, slowest), now)
        case Some(c) => ConfigBetween(world, table, c, Oldest(now, slowest), now)
      ensures r.Ok? && r.value.Some? ==>
        table in tableConfig && tableConfig[table].value == r.value && tableConfig[table].Alive(now)
      ensures r.Err? ==> r.error.Internal? && (q1.fails || q2.fails || ExistsBetween(world, false, old(now), now))
      ensures r.Err? || r.value.None? ==> tableConfig == old(tableConfig)
      ensures r.Ok? ==>
        Loaded(world, table, old(tableExists), old(tableConfig), old(now), tableExists, tableConfig, now, r.value)
      ensures r.Err? ==> NotLoaded(world, old(tableExists), old(tableConfig), old(now), tableExists, tableConfig, now)
    {
      hide At, ConfigCacheOk, MetaCacheOk, ExistsBetween, ConfigBetween, ConfigOk, ExistsOk;
      ghost var e0, c0, from := tableExists, tableConfig, now;
      var present := OxydTablesExists(q1);
      if present.Err? {
        return Err(present.error);
      }
      ghost var asked := now;
      assert ExistsStep(world, e0, from, tableExists, asked, present.value) by {
        ExistsStepped(world, e0, from, tableExists, now);
      }
      hide ExistsStep, ExistsCacheOk;
      if !present.value {
        return Ok(None);
      }
      if table in tableConfig && tableConfig[table].Alive(now) {
        ConfigHit(world, tableConfig, now, table);
        ConfigWider(world, table, tableConfig[table].value.value, Oldest(now, tableConfig[table].Duration()), now,
          Oldest(now, slowest), now);
        assert ConfigStep(world, table, c0, asked, tableConfig, now, tableConfig[table].value.value);
        return Ok(tableConfig[table].value);
      }
      r := FetchTableConfig(table, q2);
      if r.Ok? {
        ConfigWider(world, table, r.value.value, asked, now, Oldest(now, slowest), now);
        assert ConfigStep(world, table, c0, asked, tableConfig, now, r.value.value);
      } else if !q2.fails {
        ExistsWider(world, false, asked, now, old(now), now);
      }
    }

    method EnsureExposed(table: string, q1: Query, q2: Query) returns (r: Result<bool>)
      requires Valid()
      modifies this`now, this`slowest, this`tableExists, this`tableConfig
      ensures Valid() && Later()
      ensures r.Ok? ==>
        || (r.value == false && ExistsBetween(world, false, Oldest(now, slowest), now))
        || ExposedBetween(world, table, r.value, Oldest(now, slowest), now)
      ensures r.Err? && r.error.NotFound? ==>
        r.error.message == "table '" + table + "' not exposed" && HiddenBetween(world, table, Oldest(now, slowest), now)
      ensures r.Err? && !r.error.NotFound? ==>
        r.error.Internal? && (q1.fails || q2.fails || ExistsBetween(world, false, old(now), now))
      ensures r.Ok? || r.error.NotFound? ==> exists cfg ::
        Loaded(world, table, old(tableExists), old(tableConfig), old(now), tableExists, tableConfig, now, cfg) && r == Exposure(cfg, table)
      ensures r.Err? && r.error.Internal? ==>
        NotLoaded(world, old(tableExists), old(tableConfig), old(now), tableExists, tableConfig, now)
    {
      hide At, ExistsCacheOk, ConfigCacheOk, MetaCacheOk, ExistsBetween, ConfigBetween, ExposedBetween, HiddenBetween, Loaded, NotLoaded;
      var cfg :- LoadTableConfig(table, q1, q2);
      match cfg
      case None => r := Ok(false);
      case Some(c) =>
        ConfigExposes(world, table, c, Oldest(now, slowest), now);
        if !c.isExposed {
          return Err(NotFound("table '" + table + "' not exposed"));
        }
        r := Ok(c.requireAuth);
    }

    /** The metadata under the table's cache key, from the cache or by three queries. */
    method LoadTableMeta(schema: string, table: string, q1: Query, q2: Query, q3: Query) returns (r: Result<TableMeta>)
      requires Valid()
      modifies this`now, this`slowest, this`tableMeta
      ensures Valid() && Later()
      ensures r.Ok? ==>
        && MetaBetween(world, r.value, Oldest(now, slowest), now)
        && CacheKey(r.value.schema, r.value.name) == CacheKey(schema, table)
        && CacheKey(schema, table) in tableMeta && tableMeta[CacheKey(schema, table)].value == r.value
      ensures old(CacheKey(schema, table) in tableMeta && now < tableMeta[CacheKey(schema, table)].inserted + 60_000) ==>
        && now == old(now) && tableMeta == old(tableMeta) && r == Ok(tableMeta[CacheKey(schema, table)].value)
        && MetaBetween(world, r.value, Oldest(now, tableMeta[CacheKey(schema, table)].Duration()), now)
      ensures !old(CacheKey(schema, table) in tableMeta && now < tableMeta[CacheKey(schema, table)].inserted + 60_000) && r.Ok? ==>
        && r.value.schema == schema && r.value.name == table && MetaBetween(world, r.value, old(now), now)
        && tableMeta[CacheKey(schema, table)].LoadedIn(old(now), now)
        && tableMeta == old(tableMeta)[CacheKey(schema, table) := tableMeta[CacheKey(schema, table)]]
      ensures r.Err? ==> tableMeta == old(tableMeta)
      ensures r.Err? ==>
        if r.error.NotFound? then Absent(world, schema, table, old(now), now)
        else r.error.Internal? && (q1.fails || q2.fails || q3.fails)
    {
      hide At, ExistsCacheOk, ConfigCacheOk, MetaCacheOk, MetaBetween, Absent, CacheKey;
      var key := CacheKey(schema, table);
      if key in tableMeta && tableMeta[key].Alive(now) {
        MetaHit(world, tableMeta, now, key);
        MetaWider(world, tableMeta[key].value, Oldest(now, tableMeta[key].Duration()), now, Oldest(now, slowest), now);
        return Ok(tableMeta[key].value);
      }
      r := FetchTableMeta(schema, table, q1, q2, q3);
      if r.Ok? {
        MetaWider(world, r.value, old(now), now, Oldest(now, slowest), now);
      }
    }

    /** The three queries of a miss, at three instants. */
    method FetchTableMeta(schema: string, table: string, q1: Query, q2: Query, q3: Query) returns (r: Result<TableMeta>)
      requires Valid()
      modifies this`now, this`slowest, this`tableMeta
      ensures Valid() && Later()
      ensures r.Ok? ==>
        && MetaBetween(world, r.value, old(now), now) && r.value.schema == schema && r.value.name == table
        && CacheKey(schema, table) in tableMeta && tableMeta[CacheKey(schema, table)].value == r.value
        && tableMeta[CacheKey(schema, table)].LoadedIn(old(now), now)
        && tableMeta == old(tableMeta)[CacheKey(schema, table) := tableMeta[CacheKey(schema, table)]]
      ensures r.Err? ==> tableMeta == old(tableMeta)
      ensures r.Err? ==>
        if r.error.NotFound? then Absent(world, schema, table, old(now), now)
        else r.error.Internal? && (q1.fails || q2.fails || q3.fails)
    {
      hide At, ExistsCacheOk, ConfigCacheOk, MetaCacheOk, MetaOk, MetaBetween, CacheKey, Absent, ColumnsAt, KeyAt;
      var began := now;
      var t1 :- Ask(q1);
      if (schema, table) !in At(world, t1).tables {
        AbsentAt(world, schema, table, began, t1, now);
        return Err(NotFound("table '" + table + "' not found"));
      }
      var t2 :- Ask(q2);
      var columns := ColumnsAt(At(world, t2), schema, table);
      var t3 :- Ask(q3);
      var e := Entry(TableMeta(schema, table, KeyAt(At(world, t3), schema, table), columns), began, t1, now);
      MetaLoaded(world, e, t2, t3);
      MetaCached(world, tableMeta, now, CacheKey(schema, table), e);
      tableMeta := tableMeta[CacheKey(schema, table) := e];
      slowest := Longer(slowest, e.Duration());
      r := Ok(e.value);
    }
  }
}
