/**
 * The four handlers as one gate: `ensure_exposed`, the authentication check, `load_table_meta`, then the
 * statement. Any number of them interleave over the shared caches while anybody writes to the database.
 */
module Gate {
  import opened Wrappers
  import opened Catalog
  import opened Registry

  type ConfigEntry = Entry<Option<OxydTableConfig>>

  // ---------------------------------------------------------------- the state machine

  /** What `ensure_exposed` based its answer on: entries served at the given moments. */
  datatype Grounds =
    | Dev(exists_: Entry<bool>, at: nat)
    | Registered(exists_: Entry<bool>, first: nat, config: ConfigEntry, at: nat)

  datatype Phase =
    | Start
    | AskExists(began: nat)
    | SawExists(began: nat, readAt: nat, present: bool)
    | HaveExists(entry: Entry<bool>, at: nat)
    | AskConfig(entry: Entry<bool>, at: nat, began: nat)
    | SawConfig(entry: Entry<bool>, at: nat, began: nat, readAt: nat, config: OxydTableConfig)
    | Answered(grounds: Grounds)
    | Admitted(grounds: Grounds)
    | AskMeta(grounds: Grounds, began: nat)
    | SawTable(grounds: Grounds, began: nat, t1: nat)
    | SawColumns(grounds: Grounds, began: nat, t1: nat, t2: nat, columns: seq<ColumnMeta>)
    | SawKey(grounds: Grounds, began: nat, t1: nat, t2: nat, t3: nat, columns: seq<ColumnMeta>, key: seq<string>)
    | Ready(grounds: Grounds, meta: Entry<TableMeta>, at: nat)
    | Ran(grounds: Grounds, meta: Entry<TableMeta>, at: nat, ranAt: nat)
    | Refused

  /** One request on a table, made by an authenticated caller or an anonymous one. */
  datatype Call = Call(table: string, authenticated: bool, started: nat, phase: Phase)

  datatype State = State(
    now: nat,
    tableExists: Option<Entry<bool>>,
    tableConfig: map<string, ConfigEntry>,
    tableMeta: map<string, Entry<TableMeta>>,
    calls: seq<Call>)

  /** `Fails` stands for any error on the way: of the database, of the parser or of a builder. */
  datatype Step =
    | Tick(ms: nat)
    | Evict(registry: bool, configs: set<string>, metas: set<string>)
    | Arrives(table: string, authenticated: bool)
    | Advance(call: nat)
    | Fails(call: nat)

  const SCHEMA := "public"

  predicate Busy(p: Phase) {
    !p.Ran? && !p.Refused?
  }

  predicate Enabled(s: State, step: Step) {
    match step
    case Advance(i) => i < |s.calls| && Busy(s.calls[i].phase)
    case Fails(i) => i < |s.calls| && Busy(s.calls[i].phase)
    case _ => true
  }

  function Answer(g: Grounds, table: string): Result<bool> {
    match g
    case Dev(_, _) => Ok(false)
    case Registered(_, _, c, _) => Exposure(c.value, table)
  }

  /** Where a call goes from its phase, without what it puts into a cache. */
  function NextPhase(world: World, s: State, c: Call): Phase {
    var now, table := s.now, c.table;
    match c.phase
    case Start =>
      if s.tableExists.Some? && s.tableExists.value.Alive(now) then HaveExists(s.tableExists.value, now)
      else AskExists(now)
    case AskExists(began) => SawExists(began, now, At(world, now).registry.Some?)
    case SawExists(began, readAt, present) => HaveExists(Entry(present, began, readAt, now), now)
    case HaveExists(e, at) =>
      if !e.value then Answered(Dev(e, at))
      else if table in s.tableConfig && s.tableConfig[table].Alive(now) then
        Answered(Registered(e, at, s.tableConfig[table], now))
      else AskConfig(e, at, now)
    case AskConfig(e, at, began) =>
      if At(world, now).registry.None? then Refused else SawConfig(e, at, began, now, ConfigAt(At(world, now), table))
    case SawConfig(e, at, began, readAt, config) =>
      Answered(Registered(e, at, Entry(Some(config), began, readAt, now), now))
    case Answered(g) =>
      var r := Answer(g, table);
      if r.Err? || (r.value && !c.authenticated) then Refused else Admitted(g)
    case Admitted(g) =>
      var k := CacheKey(SCHEMA, table);
      if k in s.tableMeta && s.tableMeta[k].Alive(now) then Ready(g, s.tableMeta[k], now) else AskMeta(g, now)
    case AskMeta(g, began) => if (SCHEMA, table) !in At(world, now).tables then Refused else SawTable(g, began, now)
    case SawTable(g, began, t1) => SawColumns(g, began, t1, now, ColumnsAt(At(world, now), SCHEMA, table))
    case SawColumns(g, began, t1, t2, columns) =>
      SawKey(g, began, t1, t2, now, columns, KeyAt(At(world, now), SCHEMA, table))
    case SawKey(g, began, t1, t2, t3, columns, key) =>
      Ready(g, Entry(TableMeta(SCHEMA, table, key, columns), began, t1, now), now)
    case Ready(g, m, at) => Ran(g, m, at, now)
    case _ => Refused
  }

  /** The cache insertion that goes with leaving a phase. */
  function Put(s: State, c: Call): State {
    match c.phase
    case SawExists(began, readAt, present) => s.(tableExists := Some(Entry(present, began, readAt, s.now)))
    case SawConfig(_, _, began, readAt, config) =>
      s.(tableConfig := s.tableConfig[c.table := Entry(Some(config), began, readAt, s.now)])
    case SawKey(_, began, t1, _, _, columns, key) =>
      var meta := TableMeta(SCHEMA, c.table, key, columns);
      s.(tableMeta := s.tableMeta[CacheKey(SCHEMA, c.table) := Entry(meta, began, t1, s.now)])
    case _ => s
  }

  function Do(world: World, s: State, step: Step): State
    requires Enabled(s, step)
  {
    match step
    case Tick(d) => s.(now := s.now + d)
    case Evict(registry, configs, metas) =>
      s.(tableExists := if registry then None else s.tableExists, tableConfig := s.tableConfig - configs,
        tableMeta := s.tableMeta - metas)
    case Arrives(table, authenticated) => s.(calls := s.calls + [Call(table, authenticated, s.now, Start)])
    case Advance(i) =>
      var c := s.calls[i];
      Put(s, c).(calls := s.calls[i := c.(phase := NextPhase(world, s, c))])
    case Fails(i) => s.(calls := s.calls[i := s.calls[i].(phase := Refused)])
  }

  predicate IsRun(world: World, s: State, steps: seq<Step>)
    decreases |steps|
  {
    steps == [] || (Enabled(s, steps[0]) && IsRun(world, Do(world, s, steps[0]), steps[1..]))
  }

  function After(world: World, s: State, steps: seq<Step>): State
    requires IsRun(world, s, steps)
    decreases |steps|
  {
    if steps == [] then s else After(world, Do(world, s, steps[0]), steps[1..])
  }

  const INITIAL := State(0, None, map[], map[], [])

  // ---------------------------------------------------------------- the invariant

  ghost predicate ExistsSeen(world: World, e: Entry<bool>, at: nat) {
    e.Timely(at) && e.Alive(at) && ExistsOk(world, e)
  }

  ghost predicate GroundsOk(world: World, started: nat, table: string, g: Grounds, now: nat) {
    && started <= g.at <= now
    && match g
       case Dev(e, at) => !e.value && ExistsSeen(world, e, at)
       case Registered(e, first, cfg, at) =>
         && e.value && started <= first <= at && ExistsSeen(world, e, first)
         && cfg.Timely(at) && cfg.Alive(at) && ConfigOk(world, table, cfg)
  }

  /** The gate has let the call pass. */
  predicate Passed(table: string, authenticated: bool, g: Grounds) {
    var r := Answer(g, table);
    r.Ok? && (r.value ==> authenticated)
  }

  /** `ensure_exposed` answered on good grounds, and the gate let the call pass. */
  ghost predicate Through(world: World, c: Call, g: Grounds, now: nat) {
    GroundsOk(world, c.started, c.table, g, now) && Passed(c.table, c.authenticated, g)
  }

  ghost predicate PhaseOk(world: World, c: Call, now: nat) {
    match c.phase
    case Start => true
    case AskExists(began) => c.started <= began <= now
    case SawExists(began, readAt, present) =>
      c.started <= began <= readAt <= now && present == At(world, readAt).registry.Some?
    case HaveExists(e, at) => c.started <= at <= now && ExistsSeen(world, e, at)
    case AskConfig(e, at, began) => c.started <= at <= began <= now && e.value && ExistsSeen(world, e, at)
    case SawConfig(e, at, began, readAt, config) =>
      && c.started <= at <= began <= readAt <= now && e.value && ExistsSeen(world, e, at)
      && At(world, readAt).registry.Some? && config == ConfigAt(At(world, readAt), c.table)
    case Answered(g) => GroundsOk(world, c.started, c.table, g, now)
    case Admitted(g) => Through(world, c, g, now)
    case AskMeta(g, began) => Through(world, c, g, now) && began <= now
    case SawTable(g, began, t1) =>
      && Through(world, c, g, now) && began <= t1 <= now
      && (SCHEMA, c.table) in At(world, t1).tables
    case SawColumns(g, began, t1, t2, columns) =>
      && Through(world, c, g, now) && began <= t1 <= t2 <= now
      && (SCHEMA, c.table) in At(world, t1).tables
      && columns == ColumnsAt(At(world, t2), SCHEMA, c.table)
    case SawKey(g, began, t1, t2, t3, columns, key) =>
      && Through(world, c, g, now) && began <= t1 <= t2 <= t3 <= now
      && (SCHEMA, c.table) in At(world, t1).tables
      && columns == ColumnsAt(At(world, t2), SCHEMA, c.table)
      && key == KeyAt(At(world, t3), SCHEMA, c.table)
    case Ready(g, m, at) => Through(world, c, g, now) && g.at <= at <= now && MetaSeen(world, c.table, m, at)
    case Ran(g, m, at, ranAt) =>
      Through(world, c, g, now) && g.at <= at <= ranAt <= now && MetaSeen(world, c.table, m, at)
    case Refused => true
  }

  ghost predicate MetaSeen(world: World, table: string, m: Entry<TableMeta>, at: nat) {
    m.Timely(at) && m.Alive(at) && MetaOk(world, m) && m.value.schema == SCHEMA && m.value.name == table
  }

  ghost predicate Inv(world: World, s: State) {
    && ExistsCacheOk(world, s.tableExists, s.now)
    && ConfigCacheOk(world, s.tableConfig, s.now)
    && MetaCacheOk(world, s.tableMeta, s.now)
    && (forall k | k in s.tableMeta :: s.tableMeta[k].value.schema == SCHEMA)
    && forall i | 0 <= i < |s.calls| :: s.calls[i].started <= s.now && PhaseOk(world, s.calls[i], s.now)
  }

  lemma PhaseLater(world: World, c: Call, now: nat, later: nat)
    requires PhaseOk(world, c, now) && now <= later
    ensures PhaseOk(world, c, later)
  {
    hide ExistsSeen, MetaSeen, ConfigOk;
  }

  lemma ExistsAdvance(world: World, s: State, c: Call)
    requires Inv(world, s) && c.started <= s.now && PhaseOk(world, c, s.now)
    requires c.phase.Start? || c.phase.AskExists? || c.phase.SawExists?
    ensures PhaseOk(world, c.(phase := NextPhase(world, s, c)), s.now)
    ensures ExistsCacheOk(world, Put(s, c).tableExists, s.now)
  {
  }

  lemma ConfigAdvance(world: World, s: State, c: Call)
    requires Inv(world, s) && c.started <= s.now && PhaseOk(world, c, s.now)
    requires c.phase.HaveExists? || c.phase.AskConfig? || c.phase.SawConfig? || c.phase.Answered?
    ensures PhaseOk(world, c.(phase := NextPhase(world, s, c)), s.now)
    ensures ConfigCacheOk(world, Put(s, c).tableConfig, s.now)
  {
    hide ExistsSeen, Exposure;
    if c.phase.SawConfig? {
      var e := Entry(Some(c.phase.config), c.phase.began, c.phase.readAt, s.now);
      assert e.Timely(s.now) && e.Alive(s.now) && ConfigOk(world, c.table, e);
      ConfigCached(world, s.tableConfig, s.now, c.table, e);
    }
  }

  lemma MetaHitSeen(world: World, s: State, table: string)
    requires MetaCacheOk(world, s.tableMeta, s.now) && CacheKey(SCHEMA, table) in s.tableMeta
    requires s.tableMeta[CacheKey(SCHEMA, table)].Alive(s.now)
    requires forall k | k in s.tableMeta :: s.tableMeta[k].value.schema == SCHEMA
    ensures MetaSeen(world, table, s.tableMeta[CacheKey(SCHEMA, table)], s.now)
  {
    var k := CacheKey(SCHEMA, table);
    var m := s.tableMeta[k].value;
    CacheKeyInjective(SCHEMA, table, m.schema, m.name);
  }

  lemma MetaAdvance(world: World, s: State, c: Call)
    requires Inv(world, s) && c.started <= s.now && PhaseOk(world, c, s.now)
    requires c.phase.Admitted? || c.phase.AskMeta? || c.phase.SawTable? || c.phase.SawColumns? || c.phase.Ready?
    ensures PhaseOk(world, c.(phase := NextPhase(world, s, c)), s.now)
  {
    hide ExistsSeen, GroundsOk, MetaSeen, MetaCacheOk, ConfigCacheOk, ExistsCacheOk, ColumnsAt, KeyAt, CacheKey;
    assert c.phase.grounds.at <= s.now by {
      GroundsBefore(world, c.started, c.table, c.phase.grounds, s.now);
    }
    var k := CacheKey(SCHEMA, c.table);
    if c.phase.Admitted? && k in s.tableMeta && s.tableMeta[k].Alive(s.now) {
      MetaHitSeen(world, s, c.table);
    }
  }

  lemma GroundsBefore(world: World, started: nat, table: string, g: Grounds, now: nat)
    requires GroundsOk(world, started, table, g, now)
    ensures g.at <= now
  {
  }

  lemma KeyAdvance(world: World, s: State, c: Call)
    requires Inv(world, s) && c.started <= s.now && PhaseOk(world, c, s.now) && c.phase.SawKey?
    ensures PhaseOk(world, c.(phase := NextPhase(world, s, c)), s.now)
  {
    var p := c.phase;
    KeyEntry(world, c, s.now, Entry(TableMeta(SCHEMA, c.table, p.key, p.columns), p.began, p.t1, s.now));
    hide ExistsSeen, GroundsOk, ConfigCacheOk, ExistsCacheOk, MetaCacheOk, ColumnsAt, KeyAt, CacheKey, MetaOk, MetaSeen;
  }

  lemma KeyPut(world: World, s: State, c: Call)
    requires Inv(world, s) && PhaseOk(world, c, s.now) && c.phase.SawKey?
    ensures MetaCacheOk(world, Put(s, c).tableMeta, s.now)
    ensures forall k | k in Put(s, c).tableMeta :: Put(s, c).tableMeta[k].value.schema == SCHEMA
  {
    var p := c.phase;
    var k, e := CacheKey(SCHEMA, c.table), Entry(TableMeta(SCHEMA, c.table, p.key, p.columns), p.began, p.t1, s.now);
    assert Put(s, c).tableMeta == s.tableMeta[k := e];
    KeyEntry(world, c, s.now, e);
    MetaPut(world, s.tableMeta, s.now, c.table, e);
  }

  lemma MetaPut(world: World, metas: map<string, Entry<TableMeta>>, now: nat, table: string, e: Entry<TableMeta>)
    requires MetaCacheOk(world, metas, now) && forall k | k in metas :: metas[k].value.schema == SCHEMA
    requires e.Timely(now) && MetaSeen(world, table, e, now)
    ensures var m := metas[CacheKey(SCHEMA, table) := e]; MetaCacheOk(world, m, now) && forall k | k in m :: m[k].value.schema == SCHEMA
  {
    assert MetaOk(world, e) && CacheKey(e.value.schema, e.value.name) == CacheKey(SCHEMA, table);
    hide MetaCacheOk, CacheKey, MetaOk, MetaSeen;
    MetaCached(world, metas, now, CacheKey(SCHEMA, table), e);
  }

  /** The entry that three queries at three instants make. */
  lemma KeyEntry(world: World, c: Call, now: nat, e: Entry<TableMeta>)
    requires PhaseOk(world, c, now) && c.phase.SawKey?
    requires e == Entry(TableMeta(SCHEMA, c.table, c.phase.key, c.phase.columns), c.phase.began, c.phase.t1, now)
    ensures e.Timely(now) && MetaOk(world, e) && MetaSeen(world, c.table, e, now) && c.phase.grounds.at <= now
  {
    GroundsBefore(world, c.started, c.table, c.phase.grounds, now);
    hide GroundsOk, ExistsSeen, ColumnsAt, KeyAt;
    MetaLoaded(world, e, c.phase.t2, c.phase.t3);
  }

  /** Leaving a phase keeps the caches and gives a sound next phase. */
  lemma AdvanceOk(world: World, s: State, c: Call)
    requires Inv(world, s) && c.started <= s.now && PhaseOk(world, c, s.now) && Busy(c.phase)
    ensures var t := Put(s, c);
      && PhaseOk(world, c.(phase := NextPhase(world, s, c)), s.now)
      && t.now == s.now && t.calls == s.calls
      && ExistsCacheOk(world, t.tableExists, s.now) && ConfigCacheOk(world, t.tableConfig, s.now)
      && MetaCacheOk(world, t.tableMeta, s.now) && forall k | k in t.tableMeta :: t.tableMeta[k].value.schema == SCHEMA
  {
    hide PhaseOk, NextPhase, MetaCacheOk, ConfigCacheOk, ExistsCacheOk, CacheKey;
    if c.phase.Start? || c.phase.AskExists? || c.phase.SawExists? {
      ExistsAdvance(world, s, c);
    } else if c.phase.HaveExists? || c.phase.AskConfig? || c.phase.SawConfig? || c.phase.Answered? {
      ConfigAdvance(world, s, c);
    } else if c.phase.SawKey? {
      KeyAdvance(world, s, c);
      KeyPut(world, s, c);
    } else {
      MetaAdvance(world, s, c);
    }
  }

  /** Every step keeps the invariant. */
  lemma StepInv(world: World, s: State, step: Step)
    requires Inv(world, s) && Enabled(s, step)
    ensures Inv(world, Do(world, s, step))
  {
    match step
    case Advance(i) =>
      AdvanceOk(world, s, s.calls[i]);
      hide PhaseOk, NextPhase, Put, MetaCacheOk, ConfigCacheOk, ExistsCacheOk;
    case Tick(d) =>
      TickOk(world, s, d);
    case Evict(_, _, _) =>
      EvictedOk(world, s, step);
      hide PhaseOk, MetaCacheOk, ConfigCacheOk, ExistsCacheOk;
    case Arrives(_, _) =>
      hide MetaCacheOk, ConfigCacheOk, ExistsCacheOk;
    case Fails(_) =>
      hide MetaCacheOk, ConfigCacheOk, ExistsCacheOk;
  }

  lemma TickOk(world: World, s: State, d: nat)
    requires Inv(world, s)
    ensures Inv(world, s.(now := s.now + d))
  {
    CachesLater(world, s.tableExists, s.tableConfig, s.tableMeta, s.now, s.now + d);
    hide PhaseOk, MetaCacheOk, ConfigCacheOk, ExistsCacheOk;
    forall i | 0 <= i < |s.calls| ensures PhaseOk(world, s.calls[i], s.now + d) {
      PhaseLater(world, s.calls[i], s.now, s.now + d);
    }
  }

  lemma EvictedOk(world: World, s: State, step: Step)
    requires Inv(world, s) && step.Evict?
    ensures var t := Do(world, s, step);
      && ExistsCacheOk(world, t.tableExists, t.now) && ConfigCacheOk(world, t.tableConfig, t.now)
      && MetaCacheOk(world, t.tableMeta, t.now) && forall k | k in t.tableMeta :: t.tableMeta[k].value.schema == SCHEMA
  {
    hide PhaseOk, MetaOk, ConfigOk, ExistsOk, CacheKey;
  }

  lemma InitialInv(world: World)
    ensures Inv(world, INITIAL)
  {
  }

  lemma {:induction false} RunInv(world: World, s: State, steps: seq<Step>)
    requires Inv(world, s) && IsRun(world, s, steps)
    ensures Inv(world, After(world, s, steps))
    decreases |steps|
  {
    hide Inv, Enabled, Do;
    if steps != [] {
      StepInv(world, s, steps[0]);
      RunInv(world, Do(world, s, steps[0]), steps[1..]);
    }
  }

  // ---------------------------------------------------------------- staleness

  /** `t` is in the staleness window of an entry served at `at`: the TTL and the duration of its load. */
  predicate InWindow<T>(e: Entry<T>, t: nat, at: nat) {
    Oldest(at, e.Duration()) <= t <= at
  }

  /**
   * In every run, whatever the loads that raced, anything a cache still returns is what the database held
   * at an instant of the staleness window; of a table's metadata the existence, the columns and the key
   * may be from three instants of one load. No cached configuration is the `None` of an absent registry.
   */
  lemma ServedIsRecent(world: World, steps: seq<Step>)
    requires IsRun(world, INITIAL, steps)
    ensures var s := After(world, INITIAL, steps);
      && (s.tableExists.Some? && s.tableExists.value.Alive(s.now) ==>
            var e := s.tableExists.value; InWindow(e, e.readAt, s.now) && e.value == At(world, e.readAt).registry.Some?)
      && (forall k | k in s.tableConfig && s.tableConfig[k].Alive(s.now) ::
            var e := s.tableConfig[k];
            && InWindow(e, e.readAt, s.now) && At(world, e.readAt).registry.Some?
            && e.value == Some(ConfigAt(At(world, e.readAt), k)))
      && (forall k | k in s.tableConfig :: s.tableConfig[k].value.Some?)
      && (forall k | k in s.tableMeta && s.tableMeta[k].Alive(s.now) ::
            RecentMeta(world, s.tableMeta[k], s.now))
  {
    InitialInv(world);
    RunInv(world, INITIAL, steps);
    var s := After(world, INITIAL, steps);
    hide PhaseOk, CacheKey;
    forall k | k in s.tableMeta && s.tableMeta[k].Alive(s.now) ensures RecentMeta(world, s.tableMeta[k], s.now) {
      MetaRecent(world, s.tableMeta[k], s.now);
    }
  }

  /** The metadata of an entry served at `at` is from its window. */
  ghost predicate RecentMeta(world: World, e: Entry<TableMeta>, at: nat) {
    MetaBetween(world, e.value, Oldest(at, e.Duration()), at)
  }

  // ---------------------------------------------------------------- gate soundness

  /** At an instant of the window of the served entry, the registry was absent, or it exposed the table to this caller. */
  ghost predicate Admissible(world: World, table: string, authenticated: bool, g: Grounds) {
    match g
    case Dev(e, at) => InWindow(e, e.readAt, at) && At(world, e.readAt).registry.None?
    case Registered(_, _, cfg, at) =>
      && InWindow(cfg, cfg.readAt, at)
      && var db := At(world, cfg.readAt);
      && db.registry.Some? && table in db.registry.value
      && db.registry.value[table].isExposed
      && (db.registry.value[table].requireAuth ==> authenticated)
  }

  lemma PassedAdmissible(world: World, started: nat, table: string, authenticated: bool, g: Grounds, now: nat)
    requires GroundsOk(world, started, table, g, now) && Passed(table, authenticated, g)
    ensures Admissible(world, table, authenticated, g) && started <= g.at
  {
  }

  /**
   * Whenever a handler has run a statement on a table, there was an instant within the staleness window
   * at which the registry was absent or the table's row exposed it, and the caller was authenticated if
   * that row required it; and the metadata used was the table's own, from within its window.
   */
  lemma GateSound(world: World, steps: seq<Step>, i: nat)
    requires IsRun(world, INITIAL, steps) && i < |After(world, INITIAL, steps).calls|
    requires After(world, INITIAL, steps).calls[i].phase.Ran?
    ensures var c := After(world, INITIAL, steps).calls[i];
      && c.started <= c.phase.grounds.at <= c.phase.at <= c.phase.ranAt
      && Admissible(world, c.table, c.authenticated, c.phase.grounds)
      && c.phase.meta.value.schema == SCHEMA && c.phase.meta.value.name == c.table
      && RecentMeta(world, c.phase.meta, c.phase.at)
  {
    InitialInv(world);
    RunInv(world, INITIAL, steps);
    var s := After(world, INITIAL, steps);
    var c := s.calls[i];
    assert PhaseOk(world, c, s.now);
    hide RecentMeta, MetaOk, Admissible, GroundsOk, Passed, IsRun, After, Inv;
    MetaRecent(world, c.phase.meta, c.phase.at);
    PassedAdmissible(world, c.started, c.table, c.authenticated, c.phase.grounds, s.now);
  }

  // ---------------------------------------------------------------- convergence

  /** From `T` on nobody writes. */
  ghost predicate Settled(world: World, T: nat) {
    forall t: nat :: t >= T ==> At(world, t) == At(world, T)
  }

  /** The load that a call has in flight for the registry began at this moment. */
  function InFlight(p: Phase): Option<nat> {
    match p
    case AskExists(began) => Some(began)
    case SawExists(began, _, _) => Some(began)
    case AskConfig(_, _, began) => Some(began)
    case SawConfig(_, _, began, _, _) => Some(began)
    case _ => None
  }

  /** No load that was in flight at `T` takes longer than until `T + D`. */
  predicate Punctual(s: State, T: nat, D: nat) {
    forall i | 0 <= i < |s.calls| && InFlight(s.calls[i].phase).Some? && InFlight(s.calls[i].phase).value <= T :: s.now <= T + D
  }

  predicate PunctualRun(world: World, s: State, steps: seq<Step>, T: nat, D: nat)
    requires IsRun(world, s, steps)
    decreases |steps|
  {
    Punctual(s, T, D) && (steps == [] || PunctualRun(world, Do(world, s, steps[0]), steps[1..], T, D))
  }

  /** An entry whose load was in flight at `T` is in the cache by `T + D`. */
  predicate EarlyBy<T0>(e: Entry<T0>, T: nat, D: nat) {
    e.began <= T ==> e.inserted <= T + D
  }

  ghost predicate CachesEarly(s: State, T: nat, D: nat) {
    && (s.tableExists.Some? ==> EarlyBy(s.tableExists.value, T, D))
    && (forall k | k in s.tableConfig :: EarlyBy(s.tableConfig[k], T, D))
  }

  predicate GroundsEarly(g: Grounds, T: nat, D: nat) {
    EarlyBy(g.exists_, T, D) && (g.Registered? ==> EarlyBy(g.config, T, D))
  }

  predicate PhaseEarly(p: Phase, T: nat, D: nat) {
    match p
    case HaveExists(e, _) => EarlyBy(e, T, D)
    case AskConfig(e, _, _) => EarlyBy(e, T, D)
    case SawConfig(e, _, _, _, _) => EarlyBy(e, T, D)
    case Answered(g) => GroundsEarly(g, T, D)
    case _ => true
  }

  ghost predicate Early(s: State, T: nat, D: nat) {
    CachesEarly(s, T, D) && forall i | 0 <= i < |s.calls| :: PhaseEarly(s.calls[i].phase, T, D)
  }

  lemma AdvanceEarly(world: World, s: State, i: nat, T: nat, D: nat)
    requires Early(s, T, D) && Punctual(s, T, D) && Enabled(s, Advance(i))
    ensures var c := s.calls[i]; CachesEarly(Put(s, c), T, D) && PhaseEarly(NextPhase(world, s, c), T, D)
  {
    assert PhaseEarly(s.calls[i].phase, T, D);
  }

  lemma StepEarly(world: World, s: State, step: Step, T: nat, D: nat)
    requires Early(s, T, D) && Punctual(s, T, D) && Enabled(s, step)
    ensures Early(Do(world, s, step), T, D)
  {
    match step
    case Advance(i) =>
      AdvanceEarly(world, s, i, T, D);
      hide NextPhase, Put, PhaseEarly, CachesEarly, Punctual;
      assert Put(s, s.calls[i]).calls == s.calls by {
        PutCalls(s, s.calls[i]);
      }
    case _ =>
      hide NextPhase, Put, Punctual, EarlyBy, GroundsEarly;
  }

  lemma PutCalls(s: State, c: Call)
    ensures Put(s, c).calls == s.calls && Put(s, c).now == s.now
  {
  }

  lemma {:induction false} RunEarly(world: World, s: State, steps: seq<Step>, T: nat, D: nat)
    requires Early(s, T, D) && IsRun(world, s, steps) && PunctualRun(world, s, steps, T, D)
    ensures Early(After(world, s, steps), T, D)
    decreases |steps|
  {
    hide Early, Enabled, Do, Punctual;
    if steps != [] {
      StepEarly(world, s, steps[0], T, D);
      RunEarly(world, Do(world, s, steps[0]), steps[1..], T, D);
    }
  }

  /** An entry served after `T + TTL + D` was read after `T`. */
  lemma ServedLate<T0>(e: Entry<T0>, at: nat, T: nat, D: nat)
    requires EarlyBy(e, T, D) && e.Timely(at) && e.Alive(at) && at > T + TTL + D
    ensures e.readAt > T
  {
  }

  /** What the registry says about a table: no answer without it, otherwise the row's, if there is one that exposes it. */
  ghost predicate SaysOf(db: Db, table: string, r: Result<bool>) {
    match db.registry
    case None => r == Ok(false)
    case Some(rows) =>
      if table in rows && rows[table].isExposed then r == Ok(rows[table].requireAuth)
      else r == Err(NotFound("table '" + table + "' not exposed"))
  }

  /**
   * Once the registry stops changing at `T`, every `ensure_exposed` that starts later than the sixty seconds of
   * the caches and the longest load then in flight answers what the registry's rows say.
   */
  lemma CacheConverges(world: World, steps: seq<Step>, T: nat, D: nat, i: nat)
    requires Settled(world, T) && IsRun(world, INITIAL, steps) && PunctualRun(world, INITIAL, steps, T, D)
    requires i < |After(world, INITIAL, steps).calls|
    requires var c := After(world, INITIAL, steps).calls[i]; c.phase.Answered? && c.started > T + 60_000 + D
    ensures var c := After(world, INITIAL, steps).calls[i]; SaysOf(At(world, T), c.table, Answer(c.phase.grounds, c.table))
  {
    InitialInv(world);
    RunInv(world, INITIAL, steps);
    RunEarly(world, INITIAL, steps, T, D);
    var s := After(world, INITIAL, steps);
    var c := s.calls[i];
    assert PhaseOk(world, c, s.now) && PhaseEarly(c.phase, T, D);
    hide IsRun, After, PunctualRun, ConfigCacheOk, MetaCacheOk, ExistsCacheOk;
    match c.phase.grounds
    case Dev(e, at) => ServedLate(e, at, T, D);
    case Registered(e, first, cfg, at) =>
      ServedLate(e, first, T, D);
      ServedLate(cfg, at, T, D);
  }

  /** Who may use the table: everybody without a registry or authentication, the authenticated if the row asks for it. */
  ghost predicate Serves(db: Db, table: string, authenticated: bool) {
    match db.registry
    case None => true
    case Some(rows) => table in rows && rows[table].isExposed && (rows[table].requireAuth ==> authenticated)
  }

  /** Such a call goes on to the table exactly if the rows let this caller, and is refused otherwise. */
  lemma ConvergedGate(world: World, steps: seq<Step>, T: nat, D: nat, i: nat)
    requires Settled(world, T) && IsRun(world, INITIAL, steps) && PunctualRun(world, INITIAL, steps, T, D)
    requires i < |After(world, INITIAL, steps).calls|
    requires var c := After(world, INITIAL, steps).calls[i]; c.phase.Answered? && c.started > T + 60_000 + D
    ensures var s := After(world, INITIAL, steps); var c := s.calls[i];
      && Enabled(s, Advance(i))
      && var p := Do(world, s, Advance(i)).calls[i].phase;
      && (Serves(At(world, T), c.table, c.authenticated) ==> p == Admitted(c.phase.grounds))
      && (!Serves(At(world, T), c.table, c.authenticated) ==> p == Refused)
  {
    CacheConverges(world, steps, T, D, i);
    var s := After(world, INITIAL, steps);
    hide IsRun, After, PunctualRun, Answer, At, Settled;
    AnsweredNext(world, s, i);
  }

  lemma AnsweredNext(world: World, s: State, i: nat)
    requires i < |s.calls| && s.calls[i].phase.Answered?
    ensures var c := s.calls[i]; var r := Answer(c.phase.grounds, c.table);
      && Enabled(s, Advance(i))
      && Do(world, s, Advance(i)).calls[i].phase ==
         (if r.Err? || (r.value && !c.authenticated) then Refused else Admitted(c.phase.grounds))
  {
    hide Answer;
  }
}
