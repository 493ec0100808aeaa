/**
 * The services as objects and the services as state machines are one: what a method does in one call is
 * a run of its machine, so the theorems about runs speak about the methods too.
 */
module Simulation {
  import opened Wrappers
  import opened SqlStatements
  import opened SqlMeaning
  import E = Executors
  import Iso = Isolation
  import S = Sessions
  import R = Rotation
  import RR = RotationRuns
  import C = Catalog
  import Reg = Registry
  import G = Gate

  // ---------------------------------------------------------------- one statement

  function Id(user: Option<C.CurrentUser>): Option<int> {
    if user.Some? then Some(user.value.id) else None
  }

  /** One request on one idle connection. */
  function AloneRequest<V>(rows: Rows<V>, next: nat, user: Option<C.CurrentUser>, s: Statement): Iso.State<V> {
    Iso.State(rows, next, [Iso.Conn(None, Unset, None, None)], [Iso.Request(Id(user), s, Iso.New)])
  }

  lemma RunCons<V>(I: Interp<V>, s: Iso.State<V>, step: Iso.Step<V>, steps: seq<Iso.Step<V>>)
    requires Iso.Enabled(I, s, step) && Iso.IsRun(I, Iso.Do(I, s, step), steps)
    ensures Iso.IsRun(I, s, [step] + steps) && Iso.After(I, s, [step] + steps) == Iso.After(I, Iso.Do(I, s, step), steps)
  {
    assert ([step] + steps)[1..] == steps;
  }

  /** The connection is begun and has the user, if there is one. */
  function PreparedRequest<V>(rows: Rows<V>, next: nat, user: Option<C.CurrentUser>, s: Statement): Iso.State<V> {
    Iso.State(rows, next,
      [Iso.Conn(Some(0), Unset, if user.Some? then Some(User(user.value.id)) else None, None)],
      [Iso.Request(Id(user), s, if user.Some? then Iso.Ready(0) else Iso.Begun(0))])
  }

  function Prepare<V>(user: Option<C.CurrentUser>): seq<Iso.Step<V>> {
    [Iso.Begin(0, 0)] + (if user.Some? then [Iso.Configure(0)] + [] else [])
  }

  lemma PrepareRuns<V>(I: Interp<V>, rows: Rows<V>, next: nat, user: Option<C.CurrentUser>, s: Statement)
    ensures Iso.IsRun(I, AloneRequest(rows, next, user, s), Prepare(user))
    ensures Iso.After(I, AloneRequest(rows, next, user, s), Prepare(user)) == PreparedRequest(rows, next, user, s)
  {
    var s0 := AloneRequest(rows, next, user, s);
    var s1 := Iso.Do(I, s0, Iso.Begin(0, 0));
    if user.Some? {
      var s2 := Iso.Do(I, s1, Iso.Configure(0));
      assert s2 == PreparedRequest(rows, next, user, s);
      RunCons(I, s1, Iso.Configure(0), []);
      RunCons(I, s0, Iso.Begin(0, 0), [Iso.Configure(0)] + []);
    } else {
      assert s1 == PreparedRequest(rows, next, user, s);
      RunCons(I, s0, Iso.Begin(0, 0), []);
    }
  }

  lemma CommitRuns<V>(I: Interp<V>, rows: Rows<V>, next: nat, user: Option<C.CurrentUser>, s: Statement,
                      e: Effect<V>, next2: nat)
    requires Effects(I, OwnerOnly, E.SettingOf(user), s, rows, next, e)
    requires next <= next2 && forall id | id in e.puts :: id < next2
    ensures var t, steps := PreparedRequest(rows, next, user, s), [Iso.Run(0, e, next2)] + ([Iso.Commit(0)] + []);
      && Iso.IsRun(I, t, steps)
      && Iso.After(I, t, steps) ==
         Iso.State(Apply(rows, e), next2, [Iso.Conn(None, Unset, None, None)], [Iso.Request(Id(user), s, Iso.Finished)])
  {
    var t := PreparedRequest(rows, next, user, s);
    var t1 := Iso.Do(I, t, Iso.Run(0, e, next2));
    var t2 := Iso.Do(I, t1, Iso.Commit(0));
    assert t2 ==
      Iso.State(Apply(rows, e), next2, [Iso.Conn(None, Unset, None, None)], [Iso.Request(Id(user), s, Iso.Finished)]);
    hide Effects, Apply;
    RunCons(I, t1, Iso.Commit(0), []);
    RunCons(I, t, Iso.Run(0, e, next2), [Iso.Commit(0)] + []);
  }

  lemma {:induction false} RunAppend<V>(I: Interp<V>, s: Iso.State<V>, a: seq<Iso.Step<V>>, b: seq<Iso.Step<V>>)
    requires Iso.IsRun(I, s, a) && Iso.IsRun(I, Iso.After(I, s, a), b)
    ensures Iso.IsRun(I, s, a + b) && Iso.After(I, s, a + b) == Iso.After(I, Iso.After(I, s, a), b)
    decreases |a|
  {
    hide Iso.Enabled, Iso.Do;
    if a == [] {
      assert a + b == b;
    } else {
      RunAppend(I, Iso.Do(I, s, a[0]), a[1..], b);
      assert (a + b)[1..] == a[1..] + b;
    }
  }

  /** Whatever `RunStatement` can do to the table, a run of the pool's state machine does. */
  lemma StatementIsARun<V(!new)>(engine: E.Engine<V>, user: Option<C.CurrentUser>, s: Statement, before: Rows<V>,
                                 next: nat, after: Rows<V>, out: seq<Row<V>>) returns (steps: seq<Iso.Step<V>>)
    requires engine.policy.OwnerOnly? && E.Fresh(before, next)
    requires E.Executes(engine, user, s, before, next, after, out)
    ensures var I, t := engine.interp, AloneRequest(before, next, user, s);
      && Iso.IsRun(I, t, steps)
      && Iso.After(I, t, steps).rows == after
      && Iso.After(I, t, steps).conns == t.conns
  {
    hide Effects, Apply, E.Returned;
    var e :| Effects(engine.interp, engine.policy, E.SettingOf(user), s, before, next, e)
      && after == Apply(before, e) && out == E.Returned(s, before, e);
    E.WrittenBelow(engine.interp, engine.policy, E.SettingOf(user), s, before, next, e);
    PrepareRuns(engine.interp, before, next, user, s);
    CommitRuns(engine.interp, before, next, user, s, e, next + |e.puts|);
    steps := Prepare(user) + ([Iso.Run(0, e, next + |e.puts|)] + ([Iso.Commit(0)] + []));
    hide Iso.Enabled, Iso.Do, Prepare;
    RunAppend(engine.interp, AloneRequest(before, next, user, s), Prepare(user),
      [Iso.Run(0, e, next + |e.puts|)] + ([Iso.Commit(0)] + []));
  }

  /** So under every fault, what a request leaves behind is what some run leaves behind. */
  lemma RequestIsARun<V(!new)>(engine: E.Engine<V>, user: Option<C.CurrentUser>, s: Statement, faults: E.Faults,
                               before: Rows<V>, next: nat, after: Rows<V>, r: Result<seq<Row<V>>>)
    returns (steps: seq<Iso.Step<V>>)
    requires engine.policy.OwnerOnly? && E.Fresh(before, next)
    requires E.Answered(engine, user, Ok(s), faults, before, next, after, r)
    ensures var I, t := engine.interp, AloneRequest(before, next, user, s);
      Iso.IsRun(I, t, steps) && Iso.After(I, t, steps).rows == after
  {
    hide E.Executes, E.Runs;
    if r.Ok? {
      steps := StatementIsARun(engine, user, s, before, next, after, r.value);
    } else if after == before {
      steps := [];
    } else {
      var out :| E.Executes(engine, user, s, before, next, after, out);
      steps := StatementIsARun(engine, user, s, before, next, after, out);
    }
  }

  // ---------------------------------------------------------------- one refresh

  /** One refresh call that nobody disturbs. */
  function AloneRefresh(sessions: S.Table, next: nat, now: int, ttl: int, token: string): R.State {
    R.State(sessions, next, now, ttl, [R.Refresh(token, R.Start, 0, 0)], 0)
  }

  lemma RotationIsARun(t: R.State, id: nat, newToken: string) returns (steps: seq<R.Step>)
    requires |t.calls| == 1 && t.calls[0].phase.Start? && S.TokenFree(t.sessions, newToken)
    requires S.Accepts(t.sessions, id, t.calls[0].token, t.now)
    ensures R.IsRun(t, steps)
    ensures R.After(t, steps).sessions ==
      S.Rotated(t.sessions, id, t.next, S.NewSession(t.sessions[id].user, newToken, t.now + t.ttl))
  {
    var t1 := R.Do(t, R.Lookup(0, Some(id)));
    var t2 := R.Do(t1, R.Begin(0));
    assert t2.sessions == t.sessions && t2.calls[0].phase == R.Begun(id, t.sessions[id].user);
    steps := [R.Lookup(0, Some(id))] + ([R.Begin(0)] + RR.Rotate(0, newToken));
    RR.RotateRuns(t2, 0, newToken);
    hide R.Do, RR.Rotate, S.Rotated;
    RR.RunCons(t1, R.Begin(0), RR.Rotate(0, newToken));
    RR.RunCons(t, R.Lookup(0, Some(id)), [R.Begin(0)] + RR.Rotate(0, newToken));
  }

  /** What one call of `AuthService.Refresh` does to the sessions, a run of one refresh does. */
  method RefreshIsARun(service: S.AuthService, presented: string, newToken: string, fault: S.Fault)
    returns (r: Result<S.AuthResponse>, ghost steps: seq<R.Step>)
    requires service.Valid()
    modifies service`sessions, service`next
    ensures service.Valid()
    ensures var t := old(AloneRefresh(service.sessions, service.next, service.now, service.ttl, presented));
      R.IsRun(t, steps) && R.After(t, steps).sessions == service.sessions
  {
    ghost var t := AloneRefresh(service.sessions, service.next, service.now, service.ttl, presented);
    hide S.TableOk, S.UsersOk;
    r := service.Refresh(presented, newToken, fault);
    steps := [];
    if service.sessions != t.sessions {
      ghost var id :| id in t.sessions && t.sessions[id].token == presented
        && !t.sessions[id].revoked && t.sessions[id].expires > t.now
        && service.sessions == t.sessions[id := t.sessions[id].(revoked := true, replacedBy := Some(t.next))][
             t.next := S.Session(t.sessions[id].user, newToken, t.now + t.ttl, false, None)];
      assert S.Accepts(t.sessions, id, presented, t.now);
      assert service.sessions ==
        S.Rotated(t.sessions, id, t.next, S.NewSession(t.sessions[id].user, newToken, t.now + t.ttl));
      steps := RotationIsARun(t, id, newToken);
    }
  }

  /** The session insert of a sign-in is the machine's step, or no step if it fails. */
  method SignInIsARun(service: S.AuthService, user: int, token: string, fails: bool)
    returns (r: Result<nat>, ghost steps: seq<R.Step>)
    requires service.Valid()
    modifies service`sessions, service`next
    ensures service.Valid()
    ensures var t := old(R.State(service.sessions, service.next, service.now, service.ttl, [], 0));
      && R.IsRun(t, steps) && R.After(t, steps).sessions == service.sessions
      && steps == if r.Ok? then [R.SignIn(user, token)] else []
  {
    ghost var t := R.State(service.sessions, service.next, service.now, service.ttl, [], 0);
    r := service.InsertSession(user, token, fails);
    steps := [];
    if r.Ok? {
      assert R.Enabled(t, R.SignIn(user, token));
      assert R.Do(t, R.SignIn(user, token)).sessions == service.sessions;
      RR.RunCons(t, R.SignIn(user, token), []);
      steps := [R.SignIn(user, token)] + [];
    }
  }

  // ---------------------------------------------------------------- the loads

  lemma GateCons(world: Reg.World, s: G.State, step: G.Step, steps: seq<G.Step>)
    requires G.Enabled(s, step) && G.IsRun(world, G.Do(world, s, step), steps)
    ensures G.IsRun(world, s, [step] + steps)
    ensures G.After(world, s, [step] + steps) == G.After(world, G.Do(world, s, step), steps)
  {
    assert ([step] + steps)[1..] == steps;
  }

  /** The one call advances, time passes, and then the rest happens. */
  function Query(t: nat, rest: seq<G.Step>): seq<G.Step> {
    [G.Advance(0)] + ([G.Tick(t)] + rest)
  }

  lemma QueryRuns(world: Reg.World, s: G.State, t: nat, rest: seq<G.Step>)
    requires |s.calls| == 1 && G.Busy(s.calls[0].phase)
    requires var u := G.Do(world, s, G.Advance(0)); G.IsRun(world, u.(now := u.now + t), rest)
    ensures G.IsRun(world, s, Query(t, rest))
    ensures var u := G.Do(world, s, G.Advance(0));
      G.After(world, s, Query(t, rest)) == G.After(world, u.(now := u.now + t), rest)
  {
    var u := G.Do(world, s, G.Advance(0));
    GateCons(world, u, G.Tick(t), rest);
    GateCons(world, s, G.Advance(0), [G.Tick(t)] + rest);
  }

  lemma LastRuns(world: Reg.World, s: G.State)
    requires |s.calls| == 1 && G.Busy(s.calls[0].phase)
    ensures G.IsRun(world, s, [G.Advance(0)] + [])
    ensures G.After(world, s, [G.Advance(0)] + []) == G.Do(world, s, G.Advance(0))
  {
    GateCons(world, s, G.Advance(0), []);
  }

  /** The state after a step of the only call. */
  function Stepped(s: G.State, now: nat, phase: G.Phase): G.State
    requires |s.calls| == 1
  {
    s.(now := now, calls := [s.calls[0].(phase := phase)])
  }

  lemma ExistsLoadRuns(world: Reg.World, s: G.State, e: Reg.Entry<bool>) returns (steps: seq<G.Step>)
    requires |s.calls| == 1 && s.calls[0].phase.Start?
    requires !(s.tableExists.Some? && s.tableExists.value.Alive(s.now))
    requires e.LoadedIn(s.now, e.inserted) && Reg.ExistsOk(world, e)
    ensures G.IsRun(world, s, steps)
    ensures G.After(world, s, steps) == Stepped(s, e.inserted, G.HaveExists(e, e.inserted)).(tableExists := Some(e))
  {
    var s1 := Stepped(s, e.readAt, G.AskExists(e.began));
    var s2 := Stepped(s, e.inserted, G.SawExists(e.began, e.readAt, e.value));
    LastRuns(world, s2);
    assert G.Do(world, s1, G.Advance(0)) == Stepped(s, e.readAt, G.SawExists(e.began, e.readAt, e.value));
    QueryRuns(world, s1, e.inserted - e.readAt, [G.Advance(0)] + []);
    assert G.Do(world, s, G.Advance(0)) == Stepped(s, e.began, G.AskExists(e.began));
    steps := Query(e.readAt - e.began, Query(e.inserted - e.readAt, [G.Advance(0)] + []));
    QueryRuns(world, s, e.readAt - e.began, Query(e.inserted - e.readAt, [G.Advance(0)] + []));
  }

  lemma ConfigLoadRuns(world: Reg.World, s: G.State, e: G.ConfigEntry) returns (steps: seq<G.Step>)
    requires |s.calls| == 1 && s.calls[0].phase.HaveExists? && s.calls[0].phase.entry.value
    requires var table := s.calls[0].table;
      !(table in s.tableConfig && s.tableConfig[table].Alive(s.now)) && Reg.ConfigOk(world, table, e)
    requires e.LoadedIn(s.now, e.inserted)
    ensures G.IsRun(world, s, steps)
    ensures var p, table := s.calls[0].phase, s.calls[0].table;
      G.After(world, s, steps) ==
      Stepped(s, e.inserted, G.Answered(G.Registered(p.entry, p.at, e, e.inserted))).(tableConfig := s.tableConfig[table := e])
  {
    var p := s.calls[0].phase;
    var saw := G.SawConfig(p.entry, p.at, e.began, e.readAt, e.value.value);
    var s1 := Stepped(s, e.readAt, G.AskConfig(p.entry, p.at, e.began));
    var s2 := Stepped(s, e.inserted, saw);
    LastRuns(world, s2);
    assert G.Do(world, s1, G.Advance(0)) == Stepped(s, e.readAt, saw);
    QueryRuns(world, s1, e.inserted - e.readAt, [G.Advance(0)] + []);
    assert G.Do(world, s, G.Advance(0)) == Stepped(s, e.began, G.AskConfig(p.entry, p.at, e.began));
    steps := Query(e.readAt - e.began, Query(e.inserted - e.readAt, [G.Advance(0)] + []));
    QueryRuns(world, s, e.readAt - e.began, Query(e.inserted - e.readAt, [G.Advance(0)] + []));
  }

  /** From the query for the columns on. */
  lemma ColumnsLoadRuns(world: Reg.World, s: G.State, e: Reg.Entry<C.TableMeta>, t2: nat, t3: nat)
    returns (steps: seq<G.Step>)
    requires |s.calls| == 1 && s.calls[0].phase.SawTable? && s.calls[0].phase.t1 == e.readAt && s.calls[0].phase.began == e.began
    requires s.now == t2 && e.readAt <= t2 <= t3 <= e.inserted
    requires e.value.schema == G.SCHEMA && e.value.name == s.calls[0].table
    requires e.value.columns == Reg.ColumnsAt(Reg.At(world, t2), e.value.schema, e.value.name)
    requires e.value.primaryKey == Reg.KeyAt(Reg.At(world, t3), e.value.schema, e.value.name)
    ensures G.IsRun(world, s, steps)
    ensures G.After(world, s, steps) ==
      Stepped(s, e.inserted, G.Ready(s.calls[0].phase.grounds, e, e.inserted)).(
        tableMeta := s.tableMeta[Reg.CacheKey(G.SCHEMA, e.value.name) := e])
  {
    var g := s.calls[0].phase.grounds;
    var columns := G.SawColumns(g, e.began, e.readAt, t2, e.value.columns);
    var key := G.SawKey(g, e.began, e.readAt, t2, t3, e.value.columns, e.value.primaryKey);
    var s1, s2 := Stepped(s, t3, columns), Stepped(s, e.inserted, key);
    hide Reg.CacheKey, Reg.ColumnsAt, Reg.KeyAt;
    assert G.Do(world, s, G.Advance(0)) == Stepped(s, t2, columns);
    assert G.Do(world, s1, G.Advance(0)) == Stepped(s, t3, key);
    assert G.Do(world, s2, G.Advance(0)) == Stepped(s, e.inserted, G.Ready(g, e, e.inserted)).(
      tableMeta := s.tableMeta[Reg.CacheKey(G.SCHEMA, e.value.name) := e]);
    hide G.Do;
    LastRuns(world, s2);
    QueryRuns(world, s1, e.inserted - t3, [G.Advance(0)] + []);
    steps := Query(t3 - t2, Query(e.inserted - t3, [G.Advance(0)] + []));
    QueryRuns(world, s, t3 - t2, Query(e.inserted - t3, [G.Advance(0)] + []));
  }

  lemma TableLoadRuns(world: Reg.World, s: G.State, e: Reg.Entry<C.TableMeta>, t2: nat, t3: nat)
    returns (steps: seq<G.Step>)
    requires |s.calls| == 1 && s.calls[0].phase.AskMeta? && s.calls[0].phase.began == e.began
    requires s.now == e.readAt && e.readAt <= t2 <= t3 <= e.inserted
    requires e.value.schema == G.SCHEMA && e.value.name == s.calls[0].table
    requires (e.value.schema, e.value.name) in Reg.At(world, e.readAt).tables
    requires e.value.columns == Reg.ColumnsAt(Reg.At(world, t2), e.value.schema, e.value.name)
    requires e.value.primaryKey == Reg.KeyAt(Reg.At(world, t3), e.value.schema, e.value.name)
    ensures G.IsRun(world, s, steps)
    ensures G.After(world, s, steps) ==
      Stepped(s, e.inserted, G.Ready(s.calls[0].phase.grounds, e, e.inserted)).(
        tableMeta := s.tableMeta[Reg.CacheKey(G.SCHEMA, e.value.name) := e])
  {
    var g := s.calls[0].phase.grounds;
    var s2 := Stepped(s, t2, G.SawTable(g, e.began, e.readAt));
    hide Reg.CacheKey, Reg.ColumnsAt, Reg.KeyAt;
    assert G.Do(world, s, G.Advance(0)) == Stepped(s, e.readAt, G.SawTable(g, e.began, e.readAt));
    hide G.Do;
    var rest := ColumnsLoadRuns(world, s2, e, t2, t3);
    QueryRuns(world, s, t2 - e.readAt, rest);
    steps := Query(t2 - e.readAt, rest);
  }

  lemma MetaLoadRuns(world: Reg.World, s: G.State, e: Reg.Entry<C.TableMeta>) returns (steps: seq<G.Step>)
    requires |s.calls| == 1 && s.calls[0].phase.Admitted?
    requires e.value.schema == G.SCHEMA && e.value.name == s.calls[0].table && Reg.MetaOk(world, e)
    requires var k := Reg.CacheKey(G.SCHEMA, e.value.name); !(k in s.tableMeta && s.tableMeta[k].Alive(s.now))
    requires e.LoadedIn(s.now, e.inserted)
    ensures G.IsRun(world, s, steps)
    ensures G.After(world, s, steps) ==
      Stepped(s, e.inserted, G.Ready(s.calls[0].phase.grounds, e, e.inserted)).(
        tableMeta := s.tableMeta[Reg.CacheKey(G.SCHEMA, e.value.name) := e])
  {
    var g, m := s.calls[0].phase.grounds, e.value;
    var t2: nat, t3: nat :| e.readAt <= t2 <= t3 <= e.inserted
      && m.columns == Reg.ColumnsAt(Reg.At(world, t2), m.schema, m.name)
      && m.primaryKey == Reg.KeyAt(Reg.At(world, t3), m.schema, m.name);
    var s1 := Stepped(s, e.readAt, G.AskMeta(g, e.began));
    hide Reg.CacheKey, Reg.ColumnsAt, Reg.KeyAt;
    assert G.Do(world, s, G.Advance(0)) == Stepped(s, e.began, G.AskMeta(g, e.began));
    hide G.Do;
    var rest := TableLoadRuns(world, s1, e, t2, t3);
    QueryRuns(world, s, e.readAt - e.began, rest);
    steps := Query(e.readAt - e.began, rest);
  }

  lemma FailRuns(world: Reg.World, s: G.State, t: nat) returns (steps: seq<G.Step>)
    requires |s.calls| == 1 && G.Busy(s.calls[0].phase)
    ensures G.IsRun(world, s, steps) && G.After(world, s, steps) == Stepped(s, s.now + t, G.Refused)
  {
    var s1 := G.Do(world, s, G.Tick(t));
    assert G.Do(world, s1, G.Fails(0)) == Stepped(s, s.now + t, G.Refused);
    GateCons(world, s1, G.Fails(0), []);
    GateCons(world, s, G.Tick(t), [G.Fails(0)] + []);
    steps := [G.Tick(t)] + ([G.Fails(0)] + []);
  }

  /** The caches as the machine's state, with one call in them. */
  function Snapshot(cache: Reg.RegistryCache, call: G.Call): G.State
    reads cache
  {
    G.State(cache.now, cache.tableExists, cache.tableConfig, cache.tableMeta, [call])
  }

  /** What `oxyd_tables_exists` answers and caches, the gate's steps answer and cache. */
  method ExistsIsARun(cache: Reg.RegistryCache, q: Reg.Query, call: G.Call)
    returns (r: Result<bool>, ghost phase: G.Phase, ghost steps: seq<G.Step>)
    requires cache.Valid() && call.phase.Start?
    modifies cache`now, cache`slowest, cache`tableExists
    ensures cache.Valid()
    ensures G.IsRun(cache.world, old(Snapshot(cache, call)), steps)
    ensures G.After(cache.world, old(Snapshot(cache, call)), steps) == Snapshot(cache, call.(phase := phase))
    ensures if r.Ok? then phase.HaveExists? && phase.entry.value == r.value else phase.Refused?
  {
    ghost var s := Snapshot(cache, call);
    r := cache.OxydTablesExists(q);
    if s.tableExists.Some? && s.tableExists.value.Alive(s.now) {
      phase := G.HaveExists(s.tableExists.value, s.now);
      assert G.Do(cache.world, s, G.Advance(0)) == Snapshot(cache, call.(phase := phase));
      steps := [G.Advance(0)] + [];
      LastRuns(cache.world, s);
    } else if r.Ok? {
      phase := G.HaveExists(cache.tableExists.value, cache.now);
      steps := ExistsLoadRuns(cache.world, s, cache.tableExists.value);
    } else {
      phase := G.Refused;
      steps := FailRuns(cache.world, s, cache.now - s.now);
    }
  }

  /** The same for the configuration that a miss fetches. */
  method ConfigIsARun(cache: Reg.RegistryCache, q: Reg.Query, call: G.Call)
    returns (r: Result<Option<Reg.OxydTableConfig>>, ghost phase: G.Phase, ghost steps: seq<G.Step>)
    requires cache.Valid() && call.phase.HaveExists? && call.phase.entry.value
    requires !(call.table in cache.tableConfig && cache.tableConfig[call.table].Alive(cache.now))
    modifies cache`now, cache`slowest, cache`tableConfig
    ensures cache.Valid()
    ensures G.IsRun(cache.world, old(Snapshot(cache, call)), steps)
    ensures G.After(cache.world, old(Snapshot(cache, call)), steps) == Snapshot(cache, call.(phase := phase))
    ensures if r.Ok? then phase.Answered? && G.Answer(phase.grounds, call.table) == Reg.Exposure(r.value, call.table)
      else phase.Refused?
  {
    ghost var s := Snapshot(cache, call);
    r := cache.FetchTableConfig(call.table, q);
    if r.Ok? {
      ghost var e := cache.tableConfig[call.table];
      phase := G.Answered(G.Registered(call.phase.entry, call.phase.at, e, cache.now));
      steps := ConfigLoadRuns(cache.world, s, e);
    } else {
      phase := G.Refused;
      steps := FailRuns(cache.world, s, cache.now - s.now);
    }
  }

  /** The same for the metadata that a miss fetches. */
  method MetaIsARun(cache: Reg.RegistryCache, q1: Reg.Query, q2: Reg.Query, q3: Reg.Query, call: G.Call)
    returns (r: Result<C.TableMeta>, ghost phase: G.Phase, ghost steps: seq<G.Step>)
    requires cache.Valid() && call.phase.Admitted?
    requires var k := Reg.CacheKey(G.SCHEMA, call.table); !(k in cache.tableMeta && cache.tableMeta[k].Alive(cache.now))
    modifies cache`now, cache`slowest, cache`tableMeta
    ensures cache.Valid()
    ensures G.IsRun(cache.world, old(Snapshot(cache, call)), steps)
    ensures G.After(cache.world, old(Snapshot(cache, call)), steps) == Snapshot(cache, call.(phase := phase))
    ensures if r.Ok? then phase.Ready? && phase.meta.value == r.value else phase.Refused?
  {
    ghost var s := Snapshot(cache, call);
    ghost var k := Reg.CacheKey(G.SCHEMA, call.table);
    r := cache.FetchTableMeta(G.SCHEMA, call.table, q1, q2, q3);
    if r.Ok? {
      ghost var e := cache.tableMeta[k];
      hide Reg.CacheKey;
      phase := G.Ready(call.phase.grounds, e, cache.now);
      steps := MetaLoadRuns(cache.world, s, e);
    } else {
      phase := G.Refused;
      steps := FailRuns(cache.world, s, cache.now - s.now);
    }
  }

  lemma {:induction false} GateAppend(world: Reg.World, s: G.State, a: seq<G.Step>, b: seq<G.Step>)
    requires G.IsRun(world, s, a) && G.IsRun(world, G.After(world, s, a), b)
    ensures G.IsRun(world, s, a + b) && G.After(world, s, a + b) == G.After(world, G.After(world, s, a), b)
    decreases |a|
  {
    hide G.Enabled, G.Do;
    if a == [] {
      assert a + b == b;
    } else {
      GateAppend(world, G.Do(world, s, a[0]), a[1..], b);
      assert (a + b)[1..] == a[1..] + b;
    }
  }

  lemma ExistsStepRuns(world: Reg.World, s: G.State, e: Option<Reg.Entry<bool>>, to: nat, v: bool)
    returns (steps: seq<G.Step>)
    requires |s.calls| == 1 && s.calls[0].phase.Start?
    requires Reg.ExistsStep(world, s.tableExists, s.now, e, to, v)
    ensures G.IsRun(world, s, steps)
    ensures e.Some? && G.After(world, s, steps) == Stepped(s, to, G.HaveExists(e.value, to)).(tableExists := e)
  {
    if s.tableExists.Some? && s.tableExists.value.Alive(s.now) {
      steps := [G.Advance(0)] + [];
      LastRuns(world, s);
    } else {
      steps := ExistsLoadRuns(world, s, e.value);
    }
  }

  lemma ConfigStepRuns(world: Reg.World, s: G.State, c: map<string, G.ConfigEntry>, to: nat, v: Reg.OxydTableConfig)
    returns (steps: seq<G.Step>, g: G.Grounds)
    requires |s.calls| == 1 && s.calls[0].phase.HaveExists? && s.calls[0].phase.entry.value
    requires Reg.ConfigStep(world, s.calls[0].table, s.tableConfig, s.now, c, to, v)
    ensures G.IsRun(world, s, steps)
    ensures G.After(world, s, steps) == Stepped(s, to, G.Answered(g)).(tableConfig := c)
    ensures G.Answer(g, s.calls[0].table) == Reg.Exposure(Some(v), s.calls[0].table)
  {
    var p, table := s.calls[0].phase, s.calls[0].table;
    g := G.Registered(p.entry, p.at, c[table], to);
    if table in s.tableConfig && s.tableConfig[table].Alive(s.now) {
      steps := [G.Advance(0)] + [];
      LastRuns(world, s);
    } else {
      steps := ConfigLoadRuns(world, s, c[table]);
    }
  }

  lemma LoadedRuns(world: Reg.World, s: G.State, e: Option<Reg.Entry<bool>>, c: map<string, G.ConfigEntry>, to: nat,
                   cfg: Option<Reg.OxydTableConfig>)
    returns (steps: seq<G.Step>, g: G.Grounds)
    requires |s.calls| == 1 && s.calls[0].phase.Start?
    requires Reg.Loaded(world, s.calls[0].table, s.tableExists, s.tableConfig, s.now, e, c, to, cfg)
    ensures G.IsRun(world, s, steps)
    ensures G.After(world, s, steps) == Stepped(s, to, G.Answered(g)).(tableExists := e, tableConfig := c)
    ensures G.Answer(g, s.calls[0].table) == Reg.Exposure(cfg, s.calls[0].table)
  {
    match cfg
    case None =>
      var first := ExistsStepRuns(world, s, e, to, false);
      var t := Stepped(s, to, G.HaveExists(e.value, to)).(tableExists := e);
      g := G.Dev(e.value, to);
      assert !e.value.value;
      LastRuns(world, t);
      assert G.Do(world, t, G.Advance(0)) == Stepped(t, to, G.Answered(g));
      hide G.Do, Reg.ExistsStep;
      steps := first + ([G.Advance(0)] + []);
      GateAppend(world, s, first, [G.Advance(0)] + []);
    case Some(v) =>
      var mid: nat :| Reg.ExistsStep(world, s.tableExists, s.now, e, mid, true)
        && Reg.ConfigStep(world, s.calls[0].table, s.tableConfig, mid, c, to, v);
      var first := ExistsStepRuns(world, s, e, mid, true);
      assert e.value.value;
      var t := Stepped(s, mid, G.HaveExists(e.value, mid)).(tableExists := e);
      hide G.Do, Reg.ExistsStep, Reg.ConfigStep;
      var rest: seq<G.Step>;
      rest, g := ConfigStepRuns(world, t, c, to, v);
      steps := first + rest;
      GateAppend(world, s, first, rest);
  }

  lemma NotLoadedRuns(world: Reg.World, s: G.State, e: Option<Reg.Entry<bool>>, c: map<string, G.ConfigEntry>, to: nat)
    returns (steps: seq<G.Step>)
    requires |s.calls| == 1 && s.calls[0].phase.Start?
    requires Reg.NotLoaded(world, s.tableExists, s.tableConfig, s.now, e, c, to)
    ensures G.IsRun(world, s, steps)
    ensures G.After(world, s, steps) == Stepped(s, to, G.Refused).(tableExists := e, tableConfig := c)
  {
    if e == s.tableExists {
      steps := FailRuns(world, s, to - s.now);
    } else {
      var mid: nat :| mid <= to && Reg.ExistsStep(world, s.tableExists, s.now, e, mid, true);
      var first := ExistsStepRuns(world, s, e, mid, true);
      var t := Stepped(s, mid, G.HaveExists(e.value, mid)).(tableExists := e);
      hide Reg.ExistsStep;
      var rest := FailRuns(world, t, to - mid);
      steps := first + rest;
      GateAppend(world, s, first, rest);
    }
  }

  /** What `ensure_exposed` answers and does to the caches, the gate's steps answer and do. */
  method EnsureExposedIsARun(cache: Reg.RegistryCache, q1: Reg.Query, q2: Reg.Query, call: G.Call)
    returns (r: Result<bool>, ghost phase: G.Phase, ghost steps: seq<G.Step>)
    requires cache.Valid() && call.phase.Start?
    modifies cache`now, cache`slowest, cache`tableExists, cache`tableConfig
    ensures cache.Valid()
    ensures G.IsRun(cache.world, old(Snapshot(cache, call)), steps)
    ensures G.After(cache.world, old(Snapshot(cache, call)), steps) == Snapshot(cache, call.(phase := phase))
    ensures if r.Ok? || r.error.NotFound? then phase.Answered? && G.Answer(phase.grounds, call.table) == r
      else phase.Refused?
  {
    ghost var s := Snapshot(cache, call);
    hide Reg.Loaded, Reg.NotLoaded, Reg.Exposure, G.Answer, Reg.ExistsBetween, Reg.ExposedBetween, Reg.HiddenBetween;
    r := cache.EnsureExposed(call.table, q1, q2);
    if r.Ok? || r.error.NotFound? {
      ghost var cfg :| Reg.Loaded(cache.world, call.table, s.tableExists, s.tableConfig, s.now,
        cache.tableExists, cache.tableConfig, cache.now, cfg) && r == Reg.Exposure(cfg, call.table);
      ghost var g: G.Grounds;
      steps, g := LoadedRuns(cache.world, s, cache.tableExists, cache.tableConfig, cache.now, cfg);
      phase := G.Answered(g);
    } else {
      steps := NotLoadedRuns(cache.world, s, cache.tableExists, cache.tableConfig, cache.now);
      phase := G.Refused;
    }
  }
}
