/**
 * Any number of requests interleaved on a shared connection pool, each with its own transaction, over a
 * table with the row policies of `posts`.
 */
module Isolation {
  import opened Wrappers
  import opened SqlStatements
  import opened SqlMeaning

  // ---------------------------------------------------------------- the state machine

  /** A pooled connection: the session's setting, the transaction-local one, and uncommitted changes. */
  datatype Conn<V> = Conn(holder: Option<nat>, base: Setting, local: Option<Setting>, pending: Option<Effect<V>>)
  {
    /** `current_setting('app.current_user_id', true)` */
    function Current(): Setting {
      if local.Some? then local.value else base
    }

    /** Commit or rollback: the transaction-local setting and the uncommitted changes go away. */
    function Released(): Conn<V> {
      Conn(None, base, None, None)
    }
  }

  datatype Phase = New | Begun(conn: nat) | Ready(conn: nat) | Ran(conn: nat) | Finished

  datatype Request = Request(user: Option<int>, statement: Statement, phase: Phase)

  datatype State<V> = State(rows: Rows<V>, next: nat, conns: seq<Conn<V>>, reqs: seq<Request>)

  /** What one request does next; `Run` also picks one of the effects the statement can have. */
  datatype Step<V> =
    | Begin(req: nat, conn: nat)
    | BeginFails(req: nat)
    | Configure(req: nat)
    | ConfigureFails(req: nat)
    | Run(req: nat, effect: Effect<V>, next: nat)
    | RunFails(req: nat)
    | Commit(req: nat)
    | CommitLost(req: nat)

  /** Rows that an uncommitted effect holds locks on. */
  function Touched<V>(e: Effect<V>): set<nat> {
    e.puts.Keys + e.dels
  }

  predicate Unlocked<V>(s: State<V>, c: nat, e: Effect<V>) {
    forall d | 0 <= d < |s.conns| && d != c && s.conns[d].pending.Some? :: Touched(s.conns[d].pending.value) !! Touched(e)
  }

  predicate OnConn<V>(s: State<V>, i: nat) {
    && i < |s.reqs|
    && !s.reqs[i].phase.New? && !s.reqs[i].phase.Finished?
    && s.reqs[i].phase.conn < |s.conns|
  }

  /** The user context is set, or the request is anonymous and sets none. */
  predicate CanRun<V>(s: State<V>, i: nat) {
    OnConn(s, i) && (s.reqs[i].phase.Ready? || (s.reqs[i].phase.Begun? && s.reqs[i].user.None?))
  }

  ghost predicate Enabled<V>(I: Interp<V>, s: State<V>, step: Step<V>) {
    && step.req < |s.reqs|
    && var r := s.reqs[step.req];
    match step
    case Begin(_, c) => r.phase.New? && c < |s.conns| && s.conns[c].holder.None?
    case BeginFails(_) => r.phase.New?
    case Configure(_) => OnConn(s, step.req) && r.phase.Begun? && r.user.Some?
    case ConfigureFails(_) => OnConn(s, step.req) && r.phase.Begun? && r.user.Some?
    case Run(_, e, next) =>
      && CanRun(s, step.req)
      && Effects(I, OwnerOnly, s.conns[r.phase.conn].Current(), r.statement, s.rows, s.next, e)
      && Unlocked(s, r.phase.conn, e)
      && s.next <= next && forall id | id in e.puts :: id < next
    case RunFails(_) => CanRun(s, step.req)
    case Commit(_) => OnConn(s, step.req) && r.phase.Ran? && s.conns[r.phase.conn].pending.Some?
    case CommitLost(_) => OnConn(s, step.req) && r.phase.Ran?
  }

  function WithConn<V>(s: State<V>, i: nat, phase: Phase, c: nat, conn: Conn<V>): State<V>
    requires i < |s.reqs| && c < |s.conns|
  {
    s.(conns := s.conns[c := conn], reqs := s.reqs[i := s.reqs[i].(phase := phase)])
  }

  ghost function Do<V>(I: Interp<V>, s: State<V>, step: Step<V>): State<V>
    requires Enabled(I, s, step)
  {
    var i, r := step.req, s.reqs[step.req];
    match step
    case Begin(_, c) => WithConn(s, i, Begun(c), c, Conn(Some(i), s.conns[c].base, None, None))
    case BeginFails(_) => s.(reqs := s.reqs[i := r.(phase := Finished)])
    case Configure(_) =>
      var c := r.phase.conn;
      WithConn(s, i, Ready(c), c, s.conns[c].(local := Some(User(r.user.value))))
    case Run(_, e, next) =>
      var c := r.phase.conn;
      WithConn(s, i, Ran(c), c, s.conns[c].(pending := Some(e))).(next := next)
    case Commit(_) =>
      var c := r.phase.conn;
      WithConn(s, i, Finished, c, s.conns[c].Released()).(rows := Apply(s.rows, s.conns[c].pending.value))
    case _ => WithConn(s, i, Finished, r.phase.conn, s.conns[r.phase.conn].Released())
  }

  ghost predicate IsRun<V>(I: Interp<V>, s: State<V>, steps: seq<Step<V>>)
    decreases |steps|
  {
    steps == [] || (Enabled(I, s, steps[0]) && IsRun(I, Do(I, s, steps[0]), steps[1..]))
  }

  ghost function After<V>(I: Interp<V>, s: State<V>, steps: seq<Step<V>>): State<V>
    requires IsRun(I, s, steps)
    decreases |steps|
  {
    if steps == [] then s else After(I, Do(I, s, steps[0]), steps[1..])
  }

  /** No request has started, every connection is idle, and no identity is in use that is still to come. */
  predicate Initial<V>(s: State<V>) {
    && (forall c | 0 <= c < |s.conns| :: s.conns[c] == Conn(None, Unset, None, None))
    && (forall i | 0 <= i < |s.reqs| :: s.reqs[i].phase.New?)
    && (forall id | id in s.rows :: id < s.next)
  }

  // ---------------------------------------------------------------- the invariant

  function SettingOf(user: Option<int>): Setting {
    if user.Some? then User(user.value) else Unset
  }

  /** The setting that a request in this phase must see. */
  function Expected(r: Request): Setting {
    if r.phase.Begun? then Unset else SettingOf(r.user)
  }

  predicate ConnOk<V>(s: State<V>, c: nat)
    requires c < |s.conns|
  {
    var conn := s.conns[c];
    && conn.base == Unset
    && match conn.holder
       case None => conn.local.None? && conn.pending.None?
       case Some(i) => OnConn(s, i) && s.reqs[i].phase.conn == c && conn.Current() == Expected(s.reqs[i])
                       && (conn.pending.Some? <==> s.reqs[i].phase.Ran?)
  }

  predicate ReqOk<V>(s: State<V>, i: nat)
    requires i < |s.reqs|
  {
    || s.reqs[i].phase.New?
    || s.reqs[i].phase.Finished?
    || (OnConn(s, i) && s.conns[s.reqs[i].phase.conn].holder == Some(i))
  }

  /** An uncommitted effect of `user` replaces and removes only rows of that user. */
  predicate OwnEffect<V>(I: Interp<V>, user: Option<int>, rows: Rows<V>, e: Effect<V>) {
    && (user.None? ==> Touched(e) == {})
    && (user.Some? ==>
          && (forall id | id in e.puts :: OwnedBy(I, e.puts[id], user.value) && (id in rows ==> OwnedBy(I, rows[id], user.value)))
          && (forall id | id in e.dels :: id in rows && OwnedBy(I, rows[id], user.value)))
  }

  predicate EffectOk<V>(I: Interp<V>, s: State<V>, c: nat)
    requires c < |s.conns|
  {
    var conn := s.conns[c];
    conn.pending.Some? ==>
      && conn.holder.Some? && conn.holder.value < |s.reqs|
      && OwnEffect(I, s.reqs[conn.holder.value].user, s.rows, conn.pending.value)
      && Unlocked(s, c, conn.pending.value)
      && (forall id | id in conn.pending.value.puts :: id < s.next)
  }

  predicate Inv<V>(I: Interp<V>, s: State<V>) {
    && (forall c | 0 <= c < |s.conns| :: ConnOk(s, c) && EffectOk(I, s, c))
    && (forall i | 0 <= i < |s.reqs| :: ReqOk(s, i))
    && (forall id | id in s.rows :: id < s.next)
  }

  lemma InitialInv<V>(I: Interp<V>, s: State<V>)
    requires Initial(s)
    ensures Inv(I, s)
  {
  }

  /** A statement's effect concerns only rows of the user in the setting. */
  lemma RunOwn<V>(I: Interp<V>, user: Option<int>, s: Statement, rows: Rows<V>, next: nat, e: Effect<V>)
    requires Effects(I, OwnerOnly, SettingOf(user), s, rows, next, e)
    requires forall id | id in rows :: id < next
    ensures OwnEffect(I, user, rows, e)
    ensures user.None? ==> e.returned == []
    ensures user.Some? ==> forall id | id in e.returned ::
              (id in e.puts && OwnedBy(I, e.puts[id], user.value)) || (id in rows && OwnedBy(I, rows[id], user.value))
  {
    hide Effects;
    if user.Some? {
      OwnerEffects(I, user.value, s, rows, next, e);
    } else if e.puts != map[] || e.dels != {} || e.returned != [] {
      EffectsNeedUser(I, Unset, s, rows, next, e);
    }
  }

  /** The setting a running statement sees is its own request's user. */
  lemma RunSetting<V>(I: Interp<V>, s: State<V>, i: nat)
    requires Inv(I, s) && CanRun(s, i)
    ensures s.conns[s.reqs[i].phase.conn].Current() == SettingOf(s.reqs[i].user)
  {
    var c := s.reqs[i].phase.conn;
    assert ReqOk(s, i) && ConnOk(s, c);
  }

  // ---------------------------------------------------------------- every step keeps it

  /** Who holds which connection with which setting: every step but `BeginFails`. */
  lemma ControlKept<V>(I: Interp<V>, s: State<V>, step: Step<V>)
    requires Inv(I, s) && Enabled(I, s, step)
    ensures var t := Do(I, s, step);
      && |t.conns| == |s.conns| && |t.reqs| == |s.reqs|
      && (forall c | 0 <= c < |t.conns| :: ConnOk(t, c)) && (forall i | 0 <= i < |t.reqs| :: ReqOk(t, i))
  {
    hide Effects, EffectOk, Apply;
    var t, i := Do(I, s, step), step.req;
    assert ReqOk(s, i);
    forall c | 0 <= c < |t.conns| ensures ConnOk(t, c) {
      assert ConnOk(s, c);
    }
    forall j | 0 <= j < |t.reqs| ensures ReqOk(t, j) {
      assert ReqOk(s, j);
    }
  }

  /** The connection a step works on; `BeginFails` has none. */
  function Active<V>(s: State<V>, step: Step<V>): Option<nat>
    requires step.req < |s.reqs|
  {
    match step
    case Begin(_, c) => Some(c)
    case BeginFails(_) => None
    case _ => if s.reqs[step.req].phase.New? || s.reqs[step.req].phase.Finished? then None else Some(s.reqs[step.req].phase.conn)
  }

  lemma OthersKept<V>(I: Interp<V>, s: State<V>, step: Step<V>, d: nat)
    requires Inv(I, s) && Enabled(I, s, step) && d < |s.conns| && Active(s, step) != Some(d)
    ensures Do(I, s, step).conns[d] == s.conns[d]
    ensures s.conns[d].holder.Some? ==> s.conns[d].holder.value < |s.reqs|
    ensures s.conns[d].holder.Some? ==> Do(I, s, step).reqs[s.conns[d].holder.value].user == s.reqs[s.conns[d].holder.value].user
  {
    hide Effects, EffectOk, Apply;
    assert ConnOk(s, d);
  }

  /** What a step does to the uncommitted effect of its own connection. */
  lemma OwnPending<V>(I: Interp<V>, s: State<V>, step: Step<V>)
    requires Inv(I, s) && Enabled(I, s, step) && Active(s, step).Some?
    ensures var t, c := Do(I, s, step), Active(s, step).value;
      && c < |s.conns|
      && (t.conns[c].pending.Some? ==> step.Run?)
      && (step.Run? ==> t.conns[c].pending == Some(step.effect) && t.conns[c].holder == Some(step.req))
  {
    hide Effects, EffectOk, Apply;
    var c := Active(s, step).value;
    assert ConnOk(s, c) && ReqOk(s, step.req);
  }

  /** Rows that nobody else has locked are the same before and after a step of somebody else. */
  lemma RowsUnlocked<V>(I: Interp<V>, s: State<V>, step: Step<V>, e: Effect<V>, d: nat)
    requires Inv(I, s) && Enabled(I, s, step) && d < |s.conns| && Active(s, step) != Some(d)
    requires Unlocked(s, d, e)
    ensures forall id | id in Touched(e) :: (id in Do(I, s, step).rows <==> id in s.rows)
    ensures forall id | id in Touched(e) && id in s.rows :: Do(I, s, step).rows[id] == s.rows[id]
  {
    hide Effects, EffectOk;
  }

  lemma EffectsKept<V>(I: Interp<V>, s: State<V>, step: Step<V>)
    requires Inv(I, s) && Enabled(I, s, step)
    ensures var t := Do(I, s, step); forall d | 0 <= d < |t.conns| :: EffectOk(I, t, d)
  {
    var t := Do(I, s, step);
    if step.Run? {
      RunSetting(I, s, step.req);
      RunOwn(I, s.reqs[step.req].user, s.reqs[step.req].statement, s.rows, s.next, step.effect);
    }
    hide Effects, OwnEffect;
    forall d | 0 <= d < |t.conns| && t.conns[d].pending.Some? ensures EffectOk(I, t, d) {
      assert ConnOk(s, d) && EffectOk(I, s, d);
      if Active(s, step) == Some(d) {
        OwnPending(I, s, step);
        RunKept(I, s, step);
      } else {
        OtherEffectKept(I, s, step, d);
      }
    }
  }

  lemma RunKept<V>(I: Interp<V>, s: State<V>, step: Step<V>)
    requires Inv(I, s) && Enabled(I, s, step) && step.Run?
    requires OwnEffect(I, s.reqs[step.req].user, s.rows, step.effect)
    ensures EffectOk(I, Do(I, s, step), s.reqs[step.req].phase.conn)
  {
    hide Effects, OwnEffect;
    var t, c := Do(I, s, step), s.reqs[step.req].phase.conn;
    OwnPending(I, s, step);
    assert forall d | 0 <= d < |t.conns| && d != c :: t.conns[d] == s.conns[d];
  }

  lemma OtherEffectKept<V>(I: Interp<V>, s: State<V>, step: Step<V>, d: nat)
    requires Inv(I, s) && Enabled(I, s, step) && d < |s.conns| && Active(s, step) != Some(d) && s.conns[d].pending.Some?
    ensures EffectOk(I, Do(I, s, step), d)
  {
    var t, e := Do(I, s, step), s.conns[d].pending.value;
    assert ConnOk(s, d) && EffectOk(I, s, d);
    OthersKept(I, s, step, d);
    RowsUnlocked(I, s, step, e, d);
    UnlockedKept(I, s, step, e, d);
    hide Effects, Apply, Unlocked;
    assert s.next <= t.next;
  }

  lemma UnlockedKept<V>(I: Interp<V>, s: State<V>, step: Step<V>, e: Effect<V>, d: nat)
    requires Inv(I, s) && Enabled(I, s, step) && d < |s.conns| && Active(s, step) != Some(d)
    requires s.conns[d].pending == Some(e) && Unlocked(s, d, e)
    ensures Unlocked(Do(I, s, step), d, e)
  {
    hide Effects, EffectOk, Apply, OwnEffect;
    var t := Do(I, s, step);
    forall c | 0 <= c < |t.conns| && c != d && t.conns[c].pending.Some? ensures Touched(t.conns[c].pending.value) !! Touched(e) {
      if Active(s, step) == Some(c) {
        OwnPending(I, s, step);
      } else {
        OthersKept(I, s, step, c);
      }
    }
  }

  lemma FreshKept<V>(I: Interp<V>, s: State<V>, step: Step<V>)
    requires Inv(I, s) && Enabled(I, s, step)
    ensures var t := Do(I, s, step); forall id | id in t.rows :: id < t.next
  {
    hide Effects, OwnEffect;
    if step.Commit? {
      assert EffectOk(I, s, s.reqs[step.req].phase.conn);
    }
  }

  /** Every step keeps the invariant. */
  lemma StepInv<V>(I: Interp<V>, s: State<V>, step: Step<V>)
    requires Inv(I, s) && Enabled(I, s, step)
    ensures Inv(I, Do(I, s, step))
  {
    hide Enabled, Do, ConnOk, ReqOk, EffectOk;
    ControlKept(I, s, step);
    EffectsKept(I, s, step);
    FreshKept(I, s, step);
  }

  lemma {:induction false} RunInv<V>(I: Interp<V>, s: State<V>, steps: seq<Step<V>>)
    requires Inv(I, s) && IsRun(I, s, steps)
    ensures Inv(I, After(I, s, steps))
    decreases |steps|
  {
    hide Inv, Enabled, Do;
    if steps != [] {
      StepInv(I, s, steps[0]);
      RunInv(I, Do(I, s, steps[0]), steps[1..]);
    }
  }

  // ---------------------------------------------------------------- whole runs

  /** A run up to its `k`-th step is a run, and that step is enabled after it. */
  lemma {:induction false} PrefixRun<V>(I: Interp<V>, s: State<V>, steps: seq<Step<V>>, k: nat)
    requires IsRun(I, s, steps) && k <= |steps|
    ensures IsRun(I, s, steps[..k])
    ensures k < |steps| ==> Enabled(I, After(I, s, steps[..k]), steps[k])
    decreases |steps|
  {
    hide Enabled, Do;
    if k > 0 {
      PrefixRun(I, Do(I, s, steps[0]), steps[1..], k - 1);
      assert steps[..k][1..] == steps[1..][..k - 1];
    }
  }

  lemma {:induction false} UsersKept<V>(I: Interp<V>, s: State<V>, steps: seq<Step<V>>)
    requires IsRun(I, s, steps)
    ensures |After(I, s, steps).reqs| == |s.reqs|
    ensures forall i | 0 <= i < |s.reqs| :: After(I, s, steps).reqs[i].user == s.reqs[i].user
    ensures forall i | 0 <= i < |s.reqs| :: After(I, s, steps).reqs[i].statement == s.reqs[i].statement
    decreases |steps|
  {
    if steps != [] {
      StepUsers(I, s, steps[0]);
      hide Enabled, Do;
      UsersKept(I, Do(I, s, steps[0]), steps[1..]);
    }
  }

  lemma StepUsers<V>(I: Interp<V>, s: State<V>, step: Step<V>)
    requires Enabled(I, s, step)
    ensures var t := Do(I, s, step);
      && |t.reqs| == |s.reqs|
      && forall i | 0 <= i < |s.reqs| :: t.reqs[i].user == s.reqs[i].user && t.reqs[i].statement == s.reqs[i].statement
  {
    hide Effects, Apply;
  }

  /**
   * In every run each statement executes with the setting of its own request's user, unset if it is
   * anonymous, and a connection that is back in the pool keeps no user.
   */
  lemma ContextIsolated<V>(I: Interp<V>, s: State<V>, steps: seq<Step<V>>, k: nat)
    requires Initial(s) && IsRun(I, s, steps) && k < |steps|
    ensures IsRun(I, s, steps[..k])
    ensures var before := After(I, s, steps[..k]);
      && (steps[k].Run? ==>
            && steps[k].req < |s.reqs| && OnConn(before, steps[k].req)
            && before.conns[before.reqs[steps[k].req].phase.conn].Current() == SettingOf(s.reqs[steps[k].req].user))
      && (forall c | 0 <= c < |before.conns| && before.conns[c].holder.None? :: before.conns[c].Current() == Unset)
  {
    PrefixRun(I, s, steps, k);
    InitialInv(I, s);
    RunInv(I, s, steps[..k]);
    UsersKept(I, s, steps[..k]);
    var before := After(I, s, steps[..k]);
    hide Effects, After, IsRun, Initial, EffectOk;
    if steps[k].Run? {
      RunSetting(I, before, steps[k].req);
    }
    forall c | 0 <= c < |before.conns| && before.conns[c].holder.None? ensures before.conns[c].Current() == Unset {
      assert ConnOk(before, c);
    }
  }

  /** The rows of one user. */
  function RowsOf<V>(I: Interp<V>, rows: Rows<V>, u: int): Rows<V> {
    map id | id in rows && OwnedBy(I, rows[id], u) :: rows[id]
  }

  /** No request of the run is made by `u`. */
  predicate Absent<V>(s: State<V>, u: int) {
    forall i | 0 <= i < |s.reqs| :: s.reqs[i].user != Some(u)
  }

  lemma ApplyKeepsOthers<V>(I: Interp<V>, user: Option<int>, rows: Rows<V>, e: Effect<V>, u: int)
    requires OwnEffect(I, user, rows, e) && user != Some(u)
    ensures RowsOf(I, Apply(rows, e), u) == RowsOf(I, rows, u)
  {
    forall id ensures id in RowsOf(I, Apply(rows, e), u) <==> id in RowsOf(I, rows, u) {
      assert id in Touched(e) <==> id in e.puts || id in e.dels;
    }
  }

  lemma StepKeepsOthers<V>(I: Interp<V>, s: State<V>, step: Step<V>, u: int)
    requires Inv(I, s) && Enabled(I, s, step) && Absent(s, u)
    ensures RowsOf(I, Do(I, s, step).rows, u) == RowsOf(I, s.rows, u)
    ensures Absent(Do(I, s, step), u)
  {
    hide Effects, OwnEffect, Apply, RowsOf;
    StepUsers(I, s, step);
    if step.Commit? {
      var c := s.reqs[step.req].phase.conn;
      assert ConnOk(s, c) && EffectOk(I, s, c) && ReqOk(s, step.req);
      ApplyKeepsOthers(I, s.reqs[step.req].user, s.rows, s.conns[c].pending.value, u);
    }
  }

  lemma {:induction false} RunKeepsOthers<V>(I: Interp<V>, s: State<V>, steps: seq<Step<V>>, u: int)
    requires Inv(I, s) && IsRun(I, s, steps) && Absent(s, u)
    ensures RowsOf(I, After(I, s, steps).rows, u) == RowsOf(I, s.rows, u)
    ensures Absent(After(I, s, steps), u)
    decreases |steps|
  {
    hide Inv, Enabled, Do, RowsOf, Absent;
    if steps != [] {
      StepInv(I, s, steps[0]);
      StepKeepsOthers(I, s, steps[0], u);
      RunKeepsOthers(I, Do(I, s, steps[0]), steps[1..], u);
    }
  }

  /** The row that a statement returns, whole or in part, under identity `id`: as it left it, or as it found it. */
  function ReturnedRow<V>(rows: Rows<V>, e: Effect<V>, id: nat): Row<V> {
    if id in e.puts then e.puts[id] else if id in rows then rows[id] else map[]
  }

  /**
   * Isolation: in every run made only of requests of other users and anonymous ones, the rows owned by
   * `u` are at every moment exactly those at the start, and no statement returns one of them.
   */
  lemma RunsAreIsolated<V>(I: Interp<V>, s: State<V>, steps: seq<Step<V>>, u: int, k: nat)
    requires Initial(s) && IsRun(I, s, steps) && Absent(s, u) && k <= |steps|
    ensures IsRun(I, s, steps[..k])
    ensures var before := After(I, s, steps[..k]);
      && RowsOf(I, before.rows, u) == RowsOf(I, s.rows, u)
      && (k < |steps| && steps[k].Run? ==>
            forall id | id in steps[k].effect.returned :: !OwnedBy(I, ReturnedRow(before.rows, steps[k].effect, id), u))
  {
    PrefixRun(I, s, steps, k);
    InitialInv(I, s);
    RunInv(I, s, steps[..k]);
    RunKeepsOthers(I, s, steps[..k], u);
    var before := After(I, s, steps[..k]);
    if k < |steps| && steps[k].Run? {
      ReturnsOwn(I, before, steps[k], u);
    }
  }

  lemma ReturnsOwn<V>(I: Interp<V>, s: State<V>, step: Step<V>, u: int)
    requires Inv(I, s) && Enabled(I, s, step) && step.Run? && Absent(s, u)
    ensures forall id | id in step.effect.returned :: !OwnedBy(I, ReturnedRow(s.rows, step.effect, id), u)
  {
    var r := s.reqs[step.req];
    RunSetting(I, s, step.req);
    RunOwn(I, r.user, r.statement, s.rows, s.next, step.effect);
    hide Effects, EffectOk;
    assert r.user != Some(u);
  }
}
