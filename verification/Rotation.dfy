/** Any interleaving of sign-ins and refreshes, each refresh a lookup and then the steps of a transaction. */
module Rotation {
  import opened Wrappers
  import opened Sessions

  // ---------------------------------------------------------------- the state machine

  /** How far one `refresh` call has come. */
  datatype Phase =
    | Start
    | Found(id: nat, user: int)                                      // the lookup accepted this session
    | Begun(id: nat, user: int)                                      // the transaction is open
    | Revoked(id: nat, user: int)                                    // the row is locked and marked
    | Inserted(id: nat, user: int, newId: nat, added: Session)       // the new row is written
    | Linked(id: nat, user: int, newId: nat, added: Session)         // and linked
    | Committed(id: nat, user: int, newId: nat)
    | Failed

  /** A refresh call; `foundAt` and `committedAt` are the moments of its lookup and its commit. */
  datatype Refresh = Refresh(token: string, phase: Phase, foundAt: nat, committedAt: nat)

  /** Committed sessions, the sequence, the time, all refresh calls, and the number of steps so far. */
  datatype State = State(sessions: Table, next: nat, now: int, ttl: int, calls: seq<Refresh>, clock: nat)

  datatype Step =
    | Tick(seconds: nat)
    | SignIn(user: int, token: string)            // the session insert of `register` or `login`
    | Lookup(call: nat, found: Option<nat>)
    | Begin(call: nat)
    | Revoke(call: nat)
    | Insert(call: nat, token: string)
    | Link(call: nat)
    | Commit(call: nat)
    | Abort(call: nat)

  predicate Holds(p: Phase) {
    p.Revoked? || p.Inserted? || p.Linked?
  }

  predicate Written(p: Phase) {
    p.Inserted? || p.Linked?
  }

  /** The call has passed its lookup. */
  predicate Past(p: Phase) {
    !p.Start? && !p.Failed?
  }

  /** No other transaction holds the lock on the row. */
  predicate RowFree(s: State, id: nat) {
    forall j | 0 <= j < |s.calls| && Holds(s.calls[j].phase) :: s.calls[j].phase.id != id
  }

  /** The unique index admits the token: neither a committed nor an uncommitted row has it. */
  predicate Admits(s: State, token: string) {
    TokenFree(s.sessions, token)
    && forall j | 0 <= j < |s.calls| && Written(s.calls[j].phase) :: s.calls[j].phase.added.token != token
  }

  predicate Enabled(s: State, step: Step) {
    match step
    case Tick(_) => true
    case SignIn(_, token) => Admits(s, token)
    case Lookup(i, found) =>
      && i < |s.calls| && s.calls[i].phase.Start?
      && (match found
          case Some(id) => Accepts(s.sessions, id, s.calls[i].token, s.now)
          case None => forall id | id in s.sessions :: !Accepts(s.sessions, id, s.calls[i].token, s.now))
    case Begin(i) => i < |s.calls| && s.calls[i].phase.Found?
    case Revoke(i) => i < |s.calls| && s.calls[i].phase.Begun? && RowFree(s, s.calls[i].phase.id)
    case Insert(i, token) => i < |s.calls| && s.calls[i].phase.Revoked? && Admits(s, token)
    case Link(i) => i < |s.calls| && s.calls[i].phase.Inserted?
    case Commit(i) => i < |s.calls| && s.calls[i].phase.Linked? && s.calls[i].phase.id in s.sessions
    case Abort(i) => i < |s.calls| && Past(s.calls[i].phase) && !s.calls[i].phase.Committed?
  }

  function Move(s: State, i: nat, p: Phase): State
    requires i < |s.calls|
  {
    s.(calls := s.calls[i := s.calls[i].(phase := p)])
  }

  function DoAt(s: State, step: Step): State
    requires Enabled(s, step)
  {
    match step
    case Tick(n) => s.(now := s.now + n)
    case SignIn(user, token) =>
      s.(sessions := s.sessions[s.next := NewSession(user, token, s.now + s.ttl)], next := s.next + 1)
    case Lookup(i, found) =>
      s.(calls := s.calls[i := s.calls[i].(
        phase := if found.Some? then Found(found.value, s.sessions[found.value].user) else Failed, foundAt := s.clock)])
    case Begin(i) => Move(s, i, Begun(s.calls[i].phase.id, s.calls[i].phase.user))
    case Revoke(i) => Move(s, i, Revoked(s.calls[i].phase.id, s.calls[i].phase.user))
    case Insert(i, token) =>
      var p := s.calls[i].phase;
      Move(s, i, Inserted(p.id, p.user, s.next, NewSession(p.user, token, s.now + s.ttl))).(next := s.next + 1)
    case Link(i) =>
      var p := s.calls[i].phase;
      Move(s, i, Linked(p.id, p.user, p.newId, p.added))
    case Commit(i) =>
      var p := s.calls[i].phase;
      s.(sessions := Rotated(s.sessions, p.id, p.newId, p.added),
         calls := s.calls[i := s.calls[i].(phase := Committed(p.id, p.user, p.newId), committedAt := s.clock)])
    case Abort(i) => Move(s, i, Failed)
  }

  function Do(s: State, step: Step): State
    requires Enabled(s, step)
  {
    DoAt(s, step).(clock := s.clock + 1)
  }

  predicate IsRun(s: State, steps: seq<Step>)
    decreases |steps|
  {
    steps == [] || (Enabled(s, steps[0]) && IsRun(Do(s, steps[0]), steps[1..]))
  }

  function After(s: State, steps: seq<Step>): State
    requires IsRun(s, steps)
    decreases |steps|
  {
    if steps == [] then s else After(Do(s, steps[0]), steps[1..])
  }

  /** A new table, and any number of refresh calls that have not started. */
  predicate Initial(s: State) {
    s.sessions == map[] && s.clock == 0 && forall i | 0 <= i < |s.calls| :: s.calls[i].phase.Start?
  }

  // ---------------------------------------------------------------- the invariant

  predicate CallOk(s: State, r: Refresh) {
    var p := r.phase;
    && (Past(p) ==> p.id in s.sessions && s.sessions[p.id].user == p.user && s.sessions[p.id].token == r.token && r.foundAt < s.clock)
    && (Written(p) ==>
          && p.id < p.newId < s.next && p.newId !in s.sessions
          && p.added == NewSession(p.user, p.added.token, p.added.expires) && TokenFree(s.sessions, p.added.token))
    && (p.Committed? ==> s.sessions[p.id].revoked && r.committedAt < s.clock)
  }

  /** Two calls at once: they lock different rows, write different ones, and overlap if both rotate one session. */
  predicate PairOk(a: Refresh, b: Refresh) {
    && (Holds(a.phase) && Holds(b.phase) ==> a.phase.id != b.phase.id)
    && (Written(a.phase) && Written(b.phase) ==>
          a.phase.newId != b.phase.newId && a.phase.added.token != b.phase.added.token)
    && (a.phase.Committed? && Past(b.phase) && a.phase.id == b.phase.id ==> b.foundAt < a.committedAt)
  }

  predicate CallsOk(s: State) {
    && (forall i | 0 <= i < |s.calls| :: CallOk(s, s.calls[i]))
    && (forall i, j | 0 <= i < |s.calls| && 0 <= j < |s.calls| && i != j :: PairOk(s.calls[i], s.calls[j]))
  }

  predicate RevokedBy(s: State, i: nat, id: nat) {
    i < |s.calls| && s.calls[i].phase.Committed? && s.calls[i].phase.id == id
  }

  /** Only a committed rotation revokes. */
  predicate Accounted(s: State) {
    forall id | id in s.sessions && s.sessions[id].revoked :: exists i | 0 <= i < |s.calls| :: RevokedBy(s, i, id)
  }

  predicate Inv(s: State) {
    TableOk(s.sessions, s.next) && CallsOk(s) && Accounted(s)
  }

  lemma InitialInv(s: State)
    requires Initial(s)
    ensures Inv(s)
  {
  }

  /** What a step leaves alone: the sessions' owners and tokens, and revocations. */
  predicate Extends(t: Table, u: Table) {
    forall id | id in t :: id in u && u[id].user == t[id].user && u[id].token == t[id].token && (t[id].revoked ==> u[id].revoked)
  }

  lemma StepTable(s: State, step: Step)
    requires Inv(s) && Enabled(s, step)
    ensures var t := Do(s, step); TableOk(t.sessions, t.next) && Extends(s.sessions, t.sessions) && s.next <= t.next
  {
    match step
    case SignIn(user, token) =>
      AddedOk(s.sessions, s.next, NewSession(user, token, s.now + s.ttl));
    case Commit(i) =>
      var p := s.calls[i].phase;
      assert CallOk(s, s.calls[i]);
      RotatedOk(s.sessions, s.next, p.id, p.newId, p.added);
    case _ =>
  }

  // ---------------------------------------------------------------- every step keeps it

  function Stepping(step: Step): Option<nat> {
    match step
    case Tick(_) => None
    case SignIn(_, _) => None
    case _ => Some(step.call)
  }

  lemma OtherCall(s: State, step: Step, j: nat)
    requires Enabled(s, step) && j < |s.calls| && Stepping(step) != Some(j)
    ensures |Do(s, step).calls| == |s.calls| && Do(s, step).calls[j] == s.calls[j]
  {
  }

  lemma OtherCallOk(s: State, step: Step, j: nat)
    requires Inv(s) && Enabled(s, step) && j < |s.calls| && Stepping(step) != Some(j)
    ensures CallOk(Do(s, step), s.calls[j])
  {
    var t, r := Do(s, step), s.calls[j];
    StepTable(s, step);
    assert CallOk(s, r);
    if Written(r.phase) {
      match step
      case SignIn(_, _) =>
      case Commit(i) =>
        assert PairOk(s.calls[i], r) && CallOk(s, s.calls[i]);
      case _ =>
    }
  }

  lemma OwnCallOk(s: State, step: Step)
    requires Inv(s) && Enabled(s, step) && Stepping(step).Some?
    ensures CallOk(Do(s, step), Do(s, step).calls[step.call])
  {
    assert CallOk(s, s.calls[step.call]);
  }

  lemma StepCalls(s: State, step: Step)
    requires Inv(s) && Enabled(s, step)
    ensures var t := Do(s, step); |t.calls| == |s.calls| && forall i | 0 <= i < |t.calls| :: CallOk(t, t.calls[i])
  {
    hide CallOk, Inv;
    var t := Do(s, step);
    assert |t.calls| == |s.calls|;
    forall i | 0 <= i < |t.calls| ensures CallOk(t, t.calls[i]) {
      if Stepping(step) == Some(i) {
        OwnCallOk(s, step);
      } else {
        OtherCall(s, step, i);
        OtherCallOk(s, step, i);
      }
    }
  }

  /** A committed rotation of a session excludes a later lookup of it: the row is revoked. */
  lemma OwnPairOk(s: State, step: Step, j: nat)
    requires Inv(s) && Enabled(s, step) && Stepping(step).Some? && j < |s.calls| && j != step.call
    ensures var t := Do(s, step); PairOk(t.calls[step.call], s.calls[j]) && PairOk(s.calls[j], t.calls[step.call])
  {
    var i := step.call;
    assert PairOk(s.calls[i], s.calls[j]) && PairOk(s.calls[j], s.calls[i]);
    assert CallOk(s, s.calls[i]) && CallOk(s, s.calls[j]);
  }

  lemma StepPairs(s: State, step: Step)
    requires Inv(s) && Enabled(s, step)
    ensures var t := Do(s, step);
      |t.calls| == |s.calls| && forall i, j | 0 <= i < |t.calls| && 0 <= j < |t.calls| && i != j :: PairOk(t.calls[i], t.calls[j])
  {
    hide PairOk, CallOk;
    var t := Do(s, step);
    assert |t.calls| == |s.calls|;
    forall i, j | 0 <= i < |t.calls| && 0 <= j < |t.calls| && i != j ensures PairOk(t.calls[i], t.calls[j]) {
      hide Enabled, Do;
      if Stepping(step) == Some(i) {
        OtherCall(s, step, j);
        OwnPairOk(s, step, j);
      } else if Stepping(step) == Some(j) {
        OtherCall(s, step, i);
        OwnPairOk(s, step, i);
      } else {
        OtherCall(s, step, i);
        OtherCall(s, step, j);
      }
    }
  }

  lemma StepAccounted(s: State, step: Step)
    requires Inv(s) && Enabled(s, step)
    ensures Accounted(Do(s, step))
  {
    var t := Do(s, step);
    forall id | id in t.sessions && t.sessions[id].revoked
      ensures exists i | 0 <= i < |t.calls| :: RevokedBy(t, i, id) {
      if step.Commit? && id == s.calls[step.call].phase.id {
        assert RevokedBy(t, step.call, id);
      } else {
        RevokedBefore(s, step, id);
        var i :| 0 <= i < |s.calls| && RevokedBy(s, i, id);
        assert RevokedBy(t, i, id);
      }
    }
  }

  lemma RevokedBefore(s: State, step: Step, id: nat)
    requires Inv(s) && Enabled(s, step) && id in Do(s, step).sessions && Do(s, step).sessions[id].revoked
    requires step.Commit? ==> id != s.calls[step.call].phase.id
    ensures id in s.sessions && s.sessions[id].revoked
  {
    if step.Commit? {
      assert CallOk(s, s.calls[step.call]);
    }
  }

  /** Every step keeps the invariant. */
  lemma StepInv(s: State, step: Step)
    requires Inv(s) && Enabled(s, step)
    ensures Inv(Do(s, step)) && Extends(s.sessions, Do(s, step).sessions)
  {
    StepTable(s, step);
    StepCalls(s, step);
    StepPairs(s, step);
    StepAccounted(s, step);
    hide Enabled, Do, TableOk, CallOk, PairOk, Accounted;
  }

  lemma {:induction false} RunInv(s: State, steps: seq<Step>)
    requires Inv(s) && IsRun(s, steps)
    ensures Inv(After(s, steps)) && Extends(s.sessions, After(s, steps).sessions)
    decreases |steps|
  {
    hide Inv, Enabled, Do;
    if steps != [] {
      StepInv(s, steps[0]);
      RunInv(Do(s, steps[0]), steps[1..]);
    }
  }
}
