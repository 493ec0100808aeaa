/** What holds over whole runs of sign-ins and refreshes: chains, replay, single use and counts. */
module RotationRuns {
  import opened Wrappers
  import opened Sessions
  import opened Rotation

  // ---------------------------------------------------------------- chains

  /**
   * In every run a session is revoked exactly when it has a successor, a later session of the same user,
   * so following the successors ends at a live session of that user.
   */
  lemma ChainsEndLive(s: State, steps: seq<Step>, id: nat)
    requires Initial(s) && IsRun(s, steps) && id in After(s, steps).sessions
    ensures var t := After(s, steps);
      && TableOk(t.sessions, t.next)
      && var last := Follow(t.sessions, t.next, id);
      last in t.sessions && !t.sessions[last].revoked && t.sessions[last].user == t.sessions[id].user
  {
    InitialInv(s);
    RunInv(s, steps);
  }

  // ---------------------------------------------------------------- runs in pieces

  lemma {:induction false} RunSplit(s: State, steps: seq<Step>, k: nat)
    requires IsRun(s, steps) && k <= |steps|
    ensures IsRun(s, steps[..k]) && IsRun(After(s, steps[..k]), steps[k..])
    ensures After(s, steps) == After(After(s, steps[..k]), steps[k..])
    ensures k < |steps| ==>
      && Enabled(After(s, steps[..k]), steps[k])
      && IsRun(s, steps[..k + 1]) && After(s, steps[..k + 1]) == Do(After(s, steps[..k]), steps[k])
    decreases |steps|
  {
    hide Enabled, Do;
    if k == 0 {
      assert steps[..0] == [] && steps[0..] == steps;
      if steps != [] {
        assert steps[..1][1..] == [];
      }
    } else {
      RunSplit(Do(s, steps[0]), steps[1..], k - 1);
      assert steps[..k][1..] == steps[1..][..k - 1];
      assert steps[k..] == steps[1..][k - 1..];
      if k < |steps| {
        assert steps[..k + 1][1..] == steps[1..][..k];
      }
    }
  }

  lemma StepCallsKept(s: State, step: Step)
    requires Enabled(s, step)
    ensures var t := Do(s, step);
      && |t.calls| == |s.calls|
      && forall i | 0 <= i < |s.calls| :: t.calls[i].token == s.calls[i].token
                                        && (s.calls[i].phase.Committed? ==> t.calls[i] == s.calls[i])
  {
  }

  lemma {:induction false} CallsKept(s: State, steps: seq<Step>)
    requires IsRun(s, steps)
    ensures var t := After(s, steps);
      && |t.calls| == |s.calls|
      && forall i | 0 <= i < |s.calls| :: t.calls[i].token == s.calls[i].token
                                        && (s.calls[i].phase.Committed? ==> t.calls[i] == s.calls[i])
    decreases |steps|
  {
    hide Enabled, Do;
    if steps != [] {
      StepCallsKept(s, steps[0]);
      CallsKept(Do(s, steps[0]), steps[1..]);
    }
  }

  // ---------------------------------------------------------------- replay

  /** Once a rotation of a token has committed, nothing accepts the token. */
  lemma CommittedRefused(s: State, i: nat, id: nat)
    requires Inv(s) && i < |s.calls| && s.calls[i].phase.Committed?
    ensures !Accepts(s.sessions, id, s.calls[i].token, s.now)
  {
    assert CallOk(s, s.calls[i]);
  }

  lemma CommitCommits(s: State, step: Step)
    requires Enabled(s, step) && step.Commit?
    ensures Do(s, step).calls[step.call].phase.Committed?
  {
  }

  /** In every run a lookup after the commit of a rotation of the same token finds nothing. */
  lemma ReplayRefused(s: State, steps: seq<Step>, k: nat, m: nat)
    requires Initial(s) && IsRun(s, steps) && k < m < |steps| && steps[k].Commit? && steps[m].Lookup?
    requires steps[k].call < |s.calls| && steps[m].call < |s.calls|
    requires s.calls[steps[k].call].token == s.calls[steps[m].call].token
    ensures steps[m].found == None
  {
    var i := steps[k].call;
    InitialInv(s);
    RunSplit(s, steps, k);
    RunSplit(s, steps, m);
    RunSplit(s, steps[..m], k + 1);
    assert steps[..m][..k + 1] == steps[..k + 1];
    var committed, before := After(s, steps[..k + 1]), After(s, steps[..m]);
    CommitCommits(After(s, steps[..k]), steps[k]);
    CallsKept(committed, steps[..m][k + 1..]);
    CallsKept(s, steps[..m]);
    RunInv(s, steps[..m]);
    hide Do, IsRun, After, Inv;
    assert before.calls[i].phase.Committed?;
    if steps[m].found.Some? {
      CommittedRefused(before, i, steps[m].found.value);
    }
  }

  /** A session never returns from revoked to live. */
  lemma RevokedForever(s: State, steps: seq<Step>, k: nat, id: nat)
    requires Initial(s) && IsRun(s, steps) && k <= |steps|
    ensures IsRun(s, steps[..k])
    ensures var before, after := After(s, steps[..k]).sessions, After(s, steps).sessions;
      id in before && before[id].revoked ==> id in after && after[id].revoked
  {
    InitialInv(s);
    RunSplit(s, steps, k);
    RunInv(s, steps[..k]);
    RunInv(After(s, steps[..k]), steps[k..]);
  }

  // ---------------------------------------------------------------- single use

  /** Each of the two lookups came before the other's commit. */
  predicate Overlap(a: Refresh, b: Refresh) {
    a.foundAt < b.committedAt && b.foundAt < a.committedAt
  }

  predicate BothExchanged(s: State, i: nat, j: nat) {
    && i < |s.calls| && j < |s.calls| && i != j
    && s.calls[i].phase.Committed? && s.calls[j].phase.Committed? && s.calls[i].token == s.calls[j].token
  }

  /** No token was exchanged twice. */
  predicate SingleUse(s: State) {
    forall i, j | 0 <= i < |s.calls| && 0 <= j < |s.calls| :: !BothExchanged(s, i, j)
  }

  /** Two calls that exchanged one token rotated one session, and each looked it up before the other's commit. */
  lemma DoublesOverlap(s: State, steps: seq<Step>, i: nat, j: nat)
    requires Initial(s) && IsRun(s, steps) && BothExchanged(After(s, steps), i, j)
    ensures var t := After(s, steps); t.calls[i].phase.id == t.calls[j].phase.id && Overlap(t.calls[i], t.calls[j])
  {
    InitialInv(s);
    RunInv(s, steps);
    var t := After(s, steps);
    assert CallOk(t, t.calls[i]) && CallOk(t, t.calls[j]);
    assert PairOk(t.calls[i], t.calls[j]) && PairOk(t.calls[j], t.calls[i]);
  }

  // ---------------------------------------------------------------- one call at a time

  /** A lookup that accepts a session. */
  predicate LooksUp(step: Step) {
    step.Lookup? && step.found.Some?
  }

  predicate Ends(step: Step, i: nat) {
    step == Commit(i) || step == Abort(i)
  }

  /** Of two calls that present one token, the one that looked it up first ends before the other looks it up. */
  ghost predicate OneAtATime(s: State, steps: seq<Step>) {
    forall k, m | 0 <= k < m < |steps| && LooksUp(steps[k]) && LooksUp(steps[m])
      && steps[k].call < |s.calls| && steps[m].call < |s.calls| && steps[k].call != steps[m].call
      && s.calls[steps[k].call].token == s.calls[steps[m].call].token ::
      exists e | k < e < m :: Ends(steps[e], steps[k].call)
  }

  lemma StepKeepsFailed(s: State, step: Step, i: nat)
    requires Enabled(s, step) && i < |s.calls|
    ensures |Do(s, step).calls| == |s.calls|
    ensures s.calls[i].phase.Failed? ==> Do(s, step).calls[i].phase.Failed?
    ensures s.calls[i].phase.Start? ==>
      Do(s, step).calls[i].phase.Start? || Do(s, step).calls[i].phase.Failed? || (LooksUp(step) && step.call == i)
  {
  }

  lemma {:induction false} FailedKept(s: State, steps: seq<Step>, i: nat)
    requires IsRun(s, steps) && i < |s.calls| && s.calls[i].phase.Failed?
    ensures i < |After(s, steps).calls| && After(s, steps).calls[i].phase.Failed?
    decreases |steps|
  {
    hide Enabled, Do;
    if steps != [] {
      StepKeepsFailed(s, steps[0], i);
      FailedKept(Do(s, steps[0]), steps[1..], i);
    }
  }

  lemma StepKeepsId(s: State, step: Step, i: nat)
    requires Enabled(s, step) && i < |s.calls|
    ensures var p, q := s.calls[i].phase, Do(s, step).calls[i].phase;
      && (Past(p) && Past(q) ==> q.id == p.id)
      && (p.Start? && Past(q) ==> step == Lookup(i, Some(q.id)))
  {
  }

  lemma {:induction false} IdKept(s: State, steps: seq<Step>, i: nat)
    requires IsRun(s, steps) && i < |s.calls| && Past(s.calls[i].phase)
    requires i < |After(s, steps).calls| && Past(After(s, steps).calls[i].phase)
    ensures After(s, steps).calls[i].phase.id == s.calls[i].phase.id
    decreases |steps|
  {
    if steps != [] {
      var t := Do(s, steps[0]);
      StepKeepsFailed(s, steps[0], i);
      StepKeepsId(s, steps[0], i);
      StepStaysPast(s, steps[0], i);
      hide Enabled, Do;
      if t.calls[i].phase.Failed? {
        FailedKept(t, steps[1..], i);
      } else {
        IdKept(t, steps[1..], i);
      }
    }
  }

  lemma StepStaysPast(s: State, step: Step, i: nat)
    requires Enabled(s, step) && i < |s.calls| && Past(s.calls[i].phase)
    ensures Past(Do(s, step).calls[i].phase) || Do(s, step).calls[i].phase.Failed?
  {
  }

  /** A call that is past its lookup has done it, and rotates the session that it found. */
  lemma {:induction false} LookedUp(s: State, steps: seq<Step>, i: nat) returns (k: nat)
    requires IsRun(s, steps) && i < |s.calls| && s.calls[i].phase.Start?
    requires i < |After(s, steps).calls| && Past(After(s, steps).calls[i].phase)
    ensures k < |steps| && steps[k] == Lookup(i, Some(After(s, steps).calls[i].phase.id))
    decreases |steps|
  {
    hide Enabled, Do;
    StepKeepsFailed(s, steps[0], i);
    StepKeepsId(s, steps[0], i);
    var t := Do(s, steps[0]);
    if t.calls[i].phase.Start? {
      k := LookedUp(t, steps[1..], i);
      k := k + 1;
    } else {
      if t.calls[i].phase.Failed? {
        FailedKept(t, steps[1..], i);
      } else {
        IdKept(t, steps[1..], i);
      }
      k := 0;
    }
  }

  /** The session of the presented token, at that moment neither revoked nor expired. */
  predicate SeesLive(s: State, id: nat, token: string) {
    id in s.sessions && s.sessions[id].token == token && !s.sessions[id].revoked && s.sessions[id].expires > s.now
  }

  lemma LookupSeesLive(s: State, i: nat, id: nat)
    requires Enabled(s, Lookup(i, Some(id)))
    ensures i < |s.calls| && SeesLive(s, id, s.calls[i].token)
  {
  }

  /**
   * In every run, whatever commits was looked up before: the rotated session is one of the presented token,
   * and it was neither revoked nor expired when the lookup saw it.
   */
  lemma CommitSawLive(s: State, steps: seq<Step>, c: nat) returns (k: nat)
    requires Initial(s) && IsRun(s, steps) && c < |steps| && steps[c].Commit?
    ensures k < c && IsRun(s, steps[..k]) && IsRun(s, steps[..c])
    ensures var i := steps[c].call;
      && i < |s.calls| && i < |After(s, steps[..c]).calls| && After(s, steps[..c]).calls[i].phase.Linked?
      && var id := After(s, steps[..c]).calls[i].phase.id;
      && steps[k] == Lookup(i, Some(id)) && SeesLive(After(s, steps[..k]), id, s.calls[i].token)
  {
    var i := steps[c].call;
    RunSplit(s, steps, c);
    CallsKept(s, steps[..c]);
    assert i < |s.calls| && After(s, steps[..c]).calls[i].phase.Linked? by {
      CommitLinked(After(s, steps[..c]), i);
    }
    k := LookedUp(s, steps[..c], i);
    RunSplit(s, steps, k);
    CallsKept(s, steps[..k]);
    assert steps[k] == steps[..c][k];
    hide IsRun, After, Enabled, Do;
    LookupSeesLive(After(s, steps[..k]), i, steps[k].found.value);
  }

  lemma CommitLinked(s: State, i: nat)
    requires Enabled(s, Commit(i))
    ensures i < |s.calls| && s.calls[i].phase.Linked?
  {
  }

  lemma AbortFails(s: State, steps: seq<Step>, e: nat, i: nat)
    requires IsRun(s, steps) && e < |steps| && steps[e] == Abort(i)
    ensures i < |After(s, steps).calls| && After(s, steps).calls[i].phase.Failed?
  {
    RunSplit(s, steps, e);
    RunSplit(s, steps, e + 1);
    var t := After(s, steps[..e + 1]);
    assert i < |t.calls| && t.calls[i].phase.Failed?;
    FailedKept(t, steps[e + 1..], i);
  }

  /** The call that looked the token up first cannot also have committed. */
  lemma FirstDone(s: State, steps: seq<Step>, k: nat, m: nat)
    requires Initial(s) && IsRun(s, steps) && OneAtATime(s, steps) && k < m < |steps|
    requires LooksUp(steps[k]) && LooksUp(steps[m]) && steps[k].call != steps[m].call
    requires steps[k].call < |s.calls| == |After(s, steps).calls| && steps[m].call < |s.calls|
    requires s.calls[steps[k].call].token == s.calls[steps[m].call].token
    ensures !After(s, steps).calls[steps[k].call].phase.Committed?
  {
    var i := steps[k].call;
    var e :| k < e < m && Ends(steps[e], i);
    if steps[e] == Commit(i) {
      ReplayRefused(s, steps, e, m);
    } else {
      AbortFails(s, steps, e, i);
    }
  }

  /** If the refreshes of each token come one at a time, from lookup to end, no token is exchanged twice. */
  lemma OneAtATimeSingleUse(s: State, steps: seq<Step>)
    requires Initial(s) && IsRun(s, steps) && OneAtATime(s, steps)
    ensures SingleUse(After(s, steps))
  {
    CallsKept(s, steps);
    var t := After(s, steps);
    forall i, j | 0 <= i < |t.calls| && 0 <= j < |t.calls| ensures !BothExchanged(t, i, j) {
      if BothExchanged(t, i, j) {
        var k := LookedUp(s, steps, i);
        var m := LookedUp(s, steps, j);
        hide IsRun, After, OneAtATime;
        if k < m {
          FirstDone(s, steps, k, m);
        } else {
          FirstDone(s, steps, m, k);
        }
      }
    }
  }

  // ---------------------------------------------------------------- counting sessions

  function SessionsOf(t: Table, u: int): set<nat> {
    set id | id in t && t[id].user == u
  }

  function RevokedOf(t: Table, u: int): set<nat> {
    set id | id in t && t[id].user == u && t[id].revoked
  }

  function LiveOf(t: Table, u: int): set<nat> {
    set id | id in t && t[id].user == u && !t[id].revoked
  }

  function Count(b: bool): nat {
    if b then 1 else 0
  }

  /** Sessions that sign-ins of `u` inserted. */
  function SignIns(steps: seq<Step>, u: int): nat {
    if steps == [] then 0 else Count(steps[0].SignIn? && steps[0].user == u) + SignIns(steps[1..], u)
  }

  predicate Rotates(s: State, step: Step, u: int) {
    step.Commit? && step.call < |s.calls| && s.calls[step.call].phase.Linked? && s.calls[step.call].phase.user == u
  }

  /** A committing rotation whose session another rotation has already revoked. */
  predicate Repeats(s: State, step: Step, u: int) {
    Rotates(s, step, u) && s.calls[step.call].phase.id in RevokedOf(s.sessions, u)
  }

  function Rotations(s: State, steps: seq<Step>, u: int): nat
    requires IsRun(s, steps)
    decreases |steps|
  {
    if steps == [] then 0 else Count(Rotates(s, steps[0], u)) + Rotations(Do(s, steps[0]), steps[1..], u)
  }

  function Repetitions(s: State, steps: seq<Step>, u: int): nat
    requires IsRun(s, steps)
    decreases |steps|
  {
    if steps == [] then 0 else Count(Repeats(s, steps[0], u)) + Repetitions(Do(s, steps[0]), steps[1..], u)
  }

  lemma AddedCounts(t: Table, id: nat, added: Session, u: int)
    requires id !in t && !added.revoked
    ensures |SessionsOf(t[id := added], u)| == |SessionsOf(t, u)| + Count(added.user == u)
    ensures |LiveOf(t[id := added], u)| == |LiveOf(t, u)| + Count(added.user == u)
  {
    AddedSets(t, id, added, u);
    assert id !in SessionsOf(t, u) && id !in LiveOf(t, u);
    hide SessionsOf, LiveOf;
  }

  lemma AddedSets(t: Table, id: nat, added: Session, u: int)
    requires id !in t && !added.revoked
    ensures SessionsOf(t[id := added], u) == SessionsOf(t, u) + (if added.user == u then {id} else {})
    ensures LiveOf(t[id := added], u) == LiveOf(t, u) + (if added.user == u then {id} else {})
  {
  }

  lemma MarkedCounts(t: Table, id: nat, r: Option<nat>, u: int)
    requires id in t
    ensures var m := t[id := t[id].(revoked := true, replacedBy := r)];
      && |SessionsOf(m, u)| == |SessionsOf(t, u)|
      && |LiveOf(m, u)| == |LiveOf(t, u)| - Count(t[id].user == u && !t[id].revoked)
  {
    var m := t[id := t[id].(revoked := true, replacedBy := r)];
    assert SessionsOf(m, u) == SessionsOf(t, u);
    assert LiveOf(m, u) == LiveOf(t, u) - {id};
    assert id in LiveOf(t, u) <==> t[id].user == u && !t[id].revoked;
  }

  /** What one step does to the counts of one user. */
  lemma StepCounts(s: State, step: Step, u: int)
    requires Inv(s) && Enabled(s, step)
    ensures var t, signs := Do(s, step).sessions, Count(step.SignIn? && step.user == u);
      && |SessionsOf(t, u)| == |SessionsOf(s.sessions, u)| + signs + Count(Rotates(s, step, u))
      && |LiveOf(t, u)| == |LiveOf(s.sessions, u)| + signs + Count(Repeats(s, step, u))
  {
    hide LiveOf, SessionsOf, CallOk;
    match step
    case SignIn(user, token) =>
      AddedCounts(s.sessions, s.next, NewSession(user, token, s.now + s.ttl), u);
    case Commit(i) =>
      CommitCounts(s, i, u);
    case _ =>
  }

  lemma CommitCounts(s: State, i: nat, u: int)
    requires Inv(s) && Enabled(s, Commit(i))
    ensures var t := Do(s, Commit(i)).sessions;
      && |SessionsOf(t, u)| == |SessionsOf(s.sessions, u)| + Count(Rotates(s, Commit(i), u))
      && |LiveOf(t, u)| == |LiveOf(s.sessions, u)| + Count(Repeats(s, Commit(i), u))
  {
    var p := s.calls[i].phase;
    assert CallOk(s, s.calls[i]);
    hide LiveOf, SessionsOf, Inv;
    var m := s.sessions[p.id := s.sessions[p.id].(revoked := true, replacedBy := Some(p.newId))];
    MarkedCounts(s.sessions, p.id, Some(p.newId), u);
    AddedCounts(m, p.newId, p.added, u);
  }

  lemma {:induction false} RunCounts(s: State, steps: seq<Step>, u: int)
    requires Inv(s) && IsRun(s, steps)
    ensures |SessionsOf(After(s, steps).sessions, u)| == |SessionsOf(s.sessions, u)| + SignIns(steps, u) + Rotations(s, steps, u)
    ensures |LiveOf(After(s, steps).sessions, u)| == |LiveOf(s.sessions, u)| + SignIns(steps, u) + Repetitions(s, steps, u)
    decreases |steps|
  {
    hide Enabled, Do, Inv, Rotates, Repeats, SessionsOf, LiveOf, Count;
    if steps != [] {
      StepInv(s, steps[0]);
      StepCounts(s, steps[0], u);
      RunCounts(Do(s, steps[0]), steps[1..], u);
    }
  }

  /**
   * Conservation: in every run the live sessions of a user are those its sign-ins inserted, plus its
   * committed rotations, less its distinct revoked sessions; and as each rotation revokes one session at
   * most, that is the sign-ins plus the rotations that repeated an earlier one.
   */
  lemma SessionsConserved(s: State, steps: seq<Step>, u: int)
    requires Initial(s) && IsRun(s, steps)
    ensures var t := After(s, steps).sessions;
      && |LiveOf(t, u)| == SignIns(steps, u) + Rotations(s, steps, u) - |RevokedOf(t, u)|
      && |LiveOf(t, u)| == SignIns(steps, u) + Repetitions(s, steps, u)
  {
    var t := After(s, steps).sessions;
    InitialInv(s);
    RunCounts(s, steps, u);
    assert SessionsOf(t, u) == LiveOf(t, u) + RevokedOf(t, u) && LiveOf(t, u) !! RevokedOf(t, u);
    assert SessionsOf(s.sessions, u) == {} && LiveOf(s.sessions, u) == {};
  }

  /** No step of anybody, a rotation least of all, lowers the number of a user's live sessions. */
  lemma LiveNeverDrops(s: State, steps: seq<Step>, k: nat, u: int)
    requires Initial(s) && IsRun(s, steps) && k <= |steps|
    ensures IsRun(s, steps[..k])
    ensures |LiveOf(After(s, steps[..k]).sessions, u)| <= |LiveOf(After(s, steps).sessions, u)|
  {
    InitialInv(s);
    RunSplit(s, steps, k);
    RunInv(s, steps[..k]);
    RunCounts(After(s, steps[..k]), steps[k..], u);
  }

  // ---------------------------------------------------------------- counts and single use

  lemma SingleUseBefore(s: State, step: Step)
    requires Enabled(s, step) && SingleUse(Do(s, step))
    ensures SingleUse(s)
  {
    StepCallsKept(s, step);
    forall i, j | 0 <= i < |s.calls| && 0 <= j < |s.calls| ensures !BothExchanged(s, i, j) {
      assert !BothExchanged(Do(s, step), i, j);
    }
  }

  /** A step that keeps every token used once does not repeat a rotation. */
  lemma RepeatExchangesTwice(s: State, step: Step, u: int)
    requires Inv(s) && Enabled(s, step) && Repeats(s, step, u)
    ensures !SingleUse(Do(s, step))
  {
    var i, t := step.call, Do(s, step);
    var id := s.calls[i].phase.id;
    var j :| 0 <= j < |s.calls| && RevokedBy(s, j, id);
    assert CallOk(s, s.calls[i]) && CallOk(s, s.calls[j]);
    assert BothExchanged(t, i, j);
  }

  /** Only a repeated rotation exchanges a token for the second time. */
  lemma SingleUseAfter(s: State, step: Step)
    requires Inv(s) && Enabled(s, step) && SingleUse(s)
    requires step.Commit? ==> !Repeats(s, step, s.calls[step.call].phase.user)
    ensures SingleUse(Do(s, step))
  {
    var t := Do(s, step);
    StepCallsKept(s, step);
    forall i, j | 0 <= i < |t.calls| && 0 <= j < |t.calls| ensures !BothExchanged(t, i, j) {
      assert !BothExchanged(s, i, j);
      assert CallOk(s, s.calls[i]) && CallOk(s, s.calls[j]);
    }
  }

  lemma {:induction false} SingleUseNeverRepeats(s: State, steps: seq<Step>, u: int)
    requires Inv(s) && IsRun(s, steps) && SingleUse(After(s, steps))
    ensures SingleUse(s) && Repetitions(s, steps, u) == 0
    decreases |steps|
  {
    hide Enabled, Do, Inv, Repeats, SingleUse;
    if steps != [] {
      StepInv(s, steps[0]);
      SingleUseNeverRepeats(Do(s, steps[0]), steps[1..], u);
      SingleUseBefore(s, steps[0]);
      if Repeats(s, steps[0], u) {
        RepeatExchangesTwice(s, steps[0], u);
      }
    }
  }

  lemma {:induction false} NeverRepeatsSingleUse(s: State, steps: seq<Step>)
    requires Inv(s) && IsRun(s, steps) && SingleUse(s)
    requires forall u :: Repetitions(s, steps, u) == 0
    ensures SingleUse(After(s, steps))
    decreases |steps|
  {
    if steps != [] {
      var step := steps[0];
      StepInv(s, step);
      hide Do, Inv, Repeats, SingleUse;
      forall u ensures Repetitions(Do(s, step), steps[1..], u) == 0 && !Repeats(s, step, u) {
        assert Repetitions(s, steps, u) == 0;
      }
      SingleUseAfter(s, step);
      NeverRepeatsSingleUse(Do(s, step), steps[1..]);
    }
  }

  /** The check that the code's `UPDATE ... SET revoked = TRUE` lacks: the session is still live. */
  predicate FindsLive(s: State, step: Step) {
    step.Commit? ==>
      && step.call < |s.calls| && s.calls[step.call].phase.Linked? && s.calls[step.call].phase.id in s.sessions
      && !s.sessions[s.calls[step.call].phase.id].revoked
  }

  predicate AllFindLive(s: State, steps: seq<Step>)
    requires IsRun(s, steps)
    decreases |steps|
  {
    steps == [] || (FindsLive(s, steps[0]) && AllFindLive(Do(s, steps[0]), steps[1..]))
  }

  lemma StepSingleUse(s: State, step: Step)
    requires Inv(s) && Enabled(s, step) && SingleUse(s)
    ensures SingleUse(Do(s, step)) <==> FindsLive(s, step)
  {
    if FindsLive(s, step) {
      SingleUseAfter(s, step);
    } else {
      var p := s.calls[step.call].phase;
      assert CallOk(s, s.calls[step.call]);
      RepeatExchangesTwice(s, step, p.user);
    }
  }

  lemma {:induction false} RunSingleUse(s: State, steps: seq<Step>)
    requires Inv(s) && IsRun(s, steps) && SingleUse(s)
    ensures SingleUse(After(s, steps)) <==> AllFindLive(s, steps)
    decreases |steps|
  {
    hide Enabled, Do, Inv, FindsLive, SingleUse;
    if steps != [] {
      StepInv(s, steps[0]);
      StepSingleUse(s, steps[0]);
      if SingleUse(Do(s, steps[0])) {
        RunSingleUse(Do(s, steps[0]), steps[1..]);
      } else if SingleUse(After(s, steps)) {
        SingleUseNeverRepeats(Do(s, steps[0]), steps[1..], 0);
      }
    }
  }

  lemma {:induction false} AllFindLiveAt(s: State, steps: seq<Step>)
    requires IsRun(s, steps)
    ensures AllFindLive(s, steps) <==>
      forall k | 0 <= k < |steps| :: IsRun(s, steps[..k]) && FindsLive(After(s, steps[..k]), steps[k])
    decreases |steps|
  {
    hide Enabled, Do, FindsLive;
    if steps != [] {
      var t, rest := Do(s, steps[0]), steps[1..];
      AllFindLiveAt(t, rest);
      assert steps[..0] == [];
      forall k | 0 <= k < |rest| ensures IsRun(t, rest[..k]) && IsRun(s, steps[..k + 1])
        && After(s, steps[..k + 1]) == After(t, rest[..k]) {
        RunSplit(t, rest, k);
        assert steps[..k + 1][1..] == rest[..k];
      }
      if forall k | 0 <= k < |steps| :: IsRun(s, steps[..k]) && FindsLive(After(s, steps[..k]), steps[k]) {
        forall k | 0 <= k < |rest| ensures FindsLive(After(t, rest[..k]), rest[k]) {
          assert FindsLive(After(s, steps[..k + 1]), steps[k + 1]);
        }
      }
      if AllFindLive(s, steps) {
        forall k | 0 <= k < |steps| ensures IsRun(s, steps[..k]) && FindsLive(After(s, steps[..k]), steps[k]) {
          if k > 0 {
            assert FindsLive(After(t, rest[..k - 1]), rest[k - 1]);
          }
        }
      }
    }
  }

  /**
   * In every run no token is exchanged twice exactly when every commit finds the session that it revokes
   * still live, which the code does not check.
   */
  lemma SingleUseIffFindsLive(s: State, steps: seq<Step>)
    requires Initial(s) && IsRun(s, steps)
    ensures SingleUse(After(s, steps)) <==>
      forall k | 0 <= k < |steps| :: IsRun(s, steps[..k]) && FindsLive(After(s, steps[..k]), steps[k])
  {
    InitialInv(s);
    InitialSingleUse(s);
    RunSingleUse(s, steps);
    AllFindLiveAt(s, steps);
  }

  /**
   * In every run, each user has exactly as many live sessions as its sign-ins inserted if and only if no
   * token was exchanged twice.
   */
  lemma CountsIffSingleUse(s: State, steps: seq<Step>)
    requires Initial(s) && IsRun(s, steps)
    ensures SingleUse(After(s, steps)) <==> forall u :: |LiveOf(After(s, steps).sessions, u)| == SignIns(steps, u)
  {
    InitialInv(s);
    hide Inv, LiveOf, SingleUse, Initial;
    forall u ensures |LiveOf(After(s, steps).sessions, u)| == SignIns(steps, u) + Repetitions(s, steps, u) {
      SessionsConserved(s, steps, u);
    }
    if SingleUse(After(s, steps)) {
      forall u ensures Repetitions(s, steps, u) == 0 {
        SingleUseNeverRepeats(s, steps, u);
      }
    }
    if forall u :: |LiveOf(After(s, steps).sessions, u)| == SignIns(steps, u) {
      forall u ensures Repetitions(s, steps, u) == 0 {
        assert |LiveOf(After(s, steps).sessions, u)| == SignIns(steps, u);
      }
      InitialSingleUse(s);
      NeverRepeatsSingleUse(s, steps);
    }
  }

  lemma InitialSingleUse(s: State)
    requires Initial(s)
    ensures SingleUse(s)
  {
  }

  // ---------------------------------------------------------------- the overlap that the code allows

  lemma {:induction false} RunAppend(s: State, a: seq<Step>, b: seq<Step>)
    requires IsRun(s, a) && IsRun(After(s, a), b)
    ensures IsRun(s, a + b) && After(s, a + b) == After(After(s, a), b)
    decreases |a|
  {
    hide Enabled, Do;
    if a == [] {
      assert a + b == b;
    } else {
      RunAppend(Do(s, a[0]), a[1..], b);
      assert (a + b)[1..] == a[1..] + b;
    }
  }

  lemma RunCons(s: State, step: Step, steps: seq<Step>)
    requires Enabled(s, step) && IsRun(Do(s, step), steps)
    ensures IsRun(s, [step] + steps) && After(s, [step] + steps) == After(Do(s, step), steps)
  {
    assert ([step] + steps)[1..] == steps;
  }

  function Rotate(i: nat, token: string): seq<Step> {
    ([Revoke(i)] + ([Insert(i, token)] + [])) + ([Link(i)] + ([Commit(i)] + []))
  }

  function Halfway(s: State, i: nat, token: string): State
    requires i < |s.calls| && s.calls[i].phase.Begun?
  {
    var p := s.calls[i].phase;
    s.(next := s.next + 1, clock := s.clock + 2,
       calls := s.calls[i := s.calls[i].(phase := Inserted(p.id, p.user, s.next,
         NewSession(p.user, token, s.now + s.ttl)))])
  }

  lemma FirstHalf(s: State, i: nat, token: string)
    requires i < |s.calls| && s.calls[i].phase.Begun?
    requires (forall j | 0 <= j < |s.calls| :: !Holds(s.calls[j].phase)) && TokenFree(s.sessions, token)
    ensures IsRun(s, [Revoke(i)] + ([Insert(i, token)] + []))
    ensures After(s, [Revoke(i)] + ([Insert(i, token)] + [])) == Halfway(s, i, token)
  {
    var s1 := Do(s, Revoke(i));
    var s2 := Do(s1, Insert(i, token));
    assert s2 == Halfway(s, i, token);
    assert IsRun(s2, []) && After(s2, []) == s2;
    hide Do, Halfway;
    RunCons(s1, Insert(i, token), []);
    RunCons(s, Revoke(i), [Insert(i, token)] + []);
  }

  lemma SecondHalf(s: State, i: nat, token: string)
    requires i < |s.calls| && s.calls[i].phase.Begun? && s.calls[i].phase.id in s.sessions
    ensures var h, steps := Halfway(s, i, token), [Link(i)] + ([Commit(i)] + []);
      IsRun(h, steps) && After(h, steps) == RotateDone(s, i, token)
  {
    var h := Halfway(s, i, token);
    var s3 := Do(h, Link(i));
    var s4 := Do(s3, Commit(i));
    assert s4 == RotateDone(s, i, token);
    assert IsRun(s4, []) && After(s4, []) == s4;
    hide Do, Rotated, RotateDone;
    RunCons(s3, Commit(i), []);
    RunCons(h, Link(i), [Commit(i)] + []);
  }

  /** A call that has begun rotates its session if it is left alone, be the session revoked or not. */
  lemma RotateRuns(s: State, i: nat, token: string)
    requires i < |s.calls| && s.calls[i].phase.Begun? && s.calls[i].phase.id in s.sessions
    requires (forall j | 0 <= j < |s.calls| :: !Holds(s.calls[j].phase)) && TokenFree(s.sessions, token)
    ensures IsRun(s, Rotate(i, token)) && After(s, Rotate(i, token)) == RotateDone(s, i, token)
  {
    FirstHalf(s, i, token);
    SecondHalf(s, i, token);
    RunAppend(s, [Revoke(i)] + ([Insert(i, token)] + []), [Link(i)] + ([Commit(i)] + []));
  }

  function RotateDone(s: State, i: nat, token: string): State
    requires i < |s.calls| && s.calls[i].phase.Begun? && s.calls[i].phase.id in s.sessions
  {
    var p := s.calls[i].phase;
    State(Rotated(s.sessions, p.id, s.next, NewSession(p.user, token, s.now + s.ttl)), s.next + 1, s.now, s.ttl,
          s.calls[i := Refresh(s.calls[i].token, Committed(p.id, p.user, s.next), s.calls[i].foundAt,
            s.clock + 3)], s.clock + 4)
  }

  /** Two calls present the token "t", the only session's. */
  function TwoCalls(): State {
    State(map[], 1, 0, 60, [Refresh("t", Start, 0, 0), Refresh("t", Start, 0, 0)], 0)
  }

  /** Both look the token up and begin before either goes on. */
  function Lookups(): seq<Step> {
    [SignIn(7, "t")] + ([Lookup(0, Some(1))] + ([Lookup(1, Some(1))] + ([Begin(0)] + ([Begin(1)] + []))))
  }

  function BothBegun(): State {
    State(map[1 := NewSession(7, "t", 60)], 2, 0, 60,
      [Refresh("t", Begun(1, 7), 1, 0), Refresh("t", Begun(1, 7), 2, 0)], 5)
  }

  lemma LookupsRun()
    ensures IsRun(TwoCalls(), Lookups()) && After(TwoCalls(), Lookups()) == BothBegun()
  {
    var s := TwoCalls();
    var s1 := Do(s, SignIn(7, "t"));
    assert s1.sessions == map[1 := NewSession(7, "t", 60)];
    var s2 := Do(s1, Lookup(0, Some(1)));
    var s3 := Do(s2, Lookup(1, Some(1)));
    var s4 := Do(s3, Begin(0));
    var s5 := Do(s4, Begin(1));
    assert s5 == BothBegun();
    assert IsRun(s5, []) && After(s5, []) == s5;
    RunCons(s4, Begin(1), []);
    RunCons(s3, Begin(0), [Begin(1)] + []);
    RunCons(s2, Lookup(1, Some(1)), [Begin(0)] + ([Begin(1)] + []));
    RunCons(s1, Lookup(0, Some(1)), [Lookup(1, Some(1))] + ([Begin(0)] + ([Begin(1)] + [])));
    RunCons(s, SignIn(7, "t"), [Lookup(0, Some(1))] + ([Lookup(1, Some(1))] + ([Begin(0)] + ([Begin(1)] + []))));
  }

  function TwiceRotated(): State {
    RotateDone(RotateDone(BothBegun(), 0, "a"), 1, "b")
  }

  lemma TwiceRotatedState()
    ensures var t := TwiceRotated();
      && BothExchanged(t, 0, 1) && LiveOf(t.sessions, 7) == {2, 3}
      && 1 in t.sessions && t.sessions[1].replacedBy == Some(3)
  {
  }

  /** The second rotation waits for the row lock, and goes on when the first has committed. */
  lemma RotationsRun()
    ensures var run := Rotate(0, "a") + Rotate(1, "b");
      IsRun(BothBegun(), run) && After(BothBegun(), run) == TwiceRotated()
  {
    var s0, s1 := BothBegun(), RotateDone(BothBegun(), 0, "a");
    assert TokenFree(s1.sessions, "b") && !Holds(s1.calls[0].phase) && !Holds(s1.calls[1].phase);
    RotateRuns(s0, 0, "a");
    RotateRuns(s1, 1, "b");
    hide IsRun, Enabled, Do, After, Rotate, Rotated;
    RunAppend(s0, Rotate(0, "a"), Rotate(1, "b"));
  }

  /**
   * Overlapping refreshes of one token can both succeed: the lookup is outside the transaction and the
   * revocation is unconditional. One sign-in then leaves two live sessions, the first of them in no chain.
   */
  lemma OverlapExchangesTwice()
    ensures var run := Lookups() + (Rotate(0, "a") + Rotate(1, "b"));
      && Initial(TwoCalls()) && IsRun(TwoCalls(), run)
      && var t := After(TwoCalls(), run);
      && BothExchanged(t, 0, 1) && !SingleUse(t)
      && SignIns(run, 7) == 1 && LiveOf(t.sessions, 7) == {2, 3}
      && 1 in t.sessions && t.sessions[1].replacedBy == Some(3)
  {
    LookupsRun();
    RotationsRun();
    OneSignIn();
    TwiceRotatedState();
    hide IsRun, Enabled, Do, After, Lookups, Rotate, LiveOf, SignIns, TwiceRotated;
    RunAppend(TwoCalls(), Lookups(), Rotate(0, "a") + Rotate(1, "b"));
    assert BothExchanged(After(TwoCalls(), Lookups() + (Rotate(0, "a") + Rotate(1, "b"))), 0, 1);
  }

  lemma OneSignIn()
    ensures SignIns(Lookups() + (Rotate(0, "a") + Rotate(1, "b")), 7) == 1
  {
    NoSignIns(Rotate(0, "a") + Rotate(1, "b"), 7);
    var rest := Lookups()[1..] + (Rotate(0, "a") + Rotate(1, "b"));
    assert (Lookups() + (Rotate(0, "a") + Rotate(1, "b")))[1..] == rest;
    NoSignIns(rest, 7);
  }

  lemma {:induction false} NoSignIns(steps: seq<Step>, u: int)
    requires forall i | 0 <= i < |steps| :: !steps[i].SignIn?
    ensures SignIns(steps, u) == 0
  {
    if steps != [] {
      NoSignIns(steps[1..], u);
    }
  }
}
