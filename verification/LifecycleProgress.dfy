/**
 How far the workers can run: the number of transitions is bounded by the number of
 deployments, nothing is left behind when every outcome write commits, and a claim passes
 over an older row only in favour of a claim that is already under way.
 */
module LifecycleProgress {
  import opened Lifecycle
  import Runs
  import opened LifecycleSafety
  import opened Finite

  // ---------------------------------------------------------------- the bound

  /** The length of the longest path of the lifecycle graph from a status. */
  function Rank(row: Row): nat {
    match row.status
    case Queued => 4
    case Provisioning => 3
    case Running => 2
    case Terminating => 1
    case _ => 0
  }

  /** The number of status changes a run commits. */
  function Transitions(s: State, steps: seq<Step>): nat
    decreases |steps|
  {
    if steps == [] then 0
    else
      var before := steps[..|steps| - 1];
      Transitions(s, before) + if Written(Exec(s, before), steps[|steps| - 1]).Write? then 1 else 0
  }

  lemma RankStep(s: State, step: Step)
    requires Owned(s)
    ensures var t := Apply(s, step);
            var spent := if Written(s, step).Write? then 1 else 0;
            spent + Sum(t.rows, Rank) + 4 * |s.rows| <= Sum(s.rows, Rank) + 4 * |t.rows|
  {
    StepEffect(s, step);
    var rows := Apply(s, step).rows;
    match Written(s, step)
    case Write(id, status) => SumUpdate(s.rows, Rank, id, s.rows[id].(status := status));
    case NoWrite => if rows != s.rows { assert rows[..|rows| - 1] == s.rows; }
  }

  /** Every transition spends rank, so n deployments allow at most 4n of them, whatever the
      workers do and however often they fail. */
  lemma {:induction false} TransitionsAreBounded(s: State, steps: seq<Step>)
    requires Initial(s)
    ensures Transitions(s, steps) + Sum(Exec(s, steps).rows, Rank) <= 4 * |Exec(s, steps).rows|
    decreases |steps|
  {
    if steps != [] {
      var before := steps[..|steps| - 1];
      TransitionsAreBounded(s, before);
      OwnedAlways(s, before);
      RankStep(Exec(s, before), steps[|steps| - 1]);
    }
  }

  // ---------------------------------------------------------------- quiescence

  /** A worker gives up a row it has claimed, or fails to commit its outcome. */
  predicate Fault(s: State, step: Step) {
    && 0 <= step.Actor() < |s.workers|
    && var phase := s.workers[step.w].phase;
       || (step.Crash? && phase.Owns())
       || (step.Raise? && (phase.Due? || phase.Marking?))
  }

  predicate Faultless(s: State, steps: seq<Step>)
    decreases |steps|
  {
    steps == [] ||
    (Faultless(s, steps[..|steps| - 1]) && !Fault(Exec(s, steps[..|steps| - 1]), steps[|steps| - 1]))
  }

  predicate HeldBy(s: State, id: nat, kind: Kind, w: nat) {
    w < |s.workers| && s.workers[w].kind == kind && s.workers[w].phase.Owns() && s.workers[w].phase.id == id
  }

  /** No claimed row has been abandoned. */
  ghost predicate Attended(s: State) {
    && (forall id: nat, kind: Kind | id < |s.rows| && s.rows[id].status == kind.To() ::
          exists w: nat :: HeldBy(s, id, kind, w))
    && (forall w: nat | w < |s.workers| :: s.workers[w].phase.Due? ==> s.workers[w].phase.usable)
  }

  lemma StillHeld(s: State, step: Step, id: nat, kind: Kind, w: nat)
    requires Owned(s) && Attended(s) && !Fault(s, step) && HeldBy(s, id, kind, w)
    requires id < |Apply(s, step).rows| && Apply(s, step).rows[id].status == kind.To()
    ensures HeldBy(Apply(s, step), id, kind, w)
  {
  }

  lemma NewlyHeld(s: State, step: Step, id: nat, kind: Kind)
    requires Owned(s) && Written(s, step) == Write(id, kind.To())
    ensures HeldBy(Apply(s, step), id, kind, step.w)
  {
  }

  lemma AttendedStep(s: State, step: Step)
    requires Owned(s) && Attended(s) && !Fault(s, step)
    ensures Attended(Apply(s, step))
  {
    var t := Apply(s, step);
    StepEffect(s, step);
    forall id: nat, kind: Kind | id < |t.rows| && t.rows[id].status == kind.To()
      ensures exists w: nat :: HeldBy(t, id, kind, w)
    {
      if id < |s.rows| && s.rows[id].status == kind.To() {
        var w: nat :| HeldBy(s, id, kind, w);
        StillHeld(s, step, id, kind, w);
      } else {
        NewlyHeld(s, step, id, kind);
      }
    }
    forall w: nat | w < |t.workers| ensures t.workers[w].phase.Due? ==> t.workers[w].phase.usable {
      assert s.workers[w].phase.Due? ==> s.workers[w].phase.usable;
    }
  }

  lemma {:induction false} AttendedAlways(s: State, steps: seq<Step>)
    requires Initial(s) && Faultless(s, steps)
    ensures Attended(Exec(s, steps))
    decreases |steps|
  {
    if steps != [] {
      AttendedAlways(s, steps[..|steps| - 1]);
      OwnedAlways(s, steps[..|steps| - 1]);
      AttendedStep(Exec(s, steps[..|steps| - 1]), steps[|steps| - 1]);
    }
  }

  /** Workers of both kinds are running. */
  ghost predicate Staffed(s: State) {
    exists p: nat, c: nat :: s.Is(p, Provisioner) && s.Is(c, Cleaner)
  }

  ghost predicate AllFinal(s: State) {
    forall id: nat | id < |s.rows| :: Final(s.rows[id].status)
  }

  /** No API transaction is open, and every worker is polling and finds nothing to claim. */
  ghost predicate Quiescent(s: State) {
    s.refs == map[] && forall w: nat | w < |s.workers| ::
      s.workers[w].phase.Polling? && forall id: nat | id < |s.rows| :: !Claimable(s, s.workers[w].kind, id)
  }

  /** When every outcome write has committed, a quiescent state past all expiries holds only
      failed, expired and cleanup_failed rows. */
  lemma QuiescentIsFinished(s: State, steps: seq<Step>)
    requires Initial(s) && Faultless(s, steps)
    requires Quiescent(Exec(s, steps)) && Staffed(Exec(s, steps))
    requires forall id: nat | id < |Exec(s, steps).rows| :: Exec(s, steps).rows[id].expiresAt <= Exec(s, steps).now
    ensures AllFinal(Exec(s, steps))
  {
    AttendedAlways(s, steps);
    var t := Exec(s, steps);
    var p: nat, c: nat :| t.Is(p, Provisioner) && t.Is(c, Cleaner);
    forall id: nat | id < |t.rows| ensures Final(t.rows[id].status) {
      assert !Claimable(t, t.workers[p].kind, id) && !Claimable(t, t.workers[c].kind, id);
      assert t.rows[id].status != Provisioner.To() && t.rows[id].status != Cleaner.To();
    }
  }

  /** What a worker still has to do in its present phase. */
  function Effort(worker: Worker): nat {
    match worker.phase
    case Held(_) => 5
    case Working(_) => 4
    case Due(_, _, _) => 3
    case Marking(_, _, fed) => if fed then 1 else 2
    case Polling => 2
    case Claiming(_, fed) => if fed then 0 else 1
  }

  function Potential(s: State): nat {
    8 * Sum(s.rows, Rank) + Sum(s.workers, Effort) + |s.refs|
  }

  /** The next step of a worker that is not polling. */
  function NextStep(s: State, w: nat): Step
    requires w < |s.workers|
  {
    match s.workers[w].phase
    case Claiming(_, fed) => if fed then Commit(w) else Emit(w)
    case Held(_) => Start(w)
    case Working(_) => Finish(w, true)
    case Due(_, _, _) => Execute(w)
    case Marking(_, _, fed) => if fed then Commit(w) else Emit(w)
    case Polling => Tick(0)
  }

  lemma MoveSpends(s: State, w: nat, phase: Phase)
    requires w < |s.workers| && Effort(Worker(s.workers[w].kind, phase)) < Effort(s.workers[w])
    ensures Potential(s.Move(w, phase)) < Potential(s)
  {
    SumUpdate(s.workers, Effort, w, s.workers[w].(phase := phase));
  }

  lemma NextStepSpends(s: State, w: nat)
    requires Owned(s) && Attended(s) && w < |s.workers| && !s.workers[w].phase.Polling?
    ensures !Fault(s, NextStep(s, w)) && Potential(Apply(s, NextStep(s, w))) < Potential(s)
  {
    var phase := s.workers[w].phase;
    match phase
    case Held(id) => MoveSpends(s, w, Working(id));
    case Working(id) => MoveSpends(s, w, Due(id, s.workers[w].kind.Success(), true));
    case Due(id, outcome, _) =>
      OwnerIsNotBlocked(s, w);
      MoveSpends(s, w, Marking(id, outcome, false));
    case Marking(id, outcome, fed) => if fed { CommitSpends(s, w); } else { MoveSpends(s, w, Marking(id, outcome, true)); }
    case Claiming(id, fed) => if fed { CommitSpends(s, w); } else { MoveSpends(s, w, Claiming(id, true)); }
  }

  lemma CommitSpends(s: State, w: nat)
    requires Owned(s) && Written(s, Commit(w)).Write?
    ensures Potential(Apply(s, Commit(w))) < Potential(s)
  {
    StepEffect(s, Commit(w));
    var t, id := Apply(s, Commit(w)), Written(s, Commit(w)).id;
    assert t.workers == s.workers[w := t.workers[w]];
    SumUpdate(s.workers, Effort, w, t.workers[w]);
    SumUpdate(s.rows, Rank, id, t.rows[id]);
  }

  /** Among the rows below n that a worker may claim there is one that comes first. */
  lemma FirstClaimable(s: State, kind: Kind, some: nat, n: nat) returns (id: nat)
    requires some < n <= |s.rows| && Claimable(s, kind, some)
    ensures id < n && Claimable(s, kind, id)
    ensures forall j: nat | j < n && Claimable(s, kind, j) :: SortKey(kind, s.rows[id]) <= SortKey(kind, s.rows[j])
    decreases n
  {
    var last := n - 1;
    if forall j: nat | j < last :: !Claimable(s, kind, j) {
      id := last;
    } else {
      var other: nat :| other < last && Claimable(s, kind, other);
      id := FirstClaimable(s, kind, other, last);
      if Claimable(s, kind, last) && SortKey(kind, s.rows[last]) < SortKey(kind, s.rows[id]) {
        id := last;
      }
    }
  }

  lemma ClaimSpends(s: State, w: nat, id: nat)
    requires w < |s.workers| && s.workers[w].phase.Polling? && ClaimChoice(s, s.workers[w].kind, id)
    ensures Potential(Apply(s, Select(w, id))) < Potential(s)
  {
    SumUpdate(s.workers, Effort, w, s.workers[w].(phase := Claiming(id, false)));
  }

  lemma FaultlessAppend(s: State, a: seq<Step>, b: seq<Step>)
    requires Faultless(s, a) && Faultless(Exec(s, a), b)
    ensures Faultless(s, a + b)
    decreases |b|
  {
    if b == [] {
      assert a + b == a;
    } else {
      var n := |b| - 1;
      FaultlessAppend(s, a, b[..n]);
      Runs.ExecAppend(Apply, s, a, b[..n]);
      assert (a + b)[..|a + b| - 1] == a + b[..n];
    }
  }

  lemma FaultlessStep(s: State, step: Step)
    requires Owned(s) && Attended(s) && Staffed(s) && !Fault(s, step)
    ensures Owned(Apply(s, step)) && Attended(Apply(s, step)) && Staffed(Apply(s, step))
    ensures Faultless(s, [step]) && Exec(s, [step]) == Apply(s, step)
  {
    OwnedStep(s, step);
    AttendedStep(s, step);
    ExecOne(s, step);
    assert [step][..0] == [] && Exec(s, []) == s;
    var p: nat, c: nat :| s.Is(p, Provisioner) && s.Is(c, Cleaner);
    assert Apply(s, step).Is(p, Provisioner) && Apply(s, step).Is(c, Cleaner);
  }

  /** With every worker polling, an unfinished row can be claimed, if need be after a wait. */
  lemma WaitAndClaim(s: State) returns (wait: nat, w: nat, id: nat)
    requires Attended(s) && Staffed(s) && !AllFinal(s) && s.refs == map[]
    requires forall v: nat | v < |s.workers| :: s.workers[v].phase.Polling?
    ensures w < |s.workers| && ClaimChoice(Apply(s, Tick(wait)), s.workers[w].kind, id)
  {
    var p: nat, c: nat :| s.Is(p, Provisioner) && s.Is(c, Cleaner);
    var some: nat :| some < |s.rows| && !Final(s.rows[some].status);
    assert s.rows[some].status != Provisioner.To() && s.rows[some].status != Cleaner.To();
    w := if s.rows[some].status == Queued then p else c;
    wait := if s.rows[some].expiresAt > s.now then s.rows[some].expiresAt - s.now else 0;
    var t := Apply(s, Tick(wait));
    assert Claimable(t, s.workers[w].kind, some);
    id := FirstClaimable(t, s.workers[w].kind, some, |t.rows|);
  }

  /** One or two faultless steps that bring an unfinished system closer to its end. */
  lemma Advance(s: State) returns (steps: seq<Step>)
    requires Owned(s) && Attended(s) && Staffed(s) && !AllFinal(s)
    ensures Faultless(s, steps) && Potential(Exec(s, steps)) < Potential(s)
    ensures Owned(Exec(s, steps)) && Attended(Exec(s, steps)) && Staffed(Exec(s, steps))
  {
    if w: nat :| w < |s.workers| && !s.workers[w].phase.Polling? {
      NextStepSpends(s, w);
      FaultlessStep(s, NextStep(s, w));
      steps := [NextStep(s, w)];
    } else if r :| r in s.refs {
      FaultlessStep(s, Release(r));
      assert |s.refs - {r}| < |s.refs| by { assert (s.refs - {r}).Keys == s.refs.Keys - {r}; }
      steps := [Release(r)];
    } else {
      var wait, w, id := WaitAndClaim(s);
      var t := Apply(s, Tick(wait));
      FaultlessStep(s, Tick(wait));
      ClaimSpends(t, w, id);
      FaultlessStep(t, Select(w, id));
      FaultlessAppend(s, [Tick(wait)], [Select(w, id)]);
      Runs.ExecAppend(Apply, s, [Tick(wait)], [Select(w, id)]);
      steps := [Tick(wait)] + [Select(w, id)];
    }
  }

  /** No dead end: from every state a faultless run can reach, with workers of both kinds, the
      workers can bring every deployment to a final status once the open API transactions end. */
  lemma {:induction false} CanFinish(s: State) returns (steps: seq<Step>)
    requires Owned(s) && Attended(s) && Staffed(s)
    ensures Faultless(s, steps) && AllFinal(Exec(s, steps))
    decreases Potential(s)
  {
    if AllFinal(s) {
      steps := [];
    } else {
      var first := Advance(s);
      var rest := CanFinish(Exec(s, first));
      FaultlessAppend(s, first, rest);
      Runs.ExecAppend(Apply, s, first, rest);
      steps := first + rest;
    }
  }

  // ---------------------------------------------------------------- what a fault costs

  /** Nobody is left who can write the row's outcome: its owner is gone, or sits in a session
      that a failed statement has aborted. */
  ghost predicate Stranded(s: State, id: nat) {
    && id < |s.rows|
    && (s.rows[id].status == Provisioning || s.rows[id].status == Terminating)
    && forall w: nat | w < |s.workers| :: Powerless(s.workers[w], id)
  }

  predicate Powerless(worker: Worker, id: nat) {
    worker.phase.Owns() && worker.phase.id == id ==>
      worker.phase.Due? && worker.phase.outcome == worker.kind.Failure() && !worker.phase.usable
  }

  /** A stranded row keeps its claimed status for ever: the code never claims it again. */
  lemma {:induction false} StrandedIsForever(s: State, steps: seq<Step>, id: nat)
    requires Owned(s) && Stranded(s, id)
    ensures Owned(Exec(s, steps)) && Stranded(Exec(s, steps), id) && Exec(s, steps).rows[id] == s.rows[id]
  {
    if steps != [] {
      var before, step := steps[..|steps| - 1], steps[|steps| - 1];
      StrandedIsForever(s, before, id);
      StrandedStep(Exec(s, before), step, id);
    }
  }

  lemma StrandedStep(s: State, step: Step, id: nat)
    requires Owned(s) && Stranded(s, id)
    ensures Owned(Apply(s, step)) && Stranded(Apply(s, step), id) && Apply(s, step).rows[id] == s.rows[id]
  {
    OwnedStep(s, step);
    StepEffect(s, step);
    forall w: nat | w < |s.workers|
      ensures Powerless(Apply(s, step).workers[w], id)
    {
      assert Powerless(s.workers[w], id);
      assert s.workers[w].phase.Polling? || WorkerOk(s.rows, s.workers[w]);
    }
  }

  /** The cleanup worker writes `cleanup_failed` in the session in which `expired` has just failed.  The
      row is stranded by an exception in that write exactly when the session is no longer usable after
      it, as it never is when the feed upsert was what raised. */
  lemma AbortedCleanupIsStranded(s: State, w: nat, usable: bool)
    requires Owned(s) && s.Is(w, Cleaner)
    requires s.workers[w].phase.Due? || s.workers[w].phase.Marking?
    requires s.workers[w].phase.outcome == Expired
    ensures var phase := s.workers[w].phase;
            Stranded(Apply(s, Raise(w, usable)), phase.id) <==> !usable || (phase.Marking? && !phase.fed)
  {
    assert WorkerOk(s.rows, s.workers[w]);
    var id, t := s.workers[w].phase.id, Apply(s, Raise(w, usable));
    forall v: nat | v < |s.workers| && v != w ensures Powerless(t.workers[v], id) {
      assert Apart(s, v, w);
    }
    assert t.workers[w].phase.Due? && t.workers[w].phase.id == id;
    assert Powerless(t.workers[w], id) <==> !t.workers[w].phase.usable;
  }

  // ---------------------------------------------------------------- order of claims

  /** An unlocked queued row, and no unlocked queued row was created before it. */
  ghost predicate OldestQueued(s: State, id: nat) {
    && id < |s.rows| && s.rows[id].status == Queued && !s.Locked(id) && !s.Referenced(id)
    && forall j: nat | j < |s.rows| && s.rows[j].status == Queued && !s.Locked(j) && !s.Referenced(j) ::
         s.rows[id].createdAt <= s.rows[j].createdAt
  }

  /** An unlocked running row that has expired, and no such row expired before it. */
  ghost predicate FirstExpired(s: State, id: nat) {
    && id < |s.rows| && s.rows[id].status == Running && s.rows[id].expiresAt <= s.now && !s.Locked(id) && !s.Referenced(id)
    && forall j: nat | j < |s.rows| && s.rows[j].status == Running && s.rows[j].expiresAt <= s.now
                       && !s.Locked(j) && !s.Referenced(j) ::
         s.rows[id].expiresAt <= s.rows[j].expiresAt
  }

  /** No queued row is unlocked. */
  ghost predicate NoneQueued(s: State) {
    forall id: nat | id < |s.rows| && s.rows[id].status == Queued :: s.Locked(id) || s.Referenced(id)
  }

  /** No running row that has expired is unlocked. */
  ghost predicate NoneExpired(s: State) {
    forall id: nat | id < |s.rows| && s.rows[id].status == Running && s.rows[id].expiresAt <= s.now ::
      s.Locked(id) || s.Referenced(id)
  }

  /** First come, first served: a provisioning worker can claim the queued row that was created first and no
      other, a cleanup worker the row that expired first and no other, among those that nothing has locked. */
  lemma ClaimsTheFirst(s: State, w: nat, id: nat)
    requires w < |s.workers| && s.workers[w].phase.Polling?
    ensures Apply(s, Select(w, id)).workers[w].phase == Claiming(id, false) <==>
            if s.workers[w].kind.Provisioner? then OldestQueued(s, id) else FirstExpired(s, id)
    ensures Apply(s, Select(w, id)) != s ==> Apply(s, Select(w, id)).workers[w].phase == Claiming(id, false)
  {
  }

  lemma NothingIsClaimable(s: State, kind: Kind)
    requires forall id: nat | id < |s.rows| :: !Claimable(s, kind, id)
    ensures if kind.Provisioner? then NoneQueued(s) else NoneExpired(s)
  {
    forall id: nat | id < |s.rows| && !s.Locked(id) && !s.Referenced(id)
      ensures s.rows[id].status != kind.From() || (kind.Cleaner? && s.rows[id].expiresAt > s.now)
    {
      assert !Claimable(s, kind, id);
    }
  }

  /** The rows the claim statement would have preferred to row `id`. */
  function Older(s: State, kind: Kind, id: nat): set<nat>
    requires id < |s.rows|
  {
    set j: nat | j < |s.rows| && s.rows[j].status == kind.From() && (kind.Cleaner? ==> s.rows[j].expiresAt <= s.now)
                 && SortKey(kind, s.rows[j]) < SortKey(kind, s.rows[id])
  }

  /** The other workers of the same kind whose claim is under way. */
  function Rivals(s: State, w: nat): set<nat>
    requires w < |s.workers|
  {
    set v: nat | v < |s.workers| && v != w && s.workers[v].kind == s.workers[w].kind && s.workers[v].phase.Claiming?
  }

  /** The API transactions that refer to one of these rows. */
  function Referrers(s: State, ids: set<nat>): set<nat> {
    set r | r in s.refs && s.refs[r] in ids
  }

  /** The row a worker is dealing with. */
  function RowOf(s: State, w: nat): nat {
    if w < |s.workers| && !s.workers[w].phase.Polling? then s.workers[w].phase.id else 0
  }

  /** The row an API transaction refers to. */
  function RefOf(s: State, r: nat): nat {
    if r in s.refs then s.refs[r] else 0
  }

  lemma PassedOver(s: State, w: nat, id: nat, j: nat)
    requires Owned(s) && w < |s.workers| && s.workers[w].phase.Polling?
    requires ClaimChoice(s, s.workers[w].kind, id) && j in Older(s, s.workers[w].kind, id)
    ensures (exists v :: v in Rivals(s, w) && s.LockedBy(v, j)) || s.Referenced(j)
  {
    assert !Claimable(s, s.workers[w].kind, j);
    if !s.Referenced(j) {
      var v: nat :| v < |s.workers| && s.LockedBy(v, j);
      assert WorkerOk(s.rows, s.workers[v]);
      assert v in Rivals(s, w);
    }
  }

  /** Skipping is bounded: when a worker selects a row, every row that comes before it is locked by
      another claim of the same kind or referred to by an open API transaction, and there are no more
      such rows than there are such claims and transactions. */
  lemma SkippedRowsAreLocked(s: State, w: nat, id: nat)
    requires Owned(s) && w < |s.workers| && s.workers[w].phase.Polling?
    requires ClaimChoice(s, s.workers[w].kind, id)
    ensures var older := Older(s, s.workers[w].kind, id);
            && (forall j | j in older :: (exists v :: v in Rivals(s, w) && s.LockedBy(v, j)) || s.Referenced(j))
            && |older| <= |Rivals(s, w)| + |Referrers(s, older)|
            && |Rivals(s, w)| < |s.workers|
  {
    var older, rivals := Older(s, s.workers[w].kind, id), Rivals(s, w);
    var rowOf, refOf := (v: nat) => RowOf(s, v), (r: nat) => RefOf(s, r);
    forall j | j in older
      ensures (exists v :: v in rivals && s.LockedBy(v, j)) || s.Referenced(j)
      ensures (exists v :: v in rivals && rowOf(v) == j) || (exists r :: r in Referrers(s, older) && refOf(r) == j)
    {
      PassedOver(s, w, id, j);
      if v :| v in rivals && s.LockedBy(v, j) {
        assert rowOf(v) == j;
      } else {
        var r :| r in s.refs && s.refs[r] == j;
        assert r in Referrers(s, older) && refOf(r) == j;
      }
    }
    CoverSize(older, rivals, rowOf, Referrers(s, older), refOf);
    assert w in Below(|s.workers|);
    SubsetSize(rivals, Below(|s.workers|) - {w});
  }

  lemma OlderIsReferenced(s: State, older: Row, younger: Row) returns (steps: seq<Step>)
    requires s == State(0, [], {}, [Worker(Provisioner, Polling)], [], map[])
    requires older.status == younger.status == Queued && older.createdAt < younger.createdAt <= 0
    ensures Exec(s, steps) == State(0, [older, younger], {}, [Worker(Provisioner, Polling)], [], map[0 := 0])
  {
    steps := [];
    OneStep(s, steps, Enqueue(older), s.(rows := [older]));
    steps := steps + [Enqueue(older)];
    OneStep(s, steps, Enqueue(younger), s.(rows := [older, younger]));
    steps := steps + [Enqueue(younger)];
    assert !s.(rows := [older, younger]).BeingClaimed(0);
    OneStep(s, steps, Reference(0, 0), s.(rows := [older, younger], refs := map[0 := 0]));
    steps := steps + [Reference(0, 0)];
  }

  /** So one worker alone can pass over a row: while somebody is being added to the older of two
      deployments, the younger is claimed. */
  lemma ReferencedRowIsPassedOver(s: State, older: Row, younger: Row) returns (steps: seq<Step>)
    requires s == State(0, [], {}, [Worker(Provisioner, Polling)], [], map[])
    requires older.status == younger.status == Queued && older.createdAt < younger.createdAt <= 0
    ensures var t := Exec(s, steps);
            && t == State(0, [older, younger], {}, [Worker(Provisioner, Claiming(1, false))], [], map[0 := 0])
            && Older(t, Provisioner, 1) == {0} && Rivals(t, 0) == {}
  {
    steps := OlderIsReferenced(s, older, younger);
    var t := Exec(s, steps);
    assert !t.LockedBy(0, 1) && t.refs[0] == 0;
    assert ClaimChoice(t, Provisioner, 1);
    OneStep(s, steps, Select(0, 1), t.(workers := [Worker(Provisioner, Claiming(1, false))]));
    steps := steps + [Select(0, 1)];
  }
}
