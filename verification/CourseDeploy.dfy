/**
 The course deploy path: concurrent transactions that take an advisory lock, check the
 guardrails, read the roster and insert a queued deployment, while workers move rows.
 */
module CourseDeploy {
  import L = Lifecycle
  import Safety = LifecycleSafety
  import opened Finite
  import opened Wrappers
  import Runs

  const DEFAULT_MAX_CONCURRENT := 10
  const DEFAULT_MAX_HOURS := 4

  /** A row of course_guardrails. */
  datatype Guardrail = Guardrail(maxConcurrent: int, maxHours: int)

  type Key = (nat, nat)  // owner and content; also the advisory lock key

  datatype Outcome =
    | InThePast | TooLong | AlreadyPending | CapReached | EmptyRoster | Aborted
    | Queued(id: nat)

  datatype Stage =
    | Began                          // validated, waiting for the advisory lock
    | Locked
    | NonePending                    // no queued or provisioning row was found
    | UnderCap                       // fewer active rows than the guardrail allows were found
    | Enrolled                       // the roster count was at least one
    | Inserted(members: set<nat>)    // row and members written, not committed
    | Finished(outcome: Outcome)
  {
    predicate HoldsLock() { !Began? && !Finished? }
    predicate Checked() { HoldsLock() && !Locked? }
    predicate Counted() { Checked() && !NonePending? }
  }

  datatype Tx = Tx(key: Key, expiresAt: int, createdAt: int, stage: Stage)

  datatype State = State(
    labs: L.State,
    guardrails: map<Key, Guardrail>,
    roster: map<nat, set<nat>>,          // enrolled users by content
    members: map<nat, set<nat>>,         // deployment_members by deployment
    txs: seq<Tx>)
  {
    function Limits(key: Key): Guardrail {
      if key in guardrails then guardrails[key] else Guardrail(DEFAULT_MAX_CONCURRENT, DEFAULT_MAX_HOURS)
    }

    function EnrolledIn(content: nat): set<nat> {
      if content in roster then roster[content] else {}
    }

    predicate LockFree(key: Key) {
      forall t | 0 <= t < |txs| :: !(txs[t].stage.HoldsLock() && txs[t].key == key)
    }

    function Move(t: nat, stage: Stage): State
      requires t < |txs|
    {
      this.(txs := txs[t := txs[t].(stage := stage)])
    }
  }

  predicate IsPending(row: L.Row, key: Key) {
    (row.owner, row.content) == key && (row.status == L.Queued || row.status == L.Provisioning)
  }

  predicate IsActive(row: L.Row, key: Key) {
    IsPending(row, key) || ((row.owner, row.content) == key && row.status == L.Running)
  }

  function Pending(rows: seq<L.Row>, key: Key): set<nat> {
    set id: nat | id < |rows| && IsPending(rows[id], key)
  }

  function Active(rows: seq<L.Row>, key: Key): set<nat> {
    set id: nat | id < |rows| && IsActive(rows[id], key)
  }

  datatype Step =
    | Lab(step: L.Step)                                 // the clock and the workers
    | Enrol(content: nat, user: nat)
    | Unenrol(content: nat, user: nat)
    | Begin(key: Key, expiresAt: int)
    | Lock(t: nat)
    | CheckPending(t: nat)
    | CheckActive(t: nat)
    | CheckRoster(t: nat)
    | Attach(t: nat)                                    // the inserts, with a second read of the roster
    | Commit(t: nat)
    | Abort(t: nat)

  /** The request validation that precedes the lock. */
  function Validated(s: State, key: Key, expiresAt: int): Stage {
    if expiresAt <= s.labs.now then Finished(InThePast)
    else if expiresAt > s.labs.now + 3600 * s.Limits(key).maxHours then Finished(TooLong)
    else Began
  }

  function NewRow(tx: Tx): L.Row {
    L.Row(tx.key.0, tx.key.1, tx.createdAt, tx.expiresAt, L.Queued)
  }

  predicate Names(step: Step) {
    !step.Lab? && !step.Enrol? && !step.Unenrol? && !step.Begin?
  }

  function TxStep(s: State, step: Step): State
    requires Names(step) && step.t < |s.txs|
  {
    var t, tx, rows := step.t, s.txs[step.t], s.labs.rows;
    match step
    case Lock(_) =>
      if tx.stage.Began? && s.LockFree(tx.key) then s.Move(t, Locked) else s
    case CheckPending(_) =>
      if !tx.stage.Locked? then s
      else s.Move(t, if Pending(rows, tx.key) != {} then Finished(AlreadyPending) else NonePending)
    case CheckActive(_) =>
      if !tx.stage.NonePending? then s
      else s.Move(t, if |Active(rows, tx.key)| >= s.Limits(tx.key).maxConcurrent then Finished(CapReached) else UnderCap)
    case CheckRoster(_) =>
      if !tx.stage.UnderCap? then s
      else s.Move(t, if |s.EnrolledIn(tx.key.1)| < 1 then Finished(EmptyRoster) else Enrolled)
    case Attach(_) =>
      if !tx.stage.Enrolled? then s else s.Move(t, Inserted(s.EnrolledIn(tx.key.1)))
    case Commit(_) =>
      if !tx.stage.Inserted? then s
      else
        s.Move(t, Finished(Queued(|rows|)))
         .(labs := L.Apply(s.labs, L.Enqueue(NewRow(tx))), members := s.members[|rows| := tx.stage.members])
    case Abort(_) =>
      if tx.stage.Finished? then s else s.Move(t, Finished(Aborted))
  }

  /** One step.  A step that is not enabled changes nothing. */
  function Apply(s: State, step: Step): State {
    match step
    case Lab(step) => if step.Enqueue? then s else s.(labs := L.Apply(s.labs, step))
    case Enrol(content, user) => s.(roster := s.roster[content := s.EnrolledIn(content) + {user}])
    case Unenrol(content, user) => s.(roster := s.roster[content := s.EnrolledIn(content) - {user}])
    case Begin(key, expiresAt) => s.(txs := s.txs + [Tx(key, expiresAt, s.labs.now, Validated(s, key, expiresAt))])
    case _ => if step.t < |s.txs| then TxStep(s, step) else s
  }

  function Exec(s: State, steps: seq<Step>): State {
    Runs.Exec(Apply, s, steps)
  }

  predicate Initial(s: State) {
    L.Initial(s.labs) && s.txs == [] && s.members == map[]
  }

  // ---------------------------------------------------------------- the invariant

  /** What a transaction has checked stays true while it holds the lock. */
  ghost predicate TxOk(s: State, tx: Tx) {
    && (!tx.stage.Finished? ==> tx.createdAt <= s.labs.now)
    && (tx.stage.Checked() ==> Pending(s.labs.rows, tx.key) == {})
    && (tx.stage.Counted() ==> |Active(s.labs.rows, tx.key)| < s.Limits(tx.key).maxConcurrent)
  }

  ghost predicate Serial(s: State, t: nat, u: nat)
    requires t < |s.txs| && u < |s.txs|
  {
    !s.txs[t].stage.HoldsLock() || !s.txs[u].stage.HoldsLock() || s.txs[t].key != s.txs[u].key
  }

  ghost predicate WithinLimits(s: State, key: Key) {
    && |Pending(s.labs.rows, key)| <= 1
    && (|Active(s.labs.rows, key)| <= s.Limits(key).maxConcurrent || Active(s.labs.rows, key) == {})
  }

  ghost predicate Inv(s: State) {
    && Safety.Owned(s.labs)
    && (forall t | 0 <= t < |s.txs| :: TxOk(s, s.txs[t]))
    && (forall t: nat, u: nat | t < |s.txs| && u < |s.txs| && t != u :: Serial(s, t, u))
    && (forall key :: WithinLimits(s, key))
  }

  /** The workers never add a row to either set. */
  lemma WorkersOnlyShrink(s: L.State, step: L.Step, key: Key)
    requires Safety.Owned(s) && !step.Enqueue?
    ensures Pending(L.Apply(s, step).rows, key) <= Pending(s.rows, key)
    ensures Active(L.Apply(s, step).rows, key) <= Active(s.rows, key)
  {
  }

  /** A step other than the commit of a transaction for this key adds no row to either set. */
  lemma OnlyCommitsGrow(s: State, step: Step, key: Key)
    requires Inv(s)
    requires step.Commit? && step.t < |s.txs| && s.txs[step.t].stage.Inserted? ==> s.txs[step.t].key != key
    ensures var rows := Apply(s, step).labs.rows;
            && Pending(rows, key) <= Pending(s.labs.rows, key) && Active(rows, key) <= Active(s.labs.rows, key)
            && |Pending(rows, key)| <= |Pending(s.labs.rows, key)| && |Active(rows, key)| <= |Active(s.labs.rows, key)|
  {
    if step.Lab? && !step.step.Enqueue? {
      WorkersOnlyShrink(s.labs, step.step, key);
    }
    var rows := Apply(s, step).labs.rows;
    SubsetSize(Pending(rows, key), Pending(s.labs.rows, key));
    SubsetSize(Active(rows, key), Active(s.labs.rows, key));
  }

  lemma CommitGrowsByOne(s: State, t: nat)
    requires Inv(s) && t < |s.txs| && s.txs[t].stage.Inserted?
    ensures s.Limits(s.txs[t].key).maxConcurrent > |Active(s.labs.rows, s.txs[t].key)|
    ensures var key, rows := s.txs[t].key, Apply(s, Commit(t)).labs.rows;
            && rows == s.labs.rows + [NewRow(s.txs[t])]
            && Pending(rows, key) == {|s.labs.rows|}
            && Active(rows, key) == Active(s.labs.rows, key) + {|s.labs.rows|}
            && WithinLimits(Apply(s, Commit(t)), key)
            && |Active(rows, key)| <= s.Limits(key).maxConcurrent
  {
    var key, was, rows := s.txs[t].key, s.labs.rows, Apply(s, Commit(t)).labs.rows;
    assert TxOk(s, s.txs[t]);
    assert rows == was + [NewRow(s.txs[t])];
    assert forall id: nat | id < |was| :: IsPending(was[id], key) ==> id in Pending(was, key);
    assert Pending(rows, key) == {|was|};
    assert Active(rows, key) == Active(was, key) + {|was|};
  }

  lemma LimitsStep(s: State, step: Step, key: Key)
    requires Inv(s)
    ensures WithinLimits(Apply(s, step), key)
  {
    assert WithinLimits(s, key);
    if step.Commit? && step.t < |s.txs| && s.txs[step.t].stage.Inserted? && s.txs[step.t].key == key {
      CommitGrowsByOne(s, step.t);
    } else {
      OnlyCommitsGrow(s, step, key);
    }
  }

  lemma SerialStep(s: State, step: Step, t: nat, u: nat)
    requires Inv(s) && t != u && t < |Apply(s, step).txs| && u < |Apply(s, step).txs|
    ensures Serial(Apply(s, step), t, u)
  {
    if t < |s.txs| && u < |s.txs| {
      assert Serial(s, t, u);
    }
  }

  lemma ChecksTransfer(s: State, r: State, tx: Tx)
    requires TxOk(s, tx) && s.labs.now <= r.labs.now && r.guardrails == s.guardrails
    requires Pending(r.labs.rows, tx.key) <= Pending(s.labs.rows, tx.key)
    requires |Active(r.labs.rows, tx.key)| <= |Active(s.labs.rows, tx.key)|
    ensures TxOk(r, tx)
  {
  }

  lemma ClockStep(s: State, step: Step)
    ensures s.labs.now <= Apply(s, step).labs.now && Apply(s, step).guardrails == s.guardrails
  {
  }

  lemma TxFrame(s: State, step: Step, t: nat)
    requires t < |s.txs| && (Names(step) ==> step.t != t)
    ensures |s.txs| <= |Apply(s, step).txs| && Apply(s, step).txs[t] == s.txs[t]
  {
  }

  /** What a transaction has checked outlives the steps of others. */
  lemma OtherTxStep(s: State, step: Step, t: nat)
    requires Inv(s) && t < |s.txs| && (Names(step) ==> step.t != t)
    ensures TxOk(Apply(s, step), s.txs[t])
  {
    assert TxOk(s, s.txs[t]);
    ClockStep(s, step);
    if s.txs[t].stage.HoldsLock() {
      if step.Commit? && step.t < |s.txs| && s.txs[step.t].stage.Inserted? {
        assert Serial(s, step.t, t);
      }
      OnlyCommitsGrow(s, step, s.txs[t].key);
      ChecksTransfer(s, Apply(s, step), s.txs[t]);
    }
  }

  lemma OwnTxStep(s: State, step: Step)
    requires Inv(s) && Names(step) && step.t < |s.txs|
    ensures TxOk(Apply(s, step), Apply(s, step).txs[step.t])
  {
  }

  lemma TxOkStep(s: State, step: Step, t: nat)
    requires Inv(s) && t < |Apply(s, step).txs|
    ensures TxOk(Apply(s, step), Apply(s, step).txs[t])
  {
    if t >= |s.txs| {
      assert step.Begin? && Apply(s, step).labs == s.labs;
    } else if Names(step) && step.t == t {
      OwnTxStep(s, step);
    } else {
      TxFrame(s, step, t);
      OtherTxStep(s, step, t);
    }
  }

  lemma InvStep(s: State, step: Step)
    requires Inv(s)
    ensures Inv(Apply(s, step))
  {
    var r := Apply(s, step);
    if step.Lab? { Safety.OwnedStep(s.labs, step.step); }
    if step.Commit? && step.t < |s.txs| { Safety.OwnedStep(s.labs, L.Enqueue(NewRow(s.txs[step.t]))); }
    forall t | 0 <= t < |r.txs| ensures TxOk(r, r.txs[t]) { TxOkStep(s, step, t); }
    forall t: nat, u: nat | t < |r.txs| && u < |r.txs| && t != u ensures Serial(r, t, u) { SerialStep(s, step, t, u); }
    forall key ensures WithinLimits(r, key) { LimitsStep(s, step, key); }
  }

  lemma InvAlways(s: State, steps: seq<Step>)
    requires Initial(s)
    ensures Inv(Exec(s, steps))
  {
    forall t: State, step: Step | Inv(t) ensures Inv(Apply(t, step)) {
      InvStep(t, step);
    }
    assert forall key :: Pending(s.labs.rows, key) == {} && Active(s.labs.rows, key) == {};
    Runs.Always(Apply, Inv, s, steps);
  }

  // ---------------------------------------------------------------- results

  /** The two sets that the checks look at, on the columns of the table. */
  lemma SetsByColumns(rows: seq<L.Row>, key: Key)
    ensures Pending(rows, key) == set id: nat | id < |rows| && rows[id].owner == key.0 && rows[id].content == key.1
                                                && rows[id].status in {L.Queued, L.Provisioning}
    ensures Active(rows, key) == set id: nat | id < |rows| && rows[id].owner == key.0 && rows[id].content == key.1
                                               && rows[id].status in {L.Queued, L.Provisioning, L.Running}
  {
  }

  /** In every interleaving of deploy transactions and worker steps: at most one queued or
      provisioning row per owner and lab, and never more queued, provisioning and running ones than
      max_concurrent_deployments of the guardrail row allows, or 10 if there is no such row. */
  lemma GuardrailsHold(s: State, steps: seq<Step>, key: Key)
    requires Initial(s)
    ensures var rows := Exec(s, steps).labs.rows;
            var cap := if key in s.guardrails then s.guardrails[key].maxConcurrent else 10;
            && |set id: nat | id < |rows| && rows[id].owner == key.0 && rows[id].content == key.1
                              && rows[id].status in {L.Queued, L.Provisioning}| <= 1
            && |set id: nat | id < |rows| && rows[id].owner == key.0 && rows[id].content == key.1
                              && rows[id].status in {L.Queued, L.Provisioning, L.Running}| <= (if cap > 0 then cap else 0)
  {
    InvAlways(s, steps);
    GuardrailsAreFixed(s, steps);
    assert WithinLimits(Exec(s, steps), key);
    SetsByColumns(Exec(s, steps).labs.rows, key);
  }

  lemma GuardrailsStep(s: State, step: Step)
    ensures Apply(s, step).guardrails == s.guardrails
  {
  }

  lemma {:induction false} GuardrailsAreFixed(s: State, steps: seq<Step>)
    ensures Exec(s, steps).guardrails == s.guardrails
  {
    if steps != [] {
      GuardrailsAreFixed(s, steps[..|steps| - 1]);
      GuardrailsStep(Exec(s, steps[..|steps| - 1]), steps[|steps| - 1]);
    }
  }

  /** The two checks are still true when the transaction commits, however much later that is. */
  lemma ChecksHoldAtCommit(s: State, steps: seq<Step>, t: nat)
    requires Initial(s)
    requires t < |Exec(s, steps).txs| && Exec(s, steps).txs[t].stage.Inserted?
    ensures var u := Exec(s, steps);
            var v := Apply(u, Commit(t));
            var key := u.txs[t].key;
            && Pending(u.labs.rows, key) == {} && |Active(u.labs.rows, key)| < u.Limits(key).maxConcurrent
            && v.txs[t].stage == Finished(Queued(|u.labs.rows|))
            && v.labs.rows == u.labs.rows + [NewRow(u.txs[t])]
            && Pending(v.labs.rows, key) == {|u.labs.rows|}
            && v.members[|u.labs.rows|] == u.txs[t].stage.members
  {
    InvAlways(s, steps);
    assert TxOk(Exec(s, steps), Exec(s, steps).txs[t]);
    CommitGrowsByOne(Exec(s, steps), t);
  }

  lemma CommitFacts(s: State, steps: seq<Step>, t: nat)
    requires Initial(s) && t < |Exec(s, steps).txs| && Exec(s, steps).txs[t].stage.Inserted?
    ensures var u := Exec(s, steps);
            var key, rows := u.txs[t].key, u.labs.rows + [NewRow(u.txs[t])];
            && L.Apply(u.labs, L.Enqueue(NewRow(u.txs[t]))).rows == rows
            && Pending(rows, key) == {|u.labs.rows|} && |Active(rows, key)| <= u.Limits(key).maxConcurrent
  {
    InvAlways(s, steps);
    CommitGrowsByOne(Exec(s, steps), t);
  }

  /** The members of a run are the users enrolled when the roster is read for the second time, so
      the run is empty exactly when the roster is empty then: the earlier count does not decide it. */
  lemma RunIsEmptyIff(s: State, t: nat, between: seq<Step>)
    requires t < |s.txs| && s.txs[t].stage.Enrolled?
    requires forall i | 0 <= i < |between| :: Names(between[i]) ==> between[i].t != t
    ensures var read := Apply(s, Attach(t));
            var done := Apply(Exec(read, between), Commit(t));
            && t < |done.txs| && done.txs[t].stage.Finished? && done.txs[t].stage.outcome.Queued?
            && var id := done.txs[t].stage.outcome.id;
               && id in done.members
               && (done.members[id] == {} <==> s.EnrolledIn(s.txs[t].key.1) == {})
  {
    Untouched(Apply(s, Attach(t)), between, t);
  }

  lemma {:induction false} Untouched(s: State, steps: seq<Step>, t: nat)
    requires t < |s.txs| && forall i | 0 <= i < |steps| :: Names(steps[i]) ==> steps[i].t != t
    ensures |s.txs| <= |Exec(s, steps).txs| && Exec(s, steps).txs[t] == s.txs[t]
  {
    if steps != [] {
      Untouched(s, steps[..|steps| - 1], t);
    }
  }

  /** A learner who is on the roster when it is counted, and is not taken off it before the second read, is a
      member of the run. */
  lemma CountedLearnerIsMember(s: State, t: nat, before: seq<Step>, after: seq<Step>, user: nat)
    requires t < |s.txs| && s.txs[t].stage.UnderCap? && user in s.EnrolledIn(s.txs[t].key.1)
    requires Others(before, t) && Others(after, t)
    requires forall i | 0 <= i < |before| :: before[i] != Unenrol(s.txs[t].key.1, user)
    ensures var read := Apply(Exec(Apply(s, CheckRoster(t)), before), Attach(t));
            var done := Apply(Exec(read, after), Commit(t));
            && t < |done.txs| && done.txs[t].stage.Finished? && done.txs[t].stage.outcome.Queued?
            && done.txs[t].stage.outcome.id in done.members && user in done.members[done.txs[t].stage.outcome.id]
  {
    var counted := Apply(s, CheckRoster(t));
    Untouched(counted, before, t);
    StaysEnrolled(counted, before, s.txs[t].key.1, user);
    var read := Apply(Exec(counted, before), Attach(t));
    Untouched(read, after, t);
  }

  lemma {:induction false} StaysEnrolled(s: State, steps: seq<Step>, content: nat, user: nat)
    requires user in s.EnrolledIn(content) && forall i | 0 <= i < |steps| :: steps[i] != Unenrol(content, user)
    ensures user in Exec(s, steps).EnrolledIn(content)
  {
    if steps != [] {
      StaysEnrolled(s, steps[..|steps| - 1], content, user);
      EnrolledStep(Exec(s, steps[..|steps| - 1]), steps[|steps| - 1], content, user);
    }
  }

  lemma EnrolledStep(s: State, step: Step, content: nat, user: nat)
    requires user in s.EnrolledIn(content) && step != Unenrol(content, user)
    ensures user in Apply(s, step).EnrolledIn(content)
  {
  }

  lemma Next(s: State, steps: seq<Step>, step: Step, t: State)
    requires Apply(Exec(s, steps), step) == t
    ensures Exec(s, steps + [step]) == t
  {
    Runs.ExecSnoc(Apply, s, steps, step);
  }

  /** One learner on the roster of content 0, and the request of owner 0 in some stage. */
  function OneLearner(s: State, learners: set<nat>, stage: Stage): State {
    s.(roster := map[0 := learners], txs := [Tx((0, 0), s.labs.now + 1, s.labs.now, stage)])
  }

  lemma OneLearnerBegins(s: State) returns (steps: seq<Step>)
    requires Initial(s) && s.roster == map[] && s.guardrails == map[]
    ensures Exec(s, steps) == OneLearner(s, {7}, Locked)
  {
    steps := [];
    assert s.EnrolledIn(0) + {7} == {7};
    Next(s, steps, Enrol(0, 7), s.(roster := map[0 := {7}]));
    steps := steps + [Enrol(0, 7)];
    Next(s, steps, Begin((0, 0), s.labs.now + 1), OneLearner(s, {7}, Began));
    steps := steps + [Begin((0, 0), s.labs.now + 1)];
    Next(s, steps, Lock(0), OneLearner(s, {7}, Locked));
    steps := steps + [Lock(0)];
  }

  lemma OneLearnerIsCounted(s: State) returns (steps: seq<Step>)
    requires Initial(s) && s.roster == map[] && s.guardrails == map[]
    ensures Exec(s, steps) == OneLearner(s, {7}, Enrolled)
  {
    steps := OneLearnerBegins(s);
    assert Pending(s.labs.rows, (0, 0)) == {} && Active(s.labs.rows, (0, 0)) == {};
    Next(s, steps, CheckPending(0), OneLearner(s, {7}, NonePending));
    steps := steps + [CheckPending(0)];
    Next(s, steps, CheckActive(0), OneLearner(s, {7}, UnderCap));
    steps := steps + [CheckActive(0)];
    Next(s, steps, CheckRoster(0), OneLearner(s, {7}, Enrolled));
    steps := steps + [CheckRoster(0)];
  }

  /** So a run without learners can be queued after all: from an empty database, the only learner leaves
      between the two reads. */
  lemma EmptyRunHappens(s: State) returns (steps: seq<Step>)
    requires Initial(s) && s.roster == map[] && s.guardrails == map[]
    ensures var r := Exec(s, steps);
            && |r.txs| == 1 && r.txs[0].stage == Finished(Queued(0))
            && |r.labs.rows| == 1 && r.labs.rows[0].status == L.Queued
            && 0 in r.members && r.members[0] == {}
  {
    steps := OneLearnerIsCounted(s);
    assert {7} - {7} == {};
    Next(s, steps, Unenrol(0, 7), OneLearner(s, {}, Enrolled));
    steps := steps + [Unenrol(0, 7)];
    Next(s, steps, Attach(0), OneLearner(s, {}, Inserted({})));
    steps := steps + [Attach(0)];
    Runs.ExecSnoc(Apply, s, steps, Commit(0));
    steps := steps + [Commit(0)];
  }

  // ---------------------------------------------------------------- the code

  /** Steps of anybody but transaction `t`. */
  predicate Others(steps: seq<Step>, t: nat) {
    forall i | 0 <= i < |steps| :: Names(steps[i]) ==> steps[i].t != t
  }

  /** What others do before each statement, and whether the commit succeeds. */
  datatype Luck = Luck(beforeLock: seq<Step>, beforeActive: seq<Step>, beforeRoster: seq<Step>,
                       beforeInsert: seq<Step>, beforeCommit: seq<Step>, commits: bool)
  {
    predicate By(t: nat) {
      && Others(beforeLock, t) && Others(beforeActive, t) && Others(beforeRoster, t)
      && Others(beforeInsert, t) && Others(beforeCommit, t)
    }
  }

  /** The guardrail or roster check that ended a request still says so, of the columns it looked at. */
  ghost predicate Blocked(s: State, key: Key, outcome: Outcome) {
    match outcome
    case AlreadyPending =>
      exists id: nat | id < |s.labs.rows| ::
        && s.labs.rows[id].owner == key.0 && s.labs.rows[id].content == key.1
        && (s.labs.rows[id].status == L.Queued || s.labs.rows[id].status == L.Provisioning)
    case CapReached =>
      |set id: nat | id < |s.labs.rows| && s.labs.rows[id].owner == key.0 && s.labs.rows[id].content == key.1
                     && s.labs.rows[id].status in {L.Queued, L.Provisioning, L.Running}|
      >= if key in s.guardrails then s.guardrails[key].maxConcurrent else 10
    case EmptyRoster => key.1 in s.roster ==> s.roster[key.1] == {}
    case _ => false
  }

  lemma BlockedBy(s: State, key: Key)
    ensures Pending(s.labs.rows, key) != {} ==> Blocked(s, key, AlreadyPending)
    ensures |Active(s.labs.rows, key)| >= s.Limits(key).maxConcurrent ==> Blocked(s, key, CapReached)
    ensures s.EnrolledIn(key.1) == {} ==> Blocked(s, key, EmptyRoster)
  {
    SetsByColumns(s.labs.rows, key);
    if id :| id in Pending(s.labs.rows, key) {
      assert s.labs.rows[id].owner == key.0 && s.labs.rows[id].content == key.1;
    }
  }

  /** The state after the checks of transaction `t`, with the steps of others in between. */
  function Checked(s: State, t: nat, luck: Luck): State {
    var counted := Apply(Exec(Apply(s, CheckPending(t)), luck.beforeActive), CheckActive(t));
    Apply(Exec(counted, luck.beforeRoster), CheckRoster(t))
  }

  /** The learners enrolled when the roster is read for the second time, in a request made in state s. */
  function SecondRead(s: State, key: Key, expiresAt: int, luck: Luck): set<nat> {
    var t := |s.txs|;
    var locked := Apply(Exec(Apply(s, Begin(key, expiresAt)), luck.beforeLock), Lock(t));
    Exec(Checked(locked, t, luck), luck.beforeInsert).EnrolledIn(key.1)
  }

  lemma OnlyPending(rows: seq<L.Row>, key: Key, id: nat)
    requires Pending(rows, key) == {id}
    ensures forall j: nat | j < |rows| && rows[j].owner == key.0 && rows[j].content == key.1 ::
              rows[j].status in {L.Queued, L.Provisioning} <==> j == id
    ensures Active(rows, key) == set j: nat | j < |rows| && rows[j].owner == key.0 && rows[j].content == key.1
                                              && rows[j].status in {L.Queued, L.Provisioning, L.Running}
  {
    SetsByColumns(rows, key);
    forall j: nat | j < |rows| && rows[j].owner == key.0 && rows[j].content == key.1
      ensures rows[j].status in {L.Queued, L.Provisioning} <==> j == id
    {
      assert j in Pending(rows, key) <==> j == id;
    }
  }

  class CourseDatabase {
    var labs: L.State
    var roster: map<nat, set<nat>>
    var members: map<nat, set<nat>>
    var txs: seq<Tx>
    const guardrails: map<Key, Guardrail>
    ghost const begin: State
    ghost var log: seq<Step>

    function View(): State
      reads this
    {
      State(labs, guardrails, roster, members, txs)
    }

    ghost predicate Valid()
      reads this
    {
      Initial(begin) && View() == Exec(begin, log)
    }

    constructor (labs: L.State, guardrails: map<Key, Guardrail>, roster: map<nat, set<nat>>)
      requires L.Initial(labs)
      ensures Valid() && txs == [] && members == map[]
    {
      this.labs, this.guardrails, this.roster, members, txs := labs, guardrails, roster, map[], [];
      begin, log := State(labs, guardrails, roster, map[], []), [];
    }

    ghost method Record(step: Step, before: State)
      requires Initial(begin) && before == Exec(begin, log) && View() == Apply(before, step)
      modifies this`log
      ensures Valid() && log == old(log) + [step]
    {
      Runs.ExecSnoc(Apply, begin, log, step);
      log := log + [step];
    }

    method Interrupt(t: nat, steps: seq<Step>)
      requires Valid() && t < |txs| && Others(steps, t)
      modifies this
      ensures Valid() && log == old(log) + steps && t < |txs| && txs[t] == old(txs)[t]
      ensures View() == Exec(old(View()), steps)
    {
      Untouched(View(), steps, t);
      GuardrailsAreFixed(View(), steps);
      Runs.ExecAppend(Apply, begin, log, steps);
      var after := Exec(View(), steps);
      labs, roster, members, txs := after.labs, after.roster, after.members, after.txs;
      log := log + steps;
    }

    method SetStage(t: nat, stage: Stage)
      requires t < |txs|
      modifies this`txs
      ensures txs == old(txs)[t := old(txs)[t].(stage := stage)]
    {
      txs := txs[t := txs[t].(stage := stage)];
    }

    method CheckPendingRow(t: nat)
      requires Valid() && t < |txs| && txs[t].stage.Locked?
      modifies this`txs, this`log
      ensures View() == Apply(old(View()), CheckPending(t))
      ensures Valid() && t < |txs| && txs[t] == old(txs)[t].(stage := txs[t].stage)
      ensures txs[t].stage == if Pending(labs.rows, txs[t].key) == {} then NonePending else Finished(AlreadyPending)
      ensures txs[t].stage.Finished? ==> Blocked(View(), txs[t].key, AlreadyPending)
    {
      ghost var before := View();
      SetStage(t, if Pending(labs.rows, txs[t].key) != {} then Finished(AlreadyPending) else NonePending);
      Record(CheckPending(t), before);
      BlockedBy(View(), txs[t].key);
    }

    method CheckActiveCount(t: nat)
      requires Valid() && t < |txs| && txs[t].stage.NonePending?
      modifies this`txs, this`log
      ensures View() == Apply(old(View()), CheckActive(t))
      ensures Valid() && t < |txs| && txs[t] == old(txs)[t].(stage := txs[t].stage)
      ensures txs[t].stage ==
              if |Active(labs.rows, txs[t].key)| < View().Limits(txs[t].key).maxConcurrent then UnderCap else Finished(CapReached)
      ensures txs[t].stage.Finished? ==> Blocked(View(), txs[t].key, CapReached)
    {
      ghost var before := View();
      var max := View().Limits(txs[t].key).maxConcurrent;
      SetStage(t, if |Active(labs.rows, txs[t].key)| >= max then Finished(CapReached) else UnderCap);
      Record(CheckActive(t), before);
      BlockedBy(View(), txs[t].key);
    }

    method CheckRosterCount(t: nat)
      requires Valid() && t < |txs| && txs[t].stage.UnderCap?
      modifies this`txs, this`log
      ensures View() == Apply(old(View()), CheckRoster(t))
      ensures Valid() && t < |txs| && txs[t] == old(txs)[t].(stage := txs[t].stage)
      ensures txs[t].stage == if View().EnrolledIn(txs[t].key.1) == {} then Finished(EmptyRoster) else Enrolled
      ensures txs[t].stage.Finished? ==> Blocked(View(), txs[t].key, EmptyRoster)
    {
      ghost var before := View();
      SetStage(t, if |View().EnrolledIn(txs[t].key.1)| < 1 then Finished(EmptyRoster) else Enrolled);
      Record(CheckRoster(t), before);
      BlockedBy(View(), txs[t].key);
    }

    /** The checks made under the lock; each ends the request or leads to the next. */
    method CheckGuardrails(t: nat, luck: Luck)
      requires Valid() && t < |txs| && txs[t].stage.Locked? && luck.By(t)
      modifies this
      ensures Valid() && t < |txs| && txs[t] == old(txs)[t].(stage := txs[t].stage)
      ensures txs[t].stage.Enrolled? || (txs[t].stage.Finished? && Blocked(View(), txs[t].key, txs[t].stage.outcome))
      ensures txs[t].stage.Enrolled? ==> View() == Checked(old(View()), t, luck)
    {
      CheckPendingRow(t);
      if txs[t].stage.NonePending? {
        Interrupt(t, luck.beforeActive);
        CheckActiveCount(t);
      }
      if txs[t].stage.UnderCap? {
        Interrupt(t, luck.beforeRoster);
        CheckRosterCount(t);
      }
    }

    /** The request validation. */
    method BeginRequest(key: Key, expiresAt: int)
      requires Valid()
      modifies this`txs, this`log
      ensures Valid() && View() == Apply(old(View()), Begin(key, expiresAt))
      ensures |txs| == |old(txs)| + 1 && txs[|old(txs)|] == Tx(key, expiresAt, labs.now, txs[|old(txs)|].stage)
      ensures var stage := txs[|old(txs)|].stage;
              && (stage == Finished(InThePast) <==> expiresAt <= labs.now)
              && (stage == Finished(TooLong) <==>
                    && expiresAt > labs.now
                    && expiresAt > labs.now + 3600 * if key in guardrails then guardrails[key].maxHours else 4)
              && (stage == Began || stage == Finished(InThePast) || stage == Finished(TooLong))
    {
      ghost var before := View();
      var max := View().Limits(key).maxHours;
      var stage := if expiresAt <= labs.now then Finished(InThePast)
                   else if expiresAt > labs.now + 3600 * max then Finished(TooLong)
                   else Began;
      txs := txs + [Tx(key, expiresAt, labs.now, stage)];
      Record(Begin(key, expiresAt), before);
    }

    /** pg_advisory_xact_lock: the request has the lock as soon as no rival holds it, and waits until then. */
    method TakeLock(t: nat, beforeLock: seq<Step>)
      requires Valid() && t < |txs| && txs[t].stage.Began? && Others(beforeLock, t)
      modifies this
      ensures Valid() && t < |txs| && txs[t] == old(txs)[t].(stage := txs[t].stage)
      ensures View() == Apply(Exec(old(View()), beforeLock), Lock(t))
      ensures txs[t].stage == if Exec(old(View()), beforeLock).LockFree(old(txs)[t].key) then Locked else Began
      ensures txs[t].stage.Began? ==>
                exists u | 0 <= u < |txs| && u != t :: txs[u].key == txs[t].key && !txs[u].stage.Began? && !txs[u].stage.Finished?
    {
      Interrupt(t, beforeLock);
      ghost var before := View();
      if View().LockFree(txs[t].key) {
        SetStage(t, Locked);
      }
      Record(Lock(t), before);
    }

    /** The inserts, and the commit that publishes them. */
    method InsertRun(t: nat, luck: Luck)
      requires Valid() && t < |txs| && txs[t].stage.Enrolled? && luck.By(t)
      modifies this
      ensures Valid() && t < |txs| && txs[t] == old(txs)[t].(stage := txs[t].stage) && txs[t].stage.Finished?
      ensures txs[t].stage.outcome.Queued? || (txs[t].stage.outcome.Aborted? && !luck.commits)
      ensures txs[t].stage.outcome.Queued? ==>
                var id := txs[t].stage.outcome.id;
                && id < |labs.rows| && id in members && labs.rows[id] == NewRow(txs[t])
                && members[id] == Exec(old(View()), luck.beforeInsert).EnrolledIn(txs[t].key.1)
                && Pending(labs.rows, txs[t].key) == {id}
                && |Active(labs.rows, txs[t].key)| <= View().Limits(txs[t].key).maxConcurrent
    {
      Interrupt(t, luck.beforeInsert);
      ghost var before := View();
      var attached := AttachMembers(View().EnrolledIn(txs[t].key.1));
      SetStage(t, Inserted(attached));
      Record(Attach(t), before);
      Interrupt(t, luck.beforeCommit);
      CommitOrAbort(t, luck.commits);
    }

    /** The member loop: one insert per participant, doing nothing on conflict. */
    method AttachMembers(participants: set<nat>) returns (attached: set<nat>)
      ensures attached == participants
    {
      attached := {};
      var rest := participants;
      while rest != {}
        invariant rest <= participants && attached == participants - rest
        decreases rest
      {
        var user :| user in rest;
        attached := attached + {user};
        rest := rest - {user};
      }
    }

    /** deploy_course_lab.  A request that reports success has queued the only pending row of its
        owner and lab, within the guardrail, with the learners enrolled at the second read; one that is
        refused is refused for the reason it gives; and one without an outcome waits for the lock. */
    method DeployCourseLab(key: Key, expiresAt: int, luck: Luck) returns (outcome: Option<Outcome>)
      requires Valid() && luck.By(|txs|)
      modifies this
      ensures Valid()
      ensures expiresAt <= old(labs.now) <==> outcome == Some(InThePast)
      ensures outcome == Some(TooLong) <==>
                && expiresAt > old(labs.now)
                && expiresAt > old(labs.now) + 3600 * if key in guardrails then guardrails[key].maxHours else 4
      ensures outcome.Some? && (outcome.value.AlreadyPending? || outcome.value.CapReached? || outcome.value.EmptyRoster?) ==>
                Blocked(View(), key, outcome.value)
      ensures outcome == Some(Aborted) ==> !luck.commits
      ensures outcome.None? ==>
                && !Exec(Apply(old(View()), Begin(key, expiresAt)), luck.beforeLock).LockFree(key)
                && exists u | 0 <= u < |txs| && u != |old(txs)| ::
                     txs[u].key == key && !txs[u].stage.Began? && !txs[u].stage.Finished?
      ensures outcome.Some? && outcome.value.Queued? ==>
                var id := outcome.value.id;
                && id < |labs.rows| && id in members && members[id] == SecondRead(old(View()), key, expiresAt, luck)
                && labs.rows[id] == L.Row(key.0, key.1, old(labs.now), expiresAt, L.Queued)
                && (forall j: nat | j < |labs.rows| && labs.rows[j].owner == key.0 && labs.rows[j].content == key.1 ::
                      labs.rows[j].status in {L.Queued, L.Provisioning} <==> j == id)
                && |set j: nat | j < |labs.rows| && labs.rows[j].owner == key.0 && labs.rows[j].content == key.1
                                 && labs.rows[j].status in {L.Queued, L.Provisioning, L.Running}|
                   <= if key in guardrails then guardrails[key].maxConcurrent else 10
    {
      var t := |txs|;
      BeginRequest(key, expiresAt);
      if txs[t].stage.Began? {
        TakeLock(t, luck.beforeLock);
        if txs[t].stage.Began? { return None; }
      }
      if txs[t].stage.Locked? {
        CheckGuardrails(t, luck);
      }
      if txs[t].stage.Enrolled? {
        InsertRun(t, luck);
        if txs[t].stage.outcome.Queued? { OnlyPending(labs.rows, key, txs[t].stage.outcome.id); }
      }
      outcome := Some(txs[t].stage.outcome);
    }

    method CommitOrAbort(t: nat, commits: bool)
      requires Valid() && t < |txs| && txs[t].stage.Inserted?
      modifies this
      ensures Valid() && t < |txs| && txs[t] == old(txs)[t].(stage := txs[t].stage) && txs[t].stage.Finished?
      ensures if commits then txs[t].stage.outcome == Queued(|old(labs.rows)|) else txs[t].stage.outcome == Aborted
      ensures commits ==>
                && labs.rows == old(labs.rows) + [NewRow(old(txs)[t])]
                && |old(labs.rows)| in members && members[|old(labs.rows)|] == old(txs)[t].stage.members
                && Pending(labs.rows, txs[t].key) == {|old(labs.rows)|}
                && |Active(labs.rows, txs[t].key)| <= View().Limits(txs[t].key).maxConcurrent
    {
      ghost var before := View();
      if commits {
        CommitFacts(begin, log, t);
        members := members[|labs.rows| := txs[t].stage.members];
        var id := |labs.rows|;
        labs := L.Apply(labs, L.Enqueue(NewRow(txs[t])));
        SetStage(t, Finished(Queued(id)));
        Record(Commit(t), before);
      } else {
        SetStage(t, Finished(Aborted));
        Record(Abort(t), before);
      }
    }
  }
}
