/**
 How often, and in what order, the workers launch Terraform for a deployment.
 */
module TerraformRuns {
  import opened Lifecycle
  import Runs
  import opened LifecycleSafety

  /** The apply outcome `running` of these rows has been committed. */
  predicate Provisioned(status: Status) {
    status == Running || status == Terminating || status == Expired || status == CleanupFailed
  }

  predicate TornDown(status: Status) {
    status == Terminating || status == Expired || status == CleanupFailed
  }

  /** What a call that has been made says about its row. */
  ghost predicate CallOk(s: State, k: nat)
    requires k < |s.cloud|
  {
    match s.cloud[k]
    case ApplyStarted(id) => id < |s.rows| && s.rows[id].status != Queued
    case ApplyEnded(id, _) => exists j | 0 <= j < k :: s.cloud[j] == ApplyStarted(id)
    case DestroyStarted(id, at) =>
      && id < |s.rows| && TornDown(s.rows[id].status) && s.rows[id].expiresAt <= at <= s.now
      && exists j | 0 <= j < k :: s.cloud[j] == ApplyEnded(id, true)
    case DestroyEnded(id, _) => exists j | 0 <= j < k :: s.cloud[j].DestroyStarted? && s.cloud[j].id == id
  }

  /** Two launches of the same job for the same row. */
  predicate Repeats(a: CloudCall, b: CloudCall) {
    || (a.ApplyStarted? && b.ApplyStarted? && a.id == b.id)
    || (a.DestroyStarted? && b.DestroyStarted? && a.id == b.id)
  }

  /** What a worker in the middle of a job knows about the calls made for its row. */
  ghost predicate JobOk(s: State, worker: Worker) {
    var phase := worker.phase;
    if worker.kind.Provisioner? then
      && (phase.Held? ==> ApplyStarted(phase.id) !in s.cloud)
      && (phase.Working? ==> ApplyStarted(phase.id) in s.cloud)
      && ((phase.Due? || phase.Marking?) && phase.outcome == Running ==> ApplyEnded(phase.id, true) in s.cloud)
    else
      && (phase.Claiming? && phase.id < |s.rows| ==> s.rows[phase.id].expiresAt <= s.now)
      && (phase.Held? ==> forall at :: DestroyStarted(phase.id, at) !in s.cloud)
      && (phase.Working? ==> exists at :: DestroyStarted(phase.id, at) in s.cloud)
  }

  ghost predicate RowOk(s: State, id: nat)
    requires id < |s.rows|
  {
    && (Provisioned(s.rows[id].status) ==> ApplyEnded(id, true) in s.cloud)
    && (TornDown(s.rows[id].status) ==> s.rows[id].expiresAt <= s.now)
  }

  ghost predicate CloudOk(s: State) {
    && (forall k: nat | k < |s.cloud| :: CallOk(s, k))
    && (forall j: nat, k: nat {:trigger s.cloud[j], s.cloud[k]} |
          j < |s.cloud| && k < |s.cloud| && j != k :: !Repeats(s.cloud[j], s.cloud[k]))
    && (forall w: nat | w < |s.workers| :: JobOk(s, s.workers[w]))
    && (forall id: nat | id < |s.rows| :: RowOk(s, id))
  }

  lemma CloudStep(s: State, step: Step)
    requires Owned(s) && CloudOk(s)
    ensures CloudOk(Apply(s, step))
  {
    CallsStep(s, step);
    RowsStep(s, step);
    JobsStep(s, step);
  }

  lemma OldCallStep(s: State, step: Step, k: nat)
    requires Owned(s) && k < |s.cloud| && CallOk(s, k)
    ensures s.cloud <= Apply(s, step).cloud && CallOk(Apply(s, step), k)
  {
  }

  lemma NewCallStep(s: State, step: Step)
    requires Owned(s) && CloudOk(s) && |Apply(s, step).cloud| > |s.cloud|
    ensures var t := Apply(s, step);
            && t.cloud == s.cloud + [t.cloud[|s.cloud|]]
            && CallOk(t, |s.cloud|)
            && forall k: nat | k < |s.cloud| :: !Repeats(s.cloud[k], t.cloud[|s.cloud|])
  {
    assert JobOk(s, s.workers[step.w]);
    assert WorkerOk(s.rows, s.workers[step.w]);
    var worker, t := s.workers[step.w], Apply(s, step);
    assert RowOk(s, worker.phase.id);
    assert forall j: nat | j < |s.cloud| :: t.cloud[j] == s.cloud[j];
  }

  lemma CallsStep(s: State, step: Step)
    requires Owned(s) && CloudOk(s)
    ensures var t := Apply(s, step);
            && (forall k: nat | k < |t.cloud| :: CallOk(t, k))
            && (forall j: nat, k: nat {:trigger t.cloud[j], t.cloud[k]} |
                  j < |t.cloud| && k < |t.cloud| && j != k :: !Repeats(t.cloud[j], t.cloud[k]))
  {
    var t := Apply(s, step);
    if |t.cloud| > |s.cloud| {
      NewCallStep(s, step);
    } else {
      assert t.cloud == s.cloud;
    }
    forall k: nat | k < |t.cloud| ensures CallOk(t, k) {
      if k < |s.cloud| { OldCallStep(s, step, k); }
    }
  }

  lemma RowsStep(s: State, step: Step)
    requires Owned(s) && CloudOk(s)
    ensures forall id: nat | id < |Apply(s, step).rows| :: RowOk(Apply(s, step), id)
  {
    var t := Apply(s, step);
    StepEffect(s, step);
    assert s.cloud <= t.cloud;
    if 0 <= step.Actor() < |s.workers| {
      assert JobOk(s, s.workers[step.w]);
      assert s.workers[step.w].phase.Polling? || WorkerOk(s.rows, s.workers[step.w]);
    }
    forall id: nat | id < |t.rows| ensures RowOk(t, id) {
      if id < |s.rows| { assert RowOk(s, id); }
    }
  }

  /** No job has been launched for a row that has not been claimed for it. */
  lemma NotYetLaunched(s: State, id: nat)
    requires CloudOk(s) && id < |s.rows|
    ensures s.rows[id].status == Queued ==> ApplyStarted(id) !in s.cloud
    ensures !TornDown(s.rows[id].status) ==> forall at :: DestroyStarted(id, at) !in s.cloud
  {
    forall k: nat | k < |s.cloud|
      ensures s.cloud[k] == ApplyStarted(id) ==> s.rows[id].status != Queued
      ensures s.cloud[k].DestroyStarted? && s.cloud[k].id == id ==> TornDown(s.rows[id].status)
    {
      assert CallOk(s, k);
    }
  }

  lemma OwnJobStep(s: State, step: Step)
    requires Owned(s) && CloudOk(s) && 0 <= step.Actor() < |s.workers|
    ensures JobOk(Apply(s, step), Apply(s, step).workers[step.w])
  {
    var worker := s.workers[step.w];
    assert JobOk(s, worker);
    assert worker.phase.Polling? || WorkerOk(s.rows, worker);
    if worker.phase.Claiming? {
      NotYetLaunched(s, worker.phase.id);
    }
  }

  lemma OtherJobStep(s: State, step: Step, w: nat)
    requires Owned(s) && CloudOk(s) && w < |s.workers| && step.Actor() != w
    ensures w < |Apply(s, step).workers| && JobOk(Apply(s, step), Apply(s, step).workers[w])
  {
    assert JobOk(s, s.workers[w]);
    assert s.workers[w].phase.Polling? || WorkerOk(s.rows, s.workers[w]);
    if 0 <= step.Actor() < |s.workers| {
      assert Apart(s, step.w, w);
    }
  }

  lemma JobsStep(s: State, step: Step)
    requires Owned(s) && CloudOk(s)
    ensures forall w: nat | w < |Apply(s, step).workers| :: JobOk(Apply(s, step), Apply(s, step).workers[w])
  {
    forall w: nat | w < |Apply(s, step).workers|
      ensures JobOk(Apply(s, step), Apply(s, step).workers[w])
    {
      if step.Actor() == w { OwnJobStep(s, step); } else { OtherJobStep(s, step, w); }
    }
  }

  lemma {:induction false} CloudAlways(s: State, steps: seq<Step>)
    requires Initial(s)
    ensures CloudOk(Exec(s, steps))
  {
    if steps != [] {
      CloudAlways(s, steps[..|steps| - 1]);
      OwnedAlways(s, steps[..|steps| - 1]);
      CloudStep(Exec(s, steps[..|steps| - 1]), steps[|steps| - 1]);
    }
  }

  /** The index of an element. */
  ghost function At(cloud: seq<CloudCall>, call: CloudCall): (k: nat)
    requires call in cloud
    ensures k < |cloud| && cloud[k] == call
  {
    var k: nat :| k < |cloud| && cloud[k] == call;
    k
  }

  /** For every deployment, over every interleaving of any number of workers: apply and destroy
      are each launched at most once, and a destroy is launched only after the apply was launched
      and reported success, after its outcome was committed, and after the row had expired. */
  lemma ApplyOnceThenDestroyOnce(s: State, steps: seq<Step>, id: nat)
    requires Initial(s)
    ensures var cloud := Exec(s, steps).cloud;
            && (forall i: nat, j: nat | i < |cloud| && j < |cloud| ::
                  cloud[i] == ApplyStarted(id) && cloud[j] == ApplyStarted(id) ==> i == j)
            && (forall i: nat, j: nat | i < |cloud| && j < |cloud| ::
                  cloud[i].DestroyStarted? && cloud[i].id == id && cloud[j].DestroyStarted? && cloud[j].id == id ==> i == j)
    ensures var t := Exec(s, steps);
            forall k: nat | k < |t.cloud| && t.cloud[k].DestroyStarted? && t.cloud[k].id == id ::
              && id < |t.rows| && t.rows[id].expiresAt <= t.cloud[k].at <= t.now
              && (exists a, e :: 0 <= a < e < k && t.cloud[a] == ApplyStarted(id) && t.cloud[e] == ApplyEnded(id, true))
              && Running in History(s, steps, id)
  {
    CloudAlways(s, steps);
    HistoryIsPath(s, steps, id);
    var t := Exec(s, steps);
    forall k: nat | k < |t.cloud| && t.cloud[k].DestroyStarted? && t.cloud[k].id == id
      ensures CallOk(t, k)
      ensures exists a, e :: 0 <= a < e < k && t.cloud[a] == ApplyStarted(id) && t.cloud[e] == ApplyEnded(id, true)
      ensures Running in History(s, steps, id)
    {
      assert CallOk(t, k);
      var e: nat :| e < k && t.cloud[e] == ApplyEnded(id, true);
      assert CallOk(t, e);
      PathsAreFew(History(s, steps, id));
    }
  }

  /** A lab whose apply succeeded but whose `running` write was lost is recorded as failed,
      and then nothing ever tears it down. */
  lemma FailedLabIsNeverDestroyed(s: State, first: seq<Step>, later: seq<Step>, id: nat)
    requires Initial(s)
    requires id < |Exec(s, first).rows| && Exec(s, first).rows[id].status == Failed
    ensures forall at :: DestroyStarted(id, at) !in Exec(Exec(s, first), later).cloud
  {
    Runs.ExecAppend(Apply, s, first, later);
    CloudAlways(s, first + later);
    var t := Exec(Exec(s, first), later);
    forall at | DestroyStarted(id, at) in t.cloud
      ensures id < |t.rows| && TornDown(t.rows[id].status)
    {
      assert CallOk(t, At(t.cloud, DestroyStarted(id, at)));
    }
    FinalIsForever(s, first, later, id);
  }

  // ---------------------------------------------------------------- labs that were built and recorded as failed

  /** An exception reaches a provisioning worker that is about to record a row as running. */
  predicate LosesRunning(s: State, step: Step, id: nat) {
    && step.Raise? && step.w < |s.workers| && s.workers[step.w].kind.Provisioner?
    && var phase := s.workers[step.w].phase;
       (phase.Due? || phase.Marking?) && phase.id == id && phase.outcome == Running
  }

  predicate RunningWasLost(s: State, steps: seq<Step>, id: nat) {
    exists k | 0 <= k < |steps| :: LosesRunning(Exec(s, steps[..k]), steps[k], id)
  }

  /** What the owner of a row in provisioning knows of its apply, `lost` saying whether a running write was lost. */
  ghost predicate OwnerTold(s: State, worker: Worker, id: nat, lost: bool) {
    worker.kind.Provisioner? && worker.phase.Owns() && worker.phase.id == id ==>
      if (worker.phase.Due? || worker.phase.Marking?) && worker.phase.outcome == Failed then
        ApplyEnded(id, true) in s.cloud <==> lost
      else
        !lost && (worker.phase.Held? || worker.phase.Working? ==> ApplyEnded(id, true) !in s.cloud)
  }

  ghost predicate RowTold(s: State, id: nat, lost: bool) {
    && (id >= |s.rows| || s.rows[id].status == Queued ==> !lost && ApplyEnded(id, true) !in s.cloud)
    && (id < |s.rows| && s.rows[id].status == Failed ==> (ApplyEnded(id, true) in s.cloud <==> lost))
    && (forall w: nat | w < |s.workers| :: OwnerTold(s, s.workers[w], id, lost))
  }

  lemma OthersTold(s: State, step: Step, id: nat, lost: bool, w: nat)
    requires Owned(s) && RowTold(s, id, lost) && w < |s.workers| && step.Actor() != w
    ensures OwnerTold(Apply(s, step), Apply(s, step).workers[w], id, lost || LosesRunning(s, step, id))
  {
    assert OwnerTold(s, s.workers[w], id, lost);
    if 0 <= step.Actor() < |s.workers| { assert Apart(s, step.w, w); }
  }

  lemma RowToldStep(s: State, step: Step, id: nat, lost: bool)
    requires Owned(s) && CloudOk(s) && RowTold(s, id, lost)
    ensures RowTold(Apply(s, step), id, lost || LosesRunning(s, step, id))
  {
    var t := Apply(s, step);
    StepEffect(s, step);
    if 0 <= step.Actor() < |s.workers| {
      assert OwnerTold(s, s.workers[step.w], id, lost) && JobOk(s, s.workers[step.w]);
      assert s.workers[step.w].phase.Polling? || WorkerOk(s.rows, s.workers[step.w]);
    }
    forall w: nat | w < |t.workers| ensures OwnerTold(t, t.workers[w], id, lost || LosesRunning(s, step, id)) {
      if step.Actor() != w { OthersTold(s, step, id, lost, w); }
    }
  }

  lemma LostSnoc(s: State, steps: seq<Step>, id: nat)
    requires steps != []
    ensures var before := steps[..|steps| - 1];
            RunningWasLost(s, steps, id) <==>
              RunningWasLost(s, before, id) || LosesRunning(Exec(s, before), steps[|steps| - 1], id)
  {
    var before := steps[..|steps| - 1];
    assert forall k | 0 <= k < |before| :: steps[..k] == before[..k] && steps[k] == before[k];
  }

  lemma {:induction false} RowToldAlways(s: State, steps: seq<Step>, id: nat)
    requires Initial(s)
    ensures RowTold(Exec(s, steps), id, RunningWasLost(s, steps, id))
  {
    if steps != [] {
      var before := steps[..|steps| - 1];
      RowToldAlways(s, before, id);
      OwnedAlways(s, before);
      CloudAlways(s, before);
      RowToldStep(Exec(s, before), steps[|steps| - 1], id, RunningWasLost(s, before, id));
      LostSnoc(s, steps, id);
    }
  }

  /** Over every run: a lab that is recorded as failed was built nevertheless, and so is never torn down,
      exactly if an exception had reached its worker between the end of the apply and the commit of
      `running`. */
  lemma FailedWasBuiltIff(s: State, steps: seq<Step>, id: nat)
    requires Initial(s) && id < |Exec(s, steps).rows| && Exec(s, steps).rows[id].status == Failed
    ensures ApplyEnded(id, true) in Exec(s, steps).cloud <==> RunningWasLost(s, steps, id)
  {
    RowToldAlways(s, steps, id);
  }

  /** Such runs exist: one worker, one deployment, and a commit that raises. */
  lemma ClaimOnly(s: State, row: Row) returns (steps: seq<Step>)
    requires s == State(0, [], {}, [Worker(Provisioner, Polling)], [], map[])
    requires row.status == Queued && row.createdAt <= 0
    ensures Exec(s, steps) == State(0, [row.(status := Provisioning)], {(0, Provisioning)}, [Worker(Provisioner, Held(0))], [], map[])
  {
    steps := [];
    var t := State(0, [row], {}, [Worker(Provisioner, Polling)], [], map[]);
    OneStep(s, steps, Enqueue(row), t);
    steps := steps + [Enqueue(row)];
    assert !t.LockedBy(0, 0);
    assert ClaimChoice(t, Provisioner, 0);
    OneStep(s, steps, Select(0, 0), t.(workers := [Worker(Provisioner, Claiming(0, false))]));
    steps := steps + [Select(0, 0)];
    OneStep(s, steps, Emit(0), t.(workers := [Worker(Provisioner, Claiming(0, true))]));
    steps := steps + [Emit(0)];
    OneStep(s, steps, Commit(0), State(0, [row.(status := Provisioning)], {(0, Provisioning)}, [Worker(Provisioner, Held(0))], [], map[]));
    steps := steps + [Commit(0)];
  }

  lemma AppliedButNotRecorded(s: State, row: Row) returns (steps: seq<Step>)
    requires s == State(0, [], {}, [Worker(Provisioner, Polling)], [], map[])
    requires row.status == Queued && row.createdAt <= 0
    ensures Exec(s, steps) == State(0, [row.(status := Provisioning)], {(0, Provisioning)},
              [Worker(Provisioner, Due(0, Running, true))], [ApplyStarted(0), ApplyEnded(0, true)], map[])
  {
    steps := ClaimOnly(s, row);
    var claimed, rows := {(0, Provisioning)}, [row.(status := Provisioning)];
    OneStep(s, steps, Start(0), State(0, rows, claimed, [Worker(Provisioner, Working(0))], [ApplyStarted(0)], map[]));
    steps := steps + [Start(0)];
    OneStep(s, steps, Finish(0, true), State(0, rows, claimed, [Worker(Provisioner, Due(0, Running, true))],
                                             [ApplyStarted(0), ApplyEnded(0, true)], map[]));
    steps := steps + [Finish(0, true)];
  }

  lemma LostRunningWrite(s: State, row: Row) returns (steps: seq<Step>)
    requires s == State(0, [], {}, [Worker(Provisioner, Polling)], [], map[])
    requires row.status == Queued && row.createdAt <= 0
    ensures Exec(s, steps).rows == [row.(status := Failed)] && ApplyEnded(0, true) in Exec(s, steps).cloud
  {
    steps := AppliedButNotRecorded(s, row);
    var t := Exec(s, steps);
    assert !t.LockedBy(0, 0);
    OneStep(s, steps, Execute(0), t.(workers := [Worker(Provisioner, Marking(0, Running, false))]));
    steps := steps + [Execute(0)];
    OneStep(s, steps, Raise(0, true), t.(workers := [Worker(Provisioner, Due(0, Failed, true))]));
    steps := steps + [Raise(0, true)];
    assert !Exec(s, steps).LockedBy(0, 0);
    OneStep(s, steps, Execute(0), t.(workers := [Worker(Provisioner, Marking(0, Failed, false))]));
    steps := steps + [Execute(0)];
    OneStep(s, steps, Emit(0), t.(workers := [Worker(Provisioner, Marking(0, Failed, true))]));
    steps := steps + [Emit(0)];
    OneStep(s, steps, Commit(0), Apply(Exec(s, steps), Commit(0)));
    steps := steps + [Commit(0)];
  }
}
