/**
 The deployment table shared by the provisioning and cleanup workers.

 The state holds what is committed; what an open transaction has written but not
 committed is held in the phase of the worker that runs it.  A row is locked exactly
 while an open transaction has updated it.  Every step is one statement, one commit,
 one failure or one event outside the database, and a run is any list of steps.

 An API transaction that inserts a row with a foreign key to a deployment holds a FOR KEY SHARE
 lock on that deployment until it ends.  This conflicts with the FOR UPDATE of the claim
 statements, and not with the FOR NO KEY UPDATE of an UPDATE that leaves the key alone.
 */
module Lifecycle {
  import Runs

  datatype Status = Queued | Provisioning | Running | Failed | Terminating | Expired | CleanupFailed

  /** The two worker programs: they differ in the statuses they move between. */
  datatype Kind = Provisioner | Cleaner {
    function From(): Status { if Provisioner? then Queued else Running }
    function To(): Status { if Provisioner? then Provisioning else Terminating }
    function Success(): Status { if Provisioner? then Running else Expired }
    function Failure(): Status { if Provisioner? then Failed else CleanupFailed }
  }

  /** A row's identity is its position in the table, in order of commit. */
  datatype Row = Row(owner: nat, content: nat, createdAt: int, expiresAt: int, status: Status)

  datatype Phase =
    | Polling
    | Claiming(id: nat, fed: bool)                  // claim transaction open
    | Held(id: nat)                                 // claim committed, external job not started
    | Working(id: nat)                              // external job running
    | Due(id: nat, outcome: Status, usable: bool)   // outcome to be written; an aborted session is not usable
    | Marking(id: nat, outcome: Status, fed: bool)  // outcome transaction open
  {
    /** The phases in which an open transaction holds a row lock. */
    predicate Open() { Claiming? || Marking? }

    /** The phases entered by a committed claim and left by a committed outcome. */
    predicate Owns() { !Polling? && !Claiming? }
  }

  datatype Worker = Worker(kind: Kind, phase: Phase) {
    /** The status an open transaction of this worker will write. */
    function Pending(): Status
      requires phase.Open()
    {
      if phase.Claiming? then kind.To() else phase.outcome
    }
  }

  /** What the cloud sees of the Terraform runs. */
  datatype CloudCall =
    | ApplyStarted(id: nat)
    | ApplyEnded(id: nat, ok: bool)
    | DestroyStarted(id: nat, at: int)
    | DestroyEnded(id: nat, ok: bool)

  /** The feed is kept as its set of keys `lab-deploy:{id}:{transition}`. */
  datatype State = State(
    now: int,
    rows: seq<Row>,
    feed: set<(nat, Status)>,
    workers: seq<Worker>,
    cloud: seq<CloudCall>,
    refs: map<nat, nat>)         // the deployment that each open API transaction refers to
  {
    predicate Is(w: nat, kind: Kind) { w < |workers| && workers[w].kind == kind }

    predicate LockedBy(w: nat, id: nat) {
      w < |workers| && workers[w].phase.Open() && workers[w].phase.id == id
    }

    predicate Locked(id: nat) {
      exists w: nat | w < |workers| :: LockedBy(w, id)
    }

    /** A claim has the row locked FOR UPDATE. */
    predicate BeingClaimed(id: nat) {
      exists w: nat | w < |workers| :: LockedBy(w, id) && workers[w].phase.Claiming?
    }

    predicate Referenced(id: nat) {
      exists r | r in refs :: refs[r] == id
    }

    function Move(w: nat, phase: Phase): State
      requires w < |workers|
    {
      this.(workers := workers[w := workers[w].(phase := phase)])
    }
  }

  /** The WHERE clause of the claim statement, with the rows SKIP LOCKED passes over removed. */
  predicate Claimable(s: State, kind: Kind, id: nat) {
    && id < |s.rows|
    && s.rows[id].status == kind.From()
    && (kind.Cleaner? ==> s.rows[id].expiresAt <= s.now)
    && !s.Locked(id) && !s.Referenced(id)
  }

  /** The ORDER BY column of the claim statement. */
  function SortKey(kind: Kind, row: Row): int {
    if kind.Provisioner? then row.createdAt else row.expiresAt
  }

  /** A row the claim statement may return: claimable, and none claimable comes before it. */
  predicate ClaimChoice(s: State, kind: Kind, id: nat) {
    && Claimable(s, kind, id)
    && forall j: nat | j < |s.rows| && Claimable(s, kind, j) :: SortKey(kind, s.rows[id]) <= SortKey(kind, s.rows[j])
  }

  /** An UPDATE of one row's status by id, with no condition on the old status. */
  function SetStatus(rows: seq<Row>, id: nat, status: Status): seq<Row> {
    if id < |rows| then rows[id := rows[id].(status := status)] else rows
  }

  datatype Step =
    | Tick(d: nat)
    | Enqueue(row: Row)                // an API transaction commits a new queued row
    | Reference(r: nat, id: nat)       // an API transaction inserts a row that refers to a deployment
    | Release(r: nat)                  // and ends
    | Select(w: nat, id: nat)          // the claim statement
    | Emit(w: nat)                     // the feed upsert inside the open transaction
    | Commit(w: nat)
    | Raise(w: nat, usable: bool)      // the current statement, commit or helper raises
    | Start(w: nat)                    // the external job is launched
    | Finish(w: nat, ok: bool)         // and reports back
    | Execute(w: nat)                  // the outcome UPDATE ... WHERE id
    | Crash(w: nat)                    // the worker dies or is cancelled and starts again
  {
    predicate ByWorker() { !Tick? && !Enqueue? && !Reference? && !Release? }

    function Actor(): int {
      if ByWorker() then w else -1
    }
  }

  /** The row and status that a step commits, if it commits any. */
  datatype Write = NoWrite | Write(id: nat, status: Status)

  function Written(s: State, step: Step): Write {
    if step.Commit? && step.w < |s.workers| && s.workers[step.w].phase.Open() && s.workers[step.w].phase.fed then
      Write(s.workers[step.w].phase.id, s.workers[step.w].Pending())
    else NoWrite
  }

  /** Where an exception takes a worker.  The provisioning worker rolls back and opens a
      fresh session before it writes `failed`; the cleanup worker goes on in the same session,
      which is aborted for good when a statement (not the commit) was what raised. */
  function AfterRaise(kind: Kind, phase: Phase, usable: bool): Phase
    requires !phase.Working?
  {
    match phase
    case Polling => Polling
    case Claiming(_, _) => Polling
    case Held(id) => Due(id, kind.Failure(), true)
    case Working(_) => phase
    case Due(id, outcome, _) =>
      if outcome == kind.Failure() then Polling else Due(id, kind.Failure(), kind.Provisioner? || usable)
    case Marking(id, outcome, fed) =>
      if outcome == kind.Failure() then Polling else Due(id, kind.Failure(), kind.Provisioner? || (fed && usable))
  }

  function WorkerStep(s: State, step: Step): State
    requires step.ByWorker() && step.w < |s.workers|
  {
    var w, kind, phase := step.w, s.workers[step.w].kind, s.workers[step.w].phase;
    match step
    case Select(_, id) =>
      if phase.Polling? && ClaimChoice(s, kind, id) then s.Move(w, Claiming(id, false)) else s
    case Emit(_) =>
      if phase.Open() then s.Move(w, phase.(fed := true)) else s
    case Commit(_) =>
      if Written(s, step).NoWrite? then s
      else
        var Write(id, status) := Written(s, step);
        s.Move(w, if phase.Claiming? then Held(id) else Polling)
         .(rows := SetStatus(s.rows, id, status), feed := s.feed + {(id, status)})
    case Raise(_, usable) =>
      if phase.Working? then s else s.Move(w, AfterRaise(kind, phase, usable))
    case Start(_) =>
      if !phase.Held? then s
      else
        var call := if kind.Provisioner? then ApplyStarted(phase.id) else DestroyStarted(phase.id, s.now);
        s.Move(w, Working(phase.id)).(cloud := s.cloud + [call])
    case Finish(_, ok) =>
      if !phase.Working? then s
      else
        var call := if kind.Provisioner? then ApplyEnded(phase.id, ok) else DestroyEnded(phase.id, ok);
        s.Move(w, Due(phase.id, if ok then kind.Success() else kind.Failure(), true)).(cloud := s.cloud + [call])
    case Execute(_) =>
      if phase.Due? && phase.usable && !s.Locked(phase.id) then s.Move(w, Marking(phase.id, phase.outcome, false)) else s
    case Crash(_) =>
      s.Move(w, Polling)
  }

  /** One step.  A step that is not enabled changes nothing. */
  function Apply(s: State, step: Step): State {
    match step
    case Tick(d) => s.(now := s.now + d)
    case Enqueue(row) =>
      if row.status == Queued && row.createdAt <= s.now then s.(rows := s.rows + [row]) else s
    case Reference(r, id) =>
      if r in s.refs || id >= |s.rows| || s.BeingClaimed(id) then s else s.(refs := s.refs[r := id])
    case Release(r) => s.(refs := s.refs - {r})
    case _ => if step.w < |s.workers| then WorkerStep(s, step) else s
  }

  function Exec(s: State, steps: seq<Step>): State {
    Runs.Exec(Apply, s, steps)
  }

  /** An empty table, no open transaction, and any number of workers of either kind, all polling. */
  predicate Initial(s: State) {
    && s.rows == [] && s.feed == {} && s.cloud == [] && s.refs == map[]
    && forall w: nat | w < |s.workers| :: s.workers[w].phase.Polling?
  }

  lemma ExecOne(s: State, step: Step)
    ensures Exec(s, [step]) == Apply(s, step)
  {
    assert [] + [step] == [step];
    Runs.ExecSnoc(Apply, s, [], step);
  }

  lemma OneStep(s: State, steps: seq<Step>, step: Step, t: State)
    requires Apply(Exec(s, steps), step) == t
    ensures Exec(s, steps + [step]) == t
  {
    Runs.ExecSnoc(Apply, s, steps, step);
  }
}
