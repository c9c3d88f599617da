/**
 The worker programs, as sequential code that the other workers may interrupt at every await.

 `log` records the steps taken so far, so that every execution of this code is one of the runs
 about which the other modules prove their results.  Whatever the code cannot control (an
 exception, the exit code of Terraform, what the others do meanwhile) is a parameter.
 */
module LabWorkers {
  import opened Wrappers
  import opened Lifecycle
  import Runs
  import opened LifecycleSafety
  import Progress = LifecycleProgress

  /** What happens to a claim: the steps of others before the commit, and whether it commits. */
  datatype ClaimLuck = ClaimLuck(between: seq<Step>, commits: bool)

  /** What happens to an outcome write: the UPDATE, the feed upsert or the commit may raise. */
  datatype MarkLuck = MarkLuck(updates: bool, emits: bool, between: seq<Step>, commits: bool, usable: bool)

  /** What happens to a claimed job. */
  datatype JobLuck = JobLuck(prepares: bool, during: seq<Step>, succeeds: bool)

  /** The row that is first in line for a worker of this kind. */
  ghost predicate FirstFor(kind: Kind, s: State, id: nat) {
    match kind
    case Provisioner => Progress.OldestQueued(s, id)
    case Cleaner => Progress.FirstExpired(s, id)
  }

  ghost predicate NothingFor(kind: Kind, s: State) {
    match kind
    case Provisioner => Progress.NoneQueued(s)
    case Cleaner => Progress.NoneExpired(s)
  }

  class LabDatabase {
    var now: int
    var rows: seq<Row>
    var feed: set<(nat, Status)>
    var workers: seq<Worker>
    var cloud: seq<CloudCall>
    var refs: map<nat, nat>
    ghost const begin: State
    ghost var log: seq<Step>

    function View(): State
      reads this
    {
      State(now, rows, feed, workers, cloud, refs)
    }

    ghost predicate Valid()
      reads this
    {
      Initial(begin) && View() == Exec(begin, log)
    }

    ghost predicate Ready(w: nat, kind: Kind)
      reads this
    {
      Valid() && w < |workers| && workers[w].kind == kind && workers[w].phase.Polling?
    }

    constructor (kinds: seq<Kind>)
      ensures Valid() && rows == [] && |workers| == |kinds| && log == []
      ensures forall w: nat | w < |kinds| :: Ready(w, kinds[w])
    {
      var pool := seq(|kinds|, i requires 0 <= i < |kinds| => Worker(kinds[i], Polling));
      now, rows, feed, workers, cloud, refs := 0, [], {}, pool, [], map[];
      begin, log := State(0, [], {}, pool, [], map[]), [];
    }

    /** The others run. */
    method Interrupt(w: nat, steps: seq<Step>)
      requires Valid() && w < |workers| && Others(steps, w)
      modifies this
      ensures Valid() && log == old(log) + steps
      ensures |workers| == old(|workers|) && workers[w] == old(workers[w])
      ensures |rows| >= old(|rows|) && feed >= old(feed)
      ensures !workers[w].phase.Polling? ==>
                && workers[w].phase.id < |old(rows)|
                && rows[workers[w].phase.id] == old(rows)[workers[w].phase.id]
    {
      OwnedAlways(begin, log);
      assert workers[w].phase.Polling? || WorkerOk(rows, workers[w]);
      Isolation(View(), steps, w);
      Runs.ExecAppend(Apply, begin, log, steps);
      var after := Exec(View(), steps);
      now, rows, feed := after.now, after.rows, after.feed;
      workers, cloud, refs := after.workers, after.cloud, after.refs;
      log := log + steps;
    }

    /** Adds a step to the log. */
    ghost method Record(step: Step, before: State)
      requires Initial(begin) && before == Exec(begin, log) && View() == Apply(before, step)
      modifies this`log
      ensures Valid() && log == old(log) + [step]
    {
      Runs.ExecSnoc(Apply, begin, log, step);
      log := log + [step];
    }

    method SetPhase(w: nat, phase: Phase)
      requires w < |workers|
      modifies this`workers
      ensures workers == old(workers)[w := old(workers)[w].(phase := phase)]
    {
      workers := workers[w := workers[w].(phase := phase)];
    }

    /** UPDATE ... WHERE id = (SELECT ... ORDER BY ... FOR UPDATE SKIP LOCKED LIMIT 1) RETURNING. */
    method ClaimStatement(w: nat) returns (job: Option<nat>)
      requires Valid() && w < |workers| && workers[w].phase.Polling?
      modifies this`workers, this`log
      ensures Valid() && |workers| == old(|workers|) && workers[w].kind == old(workers[w].kind)
      ensures job.None? ==> workers == old(workers) && NothingFor(workers[w].kind, View())
      ensures job.Some? ==> FirstFor(workers[w].kind, old(View()), job.value) && workers[w].phase == Claiming(job.value, false)
    {
      ghost var before := View();
      if id: nat :| id < |rows| && ClaimChoice(View(), workers[w].kind, id) {
        SetPhase(w, Claiming(id, false));
        Record(Select(w, id), before);
        job := Some(id);
      } else {
        forall id: nat | id < |rows| ensures !Claimable(View(), workers[w].kind, id) {
          if Claimable(View(), workers[w].kind, id) {
            var first := Progress.FirstClaimable(View(), workers[w].kind, id, |rows|);
            assert ClaimChoice(View(), workers[w].kind, first);
          }
        }
        Progress.NothingIsClaimable(View(), workers[w].kind);
        job := None;
      }
    }

    /** The feed upsert inside the open transaction. */
    method EmitFeed(w: nat)
      requires Valid() && w < |workers| && workers[w].phase.Open()
      modifies this`workers, this`log
      ensures Valid() && workers == old(workers)[w := old(workers)[w].(phase := old(workers)[w].phase.(fed := true))]
    {
      ghost var before := View();
      SetPhase(w, workers[w].phase.(fed := true));
      Record(Emit(w), before);
    }

    /** COMMIT: the transaction's writes become visible, with no look at the row's old status. */
    method CommitWrites(w: nat)
      requires Valid() && w < |workers| && workers[w].phase.Open() && workers[w].phase.fed
      modifies this
      ensures Valid()
      ensures var worker := old(workers)[w];
              && |workers| == old(|workers|) && workers[w].kind == worker.kind
              && workers[w].phase == (if worker.phase.Claiming? then Held(worker.phase.id) else Polling)
              && worker.phase.id < |old(rows)| == |rows|
              && rows[worker.phase.id] == old(rows)[worker.phase.id].(status := worker.Pending())
              && (worker.phase.id, worker.Pending()) in feed
    {
      ghost var before := View();
      OwnedAlways(begin, log);
      StepEffect(before, Commit(w));
      var worker := workers[w];
      rows := SetStatus(rows, worker.phase.id, worker.Pending());
      feed := feed + {(worker.phase.id, worker.Pending())};
      SetPhase(w, if worker.phase.Claiming? then Held(worker.phase.id) else Polling);
      Record(Commit(w), before);
    }

    /** An exception reaches the worker's handler. */
    method Except(w: nat, usable: bool)
      requires Valid() && w < |workers| && !workers[w].phase.Working?
      modifies this`workers, this`log
      ensures Valid() && |workers| == old(|workers|)
      ensures workers[w] == old(workers)[w].(phase := AfterRaise(old(workers)[w].kind, old(workers)[w].phase, usable))
    {
      ghost var before := View();
      SetPhase(w, AfterRaise(workers[w].kind, workers[w].phase, usable));
      Record(Raise(w, usable), before);
    }

    /** claim_job and claim_expired_job. */
    method ClaimJob(w: nat, luck: ClaimLuck) returns (job: Option<nat>)
      requires Valid() && w < |workers| && workers[w].phase.Polling? && Others(luck.between, w)
      modifies this
      ensures Valid() && |workers| == old(|workers|) && workers[w].kind == old(workers[w].kind)
      ensures job.None? ==>
                && workers[w].phase.Polling?
                && (luck.commits ==> NothingFor(workers[w].kind, old(View())))
      ensures job.Some? ==>
                && FirstFor(workers[w].kind, old(View()), job.value)
                && workers[w].phase == Held(job.value) && job.value < |rows|
                && rows[job.value] == old(rows)[job.value].(status := workers[w].kind.To())
                && (job.value, workers[w].kind.To()) in feed
    {
      job := ClaimStatement(w);
      if job.Some? {
        EmitFeed(w);
        Interrupt(w, luck.between);
        if luck.commits {
          CommitWrites(w);
        } else {
          Except(w, false);
          job := None;
        }
      }
    }

    /** mark_running, mark_failed, mark_expired and mark_cleanup_failed.  Although the UPDATE does not
        look at the old status and others run before the commit, the write lands on the row as its
        owner knew it; and an exception leaves both the row and the feed as they were. */
    method MarkOutcome(w: nat, luck: MarkLuck) returns (committed: bool)
      requires Valid() && w < |workers| && workers[w].phase.Due? && workers[w].phase.usable
      requires workers[w].phase.id < |rows| && Others(luck.between, w)
      modifies this
      ensures Valid() && |workers| == old(|workers|) && workers[w].kind == old(workers[w].kind)
      ensures committed == (luck.updates && luck.emits && luck.commits)
      ensures var Due(id, outcome, _) := old(workers[w].phase);
              id < |rows| &&
              if committed then
                && rows[id] == old(rows)[id].(status := outcome) && (id, outcome) in feed
                && workers[w].phase.Polling?
              else
                && rows[id] == old(rows)[id]
                && var usable := if luck.updates && luck.emits then luck.usable else workers[w].kind.Provisioner?;
                   workers[w].phase == AfterRaise(workers[w].kind, old(workers[w].phase), usable)
    {
      OwnedAlways(begin, log);
      OwnerIsNotBlocked(View(), w);
      committed := false;
      if !luck.updates {
        Except(w, false);
      } else {
        ghost var before := View();
        SetPhase(w, Marking(workers[w].phase.id, workers[w].phase.outcome, false));
        Record(Execute(w), before);
        if !luck.emits {
          Except(w, false);
        } else {
          EmitFeed(w);
          Interrupt(w, luck.between);
          if luck.commits {
            CommitWrites(w);
            committed := true;
          } else {
            Except(w, luck.usable);
          }
        }
      }
    }

    /** Launches the external job and waits for it. */
    method RunJob(w: nat, during: seq<Step>, succeeds: bool)
      requires Valid() && w < |workers| && workers[w].phase.Held? && workers[w].phase.id < |rows| && Others(during, w)
      modifies this
      ensures Valid() && |workers| == old(|workers|) && workers[w].kind == old(workers[w].kind)
      ensures var id, kind := old(workers[w].phase.id), workers[w].kind;
              && workers[w].phase == Due(id, if succeeds then kind.Success() else kind.Failure(), true)
              && id < |rows| && rows[id] == old(rows)[id]
    {
      var id, kind := workers[w].phase.id, workers[w].kind;
      ghost var before := View();
      cloud := cloud + [if kind.Provisioner? then ApplyStarted(id) else DestroyStarted(id, now)];
      SetPhase(w, Working(id));
      Record(Start(w), before);
      Interrupt(w, during);
      before := View();
      cloud := cloud + [if kind.Provisioner? then ApplyEnded(id, succeeds) else DestroyEnded(id, succeeds)];
      SetPhase(w, Due(id, if succeeds then kind.Success() else kind.Failure(), true));
      Record(Finish(w, succeeds), before);
    }

    /** One turn of lab_provisioning_worker: a lost `running` write is followed by a `failed` one in
        a fresh session, and only when that is lost too does the row stay in `provisioning`. */
    method ProvisioningTurn(w: nat, claim: ClaimLuck, luck: JobLuck, first: MarkLuck, second: MarkLuck) returns (job: Option<nat>)
      requires Ready(w, Provisioner) && Others(claim.between, w) && Others(luck.during, w)
      requires Others(first.between, w) && Others(second.between, w)
      modifies this
      ensures Ready(w, Provisioner)
      ensures job.None? && claim.commits ==> Progress.NoneQueued(old(View()))
      ensures job.Some? ==>
                && Progress.OldestQueued(old(View()), job.value) && job.value < |rows|
                && var good := luck.prepares && luck.succeeds && first.updates && first.emits && first.commits;
                   var recorded := second.updates && second.emits && second.commits;
                   rows[job.value] == old(rows)[job.value].(
                     status := if good then Running else if recorded then Failed else Provisioning)
    {
      job := ClaimJob(w, claim);
      if job.Some? {
        if luck.prepares {
          RunJob(w, luck.during, luck.succeeds);
        } else {
          Except(w, true);
        }
        var committed := false;
        if workers[w].phase.outcome == Running {
          committed := MarkOutcome(w, first);
        }
        if !committed {
          committed := MarkOutcome(w, second);
        }
      }
    }

    /** One turn of lab_cleanup_worker: the second write is made in the session of the first, so it
        is out of reach when a statement of the first has failed. */
    method CleanupTurn(w: nat, claim: ClaimLuck, luck: JobLuck, first: MarkLuck, second: MarkLuck) returns (job: Option<nat>)
      requires Ready(w, Cleaner) && Others(claim.between, w) && Others(luck.during, w)
      requires Others(first.between, w) && Others(second.between, w)
      modifies this
      ensures Ready(w, Cleaner)
      ensures job.None? && claim.commits ==> Progress.NoneExpired(old(View()))
      ensures job.Some? ==>
                && Progress.FirstExpired(old(View()), job.value) && job.value < |rows|
                && var torn := luck.prepares && luck.succeeds;
                   var good := torn && first.updates && first.emits && first.commits;
                   var open := !torn || (first.updates && first.emits && first.usable);
                   var recorded := open && second.updates && second.emits && second.commits;
                   rows[job.value] == old(rows)[job.value].(
                     status := if good then Expired else if recorded then CleanupFailed else Terminating)
    {
      job := ClaimJob(w, claim);
      if job.Some? {
        if luck.prepares {
          RunJob(w, luck.during, luck.succeeds);
        } else {
          Except(w, true);
        }
        var committed := false;
        if workers[w].phase.outcome == Expired {
          committed := MarkOutcome(w, first);
        }
        if !committed {
          if workers[w].phase.usable {
            committed := MarkOutcome(w, second);
          } else {
            Except(w, false);
          }
        }
      }
    }
  }
}
