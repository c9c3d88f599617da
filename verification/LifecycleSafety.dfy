/**
 What every run of the workers keeps: who owns which row, which histories a row can have,
 what the feed records, and how often and in what order Terraform runs.
 */
module LifecycleSafety {
  import opened Lifecycle
  import Runs

  /** The lifecycle graph. */
  predicate Edge(a: Status, b: Status) {
    match a
    case Queued => b == Provisioning
    case Provisioning => b == Running || b == Failed
    case Running => b == Terminating
    case Terminating => b == Expired || b == CleanupFailed
    case _ => false
  }

  predicate Final(a: Status) {
    a == Failed || a == Expired || a == CleanupFailed
  }

  // ---------------------------------------------------------------- ownership

  /** A claimed row is still in the status it was claimed from or moved to. */
  ghost predicate WorkerOk(rows: seq<Row>, worker: Worker) {
    && !worker.phase.Polling?
    && worker.phase.id < |rows|
    && (worker.phase.Claiming? ==> rows[worker.phase.id].status == worker.kind.From())
    && (worker.phase.Owns() ==> rows[worker.phase.id].status == worker.kind.To())
    && (worker.phase.Due? || worker.phase.Marking? ==>
          worker.phase.outcome == worker.kind.Success() || worker.phase.outcome == worker.kind.Failure())
  }

  ghost predicate Apart(s: State, w: nat, v: nat)
    requires w < |s.workers| && v < |s.workers|
  {
    s.workers[w].phase.Polling? || s.workers[v].phase.Polling? || s.workers[w].phase.id != s.workers[v].phase.id
  }

  /** The ownership invariant: no two workers hold the same row, and each finds it as it left it. */
  ghost predicate Owned(s: State) {
    && (forall w: nat | w < |s.workers| :: s.workers[w].phase.Polling? || WorkerOk(s.rows, s.workers[w]))
    && (forall w: nat, v: nat | w < |s.workers| && v < |s.workers| && w != v :: Apart(s, w, v))
  }

  lemma ApartStep(s: State, step: Step, w: nat, v: nat)
    requires Owned(s) && w < |s.workers| && v < |s.workers| && w != v
    ensures |Apply(s, step).workers| == |s.workers| && Apart(Apply(s, step), w, v)
  {
    assert Apart(s, w, v);
    if step.Select? {
      assert s.LockedBy(w, step.id) ==> s.Locked(step.id);
      assert s.LockedBy(v, step.id) ==> s.Locked(step.id);
    }
  }

  lemma WorkerOkStep(s: State, step: Step, w: nat)
    requires Owned(s) && w < |s.workers|
    ensures var t := Apply(s, step);
            |t.workers| == |s.workers| && (t.workers[w].phase.Polling? || WorkerOk(t.rows, t.workers[w]))
  {
    assert s.workers[w].phase.Polling? || WorkerOk(s.rows, s.workers[w]);
    if 0 <= step.Actor() < |s.workers| && w != step.w {
      assert Apart(s, step.w, w);
    }
  }

  lemma OwnedStep(s: State, step: Step)
    requires Owned(s)
    ensures Owned(Apply(s, step))
  {
    var t := Apply(s, step);
    assert |t.workers| == |s.workers|;
    forall w: nat, v: nat | w < |t.workers| && v < |t.workers| && w != v ensures Apart(t, w, v) {
      ApartStep(s, step, w, v);
    }
    forall w: nat | w < |t.workers| ensures t.workers[w].phase.Polling? || WorkerOk(t.rows, t.workers[w]) {
      WorkerOkStep(s, step, w);
    }
  }

  /** What a step does to the rows and the feed: nothing, a new queued row, or one write
      along an edge of the lifecycle graph together with its feed key. */
  lemma StepEffect(s: State, step: Step)
    requires Owned(s)
    ensures var t := Apply(s, step);
            match Written(s, step)
            case Write(id, status) =>
              && id < |s.rows|
              && Edge(s.rows[id].status, status)
              && t.rows == s.rows[id := s.rows[id].(status := status)]
              && t.feed == s.feed + {(id, status)}
            case NoWrite =>
              && t.feed == s.feed
              && (t.rows == s.rows || (step.Enqueue? && step.row.status == Queued && t.rows == s.rows + [step.row]))
  {
  }

  /** The main safety result, over every interleaving of any number of workers: a worker about
      to commit finds the row in exactly the status its claim left it in, and nobody else holds the
      row. */
  lemma {:induction false} OwnedAlways(s: State, steps: seq<Step>)
    requires Initial(s)
    ensures Owned(Exec(s, steps))
  {
    if steps != [] {
      OwnedAlways(s, steps[..|steps| - 1]);
      OwnedStep(Exec(s, steps[..|steps| - 1]), steps[|steps| - 1]);
    }
  }

  /** FOR UPDATE and FOR KEY SHARE exclude each other. */
  ghost predicate Excludes(s: State, w: nat, r: nat)
    requires w < |s.workers| && r in s.refs
  {
    s.workers[w].phase.Claiming? ==> s.workers[w].phase.id != s.refs[r]
  }

  lemma ExcludesStep(s: State, step: Step)
    requires forall w: nat, r: nat | w < |s.workers| && r in s.refs :: Excludes(s, w, r)
    ensures forall w: nat, r: nat | w < |Apply(s, step).workers| && r in Apply(s, step).refs :: Excludes(Apply(s, step), w, r)
  {
    var t := Apply(s, step);
    forall w: nat, r: nat | w < |t.workers| && r in t.refs ensures Excludes(t, w, r) {
      if r in s.refs { assert Excludes(s, w, r); }
    }
  }

  /** While a claim has a row, no API transaction refers to it: neither finds the other's lock in its way. */
  lemma ClaimedIsUnreferenced(s: State, steps: seq<Step>, w: nat, r: nat)
    requires Initial(s) && w < |Exec(s, steps).workers| && r in Exec(s, steps).refs
    ensures var t := Exec(s, steps);
            t.workers[w].phase.Claiming? ==> t.workers[w].phase.id != t.refs[r]
  {
    var inv := (t: State) => forall w: nat, r: nat | w < |t.workers| && r in t.refs :: Excludes(t, w, r);
    forall t: State, step: Step | inv(t) ensures inv(Apply(t, step)) {
      ExcludesStep(t, step);
    }
    Runs.Always(Apply, inv, s, steps);
    assert Excludes(Exec(s, steps), w, r);
  }

  /** What this means for the worker: its outcome statement is never blocked, neither by a worker nor by
      the API transactions that refer to the row. */
  lemma UnguardedWritesAreSafe(s: State, steps: seq<Step>, w: nat)
    requires Initial(s)
    requires w < |s.workers| && w < |Exec(s, steps).workers|
    ensures var t := Exec(s, steps);
            var worker := t.workers[w];
            worker.phase.Owns() ==>
              && worker.phase.id < |t.rows|
              && t.rows[worker.phase.id].status == worker.kind.To()
              && (forall v: nat | v < |t.workers| && v != w && !t.workers[v].phase.Polling? ::
                    t.workers[v].phase.id != worker.phase.id)
              && (worker.phase.Due? ==> !t.Locked(worker.phase.id))
              && (worker.phase.Due? && worker.phase.usable ==>
                    Apply(t, Execute(w)).workers[w].phase == Marking(worker.phase.id, worker.phase.outcome, false))
  {
    OwnedAlways(s, steps);
    var t := Exec(s, steps);
    if t.workers[w].phase.Due? {
      OwnerIsNotBlocked(t, w);
    }
    forall v: nat | v < |t.workers| && v != w && t.workers[w].phase.Owns()
      ensures t.workers[v].phase.Polling? || t.workers[v].phase.id != t.workers[w].phase.id
    {
      assert Apart(t, w, v);
    }
  }

  // ---------------------------------------------------------------- histories and the feed

  /** The statuses row `id` has had during a run, in order. */
  function History(s: State, steps: seq<Step>, id: nat): (h: seq<Status>)
    decreases |steps|
  {
    var t := Exec(s, steps);
    if id >= |t.rows| then []
    else if steps == [] then [t.rows[id].status]
    else
      var h := History(s, steps[..|steps| - 1], id);
      if h != [] && h[|h| - 1] == t.rows[id].status then h else h + [t.rows[id].status]
  }

  ghost predicate IsPath(h: seq<Status>) {
    && h != [] && h[0] == Queued
    && forall i | 0 < i < |h| :: Edge(h[i - 1], h[i])
  }

  /** Every row's history is a path of the lifecycle graph from `queued` to its present status. */
  lemma {:induction false} HistoryIsPath(s: State, steps: seq<Step>, id: nat)
    requires Initial(s)
    ensures var t := Exec(s, steps);
            var h := History(s, steps, id);
            if id < |t.rows| then IsPath(h) && h[|h| - 1] == t.rows[id].status else h == []
    decreases |steps|
  {
    if steps != [] {
      var before := steps[..|steps| - 1];
      HistoryIsPath(s, before, id);
      OwnedAlways(s, before);
      StepEffect(Exec(s, before), steps[|steps| - 1]);
    }
  }

  /** There are only seven of them. */
  lemma PathsAreFew(h: seq<Status>)
    requires IsPath(h)
    ensures h in {[Queued], [Queued, Provisioning], [Queued, Provisioning, Failed],
                  [Queued, Provisioning, Running], [Queued, Provisioning, Running, Terminating],
                  [Queued, Provisioning, Running, Terminating, Expired],
                  [Queued, Provisioning, Running, Terminating, CleanupFailed]}
  {
    if |h| > 1 { assert Edge(h[0], h[1]); }
    if |h| > 2 { assert Edge(h[1], h[2]); }
    if |h| > 3 { assert Edge(h[2], h[3]); }
    if |h| > 4 { assert Edge(h[3], h[4]); }
    assert |h| > 5 ==> Edge(h[4], h[5]);
    if |h| == 1 { assert h == [Queued]; }
    else if |h| == 2 { assert h == [Queued, Provisioning]; }
    else if |h| == 3 { assert h == [Queued, Provisioning, h[2]]; }
    else if |h| == 4 { assert h == [Queued, Provisioning, Running, h[3]]; }
    else { assert h == [Queued, Provisioning, Running, Terminating, h[4]]; }
  }

  /** The feed is an exact trace: its keys for a row are the statuses the row has passed
      through after `queued`, no more and no fewer. */
  lemma {:induction false} FeedIsTrace(s: State, steps: seq<Step>, id: nat, status: Status)
    requires Initial(s)
    ensures var h := History(s, steps, id);
            (id, status) in Exec(s, steps).feed <==> exists i | 0 < i < |h| :: h[i] == status
    decreases |steps|
  {
    if steps != [] {
      var before, step := steps[..|steps| - 1], steps[|steps| - 1];
      var t := Exec(s, before);
      FeedIsTrace(s, before, id, status);
      HistoryIsPath(s, before, id);
      OwnedAlways(s, before);
      StepEffect(t, step);
      var h, h' := History(s, before, id), History(s, steps, id);
      assert forall i | 0 < i < |h| :: h'[i] == h[i];
      if Written(t, step).Write? && Written(t, step).id == id {
        assert h' == h + [Written(t, step).status];
        assert h'[|h|] == Written(t, step).status;
      } else if h != [] {
        assert h' == h;
      }
    }
  }

  /** The upsert's conflict branch is never taken: a worker's feed key is new when it commits. */
  lemma FeedKeyIsNew(s: State, steps: seq<Step>, step: Step)
    requires Initial(s)
    requires Written(Exec(s, steps), step).Write?
    ensures var write := Written(Exec(s, steps), step);
            (write.id, write.status) !in Exec(s, steps).feed
  {
    var t, write := Exec(s, steps), Written(Exec(s, steps), step);
    OwnedAlways(s, steps);
    StepEffect(t, step);
    FeedIsTrace(s, steps, write.id, write.status);
    HistoryIsPath(s, steps, write.id);
    PathsAreFew(History(s, steps, write.id));
  }

  /** No finished row comes back. */
  lemma {:induction false} FinalIsForever(s: State, first: seq<Step>, later: seq<Step>, id: nat)
    requires Initial(s)
    requires id < |Exec(s, first).rows| && Final(Exec(s, first).rows[id].status)
    ensures var t := Exec(Exec(s, first), later);
            id < |t.rows| && t.rows[id] == Exec(s, first).rows[id]
  {
    if later != [] {
      var before := later[..|later| - 1];
      FinalIsForever(s, first, before, id);
      Runs.ExecAppend(Apply, s, first, before);
      OwnedAlways(s, first + before);
      StepEffect(Exec(Exec(s, first), before), later[|later| - 1]);
    }
  }

  lemma ClaimIsUndone(s: State, w: nat, id: nat, usable: bool)
    requires w < |s.workers| && s.workers[w].phase.Polling?
    ensures var t := Apply(s, Select(w, id));
            Apply(t, Raise(w, usable)) == Apply(Apply(t, Emit(w)), Raise(w, usable)) == Apply(Apply(t, Emit(w)), Crash(w)) == s
  {
  }

  /** A claim that is rolled back leaves no trace, however far its transaction had got. */
  lemma RolledBackClaim(s: State, w: nat, id: nat, usable: bool)
    requires w < |s.workers| && s.workers[w].phase.Polling?
    ensures Exec(s, [Select(w, id), Emit(w), Raise(w, usable)]) == s
    ensures Exec(s, [Select(w, id), Raise(w, usable)]) == s
    ensures Exec(s, [Select(w, id), Emit(w), Crash(w)]) == s
  {
    ClaimIsUndone(s, w, id, usable);
    ExecOne(s, Select(w, id));
    Runs.ExecSnoc(Apply, s, [Select(w, id)], Emit(w));
    Runs.ExecSnoc(Apply, s, [Select(w, id)], Raise(w, usable));
    Runs.ExecSnoc(Apply, s, [Select(w, id), Emit(w)], Raise(w, usable));
    Runs.ExecSnoc(Apply, s, [Select(w, id), Emit(w)], Crash(w));
    assert [Select(w, id)] + [Emit(w)] == [Select(w, id), Emit(w)];
    assert [Select(w, id)] + [Raise(w, usable)] == [Select(w, id), Raise(w, usable)];
    assert [Select(w, id), Emit(w)] + [Raise(w, usable)] == [Select(w, id), Emit(w), Raise(w, usable)];
    assert [Select(w, id), Emit(w)] + [Crash(w)] == [Select(w, id), Emit(w), Crash(w)];
  }

  // ---------------------------------------------------------------- isolation

  /** Steps taken by anybody but worker `w`. */
  predicate Others(steps: seq<Step>, w: nat) {
    forall i | 0 <= i < |steps| :: steps[i].Actor() != w
  }

  /** While a worker holds a row, nothing that the others do moves the worker, changes the row,
      or takes a key out of the feed. */
  lemma {:induction false} Isolation(s: State, steps: seq<Step>, w: nat)
    requires Owned(s) && w < |s.workers| && Others(steps, w)
    ensures var t := Exec(s, steps);
            && Owned(t)
            && |t.workers| == |s.workers| && t.workers[w] == s.workers[w]
            && |s.rows| <= |t.rows| && s.feed <= t.feed
            && (!s.workers[w].phase.Polling? ==> t.rows[s.workers[w].phase.id] == s.rows[s.workers[w].phase.id])
  {
    assert s.workers[w].phase.Polling? || WorkerOk(s.rows, s.workers[w]);
    if steps != [] {
      var before, step := steps[..|steps| - 1], steps[|steps| - 1];
      Isolation(s, before, w);
      var t := Exec(s, before);
      OwnedStep(t, step);
      StepEffect(t, step);
      if 0 <= step.Actor() < |t.workers| {
        assert Apart(t, step.w, w);
      }
    }
  }

  /** Nobody can lock a row that a worker owns, so the worker's UPDATE is never blocked. */
  lemma OwnerIsNotBlocked(s: State, w: nat)
    requires Owned(s) && w < |s.workers| && s.workers[w].phase.Due?
    ensures !s.Locked(s.workers[w].phase.id)
  {
    forall v: nat | v < |s.workers| ensures !s.LockedBy(v, s.workers[w].phase.id) {
      assert v != w ==> Apart(s, v, w);
    }
  }
}
