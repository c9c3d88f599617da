/**
 The trigger behind `used_seats` when transactions overlap: entitlements of one workshop are
 inserted by concurrent transactions under READ COMMITTED.

 The trigger's UPDATE takes its snapshot when it starts, then waits for the workshop row; the count in
 its SET clause stays that of the snapshot.
 */
module SeatRaces {
  import Runs

  datatype Phase =
    | Inserted             // the row is written, not committed
    | Counted(n: nat, at: nat)   // the UPDATE has its snapshot; `at` commits had been made by then
    | Written(n: nat, at: nat)   // it has the workshop row as well
    | Done

  datatype Tx = Tx(user: nat, phase: Phase)

  /** The users with a committed seat, the counter, and how many inserts have been committed. */
  datatype State = State(seats: set<nat>, used: nat, commits: nat, txs: seq<Tx>) {
    predicate RowFree() { forall t | 0 <= t < |txs| :: !txs[t].phase.Written? }

    /** The user has a seat, or is about to get one. */
    predicate Taken(user: nat) { user in seats || exists t | 0 <= t < |txs| :: txs[t].user == user && !txs[t].phase.Done? }

    function Move(t: nat, phase: Phase): State
      requires t < |txs|
    {
      this.(txs := txs[t := txs[t].(phase := phase)])
    }
  }

  datatype Step = Insert(user: nat) | Count(t: nat) | Write(t: nat) | Commit(t: nat) | Abort(t: nat)

  /** One step.  A step that is not enabled changes nothing. */
  function Apply(s: State, step: Step): State {
    match step
    case Insert(user) => if s.Taken(user) then s else s.(txs := s.txs + [Tx(user, Inserted)])
    case Count(t) =>
      if t < |s.txs| && s.txs[t].phase.Inserted? then s.Move(t, Counted(|s.seats + {s.txs[t].user}|, s.commits)) else s
    case Write(t) =>
      if t < |s.txs| && s.txs[t].phase.Counted? && s.RowFree() then
        s.Move(t, Written(s.txs[t].phase.n, s.txs[t].phase.at))
      else s
    case Commit(t) =>
      if t < |s.txs| && s.txs[t].phase.Written? then
        s.Move(t, Done).(seats := s.seats + {s.txs[t].user}, used := s.txs[t].phase.n, commits := s.commits + 1)
      else s
    case Abort(t) => if t < |s.txs| then s.Move(t, Done) else s
  }

  function Exec(s: State, steps: seq<Step>): State {
    Runs.Exec(Apply, s, steps)
  }

  predicate Initial(s: State) {
    s == State({}, 0, 0, [])
  }

  /** What a transaction has counted is short by the commits made since. */
  ghost predicate TxOk(s: State, t: nat)
    requires t < |s.txs|
  {
    var tx := s.txs[t];
    && (!tx.phase.Done? ==> tx.user !in s.seats)
    && (tx.phase.Counted? || tx.phase.Written? ==> tx.phase.at <= s.commits && tx.phase.n == tx.phase.at + 1)
  }

  ghost predicate Distinct(s: State, t: nat, u: nat)
    requires t < |s.txs| && u < |s.txs|
  {
    !s.txs[t].phase.Done? && !s.txs[u].phase.Done? ==>
      s.txs[t].user != s.txs[u].user && !(s.txs[t].phase.Written? && s.txs[u].phase.Written?)
  }

  ghost predicate Inv(s: State) {
    && |s.seats| == s.commits && s.used <= s.commits
    && (forall t: nat | t < |s.txs| :: TxOk(s, t))
    && (forall t: nat, u: nat | t < |s.txs| && u < |s.txs| && t != u :: Distinct(s, t, u))
  }

  lemma DistinctStep(s: State, step: Step, t: nat, u: nat)
    requires Inv(s) && t != u && t < |Apply(s, step).txs| && u < |Apply(s, step).txs|
    ensures Distinct(Apply(s, step), t, u)
  {
    if t < |s.txs| && u < |s.txs| { assert Distinct(s, t, u); }
  }

  lemma OwnTxOk(s: State, step: Step)
    requires Inv(s) && !step.Insert? && step.t < |s.txs|
    ensures TxOk(Apply(s, step), step.t)
  {
    assert TxOk(s, step.t);
    assert step.Count? && s.txs[step.t].user !in s.seats ==> |s.seats + {s.txs[step.t].user}| == |s.seats| + 1;
  }

  lemma OtherTxOk(s: State, step: Step, t: nat)
    requires Inv(s) && t < |s.txs| && (step.Insert? || step.t != t)
    ensures TxOk(Apply(s, step), t)
  {
    assert TxOk(s, t);
    if step.Commit? && step.t < |s.txs| { assert Distinct(s, t, step.t); }
  }

  lemma TxOkStep(s: State, step: Step, t: nat)
    requires Inv(s) && t < |Apply(s, step).txs|
    ensures TxOk(Apply(s, step), t)
  {
    if t < |s.txs| {
      if !step.Insert? && step.t == t { OwnTxOk(s, step); } else { OtherTxOk(s, step, t); }
    }
  }

  lemma InvStep(s: State, step: Step)
    requires Inv(s)
    ensures Inv(Apply(s, step))
  {
    var r := Apply(s, step);
    if step.Commit? && step.t < |s.txs| { assert TxOk(s, step.t); }
    forall t: nat | t < |r.txs| ensures TxOk(r, t) { TxOkStep(s, step, t); }
    forall t: nat, u: nat | t < |r.txs| && u < |r.txs| && t != u ensures Distinct(r, t, u) { DistinctStep(s, step, t, u); }
  }

  lemma InvAlways(s: State, steps: seq<Step>)
    requires Initial(s)
    ensures Inv(Exec(s, steps))
  {
    forall t: State, step: Step | Inv(t) ensures Inv(Apply(t, step)) {
      InvStep(t, step);
    }
    Runs.Always(Apply, Inv, s, steps);
  }

  /** Over every interleaving of inserts the counter is never above the number of seats. */
  lemma NeverOvercounts(s: State, steps: seq<Step>)
    requires Initial(s)
    ensures Exec(s, steps).used <= |Exec(s, steps).seats|
  {
    InvAlways(s, steps);
  }

  /** A commit leaves the counter exact if and only if nobody has committed since its trigger counted; otherwise
      the counter is short by as many seats as were committed in between. */
  lemma ExactAfterCommitIff(s: State, steps: seq<Step>, t: nat)
    requires Initial(s) && t < |Exec(s, steps).txs| && Exec(s, steps).txs[t].phase.Written?
    ensures var r := Exec(s, steps);
            var after := Apply(r, Commit(t));
            && (after.used == |after.seats| <==> r.txs[t].phase.at == r.commits)
            && |after.seats| - after.used == r.commits - r.txs[t].phase.at
  {
    InvAlways(s, steps);
    InvAlways(s, steps + [Commit(t)]);
    Runs.ExecSnoc(Apply, s, steps, Commit(t));
    assert TxOk(Exec(s, steps), t);
  }

  lemma Next(s: State, steps: seq<Step>, step: Step, t: State)
    requires Apply(Exec(s, steps), step) == t
    ensures Exec(s, steps + [step]) == t
  {
    Runs.ExecSnoc(Apply, s, steps, step);
  }

  function Two(a: Phase, b: Phase): seq<Tx> { [Tx(1, a), Tx(2, b)] }

  lemma BothCount(s: State) returns (steps: seq<Step>)
    requires Initial(s)
    ensures Exec(s, steps) == State({}, 0, 0, Two(Counted(1, 0), Counted(1, 0)))
  {
    steps := [];
    Next(s, steps, Insert(1), s.(txs := [Tx(1, Inserted)]));
    steps := steps + [Insert(1)];
    Next(s, steps, Insert(2), s.(txs := Two(Inserted, Inserted)));
    steps := steps + [Insert(2)];
    assert {} + {1} == {1} && {} + {2} == {2};
    Next(s, steps, Count(0), s.(txs := Two(Counted(1, 0), Inserted)));
    steps := steps + [Count(0)];
    Next(s, steps, Count(1), s.(txs := Two(Counted(1, 0), Counted(1, 0))));
    steps := steps + [Count(1)];
  }

  /** A run in which two seats are granted and one is counted. */
  lemma SeatIsLost(s: State) returns (steps: seq<Step>)
    requires Initial(s)
    ensures Exec(s, steps) == State({1, 2}, 1, 2, Two(Done, Done))
  {
    steps := BothCount(s);
    Next(s, steps, Write(0), State({}, 0, 0, Two(Written(1, 0), Counted(1, 0))));
    steps := steps + [Write(0)];
    assert {} + {1} == {1} && {1} + {2} == {1, 2};
    Next(s, steps, Commit(0), State({1}, 1, 1, Two(Done, Counted(1, 0))));
    steps := steps + [Commit(0)];
    Next(s, steps, Write(1), State({1}, 1, 1, Two(Done, Written(1, 0))));
    steps := steps + [Write(1)];
    Next(s, steps, Commit(1), State({1, 2}, 1, 2, Two(Done, Done)));
    steps := steps + [Commit(1)];
  }
}
