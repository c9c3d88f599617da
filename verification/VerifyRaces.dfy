/**
 What a verify-capture request answers, when webhook deliveries run beside it: it answers `fulfilled`
 once it has been accepted, whatever becomes of the payment in between.
 */
module VerifyRaces {
  import opened Wrappers
  import opened Payments
  import opened PaymentRaces
  import Runs

  /** An open verify-capture request that has passed its checks, and will answer `fulfilled`. */
  predicate WillAnswer(tx: Tx) {
    tx.request.VerifyRequest? && tx.Open() && tx.events != {}
  }

  /** Its payment is one of the user's, and the route it has read is for that payment. */
  ghost predicate AnswerOk(s: Tables, tx: Tx) {
    WillAnswer(tx) ==>
      && tx.request.order in s.payments && s.payments[tx.request.order].user == tx.request.user
      && (tx.request.v.order.Some? ==> tx.request.v.order.value == tx.request.order)
      && !tx.phase.Fresh? && !tx.phase.Failing?
      && (tx.phase.Routed? || tx.phase.Allowed? || tx.phase.Capturing? ==>
            tx.phase.route.Stop? || tx.phase.route.order == tx.request.order)
  }

  ghost predicate AnswersOk(s: State) {
    && (forall t: nat | t < |s.txs| :: AnswerOk(s.db.tables, s.txs[t]))
    && (forall t: nat | t < |s.txs| && s.txs[t].phase.Fresh? :: s.txs[t].events == {})
  }

  lemma AcceptedAnswerOk(s: State, t: nat)
    requires AnswersOk(s) && t < |s.txs| && s.txs[t].phase.Fresh?
    ensures AnswerOk(Apply(s, Accept(t)).db.tables, Apply(s, Accept(t)).txs[t])
  {
  }

  lemma OwnAnswerOk(s: State, step: Step)
    requires Inv(s) && AnswersOk(s) && step.ByTx() && step.t < |s.txs| && !(step.Accept? && s.txs[step.t].phase.Fresh?)
    requires Grows(s.db.tables, Apply(s, step).db.tables)
    ensures AnswerOk(Apply(s, step).db.tables, Apply(s, step).txs[step.t])
  {
    assert AnswerOk(s.db.tables, s.txs[step.t]);
  }

  lemma OtherAnswerOk(s: Tables, r: Tables, tx: Tx)
    requires Grows(s, r) && AnswerOk(s, tx)
    ensures AnswerOk(r, tx)
  {
  }

  lemma AnswersOkStep(s: State, step: Step)
    requires Inv(s) && AnswersOk(s)
    ensures AnswersOk(Apply(s, step))
  {
    LedgerStep(s, step);
    var r := Apply(s, step);
    forall t: nat | t < |r.txs| ensures AnswerOk(r.db.tables, r.txs[t]) && (r.txs[t].phase.Fresh? ==> r.txs[t].events == {}) {
      if t >= |s.txs| {
        assert r.txs[t].events == {};
      } else if step.ByTx() && step.t == t {
        if step.Accept? && s.txs[t].phase.Fresh? { AcceptedAnswerOk(s, t); } else { OwnAnswerOk(s, step); }
        StaysUnfresh(s, step);
      } else {
        TxFrame(s, step, t);
        OtherAnswerOk(s.db.tables, r.db.tables, s.txs[t]);
      }
    }
  }

  lemma StaysUnfresh(s: State, step: Step)
    requires AnswersOk(s) && step.ByTx() && step.t < |s.txs|
    ensures Apply(s, step).txs[step.t].phase.Fresh? ==> Apply(s, step).txs[step.t].events == {}
  {
  }

  lemma AnswersOkAlways(s: State, steps: seq<Step>)
    requires Initial(s)
    ensures Inv(Exec(s, steps)) && AnswersOk(Exec(s, steps))
  {
    forall t: State, step: Step | Inv(t) && AnswersOk(t) ensures Inv(Apply(t, step)) && AnswersOk(Apply(t, step)) {
      InvStep(t, step);
      AnswersOkStep(t, step);
    }
    Runs.Always(Apply, t => Inv(t) && AnswersOk(t), s, steps);
  }

  predicate IsCaptured(s: Tables, order: nat) {
    order in s.payments && s.payments[order].status == Captured
  }

  lemma CommitOf(s: State, t: nat)
    requires t < |s.txs| && (s.txs[t].phase.Quiet? || s.txs[t].phase.Capturing?)
    ensures var r := Apply(s, Commit(t));
            && r.txs[t] == s.txs[t].(phase := Done(true)) && r.db.tables == Committed(s.db.tables, s.txs[t])
            && s.txs[t].events <= r.db.events
  {
  }

  /** A request that is about to commit leaves its payment captured, and so answers the truth, exactly if
      it has taken the payment itself or finds it captured already. */
  lemma AnswerIsTrueIff(s: State, steps: seq<Step>, t: nat)
    requires Initial(s) && t < |Exec(s, steps).txs| && WillAnswer(Exec(s, steps).txs[t])
    requires Exec(s, steps).txs[t].phase.Quiet? || Exec(s, steps).txs[t].phase.Capturing?
    ensures var r := Exec(s, steps);
            var order, after := r.txs[t].request.order, Apply(r, Commit(t));
            && after.txs[t].phase == Done(true)
            && (IsCaptured(after.db.tables, order) <==>
                  r.txs[t].phase.Capturing? || IsCaptured(r.db.tables, order))
  {
    AnswersOkAlways(s, steps);
    var r := Exec(s, steps);
    assert AnswerOk(r.db.tables, r.txs[t]) && TxOk(r.db.tables, r.txs[t]);
    CommitOf(r, t);
    if r.txs[t].phase.Capturing? {
      assert r.txs[t].phase.route.order == r.txs[t].request.order;
    }
  }

  lemma UpdateOf(s: State, t: nat)
    requires t < |s.txs| && s.txs[t].phase.Allowed? && !s.txs[t].phase.route.Stop? && s.Unlocked(s.txs[t].phase.route.order)
    ensures var r, route := Apply(s, Update(t)), s.txs[t].phase.route;
            && r.db == s.db && |r.txs| == |s.txs|
            && r.txs[t] == s.txs[t].(phase := if Claimable(s.db.tables, route.order) then Capturing(route) else Quiet)
  {
  }

  /** Before that: a request that has passed all of its checks answers the truth exactly if the payment has
      not been marked failed when its UPDATE finds the row. */
  lemma AnswerIsTrueUnlessFailed(s: State, steps: seq<Step>, t: nat)
    requires Initial(s) && t < |Exec(s, steps).txs| && WillAnswer(Exec(s, steps).txs[t])
    requires Exec(s, steps).txs[t].phase.Allowed? && !Exec(s, steps).txs[t].phase.route.Stop?
    requires Exec(s, steps).Unlocked(Exec(s, steps).txs[t].phase.route.order)
    ensures var r := Exec(s, steps);
            var order := r.txs[t].request.order;
            && order in r.db.tables.payments
            && (IsCaptured(Apply(Apply(r, Update(t)), Commit(t)).db.tables, order) <==>
                  r.db.tables.payments[order].status != PayFailed)
  {
    AnswersOkAlways(s, steps);
    var r := Exec(s, steps);
    assert AnswerOk(r.db.tables, r.txs[t]);
    UpdateOf(r, t);
    Runs.ExecSnoc(Apply, s, steps, Update(t));
    AnswerIsTrueIff(s, steps + [Update(t)], t);
  }

  // ---------------------------------------------------------------- a false answer

  const ORDER := Notes(Id(1), Id(0), Absent, None)

  const CAPTURE := Entity(5, Some(1), Some(100), true, ORDER)

  const FAILURE := Entity(4, Some(1), Some(100), false, ORDER)

  /** A database with one retail order, and a verify-capture request and a failed-payment delivery for it. */
  function OneOrder(tables: Tables): Tables {
    tables.(orders := map[1 := ORDER], payments := map[1 := Payment(1, 100, Pending, None)])
  }

  function Racing(s: State, verify: Phase, hook: Phase): State {
    State(s.db.(tables := OneOrder(s.db.tables)),
          [Tx(VerifyRequest(1, 1, CAPTURE), verify, if verify.Fresh? then {} else {VerifyCapture(5)}, map[]),
           Tx(HookRequest(9, PaymentFailed, Some(FAILURE)), hook, if hook.Fresh? then {} else {Hook(9)}, map[])])
  }

  lemma BothAccepted(s: State) returns (steps: seq<Step>)
    requires Initial(s)
    ensures Exec(s, steps) == Racing(s, Accepted, Accepted)
  {
    steps := [];
    var db := s.db.(tables := OneOrder(s.db.tables));
    var verify, hook := Tx(VerifyRequest(1, 1, CAPTURE), Fresh, {}, map[]), Tx(HookRequest(9, PaymentFailed, Some(FAILURE)), Fresh, {}, map[]);
    Next(s, steps, NewOrder(1, Payment(1, 100, Pending, None), ORDER), State(db, []));
    steps := steps + [NewOrder(1, Payment(1, 100, Pending, None), ORDER)];
    Next(s, steps, Arrive(verify.request), State(db, [verify]));
    steps := steps + [Arrive(verify.request)];
    Next(s, steps, Arrive(hook.request), Racing(s, Fresh, Fresh));
    steps := steps + [Arrive(hook.request)];
    Next(s, steps, Accept(0), Racing(s, Accepted, Fresh));
    steps := steps + [Accept(0)];
    assert !Racing(s, Accepted, Fresh).BeingRecorded(Hook(9));
    Next(s, steps, Accept(1), Racing(s, Accepted, Accepted));
    steps := steps + [Accept(1)];
  }

  /** The state after the delivery has committed. */
  function AfterFailure(s: State, verify: Phase): State {
    var r := Racing(s, verify, Done(true));
    r.(db := Db(r.db.tables.(payments := map[1 := Payment(1, 100, PayFailed, Some(4))]), {Hook(9)}, map[]))
  }

  lemma FailureCommits(s: State) returns (steps: seq<Step>)
    requires Initial(s)
    ensures Exec(s, steps) == AfterFailure(s, Accepted)
  {
    steps := BothAccepted(s);
    assert Racing(s, Accepted, Accepted).Unlocked(1);
    Next(s, steps, Read(1), Racing(s, Accepted, Failing(1)));
    steps := steps + [Read(1)];
    Next(s, steps, Commit(1), AfterFailure(s, Accepted));
    steps := steps + [Commit(1)];
  }

  /** A run in which a request is accepted for a pending payment, a failed-payment delivery commits, and the
      request then commits its `fulfilled` for a payment that has failed. */
  lemma AnswerCanBeFalse(s: State) returns (steps: seq<Step>)
    requires Initial(s)
    ensures var r := Exec(s, steps);
            && |r.txs| == 2 && r.txs[0].phase == Done(true) && r.txs[0].events == {VerifyCapture(5)} <= r.db.events
            && VerifyAnswer(OneOrder(s.db.tables), 1, 1, CAPTURE) == Fulfilled
            && 1 in r.db.tables.payments && r.db.tables.payments[1].status == PayFailed
  {
    steps := FailureCommits(s);
    var route := Retail(1, 0);
    Next(s, steps, Read(0), AfterFailure(s, Routed(route)));
    steps := steps + [Read(0)];
    Next(s, steps, Check(0), AfterFailure(s, Allowed(route)));
    steps := steps + [Check(0)];
    assert AfterFailure(s, Allowed(route)).Unlocked(1);
    Next(s, steps, Update(0), AfterFailure(s, Quiet));
    steps := steps + [Update(0)];
    CommitOf(AfterFailure(s, Quiet), 0);
    Runs.ExecSnoc(Apply, s, steps, Commit(0));
    steps := steps + [Commit(0)];
  }
}
