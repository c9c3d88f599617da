/**
 What lies behind a captured payment, when webhook deliveries and verify-capture requests run beside each
 other: the gateway has said that it captured it, for this order and this amount.
 */
module CaptureRaces {
  import opened Wrappers
  import opened Payments
  import opened PaymentRaces
  import Runs

  /** The gateway reports this entity as captured for this payment: by a `payment.captured` delivery, or in
      answer to a verify-capture request of the payment's own user. */
  ghost predicate Reports(s: Tables, request: Request, o: nat)
    requires o in s.payments
  {
    && request.EntityOf().Some?
    && request.EntityOf().value.order == Some(o)
    && (request.EntityOf().value.amount == None || request.EntityOf().value.amount == Some(s.payments[o].amount))
    && (request.HookRequest? ==> request.kind == PaymentCaptured)
    && (request.VerifyRequest? ==> request.v.captured && request.order == o && request.user == s.payments[o].user)
  }

  /** A transaction that is on its way to a capture has such a report in hand. */
  ghost predicate ReportOk(s: Tables, tx: Tx) {
    && (tx.request.VerifyRequest? && (tx.phase.Accepted? || tx.phase.Routed? || tx.phase.Allowed? || tx.phase.Capturing?) ==>
          tx.request.order in s.payments && tx.request.user == s.payments[tx.request.order].user && tx.request.v.captured
          && (tx.request.v.order == None || tx.request.v.order == Some(tx.request.order)))
    && ((tx.phase.Routed? || tx.phase.Allowed? || tx.phase.Capturing?) && !tx.phase.route.Stop? ==>
          tx.phase.route.order in s.payments && Reports(s, tx.request, tx.phase.route.order))
    && (tx.phase.Failing? ==>
          && tx.request.HookRequest? && tx.request.kind == PaymentFailed
          && tx.request.e.Some? && tx.request.e.value.order == Some(tx.phase.order))
  }

  ghost predicate ReportsOk(s: State) {
    forall t: nat | t < |s.txs| :: ReportOk(s.db.tables, s.txs[t])
  }

  lemma RouteReports(s: Tables, request: Request)
    requires request.EntityOf().Some? && (request.HookRequest? ==> request.kind == PaymentCaptured)
    requires request.VerifyRequest? ==>
               && request.order in s.payments && request.user == s.payments[request.order].user && request.v.captured
               && (request.v.order == None || request.v.order == Some(request.order))
    ensures var route := RouteOf(s, Resolve(s.orders, request.EntityOf().value));
            !route.Stop? ==> route.order in s.payments && Reports(s, request, route.order)
  {
  }

  lemma OwnReportOk(s: State, step: Step)
    requires Inv(s) && ReportsOk(s) && step.ByTx() && step.t < |s.txs| && !step.Accept?
    ensures ReportOk(Apply(s, step).db.tables, Apply(s, step).txs[step.t])
  {
    var tx := s.txs[step.t];
    assert ReportOk(s.db.tables, tx);
    if step.Read? && tx.phase.Accepted? && tx.request.EntityOf().Some? && (tx.request.HookRequest? ==> tx.request.kind == PaymentCaptured) {
      RouteReports(s.db.tables, tx.request);
    }
  }

  lemma AcceptedReportOk(s: State, t: nat)
    requires Inv(s) && ReportsOk(s) && t < |s.txs|
    ensures ReportOk(Apply(s, Accept(t)).db.tables, Apply(s, Accept(t)).txs[t])
  {
    var tx := s.txs[t];
    assert ReportOk(s.db.tables, tx);
    if tx.phase.Fresh? && tx.request.VerifyRequest? {
      VerifyAnswerIff(s.db.tables, tx.request.user, tx.request.order, tx.request.v);
    }
  }

  /** How a verify-capture request starts: it goes on to fulfilment exactly if the order is its user's, not captured
      yet, and captured for this order at the gateway; a captured order of the user, or a payment that is not captured
      at the gateway, leaves it nothing to do; any other request is rolled back. */
  lemma VerifyStartsIff(s: State, t: nat)
    requires t < |s.txs| && s.txs[t].request.VerifyRequest? && s.txs[t].phase.Fresh?
    ensures var VerifyRequest(user, order, v) := s.txs[t].request;
            var tables, phase := s.db.tables, Apply(s, Accept(t)).txs[t].phase;
            var own := order in tables.payments && tables.payments[order].user == user;
            && (phase == Accepted <==> own && tables.payments[order].status != Captured && CapturedFor(tables, order, v))
            && (phase == Quiet <==> own && (tables.payments[order].status == Captured || !v.captured))
            && (phase == Accepted || phase == Quiet || phase == Done(false))
            && Apply(s, Accept(t)).db == s.db
  {
    VerifyAnswerIff(s.db.tables, s.txs[t].request.user, s.txs[t].request.order, s.txs[t].request.v);
  }

  lemma ReportsStep(s: State, step: Step)
    requires Inv(s) && ReportsOk(s)
    ensures ReportsOk(Apply(s, step))
  {
    var r := Apply(s, step);
    LedgerStep(s, step);
    forall t: nat | t < |r.txs| ensures ReportOk(r.db.tables, r.txs[t]) {
      if t < |s.txs| {
        if step.ByTx() && step.t == t {
          if step.Accept? { AcceptedReportOk(s, t); } else { OwnReportOk(s, step); }
        } else {
          TxFrame(s, step, t);
        }
      }
    }
  }

  lemma ReportsAlways(s: State, steps: seq<Step>)
    requires Initial(s)
    ensures Inv(Exec(s, steps)) && ReportsOk(Exec(s, steps))
  {
    forall t: State, step: Step | Inv(t) && ReportsOk(t) ensures Inv(Apply(t, step)) && ReportsOk(Apply(t, step)) {
      InvStep(t, step);
      ReportsStep(t, step);
    }
    Runs.Always(Apply, t => Inv(t) && ReportsOk(t), s, steps);
  }

  /** What a request must have been for a payment to end like this. */
  ghost predicate Explains(s: Tables, request: Request, o: nat, payment: Payment)
    requires o in s.payments
  {
    && request.EntityOf().Some? && payment.payId == Some(request.EntityOf().value.payId)
    && (payment.status == Captured ==> Reports(s, request, o))
    && (payment.status == PayFailed ==>
          request.HookRequest? && request.kind == PaymentFailed && request.e.value.order == Some(o))
  }

  lemma CommittedExplains(s: Tables, tx: Tx, o: nat)
    requires ReportOk(s, tx) && TxOk(s, tx) && o in s.payments && s.payments[o].status == Pending
    requires o in Committed(s, tx).payments && Committed(s, tx).payments[o].status != Pending
    ensures Explains(s, tx.request, o, Committed(s, tx).payments[o])
  {
    if tx.phase.Capturing? {
      assert o == tx.phase.route.order;
    }
  }

  /** The step that settles a payment is the commit of a transaction that the gateway's report has started. */
  lemma SettlingStep(s: State, step: Step, o: nat)
    requires Inv(s) && ReportsOk(s) && !Settled(s, o) && Settled(Apply(s, step), o)
    ensures o in s.db.tables.payments && step.Commit? && step.t < |s.txs|
    ensures Explains(s.db.tables, s.txs[step.t].request, o, Apply(s, step).db.tables.payments[o])
  {
    TablesStep(s, step);
    if o !in s.db.tables.payments { StillAbsent(s, step, o); }
    if step.Commit? && step.t < |s.txs| {
      assert ReportOk(s.db.tables, s.txs[step.t]) && TxOk(s.db.tables, s.txs[step.t]);
      if Apply(s, step).db.tables != s.db.tables { CommittedExplains(s.db.tables, s.txs[step.t], o); }
    }
  }

  /** Step i of a run settles a payment as the gateway has reported it. */
  ghost predicate SettledAt(s: State, steps: seq<Step>, i: nat, o: nat, payment: Payment)
    requires i < |steps|
  {
    var r := Exec(s, steps[..i]);
    && o in r.db.tables.payments && steps[i].Commit? && steps[i].t < |r.txs|
    && Explains(r.db.tables, r.txs[steps[i].t].request, o, payment)
  }

  lemma SettledStays(s: State, step: Step, o: nat)
    requires Inv(s) && Settled(s, o)
    ensures Settled(Apply(s, step), o) && Apply(s, step).db.tables.payments[o] == s.db.tables.payments[o]
  {
    LedgerStep(s, step);
  }

  lemma SettledBefore(s: State, steps: seq<Step>, n: nat, i: nat, o: nat, payment: Payment)
    requires i < n <= |steps| && SettledAt(s, steps[..n], i, o, payment)
    ensures SettledAt(s, steps, i, o, payment)
  {
    assert steps[..n][..i] == steps[..i];
  }

  /** However requests race, a payment is captured only because the gateway has reported a captured payment for
      this order and amount, and failed only because a `payment.failed` delivery named its order; and the
      gateway's id that is stored is the one of that report. */
  lemma {:induction false} SettledOnlyAsReported(s: State, steps: seq<Step>, o: nat) returns (i: nat)
    requires Initial(s) && Settled(Exec(s, steps), o)
    ensures i < |steps| && SettledAt(s, steps, i, o, Exec(s, steps).db.tables.payments[o])
  {
    var before := steps[..|steps| - 1];
    var r := Exec(s, before);
    ReportsAlways(s, before);
    if Settled(r, o) {
      i := SettledOnlyAsReported(s, before, o);
      SettledStays(r, steps[|steps| - 1], o);
      SettledBefore(s, steps, |steps| - 1, i, o, r.db.tables.payments[o]);
    } else {
      i := |steps| - 1;
      SettlingStep(r, steps[|steps| - 1], o);
    }
  }
}
