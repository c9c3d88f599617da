/**
 The workshop that a package payment is linked to, when requests interleave.  The workshop check
 takes no lock; this module says at which commit a link moves, and which runs have no such commit.
 */
module LinkRaces {
  import opened Wrappers
  import opened Payments
  import opened PaymentRaces
  import Runs

  /** A package transaction for a workshop that has passed the workshop check and is not finished. */
  predicate PastCheck(tx: Tx, workshop: nat) {
    (tx.phase.Allowed? || tx.phase.Capturing?) && tx.phase.route.Package? && tx.phase.route.workshop == workshop
  }

  /** The commit of a package capture. */
  predicate Captures(s: State, step: Step, workshop: nat) {
    step.Commit? && step.t < |s.txs| && s.txs[step.t].phase.Capturing? && PastCheck(s.txs[step.t], workshop)
  }

  /** The commit that links a workshop to another payment than the one it is linked to. */
  predicate Steals(s: State, step: Step, workshop: nat) {
    Captures(s, step, workshop) && LinkOf(s.db.tables, workshop).Some? && LinkOf(s.db.tables, workshop) != Some(s.txs[step.t].phase.route.order)
  }

  lemma CommittedLink(s: Tables, tx: Tx, workshop: nat)
    requires TxOk(s, tx)
    ensures LinkOf(Committed(s, tx), workshop) ==
            if tx.phase.Capturing? && PastCheck(tx, workshop) && workshop in s.workshops then Some(tx.phase.route.order)
            else LinkOf(s, workshop)
  {
  }

  /** What a step does to a link. */
  lemma LinkStep(s: State, step: Step, workshop: nat)
    requires Inv(s)
    ensures LinkOf(Apply(s, step).db.tables, workshop) ==
            if Captures(s, step, workshop) && workshop in s.db.tables.workshops then Some(s.txs[step.t].phase.route.order)
            else LinkOf(s.db.tables, workshop)
  {
    TablesStep(s, step);
    if step.SetCatalogue? {
    } else if step.Commit? && step.t < |s.txs| {
      assert TxOk(s.db.tables, s.txs[step.t]);
      CommittedLink(s.db.tables, s.txs[step.t], workshop);
    }
  }

  /** A link that is set changes at such a commit and at no other step. */
  lemma LinkMovesIff(s: State, step: Step, workshop: nat)
    requires Inv(s) && LinkOf(s.db.tables, workshop).Some?
    ensures LinkOf(Apply(s, step).db.tables, workshop) != LinkOf(s.db.tables, workshop) <==> Steals(s, step, workshop)
  {
    LinkStep(s, step, workshop);
  }

  // ---------------------------------------------------------------- runs in which no link moves

  /** No two package transactions for different payments of one workshop are past the check. */
  ghost predicate Exclusive(s: State, workshop: nat) {
    forall t: nat, u: nat | t < |s.txs| && u < |s.txs| && PastCheck(s.txs[t], workshop) && PastCheck(s.txs[u], workshop) ::
      s.txs[t].phase.route.order == s.txs[u].phase.route.order
  }

  ghost predicate ExclusiveRun(s: State, steps: seq<Step>, workshop: nat) {
    forall n | 0 <= n <= |steps| :: Exclusive(Exec(s, steps[..n]), workshop)
  }

  /** What a transaction has checked about the link is still true. */
  ghost predicate LinkChecked(s: State, t: nat, workshop: nat)
    requires t < |s.txs|
  {
    PastCheck(s.txs[t], workshop) ==>
      LinkOf(s.db.tables, workshop).None? || LinkOf(s.db.tables, workshop) == Some(s.txs[t].phase.route.order)
  }

  ghost predicate ChecksHold(s: State, workshop: nat) {
    forall t: nat | t < |s.txs| :: LinkChecked(s, t, workshop)
  }

  lemma OwnLinkChecked(s: State, step: Step, workshop: nat)
    requires Inv(s) && ChecksHold(s, workshop) && step.ByTx() && step.t < |s.txs|
    ensures LinkChecked(Apply(s, step), step.t, workshop)
  {
    assert LinkChecked(s, step.t, workshop);
  }

  lemma OtherLinkChecked(s: State, step: Step, t: nat, workshop: nat)
    requires Inv(s) && ChecksHold(s, workshop) && Exclusive(s, workshop)
    requires t < |s.txs| && (!step.ByTx() || step.t != t)
    ensures t < |Apply(s, step).txs| && LinkChecked(Apply(s, step), t, workshop)
  {
    assert LinkChecked(s, t, workshop);
    TxFrame(s, step, t);
    LinkStep(s, step, workshop);
  }

  lemma ChecksHoldStep(s: State, step: Step, workshop: nat)
    requires Inv(s) && ChecksHold(s, workshop) && Exclusive(s, workshop)
    ensures ChecksHold(Apply(s, step), workshop)
  {
    var r := Apply(s, step);
    forall t: nat | t < |r.txs| ensures LinkChecked(r, t, workshop) {
      if t >= |s.txs| {
        assert !PastCheck(r.txs[t], workshop);
      } else if step.ByTx() && step.t == t {
        OwnLinkChecked(s, step, workshop);
      } else {
        OtherLinkChecked(s, step, t, workshop);
      }
    }
  }

  lemma ExclusiveBefore(s: State, steps: seq<Step>, workshop: nat)
    requires steps != [] && ExclusiveRun(s, steps, workshop)
    ensures ExclusiveRun(s, steps[..|steps| - 1], workshop) && Exclusive(Exec(s, steps[..|steps| - 1]), workshop)
  {
    var before := steps[..|steps| - 1];
    forall n | 0 <= n <= |before| ensures Exclusive(Exec(s, before[..n]), workshop) {
      assert before[..n] == steps[..n];
    }
    assert before[..|before|] == before;
  }

  lemma {:induction false} ChecksHoldAlways(s: State, steps: seq<Step>, workshop: nat)
    requires Initial(s) && ExclusiveRun(s, steps, workshop)
    ensures ChecksHold(Exec(s, steps), workshop)
  {
    if steps != [] {
      var before := steps[..|steps| - 1];
      ExclusiveBefore(s, steps, workshop);
      ChecksHoldAlways(s, before, workshop);
      InvAlways(s, before);
      ChecksHoldStep(Exec(s, before), steps[|steps| - 1], workshop);
    }
  }

  /** In a run in which no two package transactions for different payments of a workshop are past the
      check at once, the workshop stays linked to the first payment it is linked to. */
  lemma {:induction false} ExclusiveRunKeepsLink(s: State, steps: seq<Step>, n: nat, workshop: nat)
    requires Initial(s) && ExclusiveRun(s, steps, workshop) && n <= |steps|
    requires LinkOf(Exec(s, steps[..n]).db.tables, workshop).Some?
    ensures LinkOf(Exec(s, steps).db.tables, workshop) == LinkOf(Exec(s, steps[..n]).db.tables, workshop)
    decreases |steps|
  {
    if n == |steps| {
      assert steps[..n] == steps;
    } else {
      var before, step := steps[..|steps| - 1], steps[|steps| - 1];
      assert before[..n] == steps[..n];
      ExclusiveBefore(s, steps, workshop);
      ExclusiveRunKeepsLink(s, before, n, workshop);
      InvAlways(s, before);
      ChecksHoldAlways(s, before, workshop);
      var t := Exec(s, before);
      LinkMovesIff(t, step, workshop);
      assert step.Commit? && step.t < |t.txs| ==> LinkChecked(t, step.t, workshop);
    }
  }

  // ---------------------------------------------------------------- a run in which one moves

  /** One workshop of one seat, unlinked, at a price of 100. */
  const ONE_WORKSHOP := Tables(map[], map[], map[], map[], map[0 := Workshop(0, 1, false, None, false)], map[0 := 100])

  /** The order and the notes with which users 1 and 2 order the package. */
  function PaymentOf(user: nat): Payment { Payment(user, 100, Pending, None) }

  function NotesOf(user: nat): Notes { Notes(Id(user), Id(0), Id(0), Some(true)) }

  function HookOf(order: nat): Request {
    HookRequest(order, PaymentCaptured, Some(Entity(order, Some(order), Some(100), true, NotesOf(order))))
  }

  /** The tables after both orders, and the state in which both deliveries are in a given phase. */
  const TWO_ORDERS := ONE_WORKSHOP.(orders := map[1 := NotesOf(1), 2 := NotesOf(2)],
                                    payments := map[1 := PaymentOf(1), 2 := PaymentOf(2)])

  function Delivering(a: Phase, b: Phase): State {
    State(Db(TWO_ORDERS, {}, map[]),
          [Tx(HookOf(1), a, if a.Fresh? then {} else {Hook(1)}, map[]), Tx(HookOf(2), b, if b.Fresh? then {} else {Hook(2)}, map[])])
  }

  lemma TwoOrders(s: State) returns (steps: seq<Step>)
    requires s == State(Db(ONE_WORKSHOP, {}, map[]), [])
    ensures Exec(s, steps) == Delivering(Fresh, Fresh)
  {
    steps := [];
    var one := ONE_WORKSHOP.(orders := map[1 := NotesOf(1)], payments := map[1 := PaymentOf(1)]);
    Next(s, steps, NewOrder(1, PaymentOf(1), NotesOf(1)), State(Db(one, {}, map[]), []));
    steps := steps + [NewOrder(1, PaymentOf(1), NotesOf(1))];
    Next(s, steps, NewOrder(2, PaymentOf(2), NotesOf(2)), State(Db(TWO_ORDERS, {}, map[]), []));
    steps := steps + [NewOrder(2, PaymentOf(2), NotesOf(2))];
    Next(s, steps, Arrive(HookOf(1)), State(Db(TWO_ORDERS, {}, map[]), [Tx(HookOf(1), Fresh, {}, map[])]));
    steps := steps + [Arrive(HookOf(1))];
    Next(s, steps, Arrive(HookOf(2)), Delivering(Fresh, Fresh));
    steps := steps + [Arrive(HookOf(2))];
  }

  lemma TwoRouted(s: State) returns (steps: seq<Step>)
    requires s == State(Db(ONE_WORKSHOP, {}, map[]), [])
    ensures Exec(s, steps) == Delivering(Routed(Package(1, 0, 0)), Routed(Package(2, 0, 0)))
  {
    steps := TwoOrders(s);
    assert !Delivering(Fresh, Fresh).BeingRecorded(Hook(1));
    Next(s, steps, Accept(0), Delivering(Accepted, Fresh));
    steps := steps + [Accept(0)];
    assert !Delivering(Accepted, Fresh).BeingRecorded(Hook(2));
    Next(s, steps, Accept(1), Delivering(Accepted, Accepted));
    steps := steps + [Accept(1)];
    Next(s, steps, Read(0), Delivering(Routed(Package(1, 0, 0)), Accepted));
    steps := steps + [Read(0)];
    Next(s, steps, Read(1), Delivering(Routed(Package(1, 0, 0)), Routed(Package(2, 0, 0))));
    steps := steps + [Read(1)];
  }

  /** The tables after the captures of some of the two payments. */
  function Captured12(done: set<nat>, link: nat): Tables {
    TWO_ORDERS.(payments := map o | o in {1, 2} :: if o in done then Payment(o, 100, Captured, Some(o)) else PaymentOf(o),
                workshops := map[0 := Workshop(0, 1, false, Some(link), true)])
  }

  function FirstDone(b: Phase): State {
    State(Db(Captured12({1}, 1), {Hook(1)}, map[]), [Tx(HookOf(1), Done(true), {Hook(1)}, map[]), Tx(HookOf(2), b, {Hook(2)}, map[])])
  }

  /** Both deliveries have read their payments: both pass the check, and the first is captured. */
  lemma FirstCapture(s: State) returns (steps: seq<Step>)
    requires s == State(Db(ONE_WORKSHOP, {}, map[]), [])
    ensures Exec(s, steps) == FirstDone(Allowed(Package(2, 0, 0)))
  {
    var a, b := Package(1, 0, 0), Package(2, 0, 0);
    steps := TwoRouted(s);
    assert Refusal(TWO_ORDERS, a).None? && Refusal(TWO_ORDERS, b).None?;
    Next(s, steps, Check(0), Delivering(Allowed(a), Routed(b)));
    steps := steps + [Check(0)];
    Next(s, steps, Check(1), Delivering(Allowed(a), Allowed(b)));
    steps := steps + [Check(1)];
    Next(s, steps, Update(0), Delivering(Capturing(a), Allowed(b)));
    steps := steps + [Update(0)];
    CommitFirst();
    Next(s, steps, Commit(0), FirstDone(Allowed(b)));
    steps := steps + [Commit(0)];
  }

  lemma CommitFirst()
    ensures Apply(Delivering(Capturing(Package(1, 0, 0)), Allowed(Package(2, 0, 0))), Commit(0)) == FirstDone(Allowed(Package(2, 0, 0)))
  {
    assert Capture(TWO_ORDERS, Package(1, 0, 0), 1) == Captured12({1}, 1);
  }

  lemma CommitSecond()
    ensures Apply(FirstDone(Capturing(Package(2, 0, 0))), Commit(1)).db.tables == Captured12({1, 2}, 2)
  {
    assert Capture(Captured12({1}, 1), Package(2, 0, 0), 2) == Captured12({1, 2}, 2);
  }

  /** A run from a database without orders in which a workshop is linked to one captured payment, and
      then to another. */
  lemma LinkCanBeStolen(s: State) returns (steps: seq<Step>, n: nat)
    requires s == State(Db(ONE_WORKSHOP, {}, map[]), [])
    ensures Initial(s) && n <= |steps|
    ensures LinkOf(Exec(s, steps[..n]).db.tables, 0) == Some(1) && LinkOf(Exec(s, steps).db.tables, 0) == Some(2)
    ensures Exec(s, steps).db.tables.payments.Keys == {1, 2}
    ensures forall order | order in {1, 2} :: Exec(s, steps).db.tables.payments[order].status == Captured
  {
    var first := FirstCapture(s);
    var b := Package(2, 0, 0);
    Next(s, first, Update(1), FirstDone(Capturing(b)));
    CommitSecond();
    Runs.ExecSnoc(Apply, s, first + [Update(1)], Commit(1));
    steps, n := first + [Update(1)] + [Commit(1)], |first|;
    assert steps[..n] == first;
  }
}
