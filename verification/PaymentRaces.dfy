/**
 Webhook deliveries and verify-capture requests as concurrent transactions.

 Each step is one statement or one commit under READ COMMITTED: reads see what is committed,
 writes are pending until the commit, and the UPDATE of a payment row locks it until then.
 */
module PaymentRaces {
  import opened Wrappers
  import opened Payments
  import Runs

  datatype Request =
    | HookRequest(event: nat, kind: EventKind, e: Option<Entity>)
    | VerifyRequest(user: nat, order: nat, v: Entity)
  {
    function EntityOf(): Option<Entity> {
      if HookRequest? then e else Some(v)
    }
  }

  datatype Phase =
    | Fresh
    | Accepted                       // dedupe row inserted, or verify request validated
    | Routed(route: Route)           // payment row read
    | Allowed(route: Route)          // checks passed
    | Capturing(route: Route)        // payment row updated to captured, effects written, not committed
    | Failing(order: nat)            // payment row updated to failed, not committed
    | Quiet                          // nothing (more) to write to the tables
    | Done(committed: bool)
  {
    predicate Locks(o: nat) { (Capturing? && !route.Stop? && route.order == o) || (Failing? && order == o) }
  }

  /** A transaction, with the dedupe and feed rows it has written but not committed. */
  datatype Tx = Tx(request: Request, phase: Phase, events: set<EventId>, alerts: map<nat, Reason>) {
    predicate Open() { !phase.Done? }
  }

  datatype State = State(db: Db, txs: seq<Tx>) {
    predicate Unlocked(order: nat) {
      forall t | 0 <= t < |txs| :: !txs[t].phase.Locks(order)
    }

    predicate BeingRecorded(id: EventId) {
      exists t | 0 <= t < |txs| :: txs[t].Open() && id in txs[t].events
    }

    function Move(t: nat, phase: Phase): State
      requires t < |txs|
    {
      this.(txs := txs[t := txs[t].(phase := phase)])
    }
  }

  datatype Step =
    | NewOrder(order: nat, payment: Payment, notes: Notes)
    | Arrive(request: Request)
    | SetCatalogue(prices: map<nat, int>, workshops: map<nat, Workshop>)   // edits of prices and cohorts
    | Accept(t: nat)         // INSERT INTO billing_webhook_events, or the checks of verify-capture
    | Read(t: nat)           // SELECT ... FROM payments
    | Check(t: nat)          // the workshop check
    | Update(t: nat)         // UPDATE payments ... WHERE status = 'pending', and the effects
    | Commit(t: nat)
    | Abort(t: nat)          // an exception or a crash: rollback
  {
    predicate ByTx() { !NewOrder? && !Arrive? && !SetCatalogue? }
  }

  /** Workshops as they are edited or added: only a capture writes the payment fields. */
  function Relisted(was: map<nat, Workshop>, edited: map<nat, Workshop>): map<nat, Workshop> {
    map w | w in was.Keys + edited.Keys ::
      if w !in edited then was[w]
      else if w in was then edited[w].(payment := was[w].payment, paid := was[w].paid)
      else edited[w].(payment := None, paid := false)
  }

  /** What a gateway can send: entities of known orders whose content and workshop are not lost. */
  predicate Honest(s: Tables, request: Request) {
    request.EntityOf().Some? ==> Faithful(s.orders, request.EntityOf().value)
  }

  function AcceptStep(s: State, t: nat): State
    requires t < |s.txs| && s.txs[t].phase.Fresh?
  {
    var tx := s.txs[t];
    match tx.request
    case HookRequest(event, _, _) =>
      if Hook(event) in s.db.events then s.Move(t, Quiet)
      else if s.BeingRecorded(Hook(event)) then s
      else s.(txs := s.txs[t := tx.(phase := Accepted, events := {Hook(event)})])
    case VerifyRequest(user, order, v) =>
      match VerifyAnswer(s.db.tables, user, order, v)
      case BadRequest => s.Move(t, Done(false))
      case Fulfilled => s.(txs := s.txs[t := tx.(phase := Accepted, events := {VerifyCapture(v.payId)})])
      case _ => s.Move(t, Quiet)
  }

  function ReadStep(s: State, t: nat): State
    requires t < |s.txs| && s.txs[t].phase.Accepted?
  {
    var request := s.txs[t].request;
    if request.EntityOf().None? || (request.HookRequest? && request.kind.OtherEvent?) then s.Move(t, Quiet)
    else
      var e := request.EntityOf().value;
      if request.HookRequest? && request.kind.PaymentFailed? then
        if e.order.None? then s.Move(t, Quiet)
        else if !s.Unlocked(e.order.value) then s
        else s.Move(t, if Claimable(s.db.tables, e.order.value) then Failing(e.order.value) else Quiet)
      else s.Move(t, Routed(RouteOf(s.db.tables, Resolve(s.db.tables.orders, e))))
  }

  function CheckStep(s: State, t: nat): State
    requires t < |s.txs| && s.txs[t].phase.Routed?
  {
    var route := s.txs[t].phase.route;
    if route.Stop? then s.Move(t, Quiet)
    else if route.Package? && Refusal(s.db.tables, route).Some? then
      s.(txs := s.txs[t := s.txs[t].(phase := Quiet, alerts := Alert(s.db.tables, route))])
    else s.Move(t, Allowed(route))
  }

  function PayIdOf(request: Request): nat {
    if request.EntityOf().Some? then request.EntityOf().value.payId else 0
  }

  /** The committed tables after a transaction that has reached `phase` commits. */
  function Committed(s: Tables, tx: Tx): Tables {
    match tx.phase
    case Capturing(route) => if !route.Stop? && route.order in s.payments then Capture(s, route, PayIdOf(tx.request)) else s
    case Failing(order) =>
      if order in s.payments then
        s.(payments := s.payments[order := s.payments[order].(status := PayFailed, payId := Some(PayIdOf(tx.request)))])
      else s
    case _ => s
  }

  function TxStep(s: State, step: Step): State
    requires step.ByTx() && step.t < |s.txs|
  {
    var t, tx := step.t, s.txs[step.t];
    match step
    case Accept(_) => if tx.phase.Fresh? then AcceptStep(s, t) else s
    case Read(_) => if tx.phase.Accepted? then ReadStep(s, t) else s
    case Check(_) => if tx.phase.Routed? then CheckStep(s, t) else s
    case Update(_) =>
      if !tx.phase.Allowed? || tx.phase.route.Stop? || !s.Unlocked(tx.phase.route.order) then s
      else s.Move(t, if Claimable(s.db.tables, tx.phase.route.order) then Capturing(tx.phase.route) else Quiet)
    case Commit(_) =>
      if !tx.phase.Quiet? && !tx.phase.Capturing? && !tx.phase.Failing? then s
      else
        s.Move(t, Done(true)).(db := Db(Committed(s.db.tables, tx), s.db.events + tx.events, s.db.blocked + tx.alerts))
    case Abort(_) => if tx.Open() then s.Move(t, Done(false)) else s
  }

  /** One step.  A step that is not enabled changes nothing. */
  function Apply(s: State, step: Step): State {
    match step
    case NewOrder(order, payment, notes) =>
      if order in s.db.tables.orders || payment.status != Pending || notes.user != Id(payment.user) then s
      else
        var tables := s.db.tables.(orders := s.db.tables.orders[order := notes],
                                   payments := s.db.tables.payments[order := payment]);
        s.(db := s.db.(tables := tables))
    case SetCatalogue(prices, workshops) =>
      s.(db := s.db.(tables := s.db.tables.(prices := prices, workshops := Relisted(s.db.tables.workshops, workshops))))
    case Arrive(request) => if Honest(s.db.tables, request) then s.(txs := s.txs + [Tx(request, Fresh, {}, map[])]) else s
    case _ => if step.t < |s.txs| then TxStep(s, step) else s
  }

  function Exec(s: State, steps: seq<Step>): State {
    Runs.Exec(Apply, s, steps)
  }

  lemma Next(s: State, steps: seq<Step>, step: Step, t: State)
    requires Apply(Exec(s, steps), step) == t
    ensures Exec(s, steps + [step]) == t
  {
    Runs.ExecSnoc(Apply, s, steps, step);
  }

  /** No payments yet; any workshops and prices. */
  predicate Initial(s: State) {
    && s.txs == [] && s.db.events == {} && s.db.blocked == map[]
    && s.db.tables.orders == map[] && s.db.tables.payments == map[]
    && s.db.tables.purchases == map[] && s.db.tables.entitled == map[]
  }

  // ---------------------------------------------------------------- the ledger

  /** The order's notes name no workshop. */
  predicate IsRetail(notes: Notes) { !notes.workshop.Truthy() }

  /** A captured retail payment of this user for this content. */
  predicate PaysFor(s: Tables, order: nat, key: (nat, nat)) {
    && order in s.payments && order in s.orders
    && s.payments[order].status == Captured && s.payments[order].user == key.0
    && IsRetail(s.orders[order]) && s.orders[order].content == Id(key.1)
  }

  ghost predicate OrdersOk(s: Tables) {
    && s.payments.Keys <= s.orders.Keys
    && (forall o | o in s.payments :: s.orders[o].user == Id(s.payments[o].user))
  }

  /** The user has the purchase and the active entitlement that a captured retail payment buys. */
  ghost predicate Bought(s: Tables, o: nat)
    requires o in s.payments && o in s.orders
  {
    && s.orders[o].content.Id?
    && (s.payments[o].user, s.orders[o].content.value) in s.purchases
    && (s.payments[o].user, s.orders[o].content.value) in s.entitled
  }

  /** Purchases and entitlements are exactly what the captured retail payments bought. */
  ghost predicate LedgerOk(s: Tables) {
    && (forall key | key in s.purchases :: PaysFor(s, s.purchases[key], key))
    && (forall key | key in s.entitled :: s.entitled[key] == Active && key in s.purchases)
    && (forall o | o in s.payments && o in s.orders && s.payments[o].status == Captured && IsRetail(s.orders[o]) ::
          Bought(s, o))
  }

  /** A route says what its order's notes say. */
  ghost predicate RouteOk(s: Tables, route: Route) {
    !route.Stop? ==>
      && route.order in s.payments && route.order in s.orders && s.orders[route.order].content == Id(route.content)
      && (route.Retail? ==> IsRetail(s.orders[route.order]))
      && (route.Package? ==> s.orders[route.order].workshop == Id(route.workshop))
  }

  ghost predicate TxOk(s: Tables, tx: Tx) {
    && (tx.Open() ==> Honest(s, tx.request))
    && (tx.phase.Routed? || tx.phase.Allowed? || tx.phase.Capturing? ==> RouteOk(s, tx.phase.route))
    && (tx.phase.Capturing? ==> !tx.phase.route.Stop? && Claimable(s, tx.phase.route.order))
    && (tx.phase.Failing? ==> Claimable(s, tx.phase.order))
  }

  ghost predicate Apart(s: State, t: nat, u: nat)
    requires t < |s.txs| && u < |s.txs|
  {
    forall o :: !(s.txs[t].phase.Locks(o) && s.txs[u].phase.Locks(o))
  }

  ghost predicate Inv(s: State) {
    && OrdersOk(s.db.tables) && LedgerOk(s.db.tables)
    && (forall t: nat | t < |s.txs| :: TxOk(s.db.tables, s.txs[t]))
    && (forall t: nat, u: nat | t < |s.txs| && u < |s.txs| && t != u :: Apart(s, t, u))
  }

  /** How the tables can change from one commit to the next. */
  ghost predicate Grows(s: Tables, r: Tables) {
    && (forall o | o in s.orders :: o in r.orders && r.orders[o] == s.orders[o])
    && (forall o | o in s.payments :: o in r.payments && r.payments[o].user == s.payments[o].user
                                      && r.payments[o].amount == s.payments[o].amount
                                      && (s.payments[o].status == Pending || r.payments[o] == s.payments[o]))
  }

  lemma CaptureGrows(s: Tables, route: Route, payId: nat)
    requires OrdersOk(s) && !route.Stop? && Claimable(s, route.order)
    ensures Grows(s, Capture(s, route, payId)) && OrdersOk(Capture(s, route, payId))
  {
  }

  lemma RetailBought(s: Tables, route: Route, payId: nat, o: nat)
    requires OrdersOk(s) && LedgerOk(s) && RouteOk(s, route) && route.Retail? && Claimable(s, route.order)
    requires var r := Capture(s, route, payId);
             o in r.payments && o in r.orders && r.payments[o].status == Captured && IsRetail(r.orders[o])
    ensures Bought(Capture(s, route, payId), o)
  {
  }

  lemma RetailKeepsLedger(s: Tables, route: Route, payId: nat)
    requires OrdersOk(s) && LedgerOk(s) && RouteOk(s, route) && route.Retail? && Claimable(s, route.order)
    ensures LedgerOk(Capture(s, route, payId))
  {
    var r := Capture(s, route, payId);
    forall key | key in r.purchases ensures PaysFor(r, r.purchases[key], key) {
    }
    forall o | o in r.payments && o in r.orders && r.payments[o].status == Captured && IsRetail(r.orders[o])
      ensures Bought(r, o)
    {
      RetailBought(s, route, payId, o);
    }
  }

  /** A payment that fails, or pays for a package, leaves purchases and entitlements alone. */
  lemma MoveKeepsLedger(s: Tables, r: Tables, order: nat)
    requires OrdersOk(s) && LedgerOk(s) && Claimable(s, order)
    requires r.orders == s.orders && r.purchases == s.purchases && r.entitled == s.entitled
    requires order in r.payments && r.payments == s.payments[order := r.payments[order]]
    requires r.payments[order].user == s.payments[order].user && r.payments[order].amount == s.payments[order].amount
    requires r.payments[order].status == PayFailed || !IsRetail(s.orders[order])
    ensures OrdersOk(r) && LedgerOk(r) && Grows(s, r)
  {
    forall key | key in r.purchases ensures PaysFor(r, r.purchases[key], key) {
    }
    forall o | o in r.payments && o in r.orders && r.payments[o].status == Captured && IsRetail(r.orders[o])
      ensures Bought(r, o)
    {
      assert o != order && Bought(s, o);
    }
  }

  lemma OrderKeepsLedger(s: Tables, order: nat, payment: Payment, notes: Notes)
    requires OrdersOk(s) && LedgerOk(s) && order !in s.orders
    requires payment.status == Pending && notes.user == Id(payment.user)
    ensures var r := s.(orders := s.orders[order := notes], payments := s.payments[order := payment]);
            OrdersOk(r) && LedgerOk(r) && Grows(s, r)
  {
  }

  lemma PackageKeepsLedger(s: Tables, route: Route, payId: nat)
    requires OrdersOk(s) && LedgerOk(s) && RouteOk(s, route) && route.Package? && Claimable(s, route.order)
    ensures LedgerOk(Capture(s, route, payId))
  {
    MoveKeepsLedger(s, Capture(s, route, payId), route.order);
  }

  lemma CommittedKeepsLedger(s: Tables, tx: Tx)
    requires OrdersOk(s) && LedgerOk(s) && TxOk(s, tx)
    ensures OrdersOk(Committed(s, tx)) && LedgerOk(Committed(s, tx)) && Grows(s, Committed(s, tx))
  {
    if tx.phase.Capturing? {
      var route, payId := tx.phase.route, PayIdOf(tx.request);
      CaptureGrows(s, route, payId);
      if route.Retail? { RetailKeepsLedger(s, route, payId); } else { PackageKeepsLedger(s, route, payId); }
    } else if tx.phase.Failing? {
      MoveKeepsLedger(s, Committed(s, tx), tx.phase.order);
    }
  }

  /** Fulfilment as one atomic step keeps the ledger, and so does a failed payment. */
  lemma FulfilKeepsLedger(s: Tables, e: Entity)
    requires OrdersOk(s) && LedgerOk(s) && Faithful(s.orders, e)
    ensures OrdersOk(Fulfil(s, e)) && LedgerOk(Fulfil(s, e)) && Grows(s, Fulfil(s, e))
  {
    var resolved := Resolve(s.orders, e);
    var route := RouteOf(s, resolved);
    if Fulfil(s, e) != s {
      CaptureGrows(s, route, resolved.payId);
      if route.Retail? { RetailKeepsLedger(s, route, resolved.payId); } else { PackageKeepsLedger(s, route, resolved.payId); }
    }
  }

  lemma FailureKeepsLedger(s: Tables, e: Entity)
    requires OrdersOk(s) && LedgerOk(s)
    ensures OrdersOk(MarkFailed(s, e)) && LedgerOk(MarkFailed(s, e)) && Grows(s, MarkFailed(s, e))
  {
    if MarkFailed(s, e) != s {
      MoveKeepsLedger(s, MarkFailed(s, e), e.order.value);
    }
  }

  ghost predicate Sound(s: Tables) {
    OrdersOk(s) && LedgerOk(s)
  }

  /** A payload that looks retail and whose amount, if it has one, is that of the payment. */
  predicate PassesForRetail(s: Tables, e: Entity, o: nat)
    requires o in s.payments
  {
    LooksRetail(e.notes) && (e.amount.None? || e.amount.value == s.payments[o].amount)
  }

  lemma RetailCaptureOfPackage(s: Tables, o: nat, content: nat, payId: nat)
    requires Sound(s) && Claimable(s, o) && o in s.orders && !IsRetail(s.orders[o])
    ensures var key, after := (s.payments[o].user, content), Capture(s, Retail(o, content), payId);
            && o in after.payments && after.payments[o].status == Captured && key in after.purchases
            && (Sound(after) <==> key in s.purchases)
            && (key !in s.purchases ==> after.purchases[key] == o && !PaysFor(after, o, key))
  {
    var key, after := (s.payments[o].user, content), Capture(s, Retail(o, content), payId);
    if key in s.purchases {
      assert PaysFor(s, s.purchases[key], key) && Bought(s, s.purchases[key]);
      assert after.entitled == s.entitled;
      MoveKeepsLedger(s, after, o);
    } else {
      assert !PaysFor(after, after.purchases[key], key);
    }
  }

  /** The payload of a pending package order that repeats some of its notes keeps the ledger sound unless it
      passes for retail.  Then it captures the payment as a retail one, and the ledger stays sound exactly if
      the user had bought the content before; otherwise there is now a purchase that nobody paid for. */
  lemma PartialPayloadKeepsLedgerIff(s: Tables, e: Entity, o: nat)
    requires Sound(s) && e.order == Some(o) && Claimable(s, o) && o in s.orders && Partial(e.notes, s.orders[o])
    requires s.orders[o].content.Id? && s.orders[o].workshop.Id? && s.orders[o].kind == Some(true)
    ensures var key, after, retail := (s.payments[o].user, s.orders[o].content.value), Fulfil(s, e), PassesForRetail(s, e, o);
            && (Sound(after) <==> !retail || key in s.purchases)
            && (retail ==> o in after.payments && after.payments[o].status == Captured && key in after.purchases)
            && (retail && key !in s.purchases ==> after.purchases[key] == o && !PaysFor(after, o, key))
  {
    WorkshopIsRestoredIff(s.orders, e);
    if PassesForRetail(s, e, o) {
      RetailCaptureOfPackage(s, o, s.orders[o].content.value, e.payId);
    } else if LooksRetail(e.notes) {
      assert Fulfil(s, e) == s;
    } else {
      FulfilKeepsLedger(s, e);
    }
  }

  /** Only a new order, an edit of the catalogue or a commit changes the tables. */
  lemma TablesStep(s: State, step: Step)
    ensures var r := Apply(s, step).db.tables;
            || r == s.db.tables
            || (step.NewOrder? && step.order !in s.db.tables.orders && step.payment.status == Pending
                && step.notes.user == Id(step.payment.user)
                && r == s.db.tables.(orders := s.db.tables.orders[step.order := step.notes],
                                     payments := s.db.tables.payments[step.order := step.payment]))
            || (step.SetCatalogue? && r == s.db.tables.(prices := step.prices, workshops := Relisted(s.db.tables.workshops, step.workshops)))
            || (step.Commit? && step.t < |s.txs| && r == Committed(s.db.tables, s.txs[step.t]))
  {
  }

  lemma LedgerStep(s: State, step: Step)
    requires Inv(s)
    ensures OrdersOk(Apply(s, step).db.tables) && LedgerOk(Apply(s, step).db.tables)
    ensures Grows(s.db.tables, Apply(s, step).db.tables)
  {
    var tables, r := s.db.tables, Apply(s, step).db.tables;
    TablesStep(s, step);
    if r != tables {
      if step.NewOrder? {
        OrderKeepsLedger(tables, step.order, step.payment, step.notes);
      } else if step.SetCatalogue? {
      } else {
        assert TxOk(tables, s.txs[step.t]);
        CommittedKeepsLedger(tables, s.txs[step.t]);
      }
    }
  }

  // ---------------------------------------------------------------- the transactions

  lemma CommittedWritesItsLock(s: Tables, tx: Tx, o: nat)
    requires TxOk(s, tx) && o in s.payments && !tx.phase.Locks(o)
    ensures o in Committed(s, tx).payments && Committed(s, tx).payments[o] == s.payments[o]
  {
    match tx.phase
    case Capturing(route) => assert o != route.order;
    case Failing(order) => assert o != order;
    case _ =>
  }

  /** Only a commit of the transaction that has locked a payment changes it. */
  lemma OnlyHolderWrites(s: State, step: Step, o: nat)
    requires Inv(s) && o in s.db.tables.payments
    requires step.Commit? && step.t < |s.txs| ==> !s.txs[step.t].phase.Locks(o)
    ensures o in Apply(s, step).db.tables.payments
    ensures Apply(s, step).db.tables.payments[o] == s.db.tables.payments[o]
  {
    TablesStep(s, step);
    if step.Commit? && step.t < |s.txs| {
      CommittedWritesItsLock(s.db.tables, s.txs[step.t], o);
    }
  }

  lemma OtherTxStep(s: State, step: Step, t: nat)
    requires Inv(s) && t < |s.txs| && (!step.ByTx() || step.t != t)
    ensures TxOk(Apply(s, step).db.tables, s.txs[t])
  {
    LedgerStep(s, step);
    var tx := s.txs[t];
    assert TxOk(s.db.tables, tx);
    forall o | tx.phase.Locks(o) && o in s.db.tables.payments
      ensures Apply(s, step).db.tables.payments[o] == s.db.tables.payments[o]
    {
      if step.Commit? && step.t < |s.txs| { assert Apart(s, t, step.t); }
      OnlyHolderWrites(s, step, o);
    }
  }

  lemma OwnTxStep(s: State, step: Step)
    requires Inv(s) && step.ByTx() && step.t < |s.txs|
    ensures TxOk(Apply(s, step).db.tables, Apply(s, step).txs[step.t])
  {
    var tx := s.txs[step.t];
    assert TxOk(s.db.tables, tx);
  }

  /** A lock is new only to the transaction that moves, and nobody had it before. */
  lemma LocksStep(s: State, step: Step, t: nat, o: nat)
    requires t < |Apply(s, step).txs| && Apply(s, step).txs[t].phase.Locks(o)
    ensures t < |s.txs| && (s.txs[t].phase.Locks(o) || (step.ByTx() && step.t == t && s.Unlocked(o)))
  {
  }

  lemma ApartStep(s: State, step: Step, t: nat, u: nat)
    requires Inv(s) && t != u && t < |Apply(s, step).txs| && u < |Apply(s, step).txs|
    ensures Apart(Apply(s, step), t, u)
  {
    var r := Apply(s, step);
    if t < |s.txs| && u < |s.txs| { assert Apart(s, t, u); }
    forall o ensures !(r.txs[t].phase.Locks(o) && r.txs[u].phase.Locks(o)) {
      if r.txs[t].phase.Locks(o) { LocksStep(s, step, t, o); }
      if r.txs[u].phase.Locks(o) { LocksStep(s, step, u, o); }
    }
  }

  lemma TxFrame(s: State, step: Step, t: nat)
    requires t < |s.txs| && (!step.ByTx() || step.t != t)
    ensures |s.txs| <= |Apply(s, step).txs| && Apply(s, step).txs[t] == s.txs[t]
  {
  }

  lemma TxStepOk(s: State, step: Step, t: nat)
    requires Inv(s) && t < |Apply(s, step).txs|
    ensures TxOk(Apply(s, step).db.tables, Apply(s, step).txs[t])
  {
    if t >= |s.txs| {
      assert step.Arrive? && Apply(s, step).db == s.db;
    } else if !step.ByTx() || step.t != t {
      TxFrame(s, step, t);
      OtherTxStep(s, step, t);
    } else {
      OwnTxStep(s, step);
    }
  }

  lemma InvStep(s: State, step: Step)
    requires Inv(s)
    ensures Inv(Apply(s, step))
  {
    LedgerStep(s, step);
    var r := Apply(s, step);
    forall t: nat | t < |r.txs| ensures TxOk(r.db.tables, r.txs[t]) { TxStepOk(s, step, t); }
    forall t: nat, u: nat | t < |r.txs| && u < |r.txs| && t != u ensures Apart(r, t, u) { ApartStep(s, step, t, u); }
  }

  lemma InvAlways(s: State, steps: seq<Step>)
    requires Initial(s)
    ensures Inv(Exec(s, steps))
  {
    forall t: State, step: Step | Inv(t) ensures Inv(Apply(t, step)) {
      InvStep(t, step);
    }
    Runs.Always(Apply, Inv, s, steps);
  }

  // ---------------------------------------------------------------- results

  /** In every reachable state: a captured retail payment has its user's purchase, tied to a captured
      payment of that user for that content, and an active entitlement; and there is no purchase
      and no entitlement that a captured retail payment did not pay for, so package payments
      create none. */
  lemma LedgerAlways(s: State, steps: seq<Step>)
    requires Initial(s)
    ensures var r := Exec(s, steps).db.tables;
            && (forall o | o in r.payments && r.payments[o].status == Captured && o in r.orders && IsRetail(r.orders[o]) ::
                  && r.orders[o].content.Id?
                  && var key := (r.payments[o].user, r.orders[o].content.value);
                     key in r.purchases && PaysFor(r, r.purchases[key], key) && key in r.entitled && r.entitled[key] == Active)
            && (forall key | key in r.purchases :: PaysFor(r, r.purchases[key], key))
            && (forall key | key in r.entitled :: exists o :: PaysFor(r, o, key))
  {
    InvAlways(s, steps);
    var r := Exec(s, steps).db.tables;
    forall key | key in r.entitled ensures exists o :: PaysFor(r, o, key) {
      assert PaysFor(r, r.purchases[key], key);
    }
    forall o | o in r.payments && r.payments[o].status == Captured && o in r.orders && IsRetail(r.orders[o])
      ensures Bought(r, o)
    {
    }
  }

  /** How many transactions have committed an outcome for a payment. */
  function Settlements(s: State, steps: seq<Step>, o: nat): nat
    decreases |steps|
  {
    if steps == [] then 0
    else
      var before, step := steps[..|steps| - 1], steps[|steps| - 1];
      var r := Exec(s, before);
      Settlements(s, before, o)
      + if step.Commit? && step.t < |r.txs| && r.txs[step.t].phase.Locks(o) then 1 else 0
  }

  predicate Settled(s: State, o: nat) {
    o in s.db.tables.payments && s.db.tables.payments[o].status != Pending
  }

  lemma CommitSettles(s: State, t: nat, o: nat)
    requires Inv(s) && t < |s.txs| && s.txs[t].phase.Locks(o)
    ensures !Settled(s, o) && Settled(Apply(s, Commit(t)), o)
    ensures var r := Apply(s, Commit(t)).db.tables;
            r == if s.txs[t].phase.Capturing? then Capture(s.db.tables, s.txs[t].phase.route, PayIdOf(s.txs[t].request))
                 else Committed(s.db.tables, s.txs[t])
    ensures Apply(s, Commit(t)).db.tables.payments[o].status == if s.txs[t].phase.Capturing? then Captured else PayFailed
  {
    assert TxOk(s.db.tables, s.txs[t]);
  }

  /** However often a payment is delivered, retried and verified, at most one transaction commits an
      outcome for it, and one has exactly when the payment is no longer pending. */
  lemma {:induction false} SettledOnce(s: State, steps: seq<Step>, o: nat)
    requires Initial(s)
    ensures Settlements(s, steps, o) == if Settled(Exec(s, steps), o) then 1 else 0
    decreases |steps|
  {
    if steps != [] {
      var before, step := steps[..|steps| - 1], steps[|steps| - 1];
      var r := Exec(s, before);
      SettledOnce(s, before, o);
      InvAlways(s, before);
      if step.Commit? && step.t < |r.txs| && r.txs[step.t].phase.Locks(o) {
        CommitSettles(r, step.t, o);
      } else if o in r.db.tables.payments {
        OnlyHolderWrites(r, step, o);
      } else {
        LedgerStep(r, step);
        StillAbsent(r, step, o);
      }
    }
  }

  lemma StillAbsent(s: State, step: Step, o: nat)
    requires Inv(s) && o !in s.db.tables.payments
    ensures !Settled(Apply(s, step), o)
  {
    TablesStep(s, step);
    if step.Commit? && step.t < |s.txs| {
      CommittedAddsNoPayment(s.db.tables, s.txs[step.t]);
    }
  }

  lemma CommittedAddsNoPayment(s: Tables, tx: Tx)
    ensures Committed(s, tx).payments.Keys == s.payments.Keys
  {
    match tx.phase
    case Capturing(route) =>
      if !route.Stop? && route.order in s.payments { CaptureAddsNoPayment(s, route, PayIdOf(tx.request)); }
    case _ =>
  }

  lemma CaptureAddsNoPayment(s: Tables, route: Route, payId: nat)
    requires !route.Stop? && route.order in s.payments
    ensures Capture(s, route, payId).payments.Keys == s.payments.Keys
  {
  }

  /** Captured and failed are final: nothing that happens later changes the payment. */
  lemma {:induction false} SettledIsForever(s: State, first: seq<Step>, later: seq<Step>, o: nat)
    requires Initial(s) && Settled(Exec(s, first), o)
    ensures o in Exec(s, first + later).db.tables.payments
    ensures Exec(s, first + later).db.tables.payments[o] == Exec(s, first).db.tables.payments[o]
  {
    if later == [] {
      assert first + later == first;
    } else {
      var n := |later| - 1;
      SettledIsForever(s, first, later[..n], o);
      assert first + later == (first + later[..n]) + [later[n]];
      Runs.ExecSnoc(Apply, s, first + later[..n], later[n]);
      InvAlways(s, first + later[..n]);
      LedgerStep(Exec(s, first + later[..n]), later[n]);
    }
  }

  /** So a payment that failed once stays unfulfilled even when a second attempt on the same order is
      captured, although verify-capture then answers `fulfilled`. */
  lemma CaptureAfterFailureIsLost(s: Tables, user: nat, order: nat, e: Entity)
    requires order in s.payments && s.payments[order] == Payment(user, s.payments[order].amount, PayFailed, s.payments[order].payId)
    requires e.order == Some(order) && e.captured && e.amount == Some(s.payments[order].amount)
    requires Resolve(s.orders, e).notes.content.Id?
    ensures VerifyAnswer(s, user, order, e) == Fulfilled && Fulfil(s, e) == s
  {
  }

  // ---------------------------------------------------------------- deduplication

  /** What a delivery has written to the dedupe table is not yet committed by anybody. */
  ghost predicate DeliveryOk(s: State, tx: Tx) {
    tx.request.HookRequest? && tx.Open() ==>
      if tx.events == {} then (tx.phase.Fresh? || tx.phase.Quiet?) && tx.alerts == map[]
      else tx.events == {Hook(tx.request.event)} && Hook(tx.request.event) !in s.db.events
  }

  ghost predicate OneRecorder(s: State, t: nat, u: nat)
    requires t < |s.txs| && u < |s.txs|
  {
    s.txs[t].request.HookRequest? && s.txs[u].request.HookRequest? && s.txs[t].Open() && s.txs[u].Open() ==>
      s.txs[t].events !! s.txs[u].events
  }

  ghost predicate DedupeOk(s: State) {
    && (forall t: nat | t < |s.txs| :: DeliveryOk(s, s.txs[t]))
    && (forall t: nat | t < |s.txs| && s.txs[t].request.VerifyRequest? :: forall id | id in s.txs[t].events :: id.VerifyCapture?)
    && (forall t: nat, u: nat | t < |s.txs| && u < |s.txs| && t != u :: OneRecorder(s, t, u))
  }

  lemma RecorderStep(s: State, step: Step, t: nat, u: nat)
    requires DedupeOk(s) && t != u && t < |Apply(s, step).txs| && u < |Apply(s, step).txs|
    ensures OneRecorder(Apply(s, step), t, u)
  {
    if t < |s.txs| && u < |s.txs| {
      assert OneRecorder(s, t, u);
    }
  }

  lemma DeliveryStep(s: State, step: Step, t: nat)
    requires DedupeOk(s) && t < |Apply(s, step).txs|
    ensures DeliveryOk(Apply(s, step), Apply(s, step).txs[t])
  {
    if t < |s.txs| {
      assert DeliveryOk(s, s.txs[t]);
      if step.Commit? && step.t < |s.txs| && step.t != t {
        assert DeliveryOk(s, s.txs[step.t]) && OneRecorder(s, step.t, t);
        assert s.txs[step.t].request.VerifyRequest? ==> forall id | id in s.txs[step.t].events :: id.VerifyCapture?;
      }
    }
  }

  lemma DedupeStep(s: State, step: Step)
    requires DedupeOk(s)
    ensures DedupeOk(Apply(s, step))
  {
    var r := Apply(s, step);
    forall t: nat | t < |r.txs| ensures DeliveryOk(r, r.txs[t]) { DeliveryStep(s, step, t); }
    forall t: nat, u: nat | t < |r.txs| && u < |r.txs| && t != u ensures OneRecorder(r, t, u) { RecorderStep(s, step, t, u); }
  }

  lemma DedupeAlways(s: State, steps: seq<Step>)
    requires Initial(s)
    ensures DedupeOk(Exec(s, steps))
  {
    forall r: State, step: Step | DedupeOk(r) ensures DedupeOk(Apply(r, step)) {
      DedupeStep(r, step);
    }
    Runs.Always(Apply, DedupeOk, s, steps);
  }

  /** Re-delivering a committed event, at any later point of a run, cannot change anything: such a
      delivery holds no lock and has nothing to commit. */
  lemma RedeliveryChangesNothing(s: State, steps: seq<Step>, t: nat)
    requires Initial(s)
    requires var r := Exec(s, steps);
             t < |r.txs| && r.txs[t].request.HookRequest? && Hook(r.txs[t].request.event) in r.db.events && r.txs[t].Open()
    ensures var r := Exec(s, steps);
            && Apply(r, Commit(t)).db == r.db
            && (forall o :: !r.txs[t].phase.Locks(o))
            && (Apply(r, Accept(t)).txs[t].phase.Quiet?)
  {
    DedupeAlways(s, steps);
    var r := Exec(s, steps);
    assert DeliveryOk(r, r.txs[t]);
  }

  /** A delivery that is rolled back leaves nothing behind, and the gateway's retry is taken up as if
      the first attempt had never been. */
  lemma RolledBackDeliveryIsRetried(s: State, steps: seq<Step>, t: nat)
    requires Initial(s)
    requires var r := Exec(s, steps);
             t < |r.txs| && r.txs[t].request.HookRequest? && r.txs[t].events == {Hook(r.txs[t].request.event)} && r.txs[t].Open()
    ensures var r := Exec(s, steps);
            var undone := Apply(r, Abort(t));
            var again := Apply(undone, Arrive(r.txs[t].request));
            && undone.db == r.db
            && |again.txs| == |r.txs| + 1
            && Apply(again, Accept(|r.txs|)).txs[|r.txs|] == Tx(r.txs[t].request, Accepted, r.txs[t].events, map[])
  {
    InvAlways(s, steps);
    DedupeAlways(s, steps);
    var r := Exec(s, steps);
    assert TxOk(r.db.tables, r.txs[t]) && DeliveryOk(r, r.txs[t]);
    var undone := Apply(r, Abort(t));
    var again := Apply(undone, Arrive(r.txs[t].request));
    forall u: nat | u < |again.txs| && again.txs[u].Open() ensures Hook(r.txs[t].request.event) !in again.txs[u].events {
      if u < |r.txs| {
        assert again.txs[u] == r.txs[u] && OneRecorder(r, t, u);
        assert r.txs[u].request.VerifyRequest? ==> forall id | id in r.txs[u].events :: id.VerifyCapture?;
      }
    }
    assert !again.BeingRecorded(Hook(r.txs[t].request.event));
  }

  // ---------------------------------------------------------------- one transaction at a time

  /** All the steps of one transaction, in the order of the code. */
  function Solo(s: State, t: nat): State {
    Apply(Apply(Apply(Apply(Apply(s, Accept(t)), Read(t)), Check(t)), Update(t)), Commit(t))
  }

  ghost predicate Alone(s: State, t: nat) {
    && t < |s.txs| && s.txs[t].phase.Fresh? && s.txs[t].events == {} && s.txs[t].alerts == map[]
    && forall u: nat | u < |s.txs| && u != t :: !s.txs[u].Open()
  }

  /** The steps after Accept, for a transaction whose entity is to be fulfilled. */
  lemma SoloFulfil(s: State, t: nat, e: Entity)
    requires t < |s.txs| && s.txs[t].phase.Accepted? && s.txs[t].alerts == map[]
    requires s.txs[t].request.EntityOf() == Some(e) && (s.txs[t].request.HookRequest? ==> s.txs[t].request.kind.PaymentCaptured?)
    requires forall u: nat | u < |s.txs| && u != t :: !s.txs[u].Open()
    ensures var r := Apply(Apply(Apply(Apply(s, Read(t)), Check(t)), Update(t)), Commit(t));
            r.db == FulfilDb(s.db, e).(events := s.db.events + s.txs[t].events)
  {
    var route := RouteOf(s.db.tables, Resolve(s.db.tables.orders, e));
    var s1 := Apply(s, Read(t));
    assert s1 == s.Move(t, Routed(route));
    SoloChecked(s1, t);
    assert Resolve(s.db.tables.orders, e).payId == PayIdOf(s.txs[t].request);
  }

  /** The steps after Read. */
  lemma SoloChecked(s: State, t: nat)
    requires t < |s.txs| && s.txs[t].phase.Routed? && s.txs[t].alerts == map[]
    requires s.txs[t].phase.route.Stop? || s.txs[t].phase.route.order in s.db.tables.payments
    requires forall u: nat | u < |s.txs| && u != t :: !s.txs[u].Open()
    ensures var r, route := Apply(Apply(Apply(s, Check(t)), Update(t)), Commit(t)), s.txs[t].phase.route;
            r.db == Db(Settle(s.db.tables, route, PayIdOf(s.txs[t].request)), s.db.events + s.txs[t].events,
                       s.db.blocked + Alert(s.db.tables, route))
  {
    var route := s.txs[t].phase.route;
    var s2 := Apply(s, Check(t));
    if !route.Stop? && !(route.Package? && Refusal(s.db.tables, route).Some?) {
      assert s2.txs[t].phase == Allowed(route) && s2.db == s.db;
      assert s2.Unlocked(route.order);
    } else {
      assert s2.txs[t].phase == Quiet && Apply(s2, Update(t)) == s2;
    }
  }

  /** An uninterrupted webhook delivery commits what `Webhook` says. */
  lemma SoloWebhook(s: State, t: nat)
    requires Alone(s, t) && s.txs[t].request.HookRequest?
    ensures var HookRequest(event, kind, e) := s.txs[t].request;
            Solo(s, t).db == Webhook(s.db, event, kind, e)
  {
    var HookRequest(event, kind, e) := s.txs[t].request;
    var s1 := Apply(s, Accept(t));
    if Hook(event) in s.db.events {
      assert s1.txs[t].phase == Quiet && Apply(Apply(Apply(s1, Read(t)), Check(t)), Update(t)) == s1;
    } else {
      assert !s.BeingRecorded(Hook(event));
      assert s1.txs[t].phase == Accepted && s1.txs[t].events == {Hook(event)};
      if e.Some? && kind.PaymentCaptured? {
        SoloFulfil(s1, t, e.value);
      } else {
        SoloOther(s1, t);
      }
    }
  }

  lemma SoloOther(s: State, t: nat)
    requires t < |s.txs| && s.txs[t].phase.Accepted? && s.txs[t].alerts == map[] && s.txs[t].request.HookRequest?
    requires s.txs[t].request.e.None? || !s.txs[t].request.kind.PaymentCaptured?
    requires forall u: nat | u < |s.txs| && u != t :: !s.txs[u].Open()
    ensures var r := Apply(Apply(Apply(Apply(s, Read(t)), Check(t)), Update(t)), Commit(t));
            var HookRequest(event, kind, e) := s.txs[t].request;
            var tables := if e.Some? && kind.PaymentFailed? then MarkFailed(s.db.tables, e.value) else s.db.tables;
            r.db == s.db.(tables := tables, events := s.db.events + s.txs[t].events)
  {
  }

  /** An uninterrupted verify-capture request commits what `Verify` says. */
  lemma SoloVerify(s: State, t: nat)
    requires Alone(s, t) && s.txs[t].request.VerifyRequest?
    ensures var VerifyRequest(user, order, v) := s.txs[t].request;
            Solo(s, t).db == Verify(s.db, user, order, v)
  {
    var VerifyRequest(user, order, v) := s.txs[t].request;
    var s1 := Apply(s, Accept(t));
    FulfilTwiceIsOnce(s.db.tables, v);
    if VerifyAnswer(s.db.tables, user, order, v).Fulfilled? {
      assert s1.txs[t].phase == Accepted;
      SoloFulfil(s1, t, v);
    } else {
      assert Apply(Apply(Apply(s1, Read(t)), Check(t)), Update(t)) == s1;
    }
  }
}
