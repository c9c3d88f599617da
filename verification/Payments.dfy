/**
 Razorpay fulfilment: what one captured or failed payment entity does to the tables.

 A payment row is identified by its gateway order.  Individual entitlements only: cohort
 seats are in the workshop modules.
 */
module Payments {
  import opened Wrappers

  /** A value in the notes of a Razorpay object: missing, empty, not an id, or an id. */
  datatype Note = Absent | Blank | Malformed | Id(value: nat) {
    predicate Truthy() { Malformed? || Id? }
  }

  datatype Notes = Notes(user: Note, content: Note, workshop: Note, kind: Option<bool>)  // kind: is it `workshop`?

  datatype Entity = Entity(payId: nat, order: Option<nat>, amount: Option<int>, captured: bool, notes: Notes)

  datatype PayStatus = Pending | Captured | PayFailed

  datatype Payment = Payment(user: nat, amount: int, status: PayStatus, payId: Option<nat>)

  datatype Workshop = Workshop(content: nat, seatCap: int, archived: bool, payment: Option<nat>, paid: bool)

  datatype EntStatus = Active | Expired | Revoked

  /** Ids from the gateway, and the ids under which verify-capture records itself. */
  datatype EventId = Hook(id: nat) | VerifyCapture(payId: nat)

  datatype Reason = GoneOrArchived | ContentMismatch | BadCap | NoPrice | WrongAmount | LinkedElsewhere

  /** The tables that payments end up in, and the notes that the gateway holds for each order. */
  datatype Tables = Tables(
    orders: map<nat, Notes>,
    payments: map<nat, Payment>,
    purchases: map<(nat, nat), nat>,         // (user, content) to payment
    entitled: map<(nat, nat), EntStatus>,
    workshops: map<nat, Workshop>,
    prices: map<nat, int>)                   // active prices by content

  /** With the dedupe table, and the captures that the operations feed reports as not linked: one row for
      each payment, with the reason of its last refusal. */
  datatype Db = Db(tables: Tables, events: set<EventId>, blocked: map<nat, Reason>)

  // ---------------------------------------------------------------- notes

  function Or(a: Note, b: Note): Note { if a.Absent? then b else a }

  /** {**order_notes, **payment_notes} */
  function Merge(order: Notes, payment: Notes): Notes {
    Notes(Or(payment.user, order.user), Or(payment.content, order.content), Or(payment.workshop, order.workshop),
          if payment.kind.Some? then payment.kind else order.kind)
  }

  predicate NeedsFetch(notes: Notes) {
    !notes.content.Truthy() || (notes.kind == Some(true) && !notes.workshop.Truthy())
  }

  /** merge_payment_notes_from_order */
  function Resolve(orders: map<nat, Notes>, e: Entity): Entity {
    if e.order.Some? && e.order.value in orders && NeedsFetch(e.notes) then e.(notes := Merge(orders[e.order.value], e.notes)) else e
  }

  /** The payload repeats some of the order's notes and drops the others. */
  predicate Partial(notes: Notes, order: Notes) {
    && (notes.user == Absent || notes.user == order.user)
    && (notes.content == Absent || notes.content == order.content)
    && (notes.workshop == Absent || notes.workshop == order.workshop)
    && (notes.kind == None || notes.kind == order.kind)
  }

  /** A payload that reaches fulfilment with the content and the workshop its order was created for. */
  predicate Faithful(orders: map<nat, Notes>, e: Entity) {
    e.order.Some? ==>
      e.order.value in orders &&
      var resolved, order := Resolve(orders, e).notes, orders[e.order.value];
      resolved.content == order.content && resolved.workshop == order.workshop
  }

  /** The payload of a package that keeps the content but drops both the workshop and the kind. */
  predicate LooksRetail(notes: Notes) {
    notes.content.Id? && notes.workshop.Absent? && notes.kind.None?
  }

  /** Notes dropped from the payload of a retail or a cohort package order are restored, except in a package
      payload that looks retail: that one is taken for a retail payment. */
  lemma WorkshopIsRestoredIff(orders: map<nat, Notes>, e: Entity)
    requires e.order.Some? && e.order.value in orders && Partial(e.notes, orders[e.order.value])
    requires var order := orders[e.order.value];
             order.workshop.Absent? || (order.content.Id? && order.workshop.Id? && order.kind == Some(true))
    ensures Faithful(orders, e) <==> !(orders[e.order.value].workshop.Id? && LooksRetail(e.notes))
    ensures LooksRetail(e.notes) ==> Resolve(orders, e).notes.content.Id? && Resolve(orders, e).notes.workshop.Absent?
  {
  }

  // ---------------------------------------------------------------- _fulfill_payment_captured

  /** What the reads and checks before the workshop check decide. */
  datatype Route = Stop | Retail(order: nat, content: nat) | Package(order: nat, content: nat, workshop: nat)

  function RouteOf(s: Tables, e: Entity): Route {
    if e.order.None? || e.order.value !in s.payments then Stop
    else
      var order, payment := e.order.value, s.payments[e.order.value];
      if e.notes.user.Truthy() && e.notes.user != Id(payment.user) then Stop
      else if !e.notes.content.Id? then Stop
      else if e.notes.workshop.Malformed? then Stop
      else if payment.status == Captured then Stop
      else if e.amount.Some? && e.amount.value != payment.amount then Stop
      else if e.notes.workshop.Id? then Package(order, e.notes.content.value, e.notes.workshop.value)
      else Retail(order, e.notes.content.value)
  }

  /** _workshop_package_capture_allowed: the reason for refusing, if there is one. */
  function Refusal(s: Tables, route: Route): Option<Reason>
    requires route.Package?
  {
    if route.workshop !in s.workshops || s.workshops[route.workshop].archived then Some(GoneOrArchived)
    else
      var w := s.workshops[route.workshop];
      if w.content != route.content then Some(ContentMismatch)
      else if w.seatCap < 1 then Some(BadCap)
      else if route.content !in s.prices then Some(NoPrice)
      else if route.order !in s.payments || s.payments[route.order].amount != s.prices[route.content] * w.seatCap then
        Some(WrongAmount)
      else if w.payment.Some? && w.payment.value != route.order then Some(LinkedElsewhere)
      else None
  }

  /** The row that UPDATE payments ... WHERE status = 'pending' RETURNING finds. */
  predicate Claimable(s: Tables, order: nat) {
    order in s.payments && s.payments[order].status == Pending
  }

  /** Everything that is committed together with a capture. */
  function Capture(s: Tables, route: Route, payId: nat): Tables
    requires !route.Stop? && route.order in s.payments
  {
    var payment := s.payments[route.order].(status := Captured, payId := Some(payId));
    var d := s.(payments := s.payments[route.order := payment]);
    if route.Package? then
      if route.workshop in s.workshops then
        d.(workshops := s.workshops[route.workshop := s.workshops[route.workshop].(payment := Some(route.order), paid := true)])
      else d
    else
      var key := (payment.user, route.content);
      d.(purchases := if key in s.purchases then s.purchases else s.purchases[key := route.order],
         entitled := s.entitled[key := Active])
  }

  /** The rest of fulfilment after the reads, in one go. */
  function Settle(s: Tables, route: Route, payId: nat): Tables {
    if route.Stop? || (route.Package? && Refusal(s, route).Some?) || !Claimable(s, route.order) then s
    else Capture(s, route, payId)
  }

  /** The feed row for a package capture that is refused. */
  function Alert(s: Tables, route: Route): map<nat, Reason> {
    if route.Package? && Refusal(s, route).Some? then map[route.order := Refusal(s, route).value] else map[]
  }

  function Fulfil(s: Tables, e: Entity): Tables {
    var resolved := Resolve(s.orders, e);
    Settle(s, RouteOf(s, resolved), resolved.payId)
  }

  /** _mark_payment_failed */
  function MarkFailed(s: Tables, e: Entity): Tables {
    if e.order.Some? && Claimable(s, e.order.value) then
      var payment := s.payments[e.order.value];
      s.(payments := s.payments[e.order.value := payment.(status := PayFailed, payId := Some(e.payId))])
    else s
  }

  /** The payment that a workshop is linked to. */
  function LinkOf(s: Tables, workshop: nat): Option<nat> {
    if workshop in s.workshops then s.workshops[workshop].payment else None
  }

  // ---------------------------------------------------------------- requests

  datatype EventKind = PaymentCaptured | PaymentFailed | OtherEvent

  /** _fulfill_payment_captured with its feed row. */
  function FulfilDb(db: Db, e: Entity): Db {
    var route := RouteOf(db.tables, Resolve(db.tables.orders, e));
    db.(tables := Fulfil(db.tables, e), blocked := db.blocked + Alert(db.tables, route))
  }

  /** The committed effect of a webhook delivery that does not raise. */
  function Webhook(db: Db, event: nat, kind: EventKind, e: Option<Entity>): Db {
    if Hook(event) in db.events then db
    else
      var d := db.(events := db.events + {Hook(event)});
      if e.None? then d
      else match kind
        case PaymentCaptured => FulfilDb(d, e.value)
        case PaymentFailed => d.(tables := MarkFailed(d.tables, e.value))
        case OtherEvent => d
  }

  datatype Answer = Fulfilled | AlreadyFulfilled | NotCaptured | BadRequest

  /** What verify_capture_and_fulfill answers; a bad request is rolled back. */
  function VerifyAnswer(s: Tables, user: nat, order: nat, e: Entity): Answer {
    if order !in s.payments || s.payments[order].user != user then BadRequest
    else if s.payments[order].status == Captured then AlreadyFulfilled
    else if !e.captured then NotCaptured
    else if e.order.Some? && e.order.value != order then BadRequest
    else if e.amount.Some? && e.amount.value != s.payments[order].amount then BadRequest
    else if !Resolve(s.orders, e).notes.content.Truthy() then BadRequest
    else Fulfilled
  }

  /** The insert of the synthetic event, whose exceptions verify-capture swallows.  A statement that
      fails has aborted the transaction, so that the COMMIT that follows is a rollback without an error. */
  datatype EventInsert = Stored | NotSent | StatementFailed

  /** The committed effect of a verify-capture request that does not raise otherwise. */
  function VerifyWith(db: Db, user: nat, order: nat, e: Entity, insert: EventInsert): Db {
    if !VerifyAnswer(db.tables, user, order, e).Fulfilled? || insert.StatementFailed? then db
    else
      var d := FulfilDb(db, Resolve(db.tables.orders, e));
      if insert.Stored? then d.(events := d.events + {VerifyCapture(e.payId)}) else d
  }

  function Verify(db: Db, user: nat, order: nat, e: Entity): Db {
    VerifyWith(db, user, order, e, Stored)
  }

  // ---------------------------------------------------------------- fulfilment, column by column

  /** The payment is for all seats of an active workshop of this content that no other payment is linked to. */
  ghost predicate PaysForAllSeats(s: Tables, order: nat, content: nat, workshop: nat) {
    && order in s.payments && workshop in s.workshops && content in s.prices
    && !s.workshops[workshop].archived && s.workshops[workshop].content == content && s.workshops[workshop].seatCap >= 1
    && s.payments[order].amount == s.prices[content] * s.workshops[workshop].seatCap
    && (s.workshops[workshop].payment == None || s.workshops[workshop].payment == Some(order))
  }

  /** Which defect of a package capture is reported: the first one, in the order of the checks. */
  lemma RefusalIsTheFirstDefect(s: Tables, order: nat, content: nat, workshop: nat)
    requires order in s.payments
    ensures var refusal := Refusal(s, Package(order, content, workshop));
            && (refusal == None <==> PaysForAllSeats(s, order, content, workshop))
            && (refusal == Some(GoneOrArchived) <==> workshop !in s.workshops || s.workshops[workshop].archived)
            && (workshop in s.workshops && !s.workshops[workshop].archived ==>
                  var w := s.workshops[workshop];
                  && (refusal == Some(ContentMismatch) <==> w.content != content)
                  && (refusal == Some(BadCap) <==> w.content == content && w.seatCap < 1)
                  && (refusal == Some(NoPrice) <==> w.content == content && w.seatCap >= 1 && content !in s.prices)
                  && (refusal == Some(WrongAmount) <==>
                        && w.content == content && w.seatCap >= 1 && content in s.prices
                        && s.payments[order].amount != s.prices[content] * w.seatCap)
                  && (refusal == Some(LinkedElsewhere) <==>
                        && w.content == content && w.seatCap >= 1 && content in s.prices
                        && s.payments[order].amount == s.prices[content] * w.seatCap
                        && w.payment != None && w.payment != Some(order)))
  {
  }

  /** The notes with which a payment reaches fulfilment agree with the payment row. */
  ghost predicate NotesFit(s: Tables, e: Entity, o: nat)
    requires o in s.payments
  {
    var notes := Resolve(s.orders, e).notes;
    && e.order == Some(o) && (e.amount == None || e.amount == Some(s.payments[o].amount))
    && (notes.user == Absent || notes.user == Blank || notes.user == Id(s.payments[o].user))
    && notes.content.Id? && notes.workshop != Malformed
  }

  lemma RouteFits(s: Tables, e: Entity, o: nat)
    requires o in s.payments && s.payments[o].status != Captured && e.order == Some(o)
    ensures var notes, route := Resolve(s.orders, e).notes, RouteOf(s, Resolve(s.orders, e));
            route == if !NotesFit(s, e, o) then Stop
                     else if notes.workshop.Id? then Package(o, notes.content.value, notes.workshop.value)
                     else Retail(o, notes.content.value)
  {
  }

  /** A payment becomes captured exactly if it is pending, the entity is for this order and amount, its notes
      agree, and, for a package, it pays for all seats; a payment that is not pending never changes. */
  lemma FulfilCapturesIff(s: Tables, e: Entity, o: nat)
    requires o in s.payments
    ensures var notes, after := Resolve(s.orders, e).notes, Fulfil(s, e);
            && o in after.payments
            && (s.payments[o].status != Pending ==> after.payments[o] == s.payments[o])
            && (s.payments[o].status == Pending ==>
                  (after.payments[o].status == Captured <==>
                     NotesFit(s, e, o) && (notes.workshop.Id? ==> PaysForAllSeats(s, o, notes.content.value, notes.workshop.value))))
  {
    var notes := Resolve(s.orders, e).notes;
    if s.payments[o].status == Pending && e.order == Some(o) {
      RouteFits(s, e, o);
      if NotesFit(s, e, o) && notes.workshop.Id? { RefusalIsTheFirstDefect(s, o, notes.content.value, notes.workshop.value); }
    }
  }

  /** What a capture stores, and nothing else: the gateway's id of the payment and, for a package, the link of
      its workshop, or else the purchase, unless the user had it, and the active entitlement. */
  lemma FulfilStores(s: Tables, e: Entity)
    ensures var notes, after := Resolve(s.orders, e).notes, Fulfil(s, e);
            after != s ==>
              && e.order.Some? && e.order.value in s.payments && notes.content.Id?
              && var o := e.order.value;
                 var key := (s.payments[o].user, notes.content.value);
                 && s.payments[o].status == Pending && after.orders == s.orders && after.prices == s.prices
                 && after.payments == s.payments[o := Payment(s.payments[o].user, s.payments[o].amount, Captured, Some(e.payId))]
                 && (notes.workshop.Id? ==>
                       && after.purchases == s.purchases && after.entitled == s.entitled && notes.workshop.value in s.workshops
                       && var w := s.workshops[notes.workshop.value];
                          after.workshops == s.workshops[notes.workshop.value :=
                                               Workshop(w.content, w.seatCap, w.archived, Some(o), true)])
                 && (!notes.workshop.Id? ==>
                       && after.workshops == s.workshops && after.entitled == s.entitled[key := Active]
                       && after.purchases == if key in s.purchases then s.purchases else s.purchases[key := o])
  {
  }

  /** A refused package capture is reported, with its reason; nothing else is. */
  lemma RefusalIsReported(db: Db, e: Entity)
    ensures var notes, s, after := Resolve(db.tables.orders, e).notes, db.tables, FulfilDb(db, e);
            && after.events == db.events
            && (after.blocked != db.blocked ==> e.order.Some? && e.order.value in s.payments && after.tables == s)
            && (e.order.Some? && e.order.value in s.payments && s.payments[e.order.value].status != Captured
                && NotesFit(s, e, e.order.value) && notes.workshop.Id? ==>
                  var refusal := Refusal(s, Package(e.order.value, notes.content.value, notes.workshop.value));
                  after.blocked == if refusal.None? then db.blocked else db.blocked[e.order.value := refusal.value])
  {
  }

  /** The order is one of this user's. */
  ghost predicate Own(s: Tables, user: nat, order: nat) {
    order in s.payments && s.payments[order].user == user
  }

  /** The gateway has captured a payment for this order, of its amount, with a content in its notes or, where
      those lack it, in the order's. */
  ghost predicate CapturedFor(s: Tables, order: nat, e: Entity)
    requires order in s.payments
  {
    && e.captured && (e.order == None || e.order == Some(order)) && (e.amount == None || e.amount == Some(s.payments[order].amount))
    && (e.notes.content.Id? || e.notes.content == Malformed
        || (e.notes.content == Absent && e.order.Some? && e.order.value in s.orders
            && (s.orders[e.order.value].content.Id? || s.orders[e.order.value].content == Malformed)))
  }

  /** When verify-capture answers what: in particular, a payment that the gateway has not captured is never
      answered `fulfilled`. */
  lemma VerifyAnswerIff(s: Tables, user: nat, order: nat, e: Entity)
    ensures var answer := VerifyAnswer(s, user, order, e);
            && (answer == AlreadyFulfilled <==> Own(s, user, order) && s.payments[order].status == Captured)
            && (answer == NotCaptured <==> Own(s, user, order) && s.payments[order].status != Captured && !e.captured)
            && (answer == Fulfilled <==> Own(s, user, order) && s.payments[order].status != Captured && CapturedFor(s, order, e))
  {
  }

  /** What a delivery does: its event id is recorded, and the kind of event alone decides the rest. */
  lemma WebhookDispatches(db: Db, event: nat, kind: EventKind, e: Option<Entity>)
    requires Hook(event) !in db.events
    ensures var after := Webhook(db, event, kind, e);
            && after.events == db.events + {Hook(event)}
            && after.tables == (if kind == PaymentCaptured && e.Some? then Fulfil(db.tables, e.value)
                                else if kind == PaymentFailed && e.Some? then MarkFailed(db.tables, e.value)
                                else db.tables)
            && (after.blocked != db.blocked ==> kind == PaymentCaptured && e.Some? && after.blocked == FulfilDb(db, e.value).blocked)
  {
  }

  // ---------------------------------------------------------------- results

  /** Fulfilling a second time changes nothing, and neither does merging the notes twice. */
  lemma FulfilTwiceIsOnce(s: Tables, e: Entity)
    ensures Fulfil(Fulfil(s, e), e) == Fulfil(s, e) == Fulfil(s, Resolve(s.orders, e))
  {
    var route := RouteOf(s, Resolve(s.orders, e));
    if Fulfil(s, e) != s {
      assert Fulfil(s, e).payments[route.order].status == Captured;
      assert RouteOf(Fulfil(s, e), Resolve(s.orders, e)) == Stop;
    }
  }

  /** Webhook first or verify-capture first: the same captured entity leads to the same payments,
      purchases, entitlements and workshops, namely to those of fulfilling it once. */
  lemma WebhookAndVerifyCommute(db: Db, event: nat, user: nat, order: nat, e: Entity)
    requires e.order == Some(order) && e.captured && Hook(event) !in db.events
    ensures Verify(Webhook(db, event, PaymentCaptured, Some(e)), user, order, e).tables
            == Webhook(Verify(db, user, order, e), event, PaymentCaptured, Some(e)).tables
            == Fulfil(db.tables, e)
  {
    FulfilTwiceIsOnce(db.tables, e);
    FulfilTwiceIsOnce(Fulfil(db.tables, e), e);
  }

  /** For a request that nobody interrupts, the answer `fulfilled` is true, in that the payment is captured
      afterwards, exactly when the payment was still pending, none of the silent returns of fulfilment
      applies, and the insert of the synthetic event has not aborted the transaction. */
  lemma FulfilledIsTrueIff(db: Db, user: nat, order: nat, e: Entity, insert: EventInsert)
    requires VerifyAnswer(db.tables, user, order, e) == Fulfilled
    ensures var s, after := db.tables, VerifyWith(db, user, order, e, insert).tables;
            var notes := Resolve(s.orders, e).notes;
            order in after.payments &&
            (after.payments[order].status == Captured <==>
               && !insert.StatementFailed?
               && e.order == Some(order) && s.payments[order].status == Pending
               && (notes.user.Truthy() ==> notes.user == Id(user))
               && notes.content.Id? && !notes.workshop.Malformed?
               && (notes.workshop.Id? ==> PaysForAllSeats(s, order, notes.content.value, notes.workshop.value)))
  {
    FulfilledTables(db, user, order, e, insert);
    FulfilCapturesIff(db.tables, e, order);
  }

  lemma VerifyStores(db: Db, user: nat, order: nat, e: Entity, insert: EventInsert)
    ensures var answer, after := VerifyAnswer(db.tables, user, order, e), VerifyWith(db, user, order, e, insert);
            && (!answer.Fulfilled? || insert.StatementFailed? ==> after == db)
            && (answer.Fulfilled? && !insert.StatementFailed? ==>
                  && after.tables == Fulfil(db.tables, e)
                  && after.events == db.events + if insert.Stored? then {VerifyCapture(e.payId)} else {})
  {
    if VerifyAnswer(db.tables, user, order, e).Fulfilled? { FulfilledTables(db, user, order, e, insert); }
  }

  lemma FulfilledTables(db: Db, user: nat, order: nat, e: Entity, insert: EventInsert)
    requires VerifyAnswer(db.tables, user, order, e) == Fulfilled
    ensures VerifyWith(db, user, order, e, insert).tables == if insert.StatementFailed? then db.tables else Fulfil(db.tables, e)
  {
    FulfilTwiceIsOnce(db.tables, e);
  }

  /** The failing input that no earlier check can see: everything is in order, the insert of the synthetic
      event fails, `fulfilled` is answered, and nothing at all is stored. */
  lemma FulfilledButRolledBack(db: Db, user: nat, order: nat, e: Entity)
    requires VerifyAnswer(db.tables, user, order, e) == Fulfilled && Fulfil(db.tables, e) != db.tables
    ensures VerifyWith(db, user, order, e, StatementFailed) == db != VerifyWith(db, user, order, e, Stored)
  {
    FulfilledTables(db, user, order, e, Stored);
  }

  /** A delivery whose event id has been recorded changes nothing. */
  lemma RedeliveryIsNoop(db: Db, event: nat, kind: EventKind, e: Option<Entity>, kind': EventKind, e': Option<Entity>)
    ensures Webhook(Webhook(db, event, kind, e), event, kind', e') == Webhook(db, event, kind, e)
  {
  }
}
