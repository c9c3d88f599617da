/**
 Cohort package orders with each request as one atomic step: which payment a workshop is
 linked to, for what amount, and when a captured order is accepted.
 */
module PackageOrders {
  import opened Wrappers
  import opened Payments
  import Runs

  datatype OrderError = NotFound | IsArchived | SeatCapTooSmall | NoActivePrice

  /** create_order_for_workshop: one order for seat_cap times the unit price, whose notes name the
      workshop.  `order` is the fresh id that the gateway returns. */
  function CreatePackageOrder(s: Tables, order: nat, user: nat, workshop: nat, listed: bool): Result<Tables, OrderError> {
    if workshop !in s.workshops then Err(NotFound)
    else
      var w := s.workshops[workshop];
      if w.archived then Err(IsArchived)
      else if w.seatCap < 1 then Err(SeatCapTooSmall)
      else if w.content !in s.prices || !listed then Err(NoActivePrice)
      else
        var payment := Payment(user, s.prices[w.content] * w.seatCap, Pending, None);
        Ok(s.(orders := s.orders[order := Notes(Id(user), Id(w.content), Id(workshop), Some(true))],
              payments := s.payments[order := payment]))
  }

  datatype Request =
    | Deliver(event: nat, kind: EventKind, e: Option<Entity>)
    | VerifyCapture(user: nat, order: nat, v: Entity)
    | OrderPackage(id: nat, buyer: nat, workshop: nat, listed: bool)
    | OrderRetail(id: nat, buyer: nat, content: nat)
    | SetPrice(content: nat, price: Option<int>)
    | CreateWorkshop(workshop: nat, content: nat, seatCap: int)
    | PatchWorkshop(workshop: nat, seatCap: int, archived: bool)   // not the payment fields

  function WithTables(db: Db, tables: Tables): Db { db.(tables := tables) }

  /** One request.  A request that is refused changes nothing. */
  function Apply(db: Db, request: Request): Db {
    var s := db.tables;
    match request
    case Deliver(event, kind, e) => Webhook(db, event, kind, e)
    case VerifyCapture(user, order, v) => Verify(db, user, order, v)
    case OrderPackage(id, buyer, workshop, listed) =>
      var created := CreatePackageOrder(s, id, buyer, workshop, listed);
      if id in s.orders || created.Err? then db else WithTables(db, created.value)
    case OrderRetail(id, buyer, content) =>
      if id in s.orders || content !in s.prices then db
      else
        WithTables(db, s.(orders := s.orders[id := Notes(Id(buyer), Id(content), Absent, None)],
                          payments := s.payments[id := Payment(buyer, s.prices[content], Pending, None)]))
    case SetPrice(content, price) =>
      WithTables(db, s.(prices := if price.None? then s.prices - {content} else s.prices[content := price.value]))
    case CreateWorkshop(workshop, content, seatCap) =>
      if workshop in s.workshops then db
      else WithTables(db, s.(workshops := s.workshops[workshop := Workshop(content, seatCap, false, None, false)]))
    case PatchWorkshop(workshop, seatCap, archived) =>
      if workshop !in s.workshops then db
      else
        var w := s.workshops[workshop].(seatCap := seatCap, archived := archived);
        WithTables(db, s.(workshops := s.workshops[workshop := w]))
  }

  function Exec(db: Db, requests: seq<Request>): Db {
    Runs.Exec(Apply, db, requests)
  }

  /** When a package is ordered, and what for: an active workshop with seats and a listed price, for as many times
      the price as the workshop has seats.  A refusal names the first of these that is missing. */
  lemma PackageIsOrderedIff(s: Tables, order: nat, user: nat, workshop: nat, listed: bool)
    ensures var outcome := CreatePackageOrder(s, order, user, workshop, listed);
            && (outcome == Err(NotFound) <==> workshop !in s.workshops)
            && (outcome == Err(IsArchived) <==> workshop in s.workshops && s.workshops[workshop].archived)
            && (outcome == Err(SeatCapTooSmall) <==>
                  workshop in s.workshops && !s.workshops[workshop].archived && s.workshops[workshop].seatCap < 1)
            && (outcome == Err(NoActivePrice) <==>
                  && workshop in s.workshops && !s.workshops[workshop].archived && s.workshops[workshop].seatCap >= 1
                  && (s.workshops[workshop].content !in s.prices || !listed))
            && (outcome.Ok? ==>
                  var t, w := outcome.value, s.workshops[workshop];
                  && t.payments == s.payments[order := Payment(user, w.seatCap * s.prices[w.content], Pending, None)]
                  && t.orders == s.orders[order := Notes(Id(user), Id(w.content), Id(workshop), Some(true))]
                  && t.purchases == s.purchases && t.entitled == s.entitled && t.workshops == s.workshops && t.prices == s.prices)
  {
  }

  /** A retail order is for the price of its content, and its notes name no workshop. */
  lemma RetailIsOrderedIff(db: Db, id: nat, buyer: nat, content: nat)
    ensures var s, after := db.tables, Apply(db, OrderRetail(id, buyer, content));
            && (after != db ==>
                  && id !in s.orders && content in s.prices
                  && after.tables.payments == s.payments[id := Payment(buyer, s.prices[content], Pending, None)]
                  && after.tables.orders == s.orders[id := Notes(Id(buyer), Id(content), Absent, None)]
                  && after.tables.purchases == s.purchases && after.tables.entitled == s.entitled
                  && after.tables.workshops == s.workshops && after.tables.prices == s.prices)
            && (id !in s.orders && content in s.prices ==> id in after.tables.orders)
  {
  }

  /** A fulfilment either leaves a workshop's link alone or sets it, and it sets it only with a payment
      that this very request captures, from no other link, and for seat_cap times the unit price. */
  lemma FulfilLinks(s: Tables, e: Entity, workshop: nat)
    ensures var before, after := LinkOf(s, workshop), LinkOf(Fulfil(s, e), workshop);
            after != before ==>
              && e.order.Some? && after == e.order && before.None?
              && Claimable(s, after.value) && Fulfil(s, e).payments[after.value].status == Captured
              && workshop in s.workshops && !s.workshops[workshop].archived
              && s.workshops[workshop].content in s.prices
              && s.payments[after.value].amount == s.workshops[workshop].seatCap * s.prices[s.workshops[workshop].content]
  {
  }

  lemma LinkStep(db: Db, request: Request, workshop: nat)
    requires LinkOf(db.tables, workshop).Some?
    ensures LinkOf(Apply(db, request).tables, workshop) == LinkOf(db.tables, workshop)
  {
    var s := db.tables;
    match request
    case Deliver(event, kind, e) => if e.Some? { FulfilLinks(s, e.value, workshop); }
    case VerifyCapture(user, order, v) => FulfilLinks(s, Resolve(s.orders, v), workshop);
    case _ =>
  }

  /** A linked workshop stays linked to the same payment, whatever is requested later. */
  lemma {:induction false} LinkIsForever(db: Db, requests: seq<Request>, workshop: nat)
    requires LinkOf(db.tables, workshop).Some?
    ensures LinkOf(Exec(db, requests).tables, workshop) == LinkOf(db.tables, workshop)
  {
    if requests != [] {
      LinkIsForever(db, requests[..|requests| - 1], workshop);
      LinkStep(Exec(db, requests[..|requests| - 1]), requests[|requests| - 1], workshop);
    }
  }

  /** Over any run, the payments that a workshop is ever linked to are at most one. */
  lemma AtMostOneLink(db: Db, requests: seq<Request>, i: nat, j: nat, workshop: nat)
    requires i <= j <= |requests|
    ensures var early, late := LinkOf(Exec(db, requests[..i]).tables, workshop), LinkOf(Exec(db, requests[..j]).tables, workshop);
            early.Some? ==> late == early
  {
    assert requests[..j] == requests[..i] + requests[i..j];
    Runs.ExecAppend(Apply, db, requests[..i], requests[i..j]);
    if LinkOf(Exec(db, requests[..i]).tables, workshop).Some? {
      LinkIsForever(Exec(db, requests[..i]), requests[i..j], workshop);
    }
  }

  /** The workshop and price that an order was made for are as they were. */
  predicate Unchanged(before: Tables, after: Tables, workshop: nat, order: nat)
    requires workshop in before.workshops
  {
    var w := before.workshops[workshop];
    && workshop in after.workshops && !after.workshops[workshop].archived
    && after.workshops[workshop].content == w.content && after.workshops[workshop].seatCap == w.seatCap
    && w.content in before.prices && w.content in after.prices && after.prices[w.content] == before.prices[w.content]
    && (after.workshops[workshop].payment.None? || after.workshops[workshop].payment == Some(order))
  }

  /** An order that is captured while cap, price, content, archiving and the absence of another link
      are unchanged is always accepted: the payment is captured and the workshop linked to it. */
  lemma UnchangedOrderIsLinked(before: Tables, order: nat, user: nat, workshop: nat, listed: bool, after: Tables, e: Entity)
    requires CreatePackageOrder(before, order, user, workshop, listed).Ok?
    requires var made := CreatePackageOrder(before, order, user, workshop, listed).value;
             && order in after.payments && after.payments[order] == made.payments[order]
             && order in after.orders && after.orders[order] == made.orders[order]
    requires Unchanged(before, after, workshop, order)
    requires e.order == Some(order) && Faithful(after.orders, e) && Partial(e.notes, after.orders[order])
    requires e.amount.None? || e.amount.value == after.payments[order].amount
    ensures var done := Fulfil(after, e);
            && done.payments[order].status == Captured
            && LinkOf(done, workshop) == Some(order) && done.workshops[workshop].paid
            && done.purchases == after.purchases && done.entitled == after.entitled
  {
    var content := before.workshops[workshop].content;
    assert Refusal(after, Package(order, content, workshop)).None?;
    assert Fulfil(after, e) == Capture(after, Package(order, content, workshop), Resolve(after.orders, e).payId);
  }

  /** And only then: an order that is captured and linked has been matched against the workshop as it
      is at that moment. */
  lemma LinkedOnlyIfMatching(s: Tables, order: nat, workshop: nat, e: Entity)
    requires order in s.payments && s.payments[order].status == Pending
    requires order in s.orders && s.orders[order] == Notes(Id(s.payments[order].user), s.orders[order].content, Id(workshop), Some(true))
    requires s.orders[order].content.Id?
    requires e.order == Some(order) && Faithful(s.orders, e) && Partial(e.notes, s.orders[order])
    requires e.amount.None? || e.amount.value == s.payments[order].amount
    ensures var content := s.orders[order].content.value;
            Fulfil(s, e).payments[order].status == Captured <==>
              && workshop in s.workshops && !s.workshops[workshop].archived
              && s.workshops[workshop].content == content && s.workshops[workshop].seatCap >= 1
              && content in s.prices && s.payments[order].amount == s.prices[content] * s.workshops[workshop].seatCap
              && (s.workshops[workshop].payment.None? || s.workshops[workshop].payment == Some(order))
    ensures Fulfil(s, e).payments[order].status == Captured <==> LinkOf(Fulfil(s, e), workshop) == Some(order) && Fulfil(s, e) != s
  {
  }
}
