/**
 The billing code as it runs against one database session, request by request: every method
 does to the tables what the functions of `Payments` say, and an exception undoes all of it.
 */
module Billing {
  import opened Wrappers
  import P = Payments
  import Ledger = PaymentRaces

  datatype HookAnswer = Processed | Duplicate | Failed500

  datatype VerifyResult = Answered(answer: P.Answer) | Error500

  /** What raises in a verify-capture request. */
  datatype VerifyLuck = VerifyLuck(fulfilmentRaises: bool, insert: P.EventInsert, commitRaises: bool) {
    predicate Raises() { fulfilmentRaises || commitRaises }
  }

  class BillingDatabase {
    var orders: map<nat, P.Notes>
    var payments: map<nat, P.Payment>
    var purchases: map<(nat, nat), nat>
    var entitled: map<(nat, nat), P.EntStatus>
    var workshops: map<nat, P.Workshop>
    var prices: map<nat, int>
    var events: set<P.EventId>
    var blocked: map<nat, P.Reason>

    function Tables(): P.Tables
      reads this
    {
      P.Tables(orders, payments, purchases, entitled, workshops, prices)
    }

    function View(): P.Db
      reads this
    {
      P.Db(Tables(), events, blocked)
    }

    constructor (workshops: map<nat, P.Workshop>, prices: map<nat, int>)
      ensures View() == P.Db(P.Tables(map[], map[], map[], map[], workshops, prices), {}, map[])
    {
      orders, payments, purchases, entitled := map[], map[], map[], map[];
      this.workshops, this.prices := workshops, prices;
      events, blocked := {}, map[];
    }

    /** ROLLBACK to what was committed. */
    method Rollback(saved: P.Db)
      modifies this
      ensures View() == saved
    {
      orders, payments, purchases := saved.tables.orders, saved.tables.payments, saved.tables.purchases;
      entitled, workshops, prices := saved.tables.entitled, saved.tables.workshops, saved.tables.prices;
      events, blocked := saved.events, saved.blocked;
    }

    /** record_webhook_event */
    method RecordWebhookEvent(id: P.EventId) returns (first: bool)
      modifies this`events
      ensures first == (id !in old(events)) && events == old(events) + {id}
    {
      first := id !in events;
      events := events + {id};
    }

    /** merge_payment_notes_from_order: nothing but the notes changes; a note that the payment has is never
        overridden; and when the order is fetched, every note that the payment lacks is the order's. */
    method MergePaymentNotes(e: P.Entity) returns (merged: P.Entity)
      ensures merged == P.Resolve(orders, e)
      ensures merged.(notes := e.notes) == e
      ensures !e.notes.user.Absent? ==> merged.notes.user == e.notes.user
      ensures !e.notes.content.Absent? ==> merged.notes.content == e.notes.content
      ensures !e.notes.workshop.Absent? ==> merged.notes.workshop == e.notes.workshop
      ensures e.notes.kind.Some? ==> merged.notes.kind == e.notes.kind
      ensures merged != e ==>
                && e.order.Some? && e.order.value in orders && P.Partial(e.notes, merged.notes)
                && (e.notes.content in {P.Absent, P.Blank} || (e.notes.kind == Some(true) && e.notes.workshop in {P.Absent, P.Blank}))
      ensures e.order.Some? && e.order.value in orders
              && (e.notes.content in {P.Absent, P.Blank} || (e.notes.kind == Some(true) && e.notes.workshop in {P.Absent, P.Blank})) ==>
                var order := orders[e.order.value];
                && (e.notes.user.Absent? ==> merged.notes.user == order.user)
                && (e.notes.content.Absent? ==> merged.notes.content == order.content)
                && (e.notes.workshop.Absent? ==> merged.notes.workshop == order.workshop)
                && (e.notes.kind.None? ==> merged.notes.kind == order.kind)
    {
      merged := e;
      if e.order.Some? && e.order.value in orders && P.NeedsFetch(e.notes) {
        merged := e.(notes := P.Merge(orders[e.order.value], e.notes));
      }
    }

    /** _workshop_package_capture_allowed: a capture is let through exactly when it pays for all seats of an
        active workshop of this content that is not linked to another payment; and then it links it. */
    method PackageCaptureRefusal(order: nat, content: nat, workshop: nat) returns (refusal: Option<P.Reason>)
      requires order in payments
      ensures refusal == P.Refusal(Tables(), P.Package(order, content, workshop))
      ensures refusal.None? <==>
                && workshop in workshops && !workshops[workshop].archived && workshops[workshop].content == content
                && workshops[workshop].seatCap >= 1
                && content in prices && payments[order].amount == prices[content] * workshops[workshop].seatCap
                && P.LinkOf(Tables(), workshop) in {None, Some(order)}
      ensures refusal.None? ==> P.LinkOf(P.Capture(Tables(), P.Package(order, content, workshop), 0), workshop) == Some(order)
    {
      refusal := None;
      if workshop !in workshops || workshops[workshop].archived { return Some(P.GoneOrArchived); }
      var w := workshops[workshop];
      if w.content != content { return Some(P.ContentMismatch); }
      if w.seatCap < 1 { return Some(P.BadCap); }
      if content !in prices { return Some(P.NoPrice); }
      var expected := prices[content] * w.seatCap;
      if payments[order].amount != expected { return Some(P.WrongAmount); }
      if w.payment.Some? && w.payment.value != order { return Some(P.LinkedElsewhere); }
    }

    /** The purchase and the entitlement of a captured retail payment: a purchase the user had keeps its
        payment, and nobody else's purchase or entitlement changes. */
    method GrantRetail(order: nat, content: nat)
      requires order in payments
      modifies this`purchases, this`entitled
      ensures var key := (payments[order].user, content);
              && purchases == (if key in old(purchases) then old(purchases) else old(purchases)[key := order])
              && entitled == old(entitled)[key := P.Active]
              && key in purchases && (forall k | k in old(purchases) :: k in purchases && purchases[k] == old(purchases)[k])
              && (key !in old(purchases) ==> purchases[key] == order)
    {
      var key := (payments[order].user, content);
      if key !in purchases {
        purchases := purchases[key := order];
      }
      entitled := entitled[key := P.Active];
    }

    /** _link_workshop_payment_captured */
    method LinkWorkshopPayment(workshop: nat, order: nat)
      modifies this`workshops
      ensures workshops == if workshop in old(workshops)
                           then old(workshops)[workshop := old(workshops)[workshop].(payment := Some(order), paid := true)]
                           else old(workshops)
    {
      if workshop in workshops {
        workshops := workshops[workshop := workshops[workshop].(payment := Some(order), paid := true)];
      }
    }

    /** _fulfill_payment_captured: all of its early returns leave the tables alone.  Purchases and
        entitlements stay exactly what captured retail payments bought, for an entity with its order's notes. */
    method FulfillPaymentCaptured(entity: P.Entity)
      modifies this
      ensures View() == P.FulfilDb(old(View()), entity)
      ensures Ledger.Sound(old(Tables())) && P.Faithful(old(orders), entity) ==>
                Ledger.Sound(Tables()) && Ledger.Grows(old(Tables()), Tables())
    {
      ghost var before := View();
      Fulfill(entity);
      if Ledger.Sound(before.tables) && P.Faithful(before.tables.orders, entity) {
        Ledger.FulfilKeepsLedger(before.tables, entity);
      }
    }

    /** The checks on the payment row and the notes. */
    method RouteOf(e: P.Entity) returns (route: P.Route)
      ensures route == P.RouteOf(Tables(), e)
    {
      if e.order.None? || e.order.value !in payments { return P.Stop; }
      var order, row := e.order.value, payments[e.order.value];
      if e.notes.user.Truthy() && e.notes.user != P.Id(row.user) { return P.Stop; }
      if !e.notes.content.Id? { return P.Stop; }
      if e.notes.workshop.Malformed? { return P.Stop; }
      if row.status == P.Captured { return P.Stop; }
      if e.amount.Some? && e.amount.value != row.amount { return P.Stop; }
      route := if e.notes.workshop.Id? then P.Package(order, e.notes.content.value, e.notes.workshop.value)
               else P.Retail(order, e.notes.content.value);
    }

    /** The workshop check, the UPDATE of the pending payment, and its effects. */
    method Settle(route: P.Route, payId: nat)
      requires !route.Stop? && route.order in payments
      modifies this
      ensures View() == old(View().(tables := P.Settle(Tables(), route, payId), blocked := blocked + P.Alert(Tables(), route)))
    {
      var order := route.order;
      if route.Package? {
        var refusal := PackageCaptureRefusal(order, route.content, route.workshop);
        if refusal.Some? {
          blocked := blocked[order := refusal.value];
          return;
        }
      }
      if payments[order].status != P.Pending { return; }
      payments := payments[order := payments[order].(status := P.Captured, payId := Some(payId))];
      if route.Package? {
        LinkWorkshopPayment(route.workshop, order);
      } else {
        GrantRetail(order, route.content);
      }
    }

    /** The statements of _fulfill_payment_captured. */
    method Fulfill(entity: P.Entity)
      modifies this
      ensures View() == P.FulfilDb(old(View()), entity)
    {
      var e := MergePaymentNotes(entity);
      var route := RouteOf(e);
      if !route.Stop? { Settle(route, e.payId); }
    }

    /** _mark_payment_failed */
    method MarkPaymentFailed(e: P.Entity)
      modifies this`payments
      ensures View() == old(View()).(tables := P.MarkFailed(old(Tables()), e))
      ensures payments == if e.order.Some? && e.order.value in old(payments) && old(payments)[e.order.value].status == P.Pending
                          then old(payments)[e.order.value := P.Payment(old(payments)[e.order.value].user,
                                                                        old(payments)[e.order.value].amount,
                                                                        P.PayFailed, Some(e.payId))]
                          else old(payments)
      ensures Ledger.Sound(old(Tables())) ==> Ledger.Sound(Tables()) && Ledger.Grows(old(Tables()), Tables())
    {
      if Ledger.Sound(Tables()) { Ledger.FailureKeepsLedger(Tables(), e); }
      if e.order.Some? && e.order.value in payments && payments[e.order.value].status == P.Pending {
        payments := payments[e.order.value := payments[e.order.value].(status := P.PayFailed, payId := Some(e.payId))];
      }
    }

    /** razorpay_webhook: the dedupe row and the fulfilment commit together or not at all, so a delivery
        that raised can be sent again; and the ledger stays sound. */
    method RazorpayWebhook(event: nat, kind: P.EventKind, e: Option<P.Entity>, raises: bool) returns (answer: HookAnswer)
      modifies this
      ensures answer == if P.Hook(event) in old(events) then Duplicate else if raises then Failed500 else Processed
      ensures View() == if answer.Processed? then P.Webhook(old(View()), event, kind, e) else old(View())
      ensures answer.Processed? ==>
                && events == old(events) + {P.Hook(event)}
                && Tables() == if kind == P.PaymentCaptured && e.Some? then P.Fulfil(old(Tables()), e.value)
                               else if kind == P.PaymentFailed && e.Some? then P.MarkFailed(old(Tables()), e.value)
                               else old(Tables())
      ensures Ledger.Sound(old(Tables())) && (e.Some? ==> P.Faithful(old(orders), e.value)) ==>
                Ledger.Sound(Tables()) && Ledger.Grows(old(Tables()), Tables())
    {
      if Ledger.Sound(Tables()) && (e.Some? ==> P.Faithful(orders, e.value)) {
        if e.Some? {
          Ledger.FulfilKeepsLedger(Tables(), e.value);
          Ledger.FailureKeepsLedger(Tables(), e.value);
        }
      }
      if P.Hook(event) !in events { P.WebhookDispatches(View(), event, kind, e); }
      answer := Deliver(event, kind, e, raises);
    }

    method Deliver(event: nat, kind: P.EventKind, e: Option<P.Entity>, raises: bool) returns (answer: HookAnswer)
      modifies this
      ensures answer == if P.Hook(event) in old(events) then Duplicate else if raises then Failed500 else Processed
      ensures View() == if answer.Processed? then P.Webhook(old(View()), event, kind, e) else old(View())
    {
      var saved := View();
      var first := RecordWebhookEvent(P.Hook(event));
      if !first {
        assert events == saved.events;
        return Duplicate;
      }
      if e.Some? {
        match kind {
          case PaymentCaptured => Fulfill(e.value);
          case PaymentFailed => MarkPaymentFailed(e.value);
          case OtherEvent =>
        }
      }
      if raises {
        Rollback(saved);
        return Failed500;
      }
      answer := Processed;
    }

    /** verify_capture with verify_capture_and_fulfill.  An exception of fulfilment or of the commit is an
        error 500.  An exception of the event insert is swallowed: `fulfilled` is answered whatever it was,
        and when the statement had failed, the commit stores nothing. */
    method VerifyCapture(user: nat, order: nat, e: P.Entity, luck: VerifyLuck) returns (result: VerifyResult)
      modifies this
      ensures result == Answered(P.AlreadyFulfilled) <==>
                order in old(payments) && old(payments)[order].user == user && old(payments)[order].status == P.Captured
      ensures result == Answered(P.NotCaptured) <==>
                && order in old(payments) && old(payments)[order].user == user && old(payments)[order].status != P.Captured
                && !e.captured
      ensures result == Answered(P.Fulfilled) || result == Error500 <==>
                && order in old(payments) && old(payments)[order].user == user && old(payments)[order].status != P.Captured
                && P.CapturedFor(old(Tables()), order, e)
      ensures result == Error500 ==> luck.Raises()
      ensures result == Answered(P.Fulfilled) ==> !luck.Raises()
      ensures !e.captured || !result.Answered? || !result.answer.Fulfilled? || luck.insert.StatementFailed? ==> View() == old(View())
      ensures View() == if result.Error500? then old(View()) else P.VerifyWith(old(View()), user, order, e, luck.insert)
      ensures result == Answered(P.Fulfilled) && !luck.insert.StatementFailed? ==>
                && Tables() == P.Fulfil(old(Tables()), e)
                && events == old(events) + if luck.insert.Stored? then {P.VerifyCapture(e.payId)} else {}
      ensures Ledger.Sound(old(Tables())) && P.Faithful(old(orders), e) ==>
                Ledger.Sound(Tables()) && Ledger.Grows(old(Tables()), Tables())
    {
      P.VerifyAnswerIff(Tables(), user, order, e);
      P.VerifyStores(View(), user, order, e, luck.insert);
      if Ledger.Sound(Tables()) && P.Faithful(orders, e) {
        Ledger.FulfilKeepsLedger(Tables(), e);
      }
      result := Verify(user, order, e, luck);
    }

    method Verify(user: nat, order: nat, e: P.Entity, luck: VerifyLuck) returns (result: VerifyResult)
      modifies this
      ensures var answer := P.VerifyAnswer(old(Tables()), user, order, e);
              && result == (if answer.Fulfilled? && luck.Raises() then Error500 else Answered(answer))
              && View() == (if result.Error500? then old(View()) else P.VerifyWith(old(View()), user, order, e, luck.insert))
    {
      if order !in payments || payments[order].user != user { return Answered(P.BadRequest); }
      if payments[order].status == P.Captured { return Answered(P.AlreadyFulfilled); }
      if !e.captured { return Answered(P.NotCaptured); }
      if e.order.Some? && e.order.value != order { return Answered(P.BadRequest); }
      if e.amount.Some? && e.amount.value != payments[order].amount { return Answered(P.BadRequest); }
      var merged := MergePaymentNotes(e);
      if !merged.notes.content.Truthy() { return Answered(P.BadRequest); }
      var saved := View();
      Fulfill(merged);
      if luck.fulfilmentRaises {
        Rollback(saved);
        return Error500;
      }
      if luck.insert.Stored? {
        var _ := RecordWebhookEvent(P.VerifyCapture(e.payId));
      }
      if luck.commitRaises || luck.insert.StatementFailed? {
        Rollback(saved);
      }
      result := if luck.commitRaises then Error500 else Answered(P.Fulfilled);
    }
  }
}
