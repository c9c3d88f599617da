/**
 The invite and seat requests as they run against one database session: every method does to the
 tables what the functions of `Invites` say, with the trigger of `Seats` behind each seat, and an
 exception undoes all of it.
 */
module WorkshopDesk {
  import opened Wrappers
  import I = Invites
  import S = Seats

  datatype Reply = Done | Refused(error: I.Error) | Error500

  /** What a request answers: an exception on the way to the commit is an error 500. */
  function ReplyTo(outcome: Result<I.State, I.Error>, raises: bool): Reply {
    if outcome.Err? then Refused(outcome.error) else if raises then Error500 else Done
  }

  /** What a request leaves behind. */
  function Committed(before: I.State, outcome: Result<I.State, I.Error>, raises: bool): I.State {
    if outcome.Ok? && !raises then outcome.value else before
  }

  class WorkshopDesk {
    var now: int
    var workshops: map<nat, I.Workshop>
    var invites: seq<I.Invite>
    var issued: set<string>
    const seats: S.EntitlementTable

    function View(): I.State
      reads this, seats
    {
      I.State(now, workshops, seats.View(), invites, issued)
    }

    constructor (now: int, workshops: map<nat, I.Workshop>)
      ensures fresh(seats) && S.Exact(seats.View())
      ensures View() == I.State(now, workshops, S.State(map[], map w | w in workshops :: 0), [], {})
      ensures (forall w | w in workshops :: workshops[w].seatCap >= 0) ==> Sound()
    {
      this.now, this.workshops := now, workshops;
      invites, issued := [], {};
      var table := new S.EntitlementTable(map[], workshops.Keys);
      seats := table;
      new;
      forall w | w in workshops ensures S.ActiveIn(map[], w) == {} {}
      assert seats.used == map w | w in workshops :: 0;
    }

    /** assert_can_grant_seat: the counter first, then the count itself.  With an exact counter nothing is
        refused exactly if the workshop is open and its active entitlements leave a seat. */
    method SeatRefusal(w: nat) returns (refusal: Option<I.Error>)
      requires w in workshops
      ensures refusal == I.GrantRefusal(View(), w)
      ensures S.Exact(seats.View()) && w in seats.used ==>
                (refusal.None? <==> I.OpenForGrants(View(), w) && |S.ActiveIn(seats.rows, w)| < workshops[w].seatCap)
      ensures refusal.None? ==> I.OpenForGrants(View(), w) && |S.ActiveIn(seats.rows, w)| < workshops[w].seatCap
    {
      if S.Exact(seats.View()) && w in seats.used { I.GrantRefusalIff(View(), w); }
      var workshop := workshops[w];
      if workshop.archived { return Some(I.Archived); }
      if !I.PaymentAllows(workshop) { return Some(I.PaymentMissing); }
      if workshop.startAt.Some? && now < workshop.startAt.value { return Some(I.NotStarted); }
      if workshop.endAt.Some? && now > workshop.endAt.value { return Some(I.Ended); }
      var used := if w in seats.used then seats.used[w] else 0;
      if workshop.seatCap <= 0 { return Some(I.CapIsZero); }
      if used >= workshop.seatCap { return Some(I.CapReached); }
      var count := |S.ActiveIn(seats.rows, w)|;
      if count >= workshop.seatCap { return Some(I.CapReached); }
      refusal := None;
    }

    /** grant_workshop_seat: the upsert, and with it the trigger. */
    method UpsertSeat(w: nat, user: nat)
      requires w in workshops && S.Exact(seats.View())
      modifies seats
      ensures seats.View() == old(I.Seated(View(), w, user).seats) && S.Exact(seats.View())
      ensures w in seats.used ==> I.SeatGiven(old(View()), View(), w, user)
    {
      if w in seats.used { I.SeatedGives(View(), w, user); }
      var key := S.Key(user, workshops[w].content, Some(w));
      if key in seats.rows {
        var kept := seats.rows[key].validUntil;
        seats.UpdateRow(key, key, S.Row(S.Active, now, if workshops[w].endAt.Some? then workshops[w].endAt else kept));
      } else {
        seats.InsertRow(key, S.Row(S.Active, now, workshops[w].endAt));
      }
    }

    /** What every request keeps of a sound database. */
    ghost predicate Sound()
      reads this, seats
    {
      I.Inv(View())
    }

    /** The statements of the grant-seat endpoint. */
    method GrantStatements(w: nat, user: nat, raises: bool) returns (reply: Reply)
      requires S.Exact(seats.View())
      modifies this, seats
      ensures reply == ReplyTo(I.GrantSeat(old(View()), w, user), raises)
      ensures View() == Committed(old(View()), I.GrantSeat(old(View()), w, user), raises)
      ensures S.Exact(seats.View())
    {
      if w !in workshops { return Refused(I.WorkshopNotFound); }
      var refusal := SeatRefusal(w);
      if refusal.Some? { return Refused(refusal.value); }
      var saved := seats.View();
      UpsertSeat(w, user);
      if raises {
        seats.Rollback(saved);
        return Error500;
      }
      reply := Done;
    }

    /** The grant-seat endpoint: when it reports success the user has the seat, and the cap still holds. */
    method GrantSeat(w: nat, user: nat, raises: bool) returns (reply: Reply)
      requires Sound()
      modifies this, seats
      ensures Sound()
      ensures reply == ReplyTo(I.GrantSeat(old(View()), w, user), raises)
      ensures View() == Committed(old(View()), I.GrantSeat(old(View()), w, user), raises)
      ensures reply.Done? ==> w in old(workshops) && I.HasSeat(View(), w, user) && I.SeatGiven(old(View()), View(), w, user)
      ensures reply.Refused? <==>
                !(&& w in old(workshops) && I.OpenForGrants(old(View()), w)
                  && |S.ActiveIn(old(seats.rows), w)| < old(workshops)[w].seatCap)
    {
      I.GrantFacts(View(), w, user);
      reply := GrantStatements(w, user, raises);
    }

    /** create_invite: a unique violation rolls back.  An invite is made only where it finds a seat that
        neither an entitlement nor another pending invite takes. */
    method CreateInvite(w: nat, email: string, token: string, days: int, raises: bool) returns (reply: Reply)
      modifies this
      ensures var outcome := I.CreateInvite(old(View()), w, email, token, days);
              reply == ReplyTo(outcome, raises) && View() == Committed(old(View()), outcome, raises)
      ensures reply.Done? ==> w in workshops && I.Used(View(), w) + |I.PendingFor(invites, w)| <= workshops[w].seatCap
      ensures reply.Done? ==>
                invites == old(invites) +
                           [I.Invite(w, email, I.Sha256(token), I.Pending, now + (if days > 1 then days else 1) * 86400, None)]
      ensures old(Sound()) && token !in old(issued) ==> Sound()
    {
      if Sound() && token !in issued { I.InvStep(View(), I.Create(w, email, token, days)); }
      if w !in workshops { return Refused(I.WorkshopNotFound); }
      var refusal := SeatRefusal(w);
      if refusal.Some? { return Refused(refusal.value); }
      var pending := |I.PendingFor(invites, w)|;
      var used := if w in seats.used then seats.used[w] else 0;
      if used + pending >= workshops[w].seatCap { return Refused(I.NoRoomForInvite); }
      if I.Collides(invites, w, email, token) { return Refused(I.DuplicateInvite); }
      if raises { return Error500; }
      I.PendingAfterAppend(invites, I.Invite(w, email, I.Sha256(token), I.Pending, I.Expiry(now, days), None), w);
      issued := issued + {token};
      invites := invites + [I.Invite(w, email, I.Sha256(token), I.Pending, I.Expiry(now, days), None)];
      reply := Done;
    }

    /** resend_invite: the invite is reached by its new token, and by the old one no more. */
    method ResendInvite(w: nat, i: nat, token: string, days: int, raises: bool) returns (reply: Reply)
      modifies this
      ensures var outcome := I.ResendInvite(old(View()), w, i, token, days);
              reply == ReplyTo(outcome, raises) && View() == Committed(old(View()), outcome, raises)
      ensures old(Sound()) && token !in old(issued) ==> Sound()
      ensures old(Sound()) && token !in old(issued) && reply.Done? ==>
                i < |old(invites)| && I.Spent(View(), old(invites)[i].digest.raw) && !I.Spent(View(), token)
    {
      if Sound() && token !in issued {
        I.InvStep(View(), I.Resend(w, i, token, days));
        if I.ResendInvite(View(), w, i, token, days).Ok? { I.ResendSpends(View(), w, i, token, days); }
      }
      if w !in workshops { return Refused(I.WorkshopNotFound); }
      if i >= |invites| || invites[i].workshop != w { return Refused(I.InviteNotFound); }
      if invites[i].status != I.Pending { return Refused(I.NotPending); }
      if exists j | 0 <= j < |invites| && j != i :: invites[j].digest == I.Sha256(token) { return Refused(I.TokenInUse); }
      if raises { return Error500; }
      issued := issued + {token};
      invites := invites[i := invites[i].(digest := I.Sha256(token), expiresAt := I.Expiry(now, days))];
      reply := Done;
    }

    /** revoke_invite: one guarded UPDATE, after which the invite's token is dead. */
    method RevokeInvite(w: nat, i: nat, raises: bool) returns (reply: Reply)
      modifies this
      ensures var outcome := I.RevokeInvite(old(View()), w, i);
              reply == ReplyTo(outcome, raises) && View() == Committed(old(View()), outcome, raises)
      ensures old(Sound()) ==> Sound()
      ensures old(Sound()) && reply.Done? ==> i < |old(invites)| && I.Spent(View(), old(invites)[i].digest.raw)
    {
      if Sound() {
        I.InvStep(View(), I.Revoke(w, i));
        if I.RevokeInvite(View(), w, i).Ok? { I.RevokeSpends(View(), w, i); }
      }
      if i >= |invites| || invites[i].workshop != w || invites[i].status != I.Pending { return Refused(I.InviteNotFound); }
      if raises { return Error500; }
      invites := invites[i := invites[i].(status := I.Revoked)];
      reply := Done;
    }

    /** The statements of redeem_invite. */
    method RedeemStatements(user: nat, email: string, token: string, raises: bool) returns (reply: Reply)
      requires S.Exact(seats.View())
      modifies this, seats
      ensures var outcome := I.RedeemInvite(old(View()), user, email, token);
              reply == ReplyTo(outcome, raises) && View() == Committed(old(View()), outcome, raises)
      ensures S.Exact(seats.View())
    {
      if |token| < I.MIN_TOKEN_LENGTH { return Refused(I.InvalidToken); }
      var found := I.Lookup(View(), token, |invites|);
      if found.None? { return Refused(I.InviteNotFound); }
      var i := found.value;
      var invite := invites[i];
      if now > invite.expiresAt { return Refused(I.InviteExpired); }
      if invite.status != I.Pending { return Refused(I.NotPending); }
      if email != invite.email { return Refused(I.WrongEmail); }
      var refusal := SeatRefusal(invite.workshop);
      if refusal.Some? { return Refused(refusal.value); }
      var savedInvites, savedSeats := invites, seats.View();
      invites := invites[i := invite.(status := I.Accepted, acceptedBy := Some(user))];
      UpsertSeat(invite.workshop, user);
      if raises {
        invites := savedInvites;
        seats.Rollback(savedSeats);
        return Error500;
      }
      reply := Done;
    }

    /** redeem_invite: the invite is accepted and the seat active, both or neither, and the token is spent; and
        nobody can use the invite but the one to whose address it was made out. */
    method RedeemInvite(user: nat, email: string, token: string, raises: bool) returns (reply: Reply)
      requires Sound()
      modifies this, seats
      ensures Sound()
      ensures var outcome := I.RedeemInvite(old(View()), user, email, token);
              reply == ReplyTo(outcome, raises) && View() == Committed(old(View()), outcome, raises)
      ensures reply.Done? ==>
                && I.Spent(View(), token)
                && exists i: nat :: I.TakenBy(old(View()), View(), i, user, token) && I.HasSeat(View(), invites[i].workshop, user)
      ensures reply.Done? ==>
                exists i: nat ::
                  && I.Live(old(View()), i, token) && old(invites)[i].workshop in old(workshops)
                  && I.InviteTaken(old(View()), View(), i, user, email)
      ensures forall i: nat | I.Live(old(View()), i, token) && old(invites)[i].email != email ::
                reply == Refused(I.WrongEmail) && View() == old(View())
    {
      forall i: nat | i < |invites| && invites[i].digest == I.Sha256(token)
        ensures I.RedeemInvite(View(), user, email, token) == Err(I.WrongEmail) <==>
                I.Live(View(), i, token) && invites[i].email != email
      {
        I.RedeemOutcome(View(), user, email, token, i);
      }
      if I.RedeemInvite(View(), user, email, token).Ok? { var i := I.RedeemSucceeds(View(), user, email, token); }
      reply := RedeemStatements(user, email, token, raises);
    }
  }
}
