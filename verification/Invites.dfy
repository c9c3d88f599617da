/**
 Workshop seats and invites, with each request as one atomic step.

 A token is known to the database only by its digest, which is injective; a new token is
 one that has not been issued before.  An invite is identified by its position.
 */
module Invites {
  import opened Wrappers
  import opened Finite
  import Seats
  import Runs

  const MIN_TOKEN_LENGTH := 20

  datatype PaymentStatus = Unpaid | Paid | Waived | Refunded

  datatype Workshop = Workshop(
    content: nat, seatCap: int, payment: PaymentStatus, demo: bool, archived: bool,
    startAt: Option<int>, endAt: Option<int>)

  datatype Digest = Sha256(raw: string)

  datatype InviteStatus = Pending | Accepted | Revoked

  datatype Invite = Invite(workshop: nat, email: string, digest: Digest, status: InviteStatus,
                           expiresAt: int, acceptedBy: Option<nat>)

  datatype State = State(
    now: int,
    workshops: map<nat, Workshop>,
    seats: Seats.State,
    invites: seq<Invite>,
    issued: set<string>)                // tokens handed out so far

  datatype Error =
    | WorkshopNotFound | Archived | PaymentMissing | NotStarted | Ended | CapIsZero | CapReached
    | NoRoomForInvite | DuplicateInvite | InviteNotFound | NotPending | InvalidToken | InviteExpired | WrongEmail
    | TokenInUse

  // ---------------------------------------------------------------- seat grants

  /** payment_allows_grants */
  predicate PaymentAllows(w: Workshop) {
    w.demo || w.payment == Paid || w.payment == Waived
  }

  function Used(s: State, w: nat): int {
    if w in s.seats.used then s.seats.used[w] else 0
  }

  /** assert_can_grant_seat: the reason for refusing, if there is one. */
  function GrantRefusal(s: State, w: nat): Option<Error>
    requires w in s.workshops
  {
    var workshop := s.workshops[w];
    if workshop.archived then Some(Archived)
    else if !PaymentAllows(workshop) then Some(PaymentMissing)
    else if workshop.startAt.Some? && s.now < workshop.startAt.value then Some(NotStarted)
    else if workshop.endAt.Some? && s.now > workshop.endAt.value then Some(Ended)
    else if workshop.seatCap <= 0 then Some(CapIsZero)
    else if Used(s, w) >= workshop.seatCap then Some(CapReached)
    else if |Seats.ActiveIn(s.seats.rows, w)| >= workshop.seatCap then Some(CapReached)
    else None
  }

  /** The seat of a user in a workshop. */
  function SeatOf(s: State, w: nat, user: nat): Seats.Key
    requires w in s.workshops
  {
    Seats.Key(user, s.workshops[w].content, Some(w))
  }

  function Seated(s: State, w: nat, user: nat): State
    requires w in s.workshops
  {
    s.(seats := Seats.Grant(s.seats, SeatOf(s, w, user), s.now, s.workshops[w].endAt))
  }

  /** The grant-seat endpoint, which does not look at pending invites. */
  function GrantSeat(s: State, w: nat, user: nat): Result<State, Error> {
    if w !in s.workshops then Err(WorkshopNotFound)
    else if GrantRefusal(s, w).Some? then Err(GrantRefusal(s, w).value)
    else Ok(Seated(s, w, user))
  }

  /** The workshop is active, paid for (or waived, or a demo) and under way. */
  ghost predicate OpenForGrants(s: State, w: nat)
    requires w in s.workshops
  {
    var workshop := s.workshops[w];
    && !workshop.archived && (workshop.demo || workshop.payment in {Paid, Waived})
    && (workshop.startAt.None? || workshop.startAt.value <= s.now)
    && (workshop.endAt.None? || s.now <= workshop.endAt.value)
  }

  /** Whatever the counter says, no seat is granted unless the active entitlements leave one; nor if the counter
      says that there is none. */
  lemma GrantNeedsBothCounts(s: State, w: nat)
    requires w in s.workshops && w in s.seats.used
    ensures GrantRefusal(s, w).None? <==>
              && OpenForGrants(s, w) && 0 < s.workshops[w].seatCap && s.seats.used[w] < s.workshops[w].seatCap
              && |Seats.ActiveIn(s.seats.rows, w)| < s.workshops[w].seatCap
  {
  }

  /** With an exact counter the two capacity checks are one: a seat is granted exactly if the workshop
      is open and the active entitlements leave one.  A refusal names the first thing that is missing. */
  lemma GrantRefusalIff(s: State, w: nat)
    requires Seats.Exact(s.seats) && w in s.workshops && w in s.seats.used
    ensures var refusal, workshop, active := GrantRefusal(s, w), s.workshops[w], |Seats.ActiveIn(s.seats.rows, w)|;
            var paid := workshop.demo || workshop.payment in {Paid, Waived};
            var started := workshop.startAt.None? || workshop.startAt.value <= s.now;
            && (refusal == None <==> OpenForGrants(s, w) && active < workshop.seatCap)
            && (refusal == Some(Archived) <==> workshop.archived)
            && (refusal == Some(PaymentMissing) <==> !workshop.archived && !paid)
            && (refusal == Some(NotStarted) <==> !workshop.archived && paid && !started)
            && (refusal == Some(Ended) <==> !workshop.archived && paid && started && !OpenForGrants(s, w))
            && (refusal == Some(CapIsZero) <==> OpenForGrants(s, w) && workshop.seatCap <= 0)
            && (refusal == Some(CapReached) <==> OpenForGrants(s, w) && 0 < workshop.seatCap <= active)
  {
  }

  // ---------------------------------------------------------------- invites

  function PendingFor(invites: seq<Invite>, w: nat): set<nat> {
    set i: nat | i < |invites| && invites[i].workshop == w && invites[i].status == Pending
  }

  /** A new invite would violate the partial unique index on pending addresses, or the one on tokens. */
  predicate Collides(invites: seq<Invite>, w: nat, email: string, token: string) {
    exists i | 0 <= i < |invites| ::
      || (invites[i].workshop == w && invites[i].email == email && invites[i].status == Pending)
      || invites[i].digest == Sha256(token)
  }

  /** create_invite: the checks, and an insert subject to the unique indexes. */
  function CreateInvite(s: State, w: nat, email: string, token: string, days: int): Result<State, Error> {
    if w !in s.workshops then Err(WorkshopNotFound)
    else if GrantRefusal(s, w).Some? then Err(GrantRefusal(s, w).value)
    else if Used(s, w) + |PendingFor(s.invites, w)| >= s.workshops[w].seatCap then Err(NoRoomForInvite)
    else if Collides(s.invites, w, email, token) then Err(DuplicateInvite)
    else Ok(s.(invites := s.invites + [Invite(w, email, Sha256(token), Pending, Expiry(s.now, days), None)],
               issued := s.issued + {token}))
  }

  /** now + max(1, days) days */
  function Expiry(now: int, days: int): int {
    now + 86400 * if days < 1 then 1 else days
  }

  /** resend_invite: a new token and a new term for a pending invite. */
  function ResendInvite(s: State, w: nat, i: nat, token: string, days: int): Result<State, Error> {
    if w !in s.workshops then Err(WorkshopNotFound)
    else if i >= |s.invites| || s.invites[i].workshop != w then Err(InviteNotFound)
    else if s.invites[i].status != Pending then Err(NotPending)
    else if exists j | 0 <= j < |s.invites| && j != i :: s.invites[j].digest == Sha256(token) then Err(TokenInUse)
    else Ok(s.(invites := s.invites[i := s.invites[i].(digest := Sha256(token), expiresAt := Expiry(s.now, days))],
               issued := s.issued + {token}))
  }

  /** revoke_invite */
  function RevokeInvite(s: State, w: nat, i: nat): Result<State, Error> {
    if i >= |s.invites| || s.invites[i].workshop != w || s.invites[i].status != Pending then Err(InviteNotFound)
    else Ok(s.(invites := s.invites[i := s.invites[i].(status := Revoked)]))
  }

  /** SELECT ... WHERE token_hash = :th, joined with the invite's workshop. */
  predicate Matches(s: State, i: nat, token: string) {
    i < |s.invites| && s.invites[i].digest == Sha256(token) && s.invites[i].workshop in s.workshops
  }

  function Lookup(s: State, token: string, n: nat): (found: Option<nat>)
    requires n <= |s.invites|
    ensures found.Some? ==> found.value < n && Matches(s, found.value, token)
    ensures found.None? ==> forall i: nat | i < n :: !Matches(s, i, token)
  {
    if n == 0 then None
    else if Matches(s, n - 1, token) then Some(n - 1)
    else Lookup(s, token, n - 1)
  }

  /** The checks that preview_invite and redeem_invite both make of the token itself. */
  function TokenRefusal(s: State, token: string): Option<Error> {
    if |token| < MIN_TOKEN_LENGTH then Some(InvalidToken)
    else if Lookup(s, token, |s.invites|).None? then Some(InviteNotFound)
    else
      var invite := s.invites[Lookup(s, token, |s.invites|).value];
      if s.now > invite.expiresAt then Some(InviteExpired)
      else if invite.status != Pending then Some(NotPending)
      else None
  }

  /** preview_invite */
  function PreviewInvite(s: State, token: string): Result<nat, Error> {
    if |token| < MIN_TOKEN_LENGTH then Err(InvalidToken)
    else
      match Lookup(s, token, |s.invites|)
      case None => Err(InviteNotFound)
      case Some(i) =>
        if s.now > s.invites[i].expiresAt then Err(InviteExpired)
        else if s.invites[i].status != Pending then Err(NotPending)
        else Ok(s.invites[i].workshop)
  }

  /** redeem_invite */
  function RedeemInvite(s: State, user: nat, email: string, token: string): Result<State, Error> {
    if TokenRefusal(s, token).Some? then Err(TokenRefusal(s, token).value)
    else
      var i := Lookup(s, token, |s.invites|).value;
      var w := s.invites[i].workshop;
      if email != s.invites[i].email then Err(WrongEmail)
      else if GrantRefusal(s, w).Some? then Err(GrantRefusal(s, w).value)
      else
        var accepted := s.invites[i].(status := Accepted, acceptedBy := Some(user));
        Ok(Seated(s, w, user).(invites := s.invites[i := accepted]))
  }

  // ---------------------------------------------------------------- runs

  datatype Step =
    | Tick(d: nat)
    | AddWorkshop(w: nat, workshop: Workshop)
    | PatchWorkshop(w: nat, workshop: Workshop)     // never lowering the cap
    | Create(w: nat, email: string, token: string, days: int)
    | Resend(w: nat, i: nat, token: string, days: int)
    | Revoke(w: nat, i: nat)
    | Redeem(user: nat, email: string, token: string)
    | Grant(w: nat, user: nat)

  function Outcome(s: State, step: Step): Result<State, Error> {
    match step
    case Tick(d) => Ok(s.(now := s.now + d))
    case AddWorkshop(w, workshop) =>
      if w in s.workshops || w in s.seats.used || workshop.seatCap < 0 then Ok(s)
      else Ok(s.(workshops := s.workshops[w := workshop], seats := Seats.Apply(s.seats, Seats.AddWorkshop(w))))
    case PatchWorkshop(w, workshop) =>
      if w !in s.workshops || workshop.content != s.workshops[w].content || workshop.seatCap < s.workshops[w].seatCap then Ok(s)
      else Ok(s.(workshops := s.workshops[w := workshop]))
    case Create(w, email, token, days) => if token in s.issued then Ok(s) else CreateInvite(s, w, email, token, days)
    case Resend(w, i, token, days) => if token in s.issued then Ok(s) else ResendInvite(s, w, i, token, days)
    case Revoke(w, i) => RevokeInvite(s, w, i)
    case Redeem(user, email, token) => RedeemInvite(s, user, email, token)
    case Grant(w, user) => GrantSeat(s, w, user)
  }

  /** One request.  A request that is refused changes nothing. */
  function Apply(s: State, step: Step): State {
    var outcome := Outcome(s, step);
    if outcome.Ok? then outcome.value else s
  }

  function Exec(s: State, steps: seq<Step>): State {
    Runs.Exec(Apply, s, steps)
  }

  predicate Initial(s: State) {
    s.workshops == map[] && s.seats == Seats.State(map[], map[]) && s.invites == [] && s.issued == {}
  }

  // ---------------------------------------------------------------- invariants

  ghost predicate TablesOk(s: State) {
    && Seats.Exact(s.seats) && s.workshops.Keys == s.seats.used.Keys
    && (forall i: nat | i < |s.invites| :: s.invites[i].workshop in s.workshops && s.invites[i].digest.raw in s.issued)
    && (forall i: nat, j: nat | i < |s.invites| && j < |s.invites| && i != j :: Distinct(s, i, j))
  }

  /** Digests are unique, and so are the addresses of the pending invites of a workshop. */
  ghost predicate Distinct(s: State, i: nat, j: nat)
    requires i < |s.invites| && j < |s.invites|
  {
    var a, b := s.invites[i], s.invites[j];
    && a.digest != b.digest
    && (a.status == Pending && b.status == Pending && a.workshop == b.workshop ==> a.email != b.email)
  }

  /** An accepted invite has the active seat it was redeemed for. */
  ghost predicate InviteOk(s: State, i: nat)
    requires i < |s.invites| && s.invites[i].workshop in s.workshops
  {
    s.invites[i].status == Accepted ==>
      && s.invites[i].acceptedBy.Some?
      && var key := SeatOf(s, s.invites[i].workshop, s.invites[i].acceptedBy.value);
         key in s.seats.rows && s.seats.rows[key].status == Seats.Active
  }

  ghost predicate Inv(s: State) {
    && TablesOk(s)
    && (forall i: nat | i < |s.invites| :: InviteOk(s, i))
    && (forall w | w in s.workshops :: s.workshops[w].seatCap >= 0 && Used(s, w) <= s.workshops[w].seatCap)
  }

  /** Pending invites reserve seats. */
  ghost predicate Reserved(s: State) {
    forall w | w in s.workshops :: Used(s, w) + |PendingFor(s.invites, w)| <= s.workshops[w].seatCap
  }

  lemma SeatedKeeps(s: State, w: nat, user: nat)
    requires TablesOk(s) && w in s.workshops
    ensures var t := Seated(s, w, user);
            && Seats.Exact(t.seats) && t.seats.used.Keys == s.seats.used.Keys
            && SeatOf(s, w, user) in t.seats.rows && t.seats.rows[SeatOf(s, w, user)].status == Seats.Active
            && (forall k | k in s.seats.rows && s.seats.rows[k].status == Seats.Active ::
                  k in t.seats.rows && t.seats.rows[k].status == Seats.Active)
            && Used(s, w) <= Used(t, w) <= Used(s, w) + 1
            && (forall v | v in s.workshops && v != w :: Used(t, v) == Used(s, v))
  {
    Seats.GrantAddsAtMostOne(s.seats, SeatOf(s, w, user), s.now, s.workshops[w].endAt);
  }

  // ---------------------------------------------------------------- what a step does to the invites

  /** How one invite may change: a resend changes the token and term of a pending one, and a pending
      one may become accepted or revoked. */
  predicate MayBecome(a: Invite, b: Invite) {
    && b.workshop == a.workshop && b.email == a.email
    && (a.status == Pending || b == a)
    && (b.status == Pending ==> b.acceptedBy == a.acceptedBy)
    && (b.status != Pending ==> b.digest == a.digest)
  }

  /** What a request may do to the invites: change some, and add a pending one with a new token. */
  ghost predicate InvitesKept(s: State, t: State) {
    && |s.invites| <= |t.invites| <= |s.invites| + 1
    && (forall i: nat | i < |s.invites| :: MayBecome(s.invites[i], t.invites[i]))
    && (forall i: nat | i < |t.invites| && t.invites[i].digest.raw !in t.issued ::
          i < |s.invites| && s.invites[i].digest.raw !in s.issued)
    && (|t.invites| > |s.invites| ==>
          t.invites[|s.invites|].status == Pending && t.invites[|s.invites|].workshop in s.workshops)
  }

  lemma InvitesStep(s: State, step: Step)
    ensures InvitesKept(s, Apply(s, step))
  {
  }

  /** What a request does to workshops and seats. */
  datatype Change = Seating(w: nat, user: nat) | NewWorkshop(w: nat) | NoSeats

  function ChangeBy(s: State, step: Step): Change {
    if Outcome(s, step).Err? then NoSeats
    else
      match step
      case Redeem(user, email, token) => Seating(s.invites[Lookup(s, token, |s.invites|).value].workshop, user)
      case Grant(w, user) => Seating(w, user)
      case AddWorkshop(w, workshop) => if Apply(s, step) == s then NoSeats else NewWorkshop(w)
      case _ => NoSeats
  }

  /** Somebody is seated only where the seat checks pass; workshops stay, and no cap is lowered. */
  ghost predicate Changed(s: State, t: State, change: Change) {
    && (match change
        case Seating(w, user) =>
          && w in s.workshops && GrantRefusal(s, w).None?
          && t.workshops == s.workshops && t.seats == Seated(s, w, user).seats
        case NewWorkshop(w) =>
          && t.seats == Seats.Apply(s.seats, Seats.AddWorkshop(w)) && t.workshops.Keys == s.workshops.Keys + {w}
        case NoSeats => t.seats == s.seats && t.workshops.Keys == s.workshops.Keys)
    && (forall w | w in s.workshops ::
          w in t.workshops && t.workshops[w].content == s.workshops[w].content
          && t.workshops[w].seatCap >= s.workshops[w].seatCap)
    && (forall w | w in t.workshops && w !in s.workshops :: t.workshops[w].seatCap >= 0)
  }

  lemma StepChanges(s: State, step: Step)
    requires s.workshops.Keys == s.seats.used.Keys
    ensures Changed(s, Apply(s, step), ChangeBy(s, step))
  {
  }

  /** No request takes an active seat away, and the counters stay exact. */
  lemma SeatsFrom(s: State, t: State, change: Change)
    requires TablesOk(s) && Changed(s, t, change)
    ensures Seats.Exact(t.seats) && t.workshops.Keys == t.seats.used.Keys
    ensures forall k | k in s.seats.rows && s.seats.rows[k].status == Seats.Active ::
              k in t.seats.rows && t.seats.rows[k].status == Seats.Active
  {
    match change
    case Seating(w, user) => SeatedKeeps(s, w, user);
    case NewWorkshop(w) => Seats.ExactStep(s.seats, Seats.AddWorkshop(w));
    case NoSeats =>
  }

  /** A seat is only ever added below the cap. */
  lemma CapFrom(s: State, t: State, change: Change, w: nat)
    requires Inv(s) && Changed(s, t, change) && w in t.workshops
    ensures t.workshops[w].seatCap >= 0 && Used(t, w) <= t.workshops[w].seatCap
  {
    match change
    case Seating(v, user) => SeatedKeeps(s, v, user);
    case NewWorkshop(v) =>
    case NoSeats =>
  }

  lemma DistinctStep(s: State, step: Step, i: nat, j: nat)
    requires TablesOk(s) && i < j < |Apply(s, step).invites|
    ensures Distinct(Apply(s, step), i, j) && Distinct(Apply(s, step), j, i)
  {
    if i < |s.invites| && j < |s.invites| {
      assert Distinct(s, i, j) && Distinct(s, j, i);
    }
  }

  lemma TablesFrom(s: State, t: State, change: Change)
    requires TablesOk(s) && Changed(s, t, change) && InvitesKept(s, t)
    requires forall i: nat, j: nat | i < |t.invites| && j < |t.invites| && i != j :: Distinct(t, i, j)
    ensures TablesOk(t)
  {
    SeatsFrom(s, t, change);
    forall i: nat | i < |t.invites| ensures t.invites[i].workshop in t.workshops {
      if i < |s.invites| { assert MayBecome(s.invites[i], t.invites[i]); }
    }
  }

  lemma TablesStep(s: State, step: Step)
    requires TablesOk(s)
    ensures TablesOk(Apply(s, step))
  {
    StepChanges(s, step);
    InvitesStep(s, step);
    var t, change := Apply(s, step), ChangeBy(s, step);
    forall i: nat, j: nat | i < |t.invites| && j < |t.invites| && i != j ensures Distinct(t, i, j) {
      if i < j { DistinctStep(s, step, i, j); } else { DistinctStep(s, step, j, i); }
    }
    TablesFrom(s, t, change);
  }

  /** An invite becomes accepted only by the redemption that makes its seat. */
  lemma AcceptedByRedeem(s: State, step: Step, i: nat)
    requires TablesOk(s) && i < |s.invites| && s.invites[i].status == Pending
    requires Apply(s, step).invites[i].status == Accepted
    ensures s.invites[i].workshop in Apply(s, step).workshops && Apply(s, step).invites[i].workshop == s.invites[i].workshop
    ensures InviteOk(Apply(s, step), i)
  {
  }

  /** The seats that accepted invites rely on are still there. */
  lemma InvitesOkFrom(s: State, t: State)
    requires InvitesKept(s, t) && TablesOk(s) && TablesOk(t)
    requires forall i: nat | i < |s.invites| :: InviteOk(s, i)
    requires forall w | w in s.workshops :: w in t.workshops && t.workshops[w].content == s.workshops[w].content
    requires forall k | k in s.seats.rows && s.seats.rows[k].status == Seats.Active ::
               k in t.seats.rows && t.seats.rows[k].status == Seats.Active
    requires forall i: nat | i < |s.invites| && s.invites[i].status == Pending && t.invites[i].status == Accepted :: InviteOk(t, i)
    ensures forall i: nat | i < |t.invites| :: InviteOk(t, i)
  {
    forall i: nat | i < |t.invites| ensures InviteOk(t, i) {
      if i < |s.invites| {
        assert InviteOk(s, i) && MayBecome(s.invites[i], t.invites[i]);
      }
    }
  }

  lemma InvFrom(s: State, t: State, change: Change)
    requires Inv(s) && Changed(s, t, change) && InvitesKept(s, t) && TablesOk(t)
    requires forall i: nat | i < |s.invites| && s.invites[i].status == Pending && t.invites[i].status == Accepted :: InviteOk(t, i)
    ensures Inv(t)
  {
    SeatsFrom(s, t, change);
    InvitesOkFrom(s, t);
    forall w | w in t.workshops ensures t.workshops[w].seatCap >= 0 && Used(t, w) <= t.workshops[w].seatCap {
      CapFrom(s, t, change, w);
    }
  }

  lemma InvStep(s: State, step: Step)
    requires Inv(s)
    ensures Inv(Apply(s, step))
  {
    var t := Apply(s, step);
    TablesStep(s, step);
    StepChanges(s, step);
    InvitesStep(s, step);
    forall i: nat | i < |s.invites| && s.invites[i].status == Pending && t.invites[i].status == Accepted ensures InviteOk(t, i) {
      AcceptedByRedeem(s, step, i);
    }
    InvFrom(s, t, ChangeBy(s, step));
  }

  lemma InvAlways(s: State, steps: seq<Step>)
    requires Initial(s)
    ensures Inv(Exec(s, steps))
  {
    forall t: State, step: Step | Inv(t) ensures Inv(Apply(t, step)) {
      InvStep(t, step);
    }
    Runs.Always(Apply, Inv, s, steps);
  }

  // ---------------------------------------------------------------- requests, column by column

  /** The row of a seat: the user's, for the content of the workshop, active from now to the end of the workshop;
      where that is open, an end that the row had stays. */
  ghost predicate SeatGiven(s: State, t: State, w: nat, user: nat)
    requires w in s.workshops
  {
    var workshop := s.workshops[w];
    var key := Seats.Key(user, workshop.content, Some(w));
    && t.seats.rows.Keys == s.seats.rows.Keys + {key}
    && (forall k | k in s.seats.rows && k != key :: t.seats.rows[k] == s.seats.rows[k])
    && t.seats.rows[key].status == Seats.Active && t.seats.rows[key].validFrom == s.now
    && t.seats.rows[key].validUntil == if workshop.endAt.Some? then workshop.endAt
                                       else if key in s.seats.rows then s.seats.rows[key].validUntil else None
  }

  lemma SeatedGives(s: State, w: nat, user: nat)
    requires Seats.Exact(s.seats) && w in s.workshops && w in s.seats.used
    ensures var t := Seated(s, w, user);
            SeatGiven(s, t, w, user) && t.workshops == s.workshops && t.invites == s.invites && t.now == s.now
  {
    Seats.GrantAddsAtMostOne(s.seats, SeatOf(s, w, user), s.now, s.workshops[w].endAt);
  }

  /** A direct grant gives the seat exactly if the workshop is open and has one left. */
  lemma GrantOutcome(s: State, w: nat, user: nat)
    requires TablesOk(s)
    ensures var outcome := GrantSeat(s, w, user);
            && (outcome == Err(WorkshopNotFound) <==> w !in s.workshops)
            && (outcome.Ok? <==>
                  w in s.workshops && OpenForGrants(s, w) && |Seats.ActiveIn(s.seats.rows, w)| < s.workshops[w].seatCap)
            && (outcome.Ok? ==> SeatGiven(s, outcome.value, w, user) && outcome.value.invites == s.invites)
  {
    if w in s.workshops {
      GrantRefusalIff(s, w);
      SeatedGives(s, w, user);
    }
  }

  /** An invite is made exactly if active seats and pending invites leave room in an open workshop and no pending
      invite of the workshop has the address; it is pending, for that address, for some days, but one at least. */
  lemma CreateOutcome(s: State, w: nat, email: string, token: string, days: int)
    requires TablesOk(s) && token !in s.issued
    ensures var outcome := CreateInvite(s, w, email, token, days);
            && (outcome.Ok? <==>
                  && w in s.workshops && OpenForGrants(s, w)
                  && |Seats.ActiveIn(s.seats.rows, w)| + |PendingFor(s.invites, w)| < s.workshops[w].seatCap
                  && forall i: nat | i < |s.invites| && s.invites[i].workshop == w && s.invites[i].email == email ::
                       s.invites[i].status != Pending)
            && (outcome == Err(DuplicateInvite) ==>
                  exists i: nat | i < |s.invites| ::
                    s.invites[i].workshop == w && s.invites[i].email == email && s.invites[i].status == Pending)
            && (outcome.Ok? ==>
                  var t, term := outcome.value, if days > 1 then days else 1;
                  && t.invites == s.invites + [Invite(w, email, Sha256(token), Pending, s.now + term * 86400, None)]
                  && t.seats == s.seats && t.workshops == s.workshops && t.now == s.now)
  {
    if w in s.workshops { GrantRefusalIff(s, w); }
    forall i: nat | i < |s.invites| ensures s.invites[i].digest != Sha256(token) {}
  }

  /** An invite can be resent exactly as long as it is pending; only its token and its term change. */
  lemma ResendOutcome(s: State, w: nat, i: nat, token: string, days: int)
    requires TablesOk(s) && token !in s.issued
    ensures var outcome := ResendInvite(s, w, i, token, days);
            && (outcome.Ok? <==>
                  w in s.workshops && i < |s.invites| && s.invites[i].workshop == w && s.invites[i].status == Pending)
            && (outcome.Ok? ==>
                  var t, was, term := outcome.value, s.invites[i], if days > 1 then days else 1;
                  && t.invites == s.invites[i := Invite(w, was.email, Sha256(token), Pending, s.now + term * 86400, was.acceptedBy)]
                  && t.seats == s.seats && t.workshops == s.workshops && t.now == s.now)
  {
    forall j: nat | j < |s.invites| ensures s.invites[j].digest != Sha256(token) {}
  }

  /** An invite can be revoked exactly as long as it is pending; only its status changes. */
  lemma RevokeOutcome(s: State, w: nat, i: nat)
    ensures var outcome := RevokeInvite(s, w, i);
            && (outcome.Ok? <==> i < |s.invites| && s.invites[i].workshop == w && s.invites[i].status == Pending)
            && (outcome.Ok? ==>
                  var t, was := outcome.value, s.invites[i];
                  && t.invites == s.invites[i := Invite(w, was.email, was.digest, Revoked, was.expiresAt, was.acceptedBy)]
                  && t.seats == s.seats && t.workshops == s.workshops && t.now == s.now)
  {
  }

  /** The invite with this token can still be redeemed: the token is long enough, and the invite is pending and
      has not expired. */
  ghost predicate Live(s: State, i: nat, token: string) {
    && |token| >= 20 && i < |s.invites| && s.invites[i].digest == Sha256(token)
    && s.invites[i].status == Pending && s.now <= s.invites[i].expiresAt
  }

  /** Invite i has been accepted by this user, for whose address it was, and the user has been given the seat. */
  ghost predicate InviteTaken(s: State, t: State, i: nat, user: nat, email: string)
    requires i < |s.invites| && s.invites[i].workshop in s.workshops
  {
    var was := s.invites[i];
    && was.email == email && SeatGiven(s, t, was.workshop, user)
    && t.invites == s.invites[i := Invite(was.workshop, was.email, was.digest, Accepted, was.expiresAt, Some(user))]
  }

  lemma LookupIs(s: State, i: nat, token: string)
    requires TablesOk(s) && i < |s.invites| && s.invites[i].digest == Sha256(token)
    ensures Lookup(s, token, |s.invites|) == Some(i)
  {
    forall j: nat | j < |s.invites| && j != i ensures s.invites[j].digest != Sha256(token) { assert Distinct(s, i, j); }
    LookupFinds(s, token, i, |s.invites|);
  }

  /** What redeem_invite answers to the token of an invite.  A live token opens its invite to its own address
      alone, and to that exactly if the workshop is open and has a seat left; then the invite is accepted and the
      seat given. */
  lemma RedeemOutcome(s: State, user: nat, email: string, token: string, i: nat)
    requires TablesOk(s) && i < |s.invites| && s.invites[i].digest == Sha256(token)
    ensures var outcome, invite := RedeemInvite(s, user, email, token), s.invites[i];
            var room := OpenForGrants(s, invite.workshop)
                        && |Seats.ActiveIn(s.seats.rows, invite.workshop)| < s.workshops[invite.workshop].seatCap;
            && (outcome == Err(InvalidToken) <==> |token| < 20)
            && (outcome == Err(InviteExpired) <==> |token| >= 20 && s.now > invite.expiresAt)
            && (outcome == Err(NotPending) <==> |token| >= 20 && s.now <= invite.expiresAt && invite.status != Pending)
            && (outcome == Err(WrongEmail) <==> Live(s, i, token) && email != invite.email)
            && (outcome.Ok? <==> Live(s, i, token) && email == invite.email && room)
            && (outcome.Ok? ==> InviteTaken(s, outcome.value, i, user, email))
  {
    LookupIs(s, i, token);
    GrantRefusalIff(s, s.invites[i].workshop);
    SeatedGives(s, s.invites[i].workshop, user);
  }

  /** A token that no invite has is refused. */
  lemma UnknownToken(s: State, user: nat, email: string, token: string)
    requires forall i: nat | i < |s.invites| :: s.invites[i].digest != Sha256(token)
    ensures RedeemInvite(s, user, email, token) == Err(if |token| < 20 then InvalidToken else InviteNotFound)
  {
  }

  // ---------------------------------------------------------------- results on seats

  /** In any run of grants, invites and redemptions: used_seats is the number of active seats, and
      it never exceeds the cap. */
  lemma SeatsNeverExceedCap(s: State, steps: seq<Step>, w: nat)
    requires Initial(s) && w in Exec(s, steps).workshops
    ensures var t := Exec(s, steps);
            w in t.seats.used && t.seats.used[w] == |Seats.ActiveIn(t.seats.rows, w)| <= t.workshops[w].seatCap
  {
    InvAlways(s, steps);
  }

  /** Every accepted invite has its active seat. */
  lemma AcceptedHasSeat(s: State, steps: seq<Step>, i: nat)
    requires Initial(s) && i < |Exec(s, steps).invites| && Exec(s, steps).invites[i].status == Accepted
    ensures var t := Exec(s, steps);
            && t.invites[i].acceptedBy.Some? && t.invites[i].workshop in t.workshops
            && var key := SeatOf(t, t.invites[i].workshop, t.invites[i].acceptedBy.value);
               key in t.seats.rows && t.seats.rows[key].status == Seats.Active
  {
    InvAlways(s, steps);
    assert InviteOk(Exec(s, steps), i);
  }

  /** What grant-seat could look at before it grants: the user has the seat already, or there is one
      that no pending invite reserves. */
  predicate LeavesReserved(s: State, w: nat, user: nat) {
    w in s.workshops ==>
      || SeatOf(s, w, user) in Seats.ActiveIn(s.seats.rows, w)
      || Used(s, w) + |PendingFor(s.invites, w)| < s.workshops[w].seatCap
  }

  /** A run each of whose direct grants, if it has any, meets that condition when it is made. */
  predicate Considerate(s: State, steps: seq<Step>) {
    forall i | 0 <= i < |steps| && steps[i].Grant? :: LeavesReserved(Exec(s, steps[..i]), steps[i].w, steps[i].user)
  }

  lemma ConsiderateBefore(s: State, steps: seq<Step>)
    requires steps != [] && Considerate(s, steps)
    ensures Considerate(s, steps[..|steps| - 1])
    ensures var step := steps[|steps| - 1];
            step.Grant? ==> LeavesReserved(Exec(s, steps[..|steps| - 1]), step.w, step.user)
  {
    var before := steps[..|steps| - 1];
    forall i | 0 <= i < |before| && before[i].Grant?
      ensures LeavesReserved(Exec(s, before[..i]), before[i].w, before[i].user)
    {
      assert before[..i] == steps[..i] && before[i] == steps[i];
    }
  }

  lemma PendingAfterAppend(invites: seq<Invite>, invite: Invite, w: nat)
    ensures |PendingFor(invites + [invite], w)| <= |PendingFor(invites, w)| + (if invite.workshop == w then 1 else 0)
  {
    var more := invites + [invite];
    if invite.workshop == w && invite.status == Pending {
      assert PendingFor(more, w) == PendingFor(invites, w) + {|invites|};
    } else {
      assert PendingFor(more, w) == PendingFor(invites, w);
    }
  }

  lemma PendingAfterUpdate(invites: seq<Invite>, i: nat, invite: Invite, w: nat)
    requires i < |invites| && invites[i].status == Pending && invite.workshop == invites[i].workshop
    ensures |PendingFor(invites[i := invite], w)| ==
            |PendingFor(invites, w)| - (if invite.workshop == w && invite.status != Pending then 1 else 0)
  {
    var changed := invites[i := invite];
    if invite.workshop == w && invite.status != Pending {
      assert PendingFor(changed, w) == PendingFor(invites, w) - {i};
    } else {
      assert PendingFor(changed, w) == PendingFor(invites, w);
    }
  }

  /** A direct grant keeps the seats of the pending invites reserved exactly when it meets the condition. */
  lemma GrantKeepsReservedIff(s: State, w: nat, user: nat)
    requires Inv(s) && Reserved(s) && GrantSeat(s, w, user).Ok?
    ensures Reserved(GrantSeat(s, w, user).value) <==> LeavesReserved(s, w, user)
  {
    var t := GrantSeat(s, w, user).value;
    SeatedKeeps(s, w, user);
    Seats.GrantAddsAtMostOne(s.seats, SeatOf(s, w, user), s.now, s.workshops[w].endAt);
    forall v | v in t.workshops && v != w ensures Used(t, v) + |PendingFor(t.invites, v)| <= t.workshops[v].seatCap {
      assert Used(s, v) + |PendingFor(s.invites, v)| <= s.workshops[v].seatCap;
    }
    assert Used(s, w) + |PendingFor(s.invites, w)| <= s.workshops[w].seatCap;
  }

  lemma ReservedStep(s: State, step: Step)
    requires Inv(s) && Reserved(s) && (step.Grant? ==> LeavesReserved(s, step.w, step.user))
    ensures Reserved(Apply(s, step))
  {
    if step.Grant? {
      if GrantSeat(s, step.w, step.user).Ok? { GrantKeepsReservedIff(s, step.w, step.user); }
    } else {
      OtherReservedStep(s, step);
    }
  }

  lemma OtherReservedStep(s: State, step: Step)
    requires Inv(s) && Reserved(s) && !step.Grant?
    ensures Reserved(Apply(s, step))
  {
    var t := Apply(s, step);
    forall w | w in t.workshops ensures Used(t, w) + |PendingFor(t.invites, w)| <= t.workshops[w].seatCap {
      if t != s { ReservedFor(s, step, w); }
    }
  }

  lemma RedeemKeepsReserved(s: State, user: nat, email: string, token: string, w: nat)
    requires Inv(s) && Reserved(s) && RedeemInvite(s, user, email, token).Ok? && w in s.workshops
    ensures var t := RedeemInvite(s, user, email, token).value;
            Used(t, w) + |PendingFor(t.invites, w)| <= t.workshops[w].seatCap
  {
    var t := RedeemInvite(s, user, email, token).value;
    var i := Lookup(s, token, |s.invites|).value;
    PendingAfterUpdate(s.invites, i, t.invites[i], w);
    SeatedKeeps(s, s.invites[i].workshop, user);
  }

  lemma ReservedFor(s: State, step: Step, w: nat)
    requires Inv(s) && Reserved(s) && !step.Grant? && Outcome(s, step).Ok? && w in Apply(s, step).workshops
    ensures Used(Apply(s, step), w) + |PendingFor(Apply(s, step).invites, w)| <= Apply(s, step).workshops[w].seatCap
  {
    var t := Apply(s, step);
    match step
    case AddWorkshop(v, _) => if w !in s.workshops { assert PendingFor(t.invites, w) == {}; }
    case Create(v, email, token, days) =>
      if t != s { PendingAfterAppend(s.invites, t.invites[|s.invites|], w); }
    case Resend(v, i, token, days) => if t != s { PendingAfterUpdate(s.invites, i, t.invites[i], w); }
    case Revoke(v, i) => PendingAfterUpdate(s.invites, i, t.invites[i], w);
    case Redeem(user, email, token) => RedeemKeepsReserved(s, user, email, token, w);
    case _ =>
  }

  lemma {:induction false} ReservedAlways(s: State, steps: seq<Step>)
    requires Initial(s) && Considerate(s, steps)
    ensures Reserved(Exec(s, steps))
  {
    if steps != [] {
      ConsiderateBefore(s, steps);
      ReservedAlways(s, steps[..|steps| - 1]);
      InvAlways(s, steps[..|steps| - 1]);
      ReservedStep(Exec(s, steps[..|steps| - 1]), steps[|steps| - 1]);
    }
  }

  /** Pending invites reserve seats: in a run without direct grants, or whose direct grants all meet the
      condition, redeeming a pending and unexpired invite never fails for lack of a seat. */
  lemma RedeemFindsASeat(s: State, steps: seq<Step>, user: nat, email: string, token: string)
    requires Initial(s) && Considerate(s, steps)
    ensures var outcome := RedeemInvite(Exec(s, steps), user, email, token);
            outcome.Ok? || (outcome.error != CapReached && outcome.error != CapIsZero)
  {
    ReservedAlways(s, steps);
    InvAlways(s, steps);
    var t := Exec(s, steps);
    if TokenRefusal(t, token).None? {
      var i := Lookup(t, token, |t.invites|).value;
      var w := t.invites[i].workshop;
      assert i in PendingFor(t.invites, w);
      assert Used(t, w) + |PendingFor(t.invites, w)| <= t.workshops[w].seatCap;
    }
  }

  /** A direct grant can take the reserved seat: with one seat and one pending invite for somebody
      else, the grant succeeds and the invite can no longer be redeemed. */
  lemma GrantTakesReservedSeat(s: State, w: nat, i: nat, user: nat, guest: nat, token: string)
    requires Inv(s) && w in s.workshops && s.workshops[w].seatCap == 1 && s.seats.used[w] == 0
    requires GrantRefusal(s, w).None?
    requires |token| >= MIN_TOKEN_LENGTH && Lookup(s, token, |s.invites|) == Some(i)
    requires s.invites[i].workshop == w && s.invites[i].status == Pending && s.now <= s.invites[i].expiresAt
    ensures GrantSeat(s, w, user).Ok?
    ensures RedeemInvite(s, guest, s.invites[i].email, token).Ok?
    ensures RedeemInvite(GrantSeat(s, w, user).value, guest, s.invites[i].email, token) == Err(CapReached)
  {
    var t := GrantSeat(s, w, user).value;
    Seats.GrantAddsAtMostOne(s.seats, SeatOf(s, w, user), s.now, s.workshops[w].endAt);
    assert SeatOf(s, w, user) !in Seats.ActiveIn(s.seats.rows, w);
    SameLookup(s, t, token, |s.invites|);
  }

  const ONE_SEAT := Workshop(0, 1, Waived, false, false, None, None)

  /** The state with a workshop of one seat and one pending invite. */
  function OneInvited(now: int, token: string): State {
    State(now, map[0 := ONE_SEAT], Seats.State(map[], map[0 := 0]),
          [Invite(0, "guest", Sha256(token), Pending, Expiry(now, 7), None)], {token})
  }

  lemma Next(s: State, steps: seq<Step>, step: Step, t: State)
    requires Apply(Exec(s, steps), step) == t
    ensures Exec(s, steps + [step]) == t
  {
    Runs.ExecSnoc(Apply, s, steps, step);
  }

  /** The state with that workshop and no invite. */
  function OneReady(now: int): State {
    State(now, map[0 := ONE_SEAT], Seats.State(map[], map[0 := 0]), [], {})
  }

  lemma WorkshopIsAdded(s: State)
    requires Initial(s)
    ensures Apply(s, AddWorkshop(0, ONE_SEAT)) == OneReady(s.now)
  {
  }

  lemma GuestIsInvited(now: int, token: string)
    ensures CreateInvite(OneReady(now), 0, "guest", token, 7) == Ok(OneInvited(now, token))
  {
    var ready := OneReady(now);
    assert Seats.ActiveIn(ready.seats.rows, 0) == {} && PendingFor(ready.invites, 0) == {};
    assert GrantRefusal(ready, 0).None? && Used(ready, 0) == 0 && !Collides(ready.invites, 0, "guest", token);
    var made := CreateInvite(ready, 0, "guest", token, 7);
    assert made.Ok?;
    assert made.value.invites == OneInvited(now, token).invites && made.value.issued == {token};
  }

  lemma OneInvitedIsReached(s: State, token: string)
    requires Initial(s)
    ensures Exec(s, [AddWorkshop(0, ONE_SEAT), Create(0, "guest", token, 7)]) == OneInvited(s.now, token)
  {
    WorkshopIsAdded(s);
    GuestIsInvited(s.now, token);
    Next(s, [], AddWorkshop(0, ONE_SEAT), OneReady(s.now));
    Next(s, [] + [AddWorkshop(0, ONE_SEAT)], Create(0, "guest", token, 7), OneInvited(s.now, token));
    assert [] + [AddWorkshop(0, ONE_SEAT)] + [Create(0, "guest", token, 7)] == [AddWorkshop(0, ONE_SEAT), Create(0, "guest", token, 7)];
  }

  /** Such a run exists: a workshop with one seat, an invite, and then a direct grant to somebody else. */
  lemma ReservationCanBeLost(s: State, token: string)
    requires Initial(s) && |token| >= MIN_TOKEN_LENGTH
    ensures var steps := [AddWorkshop(0, ONE_SEAT), Create(0, "guest", token, 7)];
            && RedeemInvite(Exec(s, steps), 2, "guest", token).Ok?
            && RedeemInvite(Exec(s, steps + [Grant(0, 1)]), 2, "guest", token) == Err(CapReached)
  {
    var steps := [AddWorkshop(0, ONE_SEAT), Create(0, "guest", token, 7)];
    var t := OneInvited(s.now, token);
    OneInvitedIsReached(s, token);
    InvAlways(s, steps);
    Runs.ExecSnoc(Apply, s, steps, Grant(0, 1));
    assert Seats.ActiveIn(map[], 0) == {};
    LookupFinds(t, token, 0, 1);
    GrantTakesReservedSeat(t, 0, 0, 1, 2, token);
  }

  lemma {:induction false} SameLookup(s: State, t: State, token: string, n: nat)
    requires t.invites == s.invites && t.workshops == s.workshops && n <= |s.invites|
    ensures Lookup(t, token, n) == Lookup(s, token, n)
  {
    if n > 0 { SameLookup(s, t, token, n - 1); }
  }

  // ---------------------------------------------------------------- results on tokens

  /** An invite leaves `pending` at most once, and nothing about it changes after that. */
  lemma {:induction false} LeavesPendingOnce(s: State, steps: seq<Step>, i: nat)
    requires i < |s.invites|
    ensures i < |Exec(s, steps).invites| && Exec(s, steps).invites[i].workshop == s.invites[i].workshop
    ensures s.invites[i].status != Pending ==> Exec(s, steps).invites[i] == s.invites[i]
  {
    if steps != [] {
      LeavesPendingOnce(s, steps[..|steps| - 1], i);
      InvitesStep(Exec(s, steps[..|steps| - 1]), steps[|steps| - 1]);
      assert MayBecome(Exec(s, steps[..|steps| - 1]).invites[i], Exec(s, steps).invites[i]);
    }
  }

  /** A token that was issued and belongs to no pending invite. */
  ghost predicate Spent(s: State, token: string) {
    token in s.issued && forall i: nat | i < |s.invites| && s.invites[i].digest == Sha256(token) :: s.invites[i].status != Pending
  }

  lemma SpentStep(s: State, step: Step, token: string)
    requires Spent(s, token)
    ensures Spent(Apply(s, step), token)
  {
  }

  /** A spent token is dead for ever: no later request accepts it. */
  lemma {:induction false} SpentIsDead(s: State, later: seq<Step>, user: nat, email: string, token: string)
    requires Spent(s, token)
    ensures Spent(Exec(s, later), token)
    ensures RedeemInvite(Exec(s, later), user, email, token).Err? && PreviewInvite(Exec(s, later), token).Err?
  {
    if later != [] {
      SpentIsDead(s, later[..|later| - 1], user, email, token);
      SpentStep(Exec(s, later[..|later| - 1]), later[|later| - 1], token);
    }
  }

  /** A redeemed token is spent, so it is redeemed at most once. */
  lemma RedeemSpends(s: State, user: nat, email: string, token: string)
    requires TablesOk(s) && RedeemInvite(s, user, email, token).Ok?
    ensures Spent(RedeemInvite(s, user, email, token).value, token)
  {
    var i := Lookup(s, token, |s.invites|).value;
    forall j: nat | j < |s.invites| && j != i ensures s.invites[j].digest != Sha256(token) {
      assert Distinct(s, i, j);
    }
  }

  lemma RedeemKeepsInv(s: State, user: nat, email: string, token: string)
    requires Inv(s) && RedeemInvite(s, user, email, token).Ok?
    ensures Inv(RedeemInvite(s, user, email, token).value)
  {
    InvStep(s, Redeem(user, email, token));
    assert Apply(s, Redeem(user, email, token)) == RedeemInvite(s, user, email, token).value;
  }

  /** What a redemption does: the live invite with the token is accepted, its user has the seat, and the token
      is spent. */
  lemma RedeemSucceeds(s: State, user: nat, email: string, token: string) returns (i: nat)
    requires Inv(s) && RedeemInvite(s, user, email, token).Ok?
    ensures var t := RedeemInvite(s, user, email, token).value;
            && Inv(t) && Spent(t, token) && Live(s, i, token) && s.invites[i].workshop in s.workshops
            && InviteTaken(s, t, i, user, email) && TakenBy(s, t, i, user, token) && HasSeat(t, t.invites[i].workshop, user)
  {
    RedeemKeepsInv(s, user, email, token);
    RedeemSpends(s, user, email, token);
    i := Lookup(s, token, |s.invites|).value;
    RedeemOutcome(s, user, email, token, i);
    assert RedeemInvite(s, user, email, token).value.workshops == s.workshops;
  }

  /** How many requests of a run have redeemed a token. */
  function Redemptions(s: State, steps: seq<Step>, token: string): nat
    decreases |steps|
  {
    if steps == [] then 0
    else
      var before, step := steps[..|steps| - 1], steps[|steps| - 1];
      Redemptions(s, before, token)
      + if step.Redeem? && step.token == token && Outcome(Exec(s, before), step).Ok? then 1 else 0
  }

  /** Over any run, whoever tries and however often, a token is redeemed at most once. */
  lemma {:induction false} RedeemedAtMostOnce(s: State, steps: seq<Step>, token: string)
    requires Initial(s)
    ensures Redemptions(s, steps, token) <= 1
    ensures Redemptions(s, steps, token) == 1 ==> Spent(Exec(s, steps), token)
    decreases |steps|
  {
    if steps != [] {
      var before, step := steps[..|steps| - 1], steps[|steps| - 1];
      var t := Exec(s, before);
      RedeemedAtMostOnce(s, before, token);
      InvAlways(s, before);
      if Redemptions(s, before, token) == 1 {
        SpentStep(t, step, token);
        assert step.Redeem? && step.token == token ==> RedeemInvite(t, step.user, step.email, token).Err? by {
          if step.Redeem? { SpentIsDead(t, [], step.user, step.email, token); }
        }
      } else if step.Redeem? && step.token == token && Outcome(t, step).Ok? {
        RedeemSpends(t, step.user, step.email, token);
      }
    }
  }

  /** The pending invite with this token is now accepted by this user. */
  predicate TakenBy(s: State, t: State, i: nat, user: nat, token: string) {
    && i < |s.invites| && i < |t.invites|
    && s.invites[i].status == Pending && s.invites[i].digest == Sha256(token)
    && t.invites[i] == s.invites[i].(status := Accepted, acceptedBy := Some(user))
  }

  /** The user has an active seat of the workshop. */
  predicate HasSeat(s: State, w: nat, user: nat) {
    w in s.workshops && SeatOf(s, w, user) in s.seats.rows && s.seats.rows[SeatOf(s, w, user)].status == Seats.Active
  }

  /** What the grant-seat endpoint relies on. */
  lemma GrantFacts(s: State, w: nat, user: nat)
    requires Inv(s)
    ensures var outcome := GrantSeat(s, w, user);
            && (outcome.Ok? ==> Inv(outcome.value) && HasSeat(outcome.value, w, user) && SeatGiven(s, outcome.value, w, user))
            && (outcome.Ok? <==>
                  w in s.workshops && OpenForGrants(s, w) && |Seats.ActiveIn(s.seats.rows, w)| < s.workshops[w].seatCap)
  {
    InvStep(s, Grant(w, user));
    assert GrantSeat(s, w, user).Ok? ==> Apply(s, Grant(w, user)) == GrantSeat(s, w, user).value;
    GrantOutcome(s, w, user);
  }

  lemma RevokeSpends(s: State, w: nat, i: nat)
    requires TablesOk(s) && RevokeInvite(s, w, i).Ok?
    ensures Spent(RevokeInvite(s, w, i).value, s.invites[i].digest.raw)
  {
    forall j: nat | j < |s.invites| && j != i ensures s.invites[j].digest != s.invites[i].digest {
      assert Distinct(s, i, j);
    }
  }

  /** After a resend the old token is spent. */
  lemma ResendSpends(s: State, w: nat, i: nat, token: string, days: int)
    requires TablesOk(s) && token !in s.issued && ResendInvite(s, w, i, token, days).Ok?
    ensures Spent(ResendInvite(s, w, i, token, days).value, s.invites[i].digest.raw)
    ensures !Spent(ResendInvite(s, w, i, token, days).value, token)
  {
    var t := ResendInvite(s, w, i, token, days).value;
    forall j: nat | j < |s.invites| && j != i ensures t.invites[j].digest != s.invites[i].digest {
      assert Distinct(s, i, j);
    }
    assert t.invites[i].digest == Sha256(token) && t.invites[i].status == Pending;
  }

  lemma {:induction false} LookupFinds(s: State, token: string, i: nat, n: nat)
    requires i < n <= |s.invites| && Matches(s, i, token)
    requires forall j: nat | j < |s.invites| && j != i :: s.invites[j].digest != Sha256(token)
    ensures Lookup(s, token, n) == Some(i)
  {
  }

  /** A new token opens its invite, and no other, for as many days as the setting says, but for one at
      least; the same holds for the token of a resend. */
  lemma NewTokenOpensItsInvite(s: State, step: Step, now: int)
    requires TablesOk(s) && (step.Create? || step.Resend?)
    requires |step.token| >= MIN_TOKEN_LENGTH && step.token !in s.issued && Outcome(s, step).Ok?
    ensures var t := Apply(s, step).(now := now);
            var i := if step.Create? then |s.invites| else step.i;
            && i < |t.invites| && t.invites[i].workshop == step.w
            && Lookup(t, step.token, |t.invites|) == Some(i)
            && PreviewInvite(t, step.token) ==
               if now <= s.now + step.days * 86400 || now <= s.now + 86400 then Ok(step.w) else Err(InviteExpired)
  {
    var t := Apply(s, step).(now := now);
    var i := if step.Create? then |s.invites| else step.i;
    forall j: nat | j < |t.invites| && j != i ensures t.invites[j].digest != Sha256(step.token) {
      assert t.invites[j] == s.invites[j] && s.invites[j].digest.raw in s.issued;
    }
    LookupFinds(t, step.token, i, |t.invites|);
  }

  /** In every reachable state at most one invite per workshop and address is pending. */
  lemma OnePendingPerAddress(s: State, steps: seq<Step>, i: nat, j: nat)
    requires Initial(s) && i < |Exec(s, steps).invites| && j < |Exec(s, steps).invites|
    requires var a, b := Exec(s, steps).invites[i], Exec(s, steps).invites[j];
             a.status == Pending && b.status == Pending && a.workshop == b.workshop && a.email == b.email
    ensures i == j
  {
    InvAlways(s, steps);
    assert i != j ==> Distinct(Exec(s, steps), i, j);
  }

  /** Preview says valid exactly when redemption passes its token, expiry and status checks. */
  lemma PreviewAgreesWithRedeem(s: State, user: nat, email: string, token: string)
    ensures var preview, redeem := PreviewInvite(s, token), RedeemInvite(s, user, email, token);
            && (preview.Ok? <==> redeem.Ok? || redeem.error !in {InvalidToken, InviteNotFound, InviteExpired, NotPending})
            && (preview.Err? ==> redeem == Err(preview.error))
  {
  }
}
