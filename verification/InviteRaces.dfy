/**
 Invite requests as concurrent transactions: the reads, the guarded UPDATE (or the INSERT) and the
 commit of a request are separate steps under READ COMMITTED.

 A guarded UPDATE waits while another transaction has the row locked, and then looks at its guard
 again.  The seat checks may refuse a request at any time; that is the step that aborts.
 */
module InviteRaces {
  import opened Wrappers
  import opened Invites
  import Runs

  datatype Request =
    | CreateRequest(w: nat, email: string, token: string, expiresAt: int)
    | ResendRequest(w: nat, i: nat, token: string, expiresAt: int)
    | RevokeRequest(w: nat, i: nat)
    | RedeemRequest(user: nat, email: string, token: string)
  {
    /** The request writes this new token. */
    predicate Makes(t: string) { (CreateRequest? || ResendRequest?) && token == t }
  }

  datatype Reply = Success | Refused

  datatype Phase =
    | Fresh
    | Checked(i: nat)                     // the reads and their checks have passed
    | Adding(invite: Invite)              // INSERT done, not committed
    | Changing(i: nat, invite: Invite)    // the UPDATE has found its row and locked it
    | Missed                              // the UPDATE has found no row
    | Done(reply: Reply)

  datatype Tx = Tx(request: Request, phase: Phase) {
    predicate Open() { !phase.Done? }
    predicate Locks(j: nat) { phase.Changing? && phase.i == j }
    predicate Adds(w: nat, email: string) { phase.Adding? && phase.invite.workshop == w && phase.invite.email == email }
  }

  /** What is committed, and the transactions. */
  datatype Db = Db(now: int, invites: seq<Invite>, seated: set<(nat, nat)>, issued: set<string>, txs: seq<Tx>) {
    predicate Locked(j: nat) { exists t | 0 <= t < |txs| :: txs[t].Locks(j) }

    predicate BeingAdded(w: nat, email: string) { exists t | 0 <= t < |txs| :: txs[t].Adds(w, email) }

    function Move(t: nat, phase: Phase): Db
      requires t < |txs|
    {
      this.(txs := txs[t := txs[t].(phase := phase)])
    }
  }

  datatype Event =
    | Pass(d: nat)
    | Arrive(request: Request)
    | Read(t: nat)
    | Write(t: nat)
    | Commit(t: nat)
    | Abort(t: nat)
  {
    predicate ByTx() { !Pass? && !Arrive? }
  }

  predicate IsPending(invites: seq<Invite>, j: nat) {
    j < |invites| && invites[j].status == Pending
  }

  predicate HasToken(invites: seq<Invite>, j: nat, token: string) {
    j < |invites| && invites[j].digest == Sha256(token)
  }

  /** The invite with a token, among the first n. */
  function FindBelow(invites: seq<Invite>, token: string, n: nat): (found: Option<nat>)
    requires n <= |invites|
    ensures found.Some? ==> HasToken(invites, found.value, token)
    ensures found.None? ==> forall j: nat | j < n :: !HasToken(invites, j, token)
  {
    if n == 0 then None else if HasToken(invites, n - 1, token) then Some(n - 1) else FindBelow(invites, token, n - 1)
  }

  function Find(invites: seq<Invite>, token: string): (found: Option<nat>)
    ensures found.Some? ==> HasToken(invites, found.value, token)
    ensures found.None? ==> forall j: nat :: !HasToken(invites, j, token)
  {
    FindBelow(invites, token, |invites|)
  }

  /** The checks that precede the writing statement. */
  function ReadStep(s: Db, t: nat): Db
    requires t < |s.txs| && s.txs[t].phase.Fresh?
  {
    match s.txs[t].request
    case CreateRequest(_, _, _, _) => s.Move(t, Checked(0))
    case RevokeRequest(_, i) => s.Move(t, Checked(i))
    case ResendRequest(w, i, _, _) =>
      s.Move(t, if IsPending(s.invites, i) && s.invites[i].workshop == w then Checked(i) else Done(Refused))
    case RedeemRequest(_, email, token) =>
      var found := Find(s.invites, token);
      s.Move(t, if found.Some? && Admits(s, found.value, email, token) then Checked(found.value) else Done(Refused))
  }

  /** What redeem_invite checks of the token, the time, the status and the address. */
  predicate Admits(s: Db, i: nat, email: string, token: string) {
    |token| >= MIN_TOKEN_LENGTH && IsPending(s.invites, i) && s.now <= s.invites[i].expiresAt && s.invites[i].email == email
  }

  /** UPDATE workshop_invites SET ... WHERE ... AND status = 'pending' */
  function GuardedUpdate(s: Db, t: nat, j: nat, invite: Invite): Db
    requires t < |s.txs|
  {
    if s.Locked(j) then s else s.Move(t, if IsPending(s.invites, j) then Changing(j, invite) else Missed)
  }

  function WriteStep(s: Db, t: nat): Db
    requires t < |s.txs| && s.txs[t].phase.Checked?
  {
    match s.txs[t].request
    case CreateRequest(w, email, token, expiresAt) =>
      if s.BeingAdded(w, email) || exists j: nat | j < |s.invites| :: Occupies(s.invites, j, w, email) && s.Locked(j) then s
      else if exists j: nat | j < |s.invites| :: Occupies(s.invites, j, w, email) then s.Move(t, Done(Refused))
      else s.Move(t, Adding(Invite(w, email, Sha256(token), Pending, expiresAt, None)))
    case ResendRequest(_, i, token, expiresAt) =>
      if i >= |s.invites| then s.Move(t, Missed)
      else GuardedUpdate(s, t, i, s.invites[i].(digest := Sha256(token), expiresAt := expiresAt))
    case RevokeRequest(w, i) =>
      if i >= |s.invites| || s.invites[i].workshop != w then s.Move(t, Missed)
      else GuardedUpdate(s, t, i, s.invites[i].(status := Revoked))
    case RedeemRequest(user, _, token) =>
      match Find(s.invites, token)
      case None => s.Move(t, Missed)
      case Some(j) => GuardedUpdate(s, t, j, s.invites[j].(status := Accepted, acceptedBy := Some(user)))
  }

  /** A committed invite that the partial unique index holds against another for the same address. */
  predicate Occupies(invites: seq<Invite>, j: nat, w: nat, email: string) {
    IsPending(invites, j) && invites[j].workshop == w && invites[j].email == email
  }

  /** The end of a request.  redeem_invite and revoke_invite refuse when their UPDATE has found no row;
      resend_invite does not look, and reports success. */
  function CommitStep(s: Db, t: nat): Db
    requires t < |s.txs|
  {
    var tx := s.txs[t];
    match tx.phase
    case Adding(invite) => s.Move(t, Done(Success)).(invites := s.invites + [invite])
    case Changing(i, invite) =>
      if i >= |s.invites| then s
      else
        s.Move(t, Done(Success))
         .(invites := s.invites[i := invite],
           seated := if tx.request.RedeemRequest? then s.seated + {(invite.workshop, tx.request.user)} else s.seated)
    case Missed => s.Move(t, Done(if tx.request.ResendRequest? then Success else Refused))
    case _ => s
  }

  /** One step.  A step that is not enabled changes nothing.  A new token has not been issued before. */
  function Advance(s: Db, event: Event): Db {
    match event
    case Pass(d) => s.(now := s.now + d)
    case Arrive(request) =>
      if request.CreateRequest? || request.ResendRequest? then
        if request.token in s.issued then s
        else s.(issued := s.issued + {request.token}, txs := s.txs + [Tx(request, Fresh)])
      else s.(txs := s.txs + [Tx(request, Fresh)])
    case Read(t) => if t < |s.txs| && s.txs[t].phase.Fresh? then ReadStep(s, t) else s
    case Write(t) => if t < |s.txs| && s.txs[t].phase.Checked? then WriteStep(s, t) else s
    case Commit(t) => if t < |s.txs| then CommitStep(s, t) else s
    case Abort(t) => if t < |s.txs| && s.txs[t].Open() then s.Move(t, Done(Refused)) else s
  }

  function Run(s: Db, events: seq<Event>): Db {
    Runs.Exec(Advance, s, events)
  }

  predicate Start(s: Db) {
    s.invites == [] && s.seated == {} && s.issued == {} && s.txs == []
  }

  // ---------------------------------------------------------------- what every interleaving keeps

  /** Committed digests are unique, and so are the addresses of pending invites. */
  ghost predicate Separate(invites: seq<Invite>, i: nat, j: nat)
    requires i < |invites| && j < |invites|
  {
    && invites[i].digest != invites[j].digest
    && (invites[i].status == Pending ==> !Occupies(invites, j, invites[i].workshop, invites[i].email))
  }

  ghost predicate RowsOk(s: Db) {
    && (forall i: nat, j: nat | i < |s.invites| && j < |s.invites| && i != j :: Separate(s.invites, i, j))
    && (forall i: nat | i < |s.invites| :: RowOk(s, i))
  }

  ghost predicate RowOk(s: Db, i: nat)
    requires i < |s.invites|
  {
    && s.invites[i].digest.raw in s.issued
    && (s.invites[i].status == Accepted ==>
          s.invites[i].acceptedBy.Some? && (s.invites[i].workshop, s.invites[i].acceptedBy.value) in s.seated)
  }

  /** What a locked row will become. */
  predicate Becomes(was: Invite, request: Request, now: Invite) {
    match request
    case CreateRequest(_, _, _, _) => false
    case ResendRequest(_, _, token, expiresAt) => now == was.(digest := Sha256(token), expiresAt := expiresAt)
    case RevokeRequest(w, _) => was.workshop == w && now == was.(status := Revoked)
    case RedeemRequest(user, _, token) =>
      was.digest == Sha256(token) && now == was.(status := Accepted, acceptedBy := Some(user))
  }

  ghost predicate TxOk(s: Db, tx: Tx) {
    && (tx.request.CreateRequest? || tx.request.ResendRequest? ==>
          tx.request.token in s.issued && (tx.Open() ==> forall j: nat :: !HasToken(s.invites, j, tx.request.token)))
    && (tx.phase.Changing? ==>
          && IsPending(s.invites, tx.phase.i) && Becomes(s.invites[tx.phase.i], tx.request, tx.phase.invite)
          && (tx.request.ResendRequest? || tx.request.RevokeRequest? ==> tx.phase.i == tx.request.i))
    && (tx.phase.Adding? ==>
          && tx.request.CreateRequest?
          && tx.phase.invite == Invite(tx.request.w, tx.request.email, Sha256(tx.request.token), Pending, tx.request.expiresAt, None)
          && forall j: nat :: !Occupies(s.invites, j, tx.request.w, tx.request.email))
  }

  ghost predicate Apart(s: Db, t: nat, u: nat)
    requires t < |s.txs| && u < |s.txs|
  {
    var a, b := s.txs[t], s.txs[u];
    && (a.phase.Changing? && b.phase.Changing? ==> a.phase.i != b.phase.i)
    && (a.phase.Adding? ==> !b.Adds(a.phase.invite.workshop, a.phase.invite.email))
    && ((a.request.CreateRequest? || a.request.ResendRequest?) ==> !b.request.Makes(a.request.token))
  }

  ghost predicate AllOk(s: Db) {
    && RowsOk(s)
    && (forall t: nat | t < |s.txs| :: TxOk(s, s.txs[t]))
    && (forall t: nat, u: nat | t < |s.txs| && u < |s.txs| && t != u :: Apart(s, t, u))
  }

  /** How the committed invites can change at one step. */
  datatype Change = Same | Added(t: nat) | Changed(t: nat)

  function ChangeBy(s: Db, event: Event): Change {
    if event.Commit? && event.t < |s.txs| && s.txs[event.t].phase.Adding? then Added(event.t)
    else if event.Commit? && event.t < |s.txs| && s.txs[event.t].phase.Changing? && s.txs[event.t].phase.i < |s.invites| then
      Changed(event.t)
    else Same
  }

  /** The committed invites after a change by transaction t. */
  function After(s: Db, change: Change): seq<Invite> {
    match change
    case Same => s.invites
    case Added(t) => if t < |s.txs| && s.txs[t].phase.Adding? then s.invites + [s.txs[t].phase.invite] else s.invites
    case Changed(t) =>
      if t < |s.txs| && s.txs[t].phase.Changing? && s.txs[t].phase.i < |s.invites| then
        s.invites[s.txs[t].phase.i := s.txs[t].phase.invite]
      else s.invites
  }

  lemma AddedSeparate(s: Db, t: nat, i: nat, j: nat)
    requires AllOk(s) && t < |s.txs| && s.txs[t].phase.Adding?
    requires i < |After(s, Added(t))| && j < |After(s, Added(t))| && i != j
    ensures Separate(After(s, Added(t)), i, j)
  {
    var tx, after := s.txs[t], After(s, Added(t));
    assert TxOk(s, tx);
    assert !HasToken(s.invites, i, tx.request.token) && !HasToken(s.invites, j, tx.request.token);
    assert !Occupies(s.invites, i, tx.request.w, tx.request.email) && !Occupies(s.invites, j, tx.request.w, tx.request.email);
    if i < |s.invites| && j < |s.invites| { assert Separate(s.invites, i, j); }
  }

  lemma ChangedSeparate(s: Db, t: nat, i: nat, j: nat)
    requires AllOk(s) && t < |s.txs| && s.txs[t].phase.Changing? && s.txs[t].phase.i < |s.invites|
    requires i < |s.invites| && j < |s.invites| && i != j
    ensures |After(s, Changed(t))| == |s.invites| && Separate(After(s, Changed(t)), i, j)
  {
    var tx := s.txs[t];
    assert TxOk(s, tx) && Separate(s.invites, i, j) && Separate(s.invites, j, i);
    if tx.request.ResendRequest? {
      assert !HasToken(s.invites, i, tx.request.token) && !HasToken(s.invites, j, tx.request.token);
    }
  }

  lemma RowOkStep(s: Db, event: Event, i: nat)
    requires AllOk(s) && i < |Advance(s, event).invites|
    ensures RowOk(Advance(s, event), i)
  {
    if i < |s.invites| { assert RowOk(s, i); }
    if ChangeBy(s, event).Added? || ChangeBy(s, event).Changed? { assert TxOk(s, s.txs[event.t]); }
  }

  lemma RowsStep(s: Db, event: Event)
    requires AllOk(s)
    ensures RowsOk(Advance(s, event))
  {
    var r := Advance(s, event);
    forall i: nat, j: nat | i < |r.invites| && j < |r.invites| && i != j ensures Separate(r.invites, i, j) {
      match ChangeBy(s, event)
      case Same => assert Separate(s.invites, i, j);
      case Added(t) => AddedSeparate(s, t, i, j);
      case Changed(t) => ChangedSeparate(s, t, i, j);
    }
    forall i: nat | i < |r.invites| ensures RowOk(r, i) { RowOkStep(s, event, i); }
  }

  /** A transaction keeps what it knows when another one commits. */
  lemma OtherTxOk(s: Db, r: Db, change: Change, u: nat)
    requires AllOk(s) && u < |s.txs| && r.invites == After(s, change) && s.issued <= r.issued
    requires change.Added? || change.Changed? ==> change.t < |s.txs| && change.t != u && TxOk(s, s.txs[change.t])
    ensures TxOk(r, s.txs[u])
  {
    var tx := s.txs[u];
    assert TxOk(s, tx);
    if change.Added? || change.Changed? {
      assert Apart(s, change.t, u) && Apart(s, u, change.t);
      if (tx.request.CreateRequest? || tx.request.ResendRequest?) && tx.Open() {
        forall j: nat ensures !HasToken(r.invites, j, tx.request.token) {
          assert !HasToken(s.invites, j, tx.request.token);
        }
      }
      if tx.phase.Adding? {
        forall j: nat ensures !Occupies(r.invites, j, tx.request.w, tx.request.email) {
          assert !Occupies(s.invites, j, tx.request.w, tx.request.email);
        }
      }
    }
  }

  lemma TxFrame(s: Db, event: Event, u: nat)
    requires u < |s.txs| && (!event.ByTx() || event.t != u)
    ensures |s.txs| <= |Advance(s, event).txs| && Advance(s, event).txs[u] == s.txs[u]
  {
  }

  lemma OwnTxOk(s: Db, event: Event)
    requires AllOk(s) && event.ByTx() && event.t < |s.txs|
    ensures TxOk(Advance(s, event), Advance(s, event).txs[event.t])
  {
    assert TxOk(s, s.txs[event.t]);
  }

  lemma NewTxOk(s: Db, event: Event, u: nat)
    requires AllOk(s) && |s.txs| <= u < |Advance(s, event).txs|
    ensures TxOk(Advance(s, event), Advance(s, event).txs[u])
  {
    forall j: nat | j < |s.invites| ensures s.invites[j].digest.raw in s.issued { assert RowOk(s, j); }
  }

  /** A row or an address is taken only by the transaction that moves, and only when it was free. */
  lemma TakesFree(s: Db, event: Event, u: nat)
    requires u < |Advance(s, event).txs|
    ensures var r := Advance(s, event);
            && (u < |s.txs| ==> r.txs[u].request == s.txs[u].request)
            && (u >= |s.txs| ==> event.Arrive? && u == |s.txs| && r.txs[u] == Tx(event.request, Fresh))
            && (r.txs[u].phase.Changing? ==>
                  u < |s.txs| && (s.txs[u].phase == r.txs[u].phase || (event.ByTx() && event.t == u && !s.Locked(r.txs[u].phase.i))))
            && (r.txs[u].phase.Adding? ==>
                  u < |s.txs| &&
                  (s.txs[u].phase == r.txs[u].phase
                   || (event.ByTx() && event.t == u && !s.BeingAdded(r.txs[u].phase.invite.workshop, r.txs[u].phase.invite.email))))
  {
  }

  lemma ApartStep(s: Db, event: Event, t: nat, u: nat)
    requires AllOk(s) && t < |Advance(s, event).txs| && u < |Advance(s, event).txs| && t != u
    ensures Apart(Advance(s, event), t, u)
  {
    TakesFree(s, event, t);
    TakesFree(s, event, u);
    if t < |s.txs| { assert TxOk(s, s.txs[t]); }
    if u < |s.txs| { assert TxOk(s, s.txs[u]); }
    if t < |s.txs| && u < |s.txs| { assert Apart(s, t, u) && Apart(s, u, t); }
  }

  lemma AllOkStep(s: Db, event: Event)
    requires AllOk(s)
    ensures AllOk(Advance(s, event))
  {
    RowsStep(s, event);
    var r := Advance(s, event);
    forall u: nat | u < |r.txs| ensures TxOk(r, r.txs[u]) {
      if u >= |s.txs| {
        NewTxOk(s, event, u);
      } else if event.ByTx() && event.t == u {
        OwnTxOk(s, event);
      } else {
        TxFrame(s, event, u);
        OtherTxOk(s, r, ChangeBy(s, event), u);
      }
    }
    forall t: nat, u: nat | t < |r.txs| && u < |r.txs| && t != u ensures Apart(r, t, u) { ApartStep(s, event, t, u); }
  }

  lemma AllOkAlways(s: Db, events: seq<Event>)
    requires Start(s)
    ensures AllOk(Run(s, events))
  {
    forall t: Db, event: Event | AllOk(t) ensures AllOk(Advance(t, event)) {
      AllOkStep(t, event);
    }
    Runs.Always(Advance, AllOk, s, events);
  }

  // ---------------------------------------------------------------- results over every interleaving

  /** A commit that takes an invite out of `pending`. */
  predicate Takes(s: Db, event: Event, i: nat) {
    && event.Commit? && event.t < |s.txs| && s.txs[event.t].Locks(i)
    && s.txs[event.t].phase.invite.status != Pending
  }

  function Takings(s: Db, events: seq<Event>, i: nat): nat
    decreases |events|
  {
    if events == [] then 0
    else
      var before := events[..|events| - 1];
      Takings(s, before, i) + if Takes(Run(s, before), events[|events| - 1], i) then 1 else 0
  }

  /** However requests race, exactly as many commits have taken an invite as it has left `pending`: none while
      it is pending, and one ever after. */
  lemma {:induction false} TakenOnce(s: Db, events: seq<Event>, i: nat)
    requires Start(s)
    ensures var r := Run(s, events);
            Takings(s, events, i) == if i < |r.invites| && r.invites[i].status != Pending then 1 else 0
    decreases |events|
  {
    if events != [] {
      var before, event := events[..|events| - 1], events[|events| - 1];
      TakenOnce(s, before, i);
      AllOkAlways(s, before);
      var r := Run(s, before);
      if i < |Advance(r, event).invites| {
      } else {
      }
    }
  }

  /** A commit that redeems a token. */
  predicate Redeems(s: Db, event: Event, token: string) {
    && event.Commit? && event.t < |s.txs| && s.txs[event.t].phase.Changing?
    && s.txs[event.t].request.RedeemRequest? && s.txs[event.t].request.token == token
  }

  function Redemptions(s: Db, events: seq<Event>, token: string): nat
    decreases |events|
  {
    if events == [] then 0
    else
      var before := events[..|events| - 1];
      Redemptions(s, before, token) + if Redeems(Run(s, before), events[|events| - 1], token) then 1 else 0
  }

  /** The token was issued, no pending invite carries it, and no open request is about to write it. */
  ghost predicate Dead(s: Db, token: string) {
    && token in s.issued
    && (forall j: nat | HasToken(s.invites, j, token) :: s.invites[j].status != Pending)
    && (forall t: nat | t < |s.txs| && s.txs[t].request.Makes(token) :: !s.txs[t].Open())
  }

  lemma DeadStep(s: Db, event: Event, token: string)
    requires AllOk(s) && Dead(s, token)
    ensures Dead(Advance(s, event), token) && !Redeems(s, event, token)
  {
    var r := Advance(s, event);
    forall j: nat | HasToken(r.invites, j, token) ensures r.invites[j].status != Pending {}
    forall t: nat | t < |r.txs| && r.txs[t].request.Makes(token) ensures !r.txs[t].Open() {}
  }

  /** A dead token is redeemed by nobody, however early the request had read it. */
  lemma {:induction false} DeadIsForever(s: Db, events: seq<Event>, token: string)
    requires AllOk(s) && Dead(s, token)
    ensures AllOk(Run(s, events)) && Dead(Run(s, events), token) && Redemptions(s, events, token) == 0
    decreases |events|
  {
    if events != [] {
      var before := events[..|events| - 1];
      DeadIsForever(s, before, token);
      AllOkStep(Run(s, before), events[|events| - 1]);
      DeadStep(Run(s, before), events[|events| - 1], token);
    }
  }

  lemma OnlyOne(s: Db, i: nat, j: nat, token: string)
    requires RowsOk(s)
    ensures i != j && HasToken(s.invites, i, token) ==> !HasToken(s.invites, j, token)
    ensures i != j && IsPending(s.invites, i) ==> !Occupies(s.invites, j, s.invites[i].workshop, s.invites[i].email)
  {
    if i != j && i < |s.invites| && j < |s.invites| { assert Separate(s.invites, i, j); }
  }

  /** The commit of a resend, a revocation or a redemption kills the token that its invite had. */
  lemma UpdateKillsToken(s: Db, t: nat)
    requires AllOk(s) && t < |s.txs| && s.txs[t].phase.Changing?
    ensures s.txs[t].phase.i < |s.invites| && Dead(Advance(s, Commit(t)), s.invites[s.txs[t].phase.i].digest.raw)
  {
    var tx, i := s.txs[t], s.txs[t].phase.i;
    assert TxOk(s, tx) && RowOk(s, i);
    var r, token := Advance(s, Commit(t)), s.invites[i].digest.raw;
    assert HasToken(s.invites, i, token);
    if tx.request.ResendRequest? { assert !HasToken(s.invites, i, tx.request.token); }
    forall j: nat | HasToken(r.invites, j, token) ensures r.invites[j].status != Pending {
      OnlyOne(s, i, j, token);
    }
    forall u: nat | u < |r.txs| && r.txs[u].request.Makes(token) ensures !r.txs[u].Open() {
      assert TxOk(s, s.txs[u]);
    }
  }

  /** Over every interleaving a token is redeemed at most once. */
  lemma {:induction false} RedeemedOnce(s: Db, events: seq<Event>, token: string)
    requires Start(s)
    ensures Redemptions(s, events, token) <= 1
    ensures Redemptions(s, events, token) == 1 ==> Dead(Run(s, events), token)
    decreases |events|
  {
    if events != [] {
      var before, event := events[..|events| - 1], events[|events| - 1];
      RedeemedOnce(s, before, token);
      AllOkAlways(s, before);
      var r := Run(s, before);
      if Redemptions(s, before, token) == 1 {
        DeadStep(r, event, token);
      } else if Redeems(r, event, token) {
        UpdateKillsToken(r, event.t);
      }
    }
  }

  /** In every reachable state at most one committed invite per workshop and address is pending. */
  lemma OnePendingEver(s: Db, events: seq<Event>, i: nat, j: nat)
    requires Start(s)
    requires var invites := Run(s, events).invites;
             IsPending(invites, i) && Occupies(invites, j, invites[i].workshop, invites[i].email)
    ensures i == j
  {
    AllOkAlways(s, events);
    OnlyOne(Run(s, events), i, j, "");
  }

  /** Every accepted invite has its seat, committed together with it. */
  lemma AcceptedIsSeated(s: Db, events: seq<Event>, i: nat)
    requires Start(s) && i < |Run(s, events).invites| && Run(s, events).invites[i].status == Accepted
    ensures var r := Run(s, events);
            r.invites[i].acceptedBy.Some? && (r.invites[i].workshop, r.invites[i].acceptedBy.value) in r.seated
  {
    AllOkAlways(s, events);
    assert RowOk(Run(s, events), i);
  }

  /** An open or refused request to redeem a dead token never succeeds. */
  lemma {:induction false} DeadIsRefused(s: Db, later: seq<Event>, u: nat)
    requires AllOk(s) && u < |s.txs| && s.txs[u].request.RedeemRequest? && s.txs[u].phase != Done(Success)
    requires Dead(s, s.txs[u].request.token)
    ensures var r := Run(s, later);
            u < |r.txs| && r.txs[u].request == s.txs[u].request && r.txs[u].phase != Done(Success)
  {
    if later != [] {
      var before, event := later[..|later| - 1], later[|later| - 1];
      DeadIsRefused(s, before, u);
      DeadIsForever(s, before, s.txs[u].request.token);
      SuccessIsRedemption(Run(s, before), event, u);
      DeadStep(Run(s, before), event, s.txs[u].request.token);
    }
  }

  lemma SuccessIsRedemption(s: Db, event: Event, u: nat)
    requires u < |s.txs| && s.txs[u].request.RedeemRequest? && s.txs[u].phase != Done(Success) && !s.txs[u].phase.Adding?
    ensures u < |Advance(s, event).txs| && Advance(s, event).txs[u].request == s.txs[u].request
    ensures Advance(s, event).txs[u].phase == Done(Success) ==> Redeems(s, event, s.txs[u].request.token)
  {
  }

  /** A redemption that has read its token before a resend, a revocation or another redemption of the same
      invite commits is refused, whatever happens next. */
  lemma LateRedemptionIsRefused(s: Db, events: seq<Event>, t: nat, u: nat, later: seq<Event>)
    requires Start(s)
    requires var r := Run(s, events);
             && t < |r.txs| && u < |r.txs| && t != u && r.txs[t].phase.Changing? && r.txs[t].phase.i < |r.invites|
             && r.txs[u].request.RedeemRequest? && r.txs[u].Open()
             && r.invites[r.txs[t].phase.i].digest == Sha256(r.txs[u].request.token)
    ensures var end := Run(Advance(Run(s, events), Commit(t)), later);
            && u < |end.txs| && end.txs[u].phase != Done(Success)
            && Redemptions(Advance(Run(s, events), Commit(t)), later, Run(s, events).txs[u].request.token) == 0
  {
    AllOkAlways(s, events);
    var r := Run(s, events);
    UpdateKillsToken(r, t);
    AllOkStep(r, Commit(t));
    TxFrame(r, Commit(t), u);
    DeadIsForever(Advance(r, Commit(t)), later, r.txs[u].request.token);
    DeadIsRefused(Advance(r, Commit(t)), later, u);
  }

  // ---------------------------------------------------------------- what resend answers

  /** A pending invite is reached by the token. */
  predicate Alive(s: Db, token: string) {
    exists j: nat | j < |s.invites| :: HasToken(s.invites, j, token) && IsPending(s.invites, j)
  }

  /** A resend whose statement is not blocked reports success if it commits, but its new token is alive
      exactly if the invite was still pending at the statement: resend_invite does not look at the row count. */
  lemma ResendIsAliveIff(s: Db, events: seq<Event>, t: nat)
    requires Start(s)
    requires var r := Run(s, events);
             t < |r.txs| && r.txs[t].request.ResendRequest? && r.txs[t].phase.Checked? && !r.Locked(r.txs[t].request.i)
    ensures var r := Run(s, events);
            var end := Advance(Advance(r, Write(t)), Commit(t));
            && end.txs[t].phase == Done(Success)
            && (Alive(end, r.txs[t].request.token) <==> IsPending(r.invites, r.txs[t].request.i))
  {
    AllOkAlways(s, events);
    var r := Run(s, events);
    var token, i := r.txs[t].request.token, r.txs[t].request.i;
    assert TxOk(r, r.txs[t]);
    var written := Advance(r, Write(t));
    var end := Advance(written, Commit(t));
    assert written.invites == r.invites;
    if IsPending(r.invites, i) {
      assert end.invites == r.invites[i := r.invites[i].(digest := Sha256(token), expiresAt := r.txs[t].request.expiresAt)];
      assert HasToken(end.invites, i, token) && IsPending(end.invites, i);
    } else {
      assert written.txs[t].phase == Missed && end.invites == r.invites;
      forall j: nat ensures !HasToken(end.invites, j, token) {}
    }
  }

  // ---------------------------------------------------------------- what an insert does

  /** The INSERT of an invite against the partial unique index: it waits while another transaction is adding an
      invite for the address or has the pending one locked; otherwise it is refused exactly if the workshop
      has a committed pending invite for the address. */
  lemma InsertOutcome(s: Db, t: nat)
    requires t < |s.txs| && s.txs[t].request.CreateRequest? && s.txs[t].phase.Checked?
    ensures var request, phase := s.txs[t].request, Advance(s, Write(t)).txs[t].phase;
            var added := exists u | 0 <= u < |s.txs| ::
                           && s.txs[u].phase.Adding?
                           && s.txs[u].phase.invite.workshop == request.w && s.txs[u].phase.invite.email == request.email;
            var pending := exists i: nat | i < |s.invites| ::
                             s.invites[i].workshop == request.w && s.invites[i].email == request.email && s.invites[i].status == Pending;
            var held := exists i: nat, u: nat | i < |s.invites| && u < |s.txs| ::
                          && s.invites[i].workshop == request.w && s.invites[i].email == request.email && s.invites[i].status == Pending
                          && s.txs[u].phase.Changing? && s.txs[u].phase.i == i;
            && (phase.Checked? <==> added || held)
            && (phase == Done(Refused) <==> !added && !held && pending)
            && (!added && !pending ==>
                  phase == Adding(Invite(request.w, request.email, Sha256(request.token), Pending, request.expiresAt, None)))
  {
    var request := s.txs[t].request;
    forall i: nat | i < |s.invites|
      ensures Occupies(s.invites, i, request.w, request.email) <==>
              s.invites[i].workshop == request.w && s.invites[i].email == request.email && s.invites[i].status == Pending
    {}
    forall i: nat, u: nat | i < |s.invites| && u < |s.txs| && s.txs[u].phase.Changing? && s.txs[u].phase.i == i ensures s.Locked(i) {
      assert s.txs[u].Locks(i);
    }
    forall u | 0 <= u < |s.txs| && s.txs[u].Adds(request.w, request.email) ensures s.BeingAdded(request.w, request.email) {}
  }

  // ---------------------------------------------------------------- races

  lemma Next(s: Db, events: seq<Event>, event: Event, r: Db)
    requires Advance(Run(s, events), event) == r
    ensures Run(s, events + [event]) == r
  {
    Runs.ExecSnoc(Advance, s, events, event);
  }

  /** One pending invite, with a given token. */
  function Inviting(s: Db, token: string): Db {
    s.(invites := [Invite(0, "guest", Sha256(token), Pending, s.now, None)], issued := {token},
       txs := [Tx(CreateRequest(0, "guest", token, s.now), Done(Success))])
  }

  function Guest(s: Db, token: string): Invite { Invite(0, "guest", Sha256(token), Pending, s.now, None) }

  /** The request that makes it, in a given phase. */
  function Making(s: Db, token: string, phase: Phase): Db {
    s.(issued := {token}, txs := [Tx(CreateRequest(0, "guest", token, s.now), phase)])
  }

  lemma GuestIsAdded(s: Db, token: string)
    requires Start(s)
    ensures Advance(Making(s, token, Checked(0)), Write(0)) == Making(s, token, Adding(Guest(s, token)))
  {
    var r := Making(s, token, Checked(0));
    assert !r.BeingAdded(0, "guest") && r.invites == [];
  }

  lemma InviteIsMade(s: Db, token: string) returns (events: seq<Event>)
    requires Start(s)
    ensures Run(s, events) == Inviting(s, token)
  {
    var create := CreateRequest(0, "guest", token, s.now);
    events := [];
    assert s.issued + {token} == {token} && s.txs + [Tx(create, Fresh)] == [Tx(create, Fresh)];
    Next(s, events, Arrive(create), Making(s, token, Fresh));
    events := events + [Arrive(create)];
    Next(s, events, Read(0), Making(s, token, Checked(0)));
    events := events + [Read(0)];
    GuestIsAdded(s, token);
    Next(s, events, Write(0), Making(s, token, Adding(Guest(s, token))));
    events := events + [Write(0)];
    Next(s, events, Commit(0), Inviting(s, token));
    events := events + [Commit(0)];
  }

  /** Two more requests on that invite. */
  function With(s: Db, a: Tx, b: Tx): Db { s.(txs := s.txs + [a, b]) }

  /** A run in which resend_invite has read the invite, a revocation commits, and resend_invite reports success
      for a token that opens nothing. */
  lemma ResendInVain(s: Db, token: string, again: string) returns (events: seq<Event>)
    requires Start(s) && token != again
    ensures var r := Run(s, events);
            && |r.txs| == 3 && r.txs[1] == Tx(ResendRequest(0, 0, again, s.now), Done(Success))
            && !Alive(r, again) && !Alive(r, token)
  {
    var resend, revoke := ResendRequest(0, 0, again, s.now), RevokeRequest(0, 0);
    var made := Inviting(s, token);
    var r := made.(issued := {token, again});
    var revoked := r.invites[0].(status := Revoked);
    events := InviteIsMade(s, token);
    Next(s, events, Arrive(resend), r.(txs := r.txs + [Tx(resend, Fresh)]));
    events := events + [Arrive(resend)];
    Next(s, events, Arrive(revoke), With(r, Tx(resend, Fresh), Tx(revoke, Fresh)));
    events := events + [Arrive(revoke)];
    Next(s, events, Read(1), With(r, Tx(resend, Checked(0)), Tx(revoke, Fresh)));
    events := events + [Read(1)];
    Next(s, events, Read(2), With(r, Tx(resend, Checked(0)), Tx(revoke, Checked(0))));
    events := events + [Read(2)];
    assert !With(r, Tx(resend, Checked(0)), Tx(revoke, Checked(0))).Locked(0);
    Next(s, events, Write(2), With(r, Tx(resend, Checked(0)), Tx(revoke, Changing(0, revoked))));
    events := events + [Write(2)];
    var done := r.(invites := [revoked]);
    Next(s, events, Commit(2), With(done, Tx(resend, Checked(0)), Tx(revoke, Done(Success))));
    events := events + [Commit(2)];
    ResendMisses(s, events, done, resend, Tx(revoke, Done(Success)));
    events := events + [Write(1)] + [Commit(1)];
  }

  lemma ResendMisses(s: Db, events: seq<Event>, done: Db, resend: Request, other: Tx)
    requires Run(s, events) == With(done, Tx(resend, Checked(0)), other) && !other.phase.Changing?
    requires resend.ResendRequest? && resend.i == 0 && |done.invites| == 1 && done.invites[0].status == Revoked
    requires |done.txs| == 1 && done.txs[0].phase.Done?
    ensures Run(s, events + [Write(1)] + [Commit(1)]) == With(done, Tx(resend, Done(Success)), other)
  {
    assert !With(done, Tx(resend, Checked(0)), other).Locked(0);
    Next(s, events, Write(1), With(done, Tx(resend, Missed), other));
    Next(s, events + [Write(1)], Commit(1), With(done, Tx(resend, Done(Success)), other));
  }
}
