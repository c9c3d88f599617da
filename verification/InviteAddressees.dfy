/**
 For whom an invite was redeemed, when invite requests run beside each other: the address is checked when the
 token is read, the status again when the row is written, and the row may have been given a new token in between.
 */
module InviteAddressees {
  import opened Wrappers
  import opened Invites
  import opened InviteRaces
  import Runs

  /** Every invite that has the token is for this address, and no request will give the token to another. */
  ghost predicate MeantFor(s: Db, token: string, email: string) {
    && token in s.issued
    && (forall j: nat | HasToken(s.invites, j, token) :: s.invites[j].email == email)
    && (forall t: nat | t < |s.txs| && s.txs[t].request.Makes(token) :: !s.txs[t].Open())
  }

  /** A redemption that has passed the address check will only ever take an invite for this address. */
  ghost predicate RedeemerOk(s: Db, tx: Tx) {
    tx.request.RedeemRequest? ==>
      && (tx.phase.Checked? || tx.phase.Changing? ==> MeantFor(s, tx.request.token, tx.request.email))
      && (tx.phase.Changing? ==> tx.phase.invite.email == tx.request.email)
  }

  /** Transaction t has redeemed invite i, with its token, for its own user and under the invite's address. */
  ghost predicate RedeemedBy(s: Db, i: nat, t: nat)
    requires i < |s.invites|
  {
    && t < |s.txs| && s.txs[t].phase == Done(Success) && s.txs[t].request.RedeemRequest?
    && s.invites[i].acceptedBy == Some(s.txs[t].request.user) && s.invites[i].email == s.txs[t].request.email
    && s.invites[i].digest == Sha256(s.txs[t].request.token)
  }

  ghost predicate AddresseesOk(s: Db) {
    && (forall t: nat | t < |s.txs| :: RedeemerOk(s, s.txs[t]))
    && (forall i: nat | i < |s.invites| && s.invites[i].status == Accepted :: exists t: nat :: RedeemedBy(s, i, t))
  }

  lemma MeantForStep(s: Db, event: Event, token: string, email: string)
    requires AllOk(s) && MeantFor(s, token, email)
    ensures MeantFor(Advance(s, event), token, email)
  {
    var r := Advance(s, event);
    forall j: nat | HasToken(r.invites, j, token) ensures r.invites[j].email == email {}
    forall t: nat | t < |r.txs| && r.txs[t].request.Makes(token) ensures !r.txs[t].Open() {
      TakesFree(s, event, t);
    }
  }

  /** An invite that a request can read has no request left that would make its token. */
  lemma ReadMeansMeant(s: Db, i: nat, token: string)
    requires AllOk(s) && HasToken(s.invites, i, token)
    ensures MeantFor(s, token, s.invites[i].email)
  {
    assert RowOk(s, i);
    forall j: nat | HasToken(s.invites, j, token) ensures s.invites[j].email == s.invites[i].email { OnlyOne(s, i, j, token); }
    forall t: nat | t < |s.txs| && s.txs[t].request.Makes(token) ensures !s.txs[t].Open() { assert TxOk(s, s.txs[t]); }
  }

  lemma OwnRedeemerOk(s: Db, event: Event)
    requires AllOk(s) && AddresseesOk(s) && event.ByTx() && event.t < |s.txs|
    ensures RedeemerOk(Advance(s, event), Advance(s, event).txs[event.t])
  {
    var tx, r := s.txs[event.t], Advance(s, event);
    assert RedeemerOk(s, tx);
    if tx.request.RedeemRequest? {
      var token, email := tx.request.token, tx.request.email;
      var found := Find(s.invites, token);
      if event.Read? && tx.phase.Fresh? && found.Some? { ReadMeansMeant(s, found.value, token); }
      if MeantFor(s, token, email) {
        MeantForStep(s, event, token, email);
        assert found.Some? ==> s.invites[found.value].email == email;
      }
    }
  }

  lemma RedeemersStep(s: Db, event: Event)
    requires AllOk(s) && AddresseesOk(s)
    ensures forall t: nat | t < |Advance(s, event).txs| :: RedeemerOk(Advance(s, event), Advance(s, event).txs[t])
  {
    var r := Advance(s, event);
    forall t: nat | t < |r.txs| ensures RedeemerOk(r, r.txs[t]) {
      TakesFree(s, event, t);
      if t < |s.txs| {
        if event.ByTx() && event.t == t {
          OwnRedeemerOk(s, event);
        } else {
          TxFrame(s, event, t);
          assert RedeemerOk(s, s.txs[t]);
          if s.txs[t].request.RedeemRequest? && MeantFor(s, s.txs[t].request.token, s.txs[t].request.email) {
            MeantForStep(s, event, s.txs[t].request.token, s.txs[t].request.email);
          }
        }
      }
    }
  }

  lemma AcceptedStep(s: Db, event: Event, i: nat)
    requires AllOk(s) && AddresseesOk(s)
    requires i < |Advance(s, event).invites| && Advance(s, event).invites[i].status == Accepted
    ensures exists t: nat :: RedeemedBy(Advance(s, event), i, t)
  {
    var r := Advance(s, event);
    if i < |s.invites| && s.invites[i].status == Accepted {
      var t: nat :| RedeemedBy(s, i, t);
      assert RedeemedBy(r, i, t);
    } else {
      assert RedeemedBy(r, i, event.t);
    }
  }

  lemma AddresseesStep(s: Db, event: Event)
    requires AllOk(s) && AddresseesOk(s)
    ensures AddresseesOk(Advance(s, event))
  {
    RedeemersStep(s, event);
    var r := Advance(s, event);
    forall i: nat | i < |r.invites| && r.invites[i].status == Accepted ensures exists t: nat :: RedeemedBy(r, i, t) {
      AcceptedStep(s, event, i);
    }
  }

  lemma AddresseesAlways(s: Db, events: seq<Event>)
    requires Start(s)
    ensures AllOk(Run(s, events)) && AddresseesOk(Run(s, events))
  {
    forall t: Db, event: Event | AllOk(t) && AddresseesOk(t) ensures AllOk(Advance(t, event)) && AddresseesOk(Advance(t, event)) {
      AllOkStep(t, event);
      AddresseesStep(t, event);
    }
    Runs.Always(Advance, t => AllOk(t) && AddresseesOk(t), s, events);
  }

  /** However requests race, an accepted invite has been redeemed by a request that was made under the address of
      the invite, with its token, and for the user who has it now. */
  lemma AcceptedByItsAddressee(s: Db, events: seq<Event>, i: nat) returns (t: nat)
    requires Start(s) && i < |Run(s, events).invites| && Run(s, events).invites[i].status == Accepted
    ensures var r := Run(s, events);
            && t < |r.txs| && r.txs[t].phase == Done(Success) && r.txs[t].request.RedeemRequest?
            && r.txs[t].request.email == r.invites[i].email
            && r.invites[i].digest == Sha256(r.txs[t].request.token)
            && r.invites[i].acceptedBy == Some(r.txs[t].request.user)
  {
    AddresseesAlways(s, events);
    t :| RedeemedBy(Run(s, events), i, t);
  }

  /** A redemption passes its checks exactly if an invite with its token is pending, in its term and for its
      address when the token is read, and the token is long enough. */
  lemma ReadAdmitsIff(s: Db, events: seq<Event>, t: nat)
    requires Start(s)
    requires var r := Run(s, events); t < |r.txs| && r.txs[t].request.RedeemRequest? && r.txs[t].phase.Fresh?
    ensures var r := Run(s, events);
            var request, phase := r.txs[t].request, Advance(r, Read(t)).txs[t].phase;
            && (phase != Done(Refused) <==>
                  && |request.token| >= 20
                  && exists i: nat | i < |r.invites| && r.invites[i].digest == Sha256(request.token) ::
                       && r.invites[i].status == Pending && r.now <= r.invites[i].expiresAt
                       && r.invites[i].email == request.email)
            && (phase != Done(Refused) ==>
                  phase.Checked? && phase.i < |r.invites| && r.invites[phase.i].digest == Sha256(request.token))
  {
    AllOkAlways(s, events);
    var r := Run(s, events);
    var token := r.txs[t].request.token;
    var found := Find(r.invites, token);
    forall i: nat | i < |r.invites| && r.invites[i].digest == Sha256(token) ensures found == Some(i) {
      assert HasToken(r.invites, i, token);
      if found.Some? { OnlyOne(r, i, found.value, token); }
    }
  }

  /** A request under another address than that of the invite that has its token never takes any invite, whatever
      becomes of that invite and its token before the request is read or written. */
  lemma {:induction false} StrangerIsRefused(s: Db, later: seq<Event>, t: nat, email: string)
    requires AllOk(s) && t < |s.txs| && s.txs[t].request.RedeemRequest?
    requires s.txs[t].phase.Fresh? || s.txs[t].phase == Done(Refused)
    requires MeantFor(s, s.txs[t].request.token, email) && email != s.txs[t].request.email
    ensures var r := Run(s, later);
            && AllOk(r) && t < |r.txs| && r.txs[t].request == s.txs[t].request
            && (r.txs[t].phase.Fresh? || r.txs[t].phase == Done(Refused))
            && MeantFor(r, s.txs[t].request.token, email)
  {
    if later != [] {
      var before, event := later[..|later| - 1], later[|later| - 1];
      StrangerIsRefused(s, before, t, email);
      AllOkStep(Run(s, before), event);
      MeantForStep(Run(s, before), event, s.txs[t].request.token, email);
      StrangerStep(Run(s, before), event, t, email);
    }
  }

  lemma StrangerStep(s: Db, event: Event, t: nat, email: string)
    requires t < |s.txs| && s.txs[t].request.RedeemRequest?
    requires s.txs[t].phase.Fresh? || s.txs[t].phase == Done(Refused)
    requires MeantFor(s, s.txs[t].request.token, email) && email != s.txs[t].request.email
    ensures var r := Advance(s, event);
            && t < |r.txs| && r.txs[t].request == s.txs[t].request
            && (r.txs[t].phase.Fresh? || r.txs[t].phase == Done(Refused))
  {
    if event.ByTx() && event.t == t {
      var found := Find(s.invites, s.txs[t].request.token);
      assert found.Some? ==> s.invites[found.value].email == email;
    } else {
      TxFrame(s, event, t);
    }
  }

  /** So in every run: a token that an invite has is of no use under another address. */
  lemma WrongAddressIsRefused(s: Db, events: seq<Event>, t: nat, i: nat, later: seq<Event>)
    requires Start(s)
    requires var r := Run(s, events);
             && t < |r.txs| && r.txs[t].request.RedeemRequest? && r.txs[t].phase.Fresh?
             && i < |r.invites| && r.invites[i].digest == Sha256(r.txs[t].request.token)
             && r.invites[i].email != r.txs[t].request.email
    ensures var r := Run(s, events);
            && Advance(r, Read(t)).txs[t].phase == Done(Refused) && Advance(r, Read(t)).invites == r.invites
            && t < |Run(r, later).txs| && Run(r, later).txs[t].phase in {Fresh, Done(Refused)}
  {
    var r := Run(s, events);
    AllOkAlways(s, events);
    ReadMeansMeant(r, i, r.txs[t].request.token);
    StrangerIsRefused(r, later, t, r.invites[i].email);
    StrangerStep(r, Read(t), t, r.invites[i].email);
  }
}
