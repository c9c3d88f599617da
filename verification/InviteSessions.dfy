/**
 The invite requests as sequential code that the others may interrupt at every await.  `log` records
 the steps taken, so that every execution of this code is one of the runs of `InviteRaces`.
 */
module InviteSessions {
  import opened Wrappers
  import opened Invites
  import opened InviteRaces
  import opened InviteAddressees
  import Runs

  /** Steps of anybody but transaction t. */
  predicate Others(events: seq<Event>, t: nat) {
    forall i | 0 <= i < |events| :: !events[i].ByTx() || events[i].t != t
  }

  lemma {:induction false} Untouched(s: Db, events: seq<Event>, t: nat)
    requires t < |s.txs| && Others(events, t)
    ensures |s.txs| <= |Run(s, events).txs| && Run(s, events).txs[t] == s.txs[t]
  {
    if events != [] {
      Untouched(s, events[..|events| - 1], t);
      TxFrame(Run(s, events[..|events| - 1]), events[|events| - 1], t);
    }
  }

  /** What the others do before the writing statement and before the commit, whether the seat checks let the
      request through, and whether the commit succeeds. */
  datatype Luck = Luck(beforeWrite: seq<Event>, beforeCommit: seq<Event>, seats: bool, commits: bool) {
    predicate By(t: nat) { Others(beforeWrite, t) && Others(beforeCommit, t) }
  }

  class InviteSessions {
    var now: int
    var invites: seq<Invite>
    var seated: set<(nat, nat)>
    var issued: set<string>
    var txs: seq<Tx>
    ghost const begin: Db
    ghost var log: seq<Event>

    function View(): Db
      reads this
    {
      Db(now, invites, seated, issued, txs)
    }

    ghost predicate Valid()
      reads this
    {
      Start(begin) && View() == Run(begin, log)
    }

    constructor (now: int)
      ensures Valid() && View() == Db(now, [], {}, {}, [])
    {
      this.now, invites, seated, issued, txs := now, [], {}, {}, [];
      begin, log := Db(now, [], {}, {}, []), [];
    }

    ghost method Record(event: Event, before: Db)
      requires Start(begin) && before == Run(begin, log) && View() == Advance(before, event)
      modifies this`log
      ensures Valid() && log == old(log) + [event]
    {
      Runs.ExecSnoc(Advance, begin, log, event);
      log := log + [event];
    }

    /** The others run. */
    method Interrupt(t: nat, events: seq<Event>)
      requires Valid() && t < |txs| && Others(events, t)
      modifies this
      ensures Valid() && View() == Run(old(View()), events)
      ensures t < |txs| && txs[t] == old(txs)[t]
    {
      Untouched(View(), events, t);
      Runs.ExecAppend(Advance, begin, log, events);
      var after := Run(View(), events);
      now, invites, seated, issued, txs := after.now, after.invites, after.seated, after.issued, after.txs;
      log := log + events;
    }

    method SetPhase(t: nat, phase: Phase)
      requires t < |txs|
      modifies this`txs
      ensures txs == old(txs)[t := old(txs)[t].(phase := phase)]
    {
      txs := txs[t := txs[t].(phase := phase)];
    }

    /** UPDATE ... WHERE id = :id AND status = 'pending': waits for the row, and then looks at it. */
    method UpdatePending(t: nat, j: nat, invite: Invite)
      requires t < |txs| && j < |invites|
      modifies this`txs
      ensures View() == GuardedUpdate(old(View()), t, j, invite)
    {
      if View().Locked(j) { return; }
      if invites[j].status == Pending {
        SetPhase(t, Changing(j, invite));
      } else {
        SetPhase(t, Missed);
      }
    }

    /** ROLLBACK: what was written was not committed. */
    method GiveUp(t: nat)
      requires Valid() && t < |txs| && txs[t].Open()
      modifies this`txs, this`log
      ensures Valid() && View() == Advance(old(View()), Abort(t))
      ensures |txs| == |old(txs)| && txs[t] == old(txs)[t].(phase := Done(Refused))
    {
      ghost var before := View();
      SetPhase(t, Done(Refused));
      Record(Abort(t), before);
    }

    /** The transaction's end: a commit, or a rollback if the commit fails. */
    method Finish(t: nat, commits: bool)
      requires Valid() && t < |txs| && (txs[t].phase.Changing? || txs[t].phase.Missed?)
      requires txs[t].phase.Changing? ==> txs[t].phase.i < |invites|
      modifies this
      ensures Valid() && View() == Advance(old(View()), if commits then Commit(t) else Abort(t))
      ensures |txs| == |old(txs)| && txs[t].request == old(txs)[t].request
    {
      ghost var before := View();
      if !commits {
        GiveUp(t);
      } else if txs[t].phase.Changing? {
        var i, invite, request := txs[t].phase.i, txs[t].phase.invite, txs[t].request;
        invites := invites[i := invite];
        if request.RedeemRequest? { seated := seated + {(invite.workshop, request.user)}; }
        SetPhase(t, Done(Success));
        Record(Commit(t), before);
      } else {
        SetPhase(t, Done(if txs[t].request.ResendRequest? then Success else Refused));
        Record(Commit(t), before);
      }
    }

    /** A request arrives. */
    method Begin(request: Request) returns (t: nat)
      requires Valid() && (request.RedeemRequest? || request.RevokeRequest? || request.token !in issued)
      modifies this`txs, this`issued, this`log
      ensures Valid() && t == |old(txs)| && View() == Advance(old(View()), Arrive(request))
      ensures |txs| == t + 1 && txs[t] == Tx(request, Fresh)
    {
      ghost var before := View();
      t := |txs|;
      txs := txs + [Tx(request, Fresh)];
      if request.CreateRequest? || request.ResendRequest? { issued := issued + {request.token}; }
      Record(Arrive(request), before);
    }

    /** The SELECT of redeem_invite, and the checks that follow it: refused means that no invite with this
        token admits this address now. */
    method ReadToken(t: nat, email: string, token: string)
      requires Valid() && t < |txs| && txs[t].phase.Fresh?
      requires txs[t].request.RedeemRequest? && txs[t].request.email == email && txs[t].request.token == token
      modifies this`txs, this`log
      ensures Valid() && |txs| == |old(txs)| && txs[t].request == old(txs)[t].request
      ensures txs[t].phase.Checked? || (txs[t].phase == Done(Refused) && NoneAdmitted(View(), email, token))
      ensures txs[t].phase.Checked? ==>
                !NoneAdmitted(View(), email, token)
                && forall i: nat | i < |invites| && invites[i].digest == Sha256(token) :: invites[i].email == email
    {
      ghost var before := View();
      AllOkAlways(begin, log);
      var found := Find(invites, token);
      if found.None? {
        SetPhase(t, Done(Refused));
        forall i: nat | i < |invites| ensures invites[i].digest != Sha256(token) { assert !HasToken(invites, i, token); }
      } else {
        var invite := invites[found.value];
        var admitted := |token| >= MIN_TOKEN_LENGTH && now <= invite.expiresAt && invite.status == Pending && email == invite.email;
        SetPhase(t, if admitted then Checked(found.value) else Done(Refused));
        forall i: nat | i < |invites| && invites[i].digest == Sha256(token) ensures i == found.value {
          assert HasToken(invites, i, token);
          OnlyOne(before, found.value, i, token);
        }
      }
      Record(Read(t), before);
    }

    /** The guarded UPDATE of redeem_invite. */
    method TakeInvite(t: nat, user: nat, token: string)
      requires Valid() && t < |txs| && txs[t].phase.Checked?
      requires txs[t].request.RedeemRequest? && txs[t].request.user == user && txs[t].request.token == token
      modifies this`txs, this`log
      ensures Valid() && |txs| == |old(txs)| && txs[t].request == old(txs)[t].request
      ensures txs[t].phase.Changing? || txs[t].phase.Missed? || txs[t] == old(txs)[t]
      ensures txs[t].phase.Missed? ==> forall i: nat :: HasToken(invites, i, token) ==> !IsPending(invites, i)
      ensures txs[t].phase.Checked? ==> exists i: nat | i < |invites| :: HasToken(invites, i, token) && HeldByAnother(View(), t, i)
    {
      ghost var before := View();
      AllOkAlways(begin, log);
      var found := Find(invites, token);
      if found.None? {
        SetPhase(t, Missed);
      } else {
        UpdatePending(t, found.value, invites[found.value].(status := Accepted, acceptedBy := Some(user)));
        forall i: nat ensures i != found.value ==> !HasToken(invites, i, token) { OnlyOne(before, found.value, i, token); }
      }
      Record(Write(t), before);
    }

    /** The end of a redemption whose UPDATE has found its row. */
    method CommitRedemption(t: nat, luck: Luck) returns (reply: Reply)
      requires Valid() && t < |txs| && luck.By(t) && txs[t].request.RedeemRequest? && txs[t].phase.Changing?
      modifies this
      ensures Valid() && t < |txs| && txs[t] == Tx(old(txs)[t].request, Done(reply))
      ensures reply == if luck.commits then Success else Refused
      ensures reply.Success? ==> Redeemed(View(), old(txs)[t].request.user, old(txs)[t].request.email, old(txs)[t].request.token)
    {
      Interrupt(t, luck.beforeCommit);
      AddresseesAlways(begin, log);
      assert TxOk(View(), txs[t]) && RedeemerOk(View(), txs[t]);
      ghost var i, request := txs[t].phase.i, txs[t].request;
      Finish(t, luck.commits);
      if luck.commits {
        assert HasToken(invites, i, request.token);
        reply := Success;
      } else {
        reply := Refused;
      }
    }

    /** redeem_invite.  Success leaves the invite with this token, which was for this address, accepted by this user,
        with the seat; a token that is not live when it is read, or is read under any other address than the
        invite's, is refused and changes nothing.  A request
        that passes the seat checks and whose commit does not fail is refused only when, at its end, no invite
        with this token admits this address.  Without a reply it waits for the row. */
    method RedeemInvite(user: nat, email: string, token: string, luck: Luck) returns (reply: Option<Reply>)
      requires Valid() && luck.By(|txs|)
      modifies this
      ensures Valid()
      ensures reply == Some(Success) ==> Redeemed(View(), user, email, token)
      ensures NoneAdmitted(old(View()), email, token)
              || (exists i: nat | i < |old(invites)| :: old(invites)[i].digest == Sha256(token) && old(invites)[i].email != email) ==>
                reply == Some(Refused) && invites == old(invites) && seated == old(seated)
      ensures reply == Some(Refused) && luck.seats && luck.commits ==> NoneAdmitted(View(), email, token)
      ensures reply == None ==> exists i: nat | i < |invites| :: HasToken(invites, i, token) && HeldByAnother(View(), |old(txs)|, i)
    {
      var t := Begin(RedeemRequest(user, email, token));
      ReadToken(t, email, token);
      if txs[t].phase.Done? { return Some(Refused); }
      reply := TakeSeat(t, user, email, token, luck);
    }

    /** What follows the checks on the invite. */
    method TakeSeat(t: nat, user: nat, email: string, token: string, luck: Luck) returns (reply: Option<Reply>)
      requires Valid() && t < |txs| && txs[t] == Tx(RedeemRequest(user, email, token), txs[t].phase) && txs[t].phase.Checked?
      requires luck.By(t)
      modifies this
      ensures Valid()
      ensures reply == Some(Success) ==> Redeemed(View(), user, email, token)
      ensures reply == Some(Refused) && luck.seats && luck.commits ==> NoneAdmitted(View(), email, token)
      ensures reply == None ==> exists i: nat | i < |invites| :: HasToken(invites, i, token) && HeldByAnother(View(), t, i)
    {
      if !luck.seats {
        GiveUp(t);
        return Some(Refused);
      }
      Interrupt(t, luck.beforeWrite);
      TakeInvite(t, user, token);
      if txs[t].phase.Checked? { return None; }
      if txs[t].phase.Missed? {
        Finish(t, true);
        NonePendingAdmitsNone(email, token);
        return Some(Refused);
      }
      var result := CommitRedemption(t, luck);
      reply := Some(result);
    }

    lemma NonePendingAdmitsNone(email: string, token: string)
      requires forall i: nat :: HasToken(invites, i, token) ==> !IsPending(invites, i)
      ensures NoneAdmitted(View(), email, token)
    {
      forall i: nat | i < |invites| && invites[i].digest == Sha256(token) ensures invites[i].status != Pending {
        assert HasToken(invites, i, token);
      }
    }

    /** The end of a resend or a revocation after its UPDATE. */
    method FinishUpdate(t: nat, luck: Luck) returns (reply: Reply)
      requires Valid() && t < |txs| && luck.By(t) && (txs[t].request.ResendRequest? || txs[t].request.RevokeRequest?)
      requires txs[t].phase.Changing? || txs[t].phase.Missed?
      modifies this
      ensures Valid() && t < |txs| && txs[t] == Tx(old(txs)[t].request, Done(reply))
      ensures reply == if luck.commits && (old(txs)[t].phase.Changing? || txs[t].request.ResendRequest?) then Success else Refused
      ensures old(txs)[t].phase.Missed? ==> invites == old(invites)
      ensures luck.commits && old(txs)[t].phase.Changing? ==>
                && txs[t].request.i < |invites|
                && var invite := invites[txs[t].request.i];
                   if txs[t].request.ResendRequest? then
                     invite.digest == Sha256(txs[t].request.token) && invite.status == Pending
                   else invite.workshop == txs[t].request.w && invite.status == Revoked
    {
      var changing := txs[t].phase.Changing?;
      if changing {
        Interrupt(t, luck.beforeCommit);
        AllOkAlways(begin, log);
        assert TxOk(View(), txs[t]);
      }
      Finish(t, luck.commits);
      reply := txs[t].phase.reply;
    }

    /** The guarded UPDATE of resend_invite. */
    method RenewToken(t: nat)
      requires Valid() && t < |txs| && txs[t].request.ResendRequest? && txs[t].phase.Checked?
      modifies this`txs, this`log
      ensures Valid() && |txs| == |old(txs)| && txs[t].request == old(txs)[t].request
      ensures txs[t].phase.Changing? || txs[t].phase.Missed? || txs[t].phase.Checked?
      ensures txs[t].phase.Missed? ==> !IsPending(invites, txs[t].request.i)
      ensures txs[t].phase.Checked? ==> HeldByAnother(View(), t, txs[t].request.i)
    {
      ghost var before := View();
      var request := txs[t].request;
      if request.i >= |invites| {
        SetPhase(t, Missed);
      } else {
        UpdatePending(t, request.i, invites[request.i].(digest := Sha256(request.token), expiresAt := request.expiresAt));
      }
      Record(Write(t), before);
    }

    /** The read of resend_invite. */
    method ReadInvite(t: nat)
      requires Valid() && t < |txs| && txs[t].request.ResendRequest? && txs[t].phase.Fresh?
      modifies this`txs, this`log
      ensures Valid() && |txs| == |old(txs)| && txs[t].request == old(txs)[t].request
      ensures var i := txs[t].request.i;
              txs[t].phase == if IsPending(invites, i) && invites[i].workshop == txs[t].request.w then Checked(i) else Done(Refused)
    {
      ghost var before := View();
      var i, w := txs[t].request.i, txs[t].request.w;
      if i >= |invites| || invites[i].workshop != w || invites[i].status != Pending {
        SetPhase(t, Done(Refused));
      } else {
        SetPhase(t, Checked(i));
      }
      Record(Read(t), before);
    }

    /** A token of an open request is no committed invite's. */
    lemma UnusedToken(t: nat)
      requires Valid() && t < |txs| && txs[t].request.ResendRequest? && txs[t].Open()
      ensures !Alive(View(), txs[t].request.token)
    {
      AllOkAlways(begin, log);
      assert TxOk(View(), txs[t]);
    }

    /** resend_invite.  It reports success whatever its UPDATE has found: the new token is alive exactly if
        the invite is still pending, which the reply does not tell. */
    method ResendInvite(w: nat, i: nat, token: string, expiresAt: int, luck: Luck) returns (reply: Option<Reply>)
      requires Valid() && luck.By(|txs|) && token !in issued
      modifies this
      ensures Valid()
      ensures reply == Some(Success) ==> (Alive(View(), token) <==> IsPending(invites, i))
      ensures reply == Some(Refused) ==> !luck.commits || !IsPending(old(invites), i) || old(invites)[i].workshop != w
      ensures reply == None ==> HeldByAnother(View(), |old(txs)|, i)
    {
      var t := Begin(ResendRequest(w, i, token, expiresAt));
      ReadInvite(t);
      if txs[t].phase.Done? { return Some(Refused); }
      Interrupt(t, luck.beforeWrite);
      RenewToken(t);
      if txs[t].phase.Checked? { return None; }
      var changing := txs[t].phase.Changing?;
      UnusedToken(t);
      var result := FinishUpdate(t, luck);
      if luck.commits && changing { assert HasToken(invites, i, token) && IsPending(invites, i); }
      reply := Some(result);
    }

    /** The guarded UPDATE of revoke_invite. */
    method RevokePending(t: nat)
      requires Valid() && t < |txs| && txs[t].request.RevokeRequest? && txs[t].phase.Fresh?
      modifies this`txs, this`log
      ensures Valid() && |txs| == |old(txs)| && txs[t].request == old(txs)[t].request && invites == old(invites)
      ensures txs[t].phase.Changing? || txs[t].phase.Missed? || txs[t].phase.Checked?
      ensures txs[t].phase.Missed? ==> !IsPending(invites, txs[t].request.i) || invites[txs[t].request.i].workshop != txs[t].request.w
      ensures txs[t].phase.Checked? ==> HeldByAnother(View(), t, txs[t].request.i)
    {
      ghost var before := View();
      var i, w := txs[t].request.i, txs[t].request.w;
      SetPhase(t, Checked(i));
      Record(Read(t), before);
      before := View();
      if i >= |invites| || invites[i].workshop != w {
        SetPhase(t, Missed);
      } else {
        UpdatePending(t, i, invites[i].(status := Revoked));
      }
      Record(Write(t), before);
    }

    /** revoke_invite: one guarded UPDATE, whose row count is looked at. */
    method RevokeInvite(w: nat, i: nat, luck: Luck) returns (reply: Option<Reply>)
      requires Valid() && luck.By(|txs|)
      modifies this
      ensures Valid()
      ensures reply == Some(Success) ==> i < |invites| && invites[i].workshop == w && invites[i].status == Revoked
      ensures reply == Some(Refused) && luck.commits ==> !IsPending(invites, i) || invites[i].workshop != w
      ensures reply == None ==> HeldByAnother(View(), |old(txs)|, i)
    {
      var t := Begin(RevokeRequest(w, i));
      RevokePending(t);
      if txs[t].phase.Checked? { return None; }
      var result := FinishUpdate(t, luck);
      reply := Some(result);
    }
  }

  /** This user has accepted the invite with this token, which was for this address, and has the seat. */
  ghost predicate Redeemed(s: Db, user: nat, email: string, token: string) {
    exists i: nat ::
      && HasToken(s.invites, i, token) && s.invites[i].email == email
      && s.invites[i].status == Accepted && s.invites[i].acceptedBy == Some(user)
      && (s.invites[i].workshop, user) in s.seated
  }

  /** Another transaction has updated the invite and not ended. */
  ghost predicate HeldByAnother(s: Db, t: nat, i: nat) {
    exists u | 0 <= u < |s.txs| && u != t :: s.txs[u].phase.Changing? && s.txs[u].phase.i == i
  }

  /** No invite with this token is pending, in its term, and for this address, or the token is too short. */
  ghost predicate NoneAdmitted(s: Db, email: string, token: string) {
    |token| < 20 || forall i: nat | i < |s.invites| && s.invites[i].digest == Sha256(token) ::
      s.invites[i].status != Pending || s.now > s.invites[i].expiresAt || s.invites[i].email != email
  }
}
