/**
 The token blocklist with expiring keys, against a revocation set that never forgets.

 Times are in microseconds.  The `exp` claim is in whole seconds, as a NumericDate of section 4.1.4
 of RFC 7519 is when it is issued here.  The jti of a token is its position in the list of issued tokens.
 */
module Blocklist {
  import opened Wrappers
  import opened Finite
  import Runs

  const SECOND := 1_000_000

  /** The claims that the blocklist looks at; a claim that is missing is None. */
  datatype Payload = Payload(jti: Option<nat>, exp: Option<int>)

  datatype Issued = Issued(at: int, exp: int)

  /** The store: the moment at which each key disappears. */
  type Keys = map<nat, int>

  datatype State = State(now: int, lifetime: nat, issued: seq<Issued>, keys: Keys)

  datatype Error = Expired | Revoked

  // ---------------------------------------------------------------- the code

  /** The moment a token is no longer accepted. */
  function EndOf(exp: int): int { exp * SECOND }

  /** int(now.timestamp()) and its like, for moments after 1970. */
  function WholeSeconds(t: int): int { t / SECOND }

  function PayloadOf(s: State, jti: nat): Payload
    requires jti < |s.issued|
  {
    Payload(Some(jti), Some(s.issued[jti].exp))
  }

  /** create_access_token: `exp` loses its fraction when it is encoded. */
  function Create(s: State): State {
    s.(issued := s.issued + [Issued(s.now, WholeSeconds(s.now + s.lifetime))])
  }

  /** int((expires_at - now).total_seconds()), which truncates toward zero */
  function Ttl(exp: int, now: int): int {
    var left := EndOf(exp) - now;
    if left >= 0 then left / SECOND else -(-left / SECOND)
  }

  /** revoke_token: SETEX, unless no whole second is left. */
  function RevokeKey(keys: Keys, now: int, jti: nat, exp: int): Keys {
    if Ttl(exp, now) <= 0 then keys else keys[jti := now + Ttl(exp, now) * SECOND]
  }

  /** revoke_token_by_payload */
  function Revoke(s: State, payload: Payload): State {
    if payload.jti.None? || payload.exp.None? || payload.exp.value == 0 then s
    else s.(keys := RevokeKey(s.keys, s.now, payload.jti.value, payload.exp.value))
  }

  /** decode_token, for a token with a good signature. */
  function Decode(s: State, payload: Payload): Result<Payload, Error> {
    if payload.exp.Some? && EndOf(payload.exp.value) <= s.now then Err(Expired)
    else if payload.jti.Some? && payload.jti.value in s.keys then Err(Revoked)
    else Ok(payload)
  }

  /** The store drops the keys whose time has come. */
  function Remaining(keys: Keys, now: int): Keys {
    map jti | jti in keys && now < keys[jti] :: keys[jti]
  }

  datatype Step =
    | Tick(d: nat)
    | Issue
    | Logout(jti: nat)       // decode_token, then revoke_token_by_payload
    | LateRevoke(jti: nat)   // the second half of a logout whose token was decoded before

  function Apply(s: State, step: Step): State {
    match step
    case Tick(d) => State(s.now + d, s.lifetime, s.issued, Remaining(s.keys, s.now + d))
    case Issue => Create(s)
    case Logout(jti) => if jti < |s.issued| && Decode(s, PayloadOf(s, jti)).Ok? then Revoke(s, PayloadOf(s, jti)) else s
    case LateRevoke(jti) => if jti < |s.issued| then Revoke(s, PayloadOf(s, jti)) else s
  }

  function Exec(s: State, steps: seq<Step>): State {
    Runs.Exec(Apply, s, steps)
  }

  predicate Initial(s: State) {
    s.now >= 0 && s.issued == [] && s.keys == map[]
  }

  // ---------------------------------------------------------------- the permanent revocation set

  /** For every token ever revoked: the last moment at which that left the key a whole second or
      more, and before there is such a moment, the last revocation. */
  type History = map<nat, int>

  function Remember(history: History, s: State, jti: nat): History
    requires jti < |s.issued|
  {
    if jti in history && Ttl(s.issued[jti].exp, s.now) <= 0 then history else history[jti := s.now]
  }

  function Note(history: History, s: State, step: Step): History {
    match step
    case Logout(jti) => if jti < |s.issued| && Decode(s, PayloadOf(s, jti)).Ok? then Remember(history, s, jti) else history
    case LateRevoke(jti) => if jti < |s.issued| then Remember(history, s, jti) else history
    case _ => history
  }

  function HistoryOf(s: State, steps: seq<Step>): History {
    if steps == [] then map[]
    else
      var before := steps[..|steps| - 1];
      Note(HistoryOf(s, before), Exec(s, before), steps[|steps| - 1])
  }

  /** decode_token as it would be with a set that keeps every revoked jti for ever. */
  function PermanentDecode(now: int, revoked: set<nat>, payload: Payload): Result<Payload, Error> {
    if payload.exp.Some? && EndOf(payload.exp.value) <= now then Err(Expired)
    else if payload.jti.Some? && payload.jti.value in revoked then Err(Revoked)
    else Ok(payload)
  }

  /** Where the key of a token revoked at `at` ends: a whole number of seconds later. */
  function KeyEnd(exp: int, at: int): int {
    if Ttl(exp, at) <= 0 then at else at + Ttl(exp, at) * SECOND
  }

  /** The key of a revoked token is there exactly until its end. */
  ghost predicate Tracks(s: State, history: History) {
    && s.now >= 0
    && (forall jti | jti in s.keys :: jti in history)
    && (forall jti | jti in history ::
          && jti < |s.issued| && history[jti] <= s.now
          && (jti in s.keys <==> s.now < KeyEnd(s.issued[jti].exp, history[jti]))
          && (jti in s.keys ==> s.keys[jti] == KeyEnd(s.issued[jti].exp, history[jti])))
  }

  lemma TracksRevoke(s: State, history: History, jti: nat)
    requires Tracks(s, history) && jti < |s.issued|
    ensures Tracks(Revoke(s, PayloadOf(s, jti)), Remember(history, s, jti))
  {
  }

  lemma TracksStep(s: State, history: History, step: Step)
    requires Tracks(s, history)
    ensures Tracks(Apply(s, step), Note(history, s, step))
  {
    match step
    case Logout(jti) => if jti < |s.issued| { TracksRevoke(s, history, jti); }
    case LateRevoke(jti) => if jti < |s.issued| { TracksRevoke(s, history, jti); }
    case Tick(_) =>
    case Issue =>
  }

  lemma {:induction false} TracksAlways(s: State, steps: seq<Step>)
    requires Initial(s)
    ensures Tracks(Exec(s, steps), HistoryOf(s, steps))
  {
    if steps != [] {
      var before := steps[..|steps| - 1];
      TracksAlways(s, before);
      TracksStep(Exec(s, before), HistoryOf(s, before), steps[|steps| - 1]);
    }
  }

  // ---------------------------------------------------------------- results

  /** The expiring keys answer like the permanent set, except from the end of the key to the end of
      the token; and that gap lies inside the last second of the token's life. */
  lemma AgreesExceptInGap(s: State, steps: seq<Step>, jti: nat)
    requires Initial(s) && jti < |Exec(s, steps).issued|
    ensures var t, history := Exec(s, steps), HistoryOf(s, steps);
            var exp, payload := t.issued[jti].exp, PayloadOf(t, jti);
            var permanent := PermanentDecode(t.now, history.Keys, payload);
            var gap := jti in history && KeyEnd(exp, history[jti]) <= t.now < EndOf(exp);
            && (Decode(t, payload) != permanent <==> gap)
            && (gap ==> Decode(t, payload).Ok? && permanent == Err(Revoked) && EndOf(exp) - SECOND < t.now)
  {
    TracksAlways(s, steps);
    var t, history := Exec(s, steps), HistoryOf(s, steps);
  }

  /** There is no gap exactly when the token was revoked on a whole second. */
  lemma GapIsEmptyIff(exp: int, at: int)
    requires at < EndOf(exp)
    ensures KeyEnd(exp, at) == EndOf(exp) <==> at % SECOND == 0
  {
  }

  /** The gap is real: half a second after a whole one the token is revoked, and half a second before
      its end it is accepted again. */
  lemma GapHappens(s: State)
    requires Initial(s) && s.now == 0 && s.lifetime == 2 * SECOND
    ensures var steps := [Issue, Tick(500_000), Logout(0), Tick(1_000_000)];
            && 0 in HistoryOf(s, steps) && Exec(s, steps).issued == [Issued(0, 2)]
            && Decode(Exec(s, steps[..3]), Payload(Some(0), Some(2))) == Err(Revoked)
            && Decode(Exec(s, steps), Payload(Some(0), Some(2))).Ok?
  {
    var a := Apply(s, Issue);
    var b := Apply(a, Tick(500_000));
    var c := Apply(b, Logout(0));
    var d := Apply(c, Tick(1_000_000));
    Runs.ExecSnoc(Apply, s, [], Issue);
    Runs.ExecSnoc(Apply, s, [Issue], Tick(500_000));
    Runs.ExecSnoc(Apply, s, [Issue, Tick(500_000)], Logout(0));
    Runs.ExecSnoc(Apply, s, [Issue, Tick(500_000), Logout(0)], Tick(1_000_000));
    var steps := [Issue, Tick(500_000), Logout(0), Tick(1_000_000)];
    assert [] + [Issue] == [Issue] && [Issue] + [Tick(500_000)] == steps[..2];
    assert steps[..2] + [Logout(0)] == steps[..3] && steps[..3] + [Tick(1_000_000)] == steps;
    assert steps[..3][..2] == steps[..2];
    assert 0 in HistoryOf(s, steps[..3]);
  }

  lemma {:induction false} HistoryGrows(s: State, steps: seq<Step>, later: seq<Step>, jti: nat)
    requires jti in HistoryOf(s, steps)
    ensures jti in HistoryOf(s, steps + later)
  {
    if later == [] {
      assert steps + later == steps;
    } else {
      HistoryGrows(s, steps, later[..|later| - 1], jti);
      assert (steps + later)[..|steps + later| - 1] == steps + later[..|later| - 1];
    }
  }

  lemma LogoutIsRemembered(s: State, steps: seq<Step>, jti: nat, later: seq<Step>)
    requires jti < |Exec(s, steps).issued| && Decode(Exec(s, steps), PayloadOf(Exec(s, steps), jti)).Ok?
    ensures jti in HistoryOf(s, steps + [Logout(jti)] + later)
  {
    HistoryGrows(s, steps + [Logout(jti)], later, jti);
  }

  lemma {:induction false} IssuedStays(s: State, later: seq<Step>)
    ensures s.issued <= Exec(s, later).issued && Exec(s, later).lifetime == s.lifetime
  {
    if later != [] {
      IssuedStays(s, later[..|later| - 1]);
    }
  }

  /** A logout is final: whatever happens later, the token is rejected until its last second, and
      again from its end on. */
  lemma LogoutIsFinal(s: State, steps: seq<Step>, jti: nat, later: seq<Step>)
    requires Initial(s) && jti < |Exec(s, steps).issued| && Decode(Exec(s, steps), PayloadOf(Exec(s, steps), jti)).Ok?
    ensures var t, exp := Exec(s, steps + [Logout(jti)] + later), Exec(s, steps).issued[jti].exp;
            && jti < |t.issued| && t.issued[jti].exp == exp
            && (Decode(t, PayloadOf(t, jti)).Ok? ==> EndOf(exp) - SECOND < t.now < EndOf(exp))
  {
    var rest := [Logout(jti)] + later;
    assert steps + [Logout(jti)] + later == steps + rest;
    Runs.ExecAppend(Apply, s, steps, rest);
    IssuedStays(Exec(s, steps), rest);
    assert Exec(s, steps).issued[jti] == Exec(s, steps + rest).issued[jti];
    LogoutIsRemembered(s, steps, jti, later);
    AgreesExceptInGap(s, steps + rest, jti);
  }

  /** Every token ends within a lifetime of its issue. */
  ghost predicate TermsOk(s: State) {
    forall i: nat | i < |s.issued| :: s.issued[i].at <= s.now && EndOf(s.issued[i].exp) <= s.issued[i].at + s.lifetime
  }

  lemma TermsOkAlways(s: State, steps: seq<Step>)
    requires Initial(s)
    ensures TermsOk(Exec(s, steps))
  {
    forall t: State, step: Step | TermsOk(t) ensures TermsOk(Apply(t, step)) {}
    Runs.Always(Apply, TermsOk, s, steps);
  }

  /** The tokens issued within the last lifetime. */
  function Recent(s: State): set<nat> {
    set i: nat | i < |s.issued| && s.issued[i].at > s.now - s.lifetime
  }

  /** The store does not grow without bound: each key belongs to a token that has not ended, and there
      are no more keys than tokens issued within the last lifetime. */
  lemma KeysAreBounded(s: State, steps: seq<Step>)
    requires Initial(s)
    ensures var t := Exec(s, steps);
            && (forall jti | jti in t.keys :: jti < |t.issued| && t.now < t.keys[jti] <= EndOf(t.issued[jti].exp))
            && |t.keys| <= |Recent(t)|
  {
    TracksAlways(s, steps);
    TermsOkAlways(s, steps);
    var t, history := Exec(s, steps), HistoryOf(s, steps);
    forall jti | jti in t.keys
      ensures jti < |t.issued| && t.now < t.keys[jti] <= EndOf(t.issued[jti].exp) && jti in Recent(t)
    {
    }
    assert |t.keys| == |t.keys.Keys|;
    SubsetSize(t.keys.Keys, Recent(t));
  }

  // ---------------------------------------------------------------- the store

  class TokenService {
    var now: int
    const lifetime: nat
    var issued: seq<Issued>
    var keys: Keys
    var audit: seq<nat>      // the 'revoked' rows of the audit log
    ghost const begin: State
    ghost var log: seq<Step>

    function View(): State
      reads this
    {
      State(now, lifetime, issued, keys)
    }

    ghost predicate Valid()
      reads this
    {
      Initial(begin) && View() == Exec(begin, log)
    }

    constructor (now: nat, lifetime: nat)
      ensures Valid() && View() == State(now, lifetime, [], map[]) && audit == []
    {
      this.now, this.lifetime := now, lifetime;
      issued, keys, audit := [], map[], [];
      begin, log := State(now, lifetime, [], map[]), [];
    }

    ghost method Record(step: Step, before: State)
      requires Initial(begin) && before == Exec(begin, log) && View() == Apply(before, step)
      modifies this`log
      ensures Valid() && log == old(log) + [step]
    {
      Runs.ExecSnoc(Apply, begin, log, step);
      log := log + [step];
    }

    method Wait(d: nat)
      requires Valid()
      modifies this`now, this`keys, this`log
      ensures Valid() && View() == Apply(old(View()), Tick(d))
    {
      ghost var before := View();
      now := now + d;
      keys := Remaining(keys, now);
      Record(Tick(d), before);
    }

    /** create_access_token: a new jti, good for a lifetime at most, and for more than a lifetime less a second. */
    method CreateAccessToken() returns (payload: Payload)
      requires Valid()
      modifies this`issued, this`log
      ensures Valid() && View() == Apply(old(View()), Issue) && |issued| == |old(issued)| + 1
      ensures payload == PayloadOf(View(), |old(issued)|)
      ensures now + lifetime - SECOND < EndOf(payload.exp.value) <= now + lifetime
    {
      ghost var before := View();
      payload := Payload(Some(|issued|), Some(WholeSeconds(now + lifetime)));
      issued := issued + [Issued(now, WholeSeconds(now + lifetime))];
      Record(Issue, before);
    }

    /** revoke_token: a key that disappears with the token, up to a second earlier. */
    method RevokeToken(jti: nat, exp: int)
      modifies this`keys
      ensures keys == RevokeKey(old(keys), now, jti, exp) && keys.Keys <= old(keys).Keys + {jti}
      ensures exp * 1_000_000 - now >= 1_000_000 ==> jti in keys
      ensures exp * 1_000_000 - now >= 1_000_000 ==>
                && keys == old(keys)[jti := keys[jti]]
                && exp * 1_000_000 - 1_000_000 < keys[jti] <= exp * 1_000_000 && (keys[jti] - now) % 1_000_000 == 0
      ensures exp * 1_000_000 - now < 1_000_000 ==> keys == old(keys)
    {
      var ttl := Ttl(exp, now);
      if ttl <= 0 { return; }
      keys := keys[jti := now + ttl * SECOND];
    }

    /** revoke_token_by_payload: nothing without both claims, and the audit row only with them. */
    method RevokeTokenByPayload(payload: Payload)
      modifies this`keys, this`audit
      ensures View() == Revoke(old(View()), payload)
      ensures payload.jti.None? || payload.exp.None? || payload.exp.value == 0 ==> keys == old(keys)
      ensures payload.jti.Some? && payload.exp.Some? && payload.exp.value != 0 && payload.exp.value * 1_000_000 - now >= 1_000_000 ==>
                && payload.jti.value in keys
                && payload.exp.value * 1_000_000 - 1_000_000 < keys[payload.jti.value] <= payload.exp.value * 1_000_000
      ensures audit == old(audit) + if payload.jti.Some? && payload.exp.Some? && payload.exp.value != 0 then [payload.jti.value] else []
    {
      if payload.jti.None? || payload.exp.None? || payload.exp.value == 0 { return; }
      RevokeToken(payload.jti.value, payload.exp.value);
      audit := audit + [payload.jti.value];
    }

    /** decode_token.  For a token that was issued here the answer is that of a revocation set that never
        forgets, unless the token was revoked and is in the last second of its life. */
    method DecodeToken(payload: Payload) returns (result: Result<Payload, Error>)
      requires Valid()
      ensures result == Decode(View(), payload)
      ensures result == Err(Expired) <==> payload.exp.Some? && payload.exp.value * 1_000_000 <= now
      ensures result == Err(Revoked) <==> result != Err(Expired) && payload.jti.Some? && payload.jti.value in keys
      ensures result.Ok? ==> result.value == payload
      ensures forall jti: nat | jti < |issued| && payload == PayloadOf(View(), jti) ::
                var revoked := HistoryOf(begin, log).Keys;
                || result == PermanentDecode(now, revoked, payload)
                || (jti in revoked && result.Ok? && EndOf(issued[jti].exp) - SECOND < now < EndOf(issued[jti].exp))
    {
      forall jti: nat | jti < |issued| && payload == PayloadOf(View(), jti)
        ensures var revoked := HistoryOf(begin, log).Keys;
                || Decode(View(), payload) == PermanentDecode(now, revoked, payload)
                || (jti in revoked && Decode(View(), payload).Ok? && EndOf(issued[jti].exp) - SECOND < now < EndOf(issued[jti].exp))
      {
        AgreesExceptInGap(begin, log, jti);
      }
      if payload.exp.Some? && EndOf(payload.exp.value) <= now { return Err(Expired); }
      if payload.jti.Some? {
        var revoked := payload.jti.value in keys;
        if revoked { return Err(Revoked); }
      }
      result := Ok(payload);
    }

    /** The logout endpoint: only a token that is still accepted is revoked, and from then on it counts
        as revoked for ever. */
    method LogOut(jti: nat) returns (result: Result<Payload, Error>)
      requires Valid() && jti < |issued|
      modifies this`keys, this`audit, this`log
      ensures Valid()
      ensures result == Decode(old(View()), PayloadOf(old(View()), jti))
      ensures View() == Apply(old(View()), Logout(jti))
      ensures result.Ok? ==> jti in HistoryOf(begin, log)
    {
      ghost var before := View();
      var payload := Payload(Some(jti), Some(issued[jti].exp));
      result := DecodeToken(payload);
      if result.Ok? {
        LogoutIsRemembered(begin, log, jti, []);
        assert log + [Logout(jti)] + [] == log + [Logout(jti)];
        RevokeTokenByPayload(payload);
      }
      Record(Logout(jti), before);
    }
  }
}
