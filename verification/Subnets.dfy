/**
 The per-user subnet allocator: a counter row that callers lock, a table with one row per
 user, and a rollback when two callers race for the same user.
 */
module Subnets {
  import opened Wrappers
  import opened Finite
  import Runs

  const MIN_TENANT_OCTET := 2
  const MAX_TENANT_OCTET := 254

  /** 10.20.{octet}.0/24 */
  datatype Cidr = Cidr(octet: int)

  predicate Reserved(octet: int) { octet == 0 || octet == 1 }

  datatype Failure = NotInitialized | PoolExhausted | NoAllocationOnRefetch | Aborted

  datatype Phase =
    | Start                             // nothing read yet
    | Missing                           // the first read found no row
    | Locked(octet: int)                // holds the counter row, whose new value it will write
    | Conflict                          // the insert violated a unique constraint; rolled back
    | Inserted(octet: int)              // counter and row written, not committed
    | Done(outcome: Result<Cidr, Failure>)

  datatype Caller = Caller(user: nat, phase: Phase) {
    predicate HoldsCounter() { phase.Locked? || phase.Inserted? }
  }

  /** What is committed, and the callers. */
  datatype State = State(counter: Option<int>, rows: map<nat, Cidr>, callers: seq<Caller>) {
    predicate CounterFree() {
      forall c | 0 <= c < |callers| :: !callers[c].HoldsCounter()
    }

    function Move(c: nat, phase: Phase): State
      requires c < |callers|
    {
      this.(callers := callers[c := callers[c].(phase := phase)])
    }
  }

  /** The octet after `current` that may be handed out. */
  function NextOctet(current: int): int {
    if current + 1 < MIN_TENANT_OCTET then MIN_TENANT_OCTET else current + 1
  }

  datatype Step =
    | Arrive(user: nat)
    | Read(c: nat)        // SELECT subnet_cidr ... WHERE user_id
    | Lock(c: nat)        // SELECT last_assigned_octet ... FOR UPDATE, and the pool check
    | Insert(c: nat)      // UPDATE subnet_tracker; INSERT INTO subnet_allocations
    | Commit(c: nat)
    | Refetch(c: nat)     // the read after the rollback
    | Abort(c: nat)       // any other exception, a failed commit or a crash

  function Call(s: State, step: Step): State
    requires !step.Arrive? && step.c < |s.callers|
  {
    var c, user, phase := step.c, s.callers[step.c].user, s.callers[step.c].phase;
    match step
    case Read(_) =>
      if !phase.Start? then s
      else if user in s.rows then s.Move(c, Done(Ok(s.rows[user])))
      else s.Move(c, Missing)
    case Lock(_) =>
      if !phase.Missing? || !s.CounterFree() then s
      else if s.counter.None? then s.Move(c, Done(Err(NotInitialized)))
      else if NextOctet(s.counter.value) > MAX_TENANT_OCTET then s.Move(c, Done(Err(PoolExhausted)))
      else s.Move(c, Locked(NextOctet(s.counter.value)))
    case Insert(_) =>
      if !phase.Locked? then s
      else if user in s.rows || Cidr(phase.octet) in s.rows.Values then s.Move(c, Conflict)
      else s.Move(c, Inserted(phase.octet))
    case Commit(_) =>
      if !phase.Inserted? then s
      else s.Move(c, Done(Ok(Cidr(phase.octet))))
            .(counter := Some(phase.octet), rows := s.rows[user := Cidr(phase.octet)])
    case Refetch(_) =>
      if !phase.Conflict? then s
      else if user in s.rows then s.Move(c, Done(Ok(s.rows[user])))
      else s.Move(c, Done(Err(NoAllocationOnRefetch)))
    case Abort(_) =>
      if phase.Done? then s else s.Move(c, Done(Err(Aborted)))
  }

  /** One step.  A step that is not enabled changes nothing. */
  function Apply(s: State, step: Step): State {
    if step.Arrive? then s.(callers := s.callers + [Caller(step.user, Start)])
    else if step.c < |s.callers| then Call(s, step)
    else s
  }

  function Exec(s: State, steps: seq<Step>): State {
    Runs.Exec(Apply, s, steps)
  }

  /** The tables as the installer leaves them. */
  const SEEDED := State(Some(1), map[], [])

  // ---------------------------------------------------------------- the invariant

  /** The committed rows use exactly the octets from 2 up to the counter, each once. */
  ghost predicate TableOk(s: State) {
    && s.counter.Some? && MIN_TENANT_OCTET - 1 <= s.counter.value <= MAX_TENANT_OCTET
    && (forall u | u in s.rows :: MIN_TENANT_OCTET <= s.rows[u].octet <= s.counter.value)
    && (forall u, v | u in s.rows && v in s.rows && u != v :: s.rows[u] != s.rows[v])
    && |s.rows| == s.counter.value - 1
  }

  ghost predicate CallerOk(s: State, caller: Caller)
    requires s.counter.Some?
  {
    match caller.phase
    case Locked(octet) => octet == s.counter.value + 1 <= MAX_TENANT_OCTET
    case Inserted(octet) => octet == s.counter.value + 1 <= MAX_TENANT_OCTET && caller.user !in s.rows
    case Conflict => caller.user in s.rows
    case Done(Ok(cidr)) => caller.user in s.rows && s.rows[caller.user] == cidr
    case Done(Err(failure)) =>
      && (failure == Aborted || failure == PoolExhausted)
      && (failure == PoolExhausted ==> s.counter.value == MAX_TENANT_OCTET)
    case _ => true
  }

  ghost predicate Inv(s: State) {
    && TableOk(s)
    && (forall c | 0 <= c < |s.callers| :: CallerOk(s, s.callers[c]))
    && (forall c: nat, d: nat | c < |s.callers| && d < |s.callers| && c != d :: Exclusive(s, c, d))
  }

  ghost predicate Exclusive(s: State, c: nat, d: nat)
    requires c < |s.callers| && d < |s.callers|
  {
    !s.callers[c].HoldsCounter() || !s.callers[d].HoldsCounter()
  }

  lemma TableStep(s: State, step: Step)
    requires Inv(s)
    ensures TableOk(Apply(s, step))
  {
    if step.Commit? && step.c < |s.callers| && s.callers[step.c].phase.Inserted? {
      assert CallerOk(s, s.callers[step.c]);
      var user := s.callers[step.c].user;
      assert Apply(s, step).rows.Keys == s.rows.Keys + {user};
    }
  }

  lemma OwnStep(s: State, step: Step)
    requires Inv(s) && !step.Arrive? && step.c < |s.callers|
    ensures TableOk(Apply(s, step)) && CallerOk(Apply(s, step), Apply(s, step).callers[step.c])
  {
    TableStep(s, step);
    assert CallerOk(s, s.callers[step.c]);
  }

  lemma OtherFrame(s: State, step: Step, c: nat)
    requires c < |s.callers| && (step.Arrive? || step.c != c)
    ensures var t := Apply(s, step);
            && c < |t.callers| && t.callers[c] == s.callers[c]
            && ((t.counter == s.counter && t.rows == s.rows)
                || (step.Commit? && step.c < |s.callers| && s.callers[step.c].phase.Inserted?
                    && t.counter == Some(s.callers[step.c].phase.octet)
                    && t.rows == s.rows[s.callers[step.c].user := Cidr(s.callers[step.c].phase.octet)]))
  {
  }

  /** What a caller knows survives an allocation for a user who had none. */
  lemma CallerOkGrows(s: State, t: State, caller: Caller, user: nat)
    requires s.counter.Some? && t.counter == Some(s.counter.value + 1) && s.counter.value < MAX_TENANT_OCTET
    requires user !in s.rows && t.rows == s.rows[user := Cidr(s.counter.value + 1)]
    requires CallerOk(s, caller) && !caller.HoldsCounter()
    ensures CallerOk(t, caller)
  {
  }

  lemma OtherStep(s: State, step: Step, c: nat)
    requires Inv(s) && c < |s.callers| && (step.Arrive? || step.c != c)
    ensures TableOk(Apply(s, step)) && CallerOk(Apply(s, step), Apply(s, step).callers[c])
  {
    TableStep(s, step);
    OtherFrame(s, step, c);
    assert CallerOk(s, s.callers[c]);
    if step.Commit? && step.c < |s.callers| && s.callers[step.c].phase.Inserted? {
      assert CallerOk(s, s.callers[step.c]) && Exclusive(s, c, step.c);
      CallerOkGrows(s, Apply(s, step), s.callers[c], s.callers[step.c].user);
    }
  }

  lemma ExclusiveStep(s: State, step: Step, c: nat, d: nat)
    requires Inv(s) && c != d
    requires c < |Apply(s, step).callers| && d < |Apply(s, step).callers|
    ensures Exclusive(Apply(s, step), c, d)
  {
    if c < |s.callers| && d < |s.callers| {
      assert Exclusive(s, c, d);
    }
  }

  lemma InvStep(s: State, step: Step)
    requires Inv(s)
    ensures Inv(Apply(s, step))
  {
    TableStep(s, step);
    var t := Apply(s, step);
    forall c: nat, d: nat | c < |t.callers| && d < |t.callers| && c != d ensures Exclusive(t, c, d) {
      ExclusiveStep(s, step, c, d);
    }
    forall c | 0 <= c < |t.callers| ensures CallerOk(t, t.callers[c]) {
      if !step.Arrive? && step.c == c && c < |s.callers| {
        OwnStep(s, step);
      } else if c < |s.callers| {
        OtherStep(s, step, c);
      }
    }
  }

  lemma InvAlways(steps: seq<Step>)
    ensures Inv(Exec(SEEDED, steps))
  {
    forall s: State, step: Step | Inv(s) ensures Inv(Apply(s, step)) {
      InvStep(s, step);
    }
    Runs.Always(Apply, Inv, SEEDED, steps);
  }

  // ---------------------------------------------------------------- what callers can rely on

  /** Over every interleaving of callers: distinct subnets, one per user, with octets in 2..254,
      and a counter that never runs ahead of the rows, whatever was rolled back. */
  lemma AllocationsAreDistinct(steps: seq<Step>)
    ensures var s := Exec(SEEDED, steps);
            && (forall u | u in s.rows :: MIN_TENANT_OCTET <= s.rows[u].octet <= MAX_TENANT_OCTET)
            && (forall u, v | u in s.rows && v in s.rows && u != v :: s.rows[u] != s.rows[v])
            && s.counter == Some(|s.rows| + 1)
  {
    InvAlways(steps);
  }

  /** All successful callers for one user are told the same subnet, the one in the table; and no
      caller ever sees the failure that the code calls a bug. */
  lemma RacersAgree(steps: seq<Step>, c: nat, d: nat)
    requires c < |Exec(SEEDED, steps).callers| && d < |Exec(SEEDED, steps).callers|
    ensures var s := Exec(SEEDED, steps);
            var one, two := s.callers[c], s.callers[d];
            && (one.phase.Done? && one.phase.outcome.Ok? ==> one.user in s.rows && s.rows[one.user] == one.phase.outcome.value)
            && (one.user == two.user && one.phase.Done? && two.phase.Done? && one.phase.outcome.Ok? && two.phase.outcome.Ok? ==>
                  one.phase == two.phase)
            && one.phase != Done(Err(NoAllocationOnRefetch)) && one.phase != Done(Err(NotInitialized))
  {
    InvAlways(steps);
    var s := Exec(SEEDED, steps);
    assert CallerOk(s, s.callers[c]) && CallerOk(s, s.callers[d]);
  }

  /** An allocation is for ever. */
  lemma {:induction false} AllocationsStay(steps: seq<Step>, later: seq<Step>, user: nat)
    requires user in Exec(SEEDED, steps).rows
    ensures user in Exec(SEEDED, steps + later).rows
    ensures Exec(SEEDED, steps + later).rows[user] == Exec(SEEDED, steps).rows[user]
  {
    if later == [] {
      assert steps + later == steps;
    } else {
      var n := |later| - 1;
      AllocationsStay(steps, later[..n], user);
      assert steps + later == (steps + later[..n]) + [later[n]];
      Runs.ExecSnoc(Apply, SEEDED, steps + later[..n], later[n]);
      InvAlways(steps + later[..n]);
      var s, step := Exec(SEEDED, steps + later[..n]), later[n];
      assert !step.Arrive? && step.c < |s.callers| ==> CallerOk(s, s.callers[step.c]);
    }
  }

  /** The first n octets that are not reserved. */
  function Pool(n: nat): set<int> {
    set octet: int | 0 <= octet <= n + 1 && !Reserved(octet)
  }

  lemma {:induction false} PoolSize(n: nat)
    ensures |Pool(n)| == n
  {
    if n > 0 {
      PoolSize(n - 1);
      assert Pool(n) == Pool(n - 1) + {n + 1};
    } else {
      assert Pool(0) == {};
    }
  }

  function Octets(rows: map<nat, Cidr>, users: set<nat>): set<int>
    requires users <= rows.Keys
  {
    set u | u in users :: rows[u].octet
  }

  lemma {:induction false} OctetsAreAsManyAsUsers(rows: map<nat, Cidr>, users: set<nat>)
    requires users <= rows.Keys
    requires forall u, v | u in users && v in users && u != v :: rows[u] != rows[v]
    ensures |Octets(rows, users)| == |users|
  {
    if u :| u in users {
      OctetsAreAsManyAsUsers(rows, users - {u});
      assert Octets(rows, users) == Octets(rows, users - {u}) + {rows[u].octet};
      assert rows[u].octet !in Octets(rows, users - {u});
    }
  }

  /** No octet is ever lost to a rollback: the octets in use are exactly those up to the counter. */
  lemma NoOctetIsLost(steps: seq<Step>)
    ensures var s := Exec(SEEDED, steps);
            Octets(s.rows, s.rows.Keys) == Pool(|s.rows|)
  {
    InvAlways(steps);
    var s := Exec(SEEDED, steps);
    OctetsAreAsManyAsUsers(s.rows, s.rows.Keys);
    PoolSize(|s.rows|);
    FullSubset(Octets(s.rows, s.rows.Keys), Pool(|s.rows|));
  }

  /** The pool is reported exhausted only when all 253 octets are held. */
  lemma ExhaustedMeansFull(steps: seq<Step>, c: nat)
    requires c < |Exec(SEEDED, steps).callers|
    requires Exec(SEEDED, steps).callers[c].phase == Done(Err(PoolExhausted))
    ensures var s := Exec(SEEDED, steps);
            |s.rows| == 253 && forall octet | MIN_TENANT_OCTET <= octet <= MAX_TENANT_OCTET ::
              exists u :: u in s.rows && s.rows[u] == Cidr(octet)
  {
    InvAlways(steps);
    NoOctetIsLost(steps);
    var s := Exec(SEEDED, steps);
    assert CallerOk(s, s.callers[c]);
    forall octet | MIN_TENANT_OCTET <= octet <= MAX_TENANT_OCTET
      ensures exists u :: u in s.rows && s.rows[u] == Cidr(octet)
    {
      assert octet in Octets(s.rows, s.rows.Keys);
    }
  }

  /** A caller that has read no row, and to whom the counter is released, is told that the pool is exhausted
      exactly if all octets are held, even if one of them is held for its own user by now. */
  lemma ToldExhaustedIff(steps: seq<Step>, c: nat)
    requires var s := Exec(SEEDED, steps); c < |s.callers| && s.callers[c].phase.Missing? && s.CounterFree()
    ensures var s := Exec(SEEDED, steps);
            Apply(s, Lock(c)).callers[c].phase == Done(Err(PoolExhausted)) <==> |s.rows| == 253
  {
    InvAlways(steps);
  }

  /** So it is told so although its user has a subnet exactly if the pool is full and a rival for the same
      user has been given one since the caller looked. */
  lemma ToldExhaustedDespiteSubnetIff(steps: seq<Step>, c: nat)
    requires var s := Exec(SEEDED, steps); c < |s.callers| && s.callers[c].phase.Missing? && s.CounterFree()
    ensures var s := Exec(SEEDED, steps);
            var t := Apply(s, Lock(c));
            t.callers[c].phase == Done(Err(PoolExhausted)) && s.callers[c].user in t.rows <==>
              |s.rows| == 253 && s.callers[c].user in s.rows
  {
    ToldExhaustedIff(steps, c);
  }

  lemma Next(s: State, steps: seq<Step>, step: Step, t: State)
    requires Apply(Exec(s, steps), step) == t
    ensures Exec(s, steps + [step]) == t
  {
    Runs.ExecSnoc(Apply, s, steps, step);
  }

  /** The tables after n users have been served one after the other. */
  function Served(n: nat): (rows: map<nat, Cidr>)
    ensures forall u: nat :: u in rows <==> u < n
    ensures forall u | u in rows :: rows[u] == Cidr(u + 2)
  {
    map u | u in Below(n) :: Cidr(u + 2)
  }

  function Given(n: nat): (callers: seq<Caller>)
    ensures |callers| == n
  {
    if n == 0 then [] else Given(n - 1) + [Caller(n - 1, Done(Ok(Cidr(n + 1))))]
  }

  lemma {:induction false} NoneWaits(n: nat, late: seq<Caller>)
    requires forall c | 0 <= c < |late| :: !late[c].HoldsCounter()
    ensures ServedAll(n, late).CounterFree()
  {
    if n > 0 { NoneWaits(n - 1, [Caller(n - 1, Done(Ok(Cidr(n + 1))))] + late); Shift(n, late); }
  }

  lemma Shift(n: nat, late: seq<Caller>)
    requires n > 0
    ensures ServedAll(n, late).callers == ServedAll(n - 1, [Caller(n - 1, Done(Ok(Cidr(n + 1))))] + late).callers
  {
  }

  function ServedAll(n: nat, late: seq<Caller>): State {
    State(Some(n + 1), Served(n), Given(n) + late)
  }

  /** A step of the k-th late caller. */
  lemma LateMoves(n: nat, late: seq<Caller>, k: nat, phase: Phase)
    requires k < |late|
    ensures ServedAll(n, late).callers[n + k] == late[k]
    ensures ServedAll(n, late).Move(n + k, phase) == ServedAll(n, late[k := late[k].(phase := phase)])
  {
    assert (Given(n) + late)[n + k := late[k].(phase := phase)] == Given(n) + late[k := late[k].(phase := phase)];
  }

  lemma LateLocks(n: nat, late: seq<Caller>, k: nat)
    requires k < |late| && late[k].phase.Missing? && n <= 252
    requires forall c | 0 <= c < |late| :: !late[c].HoldsCounter()
    ensures Apply(ServedAll(n, late), Lock(n + k)) == ServedAll(n, late[k := late[k].(phase := Locked(n + 2))])
  {
    NoneWaits(n, late);
    LateMoves(n, late, k, Locked(n + 2));
  }

  lemma LateInserts(n: nat, late: seq<Caller>, k: nat)
    requires k < |late| && late[k].phase == Locked(n + 2) && late[k].user >= n
    ensures Apply(ServedAll(n, late), Insert(n + k)) == ServedAll(n, late[k := late[k].(phase := Inserted(n + 2))])
  {
    assert Cidr(n + 2) !in Served(n).Values;
    LateMoves(n, late, k, Inserted(n + 2));
  }

  lemma LateCommits(n: nat, late: seq<Caller>, k: nat)
    requires k < |late| && late[k] == Caller(n, Inserted(n + 2))
    ensures Apply(ServedAll(n, late), Commit(n + k)) ==
            ServedAll(n, late[k := Caller(n, Done(Ok(Cidr(n + 2))))]).(counter := Some(n + 2), rows := Served(n + 1))
  {
    LateMoves(n, late, k, Done(Ok(Cidr(n + 2))));
    assert Served(n)[n := Cidr(n + 2)] == Served(n + 1);
  }

  /** One caller for user n is served, while another may have read nothing. */
  lemma Serve(n: nat, steps: seq<Step>, late: seq<Caller>) returns (more: seq<Step>)
    requires n <= 252 && late != [] && late[0] == Caller(n, Missing)
    requires forall c | 0 <= c < |late| :: !late[c].HoldsCounter()
    requires Exec(SEEDED, steps) == ServedAll(n, late)
    ensures Exec(SEEDED, more) ==
            ServedAll(n, late[0 := Caller(n, Done(Ok(Cidr(n + 2))))]).(counter := Some(n + 2), rows := Served(n + 1))
  {
    LateLocks(n, late, 0);
    var locked := late[0 := Caller(n, Locked(n + 2))];
    Next(SEEDED, steps, Lock(n), ServedAll(n, locked));
    LateInserts(n, locked, 0);
    var inserted := locked[0 := Caller(n, Inserted(n + 2))];
    Next(SEEDED, steps + [Lock(n)], Insert(n), ServedAll(n, inserted));
    LateCommits(n, inserted, 0);
    assert inserted[0 := Caller(n, Done(Ok(Cidr(n + 2))))] == late[0 := Caller(n, Done(Ok(Cidr(n + 2))))];
    more := steps + [Lock(n)] + [Insert(n)];
    Next(SEEDED, more, Commit(n), ServedAll(n, late[0 := Caller(n, Done(Ok(Cidr(n + 2))))]).(counter := Some(n + 2), rows := Served(n + 1)));
    more := more + [Commit(n)];
  }

  lemma Arrives(n: nat, steps: seq<Step>, late: seq<Caller>) returns (more: seq<Step>)
    requires Exec(SEEDED, steps) == ServedAll(n, late)
    ensures Exec(SEEDED, more) == ServedAll(n, late + [Caller(n, Missing)])
  {
    Next(SEEDED, steps, Arrive(n), ServedAll(n, late + [Caller(n, Start)]));
    more := steps + [Arrive(n)];
    Next(SEEDED, more, Read(n + |late|), ServedAll(n, late + [Caller(n, Missing)]));
    more := more + [Read(n + |late|)];
  }

  /** The caller who has just been served is the last of those before. */
  lemma ServedNext(n: nat, late: seq<Caller>)
    ensures ServedAll(n, [Caller(n, Done(Ok(Cidr(n + 2))))] + late).(counter := Some(n + 2), rows := Served(n + 1))
            == ServedAll(n + 1, late)
  {
    assert Given(n) + ([Caller(n, Done(Ok(Cidr(n + 2))))] + late) == Given(n + 1) + late;
  }

  lemma {:induction false} ServeAll(n: nat) returns (steps: seq<Step>)
    requires n <= 253
    ensures Exec(SEEDED, steps) == ServedAll(n, [])
  {
    if n == 0 {
      steps := [];
    } else {
      var before := ServeAll(n - 1);
      var arrived := Arrives(n - 1, before, []);
      steps := Serve(n - 1, arrived, [Caller(n - 1, Missing)]);
      ServedNext(n - 1, []);
    }
  }

  /** Two callers for user n have read nothing, and the first of them has been served. */
  lemma OneOfTwo(n: nat) returns (steps: seq<Step>)
    requires n <= 252
    ensures var s := Exec(SEEDED, steps);
            && |s.callers| == n + 2 && s.callers[n] == Caller(n, Done(Ok(Cidr(n + 2)))) && s.callers[n + 1] == Caller(n, Missing)
            && s.CounterFree() && s.counter == Some(n + 2) && n in s.rows && s.rows[n] == Cidr(n + 2)
  {
    var served := ServeAll(n);
    var one := Arrives(n, served, []);
    assert [] + [Caller(n, Missing)] == [Caller(n, Missing)];
    var two := Arrives(n, one, [Caller(n, Missing)]);
    var waiting := [Caller(n, Missing), Caller(n, Missing)];
    assert [Caller(n, Missing)] + [Caller(n, Missing)] == waiting;
    steps := Serve(n, two, waiting);
    var late := [Caller(n, Done(Ok(Cidr(n + 2)))), Caller(n, Missing)];
    assert waiting[0 := Caller(n, Done(Ok(Cidr(n + 2))))] == late;
    NoneWaits(n, late);
    assert Exec(SEEDED, steps).callers == ServedAll(n, late).callers;
  }

  lemma LockAtTheEnd(s: State, c: nat)
    requires c < |s.callers| && s.callers[c].phase.Missing? && s.CounterFree() && s.counter == Some(MAX_TENANT_OCTET)
    ensures Apply(s, Lock(c)) == s.Move(c, Done(Err(PoolExhausted)))
  {
  }

  /** Such a run exists: with one octet left, two callers for one user race for it. */
  lemma LastOctetRace(n: nat) returns (steps: seq<Step>)
    requires n + 2 == MAX_TENANT_OCTET
    ensures var s := Exec(SEEDED, steps);
            && |s.callers| == n + 2 && s.callers[n].user == s.callers[n + 1].user == n && n in s.rows
            && s.callers[n].phase == Done(Ok(s.rows[n])) && s.callers[n + 1].phase == Done(Err(PoolExhausted))
  {
    var given := OneOfTwo(n);
    LockAtTheEnd(Exec(SEEDED, given), n + 1);
    Runs.ExecSnoc(Apply, SEEDED, given, Lock(n + 1));
    steps := given + [Lock(n + 1)];
  }

  // ---------------------------------------------------------------- the code

  /** The first octet from `start` on that is not reserved. */
  method SkipReserved(start: int) returns (next: int)
    ensures start <= next && !Reserved(next) && forall octet | start <= octet < next :: Reserved(octet)
  {
    next := start;
    while Reserved(next)
      invariant start <= next && forall octet | start <= octet < next :: Reserved(octet)
      decreases MIN_TENANT_OCTET - next
    {
      next := next + 1;
    }
  }

  /** Steps of anybody but caller `c`. */
  predicate Others(steps: seq<Step>, c: nat) {
    forall i | 0 <= i < |steps| :: steps[i].Arrive? || steps[i].c != c
  }

  lemma {:induction false} OthersLeave(s: State, steps: seq<Step>, c: nat)
    requires c < |s.callers| && Others(steps, c)
    ensures |s.callers| <= |Exec(s, steps).callers| && Exec(s, steps).callers[c] == s.callers[c]
  {
    if steps != [] {
      OthersLeave(s, steps[..|steps| - 1], c);
    }
  }

  /** What the others do at each await, and whether the commit succeeds. */
  datatype Luck = Luck(beforeLock: seq<Step>, beforeInsert: seq<Step>, beforeRefetch: seq<Step>,
                       beforeCommit: seq<Step>, commits: bool)
  {
    predicate By(c: nat) {
      Others(beforeLock, c) && Others(beforeInsert, c) && Others(beforeRefetch, c) && Others(beforeCommit, c)
    }
  }

  class SubnetDatabase {
    var counter: Option<int>
    var rows: map<nat, Cidr>
    var callers: seq<Caller>
    ghost var log: seq<Step>

    function View(): State
      reads this
    {
      State(counter, rows, callers)
    }

    ghost predicate Valid()
      reads this
    {
      View() == Exec(SEEDED, log)
    }

    constructor ()
      ensures Valid() && rows == map[] && callers == []
    {
      counter, rows, callers := Some(1), map[], [];
      log := [];
    }

    /** Other callers run while this one waits. */
    method Interrupt(c: nat, steps: seq<Step>)
      requires Valid() && c < |callers| && Others(steps, c)
      modifies this
      ensures Valid() && log == old(log) + steps && View() == Exec(old(View()), steps)
      ensures c < |callers| && callers[c] == old(callers)[c]
    {
      OthersLeave(View(), steps, c);
      Runs.ExecAppend(Apply, SEEDED, log, steps);
      var after := Exec(View(), steps);
      counter, rows, callers := after.counter, after.rows, after.callers;
      log := log + steps;
    }

    ghost method Record(step: Step, before: State)
      requires before == Exec(SEEDED, log) && View() == Apply(before, step)
      modifies this`log
      ensures Valid() && log == old(log) + [step]
    {
      Runs.ExecSnoc(Apply, SEEDED, log, step);
      log := log + [step];
    }

    method SetPhase(c: nat, phase: Phase)
      requires c < |callers|
      modifies this`callers
      ensures callers == old(callers)[c := old(callers)[c].(phase := phase)]
    {
      callers := callers[c := callers[c].(phase := phase)];
    }

    /** Any other exception: the session is rolled back. */
    method GiveUp(c: nat) returns (outcome: Result<Cidr, Failure>)
      requires Valid() && c < |callers| && !callers[c].phase.Done?
      modifies this`callers, this`log
      ensures Valid() && c < |callers| && outcome == Err(Aborted)
      ensures callers[c] == old(callers)[c].(phase := Done(outcome))
    {
      ghost var before := View();
      outcome := Err(Aborted);
      SetPhase(c, Done(outcome));
      Record(Abort(c), before);
    }

    /** SELECT ... FOR UPDATE once the row is free, and the octet that comes next. */
    method ReadCounter(c: nat)
      requires Valid() && c < |callers| && callers[c].phase.Missing? && View().CounterFree()
      modifies this`callers, this`log
      ensures Valid() && c < |callers| && callers[c].user == old(callers)[c].user
      ensures callers[c].phase ==
              if counter.None? then Done(Err(NotInitialized))
              else if NextOctet(counter.value) > MAX_TENANT_OCTET then Done(Err(PoolExhausted))
              else Locked(NextOctet(counter.value))
      ensures View().(callers := []) == old(View().(callers := []))
    {
      ghost var before := View();
      if counter.None? {
        SetPhase(c, Done(Err(NotInitialized)));
      } else {
        var start := if counter.value + 1 < MIN_TENANT_OCTET then MIN_TENANT_OCTET else counter.value + 1;
        var next := SkipReserved(start);
        assert !Reserved(start);
        SetPhase(c, if next > MAX_TENANT_OCTET then Done(Err(PoolExhausted)) else Locked(next));
      }
      Record(Lock(c), before);
    }

    /** Waits for the counter row until nobody else holds it. */
    method LockCounter(c: nat, beforeLock: seq<Step>)
      requires Valid() && c < |callers| && callers[c].phase.Missing? && Others(beforeLock, c)
      modifies this
      ensures Valid() && c < |callers| && callers[c].user == old(callers)[c].user
      ensures if Exec(old(View()), beforeLock).CounterFree()
              then callers[c].phase.Locked? || (callers[c].phase == Done(Err(PoolExhausted)) && |rows| == 253)
              else callers[c].phase.Missing?
      ensures callers[c].phase.Missing? ==>
                exists d | 0 <= d < |callers| && d != c :: callers[d].phase.Locked? || callers[d].phase.Inserted?
    {
      Interrupt(c, beforeLock);
      if View().CounterFree() {
        InvAlways(log);
        ReadCounter(c);
      }
    }

    /** The handler of the integrity error: roll back and return what the other caller committed. */
    method ReadAgain(c: nat, beforeRefetch: seq<Step>) returns (outcome: Result<Cidr, Failure>)
      requires Valid() && c < |callers| && callers[c].phase.Conflict? && Others(beforeRefetch, c)
      modifies this
      ensures Valid() && c < |callers| && callers[c] == old(callers)[c].(phase := Done(outcome))
      ensures outcome.Ok? && callers[c].user in rows && rows[callers[c].user] == outcome.value
    {
      Interrupt(c, beforeRefetch);
      InvAlways(log);
      assert CallerOk(View(), callers[c]);
      ghost var before := View();
      outcome := if callers[c].user in rows then Ok(rows[callers[c].user]) else Err(NoAllocationOnRefetch);
      SetPhase(c, Done(outcome));
      Record(Refetch(c), before);
    }

    /** Writes the counter and the row, and commits them together. */
    method StoreSubnet(c: nat, luck: Luck) returns (outcome: Result<Cidr, Failure>)
      requires Valid() && c < |callers| && callers[c].phase.Locked? && luck.By(c)
      modifies this
      ensures Valid() && c < |callers| && callers[c] == old(callers)[c].(phase := Done(outcome))
      ensures outcome.Ok? ==> callers[c].user in rows && rows[callers[c].user] == outcome.value
      ensures outcome.Err? ==> outcome.error == Aborted && !luck.commits
    {
      Interrupt(c, luck.beforeInsert);
      var user, next := callers[c].user, callers[c].phase.octet;
      ghost var before := View();
      if user in rows || Cidr(next) in rows.Values {
        SetPhase(c, Conflict);
        Record(Insert(c), before);
        outcome := ReadAgain(c, luck.beforeRefetch);
      } else {
        SetPhase(c, Inserted(next));
        Record(Insert(c), before);
        Interrupt(c, luck.beforeCommit);
        if luck.commits {
          before := View();
          outcome := Ok(Cidr(next));
          counter, rows := Some(next), rows[user := Cidr(next)];
          SetPhase(c, Done(outcome));
          Record(Commit(c), before);
        } else {
          outcome := GiveUp(c);
        }
      }
    }

    /** get_or_allocate_subnet, interrupted by other callers at each await.  A subnet that is
        returned is the one that the table holds for this user; the call fails only when the pool is full or
        when its commit fails; and without an outcome it waits for the counter. */
    method GetOrAllocateSubnet(c: nat, luck: Luck) returns (outcome: Option<Result<Cidr, Failure>>)
      requires Valid() && c < |callers| && callers[c].phase.Start? && luck.By(c)
      modifies this
      ensures Valid() && c < |callers| && callers[c].user == old(callers)[c].user
      ensures callers[c].phase == if outcome.Some? then Done(outcome.value) else Missing
      ensures outcome.None? <==>
                callers[c].user !in old(rows) && !Exec(Apply(old(View()), Read(c)), luck.beforeLock).CounterFree()
      ensures outcome.None? ==> exists d | 0 <= d < |callers| && d != c :: callers[d].phase.Locked? || callers[d].phase.Inserted?
      ensures outcome.Some? && outcome.value.Ok? ==> callers[c].user in rows && rows[callers[c].user] == outcome.value.value
      ensures callers[c].user in old(rows) ==> outcome == Some(Ok(old(rows)[callers[c].user])) && rows == old(rows)
      ensures outcome.Some? && outcome.value.Err? ==>
                || (outcome.value.error == PoolExhausted && |rows| == 253)
                || (outcome.value.error == Aborted && !luck.commits)
    {
      var user := callers[c].user;
      ghost var before := View();
      SetPhase(c, if user in rows then Done(Ok(rows[user])) else Missing);
      Record(Read(c), before);
      if callers[c].phase.Missing? {
        LockCounter(c, luck.beforeLock);
        if callers[c].phase.Missing? { return None; }
      }
      if callers[c].phase.Locked? {
        var result := StoreSubnet(c, luck);
        outcome := Some(result);
      } else {
        outcome := Some(callers[c].phase.outcome);
      }
    }
  }
}
