/**
 The entitlements table and the trigger that keeps workshops.used_seats.

 A row is identified by its unique key; the workshop is absent in an individual entitlement.
 */
module Seats {
  import opened Wrappers
  import opened Finite
  import Runs

  datatype Status = Active | Expired | Revoked

  datatype Key = Key(user: nat, content: nat, workshop: Option<nat>)

  datatype Row = Row(status: Status, validFrom: int, validUntil: Option<int>)

  type Table = map<Key, Row>

  /** The table, and used_seats of every workshop. */
  datatype State = State(rows: Table, used: map<nat, int>)

  /** The rows that the trigger counts for a workshop. */
  function ActiveIn(rows: Table, w: nat): set<Key> {
    set key | key in rows && key.workshop == Some(w) && rows[key].status == Active
  }

  /** One turn of the trigger's loop: nothing for NULL, an UPDATE of no row for an unknown id. */
  function Recount(used: map<nat, int>, rows: Table, w: Option<nat>): map<nat, int> {
    if w.Some? && w.value in used then used[w.value := |ActiveIn(rows, w.value)|] else used
  }

  /** FOREACH w IN ARRAY wids. */
  function RecountAll(used: map<nat, int>, rows: Table, touched: seq<Option<nat>>): map<nat, int> {
    if touched == [] then used
    else Recount(RecountAll(used, rows, touched[..|touched| - 1]), rows, touched[|touched| - 1])
  }

  /** The loop recounts the workshops it is given and no others. */
  lemma {:induction false} RecountedAt(used: map<nat, int>, rows: Table, touched: seq<Option<nat>>, w: nat)
    ensures w in RecountAll(used, rows, touched) <==> w in used
    ensures w in used ==>
              RecountAll(used, rows, touched)[w] == if Some(w) in touched then |ActiveIn(rows, w)| else used[w]
  {
    if touched != [] {
      RecountedAt(used, rows, touched[..|touched| - 1], w);
      assert touched == touched[..|touched| - 1] + [touched[|touched| - 1]];
    }
  }

  /** The statements on entitlements, each followed by the trigger. */
  datatype Statement =
    | Insert(key: Key, row: Row)
    | Update(key: Key, key': Key, row: Row)   // may move the row to another workshop
    | Delete(key: Key)
    | AddWorkshop(w: nat)

  /** The row's workshop exists, as the foreign key demands. */
  predicate Refers(used: map<nat, int>, key: Key) {
    key.workshop.Some? ==> key.workshop.value in used
  }

  /** A statement that violates a unique index or the foreign key changes nothing. */
  function Apply(s: State, statement: Statement): State {
    match statement
    case Insert(key, row) =>
      if key in s.rows || !Refers(s.used, key) then s
      else
        var rows := s.rows[key := row];
        State(rows, RecountAll(s.used, rows, [key.workshop]))
    case Update(key, key', row) =>
      if key !in s.rows || (key' in s.rows && key' != key) || !Refers(s.used, key') then s
      else
        var rows := (s.rows - {key})[key' := row];
        State(rows, RecountAll(s.used, rows, [key.workshop, key'.workshop]))
    case Delete(key) =>
      if key !in s.rows then s
      else
        var rows := s.rows - {key};
        State(rows, RecountAll(s.used, rows, [key.workshop]))
    case AddWorkshop(w) => if w in s.used then s else s.(used := s.used[w := 0])
  }

  function Exec(s: State, statements: seq<Statement>): State {
    Runs.Exec(Apply, s, statements)
  }

  /** used_seats is the number of active entitlements, for every workshop; and no row refers to a
      workshop that does not exist. */
  ghost predicate Exact(s: State) {
    && (forall w | w in s.used :: s.used[w] == |ActiveIn(s.rows, w)|)
    && (forall key | key in s.rows :: Refers(s.used, key))
  }

  /** The UPDATE in the migration: every workshop is counted, whatever the column held before. */
  function Installed(s: State): State {
    s.(used := map w | w in s.used :: |ActiveIn(s.rows, w)|)
  }

  /** A change of rows of other workshops does not change the count. */
  lemma OnlyTouchedCount(rows: Table, rows': Table, w: nat)
    requires forall key: Key | key.workshop == Some(w) :: key in rows <==> key in rows'
    requires forall key | key in rows && key.workshop == Some(w) :: rows'[key] == rows[key]
    ensures ActiveIn(rows', w) == ActiveIn(rows, w)
  {
  }

  /** Recounting the touched workshops is enough, when the rows of all others are as they were. */
  lemma RecountIsExact(s: State, rows: Table, touched: seq<Option<nat>>, w: nat)
    requires Exact(s) && w in s.used
    requires Some(w) !in touched ==> ActiveIn(rows, w) == ActiveIn(s.rows, w)
    ensures w in RecountAll(s.used, rows, touched) && RecountAll(s.used, rows, touched)[w] == |ActiveIn(rows, w)|
  {
    RecountedAt(s.used, rows, touched, w);
  }

  lemma ExactFrom(s: State, rows: Table, touched: seq<Option<nat>>)
    requires Exact(s) && forall key | key in rows :: Refers(s.used, key)
    requires forall w | w in s.used && Some(w) !in touched :: ActiveIn(rows, w) == ActiveIn(s.rows, w)
    ensures Exact(State(rows, RecountAll(s.used, rows, touched)))
    ensures RecountAll(s.used, rows, touched).Keys == s.used.Keys
  {
    var used := RecountAll(s.used, rows, touched);
    forall w ensures w in used <==> w in s.used { RecountedAt(s.used, rows, touched, w); }
    forall w | w in used ensures used[w] == |ActiveIn(rows, w)| { RecountIsExact(s, rows, touched, w); }
  }

  lemma ExactStep(s: State, statement: Statement)
    requires Exact(s)
    ensures Exact(Apply(s, statement))
    ensures !statement.AddWorkshop? ==> Apply(s, statement).used.Keys == s.used.Keys
  {
    var t := Apply(s, statement);
    if t != s {
      match statement
      case Insert(key, row) =>
        forall w: nat | Some(w) != key.workshop ensures ActiveIn(t.rows, w) == ActiveIn(s.rows, w) { OnlyTouchedCount(s.rows, t.rows, w); }
        ExactFrom(s, t.rows, [key.workshop]);
      case Update(key, key', row) =>
        forall w: nat | Some(w) != key.workshop && Some(w) != key'.workshop ensures ActiveIn(t.rows, w) == ActiveIn(s.rows, w) {
          OnlyTouchedCount(s.rows, t.rows, w);
        }
        ExactFrom(s, t.rows, [key.workshop, key'.workshop]);
      case Delete(key) =>
        forall w: nat | Some(w) != key.workshop ensures ActiveIn(t.rows, w) == ActiveIn(s.rows, w) { OnlyTouchedCount(s.rows, t.rows, w); }
        ExactFrom(s, t.rows, [key.workshop]);
      case AddWorkshop(v) => assert ActiveIn(s.rows, v) == {};
    }
  }

  /** For every sequence of statements after the migration, the counter of every workshop is exact,
      although the trigger recounts only the workshops that a statement touches. */
  lemma CountersAreExact(s: State, statements: seq<Statement>)
    requires forall key | key in s.rows :: Refers(s.used, key)
    ensures Exact(Exec(Installed(s), statements))
  {
    forall t: State, statement: Statement | Exact(t) ensures Exact(Apply(t, statement)) {
      ExactStep(t, statement);
    }
    Runs.Always(Apply, Exact, Installed(s), statements);
  }

  // ---------------------------------------------------------------- grant_workshop_seat

  /** INSERT ... ON CONFLICT (user_id, content_id, workshop_id) DO UPDATE. */
  function Grant(s: State, key: Key, now: int, validUntil: Option<int>): State {
    if key in s.rows then
      Apply(s, Update(key, key, Row(Active, now, if validUntil.Some? then validUntil else s.rows[key].validUntil)))
    else Apply(s, Insert(key, Row(Active, now, validUntil)))
  }

  function GrantedRow(s: State, key: Key, now: int, validUntil: Option<int>): Row {
    Row(Active, now, if validUntil.None? && key in s.rows then s.rows[key].validUntil else validUntil)
  }

  lemma GrantSetsItsRow(s: State, key: Key, now: int, validUntil: Option<int>)
    requires Exact(s) && key.workshop.Some? && key.workshop.value in s.used
    ensures var t := Grant(s, key, now, validUntil);
            && Exact(t) && t.used.Keys == s.used.Keys
            && t.rows == s.rows[key := GrantedRow(s, key, now, validUntil)]
  {
    var row := GrantedRow(s, key, now, validUntil);
    ExactStep(s, if key in s.rows then Update(key, key, row) else Insert(key, row));
    assert (s.rows - {key})[key := row] == s.rows[key := row];
  }

  lemma OtherCount(s: State, t: State, key: Key, row: Row, v: nat)
    requires Exact(s) && Exact(t) && v in s.used && v in t.used && key.workshop != Some(v)
    requires t.rows == s.rows[key := row]
    ensures t.used[v] == s.used[v]
  {
    OnlyTouchedCount(s.rows, t.rows, v);
  }

  lemma ActiveAfterActivation(rows: Table, key: Key, row: Row, w: nat)
    requires key.workshop == Some(w) && row.status == Active
    ensures ActiveIn(rows[key := row], w) == ActiveIn(rows, w) + {key}
  {
  }

  lemma CountsAfterActivation(s: State, t: State, key: Key, row: Row, w: nat)
    requires Exact(s) && Exact(t) && w in s.used && w in t.used && key.workshop == Some(w)
    requires row.status == Active && t.rows == s.rows[key := row]
    ensures t.used[w] == s.used[w] + (if key in ActiveIn(s.rows, w) then 0 else 1)
  {
    ActiveAfterActivation(s.rows, key, row, w);
    assert key in ActiveIn(s.rows, w) ==> ActiveIn(s.rows, w) + {key} == ActiveIn(s.rows, w);
  }

  /** A grant makes the row active from now on, to the given end or, where there is none, to the end it had; it adds at most one seat to its own workshop, and leaves every other
      row and counter as they were. */
  lemma GrantAddsAtMostOne(s: State, key: Key, now: int, validUntil: Option<int>)
    requires Exact(s) && key.workshop.Some? && key.workshop.value in s.used
    ensures var t, w := Grant(s, key, now, validUntil), key.workshop.value;
            && Exact(t) && t.used.Keys == s.used.Keys
            && key in t.rows && t.rows[key].status == Active && t.rows[key].validFrom == now
            && (validUntil.Some? ==> t.rows[key].validUntil == validUntil)
            && (validUntil.None? ==> t.rows[key].validUntil == if key in s.rows then s.rows[key].validUntil else None)
            && t.rows.Keys == s.rows.Keys + {key}
            && (forall k | k in s.rows && k != key :: k in t.rows && t.rows[k] == s.rows[k])
            && t.used[w] == s.used[w] + (if key in ActiveIn(s.rows, w) then 0 else 1)
            && (forall v | v in s.used && v != w :: t.used[v] == s.used[v])
  {
    GrantSetsItsRow(s, key, now, validUntil);
    var t, row := Grant(s, key, now, validUntil), GrantedRow(s, key, now, validUntil);
    CountsAfterActivation(s, t, key, row, key.workshop.value);
    forall v | v in s.used && v != key.workshop.value ensures t.used[v] == s.used[v] {
      OtherCount(s, t, key, row, v);
    }
  }

  // ---------------------------------------------------------------- the trigger

  class EntitlementTable {
    var rows: Table
    var used: map<nat, int>

    function View(): State
      reads this
    {
      State(rows, used)
    }

    /** The migration. */
    constructor (rows: Table, workshops: set<nat>)
      requires forall key | key in rows && key.workshop.Some? :: key.workshop.value in workshops
      ensures Exact(View()) && this.rows == rows && used.Keys == workshops
    {
      this.rows := rows;
      used := map w | w in workshops :: |ActiveIn(rows, w)|;
    }

    /** ROLLBACK to what was committed. */
    method Rollback(saved: State)
      modifies this
      ensures View() == saved
    {
      rows, used := saved.rows, saved.used;
    }

    /** entitlements_refresh_workshop_used_seats: the loop over the workshops of the old and new row. */
    method RefreshUsedSeats(touched: seq<Option<nat>>)
      modifies this`used
      ensures used == RecountAll(old(used), rows, touched)
    {
      var i := 0;
      while i < |touched|
        invariant 0 <= i <= |touched| && used == RecountAll(old(used), rows, touched[..i])
      {
        assert touched[..i + 1][..i] == touched[..i];
        if touched[i].Some? && touched[i].value in used {
          used := used[touched[i].value := |ActiveIn(rows, touched[i].value)|];
        }
        i := i + 1;
      }
      assert touched[..i] == touched;
    }

    method InsertRow(key: Key, row: Row)
      requires Exact(View())
      modifies this
      ensures View() == Apply(old(View()), Insert(key, row)) && Exact(View())
      ensures rows == if key !in old(rows) && (key.workshop.Some? ==> key.workshop.value in old(used)) then old(rows)[key := row]
                      else old(rows)
    {
      ExactStep(View(), Insert(key, row));
      if key !in rows && Refers(used, key) {
        rows := rows[key := row];
        RefreshUsedSeats([key.workshop]);
      }
    }

    method UpdateRow(key: Key, key': Key, row: Row)
      requires Exact(View())
      modifies this
      ensures View() == Apply(old(View()), Update(key, key', row)) && Exact(View())
      ensures rows == if key in old(rows) && (key' == key || key' !in old(rows)) && (key'.workshop.Some? ==> key'.workshop.value in old(used))
                      then (old(rows) - {key})[key' := row] else old(rows)
    {
      ExactStep(View(), Update(key, key', row));
      if key in rows && (key' !in rows || key' == key) && Refers(used, key') {
        rows := (rows - {key})[key' := row];
        RefreshUsedSeats([key.workshop, key'.workshop]);
      }
    }

    method DeleteRow(key: Key)
      requires Exact(View())
      modifies this
      ensures View() == Apply(old(View()), Delete(key)) && Exact(View())
      ensures rows == old(rows) - {key}
    {
      ExactStep(View(), Delete(key));
      if key in rows {
        rows := rows - {key};
        RefreshUsedSeats([key.workshop]);
      }
    }
  }
}
