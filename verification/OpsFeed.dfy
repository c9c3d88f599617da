/**
 The operations feed: one row per event key, written by an upsert that keeps what the
 administrators did with the row.
 */
module OpsFeed {
  import opened Wrappers

  const SEVERITIES := {"info", "warning", "critical"}

  /** The columns that the upsert overwrites. */
  datatype Content = Content(severity: string, title: string, message: string, deploymentId: string)

  datatype Entry = Entry(eventType: string, content: Content, isRead: bool, createdAt: int, updatedAt: int)

  datatype Event = Event(key: string, eventType: string, content: Content)

  datatype EmptyKey = EmptyKey

  type Feed = map<string, Entry>

  /** White space in ASCII text, as Python sees it. */
  predicate IsSpace(c: char) {
    c == ' ' || '\t' <= c <= '\r' || 0x1c <= c as int <= 0x1f
  }

  /** str.strip */
  function Strip(s: string): (r: string)
    ensures r != [] ==> !IsSpace(r[0]) && !IsSpace(r[|r| - 1])
    ensures s == [] || (!IsSpace(s[0]) && !IsSpace(s[|s| - 1])) ==> r == s
  {
    if s == [] then s
    else if IsSpace(s[0]) then Strip(s[1..])
    else if IsSpace(s[|s| - 1]) then Strip(s[..|s| - 1])
    else s
  }

  /** Nothing but white space is stripped. */
  lemma {:induction false} StripsOnlySpace(s: string) returns (front: string, back: string)
    ensures s == front + Strip(s) + back
    ensures (forall c | c in front :: IsSpace(c)) && (forall c | c in back :: IsSpace(c))
  {
    if s == [] {
      front, back := [], [];
    } else if IsSpace(s[0]) {
      front, back := StripsOnlySpace(s[1..]);
      assert s == [s[0]] + s[1..];
      front := [s[0]] + front;
    } else if IsSpace(s[|s| - 1]) {
      front, back := StripsOnlySpace(s[..|s| - 1]);
      assert s == s[..|s| - 1] + [s[|s| - 1]];
      back := back + [s[|s| - 1]];
    } else {
      front, back := [], [];
    }
  }

  lemma BlankIff(s: string)
    ensures Strip(s) == [] <==> forall c | c in s :: IsSpace(c)
  {
    var front, back := StripsOnlySpace(s);
    if Strip(s) != [] { assert Strip(s)[0] in s; }
  }

  /** str.lower on ASCII text. */
  function Lower(s: string): (r: string)
    ensures |r| == |s|
    ensures forall i | 0 <= i < |s| ::
              if 'A' <= s[i] <= 'Z' then 'a' <= r[i] <= 'z' && r[i] - 'a' == s[i] - 'A' else r[i] == s[i]
  {
    seq(|s|, i requires 0 <= i < |s| => if 'A' <= s[i] <= 'Z' then (s[i] as int + 32) as char else s[i])
  }

  function NormalizeKey(key: string): Result<string, EmptyKey> {
    if Strip(key) == [] then Err(EmptyKey) else Ok(Strip(key))
  }

  lemma KnownSeverity(s: string)
    ensures s in SEVERITIES ==> Strip(s) == s && Lower(s) == s
  {
    if s in SEVERITIES {
      assert forall i | 0 <= i < |s| :: 'a' <= s[i] <= 'z';
    }
  }

  /** One of the three severities is kept, in whatever case and however padded; anything else is `info`. */
  function CoerceSeverity(severity: string): (r: string)
    ensures r in {"info", "warning", "critical"}
    ensures severity in {"info", "warning", "critical"} ==> r == severity
    ensures r == Lower(Strip(severity)) || (r == "info" && Lower(Strip(severity)) !in {"warning", "critical"})
  {
    KnownSeverity(severity);
    var s := Lower(Strip(if severity == [] then "info" else severity));
    if s in SEVERITIES then s else "info"
  }

  /** INSERT ... ON CONFLICT (event_key) DO UPDATE.  The event type, the creation time and the
      read state of an existing row are not in the update list. */
  function Upsert(feed: Feed, event: Event, now: int): Result<Feed, EmptyKey> {
    match NormalizeKey(event.key)
    case Err(e) => Err(e)
    case Ok(key) =>
      Ok(feed[key := RowFor(feed, key, event, now)])
  }

  function RowFor(feed: Feed, key: string, event: Event, now: int): Entry {
    var content := event.content.(severity := CoerceSeverity(event.content.severity));
    if key in feed then feed[key].(content := content, updatedAt := now)
    else Entry(event.eventType, content, false, now, now)
  }

  /** The feed without the time of the last write. */
  function Untimed(feed: Feed): map<string, (string, Content, bool, int)> {
    map key | key in feed :: (feed[key].eventType, feed[key].content, feed[key].isRead, feed[key].createdAt)
  }

  /** Emitting an event again later changes no more than the row's update time. */
  lemma EmitTwiceIsEmitOnce(feed: Feed, event: Event, now: int, later: int)
    requires Upsert(feed, event, now).Ok?
    ensures var once := Upsert(feed, event, now).value;
            Upsert(once, event, later).Ok? && Untimed(Upsert(once, event, later).value) == Untimed(once)
  {
  }

  lemma SetsCommute(feed: Feed, k: string, x: Entry, l: string, y: Entry)
    requires k != l
    ensures feed[k := x][l := y] == feed[l := y][k := x]
  {
  }

  /** Events under different keys do not affect each other, in whichever order they are written. */
  lemma EmitsCommute(feed: Feed, a: Event, b: Event, now: int)
    requires Strip(a.key) != Strip(b.key)
    requires Upsert(feed, a, now).Ok? && Upsert(feed, b, now).Ok?
    ensures Upsert(Upsert(feed, a, now).value, b, now) == Upsert(Upsert(feed, b, now).value, a, now)
  {
    SetsCommute(feed, Strip(a.key), RowFor(feed, Strip(a.key), a, now), Strip(b.key), RowFor(feed, Strip(b.key), b, now));
  }

  /** What the table's own constraint demands of every row. */
  ghost predicate SeveritiesOk(feed: Feed) {
    forall key | key in feed :: feed[key].content.severity in SEVERITIES
  }

  // ---------------------------------------------------------------- lab deployment keys

  const LAB_PREFIX := "lab-deploy:"

  function LabKey(id: string, transition: string): string {
    LAB_PREFIX + id + ":" + transition
  }

  const TRANSITIONS := {"provisioning", "running", "failed", "terminating", "expired", "cleanup_failed"}

  lemma ColonInside(a: string, t: string, b: string, u: string)
    requires a + ":" + t == b + ":" + u && |t| < |u|
    ensures ':' in u
  {
    var s := a + ":" + t;
    assert s[|a|] == ':' && s[|a|] == u[|a| - |b| - 1];
  }

  /** Text after the last colon is determined by the whole. */
  lemma LastColon(a: string, t: string, b: string, u: string)
    requires a + ":" + t == b + ":" + u
    requires ':' !in t && ':' !in u
    ensures a == b && t == u
  {
    if |t| < |u| { ColonInside(a, t, b, u); }
    if |u| < |t| { ColonInside(b, u, a, t); }
    var s := a + ":" + t;
    assert a == s[..|a|] && b == s[..|b|];
    assert t == s[|a| + 1..] && u == s[|b| + 1..];
  }

  /** Feed keys of different deployments or transitions never collide, and normalisation leaves
      them as they are. */
  lemma LabKeysAreDistinct(id: string, transition: string, id': string, transition': string)
    requires transition in TRANSITIONS && transition' in TRANSITIONS
    ensures NormalizeKey(LabKey(id, transition)) == Ok(LabKey(id, transition))
    ensures LabKey(id, transition) == LabKey(id', transition') ==> id == id' && transition == transition'
  {
    var key := LabKey(id, transition);
    assert key[0] == 'l' && key[|key| - 1] == transition[|transition| - 1];
    if key == LabKey(id', transition') {
      LastColon(LAB_PREFIX + id, transition, LAB_PREFIX + id', transition');
      assert (LAB_PREFIX + id)[|LAB_PREFIX|..] == id && (LAB_PREFIX + id')[|LAB_PREFIX|..] == id';
    }
  }

  class OperationsFeed {
    var rows: Feed

    constructor ()
      ensures rows == map[]
    {
      rows := map[];
    }

    /** emit_ops_event.  One row per key, with the content of the event that was emitted last: a repeated event
        refreshes its row, and in particular does not make a row that was read unread again. */
    method EmitOpsEvent(event: Event, now: int) returns (outcome: Result<string, EmptyKey>)
      requires SeveritiesOk(rows)
      modifies this
      ensures SeveritiesOk(rows)
      ensures if outcome.Ok? then outcome.value == Strip(event.key) else forall c | c in event.key :: IsSpace(c)
      ensures outcome.Err? ==> rows == old(rows)
      ensures outcome.Ok? ==>
                var key := outcome.value;
                && Ok(rows) == Upsert(old(rows), event, now)
                && rows.Keys == old(rows).Keys + {key}
                && (forall k | k in old(rows) && k != key :: rows[k] == old(rows)[k])
      ensures outcome.Ok? ==>
                var row := rows[outcome.value];
                && row.content.title == event.content.title && row.content.message == event.content.message
                && row.content.deploymentId == event.content.deploymentId && row.updatedAt == now
      ensures outcome.Ok? ==>
                var severity, given := rows[outcome.value].content.severity, event.content.severity;
                && (given in {"info", "warning", "critical"} ==> severity == given)
                && severity == if Lower(Strip(given)) in {"info", "warning", "critical"} then Lower(Strip(given)) else "info"
      ensures outcome.Ok? && outcome.value in old(rows) ==>
                var row, was := rows[outcome.value], old(rows)[outcome.value];
                row.isRead == was.isRead && row.createdAt == was.createdAt && row.eventType == was.eventType
      ensures outcome.Ok? && outcome.value !in old(rows) ==>
                var row := rows[outcome.value];
                !row.isRead && row.createdAt == now && row.eventType == event.eventType
    {
      BlankIff(event.key);
      outcome := NormalizeKey(event.key);
      if outcome.Ok? {
        var key := outcome.value;
        var content := event.content.(severity := CoerceSeverity(event.content.severity));
        if key in rows {
          rows := rows[key := rows[key].(content := content, updatedAt := now)];
        } else {
          rows := rows[key := Entry(event.eventType, content, false, now, now)];
        }
      }
    }
  }
}
