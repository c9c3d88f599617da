/**
 Website pages, their sections, and revisions: a snapshot of a page is written before it is
 published, and a rollback makes the page that snapshot again.

 Page ids, section ids and the `id` of a revision are numbers; a timestamp is a number in its column
 and a text in a snapshot.
 */
module Pages {
  import opened Wrappers
  import Runs

  datatype Json =
    | Null
    | Bool(b: bool)
    | Number(n: int)
    | Str(text: string)
    | Array(items: seq<Json>)
    | Object(fields: map<string, Json>)

  /** What Python takes for true. */
  predicate Truthy(j: Json) {
    match j
    case Null => false
    case Bool(b) => b
    case Number(n) => n != 0
    case Str(text) => text != ""
    case Array(items) => items != []
    case Object(fields) => fields != map[]
  }

  datatype PageStatus = Draft | Published | Archived

  datatype Page = Page(slug: string, title: string, description: Option<string>, status: PageStatus,
                       seoTitle: Option<string>, seoDescription: Option<string>,
                       publishedAt: Option<int>, archivedAt: Option<int>)

  datatype Section = Section(page: nat, key: string, kind: string, position: nat, visible: bool, payload: Json)

  type Sections = map<nat, Section>

  // ---------------------------------------------------------------- snapshots

  /** A section and a page as the snapshot holds them; a member that is missing or null is None. */
  datatype JsonSection = JsonSection(id: nat, key: Option<string>, kind: Option<string>, position: Option<nat>,
                                     visible: Option<bool>, payload: Option<Json>)

  /** The text of a moment. */
  datatype Iso = Iso(of: int)

  datatype JsonPage = JsonPage(title: Option<string>, description: Option<string>, status: Option<PageStatus>,
                               seoTitle: Option<string>, seoDescription: Option<string>,
                               publishedAt: Option<Iso>, archivedAt: Option<Iso>)

  datatype Revision = Revision(page: nat, content: JsonPage, sections: seq<JsonSection>)

  function Text(moment: Option<int>): Option<Iso> {
    if moment.Some? then Some(Iso(moment.value)) else None
  }

  function CapturePage(p: Page): JsonPage {
    JsonPage(Some(p.title), p.description, Some(p.status), p.seoTitle, p.seoDescription, Text(p.publishedAt), Text(p.archivedAt))
  }

  function CaptureSection(id: nat, section: Section): JsonSection {
    JsonSection(id, Some(section.key), Some(section.kind), Some(section.position), Some(section.visible),
                if section.payload.Null? then None else Some(section.payload))
  }

  /** The row that the rollback's UPDATE makes of a page; None where it would put a NULL in a NOT NULL
      column, or binds a text to a TIMESTAMPTZ column, which the driver refuses. */
  function RestoredPage(current: Page, j: JsonPage): Option<Page> {
    if j.title.None? || j.publishedAt.Some? || j.archivedAt.Some? then None
    else
      var status := if j.status.Some? then j.status.value else Draft;
      Some(Page(current.slug, j.title.value, j.description, status, j.seoTitle, j.seoDescription, None, None))
  }

  /** The page has never been published or archived, or a rollback has cleared both timestamps. */
  predicate Untimed(p: Page) {
    p.publishedAt.None? && p.archivedAt.None?
  }

  /** A snapshot keeps every column of a page; the page it is written back as is the page itself, if its
      timestamps are null, and none at all otherwise. */
  lemma PageComesBackIff(p: Page, q: Page)
    ensures CapturePage(p) == CapturePage(q) && p.slug == q.slug <==> p == q
    ensures RestoredPage(q, CapturePage(p)) == if Untimed(p) then Some(p.(slug := q.slug)) else None
  {
  }

  /** The row that the rollback inserts for a section, with the defaults for what is missing or false. */
  function RestoredSection(page: nat, j: JsonSection): Option<Section> {
    if j.key.None? || j.kind.None? then None
    else
      var position := if j.position.Some? then j.position.value else 0;
      var visible := if j.visible.Some? then j.visible.value else true;
      var payload := if j.payload.Some? && Truthy(j.payload.value) then j.payload.value else Object(map[]);
      Some(Section(page, j.key.value, j.kind.value, position, visible, payload))
  }

  /** The defaults change a stored section exactly when its payload is false in Python and is not
      the empty object; every column but the payload comes back as it was. */
  lemma DefaultsAreIdentityIff(id: nat, section: Section)
    ensures var back := RestoredSection(section.page, CaptureSection(id, section));
            && (back == Some(section) <==> Truthy(section.payload) || section.payload == Object(map[]))
            && back.Some? && back.value.(payload := section.payload) == section
  {
  }

  // ---------------------------------------------------------------- tables

  function IdsOf(sections: Sections, page: nat): set<nat> {
    set id | id in sections && sections[id].page == page
  }

  function SectionsOf(sections: Sections, page: nat): Sections {
    map id | id in sections && sections[id].page == page :: sections[id]
  }

  /** UNIQUE (page_id, position) */
  ghost predicate UniquePositions(sections: Sections) {
    forall i, j | i in sections && j in sections && i != j ::
      sections[i].page != sections[j].page || sections[i].position != sections[j].position
  }

  /** By position; equal positions, which no page has, would be ordered by id. */
  predicate Before(sections: Sections, i: nat, j: nat)
    requires i in sections && j in sections
  {
    sections[i].position < sections[j].position || (sections[i].position == sections[j].position && i < j)
  }

  predicate IsFirst(sections: Sections, ids: set<nat>, id: nat)
    requires ids <= sections.Keys
  {
    id in ids && forall j | j in ids && j != id :: Before(sections, id, j)
  }

  lemma {:induction false} SomeFirst(sections: Sections, ids: set<nat>)
    requires ids <= sections.Keys && ids != {}
    ensures exists id :: IsFirst(sections, ids, id)
  {
    var x :| x in ids;
    if ids == {x} {
      assert IsFirst(sections, ids, x);
    } else {
      SomeFirst(sections, ids - {x});
      var y :| IsFirst(sections, ids - {x}, y);
      var z := if Before(sections, x, y) then x else y;
      forall j | j in ids && j != z ensures Before(sections, z, j) {
        assert j != x && j != y ==> Before(sections, y, j);
      }
      assert IsFirst(sections, ids, z);
    }
  }

  function First(sections: Sections, ids: set<nat>): (id: nat)
    requires ids <= sections.Keys && ids != {}
    ensures IsFirst(sections, ids, id)
  {
    SomeFirst(sections, ids);
    var id :| IsFirst(sections, ids, id);
    id
  }

  /** ORDER BY position */
  function Ordered(sections: Sections, ids: set<nat>): (r: seq<nat>)
    requires ids <= sections.Keys
    ensures forall id :: id in r <==> id in ids
    decreases |ids|
  {
    if ids == {} then []
    else
      var id := First(sections, ids);
      [id] + Ordered(sections, ids - {id})
  }

  lemma {:induction false} OrderedBefore(sections: Sections, ids: set<nat>, a: nat, b: nat)
    requires ids <= sections.Keys && a < b < |Ordered(sections, ids)|
    ensures var r := Ordered(sections, ids);
            r[a] in ids && r[b] in ids && Before(sections, r[a], r[b])
    decreases a
  {
    var r, id := Ordered(sections, ids), First(sections, ids);
    if a == 0 {
      assert r[b] == Ordered(sections, ids - {id})[b - 1];
      assert r[b] in Ordered(sections, ids - {id});
    } else {
      OrderedBefore(sections, ids - {id}, a - 1, b - 1);
    }
  }

  function CaptureAll(sections: Sections, ids: seq<nat>): (r: seq<JsonSection>)
    requires forall id | id in ids :: id in sections
    ensures |r| == |ids| && forall i | 0 <= i < |ids| :: r[i] == CaptureSection(ids[i], sections[ids[i]])
  {
    seq(|ids|, i requires 0 <= i < |ids| => CaptureSection(ids[i], sections[ids[i]]))
  }

  // ---------------------------------------------------------------- requests

  datatype Error =
    | PageNotFound | SectionNotFound | RevisionNotFound | NothingToUpdate
    | Violation          // a constraint: the request fails and nothing is committed

  datatype State = State(pages: map<nat, Page>, sections: Sections, revisions: seq<Revision>,
                         home: map<nat, nat>)   // the page of every section id handed out so far

  /** The snapshot of a page. */
  function Snapshot(s: State, page: nat): Revision
    requires page in s.pages
  {
    Revision(page, CapturePage(s.pages[page]), CaptureAll(s.sections, Ordered(s.sections, IdsOf(s.sections, page))))
  }

  function Or<T>(patch: Option<T>, current: T): T {
    if patch.Some? then patch.value else current
  }

  datatype PagePatch = PagePatch(title: Option<string>, description: Option<string>,
                                 seoTitle: Option<string>, seoDescription: Option<string>)

  datatype SectionPatch = SectionPatch(key: Option<string>, kind: Option<string>, position: Option<nat>,
                                       visible: Option<bool>, fields: Option<map<string, Json>>)

  /** patch_website_page */
  function PatchPage(s: State, page: nat, patch: PagePatch): Result<State, Error> {
    if patch == PagePatch(None, None, None, None) then Err(NothingToUpdate)
    else if page !in s.pages then Err(PageNotFound)
    else
      var p := s.pages[page];
      Ok(s.(pages := s.pages[page := p.(
        title := Or(patch.title, p.title),
        description := if patch.description.Some? then patch.description else p.description,
        seoTitle := if patch.seoTitle.Some? then patch.seoTitle else p.seoTitle,
        seoDescription := if patch.seoDescription.Some? then patch.seoDescription else p.seoDescription)]))
  }

  /** patch_website_page_status: publishing writes a revision first. */
  function PatchStatus(s: State, page: nat, status: PageStatus, now: int): Result<State, Error> {
    if page !in s.pages then Err(PageNotFound)
    else
      var p := s.pages[page];
      Ok(s.(revisions := if status == Published then s.revisions + [Snapshot(s, page)] else s.revisions,
            pages := s.pages[page := p.(status := status,
              publishedAt := if status == Published then Some(now) else p.publishedAt,
              archivedAt := if status == Archived then Some(now) else p.archivedAt)]))
  }

  /** The position is taken by another section of the page. */
  predicate Taken(sections: Sections, page: nat, position: nat, except: Option<nat>) {
    exists id :: id in sections && Some(id) != except && sections[id].page == page && sections[id].position == position
  }

  /** An INSERT of a section, None if it violates a key. */
  function Insert(sections: Sections, id: nat, row: Option<Section>): Option<Sections> {
    if row.None? || id in sections || Taken(sections, row.value.page, row.value.position, None) then None
    else Some(sections[id := row.value])
  }

  /** create_website_page_section, with a new id */
  function CreateSection(s: State, id: nat, section: Section, fields: map<string, Json>): Result<State, Error> {
    if section.page !in s.pages then Err(Violation)
    else
      var inserted := Insert(s.sections, id, Some(section.(payload := Object(fields))));
      if inserted.None? then Err(Violation)
      else Ok(s.(sections := inserted.value, home := s.home[id := section.page]))
  }

  function PatchedSection(row: Section, patch: SectionPatch): Section {
    Section(row.page, Or(patch.key, row.key), Or(patch.kind, row.kind), Or(patch.position, row.position),
            Or(patch.visible, row.visible), if patch.fields.Some? then Object(patch.fields.value) else row.payload)
  }

  /** patch_website_page_section */
  function PatchSection(s: State, id: nat, patch: SectionPatch): Result<State, Error> {
    if patch == SectionPatch(None, None, None, None, None) then Err(NothingToUpdate)
    else if id !in s.sections then Err(SectionNotFound)
    else
      var row := s.sections[id];
      var position := Or(patch.position, row.position);
      if Taken(s.sections, row.page, position, Some(id)) then Err(Violation)
      else Ok(s.(sections := s.sections[id := PatchedSection(row, patch)]))
  }

  /** delete_website_page_section */
  function DeleteSection(s: State, id: nat): Result<State, Error> {
    if id !in s.sections then Err(SectionNotFound) else Ok(s.(sections := s.sections - {id}))
  }

  /** The insert loop of the rollback. */
  function InsertAll(sections: Sections, page: nat, captured: seq<JsonSection>): Option<Sections> {
    if captured == [] then Some(sections)
    else
      var before := InsertAll(sections, page, captured[..|captured| - 1]);
      if before.None? then None
      else
        var j := captured[|captured| - 1];
        Insert(before.value, j.id, RestoredSection(page, j))
  }

  /** rollback_website_page_revision */
  function Rollback(s: State, page: nat, revision: nat): Result<State, Error> {
    if revision >= |s.revisions| || s.revisions[revision].page != page then Err(RevisionNotFound)
    else
      var r := s.revisions[revision];
      var pages :=
        if page !in s.pages then Some(s.pages)
        else if RestoredPage(s.pages[page], r.content).None? then None
        else Some(s.pages[page := RestoredPage(s.pages[page], r.content).value]);
      var sections := InsertAll(s.sections - IdsOf(s.sections, page), page, r.sections);
      if pages.None? || sections.None? then Err(Violation)
      else Ok(s.(pages := pages.value, sections := sections.value))
  }

  datatype Step =
    | CreatePage(page: nat, slug: string, title: string)
    | EditPage(page: nat, patch: PagePatch)
    | SetStatus(page: nat, status: PageStatus, now: int)
    | AddSection(id: nat, section: Section, fields: map<string, Json>)
    | EditSection(id: nat, changes: SectionPatch)
    | RemoveSection(id: nat)
    | RollBack(page: nat, revision: nat)

  function Outcome(s: State, step: Step): Result<State, Error> {
    match step
    case CreatePage(page, slug, title) =>
      if page in s.pages || (exists p :: p in s.pages && s.pages[p].slug == slug) then Err(Violation)
      else Ok(s.(pages := s.pages[page := Page(slug, title, None, Draft, None, None, None, None)]))
    case EditPage(page, patch) => PatchPage(s, page, patch)
    case SetStatus(page, status, now) => PatchStatus(s, page, status, now)
    case AddSection(id, section, fields) => if id in s.home then Ok(s) else CreateSection(s, id, section, fields)
    case EditSection(id, changes) => PatchSection(s, id, changes)
    case RemoveSection(id) => DeleteSection(s, id)
    case RollBack(page, revision) => Rollback(s, page, revision)
  }

  function Apply(s: State, step: Step): State {
    var outcome := Outcome(s, step);
    if outcome.Ok? then outcome.value else s
  }

  function Exec(s: State, steps: seq<Step>): State {
    Runs.Exec(Apply, s, steps)
  }

  // ---------------------------------------------------------------- invariant

  /** The row that a captured section was taken from. */
  function RowOf(page: nat, j: JsonSection): Section {
    Section(page, Or(j.key, ""), Or(j.kind, ""), Or(j.position, 0), Or(j.visible, true), Or(j.payload, Null))
  }

  /** The rows that a list of captured sections was taken from. */
  function RowsOf(page: nat, captured: seq<JsonSection>): Sections {
    if captured == [] then map[]
    else
      var j := captured[|captured| - 1];
      RowsOf(page, captured[..|captured| - 1])[j.id := RowOf(page, j)]
  }

  /** Captured from rows of one page, each with an object for a payload as the endpoints store it. */
  ghost predicate CapturedOk(page: nat, captured: seq<JsonSection>) {
    && (forall j | j in captured :: j == CaptureSection(j.id, RowOf(page, j)) && RowOf(page, j).payload.Object?)
    && (forall a, b | 0 <= a < b < |captured| ::
          captured[a].id != captured[b].id && captured[a].position != captured[b].position)
  }

  ghost predicate RevisionOk(s: State, r: Revision) {
    && r.page in s.pages && r.content.title.Some? && r.content.status.Some?
    && CapturedOk(r.page, r.sections)
    && (forall j | j in r.sections :: j.id in s.home && s.home[j.id] == r.page)
  }

  /** The constraints of the tables; payloads are objects; and a section id, which is never used
      twice, belongs to one page, in the table as in the revisions. */
  ghost predicate Inv(s: State) {
    && UniquePositions(s.sections)
    && (forall id | id in s.sections ::
          && s.sections[id].page in s.pages && s.sections[id].payload.Object?
          && id in s.home && s.home[id] == s.sections[id].page)
    && (forall r | r in s.revisions :: RevisionOk(s, r))
  }

  // ---------------------------------------------------------------- snapshot and restore

  lemma {:induction false} RowsOfKeys(page: nat, captured: seq<JsonSection>)
    ensures forall id :: id in RowsOf(page, captured) <==> exists j :: j in captured && j.id == id
    ensures forall id | id in RowsOf(page, captured) :: exists j :: j in captured && j.id == id && RowsOf(page, captured)[id] == RowOf(page, j)
  {
    if captured != [] {
      var n := |captured| - 1;
      RowsOfKeys(page, captured[..n]);
      assert captured == captured[..n] + [captured[n]];
    }
  }

  lemma RowFits(base: Sections, page: nat, captured: seq<JsonSection>)
    requires CapturedOk(page, captured) && captured != []
    requires forall id | id in base :: base[id].page != page && forall j | j in captured :: j.id != id
    ensures var n := |captured| - 1;
            var j, rows := captured[n], base + RowsOf(page, captured[..n]);
            j.id !in rows && !Taken(rows, page, RowOf(page, j).position, None)
  {
    var n := |captured| - 1;
    RowsOfKeys(page, captured[..n]);
    forall j | j in captured[..n] ensures j.id != captured[n].id && j.position != captured[n].position && j in captured {
      var i :| 0 <= i < n && captured[i] == j;
    }
  }

  lemma Extend<K, V>(base: map<K, V>, m: map<K, V>, k: K, v: V)
    ensures (base + m)[k := v] == base + m[k := v]
  {
  }

  /** The loop never meets a taken id or position, and puts back the rows it was captured from. */
  lemma {:induction false} InsertAllRestores(base: Sections, page: nat, captured: seq<JsonSection>)
    requires CapturedOk(page, captured)
    requires forall id | id in base :: base[id].page != page && forall j | j in captured :: j.id != id
    ensures InsertAll(base, page, captured) == Some(base + RowsOf(page, captured))
  {
    if captured == [] {
      assert base + map[] == base;
    } else {
      var n := |captured| - 1;
      assert captured == captured[..n] + [captured[n]];
      InsertAllRestores(base, page, captured[..n]);
      RowFits(base, page, captured);
      var j := captured[n];
      DefaultsAreIdentityIff(j.id, RowOf(page, j));
      Extend(base, RowsOf(page, captured[..n]), j.id, RowOf(page, j));
    }
  }

  lemma ExtendRestriction(sections: Sections, ids: seq<nat>, id: nat)
    requires id in sections && forall i | i in ids :: i in sections
    ensures (map i | i in ids :: sections[i])[id := sections[id]] == map i | i in ids + [id] :: sections[i]
  {
  }

  lemma {:induction false} CapturedRows(sections: Sections, page: nat, ids: seq<nat>)
    requires forall id | id in ids :: id in sections && sections[id].page == page && sections[id].payload.Object?
    ensures RowsOf(page, CaptureAll(sections, ids)) == map id | id in ids :: sections[id]
  {
    if ids == [] {
      assert CaptureAll(sections, ids) == [];
    } else {
      var n := |ids| - 1;
      assert ids == ids[..n] + [ids[n]];
      CapturedRows(sections, page, ids[..n]);
      assert CaptureAll(sections, ids)[..n] == CaptureAll(sections, ids[..n]);
      ExtendRestriction(sections, ids[..n], ids[n]);
    }
  }

  lemma CapturedOne(s: State, page: nat, j: JsonSection)
    requires Inv(s) && page in s.pages && j in Snapshot(s, page).sections
    ensures j == CaptureSection(j.id, RowOf(page, j)) && RowOf(page, j).payload.Object? && j.id in s.home && s.home[j.id] == page
  {
    var ids := Ordered(s.sections, IdsOf(s.sections, page));
    var i :| 0 <= i < |ids| && CaptureAll(s.sections, ids)[i] == j;
    assert ids[i] in IdsOf(s.sections, page);
  }

  lemma CapturedTwo(s: State, page: nat, a: nat, b: nat)
    requires Inv(s) && page in s.pages && a < b < |Snapshot(s, page).sections|
    ensures var r := Snapshot(s, page).sections;
            && r[a].id != r[b].id && r[a].position.Some? && r[b].position.Some?
            && r[a].position.value < r[b].position.value
  {
    OrderedBefore(s.sections, IdsOf(s.sections, page), a, b);
  }

  lemma OrderedRows(s: State, page: nat)
    requires Inv(s) && page in s.pages
    ensures RowsOf(page, Snapshot(s, page).sections) == SectionsOf(s.sections, page)
  {
    var ids := Ordered(s.sections, IdsOf(s.sections, page));
    assert forall id :: id in ids <==> id in IdsOf(s.sections, page);
    CapturedRows(s.sections, page, ids);
  }

  /** A snapshot is ordered by position and loses nothing. */
  lemma SnapshotIsFaithful(s: State, page: nat)
    requires Inv(s) && page in s.pages
    ensures var r := Snapshot(s, page);
            && RevisionOk(s, r) && r.page == page
            && (forall q: Page | CapturePage(q) == r.content && q.slug == s.pages[page].slug :: q == s.pages[page])
            && RowsOf(page, r.sections) == SectionsOf(s.sections, page)
            && (forall a, b | 0 <= a < b < |r.sections| ::
                  r.sections[a].position.Some? && r.sections[b].position.Some?
                  && r.sections[a].position.value < r.sections[b].position.value)
  {
    var r := Snapshot(s, page);
    OrderedRows(s, page);
    forall q: Page | CapturePage(q) == r.content && q.slug == s.pages[page].slug ensures q == s.pages[page] {
      PageComesBackIff(q, s.pages[page]);
    }
    forall j | j in r.sections
      ensures j == CaptureSection(j.id, RowOf(page, j)) && RowOf(page, j).payload.Object? && j.id in s.home && s.home[j.id] == page
    {
      CapturedOne(s, page, j);
    }
    forall a, b | 0 <= a < b < |r.sections|
      ensures r.sections[a].id != r.sections[b].id && r.sections[a].position.Some? && r.sections[b].position.Some?
              && r.sections[a].position.value < r.sections[b].position.value
    {
      CapturedTwo(s, page, a, b);
    }
  }

  // ---------------------------------------------------------------- every step keeps the invariant

  /** Revisions are never changed, and what they refer to stays. */
  lemma RevisionsKept(s: State, t: State)
    requires Inv(s) && s.pages.Keys <= t.pages.Keys
    requires forall id | id in s.home :: id in t.home && t.home[id] == s.home[id]
    ensures forall r | r in s.revisions :: RevisionOk(t, r)
  {
  }

  lemma RowsAreOk(s: State, page: nat, r: Revision, id: nat)
    requires Inv(s) && RevisionOk(s, r) && r.page == page && id in RowsOf(page, r.sections)
    ensures var row := RowsOf(page, r.sections)[id];
            row.page == page && row.payload.Object? && id in s.home && s.home[id] == page
  {
    RowsOfKeys(page, r.sections);
  }

  lemma OverlaySame(sections: Sections, page: nat, rows: Sections)
    requires forall id | id in rows :: rows[id].page == page
    ensures SectionsOf((sections - IdsOf(sections, page)) + rows, page) == rows
  {
  }

  lemma OverlayOther(sections: Sections, page: nat, rows: Sections, q: nat)
    requires forall id | id in rows :: rows[id].page == page && (id in sections ==> sections[id].page == page)
    requires q != page
    ensures SectionsOf((sections - IdsOf(sections, page)) + rows, q) == SectionsOf(sections, q)
  {
  }

  /** Rows of one page are replaced by rows that were captured from it. */
  lemma RestoredTables(s: State, page: nat, r: Revision)
    requires Inv(s) && RevisionOk(s, r) && r.page == page
    ensures var rows := (s.sections - IdsOf(s.sections, page)) + RowsOf(page, r.sections);
            && InsertAll(s.sections - IdsOf(s.sections, page), page, r.sections) == Some(rows)
            && SectionsOf(rows, page) == RowsOf(page, r.sections)
            && (forall q | q != page :: SectionsOf(rows, q) == SectionsOf(s.sections, q))
  {
    var base := s.sections - IdsOf(s.sections, page);
    InsertAllRestores(base, page, r.sections);
    var rows := RowsOf(page, r.sections);
    forall id | id in rows ensures rows[id].page == page && (id in s.sections ==> s.sections[id].page == page) {
      RowsAreOk(s, page, r, id);
    }
    OverlaySame(s.sections, page, rows);
    forall q | q != page ensures SectionsOf(base + rows, q) == SectionsOf(s.sections, q) {
      OverlayOther(s.sections, page, rows, q);
    }
  }

  lemma {:induction false} InsertAllKeeps(base: Sections, page: nat, captured: seq<JsonSection>)
    requires UniquePositions(base) && InsertAll(base, page, captured).Some?
    ensures UniquePositions(InsertAll(base, page, captured).value)
  {
    if captured != [] {
      InsertAllKeeps(base, page, captured[..|captured| - 1]);
    }
  }

  /** A rollback to a revision of the page succeeds exactly if both captured timestamps are null.  Then it
      puts back the captured sections and page, and touches nothing else. */
  lemma RollbackRestores(s: State, page: nat, revision: nat)
    requires Inv(s) && revision < |s.revisions| && s.revisions[revision].page == page
    ensures var r, outcome := s.revisions[revision], Rollback(s, page, revision);
            && page in s.pages
            && (outcome.Ok? <==> r.content.publishedAt.None? && r.content.archivedAt.None?)
            && (outcome.Err? ==> outcome.error == Violation)
            && (outcome.Ok? ==>
                  var t := outcome.value;
                  && SectionsOf(t.sections, page) == RowsOf(page, r.sections)
                  && t.pages.Keys == s.pages.Keys && Some(t.pages[page]) == RestoredPage(s.pages[page], r.content)
                  && (forall q | q in s.pages && q != page :: t.pages[q] == s.pages[q])
                  && (forall q | q != page :: SectionsOf(t.sections, q) == SectionsOf(s.sections, q))
                  && t.revisions == s.revisions && t.home == s.home)
  {
    var r := s.revisions[revision];
    assert RevisionOk(s, r);
    RestoredTables(s, page, r);
  }

  lemma RollbackKeeps(s: State, page: nat, revision: nat)
    requires Inv(s) && Rollback(s, page, revision).Ok?
    ensures Inv(Rollback(s, page, revision).value)
  {
    var r, t := s.revisions[revision], Rollback(s, page, revision).value;
    assert RevisionOk(s, r);
    RestoredTables(s, page, r);
    InsertAllKeeps(s.sections - IdsOf(s.sections, page), page, r.sections);
    RevisionsKept(s, t);
    forall id | id in t.sections
      ensures t.sections[id].page in t.pages && t.sections[id].payload.Object? && id in t.home && t.home[id] == t.sections[id].page
    {
      if id in RowsOf(page, r.sections) { RowsAreOk(s, page, r, id); }
    }
  }

  lemma PublishKeeps(s: State, page: nat, status: PageStatus, now: int)
    requires Inv(s) && page in s.pages
    ensures Inv(PatchStatus(s, page, status, now).value)
  {
    var t := PatchStatus(s, page, status, now).value;
    SnapshotIsFaithful(s, page);
    RevisionsKept(s, t);
    forall r | r in t.revisions ensures RevisionOk(t, r) {
      assert r in s.revisions || r == Snapshot(s, page);
    }
  }

  lemma InvStep(s: State, step: Step)
    requires Inv(s)
    ensures Inv(Apply(s, step))
  {
    var t := Apply(s, step);
    match step
    case SetStatus(page, status, now) => if page in s.pages { PublishKeeps(s, page, status, now); }
    case RollBack(page, revision) => if Rollback(s, page, revision).Ok? { RollbackKeeps(s, page, revision); }
    case CreatePage(_, _, _) => RevisionsKept(s, t);
    case EditPage(_, _) => RevisionsKept(s, t);
    case AddSection(_, _, _) => RevisionsKept(s, t);
    case EditSection(_, _) => RevisionsKept(s, t);
    case RemoveSection(_) => RevisionsKept(s, t);
  }

  lemma InvKept(s: State, step: Step)
    ensures Inv(s) ==> Inv(Apply(s, step))
  {
    if Inv(s) { InvStep(s, step); }
  }

  lemma InvAlways(s: State, steps: seq<Step>)
    requires Inv(s)
    ensures Inv(Exec(s, steps))
  {
    forall t: State, step: Step | Inv(t) ensures Inv(Apply(t, step)) {
      InvStep(t, step);
    }
    Runs.Always(Apply, Inv, s, steps);
  }

  const EMPTY := State(map[], map[], [], map[])

  lemma ReachableIsOk(steps: seq<Step>)
    ensures Inv(Exec(EMPTY, steps))
  {
    InvAlways(EMPTY, steps);
  }

  // ---------------------------------------------------------------- results

  lemma HistoryStep(s: State, step: Step)
    ensures s.revisions <= Apply(s, step).revisions
    ensures forall page | page in s.pages :: page in Apply(s, step).pages && Apply(s, step).pages[page].slug == s.pages[page].slug
  {
  }

  lemma {:induction false} HistoryStays(s: State, steps: seq<Step>)
    ensures s.revisions <= Exec(s, steps).revisions
    ensures forall page | page in s.pages :: page in Exec(s, steps).pages && Exec(s, steps).pages[page].slug == s.pages[page].slug
  {
    if steps != [] {
      HistoryStays(s, steps[..|steps| - 1]);
      HistoryStep(Exec(s, steps[..|steps| - 1]), steps[|steps| - 1]);
    }
  }

  /** Publishing a page writes a revision.  After any edits, publications and rollbacks of any pages, a
      rollback to it succeeds exactly if the page had no timestamps before that publication.  Then it gives
      back exactly the page and sections from just before (so the page is no longer published); other
      pages stay as they are.  Otherwise it is refused. */
  lemma RollbackUndoesEverything(s: State, page: nat, now: int, steps: seq<Step>)
    requires Inv(s) && page in s.pages
    ensures var before := Exec(Apply(s, SetStatus(page, Published, now)), steps);
            var outcome := Rollback(before, page, |s.revisions|);
            && (outcome.Ok? <==> Untimed(s.pages[page]))
            && (outcome.Err? ==> outcome.error == Violation)
            && (outcome.Ok? ==>
                  var t := outcome.value;
                  && page in t.pages && t.pages[page] == s.pages[page]
                  && SectionsOf(t.sections, page) == SectionsOf(s.sections, page)
                  && t.pages.Keys == before.pages.Keys
                  && (forall q | q in before.pages && q != page :: t.pages[q] == before.pages[q])
                  && (forall q | q != page :: SectionsOf(t.sections, q) == SectionsOf(before.sections, q))
                  && t.revisions == before.revisions)
  {
    var published := Apply(s, SetStatus(page, Published, now));
    SnapshotIsFaithful(s, page);
    InvStep(s, SetStatus(page, Published, now));
    InvAlways(published, steps);
    HistoryStays(published, steps);
    var before := Exec(published, steps);
    assert before.revisions[|s.revisions|] == published.revisions[|s.revisions|] == Snapshot(s, page);
    RollbackRestores(before, page, |s.revisions|);
    PageComesBackIff(s.pages[page], before.pages[page]);
  }

  /** Steps that do not roll this page back. */
  predicate NoRollBack(steps: seq<Step>, page: nat) {
    forall i | 0 <= i < |steps| && steps[i].RollBack? :: steps[i].page != page
  }

  lemma {:induction false} PublishedStays(s: State, steps: seq<Step>, page: nat)
    requires page in s.pages && s.pages[page].publishedAt.Some? && NoRollBack(steps, page)
    ensures page in Exec(s, steps).pages && Exec(s, steps).pages[page].publishedAt.Some?
  {
    if steps != [] {
      PublishedStays(s, steps[..|steps| - 1], page);
      PublishedStep(Exec(s, steps[..|steps| - 1]), steps[|steps| - 1], page);
    }
  }

  lemma PublishedStep(s: State, step: Step, page: nat)
    requires page in s.pages && s.pages[page].publishedAt.Some? && (step.RollBack? ==> step.page != page)
    ensures page in Apply(s, step).pages && Apply(s, step).pages[page].publishedAt.Some?
  {
  }

  /** So the second publication of a page, unless it was rolled back in between, can never be undone. */
  lemma SecondPublicationCannotBeUndone(s: State, page: nat, now: int, between: seq<Step>, again: int, later: seq<Step>)
    requires Inv(s) && page in s.pages && NoRollBack(between, page)
    ensures var t := Exec(Apply(s, SetStatus(page, Published, now)), between);
            var u := Exec(Apply(t, SetStatus(page, Published, again)), later);
            Rollback(u, page, |t.revisions|) == Err(Violation)
  {
    var published := Apply(s, SetStatus(page, Published, now));
    InvStep(s, SetStatus(page, Published, now));
    InvAlways(published, between);
    PublishedStays(published, between, page);
    RollbackUndoesEverything(Exec(published, between), page, again, later);
  }

  /** No two sections of a page ever share a position, rollbacks included. */
  lemma PositionsStayUnique(steps: seq<Step>, i: nat, j: nat)
    requires i in Exec(EMPTY, steps).sections && j in Exec(EMPTY, steps).sections && i != j
    ensures var t := Exec(EMPTY, steps).sections;
            t[i].page != t[j].page || t[i].position != t[j].position
  {
    ReachableIsOk(steps);
  }

  ghost predicate UniqueSlugs(s: State) {
    forall p, q | p in s.pages && q in s.pages && p != q :: s.pages[p].slug != s.pages[q].slug
  }

  /** No two pages ever have the same slug, rollbacks included. */
  lemma SlugsStayUnique(steps: seq<Step>, p: nat, q: nat)
    requires p in Exec(EMPTY, steps).pages && q in Exec(EMPTY, steps).pages && p != q
    ensures Exec(EMPTY, steps).pages[p].slug != Exec(EMPTY, steps).pages[q].slug
  {
    forall s: State, step: Step | UniqueSlugs(s) ensures UniqueSlugs(Apply(s, step)) { SlugsStep(s, step); }
    Runs.Always(Apply, UniqueSlugs, EMPTY, steps);
  }

  lemma SlugsStep(s: State, step: Step)
    requires UniqueSlugs(s)
    ensures UniqueSlugs(Apply(s, step))
  {
  }
}
