/**
 The page endpoints as they run against one database session: every method does to the tables what
 the functions of `Pages` say, and a request that fails leaves them as they were.
 */
module PageStudio {
  import opened Wrappers
  import opened Pages

  /** What a request answers and leaves behind. */
  function ErrorOf(outcome: Result<State, Error>): Option<Error> {
    if outcome.Ok? then None else Some(outcome.error)
  }

  class PageStudio {
    var pages: map<nat, Page>
    var sections: Sections
    var revisions: seq<Revision>
    var home: map<nat, nat>

    function View(): State
      reads this
    {
      State(pages, sections, revisions, home)
    }

    constructor ()
      ensures Inv(View()) && View() == State(map[], map[], [], map[])
    {
      pages, sections, revisions, home := map[], map[], [], map[];
    }

    /** _create_page_revision: nothing for a page that does not exist. */
    method CreatePageRevision(page: nat) returns (revision: Option<nat>)
      modifies this`revisions
      ensures revision == if page in pages then Some(|old(revisions)|) else None
      ensures revisions == old(revisions) + if page in pages then [Snapshot(old(View()), page)] else []
    {
      if page !in pages { return None; }
      var snapshot := Revision(page, CapturePage(pages[page]), CaptureAll(sections, Ordered(sections, IdsOf(sections, page))));
      revision := Some(|revisions|);
      revisions := revisions + [snapshot];
    }

    /** patch_website_page */
    method PatchWebsitePage(page: nat, patch: PagePatch) returns (error: Option<Error>)
      modifies this`pages
      ensures error == ErrorOf(PatchPage(old(View()), page, patch))
      ensures View() == Apply(old(View()), EditPage(page, patch))
      ensures error == Some(NothingToUpdate) <==>
                patch.title.None? && patch.description.None? && patch.seoTitle.None? && patch.seoDescription.None?
      ensures error == Some(PageNotFound) <==> error != Some(NothingToUpdate) && page !in old(pages)
      ensures error.Some? ==> pages == old(pages)
      ensures error.None? ==>
                var was := old(pages)[page];
                pages == old(pages)[page := Page(
                  was.slug, if patch.title.Some? then patch.title.value else was.title,
                  if patch.description.Some? then patch.description else was.description, was.status,
                  if patch.seoTitle.Some? then patch.seoTitle else was.seoTitle,
                  if patch.seoDescription.Some? then patch.seoDescription else was.seoDescription,
                  was.publishedAt, was.archivedAt)]
      ensures old(Inv(View())) ==> Inv(View())
    {
      InvKept(View(), EditPage(page, patch));
      if patch == PagePatch(None, None, None, None) { return Some(NothingToUpdate); }
      if page !in pages { return Some(PageNotFound); }
      var p := pages[page];
      if patch.title.Some? { p := p.(title := patch.title.value); }
      if patch.description.Some? { p := p.(description := patch.description); }
      if patch.seoTitle.Some? { p := p.(seoTitle := patch.seoTitle); }
      if patch.seoDescription.Some? { p := p.(seoDescription := patch.seoDescription); }
      pages := pages[page := p];
      error := None;
    }

    /** patch_website_page_status: the revision is written first, and not at all if there is no page. */
    method PatchWebsitePageStatus(page: nat, status: PageStatus, now: int) returns (error: Option<Error>)
      modifies this`pages, this`revisions
      ensures error == ErrorOf(PatchStatus(old(View()), page, status, now))
      ensures View() == Apply(old(View()), SetStatus(page, status, now))
      ensures error == if page in old(pages) then None else Some(PageNotFound)
      ensures error.Some? ==> pages == old(pages) && revisions == old(revisions)
      ensures error.None? ==>
                var was := old(pages)[page];
                && pages == old(pages)[page := Page(
                     was.slug, was.title, was.description, status, was.seoTitle, was.seoDescription,
                     if status == Published then Some(now) else was.publishedAt,
                     if status == Archived then Some(now) else was.archivedAt)]
                && revisions == old(revisions) + if status == Published then [Snapshot(old(View()), page)] else []
      ensures old(Inv(View())) ==> Inv(View())
    {
      InvKept(View(), SetStatus(page, status, now));
      if status == Published {
        var _ := CreatePageRevision(page);
      }
      if page !in pages { return Some(PageNotFound); }
      var p := pages[page].(status := status);
      if status == Published { p := p.(publishedAt := Some(now)); }
      if status == Archived { p := p.(archivedAt := Some(now)); }
      pages := pages[page := p];
      error := None;
    }

    /** create_website_page_section */
    method CreateWebsitePageSection(id: nat, section: Section, fields: map<string, Json>) returns (error: Option<Error>)
      requires id !in home
      modifies this`sections, this`home
      ensures error == ErrorOf(CreateSection(old(View()), id, section, fields))
      ensures View() == Apply(old(View()), AddSection(id, section, fields))
      ensures error.None? <==>
                && section.page in pages && id !in old(sections)
                && forall i | i in old(sections) && old(sections)[i].page == section.page :: old(sections)[i].position != section.position
      ensures error.None? ==>
                sections == old(sections)[id := Section(section.page, section.key, section.kind, section.position, section.visible,
                                                        Object(fields))]
      ensures error.Some? ==> error == Some(Violation) && sections == old(sections)
      ensures old(Inv(View())) ==> Inv(View())
    {
      InvKept(View(), AddSection(id, section, fields));
      if section.page !in pages { return Some(Violation); }
      var inserted := Insert(sections, id, Some(section.(payload := Object(fields))));
      if inserted.None? { return Some(Violation); }
      sections := inserted.value;
      home := home[id := section.page];
      error := None;
    }

    /** The SET list of the update. */
    static method ApplySectionPatch(stored: Section, patch: SectionPatch) returns (row: Section)
      ensures row == PatchedSection(stored, patch)
    {
      row := stored;
      if patch.key.Some? { row := row.(key := patch.key.value); }
      if patch.kind.Some? { row := row.(kind := patch.kind.value); }
      if patch.position.Some? { row := row.(position := patch.position.value); }
      if patch.visible.Some? { row := row.(visible := patch.visible.value); }
      if patch.fields.Some? { row := row.(payload := Object(patch.fields.value)); }
    }

    /** patch_website_page_section */
    method PatchWebsitePageSection(id: nat, patch: SectionPatch) returns (error: Option<Error>)
      modifies this`sections
      ensures error == ErrorOf(PatchSection(old(View()), id, patch))
      ensures View() == Apply(old(View()), EditSection(id, patch))
      ensures error == Some(NothingToUpdate) <==>
                patch.key.None? && patch.kind.None? && patch.position.None? && patch.visible.None? && patch.fields.None?
      ensures error == Some(SectionNotFound) <==> error != Some(NothingToUpdate) && id !in old(sections)
      ensures error.Some? ==> sections == old(sections)
      ensures error.None? ==>
                var was := old(sections)[id];
                && sections == old(sections)[id := Section(
                     was.page, if patch.key.Some? then patch.key.value else was.key,
                     if patch.kind.Some? then patch.kind.value else was.kind,
                     if patch.position.Some? then patch.position.value else was.position,
                     if patch.visible.Some? then patch.visible.value else was.visible,
                     if patch.fields.Some? then Object(patch.fields.value) else was.payload)]
      ensures error == Some(Violation) <==>
                && error != Some(NothingToUpdate) && id in old(sections)
                && exists i | i in old(sections) && i != id ::
                     && old(sections)[i].page == old(sections)[id].page
                     && old(sections)[i].position == if patch.position.Some? then patch.position.value else old(sections)[id].position
      ensures old(Inv(View())) ==> Inv(View())
    {
      InvKept(View(), EditSection(id, patch));
      if patch == SectionPatch(None, None, None, None, None) { return Some(NothingToUpdate); }
      if id !in sections { return Some(SectionNotFound); }
      var row := ApplySectionPatch(sections[id], patch);
      if Taken(sections, row.page, row.position, Some(id)) { return Some(Violation); }
      sections := sections[id := row];
      error := None;
    }

    /** delete_website_page_section */
    method DeleteWebsitePageSection(id: nat) returns (error: Option<Error>)
      modifies this`sections
      ensures error == ErrorOf(DeleteSection(old(View()), id))
      ensures View() == Apply(old(View()), RemoveSection(id))
      ensures error == if id in old(sections) then None else Some(SectionNotFound)
      ensures sections.Keys == old(sections).Keys - {id} && forall i | i in sections :: sections[i] == old(sections)[i]
      ensures old(Inv(View())) ==> Inv(View())
    {
      InvKept(View(), RemoveSection(id));
      if id !in sections { return Some(SectionNotFound); }
      sections := sections - {id};
      error := None;
    }

    /** The loop of the rollback: the captured sections are inserted one by one, up to a violation. */
    method InsertSections(page: nat, captured: seq<JsonSection>) returns (ok: bool)
      modifies this`sections
      ensures ok == InsertAll(old(sections), page, captured).Some?
      ensures ok ==> sections == InsertAll(old(sections), page, captured).value
    {
      var i := 0;
      while i < |captured|
        invariant 0 <= i <= |captured|
        invariant InsertAll(old(sections), page, captured[..i]) == Some(sections)
      {
        assert captured[..i + 1][..i] == captured[..i];
        var inserted := Insert(sections, captured[i].id, RestoredSection(page, captured[i]));
        if inserted.None? {
          InsertAllStops(sections, old(sections), page, captured, i);
          return false;
        }
        sections := inserted.value;
        i := i + 1;
      }
      assert captured[..i] == captured;
      ok := true;
    }

    /** rollback_website_page_revision: update the page, delete its sections, insert the captured ones;
        a violation on the way undoes all of it.  On a sound database the only violation is a captured
        timestamp. */
    method RollbackWebsitePageRevision(page: nat, revision: nat) returns (error: Option<Error>)
      modifies this`pages, this`sections
      ensures error == ErrorOf(Rollback(old(View()), page, revision))
      ensures View() == Apply(old(View()), RollBack(page, revision))
      ensures old(Inv(View())) ==>
                && Inv(View())
                && (error == Some(Violation) <==>
                      && revision < |revisions| && revisions[revision].page == page
                      && (revisions[revision].content.publishedAt.Some? || revisions[revision].content.archivedAt.Some?))
    {
      if Inv(View()) {
        InvStep(View(), RollBack(page, revision));
        if revision < |revisions| && revisions[revision].page == page { RollbackRestores(View(), page, revision); }
      }
      if revision >= |revisions| || revisions[revision].page != page { return Some(RevisionNotFound); }
      var savedPages, savedSections := pages, sections;
      if page in pages {
        var restored := RestoredPage(pages[page], revisions[revision].content);
        if restored.None? { return Some(Violation); }
        pages := pages[page := restored.value];
      }
      sections := sections - IdsOf(sections, page);
      var ok := InsertSections(page, revisions[revision].sections);
      if !ok {
        pages, sections := savedPages, savedSections;
        return Some(Violation);
      }
      error := None;
    }
  }

  /** An insert that failed makes the whole loop fail. */
  lemma {:induction false} InsertAllStops(reached: Sections, base: Sections, page: nat, captured: seq<JsonSection>, n: nat)
    requires n < |captured| && InsertAll(base, page, captured[..n]) == Some(reached)
    requires Insert(reached, captured[n].id, RestoredSection(page, captured[n])).None?
    ensures InsertAll(base, page, captured).None?
    decreases |captured|
  {
    if n < |captured| - 1 {
      assert captured[..|captured| - 1][..n] == captured[..n];
      InsertAllStops(reached, base, page, captured[..|captured| - 1], n);
    }
  }
}
