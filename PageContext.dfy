/** The page registry: an ordered list of pages and the page currently shown.
    Every operation replaces the whole list (spread, `map`, `filter`), and the
    registry never becomes empty. */
module PageContext {
  import opened Common
  import opened Text
  import opened Types

  /** The page that exists at start-up; `loadedAt` is the time the module was loaded. */
  function DefaultPage(loadedAt: string): (p: Page)
    ensures p.id == "page-1" && p.name == "Page 1"
    ensures p.createdAt == loadedAt && p.updatedAt == loadedAt
  {
    Page("page-1", "Page 1", loadedAt, loadedAt)
  }

  /** `page-${Date.now()}`. */
  function NewPageId(nowMillis: nat): (id: string)
    ensures "page-" <= id && |id| > |"page-"|
  {
    "page-" + Decimal(nowMillis)
  }

  /** No two pages share an id. The source does not enforce this (two pages
      created in the same millisecond collide); the registry assumes it. */
  ghost predicate UniqueIds(ps: seq<Page>) {
    forall i, j :: 0 <= i < j < |ps| ==> ps[i].id != ps[j].id
  }

  /** `pages.find(p => p.id === pageId)`: the first page with that id. */
  function FindPage(ps: seq<Page>, pageId: string): (r: Option<Page>)
    ensures r.Some? ==> r.value in ps && r.value.id == pageId
    ensures r.None? <==> forall p :: p in ps ==> p.id != pageId
    ensures r.Some? ==> exists i :: 0 <= i < |ps| && ps[i] == r.value &&
                                   forall k :: 0 <= k < i ==> ps[k].id != pageId
  {
    if ps == [] then None
    else if ps[0].id == pageId then Some(ps[0])
    else FindPage(ps[1..], pageId)
  }

  /** With unique ids, `find` returns the one page that carries the id. */
  lemma FindPageUnique(ps: seq<Page>, p: Page)
    requires UniqueIds(ps) && p in ps
    ensures FindPage(ps, p.id) == Some(p)
  {
    var q := FindPage(ps, p.id).value;
    var i :| 0 <= i < |ps| && ps[i] == p;
    var j :| 0 <= j < |ps| && ps[j] == q;
    assert i == j;
  }

  /** The page list after `renamePage(pageId, newName)` at time `timestamp`. */
  function RenamePages(ps: seq<Page>, pageId: string, newName: string, timestamp: string): (r: seq<Page>)
    ensures |r| == |ps|
    ensures forall i :: 0 <= i < |ps| ==> r[i].id == ps[i].id && r[i].createdAt == ps[i].createdAt
    ensures forall i :: 0 <= i < |ps| && ps[i].id == pageId ==>
              r[i].name == newName && r[i].updatedAt == timestamp
    ensures forall i :: 0 <= i < |ps| && ps[i].id != pageId ==> r[i] == ps[i]
  {
    Map(ps, (p: Page) => if p.id == pageId then p.(name := newName, updatedAt := timestamp) else p)
  }

  /** The page list after `deletePage(pageId)` when more than one page exists. */
  function RemovePage(ps: seq<Page>, pageId: string): (r: seq<Page>)
    ensures forall p :: p in r <==> p in ps && p.id != pageId
  {
    Filter(ps, (p: Page) => p.id != pageId)
  }

  /** Deleting keeps the surviving pages in their original order. */
  lemma RemovePageKeepsOrder(a: seq<Page>, b: seq<Page>, pageId: string)
    ensures RemovePage(a + b, pageId) == RemovePage(a, pageId) + RemovePage(b, pageId)
  {
    FilterAppend(a, b, (p: Page) => p.id != pageId);
  }

  /** A list of unique ids, split into its head and its tail. */
  lemma UniqueTail(ps: seq<Page>)
    requires UniqueIds(ps) && ps != []
    ensures UniqueIds(ps[1..])
    ensures forall q :: q in ps[1..] ==> q.id != ps[0].id
  {
    var t := ps[1..];
    forall q | q in t ensures q.id != ps[0].id {
      var j :| 0 <= j < |t| && t[j] == q;
      assert ps[j + 1] == q;
    }
  }

  /** Putting a page in front of a list of unique ids that lacks its id keeps ids unique. */
  lemma UniqueCons(h: Page, t: seq<Page>)
    requires UniqueIds(t) && forall q :: q in t ==> q.id != h.id
    ensures UniqueIds([h] + t)
  {
    var s := [h] + t;
    forall i, j | 0 <= i < j < |s| ensures s[i].id != s[j].id {
      assert s[j] == t[j - 1];
      if i == 0 {
        assert t[j - 1] in t;
      } else {
        assert s[i] == t[i - 1];
      }
    }
  }

  /** With unique ids a delete removes at most one page, and the ids stay unique. */
  lemma {:induction false} RemovePageFromUnique(ps: seq<Page>, pageId: string)
    requires UniqueIds(ps)
    ensures UniqueIds(RemovePage(ps, pageId))
    ensures |RemovePage(ps, pageId)| + 1 >= |ps|
  {
    if ps != [] {
      var h, t := ps[0], ps[1..];
      UniqueTail(ps);
      RemovePageFromUnique(t, pageId);
      var rt := RemovePage(t, pageId);
      if h.id != pageId {
        assert RemovePage(ps, pageId) == [h] + rt;
        UniqueCons(h, rt);
      } else {
        assert RemovePage(ps, pageId) == rt;
        FilterKeepsAll(t, (p: Page) => p.id != pageId);
      }
    }
  }

  class PageRegistry {
    var pages: seq<Page>
    var currentPage: Page

    /** The list is never empty, the current page is one of its entries, and
        ids are unique. */
    ghost predicate Valid()
      reads this
    {
      |pages| >= 1 && currentPage in pages && UniqueIds(pages)
    }

    constructor (loadedAt: string)
      ensures Valid()
      ensures pages == [DefaultPage(loadedAt)] && currentPage == DefaultPage(loadedAt)
      ensures currentPage.id == "page-1" && currentPage.name == "Page 1"
    {
      pages := [DefaultPage(loadedAt)];
      currentPage := DefaultPage(loadedAt);
    }

    /** `addPage(name)` at clock reading `nowMillis` and ISO time `timestamp`. */
    method AddPage(name: string, nowMillis: nat, timestamp: string)
      requires Valid()
      requires forall p :: p in pages ==> p.id != NewPageId(nowMillis)
      modifies this
      ensures Valid()
      ensures pages == old(pages) + [Page(NewPageId(nowMillis), name, timestamp, timestamp)]
      ensures currentPage == pages[|pages| - 1]
    {
      var newPage := Page(NewPageId(nowMillis), name, timestamp, timestamp);
      ghost var before := pages;
      pages := pages + [newPage];
      currentPage := newPage;
      forall i, j | 0 <= i < j < |pages| ensures pages[i].id != pages[j].id {
        if j == |pages| - 1 {
          assert pages[i] == before[i] && before[i] in before;
        } else {
          assert pages[i] == before[i] && pages[j] == before[j];
        }
      }
    }

    /** `setCurrentPage(pageId)`: switches only to a page that exists. */
    method SetCurrentPage(pageId: string)
      requires Valid()
      modifies this
      ensures Valid()
      ensures pages == old(pages)
      ensures FindPage(pages, pageId).None? ==> currentPage == old(currentPage)
      ensures FindPage(pages, pageId).Some? ==> currentPage == FindPage(pages, pageId).value
      ensures FindPage(pages, pageId).Some? ==> currentPage.id == pageId
    {
      var found := FindPage(pages, pageId);
      if found.Some? {
        currentPage := found.value;
      }
    }

    /** `renamePage(pageId, newName)` at ISO time `timestamp`. The current page
        is renamed along with its list entry, so it stays equal to it. */
    method RenamePage(pageId: string, newName: string, timestamp: string)
      requires Valid()
      modifies this
      ensures Valid()
      ensures pages == RenamePages(old(pages), pageId, newName, timestamp)
      ensures old(currentPage).id == pageId ==>
                currentPage == old(currentPage).(name := newName, updatedAt := timestamp)
      ensures old(currentPage).id != pageId ==> currentPage == old(currentPage)
    {
      ghost var before := pages;
      ghost var k :| 0 <= k < |before| && before[k] == currentPage;
      pages := RenamePages(pages, pageId, newName, timestamp);
      if currentPage.id == pageId {
        currentPage := currentPage.(name := newName, updatedAt := timestamp);
      }
      assert pages[k] == currentPage;
      forall i, j | 0 <= i < j < |pages| ensures pages[i].id != pages[j].id {
        assert pages[i].id == before[i].id && pages[j].id == before[j].id;
      }
    }

    /** `deletePage(pageId)`: refused while only one page is left; otherwise
        removes the page, and if it was current the first remaining page
        becomes current. */
    method DeletePage(pageId: string)
      requires Valid()
      modifies this
      ensures Valid()
      ensures |old(pages)| <= 1 ==> pages == old(pages) && currentPage == old(currentPage)
      ensures |old(pages)| > 1 ==> pages == RemovePage(old(pages), pageId)
      ensures |old(pages)| > 1 && old(currentPage).id == pageId ==> currentPage == pages[0]
      ensures old(currentPage).id != pageId ==> currentPage == old(currentPage)
    {
      if |pages| <= 1 {
        return;
      }
      var updated := RemovePage(pages, pageId);
      RemovePageFromUnique(pages, pageId);
      pages := updated;
      if currentPage.id == pageId {
        currentPage := updated[0];
      }
    }
  }
}
