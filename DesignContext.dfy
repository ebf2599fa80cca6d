/** The design store: one ordered list of placed images across all pages.
    Adding appends (later entries draw on top), removing filters by id, and
    the view for the current page filters by page id. Deleting a page does not
    touch this list. */
module DesignContext {
  import opened Common
  import opened Text
  import opened Types

  const IdPrefix := "design-"

  /** `design-${Date.now()}-${Math.random().toString(36).substring(2, 9)}`:
      `nowMillis` is the clock reading and `randomBase36` the base-36 text of
      the random number (of the form "0.xxxx…"). */
  function GenerateId(nowMillis: nat, randomBase36: string): (id: string)
    ensures IdPrefix <= id
    ensures IdPrefix + Decimal(nowMillis) + "-" <= id
    ensures |id| <= |IdPrefix| + |Decimal(nowMillis)| + 1 + 7
  {
    IdPrefix + Decimal(nowMillis) + "-" + JsSubstring(randomBase36, 2, 9)
  }

  /** A run of digits ended by '-' is determined by the text it starts. */
  lemma DigitsBeforeDash(d1: string, x: string, d2: string, y: string)
    requires forall i :: 0 <= i < |d1| ==> '0' <= d1[i] <= '9'
    requires forall i :: 0 <= i < |d2| ==> '0' <= d2[i] <= '9'
    requires d1 + "-" + x == d2 + "-" + y
    ensures d1 == d2
  {
    var s1, s2 := d1 + "-" + x, d2 + "-" + y;
    // Each side shows its digits and then '-', so the first '-' ends both runs.
    assert s1[|d1|] == '-' && s2[|d2|] == '-';
    assert forall i :: 0 <= i < |d1| ==> s1[i] == d1[i];
    assert forall i :: 0 <= i < |d2| ==> s2[i] == d2[i];
    assert |d1| == |d2|;
    assert d1 == s1[..|d1|] == d2;
  }

  /** Ids generated at different clock readings differ. */
  lemma GenerateIdDistinguishesClock(m: nat, n: nat, ra: string, rb: string)
    requires m != n
    ensures GenerateId(m, ra) != GenerateId(n, rb)
  {
    var xa, xb := JsSubstring(ra, 2, 9), JsSubstring(rb, 2, 9);
    var ta, tb := Decimal(m) + "-" + xa, Decimal(n) + "-" + xb;
    assert GenerateId(m, ra) == IdPrefix + ta;
    assert GenerateId(n, rb) == IdPrefix + tb;
    if ta == tb {
      DigitsBeforeDash(Decimal(m), xa, Decimal(n), xb);
      DecimalInjective(m, n);
    }
    assert (IdPrefix + ta)[|IdPrefix|..] == ta && (IdPrefix + tb)[|IdPrefix|..] == tb;
  }

  /** The design `addDesign` builds: the caller's fields plus id and timestamp. */
  function Created(draft: DesignDraft, id: string, timestamp: string): DesignIteration {
    DesignIteration(id, draft.name, draft.pageId, draft.imageUrl, draft.position,
                    draft.dimensions, timestamp, draft.feedback)
  }

  /** `designs.filter(design => design.id !== id)`. */
  function WithoutDesign(ds: seq<DesignIteration>, id: string): (r: seq<DesignIteration>)
    ensures |r| <= |ds|
    ensures forall d :: d in r <==> d in ds && d.id != id
  {
    Filter(ds, (d: DesignIteration) => d.id != id)
  }

  /** `designs.filter(design => design.pageId === pageId)`. */
  function ForPage(ds: seq<DesignIteration>, pageId: string): (r: seq<DesignIteration>)
    ensures |r| <= |ds|
    ensures forall d :: d in r <==> d in ds && d.pageId == pageId
  {
    Filter(ds, (d: DesignIteration) => d.pageId == pageId)
  }

  /** Removing keeps the other designs in their original order. */
  lemma WithoutDesignKeepsOrder(a: seq<DesignIteration>, b: seq<DesignIteration>, id: string)
    ensures WithoutDesign(a + b, id) == WithoutDesign(a, id) + WithoutDesign(b, id)
  {
    FilterAppend(a, b, (d: DesignIteration) => d.id != id);
  }

  /** Removing an id that no design carries changes nothing. */
  lemma WithoutAbsentDesign(ds: seq<DesignIteration>, id: string)
    requires forall d :: d in ds ==> d.id != id
    ensures WithoutDesign(ds, id) == ds
  {
    FilterKeepsAll(ds, (d: DesignIteration) => d.id != id);
  }

  /** The per-page view keeps list order. */
  lemma ForPageKeepsOrder(a: seq<DesignIteration>, b: seq<DesignIteration>, pageId: string)
    ensures ForPage(a + b, pageId) == ForPage(a, pageId) + ForPage(b, pageId)
  {
    FilterAppend(a, b, (d: DesignIteration) => d.pageId == pageId);
  }

  /** Appending a design shows it last in its own page's view and leaves every
      other page's view unchanged. */
  lemma ForPageAfterAppend(ds: seq<DesignIteration>, d: DesignIteration, pageId: string)
    ensures d.pageId == pageId ==> ForPage(ds + [d], pageId) == ForPage(ds, pageId) + [d]
    ensures d.pageId != pageId ==> ForPage(ds + [d], pageId) == ForPage(ds, pageId)
  {
    ForPageKeepsOrder(ds, [d], pageId);
    assert [d][1..] == [];
  }

  class DesignStore {
    var designs: seq<DesignIteration>

    constructor ()
      ensures designs == []
    {
      designs := [];
    }

    /** `addDesign(draft)` with clock reading `nowMillis`, random text
        `randomBase36` and ISO time `timestamp`. */
    method AddDesign(draft: DesignDraft, nowMillis: nat, randomBase36: string, timestamp: string)
      modifies this
      ensures designs == old(designs) + [Created(draft, GenerateId(nowMillis, randomBase36), timestamp)]
    {
      var design := Created(draft, GenerateId(nowMillis, randomBase36), timestamp);
      designs := designs + [design];
    }

    /** `removeDesign(id)`: drops every design with that id. */
    method RemoveDesign(id: string)
      modifies this
      ensures designs == WithoutDesign(old(designs), id)
    {
      designs := WithoutDesign(designs, id);
    }

    /** `getDesignsForCurrentPage()`, given the current page's id. */
    function DesignsForCurrentPage(currentPageId: string): (r: seq<DesignIteration>)
      reads this
      ensures forall d :: d in r <==> d in designs && d.pageId == currentPageId
      ensures r == ForPage(designs, currentPageId)
    {
      ForPage(designs, currentPageId)
    }
  }
}
