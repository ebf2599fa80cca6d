/** The canvas component's interaction state and its event handlers: wheel
    zoom and pan, background drag, design selection, the keyboard shortcuts
    (ctrl+0, ctrl+'+'/'=', ctrl+'-', Delete/Backspace) and clipboard paste.
    Each handler runs as one atomic step. */
module CanvasComponent {
  import opened Common
  import opened Text
  import opened Types
  import opened Viewport
  import opened DesignContext

  /** The clock, random and ISO-time readings taken when a pasted image has loaded. */
  datatype Clock = Clock(nowMillis: nat, randomBase36: string, isoTime: string)

  /** A clipboard file after decoding: its object URL and natural size. */
  datatype DecodedImage = DecodedImage(objectUrl: string, naturalWidth: nat, naturalHeight: nat, loadedAt: Clock)

  /** One clipboard item: its MIME type, and the decoded image when
      `getAsFile()` yields a file that loads. */
  datatype ClipboardItem = ClipboardItem(mimeType: string, image: Option<DecodedImage>)

  const PastedName := "Pasted Design"

  /** `items[i].type.indexOf('image') !== -1` and a file that loads. */
  predicate PlacesImage(item: ClipboardItem) {
    Contains(item.mimeType, "image") && item.image.Some?
  }

  /** The design the paste handler adds for one loaded image. */
  function PastedDraft(img: DecodedImage, center: Position, pageId: string): DesignDraft {
    DesignDraft(PastedName, pageId, img.objectUrl, center,
                Some(Dimensions(img.naturalWidth as real, img.naturalHeight as real)), None)
  }

  /** How many clipboard items are images with a file. */
  function ImageItems(items: seq<ClipboardItem>): nat {
    if items == [] then 0 else (if PlacesImage(items[0]) then 1 else 0) + ImageItems(items[1..])
  }

  lemma {:induction false} ImageItemsAppend(a: seq<ClipboardItem>, b: seq<ClipboardItem>)
    ensures ImageItems(a + b) == ImageItems(a) + ImageItems(b)
    decreases |a|
  {
    if a != [] {
      assert (a + b)[1..] == a[1..] + b;
      ImageItemsAppend(a[1..], b);
    } else {
      assert a + b == b;
    }
  }

  /** The designs appended for a run of clipboard items, in item order: one
      for every item that is an image with a file, and no other. */
  function PastedDesigns(items: seq<ClipboardItem>, center: Position, pageId: string): (r: seq<DesignIteration>)
    ensures |r| == ImageItems(items)
  {
    if items == [] then []
    else
      var item := items[|items| - 1];
      ImageItemsAppend(items[..|items| - 1], [item]);
      assert items[..|items| - 1] + [item] == items;
      assert [item][1..] == [];
      PastedDesigns(items[..|items| - 1], center, pageId) +
        if PlacesImage(item) then
          var img := item.image.value;
          [Created(PastedDraft(img, center, pageId),
                   GenerateId(img.loadedAt.nowMillis, img.loadedAt.randomBase36), img.loadedAt.isoTime)]
        else []
  }

  /** One more clipboard item appends at most its own design. */
  lemma PastedDesignsStep(items: seq<ClipboardItem>, item: ClipboardItem, center: Position, pageId: string)
    ensures PastedDesigns(items + [item], center, pageId) ==
              PastedDesigns(items, center, pageId) +
                if PlacesImage(item) then
                  [Created(PastedDraft(item.image.value, center, pageId),
                           GenerateId(item.image.value.loadedAt.nowMillis, item.image.value.loadedAt.randomBase36),
                           item.image.value.loadedAt.isoTime)]
                else []
  {
    assert (items + [item])[..|items|] == items;
  }

  /** Every pasted design sits at the given centre on the given page, carries
      a generated id, and there is at most one per clipboard item. */
  lemma {:induction false} PastedDesignsPlacement(items: seq<ClipboardItem>, center: Position, pageId: string)
    ensures |PastedDesigns(items, center, pageId)| <= |items|
    ensures forall d :: d in PastedDesigns(items, center, pageId) ==>
              d.position == center && d.pageId == pageId && d.name == PastedName && IdPrefix <= d.id
  {
    if items != [] {
      PastedDesignsPlacement(items[..|items| - 1], center, pageId);
    }
  }

  /** `if (selectedDesign)`: a selection that is neither null nor the empty string. */
  predicate HasSelection(selected: Option<string>) {
    selected.Some? && selected.value != ""
  }

  class Canvas {
    var scale: real
    var canvasPosition: Position
    var selectedDesign: Option<string>
    var isDragging: bool
    var dragStart: Position

    /** The scale starts at 1 and is only ever multiplied or divided by 1.1. */
    ghost predicate Valid()
      reads this
    {
      scale > 0.0
    }

    function View(): Transform
      reads this
    {
      Transform(scale, canvasPosition)
    }

    constructor ()
      ensures Valid()
      ensures View() == Identity && selectedDesign == None
      ensures !isDragging && dragStart == Position(0.0, 0.0)
    {
      scale := 1.0;
      canvasPosition := Position(0.0, 0.0);
      selectedDesign := None;
      isDragging := false;
      dragStart := Position(0.0, 0.0);
    }

    /** `handleWheel`: with ctrl, zoom at the cursor (nothing happens without
        a mounted element); without ctrl, pan by the negated deltas. */
    method HandleWheel(ctrlKey: bool, clientX: real, clientY: real, deltaX: real, deltaY: real, rect: Option<Rect>)
      requires Valid()
      modifies this
      ensures Valid()
      ensures ctrlKey && rect.None? ==> View() == old(View())
      ensures ctrlKey && rect.Some? ==> View() == WheelZoom(old(View()), rect.value, clientX, clientY, deltaY)
      ensures !ctrlKey ==> View() == WheelPan(old(View()), deltaX, deltaY)
      ensures selectedDesign == old(selectedDesign) && isDragging == old(isDragging) && dragStart == old(dragStart)
    {
      if ctrlKey {
        if rect.None? {
          return;
        }
        var mouseX := clientX - rect.value.left;
        var mouseY := clientY - rect.value.top;
        var mouseCanvasX := (mouseX - canvasPosition.x) / scale;
        var mouseCanvasY := (mouseY - canvasPosition.y) / scale;
        var delta := if deltaY > 0.0 then 1.0 / ZoomFactor else ZoomFactor;
        var newScale := scale * delta;
        var newPosX := mouseX - mouseCanvasX * newScale;
        var newPosY := mouseY - mouseCanvasY * newScale;
        scale := newScale;
        canvasPosition := Position(newPosX, newPosY);
      } else {
        var dx := deltaX * -1.0;
        var dy := deltaY * -1.0;
        canvasPosition := Position(canvasPosition.x + dx, canvasPosition.y + dy);
      }
    }

    /** `handleMouseDown`: a press on the canvas background starts a drag and
        clears the selection; presses elsewhere change nothing. */
    method HandleMouseDown(onBackground: bool, clientX: real, clientY: real)
      requires Valid()
      modifies this
      ensures Valid() && View() == old(View())
      ensures onBackground ==> isDragging && dragStart == Position(clientX, clientY) && selectedDesign == None
      ensures !onBackground ==> isDragging == old(isDragging) && dragStart == old(dragStart) &&
                                selectedDesign == old(selectedDesign)
    {
      if onBackground {
        isDragging := true;
        dragStart := Position(clientX, clientY);
        selectedDesign := None;
      }
    }

    /** `handleMouseMove`: while dragging, pan by the pointer's displacement
        since the last event and remember the new pointer position. */
    method HandleMouseMove(clientX: real, clientY: real)
      requires Valid()
      modifies this
      ensures Valid() && scale == old(scale) && isDragging == old(isDragging)
      ensures selectedDesign == old(selectedDesign)
      ensures old(isDragging) ==> canvasPosition == DragTo(old(canvasPosition), old(dragStart), Position(clientX, clientY))
      ensures old(isDragging) ==> dragStart == Position(clientX, clientY)
      ensures !old(isDragging) ==> canvasPosition == old(canvasPosition) && dragStart == old(dragStart)
    {
      if isDragging {
        var deltaX := clientX - dragStart.x;
        var deltaY := clientY - dragStart.y;
        canvasPosition := Position(canvasPosition.x + deltaX, canvasPosition.y + deltaY);
        dragStart := Position(clientX, clientY);
      }
    }

    /** `handleMouseUp`: the drag ends. */
    method HandleMouseUp()
      requires Valid()
      modifies this
      ensures Valid() && !isDragging
      ensures View() == old(View()) && dragStart == old(dragStart) && selectedDesign == old(selectedDesign)
    {
      isDragging := false;
    }

    /** `handleMouseLeave`: leaving the element also ends the drag. */
    method HandleMouseLeave()
      requires Valid()
      modifies this
      ensures Valid() && !isDragging
      ensures View() == old(View()) && dragStart == old(dragStart) && selectedDesign == old(selectedDesign)
    {
      isDragging := false;
    }

    /** `handleDesignClick`: selects the clicked design. */
    method HandleDesignClick(designId: string)
      requires Valid()
      modifies this
      ensures Valid() && selectedDesign == Some(designId)
      ensures View() == old(View()) && isDragging == old(isDragging) && dragStart == old(dragStart)
    {
      selectedDesign := Some(designId);
    }

    /** The zoom step shared by ctrl+'+' and ctrl+'-': the scale becomes
        `newScale` and, when the element is mounted, the canvas point at its
        centre stays there. */
    method ZoomAboutCentre(newScale: real, rect: Option<Rect>)
      requires Valid() && newScale > 0.0
      modifies this
      ensures Valid() && View() == KeyZoom(old(View()), rect, newScale)
      ensures selectedDesign == old(selectedDesign) && isDragging == old(isDragging) && dragStart == old(dragStart)
    {
      if rect.Some? {
        var centerX := rect.value.width / 2.0;
        var centerY := rect.value.height / 2.0;
        var centerCanvasX := (centerX - canvasPosition.x) / scale;
        var centerCanvasY := (centerY - canvasPosition.y) / scale;
        var newPosX := centerX - centerCanvasX * newScale;
        var newPosY := centerY - centerCanvasY * newScale;
        scale := newScale;
        canvasPosition := Position(newPosX, newPosY);
      } else {
        scale := newScale;
      }
    }

    /** `handleKeyDown`: ctrl+0 resets the view, ctrl+'+' or ctrl+'=' zooms in
        and ctrl+'-' zooms out about the element's centre, and Delete or
        Backspace removes the selected design and clears the selection. */
    method HandleKeyDown(key: string, ctrlKey: bool, rect: Option<Rect>, store: DesignStore)
      requires Valid()
      modifies this, store
      ensures Valid()
      ensures isDragging == old(isDragging) && dragStart == old(dragStart)
      ensures key == "0" && ctrlKey ==>
                View() == Identity && selectedDesign == old(selectedDesign) && store.designs == old(store.designs)
      ensures (key == "+" || key == "=") && ctrlKey ==>
                View() == KeyZoom(old(View()), rect, old(scale) * ZoomFactor) &&
                selectedDesign == old(selectedDesign) && store.designs == old(store.designs)
      ensures key == "-" && ctrlKey ==>
                View() == KeyZoom(old(View()), rect, old(scale) / ZoomFactor) &&
                selectedDesign == old(selectedDesign) && store.designs == old(store.designs)
      ensures (key == "Delete" || key == "Backspace") && HasSelection(old(selectedDesign)) ==>
                View() == old(View()) && selectedDesign == None &&
                store.designs == WithoutDesign(old(store.designs), old(selectedDesign).value)
      ensures !(ctrlKey && key in {"0", "+", "=", "-"}) &&
              !((key == "Delete" || key == "Backspace") && HasSelection(old(selectedDesign))) ==>
                View() == old(View()) && selectedDesign == old(selectedDesign) && store.designs == old(store.designs)
    {
      if key == "0" && ctrlKey {
        scale := 1.0;
        canvasPosition := Position(0.0, 0.0);
      } else if (key == "+" || key == "=") && ctrlKey {
        ZoomAboutCentre(scale * ZoomFactor, rect);
      } else if key == "-" && ctrlKey {
        ZoomAboutCentre(scale / ZoomFactor, rect);
      } else if (key == "Delete" || key == "Backspace") && HasSelection(selectedDesign) {
        store.RemoveDesign(selectedDesign.value);
        selectedDesign := None;
      }
    }

    /** `handlePaste`: the viewport centre is computed once, then every image
        item that loads is added at that centre on the current page. A paste
        event without clipboard data changes nothing. */
    method HandlePaste(items: Option<seq<ClipboardItem>>, rect: Option<Rect>, currentPageId: string, store: DesignStore)
      requires Valid()
      modifies store
      ensures items.None? ==> store.designs == old(store.designs)
      ensures items.Some? ==>
                store.designs == old(store.designs) +
                  PastedDesigns(items.value, ViewportCenter(View(), rect), currentPageId)
    {
      if items.None? {
        return;
      }
      var list := items.value;
      var viewportCenter := ViewportCenter(View(), rect);
      var i := 0;
      while i < |list|
        invariant 0 <= i <= |list|
        invariant store.designs == old(store.designs) + PastedDesigns(list[..i], viewportCenter, currentPageId)
      {
        assert list[..i + 1] == list[..i] + [list[i]];
        PastedDesignsStep(list[..i], list[i], viewportCenter, currentPageId);
        var item := list[i];
        if Contains(item.mimeType, "image") && item.image.Some? {
          var img := item.image.value;
          store.AddDesign(PastedDraft(img, viewportCenter, currentPageId),
                          img.loadedAt.nowMillis, img.loadedAt.randomBase36, img.loadedAt.isoTime);
        }
        i := i + 1;
      }
      assert list[..|list|] == list;
    }
  }
}
