# Coterate whiteboard — a verified Dafny model of its core

Coterate is a whiteboard for UI designs. Designs are images placed on an
infinite, zoomable canvas and grouped into pages. An analysis service asks a
hosted language model to describe a design as JSON. This project models four
parts of it in Dafny and proves what each part promises.

- **Page registry** (`PageContext.dfy`, class `PageRegistry`): an ordered list of pages plus the page currently shown.
  - Pages can be added (and then selected), selected, renamed and deleted.
  - Deleting the last page is refused.
  - The class invariant: the list is never empty, the current page is one of its entries, and ids are unique.
- **Design store** (`DesignContext.dfy`, class `DesignStore`): one ordered list of placed images for all pages.
  - Adding appends a design with a generated `design-…` id and a timestamp.
  - Removing filters by id.
  - The current page's view filters by page id and keeps list order.
- **Canvas viewport and interaction** (`Viewport.dfy` for the pure maths, `CanvasComponent.dfy` for class `Canvas` with its event handlers).
  - The state is the zoom scale, the pan offset, the selected design, whether a drag is running, and where it was last seen.
  - Screen and canvas coordinates convert as `(s - pan) / scale` and `pan + c * scale`.
  - The model covers ctrl+wheel zoom at the cursor, keyboard zoom at the viewport centre, wheel and drag panning, reset, delete of the selection, and paste at the viewport centre.
  - JavaScript numbers are modelled as exact reals.
- **Analysis proxies**: the text and status logic around the model APIs.
  - `JsonExtraction.dfy` holds the three regular expressions that find the JSON in a model reply, and the fence-marker cleanup.
  - `AnalyzeUiPages.dfy` covers the Anthropic proxy: image resize arithmetic, data-URL prefix strip and handler status ladder.
  - `AiService.dfy` covers the browser OpenAI client: data-URL split, cleaned extraction and failure modes.
  - `AnalyzeUiRoute.dfy` covers the OpenAI route: data-URL normalisation and status ladder.
  - `Http.dfy` holds the upstream outcomes and responses they share.

`Common.dfy` holds `Option`, `Result` and JavaScript's `filter` and `map` on lists. `Text.dfy` holds `indexOf`, `lastIndexOf`, clamping `substring` and the decimal text of `Date.now()`. `Types.dfy` holds the shared records.

Several inputs are caller-supplied parameters:
- clock readings, `Math.random()` text and ISO timestamps;
- the network, as a function from request payload to `Http.Upstream`;
- `JSON.parse`, as a function `string -> Option<J>`.

Source cells below are paths in the Coterate repository.

## Model

| member | source | states |
|---|---|---|
| Common.Filter | src/contexts/DesignContext.tsx:46 | `filter` keeps exactly the elements that pass the test, and never lengthens the list |
| Common.FilterAppend | src/contexts/PageContext.tsx:76 | filtering distributes over concatenation, so the kept elements stay in their original order |
| Common.FilterKeepsAll | src/contexts/DesignContext.tsx:46 | when every element passes, `filter` returns the list unchanged |
| Common.Map | src/contexts/PageContext.tsx:59-63 | `map` keeps the length and applies the function at every index |
| Text.FindFrom | src/components/Canvas.tsx:216 | `indexOf` returns the first occurrence at or after the start, or none when the pattern occurs nowhere there |
| Text.FindChar | src/services/aiService.ts:130 | the first index of a character at or after a start position, or none when there is no such index |
| Text.FindLast | src/pages/api/analyze-ui.ts:181 | the last index of a character, or none when it does not occur |
| Text.JsSubstring | src/pages/api/analyze-ui.ts:194 | `substring` returns a contiguous piece of the input no longer than the requested range, and exactly the slice when the bounds are in range |
| Text.Decimal | src/contexts/DesignContext.tsx:7 | the decimal text of a clock reading is non-empty and made of digits only |
| Text.DecimalRoundTrip | src/contexts/DesignContext.tsx:7 | reading the decimal text back gives the number |
| Text.DecimalInjective | src/contexts/PageContext.tsx:40 | different clock readings have different decimal texts |
| PageContext.NewPageId | src/contexts/PageContext.tsx:40 | a new page id is `page-` followed by at least one character |
| PageContext.DefaultPage | src/contexts/PageContext.tsx:15-20 | the start-up page is `page-1` named "Page 1", created and updated at module load time |
| PageContext.FindPage | src/contexts/PageContext.tsx:51 | `find` returns the first page in list order that carries the id, and none exactly when no page carries it |
| PageContext.FindPageUnique | src/contexts/PageContext.tsx:51 | with unique ids, `find` by a page's id returns that very page |
| PageContext.RenamePages | src/contexts/PageContext.tsx:59-63 | length, order, ids and creation times are kept; matching pages get the new name and update time; other pages are unchanged |
| PageContext.RemovePage | src/contexts/PageContext.tsx:76 | the result holds exactly the pages whose id differs from the deleted one |
| PageContext.RemovePageKeepsOrder | src/contexts/PageContext.tsx:76 | deleting keeps the surviving pages in their original order |
| PageContext.RemovePageFromUnique | src/contexts/PageContext.tsx:72-83 | with unique ids, deleting removes at most one page and keeps ids unique |
| PageContext.PageRegistry.constructor | src/contexts/PageContext.tsx:15-35 | the registry starts with the single page `page-1` named "Page 1", and it is current |
| PageContext.PageRegistry.AddPage | src/contexts/PageContext.tsx:37-48 | appends exactly one page with the fresh id, name and timestamps, keeps earlier pages, selects the new page and keeps the invariant |
| PageContext.PageRegistry.SetCurrentPage | src/contexts/PageContext.tsx:50-55 | an unknown id changes nothing; a known id makes that page current; the list is unchanged |
| PageContext.PageRegistry.RenamePage | src/contexts/PageContext.tsx:57-70 | the list becomes the renamed list, and a renamed current page gets the same name and time, so it still equals its list entry |
| PageContext.PageRegistry.DeletePage | src/contexts/PageContext.tsx:72-83 | with one page nothing changes; otherwise the page is removed; a deleted current page is replaced by the first remaining page; the invariant is kept |
| DesignContext.GenerateId | src/contexts/DesignContext.tsx:6-8 | a generated id starts with `design-`, then the clock's digits and `-`, and adds at most 7 random characters |
| DesignContext.GenerateIdDistinguishesClock | src/contexts/DesignContext.tsx:6-8 | ids generated at different clock readings differ, whatever the random parts |
| DesignContext.WithoutDesign | src/contexts/DesignContext.tsx:46 | removal keeps exactly the designs with a different id |
| DesignContext.ForPage | src/contexts/DesignContext.tsx:50 | the page view holds exactly the designs whose page id matches |
| DesignContext.WithoutDesignKeepsOrder | src/contexts/DesignContext.tsx:45-47 | removal keeps the other designs in their original order |
| DesignContext.WithoutAbsentDesign | src/contexts/DesignContext.tsx:46 | removing an id no design carries leaves the list unchanged |
| DesignContext.ForPageKeepsOrder | src/contexts/DesignContext.tsx:49-51 | the page view keeps list order |
| DesignContext.ForPageAfterAppend | src/contexts/DesignContext.tsx:42-50 | an added design shows last in its own page's view; every other page's view is unchanged |
| DesignContext.DesignStore.constructor | src/contexts/DesignContext.tsx:32 | the store starts empty |
| DesignContext.DesignStore.AddDesign | src/contexts/DesignContext.tsx:35-43 | appends exactly one design with the caller's fields, a generated id and the timestamp; earlier entries are unchanged |
| DesignContext.DesignStore.RemoveDesign | src/contexts/DesignContext.tsx:45-47 | the list becomes the list without that id |
| DesignContext.DesignStore.DesignsForCurrentPage | src/contexts/DesignContext.tsx:49-51 | the stored designs on the current page, exactly, in the order they were added (the page view `ForPage`, whose order lemmas apply) |
| Viewport.ScreenCanvasRoundTrip | src/components/Canvas.tsx:121-122 | converting a screen point to the canvas and drawing it again gives the same point when the scale is not zero |
| Viewport.CanvasScreenRoundTrip | src/components/Canvas.tsx:121-122 | drawing a canvas point and converting it back gives the same point when the scale is not zero |
| Viewport.ScreenToCanvas | src/components/Canvas.tsx:121-122 | the screen point at the pan offset maps to the canvas origin, and the initial view maps every point to itself |
| Viewport.CanvasToScreen | src/components/Canvas.tsx:33 | with a non-zero scale, converting the drawn screen point back gives the canvas point |
| Viewport.ZoomAt | src/components/Canvas.tsx:141-151 | the new scale is the requested one, and the canvas point under the anchor stays under the anchor |
| Viewport.WheelZoomScale | src/components/Canvas.tsx:145-147 | a wheel step divides the scale by 1.1 when `deltaY > 0` and multiplies it by 1.1 otherwise, so a positive scale stays positive |
| Viewport.WheelZoom | src/components/Canvas.tsx:131-158 | ctrl+wheel sets the stepped scale and keeps the cursor's canvas point under the cursor |
| Viewport.WheelPan | src/components/Canvas.tsx:159-167 | a plain wheel keeps the scale and moves every canvas point on screen by minus the wheel deltas |
| Viewport.ViewportCenter | src/components/Canvas.tsx:111-125 | the centre is the canvas point drawn at the middle of the element, or (100, 100) when the element is not mounted |
| Viewport.KeyZoom | src/components/Canvas.tsx:258-313 | keyboard zoom sets the new scale and keeps the element centre's canvas point fixed; without an element only the scale changes |
| Viewport.KeyZoomInOutRoundTrip | src/components/Canvas.tsx:258-313 | ctrl+'+' then ctrl+'-' restores scale and pan exactly |
| Viewport.WheelZoomInOutRoundTrip | src/components/Canvas.tsx:137-158 | a zoom-in wheel step then a zoom-out step at the same cursor restores scale and pan exactly |
| Viewport.DragTo | src/components/Canvas.tsx:178-191 | after one drag move, at any non-zero scale, the canvas point that was under the pointer at the previous event is under the pointer again |
| Viewport.DragRun | src/components/Canvas.tsx:178-191 | no moves keep the pan; after a run of moves the canvas point grabbed when the drag started is under the last pointer position |
| Viewport.DragRunTotal | src/components/Canvas.tsx:178-191 | a run of drag moves pans by the total displacement from the drag start to the last pointer position |
| CanvasComponent.PastedDesigns | src/components/Canvas.tsx:215-248 | a paste adds one design per clipboard item that is an image with a file, and no other |
| CanvasComponent.ImageItemsAppend | src/components/Canvas.tsx:215-218 | the number of image items of two runs of items adds up |
| CanvasComponent.PastedDesignsStep | src/components/Canvas.tsx:215-248 | one more clipboard item appends its own design when it is an image with a file, and nothing otherwise |
| CanvasComponent.PastedDesignsPlacement | src/components/Canvas.tsx:213-241 | each clipboard item adds at most one design; every pasted design sits at the viewport centre on the current page, named "Pasted Design", with a `design-` id |
| CanvasComponent.Canvas.constructor | src/components/Canvas.tsx:102-106 | the canvas starts at scale 1 and pan (0, 0), with no selection and no drag |
| CanvasComponent.Canvas.HandleWheel | src/components/Canvas.tsx:127-168 | ctrl+wheel applies the cursor-anchored zoom (nothing without an element), a plain wheel pans; selection and drag state are unchanged |
| CanvasComponent.Canvas.HandleMouseDown | src/components/Canvas.tsx:170-176 | a press on the background starts a drag at the pointer and clears the selection; other presses change nothing |
| CanvasComponent.Canvas.HandleMouseMove | src/components/Canvas.tsx:178-191 | while dragging, the pan follows the pointer's displacement and the drag start moves to the pointer; otherwise nothing changes |
| CanvasComponent.Canvas.HandleMouseUp | src/components/Canvas.tsx:193-195 | the drag ends and nothing else changes |
| CanvasComponent.Canvas.HandleMouseLeave | src/components/Canvas.tsx:336-338 | leaving the element ends the drag and nothing else changes |
| CanvasComponent.Canvas.HandleDesignClick | src/components/Canvas.tsx:197-200 | clicking a design selects it |
| CanvasComponent.Canvas.ZoomAboutCentre | src/components/Canvas.tsx:265-285 | one keyboard zoom step sets the new scale and keeps the canvas point at the element's centre fixed; selection and drag state are unchanged |
| CanvasComponent.Canvas.HandleKeyDown | src/components/Canvas.tsx:252-319 | ctrl+0 resets to scale 1 and pan (0, 0); ctrl+'+'/'=' and ctrl+'-' zoom by 1.1 about the centre; Delete/Backspace with a selection removes that design and clears the selection; other keys change nothing |
| CanvasComponent.Canvas.HandlePaste | src/components/Canvas.tsx:208-249 | without clipboard data nothing changes; otherwise the designs for the image items are appended in item order, all at the centre computed once before the loop |
| JsonExtraction.FencedMatch | src/pages/api/analyze-ui.ts:179-180 | a fenced match starts at the first opening marker, and its group runs from there to the nearest closing "\n```" |
| JsonExtraction.FencedMatchExists | src/services/aiService.ts:99-100 | a fenced pattern matches exactly when some opening marker is followed by a closing marker |
| JsonExtraction.BraceMatch | src/pages/api/analyze-ui.ts:181 | the brace match runs from the first '{' to the last '}' |
| JsonExtraction.BraceMatchExists | src/services/aiService.ts:101 | the brace pattern matches exactly when some '{' comes before some '}' |
| JsonExtraction.BraceMatchAt | src/pages/api/analyze-ui.ts:181 | between text without '{' and text without '}', the brace match is exactly the braced part |
| JsonExtraction.FirstMatch | src/pages/api/analyze-ui.ts:179-181 | a ```json fence wins whenever it matches, then a plain fence; the brace match is used exactly when neither fence matches |
| JsonExtraction.FirstMatchNone | src/pages/api/analyze-ui.ts:179-183 | none of the three patterns matches exactly when no opening marker is followed by a closing one and no '{' precedes a '}' |
| JsonExtraction.GroupOrWhole | src/pages/api/analyze-ui.ts:184 | group 1 is taken when present and non-empty, otherwise the whole match; the result is empty only when the whole match is |
| JsonExtraction.FencedMatchAfterProse | src/pages/api/analyze-ui.ts:179-180 | after backtick-free text, a fence marker followed by a body without "\n```" matches with the body as its group |
| JsonExtraction.ExtractCandidate | src/pages/api/analyze-ui.ts:179-187 | the whole reply when no pattern matches (even one containing a `{`); otherwise group 1 of the first match in preference order, or the whole match when that group is empty; always a contiguous piece of the reply |
| JsonExtraction.ExtractFromJsonFence | src/pages/api/analyze-ui.ts:179-184 | a reply holding, after text without backticks, a ```json fence around a non-empty body yields the body |
| JsonExtraction.ExtractFromPlainFence | src/pages/api/analyze-ui.ts:179-184 | without any ```json marker, a plain ``` fence after text without backticks yields its non-empty body |
| JsonExtraction.ExtractFromEmptyJsonFence | src/pages/api/analyze-ui.ts:184 | an empty ```json fence yields the whole match, fences included |
| JsonExtraction.ExtractFromBraces | src/pages/api/analyze-ui.ts:181-184 | when neither fence matches (none present, or one that never closes), the text from the first '{' to the last '}' is taken |
| JsonExtraction.ExtractFallsBackToContent | src/pages/api/analyze-ui.ts:185-187 | with no fence and no '{', the whole reply is parsed |
| JsonExtraction.StripFenceMarkers | src/services/aiService.ts:107 | the cleanup never lengthens the text |
| JsonExtraction.StripRemovesEveryFence | src/services/aiService.ts:107 | no ``` remains after the cleanup |
| JsonExtraction.StripKeepsFenceFreeText | src/services/aiService.ts:107 | text without ``` passes through the cleanup unchanged |
| JsonExtraction.StripKeepsTicklessPrefix | src/services/aiService.ts:107 | text without backticks is kept as it is, and the rest is cleaned independently |
| JsonExtraction.StripKeepsFirst | src/services/aiService.ts:107 | where no ``` starts, the first character (a lone backtick included) is kept and the scan continues with the next one |
| JsonExtraction.StripDropsJsonFenceOpen | src/services/aiService.ts:107 | a leading "```json\n" is deleted as one marker |
| JsonExtraction.StripDropsPlainFenceOpen | src/services/aiService.ts:107 | a leading "```\n" is deleted as one marker |
| JsonExtraction.StripDropsFence | src/services/aiService.ts:107 | a leading ``` that opens neither longer marker loses only its three backticks |
| AnalyzeUiPages.RoundRatio | src/pages/api/analyze-ui.ts:62-68 | `Math.round(p / q)` is the integer nearest to `p / q`, with halves rounded up |
| AnalyzeUiPages.RoundRatioAtMost | src/pages/api/analyze-ui.ts:62-68 | rounding never passes an integer bound that the exact ratio respects |
| AnalyzeUiPages.FitWithin | src/pages/api/analyze-ui.ts:56-69 | both sides ≤ 800 are kept; otherwise the longer side (the width only when strictly longer) becomes 800 and the other the rounded ratio; both results are ≤ 800 and the aspect ratio is kept to within rounding |
| AnalyzeUiPages.ServerCompressImage | src/pages/api/analyze-ui.ts:90-99 | the server passes the image on unchanged |
| AnalyzeUiPages.WordRun | src/pages/api/analyze-ui.ts:119 | `\w+` consumes the maximal run of word characters |
| AnalyzeUiPages.StripDataImagePrefix | src/pages/api/analyze-ui.ts:119 | the result is a suffix of the input, and anything removed is a whole `data:image/<word>;base64,` prefix |
| AnalyzeUiPages.StripRemovesMatchingPrefix | src/pages/api/analyze-ui.ts:119 | an input with such a prefix loses exactly that prefix, so it is never returned unchanged |
| AnalyzeUiPages.StripDataImageRoundTrip | src/pages/api/analyze-ui.ts:119 | stripping `data:image/<word>;base64,` from the front of a payload gives the payload back |
| AnalyzeUiPages.SvgPrefixNotStripped | src/pages/api/analyze-ui.ts:119 | an `image/svg+xml` data URL keeps its prefix, since `+` is not a word character |
| AnalyzeUiPages.Excerpt | src/pages/api/analyze-ui.ts:194 | the debugging excerpt is the whole reply when it has at most 500 characters and its first 500 otherwise, followed by "..." |
| AnalyzeUiPages.Answer | src/pages/api/analyze-ui.ts:128-207 | 200 with the analysis exactly when the reply's candidate parses; a timeout gives 504; an upstream error with JSON forwards its status and details; an unparsable reply gives 500 with the excerpt; every other failure, a missing or `null` reply text included, gives 500 |
| AnalyzeUiPages.Handler | src/pages/api/analyze-ui.ts:101-212 | non-POST gives 405, then a missing key 500, then a null body 500 "Internal server error", then a missing image 400. The upstream gets the image without its prefix. A timeout gives 504. An upstream error forwards its status and details. Success gives 200 with the parse of the extracted text, and a parse failure gives 500 with the excerpt |
| AiService.SplitSecond | src/services/aiService.ts:130 | `split(',')[1]` is undefined exactly when there is no comma, and is otherwise a comma-free piece of the input |
| AiService.SplitSecondOfDataUrl | src/services/aiService.ts:129-131 | the base64 part of `<header>,<payload>` is the payload |
| AiService.ExtractJsonString | src/services/aiService.ts:99-108 | the text handed to `JSON.parse` never starts with ```; a candidate starting with ``` is replaced by its fence-marker cleanup, any other is passed through |
| AiService.ExtractJsonStringFromFence | src/services/aiService.ts:99-108 | a ```json fence around a body, after text without backticks, yields the body |
| AiService.ExtractJsonStringFromEmptyFence | src/services/aiService.ts:99-108 | an empty ```json fence leaves only the newline between the markers |
| AiService.CleanEmptyFence | src/services/aiService.ts:107 | cleaning an empty ```json fence leaves only the newline between the markers |
| AiService.ApiErrorMessage | src/services/aiService.ts:88-91 | the error message starts with "API error: " and carries the HTTP status in decimal, readable back as that status |
| AiService.Outcome | src/services/aiService.ts:30-110 | success exactly when the reply is OK and its cleaned extraction parses; a failed `fetch` is a request failure; a non-OK response is an API error carrying its status; a body whose reply text is missing or `null` is malformed; an unparsable reply is a parse failure |
| AiService.AnalyzeUIDesign | src/services/aiService.ts:20-117 | an unreadable image fails first, then a missing key. A non-OK response fails with a message holding its status. The call succeeds exactly when the reply is OK and its cleaned extraction parses |
| AnalyzeUiRoute.NormaliseDataUrl | src/app/api/analyze-ui/route.ts:47-49 | the result starts with `data:`, a data URL is kept unchanged, other input gets the JPEG header, and the input is always a suffix of the result |
| AnalyzeUiRoute.NormaliseIdempotent | src/app/api/analyze-ui/route.ts:47-49 | normalising twice equals normalising once |
| AnalyzeUiRoute.Answer | src/app/api/analyze-ui/route.ts:51-95 | 200 with the analysis exactly when the reply text parses as it is, where a `null` content is read as the text "null" and so answers 200 with `null`; an upstream error with JSON forwards its status and details; a missing or unparsable reply gives the parse error; every other failure gives the generic 500 |
| AnalyzeUiRoute.ReplyText | src/app/api/analyze-ui/route.ts:87 | the text `JSON.parse` reads is the reply content, or "null" when the content is `null`; there is none exactly when the upstream gave no reply |
| AnalyzeUiRoute.Post | src/app/api/analyze-ui/route.ts:34-96 | a missing key gives 500 before the body is read; an unreadable body gives 500; a missing or empty image gives 400; an upstream error forwards its status; a `null` content that parses gives 200 with its value; a content parse failure gives 500; success gives 200 with the parsed reply |

## Left out

- I/O and React: rendering, styling, `useEffect` listener registration and batched state updates are not modelled. Each handler is one atomic step.
- Network calls, abort controllers, `FileReader`, image decoding, canvas drawing, `toDataURL` and `createObjectURL` become inputs.
  - Each upstream call is a function from its payload to an `Http.Upstream` outcome.
  - A decoded clipboard image is a `DecodedImage` value.
- The 60-second timeout itself is not modelled; a timed-out request is the `Aborted` outcome.
- `JSON.parse` is an opaque partial function. So are the structure of the upstream JSON (`content[0].text`, `choices[0].message.content`) and the outgoing request bodies and prompts.
- Logging (`console.log` / `console.error`, including the large-image note in `serverCompressImage`) is not modelled.
- The `message` field that some error responses add is not modelled.
- The browser branch of `compressImage` is modelled only by its size arithmetic (`AnalyzeUiPages.FitWithin`). The server-side `serverCompressImage` is the identity, and `AnalyzeUiPages.Handler` passes the stripped image upstream as it is.
- A non-string `imageBase64` (which would make `replace` or `startsWith` throw) is not modelled: the image arrives as an optional string.
- AnalyzeUiPages.Excerpt: strings are sequences of Unicode characters, while JavaScript's `substring(0, 500)` counts UTF-16 code units. For a reply with characters outside the Basic Multilingual Plane, the source's excerpt is shorter (and may end in half a surrogate pair) than the model's 500 characters.
- JavaScript numbers are exact reals. IEEE rounding is not captured, so the zoom round-trip lemmas hold over the reals only. `Math.round(scale * 100)` for the display is left out.
- Ids, timestamps and random text come from the caller.
  - Page ids from `Date.now()` can collide in the same millisecond. `PageContext.PageRegistry.AddPage` therefore requires a fresh id, and the registry invariant includes unique ids.
  - Design ids are not proved unique. Only `DesignContext.GenerateIdDistinguishesClock` is shown.
- `CanvasComponent.Canvas.HandlePaste` adds designs in clipboard order. In the source each image is added when it finishes loading, so the order can differ, and an image that never loads adds nothing (modelled as an item without an image).
- `src/types/index.ts` declares `Page` with only `id` and `name`. The registry builds pages with `createdAt` and `updatedAt`, and the model follows that code.
- The rename guard in the sidebar (renaming only a name whose `trim()` is non-empty) belongs to the UI and is left out: `renamePage` accepts any name.
- The code has no design position update, no analysis attachment and no removal of a deleted page's designs, so the model has none either.
- `AnalyzeUiPages.Handler`: the `status` and `message` fields of error bodies are not modelled, and neither is the `details` JSON beyond what `parse` returns.
- `AiService.AnalyzeUIDesign`: an `Aborted` outcome cannot arise (the client sets no timeout) and is treated like any other failed `fetch`.
