# PDF to PPTX converter — a Dafny model

This project models the conversion core of a browser application that turns a
PDF into a PowerPoint deck of page images, and proves properties of it.

- **PdfProcessor** (`pdf_processor.dfy`) models `processPdf`. It loads the
  document, then runs a sequential loop over pages 1..N. Each page is rendered
  at scale 2, its JPEG data URL and size are kept, its canvas and page
  resources are released, and progress is reported. Any exception becomes one
  `onError` call and an empty result. A `finally` block destroys the document.
  pdf.js is replaced by a `DocumentBehaviour` value. It says how many pages
  there are, each page's viewport size and image, and which call throws.
  `ProcessPdf` returns the images together with a trace of the callbacks and
  clean-up actions, in order.
- **PptxGenerator** (`pptx_generator.dfy`) models `generatePptx`. It builds one
  slide per page on a fixed 10 × 5.625 inch slide. Each image is placed by the
  contain-and-centre rule `Fit`. The pptxgenjs builder is the class
  `Presentation`, whose slide list only grows.
- **Dropzone** (`dropzone.dfy`) models the upload component. A file is
  accepted when it has the PDF MIME type or a ".pdf" name, and is at most
  50 MiB. The type test comes first. The class also models the drag
  highlight and the gating by `disabled`, and it validates only the first file.
- **HomePage** (`home_page.dfy`) models the page controller. It is a
  four-state machine: idle, processing, done, error. It also derives the output
  file name. The processor and the generator are inputs (`Conversion`). The
  lemma `ConvertEndToEnd` composes the controller with the processor model.

Lengths and aspect ratios are Dafny `real`s, so 5.625 is exactly 45/8.

Points where the code behaves differently from what one might expect, and
which the model follows:
- The slide size is the constant 10 × 5.625 (pptx-generator.ts:5-6,12-13). It
  is not taken from the first page.
- No content type is set on the package.
- The stored `width`/`height` are the viewport size divided by 2. That is the
  page size in PDF points, not in inches, whatever the comment at
  pdf-processor.ts:66-67 says.
- A PDF with no pages gives an empty image list without an error from the
  processor. The page controller then turns that into the error state
  (page.tsx:57-62). It is not an empty deck.
- The per-page release (canvas cleared, `page.cleanup()`) happens only on the
  success path. A page that throws is never released; only the document is
  destroyed (`FailedPageNotReleased`).
- The error kinds are not kept. Both branches of the classification give the
  same message (`ErrorMessage`).

## Model

| member | source | states |
|---|---|---|
| PdfProcessor.RenderPages | src/lib/pdf-processor.ts:37-82 | The page loop stops at the first page that throws, with what it threw. On both paths it holds the images of the completed pages in page order and their events, followed on failure by the failing page's fetch. It ends without a throw iff every page succeeds |
| PdfProcessor.ProcessPdf | src/lib/pdf-processor.ts:21-108 | Loading, the page loop, the catch and the finally together return exactly the images and the trace of callbacks and clean-ups that `Process` gives for the document's behaviour |
| PdfProcessor.ErrorMessage | src/lib/pdf-processor.ts:83-99 | Every thrown value, whether or not it is classified as a password, encryption or format error, gives the message "Cannot access the uploaded PDF." |
| PdfProcessor.ImageOf | src/lib/pdf-processor.ts:62-70 | A stored image keeps the page's data URL. Its width and height times `RenderScale` (2) are the viewport's, so width/height equals the viewport's aspect ratio |
| PdfProcessor.FirstFailure | src/lib/pdf-processor.ts:40-59 | The number of leading pages that get through the loop body: all pages before it succeed, and the page at it (if any) throws at getPage, getContext or render |
| PdfProcessor.ImagesOf | src/lib/pdf-processor.ts:64-70 | The images of the first k pages: k of them, image i being page i+1's |
| PdfProcessor.PagesTrace | src/lib/pdf-processor.ts:40-82 | k successful iterations emit 4k events: event i is fetch, canvas clear, page cleanup or progress of page i/4+1, by i mod 4 |
| PdfProcessor.Canvas.Release | src/lib/pdf-processor.ts:72-75 | After release the canvas measures 0 × 0 |
| PdfProcessor.SuccessKeepsEveryPage | src/lib/pdf-processor.ts:37-107 | If loading succeeds and no page throws, exactly numPages images are returned, image i from page i+1, and no error is reported |
| PdfProcessor.ProgressInPageOrder | src/lib/pdf-processor.ts:40-81 | onPageProcessed fires once per completed page, in order (1,N), (2,N), …, and never if loading throws. On success it fires N times |
| PdfProcessor.ErrorReportedOnceOnFailure | src/lib/pdf-processor.ts:50-99 | onError fires exactly once, with the generic message, iff loading or some page throws, and then the result is empty. It never fires on the success path |
| PdfProcessor.DestroyedOnceWhenLoaded | src/lib/pdf-processor.ts:27-105 | The document is destroyed exactly once, as the last action, iff it was loaded, on both the success and the failure path |
| PdfProcessor.ReleasedBeforeReported | src/lib/pdf-processor.ts:40-81 | For each completed page n, the order is: fetch n, canvas cleared, page cleaned up, progress (n,N), then fetch n+1 |
| PdfProcessor.FailedPageNotReleased | src/lib/pdf-processor.ts:50-78 | When page k+1 throws, its canvas is never cleared and it is never cleaned up |
| PdfProcessor.CompletedPagesReleased | src/lib/pdf-processor.ts:72-78 | Every completed page had its canvas cleared and was cleaned up, whether or not a later page throws |
| PdfProcessor.EmptyDocumentIsQuiet | src/lib/pdf-processor.ts:37-107 | A zero-page document returns [] with no callback at all and is destroyed |
| PptxGenerator.Fit | src/lib/pptx-generator.ts:19-39 | For positive page sizes the image lies inside the 10 × 5.625 slide and keeps the page's aspect ratio. A wider page fills the width (x = 0); otherwise the image fills the height (y = 0). It is centred on both axes |
| PptxGenerator.FullBleedIffSameAspect | src/lib/pptx-generator.ts:27-38 | The image fills the whole slide at (0,0) iff the page has the slide's aspect ratio. Otherwise exactly one axis is full |
| PptxGenerator.FitIsContainScaled | src/lib/pptx-generator.ts:19-39 | The aspect comparison computes the contain rule: scale by min(10/w, 5.625/h), then centre |
| PptxGenerator.FitIsLargest | src/lib/pptx-generator.ts:19-39 | No larger image with the page's aspect ratio fits on the slide |
| PptxGenerator.LetterPagesOnWideSlide | src/lib/pptx-generator.ts:5-39 | A 10 × 5.625 page fills the slide. An 8.5 × 11 page gets height 5.625, width 765/176 and side margins 995/352 |
| PptxGenerator.Presentation.constructor | src/lib/pptx-generator.ts:9 | A new presentation has no slides, no defined layouts and the builder's default layout |
| PptxGenerator.Presentation.DefineLayout | src/lib/pptx-generator.ts:12 | Registers the layout under its name; the slides and the current layout are unchanged |
| PptxGenerator.Presentation.SelectLayout | src/lib/pptx-generator.ts:13 | The current layout becomes the one registered under the name |
| PptxGenerator.Presentation.AddSlide | src/lib/pptx-generator.ts:16 | Appends one empty slide and returns its position; earlier slides are unchanged |
| PptxGenerator.Presentation.AddImage | src/lib/pptx-generator.ts:41-47 | Adds the picture to that slide only |
| PptxGenerator.GeneratePptx | src/lib/pptx-generator.ts:8-53 | The deck has the fixed 10 × 5.625 layout for every input, and exactly one slide per page, in page order. Each slide holds that page's data URL unchanged at `Fit` of its size |
| Dropzone.Validate | src/components/Dropzone.tsx:18-35 | No error iff (type is application/pdf or the name ends with ".pdf") and size ≤ 52 428 800. A file failing the type test gets the type message even when it is also too large; otherwise the size message |
| Dropzone.TypeCheckedBeforeSize | src/components/Dropzone.tsx:22-30 | A non-PDF file that is also oversized gets "Only PDF files are accepted." |
| Dropzone.SizeLimitIsInclusive | src/components/Dropzone.tsx:6-29 | Exactly 50 MiB is accepted; 50 MiB + 1 is refused with the size message |
| Dropzone.ExtensionIsCaseSensitive | src/components/Dropzone.tsx:22 | "X.PDF" without the PDF type is refused; "X.pdf" is accepted |
| Dropzone.Zone.constructor | src/components/Dropzone.tsx:13-15 | A new zone is not highlighted, has no error and has accepted nothing |
| Dropzone.Zone.ValidateAndAccept | src/components/Dropzone.tsx:18-35 | The error is cleared, then set to `Validate(file)`. onFileAccepted is called once, with the file, exactly when no error was set, and otherwise never |
| Dropzone.Zone.HandleDragOver | src/components/Dropzone.tsx:37-44 | The zone is highlighted unless disabled; nothing else changes |
| Dropzone.Zone.HandleDragLeave | src/components/Dropzone.tsx:46-50 | The highlight is dropped |
| Dropzone.Zone.HandleDrop | src/components/Dropzone.tsx:52-66 | The highlight is off afterwards. When disabled, or with no file, nothing is validated or accepted. Otherwise only the first file is validated |
| Dropzone.Zone.HandleClick | src/components/Dropzone.tsx:68-72 | A click opens the file chooser once (one more click on the hidden input) when the zone is enabled, and does nothing when it is disabled. Highlight, error, accepted files and input value are unchanged |
| Dropzone.Zone.HandleFileChange | src/components/Dropzone.tsx:74-84 | Only the first chosen file is validated, and the input is cleared in every case |
| HomePage.OutputFileName | src/app/page.tsx:29 | The result ends in ".pptx". Before that suffix it holds the name, less one trailing ".pdf" in any case, which restores the name when appended |
| HomePage.OutputNameReplacesExtension | src/app/page.tsx:29 | base + ".pdf" in any letter case becomes base + ".pptx" |
| HomePage.OutputNameKeepsOtherNames | src/app/page.tsx:29 | A name without a ".pdf" ending just gains ".pptx" |
| HomePage.OutputNameIgnoresCase | src/app/page.tsx:29 | the extension match ignores case: "a.PDF" → "a.pptx" |
| HomePage.OutputNameReplacesLastOnly | src/app/page.tsx:29 | only the trailing extension goes: "a.pdf.pdf" → "a.pdf.pptx" |
| HomePage.OutputNameAppendsWithoutExtension | src/app/page.tsx:29 | a name without the extension keeps every character: "deck" → "deck.pptx" |
| HomePage.Home.constructor | src/app/page.tsx:12-20 | The page starts idle with zero counters, no error, no result, the name "presentation.pptx" and status converting |
| HomePage.Home.BeginConversion | src/app/page.tsx:23-29 | On accepting a file: processing, both counters 0, error and result cleared, status converting, output name derived |
| HomePage.Home.HandleFileAccepted | src/app/page.tsx:22-76 | The final state is `AfterConversion` of the file name and the environment: callbacks replayed in order, then the empty-result check, the generation step and the catch |
| HomePage.Home.Fail | src/app/page.tsx:72-75 | Sets the generic message and the error state; nothing else changes |
| HomePage.Home.HandleReset | src/app/page.tsx:78-85 | Idle, both counters 0, error and result cleared, status converting; the file name is unchanged |
| HomePage.ReplayEffects | src/app/page.tsx:44-53 | Callbacks never reach "done" and never touch the result, the name or the status. The state is "error" with the generic message iff some callback reported an error |
| HomePage.ReplayProgress | src/app/page.tsx:44-48 | After progress callbacks the counters show the last call's arguments, and lastTotalPages its total |
| HomePage.EmptyResultEndsInError | src/app/page.tsx:49-63 | An empty image list ends in "error" with "Cannot access the uploaded PDF." and no result, whether or not an error was reported. The generator never influences the outcome |
| HomePage.DoneOnlyWithResult | src/app/page.tsx:47-71 | "done" only after images came back and the generator produced a deck, which is then the stored result. Status is "generating" and currentPage is the last reported total |
| HomePage.ThrowsEndInError | src/app/page.tsx:34-75 | Any throw (reading, importing, processing, generating) ends in "error" with the generic message, keeping the derived name |
| HomePage.RunCallbacks | src/lib/pdf-processor.ts:40-99 | The callbacks processPdf makes: progress (i+1, N) for each completed page, then one generic error iff a step threw |
| HomePage.EndingCallbacks | src/lib/pdf-processor.ts:83-105 | The end of a loaded run adds no callback after a clean run and exactly one generic error report after a failing page |
| HomePage.CleanRunEndsDone | src/app/page.tsx:43-71 | A run that reports pages 1..n of n without error and returns n > 0 images ends "done" with the deck, no error and both counters at n |
| HomePage.ConvertEndToEnd | src/app/page.tsx:43-71 | With the modelled processor the page ends "done" iff the PDF loads, has ≥ 1 page and no page throws. It then stores the deck with no error and both counters at N. Otherwise it ends in "error" with the generic message |

## Left out

- pdf.js itself: parsing, password and encryption detection, glyph rendering and the worker set-up at src/lib/pdf-processor.ts:4-6. The value `DocumentBehaviour` stands in for it.
- Canvas pixels and JPEG encoding (`toDataURL`): a data URL is an opaque string given by `DocumentBehaviour`. `getContext` succeeding or not is a flag of each page.
- The canvas object's integer sizing: `Canvas` keeps the viewport size as a real.
- pptxgenjs serialisation (`pptx.write`): the blob is modelled by the `Deck` it would package. Slide objects are designated by their position in the slide list, not as references.
- PptxGenerator.Fit: requires a positive page width and height. JavaScript's Infinity and NaN for a zero or negative size are not modelled. PptxGenerator.GeneratePptx requires the same of every page for the same reason. Sizes from pdf.js viewports are positive.
- IEEE-754 rounding: all lengths are exact reals, so no floating-point error is bounded.
- async/await scheduling and React's batching of state updates: every await is a sequential step, and every state setter takes effect at once.
- HomePage.Home.HandleFileAccepted: `file.arrayBuffer()` and the two dynamic imports are one flag, `prepared`. The processor and the generator are inputs, not calls; `ConvertEndToEnd` plugs the processor model in.
- Rendering: the progress bar (src/components/ProgressBar.tsx), the download button (src/components/DownloadButton.tsx), the JSX of src/app/page.tsx:87-180 and src/components/Dropzone.tsx:86-169, styling, and next.config.ts.
- `preventDefault`/`stopPropagation` on drag events are browser I/O. The chooser dialog itself is left out: `HandleClick` counts the clicks on the hidden input in `chooserOpened`, and the input is taken to be mounted (the `inputRef.current?` null case is not modelled).
