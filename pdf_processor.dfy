/**
 * The page-processing loop of the converter: open a PDF, render every page
 * in turn at twice its size, keep one JPEG data URL per page together with
 * the page's size, free the per-page resources, report progress, and on any
 * exception report one generic error and return nothing. The document is
 * destroyed on every exit once it has been opened.
 *
 * pdf.js is not modelled: a `DocumentBehaviour` value says what each call
 * into it yields or throws. The two callbacks, the canvas and page clean-up
 * and the final destroy are recorded, in the order they happen, as a trace
 * of `Event`s that `ProcessPdf` returns beside the images.
 */
module PdfProcessor {
  import opened Wrappers

  /** Every page is rendered at this scale; stored sizes are divided by it again. */
  const RenderScale: real := 2.0

  /** The only message the error callback ever receives. */
  const AccessMessage: string := "Cannot access the uploaded PDF."

  /** The message of the error thrown when a canvas has no 2D context. */
  const NoContextMessage: string := "Failed to get canvas 2D context."

  /** The message used when the thrown value is not an `Error`. */
  const UnknownMessage: string := "Unknown error occurred"

  /** A JPEG data URL as produced by the canvas; its content is opaque here. */
  type DataUrl = string

  /**
   * One rendered page: its image and its size in PDF points (the scale-1
   * viewport size). Only the ratio width / height is used downstream.
   */
  datatype PageImage = PageImage(dataUrl: DataUrl, width: real, height: real)

  /** The size of a page's viewport at `RenderScale`. */
  datatype Viewport = Viewport(width: real, height: real)

  /** What a failing call throws: an `Error` carrying a message, or any other value. */
  datatype Thrown = ErrorValue(message: string) | OtherValue

  /** What `page.render(...)` and the following `toDataURL` yield for one page. */
  datatype RenderBehaviour = RenderThrows(thrown: Thrown) | RenderYields(dataUrl: DataUrl)

  /** What pdf.js and the canvas do for one page. */
  datatype PageBehaviour =
    | GetPageThrows(thrown: Thrown)
    | PageOpens(viewport: Viewport, hasContext: bool, render: RenderBehaviour)

  /** What loading the document does: it throws, or it yields pages 1..N in order. */
  datatype DocumentBehaviour =
    | LoadThrows(thrown: Thrown)
    | Loads(pages: seq<PageBehaviour>)

  /** The observable actions of one run, in the order they happen. */
  datatype Event =
    | FetchPage(pageNum: nat)                 // pdfDoc.getPage(pageNum) is called
    | CanvasCleared(pageNum: nat)             // the page's canvas is cleared and sized 0 x 0
    | PageCleanedUp(pageNum: nat)             // page.cleanup() is called
    | PageProcessed(current: nat, total: nat) // callbacks.onPageProcessed(current, total)
    | ErrorReported(message: string)          // callbacks.onError(message)
    | DocumentDestroyed                       // pdfDoc.destroy()

  /** What a call of `ProcessPdf` returns and does. */
  datatype Outcome = Outcome(images: seq<PageImage>, trace: seq<Event>)

  /** An offscreen canvas; only its size is modelled. */
  class Canvas {
    var width: real
    var height: real

    constructor (width: real, height: real)
      ensures this.width == width && this.height == height
    {
      this.width := width;
      this.height := height;
    }

    /** Clears the pixels and shrinks the canvas to 0 x 0 so its buffer can be freed. */
    method Release()
      modifies this
      ensures width == 0.0 && height == 0.0
    {
      width := 0.0;
      height := 0.0;
    }
  }

  /** `haystack.includes(needle)`. */
  predicate Contains(haystack: string, needle: string)
    decreases |haystack|
  {
    |needle| <= |haystack| &&
    (haystack[..|needle|] == needle || Contains(haystack[1..], needle))
  }

  /** The message names a password, encryption or format problem. */
  predicate AccessProblem(message: string) {
    Contains(message, "password") || Contains(message, "encrypted")
    || Contains(message, "Invalid PDF") || Contains(message, "Missing PDF")
  }

  /**
   * The message handed to the error callback for an exception. The source
   * tells password, encryption and format errors apart from the rest, but
   * gives both kinds the same message.
   */
  function ErrorMessage(t: Thrown): (m: string)
    ensures m == AccessMessage
  {
    var message := match t
      case ErrorValue(msg) => msg
      case OtherValue => UnknownMessage;
    if AccessProblem(message) then AccessMessage else AccessMessage
  }

  /** A page goes through the loop body without throwing. */
  predicate PageSucceeds(p: PageBehaviour) {
    p.PageOpens? && p.hasContext && p.render.RenderYields?
  }

  /** What a failing page throws. */
  function PageFailure(p: PageBehaviour): Thrown
    requires !PageSucceeds(p)
  {
    match p
    case GetPageThrows(t) => t
    case PageOpens(_, hasContext, render) =>
      if !hasContext then ErrorValue(NoContextMessage) else render.thrown
  }

  /** The image stored for a page that renders. */
  function ImageOf(p: PageBehaviour): (img: PageImage)
    requires PageSucceeds(p)
    ensures img.dataUrl == p.render.dataUrl
    ensures img.width * RenderScale == p.viewport.width
    ensures img.height * RenderScale == p.viewport.height
    ensures p.viewport.height != 0.0 ==>
              img.height != 0.0 && img.width / img.height == p.viewport.width / p.viewport.height
  {
    var img := PageImage(p.render.dataUrl, p.viewport.width / RenderScale, p.viewport.height / RenderScale);
    if p.viewport.height == 0.0 then img
    else AspectUnchangedByHalving(p.viewport.width, p.viewport.height); img
  }

  /** Dividing both sides by the render scale keeps their ratio. */
  lemma AspectUnchangedByHalving(w: real, h: real)
    requires h != 0.0
    ensures (w / RenderScale) / (h / RenderScale) == w / h
  {
    var a := w / RenderScale;
    var b := h / RenderScale;
    assert a == w / 2.0 && b == h / 2.0;
    assert a * 2.0 == w && b * 2.0 == h;
    assert (a / b) * h == (a / b) * (b * 2.0) == a * 2.0;
  }

  /**
   * The number of pages, counted from page 1, that go through the loop body
   * without throwing: the index of the first failing page, or N.
   */
  function FirstFailure(pages: seq<PageBehaviour>): (k: nat)
    ensures k <= |pages|
    ensures forall i :: 0 <= i < k ==> PageSucceeds(pages[i])
    ensures k < |pages| ==> !PageSucceeds(pages[k])
  {
    if pages == [] || !PageSucceeds(pages[0]) then 0
    else 1 + FirstFailure(pages[1..])
  }

  /** The images of the first `k` pages, in page order. */
  function ImagesOf(pages: seq<PageBehaviour>, k: nat): (images: seq<PageImage>)
    requires k <= |pages|
    requires forall i :: 0 <= i < k ==> PageSucceeds(pages[i])
    ensures |images| == k
    ensures forall i :: 0 <= i < k ==> images[i] == ImageOf(pages[i])
  {
    if k == 0 then [] else ImagesOf(pages, k - 1) + [ImageOf(pages[k - 1])]
  }

  /** What one iteration of the loop does for page `n` of `total` when it succeeds. */
  function PageEvents(n: nat, total: nat): seq<Event> {
    [FetchPage(n), CanvasCleared(n), PageCleanedUp(n), PageProcessed(n, total)]
  }

  /** The event at position `i` of the trace of successful iterations. */
  function PageEventAt(i: nat, total: nat): Event {
    var n := i / 4 + 1;
    if i % 4 == 0 then FetchPage(n)
    else if i % 4 == 1 then CanvasCleared(n)
    else if i % 4 == 2 then PageCleanedUp(n)
    else PageProcessed(n, total)
  }

  /** The events of the first `k` iterations of the loop, all successful. */
  function PagesTrace(total: nat, k: nat): (t: seq<Event>)
    ensures |t| == 4 * k
    ensures forall i :: 0 <= i < |t| ==> t[i] == PageEventAt(i, total)
  {
    if k == 0 then []
    else
      var before := PagesTrace(total, k - 1);
      assert forall i :: 4 * (k - 1) <= i < 4 * k ==> i / 4 == k - 1 && i % 4 == i - 4 * (k - 1);
      before + PageEvents(k, total)
  }

  /** The whole run of `processPdf` against the behaviour of pdf.js. */
  function Process(doc: DocumentBehaviour): Outcome {
    match doc
    case LoadThrows(t) =>
      Outcome([], [ErrorReported(ErrorMessage(t))])
    case Loads(pages) =>
      var n := |pages|;
      var k := FirstFailure(pages);
      if k == n then
        Outcome(ImagesOf(pages, n), PagesTrace(n, n) + [DocumentDestroyed])
      else
        Outcome([], PagesTrace(n, k)
                    + [FetchPage(k + 1), ErrorReported(ErrorMessage(PageFailure(pages[k]))), DocumentDestroyed])
  }

  /** Some step threw: loading, or one of the pages. */
  predicate Fails(doc: DocumentBehaviour) {
    doc.LoadThrows? || FirstFailure(doc.pages) < |doc.pages|
  }

  /** How many pages were processed completely before the run ended. */
  function Completed(doc: DocumentBehaviour): nat {
    if doc.LoadThrows? then 0 else FirstFailure(doc.pages)
  }

  /** The page count pdf.js reports, or 0 when loading throws. */
  function TotalPages(doc: DocumentBehaviour): nat {
    if doc.LoadThrows? then 0 else |doc.pages|
  }

  /**
   * The page loop of `processPdf` (the body of its try block once the
   * document is open): pages 1..N in order, each fetched, rendered, its
   * image kept, its canvas and page released and its progress reported.
   * The first page that throws ends the loop, `thrown` holding what it threw.
   */
  method RenderPages(pages: seq<PageBehaviour>)
    returns (images: seq<PageImage>, trace: seq<Event>, thrown: Option<Thrown>)
    ensures FirstFailure(pages) == |pages| ==>
              && thrown == None
              && images == ImagesOf(pages, |pages|)
              && trace == PagesTrace(|pages|, |pages|)
    ensures FirstFailure(pages) < |pages| ==>
              && thrown == Some(PageFailure(pages[FirstFailure(pages)]))
              && images == ImagesOf(pages, FirstFailure(pages))
              && trace == PagesTrace(|pages|, FirstFailure(pages)) + [FetchPage(FirstFailure(pages) + 1)]
  {
    images := [];
    trace := [];
    thrown := None;
    var totalPages := |pages|;
    var pageNum := 1;
    while pageNum <= totalPages && thrown == None
      invariant 1 <= pageNum <= totalPages + 1
      invariant pageNum - 1 <= FirstFailure(pages)
      invariant images == ImagesOf(pages, pageNum - 1)
      invariant thrown == None ==> trace == PagesTrace(totalPages, pageNum - 1)
      invariant thrown != None ==>
                  && pageNum - 1 == FirstFailure(pages) < totalPages
                  && thrown.value == PageFailure(pages[pageNum - 1])
                  && trace == PagesTrace(totalPages, pageNum - 1) + [FetchPage(pageNum)]
      decreases totalPages + 1 - pageNum, if thrown == None then 1 else 0
    {
      trace := trace + [FetchPage(pageNum)];
      match pages[pageNum - 1] {
        case GetPageThrows(t) =>
          thrown := Some(t);
        case PageOpens(viewport, hasContext, render) =>
          var canvas := new Canvas(viewport.width, viewport.height);
          if !hasContext {
            thrown := Some(ErrorValue(NoContextMessage));
          } else if render.RenderThrows? {
            thrown := Some(render.thrown);
          } else {
            var image := PageImage(render.dataUrl,
                                   viewport.width / RenderScale,
                                   viewport.height / RenderScale);
            assert image == ImageOf(pages[pageNum - 1]);
            images := images + [image];
            canvas.Release();
            assert canvas.width == 0.0 && canvas.height == 0.0;
            trace := trace + [CanvasCleared(pageNum)];
            trace := trace + [PageCleanedUp(pageNum)];
            trace := trace + [PageProcessed(pageNum, totalPages)];
            assert trace == PagesTrace(totalPages, pageNum - 1) + PageEvents(pageNum, totalPages);
            pageNum := pageNum + 1;
          }
      }
    }
  }

  /**
   * `processPdf`: open the document, run the page loop inside try/catch/
   * finally. On any exception the catch block reports the error once and
   * drops the images; the finally block destroys the document when it was
   * opened.
   */
  method ProcessPdf(doc: DocumentBehaviour) returns (images: seq<PageImage>, trace: seq<Event>)
    ensures Outcome(images, trace) == Process(doc)
  {
    images := [];
    trace := [];
    var pdfDoc: Option<seq<PageBehaviour>> := None;
    var thrown: Option<Thrown> := None;
    match doc {
      case LoadThrows(t) =>
        thrown := Some(t);
      case Loads(pages) =>
        pdfDoc := Some(pages);
        images, trace, thrown := RenderPages(pages);
    }
    if thrown.Some? {
      trace := trace + [ErrorReported(ErrorMessage(thrown.value))];
      images := [];
    }
    if pdfDoc.Some? {
      trace := trace + [DocumentDestroyed];
    }
  }

  // ---------------------------------------------------------------------
  // Reading the trace: what each callback and clean-up step received.
  // ---------------------------------------------------------------------

  /** The concatenation of `pick(e)` over the events `e` of `t`, in order. */
  function Collect<T>(t: seq<Event>, pick: Event -> seq<T>): seq<T> {
    if t == [] then [] else pick(t[0]) + Collect(t[1..], pick)
  }

  /** The arguments of an `onPageProcessed` call. */
  function ReportOf(e: Event): seq<(nat, nat)> {
    if e.PageProcessed? then [(e.current, e.total)] else []
  }

  /** The argument of an `onError` call. */
  function ErrorOf(e: Event): seq<string> {
    if e.ErrorReported? then [e.message] else []
  }

  /** A call of `destroy()`. */
  function DestroyOf(e: Event): seq<Event> {
    if e.DocumentDestroyed? then [e] else []
  }

  /** The arguments of every `onPageProcessed` call, in call order. */
  function Reports(t: seq<Event>): seq<(nat, nat)> {
    Collect(t, ReportOf)
  }

  /** The argument of every `onError` call, in call order. */
  function Errors(t: seq<Event>): seq<string> {
    Collect(t, ErrorOf)
  }

  /** How often the document is destroyed. */
  function Destructions(t: seq<Event>): nat {
    |Collect(t, DestroyOf)|
  }

  lemma {:induction false} CollectAppend<T>(a: seq<Event>, b: seq<Event>, pick: Event -> seq<T>)
    ensures Collect(a + b, pick) == Collect(a, pick) + Collect(b, pick)
  {
    if a == [] {
      assert a + b == b;
    } else {
      assert (a + b)[1..] == a[1..] + b;
      CollectAppend(a[1..], b, pick);
    }
  }

  lemma CollectThree<T>(a: Event, b: Event, c: Event, pick: Event -> seq<T>)
    ensures Collect([a, b, c], pick) == pick(a) + pick(b) + pick(c)
  {
    assert [c][1..] == [];
    assert Collect([c], pick) == pick(c) + Collect([], pick) == pick(c);
    assert [b, c][1..] == [c];
    assert Collect([b, c], pick) == pick(b) + pick(c);
    assert [a, b, c][1..] == [b, c];
  }

  lemma CollectFour<T>(a: Event, b: Event, c: Event, d: Event, pick: Event -> seq<T>)
    ensures Collect([a, b, c, d], pick) == pick(a) + pick(b) + pick(c) + pick(d)
  {
    assert [a, b, c, d][1..] == [b, c, d];
    CollectThree(b, c, d, pick);
  }

  /** The successful iterations report pages 1..k, each with the total. */
  lemma {:induction false} PagesTraceReports(total: nat, k: nat)
    ensures |Reports(PagesTrace(total, k))| == k
    ensures forall i :: 0 <= i < k ==> Reports(PagesTrace(total, k))[i] == (i + 1, total)
  {
    if k > 0 {
      PagesTraceReports(total, k - 1);
      CollectAppend(PagesTrace(total, k - 1), PageEvents(k, total), ReportOf);
      CollectFour(FetchPage(k), CanvasCleared(k), PageCleanedUp(k), PageProcessed(k, total), ReportOf);
    }
  }

  /** The successful iterations report no error and never destroy the document. */
  lemma {:induction false} PagesTraceQuiet(total: nat, k: nat)
    ensures Errors(PagesTrace(total, k)) == []
    ensures Destructions(PagesTrace(total, k)) == 0
  {
    if k > 0 {
      PagesTraceQuiet(total, k - 1);
      var block := PageEvents(k, total);
      CollectAppend(PagesTrace(total, k - 1), block, ErrorOf);
      CollectAppend(PagesTrace(total, k - 1), block, DestroyOf);
      CollectFour(FetchPage(k), CanvasCleared(k), PageCleanedUp(k), PageProcessed(k, total), ErrorOf);
      CollectFour(FetchPage(k), CanvasCleared(k), PageCleanedUp(k), PageProcessed(k, total), DestroyOf);
    }
  }

  // ---------------------------------------------------------------------
  // Properties of a run.
  // ---------------------------------------------------------------------

  /**
   * When loading succeeds and no page throws, one image is returned per page,
   * image i coming from page i + 1, and no error is reported.
   */
  lemma SuccessKeepsEveryPage(doc: DocumentBehaviour)
    requires !Fails(doc)
    ensures |Process(doc).images| == |doc.pages|
    ensures forall i :: 0 <= i < |doc.pages| ==>
              && PageSucceeds(doc.pages[i])
              && Process(doc).images[i] == ImageOf(doc.pages[i])
    ensures Errors(Process(doc).trace) == []
  {
    var n := |doc.pages|;
    PagesTraceQuiet(n, n);
    CollectAppend(PagesTrace(n, n), [DocumentDestroyed], ErrorOf);
  }

  /**
   * Progress is reported once for each completed page, in page order, with
   * the first argument counting up from 1 and the second always the page
   * count; a document that fails to load reports no progress.
   */
  lemma ProgressInPageOrder(doc: DocumentBehaviour)
    ensures |Reports(Process(doc).trace)| == Completed(doc)
    ensures forall i :: 0 <= i < Completed(doc) ==>
              Reports(Process(doc).trace)[i] == (i + 1, TotalPages(doc))
    ensures !Fails(doc) ==> Completed(doc) == TotalPages(doc)
  {
    match doc
    case LoadThrows(t) =>
      assert Reports(Process(doc).trace) == Collect([ErrorReported(ErrorMessage(t))][1..], ReportOf);
    case Loads(pages) =>
      var n := |pages|;
      var k := FirstFailure(pages);
      var tail := if k == n then [DocumentDestroyed]
                  else [FetchPage(k + 1), ErrorReported(ErrorMessage(PageFailure(pages[k]))), DocumentDestroyed];
      assert Process(doc).trace == PagesTrace(n, k) + tail;
      PagesTraceReports(n, k);
      CollectAppend(PagesTrace(n, k), tail, ReportOf);
      if k < n {
        CollectThree(tail[0], tail[1], tail[2], ReportOf);
      } else {
        assert tail[1..] == [];
      }
  }

  /**
   * A run reports exactly one error, always the generic message, when and
   * only when some step threw, and then returns no image.
   */
  lemma ErrorReportedOnceOnFailure(doc: DocumentBehaviour)
    ensures Errors(Process(doc).trace) == if Fails(doc) then [AccessMessage] else []
    ensures Fails(doc) ==> Process(doc).images == []
  {
    match doc
    case LoadThrows(t) =>
      assert Errors(Process(doc).trace) == [AccessMessage] + Collect([ErrorReported(ErrorMessage(t))][1..], ErrorOf);
    case Loads(pages) =>
      var n := |pages|;
      var k := FirstFailure(pages);
      PagesTraceQuiet(n, k);
      if k == n {
        CollectAppend(PagesTrace(n, k), [DocumentDestroyed], ErrorOf);
      } else {
        var tail := [FetchPage(k + 1), ErrorReported(ErrorMessage(PageFailure(pages[k]))), DocumentDestroyed];
        CollectAppend(PagesTrace(n, k), tail, ErrorOf);
        CollectThree(tail[0], tail[1], tail[2], ErrorOf);
      }
  }

  /**
   * The document is destroyed exactly once, as the very last action, when it
   * was loaded, whether or not a page failed; it is never destroyed when
   * loading threw.
   */
  lemma DestroyedOnceWhenLoaded(doc: DocumentBehaviour)
    ensures Destructions(Process(doc).trace) == if doc.Loads? then 1 else 0
    ensures doc.Loads? ==> Process(doc).trace[|Process(doc).trace| - 1] == DocumentDestroyed
  {
    match doc
    case LoadThrows(t) =>
      assert Collect([ErrorReported(ErrorMessage(t))][1..], DestroyOf) == [];
    case Loads(pages) =>
      var n := |pages|;
      var k := FirstFailure(pages);
      PagesTraceQuiet(n, k);
      if k == n {
        CollectAppend(PagesTrace(n, k), [DocumentDestroyed], DestroyOf);
      } else {
        var tail := [FetchPage(k + 1), ErrorReported(ErrorMessage(PageFailure(pages[k]))), DocumentDestroyed];
        CollectAppend(PagesTrace(n, k), tail, DestroyOf);
        CollectThree(tail[0], tail[1], tail[2], DestroyOf);
      }
  }

  /** Iteration n of the successful iterations occupies positions 4n - 4 .. 4n - 1. */
  lemma PagesTraceBlock(total: nat, k: nat, n: nat)
    requires 1 <= n <= k
    ensures PagesTrace(total, k)[4 * n - 4] == FetchPage(n)
    ensures PagesTrace(total, k)[4 * n - 3] == CanvasCleared(n)
    ensures PagesTrace(total, k)[4 * n - 2] == PageCleanedUp(n)
    ensures PagesTrace(total, k)[4 * n - 1] == PageProcessed(n, total)
  {
    var i := 4 * n - 4;
    assert i / 4 + 1 == n && i % 4 == 0;
    assert (i + 1) / 4 + 1 == n && (i + 1) % 4 == 1;
    assert (i + 2) / 4 + 1 == n && (i + 2) % 4 == 2;
    assert (i + 3) / 4 + 1 == n && (i + 3) % 4 == 3;
  }

  /**
   * A run that stops at page k + 1 never releases that page: neither the
   * successful iterations before it nor the steps that end the run do.
   */
  lemma FailedRunKeepsPage(total: nat, k: nat)
    ensures var t := PagesTrace(total, k) + [FetchPage(k + 1), ErrorReported(AccessMessage), DocumentDestroyed];
            CanvasCleared(k + 1) !in t && PageCleanedUp(k + 1) !in t
  {
    var prefix := PagesTrace(total, k);
    forall i | 0 <= i < |prefix|
      ensures prefix[i] != CanvasCleared(k + 1) && prefix[i] != PageCleanedUp(k + 1)
    {
      assert i / 4 < k;
    }
  }

  /** The trace of a loaded document: the successful iterations, then what ends the run. */
  lemma LoadedTrace(doc: DocumentBehaviour)
    requires doc.Loads?
    ensures var k := FirstFailure(doc.pages);
            Process(doc).trace
              == PagesTrace(|doc.pages|, k)
                 + if k == |doc.pages| then [DocumentDestroyed]
                   else [FetchPage(k + 1), ErrorReported(AccessMessage), DocumentDestroyed]
  {
    var k := FirstFailure(doc.pages);
    if k < |doc.pages| {
      assert ErrorMessage(PageFailure(doc.pages[k])) == AccessMessage;
    }
  }

  /**
   * For every completed page n, the canvas is cleared and the page cleaned up
   * after the page is fetched and before its progress report, and the next
   * page is fetched only after that report.
   */
  lemma ReleasedBeforeReported(doc: DocumentBehaviour, n: nat)
    requires 1 <= n <= Completed(doc)
    ensures 4 * n <= |Process(doc).trace|
    ensures Process(doc).trace[4 * n - 4] == FetchPage(n)
    ensures Process(doc).trace[4 * n - 3] == CanvasCleared(n)
    ensures Process(doc).trace[4 * n - 2] == PageCleanedUp(n)
    ensures Process(doc).trace[4 * n - 1] == PageProcessed(n, TotalPages(doc))
    ensures n < TotalPages(doc) ==> Process(doc).trace[4 * n] == FetchPage(n + 1)
  {
    var k := FirstFailure(doc.pages);
    var prefix := PagesTrace(|doc.pages|, k);
    LoadedTrace(doc);
    PagesTraceBlock(|doc.pages|, k, n);
    assert Process(doc).trace[..4 * k] == prefix;
    if n < k {
      PagesTraceBlock(|doc.pages|, k, n + 1);
    }
  }

  /** Every completed page had its canvas cleared and was cleaned up. */
  lemma CompletedPagesReleased(doc: DocumentBehaviour)
    ensures forall n :: 1 <= n <= Completed(doc) ==>
              CanvasCleared(n) in Process(doc).trace && PageCleanedUp(n) in Process(doc).trace
  {
    var t := Process(doc).trace;
    forall n | 1 <= n <= Completed(doc)
      ensures CanvasCleared(n) in t && PageCleanedUp(n) in t
    {
      ReleasedBeforeReported(doc, n);
      assert t[4 * n - 3] == CanvasCleared(n) && t[4 * n - 2] == PageCleanedUp(n);
    }
  }

  /**
   * When page k + 1 throws, its canvas is never cleared and the page never
   * cleaned up: the per-page release happens only on the success path.
   */
  lemma FailedPageNotReleased(doc: DocumentBehaviour)
    requires doc.Loads? && Fails(doc)
    ensures CanvasCleared(Completed(doc) + 1) !in Process(doc).trace
    ensures PageCleanedUp(Completed(doc) + 1) !in Process(doc).trace
  {
    LoadedTrace(doc);
    FailedRunKeepsPage(|doc.pages|, FirstFailure(doc.pages));
  }

  /** A document without pages yields no image and no callback, and is destroyed. */
  lemma EmptyDocumentIsQuiet()
    ensures Process(Loads([])) == Outcome([], [DocumentDestroyed])
  {
    assert PagesTrace(0, 0) == [];
  }
}
