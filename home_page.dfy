/**
 * The conversion controller of the home page: a four-state machine (idle,
 * processing, done, error) driven by an accepted file. Accepting a file
 * resets the progress, derives the output name, runs the PDF processor
 * (whose callbacks update the progress or record an error), and, when at
 * least one page image came back, generates the deck and offers it for
 * download. Any exception, and an empty image list without a reported
 * error, ends in the error state with one generic message.
 *
 * The processor and the generator are inputs here (`Conversion`): the
 * callbacks the processor made, in order, and what it returned or that it
 * threw; and the deck the generator produced or that it threw.
 */
module HomePage {
  import opened Wrappers
  import PdfProcessor
  import PptxGenerator
  import Dropzone

  /** The message shown for every failure the page handles itself. */
  const GenericMessage: string := PdfProcessor.AccessMessage

  /** The file name offered before any file was converted. */
  const DefaultFileName: string := "presentation.pptx"

  datatype AppState = Idle | Processing | Done | Error

  datatype ProgressStatus = Converting | Generating

  /** The generated package, modelled by the deck it holds. */
  type Blob = PptxGenerator.Deck

  /** The page's seven state variables. */
  datatype View = View(
    state: AppState,
    currentPage: nat,
    totalPages: nat,
    errorMessage: Option<string>,
    resultBlob: Option<Blob>,
    fileName: string,
    progressStatus: ProgressStatus)

  /** A call the processor makes back into the page. */
  datatype Callback =
    | PageDone(current: nat, total: nat)   // onPageProcessed(current, total)
    | ErrorCalled(message: string)         // onError(message)

  /** What the awaited `processPdf` call does: the callbacks it makes, then its result or a throw. */
  datatype ProcessorRun =
    | Returned(callbacks: seq<Callback>, images: seq<PdfProcessor.PageImage>)
    | Threw(callbacks: seq<Callback>)

  /** What the awaited `generatePptx` call does. */
  datatype Generation = Generated(blob: Blob) | GenerationThrows

  /**
   * The environment of one conversion. `prepared` says whether reading the
   * file and loading the two library modules succeed.
   */
  datatype Conversion = Conversion(prepared: bool, run: ProcessorRun, generation: Generation)

  /** The state variables together with the two locals the callbacks write. */
  datatype Session = Session(view: View, hadError: bool, lastTotalPages: nat)

  // ---------------------------------------------------------------------
  // The output file name.
  // ---------------------------------------------------------------------

  /** ASCII lower-casing, the case folding of a case-insensitive match on "pdf". */
  function LowerAscii(c: char): char {
    if 'A' <= c <= 'Z' then (c as int + 32) as char else c
  }

  /** `ext` is ".pdf" in any letter case. */
  predicate IsPdfExtension(ext: string) {
    |ext| == 4 && forall i :: 0 <= i < 4 ==> LowerAscii(ext[i]) == ".pdf"[i]
  }

  /** `name` matches `/\.pdf$/i`. */
  predicate HasPdfExtension(name: string) {
    |name| >= 4 && IsPdfExtension(name[|name| - 4..])
  }

  /**
   * `name.replace(/\.pdf$/i, "") + ".pptx"`. The result ends in ".pptx",
   * and what precedes that suffix, followed by the removed extension (if
   * any), gives back the input name.
   */
  function OutputFileName(name: string): (r: string)
    ensures |r| >= 5 && r[|r| - 5..] == ".pptx"
    ensures HasPdfExtension(name) ==> r[..|r| - 5] + name[|name| - 4..] == name
    ensures !HasPdfExtension(name) ==> r[..|r| - 5] == name
  {
    var stem := if HasPdfExtension(name) then name[..|name| - 4] else name;
    assert (stem + ".pptx")[..|stem|] == stem;
    stem + ".pptx"
  }

  /** One ".pdf" extension, in any letter case, is replaced; the rest of the name is kept. */
  lemma {:induction false} OutputNameReplacesExtension(base: string, ext: string)
    requires IsPdfExtension(ext)
    ensures OutputFileName(base + ext) == base + ".pptx"
  {
    var name := base + ext;
    assert name[|name| - 4..] == ext;
    assert name[..|name| - 4] == base;
  }

  /** A name without a ".pdf" extension keeps all its characters. */
  lemma OutputNameKeepsOtherNames(name: string)
    requires !HasPdfExtension(name)
    ensures OutputFileName(name) == name + ".pptx"
  {
  }

  /** The extension is matched in any letter case: "a.PDF" becomes "a.pptx". */
  lemma OutputNameIgnoresCase()
    ensures OutputFileName("a.PDF") == "a.pptx"
  {
    assert IsPdfExtension(".PDF") by {
      assert LowerAscii('P') == 'p' && LowerAscii('D') == 'd' && LowerAscii('F') == 'f';
    }
    OutputNameReplacesExtension("a", ".PDF");
    assert "a" + ".PDF" == "a.PDF";
  }

  /** Only the last ".pdf" is replaced: "a.pdf.pdf" becomes "a.pdf.pptx". */
  lemma OutputNameReplacesLastOnly()
    ensures OutputFileName("a.pdf.pdf") == "a.pdf.pptx"
  {
    assert IsPdfExtension(".pdf");
    OutputNameReplacesExtension("a.pdf", ".pdf");
    assert "a.pdf" + ".pdf" == "a.pdf.pdf";
  }

  /** A name without the extension gains ".pptx": "deck" becomes "deck.pptx". */
  lemma OutputNameAppendsWithoutExtension()
    ensures OutputFileName("deck") == "deck.pptx"
  {
    var name := "deck";
    assert !HasPdfExtension(name) by {
      assert name[|name| - 4..] == name;
      assert LowerAscii(name[0]) == 'd' != ".pdf"[0];
    }
    OutputNameKeepsOtherNames(name);
    assert name + ".pptx" == "deck.pptx";
  }

  // ---------------------------------------------------------------------
  // The transitions.
  // ---------------------------------------------------------------------

  /** What lines 23-29 set when a file is accepted; every field is written. */
  function Started(name: string): View {
    View(Processing, 0, 0, None, None, OutputFileName(name), Converting)
  }

  /** The catch block, and the empty-result branch without a reported error. */
  function Failed(v: View): View {
    v.(errorMessage := Some(GenericMessage), state := Error)
  }

  /** The effect of one callback. */
  function OnCallback(s: Session, cb: Callback): Session {
    match cb
    case PageDone(current, total) =>
      s.(view := s.view.(currentPage := current, totalPages := total), lastTotalPages := total)
    case ErrorCalled(message) =>
      s.(hadError := true, view := s.view.(errorMessage := Some(message), state := Error))
  }

  /** The effect of a sequence of callbacks, applied in order. */
  function Replay(s: Session, cbs: seq<Callback>): Session {
    if cbs == [] then s else OnCallback(Replay(s, cbs[..|cbs| - 1]), cbs[|cbs| - 1])
  }

  /** The view after `handleFileAccepted` for a file of the given name has finished. */
  function AfterConversion(name: string, conv: Conversion): View {
    var start := Session(Started(name), false, 0);
    if !conv.prepared then Failed(start.view)
    else
      match conv.run
      case Threw(cbs) => Failed(Replay(start, cbs).view)
      case Returned(cbs, images) =>
        var s := Replay(start, cbs);
        if |images| == 0 then
          if s.hadError then s.view else Failed(s.view)
        else
          var generating := s.view.(progressStatus := Generating, currentPage := s.lastTotalPages);
          match conv.generation
          case GenerationThrows => Failed(generating)
          case Generated(blob) => generating.(resultBlob := Some(blob), state := Done)
  }

  /** The home page's state. */
  class Home {
    var state: AppState
    var currentPage: nat
    var totalPages: nat
    var errorMessage: Option<string>
    var resultBlob: Option<Blob>
    var fileName: string
    var progressStatus: ProgressStatus

    constructor ()
      ensures Snapshot() == View(Idle, 0, 0, None, None, DefaultFileName, Converting)
    {
      state := Idle;
      currentPage := 0;
      totalPages := 0;
      errorMessage := None;
      resultBlob := None;
      fileName := DefaultFileName;
      progressStatus := Converting;
    }

    function Snapshot(): View
      reads this
    {
      View(state, currentPage, totalPages, errorMessage, resultBlob, fileName, progressStatus)
    }

    /**
     * `handleFileAccepted`: the state updates one by one, the callbacks
     * replayed in the order the processor made them, and the try/catch
     * modelled by returning early through `Fail`.
     */
    method HandleFileAccepted(file: Dropzone.File, conv: Conversion)
      modifies this
      ensures Snapshot() == AfterConversion(file.name, conv)
    {
      BeginConversion(file.name);

      var hadError := false;
      var lastTotalPages := 0;

      if !conv.prepared {
        Fail();
        return;
      }
      var callbacks := conv.run.callbacks;
      ghost var start := Session(Started(file.name), false, 0);
      for i := 0 to |callbacks|
        invariant Session(Snapshot(), hadError, lastTotalPages) == Replay(start, callbacks[..i])
      {
        match callbacks[i] {
          case PageDone(current, total) =>
            currentPage := current;
            totalPages := total;
            lastTotalPages := total;
          case ErrorCalled(message) =>
            hadError := true;
            errorMessage := Some(message);
            state := Error;
        }
        assert callbacks[..i + 1][..i] == callbacks[..i];
      }
      assert callbacks[..|callbacks|] == callbacks;

      if conv.run.Threw? {
        Fail();
        return;
      }
      if |conv.run.images| == 0 {
        if !hadError {
          errorMessage := Some(GenericMessage);
          state := Error;
        }
        return;
      }

      progressStatus := Generating;
      currentPage := lastTotalPages;
      match conv.generation {
        case GenerationThrows =>
          Fail();
        case Generated(blob) =>
          resultBlob := Some(blob);
          state := Done;
      }
    }

    /**
     * The start of `handleFileAccepted`, what the page shows while the file
     * is read: processing, both counters at 0, no error, no result, status
     * "converting", and the output name derived from the file's name.
     */
    method BeginConversion(name: string)
      modifies this
      ensures Snapshot() == View(Processing, 0, 0, None, None, OutputFileName(name), Converting)
    {
      state := Processing;
      currentPage := 0;
      totalPages := 0;
      errorMessage := None;
      resultBlob := None;
      progressStatus := Converting;
      fileName := OutputFileName(name);
    }

    /** The catch block of `handleFileAccepted`. */
    method Fail()
      modifies this
      ensures Snapshot() == Failed(old(Snapshot()))
    {
      errorMessage := Some(GenericMessage);
      state := Error;
    }

    /** `handleReset`: back to idle with cleared progress, error and result; the file name stays. */
    method HandleReset()
      modifies this
      ensures Snapshot() == View(Idle, 0, 0, None, None, old(fileName), Converting)
    {
      state := Idle;
      currentPage := 0;
      totalPages := 0;
      errorMessage := None;
      resultBlob := None;
      progressStatus := Converting;
    }
  }

  // ---------------------------------------------------------------------
  // Properties of the transitions.
  // ---------------------------------------------------------------------

  /** Some callback is an error report. */
  predicate ReportsError(cbs: seq<Callback>) {
    exists i :: 0 <= i < |cbs| && cbs[i].ErrorCalled?
  }

  /** Every error report carries the generic message, as `processPdf`'s do. */
  predicate ErrorsAreGeneric(cbs: seq<Callback>) {
    forall i :: 0 <= i < |cbs| && cbs[i].ErrorCalled? ==> cbs[i].message == GenericMessage
  }

  /**
   * Callbacks never complete a conversion, never touch the result, the file
   * name or the status, and leave the error state (with the generic
   * message) exactly when one of them reported an error.
   */
  lemma {:induction false} ReplayEffects(s: Session, cbs: seq<Callback>)
    requires ErrorsAreGeneric(cbs)
    ensures var r := Replay(s, cbs).view;
            && r.resultBlob == s.view.resultBlob
            && r.fileName == s.view.fileName
            && r.progressStatus == s.view.progressStatus
            && (r.state == Done ==> s.view.state == Done)
    ensures Replay(s, cbs).hadError == (s.hadError || ReportsError(cbs))
    ensures ReportsError(cbs) ==>
              Replay(s, cbs).view.state == Error && Replay(s, cbs).view.errorMessage == Some(GenericMessage)
    ensures !ReportsError(cbs) ==>
              Replay(s, cbs).view.state == s.view.state && Replay(s, cbs).view.errorMessage == s.view.errorMessage
  {
    if cbs != [] {
      var front := cbs[..|cbs| - 1];
      assert forall i :: 0 <= i < |front| ==> front[i] == cbs[i];
      ReplayEffects(s, front);
      assert ReportsError(cbs) <==> ReportsError(front) || cbs[|cbs| - 1].ErrorCalled?;
    }
  }

  /** Progress callbacks alone leave the counters at the last call's arguments. */
  lemma {:induction false} ReplayProgress(s: Session, cbs: seq<Callback>, total: nat)
    requires cbs != []
    requires forall i :: 0 <= i < |cbs| ==> cbs[i].PageDone? && cbs[i].total == total
    ensures Replay(s, cbs).view.currentPage == cbs[|cbs| - 1].current
    ensures Replay(s, cbs).view.totalPages == total && Replay(s, cbs).lastTotalPages == total
  {
  }

  /**
   * An empty image list always ends in the error state with the generic
   * message and no result, whether or not the processor reported an error,
   * and the generator is never consulted.
   */
  lemma EmptyResultEndsInError(name: string, conv: Conversion, other: Generation)
    requires conv.prepared && conv.run.Returned? && conv.run.images == []
    requires ErrorsAreGeneric(conv.run.callbacks)
    ensures AfterConversion(name, conv).state == Error
    ensures AfterConversion(name, conv).errorMessage == Some(GenericMessage)
    ensures AfterConversion(name, conv).resultBlob == None
    ensures AfterConversion(name, conv.(generation := other)) == AfterConversion(name, conv)
  {
    ReplayEffects(Session(Started(name), false, 0), conv.run.callbacks);
  }

  /**
   * A conversion is done only when the processor returned images and the
   * generator produced a deck, which is then the stored result; generation
   * status is shown and the page counter shows the last reported total.
   */
  lemma DoneOnlyWithResult(name: string, conv: Conversion)
    requires ErrorsAreGeneric(conv.run.callbacks)
    ensures var v := AfterConversion(name, conv);
            v.state == Done ==>
              && conv.prepared && conv.run.Returned? && conv.run.images != []
              && conv.generation.Generated?
              && v.resultBlob == Some(conv.generation.blob)
              && v.progressStatus == Generating
              && v.currentPage == Replay(Session(Started(name), false, 0), conv.run.callbacks).lastTotalPages
  {
    ReplayEffects(Session(Started(name), false, 0), conv.run.callbacks);
  }

  /**
   * Every thrown exception (reading the file, loading the modules, the
   * processor or the generator) ends in the error state with the generic
   * message, and the output name is always derived from the file name.
   */
  lemma ThrowsEndInError(name: string, conv: Conversion)
    requires !conv.prepared || conv.run.Threw? || (conv.run.images != [] && conv.generation.GenerationThrows?)
    ensures AfterConversion(name, conv).state == Error
    ensures AfterConversion(name, conv).errorMessage == Some(GenericMessage)
    ensures AfterConversion(name, conv).fileName == OutputFileName(name)
  {
    if conv.prepared {
      var cbs := conv.run.callbacks;
      var s := Replay(Session(Started(name), false, 0), cbs);
      assert s.view.fileName == OutputFileName(name) by {
        ReplayKeepsFileName(Session(Started(name), false, 0), cbs);
      }
    }
  }

  lemma {:induction false} ReplayKeepsFileName(s: Session, cbs: seq<Callback>)
    ensures Replay(s, cbs).view.fileName == s.view.fileName
  {
    if cbs != [] {
      ReplayKeepsFileName(s, cbs[..|cbs| - 1]);
    }
  }

  // ---------------------------------------------------------------------
  // The page and the processor together.
  // ---------------------------------------------------------------------

  /** The callbacks among the processor's actions. */
  function CallbackOf(e: PdfProcessor.Event): seq<Callback> {
    match e
    case PageProcessed(current, total) => [PageDone(current, total)]
    case ErrorReported(message) => [ErrorCalled(message)]
    case _ => []
  }

  /** The run of `processPdf` on a document, as the page sees it. */
  function RunOf(doc: PdfProcessor.DocumentBehaviour): ProcessorRun {
    var outcome := PdfProcessor.Process(doc);
    Returned(PdfProcessor.Collect(outcome.trace, CallbackOf), outcome.images)
  }

  lemma {:induction false} PagesTraceCallbacks(total: nat, k: nat)
    ensures var cbs := PdfProcessor.Collect(PdfProcessor.PagesTrace(total, k), CallbackOf);
            |cbs| == k && forall i :: 0 <= i < k ==> cbs[i] == PageDone(i + 1, total)
  {
    if k > 0 {
      PagesTraceCallbacks(total, k - 1);
      PdfProcessor.CollectAppend(PdfProcessor.PagesTrace(total, k - 1),
                                 PdfProcessor.PageEvents(k, total), CallbackOf);
      PdfProcessor.CollectFour(PdfProcessor.FetchPage(k), PdfProcessor.CanvasCleared(k),
                               PdfProcessor.PageCleanedUp(k), PdfProcessor.PageProcessed(k, total), CallbackOf);
    }
  }

  /**
   * The callbacks `processPdf` makes: one progress report per completed
   * page, in page order, followed by one generic error report when a step
   * threw.
   */
  lemma {:induction false} RunCallbacks(doc: PdfProcessor.DocumentBehaviour)
    ensures var cbs := RunOf(doc).callbacks;
            && |cbs| == PdfProcessor.Completed(doc) + (if PdfProcessor.Fails(doc) then 1 else 0)
            && (forall i :: 0 <= i < PdfProcessor.Completed(doc) ==>
                  cbs[i] == PageDone(i + 1, PdfProcessor.TotalPages(doc)))
            && (PdfProcessor.Fails(doc) ==> cbs[PdfProcessor.Completed(doc)] == ErrorCalled(GenericMessage))
  {
    var trace := PdfProcessor.Process(doc).trace;
    match doc {
      case LoadThrows(t) =>
        PdfProcessor.CollectAppend([PdfProcessor.ErrorReported(PdfProcessor.ErrorMessage(t))], [], CallbackOf);
        assert trace == [PdfProcessor.ErrorReported(PdfProcessor.ErrorMessage(t))] + [];
        assert PdfProcessor.Collect([], CallbackOf) == [];
        assert PdfProcessor.Collect([PdfProcessor.ErrorReported(PdfProcessor.ErrorMessage(t))], CallbackOf)
            == [ErrorCalled(GenericMessage)] + PdfProcessor.Collect([], CallbackOf);
      case Loads(pages) =>
        var n := |pages|;
        var k := PdfProcessor.FirstFailure(pages);
        PdfProcessor.LoadedTrace(doc);
        PagesTraceCallbacks(n, k);
        EndingCallbacks(PdfProcessor.PagesTrace(n, k), k + 1);
    }
  }

  /**
   * What the end of a loaded run adds to the callbacks: nothing when every
   * page succeeded, one generic error report when page `failedPage` threw.
   */
  lemma EndingCallbacks(prefix: seq<PdfProcessor.Event>, failedPage: nat)
    ensures PdfProcessor.Collect(prefix + [PdfProcessor.DocumentDestroyed], CallbackOf)
         == PdfProcessor.Collect(prefix, CallbackOf)
    ensures PdfProcessor.Collect(prefix + [PdfProcessor.FetchPage(failedPage),
                                           PdfProcessor.ErrorReported(GenericMessage),
                                           PdfProcessor.DocumentDestroyed], CallbackOf)
         == PdfProcessor.Collect(prefix, CallbackOf) + [ErrorCalled(GenericMessage)]
  {
    var tail := [PdfProcessor.FetchPage(failedPage), PdfProcessor.ErrorReported(GenericMessage),
                 PdfProcessor.DocumentDestroyed];
    PdfProcessor.CollectAppend(prefix, [PdfProcessor.DocumentDestroyed], CallbackOf);
    assert PdfProcessor.Collect([PdfProcessor.DocumentDestroyed], CallbackOf)
        == [] + PdfProcessor.Collect([], CallbackOf);
    PdfProcessor.CollectAppend(prefix, tail, CallbackOf);
    PdfProcessor.CollectThree(tail[0], tail[1], tail[2], CallbackOf);
  }

  /**
   * A run that reports pages 1..n of n, in order and without error, and
   * returns n > 0 images ends done with the deck, no error and both
   * counters at n.
   */
  lemma CleanRunEndsDone(name: string, run: ProcessorRun, deck: Blob, n: nat)
    requires run.Returned? && n > 0 && |run.images| == n && |run.callbacks| == n
    requires forall i :: 0 <= i < n ==> run.callbacks[i] == PageDone(i + 1, n)
    ensures var v := AfterConversion(name, Conversion(true, run, Generated(deck)));
            && v.state == Done && v.resultBlob == Some(deck) && v.errorMessage == None
            && v.currentPage == n && v.totalPages == n
  {
    var start := Session(Started(name), false, 0);
    var cbs := run.callbacks;
    assert !ReportsError(cbs);
    ReplayEffects(start, cbs);
    ReplayProgress(start, cbs, n);
  }

  /**
   * Converting a PDF ends in "done" exactly when it loads, has at least one
   * page and no page throws; the result is then the generated deck, no
   * error is shown and both counters show the page count. Otherwise (a
   * failure, or a PDF without pages) the page ends in "error" with the
   * generic message and no result.
   */
  lemma ConvertEndToEnd(name: string, doc: PdfProcessor.DocumentBehaviour, deck: Blob)
    ensures var v := AfterConversion(name, Conversion(true, RunOf(doc), Generated(deck)));
            v.state == Done <==> !PdfProcessor.Fails(doc) && PdfProcessor.TotalPages(doc) > 0
    ensures var v := AfterConversion(name, Conversion(true, RunOf(doc), Generated(deck)));
            v.state == Done ==>
              && v.resultBlob == Some(deck) && v.errorMessage == None
              && v.currentPage == PdfProcessor.TotalPages(doc) && v.totalPages == PdfProcessor.TotalPages(doc)
    ensures var v := AfterConversion(name, Conversion(true, RunOf(doc), Generated(deck)));
            v.state != Done ==>
              v.state == Error && v.errorMessage == Some(GenericMessage) && v.resultBlob == None
  {
    var run := RunOf(doc);
    var n := PdfProcessor.TotalPages(doc);
    RunCallbacks(doc);
    assert ErrorsAreGeneric(run.callbacks);
    if PdfProcessor.Fails(doc) {
      PdfProcessor.ErrorReportedOnceOnFailure(doc);
      EmptyResultEndsInError(name, Conversion(true, run, Generated(deck)), Generated(deck));
    } else {
      PdfProcessor.SuccessKeepsEveryPage(doc);
      if n > 0 {
        CleanRunEndsDone(name, run, deck, n);
      } else {
        EmptyResultEndsInError(name, Conversion(true, run, Generated(deck)), Generated(deck));
      }
    }
  }
}
