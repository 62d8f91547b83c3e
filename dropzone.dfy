/**
 * The upload drop zone: it accepts one file at a time, by drag-and-drop or
 * through the file chooser, and hands it on only if it looks like a PDF
 * (by MIME type or by a ".pdf" name) and is at most 50 MiB; otherwise it
 * shows one error message, the type check taking precedence over the size.
 *
 * The component's React state (`isDragOver`, `error`) becomes the fields of
 * `Zone`; every call of the `onFileAccepted` callback is recorded in the
 * field `accepted`, the file input's value in `inputValue`, and the number
 * of programmatic clicks on the hidden input (each opening the file
 * chooser) in `chooserOpened`.
 */
module Dropzone {
  import opened Wrappers

  /** 50 MiB, the largest accepted file size in bytes. */
  const MaxFileSize: nat := 50 * 1024 * 1024

  const PdfMimeType: string := "application/pdf"
  const NotPdfMessage: string := "Only PDF files are accepted."
  const TooLargeMessage: string := "File exceeds the 50MB size limit."

  /** A browser `File`: its name, its MIME type and its size in bytes. */
  datatype File = File(name: string, mimeType: string, size: nat)

  /** `s.endsWith(suffix)`, comparing characters exactly. */
  predicate EndsWith(s: string, suffix: string) {
    |suffix| <= |s| && s[|s| - |suffix|..] == suffix
  }

  /** The file passes the type test: PDF MIME type, or a name ending in ".pdf" (case-sensitive). */
  predicate LooksLikePdf(f: File) {
    f.mimeType == PdfMimeType || EndsWith(f.name, ".pdf")
  }

  /** The files the drop zone lets through. */
  predicate Acceptable(f: File) {
    LooksLikePdf(f) && f.size <= MaxFileSize
  }

  /**
   * The error `validateAndAccept` leaves behind: none when it accepts the
   * file; the type message whenever the type test fails, even for a file
   * that is also too large; the size message otherwise.
   */
  function Validate(f: File): (error: Option<string>)
    ensures error == None <==> Acceptable(f)
    ensures !LooksLikePdf(f) ==> error == Some(NotPdfMessage)
    ensures LooksLikePdf(f) && !Acceptable(f) ==> error == Some(TooLargeMessage)
  {
    if f.mimeType != PdfMimeType && !EndsWith(f.name, ".pdf") then Some(NotPdfMessage)
    else if f.size > MaxFileSize then Some(TooLargeMessage)
    else None
  }

  /** The drop zone's state. */
  class Zone {
    const disabled: bool
    var isDragOver: bool
    var error: Option<string>
    var accepted: seq<File>
    var inputValue: string
    var chooserOpened: nat

    constructor (disabled: bool)
      ensures this.disabled == disabled
      ensures !isDragOver && error == None && accepted == [] && inputValue == "" && chooserOpened == 0
    {
      this.disabled := disabled;
      isDragOver := false;
      error := None;
      accepted := [];
      inputValue := "";
      chooserOpened := 0;
    }

    /**
     * `validateAndAccept`: clear the error, then either set the error for
     * the first test that fails or pass the file on, exactly once.
     */
    method ValidateAndAccept(file: File)
      modifies this
      ensures error == Validate(file)
      ensures accepted == old(accepted) + (if error == None then [file] else [])
      ensures isDragOver == old(isDragOver) && inputValue == old(inputValue)
      ensures chooserOpened == old(chooserOpened)
    {
      error := None;
      if file.mimeType != PdfMimeType && !EndsWith(file.name, ".pdf") {
        error := Some(NotPdfMessage);
        return;
      }
      if file.size > MaxFileSize {
        error := Some(TooLargeMessage);
        return;
      }
      accepted := accepted + [file];
    }

    /** `handleDragOver`: highlight the zone unless it is disabled. */
    method HandleDragOver()
      modifies this
      ensures isDragOver == (old(isDragOver) || !disabled)
      ensures error == old(error) && accepted == old(accepted) && inputValue == old(inputValue)
      ensures chooserOpened == old(chooserOpened)
    {
      if !disabled {
        isDragOver := true;
      }
    }

    /** `handleDragLeave`: drop the highlight. */
    method HandleDragLeave()
      modifies this
      ensures !isDragOver
      ensures error == old(error) && accepted == old(accepted) && inputValue == old(inputValue)
      ensures chooserOpened == old(chooserOpened)
    {
      isDragOver := false;
    }

    /**
     * `handleDrop`: drop the highlight; unless disabled, validate the first
     * dropped file, and only that one.
     */
    method HandleDrop(files: seq<File>)
      modifies this
      ensures !isDragOver && inputValue == old(inputValue) && chooserOpened == old(chooserOpened)
      ensures disabled || files == [] ==> error == old(error) && accepted == old(accepted)
      ensures !disabled && files != [] ==>
                && error == Validate(files[0])
                && accepted == old(accepted) + (if error == None then [files[0]] else [])
    {
      isDragOver := false;
      if disabled {
        return;
      }
      if |files| > 0 {
        ValidateAndAccept(files[0]);
      }
    }

    /**
     * `handleClick`: unless the zone is disabled, click the hidden file
     * input, which opens the file chooser once; nothing else changes.
     */
    method HandleClick()
      modifies this
      ensures chooserOpened == old(chooserOpened) + (if disabled then 0 else 1)
      ensures isDragOver == old(isDragOver) && error == old(error)
      ensures accepted == old(accepted) && inputValue == old(inputValue)
    {
      if !disabled {
        chooserOpened := chooserOpened + 1;
      }
    }

    /**
     * `handleFileChange`: validate the first chosen file, if any (this
     * handler does not look at `disabled`), then clear the input so that
     * the same file can be chosen again.
     */
    method HandleFileChange(files: Option<seq<File>>)
      modifies this
      ensures inputValue == "" && isDragOver == old(isDragOver) && chooserOpened == old(chooserOpened)
      ensures files == None || files.value == [] ==> error == old(error) && accepted == old(accepted)
      ensures files != None && files.value != [] ==>
                && error == Validate(files.value[0])
                && accepted == old(accepted) + (if error == None then [files.value[0]] else [])
    {
      if files.Some? && |files.value| > 0 {
        ValidateAndAccept(files.value[0]);
      }
      inputValue := "";
    }
  }

  /** A file that fails the type test is refused for its type even when it is also too large. */
  lemma TypeCheckedBeforeSize(f: File)
    requires !LooksLikePdf(f) && f.size > MaxFileSize
    ensures Validate(f) == Some(NotPdfMessage)
  {
  }

  /** Exactly 50 MiB is accepted; one byte more is refused for its size. */
  lemma SizeLimitIsInclusive(name: string)
    ensures Validate(File(name, PdfMimeType, 52428800)) == None
    ensures Validate(File(name, PdfMimeType, 52428801)) == Some(TooLargeMessage)
  {
  }

  /** The name test is case-sensitive: "X.PDF" without the PDF type is refused, "X.pdf" is not. */
  lemma ExtensionIsCaseSensitive()
    ensures Validate(File("X.PDF", "", 1)) == Some(NotPdfMessage)
    ensures Validate(File("X.pdf", "", 1)) == None
  {
    assert "X.PDF"[1..] != ".pdf" by {
      assert "X.PDF"[1..][1] == 'P';
    }
    assert "X.pdf"[1..] == ".pdf";
  }
}
