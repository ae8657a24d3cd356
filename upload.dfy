/**
 * The upload state of the page: the file the user picked (`uploadedFile`)
 * and the text read from it (`uploadedText`), as `processFile` and
 * `removeFile` change them.
 *
 * Reading a file is browser I/O: the model takes its outcome as a
 * parameter. A read either fails or yields both views the page may ask for,
 * the file decoded as text and the base64 payload of its data URL.
 */
module Upload {
  import opened Wrappers
  import opened JsStrings

  /** A picked file; `base64Data` is the property the PDF and DOCX readers
      attach to the file object (absent until then). */
  datatype UploadedFile = UploadedFile(name: string, base64Data: Option<string>)

  /** What the browser's file reader produced. */
  datatype FileRead = ReadFailed | ReadOk(asText: string, dataUrlPayload: string)

  /** A snapshot of the pair (`uploadedFile`, `uploadedText`). */
  datatype UploadSnapshot = UploadSnapshot(file: Option<UploadedFile>, text: string)

  /** The state before any upload and after `removeFile`. */
  const NoUpload := UploadSnapshot(None, "")

  /** The markers the prompt builder looks for in `uploadedText`. */
  const PdfMarker := "[PDF CONTENT"
  const DocxMarker := "[DOCX CONTENT"

  /** The text a PDF read leaves in `uploadedText`. */
  const PdfPlaceholder := PdfMarker + " - Will be processed by AI]"

  /** The text a DOCX read leaves in `uploadedText`. */
  const DocxPlaceholder := DocxMarker + " - Will be processed by AI]"

  /** `fileName.split('.').pop().toLowerCase()` */
  function Extension(name: string): string {
    ToLowerCase(LastPart(name, '.'))
  }

  /** The extensions `processFile` reads; any other one is refused. */
  predicate Supported(ext: string) {
    ext == "txt" || ext == "pdf" || ext == "docx"
  }

  /** The extension is the lower-cased text after the last dot of the name,
      or the whole lower-cased name when it has no dot. */
  lemma ExtensionIsLastSegment(name: string)
    ensures '.' !in Extension(name)
    ensures '.' !in name ==> Extension(name) == ToLowerCase(name)
    ensures '.' in name ==>
              exists i :: (0 <= i < |name| && name[i] == '.' && '.' !in name[i + 1..]
                           && Extension(name) == ToLowerCase(name[i + 1..]))
  {
    var r := LastPart(name, '.');
    LastPartIsTail(name, '.');
    assert name[|name| - |r|..] == r;
    if |r| == |name| {
      assert r == name;
    } else {
      var i := |name| - |r| - 1;
      assert name[i] == '.' && name[i + 1..] == r;
    }
  }

  /** A name that ends in `.` followed by `ext` (no dot in `ext`) has the
      lower case of `ext` as its extension. */
  lemma ExtensionOfDottedName(name: string, ext: string)
    requires EndsWith(name, "." + ext) && '.' !in ext
    ensures Extension(name) == ToLowerCase(ext)
  {
    assert name[|name| - |ext| - 1] == ("." + ext)[0];
    assert name[|name| - |ext|..] == ("." + ext)[1..];
    LastPartUnique(name, '.', ext);
  }

  /** The invariant `processFile` and `removeFile` keep: no file means no
      text; a kept file has a supported extension; a PDF or DOCX file carries
      its base64 payload and the matching placeholder text; a text file
      carries no payload. */
  predicate Consistent(u: UploadSnapshot) {
    && (u.file.None? ==> u.text == "")
    && (u.file.Some? ==>
          var f := u.file.value;
          var ext := Extension(f.name);
          && Supported(ext)
          && (ext == "txt" ==> f.base64Data.None?)
          && (ext == "pdf" ==> f.base64Data.Some? && u.text == PdfPlaceholder)
          && (ext == "docx" ==> f.base64Data.Some? && u.text == DocxPlaceholder))
  }

  /** The state `processFile(file)` leaves behind, given what the reader
      produced: a refused extension or a failed read ends in `removeFile`. */
  function Processed(name: string, read: FileRead): (u: UploadSnapshot)
    ensures Consistent(u)
    ensures u.file.Some? <==> Supported(Extension(name)) && read.ReadOk?
    ensures u.file.Some? ==> u.file.value.name == name
    ensures u.file.None? ==> u == NoUpload
    ensures u.file.Some? && Extension(name) == "txt" ==> u.text == read.asText
    ensures u.file.Some? && Extension(name) != "txt" ==>
              u.file.value.base64Data == Some(read.dataUrlPayload)
  {
    var ext := Extension(name);
    if !Supported(ext) || read.ReadFailed? then NoUpload
    else if ext == "txt" then UploadSnapshot(Some(UploadedFile(name, None)), read.asText)
    else if ext == "pdf" then
      UploadSnapshot(Some(UploadedFile(name, Some(read.dataUrlPayload))), PdfPlaceholder)
    else
      UploadSnapshot(Some(UploadedFile(name, Some(read.dataUrlPayload))), DocxPlaceholder)
  }

  /** The page's global upload variables. */
  class UploadState {
    var uploadedFile: Option<UploadedFile>
    var uploadedText: string

    function Current(): UploadSnapshot
      reads this
    {
      UploadSnapshot(uploadedFile, uploadedText)
    }

    predicate Valid()
      reads this
    {
      Consistent(Current())
    }

    /** The page's initial state. */
    constructor ()
      ensures Valid() && Current() == NoUpload
    {
      uploadedFile := None;
      uploadedText := "";
    }

    /** `removeFile()`: forget the file and its text. */
    method RemoveFile()
      modifies this
      ensures Valid() && Current() == NoUpload
    {
      uploadedFile := None;
      uploadedText := "";
    }

    /** `processFile(file)`: keep the file, then read it according to its
        extension, or drop it when the extension is refused or the read
        fails. */
    method ProcessFile(name: string, read: FileRead)
      modifies this
      ensures Valid()
      ensures Current() == Processed(name, read)
    {
      uploadedFile := Some(UploadedFile(name, None));
      var fileExtension := Extension(name);
      if fileExtension == "txt" {
        match read
        case ReadFailed => RemoveFile();
        case ReadOk(contents, _) => uploadedText := contents;
      } else if fileExtension == "pdf" {
        match read
        case ReadFailed => RemoveFile();
        case ReadOk(_, payload) =>
          uploadedFile := Some(UploadedFile(name, Some(payload)));
          uploadedText := PdfPlaceholder;
      } else if fileExtension == "docx" {
        match read
        case ReadFailed => RemoveFile();
        case ReadOk(_, payload) =>
          uploadedFile := Some(UploadedFile(name, Some(payload)));
          uploadedText := DocxPlaceholder;
      } else {
        RemoveFile();
      }
    }
  }
}
