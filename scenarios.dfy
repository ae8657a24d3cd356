/**
 * What the page sends for an upload, end to end: the upload state that
 * `processFile` leaves (`Consistent`), the options `handleTranslate` builds
 * from it, and the request `translateWithAI` sends. The extension test of
 * `processFile` lower-cases the name, the one of `translateWithAI` does not,
 * and the prompt builder looks for the placeholder markers in the text
 * whatever the file was.
 */
module UploadScenarios {
  import opened Wrappers
  import opened JsStrings
  import opened Upload
  import opened PromptBuilder
  import opened PromptProperties
  import opened TranslationClient

  /** `ToLowerCase` on the three spellings the lemmas below need. */
  lemma LowerCaseExtensions()
    ensures ToLowerCase("PDF") == "pdf"
    ensures ToLowerCase("pdf") == "pdf"
    ensures ToLowerCase("docx") == "docx"
  {
    assert ToLowerCase("PDF") == [LowerChar('P'), LowerChar('D'), LowerChar('F')];
    assert ToLowerCase("pdf") == [LowerChar('p'), LowerChar('d'), LowerChar('f')];
    assert ToLowerCase("docx") == [LowerChar('d'), LowerChar('o'), LowerChar('c'), LowerChar('x')];
  }

  /** The placeholders hold their markers. */
  lemma PlaceholdersAreDocuments()
    ensures HasDocumentMarker(PdfPlaceholder) && HasDocumentMarker(DocxPlaceholder)
  {
    PrefixOfAppend(PdfMarker, " - Will be processed by AI]");
    PrefixOfAppend(DocxMarker, " - Will be processed by AI]");
  }

  /** A name whose last character is `c` ends with no word whose last
      character differs from `c`. */
  lemma LastCharExcludes(name: string, w: string)
    requires name != [] && w != [] && name[|name| - 1] != w[|w| - 1]
    ensures !EndsWith(name, w)
  {
    if |w| <= |name| {
      assert name[|name| - |w|..][|w| - 1] == name[|name| - 1];
    }
  }

  /** A name ending in `.pdf` or `.docx` has that extension. */
  lemma DocumentNameExtension(name: string)
    requires EndsWith(name, ".pdf") || EndsWith(name, ".docx")
    ensures EndsWith(name, ".pdf") ==> Extension(name) == "pdf"
    ensures EndsWith(name, ".docx") ==> Extension(name) == "docx"
  {
    LowerCaseExtensions();
    if EndsWith(name, ".pdf") {
      ExtensionOfDottedName(name, "pdf");
    }
    if EndsWith(name, ".docx") {
      ExtensionOfDottedName(name, "docx");
    }
  }

  /** A file sent as a document always carries its base64 payload, with
      the PDF media type when the name ends in `.pdf` and the DOCX one
      otherwise. */
  lemma DocumentMessageCarriesPayload(u: UploadSnapshot, s: Settings)
    requires Consistent(u) && SentAsDocument(u.file)
    ensures var o := OptionsFor(u, s).value;
      var parts := Request(o).messages[0].content.parts;
      && Request(o).messages[0].content.Parts?
      && parts[0].data.Some? && parts[0].data == u.file.value.base64Data
      && parts[0].mediaType == (if EndsWith(u.file.value.name, ".pdf") then PdfMediaType else DocxMediaType)
      && parts[1] == TextPart(Prompt(o))
  {
    DocumentNameExtension(u.file.value.name);
  }

  /** `REPORT.PDF`, and any name ending in `.PDF`, is read as a PDF (payload
      stored, placeholder text set) but sent as a plain-text message: the
      prompt asks for the uploaded document and nothing is attached. */
  lemma UpperCasePdfSentWithoutAttachment(u: UploadSnapshot, s: Settings)
    requires Consistent(u) && u.file.Some? && EndsWith(u.file.value.name, ".PDF")
    ensures Extension(u.file.value.name) == "pdf"
    ensures u.text == PdfPlaceholder && u.file.value.base64Data.Some?
    ensures var o := OptionsFor(u, s).value;
      && Request(o).messages == [Message("user", PlainText(Prompt(o)))]
      && EndsWith(Prompt(o), ExtractClause)
  {
    var name := u.file.value.name;
    LowerCaseExtensions();
    ExtensionOfDottedName(name, "PDF");
    assert name[|name| - 1] == ".PDF"[3];
    LastCharExcludes(name, ".pdf");
    LastCharExcludes(name, ".docx");
    PlaceholdersAreDocuments();
    ContentClauseCases(OptionsFor(u, s).value);
  }

  /** A `.txt` file whose text holds a placeholder marker is sent like a
      document that was never attached: the prompt asks for the uploaded
      document and, unless the source code brings a `[` in, never contains
      the file's text. */
  lemma MarkedTextFileNotTranslated(u: UploadSnapshot, s: Settings)
    requires Consistent(u) && u.file.Some? && Extension(u.file.value.name) == "txt"
    requires HasDocumentMarker(u.text)
    ensures var o := OptionsFor(u, s).value;
      && Request(o).messages == [Message("user", PlainText(Prompt(o)))]
      && EndsWith(Prompt(o), ExtractClause)
      && ('[' !in s.sourceLang ==> !Includes(Prompt(o), u.text))
  {
    var o := OptionsFor(u, s).value;
    if SentAsDocument(u.file) {
      DocumentNameExtension(u.file.value.name);
      assert false;
    }
    ContentClauseCases(o);
    if '[' !in s.sourceLang {
      PlaceholderTextNotEchoed(o);
    }
  }
}
