# Translator request and response handling, modelled in Dafny

The translator is a single-page tool. The user uploads a `.txt`, `.pdf` or `.docx`
file, picks languages, a style, a format, a context and four options, and presses
Translate. The page then builds an instruction prompt and sends it to the model API
in one user message, with the document attached for PDF and DOCX names. It reads the
translation back out of the reply's content blocks. This project models that logic
from `script.js` and proves what it guarantees:

- **Upload state** (`upload.dfy`, module `Upload`) covers the globals `uploadedFile`
  and `uploadedText`, `processFile` and `removeFile`.
  - `UploadState` is a class whose methods update the two fields in place.
  - The file reader's outcome is a parameter.
  - `Consistent` is the invariant both methods keep.
- **Prompt** (`prompt.dfy`, module `PromptBuilder`) covers `languageNames`, the style,
  format and context tables (module `Tables`), and `buildTranslationPrompt`.
  - `BuildTranslationPrompt` grows the prompt one `+=` at a time, as the source does.
  - It is proved equal to `Prompt`, the concatenation of the paragraphs.
- **Prompt properties** (`prompt_properties.dfy`, module `PromptProperties`):
  - where each paragraph sits and when it is present;
  - that the flag sentences can be read back;
  - that a placeholder text is never copied into the prompt.
- **Client** (`client.dfy`, module `TranslationClient`) covers the `messages` array, the
  request body, the loop that collects the reply's text, the `try`/`catch` that turns
  every error into one message, and the guard of `handleTranslate`.
- **Scenarios** (`scenarios.dfy`, module `UploadScenarios`) chain the three parts
  above: the upload state, the options built from it, and the request sent.
- **JavaScript semantics** (`js_strings.dfy`, module `JsStrings`): `startsWith`,
  `endsWith`, `includes`, `split(...).pop()`, `toLowerCase`, `x || y` on strings, and
  `undefined` inside a template literal or `+=`.

Three behaviours of the code that a reader might not expect, and that the model keeps:

- A style, format or context key missing from its table renders the text
  `undefined` in the prompt, not an empty fragment (script.js:343, 353, 363).
- An unknown target language code also renders `undefined`: only the source name
  falls back to the code itself (script.js:321-322).
- A non-OK status does build an `API Error: <statusText>` error, but the `catch`
  block replaces it by the generic failure message, so the caller never sees the
  status text (script.js:285-302).

## Model

| member | source | states |
|---|---|---|
| Tables.LookupFinds | script.js:343 | `table[key]` is found exactly when some entry has the key, and it is that entry's value |
| JsStrings.SplitJoin | script.js:96 | joining the parts of `split(sep)` with `sep` gives back the name, so no character is lost or moved |
| JsStrings.LastPartIsTail | script.js:96 | `split('.').pop()` is a suffix of the name with no dot, preceded by a dot unless it is the whole name |
| JsStrings.LastPartUnique | script.js:96 | any suffix with those three properties is the last part |
| Upload.ExtensionIsLastSegment | script.js:96 | the extension is the lower-cased text after the last dot, or the whole lower-cased name; it holds no dot |
| Upload.ExtensionOfDottedName | script.js:96 | a name ending in `.` + `ext` (no dot in `ext`) has the lower case of `ext` as its extension |
| Upload.Processed | script.js:93-157 | a file is kept exactly when its extension is txt/pdf/docx and the read succeeds; otherwise the state is `(null, '')`; a kept `.txt` holds the text read, a kept PDF or DOCX stores the data URL's base64 payload; the result is `Consistent` |
| Upload.UploadState.constructor | script.js:2-3 | the page starts with no file and an empty text |
| Upload.UploadState.RemoveFile | script.js:159-165 | `uploadedFile` becomes null and `uploadedText` empty; `Consistent` holds |
| Upload.UploadState.ProcessFile | script.js:93-121 | the new `(uploadedFile, uploadedText)` is `Processed(name, read)`: the text of a `.txt`, or the PDF or DOCX placeholder with the base64 payload stored; a refused extension or failed read ends in `removeFile` |
| PromptBuilder.LanguageNamesNonEmpty | script.js:21-33 | every language name is a non-empty string |
| PromptBuilder.SourceName | script.js:321 | the source language's table name, or the code itself when it has no entry |
| PromptBuilder.BuildTranslationPrompt | script.js:307-394 | the `+=` sequence returns exactly `Prompt(o)`, the paragraphs in the builder's order |
| PromptProperties.PromptLayout | script.js:323-391 | the prompt is the guidance (up to the human-quality clause), then the flag sentences, then the content clause |
| PromptProperties.TargetNameInLanguageClause | script.js:321-331 | the language clause right after the preamble names the target by its table entry; an unknown target code reads `undefined`, with no fallback to the code |
| PromptProperties.LanguageClauseFollowsPreamble | script.js:323-331 | the prompt starts with the preamble and then the auto-detect clause naming the target exactly when the source is `auto`; otherwise it starts with the "from ... to ..." clause |
| PromptProperties.StyleAndFormatLinesAlwaysPresent | script.js:333-353 | the style and format lines follow the language clause for every input, each carrying its table sentence or `undefined` |
| PromptProperties.ContextLineIffNotGeneral | script.js:355-364 | a `Context:` line follows the format line exactly when the context is not `general`, with its table sentence or `undefined`; the human-quality clause comes next |
| PromptProperties.HumanClauseAlwaysPresent | script.js:366-367 | the "natural and human-written" clause is in every prompt |
| PromptProperties.DecodeFlagClauses | script.js:369-384 | the four option sentences, each present exactly when its flag is set and in the fixed order, can be read back into the flags |
| PromptProperties.FlagSentencesExact | script.js:369-384 | right after the human-quality clause come the option sentences, and reading them back gives the options' flags |
| PromptProperties.ContentClauseCases | script.js:386-391 | the prompt ends with the heading and the text for a plain non-empty text, with the extraction request when the text holds a placeholder marker, and with nothing for an empty text |
| PromptProperties.LanguageNamesAvoidBracket | script.js:21-33 | no language name holds a `[` |
| PromptProperties.StyleInstructionsAvoidBracket | script.js:334-341 | no style sentence holds a `[` |
| PromptProperties.FormatInstructionsAvoidBracket | script.js:346-351 | no format sentence holds a `[` |
| PromptProperties.ContextInstructionsAvoidBracket | script.js:357-362 | no context sentence holds a `[` |
| PromptProperties.InstructionsHaveNoBracket | script.js:323-384 | everything before the content clause is free of `[` unless the source code brings one in |
| PromptProperties.PlaceholderTextNotEchoed | script.js:387-390 | a text holding `[PDF CONTENT` or `[DOCX CONTENT` makes the prompt end with the extraction request and never contain the text |
| TranslationClient.UserMessage | script.js:243-268 | one `user` message: for a name ending in `.pdf` or `.docx` (case-sensitive), the document part (base64, the PDF media type for `.pdf` and the DOCX media type otherwise, the file's payload), then the prompt; otherwise the prompt string itself |
| TranslationClient.BuildMessages | script.js:240-269 | the `messages` array holds exactly that one message |
| TranslationClient.TextOfAppend | script.js:292-297 | the collected text of two runs of blocks is their texts in order |
| TranslationClient.TextOfIsTextBlocksJoined | script.js:292-297 | the loop's text is the texts of the `text` blocks joined in order; other blocks add nothing |
| TranslationClient.Translation | script.js:299 | the result is never empty: the collected text, or the fixed fallback sentence when that text is empty |
| TranslationClient.ExtractTranslation | script.js:292-299 | the loop over `data.content` returns `Translation(blocks)` |
| TranslationClient.Outcome | script.js:285-302 | the `catch` keeps a success (same value) and replaces every error by the generic message |
| TranslationClient.OutcomeCases | script.js:285-302 | a translation comes back exactly for an OK response with readable content; every failure carries the generic message |
| TranslationClient.TranslationNeverEmpty | script.js:299 | a successful translation is never empty |
| TranslationClient.StatusTextNotSurfaced | script.js:285-302 | a non-OK status throws `API Error: <statusText>`, but the caller sees the same generic error for every status and for a failed request |
| TranslationClient.TranslateWithAI | script.js:221-303 | sends the body with the fixed model and `max_tokens` 4000 and the one message for the built prompt; returns `Outcome(reply)` |
| TranslationClient.OptionsFor | script.js:168-203 | options exist exactly when a file is uploaded; they carry `uploadedText` and `uploadedFile`, and pass the languages, `selectedStyle`, format, context and the four flags on unchanged |
| TranslationClient.HandleTranslate | script.js:168-203 | no request without an uploaded file; otherwise the request for the uploaded text and file, and its outcome |
| UploadScenarios.DocumentMessageCarriesPayload | script.js:243-256 | after `processFile`, a file sent as a document always carries its base64 payload, with the PDF media type for `.pdf` and the DOCX media type otherwise |
| UploadScenarios.UpperCasePdfSentWithoutAttachment | script.js:243-268 | `REPORT.PDF` is read as a PDF (line 96 lower-cases), yet it is sent as a plain-text message whose prompt asks for an uploaded document that is not attached |
| UploadScenarios.MarkedTextFileNotTranslated | script.js:387-391 | a `.txt` whose text holds a placeholder marker is sent without attachment; the prompt asks for the document and does not contain the file's text |

## Left out

- DOM wiring and display: `init`, drag and drop, style cards, showing and hiding sections, scrolling, `resetForm` and every `alert`. They only present state.
- File reading: `readTextFile`, `readPDFFile` and `readDocxFile` use the browser's `FileReader`. The model takes the read's outcome as a parameter: a failure, or the decoded text and the base64 payload of the data URL.
- The network call, the JSON encoding of the body, `response.json()` and the `console.error` log of the caught error (script.js:301). The request is the body as a datatype, and the reply is a parameter.
- `copyToClipboard` and `downloadTranslation`: clipboard, `Blob` and timer APIs.
- The `async` sequencing and the disabled Translate button while a request is in flight: this is single-request UI control.
- Upload.UploadState.ProcessFile: the read is modelled as one atomic step. In the page, `uploadedFile` is set (script.js:94) before the read is awaited (:106, :109, :112), and the Translate button stays enabled meanwhile. A click in that window sends the new file with the previous `uploadedText`, and for a `.pdf` or `.docx` name a document part whose data is still undefined, since `base64Data` is set only when the read ends (:138, :151). `Consistent` and `UploadScenarios.DocumentMessageCarriesPayload` describe the state once the read has finished.
- `handleTranslate`'s catch block, which shows the error in an alert, is not modelled. The model returns the outcome instead.
- JsStrings.ToLowerCase: lower-cases ASCII letters only, not the whole Unicode case mapping of `toLowerCase`.
- Tables.Lookup: an object literal also answers for inherited keys such as `constructor`; the model treats every key outside the literal as missing.
- PromptProperties.PlaceholderTextNotEchoed: proved only for source codes without `[`, because a source code outside the language table is echoed into the prompt as it is.
- UploadScenarios.MarkedTextFileNotTranslated: the "does not contain the file's text" part is stated only for source codes without `[`, for the same reason.
