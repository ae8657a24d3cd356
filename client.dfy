/**
 * `translateWithAI` and the guard of `handleTranslate`: the request sent to
 * the model and the way its reply becomes a translation or an error.
 *
 * The `fetch` call, JSON serialisation and `response.json()` are outside the
 * model: the request is the body the page serialises, and the reply is a
 * parameter saying what came back.
 */
module TranslationClient {
  import opened Wrappers
  import opened JsStrings
  import opened Upload
  import opened PromptBuilder

  const Model := "claude-sonnet-4-20250514"
  const MaxTokens := 4000
  const PdfMediaType := "application/pdf"
  const DocxMediaType := "application/vnd.openxmlformats-officedocument.wordprocessingml.document"

  /** The translation returned when the reply holds no text. */
  const Fallback := "Δεν ήταν δυνατή η μετάφραση."

  /** The message of every error `translateWithAI` throws. */
  const GenericFailure := "Αποτυχία μετάφρασης. Παρακαλώ προσπάθησε ξανά."

  /** The message of the error thrown, and caught, on a non-OK status. */
  const ApiErrorPrefix := "API Error: "

  /** One part of a multimodal message: the attached document (`data` is
      `file.base64Data`, which may be absent) or the prompt. */
  datatype ContentPart =
    | DocumentPart(sourceType: string, mediaType: string, data: Option<string>)
    | TextPart(text: string)

  /** `content`: a list of parts, or the prompt string itself. */
  datatype MessageContent = Parts(parts: seq<ContentPart>) | PlainText(text: string)

  datatype Message = Message(role: string, content: MessageContent)

  /** The JSON body of the request. */
  datatype RequestBody = RequestBody(model: string, maxTokens: nat, messages: seq<Message>)

  /** An error thrown inside the `try` block: the one built for a non-OK
      status, or any other (a failed request, a body that is not JSON or
      has no list of blocks). */
  datatype Thrown = ApiError(message: string) | OtherError

  /** An item of the reply's `content`; `text` may be missing. */
  datatype ContentBlock = ContentBlock(kind: string, text: Option<string>)

  /** What `fetch` and `response.json()` produced: the request failed, or a
      response with its `ok` flag, its `statusText` and its content blocks
      (`None` when the body is not JSON or has no list of blocks). A list
      holding `null`, whose `type` the loop cannot read, also throws and is
      modelled as `None`; a `text` that is `null` or a number, which the
      page would render as `null` or as digits, is outside the model. */
  datatype Reply =
    | NetworkFailure
    | HttpReply(ok: bool, statusText: string, content: Option<seq<ContentBlock>>)

  /** The settings the page reads from its controls when Translate is
      pressed. */
  datatype Settings = Settings(
    sourceLang: string,
    targetLang: string,
    style: string,
    format: string,
    context: string,
    flags: Flags)

  // ---------------------------------------------------------------------
  // The message.

  /** `file.name.endsWith('.pdf') || file.name.endsWith('.docx')`: the test
      is case-sensitive. */
  predicate SentAsDocument(file: Option<UploadedFile>) {
    file.Some? && (EndsWith(file.value.name, ".pdf") || EndsWith(file.value.name, ".docx"))
  }

  /** The one user message `translateWithAI` sends: the document, then the
      prompt, for a name ending in `.pdf` or `.docx`; the prompt alone
      otherwise. */
  function UserMessage(file: Option<UploadedFile>, prompt: string): (m: Message)
    ensures m.role == "user"
    ensures m.content.Parts? <==> SentAsDocument(file)
    ensures m.content.PlainText? ==> m.content.text == prompt
    ensures m.content.Parts? ==>
              && |m.content.parts| == 2
              && m.content.parts[0].DocumentPart?
              && m.content.parts[0].sourceType == "base64"
              && m.content.parts[0].mediaType ==
                   (if EndsWith(file.value.name, ".pdf") then PdfMediaType else DocxMediaType)
              && m.content.parts[0].data == file.value.base64Data
              && m.content.parts[1] == TextPart(prompt)
  {
    if SentAsDocument(file) then
      var mediaType := if EndsWith(file.value.name, ".pdf") then PdfMediaType else DocxMediaType;
      Message("user", Parts([DocumentPart("base64", mediaType, file.value.base64Data), TextPart(prompt)]))
    else
      Message("user", PlainText(prompt))
  }

  /** The `messages` array, filled by one `push`. */
  method BuildMessages(file: Option<UploadedFile>, prompt: string) returns (messages: seq<Message>)
    ensures messages == [UserMessage(file, prompt)]
  {
    messages := [];
    if file.Some? && (EndsWith(file.value.name, ".pdf") || EndsWith(file.value.name, ".docx")) {
      var mediaType := if EndsWith(file.value.name, ".pdf") then PdfMediaType else DocxMediaType;
      messages := messages + [Message("user", Parts([
        DocumentPart("base64", mediaType, file.value.base64Data),
        TextPart(prompt)]))];
    } else {
      messages := messages + [Message("user", PlainText(prompt))];
    }
  }

  /** The body `translateWithAI` sends for options `o`. */
  function Request(o: Options): RequestBody {
    RequestBody(Model, MaxTokens, [UserMessage(o.file, Prompt(o))])
  }

  // ---------------------------------------------------------------------
  // The reply.

  /** What `translatedText += item.text` adds for one block: the text of a
      text block (`undefined` when it has none), nothing for other blocks. */
  function BlockText(b: ContentBlock): string {
    if b.kind == "text" then Interpolate(b.text) else ""
  }

  /** The text the loop over `data.content` accumulates, block by block. */
  function TextOf(blocks: seq<ContentBlock>): string {
    if blocks == [] then "" else TextOf(blocks[..|blocks| - 1]) + BlockText(blocks[|blocks| - 1])
  }

  /** The text blocks of a reply, in order. */
  function TextBlocks(blocks: seq<ContentBlock>): (r: seq<ContentBlock>)
    ensures forall i :: 0 <= i < |r| ==> r[i].kind == "text"
  {
    if blocks == [] then []
    else if blocks[0].kind == "text" then [blocks[0]] + TextBlocks(blocks[1..])
    else TextBlocks(blocks[1..])
  }

  /** The texts of the blocks joined in order, first block first. */
  function JoinTexts(blocks: seq<ContentBlock>): string {
    if blocks == [] then "" else Interpolate(blocks[0].text) + JoinTexts(blocks[1..])
  }

  /** The accumulated text of two runs of blocks is the two texts in order. */
  lemma {:induction false} TextOfAppend(a: seq<ContentBlock>, b: seq<ContentBlock>)
    ensures TextOf(a + b) == TextOf(a) + TextOf(b)
    decreases |b|
  {
    if b != [] {
      var b' := b[..|b| - 1];
      assert (a + b)[..|a + b| - 1] == a + b';
      TextOfAppend(a, b');
      AppendAssoc(TextOf(a), TextOf(b'), BlockText(b[|b| - 1]));
    } else {
      assert a + b == a;
    }
  }

  lemma {:induction false} TextBlocksAppend(a: seq<ContentBlock>, b: seq<ContentBlock>)
    ensures TextBlocks(a + b) == TextBlocks(a) + TextBlocks(b)
    decreases |a|
  {
    if a != [] {
      assert (a + b)[1..] == a[1..] + b;
      TextBlocksAppend(a[1..], b);
    } else {
      assert a + b == b;
    }
  }

  lemma {:induction false} JoinTextsAppend(a: seq<ContentBlock>, b: seq<ContentBlock>)
    ensures JoinTexts(a + b) == JoinTexts(a) + JoinTexts(b)
    decreases |a|
  {
    if a != [] {
      assert (a + b)[1..] == a[1..] + b;
      JoinTextsAppend(a[1..], b);
      AppendAssoc(Interpolate(a[0].text), JoinTexts(a[1..]), JoinTexts(b));
    } else {
      assert a + b == b;
    }
  }

  /** The loop's text is the texts of the text blocks, in order: blocks of
      any other type add nothing. */
  lemma {:induction false} TextOfIsTextBlocksJoined(blocks: seq<ContentBlock>)
    ensures TextOf(blocks) == JoinTexts(TextBlocks(blocks))
    decreases |blocks|
  {
    if blocks != [] {
      var init, last := blocks[..|blocks| - 1], blocks[|blocks| - 1];
      assert blocks == init + [last];
      TextOfIsTextBlocksJoined(init);
      TextBlocksAppend(init, [last]);
      JoinTextsAppend(TextBlocks(init), TextBlocks([last]));
      if last.kind == "text" {
        assert JoinTexts([last]) == Interpolate(last.text) + JoinTexts([]);
      }
    }
  }

  /** `translatedText || fallback`: the text of the reply, or the fallback
      when that text is empty. */
  function Translation(blocks: seq<ContentBlock>): (r: string)
    ensures r != ""
    ensures TextOf(blocks) != "" ==> r == TextOf(blocks)
    ensures TextOf(blocks) == "" ==> r == Fallback
  {
    OrElse(Some(TextOf(blocks)), Fallback)
  }

  /** The loop of `translateWithAI` over `data.content`. */
  method ExtractTranslation(blocks: seq<ContentBlock>) returns (translation: string)
    ensures translation == Translation(blocks)
  {
    var translatedText := "";
    for i := 0 to |blocks|
      invariant translatedText == TextOf(blocks[..i])
    {
      assert blocks[..i + 1][..i] == blocks[..i];
      if blocks[i].kind == "text" {
        translatedText := translatedText + Interpolate(blocks[i].text);
      }
    }
    assert blocks[..|blocks|] == blocks;
    translation := OrElse(Some(translatedText), Fallback);
  }

  /** The body of the `try` block: a non-OK status throws `API Error:
      <statusText>`; a failed request or an unreadable body throws too. */
  function Attempt(reply: Reply): Result<string, Thrown> {
    match reply
    case NetworkFailure => Failure(OtherError)
    case HttpReply(ok, statusText, content) =>
      if !ok then Failure(ApiError(ApiErrorPrefix + statusText))
      else if content.None? then Failure(OtherError)
      else Success(Translation(content.value))
  }

  /** What `translateWithAI` resolves to or rejects with: the `catch` block
      replaces every error by the generic one. */
  function Outcome(reply: Reply): (r: Result<string, string>)
    ensures r.Success? <==> Attempt(reply).Success?
    ensures r.Success? ==> r.value == Attempt(reply).value
    ensures r.Failure? ==> r.error == GenericFailure
  {
    match Attempt(reply)
    case Success(t) => Success(t)
    case Failure(_) => Failure(GenericFailure)
  }

  /** The request succeeds exactly for an OK response with readable
      content, and then yields its text or the fallback. */
  lemma OutcomeCases(reply: Reply)
    ensures Outcome(reply).Success? <==> reply.HttpReply? && reply.ok && reply.content.Some?
    ensures Outcome(reply).Success? ==> Outcome(reply).value == Translation(reply.content.value)
    ensures Outcome(reply).Failure? ==> Outcome(reply).error == GenericFailure
  {
  }

  /** A successful translation is never empty. */
  lemma TranslationNeverEmpty(reply: Reply)
    ensures Outcome(reply).Success? ==> Outcome(reply).value != ""
  {
  }

  /** A non-OK status raises an error naming the status text, but the caller
      only ever sees the generic message, the same for every status. */
  lemma StatusTextNotSurfaced(s1: string, s2: string, c1: Option<seq<ContentBlock>>, c2: Option<seq<ContentBlock>>)
    ensures Attempt(HttpReply(false, s1, c1)) == Failure(ApiError(ApiErrorPrefix + s1))
    ensures Outcome(HttpReply(false, s1, c1)) == Outcome(HttpReply(false, s2, c2))
    ensures Outcome(HttpReply(false, s1, c1)) == Outcome(NetworkFailure)
  {
  }

  /** `translateWithAI(o)`: the request it sends, and what it resolves to or
      rejects with. */
  method TranslateWithAI(o: Options, reply: Reply) returns (request: RequestBody, result: Result<string, string>)
    ensures request == Request(o)
    ensures result == Outcome(reply)
  {
    var prompt := BuildTranslationPrompt(o);
    var messages := BuildMessages(o.file, prompt);
    request := RequestBody(Model, MaxTokens, messages);
    match reply
    case NetworkFailure =>
      result := Failure(GenericFailure);
    case HttpReply(ok, statusText, content) =>
      if !ok {
        result := Failure(GenericFailure);
      } else if content.None? {
        result := Failure(GenericFailure);
      } else {
        var translation := ExtractTranslation(content.value);
        result := Success(translation);
      }
  }

  // ---------------------------------------------------------------------
  // The guard of `handleTranslate`.

  /** The options `handleTranslate` passes on, or nothing when no file is
      uploaded. */
  function OptionsFor(u: UploadSnapshot, s: Settings): (r: Option<Options>)
    ensures r.Some? <==> u.file.Some?
    ensures r.Some? ==> r.value.text == u.text && r.value.file == u.file
    ensures r.Some? ==>
              && r.value.sourceLang == s.sourceLang && r.value.targetLang == s.targetLang
              && r.value.style == s.style && r.value.format == s.format
              && r.value.context == s.context && r.value.flags == s.flags
  {
    if u.file.None? then None
    else Some(Options(u.text, u.file, s.sourceLang, s.targetLang, s.style, s.format, s.context, s.flags))
  }

  /** `handleTranslate()` without its display: no request without a file;
      otherwise the request for the uploaded text and file. */
  method HandleTranslate(state: UploadState, s: Settings, reply: Reply)
    returns (request: Option<RequestBody>, result: Option<Result<string, string>>)
    ensures request.None? <==> state.uploadedFile.None?
    ensures result.None? <==> state.uploadedFile.None?
    ensures request.Some? ==> request.value == Request(OptionsFor(state.Current(), s).value)
    ensures result.Some? ==> result.value == Outcome(reply)
  {
    if state.uploadedFile.None? {
      request, result := None, None;
      return;
    }
    var o := Options(state.uploadedText, state.uploadedFile, s.sourceLang, s.targetLang,
                     s.style, s.format, s.context, s.flags);
    var req, res := TranslateWithAI(o, reply);
    request, result := Some(req), Some(res);
  }
}
