/**
 * `buildTranslationPrompt`: the instruction text sent to the model.
 *
 * `Prompt` states the whole text as the concatenation of its paragraphs in
 * the order the builder appends them; `BuildTranslationPrompt` is the
 * builder itself, growing the text one `+=` at a time. The lemmas below say
 * where each paragraph sits and when it is there.
 */
module PromptBuilder {
  import opened Wrappers
  import opened JsStrings
  import opened Upload
  import opened Tables

  /** The four check boxes of the advanced options. */
  datatype Flags = Flags(literal: bool, explanations: bool, deepAnalysis: bool, examples: bool)

  /** The options object handed to `translateWithAI` and the builder. */
  datatype Options = Options(
    text: string,
    file: Option<UploadedFile>,
    sourceLang: string,
    targetLang: string,
    style: string,
    format: string,
    context: string,
    flags: Flags)

  /** `languageNames` */
  const LanguageNames: Table := [
    ("auto", "Auto-detect"),
    ("el", "Greek"),
    ("en", "English"),
    ("fr", "French"),
    ("de", "German"),
    ("es", "Spanish"),
    ("it", "Italian"),
    ("pt", "Portuguese"),
    ("ru", "Russian"),
    ("zh", "Chinese"),
    ("ja", "Japanese")]

  /** `styleInstructions` */
  const StyleInstructions: Table := [
    ("academic", AcademicStyle),
    ("professional", ProfessionalStyle),
    ("email", EmailStyle),
    ("formal", FormalStyle),
    ("casual", CasualStyle),
    ("creative", CreativeStyle)]

  const AcademicStyle :=
    "Use academic, " + "scholarly " + "language with " + "formal "
    + "terminology and " + "rigorous " + "structure."
  const ProfessionalStyle :=
    "Use " + "professional, " + "business-appropriate " + "language that "
    + "is clear and " + "competent."
  const EmailStyle :=
    "Format as a " + "professional " + "email with " + "appropriate "
    + "greeting and " + "closing."
  const FormalStyle :=
    "Use very " + "formal, " + "official " + "document " + "language "
    + "suitable for " + "legal or " + "governmental " + "contexts."
  const CasualStyle :=
    "Use " + "conversational, " + "everyday " + "language that "
    + "feels natural " + "and friendly."
  const CreativeStyle :=
    "Use creative, " + "engaging " + "language with " + "literary flair "
    + "and expressive " + "phrasing."

  /** `formatInstructions` */
  const FormatInstructions: Table := [
    ("paragraphs", ParagraphsFormat),
    ("letter", LetterFormat),
    ("recommendation", RecommendationFormat),
    ("bullets", BulletsFormat)]

  const ParagraphsFormat :=
    "Present the " + "translation in " + "well-structured " + "paragraphs."
  const LetterFormat :=
    "Format as a " + "formal letter " + "with date, " + "greeting, body, "
    + "and closing."
  const RecommendationFormat :=
    "Format as a " + "recommendation " + "letter with " + "proper "
    + "structure."
  const BulletsFormat :=
    "Format as " + "bullet points " + "for clarity and " + "easy reading."

  /** `contextInstructions` */
  const ContextInstructions: Table := [
    ("academic", AcademicContext),
    ("business", BusinessContext),
    ("presentation", PresentationContext),
    ("research", ResearchContext)]

  const AcademicContext :=
    "This is for an " + "academic/university " + "setting."
  const BusinessContext :=
    "This is for a " + "professional " + "business " + "meeting."
  const PresentationContext := "This is for a " + "presentation."
  const ResearchContext := "This is for a " + "research paper."

  // The fixed sentences of the prompt. Each is written as a concatenation of
  // short phrases: the text is the same as one literal, and in this form the
  // verifier can read off its characters.

  const Preamble :=
    "You are a " + "professional " + "translator with " + "expertise in "
    + "multiple " + "languages and " + "contexts.\n\n"
  const AutoDetectOpening :=
    "Please detect " + "the source " + "language " + "automatically "
    + "and translate " + "to "
  const DirectOpening := "Translate the " + "following text " + "from "
  const HumanClause :=
    "IMPORTANT: The " + "translation " + "MUST sound " + "natural and "
    + "human-written, " + "as if created " + "by a " + "professional "
    + "human " + "translator. " + "Avoid robotic " + "or machine-like "
    + "phrasing.\n\n"
  const LiteralClause :=
    "Provide a " + "literal, " + "word-for-word " + "translation "
    + "that stays as " + "close to the " + "original as " + "possible.\n\n"
  const ExplanationsClause :=
    "After the " + "translation, " + "provide " + "explanations of "
    + "key terms, " + "idioms, or " + "culturally " + "specific "
    + "references in " + "brackets.\n\n"
  const DeepAnalysisClause :=
    "After the " + "translation, " + "provide a " + "deeper analysis "
    + "of the text's " + "meaning, " + "context, and " + "nuances.\n\n"
  const ExamplesClause :=
    "Include " + "relevant " + "examples to " + "illustrate " + "complex "
    + "concepts or " + "terminology.\n\n"
  const TextHeading := "\n\nText to translate:\n"
  const ExtractClause :=
    "\n\nPlease " + "extract and " + "translate all " + "text from the "
    + "uploaded " + "document."

  /** Every language name is a non-empty string. */
  lemma LanguageNamesNonEmpty()
    ensures ValuesNonEmpty(LanguageNames)
  {
  }

  /** `languageNames[sourceLang] || sourceLang`: the language's name, or the
      code itself when the table has no entry for it. */
  function SourceName(code: string): (r: string)
    ensures Lookup(LanguageNames, code).Some? ==> r == Lookup(LanguageNames, code).value
    ensures Lookup(LanguageNames, code).None? ==> r == code
  {
    LanguageNamesNonEmpty();
    LookupNonEmpty(LanguageNames, code);
    OrElse(Lookup(LanguageNames, code), code)
  }

  /** `languageNames[targetLang]` inside a template: no fallback to the code,
      an unknown code reads as `undefined`. */
  function TargetName(code: string): string {
    Interpolate(Lookup(LanguageNames, code))
  }

  function AutoDetectClause(targetName: string): string {
    AutoDetectOpening + targetName + ".\n\n"
  }

  function DirectClause(sourceName: string, targetName: string): string {
    DirectOpening + sourceName + " to " + targetName + ".\n\n"
  }

  function LanguageClause(sourceLang: string, targetLang: string): string {
    if sourceLang == "auto" then AutoDetectClause(TargetName(targetLang))
    else DirectClause(SourceName(sourceLang), TargetName(targetLang))
  }

  function StyleLine(style: string): string {
    "Translation Style: " + Interpolate(Lookup(StyleInstructions, style)) + "\n\n"
  }

  function FormatLine(format: string): string {
    "Format: " + Interpolate(Lookup(FormatInstructions, format)) + "\n\n"
  }

  /** The context line; the builder appends it only when the context is
      not `general`. */
  function ContextLine(context: string): string {
    "Context: " + Interpolate(Lookup(ContextInstructions, context)) + "\n\n"
  }

  /** `if (cond) { prompt += clause; }` */
  function AppendIf(prompt: string, cond: bool, clause: string): string {
    if cond then prompt + clause else prompt
  }

  /** The sentences of the checked options, in the builder's order. */
  function FlagClauses(f: Flags): string {
    (if f.literal then LiteralClause else "")
    + (if f.explanations then ExplanationsClause else "")
    + (if f.deepAnalysis then DeepAnalysisClause else "")
    + (if f.examples then ExamplesClause else "")
  }

  /** The text holds one of the placeholders the PDF and DOCX readers leave. */
  predicate HasDocumentMarker(text: string) {
    Includes(text, PdfMarker) || Includes(text, DocxMarker)
  }

  /** What the builder appends last: the text itself for a plain text, the
      extraction request when the text holds a placeholder, nothing when the
      text is empty. */
  function ContentClause(text: string): string {
    if text != "" && !HasDocumentMarker(text) then TextHeading + text
    else if HasDocumentMarker(text) then ExtractClause
    else ""
  }

  /** Everything up to and including the format line. */
  function Header(o: Options): string {
    Preamble + LanguageClause(o.sourceLang, o.targetLang) + StyleLine(o.style) + FormatLine(o.format)
  }

  /** Everything up to and including the always-present human-quality
      clause. */
  function Guidance(o: Options): string {
    AppendIf(Header(o), o.context != "general", ContextLine(o.context)) + HumanClause
  }

  /** Everything before the content clause. */
  function Instructions(o: Options): string {
    var f := o.flags;
    AppendIf(AppendIf(AppendIf(AppendIf(Guidance(o),
      f.literal, LiteralClause),
      f.explanations, ExplanationsClause),
      f.deepAnalysis, DeepAnalysisClause),
      f.examples, ExamplesClause)
  }

  /** The last step of the builder, appending the content clause when
      there is one. */
  function WithContent(prompt: string, text: string): string {
    if text != "" && !HasDocumentMarker(text) then prompt + (TextHeading + text)
    else if HasDocumentMarker(text) then prompt + ExtractClause
    else prompt
  }

  /** The prompt `buildTranslationPrompt(o)` returns. */
  function Prompt(o: Options): string {
    WithContent(Instructions(o), o.text)
  }

  /** `buildTranslationPrompt(options)` */
  method BuildTranslationPrompt(o: Options) returns (prompt: string)
    ensures prompt == Prompt(o)
  {
    var sourceLangName := SourceName(o.sourceLang);
    var targetLangName := TargetName(o.targetLang);
    var isDocument := HasDocumentMarker(o.text);

    prompt := Preamble;
    if o.sourceLang == "auto" {
      prompt := prompt + AutoDetectClause(targetLangName);
    } else {
      prompt := prompt + DirectClause(sourceLangName, targetLangName);
    }
    prompt := prompt + StyleLine(o.style);
    prompt := prompt + FormatLine(o.format);
    assert prompt == Header(o);
    if o.context != "general" {
      prompt := prompt + ContextLine(o.context);
    }
    prompt := prompt + HumanClause;
    assert prompt == Guidance(o);

    if o.flags.literal {
      prompt := prompt + LiteralClause;
    }
    if o.flags.explanations {
      prompt := prompt + ExplanationsClause;
    }
    if o.flags.deepAnalysis {
      prompt := prompt + DeepAnalysisClause;
    }
    if o.flags.examples {
      prompt := prompt + ExamplesClause;
    }
    assert prompt == Instructions(o);

    ghost var instructions := prompt;
    if o.text != "" && !isDocument {
      prompt := prompt + (TextHeading + o.text);
    } else if isDocument {
      prompt := prompt + ExtractClause;
    }
    assert prompt == WithContent(instructions, o.text);
  }
}
