/**
 * What the prompt promises, proved about `PromptBuilder.Prompt`: the order
 * of its paragraphs, which of them are always there, which depend on an
 * option and exactly when, and how the text to translate is (or is not)
 * carried.
 *
 * The fixed sentences are long literals; each fact about their characters
 * is proved in a lemma of its own, and the lemmas about the whole prompt
 * only combine such facts.
 */
module PromptProperties {
  import opened Wrappers
  import opened JsStrings
  import opened Tables
  import opened Upload
  import opened PromptBuilder

  // ---------------------------------------------------------------------
  // Layout: the builder's step-by-step appends as one concatenation.

  /** An optional append followed by an unconditional one. */
  lemma AppendIfThen(p: string, c: bool, s: string, t: string)
    ensures AppendIf(p, c, s) + t == p + (if c then s + t else t)
  {
    if c {
      AppendAssoc(p, s, t);
    }
  }

  /** Four optional appends in a row are one append of the chosen parts. */
  lemma AppendIfChain(p: string, c1: bool, s1: string, c2: bool, s2: string,
                      c3: bool, s3: string, c4: bool, s4: string)
    ensures AppendIf(AppendIf(AppendIf(AppendIf(p, c1, s1), c2, s2), c3, s3), c4, s4)
            == p + ((if c1 then s1 else "") + (if c2 then s2 else "")
                    + (if c3 then s3 else "") + (if c4 then s4 else ""))
  {
    var a := if c1 then s1 else "";
    var b := if c2 then s2 else "";
    var c := if c3 then s3 else "";
    var d := if c4 then s4 else "";
    assert AppendIf(p, c1, s1) == p + a;
    AppendAssoc(p, a, b);
    assert AppendIf(p + a, c2, s2) == p + (a + b);
    AppendAssoc(p, a + b, c);
    assert AppendIf(p + (a + b), c3, s3) == p + (a + b + c);
    AppendAssoc(p, a + b + c, d);
    assert AppendIf(p + (a + b + c), c4, s4) == p + (a + b + c + d);
  }

  /** The guidance is the header, then the context line when the context is
      not `general`, then the human-quality clause. */
  lemma GuidanceLayout(o: Options)
    ensures Guidance(o) == Header(o)
              + (if o.context != "general" then ContextLine(o.context) + HumanClause else HumanClause)
  {
    AppendIfThen(Header(o), o.context != "general", ContextLine(o.context), HumanClause);
  }

  /** The flag sentences, one `AppendIf` after another, are the flag
      sentences appended as one block. */
  lemma InstructionsLayout(o: Options)
    ensures Instructions(o) == Guidance(o) + FlagClauses(o.flags)
  {
    var f := o.flags;
    AppendIfChain(Guidance(o), f.literal, LiteralClause, f.explanations, ExplanationsClause,
                  f.deepAnalysis, DeepAnalysisClause, f.examples, ExamplesClause);
  }

  /** The last step of the builder appends the content clause. */
  lemma WithContentAppends(prompt: string, text: string)
    ensures WithContent(prompt, text) == prompt + ContentClause(text)
  {
    if ContentClause(text) == "" {
      assert prompt + "" == prompt;
    }
  }

  /** The prompt is the guidance (everything up to the human-quality
      clause), then the flag sentences, then the content clause. */
  lemma PromptLayout(o: Options)
    ensures Prompt(o) == Guidance(o) + (FlagClauses(o.flags) + ContentClause(o.text))
  {
    InstructionsLayout(o);
    WithContentAppends(Instructions(o), o.text);
    AppendAssoc(Guidance(o), FlagClauses(o.flags), ContentClause(o.text));
  }

  /** The prompt starts with its header and with its guidance. */
  lemma PromptPrefixes(o: Options)
    ensures StartsWith(Prompt(o), Guidance(o))
    ensures StartsWith(Prompt(o), Header(o))
  {
    PromptLayout(o);
    GuidanceLayout(o);
    var tail := if o.context != "general" then ContextLine(o.context) + HumanClause else HumanClause;
    PrefixOfAppend(Guidance(o), FlagClauses(o.flags) + ContentClause(o.text));
    PrefixOfAppend(Header(o), tail);
    StartsWithTrans(Prompt(o), Guidance(o), Header(o));
  }

  // ---------------------------------------------------------------------
  // The language clause.

  /** The two openings of the language clause differ in their first
      character. */
  lemma OpeningsDiffer()
    ensures AutoDetectOpening[0] == 'P' && DirectOpening[0] == 'T'
  {
  }

  /** The language clause opens with the automatic-detection opening when
      the source is `auto`, with the "from" opening otherwise. */
  lemma LanguageClauseOpening(sourceLang: string, targetLang: string)
    ensures StartsWith(LanguageClause(sourceLang, targetLang),
                       if sourceLang == "auto" then AutoDetectOpening else DirectOpening)
  {
    var tgt := TargetName(targetLang);
    if sourceLang == "auto" {
      PrefixOfAppend(AutoDetectOpening, tgt);
      StartsWithExtend(AutoDetectOpening + tgt, AutoDetectOpening, ".\n\n");
    } else {
      var src := SourceName(sourceLang);
      PrefixOfAppend(DirectOpening, src);
      StartsWithExtend(DirectOpening + src, DirectOpening, " to ");
      StartsWithExtend(DirectOpening + src + " to ", DirectOpening, tgt);
      StartsWithExtend(DirectOpening + src + " to " + tgt, DirectOpening, ".\n\n");
    }
  }

  /** The prompt starts with the preamble followed by the language clause. */
  lemma PromptOpening(o: Options)
    ensures StartsWith(Prompt(o), Preamble + LanguageClause(o.sourceLang, o.targetLang))
  {
    var head := Preamble + LanguageClause(o.sourceLang, o.targetLang);
    PromptPrefixes(o);
    PrefixOfAppend(head, StyleLine(o.style));
    StartsWithExtend(head + StyleLine(o.style), head, FormatLine(o.format));
    StartsWithTrans(Prompt(o), Header(o), head);
  }

  /** The prompt opens with the persona preamble, followed at once by the
      language clause: the automatic-detection clause naming the target
      exactly when the source is `auto`, the "from ... to ..." clause
      exactly when it is not. */
  lemma LanguageClauseFollowsPreamble(o: Options)
    ensures o.sourceLang == "auto" ==>
              StartsWith(Prompt(o), Preamble + AutoDetectClause(TargetName(o.targetLang)))
    ensures o.sourceLang != "auto" ==>
              StartsWith(Prompt(o), Preamble + DirectClause(SourceName(o.sourceLang), TargetName(o.targetLang)))
    ensures StartsWith(Prompt(o), Preamble + AutoDetectOpening) <==> o.sourceLang == "auto"
    ensures StartsWith(Prompt(o), Preamble + DirectOpening) <==> o.sourceLang != "auto"
  {
    var lang := LanguageClause(o.sourceLang, o.targetLang);
    var opening := if o.sourceLang == "auto" then AutoDetectOpening else DirectOpening;
    var other := if o.sourceLang == "auto" then DirectOpening else AutoDetectOpening;
    PromptOpening(o);
    LanguageClauseOpening(o.sourceLang, o.targetLang);
    StartsWithBoth(Preamble, lang, opening);
    StartsWithTrans(Prompt(o), Preamble + lang, Preamble + opening);
    OpeningsDiffer();
    StartsWithExcludes(Prompt(o), Preamble + opening, Preamble + other, |Preamble|);
  }

  /** The language clause names the target by its table entry, and with no
      fallback to the code: an unknown target code reads `undefined`. */
  lemma TargetNameInLanguageClause(o: Options)
    ensures var name := Lookup(LanguageNames, o.targetLang);
      StartsWith(Prompt(o),
                 Preamble
                 + (if o.sourceLang == "auto" then AutoDetectOpening
                    else DirectOpening + SourceName(o.sourceLang) + " to ")
                 + (if name.Some? then name.value else "undefined")
                 + ".\n\n")
  {
    var lang := LanguageClause(o.sourceLang, o.targetLang);
    var opening := if o.sourceLang == "auto" then AutoDetectOpening
                   else DirectOpening + SourceName(o.sourceLang) + " to ";
    var target := TargetName(o.targetLang);
    assert lang == opening + target + ".\n\n";
    PromptOpening(o);
    AppendAssoc(Preamble, opening + target, ".\n\n");
    AppendAssoc(Preamble, opening, target);
  }

  // ---------------------------------------------------------------------
  // Style, format and context lines.

  /** Right after the language clause come the style line and the format
      line, always; each carries its table's sentence, or `undefined` when
      the table has no entry for the key. */
  lemma StyleAndFormatLinesAlwaysPresent(o: Options)
    ensures OccursAt(Prompt(o), |Preamble + LanguageClause(o.sourceLang, o.targetLang)|,
                     StyleLine(o.style) + FormatLine(o.format))
    ensures var v := Lookup(StyleInstructions, o.style);
      Includes(Prompt(o), "Translation Style: " + (if v.Some? then v.value else "undefined") + "\n\n")
    ensures var v := Lookup(FormatInstructions, o.format);
      Includes(Prompt(o), "Format: " + (if v.Some? then v.value else "undefined") + "\n\n")
  {
    PromptPrefixes(o);
    PairAfterHead(Prompt(o), Preamble + LanguageClause(o.sourceLang, o.targetLang),
                  StyleLine(o.style), FormatLine(o.format));
  }

  /** The first characters of the context line and of the human-quality
      clause. */
  lemma ContextAndHumanOpenings(context: string)
    ensures StartsWith(ContextLine(context), "Context: ")
    ensures "Context: "[0] == 'C' && HumanClause[0] == 'I'
  {
    var value := Interpolate(Lookup(ContextInstructions, context));
    PrefixOfAppend("Context: ", value);
    StartsWithExtend("Context: " + value, "Context: ", "\n\n");
  }

  /** After the format line: a context line exactly when the context is not
      `general` (its table sentence or `undefined`), and then, for every
      input, the clause asking for a natural, human-written translation. */
  lemma ContextLineIffNotGeneral(o: Options)
    ensures OccursAt(Prompt(o), |Header(o)|, "Context: ") <==> o.context != "general"
    ensures o.context != "general" ==> OccursAt(Prompt(o), |Header(o)|, ContextLine(o.context) + HumanClause)
    ensures o.context == "general" ==> OccursAt(Prompt(o), |Header(o)|, HumanClause)
    ensures var v := Lookup(ContextInstructions, o.context);
      ContextLine(o.context) == "Context: " + (if v.Some? then v.value else "undefined") + "\n\n"
  {
    var h := Header(o);
    var tail := if o.context != "general" then ContextLine(o.context) + HumanClause else HumanClause;
    GuidanceLayout(o);
    PromptPrefixes(o);
    OccursAfter(Prompt(o), h, tail);
    ContextAndHumanOpenings(o.context);
    if o.context != "general" {
      OccursAtSplit(Prompt(o), |h|, ContextLine(o.context), HumanClause);
      OccursAtPrefix(Prompt(o), |h|, ContextLine(o.context), "Context: ");
    } else {
      OccursAtExcludes(Prompt(o), |h|, HumanClause, "Context: ", 0);
    }
  }

  /** The human-quality clause is in every prompt. */
  lemma HumanClauseAlwaysPresent(o: Options)
    ensures Includes(Prompt(o), HumanClause)
  {
    var h := Header(o);
    ContextLineIffNotGeneral(o);
    if o.context != "general" {
      OccursAtIncludesSecond(Prompt(o), |h|, ContextLine(o.context), HumanClause);
    } else {
      IncludesAt(Prompt(o), HumanClause, |h|);
    }
  }

  // ---------------------------------------------------------------------
  // The sentences of the checked options.

  /** `s` without its leading `clause`, or `s` itself when it does not
      start with it. */
  function Strip(s: string, clause: string): string {
    if StartsWith(s, clause) then s[|clause|..] else s
  }

  /** Reads four optional sentences `l`, `e`, `d`, `x` back off the front
      of `s`, in that order. */
  function DecodeWith(s: string, l: string, e: string, d: string, x: string): Flags {
    var s1 := Strip(s, l);
    var s2 := Strip(s1, e);
    var s3 := Strip(s2, d);
    Flags(StartsWith(s, l), StartsWith(s1, e), StartsWith(s2, d), StartsWith(s3, x))
  }

  /** Reads the flag sentences back off the text that follows the
      human-quality clause, in the builder's order. */
  function DecodeFlags(s: string): Flags {
    DecodeWith(s, LiteralClause, ExplanationsClause, DeepAnalysisClause, ExamplesClause)
  }

  /** The text following a flag sentence block: either nothing, or a
      content clause, which opens with a line break. */
  predicate OpensWithBreakOrEmpty(s: string) {
    s == [] || s[0] == '\n'
  }

  /** A string whose first character differs from that of `p` does not
      start with `p`. */
  lemma FirstCharExcludes(s: string, p: string)
    requires p != [] && (s == [] || s[0] != p[0])
    ensures !StartsWith(s, p)
  {
    if s != [] && |p| <= |s| {
      assert s[..|p|][0] == s[0];
    }
  }

  /** Putting `clause` in front of `rest` when `on`, where `rest` does not
      start with `clause`: the result starts with the clause exactly when
      `on`, stripping the clause gives `rest` back, and the first character
      is the clause's when `on` and `rest`'s otherwise. */
  lemma OptionalClause(on: bool, clause: string, rest: string)
    requires clause != [] && !StartsWith(rest, clause)
    ensures var s := (if on then clause else "") + rest;
      && StartsWith(s, clause) == on
      && Strip(s, clause) == rest
      && (s == [] || s[0] == (if on then clause[0] else rest[0]))
  {
    if on {
      PrefixOfAppend(clause, rest);
      assert (clause + rest)[|clause|..] == rest;
    } else {
      assert "" + rest == rest;
    }
  }

  /** The characters that tell the flag sentences apart: their first ones,
      and the one after "After the translation, provide " in the two
      sentences that share that opening. */
  lemma FlagSentenceOpenings()
    ensures LiteralClause[0] == 'P' && ExplanationsClause[0] == 'A'
    ensures DeepAnalysisClause[0] == 'A' && ExamplesClause[0] == 'I'
    ensures ExplanationsClause[31] == 'e' && DeepAnalysisClause[31] == 'a'
  {
  }

  /** What keeps four optional sentences apart when read back in order:
      none is empty, each one's first character differs from that of every
      later one and from a line break, and `e` and `d`, which share their
      opening, differ at position `k`. */
  predicate Distinguishable(l: string, e: string, d: string, x: string, k: nat) {
    && l != [] && e != [] && d != [] && x != []
    && x[0] != '\n'
    && d[0] != x[0] && d[0] != '\n'
    && e[0] != x[0] && e[0] != '\n' && k < |e| && k < |d| && e[k] != d[k]
    && l[0] != e[0] && l[0] != d[0] && l[0] != x[0] && l[0] != '\n'
  }

  /** Distinguishable optional sentences, followed by nothing or by a line
      break, are read back exactly. */
  lemma DecodeWithClauses(f: Flags, rest: string, l: string, e: string, d: string, x: string, k: nat)
    requires OpensWithBreakOrEmpty(rest) && Distinguishable(l, e, d, x, k)
    ensures DecodeWith((if f.literal then l else "") + (if f.explanations then e else "")
                       + (if f.deepAnalysis then d else "") + (if f.examples then x else "") + rest,
                       l, e, d, x) == f
  {
    var a := if f.literal then l else "";
    var b := if f.explanations then e else "";
    var c := if f.deepAnalysis then d else "";
    var dd := if f.examples then x else "";
    var t3 := dd + rest;
    var t2 := c + t3;
    var t1 := b + t2;
    AppendAssoc(a + b + c, dd, rest);
    AppendAssoc(a + b, c, dd + rest);
    AppendAssoc(a, b, c + (dd + rest));
    FirstCharExcludes(rest, x);
    OptionalClause(f.examples, x, rest);
    FirstCharExcludes(t3, d);
    OptionalClause(f.deepAnalysis, d, t3);
    if f.deepAnalysis {
      PrefixOfAppend(d, t3);
      StartsWithExcludes(t2, d, e, k);
    } else {
      FirstCharExcludes(t2, e);
    }
    OptionalClause(f.explanations, e, t2);
    FirstCharExcludes(t1, l);
    OptionalClause(f.literal, l, t1);
  }

  /** Each flag sentence is present exactly when its flag is set: the flags
      can be read back from the sentences, whatever content clause follows. */
  lemma DecodeFlagClauses(f: Flags, rest: string)
    requires OpensWithBreakOrEmpty(rest)
    ensures DecodeFlags(FlagClauses(f) + rest) == f
  {
    FlagSentenceOpenings();
    DecodeWithClauses(f, rest, LiteralClause, ExplanationsClause, DeepAnalysisClause, ExamplesClause, 31);
  }

  /** The content clause opens with a line break, or is empty. */
  lemma ContentClauseOpening(text: string)
    ensures OpensWithBreakOrEmpty(ContentClause(text))
  {
    assert TextHeading[0] == '\n' && ExtractClause[0] == '\n';
  }

  /** Right after the human-quality clause come the sentences of the checked
      options, each exactly when its option is checked, in the order literal,
      explanations, deep analysis, examples. */
  lemma FlagSentencesExact(o: Options)
    ensures OccursAt(Prompt(o), |Guidance(o)|, FlagClauses(o.flags))
    ensures DecodeFlags(Prompt(o)[|Guidance(o)|..]) == o.flags
  {
    PromptLayout(o);
    AfterHead(Prompt(o), Guidance(o), FlagClauses(o.flags), ContentClause(o.text));
    ContentClauseOpening(o.text);
    DecodeFlagClauses(o.flags, ContentClause(o.text));
  }

  // ---------------------------------------------------------------------
  // The content clause.

  /** How the prompt ends: with the text after a heading when the text is
      plain and non-empty, with the extraction request when the text holds a
      placeholder, and with the instructions alone when the text is empty. */
  lemma ContentClauseCases(o: Options)
    ensures o.text != "" && !HasDocumentMarker(o.text) ==>
              Prompt(o) == Instructions(o) + (TextHeading + o.text) && EndsWith(Prompt(o), TextHeading + o.text)
    ensures HasDocumentMarker(o.text) ==>
              Prompt(o) == Instructions(o) + ExtractClause && EndsWith(Prompt(o), ExtractClause)
    ensures o.text == "" ==> Prompt(o) == Instructions(o)
  {
    if o.text == "" {
      assert !StartsWith(o.text, PdfMarker) && !StartsWith(o.text, DocxMarker);
    } else {
      SuffixOfAppend(Instructions(o), ContentClause(o.text));
    }
  }

  // None of the fixed sentences holds a `[`, one lemma per sentence.

  lemma PreambleHasNoBracket()
    ensures '[' !in Preamble
  {
  }

  lemma OpeningsHaveNoBracket()
    ensures '[' !in AutoDetectOpening && '[' !in DirectOpening
  {
  }

  lemma HumanClauseHasNoBracket()
    ensures '[' !in HumanClause
  {
  }

  lemma ExtractClauseHasNoBracket()
    ensures '[' !in ExtractClause
  {
  }

  lemma LiteralClauseHasNoBracket()
    ensures '[' !in LiteralClause
  {
  }

  lemma ExplanationsClauseHasNoBracket()
    ensures '[' !in ExplanationsClause
  {
  }

  lemma DeepAnalysisClauseHasNoBracket()
    ensures '[' !in DeepAnalysisClause
  {
  }

  lemma ExamplesClauseHasNoBracket()
    ensures '[' !in ExamplesClause
  {
  }

  /** None of the flag sentences holds a `[`. */
  lemma FlagClausesHaveNoBracket(f: Flags)
    ensures '[' !in FlagClauses(f)
  {
    LiteralClauseHasNoBracket();
    ExplanationsClauseHasNoBracket();
    DeepAnalysisClauseHasNoBracket();
    ExamplesClauseHasNoBracket();
  }

  // No value of the four tables holds a `[`.

  lemma LanguageNamesAvoidBracket()
    ensures ValuesAvoid(LanguageNames, '[')
  {
  }

  lemma AcademicStyleHasNoBracket()
    ensures '[' !in AcademicStyle
  {
  }

  lemma ProfessionalStyleHasNoBracket()
    ensures '[' !in ProfessionalStyle
  {
  }

  lemma EmailStyleHasNoBracket()
    ensures '[' !in EmailStyle
  {
  }

  lemma FormalStyleHasNoBracket()
    ensures '[' !in FormalStyle
  {
  }

  lemma CasualStyleHasNoBracket()
    ensures '[' !in CasualStyle
  {
  }

  lemma CreativeStyleHasNoBracket()
    ensures '[' !in CreativeStyle
  {
  }

  lemma ParagraphsFormatHasNoBracket()
    ensures '[' !in ParagraphsFormat
  {
  }

  lemma LetterFormatHasNoBracket()
    ensures '[' !in LetterFormat
  {
  }

  lemma RecommendationFormatHasNoBracket()
    ensures '[' !in RecommendationFormat
  {
  }

  lemma BulletsFormatHasNoBracket()
    ensures '[' !in BulletsFormat
  {
  }

  lemma AcademicContextHasNoBracket()
    ensures '[' !in AcademicContext
  {
  }

  lemma BusinessContextHasNoBracket()
    ensures '[' !in BusinessContext
  {
  }

  lemma PresentationContextHasNoBracket()
    ensures '[' !in PresentationContext
  {
  }

  lemma ResearchContextHasNoBracket()
    ensures '[' !in ResearchContext
  {
  }

  lemma StyleInstructionsAvoidBracket()
    ensures ValuesAvoid(StyleInstructions, '[')
  {
    AcademicStyleHasNoBracket();
    ProfessionalStyleHasNoBracket();
    EmailStyleHasNoBracket();
    FormalStyleHasNoBracket();
    CasualStyleHasNoBracket();
    CreativeStyleHasNoBracket();
  }

  lemma FormatInstructionsAvoidBracket()
    ensures ValuesAvoid(FormatInstructions, '[')
  {
    ParagraphsFormatHasNoBracket();
    LetterFormatHasNoBracket();
    RecommendationFormatHasNoBracket();
    BulletsFormatHasNoBracket();
  }

  lemma ContextInstructionsAvoidBracket()
    ensures ValuesAvoid(ContextInstructions, '[')
  {
    AcademicContextHasNoBracket();
    BusinessContextHasNoBracket();
    PresentationContextHasNoBracket();
    ResearchContextHasNoBracket();
  }

  /** A value looked up in a table without `[`, or `undefined`, holds no
      `[`. */
  lemma InterpolatedAvoidsBracket(table: Table, key: string)
    requires ValuesAvoid(table, '[')
    ensures '[' !in Interpolate(Lookup(table, key))
  {
    LookupAvoids(table, key, '[');
  }

  /** The header holds no `[` unless an unknown source code brings one. */
  lemma HeaderHasNoBracket(o: Options)
    requires '[' !in o.sourceLang
    ensures '[' !in Header(o)
  {
    PreambleHasNoBracket();
    OpeningsHaveNoBracket();
    LanguageNamesAvoidBracket();
    LookupAvoids(LanguageNames, o.sourceLang, '[');
    InterpolatedAvoidsBracket(LanguageNames, o.targetLang);
    StyleInstructionsAvoidBracket();
    InterpolatedAvoidsBracket(StyleInstructions, o.style);
    FormatInstructionsAvoidBracket();
    InterpolatedAvoidsBracket(FormatInstructions, o.format);
  }

  /** No paragraph the builder writes holds a `[`, except a source code that
      is not in the language table and is echoed as it is. */
  lemma InstructionsHaveNoBracket(o: Options)
    requires '[' !in o.sourceLang
    ensures '[' !in Instructions(o)
  {
    HeaderHasNoBracket(o);
    HumanClauseHasNoBracket();
    ContextInstructionsAvoidBracket();
    InterpolatedAvoidsBracket(ContextInstructions, o.context);
    FlagClausesHaveNoBracket(o.flags);
    GuidanceLayout(o);
    InstructionsLayout(o);
  }

  /** A text holding a placeholder is never copied into the prompt: the
      prompt asks for the attached document instead. (Only a source code
      outside the language table, echoed as it is, could bring a `[` in.) */
  lemma PlaceholderTextNotEchoed(o: Options)
    requires HasDocumentMarker(o.text) && '[' !in o.sourceLang
    ensures EndsWith(Prompt(o), ExtractClause)
    ensures !Includes(Prompt(o), o.text)
  {
    ContentClauseCases(o);
    InstructionsHaveNoBracket(o);
    ExtractClauseHasNoBracket();
    if Includes(o.text, PdfMarker) {
      IncludesKeepsChars(o.text, PdfMarker, '[');
    } else {
      IncludesKeepsChars(o.text, DocxMarker, '[');
    }
    if Includes(Prompt(o), o.text) {
      IncludesKeepsChars(Prompt(o), o.text, '[');
      assert false;
    }
  }
}
