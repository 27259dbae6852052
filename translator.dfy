/** The pure part of `Translator`: which way to translate, the style labels,
    and the prompt that `translate` hands to the inference engine after
    trimming its input. The engine's output stream is not part of this module. */
module Translation {
  import opened Common

  // ---------------------------------------------------------------------------
  // Direction, Mode, Style
  // ---------------------------------------------------------------------------

  datatype Direction = EnglishToJapanese | JapaneseToEnglish {
    function RawValue(): string {
      match this
      case EnglishToJapanese => "English to Japanese"
      case JapaneseToEnglish => "Japanese to English"
    }
  }

  datatype Mode = Automatic | EnglishToJapanese | JapaneseToEnglish

  datatype Style =
    | Casual | Formal | Technical | Journalistic | WebFiction | Business
    | Nsfw | EducationalCasual | AcademicPresentation | Slang | SnsCasual
  {
    function RawValue(): string {
      match this
      case Casual => "casual"
      case Formal => "formal"
      case Technical => "technical"
      case Journalistic => "journalistic"
      case WebFiction => "web-fiction"
      case Business => "business"
      case Nsfw => "nsfw"
      case EducationalCasual => "educational-casual"
      case AcademicPresentation => "academic-presentation"
      case Slang => "slang"
      case SnsCasual => "sns-casual"
    }
  }

  /** Swift's synthesized `Style(rawValue:)`. */
  function StyleFromRawValue(raw: string): Option<Style> {
    if raw == "casual" then Some(Casual)
    else if raw == "formal" then Some(Formal)
    else if raw == "technical" then Some(Technical)
    else if raw == "journalistic" then Some(Journalistic)
    else if raw == "web-fiction" then Some(WebFiction)
    else if raw == "business" then Some(Business)
    else if raw == "nsfw" then Some(Nsfw)
    else if raw == "educational-casual" then Some(EducationalCasual)
    else if raw == "academic-presentation" then Some(AcademicPresentation)
    else if raw == "slang" then Some(Slang)
    else if raw == "sns-casual" then Some(SnsCasual)
    else None
  }

  /** Every style is recovered from its raw value. */
  lemma StyleRawValueRoundTrip(style: Style)
    ensures StyleFromRawValue(style.RawValue()) == Some(style)
  {
  }

  /** Raw values identify styles: two different styles never share one
      (the style picker uses them as identities). */
  lemma StyleRawValuesDistinct(a: Style, b: Style)
    ensures a.RawValue() == b.RawValue() <==> a == b
  {
    StyleRawValueRoundTrip(a);
    StyleRawValueRoundTrip(b);
  }

  lemma DirectionRawValuesDistinct(a: Direction, b: Direction)
    ensures a.RawValue() == b.RawValue() <==> a == b
  {
  }

  // ---------------------------------------------------------------------------
  // The direction heuristic, on Unicode scalars (Dafny's `char`)
  // ---------------------------------------------------------------------------

  /** `Unicode.Scalar.isASCII`. */
  predicate IsAscii(c: char) {
    c as int < 0x80
  }

  /** The number of ASCII scalars in `s`. */
  function AsciiCount(s: string): (n: nat)
    ensures n <= |s|
  {
    if |s| == 0 then 0
    else AsciiCount(s[..|s| - 1]) + (if IsAscii(s[|s| - 1]) then 1 else 0)
  }

  /** `Mode.direction(for:)`: explicit modes are taken as they are; the
      automatic mode compares the ASCII count with three quarters of the
      scalar count, rounded down by integer division. */
  function DirectionFor(mode: Mode, s: string): Direction {
    match mode
    case Automatic =>
      if AsciiCount(s) < |s| * 3 / 4 then Direction.JapaneseToEnglish
      else Direction.EnglishToJapanese
    case EnglishToJapanese => Direction.EnglishToJapanese
    case JapaneseToEnglish => Direction.JapaneseToEnglish
  }

  lemma ExplicitModesIgnoreText(s: string, t: string)
    ensures DirectionFor(Mode.EnglishToJapanese, s) == DirectionFor(Mode.EnglishToJapanese, t) == Direction.EnglishToJapanese
    ensures DirectionFor(Mode.JapaneseToEnglish, s) == DirectionFor(Mode.JapaneseToEnglish, t) == Direction.JapaneseToEnglish
  {
  }

  /** The automatic rule without the division: Japanese to English exactly
      when four times the ASCII count plus four does not exceed three times
      the scalar count, and English to Japanese otherwise. */
  lemma AutomaticDirectionExact(s: string)
    ensures DirectionFor(Automatic, s) == Direction.JapaneseToEnglish <==> 4 * AsciiCount(s) + 4 <= 3 * |s|
    ensures DirectionFor(Automatic, s) == Direction.EnglishToJapanese <==> 3 * |s| < 4 * AsciiCount(s) + 4
  {
    var a, t := AsciiCount(s), |s|;
    var q := t * 3 / 4;
    assert 4 * q <= 3 * t < 4 * q + 4;
  }

  lemma {:induction false} AllAsciiCount(s: string)
    requires forall i :: 0 <= i < |s| ==> IsAscii(s[i])
    ensures AsciiCount(s) == |s|
  {
    if |s| > 0 {
      AllAsciiCount(s[..|s| - 1]);
    }
  }

  lemma {:induction false} NoAsciiCount(s: string)
    requires forall i :: 0 <= i < |s| ==> !IsAscii(s[i])
    ensures AsciiCount(s) == 0
  {
    if |s| > 0 {
      NoAsciiCount(s[..|s| - 1]);
    }
  }

  /** The empty string and every all-ASCII string are read as English. */
  lemma AllAsciiIsEnglish(s: string)
    requires forall i :: 0 <= i < |s| ==> IsAscii(s[i])
    ensures DirectionFor(Automatic, s) == Direction.EnglishToJapanese
  {
    AllAsciiCount(s);
  }

  /** Two or more scalars none of which is ASCII are read as Japanese. */
  lemma NoAsciiIsJapanese(s: string)
    requires |s| >= 2
    requires forall i :: 0 <= i < |s| ==> !IsAscii(s[i])
    ensures DirectionFor(Automatic, s) == Direction.JapaneseToEnglish
  {
    NoAsciiCount(s);
  }

  /** The rounding edge: one non-ASCII scalar alone is read as English,
      since `1 * 3 / 4` is zero. */
  lemma SingleNonAsciiIsEnglish(c: char)
    requires !IsAscii(c)
    ensures DirectionFor(Automatic, [c]) == Direction.EnglishToJapanese
  {
    assert [c][..0] == [];
  }

  lemma AsciiCountSnoc(s: string, c: char)
    ensures AsciiCount(s + [c]) == AsciiCount(s) + (if IsAscii(c) then 1 else 0)
  {
    assert (s + [c])[..|s|] == s;
  }

  /** Appending an ASCII scalar never turns English into Japanese. */
  lemma AppendAsciiStaysEnglish(s: string, c: char)
    requires IsAscii(c)
    requires DirectionFor(Automatic, s) == Direction.EnglishToJapanese
    ensures DirectionFor(Automatic, s + [c]) == Direction.EnglishToJapanese
  {
    AsciiCountSnoc(s, c);
    AutomaticDirectionExact(s);
    AutomaticDirectionExact(s + [c]);
  }

  // ---------------------------------------------------------------------------
  // Trimming (`trimmingCharacters(in: .whitespacesAndNewlines)`)
  // ---------------------------------------------------------------------------

  /** Foundation's whitespace-and-newline set: the Unicode space separators,
      tab, the line breaks U+000A to U+000D, NEL (U+0085) and the line and
      paragraph separators. */
  predicate IsWhitespace(c: char) {
    var v := c as int;
    (0x09 <= v <= 0x0D) || v == 0x20 || v == 0x85 || v == 0xA0 || v == 0x1680
    || (0x2000 <= v <= 0x200A) || v == 0x2028 || v == 0x2029 || v == 0x202F
    || v == 0x205F || v == 0x3000
  }

  /** `s` without its leading whitespace. */
  function TrimStart(s: string): (r: string)
    ensures |r| <= |s| && r == s[|s| - |r|..]
    ensures forall i :: 0 <= i < |s| - |r| ==> IsWhitespace(s[i])
    ensures r != [] ==> !IsWhitespace(r[0])
    decreases |s|
  {
    if |s| > 0 && IsWhitespace(s[0]) then TrimStart(s[1..]) else s
  }

  /** `s` without its trailing whitespace. */
  function TrimEnd(s: string): (r: string)
    ensures |r| <= |s| && r == s[..|r|]
    ensures forall i :: |r| <= i < |s| ==> IsWhitespace(s[i])
    ensures r != [] ==> !IsWhitespace(r[|r| - 1])
    decreases |s|
  {
    if |s| > 0 && IsWhitespace(s[|s| - 1]) then TrimEnd(s[..|s| - 1]) else s
  }

  /** `s` without whitespace at either end. */
  function Trim(s: string): (r: string)
    ensures r != [] ==> !IsWhitespace(r[0]) && !IsWhitespace(r[|r| - 1])
  {
    TrimEnd(TrimStart(s))
  }

  /** A prefix of a suffix is a slice. */
  lemma SliceOfSuffix(s: string, i: nat, n: nat)
    requires i + n <= |s|
    ensures s[i..][..n] == s[i..i + n]
  {
  }

  /** Whitespace trailing a suffix of `s` trails `s`. */
  lemma TrailingWhitespace(s: string, t: string, n: nat)
    requires |t| <= |s| && t == s[|s| - |t|..] && n <= |t|
    requires forall k :: n <= k < |t| ==> IsWhitespace(t[k])
    ensures forall k :: |s| - |t| + n <= k < |s| ==> IsWhitespace(s[k])
  {
    forall k | |s| - |t| + n <= k < |s| ensures IsWhitespace(s[k]) {
      assert s[k] == t[k - (|s| - |t|)];
    }
  }

  /** What trimming keeps is one contiguous run of `s`, and everything it
      drops is whitespace. */
  lemma TrimIsSlice(s: string) returns (i: nat, j: nat)
    ensures i <= j <= |s| && Trim(s) == s[i..j]
    ensures forall k :: 0 <= k < i ==> IsWhitespace(s[k])
    ensures forall k :: j <= k < |s| ==> IsWhitespace(s[k])
  {
    var t := TrimStart(s);
    var r := TrimEnd(t);
    i := |s| - |t|;
    j := i + |r|;
    SliceOfSuffix(s, i, |r|);
    TrailingWhitespace(s, t, |r|);
  }

  lemma {:induction false} TrimStartFixed(s: string)
    requires s != [] ==> !IsWhitespace(s[0])
    ensures TrimStart(s) == s
  {
  }

  lemma {:induction false} TrimEndFixed(s: string)
    requires s != [] ==> !IsWhitespace(s[|s| - 1])
    ensures TrimEnd(s) == s
  {
  }

  /** Trimming twice is trimming once. */
  lemma TrimIdempotent(s: string)
    ensures Trim(Trim(s)) == Trim(s)
  {
    var r := Trim(s);
    TrimStartFixed(r);
    TrimEndFixed(r);
  }

  /** Trimming leaves nothing exactly when the input is all whitespace. */
  lemma TrimEmptyIff(s: string)
    ensures Trim(s) == [] <==> forall k :: 0 <= k < |s| ==> IsWhitespace(s[k])
  {
    var i, j := TrimIsSlice(s);
  }

  // ---------------------------------------------------------------------------
  // The prompt (`String(format:)` over the template)
  // ---------------------------------------------------------------------------

  /** The template's opening instructions, one sentence per constant. */
  const PreambleRole: string := "You are a highly skilled professional Japanese-English and English-Japanese translator. "
  const PreambleTask: string := "Translate the given text accurately, taking into account the context and specific instructions provided. "
  const PreambleHints: string := "Steps may include hints enclosed in square brackets [] with the key and value separated by a colon:. "
  const PreambleSubject: string := "Only when the subject is specified in the Japanese sentence, the subject will be added when translating into English. "
  const PreambleContext: string := "If no additional instructions or context are provided, use your expertise to consider what the most appropriate context is and provide a natural translation that aligns with that context. "
  const PreambleFidelity: string := "When translating, strive to faithfully reflect the meaning and tone of the original text, pay attention to cultural nuances and differences in language usage, and ensure that the translation is grammatically correct and easy to read. "
  const PreambleReview: string := "After completing the translation, review it once more to check for errors or unnatural expressions. "
  const PreambleTerms: string := "For technical terms and proper nouns, either leave them in the original language or use appropriate translations as necessary. "
  const PreambleCalm: string := "Take a deep breath, calm down, and start translating."
  const Preamble: string :=
    PreambleRole + PreambleTask + PreambleHints + PreambleSubject + PreambleContext
    + PreambleFidelity + PreambleReview + PreambleTerms + PreambleCalm

  const TemplateHead: string := Preamble + "\n\n<start_of_turn>### Instruction:\nTranslate "
  const TemplateAfterDirection: string := ".\nWhen translating, please use the following hints:\n[writing_style: "
  const TemplateAfterStyle: string := "]\n\n### Input:\n"
  const TemplateTail: string := "\n<end_of_turn>\n<start_of_turn>### Response:\n"


  function Prepend(prefix: string, rest: Option<string>): Option<string> {
    match rest
    case None => None
    case Some(s) => Some(prefix + s)
  }

  /** `String(format:)` for string arguments: each `%@` takes the next
      argument, `%%` is a literal `%`, and any other use of `%` (or a `%@`
      with no argument left) is refused. Arguments themselves are never
      scanned for specifiers. */
  function Format(format: string, args: seq<string>): Option<string>
    decreases |format|
  {
    if |format| == 0 then Some([])
    else if format[0] != '%' then Prepend([format[0]], Format(format[1..], args))
    else if |format| >= 2 && format[1] == '@' then
      if |args| == 0 then None else Prepend(args[0], Format(format[2..], args[1..]))
    else if |format| >= 2 && format[1] == '%' then Prepend("%", Format(format[2..], args))
    else None
  }

  /** Text without `%` passes through `Format` unchanged. */
  lemma {:induction false} FormatLiteral(lit: string, rest: string, args: seq<string>)
    requires '%' !in lit
    ensures Format(lit + rest, args) == Prepend(lit, Format(rest, args))
    decreases |lit|
  {
    if lit != [] {
      var tail := lit[1..];
      assert lit == [lit[0]] + tail;
      assert '%' !in tail by {
        forall k | 0 <= k < |tail| ensures tail[k] != '%' { assert tail[k] == lit[k + 1]; }
      }
      assert (lit + rest)[0] == lit[0] != '%';
      assert (lit + rest)[1..] == tail + rest;
      assert Format(lit + rest, args) == Prepend([lit[0]], Format(tail + rest, args));
      FormatLiteral(tail, rest, args);
      match Format(rest, args)
      case None =>
      case Some(x) => assert [lit[0]] + (tail + x) == lit + x;
    } else {
      assert lit + rest == rest;
      match Format(rest, args)
      case None =>
      case Some(x) => assert lit + x == x;
    }
  }

  lemma FormatArgument(rest: string, arg: string, args: seq<string>)
    ensures Format("%@" + rest, [arg] + args) == Prepend(arg, Format(rest, args))
    ensures Format("%@" + rest, []) == None
  {
    assert ("%@" + rest)[2..] == rest;
    assert ([arg] + args)[1..] == args;
  }

  /** The template as `String(format:)` reads it: runs of plain text and
      `%@` specifiers. */
  datatype Segment = Text(text: string) | Argument

  /** The format string a sequence of segments spells. */
  function Render(segments: seq<Segment>): string {
    if segments == [] then []
    else
      match segments[0]
      case Text(t) => t + Render(segments[1..])
      case Argument => "%@" + Render(segments[1..])
  }

  /** Segments with the arguments put in the specifiers' places, in order. */
  function Fill(segments: seq<Segment>, args: seq<string>): Option<string> {
    if segments == [] then Some([])
    else
      match segments[0]
      case Text(t) => Prepend(t, Fill(segments[1..], args))
      case Argument =>
        if |args| == 0 then None else Prepend(args[0], Fill(segments[1..], args[1..]))
  }

  predicate IsPlainText(segments: seq<Segment>) {
    forall i :: 0 <= i < |segments| && segments[i].Text? ==> '%' !in segments[i].text
  }

  /** `String(format:)` of a rendered template is the template filled
      in, whenever its text runs hold no `%`. */
  lemma {:induction false} FormatRendered(segments: seq<Segment>, args: seq<string>)
    requires IsPlainText(segments)
    ensures Format(Render(segments), args) == Fill(segments, args)
    decreases |segments|
  {
    if segments != [] {
      var rest := segments[1..];
      assert IsPlainText(rest) by {
        forall i | 0 <= i < |rest| && rest[i].Text? ensures '%' !in rest[i].text {
          assert rest[i] == segments[i + 1];
        }
      }
      match segments[0]
      case Text(t) =>
        FormatLiteral(t, Render(rest), args);
        FormatRendered(rest, args);
      case Argument =>
        if |args| == 0 {
          FormatArgument(Render(rest), "", []);
        } else {
          assert args == [args[0]] + args[1..];
          FormatArgument(Render(rest), args[0], args[1..]);
          FormatRendered(rest, args[1..]);
        }
    }
  }

  /** The template of `translate`: three specifiers, for the direction, the
      style and the input. */
  const TemplateSegments: seq<Segment> := [
    Text(TemplateHead), Argument, Text(TemplateAfterDirection), Argument,
    Text(TemplateAfterStyle), Argument, Text(TemplateTail)]

  /** The template text itself. */
  const Template: string := Render(TemplateSegments)

  /** The prompt `translate` builds: the template filled with the direction,
      the style and the input, after trimming the input. The direction is
      decided on the trimmed text too. */
  function Prompt(input: string, mode: Mode, style: Style): Option<string> {
    var text := Trim(input);
    Fill(TemplateSegments, [DirectionFor(mode, text).RawValue(), style.RawValue(), text])
  }

  lemma FillThreeSlots(head: string, mid1: string, mid2: string, tail: string, a: string, b: string, c: string)
    ensures Fill([Text(head), Argument, Text(mid1), Argument, Text(mid2), Argument, Text(tail)], [a, b, c])
         == Some(head + a + mid1 + b + mid2 + c + tail)
  {
    var segs := [Text(head), Argument, Text(mid1), Argument, Text(mid2), Argument, Text(tail)];
    assert segs[6..][1..] == segs[7..] == [];
    assert tail + [] == tail;
    assert Fill(segs[6..], []) == Some(tail);
    assert segs[5..][1..] == segs[6..] && [c][1..] == [];
    assert Fill(segs[5..], [c]) == Some(c + tail);
    assert segs[4..][1..] == segs[5..];
    assert Fill(segs[4..], [c]) == Some(mid2 + (c + tail));
    assert segs[3..][1..] == segs[4..] && [b, c][1..] == [c];
    assert Fill(segs[3..], [b, c]) == Some(b + (mid2 + (c + tail)));
    assert segs[2..][1..] == segs[3..];
    assert Fill(segs[2..], [b, c]) == Some(mid1 + (b + (mid2 + (c + tail))));
    assert segs[1..][1..] == segs[2..] && [a, b, c][1..] == [b, c];
    assert Fill(segs[1..], [a, b, c]) == Some(a + (mid1 + (b + (mid2 + (c + tail)))));
    assert segs[0..][1..] == segs[1..];
    assert head + (a + (mid1 + (b + (mid2 + (c + tail))))) == head + a + mid1 + b + mid2 + c + tail;
  }

  /** The three slots receive the direction's raw value, the style's raw
      value and the trimmed input, in that order, and nothing else of the
      template changes. */
  lemma PromptFillsSlots(input: string, mode: Mode, style: Style)
    ensures Prompt(input, mode, style) == Some(
      TemplateHead + DirectionFor(mode, Trim(input)).RawValue()
      + TemplateAfterDirection + style.RawValue()
      + TemplateAfterStyle + Trim(input) + TemplateTail)
  {
    FillThreeSlots(TemplateHead, TemplateAfterDirection, TemplateAfterStyle, TemplateTail,
      DirectionFor(mode, Trim(input)).RawValue(), style.RawValue(), Trim(input));
  }

  /** Leading and trailing whitespace never reaches the engine: the prompt
      of an input is the prompt of its trimmed form. */
  lemma PromptDependsOnlyOnTrimmed(input: string, mode: Mode, style: Style)
    ensures Prompt(input, mode, style) == Prompt(Trim(input), mode, style)
  {
    TrimIdempotent(input);
  }
}
