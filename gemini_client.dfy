/**
 * The browser-side recipe extractor (src/services/geminiService.js): image
 * analysis into an ingredient list, recipe generation from ingredients and
 * preferences, repeated generation of variations, and the fallback that
 * reads an ingredient list out of free text. The model, `JSON.parse`, the
 * clock and the reading of the image file are parameters.
 */
module GeminiClient {
  import opened Wrappers
  import opened Text
  import opened Values
  import opened Preferences
  import opened Gateway
  import opened Prompts
  import opened ResponseText
  import opened Messages
  import opened Lines

  const LabelPrefix := "ingredient:"

  /** `line.replace(/^ingredient:\s*\/i, '')`: a leading label in any case. */
  function StripLabel(line: string): string {
    if StartsWithIgnoringCase(line, LabelPrefix) then TrimStart(line[|LabelPrefix|..]) else line
  }

  /** One line of free text cleaned to an ingredient candidate. */
  function CleanLine(line: string): (r: string)
    ensures Trimmed(r)
  {
    Trim(StripLabel(StripNumbering(StripBullet(line))))
  }

  /** Every line cleaned, in order. */
  function CleanAll(lines: seq<string>): seq<string> {
    MapLines(CleanLine, lines)
  }

  /** The ingredient list read out of a response that holds no array. */
  function FallbackIngredients(text: string): seq<string> {
    LongEnough(CleanAll(NonBlank(Split(text, '\n'))))
  }

  /** Every fallback ingredient is trimmed and longer than two characters. */
  lemma FallbackIngredientsClean(text: string)
    ensures forall i :: 0 <= i < |FallbackIngredients(text)| ==>
      Trimmed(FallbackIngredients(text)[i]) && |FallbackIngredients(text)[i]| > 2
  {
    MapLinesTrimmed(CleanLine, NonBlank(Split(text, '\n')));
  }

  /** One loop step of the extraction. */
  lemma ExtractStep(lines: seq<string>, i: nat)
    requires i < |lines|
    ensures LongEnough(CleanAll(lines[..i + 1])) ==
      LongEnough(CleanAll(lines[..i])) + (if |CleanLine(lines[i])| > 2 then [CleanLine(lines[i])] else [])
  {
    assert lines[..i + 1] == lines[..i] + [lines[i]];
    MapLinesSnoc(CleanLine, lines[..i], lines[i]);
    LongEnoughSnoc(CleanAll(lines[..i]), CleanLine(lines[i]));
  }

  /** `extractIngredientsFromText`: split into lines, drop blank ones, clean
      each and keep those longer than two characters. */
  method ExtractIngredientsFromText(text: string) returns (ingredients: seq<string>)
    ensures ingredients == FallbackIngredients(text)
  {
    var lines := NonBlank(Split(text, '\n'));
    ingredients := [];
    var i := 0;
    while i < |lines|
      invariant 0 <= i <= |lines|
      invariant ingredients == LongEnough(CleanAll(lines[..i]))
    {
      var cleaned := CleanLine(lines[i]);
      assert LongEnough(CleanAll(lines[..i + 1])) == ingredients + (if |cleaned| > 2 then [cleaned] else []) by {
        ExtractStep(lines, i);
      }
      if |cleaned| > 2 {
        ingredients := ingredients + [cleaned];
      }
      i := i + 1;
    }
    assert lines[..|lines|] == lines;
  }

  /** A line that carries no bullet, numbering, label or surrounding space. */
  predicate PlainName(name: string) {
    && Trimmed(name) && |name| > 2 && '\n' !in name
    && !IsBullet(name[0]) && !IsDigit(name[0])
    && !StartsWithIgnoringCase(name, LabelPrefix)
  }

  /** A plain name is its own cleaned line. */
  lemma CleanPlainName(name: string)
    requires PlainName(name)
    ensures CleanLine(name) == name
  {
    assert StripBullet(name) == name;
    assert LeadingDigits(name) == 0;
    assert StripNumbering(name) == name;
    assert StripLabel(name) == name;
    TrimOfTrimmed(name);
  }

  /** Plain names are listed as they stand. */
  lemma PlainNamesListed(names: seq<string>)
    requires forall i :: 0 <= i < |names| ==> PlainName(names[i])
    ensures forall i :: 0 <= i < |names| ==> ListedName(names[i]) && CleanLine(names[i]) == names[i]
  {
    forall i | 0 <= i < |names|
      ensures ListedName(names[i]) && CleanLine(names[i]) == names[i]
    {
      CleanPlainName(names[i]);
      assert !IsSpace(names[i][0]);
    }
  }

  /** A response listing plain names one per line yields exactly those names. */
  lemma FallbackReadsPlainList(names: seq<string>)
    requires |names| >= 1
    requires forall i :: 0 <= i < |names| ==> PlainName(names[i])
    ensures FallbackIngredients(Join(names, "\n")) == names
  {
    PlainNamesListed(names);
    ReadsListedNames(CleanLine, names);
  }

  /** A bullet and the spaces after it are dropped from a name. */
  lemma CleanBulletedName(bullet: char, spaces: string, name: string)
    requires IsBullet(bullet) && Blank(spaces) && PlainName(name)
    ensures CleanLine([bullet] + spaces + name) == name
  {
    var line := [bullet] + spaces + name;
    assert line[1..] == spaces + name;
    TrimStartBlankPrefix(spaces, name);
    assert StripBullet(line) == name;
    CleanPlainName(name);
  }

  /** A numbering such as "12." and the spaces after it are dropped from a name. */
  lemma CleanNumberedName(digits: string, spaces: string, name: string)
    requires digits != [] && forall i :: 0 <= i < |digits| ==> IsDigit(digits[i])
    requires Blank(spaces) && PlainName(name)
    ensures CleanLine(digits + "." + spaces + name) == name
  {
    var line := digits + "." + spaces + name;
    assert StripBullet(line) == line by {
      assert line[0] == digits[0];
    }
    assert StripNumbering(line) == name by {
      StripNumberingOf(digits, spaces, name);
    }
    CleanLineOfPlain(line, name);
  }

  /** A line that loses nothing to the bullet pattern and whose numbering
      leaves a plain name cleans to that name. */
  lemma CleanLineOfPlain(line: string, name: string)
    requires StripBullet(line) == line && StripNumbering(line) == name && PlainName(name)
    ensures CleanLine(line) == name
  {
    CleanPlainName(name);
  }

  /** An "Ingredient:" label in any letter case, and the spaces after it, are
      dropped from a name. */
  lemma CleanLabelledName(tag: string, spaces: string, name: string)
    requires |tag| == |LabelPrefix| && forall i :: 0 <= i < |tag| ==> LowerAscii(tag[i]) == LabelPrefix[i]
    requires Blank(spaces) && PlainName(name)
    ensures CleanLine(tag + spaces + name) == name
  {
    var line := tag + spaces + name;
    assert line[0] == tag[0] && LowerAscii(tag[0]) == 'i';
    assert StripBullet(line) == line;
    assert LeadingDigits(line) == 0;
    assert StripNumbering(line) == line;
    assert StartsWithIgnoringCase(line, LabelPrefix);
    assert line[|LabelPrefix|..] == spaces + name;
    TrimStartBlankPrefix(spaces, name);
    assert StripLabel(line) == name;
    CleanPlainName(name);
  }

  /** `base64Image.split(',')[1]`: the payload of a data URL, `undefined`
      (here `Null`) when it has no comma. */
  function DataUrlPayload(dataUrl: string): Value {
    var parts := Split(dataUrl, ',');
    if |parts| > 1 then Str(parts[1]) else Null
  }

  /** `analyzeIngredientsFromImage`: `configured` says whether an API key was
      set, `fileRead` is the outcome of reading the file as a data URL,
      `fileType` is the file's MIME type. */
  function AnalyzeIngredientsFromImage(
    configured: bool, fileRead: Result<string, string>, fileType: string,
    model: Model, parse: JsonParser): (r: Result<Value, string>)
    ensures !configured ==> r == Failure(NotConfiguredMessage)
    ensures r.Failure? ==> r.error in AnalysisMessages
  {
    if !configured then Failure(NotConfiguredMessage)
    else match fileRead
    case Failure(m) => Failure(TranslateAnalysisError(m))
    case Success(dataUrl) =>
      match model(ImagePrompt(AnalysisPrompt, DataUrlPayload(dataUrl), Str(fileType)))
      case Failure(m) => Failure(TranslateAnalysisError(m))
      case Success(text) =>
        match WidestSpan(text, '[', ']')
        case Some(span) =>
          (match parse(span)
           case Success(v) => Success(v)
           case Failure(m) => Failure(TranslateAnalysisError(m)))
        case None => Success(Strs(FallbackIngredients(text)))
  }

  /** An array in the response, with prose around it, is handed to the parser
      exactly, and its parsed value is the result. */
  lemma AnalysisParsesEnclosedArray(
    fileRead: Result<string, string>, fileType: string, model: Model, parse: JsonParser,
    before: string, block: string, after: string)
    requires fileRead.Success?
    requires model(ImagePrompt(AnalysisPrompt, DataUrlPayload(fileRead.value), Str(fileType))) ==
      Success(before + block + after)
    requires |block| >= 2 && block[0] == '[' && block[|block| - 1] == ']'
    requires '[' !in before && ']' !in after
    ensures parse(block).Success? ==>
      AnalyzeIngredientsFromImage(true, fileRead, fileType, model, parse) == Success(parse(block).value)
    ensures parse(block).Failure? ==>
      AnalyzeIngredientsFromImage(true, fileRead, fileType, model, parse) == Failure(TranslateAnalysisError(parse(block).error))
  {
    WidestSpanOfEnclosed(before, block, after, '[', ']');
  }

  /** A response with no [...] span (no '[' before a later ']') is read
      line by line: the result is a list of trimmed names of three or more
      characters. */
  lemma AnalysisFallsBackOnPlainText(
    fileRead: Result<string, string>, fileType: string, model: Model, parse: JsonParser, text: string)
    requires fileRead.Success?
    requires model(ImagePrompt(AnalysisPrompt, DataUrlPayload(fileRead.value), Str(fileType))) == Success(text)
    requires WidestSpan(text, '[', ']').None?
    ensures var r := AnalyzeIngredientsFromImage(true, fileRead, fileType, model, parse);
      && r == Success(Strs(FallbackIngredients(text)))
      && forall i :: 0 <= i < |r.value.items| ==>
        r.value.items[i].Str? && Trimmed(r.value.items[i].s) && |r.value.items[i].s| > 2
  {
    FallbackIngredientsClean(text);
  }

  /** In particular a response without any '[' is read line by line. */
  lemma AnalysisFallsBackWithoutBracket(
    fileRead: Result<string, string>, fileType: string, model: Model, parse: JsonParser, text: string)
    requires fileRead.Success?
    requires model(ImagePrompt(AnalysisPrompt, DataUrlPayload(fileRead.value), Str(fileType))) == Success(text)
    requires '[' !in text
    ensures AnalyzeIngredientsFromImage(true, fileRead, fileType, model, parse) == Success(Strs(FallbackIngredients(text)))
  {
    assert FirstIndex(text, '[').None?;
    AnalysisFallsBackOnPlainText(fileRead, fileType, model, parse, text);
  }

  /** A file that cannot be read is reported through the analysis
      translation of the reader's message. */
  lemma AnalysisReportsReadError(
    fileRead: Result<string, string>, fileType: string, model: Model, parse: JsonParser)
    requires fileRead.Failure?
    ensures AnalyzeIngredientsFromImage(true, fileRead, fileType, model, parse) ==
      Failure(TranslateAnalysisError(fileRead.error))
  {
  }

  /** A failing model call is reported through the analysis translation of
      its message: an invalid key, a busy service, or the generic message. */
  lemma AnalysisReportsModelError(
    fileRead: Result<string, string>, fileType: string, model: Model, parse: JsonParser, m: string)
    requires fileRead.Success?
    requires model(ImagePrompt(AnalysisPrompt, DataUrlPayload(fileRead.value), Str(fileType))) == Failure(m)
    ensures AnalyzeIngredientsFromImage(true, fileRead, fileType, model, parse) == Failure(TranslateAnalysisError(m))
    ensures Contains(m, "API_KEY_INVALID") ==>
      AnalyzeIngredientsFromImage(true, fileRead, fileType, model, parse) == Failure(InvalidKeyMessage)
  {
  }

  /** `generateRecipe`: the model is asked with the client's prompt; its answer
      is cleaned of code fences, the widest {...} span parsed and stamped with
      `createdAt` and the ingredients. */
  function GenerateRecipe(
    configured: bool, ingredients: seq<string>, preferences: PreferenceSet,
    model: Model, createdAt: string, parse: JsonParser): (r: Result<Value, string>)
    ensures !configured ==> r == Failure(NotConfiguredMessage)
    ensures r.Failure? ==> r.error != ""
    ensures r.Success? ==>
      && r.value.Obj?
      && "createdAt" in r.value.fields && r.value.fields["createdAt"] == Str(createdAt)
      && "originalIngredients" in r.value.fields && r.value.fields["originalIngredients"] == Strs(ingredients)
  {
    if !configured then Failure(NotConfiguredMessage)
    else
      var prompt := RecipePrompt(Join(ingredients, ", "), ClientRendering(preferences), ClientClosing);
      match model(TextPrompt(prompt))
      case Failure(m) => Failure(TranslateGenerationError(m))
      case Success(text) =>
        match WidestSpan(CleanFences(text), '{', '}')
        case None => Failure(TranslateGenerationError(InvalidFormatMessage))
        case Some(span) =>
          match parse(span)
          case Failure(m) => Failure(TranslateGenerationError(m))
          case Success(v) => Success(Obj(StampRecipe(v, createdAt, Strs(ingredients))))
  }

  /** The prompt the client sends for these ingredients and preferences. */
  function ClientRecipeRequest(ingredients: seq<string>, preferences: PreferenceSet): ModelRequest {
    TextPrompt(RecipePrompt(Join(ingredients, ", "), ClientRendering(preferences), ClientClosing))
  }

  /** The widest {...} span of the cleaned answer decides the outcome: its
      parsed value stamped with the time and the ingredients, or the parser's
      error as translated. */
  lemma GenerateReadsSpan(
    ingredients: seq<string>, preferences: PreferenceSet, model: Model, createdAt: string,
    parse: JsonParser, text: string, span: string)
    requires model(ClientRecipeRequest(ingredients, preferences)) == Success(text)
    requires WidestSpan(CleanFences(text), '{', '}') == Some(span)
    ensures parse(span).Success? ==>
      GenerateRecipe(true, ingredients, preferences, model, createdAt, parse) ==
        Success(Obj(StampRecipe(parse(span).value, createdAt, Strs(ingredients))))
    ensures parse(span).Failure? ==>
      GenerateRecipe(true, ingredients, preferences, model, createdAt, parse) ==
        Failure(TranslateGenerationError(parse(span).error))
  {
  }

  /** A failing model call is reported through the generation translation
      of its message. */
  lemma GenerateReportsModelError(
    ingredients: seq<string>, preferences: PreferenceSet, model: Model, createdAt: string,
    parse: JsonParser, m: string)
    requires model(ClientRecipeRequest(ingredients, preferences)) == Failure(m)
    ensures GenerateRecipe(true, ingredients, preferences, model, createdAt, parse) ==
      Failure(TranslateGenerationError(m))
    ensures Contains(m, "API_KEY_INVALID") ==>
      GenerateRecipe(true, ingredients, preferences, model, createdAt, parse) == Failure(InvalidKeyMessage)
  {
  }

  /** A span the parser rejects with a JSON error (and none of the
      higher-ranked keywords) is reported as a parse failure. */
  lemma GenerateReportsJsonError(
    ingredients: seq<string>, preferences: PreferenceSet, model: Model, createdAt: string,
    parse: JsonParser, text: string, span: string, m: string)
    requires model(ClientRecipeRequest(ingredients, preferences)) == Success(text)
    requires WidestSpan(CleanFences(text), '{', '}') == Some(span)
    requires parse(span) == Failure(m)
    requires Contains(m, "JSON") && !Contains(m, "API_KEY_INVALID") && !Contains(m, "503") && !Contains(m, "overloaded")
    ensures GenerateRecipe(true, ingredients, preferences, model, createdAt, parse) == Failure(ParseFailedMessage)
  {
    GenerateReadsSpan(ingredients, preferences, model, createdAt, parse, text, span);
  }

  /** A recipe fenced as "```json" arrives at the parser without the fences,
      and its fields survive next to the two stamped ones. */
  lemma GenerateParsesFencedRecipe(
    ingredients: seq<string>, preferences: PreferenceSet, model: Model, createdAt: string,
    parse: JsonParser, body: string, fields: Record)
    requires model(ClientRecipeRequest(ingredients, preferences)) == Success(JsonFence + "\n" + body + "\n" + Fence)
    requires '`' !in body && Trimmed(body) && |body| >= 2 && body[0] == '{' && body[|body| - 1] == '}'
    requires parse(body) == Success(Obj(fields))
    ensures var r := GenerateRecipe(true, ingredients, preferences, model, createdAt, parse);
      && r.Success?
      && forall k :: k in fields && k != "createdAt" && k != "originalIngredients" ==>
        k in r.value.fields && r.value.fields[k] == fields[k]
  {
    JsonFencedLikeBare(body);
    CleanFencesOfPlain(body);
    TrimOfTrimmed(body);
    WholeTextIsSpan(body, '{', '}');
  }

  /** A response whose cleaned text has no {...} span (no '{' before a
      later '}') fails with the invalid-format message, which the
      translation passes on unchanged. */
  lemma GenerateRejectsTextWithoutSpan(
    ingredients: seq<string>, preferences: PreferenceSet, model: Model, createdAt: string,
    parse: JsonParser, text: string)
    requires model(ClientRecipeRequest(ingredients, preferences)) == Success(text)
    requires WidestSpan(CleanFences(text), '{', '}').None?
    ensures GenerateRecipe(true, ingredients, preferences, model, createdAt, parse) == Failure(InvalidFormatMessage)
  {
    InvalidFormatSurvivesTranslation();
  }

  /** In particular a response with no '{' in it fails with the
      invalid-format message. */
  lemma GenerateRejectsTextWithoutObject(
    ingredients: seq<string>, preferences: PreferenceSet, model: Model, createdAt: string,
    parse: JsonParser, text: string)
    requires model(ClientRecipeRequest(ingredients, preferences)) == Success(text)
    requires '{' !in text
    ensures GenerateRecipe(true, ingredients, preferences, model, createdAt, parse) == Failure(InvalidFormatMessage)
  {
    CleanFencesKeepsOut(text, '{');
    assert FirstIndex(CleanFences(text), '{').None?;
    GenerateRejectsTextWithoutSpan(ingredients, preferences, model, createdAt, parse, text);
  }

  /** What one batch of variations depends on: `models(i)` and `clock(i)` are
      the model's behaviour and the time during the i-th generation. */
  datatype Batch = Batch(
    configured: bool, ingredients: seq<string>, preferences: PreferenceSet,
    models: nat -> Model, clock: nat -> string, parse: JsonParser)

  /** The generations of a batch: the i-th is `Attempts(b)(i)`. */
  function Attempts(b: Batch): nat -> Result<Value, string> {
    (i: nat) => GenerateRecipe(b.configured, b.ingredients, b.preferences, b.models(i), b.clock(i), b.parse)
  }

  /** The first `n` of a series of attempts run one after another: all
      results in call order, or the first error, which ends the series. */
  function Sequenced(attempt: nat -> Result<Value, string>, n: nat): Result<seq<Value>, string> {
    if n == 0 then Success([])
    else match Sequenced(attempt, n - 1)
      case Failure(e) => Failure(e)
      case Success(rs) =>
        match attempt(n - 1)
        case Failure(e) => Failure(e)
        case Success(r) => Success(rs + [r])
  }

  /** The first `n` generations of a batch. */
  function Variations(b: Batch, n: nat): Result<seq<Value>, string> {
    Sequenced(Attempts(b), n)
  }

  /** Once a series has failed, later attempts are never made. */
  lemma {:induction false} SequencedFailureSticks(attempt: nat -> Result<Value, string>, n: nat, m: nat)
    requires n <= m && Sequenced(attempt, n).Failure?
    ensures Sequenced(attempt, m) == Sequenced(attempt, n)
    decreases m - n
  {
    if n < m {
      SequencedFailureSticks(attempt, n, m - 1);
    }
  }

  /** A successful series holds exactly `n` results, the i-th from the i-th
      attempt. */
  lemma {:induction false} SequencedInOrder(attempt: nat -> Result<Value, string>, n: nat)
    requires Sequenced(attempt, n).Success?
    ensures |Sequenced(attempt, n).value| == n
    ensures forall i :: 0 <= i < n ==> attempt(i) == Success(Sequenced(attempt, n).value[i])
  {
    if n > 0 {
      SequencedInOrder(attempt, n - 1);
    }
  }

  /** A failed series reports the error of its first failing attempt. */
  lemma {:induction false} SequencedFirstError(attempt: nat -> Result<Value, string>, n: nat)
    requires Sequenced(attempt, n).Failure?
    ensures exists i ::
      (0 <= i < n && attempt(i) == Failure(Sequenced(attempt, n).error) &&
       forall j :: 0 <= j < i ==> attempt(j).Success?)
  {
    if Sequenced(attempt, n - 1).Failure? {
      SequencedFirstError(attempt, n - 1);
    } else {
      SequencedInOrder(attempt, n - 1);
      assert attempt(n - 1) == Failure(Sequenced(attempt, n).error);
    }
  }

  /** A series whose every attempt fails with `e` fails with `e` as soon as
      it is not empty. */
  lemma {:induction false} SequencedAllFail(attempt: nat -> Result<Value, string>, e: string, n: nat)
    requires forall i: nat :: attempt(i) == Failure(e)
    ensures n == 0 ==> Sequenced(attempt, n) == Success([])
    ensures n > 0 ==> Sequenced(attempt, n) == Failure(e)
  {
    if n > 1 {
      SequencedAllFail(attempt, e, n - 1);
    }
  }

  /** Without an API key, a batch of one or more fails with the configuration
      message, while an empty batch still succeeds. */
  lemma UnconfiguredBatch(b: Batch, n: nat)
    requires !b.configured
    ensures n == 0 ==> Variations(b, n) == Success([])
    ensures n > 0 ==> Variations(b, n) == Failure(NotConfiguredMessage)
  {
    forall i: nat
      ensures Attempts(b)(i) == Failure(NotConfiguredMessage)
    {
      assert Attempts(b)(i) == GenerateRecipe(b.configured, b.ingredients, b.preferences, b.models(i), b.clock(i), b.parse);
    }
    SequencedAllFail(Attempts(b), NotConfiguredMessage, n);
  }

  /** The loop of `generateRecipeVariations`: `count` attempts one after
      another, stopping at the first error. */
  method RunInSequence(attempt: nat -> Result<Value, string>, count: int) returns (r: Result<seq<Value>, string>)
    ensures r == Sequenced(attempt, if count <= 0 then 0 else count)
  {
    var results := [];
    var i := 0;
    while i < count
      invariant 0 <= i <= (if count <= 0 then 0 else count)
      invariant Sequenced(attempt, i) == Success(results)
    {
      var result := attempt(i);
      if result.Failure? {
        SequencedFailureSticks(attempt, i + 1, count);
        return Failure(result.error);
      }
      results := results + [result.value];
      i := i + 1;
    }
    r := Success(results);
  }

  /** The number of variations generated when the caller gives no count. */
  const DefaultVariationCount := 3

  /** `generateRecipeVariations`: `count` generations of the same ingredients
      and preferences (three when no count is given), all of them or the
      first error. A count of zero or less asks for none. */
  method GenerateRecipeVariations(b: Batch, count: Option<int>) returns (r: Result<seq<Value>, string>)
    ensures count.None? ==> r == Variations(b, DefaultVariationCount)
    ensures count.Some? ==> r == Variations(b, if count.value <= 0 then 0 else count.value)
  {
    var n := if count.Some? then count.value else DefaultVariationCount;
    r := RunInSequence(Attempts(b), n);
  }
}
