/**
 * The cloud functions (functions/index.js): two HTTP handlers that call the
 * generative model on the server. `analyzeIngredients` turns an inline image
 * into an ingredient list; `generateRecipe` turns an ingredient array and
 * preferences into a recipe. Every answer is a JSON envelope with a
 * `success` flag; errors are reported with their original message.
 */
module GeminiFunctions {
  import opened Wrappers
  import opened Text
  import opened Values
  import opened Preferences
  import opened Gateway
  import opened Prompts
  import opened ResponseText
  import opened Lines
  import Messages

  /** An incoming request: its HTTP method and its parsed JSON body. */
  datatype HttpRequest = HttpRequest(httpMethod: string, body: Record)

  /** An outgoing response: its status code and its JSON body. */
  datatype HttpResponse = HttpResponse(status: int, body: Record)

  const NotConfiguredMessage := "Gemini API is not configured"
  const MethodNotAllowedMessage := "Method not allowed"
  const ImageRequiredMessage := "Image data is required"
  const IngredientsRequiredMessage := "Ingredients array is required"
  const DefaultMimeType := "image/jpeg"

  /** The message of the `TypeError` raised when the dietary restrictions are
      present but are not an array. */
  const JoinNotAFunctionMessage := "preferences?.dietaryRestrictions?.join is not a function"

  /** `res.status(status).json({ success: false, error: message })`. */
  function Failed(status: int, message: string): HttpResponse {
    HttpResponse(status, map["success" := Bool(false), "error" := Str(message)])
  }

  /** `res.status(200).json({ success: true, [key]: v })`. */
  function Succeeded(key: string, v: Value): HttpResponse
    requires key != "success"
  {
    HttpResponse(200, map["success" := Bool(true), key := v])
  }

  /** The envelope both handlers keep: one of four status codes, a `success`
      flag that is true exactly for status 200, and an error text on every
      other status. */
  predicate Enveloped(r: HttpResponse) {
    && (r.status == 200 || r.status == 400 || r.status == 405 || r.status == 500)
    && "success" in r.body && r.body["success"] == Bool(r.status == 200)
    && (r.status != 200 ==> "error" in r.body && r.body["error"].Str?)
  }

  /** A successful generation's body: a `recipe` object stamped with the
      time of the call and the ingredients it was made from. */
  predicate CarriesRecipe(r: HttpResponse, createdAt: string, ingredients: Value) {
    && "recipe" in r.body && r.body["recipe"].Obj?
    && "createdAt" in r.body["recipe"].fields && r.body["recipe"].fields["createdAt"] == Str(createdAt)
    && "originalIngredients" in r.body["recipe"].fields
    && r.body["recipe"].fields["originalIngredients"] == ingredients
  }

  // ---------------------------------------------------------------------
  // analyzeIngredients

  /** The characters the server's list-marker pattern `^[-*•\d.]` matches. */
  predicate IsListMarker(c: char) {
    IsBullet(c) || IsDigit(c) || c == '.'
  }

  /** `line.replace(/^[-*•\d.]\s*\/, "").trim()` as written: ONE marker
      character and the spaces after it, then trimming. */
  function ServerCleanLineAsWritten(line: string): (r: string)
    ensures Trimmed(r)
  {
    Trim(if line != [] && IsListMarker(line[0]) then TrimStart(line[1..]) else line)
  }

  /** As written, a numbered line loses its digit but keeps the dot: the
      pattern consumes one marker character, and `\s*` then matches nothing
      in front of the dot. */
  lemma NumberedLineKeepsDot(d: char, spaces: string, name: string)
    requires IsDigit(d) && Blank(spaces) && Trimmed(name) && name != []
    ensures ServerCleanLineAsWritten([d] + "." + spaces + name) == "." + spaces + name
  {
    var rest := "." + spaces + name;
    var line := [d] + rest;
    assert [d] + "." + spaces + name == line;
    assert line[0] == d && line[1..] == rest;
    assert IsListMarker(line[0]);
    assert rest[0] == '.' && LeadingSpaces(rest) == 0;
    assert TrimStart(rest) == rest;
    assert rest[|rest| - 1] == name[|name| - 1];
    TrimOfTrimmed(rest);
    assert ServerCleanLineAsWritten(line) == Trim(TrimStart(line[1..]));
  }

  /** The evidently intended cleaning: a bullet or a numbering such as "12."
      and the spaces after it, then trimming, as the browser client does.
      The handler below runs the cleaning as written. */
  function ServerCleanLine(line: string): (r: string)
    ensures Trimmed(r)
  {
    Trim(StripNumbering(StripBullet(line)))
  }

  /** The intended cleaning drops a whole numbering. */
  lemma ServerCleanNumberedName(digits: string, spaces: string, name: string)
    requires digits != [] && forall i :: 0 <= i < |digits| ==> IsDigit(digits[i])
    requires Blank(spaces) && Trimmed(name) && name != []
    ensures ServerCleanLine(digits + "." + spaces + name) == name
  {
    var line := digits + "." + spaces + name;
    assert StripBullet(line) == line by {
      assert line[0] == digits[0];
    }
    assert StripNumbering(line) == name by {
      StripNumberingOf(digits, spaces, name);
    }
    assert Trim(name) == name by {
      TrimOfTrimmed(name);
    }
  }

  /** The intended cleaning drops a bullet. */
  lemma ServerCleanBulletedName(bullet: char, spaces: string, name: string)
    requires IsBullet(bullet) && Blank(spaces) && Trimmed(name) && name != [] && !IsDigit(name[0])
    ensures ServerCleanLine([bullet] + spaces + name) == name
  {
    var line := [bullet] + spaces + name;
    assert line[1..] == spaces + name;
    TrimStartBlankPrefix(spaces, name);
    assert StripBullet(line) == name;
    assert LeadingDigits(name) == 0;
    TrimOfTrimmed(name);
  }

  /** `lines.map(line => line.replace(/^[-*•\d.]\s*\/, "").trim()).filter(line => line.length > 2)`
      over the non-blank lines: the list read out of a response that holds
      no array, with the cleaning as written. */
  function ServerFallback(text: string): seq<string> {
    LongEnough(MapLines(ServerCleanLineAsWritten, NonBlank(Split(text, '\n'))))
  }

  /** Every fallback ingredient is trimmed and longer than two characters. */
  lemma ServerFallbackClean(text: string)
    ensures forall i :: 0 <= i < |ServerFallback(text)| ==>
      Trimmed(ServerFallback(text)[i]) && |ServerFallback(text)[i]| > 2
  {
    MapLinesTrimmed(ServerCleanLineAsWritten, NonBlank(Split(text, '\n')));
  }

  /** An answer made of one numbered line is read as the line less its first
      digit: the dot stays in the ingredient the handler returns. */
  lemma ServerFallbackOfNumberedLine(d: char, spaces: string, name: string)
    requires IsDigit(d) && Blank(spaces) && Trimmed(name) && |name| >= 2
    requires '\n' !in spaces && '\n' !in name
    ensures ServerFallback([d] + "." + spaces + name) == ["." + spaces + name]
  {
    var line := [d] + "." + spaces + name;
    assert '\n' !in line;
    assert Split(line, '\n') == [line];
    assert !Blank(line) by {
      assert line[0] == d && !IsSpace(d);
    }
    assert NonBlank([line]) == [line];
    NumberedLineKeepsDot(d, spaces, name);
    assert MapLines(ServerCleanLineAsWritten, [line]) == ["." + spaces + name];
    assert LongEnough(["." + spaces + name]) == ["." + spaces + name];
  }

  /** A name without surrounding space, line break or leading marker
      character (bullet, digit or dot). */
  predicate BareName(name: string) {
    Trimmed(name) && |name| > 2 && '\n' !in name && !IsListMarker(name[0])
  }

  /** Bare names are listed as they stand. */
  lemma BareNamesListed(names: seq<string>)
    requires forall i :: 0 <= i < |names| ==> BareName(names[i])
    ensures forall i :: 0 <= i < |names| ==> ListedName(names[i]) && ServerCleanLineAsWritten(names[i]) == names[i]
  {
    forall i | 0 <= i < |names|
      ensures ListedName(names[i]) && ServerCleanLineAsWritten(names[i]) == names[i]
    {
      var name := names[i];
      assert !IsSpace(name[0]);
      TrimOfTrimmed(name);
    }
  }

  /** A response listing bare names one per line yields exactly those names. */
  lemma ServerFallbackReadsPlainList(names: seq<string>)
    requires |names| >= 1
    requires forall i :: 0 <= i < |names| ==> BareName(names[i])
    ensures ServerFallback(Join(names, "\n")) == names
  {
    BareNamesListed(names);
    ReadsListedNames(ServerCleanLineAsWritten, names);
  }

  /** The request sent to the model: the prompt and the inline image, whose
      type defaults to JPEG when the body gives none. */
  function AnalysisRequest(body: Record): (q: ModelRequest)
    requires "imageData" in body
    ensures q.ImagePrompt? && q.prompt == AnalysisPrompt && q.data == body["imageData"]
    ensures HasTruthy(body, "mimeType") ==> q.mimeType == body["mimeType"]
    ensures !HasTruthy(body, "mimeType") ==> q.mimeType == Str(DefaultMimeType)
  {
    ImagePrompt(AnalysisPrompt, body["imageData"],
      if HasTruthy(body, "mimeType") then body["mimeType"] else Str(DefaultMimeType))
  }

  /** `analyzeIngredients`: `configured` says whether the server has an API
      key. The checks run in order: configuration, method, image data. */
  function AnalyzeIngredients(configured: bool, req: HttpRequest, model: Model, parse: JsonParser): (r: HttpResponse)
    ensures Enveloped(r)
    ensures !configured ==> r == Failed(500, NotConfiguredMessage)
    ensures configured && req.httpMethod != "POST" ==> r == Failed(405, MethodNotAllowedMessage)
    ensures configured && req.httpMethod == "POST" && !HasTruthy(req.body, "imageData") ==>
      r == Failed(400, ImageRequiredMessage)
    ensures r.status == 200 ==> configured && req.httpMethod == "POST" && HasTruthy(req.body, "imageData")
    ensures r.status == 200 ==> "ingredients" in r.body
  {
    if !configured then Failed(500, NotConfiguredMessage)
    else if req.httpMethod != "POST" then Failed(405, MethodNotAllowedMessage)
    else if !HasTruthy(req.body, "imageData") then Failed(400, ImageRequiredMessage)
    else
      match model(AnalysisRequest(req.body))
      case Failure(m) => Failed(500, m)
      case Success(text) =>
        match WidestSpan(text, '[', ']')
        case Some(span) =>
          (match parse(span)
           case Success(v) => Succeeded("ingredients", v)
           case Failure(m) => Failed(500, m))
        case None => Succeeded("ingredients", Strs(ServerFallback(text)))
  }

  /** A valid analysis request whose answer holds no [...] span (no '['
      before a later ']') is answered with the fallback list: trimmed names
      of three or more characters. */
  lemma AnalysisFallsBackOnPlainText(req: HttpRequest, model: Model, parse: JsonParser, text: string)
    requires req.httpMethod == "POST" && HasTruthy(req.body, "imageData")
    requires model(AnalysisRequest(req.body)) == Success(text)
    requires WidestSpan(text, '[', ']').None?
    ensures var r := AnalyzeIngredients(true, req, model, parse);
      && r == Succeeded("ingredients", Strs(ServerFallback(text)))
      && forall i :: 0 <= i < |r.body["ingredients"].items| ==>
        r.body["ingredients"].items[i].Str? && Trimmed(r.body["ingredients"].items[i].s)
  {
    var names := ServerFallback(text);
    assert AnalyzeIngredients(true, req, model, parse) == Succeeded("ingredients", Strs(names));
    assert forall i :: 0 <= i < |Strs(names).items| ==> Strs(names).items[i].Str? && Trimmed(Strs(names).items[i].s) by {
      ServerFallbackClean(text);
    }
  }

  /** In particular an answer without any '[' is answered with the fallback. */
  lemma AnalysisFallsBackWithoutBracket(req: HttpRequest, model: Model, parse: JsonParser, text: string)
    requires req.httpMethod == "POST" && HasTruthy(req.body, "imageData")
    requires model(AnalysisRequest(req.body)) == Success(text)
    requires '[' !in text
    ensures AnalyzeIngredients(true, req, model, parse) == Succeeded("ingredients", Strs(ServerFallback(text)))
  {
    assert FirstIndex(text, '[').None?;
    AnalysisFallsBackOnPlainText(req, model, parse, text);
  }

  /** A failing model call is answered with 500 and the model's own
      message, untranslated. */
  lemma AnalysisReportsModelErrorAsIs(req: HttpRequest, model: Model, parse: JsonParser, m: string)
    requires req.httpMethod == "POST" && HasTruthy(req.body, "imageData")
    requires model(AnalysisRequest(req.body)) == Failure(m)
    ensures AnalyzeIngredients(true, req, model, parse) == Failed(500, m)
  {
  }

  /** An array in the answer, with prose around it, is handed to the parser
      exactly; the parsed value is answered, or the parser's message with 500. */
  lemma AnalysisParsesEnclosedArray(
    req: HttpRequest, model: Model, parse: JsonParser, before: string, block: string, after: string)
    requires req.httpMethod == "POST" && HasTruthy(req.body, "imageData")
    requires model(AnalysisRequest(req.body)) == Success(before + block + after)
    requires |block| >= 2 && block[0] == '[' && block[|block| - 1] == ']'
    requires '[' !in before && ']' !in after
    ensures parse(block).Success? ==>
      AnalyzeIngredients(true, req, model, parse) == Succeeded("ingredients", parse(block).value)
    ensures parse(block).Failure? ==>
      AnalyzeIngredients(true, req, model, parse) == Failed(500, parse(block).error)
  {
    WidestSpanOfEnclosed(before, block, after, '[', ']');
  }

  // ---------------------------------------------------------------------
  // generateRecipe

  /** `preferences?.[key]`: absent when there are no preferences, when they
      are not an object, or when the field is missing. */
  function PreferenceField(preferences: Option<Value>, key: string): Option<Value> {
    match preferences
    case Some(Obj(fields)) => Get(fields, key)
    case _ => None
  }

  /** `value || fallback` inside the template: the value's text when it is
      truthy, the fallback otherwise. */
  function TextOr(v: Option<Value>, fallback: string): string {
    if v.Some? && Truthy(v.value) then ToText(v.value) else fallback
  }

  /** `preferences?.dietaryRestrictions?.join(", ") || "None"`: a missing or
      null field gives the default, an array its joined text (the default when
      that is empty), and anything else raises a `TypeError`. */
  function RestrictionsText(v: Option<Value>): (r: Result<string, string>)
    ensures r.Success? ==> r.value != ""
    ensures r.Failure? <==> v.Some? && !v.value.Null? && !v.value.Arr?
  {
    match v
    case None => Success("None")
    case Some(Null) => Success("None")
    case Some(Arr(items)) =>
      var joined := JoinValues(items, ", ");
      Success(if joined == "" then "None" else joined)
    case Some(_) => Failure(JoinNotAFunctionMessage)
  }

  /** The five texts the server interpolates into the preference lines. */
  function ServerRendering(preferences: Option<Value>): (r: Result<seq<string>, string>)
    ensures r.Success? ==> |r.value| == 5
    ensures r.Failure? <==> RestrictionsText(PreferenceField(preferences, "dietaryRestrictions")).Failure?
  {
    match RestrictionsText(PreferenceField(preferences, "dietaryRestrictions"))
    case Failure(m) => Failure(m)
    case Success(restrictions) =>
      Success([
        TextOr(PreferenceField(preferences, "cuisine"), "Any"),
        TextOr(PreferenceField(preferences, "spiceLevel"), "Medium"),
        restrictions,
        TextOr(PreferenceField(preferences, "mealType"), "Any"),
        TextOr(PreferenceField(preferences, "dietaryPreference"), "No Preference")])
  }

  /** Without preferences every line shows its default. */
  lemma ServerRenderingWithoutPreferences()
    ensures ServerRendering(None) == Success(PreferenceDefaults)
  {
  }

  /** A text field of the preferences as JSON carries it: present fields as
      strings, missing ones left out. */
  function EncodeText(fields: Record, key: string, v: Option<string>): Record {
    if v.Some? then fields[key := Str(v.value)] else fields
  }

  /** The preferences as the browser would send them in a request body. */
  function EncodePreferences(p: PreferenceSet): (v: Value)
    ensures v.Obj?
    ensures p.cuisine.Some? <==> "cuisine" in v.fields
    ensures p.dietaryRestrictions.Some? <==> "dietaryRestrictions" in v.fields
  {
    var withRestrictions: Record :=
      if p.dietaryRestrictions.Some? then map["dietaryRestrictions" := Strs(p.dietaryRestrictions.value)] else map[];
    Obj(EncodeText(EncodeText(EncodeText(EncodeText(withRestrictions,
      "cuisine", p.cuisine), "spiceLevel", p.spiceLevel), "mealType", p.mealType),
      "dietaryPreference", p.dietaryPreference))
  }

  /** A text preference renders alike on both sides. */
  lemma TextOrEncoded(v: Option<string>, fallback: string)
    ensures TextOr(if v.Some? then Some(Str(v.value)) else None, fallback) == Preferred(v, fallback)
  {
  }

  /** The restrictions render alike on both sides. */
  lemma RestrictionsEncoded(xs: Option<seq<string>>)
    ensures RestrictionsText(if xs.Some? then Some(Strs(xs.value)) else None) ==
      Success(Preferred(JoinedRestrictions(xs), "None"))
  {
    if xs.Some? {
      JoinStrs(xs.value, ", ");
    }
  }

  /** Both deployments render the same preferences into the same five lines. */
  lemma ServerRenderingMatchesClient(p: PreferenceSet)
    ensures ServerRendering(Some(EncodePreferences(p))) == Success(ClientRendering(p))
  {
    var v := EncodePreferences(p);
    var pv := Some(v);
    assert PreferenceField(pv, "cuisine") == (if p.cuisine.Some? then Some(Str(p.cuisine.value)) else None);
    assert PreferenceField(pv, "spiceLevel") == (if p.spiceLevel.Some? then Some(Str(p.spiceLevel.value)) else None);
    assert PreferenceField(pv, "mealType") == (if p.mealType.Some? then Some(Str(p.mealType.value)) else None);
    assert PreferenceField(pv, "dietaryPreference") ==
      (if p.dietaryPreference.Some? then Some(Str(p.dietaryPreference.value)) else None);
    assert PreferenceField(pv, "dietaryRestrictions") ==
      (if p.dietaryRestrictions.Some? then Some(Strs(p.dietaryRestrictions.value)) else None);
    TextOrEncoded(p.cuisine, "Any");
    TextOrEncoded(p.spiceLevel, "Medium");
    TextOrEncoded(p.mealType, "Any");
    TextOrEncoded(p.dietaryPreference, "No Preference");
    RestrictionsEncoded(p.dietaryRestrictions);
  }

  /** The ingredient array of a request body, when it is a non-empty array. */
  function RequestIngredients(body: Record): Option<seq<Value>> {
    if "ingredients" in body && body["ingredients"].Arr? && |body["ingredients"].items| > 0
    then Some(body["ingredients"].items) else None
  }

  /** The answer to a generation request whose prompt the model answered
      with `text`: the widest {...} span of the cleaned text, parsed and
      stamped, or a 500 with the parser's or the invalid-format message. */
  function RecipeFromAnswer(text: string, items: seq<Value>, createdAt: string, parse: JsonParser): (r: HttpResponse)
    ensures Enveloped(r) && (r.status == 200 || r.status == 500)
    ensures r.status == 200 ==> CarriesRecipe(r, createdAt, Arr(items))
    ensures WidestSpan(CleanFences(text), '{', '}').None? ==> r == Failed(500, Messages.InvalidFormatMessage)
    ensures WidestSpan(CleanFences(text), '{', '}').Some? ==>
      var span := WidestSpan(CleanFences(text), '{', '}').value;
      && (parse(span).Success? ==> r == Succeeded("recipe", Obj(StampRecipe(parse(span).value, createdAt, Arr(items)))))
      && (parse(span).Failure? ==> r == Failed(500, parse(span).error))
  {
    match WidestSpan(CleanFences(text), '{', '}')
    case None => Failed(500, Messages.InvalidFormatMessage)
    case Some(span) =>
      match parse(span)
      case Failure(m) => Failed(500, m)
      case Success(v) => Succeeded("recipe", Obj(StampRecipe(v, createdAt, Arr(items))))
  }

  /** `generateRecipe`: `configured` says whether the server has an API key,
      `createdAt` is the time of the call. The checks run in order:
      configuration, method, ingredients. */
  function GenerateRecipe(
    configured: bool, req: HttpRequest, model: Model, createdAt: string, parse: JsonParser): (r: HttpResponse)
    ensures Enveloped(r)
    ensures !configured ==> r == Failed(500, NotConfiguredMessage)
    ensures configured && req.httpMethod != "POST" ==> r == Failed(405, MethodNotAllowedMessage)
    ensures configured && req.httpMethod == "POST" && RequestIngredients(req.body).None? ==>
      r == Failed(400, IngredientsRequiredMessage)
    ensures r.status == 200 ==>
      && configured && req.httpMethod == "POST" && RequestIngredients(req.body).Some?
      && CarriesRecipe(r, createdAt, req.body["ingredients"])
  {
    if !configured then Failed(500, NotConfiguredMessage)
    else if req.httpMethod != "POST" then Failed(405, MethodNotAllowedMessage)
    else match RequestIngredients(req.body)
      case None => Failed(400, IngredientsRequiredMessage)
      case Some(items) => RecipeFromIngredients(items, Get(req.body, "preferences"), model, createdAt, parse)
  }

  /** The part of `generateRecipe` after validation: rendering the
      preferences, asking the model and reading its answer. Every failure
      on the way is a 500 with the error's own message. */
  function RecipeFromIngredients(
    items: seq<Value>, preferences: Option<Value>, model: Model, createdAt: string, parse: JsonParser): (r: HttpResponse)
    ensures Enveloped(r) && (r.status == 200 || r.status == 500)
    ensures ServerRendering(preferences).Failure? ==> r == Failed(500, ServerRendering(preferences).error)
    ensures r.status == 200 ==> CarriesRecipe(r, createdAt, Arr(items))
  {
    match ServerRendering(preferences)
    case Failure(m) => Failed(500, m)
    case Success(rendered) => RecipeFromRendering(items, rendered, model, createdAt, parse)
  }

  /** Asking the model with the rendered preferences and reading its answer. */
  function RecipeFromRendering(
    items: seq<Value>, rendered: seq<string>, model: Model, createdAt: string, parse: JsonParser): (r: HttpResponse)
    requires |rendered| == 5
    ensures Enveloped(r) && (r.status == 200 || r.status == 500)
    ensures r.status == 200 ==> CarriesRecipe(r, createdAt, Arr(items))
  {
    match model(ServerRecipeRequest(items, rendered))
    case Failure(m) => Failed(500, m)
    case Success(text) => RecipeFromAnswer(text, items, createdAt, parse)
  }

  /** The prompt the server sends for a request's ingredients and preferences. */
  function ServerRecipeRequest(items: seq<Value>, rendered: seq<string>): ModelRequest
    requires |rendered| == 5
  {
    TextPrompt(RecipePrompt(JoinValues(items, ", "), rendered, ServerClosing))
  }

  /** Unlike the browser client, the server reports the model's error message
      as it is, whatever keywords it holds. */
  lemma ServerReportsModelErrorAsIs(
    req: HttpRequest, model: Model, createdAt: string, parse: JsonParser, m: string)
    requires req.httpMethod == "POST" && RequestIngredients(req.body).Some?
    requires ServerRendering(Get(req.body, "preferences")).Success?
    requires model(ServerRecipeRequest(RequestIngredients(req.body).value,
      ServerRendering(Get(req.body, "preferences")).value)) == Failure(m)
    ensures GenerateRecipe(true, req, model, createdAt, parse) == Failed(500, m)
  {
  }

  /** A response with no object in it fails with the invalid-format message. */
  lemma ServerRejectsTextWithoutObject(
    req: HttpRequest, model: Model, createdAt: string, parse: JsonParser, text: string)
    requires req.httpMethod == "POST" && RequestIngredients(req.body).Some?
    requires ServerRendering(Get(req.body, "preferences")).Success?
    requires model(ServerRecipeRequest(RequestIngredients(req.body).value,
      ServerRendering(Get(req.body, "preferences")).value)) == Success(text)
    requires '{' !in text
    ensures GenerateRecipe(true, req, model, createdAt, parse) == Failed(500, Messages.InvalidFormatMessage)
  {
    CleanFencesKeepsOut(text, '{');
  }

  /** A recipe fenced as "```json" arrives at the parser without the fences
      and is answered with 200: its fields survive next to the two stamped
      ones, `originalIngredients` being the request's array. */
  lemma ServerParsesFencedRecipe(
    req: HttpRequest, model: Model, createdAt: string, parse: JsonParser, body: string, fields: Record)
    requires req.httpMethod == "POST" && RequestIngredients(req.body).Some?
    requires ServerRendering(Get(req.body, "preferences")).Success?
    requires model(ServerRecipeRequest(RequestIngredients(req.body).value,
      ServerRendering(Get(req.body, "preferences")).value)) == Success(JsonFence + "\n" + body + "\n" + Fence)
    requires '`' !in body && Trimmed(body) && |body| >= 2 && body[0] == '{' && body[|body| - 1] == '}'
    requires parse(body) == Success(Obj(fields))
    ensures var r := GenerateRecipe(true, req, model, createdAt, parse);
      && r == Succeeded("recipe", Obj(StampRecipe(Obj(fields), createdAt, req.body["ingredients"])))
      && forall k :: k in fields && k != "createdAt" && k != "originalIngredients" ==>
        k in r.body["recipe"].fields && r.body["recipe"].fields[k] == fields[k]
  {
    assert CleanFences(JsonFence + "\n" + body + "\n" + Fence) == body by {
      JsonFencedLikeBare(body);
      CleanFencesOfPlain(body);
      TrimOfTrimmed(body);
    }
    assert WidestSpan(body, '{', '}') == Some(body) by {
      WholeTextIsSpan(body, '{', '}');
    }
  }

  /** Dietary restrictions that are present but not an array make the
      handler fail with the `TypeError` before the model is asked. */
  lemma ServerRejectsNonArrayRestrictions(
    req: HttpRequest, model: Model, createdAt: string, parse: JsonParser, fields: Record)
    requires req.httpMethod == "POST" && RequestIngredients(req.body).Some?
    requires "preferences" in req.body && req.body["preferences"] == Obj(fields)
    requires "dietaryRestrictions" in fields && fields["dietaryRestrictions"].Str?
    ensures GenerateRecipe(true, req, model, createdAt, parse) == Failed(500, JoinNotAFunctionMessage)
  {
    assert PreferenceField(Get(req.body, "preferences"), "dietaryRestrictions") == Some(fields["dietaryRestrictions"]);
    assert ServerRendering(Get(req.body, "preferences")) == Failure(JoinNotAFunctionMessage);
  }
}
