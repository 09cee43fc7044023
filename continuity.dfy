/**
 * The continuity agent, the one call in which the two service copies
 * differ.
 *
 * services/geminiService.ts parses the cleaned reply and hands back its
 * `errors` field unchecked; anything that throws propagates to the caller.
 *
 * src/services/geminiService.ts wraps the whole call in try/catch. It maps
 * every entry of `errors` to `{type, description}`, taking for each the
 * first truthy value among several spellings of the key, or a default
 * text. Any exception yields the empty list.
 *
 * JSON.parse is not part of this model: it is the parameter `parse`.
 */
module Continuity {

  import opened Types
  import opened CleanJson
  import opened Gemini

  type Parser = string -> Outcome<Json>

  const TypeKeys: seq<string> := ["type", "Type", "issue"]
  const DescriptionKeys: seq<string> := ["description", "Description", "detail", "message"]
  const DefaultType: Json := JString("General Issue")
  const DefaultDescription: Json := JString("No description provided.")

  /** `v.key` is present and truthy. */
  predicate TruthyField(v: Json, key: string) {
    Field(v, key).Some? && Truthy(Field(v, key).value)
  }

  /** `v[keys[0]] || v[keys[1]] || ... || fallback`: the first truthy field
      among `keys`, in order, or the fallback when none is truthy. */
  function FirstTruthy(v: Json, keys: seq<string>, fallback: Json): (r: Json)
    ensures (forall k :: 0 <= k < |keys| ==> !TruthyField(v, keys[k])) ==> r == fallback
    ensures forall k :: 0 <= k < |keys| && TruthyField(v, keys[k]) && NoneTruthyBefore(v, keys, k)
                        ==> r == Field(v, keys[k]).value
    ensures Truthy(fallback) ==> Truthy(r)
  {
    FirstTruthyFrom(v, keys, 0, fallback)
  }

  predicate NoneTruthyBefore(v: Json, keys: seq<string>, k: int)
    requires k <= |keys|
  {
    forall m :: 0 <= m < k ==> !TruthyField(v, keys[m])
  }

  /** The search from index `i` on. */
  function FirstTruthyFrom(v: Json, keys: seq<string>, i: nat, fallback: Json): (r: Json)
    requires i <= |keys|
    ensures (forall k :: i <= k < |keys| ==> !TruthyField(v, keys[k])) ==> r == fallback
    ensures forall k :: i <= k < |keys| && TruthyField(v, keys[k])
                        && (forall m :: i <= m < k ==> !TruthyField(v, keys[m]))
                        ==> r == Field(v, keys[k]).value
    ensures Truthy(fallback) ==> Truthy(r)
    decreases |keys| - i
  {
    if i == |keys| then fallback
    else if TruthyField(v, keys[i]) then Field(v, keys[i]).value
    else FirstTruthyFrom(v, keys, i + 1, fallback)
  }

  /** The mapping of one entry of `errors`. Reading a field of `null` throws. */
  function NormaliseIssue(err: Json): (r: Outcome<TypedIssue>)
    ensures r.Thrown? <==> err == JNull
    ensures r.Ok? ==> Truthy(r.value.issueType) && Truthy(r.value.description)
    ensures r.Ok? ==> r.value == TypedIssue(FirstTruthy(err, TypeKeys, DefaultType),
                                            FirstTruthy(err, DescriptionKeys, DefaultDescription))
  {
    if err == JNull then Thrown(TypeError)
    else Ok(TypedIssue(FirstTruthy(err, TypeKeys, DefaultType), FirstTruthy(err, DescriptionKeys, DefaultDescription)))
  }

  /** `items.map(...)`: one issue per item, in order; the first `null` item throws. */
  function NormaliseAll(items: seq<Json>): (r: Outcome<seq<TypedIssue>>)
    ensures r.Ok? <==> JNull !in items
    ensures r.Ok? ==> |r.value| == |items|
    ensures r.Ok? ==> forall i :: 0 <= i < |items| ==> Ok(r.value[i]) == NormaliseIssue(items[i])
  {
    NormaliseFrom(items, 0)
  }

  /** The `map` from index `k` on. */
  function NormaliseFrom(items: seq<Json>, k: nat): (r: Outcome<seq<TypedIssue>>)
    requires k <= |items|
    ensures r.Ok? <==> forall i :: k <= i < |items| ==> items[i] != JNull
    ensures r.Ok? ==> |r.value| == |items| - k
    ensures r.Ok? ==> forall i :: k <= i < |items| ==> Ok(r.value[i - k]) == NormaliseIssue(items[i])
    decreases |items| - k
  {
    if k == |items| then Ok([])
    else
      match NormaliseIssue(items[k])
      case Thrown(f) => Thrown(f)
      case Ok(head) =>
        match NormaliseFrom(items, k + 1)
        case Thrown(f) => Thrown(f)
        case Ok(rest) => Ok([head] + rest)
  }

  /** `(result.errors || []).map(...)` on the parsed reply. Reading a field
      of `null` throws, and so does calling `map` on a truthy value that is
      not an array. */
  function NormaliseErrors(result: Json): (r: Outcome<seq<TypedIssue>>)
    ensures result != JNull && !TruthyField(result, "errors") ==> r == Ok([])
    ensures result != JNull && TruthyField(result, "errors") && Field(result, "errors").value.JArray? ==>
      r == NormaliseAll(Field(result, "errors").value.items)
    ensures r.Ok? ==> (result != JNull
                       && (TruthyField(result, "errors") ==> Field(result, "errors").value.JArray?))
  {
    if result == JNull then Thrown(TypeError)
    else if !TruthyField(result, "errors") then Ok([])
    else
      match Field(result, "errors").value
      case JArray(items) => NormaliseAll(items)
      case _ => Thrown(TypeError)
  }

  // ---- src/services/geminiService.ts ----

  /** The fixed instructions of the src copy's prompt, which follow the
      scene text. */
  const JsonMime: string := "application/json"

  const StrictTask: string :=
    "\n\n    TASK:\n    Identify consistency errors (dead characters appearing, wrong locations, contradictions with the summary).\n    \n"
    + "    IMPORTANT: You MUST return valid JSON only. No markdown formatting.\n"
    + "    The JSON must follow this exact structure:\n    {\n      \"errors\": [\n        {\n"
    + "          \"type\": \"Character Inconsistency\",\n"
    + "          \"description\": \"Character 'Alex' is described as afraid of water, but swims confidently here.\"\n"
    + "        }\n      ]\n    }\n    \n    If there are no errors, return: { \"errors\": [] }\n  "

  /** The prompt of the src copy: everything goes into the user turn, and
      there is no system instruction. */
  function StrictPrompt(context: string, sceneText: string): string {
    "\n    " + context + "\n\n    SCENE TEXT TO ANALYZE:\n    " + sceneText + StrictTask
  }

  function StrictRequest(b: Bible, sceneText: string): Request {
    Request(TextModel, StrictPrompt(FormatBibleContext(b), sceneText), None, Some(0.1), Some(JsonMime), None)
  }

  /** The reply text as the src copy reads it: `response.response.text()`.
      A response of the client library has no `response` member, so the
      call is made on `undefined` and throws. */
  function NestedReplyText(resp: Response): Outcome<Option<string>> {
    Thrown(TypeError)
  }

  /** The reply text as the `text` accessor gives it. */
  function ReplyText(resp: Response): Outcome<Option<string>> {
    Ok(resp.text)
  }

  /** What the try block makes of the reply text: `text || "{}"`, cleaned,
      parsed and normalised. A failed parse or normalisation gives the empty
      list; every issue it reports has a truthy type and description. */
  function ReadIssues(text: Option<string>, parse: Parser): (r: seq<TypedIssue>)
    ensures var parsed := parse(CleanJsonString(TextOr(text, "{}")));
      (parsed.Thrown? ==> r == [])
      && (parsed.Ok? && NormaliseErrors(parsed.value).Thrown? ==> r == [])
      && (parsed.Ok? && NormaliseErrors(parsed.value).Ok? ==> r == NormaliseErrors(parsed.value).value)
    ensures forall i :: 0 <= i < |r| ==> Truthy(r[i].issueType) && Truthy(r[i].description)
  {
    match parse(CleanJsonString(TextOr(text, "{}")))
    case Thrown(_) => []
    case Ok(result) =>
      match NormaliseErrors(result)
      case Thrown(_) => []
      case Ok(issues) =>
        NormalisedIssuesAreTruthy(result);
        issues
  }

  /** Every issue the normaliser yields has a truthy type and description. */
  lemma NormalisedIssuesAreTruthy(result: Json)
    requires NormaliseErrors(result).Ok?
    ensures var r := NormaliseErrors(result).value;
      forall i :: 0 <= i < |r| ==> Truthy(r[i].issueType) && Truthy(r[i].description)
  {
    var r := NormaliseErrors(result).value;
    if TruthyField(result, "errors") {
      var items := Field(result, "errors").value.items;
      forall i | 0 <= i < |r| ensures Truthy(r[i].issueType) && Truthy(r[i].description) {
        assert Ok(r[i]) == NormaliseIssue(items[i]);
      }
    }
  }

  /** The body of the try block, given how the reply text is read. */
  function GuardedBody(reply: Outcome<Option<string>>, parse: Parser): (r: seq<TypedIssue>)
    ensures reply.Thrown? ==> r == []
    ensures reply.Ok? ==> r == ReadIssues(reply.value, parse)
  {
    match reply
    case Thrown(_) => []
    case Ok(text) => ReadIssues(text, parse)
  }

  /** runContinuityAgent of the src copy as written. */
  function RunContinuityAsWritten(b: Bible, sceneText: string, generate: Gateway, parse: Parser): seq<TypedIssue> {
    match generate(StrictRequest(b, sceneText))
    case Thrown(_) => []
    case Ok(resp) => GuardedBody(NestedReplyText(resp), parse)
  }

  /** As written, the agent never reports an issue, whatever the model replies. */
  lemma AsWrittenReportsNothing(b: Bible, sceneText: string, generate: Gateway, parse: Parser)
    ensures RunContinuityAsWritten(b, sceneText, generate, parse) == []
  {
  }

  /** runContinuityAgent of the src copy, reading the reply through the
      `text` accessor as every other agent does. Whatever goes wrong — the
      call, the parse, a `null` entry, an `errors` that is not an array —
      the result is the empty list; otherwise there is one normalised issue
      per entry of `errors`. */
  function RunContinuity(b: Bible, sceneText: string, generate: Gateway, parse: Parser): (r: seq<TypedIssue>)
    ensures generate(StrictRequest(b, sceneText)).Thrown? ==> r == []
    ensures generate(StrictRequest(b, sceneText)).Ok? ==>
      r == ReadIssues(generate(StrictRequest(b, sceneText)).value.text, parse)
    ensures forall i :: 0 <= i < |r| ==> Truthy(r[i].issueType) && Truthy(r[i].description)
  {
    match generate(StrictRequest(b, sceneText))
    case Thrown(_) => []
    case Ok(resp) => GuardedBody(ReplyText(resp), parse)
  }

  /** A reply that lists one timeline error. */
  const TimelineReply: string := "{\"errors\":[{\"type\":\"Timeline\"}]}"

  /** What JSON.parse makes of `TimelineReply`. */
  const TimelineResult: Json := JObject(map["errors" := JArray([JObject(map["type" := JString("Timeline")])])])

  /** With a reply that lists an error under `errors`, and a parser that
      reads that reply as its JSON value and rejects every other text, the
      corrected agent reports the error and the agent as written reports
      nothing. */
  lemma AsWrittenLosesReportedError(b: Bible, sceneText: string)
    ensures var generate: Gateway := _ => Ok(Response(Some(TimelineReply), None));
      var parse: Parser := t => if t == TimelineReply then Ok(TimelineResult) else Thrown(SyntaxError);
      RunContinuity(b, sceneText, generate, parse) == [TypedIssue(JString("Timeline"), DefaultDescription)]
      && RunContinuityAsWritten(b, sceneText, generate, parse) == []
  {
    var generate: Gateway := _ => Ok(Response(Some(TimelineReply), None));
    var parse: Parser := t => if t == TimelineReply then Ok(TimelineResult) else Thrown(SyntaxError);
    TimelineReplyIsRead(parse);
    assert generate(StrictRequest(b, sceneText)) == Ok(Response(Some(TimelineReply), None));
  }

  /** Any parser that reads `TimelineReply` as `TimelineResult` gets the
      timeline error out of that reply. */
  lemma TimelineReplyIsRead(parse: Parser)
    requires parse(TimelineReply) == Ok(TimelineResult)
    ensures ReadIssues(Some(TimelineReply), parse) == [TypedIssue(JString("Timeline"), DefaultDescription)]
  {
    TimelineReplyIsClean();
    TimelineErrorNormalises(JObject(map["type" := JString("Timeline")]), TimelineResult);
    assert TextOr(Some(TimelineReply), "{}") == TimelineReply;
    assert parse(CleanJsonString(TextOr(Some(TimelineReply), "{}"))) == Ok(TimelineResult);
  }

  /** `TimelineReply` is a bare object: cleaning leaves it as it is. */
  lemma TimelineReplyIsClean()
    ensures CleanJsonString(TimelineReply) == TimelineReply
  {
    var s := TimelineReply;
    assert "" + s + "" == s;
    assert forall i :: 0 <= i < |s| ==> s[i] != '`';
    NoTickNoFence(s, 0, |s|);
    assert NoFence(s);
    CleanBareObject("", s, "");
  }

  /** One error entry with a type and no description, normalised. */
  lemma TimelineErrorNormalises(err: Json, result: Json)
    requires err == JObject(map["type" := JString("Timeline")])
    requires result == JObject(map["errors" := JArray([err])])
    ensures NormaliseErrors(result) == Ok([TypedIssue(JString("Timeline"), DefaultDescription)])
  {
    assert FirstTruthy(err, TypeKeys, DefaultType) == JString("Timeline") by {
      assert TruthyField(err, TypeKeys[0]);
    }
    assert FirstTruthy(err, DescriptionKeys, DefaultDescription) == DefaultDescription by {
      assert forall k :: 0 <= k < |DescriptionKeys| ==> !TruthyField(err, DescriptionKeys[k]);
    }
    assert NormaliseAll([err]) == Ok([TypedIssue(JString("Timeline"), DefaultDescription)]) by {
      var n := NormaliseAll([err]);
      assert JNull !in [err];
      assert Ok(n.value[0]) == NormaliseIssue([err][0]);
      assert n.value == [n.value[0]];
    }
    assert TruthyField(result, "errors");
  }

  // ---- services/geminiService.ts ----

  const PlainInstruction: string := "You are the CONTINUITY agent. Return JSON with 'errors' array."

  function PlainRequest(b: Bible, sceneText: string): Request {
    Request(TextModel, FormatBibleContext(b) + "\n\nSCENE TEXT:\n" + sceneText,
      Some(PlainInstruction), Some(0.1), Some(JsonMime), None)
  }

  /** runContinuityAgent of the root copy: `result.errors || []`, unchecked.
      A rejected call or a failed parse propagates, and so does the
      TypeError of reading `errors` off a `null` reply. The value it yields
      is always truthy: an absent or falsy `errors` becomes `[]`. */
  function RunContinuityUnguarded(b: Bible, sceneText: string, generate: Gateway, parse: Parser): (r: Outcome<Json>)
    ensures generate(PlainRequest(b, sceneText)).Thrown? ==> r == Thrown(generate(PlainRequest(b, sceneText)).fault)
    ensures generate(PlainRequest(b, sceneText)).Ok? ==>
      var parsed := parse(CleanJsonString(ReplyOr(generate(PlainRequest(b, sceneText)).value, "{}")));
      (parsed.Thrown? ==> r == Thrown(parsed.fault))
      && (parsed == Ok(JNull) ==> r == Thrown(TypeError))
      && (parsed.Ok? && parsed.value != JNull ==>
            r == Ok(if TruthyField(parsed.value, "errors") then Field(parsed.value, "errors").value else JArray([])))
    ensures r.Ok? ==> Truthy(r.value)
  {
    match generate(PlainRequest(b, sceneText))
    case Thrown(f) => Thrown(f)
    case Ok(resp) =>
      match parse(CleanJsonString(ReplyOr(resp, "{}")))
      case Thrown(f) => Thrown(f)
      case Ok(result) =>
        if result == JNull then Thrown(TypeError)
        else if TruthyField(result, "errors") then Ok(Field(result, "errors").value)
        else Ok(JArray([]))
  }
}
