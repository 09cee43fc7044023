/**
 * The agent calls of geminiService.ts, in the two copies the repository
 * carries (services/ and src/services/). Apart from the continuity agent
 * (module Continuity) the two copies agree line for line, so they are
 * modelled once.
 *
 * The hosted model is not part of this model: every call goes through a
 * `Gateway`, a function from the request to what the client library
 * settles with — a response, or an exception.
 */
module Gemini {

  import opened Types
  import opened Text
  import opened CleanJson

  const TextModel: string := "gemini-3-flash-preview"
  const ImageModel: string := "gemini-2.5-flash-image"
  const SpeechModel: string := "gemini-2.5-flash-preview-tts"
  const SpeechVoice: string := "Kore"

  /** What a `generateContent` call sends: the model, the text of the user
      turn, and the configuration fields the service sets. */
  datatype Request = Request(
    model: string,
    prompt: string,
    systemInstruction: Option<string>,
    temperature: Option<real>,
    responseMimeType: Option<string>,
    voiceName: Option<string>)

  datatype InlineData = InlineData(mimeType: Option<string>, data: Option<string>)
  datatype Part = Part(inlineData: Option<InlineData>)

  /** What the service reads from a response: the `text` accessor, and the
      parts of the first candidate (`candidates?.[0]?.content?.parts`). */
  datatype Response = Response(text: Option<string>, parts: Option<seq<Part>>)

  type Gateway = Request -> Outcome<Response>

  // ---- formatBibleContext ----

  /** `s || fallback` for a string. */
  function OrText(s: string, fallback: string): (r: string)
    ensures s != "" ==> r == s
    ensures s == "" ==> r == fallback
    ensures r == "" <==> s == "" && fallback == ""
  {
    if s != "" then s else fallback
  }

  function CharacterLine(c: Character): string {
    "- " + c.name + ": " + c.description
  }

  function LocationLine(l: Location): string {
    "- " + l.name + ": " + l.description
  }

  /** `characters.map(c => `- ${c.name}: ${c.description}`)`. */
  function CharacterLines(cs: seq<Character>): (r: seq<string>)
    ensures |r| == |cs|
    ensures forall i :: 0 <= i < |cs| ==> r[i] == CharacterLine(cs[i])
  {
    if |cs| == 0 then [] else [CharacterLine(cs[0])] + CharacterLines(cs[1..])
  }

  function LocationLines(ls: seq<Location>): (r: seq<string>)
    ensures |r| == |ls|
    ensures forall i :: 0 <= i < |ls| ==> r[i] == LocationLine(ls[i])
  {
    if |ls| == 0 then [] else [LocationLine(ls[0])] + LocationLines(ls[1..])
  }

  function SummaryText(b: Bible): string {
    OrText(b.summary, "No summary provided.")
  }

  function CharacterBlock(b: Bible): string {
    var cs := b.characters.GetOr([]);
    if |cs| > 0 then Join(CharacterLines(cs), '\n') else "No characters defined."
  }

  function LocationBlock(b: Bible): string {
    var ls := b.locations.GetOr([]);
    if |ls| > 0 then Join(LocationLines(ls), '\n') else "No locations defined."
  }

  /** The story-bible block that opens every text prompt. */
  function FormatBibleContext(b: Bible): string {
    "\n" + "PROJECT BIBLE:" + "\n" + "SUMMARY: " + SummaryText(b) + "\n" + "CHARACTERS:" + "\n"
    + CharacterBlock(b) + "\n" + "LOCATIONS:" + "\n" + LocationBlock(b) + "\n"
  }

  function HeaderLines(b: Bible): seq<string> {
    ["", "PROJECT BIBLE:", "SUMMARY: " + SummaryText(b), "CHARACTERS:"]
  }

  /** One line per character, or the fallback line. */
  function CharacterEntries(b: Bible): (r: seq<string>)
    ensures |r| >= 1
  {
    var cs := b.characters.GetOr([]);
    if |cs| > 0 then CharacterLines(cs) else ["No characters defined."]
  }

  /** One line per location, or the fallback line. */
  function LocationEntries(b: Bible): (r: seq<string>)
    ensures |r| >= 1
  {
    var ls := b.locations.GetOr([]);
    if |ls| > 0 then LocationLines(ls) else ["No locations defined."]
  }

  /** The lines the context is meant to consist of, one entry per line: a
      header, the summary or its fallback, one line per character in list
      order or the fallback line, the same for locations, and the empty
      line the closing newline leaves. */
  function ContextLines(b: Bible): seq<string> {
    HeaderLines(b) + CharacterEntries(b) + ["LOCATIONS:"] + LocationEntries(b) + [""]
  }

  /** No text the context shows holds a line break. */
  predicate SingleLineBible(b: Bible) {
    var cs := b.characters.GetOr([]);
    var ls := b.locations.GetOr([]);
    '\n' !in b.summary
    && (forall i :: 0 <= i < |cs| ==> '\n' !in cs[i].name && '\n' !in cs[i].description)
    && (forall i :: 0 <= i < |ls| ==> '\n' !in ls[i].name && '\n' !in ls[i].description)
  }

  /** Read line by line, the context is exactly `ContextLines`: the three
      fallbacks apply precisely to an empty summary and empty lists, and
      there is one `- name: description` line per record, in order. */
  lemma ContextLineStructure(b: Bible)
    requires SingleLineBible(b)
    ensures Split(FormatBibleContext(b), '\n') == ContextLines(b)
  {
    ContextIsJoinOfLines(b);
    ContextLinesAreSingle(b);
    SplitJoin(ContextLines(b), '\n');
  }

  lemma ContextIsJoinOfLines(b: Bible)
    ensures Join(ContextLines(b), '\n') == FormatBibleContext(b)
  {
    var head := HeaderLines(b);
    var chars := CharacterEntries(b);
    var locs := LocationEntries(b);
    var h := "\n" + "PROJECT BIBLE:" + "\n" + "SUMMARY: " + SummaryText(b) + "\n" + "CHARACTERS:";
    HeaderJoin(b);
    EntriesJoin(b);
    JoinAppend(head, chars, '\n');
    var j1 := h + "\n" + CharacterBlock(b);
    JoinAppend(head + chars, ["LOCATIONS:"], '\n');
    var j2 := j1 + "\n" + "LOCATIONS:";
    JoinAppend(head + chars + ["LOCATIONS:"], locs, '\n');
    var j3 := j2 + "\n" + LocationBlock(b);
    JoinAppend(head + chars + ["LOCATIONS:"] + locs, [""], '\n');
    assert Join(ContextLines(b), '\n') == j3 + "\n" + "";
  }

  lemma HeaderJoin(b: Bible)
    ensures Join(HeaderLines(b), '\n')
         == "\n" + "PROJECT BIBLE:" + "\n" + "SUMMARY: " + SummaryText(b) + "\n" + "CHARACTERS:"
  {
    var head := HeaderLines(b);
    var sep := '\n';
    assert Join(head[3..], sep) == "CHARACTERS:";
    assert Join(head[2..], sep) == head[2] + [sep] + Join(head[3..], sep);
    assert Join(head[1..], sep) == head[1] + [sep] + Join(head[2..], sep);
    assert Join(head, sep) == head[0] + [sep] + Join(head[1..], sep);
  }

  lemma EntriesJoin(b: Bible)
    ensures Join(CharacterEntries(b), '\n') == CharacterBlock(b)
    ensures Join(LocationEntries(b), '\n') == LocationBlock(b)
  {
  }

  lemma ContextLinesAreSingle(b: Bible)
    requires SingleLineBible(b)
    ensures |ContextLines(b)| >= 1
    ensures Lines(ContextLines(b), '\n')
  {
    var cs := b.characters.GetOr([]);
    var ls := b.locations.GetOr([]);
    assert Lines(HeaderLines(b), '\n');
    assert Lines(CharacterEntries(b), '\n') by {
      assert forall i :: 0 <= i < |cs| ==> '\n' !in CharacterLine(cs[i]);
    }
    assert Lines(LocationEntries(b), '\n') by {
      assert forall i :: 0 <= i < |ls| ==> '\n' !in LocationLine(ls[i]);
    }
    LinesAppend(HeaderLines(b), CharacterEntries(b), '\n');
    LinesAppend(HeaderLines(b) + CharacterEntries(b), ["LOCATIONS:"], '\n');
    LinesAppend(HeaderLines(b) + CharacterEntries(b) + ["LOCATIONS:"], LocationEntries(b), '\n');
    LinesAppend(HeaderLines(b) + CharacterEntries(b) + ["LOCATIONS:"] + LocationEntries(b), [""], '\n');
  }

  /** A list that is missing formats exactly like an empty list. */
  lemma MissingListsFormatAsEmpty(b: Bible)
    ensures FormatBibleContext(b.(characters := None, locations := None))
         == FormatBibleContext(b.(characters := Some([]), locations := Some([])))
    ensures b.characters.GetOr([]) == [] ==>
      CharacterBlock(b) == "No characters defined."
    ensures b.locations.GetOr([]) == [] ==>
      LocationBlock(b) == "No locations defined."
  {
  }

  // ---- the text agents ----

  /** `text || fallback` for a text that may be absent. */
  function TextOr(text: Option<string>, fallback: string): (r: string)
    ensures text.Some? && text.value != "" ==> r == text.value
    ensures text.None? || text.value == "" ==> r == fallback
  {
    match text
    case Some(t) => OrText(t, fallback)
    case None => fallback
  }

  /** `response.text || fallback`. */
  function ReplyOr(resp: Response, fallback: string): string {
    TextOr(resp.text, fallback)
  }

  // The fixed texts of the agents' prompts and system instructions.
  const PlannerInstruction: string := "You are the PLANNER agent. Create a detailed Beat Sheet."
  const PlannerTask: string := "\n\nTASK: Create a Beat Sheet."
  const WriterInstruction: string := "You are the WRITER agent. Write vivid fiction prose."
  const WriterTask: string := "\n\nTASK: Write the scene draft."
  const EditorInstruction: string := "You are the EDITOR agent."

  function PlannerRequest(b: Bible, idea: string): Request {
    Request(TextModel, FormatBibleContext(b) + "\n\nSCENE IDEA: " + idea + PlannerTask,
      Some(PlannerInstruction), Some(0.7), None, None)
  }

  /** runPlannerAgent: the reply text, or "Failed." when it is empty; a
      rejected call propagates. The beat sheet it yields is never empty. */
  function RunPlanner(b: Bible, idea: string, generate: Gateway): (r: Outcome<string>)
    ensures r.Thrown? <==> generate(PlannerRequest(b, idea)).Thrown?
    ensures r.Thrown? ==> r.fault == generate(PlannerRequest(b, idea)).fault
    ensures r.Ok? ==> r.value != ""
    ensures r.Ok? ==> var text := generate(PlannerRequest(b, idea)).value.text;
      (text.Some? && text.value != "" ==> r.value == text.value)
      && (text.None? || text.value == "" ==> r.value == "Failed.")
  {
    match generate(PlannerRequest(b, idea))
    case Ok(resp) => Ok(ReplyOr(resp, "Failed."))
    case Thrown(f) => Thrown(f)
  }

  /** The writer's request. `runWriterAgent` also takes the scene's current
      content, but never puts it in the request. */
  function WriterRequest(b: Bible, beatSheet: string): Request {
    Request(TextModel, FormatBibleContext(b) + "\n\nBEAT SHEET:\n" + beatSheet + WriterTask,
      Some(WriterInstruction), Some(0.8), None, None)
  }

  /** runWriterAgent: the reply text, or "Failed." when it is empty. */
  function RunWriter(b: Bible, beatSheet: string, existingContent: string, generate: Gateway): (r: Outcome<string>)
    ensures r.Thrown? <==> generate(WriterRequest(b, beatSheet)).Thrown?
    ensures r.Thrown? ==> r.fault == generate(WriterRequest(b, beatSheet)).fault
    ensures r.Ok? ==> r.value != ""
    ensures r.Ok? ==> var text := generate(WriterRequest(b, beatSheet)).value.text;
      (text.Some? && text.value != "" ==> r.value == text.value)
      && (text.None? || text.value == "" ==> r.value == "Failed.")
  {
    match generate(WriterRequest(b, beatSheet))
    case Ok(resp) => Ok(ReplyOr(resp, "Failed."))
    case Thrown(f) => Thrown(f)
  }

  /** The draft does not depend on the content the scene had before. */
  lemma WriterIgnoresExistingContent(b: Bible, beatSheet: string, c1: string, c2: string, generate: Gateway)
    ensures RunWriter(b, beatSheet, c1, generate) == RunWriter(b, beatSheet, c2, generate)
  {
  }

  function EditorRequest(sceneText: string, instructions: string): Request {
    Request(TextModel, "TEXT: " + sceneText + "\n\nINSTRUCTIONS: " + instructions,
      Some(EditorInstruction), Some(0.5), None, None)
  }

  /** runEditorAgent: the reply text, or the unedited scene text when the
      reply is empty; so an edit never empties a non-empty scene. */
  function RunEditor(sceneText: string, instructions: string, generate: Gateway): (r: Outcome<string>)
    ensures r.Thrown? <==> generate(EditorRequest(sceneText, instructions)).Thrown?
    ensures r.Thrown? ==> r.fault == generate(EditorRequest(sceneText, instructions)).fault
    ensures r.Ok? ==> var text := generate(EditorRequest(sceneText, instructions)).value.text;
      (text.Some? && text.value != "" ==> r.value == text.value)
      && (text.None? || text.value == "" ==> r.value == sceneText)
    ensures r.Ok? && sceneText != "" ==> r.value != ""
  {
    match generate(EditorRequest(sceneText, instructions))
    case Ok(resp) => Ok(ReplyOr(resp, sceneText))
    case Thrown(f) => Thrown(f)
  }

  // ---- the parts of a response ----

  /** The index of the first part that carries inline data. */
  function FirstInline(parts: seq<Part>): (r: Option<nat>)
    ensures r.None? <==> forall k :: 0 <= k < |parts| ==> parts[k].inlineData.None?
    ensures r.Some? ==> (r.value < |parts| && parts[r.value].inlineData.Some?
                         && forall k :: 0 <= k < r.value ==> parts[k].inlineData.None?)
  {
    if |parts| == 0 then None
    else if parts[0].inlineData.Some? then Some(0)
    else
      match FirstInline(parts[1..])
      case None => None
      case Some(k) => Some(k + 1)
  }

  /** The `for (const part of parts) if (part.inlineData) return ...` loop. */
  method ScanParts(parts: seq<Part>) returns (r: Option<nat>)
    ensures r == FirstInline(parts)
  {
    var i := 0;
    while i < |parts|
      invariant 0 <= i <= |parts|
      invariant forall k :: 0 <= k < i ==> parts[k].inlineData.None?
    {
      if parts[i].inlineData.Some? {
        return Some(i);
      }
      i := i + 1;
    }
    return None;
  }

  /** A value interpolated into a template literal: `undefined` when absent. */
  function Interpolate(o: Option<string>): string {
    o.GetOr("undefined")
  }

  function DataUri(d: InlineData): string {
    "data:" + Interpolate(d.mimeType) + ";base64," + Interpolate(d.data)
  }

  /** The inline data of the first part that has some, if any. */
  function FirstInlineData(resp: Response): (r: Option<InlineData>)
    ensures r.Some? <==> exists k :: 0 <= k < |resp.parts.GetOr([])| && resp.parts.GetOr([])[k].inlineData.Some?
    ensures r.Some? ==> exists k :: (0 <= k < |resp.parts.GetOr([])| && resp.parts.GetOr([])[k].inlineData == r
                                     && forall m :: 0 <= m < k ==> resp.parts.GetOr([])[m].inlineData.None?)
  {
    var parts := resp.parts.GetOr([]);
    match FirstInline(parts)
    case None => None
    case Some(i) => parts[i].inlineData
  }

  // ---- the visualiser ----

  const ContentLimit: nat := 500

  function VisualizerPrompt(b: Bible, title: string, content: string): string {
    "Story: " + b.summary + "\nScene: " + title + "\nContent: " + Take(content, ContentLimit)
  }

  /** The visualiser's prompt carries the summary and the title whole, and
      of the content only a prefix of at most 500 characters — all of it
      when it is no longer than that. */
  lemma VisualizerPromptTruncates(b: Bible, title: string, content: string)
    ensures var head := "Story: " + b.summary + "\nScene: " + title + "\nContent: ";
      var p := VisualizerPrompt(b, title, content);
      |head| <= |p| <= |head| + ContentLimit && p[..|head|] == head && p[|head|..] <= content
      && (|content| <= ContentLimit ==> p[|head|..] == content)
      && (|content| > ContentLimit ==> |p| == |head| + ContentLimit)
  {
    var head := "Story: " + b.summary + "\nScene: " + title + "\nContent: ";
    var p := VisualizerPrompt(b, title, content);
    assert p == head + Take(content, ContentLimit);
    assert p[|head|..] == Take(content, ContentLimit);
  }

  function VisualizerRequest(b: Bible, title: string, content: string): Request {
    Request(ImageModel, VisualizerPrompt(b, title, content), None, None, None, None)
  }

  /** runVisualizerAgent: a data URI built from the first part that carries
      inline data, or nothing when no part does; a rejected call propagates. */
  function RunVisualizer(b: Bible, title: string, content: string, generate: Gateway): (r: Outcome<Option<string>>)
    ensures r.Thrown? <==> generate(VisualizerRequest(b, title, content)).Thrown?
    ensures r.Ok? ==> (r.value.None? <==> FirstInlineData(generate(VisualizerRequest(b, title, content)).value).None?)
    ensures r.Ok? && r.value.Some? ==>
      r.value.value == DataUri(FirstInlineData(generate(VisualizerRequest(b, title, content)).value).value)
      && r.value.value[..5] == "data:"
  {
    match generate(VisualizerRequest(b, title, content))
    case Thrown(f) => Thrown(f)
    case Ok(resp) =>
      match FirstInlineData(resp)
      case None => Ok(None)
      case Some(d) => Ok(Some(DataUri(d)))
  }

  // ---- speech ----

  const SpeechLimit: nat := 3000

  function SpeechRequest(text: string): Request {
    Request(SpeechModel, Take(text, SpeechLimit), None, None, None, Some(SpeechVoice))
  }

  /** The speech request reads at most the first 3000 characters of the
      text, and the whole text when it is no longer than that. */
  lemma SpeechRequestTruncates(text: string)
    ensures SpeechRequest(text).prompt <= text
    ensures |SpeechRequest(text).prompt| == if |text| <= SpeechLimit then |text| else SpeechLimit
  {
  }

  /** generateSceneAudio: the (base64) data of the first part with inline
      data; nothing when no part has any, and nothing when the call fails. */
  function GenerateSceneAudio(text: string, generate: Gateway): (r: Option<string>)
    ensures generate(SpeechRequest(text)).Thrown? ==> r.None?
    ensures generate(SpeechRequest(text)).Ok? ==>
      var found := FirstInlineData(generate(SpeechRequest(text)).value);
      (found.None? ==> r.None?) && (found.Some? ==> r == found.value.data)
  {
    match generate(SpeechRequest(text))
    case Thrown(_) => None
    case Ok(resp) =>
      match FirstInlineData(resp)
      case None => None
      case Some(d) => d.data
  }

  // ---- decodeBase64 ----

  newtype byte = x: int | 0 <= x < 256

  /** decodeBase64 after `atob`: `binary` is the decoded binary string.
      Each char code goes into a Uint8Array, which keeps it modulo 256;
      `atob` only produces codes below 256, which are copied unchanged. */
  method DecodeBase64(binary: string) returns (bytes: array<byte>)
    ensures fresh(bytes) && bytes.Length == |binary|
    ensures forall i :: 0 <= i < |binary| ==> bytes[i] as int == binary[i] as int % 256
    ensures forall i :: 0 <= i < |binary| && binary[i] as int < 256 ==> bytes[i] as int == binary[i] as int
  {
    bytes := new byte[|binary|];
    for i := 0 to |binary|
      invariant forall k :: 0 <= k < i ==> bytes[k] as int == binary[k] as int % 256
    {
      bytes[i] := (binary[i] as int % 256) as byte;
    }
  }
}
