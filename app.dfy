/**
 * The App component of App.tsx (the repository's root copy) and src/App.tsx:
 * the state it keeps, the effects that check the API key, load the story
 * from local storage and write it back, and the handlers the panels call,
 * above all handleAgentAction, which runs an agent and folds its result
 * into the state.
 *
 * Each handler is first a function on an `AppState` value; the class
 * `Orchestrator` holds the same state in fields and its methods are proved
 * to move it exactly as those functions say. The two copies differ in the
 * message shown without a key, in the key's initial value, and in the
 * writer action: under src/ it runs the continuity check on the fresh
 * draft, and only the src/ copy has a continuity service that normalises
 * its result and never throws.
 *
 * `localStorage` is the pair of fields `savedBible` and `savedScenes`, and
 * the persist effect runs after every handler that changes the bible, the
 * scenes or the loaded flag.
 */
module App {

  import opened Types
  import opened Text
  import opened Records
  import opened Scenes
  import opened Gemini
  import Checker = Continuity

  /** Which copy of the component. */
  datatype Variant = Src | Root

  /** What `continuityErrors` holds: the normalised issues of the src/
      service, or the unchecked `errors` value of the root one. */
  datatype ErrorList = Normalised(issues: seq<TypedIssue>) | Raw(value: Json)

  const Idle: AgentStatus := AgentStatus(false, None, None, None)

  /** `{ isWorking: true, currentTask: type, agentName: type.toUpperCase() }` */
  function Working(t: AgentType): AgentStatus {
    AgentStatus(true, Some(AgentTypeName(t)), Some(AgentTypeUpper(t)), None)
  }

  /** The status of the automatic check that follows the writer (src/ only). */
  const AutoCheck: AgentStatus := AgentStatus(true, Some("continuity"), Some("AUTO-CHECK"), None)

  const InitialBible: Bible := Bible(
    Some([Character("1", "Kaito", ["Cynical"], "Alive", "A detective with a cybernetic eye."),
          Character("2", "Aria", ["Mysterious"], "Alive", "An android who claims to dream.")]),
    Some([Location("1", "The Neon Bazaar", "A crowded, rain-slicked market.")]),
    "A cyberpunk noir set in Neo-Tokyo 2099. Detective Kaito investigates a series of android malfunctions that point to a rogue AI god.")

  const FailureToast: Toast := Toast("AI Action failed. See console for details.", ErrorToast)
  const DraftToast: Toast := Toast("Draft written! Now checking consistency...", SuccessToast)
  const PerfectToast: Toast := Toast("Perfect! No continuity errors found.", SuccessToast)
  const NoErrorsToast: Toast := Toast("No errors found.", SuccessToast)

  function UnavailableToast(v: Variant): Toast {
    match v
    case Src => Toast("API Service is unavailable (Check .env file).", ErrorToast)
    case Root => Toast("API Service is unavailable.", ErrorToast)
  }

  function IssuesFoundToast(n: nat): Toast {
    Toast("Found " + NatToString(n) + " continuity issues. Check 'CONTI' tab.", ErrorToast)
  }

  datatype AppState = AppState(
    variant: Variant,
    bible: Bible,
    scenes: seq<Scene>,
    activeSceneId: string,
    isLoaded: bool,
    hasApiKey: bool,
    agentStatus: AgentStatus,
    continuityErrors: ErrorList,
    toast: Option<Toast>,
    savedBible: Option<Bible>,        // localStorage 'vwr_bible'
    savedScenes: Option<seq<Scene>>)  // localStorage 'vwr_scenes'

  /** What storage may hold: a scene list written by an earlier session,
      whose ids are distinct. */
  predicate StoredScenesOk(saved: Option<seq<Scene>>) {
    saved.Some? ==> UniqueIds(saved.value, SceneId)
  }

  /** Storage mirrors the bible and the scenes. */
  predicate Synced(s: AppState) {
    s.savedBible == Some(s.bible) && s.savedScenes == Some(s.scenes)
  }

  /** What every handler keeps: there is always a scene to show, scene ids
      are distinct, and once the story is loaded storage mirrors it. */
  predicate ValidState(s: AppState) {
    |s.scenes| > 0 && UniqueIds(s.scenes, SceneId) && StoredScenesOk(s.savedScenes)
    && (s.isLoaded ==> Synced(s))
  }

  /** The state of a fresh mount, over whatever storage holds. */
  function Initial(v: Variant, savedBible: Option<Bible>, savedScenes: Option<seq<Scene>>): (r: AppState)
    ensures StoredScenesOk(savedScenes) ==> ValidState(r)
    ensures !r.isLoaded && r.agentStatus == Idle && r.toast.None?
    ensures r.hasApiKey <==> v == Root
    ensures r.scenes == [InitialScene] && r.activeSceneId == InitialScene.id
  {
    AppState(v, InitialBible, [InitialScene], InitialScene.id, false, v == Root, Idle,
      if v == Src then Normalised([]) else Raw(JArray([])),
      None, savedBible, savedScenes)
  }

  // ---- effects ----

  /** The key check: `!!key && key.length > 0`. */
  function CheckApiKey(s: AppState, key: Option<string>): (r: AppState)
    ensures r.hasApiKey <==> key.Some? && key.value != ""
    ensures r == s.(hasApiKey := r.hasApiKey)
  {
    s.(hasApiKey := key.Some? && |key.value| > 0)
  }

  /** The persist effect: once loaded, the bible and the scenes are written
      to storage; before that, storage is left alone. */
  function Persist(s: AppState): (r: AppState)
    ensures s.isLoaded ==> Synced(r)
    ensures !s.isLoaded ==> r == s
    ensures r.(savedBible := s.savedBible, savedScenes := s.savedScenes) == s
  {
    if s.isLoaded then s.(savedBible := Some(s.bible), savedScenes := Some(s.scenes)) else s
  }

  /** The load effect: a stored bible replaces the initial one, a stored
      scene list replaces the initial scenes unless it is empty, and the
      story counts as loaded. */
  function Load(s: AppState): (r: AppState)
    ensures r.isLoaded
    ensures r.bible == s.savedBible.GetOr(s.bible)
    ensures r.scenes == (if s.savedScenes.Some? && |s.savedScenes.value| > 0 then s.savedScenes.value else s.scenes)
    ensures r == s.(bible := r.bible, scenes := r.scenes, isLoaded := true)
  {
    var scenes := if s.savedScenes.Some? && |s.savedScenes.value| > 0 then s.savedScenes.value else s.scenes;
    s.(bible := s.savedBible.GetOr(s.bible), scenes := scenes, isLoaded := true)
  }

  /** A story written to storage by one session is the story the next
      session loads. */
  lemma ReloadRestoresStory(s: AppState, v: Variant)
    requires ValidState(s) && s.isLoaded
    ensures var next := Persist(Load(Initial(v, s.savedBible, s.savedScenes)));
      next.bible == s.bible && next.scenes == s.scenes && Synced(next) && ValidState(next)
  {
  }

  /** A stored empty scene list is ignored: the initial scene is kept, and
      the persist effect then overwrites the stored list with it. */
  lemma EmptyStoredScenesIgnored(v: Variant, savedBible: Option<Bible>)
    ensures var next := Persist(Load(Initial(v, savedBible, Some([]))));
      next.scenes == [InitialScene] && next.savedScenes == Some([InitialScene])
  {
  }

  // ---- agent actions ----

  function PlannerPatch(plan: string): Patch { Patch(None, Some(plan), None, None, Some(Planner)) }
  function WriterPatch(draft: string): Patch { Patch(None, None, Some(draft), None, Some(Writer)) }
  function EditorPatch(edited: string): Patch { Patch(None, None, Some(edited), None, Some(Editor)) }
  function VisualizerPatch(url: string): Patch { Patch(None, None, None, Some(url), Some(Visualizer)) }

  /** What an agent may change: the active scene of the list, through a
      patch that keeps its id, and the status, the toast and the continuity
      results. The bible, the selection, the flags, storage, the length of
      the list, every id and every other scene stay as they were. */
  predicate AgentFrame(s: AppState, r: AppState) {
    r.variant == s.variant && r.bible == s.bible && r.activeSceneId == s.activeSceneId
    && r.isLoaded == s.isLoaded && r.hasApiKey == s.hasApiKey
    && r.savedBible == s.savedBible && r.savedScenes == s.savedScenes
    && |r.scenes| == |s.scenes|
    && (forall i :: 0 <= i < |s.scenes| ==> r.scenes[i].id == s.scenes[i].id)
    && (forall i :: 0 <= i < |s.scenes| && s.scenes[i].id != s.activeSceneId ==> r.scenes[i] == s.scenes[i])
  }

  /** An agent's changes keep every handler's invariant, once the persist
      effect has run. */
  lemma AgentFrameKeepsValid(s: AppState, r: AppState)
    requires ValidState(s) && AgentFrame(s, r)
    ensures ValidState(Persist(r))
  {
  }

  /** updateActiveScene on a state: the patch goes to the scenes that carry
      the active id, and nothing outside the scene list changes. */
  function Update(s: AppState, p: Patch): (r: AppState)
    ensures r.scenes == UpdateActiveScene(s.scenes, s.activeSceneId, p)
    ensures AgentFrame(s, r)
    ensures r.agentStatus == s.agentStatus && r.toast == s.toast && r.continuityErrors == s.continuityErrors
  {
    s.(scenes := UpdateActiveScene(s.scenes, s.activeSceneId, p))
  }

  /** The continuity results as the src/ writer stores them, with the
      toast that reports them. */
  function CheckedDraft(s: AppState, draft: string, generate: Gateway, parse: Checker.Parser): (r: AppState)
    ensures r.scenes == s.scenes && AgentFrame(s, r)
    ensures r.continuityErrors == Normalised(Checker.RunContinuity(s.bible, draft, generate, parse))
    ensures r.toast.Some? && (r.toast.value.kind == SuccessToast <==> |r.continuityErrors.issues| == 0)
    ensures r.agentStatus == s.agentStatus
  {
    var errors := Checker.RunContinuity(s.bible, draft, generate, parse);
    s.(continuityErrors := Normalised(errors),
       toast := Some(if |errors| > 0 then IssuesFoundToast(|errors|) else PerfectToast))
  }

  /** The planner branch of the `try` block: the plan becomes the active
      scene's beat sheet. */
  function PlannerBody(s: AppState, input: Option<string>, generate: Gateway): (r: Outcome<AppState>)
    ensures r.Thrown? <==> RunPlanner(s.bible, input.GetOr(""), generate).Thrown?
    ensures r.Ok? ==> r.value == Update(s, PlannerPatch(RunPlanner(s.bible, input.GetOr(""), generate).value))
    ensures r.Ok? ==> AgentFrame(s, r.value) && r.value.toast == s.toast && r.value.agentStatus == s.agentStatus
  {
    match RunPlanner(s.bible, input.GetOr(""), generate)
    case Thrown(f) => Thrown(f)
    case Ok(plan) => Ok(Update(s, PlannerPatch(plan)))
  }

  /** The writer branch: the draft becomes the active scene's content;
      under src/ the continuity check then runs on the draft. */
  function WriterBody(s: AppState, generate: Gateway, parse: Checker.Parser): (r: Outcome<AppState>)
    requires |s.scenes| > 0
    ensures r.Thrown? <==> RunWriter(s.bible, ActiveScene(s.scenes, s.activeSceneId).beatSheet,
                                     ActiveScene(s.scenes, s.activeSceneId).content, generate).Thrown?
    ensures r.Ok? ==> AgentFrame(s, r.value)
    ensures r.Ok? ==> var draft := RunWriter(s.bible, ActiveScene(s.scenes, s.activeSceneId).beatSheet,
                                             ActiveScene(s.scenes, s.activeSceneId).content, generate).value;
      r.value.scenes == UpdateActiveScene(s.scenes, s.activeSceneId, WriterPatch(draft))
      && (s.variant == Root ==> r.value == Update(s, WriterPatch(draft)))
      && (s.variant == Src ==> r.value.continuityErrors == Normalised(Checker.RunContinuity(s.bible, draft, generate, parse)))
  {
    var active := ActiveScene(s.scenes, s.activeSceneId);
    match RunWriter(s.bible, active.beatSheet, active.content, generate)
    case Thrown(f) => Thrown(f)
    case Ok(draft) =>
      var written := Update(s, WriterPatch(draft));
      if s.variant == Root then Ok(written)
      else Ok(CheckedDraft(written.(toast := Some(DraftToast), agentStatus := AutoCheck), draft, generate, parse))
  }

  /** The continuity branch: the scene's issues are stored; under src/ an
      empty list is announced and nothing can throw. */
  function ContinuityBody(s: AppState, generate: Gateway, parse: Checker.Parser): (r: Outcome<AppState>)
    requires |s.scenes| > 0
    ensures s.variant == Src ==> var errors := Checker.RunContinuity(s.bible, ActiveScene(s.scenes, s.activeSceneId).content, generate, parse);
      r == Ok(s.(continuityErrors := Normalised(errors), toast := if |errors| == 0 then Some(NoErrorsToast) else s.toast))
    ensures s.variant == Root ==> var found := Checker.RunContinuityUnguarded(s.bible, ActiveScene(s.scenes, s.activeSceneId).content, generate, parse);
      (r.Thrown? <==> found.Thrown?) && (r.Ok? ==> r.value == s.(continuityErrors := Raw(found.value)))
    ensures r.Ok? ==> r.value.scenes == s.scenes && AgentFrame(s, r.value)
  {
    var active := ActiveScene(s.scenes, s.activeSceneId);
    if s.variant == Src then
      var errors := Checker.RunContinuity(s.bible, active.content, generate, parse);
      Ok(s.(continuityErrors := Normalised(errors),
            toast := if |errors| == 0 then Some(NoErrorsToast) else s.toast))
    else
      match Checker.RunContinuityUnguarded(s.bible, active.content, generate, parse)
      case Thrown(f) => Thrown(f)
      case Ok(errors) => Ok(s.(continuityErrors := Raw(errors)))
  }

  /** The editor branch: the edited text becomes the active scene's content. */
  function EditorBody(s: AppState, input: Option<string>, generate: Gateway): (r: Outcome<AppState>)
    requires |s.scenes| > 0
    ensures r.Thrown? <==> RunEditor(ActiveScene(s.scenes, s.activeSceneId).content, input.GetOr(""), generate).Thrown?
    ensures r.Ok? ==> r.value == Update(s, EditorPatch(RunEditor(ActiveScene(s.scenes, s.activeSceneId).content, input.GetOr(""), generate).value))
    ensures r.Ok? ==> AgentFrame(s, r.value) && r.value.toast == s.toast && r.value.agentStatus == s.agentStatus
  {
    match RunEditor(ActiveScene(s.scenes, s.activeSceneId).content, input.GetOr(""), generate)
    case Thrown(f) => Thrown(f)
    case Ok(edited) => Ok(Update(s, EditorPatch(edited)))
  }

  /** The visualiser branch: the picture reads the content, or the beat
      sheet while the content is empty; the scene changes only when the
      reply carries an image. */
  function VisualizerBody(s: AppState, generate: Gateway): (r: Outcome<AppState>)
    requires |s.scenes| > 0
    ensures var active := ActiveScene(s.scenes, s.activeSceneId);
      var url := RunVisualizer(s.bible, active.title, OrText(active.content, active.beatSheet), generate);
      (r.Thrown? <==> url.Thrown?) && (url == Ok(None) ==> r == Ok(s))
      && (url.Ok? && url.value.Some? ==> r == Ok(Update(s, VisualizerPatch(url.value.value))))
    ensures r.Ok? ==> AgentFrame(s, r.value) && r.value.toast == s.toast && r.value.agentStatus == s.agentStatus
  {
    var active := ActiveScene(s.scenes, s.activeSceneId);
    match RunVisualizer(s.bible, active.title, OrText(active.content, active.beatSheet), generate)
    case Thrown(f) => Thrown(f)
    case Ok(None) => Ok(s)
    case Ok(Some(url)) => Ok(Update(s, VisualizerPatch(url)))
  }

  /** The body of the `try` block of handleAgentAction, started from `s`:
      the state it leaves, or the exception that ends it. Every call that
      can throw is the first thing its branch does, so a throw leaves no
      change behind. */
  function TryBody(s: AppState, t: AgentType, input: Option<string>, generate: Gateway, parse: Checker.Parser): (r: Outcome<AppState>)
    requires |s.scenes| > 0
    ensures r.Ok? ==> AgentFrame(s, r.value)
    ensures t == Planner ==> r == PlannerBody(s, input, generate)
    ensures t == Writer ==> r == WriterBody(s, generate, parse)
    ensures t == Continuity ==> r == ContinuityBody(s, generate, parse)
    ensures t == Editor ==> r == EditorBody(s, input, generate)
    ensures t == Visualizer ==> r == VisualizerBody(s, generate)
  {
    match t
    case Planner => PlannerBody(s, input, generate)
    case Writer => WriterBody(s, generate, parse)
    case Continuity => ContinuityBody(s, generate, parse)
    case Editor => EditorBody(s, input, generate)
    case Visualizer => VisualizerBody(s, generate)
  }

  /** handleAgentAction. Without a key only the "unavailable" toast
      appears. Otherwise the agent runs; a throw shows the failure toast;
      and in every case the status ends idle. Only what `AgentFrame`
      allows can change. */
  function AgentStep(s: AppState, t: AgentType, input: Option<string>, generate: Gateway, parse: Checker.Parser): (r: AppState)
    requires |s.scenes| > 0
    ensures !s.hasApiKey ==> r == s.(toast := Some(UnavailableToast(s.variant)))
    ensures s.hasApiKey ==> r.agentStatus == Idle
    ensures AgentFrame(s, r)
  {
    if !s.hasApiKey then s.(toast := Some(UnavailableToast(s.variant)))
    else
      match TryBody(s.(agentStatus := Working(t)), t, input, generate, parse)
      case Ok(after) => after.(agentStatus := Idle)
      case Thrown(_) => s.(toast := Some(FailureToast), agentStatus := Idle)
  }

  /** The src/ writer: the draft goes into the active scene, stamped by the
      writer, and the continuity check runs on that very draft; its issues
      are stored, and the last toast says how many there were. */
  lemma WriterChecksItsDraft(s: AppState, input: Option<string>, generate: Gateway, parse: Checker.Parser, draft: string)
    requires ValidState(s) && s.hasApiKey && s.variant == Src
    requires HasId(s.scenes, s.activeSceneId, SceneId)
    requires RunWriter(s.bible, ActiveScene(s.scenes, s.activeSceneId).beatSheet,
                       ActiveScene(s.scenes, s.activeSceneId).content, generate) == Ok(draft)
    ensures var r := AgentStep(s, Writer, input, generate, parse);
      var errors := Checker.RunContinuity(s.bible, draft, generate, parse);
      ActiveScene(r.scenes, s.activeSceneId).content == draft
      && ActiveScene(r.scenes, s.activeSceneId).lastAgent == Some(Writer)
      && r.continuityErrors == Normalised(errors)
      && r.toast == Some(if |errors| == 0 then PerfectToast else IssuesFoundToast(|errors|))
  {
    var r := AgentStep(s, Writer, input, generate, parse);
    SrcWriterStep(s, input, generate, parse, draft);
    PatchReachesActiveScene(s.scenes, s.activeSceneId, WriterPatch(draft), r.scenes);
  }

  /** The state the src/ writer leaves, once the draft is in. */
  lemma SrcWriterStep(s: AppState, input: Option<string>, generate: Gateway, parse: Checker.Parser, draft: string)
    requires |s.scenes| > 0 && s.hasApiKey && s.variant == Src
    requires RunWriter(s.bible, ActiveScene(s.scenes, s.activeSceneId).beatSheet,
                       ActiveScene(s.scenes, s.activeSceneId).content, generate) == Ok(draft)
    ensures var r := AgentStep(s, Writer, input, generate, parse);
      var errors := Checker.RunContinuity(s.bible, draft, generate, parse);
      r.scenes == UpdateActiveScene(s.scenes, s.activeSceneId, WriterPatch(draft))
      && r.continuityErrors == Normalised(errors)
      && r.toast == Some(if |errors| == 0 then PerfectToast else IssuesFoundToast(|errors|))
  {
    var started := s.(agentStatus := Working(Writer));
    assert ActiveScene(started.scenes, started.activeSceneId) == ActiveScene(s.scenes, s.activeSceneId);
    assert TryBody(started, Writer, input, generate, parse) == WriterBody(started, generate, parse);
  }

  /** The planner: its plan becomes the beat sheet of the active scene,
      stamped by the planner, and nothing else but the status changes. */
  lemma PlannerStep(s: AppState, input: Option<string>, generate: Gateway, parse: Checker.Parser, plan: string)
    requires ValidState(s) && s.hasApiKey && HasId(s.scenes, s.activeSceneId, SceneId)
    requires RunPlanner(s.bible, input.GetOr(""), generate) == Ok(plan)
    ensures var r := AgentStep(s, Planner, input, generate, parse);
      r == s.(scenes := UpdateActiveScene(s.scenes, s.activeSceneId, PlannerPatch(plan)), agentStatus := Idle)
      && ActiveScene(r.scenes, s.activeSceneId).beatSheet == plan
      && ActiveScene(r.scenes, s.activeSceneId).lastAgent == Some(Planner)
      && ActiveScene(r.scenes, s.activeSceneId).title == ActiveScene(s.scenes, s.activeSceneId).title
      && ActiveScene(r.scenes, s.activeSceneId).content == ActiveScene(s.scenes, s.activeSceneId).content
  {
    var r := AgentStep(s, Planner, input, generate, parse);
    PatchReachesActiveScene(s.scenes, s.activeSceneId, PlannerPatch(plan), r.scenes);
  }

  /** The root writer: the draft becomes the active scene's content, stamped
      by the writer, and no check follows. */
  lemma RootWriterStep(s: AppState, input: Option<string>, generate: Gateway, parse: Checker.Parser, draft: string)
    requires ValidState(s) && s.hasApiKey && s.variant == Root && HasId(s.scenes, s.activeSceneId, SceneId)
    requires RunWriter(s.bible, ActiveScene(s.scenes, s.activeSceneId).beatSheet,
                       ActiveScene(s.scenes, s.activeSceneId).content, generate) == Ok(draft)
    ensures var r := AgentStep(s, Writer, input, generate, parse);
      r == s.(scenes := UpdateActiveScene(s.scenes, s.activeSceneId, WriterPatch(draft)), agentStatus := Idle)
      && ActiveScene(r.scenes, s.activeSceneId).content == draft
      && ActiveScene(r.scenes, s.activeSceneId).lastAgent == Some(Writer)
      && ActiveScene(r.scenes, s.activeSceneId).beatSheet == ActiveScene(s.scenes, s.activeSceneId).beatSheet
  {
    var r := AgentStep(s, Writer, input, generate, parse);
    var started := s.(agentStatus := Working(Writer));
    assert ActiveScene(started.scenes, started.activeSceneId) == ActiveScene(s.scenes, s.activeSceneId);
    PatchReachesActiveScene(s.scenes, s.activeSceneId, WriterPatch(draft), r.scenes);
  }

  /** The root checker: the unchecked `errors` value is stored as it came
      and the toast stays; a throw shows the failure toast instead. */
  lemma RootCheckerStep(s: AppState, input: Option<string>, generate: Gateway, parse: Checker.Parser)
    requires |s.scenes| > 0 && s.hasApiKey && s.variant == Root
    ensures var found := Checker.RunContinuityUnguarded(s.bible, ActiveScene(s.scenes, s.activeSceneId).content, generate, parse);
      var r := AgentStep(s, Continuity, input, generate, parse);
      (found.Ok? ==> r == s.(continuityErrors := Raw(found.value), agentStatus := Idle))
      && (found.Thrown? ==> r == s.(toast := Some(FailureToast), agentStatus := Idle))
  {
    var started := s.(agentStatus := Working(Continuity));
    assert ActiveScene(started.scenes, started.activeSceneId) == ActiveScene(s.scenes, s.activeSceneId);
  }

  /** The editor: the edited text becomes the active scene's content,
      stamped by the editor. */
  lemma EditorStep(s: AppState, input: Option<string>, generate: Gateway, parse: Checker.Parser, edited: string)
    requires ValidState(s) && s.hasApiKey && HasId(s.scenes, s.activeSceneId, SceneId)
    requires RunEditor(ActiveScene(s.scenes, s.activeSceneId).content, input.GetOr(""), generate) == Ok(edited)
    ensures var r := AgentStep(s, Editor, input, generate, parse);
      r == s.(scenes := UpdateActiveScene(s.scenes, s.activeSceneId, EditorPatch(edited)), agentStatus := Idle)
      && ActiveScene(r.scenes, s.activeSceneId).content == edited
      && ActiveScene(r.scenes, s.activeSceneId).lastAgent == Some(Editor)
      && ActiveScene(r.scenes, s.activeSceneId).beatSheet == ActiveScene(s.scenes, s.activeSceneId).beatSheet
  {
    var r := AgentStep(s, Editor, input, generate, parse);
    var started := s.(agentStatus := Working(Editor));
    assert ActiveScene(started.scenes, started.activeSceneId) == ActiveScene(s.scenes, s.activeSceneId);
    PatchReachesActiveScene(s.scenes, s.activeSceneId, EditorPatch(edited), r.scenes);
  }

  /** The visualiser: an image becomes the active scene's picture, stamped
      by the visualiser; a reply without one changes nothing but the status. */
  lemma VisualizerStep(s: AppState, input: Option<string>, generate: Gateway, parse: Checker.Parser, url: Option<string>)
    requires ValidState(s) && s.hasApiKey && HasId(s.scenes, s.activeSceneId, SceneId)
    requires var active := ActiveScene(s.scenes, s.activeSceneId);
      RunVisualizer(s.bible, active.title, OrText(active.content, active.beatSheet), generate) == Ok(url)
    ensures var r := AgentStep(s, Visualizer, input, generate, parse);
      (url.None? ==> r == s.(agentStatus := Idle))
      && (url.Some? ==> r == s.(scenes := UpdateActiveScene(s.scenes, s.activeSceneId, VisualizerPatch(url.value)), agentStatus := Idle)
                        && ActiveScene(r.scenes, s.activeSceneId).imageUrl == url
                        && ActiveScene(r.scenes, s.activeSceneId).lastAgent == Some(Visualizer)
                        && ActiveScene(r.scenes, s.activeSceneId).content == ActiveScene(s.scenes, s.activeSceneId).content)
  {
    var r := AgentStep(s, Visualizer, input, generate, parse);
    var started := s.(agentStatus := Working(Visualizer));
    assert ActiveScene(started.scenes, started.activeSceneId) == ActiveScene(s.scenes, s.activeSceneId);
    if url.Some? {
      PatchReachesActiveScene(s.scenes, s.activeSceneId, VisualizerPatch(url.value), r.scenes);
    }
  }

  /** handleAgentAction without a key, once persisted: the toast is all
      that changes, and the invariant holds. */
  lemma KeylessStep(s: AppState, t: AgentType, input: Option<string>, generate: Gateway, parse: Checker.Parser)
    requires ValidState(s) && !s.hasApiKey
    ensures var r := s.(toast := Some(UnavailableToast(s.variant)));
      Persist(AgentStep(s, t, input, generate, parse)) == r && ValidState(r)
  {
  }

  /** handleAgentAction with a key, put together from the outcome of its
      `try` block: the failure toast when that threw, then the idle status. */
  lemma StepAfterTry(s: AppState, t: AgentType, input: Option<string>, generate: Gateway, parse: Checker.Parser,
                     started: AppState, failed: bool, mid: AppState)
    requires |s.scenes| > 0 && s.hasApiKey && started == s.(agentStatus := Working(t))
    requires var o := TryBody(started, t, input, generate, parse);
      failed == o.Thrown? && mid == if o.Ok? then o.value else started
    ensures (if failed then mid.(toast := Some(FailureToast)) else mid).(agentStatus := Idle)
            == AgentStep(s, t, input, generate, parse)
  {
  }

  /** With distinct ids, the active scene after a patch is the patched
      active scene. */
  lemma PatchReachesActiveScene(scenes: seq<Scene>, activeId: string, p: Patch, updated: seq<Scene>)
    requires UniqueIds(scenes, SceneId) && HasId(scenes, activeId, SceneId)
    requires updated == UpdateActiveScene(scenes, activeId, p)
    ensures ActiveScene(updated, activeId) == ApplyPatch(ActiveScene(scenes, activeId), p)
  {
    var k := FindId(scenes, activeId, SceneId).value;
    UpdateTouchesActiveScene(scenes, activeId, p);
    ActiveSceneIsUnique(scenes, activeId, k);
    UpdateKeepsIdsUnique(scenes, activeId, p);
    ActiveSceneIsUnique(updated, activeId, k);
  }

  /** With distinct ids, the scene the view shows is the one at the index
      that carries the active id. */
  lemma ActiveSceneIsUnique(scenes: seq<Scene>, activeId: string, k: nat)
    requires UniqueIds(scenes, SceneId) && k < |scenes| && scenes[k].id == activeId
    ensures ActiveScene(scenes, activeId) == scenes[k]
  {
  }

  /** Without a key no agent runs: whatever the action, only the toast
      changes, and the message names the missing key. */
  lemma NoKeyNoAgent(s: AppState, t: AgentType, input: Option<string>, generate: Gateway, parse: Checker.Parser)
    requires |s.scenes| > 0 && !s.hasApiKey
    ensures AgentStep(s, t, input, generate, parse).scenes == s.scenes
    ensures AgentStep(s, t, input, generate, parse).continuityErrors == s.continuityErrors
    ensures AgentStep(s, t, input, generate, parse).toast.value.kind == ErrorToast
  {
  }

  /** A rejected call changes nothing but the toast and the status. */
  lemma FailedCallKeepsStory(s: AppState, t: AgentType, input: Option<string>, generate: Gateway, parse: Checker.Parser)
    requires |s.scenes| > 0 && s.hasApiKey
    requires TryBody(s.(agentStatus := Working(t)), t, input, generate, parse).Thrown?
    ensures AgentStep(s, t, input, generate, parse) == s.(toast := Some(FailureToast), agentStatus := Idle)
  {
  }

  /** The src/ continuity service never throws, so the src/ checker always
      stores its issues, and never shows the failure toast of its own: it
      announces an empty list and leaves the toast alone otherwise. */
  lemma SrcCheckerAlwaysReports(s: AppState, input: Option<string>, generate: Gateway, parse: Checker.Parser)
    requires |s.scenes| > 0 && s.hasApiKey && s.variant == Src
    ensures var errors := Checker.RunContinuity(s.bible, ActiveScene(s.scenes, s.activeSceneId).content, generate, parse);
      var r := AgentStep(s, Continuity, input, generate, parse);
      r.continuityErrors == Normalised(errors)
      && (|errors| == 0 ==> r.toast == Some(NoErrorsToast))
      && (|errors| > 0 ==> r.toast == s.toast)
      && r.scenes == s.scenes
  {
  }

  /** The root writer leaves earlier continuity results in place. */
  lemma RootWriterKeepsIssues(s: AppState, input: Option<string>, generate: Gateway, parse: Checker.Parser)
    requires |s.scenes| > 0 && s.variant == Root
    ensures AgentStep(s, Writer, input, generate, parse).continuityErrors == s.continuityErrors
  {
  }

  /** When the active id names no scene, the view shows the first scene and
      the agents read it, but no agent's result reaches the list. */
  lemma DanglingActiveIdLosesResults(s: AppState, t: AgentType, input: Option<string>, generate: Gateway, parse: Checker.Parser)
    requires |s.scenes| > 0 && !HasId(s.scenes, s.activeSceneId, SceneId)
    ensures AgentStep(s, t, input, generate, parse).scenes == s.scenes
  {
    var r := AgentStep(s, t, input, generate, parse);
    forall i | 0 <= i < |s.scenes| ensures r.scenes[i] == s.scenes[i] {
      assert s.scenes[i].id != s.activeSceneId;
    }
  }

  // ---- the component ----

  class Orchestrator {
    const variant: Variant
    var bible: Bible
    var scenes: seq<Scene>
    var activeSceneId: string
    var isLoaded: bool
    var hasApiKey: bool
    var agentStatus: AgentStatus
    var continuityErrors: ErrorList
    var toast: Option<Toast>
    var savedBible: Option<Bible>
    var savedScenes: Option<seq<Scene>>

    function State(): AppState
      reads this
    {
      AppState(variant, bible, scenes, activeSceneId, isLoaded, hasApiKey, agentStatus,
        continuityErrors, toast, savedBible, savedScenes)
    }

    predicate Valid()
      reads this
    {
      ValidState(State())
    }

    /** The mount, over whatever storage already holds. */
    constructor (v: Variant, storedBible: Option<Bible>, storedScenes: Option<seq<Scene>>)
      requires StoredScenesOk(storedScenes)
      ensures Valid()
      ensures State() == Initial(v, storedBible, storedScenes)
    {
      variant := v;
      bible := InitialBible;
      scenes := [InitialScene];
      activeSceneId := InitialScene.id;
      isLoaded := false;
      hasApiKey := v == Root;
      agentStatus := Idle;
      continuityErrors := if v == Src then Normalised([]) else Raw(JArray([]));
      toast := None;
      savedBible := storedBible;
      savedScenes := storedScenes;
    }

    /** The persist effect, run after each change of the bible, the scenes
        or the loaded flag. */
    method PersistStory()
      modifies this
      ensures State() == Persist(old(State()))
    {
      if isLoaded {
        savedBible := Some(bible);
        savedScenes := Some(scenes);
      }
    }

    method CheckKey(key: Option<string>)
      requires Valid()
      modifies this
      ensures Valid()
      ensures State() == CheckApiKey(old(State()), key)
    {
      hasApiKey := key.Some? && |key.value| > 0;
    }

    method LoadStory()
      requires Valid()
      modifies this
      ensures Valid()
      ensures State() == Persist(Load(old(State())))
    {
      if savedBible.Some? {
        bible := savedBible.value;
      }
      if savedScenes.Some? && |savedScenes.value| > 0 {
        scenes := savedScenes.value;
      }
      isLoaded := true;
      PersistStory();
    }

    /** `onUpdate` of the bible panel. */
    method SetBible(b: Bible)
      requires Valid()
      modifies this
      ensures Valid()
      ensures State() == Persist(old(State()).(bible := b))
    {
      bible := b;
      PersistStory();
    }

    /** `onSelectScene`. */
    method SelectScene(id: string)
      requires Valid()
      modifies this
      ensures Valid()
      ensures State() == old(State()).(activeSceneId := id)
    {
      activeSceneId := id;
    }

    /** updateActiveScene, as the editor, the title field and the plan
        field call it. */
    method EditActiveScene(p: Patch)
      requires Valid()
      modifies this
      ensures Valid()
      ensures State() == Persist(Update(old(State()), p))
    {
      UpdateKeepsIdsUnique(scenes, activeSceneId, p);
      scenes := UpdateActiveScene(scenes, activeSceneId, p);
      PersistStory();
    }

    /** handleAddScene, with the fresh id `crypto.randomUUID` would draw. */
    method AddScene(freshId: string)
      requires Valid() && !HasId(scenes, freshId, SceneId)
      modifies this
      ensures Valid()
      ensures State() == Persist(old(State()).(scenes := Scenes.AddScene(old(scenes), freshId), activeSceneId := freshId))
      ensures ActiveScene(scenes, activeSceneId) == scenes[|scenes| - 1]
    {
      scenes := Scenes.AddScene(scenes, freshId);
      activeSceneId := freshId;
      PersistStory();
    }

    /** `onDeleteScene`: the guarded delete. */
    method DeleteScene(id: string)
      requires Valid()
      modifies this
      ensures Valid()
      ensures State() == Persist(old(State()).(scenes := Scenes.DeleteScene(old(scenes), id)))
    {
      DeleteKeepsScenes(scenes, id);
      scenes := Scenes.DeleteScene(scenes, id);
      PersistStory();
    }

    /** The toast's close button and its timer. */
    method DismissToast()
      requires Valid()
      modifies this
      ensures Valid()
      ensures State() == old(State()).(toast := None)
    {
      toast := None;
    }

    /** The planner branch of the `try` block; `failed` when the call threw. */
    method PlannerBranch(input: Option<string>, generate: Gateway) returns (failed: bool)
      modifies this
      ensures var o := PlannerBody(old(State()), input, generate);
        failed == o.Thrown? && State() == if o.Ok? then o.value else old(State())
    {
      var plan := RunPlanner(bible, input.GetOr(""), generate);
      failed := plan.Thrown?;
      if !failed {
        scenes := UpdateActiveScene(scenes, activeSceneId, PlannerPatch(plan.value));
      }
    }

    /** The writer branch; under src/ it goes on with the check. */
    method WriterBranch(generate: Gateway, parse: Checker.Parser) returns (failed: bool)
      requires |scenes| > 0
      modifies this
      ensures var o := WriterBody(old(State()), generate, parse);
        failed == o.Thrown? && State() == if o.Ok? then o.value else old(State())
    {
      var active := ActiveScene(scenes, activeSceneId);
      var draft := RunWriter(bible, active.beatSheet, active.content, generate);
      failed := draft.Thrown?;
      if !failed {
        scenes := UpdateActiveScene(scenes, activeSceneId, WriterPatch(draft.value));
        if variant == Src {
          AutoCheckDraft(draft.value, generate, parse);
        }
      }
    }

    /** The second stage of the src/ writer: announce the draft, show the
        AUTO-CHECK status, check the draft and report the count. */
    method AutoCheckDraft(draft: string, generate: Gateway, parse: Checker.Parser)
      modifies this
      ensures State() == CheckedDraft(old(State()).(toast := Some(DraftToast), agentStatus := AutoCheck), draft, generate, parse)
    {
      toast := Some(DraftToast);
      agentStatus := AutoCheck;
      var errors := Checker.RunContinuity(bible, draft, generate, parse);
      continuityErrors := Normalised(errors);
      if |errors| > 0 {
        toast := Some(IssuesFoundToast(|errors|));
      } else {
        toast := Some(PerfectToast);
      }
    }

    method ContinuityBranch(generate: Gateway, parse: Checker.Parser) returns (failed: bool)
      requires |scenes| > 0
      modifies this
      ensures var o := ContinuityBody(old(State()), generate, parse);
        failed == o.Thrown? && State() == if o.Ok? then o.value else old(State())
    {
      var active := ActiveScene(scenes, activeSceneId);
      failed := false;
      if variant == Src {
        var errors := Checker.RunContinuity(bible, active.content, generate, parse);
        continuityErrors := Normalised(errors);
        if |errors| == 0 {
          toast := Some(NoErrorsToast);
        }
      } else {
        var errors := Checker.RunContinuityUnguarded(bible, active.content, generate, parse);
        failed := errors.Thrown?;
        if !failed {
          continuityErrors := Raw(errors.value);
        }
      }
    }

    method EditorBranch(input: Option<string>, generate: Gateway) returns (failed: bool)
      requires |scenes| > 0
      modifies this
      ensures var o := EditorBody(old(State()), input, generate);
        failed == o.Thrown? && State() == if o.Ok? then o.value else old(State())
    {
      var active := ActiveScene(scenes, activeSceneId);
      var edited := RunEditor(active.content, input.GetOr(""), generate);
      failed := edited.Thrown?;
      if !failed {
        scenes := UpdateActiveScene(scenes, activeSceneId, EditorPatch(edited.value));
      }
    }

    method VisualizerBranch(generate: Gateway) returns (failed: bool)
      requires |scenes| > 0
      modifies this
      ensures var o := VisualizerBody(old(State()), generate);
        failed == o.Thrown? && State() == if o.Ok? then o.value else old(State())
    {
      var active := ActiveScene(scenes, activeSceneId);
      var imageUrl := RunVisualizer(bible, active.title, OrText(active.content, active.beatSheet), generate);
      failed := imageUrl.Thrown?;
      if !failed && imageUrl.value.Some? {
        scenes := UpdateActiveScene(scenes, activeSceneId, VisualizerPatch(imageUrl.value.value));
      }
    }

    /** The `try` block: the branch of the agent; `failed` when it threw. */
    method TryAgent(t: AgentType, input: Option<string>, generate: Gateway, parse: Checker.Parser) returns (failed: bool)
      requires |scenes| > 0
      modifies this
      ensures var o := TryBody(old(State()), t, input, generate, parse);
        failed == o.Thrown? && State() == if o.Ok? then o.value else old(State())
    {
      match t {
        case Planner => failed := PlannerBranch(input, generate);
        case Writer => failed := WriterBranch(generate, parse);
        case Continuity => failed := ContinuityBranch(generate, parse);
        case Editor => failed := EditorBranch(input, generate);
        case Visualizer => failed := VisualizerBranch(generate);
      }
    }

    /** handleAgentAction: the key guard, then the agent, then the persist
        effect. */
    method AgentAction(t: AgentType, input: Option<string>, generate: Gateway, parse: Checker.Parser)
      requires Valid()
      modifies this
      ensures Valid()
      ensures State() == Persist(AgentStep(old(State()), t, input, generate, parse))
    {
      if !hasApiKey {
        toast := Some(UnavailableToast(variant));
        KeylessStep(old(State()), t, input, generate, parse);
        return;
      }
      RunAgent(t, input, generate, parse);
      AgentFrameKeepsValid(old(State()), State());
      PersistStory();
    }

    /** handleAgentAction past the key guard, step by step: the working
        status, the agent's branch, the failure toast of the `catch`, and
        the idle status of the `finally`. */
    method RunAgent(t: AgentType, input: Option<string>, generate: Gateway, parse: Checker.Parser)
      requires |scenes| > 0 && hasApiKey
      modifies this
      ensures State() == AgentStep(old(State()), t, input, generate, parse)
    {
      agentStatus := Working(t);
      ghost var started := State();
      var failed := TryAgent(t, input, generate, parse);
      ghost var mid := State();
      if failed {
        toast := Some(FailureToast);
      }
      agentStatus := Idle;
      StepAfterTry(old(State()), t, input, generate, parse, started, failed, mid);
    }
  }
}
