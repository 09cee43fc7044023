/**
 * The domain model of the writers' room (types.ts), plus the small value
 * types the rest of the model shares: optional values, the outcome of a call
 * that may throw, and the JSON values that JSON.parse can produce.
 */
module Types {

  /** A value that may be absent (`undefined` or `null` in the source). */
  datatype Option<+T> = None | Some(value: T) {
    /** `x || fallback` for a field that is either absent or present. */
    function GetOr(fallback: T): T {
      match this
      case Some(v) => v
      case None => fallback
    }
  }

  /** What a call of the source can throw. */
  datatype Fault =
    | GatewayFault(message: string)  // anything the hosted model's client library rejects with
    | TypeError                      // reading a member of null/undefined, calling a non-function
    | SyntaxError                    // JSON.parse on text that is not JSON

  /** The settlement of a call that may throw: its value, or the exception. */
  datatype Outcome<+T> = Ok(value: T) | Thrown(fault: Fault)

  /** A JSON value as JSON.parse returns it. Objects are maps: for a repeated
      key JSON.parse keeps the last value, so a map loses nothing observable. */
  datatype Json =
    | JNull
    | JBool(b: bool)
    | JNumber(n: real)
    | JString(s: string)
    | JArray(items: seq<Json>)
    | JObject(fields: map<string, Json>)

  /** JavaScript truthiness of a JSON value (`if (v)`, `v || w`). */
  predicate Truthy(v: Json) {
    match v
    case JNull => false
    case JBool(b) => b
    case JNumber(n) => n != 0.0
    case JString(s) => s != ""
    case JArray(_) => true
    case JObject(_) => true
  }

  /** `v.key` on a value that is not null: only objects have the keys this
      model reads (none of them is a property of arrays, strings, numbers or
      booleans), everything else yields `undefined`. */
  function Field(v: Json, key: string): Option<Json> {
    if v.JObject? && key in v.fields then Some(v.fields[key]) else None
  }

  // ---- types.ts ----

  datatype Character = Character(
    id: string,
    name: string,
    traits: seq<string>,
    arcStatus: string,
    description: string)

  datatype Location = Location(id: string, name: string, description: string)

  /** The story bible. A bible read back from storage may lack either list;
      every operation treats a missing list as empty (`bible.characters || []`). */
  datatype Bible = Bible(
    characters: Option<seq<Character>>,
    locations: Option<seq<Location>>,
    summary: string)

  /** The five agents a user can invoke. */
  datatype AgentType = Planner | Writer | Continuity | Editor | Visualizer

  /** The agents that can be stamped into `Scene.lastAgent`: every agent but
      the continuity checker, which never touches a scene. */
  type SceneAuthor = a: AgentType | !a.Continuity? witness Planner

  datatype Scene = Scene(
    id: string,
    title: string,
    beatSheet: string,
    content: string,
    imageUrl: Option<string>,
    version: int,
    lastAgent: Option<SceneAuthor>)

  /** The continuity error as types.ts declares it. The service in the
      repository's root hands back whatever the model put under `errors`,
      typed as a list of these but never checked. */
  datatype Severity = Critical | Warning
  datatype ContinuityError = ContinuityError(severity: Severity, message: string, quote: Option<string>)

  /** The continuity error as the service under src/ actually builds it:
      `{type, description}`, each the first truthy JSON value among the
      candidate keys, or a fixed default text. */
  datatype TypedIssue = TypedIssue(issueType: Json, description: Json)

  /** The transient agent indicator (never persisted). */
  datatype AgentStatus = AgentStatus(
    isWorking: bool,
    currentTask: Option<string>,
    agentName: Option<string>,
    modelName: Option<string>)

  datatype ToastKind = ErrorToast | SuccessToast
  datatype Toast = Toast(message: string, kind: ToastKind)

  /** The value of the `type` field of an action: `'planner'`, `'writer'`, ... */
  function AgentTypeName(t: AgentType): string {
    match t
    case Planner => "planner"
    case Writer => "writer"
    case Continuity => "continuity"
    case Editor => "editor"
    case Visualizer => "visualizer"
  }

  /** `type.toUpperCase()` of the names above. */
  function AgentTypeUpper(t: AgentType): string {
    match t
    case Planner => "PLANNER"
    case Writer => "WRITER"
    case Continuity => "CONTINUITY"
    case Editor => "EDITOR"
    case Visualizer => "VISUALIZER"
  }

  function CharacterId(c: Character): string { c.id }
  function LocationId(l: Location): string { l.id }
  function SceneId(s: Scene): string { s.id }
}
