/**
 The event log's vocabulary (internal/events): kinds, payloads, the validating
 constructors, and the whole-second pinning of the canonical encoding. Instants
 are integers counted in nanoseconds.
 */
module Events {

  const NANOS_PER_SECOND := 1_000_000_000

  datatype Kind =
    | Detected | Triaged | Surfaced | Remediated | Suppressed | Deferred
    | Raised | Resolved | Rebaselined | DBUpdated | Unknown

  datatype Source = Source(id: string, url: string)

  /** `NoData` stands for data that does not decode into its kind's payload. */
  datatype Payload =
    | DetectedData(rule: string, severity: string, path: string, line: int, description: string,
                   scanner: string, also: seq<string>, dev: bool, db: string)
    | TriagedData(verdict: string, confidence: string, reason: string, sources: seq<Source>)
    | SurfacedData(context: string)
    | ReasonedData(why: string)
    | RaisedData(itemKind: string, question: string, about: string)
    | ResolvedData(item: string, answer: string, cited: seq<Source>)
    | DBUpdatedData(artifact: string, digest: string, previous: string)
    | OtherData
    | NoData

  datatype Event = Event(ts: int, kind: Kind, fp: string, actor: string, phase: string,
                         engine: string, payload: Payload)

  /** Who, in which phase and with which engine a command runs. */
  datatype Envelope = Envelope(actor: string, phase: string, engine: string)

  /** The whole second an instant falls in. */
  function Second(t: int): int {
    t / NANOS_PER_SECOND
  }

  /** The canonical encoding writes whole seconds only. */
  function Pin(ev: Event): Event {
    ev.(ts := Second(ev.ts) * NANOS_PER_SECOND)
  }

  lemma PinKeepsTheSecond(ev: Event)
    ensures Second(Pin(ev).ts) == Second(ev.ts)
    ensures Pin(Pin(ev)) == Pin(ev)
    ensures Pin(ev) == ev.(ts := ev.ts - ev.ts % 1000000000)
  {
  }

  // ---------------------------------------------------------------------
  // Validation performed by the constructors
  // ---------------------------------------------------------------------

  predicate IsLowerHex(s: string) {
    forall k :: 0 <= k < |s| ==> '0' <= s[k] <= '9' || 'a' <= s[k] <= 'f'
  }

  predicate ValidFingerprint(fp: string) {
    |fp| == 64 && IsLowerHex(fp)
  }

  predicate ValidItemId(id: string) {
    |id| == 11 && "it-" <= id && IsLowerHex(id[3..])
  }

  predicate ValidSeverity(s: string) {
    s == "critical" || s == "high" || s == "medium" || s == "low" || s == "info"
  }

  predicate FingerprintRequired(k: Kind) {
    k != Raised && k != Resolved && k != Rebaselined && k != DBUpdated
  }

  predicate ValidEnvelope(ev: Event) {
    && (ev.actor == "agent" || ev.actor == "operator")
    && (ev.phase == "design" || ev.phase == "build" || ev.phase == "test" || ev.phase == "deploy")
    && ev.engine != ""
    && (FingerprintRequired(ev.kind) ==> ev.fp != "")
    && (ev.fp != "" ==> ValidFingerprint(ev.fp))
  }

  predicate ValidPayload(kind: Kind, d: Payload) {
    match d
    case DetectedData(rule, severity, path, line, _, scanner, _, _, _) =>
      && kind == Detected
      && rule != "" && path != "" && scanner != "" && ValidSeverity(severity) && 1 <= line
    case TriagedData(verdict, confidence, reason, _) =>
      && kind == Triaged
      && reason != ""
      && (verdict == "confirmed" || verdict == "dismissed")
      && (confidence == "high" || confidence == "low")
    case SurfacedData(context) =>
      && kind == Surfaced
      && (context == "pre-commit" || context == "dispatch" || context == "posture")
    case ReasonedData(why) =>
      (kind == Remediated || kind == Suppressed || kind == Deferred) && why != ""
    case RaisedData(itemKind, question, about) =>
      && kind == Raised
      && question != ""
      && ((itemKind == "design" && about == "") || (itemKind == "verification" && ValidFingerprint(about)))
    case ResolvedData(item, answer, _) =>
      kind == Resolved && ValidItemId(item) && answer != ""
    case DBUpdatedData(artifact, digest, _) =>
      kind == DBUpdated && (artifact == "vuln" || artifact == "java-db") && digest != ""
    case OtherData => kind == Rebaselined || kind == Unknown
    case NoData => false
  }

  /** What the New* constructors accept. */
  predicate Valid(ev: Event) {
    ValidPayload(ev.kind, ev.payload) && ValidEnvelope(ev)
  }

  function Make(t: int, env: Envelope, kind: Kind, fp: string, payload: Payload): Event {
    Event(t, kind, fp, env.actor, env.phase, env.engine, payload)
  }
}
