/** Checkpoints of messages that were compacted away, and the three texts a request
    may carry for one. No earlier checkpoint is continued, as in a model request. */
module Checkpoints {
  import opened Json
  import opened PyText
  import opened Messages

  // ---------------------------------------------------------------- json.dumps with its own separators

  /** `json.dumps(value, ensure_ascii=False)`: a blank follows each comma and colon. */
  function Spaced(v: Value): string
    decreases v, 1
  {
    match v
    case Arr(items) => "[" + SpacedItems(items) + "]"
    case Obj(fields) => "{" + SpacedFields(fields) + "}"
    case _ => Dump(v)
  }

  function SpacedItems(items: seq<Value>): string
    decreases items, 0
  {
    if items == [] then ""
    else if |items| == 1 then Spaced(items[0])
    else Spaced(items[0]) + ", " + SpacedItems(items[1..])
  }

  function SpacedFields(fields: seq<Field>): string
    decreases fields, 0
  {
    if fields == [] then ""
    else if |fields| == 1 then SpacedField(fields[0])
    else SpacedField(fields[0]) + ", " + SpacedFields(fields[1..])
  }

  function SpacedField(field: Field): string
    decreases field, 2
  {
    Quote(field.key) + ": " + Spaced(field.value)
  }

  // ---------------------------------------------------------------- excerpts

  /** The words of a text that does not start with a blank, with one blank between them. */
  function Words(s: string): string
    decreases |s|
  {
    if s == "" then ""
    else if IsSpace(s[0]) then
      StripLeftIsSuffix(s);
      assert StripLeft(s) == StripLeft(s[1..]);
      StripLeftIsSuffix(s[1..]);
      var rest := Words(StripLeft(s));
      if rest == "" then "" else " " + rest
    else [s[0]] + Words(s[1..])
  }

  /** `" ".join(s.split())`. */
  function Normalized(s: string): string {
    Words(StripLeft(s))
  }

  const EXCERPT_LIMIT := 240

  function Excerpt(m: Message): string {
    var content := Get(m, "content");
    if !content.Str? then ""
    else
      var normalized := Normalized(content.s);
      if |normalized| <= EXCERPT_LIMIT then normalized
      else StripRight(normalized[..EXCERPT_LIMIT - 3]) + "..."
  }

  // ---------------------------------------------------------------- checkpoints

  predicate HexDigits(s: string) {
    forall i :: 0 <= i < |s| ==> '0' <= s[i] <= '9' || 'a' <= s[i] <= 'f'
  }

  /** A SHA-256 digest as `hexdigest` writes it. */
  type Fingerprint = s: string | |s| == 64 && HexDigits(s)
    witness seq(64, _ => '0')

  /** What a checkpoint takes from its surroundings: ids, and the digest of the messages left out. */
  datatype Origin = Origin(threadId: string, subjectId: string, digest: seq<Message> -> Fingerprint)

  datatype Fact = Fact(value: string, sourceRef: string, role: string)

  datatype Checkpoint = Checkpoint(
    fingerprint: Fingerprint, threadId: string, subjectId: string, goal: string, facts: seq<Fact>,
    firstId: string, lastId: string, firstKeptId: string)

  function IdOf(m: Message): string {
    TextOf(Get(m, "id"))
  }

  function LastOf<T>(items: seq<T>, n: nat): seq<T> {
    if |items| <= n then items else items[|items| - n..]
  }

  /** The excerpt of the latest user message, if there is any. */
  function Goal(omitted: seq<Message>): string {
    if omitted == [] then ""
    else
      var last := omitted[|omitted| - 1];
      if Role(last) == "user" then Excerpt(last) else Goal(omitted[..|omitted| - 1])
  }

  function Facts(messages: seq<Message>): seq<Fact> {
    if messages == [] then []
    else
      var m, rest := messages[0], Facts(messages[1..]);
      if Role(m) in {"user", "tool"} && Excerpt(m) != ""
      then [Fact(Excerpt(m), if IdOf(m) == "" then "conversation-history" else IdOf(m), Role(m))] + rest
      else rest
  }

  const FACT_MESSAGES := 8

  function CheckpointOf(origin: Origin, omitted: seq<Message>, retained: seq<Message>): Checkpoint {
    Checkpoint(
      origin.digest(omitted), origin.threadId, origin.subjectId, Goal(omitted), Facts(LastOf(omitted, FACT_MESSAGES)),
      if omitted == [] then "" else IdOf(omitted[0]),
      if omitted == [] then "" else IdOf(omitted[|omitted| - 1]),
      if retained == [] then "" else IdOf(retained[0]))
  }

  // ---------------------------------------------------------------- texts

  function Entry(key: string, text: string): Field {
    Field(key, Str(text))
  }

  function FactValue(fact: Fact): Value {
    Obj([Entry("value", fact.value), Entry("source_ref", fact.sourceRef), Entry("role", fact.role)])
  }

  function FactValues(facts: seq<Fact>): seq<Value> {
    seq(|facts|, i requires 0 <= i < |facts| => FactValue(facts[i]))
  }

  function CheckpointId(c: Checkpoint): string {
    "context-" + c.fingerprint[..20]
  }

  function CoveredRange(c: Checkpoint): Field {
    Field("covered_event_range", Arr([Str(c.firstId), Str(c.lastId)]))
  }

  function Identity(c: Checkpoint): seq<Field> {
    [Entry("checkpoint_id", CheckpointId(c)), Entry("thread_id", c.threadId), Entry("subject_id", c.subjectId),
     Entry("goal", c.goal)]
  }

  /** What only an enriched or continued checkpoint fills in, around the facts. */
  function Findings(facts: seq<Fact>): seq<Field> {
    [Field("constraints_and_preferences", Arr([])),
     Field("progress", Obj([Field("done", Arr([])), Field("in_progress", Arr([])), Field("blocked", Arr([]))])),
     Field("key_decisions", Arr([])), Field("pending_actions", Arr([])), Field("open_questions", Arr([])),
     Field("critical_facts", Arr(FactValues(facts))),
     Field("artifacts", Arr([])), Field("failed_attempts", Arr([])), Field("next_steps", Arr([]))]
  }

  function Sources(c: Checkpoint): seq<Field> {
    [CoveredRange(c), Entry("first_kept_event_id", c.firstKeptId), Entry("source_fingerprint", c.fingerprint),
     Entry("previous_checkpoint_id", ""), Entry("summary_version", "context-checkpoint-v1")]
  }

  /** The whole dictionary of a checkpoint, with its last `facts` facts. */
  function AsDict(c: Checkpoint, facts: nat): Value {
    Obj(Identity(c) + Findings(LastOf(c.facts, facts)) + Sources(c))
  }

  function Brief(c: Checkpoint): Value {
    Obj([Entry("checkpoint_id", CheckpointId(c)), Entry("subject_id", c.subjectId), Entry("goal", c.goal),
         Field("critical_facts", Arr(FactValues(LastOf(c.facts, 3)))), CoveredRange(c),
         Entry("first_kept_event_id", c.firstKeptId), Entry("source_fingerprint", c.fingerprint)])
  }

  /** The texts to try, most detailed first. */
  function Renderings(c: Checkpoint): (texts: seq<string>)
    ensures |texts| == 3
  {
    [Spaced(AsDict(c, 16)), Spaced(AsDict(c, 6)), Spaced(Brief(c))]
  }
}
