/**
 * The records that flow between the components: personas, raw content
 * items, classification records and the reply of the language-model client.
 * A key that a Python dict may lack is an `Option`; a list that may be
 * missing is an empty sequence.
 */
module Records {
  import opened Wrappers
  import opened Dicts

  /** A buyer persona. */
  datatype Persona = Persona(
    name: Option<string>,
    role: Option<string>,
    description: string,
    painPoints: seq<string>,
    goals: seq<string>,
    motivations: seq<string>,
    objections: seq<string>,
    preferredContent: seq<string>,
    buyingTriggers: seq<string>)

  /** `persona.get("name", "Unknown")`. */
  function PersonaName(p: Persona): string {
    p.name.GetOr("Unknown")
  }

  /** The persona names, roster order kept, "Unknown" for a persona without one. */
  function Names(ps: seq<Persona>): (ns: seq<string>)
    ensures |ns| == |ps|
    ensures forall i :: 0 <= i < |ps| ==> ns[i] == PersonaName(ps[i])
  {
    seq(|ps|, i requires 0 <= i < |ps| => PersonaName(ps[i]))
  }

  /** A content item to classify: the `title`, `content`, `source` and `type` keys. */
  datatype Content = Content(
    title: Option<string>,
    body: Option<string>,
    source: Option<string>,
    kind: Option<string>)

  /** A classification record, as the client returns it or the fallback builds it. */
  datatype Record = Record(
    contentType: Option<string>,
    primaryPersona: Option<string>,
    secondaryPersonas: seq<string>,
    personaScores: Dict<string, int>,
    funnelStage: Option<string>,
    funnelConfidence: int,
    topics: seq<string>,
    intent: string,
    keyMessages: seq<string>,
    tone: string,
    strengths: seq<string>,
    improvements: seq<string>,
    missingElements: seq<string>,
    qualityScore: Option<real>,
    summary: string,
    originalTitle: Option<string>,
    originalSource: Option<string>,
    wordCount: Option<nat>)

  /**
   * What one call of the language-model client gave: it raised (network,
   * credentials, an unexpected response shape), or it answered with text.
   */
  datatype Reply = Raised | Answer(text: string)
}
