/** The fixed configuration: funnel stages, scoring thresholds, default personas. */
module Config {
  import opened Wrappers
  import opened Records

  /** The three funnel stages, in the order the configuration declares them. */
  datatype Stage = Awareness | Consideration | Decision

  const Stages: seq<Stage> := [Awareness, Consideration, Decision]

  /** The key of a stage in the configuration and in classification records. */
  function StageKey(s: Stage): string {
    match s
    case Awareness => "awareness"
    case Consideration => "consideration"
    case Decision => "decision"
  }

  /** The display name of a stage. */
  function StageName(s: Stage): string {
    match s
    case Awareness => "Awareness"
    case Consideration => "Consideration"
    case Decision => "Decision"
  }

  /** The `content_types` a stage lists, in the configured order. */
  function StageContentTypes(s: Stage): seq<string> {
    match s
    case Awareness => ["blog_post", "social_media", "infographic", "video", "podcast"]
    case Consideration => ["whitepaper", "ebook", "webinar", "comparison_guide", "how_to"]
    case Decision => ["case_study", "testimonial", "product_demo", "pricing", "roi_calculator"]
  }

  /** The position of a stage in `Stages`. */
  function StageIndex(s: Stage): (i: nat)
    ensures i < 3 && Stages[i] == s
  {
    match s
    case Awareness => 0
    case Consideration => 1
    case Decision => 2
  }

  /** The stage a record's `funnel_stage` string names, if it names one. */
  function ParseStage(key: string): (r: Option<Stage>)
    ensures r.Some? ==> StageKey(r.value) == key
    ensures r.None? <==> key != "awareness" && key != "consideration" && key != "decision"
  {
    if key == "awareness" then Some(Awareness)
    else if key == "consideration" then Some(Consideration)
    else if key == "decision" then Some(Decision)
    else None
  }

  lemma ParseStageKey(s: Stage)
    ensures ParseStage(StageKey(s)) == Some(s)
  {
  }

  /** SCORING_THRESHOLDS. */
  const StrongThreshold: real := 70.0
  const ModerateThreshold: real := 40.0
  const GapThreshold: real := 0.0

  function DefaultPersona(name: string, description: string, painPoints: seq<string>, goals: seq<string>): Persona {
    Persona(Some(name), None, description, painPoints, goals, [], [], [], [])
  }

  /** DEFAULT_PERSONAS. */
  const DefaultPersonas: seq<Persona> := [
    DefaultPersona("CMO / VP Marketing", "Senior marketing leader focused on strategy and ROI",
      ["Proving marketing ROI", "Scaling content operations", "Alignment with sales"],
      ["Drive revenue growth", "Build brand awareness", "Improve marketing efficiency"]),
    DefaultPersona("Content Manager", "Hands-on content creator and strategist",
      ["Content production speed", "Maintaining quality", "Measuring content performance"],
      ["Create engaging content", "Improve SEO rankings", "Support sales team"]),
    DefaultPersona("Sales Leader", "VP Sales or Sales Director focused on closing deals",
      ["Finding relevant content for prospects", "Competitive differentiation", "Shortening sales cycles"],
      ["Hit revenue targets", "Enable sales team", "Improve win rates"])
  ]
}
