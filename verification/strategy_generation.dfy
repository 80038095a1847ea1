/**
 * The deterministic paths of `StrategyGenerator`: the fallback strategy
 * built from the gap list when the language model is absent or fails, and
 * the routing that decides between it and the model's decoded answer.
 */
module StrategyGeneration {
  import opened Wrappers
  import opened Text
  import opened Dicts
  import opened Records
  import opened Config
  import opened Fences
  import opened GapAnalysis

  /** One entry of `priority_content_to_create`. */
  datatype Recommendation = Recommendation(
    title: string,
    kind: string,
    targetPersona: string,
    funnelStage: Stage,
    priority: string,
    rationale: string,
    keyTopics: seq<string>,
    suggestedAngle: string,
    estimatedEffort: string)

  /** One entry of `content_improvements`. */
  datatype Improvement = Improvement(contentArea: string, currentIssue: string, recommendation: string, impact: string)

  /** The value stored per persona in `persona_specific_recommendations`. */
  datatype PersonaAdvice = PersonaAdvice(
    keyInsight: string,
    contentPriorities: seq<string>,
    messagingThemes: seq<string>,
    contentTypesToFocus: seq<string>)

  /** One entry of `metrics_to_track`. */
  datatype Metric = Metric(metric: string, why: string, target: string)

  /** A strategy bundle, as the client returns it or the fallback builds it. */
  datatype Strategy = Strategy(
    executiveSummary: string,
    priorityContent: seq<Recommendation>,
    improvements: seq<Improvement>,
    calendar: Dict<string, seq<string>>,
    personaAdvice: Dict<string, PersonaAdvice>,
    quickWins: seq<string>,
    longTermInitiatives: seq<string>,
    metrics: seq<Metric>)

  // ---------------------------------------------------------------------
  // Recommendations from gaps
  // ---------------------------------------------------------------------

  /** How many of the highest-priority gaps become recommendations. */
  const TopGaps: nat := 5

  /** The content type recommended for a gap at a stage. */
  function ContentTypeFor(s: Stage): string {
    match s
    case Decision => "case_study"
    case Consideration => "whitepaper"
    case Awareness => "blog_post"
  }

  /** The recommended type is the first content type the configuration lists for the stage. */
  lemma ContentTypeIsStagePrimary(s: Stage)
    ensures ContentTypeFor(s) == StageContentTypes(s)[0]
    ensures ContentTypeFor(s) in StageContentTypes(s)
    ensures forall t :: ContentTypeFor(t) == ContentTypeFor(s) ==> t == s
  {
  }

  /** `"high" if gap["priority"] > 70 else "medium"`. */
  function PriorityLabel(priority: real): (tag: string)
    ensures tag == "high" || tag == "medium"
    ensures tag == "high" <==> priority > 70.0
  {
    if priority > 70.0 then "high" else "medium"
  }

  /**
   * For a gap (score below the moderate threshold), every decision or
   * consideration gap is labelled high; an awareness gap is high exactly
   * when its score is below 30.
   */
  lemma GapLabel(s: Stage, score: real)
    requires score < ModerateThreshold
    ensures PriorityLabel(Priority(s, score)) == "high" <==> (s != Awareness || score < 30.0)
  {
  }

  function RecommendationFor(g: GapEntry): Recommendation {
    Recommendation(
      "Content for " + g.persona + " - " + g.stageName + " Stage",
      ContentTypeFor(g.stage),
      g.persona,
      g.stage,
      PriorityLabel(g.priority),
      "Gap identified: No content for " + g.persona + " at " + g.stageName + " stage",
      [],
      "Address key pain points",
      "medium")
  }

  /** `gaps[:5]`. */
  function TopOf(gaps: seq<GapEntry>): (r: seq<GapEntry>)
    ensures |r| == if |gaps| < TopGaps then |gaps| else TopGaps
    ensures r <= gaps
  {
    if |gaps| < TopGaps then gaps else gaps[..TopGaps]
  }

  /** `priority_content`: one recommendation per gap among the first five, in order. */
  function PriorityContent(gaps: seq<GapEntry>): seq<Recommendation> {
    var top := TopOf(gaps);
    seq(|top|, i requires 0 <= i < |top| => RecommendationFor(top[i]))
  }

  /**
   * There are min(5, |gaps|) recommendations; entry i is built from gaps[i],
   * keeping its persona and stage, with the stage's content type and the
   * priority label of its priority.
   */
  lemma PriorityContentFacts(gaps: seq<GapEntry>)
    ensures |PriorityContent(gaps)| == if |gaps| < 5 then |gaps| else 5
    ensures forall i :: 0 <= i < |PriorityContent(gaps)| ==>
      var r := PriorityContent(gaps)[i];
      && r.targetPersona == gaps[i].persona
      && r.funnelStage == gaps[i].stage
      && r.kind == ContentTypeFor(gaps[i].stage)
      && (r.priority == "high" <==> gaps[i].priority > 70.0)
      && r.keyTopics == []
      && r.estimatedEffort == "medium"
  {
  }

  /** The loop of `_fallback_strategy` over `gaps[:5]`, appending one recommendation per gap. */
  method CollectPriorityContent(gaps: seq<GapEntry>) returns (out: seq<Recommendation>)
    ensures out == PriorityContent(gaps)
  {
    var top := TopOf(gaps);
    out := [];
    var i := 0;
    while i < |top|
      invariant 0 <= i <= |top|
      invariant out == PriorityContent(gaps)[..i]
    {
      out := out + [RecommendationFor(top[i])];
      i := i + 1;
    }
  }

  // ---------------------------------------------------------------------
  // The executive summary
  // ---------------------------------------------------------------------

  const SummaryLead: string := "Analysis identified "
  const SummaryMiddle: string := " content gaps and "
  const SummaryClosing: string := "strong coverage areas. Priority should be given to creating content for the highest-priority gaps."
  const SummaryTail: string := " " + SummaryClosing

  /** The `executive_summary` sentence, with the two counts written in decimal. */
  function ExecutiveSummary(gapCount: nat, strengthCount: nat): string {
    SummaryLead + (NatToString(gapCount) + (SummaryMiddle + (NatToString(strengthCount) + SummaryTail)))
  }

  /** Reads two counts back out of `lead`, digits, `middle`, digits, as the summary sentence lays them out. */
  function ReadCounts(s: string, lead: string, middle: string): Option<(nat, nat)> {
    match AfterPrefix(s, lead)
    case None => None
    case Some(rest) =>
      var (first, after) := ReadNumber(rest);
      match AfterPrefix(after, middle)
      case None => None
      case Some(last) => Some((first, ReadNumber(last).0))
  }

  /** Two counts written between texts that do not start with a digit are read back exactly. */
  lemma ReadCountsRoundTrip(lead: string, middle: string, tail: string, a: nat, b: nat)
    requires middle != [] && !IsDigit(middle[0])
    requires tail == [] || !IsDigit(tail[0])
    ensures ReadCounts(lead + (NatToString(a) + (middle + (NatToString(b) + tail))), lead, middle) == Some((a, b))
  {
    var after := middle + (NatToString(b) + tail);
    AfterPrefixOf(lead, NatToString(a) + after);
    assert after[0] == middle[0];
    ReadNumberOf(a, after);
    AfterPrefixOf(middle, NatToString(b) + tail);
    ReadNumberOf(b, tail);
  }

  /** Reads the two counts back out of a summary sentence. */
  function ReadSummaryCounts(s: string): Option<(nat, nat)> {
    ReadCounts(s, SummaryLead, SummaryMiddle)
  }

  /** The summary states both counts: they can be read back from it. */
  lemma SummaryRoundTrip(gapCount: nat, strengthCount: nat)
    ensures ReadSummaryCounts(ExecutiveSummary(gapCount, strengthCount)) == Some((gapCount, strengthCount))
  {
    assert SummaryMiddle[0] == ' ' && SummaryTail[0] == ' ';
    ReadCountsRoundTrip(SummaryLead, SummaryMiddle, SummaryTail, gapCount, strengthCount);
  }

  /** Different counts give different summaries. */
  lemma SummaryInjective(g1: nat, k1: nat, g2: nat, k2: nat)
    requires ExecutiveSummary(g1, k1) == ExecutiveSummary(g2, k2)
    ensures g1 == g2 && k1 == k2
  {
    SummaryRoundTrip(g1, k1);
    SummaryRoundTrip(g2, k2);
  }

  // ---------------------------------------------------------------------
  // The fallback bundle
  // ---------------------------------------------------------------------

  const ManualAdvice: PersonaAdvice := PersonaAdvice("Manual analysis recommended", [], [], [])
  const GeneralImprovement: Improvement := Improvement("General", "AI analysis unavailable for detailed recommendations",
    "Review content manually for improvement opportunities", "Variable")
  const TitleQuickWin: string := "Review and update existing content titles and meta descriptions"
  const CoverageMetric: Metric := Metric("Content per persona/stage", "Ensure coverage across all segments", "3-5 pieces per cell")
  const MonthKeys: seq<string> := ["month_1", "month_2", "month_3"]
  /** `quarterly_calendar`: three months, nothing planned. */
  const EmptyCalendar: Dict<string, seq<string>> := [("month_1", []), ("month_2", []), ("month_3", [])]

  lemma EmptyCalendarShape()
    ensures Keys(EmptyCalendar) == MonthKeys
    ensures forall e :: e in EmptyCalendar ==> e.1 == []
  {
  }
  const MissingNameError: string := "KeyError: 'name'"

  /** `p["name"]` succeeds for every persona. */
  predicate AllNamed(ps: seq<Persona>) {
    forall i :: 0 <= i < |ps| ==> ps[i].name.Some?
  }

  /**
   * `_fallback_strategy`: the recommendations for the first five gaps, one
   * manual-advice entry per persona name, and fixed placeholders. A persona
   * without a name makes `p["name"]` raise.
   */
  function FallbackStrategy(gaps: seq<GapEntry>, strengths: seq<StrengthEntry>, personas: seq<Persona>): Result<Strategy> {
    if !AllNamed(personas) then Err(MissingNameError)
    else Ok(Strategy(
      ExecutiveSummary(|gaps|, |strengths|),
      PriorityContent(gaps),
      [GeneralImprovement],
      EmptyCalendar,
      FromKeys(Names(personas), ManualAdvice),
      [TitleQuickWin],
      [],
      [CoverageMetric]))
  }

  /** The fallback fails exactly when some persona has no name. */
  lemma FallbackFails(gaps: seq<GapEntry>, strengths: seq<StrengthEntry>, personas: seq<Persona>)
    ensures FallbackStrategy(gaps, strengths, personas).Err? <==> exists i :: 0 <= i < |personas| && personas[i].name.None?
  {
  }

  /** With every persona named, the fallback holds one manual-advice entry per distinct persona name. */
  lemma FallbackAdvice(gaps: seq<GapEntry>, strengths: seq<StrengthEntry>, personas: seq<Persona>)
    requires AllNamed(personas)
    ensures FallbackStrategy(gaps, strengths, personas).Ok?
    ensures Keys(FallbackStrategy(gaps, strengths, personas).value.personaAdvice) == Dedup(Names(personas))
    ensures forall e :: e in FallbackStrategy(gaps, strengths, personas).value.personaAdvice ==> e.1 == ManualAdvice
  {
    assert FallbackStrategy(gaps, strengths, personas).value.personaAdvice == FromKeys(Names(personas), ManualAdvice);
    FromKeysValues(Names(personas), ManualAdvice);
  }

  /**
   * With every persona named, the fallback's placeholders are complete: an
   * empty calendar for month_1 to month_3, one quick win, one improvement,
   * one metric and no long-term initiatives.
   */
  lemma FallbackPlaceholders(gaps: seq<GapEntry>, strengths: seq<StrengthEntry>, personas: seq<Persona>)
    requires AllNamed(personas)
    ensures FallbackStrategy(gaps, strengths, personas).Ok?
    ensures
      var st := FallbackStrategy(gaps, strengths, personas).value;
      && Keys(st.calendar) == MonthKeys
      && (forall e :: e in st.calendar ==> e.1 == [])
      && |st.quickWins| == 1 && |st.improvements| == 1 && |st.metrics| == 1
      && st.longTermInitiatives == []
  {
    assert FallbackStrategy(gaps, strengths, personas).value.calendar == EmptyCalendar;
    EmptyCalendarShape();
  }

  /**
   * With every persona named, the fallback recommends the top gaps and its
   * summary states how many gaps and strengths there were.
   */
  lemma FallbackContent(gaps: seq<GapEntry>, strengths: seq<StrengthEntry>, personas: seq<Persona>)
    requires AllNamed(personas)
    ensures FallbackStrategy(gaps, strengths, personas).Ok?
    ensures FallbackStrategy(gaps, strengths, personas).value.priorityContent == PriorityContent(gaps)
    ensures ReadSummaryCounts(FallbackStrategy(gaps, strengths, personas).value.executiveSummary) == Some((|gaps|, |strengths|))
  {
    SummaryRoundTrip(|gaps|, |strengths|);
  }

  // ---------------------------------------------------------------------
  // Routing between the model's answer and the fallback
  // ---------------------------------------------------------------------

  /**
   * `generate_strategy`. Without a client the fallback is returned at once.
   * With one, building the persona summary for the prompt reads `p["name"]`
   * outside the `try`, so a nameless persona raises; a failed call or an
   * answer that does not decode (`decoder` maps the text handed to
   * `json.loads` to the strategy it denotes) falls back.
   */
  function GenerateStrategy(hasClient: bool, gaps: seq<GapEntry>, strengths: seq<StrengthEntry>, personas: seq<Persona>,
                            reply: Reply, decoder: map<string, Strategy>): Result<Strategy> {
    if !hasClient then FallbackStrategy(gaps, strengths, personas)
    else if !AllNamed(personas) then Err(MissingNameError)
    else match reply
      case Raised => FallbackStrategy(gaps, strengths, personas)
      case Answer(text) =>
        var key := Prepared(text);
        if key in decoder then Ok(decoder[key]) else FallbackStrategy(gaps, strengths, personas)
  }

  /**
   * The fallback is used whenever there is no client, the call raises or the
   * answer does not decode; the result is an error exactly when a persona
   * has no name; a decoded answer is returned as it is.
   */
  lemma GenerateRouting(hasClient: bool, gaps: seq<GapEntry>, strengths: seq<StrengthEntry>, personas: seq<Persona>,
                        reply: Reply, decoder: map<string, Strategy>)
    ensures GenerateStrategy(hasClient, gaps, strengths, personas, reply, decoder).Err? <==>
      exists i :: 0 <= i < |personas| && personas[i].name.None?
    ensures !hasClient || reply.Raised? || Prepared(reply.text) !in decoder ==>
      GenerateStrategy(hasClient, gaps, strengths, personas, reply, decoder) == FallbackStrategy(gaps, strengths, personas)
    ensures hasClient && AllNamed(personas) && reply.Answer? && Prepared(reply.text) in decoder ==>
      GenerateStrategy(hasClient, gaps, strengths, personas, reply, decoder) == Ok(decoder[Prepared(reply.text)])
  {
    FallbackFails(gaps, strengths, personas);
  }
}
