/**
 * The content analyzer: it classifies content items by persona and funnel
 * stage, through the language-model client when there is one and it answers
 * with a decodable record, through a keyword heuristic otherwise, and keeps
 * every record it produced for the summary and the filters.
 */
module ContentAnalysis {
  import opened Wrappers
  import opened Text
  import opened Dicts
  import opened Rounding
  import opened Records
  import opened Config
  import opened Fences

  // ---------------------------------------------------------------------
  // Funnel stage by keywords
  // ---------------------------------------------------------------------

  const DecisionKeywords: seq<string> := ["case study", "testimonial", "pricing", "demo", "trial", "buy"]
  const ConsiderationKeywords: seq<string> := ["compare", "vs", "alternative", "solution", "platform", "tool"]

  /** `kw in text or kw in title`. */
  predicate Mentions(text: string, title: string, kw: string) {
    Contains(text, kw) || Contains(title, kw)
  }

  /** `any(kw in text or kw in title for kw in keywords)`. */
  function AnyKeyword(keywords: seq<string>, text: string, title: string): bool {
    if keywords == [] then false
    else Mentions(text, title, keywords[0]) || AnyKeyword(keywords[1..], text, title)
  }

  /** The scan finds a keyword exactly when one of them is mentioned. */
  lemma {:induction false} AnyKeywordIff(keywords: seq<string>, text: string, title: string)
    ensures AnyKeyword(keywords, text, title) <==> exists kw :: kw in keywords && Mentions(text, title, kw)
  {
    if keywords != [] {
      AnyKeywordIff(keywords[1..], text, title);
      assert forall kw :: kw in keywords <==> kw == keywords[0] || kw in keywords[1..] by {
        assert keywords == [keywords[0]] + keywords[1..];
      }
    }
  }

  /** The stage of the heuristic; `text` and `title` are already lower-cased. */
  function FallbackStage(text: string, title: string): Stage {
    if AnyKeyword(DecisionKeywords, text, title) then Decision
    else if AnyKeyword(ConsiderationKeywords, text, title) then Consideration
    else Awareness
  }

  /**
   * Decision when a decision keyword occurs in the body or the title;
   * otherwise consideration when a consideration keyword does; otherwise
   * awareness.
   */
  lemma FallbackStageRule(text: string, title: string)
    ensures FallbackStage(text, title) == Decision <==>
      exists kw :: kw in DecisionKeywords && Mentions(text, title, kw)
    ensures FallbackStage(text, title) == Consideration <==>
      (forall kw :: kw in DecisionKeywords ==> !Mentions(text, title, kw)) &&
      (exists kw :: kw in ConsiderationKeywords && Mentions(text, title, kw))
    ensures FallbackStage(text, title) == Awareness <==>
      forall kw :: kw in DecisionKeywords + ConsiderationKeywords ==> !Mentions(text, title, kw)
  {
    AnyKeywordIff(DecisionKeywords, text, title);
    AnyKeywordIff(ConsiderationKeywords, text, title);
  }

  /** Matching is by substring, so "buy" inside "buyer" already makes a decision-stage item. */
  lemma BuyerMeansDecision()
    ensures FallbackStage("buyer", "") == Decision
  {
    assert Occurs("buyer", "buy", 0);
    ContainsIff("buyer", "buy");
    assert Mentions("buyer", "", "buy") && "buy" in DecisionKeywords;
    FallbackStageRule("buyer", "");
  }

  // ---------------------------------------------------------------------
  // Persona scores
  // ---------------------------------------------------------------------

  /** How many of `keywords`, lower-cased, occur in `text`; a repeated entry counts each time. */
  function MatchCount(keywords: seq<string>, text: string): nat {
    if keywords == [] then 0
    else
      var n := |keywords| - 1;
      MatchCount(keywords[..n], text) + (if Contains(text, Lower(keywords[n])) then 1 else 0)
  }

  /** At most every keyword matches, and none does exactly when the count is zero. */
  lemma {:induction false} MatchCountBounds(keywords: seq<string>, text: string)
    ensures MatchCount(keywords, text) <= |keywords|
    ensures MatchCount(keywords, text) == 0 <==>
      forall k :: 0 <= k < |keywords| ==> !Contains(text, Lower(keywords[k]))
  {
    if keywords != [] {
      var n := |keywords| - 1;
      MatchCountBounds(keywords[..n], text);
      assert forall k :: 0 <= k < n ==> keywords[..n][k] == keywords[k];
    }
  }

  /** One more keyword adds one exactly when it occurs. */
  lemma MatchCountSnoc(keywords: seq<string>, i: nat, text: string)
    requires i < |keywords|
    ensures MatchCount(keywords[..i + 1], text) ==
      MatchCount(keywords[..i], text) + (if Contains(text, Lower(keywords[i])) then 1 else 0)
  {
    assert keywords[..i + 1][..i] == keywords[..i];
  }

  /** The pain points and then the goals of a persona. */
  function PersonaKeywords(p: Persona): seq<string> {
    p.painPoints + p.goals
  }

  /** 50, plus 10 for every pain point or goal found in the lower-cased body, at most 100. */
  function PersonaScore(p: Persona, text: string): int {
    var n := MatchCount(PersonaKeywords(p), text);
    if 50 + 10 * n < 100 then 50 + 10 * n else 100
  }

  /**
   * Every score lies in [50, 100]; it is 50 exactly when no pain point or
   * goal occurs, and 100 once five of them do.
   */
  lemma PersonaScoreBounds(p: Persona, text: string)
    ensures 50 <= PersonaScore(p, text) <= 100
    ensures PersonaScore(p, text) == 50 <==>
      forall k :: 0 <= k < |PersonaKeywords(p)| ==> !Contains(text, Lower(PersonaKeywords(p)[k]))
    ensures MatchCount(PersonaKeywords(p), text) >= 5 ==> PersonaScore(p, text) == 100
  {
    MatchCountBounds(PersonaKeywords(p), text);
  }

  /** Each persona's name paired with its score, in roster order. */
  function Scored(ps: seq<Persona>, text: string): seq<(string, int)> {
    seq(|ps|, i requires 0 <= i < |ps| => (PersonaName(ps[i]), PersonaScore(ps[i], text)))
  }

  lemma ScoredKeys(ps: seq<Persona>, text: string)
    ensures Keys(Scored(ps, text)) == Names(ps)
  {
  }

  /**
   * The scores dictionary: keyed by persona name in order of first
   * appearance; a later persona with the same name overwrites the value.
   */
  function ScoresOf(ps: seq<Persona>, text: string): Dict<string, int> {
    FromPairs(Scored(ps, text))
  }

  /** Scoring one more persona stores its score under its name. */
  lemma ScoresOfStep(ps: seq<Persona>, text: string, i: nat)
    requires i < |ps|
    ensures ScoresOf(ps[..i + 1], text) == Put(ScoresOf(ps[..i], text), PersonaName(ps[i]), PersonaScore(ps[i], text))
  {
    var es := Scored(ps, text);
    assert Scored(ps[..i + 1], text) == es[..i + 1] && Scored(ps[..i], text) == es[..i];
    FromPairsStep(es, i);
  }

  /** One key per distinct persona name, in roster order. */
  lemma ScoresOfKeys(ps: seq<Persona>, text: string)
    ensures Keys(ScoresOf(ps, text)) == Dedup(Names(ps))
  {
    FromPairsKeys(Scored(ps, text));
    ScoredKeys(ps, text);
  }

  /** Every stored score lies in [50, 100]. */
  lemma ScoresOfRange(ps: seq<Persona>, text: string)
    ensures forall i :: 0 <= i < |ScoresOf(ps, text)| ==> 50 <= ScoresOf(ps, text)[i].1 <= 100
  {
    var es := Scored(ps, text);
    forall j | 0 <= j < |es| ensures 50 <= es[j].1 <= 100 {
      PersonaScoreBounds(ps[j], text);
    }
    FromPairsValues(es, v => 50 <= v <= 100);
  }

  /** The value stored under a name is the score of the last persona carrying it. */
  lemma ScoreOfLastNamed(ps: seq<Persona>, text: string, i: nat)
    requires i < |ps|
    requires forall j :: i < j < |ps| ==> PersonaName(ps[j]) != PersonaName(ps[i])
    ensures Get(ScoresOf(ps, text), PersonaName(ps[i])) == Some(PersonaScore(ps[i], text))
  {
    var es := Scored(ps, text);
    assert forall j :: i < j < |es| ==> es[j].0 != es[i].0;
    LastValueAt(es, i);
    FromPairsGet(es, es[i].0);
  }

  /** With distinct names, the dictionary lists every persona's score in roster order. */
  lemma ScoresOfDistinct(ps: seq<Persona>, text: string)
    requires Distinct(Names(ps))
    ensures |ScoresOf(ps, text)| == |ps|
    ensures forall i :: 0 <= i < |ps| ==> ScoresOf(ps, text)[i] == (PersonaName(ps[i]), PersonaScore(ps[i], text))
  {
    ScoredKeys(ps, text);
    FromPairsDistinct(Scored(ps, text));
  }

  /** `max(d, key=d.get)`: a left-to-right scan that moves only on a strictly greater value. */
  function BestIndex(d: Dict<string, int>): (i: nat)
    requires d != []
    ensures i < |d|
  {
    if |d| == 1 then 0
    else
      var b := BestIndex(d[..|d| - 1]);
      if d[|d| - 1].1 > d[b].1 then |d| - 1 else b
  }

  /** The scan ends on the first entry holding the greatest value. */
  lemma {:induction false} BestIndexIsFirstMax(d: Dict<string, int>)
    requires d != []
    ensures forall j :: 0 <= j < |d| ==> d[j].1 <= d[BestIndex(d)].1
    ensures forall j :: 0 <= j < BestIndex(d) ==> d[j].1 < d[BestIndex(d)].1
  {
    if |d| > 1 {
      var init := d[..|d| - 1];
      BestIndexIsFirstMax(init);
      assert forall j :: 0 <= j < |init| ==> init[j] == d[j];
    }
  }

  /** The primary persona of the heuristic: the best-scoring name, or "Unknown" for no personas. */
  function PrimaryName(d: Dict<string, int>): string {
    if d == [] then "Unknown" else d[BestIndex(d)].0
  }

  /** Read through a dictionary that lists the roster in order, the first best entry is the first best persona. */
  lemma FirstBestPersona(d: Dict<string, int>, ps: seq<Persona>, text: string, i: nat)
    requires |d| == |ps| && i < |d|
    requires forall j :: 0 <= j < |ps| ==> d[j] == (PersonaName(ps[j]), PersonaScore(ps[j], text))
    requires forall j :: 0 <= j < |d| ==> d[j].1 <= d[i].1
    requires forall j :: 0 <= j < i ==> d[j].1 < d[i].1
    ensures forall j :: 0 <= j < |ps| ==> PersonaScore(ps[j], text) <= PersonaScore(ps[i], text)
    ensures forall j :: 0 <= j < i ==> PersonaScore(ps[j], text) < PersonaScore(ps[i], text)
  {
    forall j | 0 <= j < |ps| ensures PersonaScore(ps[j], text) <= PersonaScore(ps[i], text) {
      assert d[j].1 == PersonaScore(ps[j], text) && d[i].1 == PersonaScore(ps[i], text);
    }
  }

  /** The name the scan picks is the name of the persona at the position it picks. */
  lemma BestPersonaName(ps: seq<Persona>, text: string)
    requires ps != [] && Distinct(Names(ps))
    ensures |ScoresOf(ps, text)| == |ps|
    ensures PrimaryName(ScoresOf(ps, text)) == PersonaName(ps[BestIndex(ScoresOf(ps, text))])
  {
    ScoresOfDistinct(ps, text);
  }

  /** The persona at the position the scan picks has the first greatest score. */
  lemma BestPersonaScore(ps: seq<Persona>, text: string)
    requires ps != [] && Distinct(Names(ps))
    ensures |ScoresOf(ps, text)| == |ps|
    ensures forall j :: 0 <= j < |ps| ==>
      PersonaScore(ps[j], text) <= PersonaScore(ps[BestIndex(ScoresOf(ps, text))], text)
    ensures forall j :: 0 <= j < BestIndex(ScoresOf(ps, text)) ==>
      PersonaScore(ps[j], text) < PersonaScore(ps[BestIndex(ScoresOf(ps, text))], text)
  {
    var d := ScoresOf(ps, text);
    ScoresOfDistinct(ps, text);
    BestIndexIsFirstMax(d);
    FirstBestPersona(d, ps, text, BestIndex(d));
  }

  /**
   * With distinct names, the primary persona is the first persona of the
   * roster with the greatest score.
   */
  lemma PrimaryIsFirstBest(ps: seq<Persona>, text: string)
    requires ps != [] && Distinct(Names(ps))
    ensures exists i :: (0 <= i < |ps| && PrimaryName(ScoresOf(ps, text)) == PersonaName(ps[i]) &&
                         (forall j :: 0 <= j < |ps| ==> PersonaScore(ps[j], text) <= PersonaScore(ps[i], text)) &&
                         (forall j :: 0 <= j < i ==> PersonaScore(ps[j], text) < PersonaScore(ps[i], text)))
  {
    BestPersonaName(ps, text);
    BestPersonaScore(ps, text);
    var i := BestIndex(ScoresOf(ps, text));
    assert 0 <= i < |ps| && PrimaryName(ScoresOf(ps, text)) == PersonaName(ps[i]);
  }

  /** The primary persona is "Unknown" for an empty roster and a roster name otherwise. */
  lemma PrimaryIsNamed(ps: seq<Persona>, text: string)
    ensures ps == [] ==> PrimaryName(ScoresOf(ps, text)) == "Unknown"
    ensures ps != [] ==> PrimaryName(ScoresOf(ps, text)) in Names(ps)
  {
    var d := ScoresOf(ps, text);
    ScoresOfKeys(ps, text);
    if ps != [] {
      assert Names(ps)[0] in Dedup(Names(ps));
      assert d != [];
      assert d[BestIndex(d)].0 in Keys(d);
    }
  }

  // ---------------------------------------------------------------------
  // Records
  // ---------------------------------------------------------------------

  const UnavailableNote: string := "AI analysis unavailable - manual review recommended"
  const UnavailableSummary: string := "Automated analysis - AI not available"

  /** `len(content.get("content", "").split())`. */
  function BodyWords(c: Content): nat {
    WordCount(c.body.GetOr(""))
  }

  /** The heuristic record for a content item, given its persona scores and stage. */
  function FallbackFields(c: Content, scores: Dict<string, int>, stage: Stage): Record {
    Record(
      Some(c.kind.GetOr("unknown")), Some(PrimaryName(scores)), [], scores,
      Some(StageKey(stage)), 50, [], "educational", [], "neutral",
      [], [UnavailableNote], [], Some(50.0), UnavailableSummary,
      c.title, c.source, Some(BodyWords(c)))
  }

  /** The record the keyword heuristic builds for a content item. */
  function FallbackRecord(personas: seq<Persona>, c: Content): Record {
    var text := Lower(c.body.GetOr(""));
    FallbackFields(c, ScoresOf(personas, text), FallbackStage(text, Lower(c.title.GetOr(""))))
  }

  /** What every heuristic record carries, whatever the content. */
  lemma FallbackRecordFacts(personas: seq<Persona>, c: Content)
    ensures var r := FallbackRecord(personas, c);
      && r.funnelStage.Some? && ParseStage(r.funnelStage.value).Some?
      && r.funnelConfidence == 50 && r.qualityScore == Some(50.0)
      && r.secondaryPersonas == []
      && Keys(r.personaScores) == Dedup(Names(personas))
      && (forall i :: 0 <= i < |r.personaScores| ==> 50 <= r.personaScores[i].1 <= 100)
      && r.primaryPersona.Some?
      && (personas == [] ==> r.primaryPersona.value == "Unknown")
      && (personas != [] ==> r.primaryPersona.value in Names(personas))
      && r.wordCount == Some(WordCount(c.body.GetOr("")))
  {
    var text := Lower(c.body.GetOr(""));
    PrimaryIsNamed(personas, text);
    ScoresOfKeys(personas, text);
    ScoresOfRange(personas, text);
    ParseStageKey(FallbackStage(text, Lower(c.title.GetOr(""))));
  }

  /** A decoded record with the item's title, source and word count written over it. */
  function WithMetadata(a: Record, c: Content): Record {
    a.(originalTitle := c.title, originalSource := c.source, wordCount := Some(BodyWords(c)))
  }

  /**
   * `analyze_content`: the client's reply, cleaned of code fences and
   * decoded, when there is a client, it answers and the text decodes to a
   * record; the heuristic record otherwise.
   */
  function Analyze(hasClient: bool, personas: seq<Persona>, c: Content, reply: Reply,
                   decoder: map<string, Record>): Record
  {
    if !hasClient then FallbackRecord(personas, c)
    else match reply
      case Raised => FallbackRecord(personas, c)
      case Answer(text) =>
        match Decode(decoder, Prepared(text))
        case None => FallbackRecord(personas, c)
        case Some(a) => WithMetadata(a, c)
  }

  /**
   * `json.loads` on the cleaned reply, as a table from the texts that decode
   * to a classification record to that record; any other text fails.
   */
  function Decode(decoder: map<string, Record>, text: string): (r: Option<Record>)
    ensures r.Some? <==> text in decoder
  {
    if text in decoder then Some(decoder[text]) else None
  }

  /**
   * Whichever way a record is produced, it carries the item's title, source
   * and word count; the heuristic is used exactly when there is no client,
   * the call raised or the cleaned reply does not decode to a record.
   */
  lemma AnalyzeRouting(hasClient: bool, personas: seq<Persona>, c: Content, reply: Reply,
                       decoder: map<string, Record>)
    ensures var r := Analyze(hasClient, personas, c, reply, decoder);
      && r.originalTitle == c.title && r.originalSource == c.source
      && r.wordCount == Some(WordCount(c.body.GetOr("")))
    ensures !hasClient || reply.Raised? || Decode(decoder, Prepared(reply.text)).None? ==>
      Analyze(hasClient, personas, c, reply, decoder) == FallbackRecord(personas, c)
    ensures hasClient && reply.Answer? && Decode(decoder, Prepared(reply.text)).Some? ==>
      var a, r := Decode(decoder, Prepared(reply.text)).value, Analyze(hasClient, personas, c, reply, decoder);
      && r.personaScores == a.personaScores && r.funnelStage == a.funnelStage
      && r.primaryPersona == a.primaryPersona && r.qualityScore == a.qualityScore
  {
  }

  /** `[f(xs[i], ys[i]) for i in range(len(xs))]`, built front to back. */
  function MapPairs<A, B, R>(f: (A, B) -> R, xs: seq<A>, ys: seq<B>): (rs: seq<R>)
    requires |ys| == |xs|
    ensures |rs| == |xs|
  {
    if xs == [] then []
    else
      var n := |xs| - 1;
      MapPairs(f, xs[..n], ys[..n]) + [f(xs[n], ys[n])]
  }

  lemma MapPairsStep<A, B, R>(f: (A, B) -> R, xs: seq<A>, ys: seq<B>, i: nat)
    requires |ys| == |xs| && i < |xs|
    ensures MapPairs(f, xs[..i + 1], ys[..i + 1]) == MapPairs(f, xs[..i], ys[..i]) + [f(xs[i], ys[i])]
  {
    assert xs[..i + 1][..i] == xs[..i] && ys[..i + 1][..i] == ys[..i];
  }

  lemma {:induction false} MapPairsAt<A, B, R>(f: (A, B) -> R, xs: seq<A>, ys: seq<B>, i: nat)
    requires |ys| == |xs| && i < |xs|
    ensures MapPairs(f, xs, ys)[i] == f(xs[i], ys[i])
  {
    var n := |xs| - 1;
    if i < n {
      MapPairsAt(f, xs[..n], ys[..n], i);
    }
  }

  /** The records of `batch_analyze`: `replies[i]` is the client's reply to `contents[i]`. */
  function Analyzed(hasClient: bool, personas: seq<Persona>, contents: seq<Content>, replies: seq<Reply>,
                    decoder: map<string, Record>): (rs: seq<Record>)
    requires |replies| == |contents|
  {
    MapPairs((c, reply) => Analyze(hasClient, personas, c, reply, decoder), contents, replies)
  }

  /** One more item analysed adds its record at the end. */
  lemma AnalyzedStep(hasClient: bool, personas: seq<Persona>, contents: seq<Content>, replies: seq<Reply>,
                     decoder: map<string, Record>, i: nat)
    requires |replies| == |contents| && i < |contents|
    ensures Analyzed(hasClient, personas, contents[..i + 1], replies[..i + 1], decoder)
      == Analyzed(hasClient, personas, contents[..i], replies[..i], decoder)
        + [Analyze(hasClient, personas, contents[i], replies[i], decoder)]
  {
    MapPairsStep((c, reply) => Analyze(hasClient, personas, c, reply, decoder), contents, replies, i);
  }

  /** As many records as items; each item is analysed on its own, with its own reply, in input order. */
  lemma AnalyzedAt(hasClient: bool, personas: seq<Persona>, contents: seq<Content>,
                   replies: seq<Reply>, decoder: map<string, Record>, i: nat)
    requires |replies| == |contents| && i < |contents|
    ensures |Analyzed(hasClient, personas, contents, replies, decoder)| == |contents|
    ensures Analyzed(hasClient, personas, contents, replies, decoder)[i]
      == Analyze(hasClient, personas, contents[i], replies[i], decoder)
  {
    MapPairsAt((c, reply) => Analyze(hasClient, personas, c, reply, decoder), contents, replies, i);
  }

  // ---------------------------------------------------------------------
  // Summary of the analysed records
  // ---------------------------------------------------------------------

  /** `content.get("funnel_stage", "awareness")`. */
  function StageOf(r: Record): string { r.funnelStage.GetOr("awareness") }

  /** `content.get("primary_persona", "Unknown")`. */
  function PersonaOf(r: Record): string { r.primaryPersona.GetOr("Unknown") }

  /** `content.get("content_type", "unknown")`. */
  function TypeOf(r: Record): string { r.contentType.GetOr("unknown") }

  /** `c.get("quality_score", 50)`. */
  function QualityOf(r: Record): real { r.qualityScore.GetOr(50.0) }

  /** `c.get("word_count", 0)`. */
  function WordsOf(r: Record): nat { r.wordCount.GetOr(0) }

  /** One field of every record, in order. */
  function Project(rs: seq<Record>, f: Record -> string): (ks: seq<string>)
    ensures |ks| == |rs|
    ensures forall i :: 0 <= i < |rs| ==> ks[i] == f(rs[i])
  {
    seq(|rs|, i requires 0 <= i < |rs| => f(rs[i]))
  }

  function QualityTotal(rs: seq<Record>): real {
    if rs == [] then 0.0 else QualityTotal(rs[..|rs| - 1]) + QualityOf(rs[|rs| - 1])
  }

  lemma {:induction false} QualityTotalBounds(rs: seq<Record>)
    requires forall r :: r in rs ==> 0.0 <= QualityOf(r) <= 100.0
    ensures 0.0 <= QualityTotal(rs) <= 100.0 * |rs| as real
  {
    if rs != [] {
      assert rs[|rs| - 1] in rs;
      assert forall r :: r in rs[..|rs| - 1] ==> r in rs;
      QualityTotalBounds(rs[..|rs| - 1]);
    }
  }

  function WordTotal(rs: seq<Record>): nat {
    if rs == [] then 0 else WordTotal(rs[..|rs| - 1]) + WordsOf(rs[|rs| - 1])
  }

  const NoContentError: string := "No content analyzed yet"

  /** The stage counters start with every stage at zero. */
  const InitialStageCounts: Dict<string, nat> := [("awareness", 0), ("consideration", 0), ("decision", 0)]

  lemma InitialCountsZero(k: string)
    ensures CountOf(InitialStageCounts, k) == 0
  {
    CountOfZeros(InitialStageCounts, k);
  }

  datatype AnalysisSummary =
    | NoContent(error: string)
    | Summary(
        totalContent: nat,
        byFunnelStage: Dict<string, nat>,
        byPersona: Dict<string, nat>,
        byContentType: Dict<string, nat>,
        averageQualityScore: real,
        totalWordCount: nat)

  /** `get_analysis_summary` over the stored records. */
  function SummaryOf(rs: seq<Record>): AnalysisSummary {
    if rs == [] then NoContent(NoContentError)
    else Summary(
      |rs|,
      CountAll(InitialStageCounts, Project(rs, StageOf)),
      CountAll([], Project(rs, PersonaOf)),
      CountAll([], Project(rs, TypeOf)),
      Mean(QualityTotal(rs), |rs|),
      WordTotal(rs))
  }

  /** The summary is the error exactly when nothing has been analysed, and every counter sums to the total. */
  lemma SummaryTotals(rs: seq<Record>)
    ensures SummaryOf(rs).NoContent? <==> rs == []
    ensures rs != [] ==>
      var s := SummaryOf(rs);
      && Total(s.byFunnelStage) == s.totalContent
      && Total(s.byPersona) == s.totalContent
      && Total(s.byContentType) == s.totalContent
      && s.totalContent == |rs|
  {
    if rs != [] {
      assert Total(InitialStageCounts) == 0;
      CountAllTotal(InitialStageCounts, Project(rs, StageOf));
      CountAllTotal([], Project(rs, PersonaOf));
      CountAllTotal([], Project(rs, TypeOf));
    }
  }

  /** Each counter holds, for every key, the number of records carrying it. */
  lemma SummaryCounts(rs: seq<Record>, k: string)
    requires rs != []
    ensures CountOf(SummaryOf(rs).byFunnelStage, k) == Occurrences(Project(rs, StageOf), k)
    ensures CountOf(SummaryOf(rs).byPersona, k) == Occurrences(Project(rs, PersonaOf), k)
    ensures CountOf(SummaryOf(rs).byContentType, k) == Occurrences(Project(rs, TypeOf), k)
  {
    var s := SummaryOf(rs);
    assert CountOf(s.byFunnelStage, k) == Occurrences(Project(rs, StageOf), k) by {
      CountAllGet(InitialStageCounts, Project(rs, StageOf), k);
      InitialCountsZero(k);
    }
    assert CountOf(s.byPersona, k) == Occurrences(Project(rs, PersonaOf), k) by {
      CountAllGet([], Project(rs, PersonaOf), k);
    }
    assert CountOf(s.byContentType, k) == Occurrences(Project(rs, TypeOf), k) by {
      CountAllGet([], Project(rs, TypeOf), k);
    }
  }

  /** With quality scores in 0..100 (a missing one counting as 50), so is the average. */
  lemma SummaryQuality(rs: seq<Record>)
    requires rs != []
    requires forall r :: r in rs ==> 0.0 <= QualityOf(r) <= 100.0
    ensures 0.0 <= SummaryOf(rs).averageQualityScore <= 100.0
  {
    QualityTotalBounds(rs);
  }

  /** `[c for c in rs if keep(c)]`. */
  function Where(rs: seq<Record>, keep: Record -> bool): (r: seq<Record>)
    ensures |r| <= |rs|
    ensures forall x :: x in r <==> x in rs && keep(x)
  {
    if rs == [] then []
    else
      var init, x := rs[..|rs| - 1], rs[|rs| - 1];
      assert forall y :: y in rs <==> y in init || y == x by {
        assert rs == init + [x];
      }
      Where(init, keep) + (if keep(x) then [x] else [])
  }

  /** Filtering keeps order: the filter of a concatenation is the concatenation of the filters. */
  lemma {:induction false} WhereAppend(a: seq<Record>, b: seq<Record>, keep: Record -> bool)
    ensures Where(a + b, keep) == Where(a, keep) + Where(b, keep)
  {
    if b != [] {
      var init, x := b[..|b| - 1], b[|b| - 1];
      assert (a + b)[..|a + b| - 1] == a + init;
      WhereAppend(a, init, keep);
    } else {
      assert a + b == a;
    }
  }

  // ---------------------------------------------------------------------
  // The analyzer
  // ---------------------------------------------------------------------

  class ContentAnalyzer {
    /** Whether a language-model client was configured. */
    var hasClient: bool
    var personas: seq<Persona>
    var analyzedContent: seq<Record>

    constructor (hasClient: bool, personas: seq<Persona>)
      ensures this.hasClient == hasClient && this.personas == personas && analyzedContent == []
    {
      this.hasClient := hasClient;
      this.personas := personas;
      analyzedContent := [];
    }

    method SetPersonas(ps: seq<Persona>)
      modifies this`personas
      ensures personas == ps
    {
      personas := ps;
    }

    /** The persona-scoring loop for one persona. */
    static method ScorePersona(p: Persona, text: string) returns (score: int)
      ensures score == PersonaScore(p, text)
    {
      score := 50;
      var keywords := p.painPoints + p.goals;
      var i := 0;
      while i < |keywords|
        invariant 0 <= i <= |keywords|
        invariant score == 50 + 10 * MatchCount(keywords[..i], text)
      {
        MatchCountSnoc(keywords, i, text);
        if Contains(text, Lower(keywords[i])) {
          score := score + 10;
        }
        i := i + 1;
      }
      assert keywords[..i] == keywords;
      score := if score < 100 then score else 100;
    }

    /** The scoring loop of `_fallback_analysis`: `persona_scores[name] = min(score, 100)` per persona. */
    static method ScoreAll(ps: seq<Persona>, text: string) returns (scores: Dict<string, int>)
      ensures scores == ScoresOf(ps, text)
    {
      scores := [];
      var i := 0;
      while i < |ps|
        invariant 0 <= i <= |ps|
        invariant scores == ScoresOf(ps[..i], text)
      {
        var score := ScorePersona(ps[i], text);
        ScoresOfStep(ps, text, i);
        scores := Put(scores, PersonaName(ps[i]), score);
        i := i + 1;
      }
      assert ps[..i] == ps;
    }

    /** `_fallback_analysis` with the analyzer's personas. */
    static method FallbackAnalysis(personas: seq<Persona>, c: Content) returns (r: Record)
      ensures r == FallbackRecord(personas, c)
    {
      var text := Lower(c.body.GetOr(""));
      var title := Lower(c.title.GetOr(""));
      var stage := FallbackStage(text, title);
      var scores := ScoreAll(personas, text);
      r := FallbackFields(c, scores, stage);
    }

    /** `analyze_content` with the analyzer's client flag and personas. */
    static method AnalyzeWith(hasClient: bool, personas: seq<Persona>, c: Content, reply: Reply,
                              decoder: map<string, Record>) returns (r: Record)
      ensures r == Analyze(hasClient, personas, c, reply, decoder)
    {
      if !hasClient {
        r := FallbackAnalysis(personas, c);
        return;
      }
      match reply
      case Raised =>
        r := FallbackAnalysis(personas, c);
      case Answer(text) =>
        var cleaned := Prepared(text);
        match Decode(decoder, cleaned)
        case None =>
          r := FallbackAnalysis(personas, c);
        case Some(a) =>
          r := WithMetadata(a, c);
    }

    /** `analyze_content`, given the client's reply to this item and the decoding table. */
    method AnalyzeContent(c: Content, reply: Reply, decoder: map<string, Record>) returns (r: Record)
      ensures r == Analyze(hasClient, personas, c, reply, decoder)
    {
      r := AnalyzeWith(hasClient, personas, c, reply, decoder);
    }

    /** The loop of `batch_analyze`: every item analysed in turn. */
    static method AnalyzeAll(hasClient: bool, personas: seq<Persona>, contents: seq<Content>, replies: seq<Reply>,
                             decoder: map<string, Record>) returns (results: seq<Record>)
      requires |replies| == |contents|
      ensures results == Analyzed(hasClient, personas, contents, replies, decoder)
    {
      results := [];
      var i := 0;
      while i < |contents|
        invariant 0 <= i <= |contents|
        invariant results == Analyzed(hasClient, personas, contents[..i], replies[..i], decoder)
      {
        var r := AnalyzeWith(hasClient, personas, contents[i], replies[i], decoder);
        AnalyzedStep(hasClient, personas, contents, replies, decoder, i);
        results := results + [r];
        i := i + 1;
      }
      assert contents[..i] == contents && replies[..i] == replies;
    }

    /**
     * `batch_analyze`: `replies[i]` is the client's reply to `contents[i]`.
     * The records are returned in input order and appended to the store.
     */
    method BatchAnalyze(contents: seq<Content>, replies: seq<Reply>, decoder: map<string, Record>)
      returns (results: seq<Record>)
      requires |replies| == |contents|
      modifies this`analyzedContent
      ensures results == Analyzed(hasClient, personas, contents, replies, decoder)
      ensures analyzedContent == old(analyzedContent) + results
    {
      results := AnalyzeAll(hasClient, personas, contents, replies, decoder);
      analyzedContent := analyzedContent + results;
    }

    /** One counter-dictionary loop: `counts[k] = counts.get(k, 0) + 1` for every key in turn. */
    static method Tally(start: Dict<string, nat>, keys: seq<string>) returns (counts: Dict<string, nat>)
      ensures counts == CountAll(start, keys)
    {
      counts := start;
      var i := 0;
      while i < |keys|
        invariant 0 <= i <= |keys|
        invariant counts == CountAll(start, keys[..i])
      {
        assert keys[..i + 1][..i] == keys[..i];
        counts := Increment(counts, keys[i]);
        i := i + 1;
      }
      assert keys[..i] == keys;
    }

    /** `get_analysis_summary`. */
    method GetAnalysisSummary() returns (s: AnalysisSummary)
      ensures s == SummaryOf(analyzedContent)
    {
      var rs := analyzedContent;
      if rs == [] {
        return NoContent(NoContentError);
      }
      var stageCounts := Tally(InitialStageCounts, Project(rs, StageOf));
      var personaCounts := Tally([], Project(rs, PersonaOf));
      var typeCounts := Tally([], Project(rs, TypeOf));
      s := Summary(|rs|, stageCounts, personaCounts, typeCounts, Mean(QualityTotal(rs), |rs|), WordTotal(rs));
    }

    /** `get_content_by_stage`: the stored records whose stage is `stage`, in order. */
    function ContentByStage(stage: string): (r: seq<Record>)
      reads this
      ensures forall x :: x in r <==> x in analyzedContent && x.funnelStage == Some(stage)
    {
      Where(analyzedContent, (x: Record) => x.funnelStage == Some(stage))
    }

    /** `get_content_by_persona`: the stored records whose primary persona is `name`, in order. */
    function ContentByPersona(name: string): (r: seq<Record>)
      reads this
      ensures forall x :: x in r <==> x in analyzedContent && x.primaryPersona == Some(name)
    {
      Where(analyzedContent, (x: Record) => x.primaryPersona == Some(name))
    }

    method ClearAnalysis()
      modifies this`analyzedContent
      ensures analyzedContent == []
    {
      analyzedContent := [];
    }
  }
}
