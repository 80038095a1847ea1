# Content Intelligence Engine — a Dafny model of its deterministic core

The application audits a company's marketing content against its buyer
personas. Content items are classified by persona and funnel stage, then
collected into a persona × stage coverage matrix. Each cell is scored and
classified as a gap, a moderate area or a strength. From the gaps, a content
strategy is proposed. A language model does the classification, the persona
extraction and the strategy whenever a client is configured. Every one of
those steps has a deterministic fallback, and those fallbacks are the
subject of this model.

The model follows the source's own structure:

- **`GapAnalysis`** (`utils/gap_analyzer.py`) holds the class `GapAnalyzer`.
  - Its `matrix` field is an insertion-ordered dictionary from persona name
    to a row of three cells: awareness, consideration, decision.
  - Methods rebuild and update that field in place:
    - initialisation;
    - crediting one record to the primary persona (one item and one full
      count) and to the secondary personas (half a count each);
    - scoring every cell.
  - Query methods build the gap list (sorted by a stage-weighted priority,
    stable), the strength list and the moderate list, plus the summary
    statistics and the per-stage and per-persona roll-ups.
  - Each method is proved equal to a specification function. The
    properties of those functions are proved as lemmas:
    - the per-cell effect of aggregation;
    - the score formula: monotone, saturating, bounded;
    - the status thresholds;
    - the three lists are exactly the cells of each status, and the
      statuses partition the cells;
    - the sort is sorted, a permutation and stable;
    - the roll-ups.
  - Content counts grow by 1 or 0.5, so they are natural numbers in
    half-units.
- **`ContentAnalysis`** (`utils/content_analyzer.py`) holds the class
  `ContentAnalyzer`.
  - It has the keyword fallback classifier:
    - the stage rule;
    - the capped persona score, computed by a loop;
    - the first-maximum choice of the primary persona.
  - It routes between the model's decoded answer and the fallback.
  - `batch_analyze` appends to the `analyzed_content` field.
  - It has the counting summary and the two order-preserving filters.
- **`StrategyGeneration`** (`utils/strategy_generator.py`) covers the
  fallback strategy.
  - Recommendations are built from the top five gaps.
  - Every persona gets manual-review advice, and the fixed placeholders are
    filled in.
  - The routing of `generate_strategy` is modelled: the fallback is taken
    without a client, when the call raises, or when the answer does not
    decode.
- **`PersonaManagement`** (`utils/persona_manager.py`) holds the class
  `PersonaManager`.
  - It has the line-oriented fallback header parser.
  - It has the roster operations: add, extend, lookup, names, clear, and
    export/import.
  - It records the source document of model-extracted personas.
- **`UploadSection`** (`components/upload_section.py`) holds the
  filename → content-type classifier. It is proved equal to a first-match
  rule table.
- **Shared modules:**
  - `Fences` models the code-fence cleaning that the three files share,
    defined once.
  - `Text` holds the Python string operations the core uses: `lower`, `in`,
    `split`, `strip`, `str(n)`.
  - `Dicts` models an insertion-ordered dict with Python's assignment
    semantics and counter dicts.
  - `Rounding` is `round(x, 1)` over reals.
  - `Records` and `Config` hold the records and the configuration constants
    (stages, thresholds, default personas).

The language-model client is a parameter:
- a flag says whether a client exists;
- a `Reply` is what the call gave (it raised, or answered with text);
- a finite table stands for `json.loads`: a text outside the table does
  not decode.

Clocks, the network and the UI are not modelled.

Where the documentation and the code disagree, the model follows the code:
- `analyze_coverage` re-initialises the matrix itself, so running it twice
  does not double-count (`GapAnalysis.GapAnalyzer.AnalyzeCoverage`).
- Equal scores do not always order the gap priorities
  decision > consideration > awareness, because the priority is capped at
  100. The strict order holds above a score of 10
  (`GapAnalysis.PriorityStageOrder`). For scores in (0, 10] decision and
  consideration tie at 100, above awareness
  (`GapAnalysis.PriorityPartlyCapped`). At a score of 0 or below all three
  stages tie (`GapAnalysis.PriorityCapped`).
- `get_summary_stats` takes `total_cells` from the roster length, while the
  matrix holds one row per distinct name. The three counts add up to
  `total_cells` only when the names are distinct
  (`GapAnalysis.GapAnalyzer.GetSummaryStats`).
- `_fallback_strategy` reads `p["name"]`, which raises for a persona
  without a name. The model returns `Err` then
  (`StrategyGeneration.FallbackFails`).
- In `_fallback_analysis` the persona score ignores the title. The stage
  rule consults both the body and the title.

## Model

| member | source | states |
|---|---|---|
| Config.StageIndex | config.py:37-56 | every stage has a position below 3 in the fixed order awareness, consideration, decision |
| Config.ParseStage | config.py:37-56 | a key parses exactly when it is one of the three stage keys, and the parsed stage has that key |
| Config.ParseStageKey | config.py:37-56 | parsing a stage's key gives the stage back |
| Rounding.Round1 | utils/gap_analyzer.py:81-83 | `round(x, 1)` lies within 0.05 of x (half-up on reals) |
| Rounding.Round1Monotone | utils/gap_analyzer.py:81-83 | rounding to one decimal preserves order |
| Rounding.Round1OfTenths | utils/gap_analyzer.py:81-83 | a multiple of 0.1 is left unchanged by rounding |
| Rounding.Round1Within | utils/gap_analyzer.py:198 | rounding keeps a value inside bounds given in tenths |
| Rounding.Mean | utils/gap_analyzer.py:198 | the average is 0 for an empty list, and stays in 0..100 when the values do |
| Records.Names | utils/gap_analyzer.py:26-27 | one name per persona in roster order, "Unknown" for a persona without one |
| Dicts.Get | utils/content_analyzer.py:177 | `d.get(k)` finds a value exactly when k is a key |
| Dicts.Put | utils/gap_analyzer.py:28 | after `d[k] = v` the key k maps to v, every other key keeps its value, and existing entries keep their places |
| Dicts.PutKeys | utils/gap_analyzer.py:28 | assigning an existing key keeps the key order; assigning a new key appends it |
| Dicts.PutNew | utils/gap_analyzer.py:28 | assigning a new key appends exactly that entry |
| Dicts.Dedup | utils/gap_analyzer.py:26-28 | the keys of a dict built in order are the distinct names in order of first appearance |
| Dicts.FromKeys | utils/gap_analyzer.py:25-36 | a dict built from a key list has the distinct keys in first-appearance order, each with the given value |
| Dicts.FromKeysGet | utils/gap_analyzer.py:25-36 | such a dict has a value exactly for the listed keys |
| Dicts.PutAllGet | utils/persona_manager.py:90-92 | after assigning one value to every listed key, the listed keys map to it and the others are unchanged |
| Dicts.FromPairsKeys | utils/content_analyzer.py:129-136 | a dict filled by successive assignments has the distinct keys in first-assignment order |
| Dicts.FromPairsGet | utils/content_analyzer.py:129-136 | a lookup in that dict gives the last value assigned to the key |
| Dicts.LastValueAt | utils/content_analyzer.py:136 | the last assignment to a key is the value found for it |
| Dicts.FromPairsDistinct | utils/content_analyzer.py:129-136 | with distinct keys, the dict is exactly the assignment list |
| Dicts.FromPairsValues | utils/content_analyzer.py:136 | a property of every assigned value holds for every stored value |
| Dicts.IncrementCount | utils/content_analyzer.py:177 | `d[k] = d.get(k, 0) + 1` raises the count of k by one and no other count |
| Dicts.IncrementTotal | utils/content_analyzer.py:177 | one increment raises the sum of all counts by one |
| Dicts.CountAllGet | utils/content_analyzer.py:175-177 | after counting a key list, each key's count is its start count plus its number of occurrences |
| Dicts.CountAllTotal | utils/content_analyzer.py:175-177 | counting a key list raises the total by its length |
| Dicts.TotalPut | utils/content_analyzer.py:177 | replacing one count changes the total by the difference |
| Text.Lower | utils/content_analyzer.py:113 | `lower()` keeps the length and folds every ASCII capital |
| Text.LowerIdempotent | utils/persona_manager.py:161 | lower-casing twice is lower-casing once |
| Text.Find | utils/content_analyzer.py:123 | the result is the first index where the needle occurs, or none when it occurs nowhere |
| Text.ContainsIff | utils/content_analyzer.py:123 | `n in h` holds exactly when n occurs somewhere in h |
| Text.SplitOn | utils/persona_manager.py:106 | `split(sep)` gives at least one part, exactly one when sep is absent, and no part contains sep |
| Text.JoinSplit | utils/persona_manager.py:106 | joining the parts with the separator gives the text back |
| Text.LastPieceFree | utils/persona_manager.py:120 | `split(':')[-1]` contains no ':' |
| Text.LastPieceSuffix | utils/persona_manager.py:120 | `split(':')[-1]` is what follows the last ':' |
| Text.StripEnds | utils/persona_manager.py:110 | `strip()` leaves no white space at either end |
| Text.StripSlice | utils/persona_manager.py:110 | `strip()` is a contiguous slice of the line |
| Text.StripEmpty | utils/persona_manager.py:110-112 | a stripped line is empty exactly when the line was all white space |
| Text.StripKeepsAbsence | utils/content_analyzer.py:98 | stripping cannot create an occurrence of a substring |
| Text.WordCount | utils/content_analyzer.py:156 | `len(s.split())` is 0 exactly when s is all white space, and at most the length of s |
| Text.NatToString | utils/strategy_generator.py:194 | `str(n)` is a non-empty string of digits |
| Text.DecimalRoundTrip | utils/strategy_generator.py:194 | reading back `str(n)` gives n |
| Text.ReadNumberOf | utils/strategy_generator.py:194 | the digits of `str(n)` end where the following non-digit text begins |
| Fences.Before | utils/content_analyzer.py:94 | the text before the first separator is a prefix without the separator |
| Fences.SplitHead | utils/content_analyzer.py:94 | `split(sep)[0]` is the text before the first separator |
| Fences.SplitSecond | utils/content_analyzer.py:94 | `split(sep)[1]` exists when sep occurs, and is the text between the first and second separators |
| Fences.CleanFences | utils/content_analyzer.py:93-96 | the cleaned text never contains a fence, and text without a fence passes unchanged |
| Fences.BeforeMarkerThenFence | utils/strategy_generator.py:157-158 | cutting at the first "```json" and then at the first fence equals cutting at the first fence, unless a backtick runs into the marker ("````json") |
| Fences.CleanFencesJson | utils/strategy_generator.py:157-158 | with a "```json" marker, the result is the text between it and the next fence (a later marker included), provided no "````json" follows the marker |
| Fences.CleanFencesOverlap | utils/strategy_generator.py:157-158 | on "```json`````json" the split keeps "``", where cutting at the next fence would give the empty text: the excluded case is real |
| Fences.CleanFencesPlain | utils/persona_manager.py:84-85 | with plain fences only, the result is the text between the first and second fence |
| Fences.CleanFencesIdempotent | utils/content_analyzer.py:93-96 | cleaning an already cleaned text changes nothing |
| Fences.Prepared | utils/content_analyzer.py:98 | the stripped, cleaned text handed to the decoder contains no fence |
| ContentAnalysis.AnyKeywordIff | utils/content_analyzer.py:123 | the `any(...)` test holds exactly when some keyword occurs in the lower-cased body or title |
| ContentAnalysis.FallbackStageRule | utils/content_analyzer.py:117-126 | decision iff a decision keyword occurs; consideration iff none does and a consideration keyword does; awareness iff neither list matches |
| ContentAnalysis.BuyerMeansDecision | utils/content_analyzer.py:119-124 | matching is by substring: a body saying "buyer" is classified decision because it contains "buy" |
| ContentAnalysis.MatchCountBounds | utils/content_analyzer.py:133-135 | the number of matching pain points and goals is at most their number, and 0 exactly when none occurs |
| ContentAnalysis.MatchCountSnoc | utils/content_analyzer.py:133-135 | each keyword adds one match exactly when its lower-case form occurs in the body |
| ContentAnalysis.PersonaScoreBounds | utils/content_analyzer.py:130-136 | a persona score lies in 50..100, is 50 exactly when no keyword occurs, and is 100 from five matches on |
| ContentAnalysis.ScoresOfKeys | utils/content_analyzer.py:129-136 | the score dict has one key per distinct persona name, in roster order |
| ContentAnalysis.ScoresOfRange | utils/content_analyzer.py:136 | every stored score lies in 50..100 |
| ContentAnalysis.ScoreOfLastNamed | utils/content_analyzer.py:136 | when names repeat, the score stored for a name is that of its last persona |
| ContentAnalysis.ScoresOfDistinct | utils/content_analyzer.py:129-136 | with distinct names, entry i is persona i's name and score |
| ContentAnalysis.BestIndexIsFirstMax | utils/content_analyzer.py:140 | `max(d, key=d.get)` picks a maximal score, and no earlier entry reaches it |
| ContentAnalysis.FirstBestPersona | utils/content_analyzer.py:140 | the first maximal score dict entry is the first persona of maximal score |
| ContentAnalysis.PrimaryIsFirstBest | utils/content_analyzer.py:140 | with distinct names, the primary persona is the first persona in roster order with the greatest score |
| ContentAnalysis.PrimaryIsNamed | utils/content_analyzer.py:140 | the primary persona is "Unknown" for an empty roster and otherwise one of the roster's names |
| ContentAnalysis.FallbackRecordFacts | utils/content_analyzer.py:138-157 | the fallback record has a valid stage, confidence 50, quality 50, no secondaries, scores in 50..100 for every distinct name, a roster primary and the body's word count |
| ContentAnalysis.Decode | utils/content_analyzer.py:98 | a reply decodes exactly when its cleaned text is in the decoder table |
| ContentAnalysis.AnalyzeRouting | utils/content_analyzer.py:24-109 | without a client, on a raised call or an undecodable answer the result is the fallback record; otherwise the decoded record with title, source and word count added |
| ContentAnalysis.MapPairsAt | utils/content_analyzer.py:162-164 | the i-th result is the analysis of the i-th content |
| ContentAnalysis.AnalyzedAt | utils/content_analyzer.py:159-166 | batch analysis gives one result per input, and result i is the analysis of content i with reply i |
| ContentAnalysis.QualityTotalBounds | utils/content_analyzer.py:186-187 | with qualities in 0..100 the quality sum lies in 0..100·n |
| ContentAnalysis.InitialCountsZero | utils/content_analyzer.py:174 | the stage counter starts at 0 for every key |
| ContentAnalysis.SummaryTotals | utils/content_analyzer.py:168-202 | the summary is the error exactly when nothing was analysed; otherwise stage, persona and type counts each sum to the number of records |
| ContentAnalysis.SummaryCounts | utils/content_analyzer.py:173-193 | each counter holds, per key, the number of records whose field (with its default) is that key |
| ContentAnalysis.SummaryQuality | utils/content_analyzer.py:186-200 | with qualities in 0..100 the rounded average quality lies in 0..100 |
| ContentAnalysis.Where | utils/content_analyzer.py:206 | the filtered list holds exactly the records that pass the test |
| ContentAnalysis.WhereAppend | utils/content_analyzer.py:206 | filtering keeps the order: filtering a concatenation concatenates the filtered parts |
| ContentAnalysis.ContentAnalyzer.constructor | utils/content_analyzer.py:14-18 | a new analyzer has the given roster and nothing analysed |
| ContentAnalysis.ContentAnalyzer.SetPersonas | utils/content_analyzer.py:20-22 | the roster is replaced and nothing else changes |
| ContentAnalysis.ContentAnalyzer.ScorePersona | utils/content_analyzer.py:130-136 | the `score += 10` loop computes the capped persona score |
| ContentAnalysis.ContentAnalyzer.ScoreAll | utils/content_analyzer.py:129-136 | the scoring loop builds the score dict of the roster |
| ContentAnalysis.ContentAnalyzer.FallbackAnalysis | utils/content_analyzer.py:111-157 | `_fallback_analysis` builds the fallback record |
| ContentAnalysis.ContentAnalyzer.AnalyzeWith | utils/content_analyzer.py:24-109 | `analyze_content` routes between the decoded answer and the fallback |
| ContentAnalysis.ContentAnalyzer.AnalyzeContent | utils/content_analyzer.py:24-109 | the instance call uses the analyzer's own client flag and roster |
| ContentAnalysis.ContentAnalyzer.AnalyzeAll | utils/content_analyzer.py:161-164 | the batch loop returns one analysis per content, in input order |
| ContentAnalysis.ContentAnalyzer.BatchAnalyze | utils/content_analyzer.py:159-166 | the results are returned and appended to the stored analyses, earlier entries untouched |
| ContentAnalysis.ContentAnalyzer.Tally | utils/content_analyzer.py:175-177 | a counter loop builds the occurrence counts of its keys |
| ContentAnalysis.ContentAnalyzer.GetAnalysisSummary | utils/content_analyzer.py:168-202 | the summary of the stored analyses, with the counting properties above |
| ContentAnalysis.ContentAnalyzer.ContentByStage | utils/content_analyzer.py:204-206 | the stored analyses whose stage equals the argument, in order |
| ContentAnalysis.ContentAnalyzer.ContentByPersona | utils/content_analyzer.py:208-210 | the stored analyses whose primary persona equals the argument, in order |
| ContentAnalysis.ContentAnalyzer.ClearAnalysis | utils/content_analyzer.py:212-214 | the store is empty afterwards |
| GapAnalysis.FreshMatrixRows | utils/gap_analyzer.py:23-36 | after initialisation every roster name has a row of three empty cells and no other name has a row |
| GapAnalysis.FreshConsistent | utils/gap_analyzer.py:30-36 | fresh cells have count 0, no items, average 0, score 0 and status gap |
| GapAnalysis.CreditPrimaryCell | utils/gap_analyzer.py:47-55 | crediting a record's primary persona adds one item and a full count to exactly that cell, if the persona and stage exist |
| GapAnalysis.CreditSecondaryCell | utils/gap_analyzer.py:58-61 | crediting a secondary persona adds half a count and no item to exactly that cell, if it exists |
| GapAnalysis.CreditSecondariesCell | utils/gap_analyzer.py:57-61 | each listed occurrence of a secondary persona adds half a count at the record's stage; no other cell changes |
| GapAnalysis.CreditSecondariesSnoc | utils/gap_analyzer.py:57-61 | crediting a list of secondaries is crediting them one after another |
| GapAnalysis.AddRecordCell | utils/gap_analyzer.py:42-61 | one record changes each cell by exactly its primary and secondary credit; secondaries are credited even when the primary is unknown |
| GapAnalysis.AggregateKeys | utils/gap_analyzer.py:42-61 | aggregation adds and removes no row |
| GapAnalysis.AggregateCell | utils/gap_analyzer.py:42-61 | after a record list each cell holds its start plus the credits and items of the records, in record order |
| GapAnalysis.Density | utils/gap_analyzer.py:73 | density is count/5·100 capped at 100 |
| GapAnalysis.QualitySumBounds | utils/gap_analyzer.py:76-77 | with qualities in 0..100 the quality sum lies in 0..100·n |
| GapAnalysis.AvgQuality | utils/gap_analyzer.py:75-79 | the average quality is 0 without items and lies in 0..100 when the qualities do |
| GapAnalysis.ScoreMonotone | utils/gap_analyzer.py:73-83 | more content never lowers the score |
| GapAnalysis.ScoreSaturates | utils/gap_analyzer.py:73 | from a count of 5 on, further content does not change the score |
| GapAnalysis.ScoreBounded | utils/gap_analyzer.py:81-83 | with qualities in 0..100 the score lies in 0..100 |
| GapAnalysis.StatusOf | utils/gap_analyzer.py:85-90 | strong iff score ≥ 70, moderate iff 40 ≤ score < 70, gap iff score < 40 |
| GapAnalysis.ScoreCell | utils/gap_analyzer.py:72-90 | scoring keeps the count and items and leaves the cell's score and status consistent with them |
| GapAnalysis.ScoreMatrix | utils/gap_analyzer.py:66-90 | scoring keeps the rows in order and scores every cell |
| GapAnalysis.ScoreMatrixEntries | utils/gap_analyzer.py:70-71 | row j of the scored matrix is row j, scored |
| GapAnalysis.ScoreMatrixCell | utils/gap_analyzer.py:66-90 | every cell of the scored matrix is the scored cell |
| GapAnalysis.CoverageKeys | utils/gap_analyzer.py:38-40 | the coverage matrix has one row per distinct roster name, in roster order |
| GapAnalysis.CoverageCell | utils/gap_analyzer.py:38-64 | each cell of the coverage matrix is the scored cell holding exactly the credits and items of the records |
| GapAnalysis.FreshCoverageCell | utils/gap_analyzer.py:38-64 | coverage depends only on the roster and the records, not on an earlier matrix, so it never double-counts |
| GapAnalysis.FreshAggregateCell | utils/gap_analyzer.py:40-61 | from a fresh matrix each cell's count and items come from the records alone |
| GapAnalysis.OneDecisionItemIsModerate | utils/gap_analyzer.py:81-90 | one item of quality 80 scores 44.0, which is moderate |
| GapAnalysis.RowSlots | utils/gap_analyzer.py:96-98 | a persona's cells are visited in the stage order |
| GapAnalysis.WithStatus | utils/gap_analyzer.py:99 | the selected cells are exactly those of the given status |
| GapAnalysis.StatusPartition | utils/gap_analyzer.py:85-90 | every cell is exactly one of gap, moderate and strong |
| GapAnalysis.Priority | utils/gap_analyzer.py:112-121 | priority is 100 − score plus the stage bonus (20, 10 or 0), capped at 100, and above 60 for a gap |
| GapAnalysis.PriorityStageOrder | utils/gap_analyzer.py:116-121 | above a score of 10, equal scores rank decision over consideration over awareness |
| GapAnalysis.PriorityPartlyCapped | utils/gap_analyzer.py:116-121 | for scores in (0, 10], decision and consideration tie at 100 and awareness is 100 − score, below them |
| GapAnalysis.PriorityCapped | utils/gap_analyzer.py:116-121 | at a score of 0 or below every stage has priority 100, so the cap makes all stages tie |
| GapAnalysis.TopContent | utils/gap_analyzer.py:137 | `items[:3]` is a prefix of at most three items, all of them when there are at most three |
| GapAnalysis.GapListExact | utils/gap_analyzer.py:96-107 | the gap list has one entry per gap cell, in matrix order |
| GapAnalysis.StrengthListExact | utils/gap_analyzer.py:127-138 | the strength list has one entry per strong cell, in matrix order |
| GapAnalysis.ModerateListExact | utils/gap_analyzer.py:146-157 | the moderate list has one entry per moderate cell, in matrix order |
| GapAnalysis.GapPriorities | utils/gap_analyzer.py:112-121 | every gap priority lies in (60, 100] |
| GapAnalysis.StrengthAndModerateScores | utils/gap_analyzer.py:130-156 | strengths score at least 70 with at most three top items; a moderate area's improvement potential lies in (30, 60] |
| GapAnalysis.InsertPermutes | utils/gap_analyzer.py:109 | inserting an entry adds exactly that entry |
| GapAnalysis.InsertSorted | utils/gap_analyzer.py:109 | inserting into a list sorted by descending priority keeps it sorted |
| GapAnalysis.InsertStable | utils/gap_analyzer.py:109 | an inserted entry goes behind the entries of equal priority |
| GapAnalysis.SortSorted | utils/gap_analyzer.py:109 | the sorted gap list is non-increasing in priority |
| GapAnalysis.SortPermutes | utils/gap_analyzer.py:109 | the sorted gap list is a permutation of the unsorted one |
| GapAnalysis.SortStable | utils/gap_analyzer.py:109 | entries of equal priority keep their persona-then-stage order |
| GapAnalysis.SortLength | utils/gap_analyzer.py:109 | sorting keeps the number of gaps |
| GapAnalysis.SortedHeadIsMax | utils/gap_analyzer.py:175 | the first sorted gap is a gap of the greatest priority |
| GapAnalysis.Percent | utils/gap_analyzer.py:173-174 | the percentage is 0 when there are no cells, and lies in 0..100 for a part of the whole |
| GapAnalysis.StageGapPersonasExact | utils/gap_analyzer.py:195-196 | a persona is listed under a stage exactly when its cell at that stage is a gap |
| GapAnalysis.MaxUpToSpec | utils/gap_analyzer.py:224-226 | the running maximum keeps the first stage with the strictly greatest positive score |
| GapAnalysis.StrongestStage | utils/gap_analyzer.py:216-232 | no strongest stage iff every score is ≤ 0; otherwise the first stage of maximal positive score |
| GapAnalysis.RollUpsAgree | utils/gap_analyzer.py:192 | the stage totals and the persona totals count the same content |
| GapAnalysis.ListCounts | utils/gap_analyzer.py:161-172 | the three lists have the sizes of the three status classes, which add up to three cells per row |
| GapAnalysis.SummaryCounts | utils/gap_analyzer.py:168-175 | the three counts are the class sizes, and the highest-priority gap is absent exactly when there is no gap, else a gap of maximal priority |
| GapAnalysis.SummaryBounds | utils/gap_analyzer.py:163-176 | counts never exceed total_cells, percentages lie in 0..100, and with one row per roster entry the counts sum to total_cells |
| GapAnalysis.GapAnalyzer.constructor | utils/gap_analyzer.py:12-16 | a new analyzer has the given roster and an empty matrix |
| GapAnalysis.GapAnalyzer.SetPersonas | utils/gap_analyzer.py:18-21 | the roster is replaced and the matrix re-initialised for it |
| GapAnalysis.GapAnalyzer.FreshRows | utils/gap_analyzer.py:25-36 | the initialisation loop builds the fresh matrix of the roster |
| GapAnalysis.GapAnalyzer.InitializeMatrix | utils/gap_analyzer.py:23-36 | the matrix becomes the fresh matrix of the current roster |
| GapAnalysis.GapAnalyzer.CreditRecord | utils/gap_analyzer.py:42-61 | the matrix changes by exactly one record's credits |
| GapAnalysis.GapAnalyzer.CreditPrimaryPersona | utils/gap_analyzer.py:43-55 | the primary persona's cell gains a full count and one item |
| GapAnalysis.GapAnalyzer.CreditSecondaryPersonas | utils/gap_analyzer.py:57-61 | the loop credits every listed secondary persona in turn |
| GapAnalysis.GapAnalyzer.CreditSecondaryPersona | utils/gap_analyzer.py:58-61 | one secondary persona's cell gains half a count |
| GapAnalysis.GapAnalyzer.AnalyzeCoverage | utils/gap_analyzer.py:38-64 | the matrix is rebuilt from scratch, aggregated and scored, and returned |
| GapAnalysis.GapAnalyzer.CreditRecords | utils/gap_analyzer.py:42-61 | the loop aggregates the records in order |
| GapAnalysis.GapAnalyzer.CalculateScores | utils/gap_analyzer.py:66-90 | every cell is scored in place |
| GapAnalysis.GapAnalyzer.ScoreStages | utils/gap_analyzer.py:71-90 | the inner loop scores a row's three cells |
| GapAnalysis.GapAnalyzer.GetGaps | utils/gap_analyzer.py:92-110 | the gaps sorted by priority: sorted, a permutation of the gap cells, priorities in (60, 100] |
| GapAnalysis.GapAnalyzer.RowGaps | utils/gap_analyzer.py:97-107 | one row's gap cells are appended in stage order |
| GapAnalysis.GapAnalyzer.GetStrengths | utils/gap_analyzer.py:123-140 | exactly the strong cells, in matrix order |
| GapAnalysis.GapAnalyzer.RowStrengths | utils/gap_analyzer.py:128-138 | one row's strong cells are appended in stage order |
| GapAnalysis.GapAnalyzer.GetModerateAreas | utils/gap_analyzer.py:142-159 | exactly the moderate cells, in matrix order |
| GapAnalysis.GapAnalyzer.RowModerates | utils/gap_analyzer.py:147-157 | one row's moderate cells are appended in stage order |
| GapAnalysis.GapAnalyzer.GetSummaryStats | utils/gap_analyzer.py:161-176 | the statistics equal `SummaryOf` of the matrix: total_cells = 3 per roster entry, the three class counts, gap_percentage and coverage_percentage as the rounded shares of gaps and of strong-plus-moderate cells (0 without cells), and the first sorted gap as the highest-priority gap; counts are bounded by total_cells, percentages lie in 0..100, and with distinct names the counts sum to total_cells |
| GapAnalysis.GapAnalyzer.GetStageSummary | utils/gap_analyzer.py:178-201 | one entry per stage in stage order, each the stage's total, rounded mean score and gap personas |
| GapAnalysis.GapAnalyzer.SummarizeStage | utils/gap_analyzer.py:189-198 | the per-stage loop sums counts, averages scores and lists gap personas in matrix order |
| GapAnalysis.GapAnalyzer.GetPersonaSummary | utils/gap_analyzer.py:203-235 | one entry per matrix row, keys distinct and in matrix order, each the row's total, rounded mean, gap stages and strongest stage |
| GapAnalysis.GapAnalyzer.SummarizePersona | utils/gap_analyzer.py:208-231 | the per-persona loop sums the counts, averages the scores, lists the gap stages and keeps the first stage of greatest positive score |
| PersonaManagement.BlankIsNotHeader | utils/persona_manager.py:111-116 | a blank line never opens a persona |
| PersonaManagement.HeaderNameAfterLastColon | utils/persona_manager.py:120 | a header with ':' is named by the stripped text after its last ':' |
| PersonaManagement.Classify | utils/persona_manager.py:115-120 | a line is a header exactly when its lower-case form contains an indicator, and then carries the header name |
| PersonaManagement.KindsAt | utils/persona_manager.py:109-110 | each line is classified after stripping |
| PersonaManagement.OpenedSnoc | utils/persona_manager.py:116-129 | a header line opens one new persona and any other line opens none |
| PersonaManagement.OpenedCount | utils/persona_manager.py:116-132 | the parser yields one persona per header line |
| PersonaManagement.OpenedFrom | utils/persona_manager.py:116-132 | the personas yielded are exactly the named personas of the header lines |
| PersonaManagement.FallbackCount | utils/persona_manager.py:100-148 | the result has one persona per header line, or exactly one when there is none |
| PersonaManagement.FallbackGeneric | utils/persona_manager.py:134-146 | with no header the result is the single "Extracted Persona", role "Unknown", described by the text's first 500 characters |
| PersonaManagement.FallbackFromHeaders | utils/persona_manager.py:116-132 | with headers, each persona comes from a header, has a name, no role and empty lists |
| PersonaManagement.FirstMatch | utils/persona_manager.py:158-163 | the lookup finds the first persona whose name matches case-insensitively, and none exactly when no name matches |
| PersonaManagement.LookupIgnoresCase | utils/persona_manager.py:161 | looking up a name or its lower-case form finds the same persona |
| PersonaManagement.ExtractedTexts | utils/persona_manager.py:89-92 | after extraction each extracted name maps to the document and other entries are unchanged |
| PersonaManagement.PersonaManager.constructor | utils/persona_manager.py:26-29 | a new store has no personas and no texts |
| PersonaManagement.PersonaManager.LoadDefaultPersonas | utils/persona_manager.py:31-33 | the roster becomes the three default personas |
| PersonaManagement.PersonaManager.ScanLines | utils/persona_manager.py:106-132 | the line loop's finished and pending personas are exactly the personas the headers open |
| PersonaManagement.PersonaManager.FallbackPersonaExtraction | utils/persona_manager.py:100-148 | the fallback parser returns the fallback persona list |
| PersonaManagement.PersonaManager.RecordSourceText | utils/persona_manager.py:90-92 | the loop maps every extracted name to the document |
| PersonaManagement.PersonaManager.ExtractPersonasFromText | utils/persona_manager.py:35-98 | a decoded answer is returned and its names are mapped to the document; otherwise the fallback list is returned and the texts are untouched |
| PersonaManagement.PersonaManager.AddPersona | utils/persona_manager.py:150-152 | exactly one persona is appended; earlier personas are unchanged |
| PersonaManagement.PersonaManager.AddPersonas | utils/persona_manager.py:154-156 | the given personas are appended in order; earlier personas are unchanged |
| PersonaManagement.PersonaManager.GetPersonaByName | utils/persona_manager.py:158-163 | a persona whose name matches case-insensitively, or none exactly when no name matches |
| PersonaManagement.PersonaManager.GetPersonaNames | utils/persona_manager.py:169-171 | one name per persona in roster order, "Unknown" for a missing name |
| PersonaManagement.PersonaManager.ClearPersonas | utils/persona_manager.py:173-176 | both the roster and the texts are empty afterwards |
| PersonaManagement.PersonaManager.ToDict | utils/persona_manager.py:254-259 | importing the export restores the roster and the texts |
| PersonaManagement.PersonaManager.FromDict | utils/persona_manager.py:261-264 | the roster and texts become the snapshot's, empty for a missing key |
| StrategyGeneration.ContentTypeIsStagePrimary | utils/strategy_generator.py:175-179 | decision → case_study, consideration → whitepaper, awareness → blog_post; each is its stage's first listed content type and no two stages share one |
| StrategyGeneration.PriorityLabel | utils/strategy_generator.py:186 | the label is "high" exactly when the priority exceeds 70, and "medium" otherwise |
| StrategyGeneration.GapLabel | utils/strategy_generator.py:186 | a gap is labelled "high" unless it is an awareness gap scoring 30 or more |
| StrategyGeneration.TopOf | utils/strategy_generator.py:174 | `gaps[:5]` is a prefix of min(5, n) gaps |
| StrategyGeneration.PriorityContentFacts | utils/strategy_generator.py:173-191 | min(5, n) recommendations; entry i copies gap i's persona and stage, has its stage's type, is "high" iff priority > 70, no topics and medium effort |
| StrategyGeneration.CollectPriorityContent | utils/strategy_generator.py:173-191 | the loop builds exactly those recommendations |
| StrategyGeneration.ReadCountsRoundTrip | utils/strategy_generator.py:194 | two numbers written into a sentence can be read back |
| StrategyGeneration.SummaryRoundTrip | utils/strategy_generator.py:194 | the executive summary states the number of gaps and of strengths, which read back exactly |
| StrategyGeneration.SummaryInjective | utils/strategy_generator.py:194 | different counts give different executive summaries |
| StrategyGeneration.EmptyCalendarShape | utils/strategy_generator.py:204-208 | the calendar has exactly month_1..month_3, all empty |
| StrategyGeneration.FallbackFails | utils/strategy_generator.py:209-217 | the fallback fails exactly when some persona has no name |
| StrategyGeneration.FallbackAdvice | utils/strategy_generator.py:209-217 | one advice entry per distinct persona name, each the manual-review advice |
| StrategyGeneration.FallbackPlaceholders | utils/strategy_generator.py:196-226 | the empty calendar, one improvement, one quick win, one metric and no long-term initiatives |
| StrategyGeneration.FallbackContent | utils/strategy_generator.py:193-195 | the fallback recommends the top gaps, and its summary reads back as the gap and strength counts |
| StrategyGeneration.GenerateRouting | utils/strategy_generator.py:38-39 | without a client, on a raised call or an undecodable answer the result is the fallback; otherwise the decoded strategy |
| UploadSection.LabelInjective | components/upload_section.py:128-141 | the seven labels are pairwise different |
| UploadSection.DetectByRules | components/upload_section.py:124-141 | the detector equals the first-match rule table applied to the lower-cased name |
| UploadSection.FirstRuleAt | components/upload_section.py:128-137 | in a table of distinct kinds, rule i decides exactly when it matches and no earlier rule does |
| UploadSection.FirstRuleNoMatch | components/upload_section.py:138-141 | when no keyword rule matches, a `.pdf` suffix gives document and anything else unknown |
| UploadSection.FirstRuleSuffix | components/upload_section.py:138-141 | document or unknown is returned only when no keyword rule matches |
| UploadSection.DetectIgnoresCase | components/upload_section.py:126 | names equal up to case get the same label |
| UploadSection.DetectLowered | components/upload_section.py:126 | lower-casing a name first does not change its label |
| UploadSection.CaseStudyFirst | components/upload_section.py:128-129 | case_study exactly when the name contains both "case" and "study", whatever else it contains |
| UploadSection.DetectKeywordKind | components/upload_section.py:128-137 | whitepaper, ebook, sales_deck and email_template each win exactly when their keywords match and no earlier rule does |
| UploadSection.DetectSuffixKind | components/upload_section.py:138-141 | document or unknown exactly when no keyword matches; then document iff the name ends in ".pdf" |
| UploadSection.DetectLabel | components/upload_section.py:124-141 | the label is always one of the seven |

## Left out

- Language-model calls: the prompts, `messages.create`, and `json.loads`. The client is a flag, a reply is either a raise or a text, and decoding is a finite table from cleaned text to a record. The routing around them is modelled; their content is not.
- A JSON `null` for a key: `get(key, default)` returns `None` then, not the default. The model treats a key as present with a value or absent.
- GapAnalysis.ItemOf: the analyzer always writes `original_title` and `original_source` (utils/content_analyzer.py:101-102, 154-155), with `None` when the content had no title, as for a web page without one. The source then stores `None` in the matrix item. The model stores "Untitled" and "" instead, because it treats a `None` value as a missing key.
- `PersonaManager.get_persona_summary` (utils/persona_manager.py:178-194), `chat_about_persona`, `generate_content_brief`, `suggest_content_repurposing`: language-model calls or prompt text. `get_all_personas` and `export_analysis`/`export_matrix` only return a stored field.
- The broken duplicate class header at utils/persona_manager.py lines 14-24 and the construction of the OpenAI and Anthropic clients: configuration and I/O.
- Unicode case folding and white space: `lower()` and `strip()`/`split()` are ASCII-only here.
- Streamlit UI, file and URL upload, PDF and web scraping, `setup.py`: display and I/O.
- Floating point: scores, averages and percentages are reals, and `round(x, 1)` is half-up. Python's binary floats and banker's rounding on exact halves are not modelled.
- The awareness keywords of `_fallback_analysis` are defined but never consulted by the code, so they are not modelled.
- Fences.CleanFences: follows `split(fence)[1]` exactly, so a "```json" directly followed by another fence gives the empty text between them, as in the source.
- Fences.CleanFencesJson: the "text up to the next fence" reading is stated only when no "````json" follows the marker. With that overlap the source's split keeps the backticks before the later marker (`Fences.CleanFencesOverlap`), and `CleanFences` models that split.
- ContentAnalysis.ContentAnalyzer.BatchAnalyze: the source appends each result inside the loop. The model appends the whole result list after the loop; the final state is the same.
- StrategyGeneration.RecommendationFor: the title, rationale and suggested-angle strings are built but only the structured fields are stated.
- StrategyGeneration.FallbackStrategy: the calendar items are not modelled beyond the three empty months.
- PersonaManagement.PersonaManager.ExtractPersonasFromText: the `source_name` argument is unused by the source and not modelled.
- PersonaManagement.PersonaManager.FallbackPersonaExtraction: written as the line loop `ScanLines` plus the final "no persona found" step, which the source has in one function.
