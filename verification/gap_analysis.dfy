/**
 * The persona x funnel-stage coverage matrix of `GapAnalyzer`.
 *
 * The matrix is an insertion-ordered dictionary from persona name to a row
 * of three cells, one per stage in the fixed order awareness, consideration,
 * decision. A cell's `content_count` only ever grows by 1 or by 0.5, so it
 * is kept in half-units. Scores and averages are reals, rounded with
 * `Round1`.
 */
module GapAnalysis {
  import opened Wrappers
  import opened Dicts
  import opened Rounding
  import opened Records
  import opened Config

  /** A `{title, source, quality}` entry of a cell's `content_items`. */
  datatype Item = Item(title: string, source: string, quality: real)

  datatype Status = Strong | Moderate | Gap

  /** A matrix cell; `halfCount` is `content_count` counted in halves. */
  datatype Cell = Cell(halfCount: nat, items: seq<Item>, avgQuality: real, score: real, status: Status)

  /** The three cells of one persona. */
  datatype Row = Row(awareness: Cell, consideration: Cell, decision: Cell) {
    function At(s: Stage): Cell {
      match s
      case Awareness => awareness
      case Consideration => consideration
      case Decision => decision
    }

    function With(s: Stage, c: Cell): (r: Row)
      ensures r.At(s) == c
      ensures forall t :: t != s ==> r.At(t) == At(t)
    {
      match s
      case Awareness => this.(awareness := c)
      case Consideration => this.(consideration := c)
      case Decision => this.(decision := c)
    }
  }

  type Matrix = Dict<string, Row>

  /** The cell `matrix[name][s]`, if `name` is a row of the matrix. */
  function CellOf(m: Matrix, name: string, s: Stage): (r: Option<Cell>)
    ensures r.Some? <==> name in Keys(m)
  {
    match Get(m, name)
    case Some(row) => Some(row.At(s))
    case None => None
  }

  // ---------------------------------------------------------------------
  // A fresh matrix (`_initialize_matrix`)
  // ---------------------------------------------------------------------

  const EmptyCell: Cell := Cell(0, [], 0.0, 0.0, Gap)
  const EmptyRow: Row := Row(EmptyCell, EmptyCell, EmptyCell)

  /** One empty row per persona name; a repeated name keeps its first position. */
  function FreshMatrix(names: seq<string>): Matrix {
    FromKeys(names, EmptyRow)
  }

  /** Every named persona has the three empty cells, and no other name has a row. */
  lemma FreshMatrixRows(names: seq<string>, k: string)
    ensures Get(FreshMatrix(names), k) == if k in names then Some(EmptyRow) else None
  {
    FromKeysGet(names, EmptyRow, k);
  }

  /** One more persona of the roster: its name is stored with an empty row. */
  lemma FreshStep(ps: seq<Persona>, i: nat, rows: Matrix)
    requires i < |ps| && rows == FreshMatrix(Names(ps)[..i])
    ensures Put(rows, PersonaName(ps[i]), EmptyRow) == FreshMatrix(Names(ps)[..i + 1])
  {
    var names := Names(ps);
    assert names[..i + 1][..i] == names[..i] && names[i] == PersonaName(ps[i]);
  }

  lemma FreshConsistent(names: seq<string>)
    ensures Consistent(FreshMatrix(names))
  {
    assert RowConsistent(EmptyRow);
  }

  // ---------------------------------------------------------------------
  // Crediting records (`analyze_coverage`, the loop body)
  // ---------------------------------------------------------------------

  /** `content.get("primary_persona", "Unknown")`. */
  function PrimaryOf(r: Record): string {
    r.primaryPersona.GetOr("Unknown")
  }

  /** The stage `content.get("funnel_stage", "awareness")` names, if it is one of the three. */
  function StageOf(r: Record): Option<Stage> {
    ParseStage(r.funnelStage.GetOr("awareness"))
  }

  /** The item appended for a record, with the defaults for missing keys. */
  function ItemOf(r: Record): Item {
    Item(r.originalTitle.GetOr("Untitled"), r.originalSource.GetOr(""), r.qualityScore.GetOr(50.0))
  }

  /** `n` halves more content. */
  function AddHalves(c: Cell, n: nat): Cell {
    c.(halfCount := c.halfCount + n)
  }

  /** One more content item, counted as a whole. */
  function AddItem(c: Cell, it: Item): Cell {
    c.(halfCount := c.halfCount + 2, items := c.items + [it])
  }

  /** The primary persona's cell gains one item, when both persona and stage have a cell. */
  function CreditPrimary(m: Matrix, r: Record): Matrix {
    var name := PrimaryOf(r);
    match (Get(m, name), StageOf(r))
    case (Some(row), Some(s)) => Put(m, name, row.With(s, AddItem(row.At(s), ItemOf(r))))
    case _ => m
  }

  /** One secondary persona's cell gains half a count, when it has a cell. */
  function CreditSecondary(m: Matrix, name: string, stage: Option<Stage>): Matrix {
    match (Get(m, name), stage)
    case (Some(row), Some(s)) => Put(m, name, row.With(s, AddHalves(row.At(s), 1)))
    case _ => m
  }

  function CreditSecondaries(m: Matrix, names: seq<string>, stage: Option<Stage>): Matrix {
    if names == [] then m
    else CreditSecondary(CreditSecondaries(m, names[..|names| - 1], stage), names[|names| - 1], stage)
  }

  lemma CreditSecondariesSnoc(m: Matrix, names: seq<string>, k: nat, stage: Option<Stage>)
    requires k < |names|
    ensures CreditSecondaries(m, names[..k + 1], stage)
      == CreditSecondary(CreditSecondaries(m, names[..k], stage), names[k], stage)
  {
    assert names[..k + 1][..k] == names[..k];
  }

  /** What one record does to the matrix. */
  function AddRecord(m: Matrix, r: Record): Matrix {
    CreditSecondaries(CreditPrimary(m, r), r.secondaryPersonas, StageOf(r))
  }

  /** The records credited in order. */
  function Aggregate(m: Matrix, rs: seq<Record>): Matrix {
    if rs == [] then m else AddRecord(Aggregate(m, rs[..|rs| - 1]), rs[|rs| - 1])
  }

  /**
   * What one record does to one cell, read off directly: at the record's
   * stage the primary persona's cell gains an item and a whole count, and
   * each mention among the secondaries adds half a count without an item.
   */
  function RecordEffect(c: Cell, r: Record, k: string, t: Stage): (e: Cell)
    ensures e.halfCount == c.halfCount
      + (if StageOf(r) == Some(t) then (if PrimaryOf(r) == k then 2 else 0) + Occurrences(r.secondaryPersonas, k) else 0)
    ensures e.items == if StageOf(r) == Some(t) && PrimaryOf(r) == k then c.items + [ItemOf(r)] else c.items
    ensures e.avgQuality == c.avgQuality && e.score == c.score && e.status == c.status
  {
    if StageOf(r) != Some(t) then c
    else AddHalves(if PrimaryOf(r) == k then AddItem(c, ItemOf(r)) else c, Occurrences(r.secondaryPersonas, k))
  }

  lemma CreditPrimaryCell(m: Matrix, r: Record, k: string, t: Stage)
    ensures Keys(CreditPrimary(m, r)) == Keys(m)
    ensures CellOf(CreditPrimary(m, r), k, t) ==
      if k in Keys(m) && k == PrimaryOf(r) && StageOf(r) == Some(t)
      then Some(AddItem(CellOf(m, k, t).value, ItemOf(r)))
      else CellOf(m, k, t)
  {
    var name := PrimaryOf(r);
    match (Get(m, name), StageOf(r)) {
      case (Some(row), Some(s)) =>
        PutKeys(m, name, row.With(s, AddItem(row.At(s), ItemOf(r))));
      case _ =>
    }
  }

  lemma CreditSecondaryCell(m: Matrix, name: string, stage: Option<Stage>, k: string, t: Stage)
    ensures Keys(CreditSecondary(m, name, stage)) == Keys(m)
    ensures CellOf(CreditSecondary(m, name, stage), k, t) ==
      if k in Keys(m) && k == name && stage == Some(t)
      then Some(AddHalves(CellOf(m, k, t).value, 1))
      else CellOf(m, k, t)
  {
    match (Get(m, name), stage) {
      case (Some(row), Some(s)) =>
        PutKeys(m, name, row.With(s, AddHalves(row.At(s), 1)));
      case _ =>
    }
  }

  lemma {:induction false} CreditSecondariesCell(m: Matrix, names: seq<string>, stage: Option<Stage>, k: string, t: Stage)
    ensures Keys(CreditSecondaries(m, names, stage)) == Keys(m)
    ensures CellOf(CreditSecondaries(m, names, stage), k, t) ==
      if k in Keys(m) && stage == Some(t)
      then Some(AddHalves(CellOf(m, k, t).value, Occurrences(names, k)))
      else CellOf(m, k, t)
  {
    if names != [] {
      var init, x := names[..|names| - 1], names[|names| - 1];
      var a := CreditSecondaries(m, init, stage);
      CreditSecondariesCell(m, init, stage, k, t);
      CreditSecondaryCell(a, x, stage, k, t);
      if k in Keys(m) && stage == Some(t) {
        var c := CellOf(m, k, t).value;
        assert AddHalves(AddHalves(c, Occurrences(init, k)), if x == k then 1 else 0)
            == AddHalves(c, Occurrences(names, k));
      }
    }
  }

  /**
   * Crediting one record changes no key, and changes each cell exactly as
   * `RecordEffect` says; in particular secondaries are credited whether or
   * not the primary persona has a row, and no other cell changes.
   */
  lemma AddRecordCell(m: Matrix, r: Record, k: string, t: Stage)
    ensures Keys(AddRecord(m, r)) == Keys(m)
    ensures CellOf(AddRecord(m, r), k, t) ==
      if k in Keys(m) then Some(RecordEffect(CellOf(m, k, t).value, r, k, t)) else None
  {
    CreditPrimaryCell(m, r, k, t);
    CreditSecondariesCell(CreditPrimary(m, r), r.secondaryPersonas, StageOf(r), k, t);
  }

  /** The half-counts a record list credits to cell (k, t). */
  function CreditsFor(rs: seq<Record>, k: string, t: Stage): nat {
    if rs == [] then 0
    else
      var r := rs[|rs| - 1];
      CreditsFor(rs[..|rs| - 1], k, t)
        + (if StageOf(r) == Some(t) then (if PrimaryOf(r) == k then 2 else 0) + Occurrences(r.secondaryPersonas, k) else 0)
  }

  /** The items a record list appends to cell (k, t), in record order. */
  function ItemsFor(rs: seq<Record>, k: string, t: Stage): seq<Item> {
    if rs == [] then []
    else
      var r := rs[|rs| - 1];
      ItemsFor(rs[..|rs| - 1], k, t) + (if StageOf(r) == Some(t) && PrimaryOf(r) == k then [ItemOf(r)] else [])
  }

  /** A cell with the credits and items of a record list added. */
  function Credited(c: Cell, rs: seq<Record>, k: string, t: Stage): Cell {
    c.(halfCount := c.halfCount + CreditsFor(rs, k, t), items := c.items + ItemsFor(rs, k, t))
  }

  /** Crediting a list is crediting its last record after the rest. */
  lemma CreditedStep(c: Cell, rs: seq<Record>, k: string, t: Stage)
    requires rs != []
    ensures Credited(c, rs, k, t) == RecordEffect(Credited(c, rs[..|rs| - 1], k, t), rs[|rs| - 1], k, t)
  {
    var init, r := rs[..|rs| - 1], rs[|rs| - 1];
    var e := RecordEffect(Credited(c, init, k, t), r, k, t);
    assert e.items == c.items + ItemsFor(rs, k, t);
  }

  lemma {:induction false} AggregateKeys(m: Matrix, rs: seq<Record>)
    ensures Keys(Aggregate(m, rs)) == Keys(m)
  {
    if rs != [] {
      AggregateKeys(m, rs[..|rs| - 1]);
      AddRecordCell(Aggregate(m, rs[..|rs| - 1]), rs[|rs| - 1], "", Awareness);
    }
  }

  /** Aggregating a record list adds to each cell exactly what the records credit it. */
  lemma {:induction false} AggregateCell(m: Matrix, rs: seq<Record>, k: string, t: Stage)
    requires k in Keys(m)
    ensures CellOf(Aggregate(m, rs), k, t) == Some(Credited(CellOf(m, k, t).value, rs, k, t))
  {
    var c := CellOf(m, k, t).value;
    if rs == [] {
      assert c.items + [] == c.items;
    } else {
      var init, r := rs[..|rs| - 1], rs[|rs| - 1];
      var a := Aggregate(m, init);
      var before := Credited(c, init, k, t);
      assert Aggregate(m, rs) == AddRecord(a, r);
      assert CellOf(a, k, t) == Some(before) && k in Keys(a) by {
        AggregateCell(m, init, k, t);
        AggregateKeys(m, init);
      }
      AddRecordCell(a, r, k, t);
      CreditedStep(c, rs, k, t);
    }
  }

  // ---------------------------------------------------------------------
  // Scoring (`_calculate_scores`)
  // ---------------------------------------------------------------------

  const MaxContentPerCell: real := 5.0

  /** `min(100, content_count / 5 * 100)`. */
  function Density(halfCount: nat): (d: real)
    ensures 0.0 <= d <= 100.0
    ensures halfCount >= 10 ==> d == 100.0
    ensures halfCount < 10 ==> d == halfCount as real * 10.0
  {
    var raw := (halfCount as real / 2.0) / MaxContentPerCell * 100.0;
    if raw < 100.0 then raw else 100.0
  }

  function QualitySum(items: seq<Item>): real {
    if items == [] then 0.0 else QualitySum(items[..|items| - 1]) + items[|items| - 1].quality
  }

  predicate QualitiesInRange(items: seq<Item>) {
    forall i :: 0 <= i < |items| ==> 0.0 <= items[i].quality <= 100.0
  }

  lemma {:induction false} QualitySumBounds(items: seq<Item>)
    requires QualitiesInRange(items)
    ensures 0.0 <= QualitySum(items) <= 100.0 * |items| as real
  {
    if items != [] {
      QualitySumBounds(items[..|items| - 1]);
    }
  }

  /** The mean item quality, 0 for a cell without items. */
  function AvgQuality(items: seq<Item>): (a: real)
    ensures items == [] ==> a == 0.0
    ensures QualitiesInRange(items) ==> 0.0 <= a <= 100.0
  {
    if items == [] then 0.0
    else
      var a := QualitySum(items) / |items| as real;
      assert QualitiesInRange(items) ==> 0.0 <= a <= 100.0 by {
        if QualitiesInRange(items) {
          QualitySumBounds(items);
        }
      }
      a
  }

  function CoverageScore(halfCount: nat, items: seq<Item>): real {
    Round1(Density(halfCount) * 0.6 + AvgQuality(items) * 0.4)
  }

  /** More content never lowers the score. */
  lemma ScoreMonotone(h1: nat, h2: nat, items: seq<Item>)
    requires h1 <= h2
    ensures CoverageScore(h1, items) <= CoverageScore(h2, items)
  {
    Round1Monotone(Density(h1) * 0.6 + AvgQuality(items) * 0.4, Density(h2) * 0.6 + AvgQuality(items) * 0.4);
  }

  /** From five pieces of content on, more content does not change the score. */
  lemma ScoreSaturates(h1: nat, h2: nat, items: seq<Item>)
    requires 10 <= h1 && 10 <= h2
    ensures CoverageScore(h1, items) == CoverageScore(h2, items)
  {
  }

  /** With qualities in 0..100 the score stays in 0..100. */
  lemma ScoreBounded(h: nat, items: seq<Item>)
    requires QualitiesInRange(items)
    ensures 0.0 <= CoverageScore(h, items) <= 100.0
  {
    Round1Within(Density(h) * 0.6 + AvgQuality(items) * 0.4, 0, 1000);
  }

  /** The thresholds of SCORING_THRESHOLDS. */
  function StatusOf(score: real): (st: Status)
    ensures st == Strong <==> score >= StrongThreshold
    ensures st == Moderate <==> ModerateThreshold <= score < StrongThreshold
    ensures st == Gap <==> score < ModerateThreshold
  {
    if score >= StrongThreshold then Strong
    else if score >= ModerateThreshold then Moderate
    else Gap
  }

  /** The status a cell carries agrees with its score. */
  predicate CellConsistent(c: Cell) {
    c.status == StatusOf(c.score)
  }

  predicate RowConsistent(row: Row) {
    CellConsistent(row.awareness) && CellConsistent(row.consideration) && CellConsistent(row.decision)
  }

  predicate Consistent(m: Matrix) {
    forall i :: 0 <= i < |m| ==> RowConsistent(m[i].1)
  }

  /** The scored cell keeps its count and items and carries a status that agrees with its score. */
  function ScoreCell(c: Cell): (r: Cell)
    ensures r.halfCount == c.halfCount && r.items == c.items
    ensures CellConsistent(r)
  {
    var score := CoverageScore(c.halfCount, c.items);
    Cell(c.halfCount, c.items, AvgQuality(c.items), score, StatusOf(score))
  }

  function ScoreRow(row: Row): (r: Row)
    ensures RowConsistent(r)
  {
    Row(ScoreCell(row.awareness), ScoreCell(row.consideration), ScoreCell(row.decision))
  }

  /** Every cell scored; the keys and their order are untouched. */
  function ScoreMatrix(m: Matrix): (r: Matrix)
    ensures Keys(r) == Keys(m)
    ensures Consistent(r)
    ensures forall i :: 0 <= i < |m| ==> r[i].1 == ScoreRow(m[i].1)
  {
    if m == [] then []
    else
      KeysCons(m);
      var r := [(m[0].0, ScoreRow(m[0].1))] + ScoreMatrix(m[1..]);
      KeysCons(r);
      assert r[1..] == ScoreMatrix(m[1..]);
      r
  }

  /** Entry by entry: the same name, its row scored. */
  lemma ScoreMatrixEntries(m: Matrix)
    ensures |ScoreMatrix(m)| == |m|
    ensures forall j :: 0 <= j < |m| ==> ScoreMatrix(m)[j] == (m[j].0, ScoreRow(m[j].1))
  {
    var sm := ScoreMatrix(m);
    assert |Keys(sm)| == |Keys(m)|;
    forall j | 0 <= j < |m| ensures sm[j] == (m[j].0, ScoreRow(m[j].1)) {
      assert sm[j].0 == Keys(sm)[j] == Keys(m)[j] == m[j].0;
    }
  }

  lemma {:induction false} ScoreMatrixCell(m: Matrix, k: string, t: Stage)
    ensures CellOf(ScoreMatrix(m), k, t) == if k in Keys(m) then Some(ScoreCell(CellOf(m, k, t).value)) else None
  {
    if m != [] && m[0].0 != k {
      KeysCons(m);
      assert ScoreMatrix(m)[1..] == ScoreMatrix(m[1..]);
      ScoreMatrixCell(m[1..], k, t);
    }
  }

  /** The matrix `analyze_coverage` leaves behind. */
  function Coverage(personas: seq<Persona>, records: seq<Record>): Matrix {
    ScoreMatrix(Aggregate(FreshMatrix(Names(personas)), records))
  }

  /** The rows of the coverage matrix are the persona names, first occurrence first. */
  lemma CoverageKeys(personas: seq<Persona>, records: seq<Record>)
    ensures Keys(Coverage(personas, records)) == Dedup(Names(personas))
  {
    AggregateKeys(FreshMatrix(Names(personas)), records);
  }

  /**
   * The coverage matrix cell by cell: each named persona's cell holds what
   * the records credit it and nothing else, scored.
   */
  lemma {:induction false} CoverageCell(personas: seq<Persona>, records: seq<Record>, k: string, t: Stage)
    requires k in Names(personas)
    ensures CellOf(Coverage(personas, records), k, t) ==
      Some(ScoreCell(Cell(CreditsFor(records, k, t), ItemsFor(records, k, t), 0.0, 0.0, Gap)))
  {
    FreshCoverageCell(Names(personas), records, k, t);
  }

  lemma {:induction false} FreshCoverageCell(names: seq<string>, records: seq<Record>, k: string, t: Stage)
    requires k in names
    ensures CellOf(ScoreMatrix(Aggregate(FreshMatrix(names), records)), k, t) ==
      Some(ScoreCell(Cell(CreditsFor(records, k, t), ItemsFor(records, k, t), 0.0, 0.0, Gap)))
  {
    var m1 := Aggregate(FreshMatrix(names), records);
    FreshAggregateCell(names, records, k, t);
    ScoreMatrixCell(m1, k, t);
  }

  lemma {:induction false} FreshAggregateCell(names: seq<string>, records: seq<Record>, k: string, t: Stage)
    requires k in names
    ensures CellOf(Aggregate(FreshMatrix(names), records), k, t) ==
      Some(Cell(CreditsFor(records, k, t), ItemsFor(records, k, t), 0.0, 0.0, Gap))
  {
    FreshMatrixRows(names, k);
    AggregateEmptyCell(FreshMatrix(names), records, k, t);
  }

  /** Aggregating onto an empty cell leaves exactly the credits and items of the records. */
  lemma AggregateEmptyCell(m: Matrix, records: seq<Record>, k: string, t: Stage)
    requires CellOf(m, k, t) == Some(EmptyCell)
    ensures CellOf(Aggregate(m, records), k, t) ==
      Some(Cell(CreditsFor(records, k, t), ItemsFor(records, k, t), 0.0, 0.0, Gap))
  {
    AggregateCell(m, records, k, t);
    CreditedEmpty(records, k, t);
  }

  lemma CreditedEmpty(records: seq<Record>, k: string, t: Stage)
    ensures Credited(EmptyCell, records, k, t) == Cell(CreditsFor(records, k, t), ItemsFor(records, k, t), 0.0, 0.0, Gap)
  {
    assert [] + ItemsFor(records, k, t) == ItemsFor(records, k, t);
  }

  /** One decision item of quality 80 gives score 44.0: a moderate cell. */
  lemma OneDecisionItemIsModerate(title: string, source: string)
    ensures ScoreCell(AddItem(EmptyCell, Item(title, source, 80.0))).score == 44.0
    ensures ScoreCell(AddItem(EmptyCell, Item(title, source, 80.0))).status == Moderate
  {
    var items := [Item(title, source, 80.0)];
    assert QualitySum(items) == 80.0 by {
      assert items[..0] == [];
    }
    Round1OfTenths(440);
  }

  // ---------------------------------------------------------------------
  // Gaps, strengths and moderate areas
  // ---------------------------------------------------------------------

  /** A cell together with its persona and stage. */
  datatype Slot = Slot(persona: string, stage: Stage, cell: Cell)

  function RowSlots(name: string, row: Row): (ss: seq<Slot>)
    ensures |ss| == 3
    ensures forall j :: 0 <= j < 3 ==> ss[j] == Slot(name, Stages[j], row.At(Stages[j]))
  {
    [Slot(name, Awareness, row.awareness), Slot(name, Consideration, row.consideration), Slot(name, Decision, row.decision)]
  }

  /** Every cell, persona by persona and stage by stage: the order the list builders visit them. */
  function Slots(m: Matrix): (ss: seq<Slot>)
    ensures |ss| == 3 * |m|
  {
    if m == [] then [] else Slots(m[..|m| - 1]) + RowSlots(m[|m| - 1].0, m[|m| - 1].1)
  }

  lemma {:induction false} SlotsConsistent(m: Matrix)
    requires Consistent(m)
    ensures forall i :: 0 <= i < |Slots(m)| ==> CellConsistent(Slots(m)[i].cell)
  {
    if m != [] {
      var init := m[..|m| - 1];
      assert Consistent(init);
      SlotsConsistent(init);
      assert RowConsistent(m[|m| - 1].1);
    }
  }

  /** The slots with a given status, in order. */
  function WithStatus(ss: seq<Slot>, st: Status): (r: seq<Slot>)
    ensures |r| <= |ss|
    ensures forall x :: x in r <==> x in ss && x.cell.status == st
  {
    if ss == [] then []
    else
      assert ss == ss[..|ss| - 1] + [ss[|ss| - 1]];
      WithStatus(ss[..|ss| - 1], st) + (if ss[|ss| - 1].cell.status == st then [ss[|ss| - 1]] else [])
  }

  /** Every cell has exactly one of the three statuses. */
  lemma {:induction false} StatusPartition(ss: seq<Slot>)
    ensures |WithStatus(ss, Gap)| + |WithStatus(ss, Moderate)| + |WithStatus(ss, Strong)| == |ss|
  {
    if ss != [] {
      StatusPartition(ss[..|ss| - 1]);
    }
  }

  /** `_calculate_priority`: 100 minus the score, plus a stage bonus, capped at 100. */
  function StageBonus(s: Stage): real {
    match s
    case Decision => 20.0
    case Consideration => 10.0
    case Awareness => 0.0
  }

  function Priority(s: Stage, score: real): (p: real)
    ensures p <= 100.0
    ensures score >= StageBonus(s) ==> p == 100.0 - score + StageBonus(s)
    ensures score <= StageBonus(s) ==> p == 100.0
    ensures score < ModerateThreshold ==> 60.0 < p
  {
    var raw := 100.0 - score + StageBonus(s);
    if raw < 100.0 then raw else 100.0
  }

  /**
   * At equal scores the later stage has the higher priority while the cap
   * leaves the consideration bonus intact: above a score of 10.
   */
  lemma PriorityStageOrder(score: real)
    requires score > 10.0
    ensures Priority(Decision, score) > Priority(Consideration, score) > Priority(Awareness, score)
  {
  }

  /**
   * Between 0 and 10 the cap swallows the decision and consideration
   * bonuses alike: those two stages tie at 100, above awareness.
   */
  lemma PriorityPartlyCapped(score: real)
    requires 0.0 < score <= 10.0
    ensures Priority(Decision, score) == Priority(Consideration, score) == 100.0
    ensures Priority(Awareness, score) == 100.0 - score < 100.0
  {
  }

  /** From a score of 0 down the cap erases every stage bonus: all three tie at 100. */
  lemma PriorityCapped(score: real)
    requires score <= 0.0
    ensures Priority(Decision, score) == Priority(Consideration, score) == Priority(Awareness, score) == 100.0
  {
  }

  datatype GapEntry = GapEntry(persona: string, stage: Stage, stageName: string, coverageScore: real, halfCount: nat, priority: real)

  datatype StrengthEntry = StrengthEntry(persona: string, stage: Stage, stageName: string, coverageScore: real, halfCount: nat, topContent: seq<Item>)

  datatype ModerateEntry = ModerateEntry(persona: string, stage: Stage, stageName: string, coverageScore: real, halfCount: nat, improvementPotential: real)

  function GapOf(x: Slot): GapEntry {
    GapEntry(x.persona, x.stage, StageName(x.stage), x.cell.score, x.cell.halfCount, Priority(x.stage, x.cell.score))
  }

  /** `content_items[:3]`. */
  function TopContent(items: seq<Item>): (r: seq<Item>)
    ensures |r| <= 3 && r <= items
    ensures |items| <= 3 ==> r == items
  {
    if |items| <= 3 then items else items[..3]
  }

  function StrengthOf(x: Slot): StrengthEntry {
    StrengthEntry(x.persona, x.stage, StageName(x.stage), x.cell.score, x.cell.halfCount, TopContent(x.cell.items))
  }

  function ModerateOf(x: Slot): ModerateEntry {
    ModerateEntry(x.persona, x.stage, StageName(x.stage), x.cell.score, x.cell.halfCount, 100.0 - x.cell.score)
  }

  /** The gap entries in visiting order, before sorting. */
  function GapList(ss: seq<Slot>): seq<GapEntry> {
    if ss == [] then []
    else GapList(ss[..|ss| - 1]) + (if ss[|ss| - 1].cell.status == Gap then [GapOf(ss[|ss| - 1])] else [])
  }

  function StrengthList(ss: seq<Slot>): seq<StrengthEntry> {
    if ss == [] then []
    else StrengthList(ss[..|ss| - 1]) + (if ss[|ss| - 1].cell.status == Strong then [StrengthOf(ss[|ss| - 1])] else [])
  }

  function ModerateList(ss: seq<Slot>): seq<ModerateEntry> {
    if ss == [] then []
    else ModerateList(ss[..|ss| - 1]) + (if ss[|ss| - 1].cell.status == Moderate then [ModerateOf(ss[|ss| - 1])] else [])
  }

  /** The gap list describes exactly the gap cells, in visiting order. */
  lemma {:induction false} GapListExact(ss: seq<Slot>)
    ensures |GapList(ss)| == |WithStatus(ss, Gap)|
    ensures forall i :: 0 <= i < |GapList(ss)| ==> GapList(ss)[i] == GapOf(WithStatus(ss, Gap)[i])
  {
    if ss != [] {
      GapListExact(ss[..|ss| - 1]);
    }
  }

  /** The strengths describe exactly the strong cells, in visiting order. */
  lemma {:induction false} StrengthListExact(ss: seq<Slot>)
    ensures |StrengthList(ss)| == |WithStatus(ss, Strong)|
    ensures forall i :: 0 <= i < |StrengthList(ss)| ==> StrengthList(ss)[i] == StrengthOf(WithStatus(ss, Strong)[i])
  {
    if ss != [] {
      StrengthListExact(ss[..|ss| - 1]);
    }
  }

  /** The moderate areas describe exactly the moderate cells, in visiting order. */
  lemma {:induction false} ModerateListExact(ss: seq<Slot>)
    ensures |ModerateList(ss)| == |WithStatus(ss, Moderate)|
    ensures forall i :: 0 <= i < |ModerateList(ss)| ==> ModerateList(ss)[i] == ModerateOf(WithStatus(ss, Moderate)[i])
  {
    if ss != [] {
      ModerateListExact(ss[..|ss| - 1]);
    }
  }

  /** On a consistent matrix every gap has a priority in (60, 100]. */
  lemma {:induction false} GapPriorities(ss: seq<Slot>)
    requires forall i :: 0 <= i < |ss| ==> CellConsistent(ss[i].cell)
    ensures forall e :: e in GapList(ss) ==> 60.0 < e.priority <= 100.0
  {
    if ss != [] {
      GapPriorities(ss[..|ss| - 1]);
    }
  }

  /** On a consistent matrix strong cells score at least 70 and moderate ones have potential in (30, 60]. */
  lemma {:induction false} StrengthAndModerateScores(ss: seq<Slot>)
    requires forall i :: 0 <= i < |ss| ==> CellConsistent(ss[i].cell)
    ensures forall e :: e in StrengthList(ss) ==> e.coverageScore >= StrongThreshold && |e.topContent| <= 3
    ensures forall e :: e in ModerateList(ss) ==> 30.0 < e.improvementPotential <= 60.0
  {
    if ss != [] {
      StrengthAndModerateScores(ss[..|ss| - 1]);
    }
  }

  // ---------------------------------------------------------------------
  // The stable sort of `gaps.sort(key=priority, reverse=True)`
  // ---------------------------------------------------------------------

  predicate SortedByPriority(gs: seq<GapEntry>) {
    forall i, j :: 0 <= i < j < |gs| ==> gs[i].priority >= gs[j].priority
  }

  /** The entries of a given priority, in order. */
  function WithPriority(gs: seq<GapEntry>, p: real): seq<GapEntry> {
    if gs == [] then []
    else (if gs[0].priority == p then [gs[0]] else []) + WithPriority(gs[1..], p)
  }

  lemma {:induction false} WithPriorityAppend(a: seq<GapEntry>, b: seq<GapEntry>, p: real)
    ensures WithPriority(a + b, p) == WithPriority(a, p) + WithPriority(b, p)
  {
    if a != [] {
      assert (a + b)[1..] == a[1..] + b;
      WithPriorityAppend(a[1..], b, p);
    } else {
      assert a + b == b;
    }
  }

  lemma {:induction false} WithPriorityAbove(gs: seq<GapEntry>, p: real)
    requires forall i :: 0 <= i < |gs| ==> gs[i].priority < p
    ensures WithPriority(gs, p) == []
  {
    if gs != [] {
      WithPriorityAbove(gs[1..], p);
    }
  }

  /** `x` goes after every entry whose priority is at least its own. */
  function Insert(x: GapEntry, s: seq<GapEntry>): seq<GapEntry> {
    if s == [] then [x]
    else if s[0].priority < x.priority then [x] + s
    else [s[0]] + Insert(x, s[1..])
  }

  lemma {:induction false} InsertPermutes(x: GapEntry, s: seq<GapEntry>)
    ensures multiset(Insert(x, s)) == multiset(s) + multiset{x}
  {
    if s != [] && s[0].priority >= x.priority {
      InsertPermutes(x, s[1..]);
      assert s == [s[0]] + s[1..];
    }
  }

  lemma {:induction false} InsertSorted(x: GapEntry, s: seq<GapEntry>)
    requires SortedByPriority(s)
    ensures SortedByPriority(Insert(x, s))
  {
    if s != [] && s[0].priority >= x.priority {
      var tail := Insert(x, s[1..]);
      InsertSorted(x, s[1..]);
      InsertPermutes(x, s[1..]);
      forall e | e in tail ensures e.priority <= s[0].priority {
        assert e in multiset(tail);
        assert e == x || e in s[1..];
      }
      assert Insert(x, s) == [s[0]] + tail;
    }
  }

  /** Unfolding `WithPriority` once at the front. */
  lemma WithPriorityCons(y: GapEntry, rest: seq<GapEntry>, p: real)
    ensures WithPriority([y] + rest, p) == (if y.priority == p then [y] else []) + WithPriority(rest, p)
  {
    assert ([y] + rest)[1..] == rest;
  }

  /** An entry inserted ahead of all the others leaves no equal-priority entry behind it. */
  lemma InsertFrontStable(x: GapEntry, s: seq<GapEntry>, p: real)
    requires SortedByPriority(s) && s != [] && s[0].priority < x.priority
    ensures WithPriority([x] + s, p) == WithPriority(s, p) + (if x.priority == p then [x] else [])
  {
    WithPriorityCons(x, s, p);
    if x.priority == p {
      WithPriorityAbove(s, p);
    }
  }

  lemma AppendAssoc<T>(a: seq<T>, b: seq<T>, c: seq<T>)
    ensures a + (b + c) == (a + b) + c
  {
  }

  /** Inserting behind the head: the head's contribution stays in front of the rest. */
  lemma InsertBehindStable(x: GapEntry, s: seq<GapEntry>, p: real, own: seq<GapEntry>)
    requires s != [] && s[0].priority >= x.priority
    requires WithPriority(Insert(x, s[1..]), p) == WithPriority(s[1..], p) + own
    ensures WithPriority(Insert(x, s), p) == WithPriority(s, p) + own
  {
    var head: seq<GapEntry> := if s[0].priority == p then [s[0]] else [];
    var tail := Insert(x, s[1..]);
    var rest := WithPriority(s[1..], p);
    calc {
      WithPriority(Insert(x, s), p);
    == { assert Insert(x, s) == [s[0]] + tail; }
      WithPriority([s[0]] + tail, p);
    == { WithPriorityCons(s[0], tail, p); }
      head + WithPriority(tail, p);
    ==
      head + (rest + own);
    == { AppendAssoc(head, rest, own); }
      (head + rest) + own;
    == { WithPriorityCons(s[0], s[1..], p); assert [s[0]] + s[1..] == s; }
      WithPriority(s, p) + own;
    }
  }

  lemma {:induction false} InsertStable(x: GapEntry, s: seq<GapEntry>, p: real)
    requires SortedByPriority(s)
    ensures WithPriority(Insert(x, s), p) == WithPriority(s, p) + (if x.priority == p then [x] else [])
  {
    if s == [] {
      WithPriorityCons(x, [], p);
    } else if s[0].priority < x.priority {
      InsertFrontStable(x, s, p);
    } else {
      assert SortedByPriority(s[1..]);
      InsertStable(x, s[1..], p);
      InsertBehindStable(x, s, p, if x.priority == p then [x] else []);
    }
  }

  /**
   * `sorted(gaps, key=priority, reverse=True)`: insertion of each entry, in
   * order, after every entry of at least its priority.
   */
  function SortByPriority(gs: seq<GapEntry>): seq<GapEntry> {
    if gs == [] then [] else Insert(gs[|gs| - 1], SortByPriority(gs[..|gs| - 1]))
  }

  /** The sorted list is ordered by non-increasing priority. */
  lemma {:induction false} SortSorted(gs: seq<GapEntry>)
    ensures SortedByPriority(SortByPriority(gs))
  {
    if gs != [] {
      SortSorted(gs[..|gs| - 1]);
      InsertSorted(gs[|gs| - 1], SortByPriority(gs[..|gs| - 1]));
    }
  }

  /** The sorted list holds exactly the entries given, as many times each. */
  lemma {:induction false} SortPermutes(gs: seq<GapEntry>)
    ensures multiset(SortByPriority(gs)) == multiset(gs)
  {
    if gs != [] {
      var init, x := gs[..|gs| - 1], gs[|gs| - 1];
      SortPermutes(init);
      InsertPermutes(x, SortByPriority(init));
      assert gs == init + [x];
    }
  }

  /** Entries of equal priority keep their relative order. */
  lemma {:induction false} SortStable(gs: seq<GapEntry>, p: real)
    ensures WithPriority(SortByPriority(gs), p) == WithPriority(gs, p)
  {
    if gs != [] {
      var init, x := gs[..|gs| - 1], gs[|gs| - 1];
      var sorted := SortByPriority(init);
      var own: seq<GapEntry> := if x.priority == p then [x] else [];
      calc {
        WithPriority(SortByPriority(gs), p);
        WithPriority(Insert(x, sorted), p);
      == { SortSorted(init); InsertStable(x, sorted, p); }
        WithPriority(sorted, p) + own;
      == { SortStable(init, p); }
        WithPriority(init, p) + own;
      == { WithPriorityCons(x, [], p); }
        WithPriority(init, p) + WithPriority([x], p);
      == { WithPriorityAppend(init, [x], p); assert gs == init + [x]; }
        WithPriority(gs, p);
      }
    }
  }

  // ---------------------------------------------------------------------
  // Summaries
  // ---------------------------------------------------------------------

  /** `round(part / total * 100, 1) if total > 0 else 0`. */
  function Percent(part: nat, total: nat): (r: real)
    ensures total == 0 ==> r == 0.0
    ensures part <= total ==> 0.0 <= r <= 100.0
  {
    if total == 0 then 0.0
    else if part <= total then
      RatioAtMostOne(part as real, total as real);
      Round1Within(part as real / total as real * 100.0, 0, 1000);
      Round1(part as real / total as real * 100.0)
    else Round1(part as real / total as real * 100.0)
  }

  datatype SummaryStats = SummaryStats(
    totalCells: nat,
    gapCount: nat,
    moderateCount: nat,
    strongCount: nat,
    gapPercentage: real,
    coveragePercentage: real,
    highestPriorityGap: Option<GapEntry>)

  datatype StageSummary = StageSummary(totalHalfCount: nat, avgCoverage: real, personasWithGaps: seq<string>)

  /** The content of one stage, summed over the personas. */
  function StageTotal(m: Matrix, s: Stage): nat {
    if m == [] then 0 else StageTotal(m[..|m| - 1], s) + m[|m| - 1].1.At(s).halfCount
  }

  function StageScoreSum(m: Matrix, s: Stage): real {
    if m == [] then 0.0 else StageScoreSum(m[..|m| - 1], s) + m[|m| - 1].1.At(s).score
  }

  function StageGapPersonas(m: Matrix, s: Stage): seq<string> {
    if m == [] then []
    else StageGapPersonas(m[..|m| - 1], s) + (if m[|m| - 1].1.At(s).status == Gap then [m[|m| - 1].0] else [])
  }

  function StageSummaryOf(m: Matrix, s: Stage): StageSummary {
    StageSummary(StageTotal(m, s), Mean(StageScoreSum(m, s), |m|), StageGapPersonas(m, s))
  }

  /** A persona is listed under a stage exactly when its cell at that stage is a gap. */
  lemma {:induction false} StageGapPersonasExact(m: Matrix, s: Stage, n: string)
    ensures n in StageGapPersonas(m, s) <==> exists i :: 0 <= i < |m| && m[i].0 == n && m[i].1.At(s).status == Gap
  {
    if m != [] {
      var init := m[..|m| - 1];
      StageGapPersonasExact(init, s, n);
      if n in StageGapPersonas(init, s) {
        var i :| 0 <= i < |init| && init[i].0 == n && init[i].1.At(s).status == Gap;
        assert m[i] == init[i];
      }
      if exists i :: 0 <= i < |m| && m[i].0 == n && m[i].1.At(s).status == Gap {
        var i :| 0 <= i < |m| && m[i].0 == n && m[i].1.At(s).status == Gap;
        if i < |init| {
          assert init[i] == m[i];
        }
      }
    }
  }

  datatype PersonaSummary = PersonaSummary(totalHalfCount: nat, avgCoverage: real, stagesWithGaps: seq<Stage>, strongestStage: Option<Stage>)

  /** The running sums over the first `j` stages of a row. */
  function RowTotalUpTo(row: Row, j: nat): nat
    requires j <= 3
  {
    if j == 0 then 0 else RowTotalUpTo(row, j - 1) + row.At(Stages[j - 1]).halfCount
  }

  function RowScoreSumUpTo(row: Row, j: nat): real
    requires j <= 3
  {
    if j == 0 then 0.0 else RowScoreSumUpTo(row, j - 1) + row.At(Stages[j - 1]).score
  }

  function GapStagesUpTo(row: Row, j: nat): seq<Stage>
    requires j <= 3
  {
    if j == 0 then []
    else GapStagesUpTo(row, j - 1) + (if row.At(Stages[j - 1]).status == Gap then [Stages[j - 1]] else [])
  }

  /** The running `(max_score, max_stage)` pair after the first `j` stages, starting from `(0, None)`. */
  function MaxUpTo(row: Row, j: nat): (real, Option<Stage>)
    requires j <= 3
  {
    if j == 0 then (0.0, None)
    else
      var prev := MaxUpTo(row, j - 1);
      var score := row.At(Stages[j - 1]).score;
      if score > prev.0 then (score, Some(Stages[j - 1])) else prev
  }

  function Strongest(row: Row): Option<Stage> {
    MaxUpTo(row, 3).1
  }

  function PersonaSummaryOf(row: Row): PersonaSummary {
    PersonaSummary(RowTotalUpTo(row, 3), Mean(RowScoreSumUpTo(row, 3), 3), GapStagesUpTo(row, 3), Strongest(row))
  }

  lemma {:induction false} MaxUpToSpec(row: Row, j: nat)
    requires j <= 3
    ensures MaxUpTo(row, j).1.None? ==>
      MaxUpTo(row, j).0 == 0.0 && forall k :: 0 <= k < j ==> row.At(Stages[k]).score <= 0.0
    ensures MaxUpTo(row, j).1.Some? ==>
      var s := MaxUpTo(row, j).1.value;
      StageIndex(s) < j && MaxUpTo(row, j).0 == row.At(s).score > 0.0
      && (forall k :: 0 <= k < j ==> row.At(Stages[k]).score <= row.At(s).score)
      && (forall k :: 0 <= k < StageIndex(s) ==> row.At(Stages[k]).score < row.At(s).score)
  {
    if j > 0 {
      MaxUpToSpec(row, j - 1);
    }
  }

  /**
   * The strongest stage is the first stage with the greatest score, provided
   * that score is above 0; there is none when no score is above 0.
   */
  lemma StrongestStage(row: Row)
    ensures Strongest(row).None? <==> forall t :: row.At(t).score <= 0.0
    ensures Strongest(row).Some? ==>
      var s := Strongest(row).value;
      row.At(s).score > 0.0
      && (forall t :: row.At(t).score <= row.At(s).score)
      && (forall t :: StageIndex(t) < StageIndex(s) ==> row.At(t).score < row.At(s).score)
  {
    MaxUpToSpec(row, 3);
    var best := MaxUpTo(row, 3);
    forall t ensures row.At(t).score <= best.0 && (best.1.None? ==> row.At(t).score <= 0.0) {
      assert t == Stages[StageIndex(t)];
    }
    if best.1.Some? {
      var s := best.1.value;
      forall t | StageIndex(t) < StageIndex(s) ensures row.At(t).score < row.At(s).score {
        assert t == Stages[StageIndex(t)];
      }
    }
  }

  /** The content of all cells of the matrix, persona by persona. */
  function PersonaTotals(m: Matrix): nat {
    if m == [] then 0 else PersonaTotals(m[..|m| - 1]) + RowTotalUpTo(m[|m| - 1].1, 3)
  }

  /** The stage roll-up and the persona roll-up account for the same content. */
  lemma {:induction false} RollUpsAgree(m: Matrix)
    ensures StageTotal(m, Awareness) + StageTotal(m, Consideration) + StageTotal(m, Decision) == PersonaTotals(m)
  {
    if m != [] {
      RollUpsAgree(m[..|m| - 1]);
      var row := m[|m| - 1].1;
      assert RowTotalUpTo(row, 3) == row.awareness.halfCount + row.consideration.halfCount + row.decision.halfCount by {
        assert RowTotalUpTo(row, 1) == row.awareness.halfCount;
        assert RowTotalUpTo(row, 2) == RowTotalUpTo(row, 1) + row.consideration.halfCount;
      }
    }
  }

  /** The three lists count the cells of each status, and together every cell. */
  lemma ListCounts(m: Matrix)
    ensures |GapList(Slots(m))| == |WithStatus(Slots(m), Gap)|
    ensures |StrengthList(Slots(m))| == |WithStatus(Slots(m), Strong)|
    ensures |ModerateList(Slots(m))| == |WithStatus(Slots(m), Moderate)|
    ensures |GapList(Slots(m))| + |ModerateList(Slots(m))| + |StrengthList(Slots(m))| == 3 * |m|
  {
    GapListExact(Slots(m));
    StrengthListExact(Slots(m));
    ModerateListExact(Slots(m));
    StatusPartition(Slots(m));
  }

  lemma SortLength(gs: seq<GapEntry>)
    ensures |SortByPriority(gs)| == |gs|
  {
    SortPermutes(gs);
    assert |multiset(SortByPriority(gs))| == |multiset(gs)|;
  }

  /** The head of the sorted list has the highest priority of all. */
  lemma SortedHeadIsMax(gs: seq<GapEntry>)
    requires gs != []
    ensures SortByPriority(gs)[0] in gs
    ensures forall e :: e in gs ==> e.priority <= SortByPriority(gs)[0].priority
  {
    var sorted := SortByPriority(gs);
    SortLength(gs);
    SortSorted(gs);
    SortPermutes(gs);
    assert sorted[0] in multiset(gs);
    forall e | e in gs ensures e.priority <= sorted[0].priority {
      assert e in multiset(sorted);
      var k :| 0 <= k < |sorted| && sorted[k] == e;
    }
  }

  /** The statistics from the cell count, the sorted gaps and the other two list lengths. */
  function StatsOf(totalCells: nat, gaps: seq<GapEntry>, moderate: nat, strong: nat): SummaryStats {
    SummaryStats(totalCells, |gaps|, moderate, strong,
      Percent(|gaps|, totalCells), Percent(strong + moderate, totalCells),
      if |gaps| > 0 then Some(gaps[0]) else None)
  }

  /**
   * `get_summary_stats` on a matrix built for `n` personas: the cell count
   * is `n` times the number of stages, whatever the matrix holds.
   */
  function SummaryOf(m: Matrix, n: nat): SummaryStats {
    StatsOf(n * |Stages|, SortByPriority(GapList(Slots(m))), |ModerateList(Slots(m))|, |StrengthList(Slots(m))|)
  }

  /** The counts are the status classes of the cells; the highest gap is the most urgent one. */
  lemma SummaryCounts(m: Matrix, n: nat)
    ensures SummaryOf(m, n).gapCount == |WithStatus(Slots(m), Gap)|
    ensures SummaryOf(m, n).moderateCount == |WithStatus(Slots(m), Moderate)|
    ensures SummaryOf(m, n).strongCount == |WithStatus(Slots(m), Strong)|
    ensures SummaryOf(m, n).highestPriorityGap.None? <==> SummaryOf(m, n).gapCount == 0
    ensures SummaryOf(m, n).highestPriorityGap.Some? ==>
      SummaryOf(m, n).highestPriorityGap.value in GapList(Slots(m))
      && forall e :: e in GapList(Slots(m)) ==> e.priority <= SummaryOf(m, n).highestPriorityGap.value.priority
  {
    ListCounts(m);
    var gs := GapList(Slots(m));
    SortLength(gs);
    if gs != [] {
      SortedHeadIsMax(gs);
    }
  }

  /**
   * When the matrix has a row for at most `n` personas, the three counts
   * fit in the `3n` cells and both percentages lie in [0, 100]; with a row
   * per persona they fill the cells exactly.
   */
  lemma SummaryBounds(m: Matrix, n: nat)
    requires |m| <= n
    ensures SummaryOf(m, n).gapCount + SummaryOf(m, n).moderateCount + SummaryOf(m, n).strongCount <= SummaryOf(m, n).totalCells
    ensures 0.0 <= SummaryOf(m, n).gapPercentage <= 100.0
    ensures 0.0 <= SummaryOf(m, n).coveragePercentage <= 100.0
    ensures |m| == n ==>
      SummaryOf(m, n).gapCount + SummaryOf(m, n).moderateCount + SummaryOf(m, n).strongCount == SummaryOf(m, n).totalCells
  {
    ListCounts(m);
    SortLength(GapList(Slots(m)));
  }

  // ---------------------------------------------------------------------
  // Steps the list builders take
  // ---------------------------------------------------------------------

  lemma SlotsStep(m: Matrix, i: nat)
    requires i < |m|
    ensures Slots(m[..i + 1]) == Slots(m[..i]) + RowSlots(m[i].0, m[i].1)
  {
    assert m[..i + 1][..i] == m[..i];
  }

  lemma RowSlotsStep(prefix: seq<Slot>, name: string, row: Row, j: nat)
    requires j < 3
    ensures prefix + RowSlots(name, row)[..j + 1] == (prefix + RowSlots(name, row)[..j]) + [Slot(name, Stages[j], row.At(Stages[j]))]
  {
  }

  lemma GapListSnoc(ss: seq<Slot>, x: Slot)
    ensures GapList(ss + [x]) == GapList(ss) + (if x.cell.status == Gap then [GapOf(x)] else [])
  {
    assert (ss + [x])[..|ss|] == ss;
  }

  lemma StrengthListSnoc(ss: seq<Slot>, x: Slot)
    ensures StrengthList(ss + [x]) == StrengthList(ss) + (if x.cell.status == Strong then [StrengthOf(x)] else [])
  {
    assert (ss + [x])[..|ss|] == ss;
  }

  lemma ModerateListSnoc(ss: seq<Slot>, x: Slot)
    ensures ModerateList(ss + [x]) == ModerateList(ss) + (if x.cell.status == Moderate then [ModerateOf(x)] else [])
  {
    assert (ss + [x])[..|ss|] == ss;
  }

  lemma RowStart(prefix: seq<Slot>, name: string, row: Row)
    ensures prefix + RowSlots(name, row)[..0] == prefix
  {
  }

  lemma RowDone(m: Matrix, i: nat)
    requires i < |m|
    ensures Slots(m[..i]) + RowSlots(m[i].0, m[i].1)[..3] == Slots(m[..i + 1])
  {
    assert RowSlots(m[i].0, m[i].1)[..3] == RowSlots(m[i].0, m[i].1);
    SlotsStep(m, i);
  }

  /** One more cell of a row visited by the gap loop. */
  lemma GapStep(prefix: seq<Slot>, name: string, row: Row, j: nat)
    requires j < 3
    ensures GapList(prefix + RowSlots(name, row)[..j + 1])
      == GapList(prefix + RowSlots(name, row)[..j])
        + (if row.At(Stages[j]).status == Gap then [GapOf(Slot(name, Stages[j], row.At(Stages[j])))] else [])
  {
    RowSlotsStep(prefix, name, row, j);
    GapListSnoc(prefix + RowSlots(name, row)[..j], Slot(name, Stages[j], row.At(Stages[j])));
  }

  /** One more cell of a row visited by the strengths loop. */
  lemma StrengthStep(prefix: seq<Slot>, name: string, row: Row, j: nat)
    requires j < 3
    ensures StrengthList(prefix + RowSlots(name, row)[..j + 1])
      == StrengthList(prefix + RowSlots(name, row)[..j])
        + (if row.At(Stages[j]).status == Strong then [StrengthOf(Slot(name, Stages[j], row.At(Stages[j])))] else [])
  {
    RowSlotsStep(prefix, name, row, j);
    StrengthListSnoc(prefix + RowSlots(name, row)[..j], Slot(name, Stages[j], row.At(Stages[j])));
  }

  /** One more cell of a row visited by the moderate loop. */
  lemma ModerateStep(prefix: seq<Slot>, name: string, row: Row, j: nat)
    requires j < 3
    ensures ModerateList(prefix + RowSlots(name, row)[..j + 1])
      == ModerateList(prefix + RowSlots(name, row)[..j])
        + (if row.At(Stages[j]).status == Moderate then [ModerateOf(Slot(name, Stages[j], row.At(Stages[j])))] else [])
  {
    RowSlotsStep(prefix, name, row, j);
    ModerateListSnoc(prefix + RowSlots(name, row)[..j], Slot(name, Stages[j], row.At(Stages[j])));
  }

  function SumOf(xs: seq<real>): real {
    if xs == [] then 0.0 else SumOf(xs[..|xs| - 1]) + xs[|xs| - 1]
  }

  lemma SumOfSnoc(xs: seq<real>, x: real)
    ensures SumOf(xs + [x]) == SumOf(xs) + x
  {
    assert (xs + [x])[..|xs|] == xs;
  }

  // ---------------------------------------------------------------------
  // The analyzer object
  // ---------------------------------------------------------------------

  class GapAnalyzer {
    var personas: seq<Persona>
    var matrix: Matrix

    /** Row keys are distinct and every cell's status agrees with its score. */
    ghost predicate Valid()
      reads this
    {
      Distinct(Keys(matrix)) && Consistent(matrix)
    }

    /** The matrix has one row per persona name. */
    ghost predicate Initialized()
      reads this
    {
      Keys(matrix) == Dedup(Names(personas))
    }

    /** A new analyzer holds the personas and an empty matrix. */
    constructor (personas: seq<Persona>)
      ensures this.personas == personas && matrix == []
      ensures Valid()
    {
      this.personas := personas;
      matrix := [];
    }

    method SetPersonas(ps: seq<Persona>)
      modifies this
      ensures personas == ps && matrix == FreshMatrix(Names(ps))
      ensures Valid() && Initialized()
    {
      personas := ps;
      InitializeMatrix();
    }

    /** The loop of `_initialize_matrix`: an empty row stored under each persona name in turn. */
    static method FreshRows(ps: seq<Persona>) returns (rows: Matrix)
      ensures rows == FreshMatrix(Names(ps))
    {
      rows := [];
      var i := 0;
      while i < |ps|
        invariant 0 <= i <= |ps|
        invariant rows == FreshMatrix(Names(ps)[..i])
      {
        FreshStep(ps, i, rows);
        rows := Put(rows, PersonaName(ps[i]), EmptyRow);
        i := i + 1;
      }
      assert Names(ps)[..i] == Names(ps);
    }

    /** `_initialize_matrix`: one empty row per persona, the old matrix discarded. */
    method InitializeMatrix()
      modifies this`matrix
      ensures matrix == FreshMatrix(Names(personas))
      ensures Valid() && Initialized()
    {
      matrix := FreshRows(personas);
      FreshConsistent(Names(personas));
    }

    /** The loop body of `analyze_coverage`: credit one record in place. */
    method CreditRecord(r: Record)
      modifies this`matrix
      ensures matrix == AddRecord(old(matrix), r)
    {
      CreditPrimaryPersona(r);
      CreditSecondaryPersonas(r.secondaryPersonas, StageOf(r));
    }

    /** The primary persona's cell at the record's stage gains the record as an item. */
    method CreditPrimaryPersona(r: Record)
      modifies this`matrix
      ensures matrix == CreditPrimary(old(matrix), r)
    {
      var primary := PrimaryOf(r);
      match (Get(matrix, primary), StageOf(r)) {
        case (Some(row), Some(s)) =>
          matrix := Put(matrix, primary, row.With(s, AddItem(row.At(s), ItemOf(r))));
        case _ =>
      }
    }

    /** Each listed secondary persona's cell at the stage gains half a count, in order. */
    method CreditSecondaryPersonas(names: seq<string>, stage: Option<Stage>)
      modifies this`matrix
      ensures matrix == CreditSecondaries(old(matrix), names, stage)
    {
      var k := 0;
      while k < |names|
        invariant 0 <= k <= |names|
        invariant matrix == CreditSecondaries(old(matrix), names[..k], stage)
      {
        CreditSecondaryPersona(names[k], stage);
        CreditSecondariesSnoc(old(matrix), names, k, stage);
        k := k + 1;
      }
      assert names[..k] == names;
    }

    /** One secondary persona's cell at the stage gains half a count. */
    method CreditSecondaryPersona(name: string, stage: Option<Stage>)
      modifies this`matrix
      ensures matrix == CreditSecondary(old(matrix), name, stage)
    {
      match (Get(matrix, name), stage) {
        case (Some(row), Some(s)) =>
          matrix := Put(matrix, name, row.With(s, AddHalves(row.At(s), 1)));
        case _ =>
      }
    }

    /**
     * `analyze_coverage`: the result depends on the personas and the records
     * only, so a second call with the same records gives the same matrix.
     */
    method AnalyzeCoverage(records: seq<Record>) returns (result: Matrix)
      modifies this`matrix
      ensures matrix == Coverage(personas, records) && result == matrix
      ensures Valid() && Initialized()
    {
      InitializeMatrix();
      CreditRecords(records);
      CalculateScores();
      result := matrix;
      assert Valid() && Initialized() by {
        CoverageKeys(personas, records);
      }
    }

    /** The record loop of `analyze_coverage`: every record credited in order. */
    method CreditRecords(records: seq<Record>)
      modifies this`matrix
      ensures matrix == Aggregate(old(matrix), records)
    {
      var i := 0;
      while i < |records|
        invariant 0 <= i <= |records|
        invariant matrix == Aggregate(old(matrix), records[..i])
      {
        CreditRecord(records[i]);
        assert records[..i + 1][..i] == records[..i];
        i := i + 1;
      }
      assert records[..i] == records;
    }

    /** `_calculate_scores`: every cell scored in place. */
    method CalculateScores()
      modifies this`matrix
      ensures matrix == ScoreMatrix(old(matrix))
    {
      var i := 0;
      while i < |matrix|
        invariant 0 <= i <= |matrix| == |old(matrix)|
        invariant forall j :: 0 <= j < i ==> matrix[j] == (old(matrix)[j].0, ScoreRow(old(matrix)[j].1))
        invariant forall j :: i <= j < |matrix| ==> matrix[j] == old(matrix)[j]
      {
        var row := ScoreStages(matrix[i].1);
        matrix := matrix[i := (matrix[i].0, row)];
        i := i + 1;
      }
      ScoreMatrixEntries(old(matrix));
    }

    /** The inner loop of `_calculate_scores`: the row's cells scored stage by stage. */
    static method ScoreStages(row: Row) returns (r: Row)
      ensures r == ScoreRow(row)
    {
      r := row;
      var q := 0;
      while q < 3
        invariant 0 <= q <= 3
        invariant forall p :: 0 <= p < q ==> r.At(Stages[p]) == ScoreCell(row.At(Stages[p]))
        invariant forall p :: q <= p < 3 ==> r.At(Stages[p]) == row.At(Stages[p])
      {
        r := r.With(Stages[q], ScoreCell(r.At(Stages[q])));
        q := q + 1;
      }
      assert r.At(Stages[0]) == r.awareness && r.At(Stages[1]) == r.consideration && r.At(Stages[2]) == r.decision;
    }

    /** `get_gaps`: the gap cells, most urgent first, ties in visiting order. */
    method GetGaps() returns (gaps: seq<GapEntry>)
      ensures gaps == SortByPriority(GapList(Slots(matrix)))
      ensures SortedByPriority(gaps) && multiset(gaps) == multiset(GapList(Slots(matrix)))
      ensures Valid() ==> forall e :: e in gaps ==> 60.0 < e.priority <= 100.0
    {
      var acc: seq<GapEntry> := [];
      var i := 0;
      while i < |matrix|
        invariant 0 <= i <= |matrix|
        invariant acc == GapList(Slots(matrix[..i]))
      {
        acc := RowGaps(Slots(matrix[..i]), matrix[i].0, matrix[i].1, acc);
        RowDone(matrix, i);
        i := i + 1;
      }
      assert matrix[..i] == matrix;
      gaps := SortByPriority(acc);
      SortSorted(acc);
      SortPermutes(acc);
      if Valid() {
        SlotsConsistent(matrix);
        GapPriorities(Slots(matrix));
        forall e | e in gaps ensures 60.0 < e.priority <= 100.0 {
          assert e in multiset(acc);
        }
      }
    }

    /** `get_strengths`: the strong cells in visiting order. */
    method GetStrengths() returns (strengths: seq<StrengthEntry>)
      ensures strengths == StrengthList(Slots(matrix))
    {
      strengths := [];
      var i := 0;
      while i < |matrix|
        invariant 0 <= i <= |matrix|
        invariant strengths == StrengthList(Slots(matrix[..i]))
      {
        strengths := RowStrengths(Slots(matrix[..i]), matrix[i].0, matrix[i].1, strengths);
        RowDone(matrix, i);
        i := i + 1;
      }
      assert matrix[..i] == matrix;
    }

    /** `get_moderate_areas`: the moderate cells in visiting order. */
    method GetModerateAreas() returns (moderate: seq<ModerateEntry>)
      ensures moderate == ModerateList(Slots(matrix))
    {
      moderate := [];
      var i := 0;
      while i < |matrix|
        invariant 0 <= i <= |matrix|
        invariant moderate == ModerateList(Slots(matrix[..i]))
      {
        moderate := RowModerates(Slots(matrix[..i]), matrix[i].0, matrix[i].1, moderate);
        RowDone(matrix, i);
        i := i + 1;
      }
      assert matrix[..i] == matrix;
    }


    /** The gap cells of one row, stage by stage, appended to `acc`. */
    static method RowGaps(ghost prefix: seq<Slot>, name: string, row: Row, acc: seq<GapEntry>)
      returns (out: seq<GapEntry>)
      requires acc == GapList(prefix)
      ensures out == GapList(prefix + RowSlots(name, row)[..3])
    {
      out := acc;
      RowStart(prefix, name, row);
      var j := 0;
      while j < 3
        invariant 0 <= j <= 3
        invariant out == GapList(prefix + RowSlots(name, row)[..j])
      {
        var stage := Stages[j];
        var cell := row.At(stage);
        GapStep(prefix, name, row, j);
        if cell.status == Gap {
          out := out + [GapOf(Slot(name, stage, cell))];
        }
        j := j + 1;
      }
    }

    /** The strong cells of one row, stage by stage, appended to `acc`. */
    static method RowStrengths(ghost prefix: seq<Slot>, name: string, row: Row, acc: seq<StrengthEntry>)
      returns (out: seq<StrengthEntry>)
      requires acc == StrengthList(prefix)
      ensures out == StrengthList(prefix + RowSlots(name, row)[..3])
    {
      out := acc;
      RowStart(prefix, name, row);
      var j := 0;
      while j < 3
        invariant 0 <= j <= 3
        invariant out == StrengthList(prefix + RowSlots(name, row)[..j])
      {
        var stage := Stages[j];
        var cell := row.At(stage);
        StrengthStep(prefix, name, row, j);
        if cell.status == Strong {
          out := out + [StrengthOf(Slot(name, stage, cell))];
        }
        j := j + 1;
      }
    }

    /** The moderate cells of one row, stage by stage, appended to `acc`. */
    static method RowModerates(ghost prefix: seq<Slot>, name: string, row: Row, acc: seq<ModerateEntry>)
      returns (out: seq<ModerateEntry>)
      requires acc == ModerateList(prefix)
      ensures out == ModerateList(prefix + RowSlots(name, row)[..3])
    {
      out := acc;
      RowStart(prefix, name, row);
      var j := 0;
      while j < 3
        invariant 0 <= j <= 3
        invariant out == ModerateList(prefix + RowSlots(name, row)[..j])
      {
        var stage := Stages[j];
        var cell := row.At(stage);
        ModerateStep(prefix, name, row, j);
        if cell.status == Moderate {
          out := out + [ModerateOf(Slot(name, stage, cell))];
        }
        j := j + 1;
      }
    }

    /** `get_summary_stats`. */
    method GetSummaryStats() returns (stats: SummaryStats)
      ensures stats == SummaryOf(matrix, |personas|)
      ensures Initialized() ==>
        stats.gapCount + stats.moderateCount + stats.strongCount <= stats.totalCells
        && 0.0 <= stats.gapPercentage <= 100.0 && 0.0 <= stats.coveragePercentage <= 100.0
      ensures Initialized() && Distinct(Names(personas)) ==>
        stats.gapCount + stats.moderateCount + stats.strongCount == stats.totalCells
    {
      var totalCells := |personas| * |Stages|;
      var gaps := GetGaps();
      var strengths := GetStrengths();
      var moderate := GetModerateAreas();
      stats := StatsOf(totalCells, gaps, |moderate|, |strengths|);
      if Initialized() {
        assert |matrix| <= |personas| by {
          assert |matrix| == |Keys(matrix)| == |Dedup(Names(personas))|;
        }
        SummaryBounds(matrix, |personas|);
      }
    }

    /** `get_stage_summary`: for each stage, in stage order, its roll-up over the personas. */
    method GetStageSummary() returns (summary: Dict<Stage, StageSummary>)
      ensures Keys(summary) == Stages
      ensures forall j :: 0 <= j < 3 ==> summary[j].1 == StageSummaryOf(matrix, Stages[j])
    {
      summary := [];
      var j := 0;
      while j < 3
        invariant 0 <= j <= 3 && |summary| == j
        invariant forall q :: 0 <= q < j ==> summary[q] == (Stages[q], StageSummaryOf(matrix, Stages[q]))
      {
        var stageSummary := SummarizeStage(matrix, Stages[j]);
        summary := summary + [(Stages[j], stageSummary)];
        j := j + 1;
      }
      assert Keys(summary) == Stages;
    }

    /** The inner loop of `get_stage_summary`: one stage over every row. */
    static method SummarizeStage(matrix: Matrix, stage: Stage) returns (s: StageSummary)
      ensures s == StageSummaryOf(matrix, stage)
    {
      var total: nat := 0;
      var scores: seq<real> := [];
      var withGaps: seq<string> := [];
      var i := 0;
      while i < |matrix|
        invariant 0 <= i <= |matrix|
        invariant total == StageTotal(matrix[..i], stage)
        invariant |scores| == i && SumOf(scores) == StageScoreSum(matrix[..i], stage)
        invariant withGaps == StageGapPersonas(matrix[..i], stage)
      {
        var cell := matrix[i].1.At(stage);
        total := total + cell.halfCount;
        SumOfSnoc(scores, cell.score);
        scores := scores + [cell.score];
        if cell.status == Gap {
          withGaps := withGaps + [matrix[i].0];
        }
        assert matrix[..i + 1][..i] == matrix[..i];
        i := i + 1;
      }
      assert matrix[..i] == matrix;
      s := StageSummary(total, Mean(SumOf(scores), |scores|), withGaps);
    }

    /**
     * `get_persona_summary`: for each row, in matrix order, its roll-up over
     * the stages. Rows have distinct names, so the summary gains one entry
     * per row.
     */
    method GetPersonaSummary() returns (summary: Dict<string, PersonaSummary>)
      requires Valid()
      ensures Keys(summary) == Keys(matrix) && Distinct(Keys(summary))
      ensures forall i :: 0 <= i < |matrix| ==> summary[i].1 == PersonaSummaryOf(matrix[i].1)
    {
      summary := [];
      var i := 0;
      while i < |matrix|
        invariant 0 <= i <= |matrix| && |summary| == i
        invariant forall q :: 0 <= q < i ==> summary[q] == (matrix[q].0, PersonaSummaryOf(matrix[q].1))
      {
        var personaSummary := SummarizePersona(matrix[i].1);
        summary := summary + [(matrix[i].0, personaSummary)];
        i := i + 1;
      }
      assert Keys(summary) == Keys(matrix);
    }

    /** One persona's roll-up: the stage loop of `get_persona_summary`. */
    static method SummarizePersona(row: Row) returns (p: PersonaSummary)
      ensures p == PersonaSummaryOf(row)
    {
      var total: nat := 0;
      var scores: seq<real> := [];
      var maxScore: real := 0.0;
      var maxStage: Option<Stage> := None;
      var gapStages: seq<Stage> := [];
      var j := 0;
      while j < 3
        invariant 0 <= j <= 3
        invariant total == RowTotalUpTo(row, j)
        invariant |scores| == j && SumOf(scores) == RowScoreSumUpTo(row, j)
        invariant (maxScore, maxStage) == MaxUpTo(row, j)
        invariant gapStages == GapStagesUpTo(row, j)
      {
        var stage := Stages[j];
        var cell := row.At(stage);
        total := total + cell.halfCount;
        SumOfSnoc(scores, cell.score);
        scores := scores + [cell.score];
        if cell.score > maxScore {
          maxScore := cell.score;
          maxStage := Some(stage);
        }
        if cell.status == Gap {
          gapStages := gapStages + [stage];
        }
        j := j + 1;
      }
      p := PersonaSummary(total, Mean(SumOf(scores), |scores|), gapStages, maxStage);
    }
  }
}
