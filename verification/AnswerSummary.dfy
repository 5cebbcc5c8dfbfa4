/** When an accuracy is published, and what it then is. */
module AnswerSummary {
  import opened Common

  datatype Reference = Reference(questionId: string, questionType: string)

  datatype Stage = Answered | Judged | Unreliable

  /** One entry of the sidecar's row object; `key` is the property name. */
  datatype Entry = Entry(key: string, questionId: string, stage: Stage, verdict: Option<string>)

  datatype IngestFailures = IngestFailures(failedTurns: nat, failedLines: nat, rejectedTurns: nat,
      rejectedConversations: nat) {
    predicate Any() { failedTurns > 0 || failedLines > 0 || rejectedTurns > 0 || rejectedConversations > 0 }
  }

  datatype Coverage = Full | Partial | Unavailable

  datatype Failure = InvalidDeclaredIds | InvalidRows

  datatype ExportKind = FullSet | Sample

  /** A mean of yes/no labels, kept as its two counts. */
  datatype Share = Share(correct: nat, count: nat) {
    function Value(): real
      requires count > 0
    {
      correct as real / count as real
    }
  }

  datatype TypeScore = TypeScore(questionType: string, score: Option<Share>)

  datatype Summary = Summary(
    coverage: Coverage, accuracy: Option<Share>, overall: Option<Share>, perType: seq<TypeScore>,
    missing: seq<string>, lost: set<string>, accountingComplete: bool, exported: Option<ExportKind>)

  datatype Result<+T> = Ok(value: T) | Err(failure: Failure)

  datatype Inputs = Inputs(
    references: seq<Reference>, rows: seq<Entry>, covered: set<string>, pinnedDataset: bool,
    resumed: bool, startupLost: set<string>, ingest: IngestFailures)

  const TYPE_ORDER: seq<string> := [
    "single-session-user", "single-session-preference", "single-session-assistant",
    "multi-session", "temporal-reasoning", "knowledge-update"]

  const CASE_COUNT: nat := 500

  // ---------------------------------------------------------------- small folds

  function Ids(refs: seq<Reference>): seq<string> { MapSeq((r: Reference) => r.questionId, refs) }

  function RowIds(rows: seq<Entry>): seq<string> { MapSeq((e: Entry) => e.questionId, rows) }

  lemma {:induction false} SetSize(ids: seq<string>)
    ensures |Members(ids)| <= |ids|
    ensures |Members(ids)| == |ids| <==> NoRepeats(ids)
  {
    if ids != [] {
      var n := |ids| - 1;
      SetSize(ids[..n]);
      assert ids == ids[..n] + [ids[n]];
      if ids[n] in ids[..n] {
        assert Members(ids) == Members(ids[..n]);
      } else {
        assert Members(ids) == Members(ids[..n]) + {ids[n]};
      }
    }
  }

  function JudgedRows(rows: seq<Entry>): seq<Entry> {
    if rows == [] then []
    else
      var rest, last := JudgedRows(rows[..|rows| - 1]), rows[|rows| - 1];
      if last.stage == Judged then rest + [last] else rest
  }

  function CountIf(rows: seq<Entry>, p: Entry -> bool): nat {
    if rows == [] then 0 else CountIf(rows[..|rows| - 1], p) + (if p(rows[|rows| - 1]) then 1 else 0)
  }

  function Outside(ids: seq<string>, known: set<string>): seq<string> {
    if ids == [] then []
    else
      var rest, last := Outside(ids[..|ids| - 1], known), ids[|ids| - 1];
      if last !in known then rest + [last] else rest
  }

  lemma {:induction false} OutsideContents(ids: seq<string>, known: set<string>)
    ensures forall id :: id in Outside(ids, known) <==> id in ids && id !in known
    ensures Outside(ids, known) == [] <==> Members(ids) <= known
  {
    if ids != [] {
      OutsideContents(ids[..|ids| - 1], known);
      assert ids == ids[..|ids| - 1] + [ids[|ids| - 1]];
    }
  }

  // ---------------------------------------------------------------- validation

  predicate ValidDeclared(ids: seq<string>) {
    |Members(ids)| == |ids| && forall i :: 0 <= i < |ids| ==> Trim(ids[i]) != ""
  }

  predicate ValidRow(e: Entry, declared: set<string>) {
    && e.key == e.questionId && e.questionId in declared
    && (if e.stage == Judged then e.verdict == Some("yes") || e.verdict == Some("no") else e.verdict.None?)
  }

  datatype CoverageFailure = WrongReferenceCount | DuplicatePrediction | UnknownPrediction | MissingPrediction |
      WrongPredictionCount

  /** The exact-500 validator of the full-set export. */
  function ValidateFullCoverage(predicted: seq<string>, references: seq<string>): Option<CoverageFailure> {
    if |references| != CASE_COUNT || |Members(references)| != CASE_COUNT then Some(WrongReferenceCount)
    else if |predicted| != |Members(predicted)| then Some(DuplicatePrediction)
    else if |Outside(predicted, Members(references))| > 0 then Some(UnknownPrediction)
    else if |Outside(references, Members(predicted))| > 0 then Some(MissingPrediction)
    else if |predicted| != CASE_COUNT then Some(WrongPredictionCount)
    else None
  }

  /** It accepts exactly the duplicate-free lists of the same 500 ids. */
  lemma ValidatorAcceptsExactly(predicted: seq<string>, references: seq<string>)
    ensures ValidateFullCoverage(predicted, references).None? <==>
            && NoRepeats(references) && NoRepeats(predicted)
            && |references| == CASE_COUNT && Members(predicted) == Members(references)
  {
    SetSize(references);
    SetSize(predicted);
    OutsideContents(predicted, Members(references));
    OutsideContents(references, Members(predicted));
  }

  // ---------------------------------------------------------------- the summary

  function TypeOf(refs: seq<Reference>, id: string): string {
    if refs == [] then "single-session-user"
    else if refs[|refs| - 1].questionId == id then refs[|refs| - 1].questionType
    else TypeOf(refs[..|refs| - 1], id)
  }

  predicate Correct(e: Entry) { e.verdict == Some("yes") }

  function And(p: Entry -> bool, q: Entry -> bool): Entry -> bool { (e: Entry) => p(e) && q(e) }

  function ShareOf(rows: seq<Entry>, p: Entry -> bool): Option<Share> {
    var n := CountIf(rows, p);
    if n == 0 then None else Some(Share(CountIf(rows, And(p, Correct)), n))
  }

  function HasType(refs: seq<Reference>, t: string): Entry -> bool {
    (e: Entry) => TypeOf(refs, e.questionId) == t
  }

  function ScoresOf(refs: seq<Reference>, judged: seq<Entry>, types: seq<string>): seq<TypeScore> {
    MapSeq((t: string) => TypeScore(t, ShareOf(judged, HasType(refs, t))), types)
  }

  predicate Everything(e: Entry) { true }

  function CoverageOf(x: Inputs): Coverage {
    var judged := JudgedRows(x.rows);
    var judgedIds := Members(RowIds(judged));
    if judged == [] then Unavailable
    else if !x.ingest.Any() && forall i :: 0 <= i < |Ids(x.references)| ==>
              Ids(x.references)[i] in x.covered && Ids(x.references)[i] in judgedIds then Full
    else Partial
  }

  function Summarise(x: Inputs): Result<Summary> {
    var declared := Ids(x.references);
    if !ValidDeclared(declared) then Err(InvalidDeclaredIds)
    else if !forall i :: 0 <= i < |x.rows| ==> ValidRow(x.rows[i], Members(declared)) then Err(InvalidRows)
    else
      var judged := JudgedRows(x.rows);
      var coverage := CoverageOf(x);
      var overall := if judged == [] then None else ShareOf(judged, Everything);
      var lost := x.startupLost + (Members(RowIds(judged)) - x.covered);
      Ok(Summary(
        coverage,
        if coverage == Full then overall else None,
        overall,
        if judged == [] then [] else ScoresOf(x.references, judged, TYPE_ORDER),
        Outside(declared, Members(RowIds(judged))),
        lost,
        lost == {} && !x.resumed && !x.ingest.Any(),
        if judged == [] then None
        else Some(if coverage == Full && |judged| == CASE_COUNT && x.pinnedDataset then FullSet else Sample)))
  }

  /** The rows of one object have distinct property names. */
  predicate DistinctKeys(rows: seq<Entry>) { forall i, j :: 0 <= i < j < |rows| ==> rows[i].key != rows[j].key }

  lemma {:induction false} JudgedRowsContents(rows: seq<Entry>)
    ensures forall e :: e in JudgedRows(rows) <==> e in rows && e.stage == Judged
    ensures DistinctKeys(rows) ==> DistinctKeys(JudgedRows(rows))
  {
    if rows != [] {
      var n := |rows| - 1;
      JudgedRowsContents(rows[..n]);
      assert rows == rows[..n] + [rows[n]];
      var rest := JudgedRows(rows[..n]);
      if DistinctKeys(rows) {
        forall i | 0 <= i < |rest| ensures rest[i].key != rows[n].key { assert rest[i] in rows[..n]; }
      }
    }
  }

  /** Judged ids are distinct and declared. */
  lemma JudgedIdsAreDeclared(x: Inputs)
    requires Summarise(x).Ok? && DistinctKeys(x.rows)
    ensures NoRepeats(Ids(x.references)) && NoRepeats(RowIds(JudgedRows(x.rows)))
    ensures Members(RowIds(JudgedRows(x.rows))) <= Members(Ids(x.references))
  {
    var judged := JudgedRows(x.rows);
    SetSize(Ids(x.references));
    JudgedRowsContents(x.rows);
    forall i | 0 <= i < |judged| ensures ValidRow(judged[i], Members(Ids(x.references))) { assert judged[i] in x.rows; }
  }

  /** Full coverage: the judged rows and the declared ids are one set, each id once on either side. */
  lemma FullCoverageIsBijective(x: Inputs)
    requires Summarise(x).Ok? && DistinctKeys(x.rows) && CoverageOf(x) == Full
    ensures var judged := RowIds(JudgedRows(x.rows));
            NoRepeats(judged) && NoRepeats(Ids(x.references)) && Members(judged) == Members(Ids(x.references))
                && |judged| == |x.references|
  {
    JudgedIdsAreDeclared(x);
    AllJudged(x);
    SameSize(RowIds(JudgedRows(x.rows)), Ids(x.references));
  }

  lemma AllJudged(x: Inputs)
    requires CoverageOf(x) == Full
    ensures Members(Ids(x.references)) <= Members(RowIds(JudgedRows(x.rows)))
  {
    var declared := Ids(x.references);
    forall id | id in declared ensures id in Members(RowIds(JudgedRows(x.rows))) {
      var i :| 0 <= i < |declared| && declared[i] == id;
    }
  }

  lemma SameSize(a: seq<string>, b: seq<string>)
    requires NoRepeats(a) && NoRepeats(b) && Members(a) == Members(b)
    ensures |a| == |b|
  {
    SetSize(a);
    SetSize(b);
  }

  lemma {:induction false} CountAll(rows: seq<Entry>)
    ensures CountIf(rows, Everything) == |rows|
  {
    if rows != [] { CountAll(rows[..|rows| - 1]); }
  }

  lemma {:induction false} CountSame(rows: seq<Entry>, p: Entry -> bool, q: Entry -> bool)
    requires forall e :: e in rows ==> p(e) == q(e)
    ensures CountIf(rows, p) == CountIf(rows, q)
  {
    if rows != [] { CountSame(rows[..|rows| - 1], p, q); }
  }

  /** An accuracy is published exactly at full coverage, and is then the correct over the declared. */
  lemma PublishedAccuracyIsHonest(x: Inputs)
    requires Summarise(x).Ok? && DistinctKeys(x.rows)
    ensures var s := Summarise(x).value;
            && (s.accuracy.Some? <==> s.coverage == Full)
            && (s.accuracy.Some? ==>
                  s.accuracy.value == Share(CountIf(JudgedRows(x.rows), Correct), |x.references|) && s.missing == [])
            && (s.coverage == Full ==> !x.ingest.Any())
  {
    var judged := JudgedRows(x.rows);
    CountAll(judged);
    CountSame(judged, And(Everything, Correct), Correct);
    if CoverageOf(x) == Full {
      FullCoverageIsBijective(x);
      OutsideContents(Ids(x.references), Members(RowIds(judged)));
    }
  }

  /** The export the summary asks for is never refused by the validator. */
  lemma ChosenExportIsAccepted(x: Inputs)
    requires Summarise(x).Ok? && DistinctKeys(x.rows)
    ensures Summarise(x).value.exported == Some(FullSet) ==>
              ValidateFullCoverage(RowIds(JudgedRows(x.rows)), Ids(x.references)).None?
    ensures Summarise(x).value.exported == Some(FullSet) <==>
              CoverageOf(x) == Full && |x.references| == CASE_COUNT && x.pinnedDataset
  {
    if CoverageOf(x) == Full {
      FullCoverageIsBijective(x);
      ValidatorAcceptsExactly(RowIds(JudgedRows(x.rows)), Ids(x.references));
    }
  }

  // ---------------------------------------------------------------- accuracy as a weighted mean

  lemma {:induction false} CountSplit(rows: seq<Entry>, p: Entry -> bool, q: Entry -> bool, r: Entry -> bool)
    requires forall e :: e in rows ==> (p(e) <==> q(e) || r(e)) && !(q(e) && r(e))
    ensures CountIf(rows, p) == CountIf(rows, q) + CountIf(rows, r)
  {
    if rows != [] { CountSplit(rows[..|rows| - 1], p, q, r); }
  }

  /** The rows whose type is among the first `k`, with a further condition. */
  function AmongTypes(refs: seq<Reference>, types: seq<string>, p: Entry -> bool): Entry -> bool {
    (e: Entry) => TypeOf(refs, e.questionId) in types && p(e)
  }

  function SumCounts(refs: seq<Reference>, judged: seq<Entry>, types: seq<string>, p: Entry -> bool): nat {
    if types == [] then 0
    else SumCounts(refs, judged, types[..|types| - 1], p)
         + CountIf(judged, And(HasType(refs, types[|types| - 1]), p))
  }

  lemma {:induction false} SumCountsTotal(
    refs: seq<Reference>, judged: seq<Entry>, types: seq<string>, p: Entry -> bool)
    requires NoRepeats(types)
    ensures SumCounts(refs, judged, types, p) == CountIf(judged, AmongTypes(refs, types, p))
  {
    if types == [] {
      CountNone(judged, AmongTypes(refs, types, p));
    } else {
      var n := |types| - 1;
      SumCountsTotal(refs, judged, types[..n], p);
      assert types == types[..n] + [types[n]];
      CountSplit(judged, AmongTypes(refs, types, p), AmongTypes(refs, types[..n], p),
                 And(HasType(refs, types[n]), p));
    }
  }

  lemma {:induction false} CountNone(rows: seq<Entry>, p: Entry -> bool)
    requires forall e :: e in rows ==> !p(e)
    ensures CountIf(rows, p) == 0
  {
    if rows != [] { CountNone(rows[..|rows| - 1], p); }
  }

  /** The sum over the types of count times accuracy; a type without rows has no accuracy and no weight. */
  function WeightedSum(scores: seq<TypeScore>): real {
    if scores == [] then 0.0 else WeightedSum(scores[..|scores| - 1]) + Term(scores[|scores| - 1].score)
  }

  function Term(score: Option<Share>): real {
    if score.Some? && score.value.count > 0 then score.value.count as real * score.value.Value() else 0.0
  }

  function WeightOf(scores: seq<TypeScore>): nat {
    if scores == [] then 0 else WeightOf(scores[..|scores| - 1]) + Weight(scores[|scores| - 1].score)
  }

  function Weight(score: Option<Share>): nat { if score.Some? then score.value.count else 0 }

  lemma ShareTimesCount(s: Share)
    requires s.count > 0
    ensures s.count as real * s.Value() == s.correct as real
  {
  }

  lemma {:induction false} WeightedSumIsCorrect(refs: seq<Reference>, judged: seq<Entry>, types: seq<string>)
    ensures WeightedSum(ScoresOf(refs, judged, types)) == SumCounts(refs, judged, types, Correct) as real
    ensures WeightOf(ScoresOf(refs, judged, types)) == SumCounts(refs, judged, types, Everything)
  {
    if types != [] {
      var n := |types| - 1;
      WeightedSumIsCorrect(refs, judged, types[..n]);
      ScoresSnoc(refs, judged, types);
      OneScore(refs, judged, types[n]);
      AddLast(refs, judged, types, ShareOf(judged, HasType(refs, types[n])), ScoresOf(refs, judged, types));
    }
  }

  lemma AddLast(
    refs: seq<Reference>, judged: seq<Entry>, types: seq<string>, score: Option<Share>, scores: seq<TypeScore>)
    requires types != [] && scores != [] && scores[|scores| - 1].score == score
    requires var n := |types| - 1;
             && WeightedSum(scores[..|scores| - 1]) == SumCounts(refs, judged, types[..n], Correct) as real
             && WeightOf(scores[..|scores| - 1]) == SumCounts(refs, judged, types[..n], Everything)
             && Term(score) == CountIf(judged, And(HasType(refs, types[n]), Correct)) as real
             && Weight(score) == CountIf(judged, And(HasType(refs, types[n]), Everything))
    ensures WeightedSum(scores) == SumCounts(refs, judged, types, Correct) as real
    ensures WeightOf(scores) == SumCounts(refs, judged, types, Everything)
  {
  }

  lemma ScoresSnoc(refs: seq<Reference>, judged: seq<Entry>, types: seq<string>)
    requires types != []
    ensures var n, r := |types| - 1, ScoresOf(refs, judged, types);
            |r| == n + 1 && r[..n] == ScoresOf(refs, judged, types[..n])
                && r[n].score == ShareOf(judged, HasType(refs, types[n]))
  {
  }

  lemma OneScore(refs: seq<Reference>, judged: seq<Entry>, t: string)
    ensures var s := ShareOf(judged, HasType(refs, t));
            var correct, all := CountIf(judged, And(HasType(refs, t), Correct)),
                CountIf(judged, And(HasType(refs, t), Everything));
            Term(s) == correct as real && Weight(s) == all
  {
    var s := ShareOf(judged, HasType(refs, t));
    CountSame(judged, And(HasType(refs, t), Everything), HasType(refs, t));
    if s.Some? {
      ShareTimesCount(s.value);
    } else {
      CountLess(judged, And(HasType(refs, t), Correct), HasType(refs, t));
    }
  }

  lemma {:induction false} CountLess(rows: seq<Entry>, p: Entry -> bool, q: Entry -> bool)
    requires forall e :: p(e) ==> q(e)
    ensures CountIf(rows, p) <= CountIf(rows, q)
  {
    if rows != [] { CountLess(rows[..|rows| - 1], p, q); }
  }

  lemma TypesDistinct()
    ensures NoRepeats(TYPE_ORDER)
  {
  }

  predicate Supported(refs: seq<Reference>, rows: seq<Entry>) {
    forall e :: e in rows ==> TypeOf(refs, e.questionId) in TYPE_ORDER
  }

  lemma WeightedMeanOver(refs: seq<Reference>, judged: seq<Entry>, types: seq<string>)
    requires NoRepeats(types) && forall e :: e in judged ==> TypeOf(refs, e.questionId) in types
    ensures WeightOf(ScoresOf(refs, judged, types)) == CountIf(judged, Everything)
    ensures WeightedSum(ScoresOf(refs, judged, types)) == CountIf(judged, And(Everything, Correct)) as real
  {
    WeightedSumIsCorrect(refs, judged, types);
    SumCountsTotal(refs, judged, types, Correct);
    SumCountsTotal(refs, judged, types, Everything);
    CountSame(judged, AmongTypes(refs, types, Correct), And(Everything, Correct));
    CountSame(judged, AmongTypes(refs, types, Everything), Everything);
  }

  /** Overall accuracy is the count-weighted mean of the per-type accuracies, when every type is a known one. */
  lemma OverallIsWeightedMean(x: Inputs)
    requires Summarise(x).Ok? && Summarise(x).value.overall.Some? && Supported(x.references, JudgedRows(x.rows))
    ensures var s := Summarise(x).value;
            && s.perType == ScoresOf(x.references, JudgedRows(x.rows), TYPE_ORDER)
            && s.overall.value.count == WeightOf(s.perType) > 0
            && s.overall.value.Value() == WeightedSum(s.perType) / WeightOf(s.perType) as real
  {
    TypesDistinct();
    WeightedMeanOver(x.references, JudgedRows(x.rows), TYPE_ORDER);
    OverallCounts(x);
  }

  lemma OverallCounts(x: Inputs)
    requires Summarise(x).Ok? && Summarise(x).value.overall.Some?
    ensures var s, judged := Summarise(x).value, JudgedRows(x.rows);
            && s.overall.value == Share(CountIf(judged, And(Everything, Correct)), CountIf(judged, Everything))
            && s.overall.value.count > 0 && s.perType == ScoresOf(x.references, judged, TYPE_ORDER)
  {
  }
}
