/** Joining two frozen runs question by question, and the one inferential verdict drawn from them. */
module B2Join {
  import opened Common
  import opened McNemar

  datatype Metrics = Metrics(
    recallAnyAt10: Option<real>,
    recallAnyAt50: Option<real>,
    turnRecallAnyAt10: Option<real>,
    turnRecallAnyAt50: Option<real>,
    verdict: Option<string>)

  type Run = map<string, Metrics>

  datatype Eligibility = Eligibility(eligible: bool, reasons: seq<string>, independenceDeclared: bool)

  datatype Options = Options(baselineFlips: Option<int>, rOnly: bool, eligibility: Option<Eligibility>)

  datatype Reason =
    | FromEligibility(text: string)
    | NotAssessed
    | IndependenceNotDeclared
    | NoQuestions
    | IncompletePairs(count: nat)
    | NonBinaryRecall(count: nat)

  datatype Evidence = BHigher | AHigher | Inconclusive

  /** An exact quotient; with no denominator it stands for 0, as every mean over nothing does. */
  datatype Fraction = Fraction(num: real, den: nat) {
    function Value(): real { if den == 0 then 0.0 else num / den as real }
    function Negated(): Fraction { Fraction(-num, den) }
  }

  datatype Inference =
    | Ineligible(reasons: seq<Reason>)
    | Eligible(n: nat, gains: nat, losses: nat, discordant: nat, p: real, differenceInProportion: Fraction,
        evidence: Evidence)

  datatype Triple = Triple(a: Fraction, b: Fraction, delta: Fraction)

  datatype Report = Report(
    questionCount: nat, judgedInBoth: nat, rPaired: nat, aOnly: nat, bOnly: nat,
    recallAnyAt10: Triple, recallAnyAt50: Triple, turnRecallAnyAt10: Triple, turnRecallAnyAt50: Triple,
    accuracy: Triple,
    netR: real, netQFlips: int,
    inference: Inference, isReal: bool, threshold: int, retrievalRealAnswerNeutral: bool)

  const ALPHA: real := 0.05
  const NET_Q_FLIP_THRESHOLD: int := 3
  const NET_R_THRESHOLD: real := 3.0

  // ---------------------------------------------------------------- one question

  datatype Paired = Incomplete | NonBinary | Decided(a: bool, b: bool)

  function RecallOf(run: Run, id: string, f: Metrics -> Option<real>): Option<real> {
    if id in run then f(run[id]) else None
  }

  function VerdictOf(run: Run, id: string): Option<string> {
    if id in run then run[id].verdict else None
  }

  predicate IsCorrect(verdict: string) { verdict == "yes" }

  predicate IsBinary(r: real) { r == 0.0 || r == 1.0 }

  function Recall10(m: Metrics): Option<real> { m.recallAnyAt10 }

  /** How one question enters the test. */
  function Classify(runA: Run, runB: Run, id: string, rOnly: bool): Paired {
    if rOnly then
      var a, b := RecallOf(runA, id, Recall10), RecallOf(runB, id, Recall10);
      if a.None? || b.None? then Incomplete
      else if !IsBinary(a.value) || !IsBinary(b.value) then NonBinary
      else Decided(a.value == 1.0, b.value == 1.0)
    else
      var a, b := VerdictOf(runA, id), VerdictOf(runB, id);
      if a !in {Some("yes"), Some("no")} || b !in {Some("yes"), Some("no")} then Incomplete
      else Decided(a == Some("yes"), b == Some("yes"))
  }

  // ---------------------------------------------------------------- folds over the questions

  datatype Tally = Tally(gains: nat, losses: nat, incomplete: nat, nonBinary: nat)

  function Count(t: Tally, p: Paired): Tally {
    match p
    case Incomplete => t.(incomplete := t.incomplete + 1)
    case NonBinary => t.(nonBinary := t.nonBinary + 1)
    case Decided(a, b) =>
      t.(gains := t.gains + (if b && !a then 1 else 0), losses := t.losses + (if a && !b then 1 else 0))
  }

  function TallyOf(ids: seq<string>, runA: Run, runB: Run, rOnly: bool): Tally {
    if ids == [] then Tally(0, 0, 0, 0)
    else
      var n := |ids| - 1;
      Count(TallyOf(ids[..n], runA, runB, rOnly), Classify(runA, runB, ids[n], rOnly))
  }

  function RecallPairs(ids: seq<string>, runA: Run, runB: Run, f: Metrics -> Option<real>): seq<(real, real)> {
    if ids == [] then []
    else
      var n := |ids| - 1;
      var a, b := RecallOf(runA, ids[n], f), RecallOf(runB, ids[n], f);
      var rest := RecallPairs(ids[..n], runA, runB, f);
      if a.Some? && b.Some? then rest + [(a.value, b.value)] else rest
  }

  function Unpaired(ids: seq<string>, run: Run, other: Run): nat {
    if ids == [] then 0
    else
      var n := |ids| - 1;
      Unpaired(ids[..n], run, other) +
      (if RecallOf(run, ids[n], Recall10).Some? && RecallOf(other, ids[n], Recall10).None? then 1 else 0)
  }

  function JudgedPair(runA: Run, runB: Run, id: string): Option<(bool, bool)> {
    var a, b := VerdictOf(runA, id), VerdictOf(runB, id);
    if a.Some? && b.Some? then Some((IsCorrect(a.value), IsCorrect(b.value))) else None
  }

  function JudgedPairs(ids: seq<string>, runA: Run, runB: Run): seq<(bool, bool)> {
    if ids == [] then []
    else
      var n := |ids| - 1;
      var pair := JudgedPair(runA, runB, ids[n]);
      var rest := JudgedPairs(ids[..n], runA, runB);
      if pair.Some? then rest + [pair.value] else rest
  }

  function Flip(pair: (bool, bool)): int {
    (if pair.1 && !pair.0 then 1 else 0) - (if pair.0 && !pair.1 then 1 else 0)
  }

  function NetFlips(pairs: seq<(bool, bool)>): int {
    if pairs == [] then 0 else NetFlips(pairs[..|pairs| - 1]) + Flip(pairs[|pairs| - 1])
  }

  function CorrectIn(pairs: seq<(bool, bool)>, second: bool): nat {
    if pairs == [] then 0
    else
      var last := pairs[|pairs| - 1];
      CorrectIn(pairs[..|pairs| - 1], second) + (if (if second then last.1 else last.0) then 1 else 0)
  }

  function Total(pairs: seq<(real, real)>, second: bool): real {
    if pairs == [] then 0.0
    else
      var last := pairs[|pairs| - 1];
      Total(pairs[..|pairs| - 1], second) + (if second then last.1 else last.0)
  }

  /** The two means over one paired population, and their difference. */
  function PairedMeanDelta(pairs: seq<(real, real)>): Triple {
    var a, b := Total(pairs, false), Total(pairs, true);
    Triple(Fraction(a, |pairs|), Fraction(b, |pairs|), Fraction(b - a, |pairs|))
  }

  lemma DeltaIsDifferenceOfMeans(pairs: seq<(real, real)>)
    ensures var t := PairedMeanDelta(pairs); t.delta.Value() == t.b.Value() - t.a.Value()
  {
    if pairs != [] { QuotientDifference(Total(pairs, false), Total(pairs, true), |pairs| as real); }
  }

  lemma QuotientDifference(a: real, b: real, n: real)
    requires n > 0.0
    ensures b / n - a / n == (b - a) / n
  {
  }

  function Share(k: int, n: nat): Fraction { Fraction(k as real, n) }

  // ---------------------------------------------------------------- the verdict

  function InitialReasons(eligibility: Option<Eligibility>): seq<Reason> {
    match eligibility
    case None => [NotAssessed]
    case Some(e) =>
      var given := MapSeq(text => FromEligibility(text), e.reasons);
      if !e.independenceDeclared && !exists i :: 0 <= i < |e.reasons| && Includes(e.reasons[i], "independence")
      then given + [IndependenceNotDeclared] else given
  }

  function Reasons(count: nat, t: Tally, eligibility: Option<Eligibility>): seq<Reason> {
    InitialReasons(eligibility)
    + (if count == 0 then [NoQuestions] else [])
    + (if t.incomplete > 0 then [IncompletePairs(t.incomplete)] else [])
    + (if t.nonBinary > 0 then [NonBinaryRecall(t.nonBinary)] else [])
  }

  function QuotientValue(q: Quotient): real {
    match q case One => 1.0 case Scaled(scaled, shift) => scaled as real / Pow2(shift) as real
  }

  /** The reported p-value, before its last rounding to a double. */
  function ReportedP(gains: nat, losses: nat): real
    requires Numerator(gains, losses) > 0
  {
    QuotientValue(Ratio(Numerator(gains, losses), Pow2(gains + losses)))
  }

  function Evident(gains: nat, losses: nat, p: real): Evidence {
    if p > ALPHA then Inconclusive else if gains > losses then BHigher else AHigher
  }

  lemma NumeratorPositive(gains: nat, losses: nat)
    ensures Numerator(gains, losses) > 0
  {
    var n, k := gains + losses, Least(gains, losses);
    BinomialEnds(n);
    TailGrows(n, 0, k);
    assert Tail(n, 0) == Tail(n, -1) + Binomial(n, 0);
  }

  /** The verdict, given the p-value of the tallied gains and losses. */
  function Infer(count: nat, t: Tally, eligibility: Option<Eligibility>, p: real): Inference {
    var reasons := Reasons(count, t, eligibility);
    if eligibility.None? || !eligibility.value.eligible || reasons != [] then Ineligible(reasons)
    else
      Eligible(count, t.gains, t.losses, t.gains + t.losses, p, Share(t.gains - t.losses, count),
               Evident(t.gains, t.losses, p))
  }

  lemma {:induction false} TallyBounded(ids: seq<string>, runA: Run, runB: Run, rOnly: bool)
    ensures var t := TallyOf(ids, runA, runB, rOnly); t.gains + t.losses + t.incomplete + t.nonBinary <= |ids|
  {
    if ids != [] { TallyBounded(ids[..|ids| - 1], runA, runB, rOnly); }
  }

  /** JavaScript arrays hold fewer than 2^32 elements. */
  const MAX_ARRAY_LENGTH: int := 0xFFFF_FFFF

  method TallyQuestions(ids: seq<string>, runA: Run, runB: Run, rOnly: bool) returns (t: Tally)
    ensures t == TallyOf(ids, runA, runB, rOnly)
  {
    var gains: nat, losses: nat, incomplete: nat, nonBinary: nat := 0, 0, 0, 0;
    for i := 0 to |ids|
      invariant Tally(gains, losses, incomplete, nonBinary) == TallyOf(ids[..i], runA, runB, rOnly)
    {
      assert ids[..i + 1][..i] == ids[..i];
      match Classify(runA, runB, ids[i], rOnly)
      case Incomplete => incomplete := incomplete + 1;
      case NonBinary => nonBinary := nonBinary + 1;
      case Decided(a, b) =>
        if b && !a { gains := gains + 1; }
        if a && !b { losses := losses + 1; }
    }
    assert ids[..|ids|] == ids;
    t := Tally(gains, losses, incomplete, nonBinary);
  }

  /** The exact test on the tally; its precondition is the test's own bound on safe integers. */
  method TestTally(t: Tally) returns (p: real)
    requires t.gains + t.losses <= MAX_ARRAY_LENGTH
    ensures Numerator(t.gains, t.losses) > 0 && p == ReportedP(t.gains, t.losses)
  {
    NumeratorPositive(t.gains, t.losses);
    var test := ExactMcNemar(t.gains, t.losses);
    p := QuotientValue(test.value.p);
  }

  method BuildInference(ids: seq<string>, runA: Run, runB: Run, options: Options) returns (inference: Inference)
    requires |ids| <= MAX_ARRAY_LENGTH
    ensures var t := TallyOf(ids, runA, runB, options.rOnly);
            && Numerator(t.gains, t.losses) > 0
            && inference == Infer(|ids|, t, options.eligibility, ReportedP(t.gains, t.losses))
  {
    var reasons := InitialReasons(options.eligibility);
    var t := TallyQuestions(ids, runA, runB, options.rOnly);
    if ids == [] { reasons := reasons + [NoQuestions]; }
    if t.incomplete > 0 { reasons := reasons + [IncompletePairs(t.incomplete)]; }
    if t.nonBinary > 0 { reasons := reasons + [NonBinaryRecall(t.nonBinary)]; }
    assert reasons == Reasons(|ids|, t, options.eligibility);
    TallyBounded(ids, runA, runB, options.rOnly);
    NumeratorPositive(t.gains, t.losses);
    if options.eligibility.None? || !options.eligibility.value.eligible || reasons != [] {
      inference := Ineligible(reasons);
    } else {
      var p := TestTally(t);
      inference := Eligible(|ids|, t.gains, t.losses, t.gains + t.losses, p, Share(t.gains - t.losses, |ids|),
                            Evident(t.gains, t.losses, p));
    }
  }

  // ---------------------------------------------------------------- the join

  function Recall50(m: Metrics): Option<real> { m.recallAnyAt50 }
  function TurnRecall10(m: Metrics): Option<real> { m.turnRecallAnyAt10 }
  function TurnRecall50(m: Metrics): Option<real> { m.turnRecallAnyAt50 }

  function Abs(x: real): real { if x < 0.0 then -x else x }

  function Threshold(baselineFlips: Option<int>): int {
    var t := (if baselineFlips.Some? then baselineFlips.value else 0) + 1;
    if t > NET_Q_FLIP_THRESHOLD then t else NET_Q_FLIP_THRESHOLD
  }

  function QuestionIds(runA: Run, runB: Run): seq<string> { Sorted(runA.Keys + runB.Keys) }

  function Assemble(
    ids: seq<string>, r10: seq<(real, real)>, r50: seq<(real, real)>, t10: seq<(real, real)>, t50: seq<(real, real)>,
    q: seq<(bool, bool)>, aOnly: nat, bOnly: nat, netQFlips: int, inference: Inference, options: Options): Report
  {
    var netR := Total(r10, true) - Total(r10, false);
    Report(|ids|, |q|, |r10|, aOnly, bOnly,
           PairedMeanDelta(r10), PairedMeanDelta(r50), PairedMeanDelta(t10), PairedMeanDelta(t50),
           Triple(Share(CorrectIn(q, false), |q|), Share(CorrectIn(q, true), |q|), Share(netQFlips, |q|)),
           netR, netQFlips, inference,
           inference.Eligible? && inference.evidence != Inconclusive,
           Threshold(options.baselineFlips),
           Abs(netR) >= NET_R_THRESHOLD && netQFlips == 0)
  }

  function TallyBoth(runA: Run, runB: Run, options: Options): Tally {
    TallyOf(QuestionIds(runA, runB), runA, runB, options.rOnly)
  }

  /** The p-value of a pair of runs. */
  function TestP(runA: Run, runB: Run, options: Options): real {
    var t := TallyBoth(runA, runB, options);
    NumeratorPositive(t.gains, t.losses);
    ReportedP(t.gains, t.losses)
  }

  /** The report, given that p-value. */
  function Join(runA: Run, runB: Run, options: Options, p: real): Report {
    var ids := QuestionIds(runA, runB);
    var q := JudgedPairs(ids, runA, runB);
    Assemble(ids, RecallPairs(ids, runA, runB, Recall10), RecallPairs(ids, runA, runB, Recall50),
             RecallPairs(ids, runA, runB, TurnRecall10), RecallPairs(ids, runA, runB, TurnRecall50), q,
             Unpaired(ids, runA, runB), Unpaired(ids, runB, runA), NetFlips(q),
             Infer(|ids|, TallyBoth(runA, runB, options), options.eligibility, p), options)
  }

  function PushPair(
    pairs: seq<(real, real)>, runA: Run, runB: Run, id: string, f: Metrics -> Option<real>): seq<(real, real)> {
    var a, b := RecallOf(runA, id, f), RecallOf(runB, id, f);
    if a.Some? && b.Some? then pairs + [(a.value, b.value)] else pairs
  }

  datatype Pairs = Pairs(
    r10: seq<(real, real)>, r50: seq<(real, real)>, t10: seq<(real, real)>, t50: seq<(real, real)>,
    q: seq<(bool, bool)>, aOnly: nat, bOnly: nat)

  function PairsOf(ids: seq<string>, runA: Run, runB: Run): Pairs {
    Pairs(RecallPairs(ids, runA, runB, Recall10), RecallPairs(ids, runA, runB, Recall50),
          RecallPairs(ids, runA, runB, TurnRecall10), RecallPairs(ids, runA, runB, TurnRecall50),
          JudgedPairs(ids, runA, runB), Unpaired(ids, runA, runB), Unpaired(ids, runB, runA))
  }

  function PushQuestion(p: Pairs, runA: Run, runB: Run, id: string): Pairs {
    var a, b := RecallOf(runA, id, Recall10), RecallOf(runB, id, Recall10);
    var judged := JudgedPair(runA, runB, id);
    Pairs(PushPair(p.r10, runA, runB, id, Recall10), PushPair(p.r50, runA, runB, id, Recall50),
          PushPair(p.t10, runA, runB, id, TurnRecall10), PushPair(p.t50, runA, runB, id, TurnRecall50),
          if judged.Some? then p.q + [judged.value] else p.q,
          if a.Some? && b.None? then p.aOnly + 1 else p.aOnly,
          if a.None? && b.Some? then p.bOnly + 1 else p.bOnly)
  }

  lemma PairsSnoc(ids: seq<string>, i: nat, runA: Run, runB: Run)
    requires i < |ids|
    ensures PairsOf(ids[..i + 1], runA, runB) == PushQuestion(PairsOf(ids[..i], runA, runB), runA, runB, ids[i])
  {
    assert ids[..i + 1][..i] == ids[..i];
  }

  method CountNetFlips(q: seq<(bool, bool)>) returns (net: int)
    ensures net == NetFlips(q)
  {
    net := 0;
    for i := 0 to |q|
      invariant net == NetFlips(q[..i])
    {
      assert q[..i + 1][..i] == q[..i];
      if q[i].1 && !q[i].0 { net := net + 1; }
      if q[i].0 && !q[i].1 { net := net - 1; }
    }
    assert q[..|q|] == q;
  }

  method JoinB2Runs(runA: Run, runB: Run, options: Options) returns (report: Report)
    requires |runA.Keys + runB.Keys| <= MAX_ARRAY_LENGTH
    ensures report == Join(runA, runB, options, TestP(runA, runB, options))
  {
    var ids := QuestionIds(runA, runB);
    var pairs := Pairs([], [], [], [], [], 0, 0);
    for i := 0 to |ids|
      invariant pairs == PairsOf(ids[..i], runA, runB)
    {
      PairsSnoc(ids, i, runA, runB);
      pairs := PushQuestion(pairs, runA, runB, ids[i]);
    }
    assert ids[..|ids|] == ids;
    var netQFlips := CountNetFlips(pairs.q);
    var inference := BuildInference(ids, runA, runB, options);
    report := Assemble(ids, pairs.r10, pairs.r50, pairs.t10, pairs.t50, pairs.q, pairs.aOnly, pairs.bOnly,
                       netQFlips, inference, options);
  }

  datatype FlipRate = FlipRate(judgedInBoth: nat, flips: nat, flipRate: Fraction)

  function FlipCount(pairs: seq<(bool, bool)>): nat {
    if pairs == [] then 0
    else FlipCount(pairs[..|pairs| - 1]) + (if pairs[|pairs| - 1].0 != pairs[|pairs| - 1].1 then 1 else 0)
  }

  /** `order` is the order in which the map yields its keys. */
  method B2FlipRate(baselineA: Run, baselineB: Run, order: seq<string>) returns (r: FlipRate)
    ensures var pairs := JudgedPairs(order, baselineA, baselineB);
            r == FlipRate(|pairs|, FlipCount(pairs), Share(FlipCount(pairs), |pairs|))
  {
    ghost var pairs := [];
    var judged: nat, flips: nat := 0, 0;
    for i := 0 to |order|
      invariant pairs == JudgedPairs(order[..i], baselineA, baselineB)
      invariant judged == |pairs| && flips == FlipCount(pairs)
    {
      assert order[..i + 1][..i] == order[..i];
      var pair := JudgedPair(baselineA, baselineB, order[i]);
      if pair.Some? {
        judged := judged + 1;
        if pair.value.0 != pair.value.1 { flips := flips + 1; }
        assert (pairs + [pair.value])[..|pairs|] == pairs;
        pairs := pairs + [pair.value];
      }
    }
    assert order[..|order|] == order;
    r := FlipRate(judged, flips, Share(flips, judged));
  }

  // ---------------------------------------------------------------- consistency

  predicate JudgedGain(runA: Run, runB: Run, id: string) { JudgedPair(runA, runB, id) == Some((false, true)) }

  predicate JudgedLoss(runA: Run, runB: Run, id: string) { JudgedPair(runA, runB, id) == Some((true, false)) }

  function GainSet(runA: Run, runB: Run): set<string> { set id | id in runA.Keys && JudgedGain(runA, runB, id) }

  function LossSet(runA: Run, runB: Run): set<string> { set id | id in runA.Keys && JudgedLoss(runA, runB, id) }

  lemma FlipsSnoc(q: seq<(bool, bool)>, pair: (bool, bool))
    ensures NetFlips(q + [pair]) == NetFlips(q) + Flip(pair)
    ensures FlipCount(q + [pair]) == FlipCount(q) + (if pair.0 != pair.1 then 1 else 0)
  {
    assert (q + [pair])[..|q|] == q;
  }

  lemma TotalSnoc(r: seq<(real, real)>, pair: (real, real))
    ensures Total(r + [pair], true) == Total(r, true) + pair.1
    ensures Total(r + [pair], false) == Total(r, false) + pair.0
  {
    assert (r + [pair])[..|r|] == r;
  }

  lemma AddMember(s: set<string>, ids: set<string>, id: string)
    requires id !in ids
    ensures |s * (ids + {id})| == |s * ids| + (if id in s then 1 else 0)
  {
    if id in s {
      assert s * (ids + {id}) == s * ids + {id};
    } else {
      assert s * (ids + {id}) == s * ids;
    }
  }

  /** Counting along any duplicate-free list of questions counts sets of questions. */
  lemma {:induction false} FlipsAreSets(ids: seq<string>, runA: Run, runB: Run)
    requires NoRepeats(ids)
    ensures var q, gains, losses := JudgedPairs(ids, runA, runB), GainSet(runA, runB) * Members(ids),
              LossSet(runA, runB) * Members(ids);
            NetFlips(q) == |gains| - |losses| && FlipCount(q) == |gains| + |losses|
    decreases |ids|
  {
    if ids == [] {
      assert Members(ids) == {};
    } else {
      var n := |ids| - 1;
      var rest, id := ids[..n], ids[n];
      FlipsAreSets(rest, runA, runB);
      assert id !in Members(rest);
      assert Members(ids) == Members(rest) + {id};
      AddMember(GainSet(runA, runB), Members(rest), id);
      AddMember(LossSet(runA, runB), Members(rest), id);
      var pair := JudgedPair(runA, runB, id);
      if pair.Some? { FlipsSnoc(JudgedPairs(rest, runA, runB), pair.value); }
    }
  }

  /** The parts of the report, one by one. */
  lemma JoinParts(runA: Run, runB: Run, options: Options, p: real)
    ensures var r, ids := Join(runA, runB, options, p), QuestionIds(runA, runB);
            var t, q, r10 := TallyBoth(runA, runB, options), JudgedPairs(ids, runA, runB),
                RecallPairs(ids, runA, runB, Recall10);
            && r.questionCount == |ids| && r.inference == Infer(|ids|, t, options.eligibility, p)
            && r.netQFlips == NetFlips(q) && r.judgedInBoth == |q| && r.accuracy.delta == Share(NetFlips(q), |q|)
            && r.netR == Total(r10, true) - Total(r10, false) && r.rPaired == |r10|
               && r.recallAnyAt10 == PairedMeanDelta(r10)
            && r.aOnly == Unpaired(ids, runA, runB) && r.bOnly == Unpaired(ids, runB, runA)
            && r.isReal == (r.inference.Eligible? && r.inference.evidence != Inconclusive)
  {
  }

  /**
   * The baseline flip count against the net movement of the same two runs, whatever order the map
   * yields: one is the sum and the other the difference of the same two counts.  So the net never
   * exceeds the flips and has their parity.
   */
  lemma NetFlipsBoundedByFlipRate(runA: Run, runB: Run, order: seq<string>, options: Options, p: real)
    returns (gains: nat, losses: nat)
    requires NoRepeats(order) && Members(order) == runA.Keys
    ensures Join(runA, runB, options, p).netQFlips == gains - losses
    ensures FlipCount(JudgedPairs(order, runA, runB)) == gains + losses
  {
    JoinParts(runA, runB, options, p);
    gains, losses := NetAndFlips(runA, runB, order);
  }

  lemma NetAndFlips(runA: Run, runB: Run, order: seq<string>) returns (gains: nat, losses: nat)
    requires NoRepeats(order) && Members(order) == runA.Keys
    ensures NetFlips(JudgedPairs(QuestionIds(runA, runB), runA, runB)) == gains - losses
    ensures FlipCount(JudgedPairs(order, runA, runB)) == gains + losses
  {
    var ids := QuestionIds(runA, runB);
    SortedHasNoRepeats(runA.Keys + runB.Keys);
    FlipsAreSets(ids, runA, runB);
    FlipsAreSets(order, runA, runB);
    FlipSetsCovered(runA, runB, Members(ids));
    FlipSetsCovered(runA, runB, Members(order));
    gains, losses := |GainSet(runA, runB)|, |LossSet(runA, runB)|;
  }

  lemma FlipSetsCovered(runA: Run, runB: Run, ids: set<string>)
    requires runA.Keys <= ids
    ensures GainSet(runA, runB) * ids == GainSet(runA, runB) && LossSet(runA, runB) * ids == LossSet(runA, runB)
  {
  }

  /** With every pair judged yes or no, the tally and the descriptive join see the same questions. */
  lemma {:induction false} CompleteTallyIsNet(ids: seq<string>, runA: Run, runB: Run)
    requires TallyOf(ids, runA, runB, false).incomplete == 0
    ensures var t, q := TallyOf(ids, runA, runB, false), JudgedPairs(ids, runA, runB);
            |q| == |ids| && NetFlips(q) == t.gains - t.losses
  {
    if ids != [] {
      var n := |ids| - 1;
      CompleteTallyIsNet(ids[..n], runA, runB);
      var q, pair := JudgedPairs(ids[..n], runA, runB), JudgedPair(runA, runB, ids[n]);
      assert pair.Some?;
      FlipsSnoc(q, pair.value);
    }
  }

  lemma {:induction false} CompleteTallyIsNetRecall(ids: seq<string>, runA: Run, runB: Run)
    requires var t := TallyOf(ids, runA, runB, true); t.incomplete == 0 && t.nonBinary == 0
    ensures var t, r := TallyOf(ids, runA, runB, true), RecallPairs(ids, runA, runB, Recall10);
            |r| == |ids| && Total(r, true) - Total(r, false) == (t.gains - t.losses) as real
  {
    if ids != [] {
      var n := |ids| - 1;
      CompleteTallyIsNetRecall(ids[..n], runA, runB);
      var r := RecallPairs(ids[..n], runA, runB, Recall10);
      var a, b := RecallOf(runA, ids[n], Recall10), RecallOf(runB, ids[n], Recall10);
      assert a.Some? && b.Some?;
      TotalSnoc(r, (a.value, b.value));
    }
  }

  /** An eligible verdict on judged answers and the descriptive join tell one story ... */
  lemma EligibleAgreesWithJoin(runA: Run, runB: Run, options: Options, p: real)
    requires !options.rOnly && Join(runA, runB, options, p).inference.Eligible?
    ensures var r := Join(runA, runB, options, p);
            && r.inference.gains - r.inference.losses == r.netQFlips
            && r.inference.differenceInProportion == r.accuracy.delta
            && r.judgedInBoth == r.inference.n == r.questionCount
  {
    var ids := QuestionIds(runA, runB);
    JoinParts(runA, runB, options, p);
    InferEligible(|ids|, TallyBoth(runA, runB, options), options.eligibility, p);
    CompleteTallyIsNet(ids, runA, runB);
  }

  /** ... and so do one on recall and the net recall movement. */
  lemma EligibleAgreesWithRecall(runA: Run, runB: Run, options: Options, p: real)
    requires options.rOnly && Join(runA, runB, options, p).inference.Eligible?
    ensures var r := Join(runA, runB, options, p);
            && (r.inference.gains - r.inference.losses) as real == r.netR
            && r.inference.differenceInProportion == r.recallAnyAt10.delta
            && r.rPaired == r.inference.n == r.questionCount
  {
    var ids := QuestionIds(runA, runB);
    JoinParts(runA, runB, options, p);
    InferEligible(|ids|, TallyBoth(runA, runB, options), options.eligibility, p);
    CompleteTallyIsNetRecall(ids, runA, runB);
  }

  lemma InferEligible(count: nat, t: Tally, eligibility: Option<Eligibility>, p: real)
    requires Infer(count, t, eligibility, p).Eligible?
    ensures var v := Infer(count, t, eligibility, p);
            && count > 0 && t.incomplete == 0 && t.nonBinary == 0
            && v.n == count && v.gains == t.gains && v.losses == t.losses && v.p == p
            && v.differenceInProportion == Share(t.gains - t.losses, count)
            && v.evidence == Evident(t.gains, t.losses, p)
  {
    assert Reasons(count, t, eligibility) == [];
  }

  lemma BalancedTestIsOne(runA: Run, runB: Run, options: Options)
    ensures var t := TallyBoth(runA, runB, options);
            -1 <= t.gains - t.losses <= 1 ==> TestP(runA, runB, options) == 1.0
  {
    var t := TallyBoth(runA, runB, options);
    NumeratorPositive(t.gains, t.losses);
    if -1 <= t.gains - t.losses <= 1 { ReportsOneExactlyWhenBalanced(t.gains, t.losses); }
  }

  /** A tie, or a difference of one, can never be evidence; so `a-higher` means strictly more losses. */
  lemma EvidencePointsTheRightWay(runA: Run, runB: Run, options: Options, p: real)
    requires p == TestP(runA, runB, options) && Join(runA, runB, options, p).inference.Eligible?
    ensures var v := Join(runA, runB, options, p).inference;
            && (v.evidence == AHigher ==> v.losses > v.gains + 1)
            && (v.evidence == BHigher ==> v.gains > v.losses + 1)
  {
    BalancedTestIsOne(runA, runB, options);
    JoinParts(runA, runB, options, p);
    InferEligible(|QuestionIds(runA, runB)|, TallyBoth(runA, runB, options), options.eligibility, p);
  }

  lemma {:induction false} TallySwaps(ids: seq<string>, runA: Run, runB: Run, rOnly: bool)
    ensures var t := TallyOf(ids, runA, runB, rOnly);
            TallyOf(ids, runB, runA, rOnly) == t.(gains := t.losses, losses := t.gains)
  {
    if ids != [] { TallySwaps(ids[..|ids| - 1], runA, runB, rOnly); }
  }

  lemma {:induction false} JudgedPairsSwap(ids: seq<string>, runA: Run, runB: Run)
    ensures var q, q' := JudgedPairs(ids, runA, runB), JudgedPairs(ids, runB, runA);
            |q| == |q'| && NetFlips(q') == -NetFlips(q)
  {
    if ids != [] {
      var n := |ids| - 1;
      JudgedPairsSwap(ids[..n], runA, runB);
      var q, q', pair := JudgedPairs(ids[..n], runA, runB), JudgedPairs(ids[..n], runB, runA),
          JudgedPair(runA, runB, ids[n]);
      if pair.Some? {
        FlipsSnoc(q, pair.value);
        assert JudgedPair(runB, runA, ids[n]) == Some((pair.value.1, pair.value.0));
        FlipsSnoc(q', (pair.value.1, pair.value.0));
      }
    }
  }

  lemma {:induction false} RecallPairsSwap(ids: seq<string>, runA: Run, runB: Run)
    ensures var r, r' := RecallPairs(ids, runA, runB, Recall10), RecallPairs(ids, runB, runA, Recall10);
            |r| == |r'| && Total(r', true) == Total(r, false) && Total(r', false) == Total(r, true)
  {
    if ids != [] {
      var n := |ids| - 1;
      RecallPairsSwap(ids[..n], runA, runB);
      var r, r' := RecallPairs(ids[..n], runA, runB, Recall10), RecallPairs(ids[..n], runB, runA, Recall10);
      var a, b := RecallOf(runA, ids[n], Recall10), RecallOf(runB, ids[n], Recall10);
      if a.Some? && b.Some? {
        TotalSnoc(r, (a.value, b.value));
        TotalSnoc(r', (b.value, a.value));
      }
    }
  }

  function Opposite(e: Evidence): Evidence {
    match e case BHigher => AHigher case AHigher => BHigher case Inconclusive => Inconclusive
  }

  lemma InferenceSwaps(count: nat, t: Tally, eligibility: Option<Eligibility>, p: real)
    requires -1 <= t.gains - t.losses <= 1 ==> p == 1.0
    ensures var v, v' := Infer(count, t, eligibility, p),
              Infer(count, t.(gains := t.losses, losses := t.gains), eligibility, p);
            match v
            case Ineligible(reasons) => v' == v
            case Eligible(n, gains, losses, discordant, p, difference, evidence) =>
              v' == Eligible(n, losses, gains, discordant, p, difference.Negated(), Opposite(evidence))
  {
  }

  lemma TestPSwaps(runA: Run, runB: Run, options: Options)
    ensures TestP(runB, runA, options) == TestP(runA, runB, options)
  {
    assert runA.Keys + runB.Keys == runB.Keys + runA.Keys;
    TallySwaps(QuestionIds(runA, runB), runA, runB, options.rOnly);
    var t := TallyBoth(runA, runB, options);
    NumeratorPositive(t.gains, t.losses);
    NumeratorPositive(t.losses, t.gains);
    ReportedPSymmetric(t.gains, t.losses);
  }

  lemma ReportedPSymmetric(gains: nat, losses: nat)
    requires Numerator(gains, losses) > 0 && Numerator(losses, gains) > 0
    ensures ReportedP(gains, losses) == ReportedP(losses, gains)
  {
  }

  lemma JoinNetsSwap(runA: Run, runB: Run, options: Options, p: real)
    ensures var r, s := Join(runA, runB, options, p), Join(runB, runA, options, p);
            && s.netQFlips == -r.netQFlips && s.netR == -r.netR
            && s.judgedInBoth == r.judgedInBoth && s.rPaired == r.rPaired && s.aOnly == r.bOnly && s.bOnly == r.aOnly
  {
    var ids := QuestionIds(runA, runB);
    assert runA.Keys + runB.Keys == runB.Keys + runA.Keys;
    JoinParts(runA, runB, options, p);
    JoinParts(runB, runA, options, p);
    JudgedPairsSwap(ids, runA, runB);
    RecallPairsSwap(ids, runA, runB);
  }

  /** Swapping the runs keeps the p-value and flips the verdict's direction; see JoinNetsSwap for the nets. */
  lemma JoinSwaps(runA: Run, runB: Run, options: Options, p: real)
    requires p == TestP(runA, runB, options)
    ensures p == TestP(runB, runA, options)
    ensures var v, v' := Join(runA, runB, options, p).inference, Join(runB, runA, options, p).inference;
            match v
            case Ineligible(_) => v' == v
            case Eligible(n, gains, losses, discordant, p, difference, evidence) =>
              v' == Eligible(n, losses, gains, discordant, p, difference.Negated(), Opposite(evidence))
  {
    TestPSwaps(runA, runB, options);
    BalancedTestIsOne(runA, runB, options);
    JoinVerdictSwaps(runA, runB, options, p);
  }

  lemma JoinVerdictSwaps(runA: Run, runB: Run, options: Options, p: real)
    requires var t := TallyBoth(runA, runB, options); -1 <= t.gains - t.losses <= 1 ==> p == 1.0
    ensures var v, v' := Join(runA, runB, options, p).inference, Join(runB, runA, options, p).inference;
            match v
            case Ineligible(_) => v' == v
            case Eligible(n, gains, losses, discordant, p, difference, evidence) =>
              v' == Eligible(n, losses, gains, discordant, p, difference.Negated(), Opposite(evidence))
  {
    var ids := QuestionIds(runA, runB);
    assert runA.Keys + runB.Keys == runB.Keys + runA.Keys;
    JoinParts(runA, runB, options, p);
    JoinParts(runB, runA, options, p);
    TallySwaps(ids, runA, runB, options.rOnly);
    InferenceSwaps(|ids|, TallyBoth(runA, runB, options), options.eligibility, p);
  }
}
