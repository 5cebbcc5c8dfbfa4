/** Paid scoring over a persisted sidecar: what survives crashes, and what is never paid for twice. */
module ResumableScoring {
  import opened Common
  import opened Hypothesis

  // ---------------------------------------------------------------- the sidecar

  datatype Row =
    | Answered(hypothesis: string)
    | Judged(hypothesis: string, verdict: string)
    | Unreliable(hypothesis: string, reason: Reason)
  {
    predicate Terminal() { !Answered? }
  }

  datatype Reason = Truncated | NoAnswer(parsed: Parsed) | JudgeFailure

  type Rows = map<string, Row>

  datatype Recorded = Recorded(rows: Rows) | Refused(stage: Row) | NothingToJudge

  function RecordAnswer(rows: Rows, q: string, hypothesis: string): Recorded {
    if q in rows && rows[q].Terminal() then Refused(rows[q]) else Recorded(rows[q := Answered(hypothesis)])
  }

  function RecordUnreliable(rows: Rows, q: string, reason: Reason): Recorded {
    if q in rows && rows[q].Terminal() then Refused(rows[q]) else Recorded(rows[q := Unreliable("", reason)])
  }

  function RecordVerdict(rows: Rows, q: string, verdict: string): Recorded {
    if q !in rows then NothingToJudge
    else if rows[q].Terminal() then Refused(rows[q])
    else Recorded(rows[q := Judged(rows[q].hypothesis, verdict)])
  }

  /** What a completed answer call is recorded as: truncation first, then an answer that cannot be read. */
  function RecordCompletion(rows: Rows, q: string, truncated: bool, parsed: Parsed): (r: Recorded)
    ensures q !in rows ==> r.Recorded? && q in r.rows
    ensures q !in rows ==> r.rows[q] == if !truncated && parsed.Answer? then Answered(parsed.answer)
                                        else Unreliable("", if truncated then Truncated else NoAnswer(parsed))
  {
    if truncated then RecordUnreliable(rows, q, Truncated)
    else if !parsed.Answer? then RecordUnreliable(rows, q, NoAnswer(parsed))
    else RecordAnswer(rows, q, parsed.answer)
  }

  /** The only ways one persisted row can come to look different. */
  predicate RowEvolves(a: Row, b: Row) {
    if a.Terminal() then b == a else b.hypothesis == a.hypothesis
  }

  predicate Evolves(a: Rows, b: Rows) {
    forall q :: q in a ==> q in b && RowEvolves(a[q], b[q])
  }

  predicate OnlyAt(a: Rows, b: Rows, q: string) {
    a.Keys - {q} == b.Keys - {q} && forall x :: x in a && x != q ==> x in b && b[x] == a[x]
  }

  lemma EvolvesTransitive(a: Rows, b: Rows, c: Rows)
    requires Evolves(a, b) && Evolves(b, c)
    ensures Evolves(a, c)
  {
    forall q | q in a ensures q in c && RowEvolves(a[q], c[q]) { assert q in b && RowEvolves(a[q], b[q]); }
  }

  // ---------------------------------------------------------------- one case

  datatype Material = Material(upstreamFailure: bool, abstention: bool, goldAnswer: string,
      questionType: Option<string>)

  datatype Unavailable = MissingGold | UnsupportedType

  const SUPPORTED_TYPES: set<string> := {
    "single-session-user", "single-session-preference", "single-session-assistant",
    "multi-session", "temporal-reasoning", "knowledge-update"}

  /** Whether a case has no measurable target at all. */
  function Ineligible(q: string, m: Material): Option<Unavailable> {
    if !(m.abstention || Includes(q, "_abs")) && Trim(m.goldAnswer) == "" then Some(MissingGold)
    else if m.questionType.None? || m.questionType.value !in SUPPORTED_TYPES then Some(UnsupportedType)
    else None
  }

  predicate QuoteLike(c: char) { c in {'"', '\'', '`', '*'} || IsSpace(c) }

  function SkipQuotes(s: string): string { if s != "" && QuoteLike(s[0]) then SkipQuotes(s[1..]) else s }

  function Lower(c: char): char { if 'A' <= c <= 'Z' then c - 'A' + 'a' else c }

  predicate WordChar(c: char) { 'a' <= c <= 'z' || 'A' <= c <= 'Z' || '0' <= c <= '9' || c == '_' }

  predicate StartsWithWord(s: string, word: string) {
    |word| <= |s| && (forall i :: 0 <= i < |word| ==> Lower(s[i]) == word[i]) && (|s| == |word| || !WordChar(s[|word|]))
  }

  function ParseVerdict(content: string): Option<string> {
    var s := SkipQuotes(Trim(content));
    if StartsWithWord(s, "yes") then Some("yes") else if StartsWithWord(s, "no") then Some("no") else None
  }

  /** What the world does at one provider call or one write. */
  datatype Event = Event(died: bool, fails: bool, content: string, truncated: bool)

  datatype Outcome<+T> = Done(value: T) | Stopped

  datatype CaseResult = CaseJudged | CaseUnreliable | CaseUnavailable(why: Unavailable)

  const JUDGE_CONTENT_RETRIES: nat := 1

  /** Every completed answer call is on disk, once, or was lost to a stop before its write. */
  ghost predicate Accounted(disk: Rows, completed: multiset<string>, lost: multiset<string>) {
    completed == lost + multiset(disk.Keys)
  }

  lemma PaidAndLost(disk: Rows, completed: multiset<string>, lost: multiset<string>, q: string)
    requires Accounted(disk, completed, lost)
    ensures Accounted(disk, completed + multiset{q}, lost + multiset{q})
  {
  }

  lemma PaidAndRecorded(disk: Rows, completed: multiset<string>, lost: multiset<string>, q: string, row: Row)
    requires Accounted(disk, completed, lost + multiset{q}) && q !in disk
    ensures Accounted(disk[q := row], completed, lost)
  {
    assert multiset(disk[q := row].Keys) == multiset(disk.Keys) + multiset{q};
  }

  /** At most one more answer was lost. */
  ghost predicate OneMoreAtMost(before: multiset<string>, after: multiset<string>) {
    before <= after && |after| <= |before| + 1
  }

  lemma LostInAll(before: multiset<string>, mid: multiset<string>, after: multiset<string>, q: string)
    requires mid == before && (after == mid || after == mid + multiset{q})
    ensures OneMoreAtMost(before, after)
  {
  }

  /** How one process ends; a material fault, a failed call or write, or its death all stop it. */
  datatype RunOutcome = Finished | Disagrees | StoppedShort

  function Stops(outcomes: seq<RunOutcome>): nat {
    if outcomes == [] then 0
    else Stops(outcomes[..|outcomes| - 1]) + (if outcomes[|outcomes| - 1] == StoppedShort then 1 else 0)
  }

  /** One process after another over one sidecar file, and the checkpoint of the scenarios called complete. */
  class Scorer {
    const env: nat -> Event
    const parse: Parser
    const scenarios: seq<seq<string>>
    var checkpoint: set<nat>
    var clock: nat
    var disk: Rows
    var memory: Rows
    var answerCalls: nat
    var judgeCalls: nat
    /** The questions of answer calls that completed, and of those whose result never reached the disk. */
    ghost var completed: multiset<string>
    ghost var lost: multiset<string>

    constructor (env: nat -> Event, parse: Parser, scenarios: seq<seq<string>>)
      ensures this.env == env && this.parse == parse && this.scenarios == scenarios
      ensures disk == map[] && memory == map[] && checkpoint == {} && lost == multiset{} && Valid() && Sound()
    {
      this.env, this.parse, this.scenarios, checkpoint := env, parse, scenarios, {};
      clock, disk, memory, answerCalls, judgeCalls := 0, map[], map[], 0, 0;
      completed, lost := multiset{}, multiset{};
    }

    ghost predicate Valid()
      reads this
    {
      Accounted(disk, completed, lost)
    }

    /** Every scenario the checkpoint calls complete is settled on disk. */
    ghost predicate Sound()
      reads this
    {
      CheckpointAgrees(scenarios, checkpoint, disk)
    }

    /** A process in the middle of a run has exactly the persisted rows in memory. */
    ghost predicate Running()
      reads this
    {
      Valid() && memory == disk
    }

    /** Every call and every write succeeds, and no process dies. */
    ghost predicate Responsive() { forall i :: !env(i).fails && !env(i).died }

    method Next() returns (e: Event)
      modifies this`clock
      ensures e == env(old(clock))
    {
      e := env(clock);
      clock := clock + 1;
    }

    /** The atomic replacement of the sidecar file: all of it or none of it. */
    method Write(rows: Rows) returns (written: bool, alive: bool)
      modifies this`clock, this`disk, this`memory
      ensures memory == rows && disk == (if written then rows else old(disk))
      ensures written == !env(old(clock)).fails && alive == (written && !env(old(clock)).died)
      ensures Responsive() ==> alive
    {
      memory := rows;
      var e := Next();
      written := !e.fails;
      if written { disk := rows; }
      alive := written && !e.died;
    }

    /** The answer call with its transport retries: a completion, or the end of this run. */
    method AnswerCall(q: string) returns (completion: Option<Event>)
      requires Running() && q !in disk
      modifies this`clock, this`answerCalls, this`completed, this`lost
      ensures memory == disk && answerCalls == old(answerCalls) + 1
      ensures var e := env(old(clock));
              && completion == (if e.fails || e.died then None else Some(e))
              && completed == (if e.fails then old(completed) else old(completed) + multiset{q})
              && lost == (if !e.fails && e.died then old(lost) + multiset{q} else old(lost))
      ensures if completion.None? then Valid() else Accounted(disk, completed, lost + multiset{q})
      ensures Responsive() ==> completion.Some?
    {
      PaidAndLost(disk, completed, lost, q);
      answerCalls := answerCalls + 1;
      var e := Next();
      if e.fails { return None; }
      completed := completed + multiset{q};
      if e.died {
        lost := lost + multiset{q};
        return None;
      }
      return Some(e);
    }

    /** Record and persist the outcome of a completed answer call. */
    method PersistAnswer(q: string, row: Row) returns (alive: bool)
      requires memory == disk && q !in disk && Accounted(disk, completed, lost + multiset{q})
      modifies this`clock, this`disk, this`memory, this`lost
      ensures Valid() && Evolves(old(disk), disk) && OnlyAt(old(disk), disk, q)
      ensures alive ==> Running() && disk == old(disk)[q := row]
      ensures lost == (if env(old(clock)).fails then old(lost) + multiset{q} else old(lost))
      ensures alive <==> !env(old(clock)).fails && !env(old(clock)).died
      ensures Responsive() ==> alive
    {
      var written;
      PaidAndRecorded(disk, completed, lost, q, row);
      written, alive := Write(memory[q := row]);
      if !written { lost := lost + multiset{q}; }
    }

    /** The answer stage: an answered row, an unreliable row, or a stopped run. */
    method GenerateAnswer(q: string) returns (r: Outcome<Option<string>>)
      requires Running() && q !in disk
      modifies this`clock, this`disk, this`memory, this`answerCalls, this`completed, this`lost
      ensures Valid() && Evolves(old(disk), disk) && OnlyAt(old(disk), disk, q)
      ensures answerCalls == old(answerCalls) + 1
      ensures lost == old(lost) || lost == old(lost) + multiset{q}
      ensures r.Done? ==> Running() && q in disk && lost == old(lost)
      ensures r.Done? && r.value.Some? ==> disk[q] == Answered(r.value.value)
      ensures r.Done? && r.value.None? ==> disk[q].Unreliable?
      ensures Responsive() ==> r.Done?
    {
      var completion := AnswerCall(q);
      if completion.None? { return Stopped; }
      var parsed := ParseOfficialHypothesis(completion.value.content, parse);
      var recorded := RecordCompletion(memory, q, completion.value.truncated, parsed);
      var alive := PersistAnswer(q, recorded.rows[q]);
      if !alive { return Stopped; }
      return Done(if !completion.value.truncated && parsed.Answer? then Some(parsed.answer) else None);
    }

    /** One judge call with its transport retries: a clean verdict, none, or the end of this run. */
    method JudgeCall() returns (r: Outcome<Option<string>>)
      modifies this`clock, this`judgeCalls
      ensures judgeCalls == old(judgeCalls) + 1
      ensures var e := env(old(clock));
              r == if e.fails || e.died then Stopped else Done(if e.truncated then None else ParseVerdict(e.content))
      ensures Responsive() ==> r.Done?
    {
      judgeCalls := judgeCalls + 1;
      var e := Next();
      if e.fails || e.died { return Stopped; }
      return Done(if e.truncated then None else ParseVerdict(e.content));
    }

    /** Record and persist the outcome of judging an answered question. */
    method PersistJudged(q: string, rows: Rows) returns (alive: bool)
      requires Running() && q in disk && q in rows && rows == disk[q := rows[q]] && RowEvolves(disk[q], rows[q])
      modifies this`clock, this`disk, this`memory
      ensures Valid() && Evolves(old(disk), disk) && OnlyAt(old(disk), disk, q)
      ensures alive ==> Running() && disk == rows
      ensures Responsive() ==> alive
    {
      var written;
      assert rows.Keys == disk.Keys;
      written, alive := Write(rows);
    }

    /** The judge stage on a persisted answer: at most two content calls. */
    method JudgeHypothesis(q: string) returns (r: Outcome<Option<string>>)
      requires Running() && q in disk && disk[q].Answered?
      modifies this`clock, this`disk, this`memory, this`judgeCalls
      ensures Valid() && Evolves(old(disk), disk) && OnlyAt(old(disk), disk, q)
      ensures old(judgeCalls) < judgeCalls <= old(judgeCalls) + JUDGE_CONTENT_RETRIES + 1
      ensures r.Done? ==> Running() && q in disk
      ensures r.Done? && r.value.Some? ==> disk[q] == Judged(old(disk)[q].hypothesis, r.value.value)
      ensures r.Done? && r.value.None? ==> disk[q] == Unreliable(old(disk)[q].hypothesis, JudgeFailure)
      ensures Responsive() ==> r.Done?
    {
      var hypothesis := memory[q].hypothesis;
      var judgeCall := 0;
      while judgeCall <= JUDGE_CONTENT_RETRIES
        invariant memory == disk == old(disk) && judgeCall <= JUDGE_CONTENT_RETRIES + 1
        invariant judgeCalls == old(judgeCalls) + judgeCall
      {
        r := JudgeCall();
        if r.Stopped? { return; }
        if r.value.Some? {
          var recorded := RecordVerdict(memory, q, r.value.value);
          var alive := PersistJudged(q, recorded.rows);
          return if alive then r else Stopped;
        }
        judgeCall := judgeCall + 1;
      }
      // The paid answer stays on the unreliable row.
      var recorded := RecordUnreliable(memory, q, JudgeFailure);
      var alive := PersistJudged(q, recorded.rows[q := Unreliable(hypothesis, JudgeFailure)]);
      r := if alive then Done(None) else Stopped;
    }

    /** One declared case, from whatever the sidecar already holds for it. */
    method ScoreCase(q: string, m: Material) returns (r: Outcome<CaseResult>)
      requires Running()
      modifies this`clock, this`disk, this`memory, this`answerCalls, this`judgeCalls, this`completed, this`lost
      ensures Valid() && Evolves(old(disk), disk) && OnlyAt(old(disk), disk, q)
      ensures q in old(disk) && old(disk)[q].Terminal() ==>
                r.Done? && disk == old(disk) && judgeCalls == old(judgeCalls)
      ensures q in old(disk) ==> answerCalls == old(answerCalls) && completed == old(completed) && lost == old(lost)
      ensures answerCalls <= old(answerCalls) + 1 && judgeCalls <= old(judgeCalls) + JUDGE_CONTENT_RETRIES + 1
      ensures lost == old(lost) || lost == old(lost) + multiset{q}
      ensures r.Done? ==> lost == old(lost)
      ensures r.Done? ==> Running() && Reports(disk, q, r.value)
      ensures r.Done? ==> Usable(old(disk), q, m) && (r.value.CaseUnavailable? <==> !Resolvable(old(disk), q, m))
      ensures Responsive() && Usable(old(disk), q, m) ==> r.Done?
    {
      if q in memory && memory[q].Judged? { return Done(CaseJudged); }
      if q in memory && memory[q].Unreliable? { return Done(CaseUnreliable); }
      if m.upstreamFailure { return Stopped; }
      var ineligible := Ineligible(q, m);
      if ineligible.Some? { return Done(CaseUnavailable(ineligible.value)); }
      ghost var before := disk;
      if q !in memory {
        var generated := GenerateAnswer(q);
        if generated.Stopped? { return Stopped; }
        if generated.value.None? { return Done(CaseUnreliable); }
      }
      ghost var answered := disk;
      var verdict := JudgeHypothesis(q);
      EvolvesTransitive(before, answered, disk);
      if verdict.Stopped? { return Stopped; }
      return Done(if verdict.value.None? then CaseUnreliable else CaseJudged);
    }

    ghost predicate NoCallsSince(answers: nat, judges: nat)
      reads this
    {
      answerCalls == answers && judgeCalls == judges
    }

    /**
     * One declared scenario; a thrown error or a dead process stops it where it stands.  Answered by
     * everybody it always finishes, and it is complete exactly when every case has a target to measure.
     */
    method ScoreScenario(declared: seq<string>, material: map<string, Material>) returns (r: Outcome<ScenarioResult>)
      requires Running()
      modifies this`clock, this`disk, this`memory, this`answerCalls, this`judgeCalls, this`completed, this`lost
      ensures Valid() && Evolves(old(disk), disk)
      ensures OneMoreAtMost(old(lost), lost) && (r.Done? ==> lost == old(lost))
      ensures r.Done? ==> Running() && NoRepeats(declared) && Summarises(r.value, declared, disk)
      ensures r.Done? ==> AllUsable(declared, material, old(disk))
      ensures r.Done? ==> (r.value.complete <==> AllResolvable(declared, material, old(disk)))
      ensures Responsive() && NoRepeats(declared) && AllUsable(declared, material, old(disk)) ==> r.Done?
      ensures AllTerminal(declared, old(disk)) && NoRepeats(declared) && (forall q :: q in declared ==> q in material)
              ==> r.Done? && r.value.complete && NoCallsSince(old(answerCalls), old(judgeCalls)) && disk == old(disk)
    {
      var distinct := CheckDistinct(declared);
      if !distinct { return Stopped; }
      ghost var before := disk;
      var judged, unreliable, unavailable: seq<string> := [], [], [];
      var i := 0;
      while i < |declared|
        invariant i <= |declared| && Running() && Evolves(before, disk)
        invariant Scored(declared, i, material, before, disk, judged, unreliable, unavailable)
        invariant lost == old(lost)
        invariant AllTerminal(declared, before) ==>
                    disk == before && NoCallsSince(old(answerCalls), old(judgeCalls))
      {
        var q := declared[i];
        assert q in declared && (q in before <==> q in disk) && (q in before ==> before[q] == disk[q]);
        if q !in material { return Stopped; }
        ghost var mid := disk;
        var scored := ScoreCase(q, material[q]);
        EvolvesTransitive(before, mid, disk);
        if scored.Stopped? {
          LostInAll(old(lost), old(lost), lost, q);
          return Stopped;
        }
        NextScored(declared, i, material, before, mid, disk, scored.value, judged, unreliable, unavailable);
        match scored.value {
          case CaseJudged => judged := judged + [q];
          case CaseUnreliable => unreliable := unreliable + [q];
          case CaseUnavailable(_) => unavailable := unavailable + [q];
        }
        i := i + 1;
      }
      AllScored(declared, material, before, disk, judged, unreliable, unavailable);
      return Done(ScenarioResult(|judged| + |unreliable| == |declared|, judged, unreliable, unavailable));
    }

    ghost predicate AllRecorded()
      reads this
    {
      RecordedUpTo(checkpoint, |scenarios|)
    }

    /** The resume check: every declared case of every recorded scenario has a judged or unreliable row. */
    method CheckResume() returns (agrees: bool)
      ensures agrees <==> Sound()
    {
      agrees := true;
      var left := checkpoint;
      while left != {}
        invariant left <= checkpoint
        invariant agrees <==> CheckpointAgrees(scenarios, checkpoint - left, disk)
        decreases |left|
      {
        var i :| i in left;
        left := left - {i};
        if i < |scenarios| && !AllTerminal(scenarios[i], disk) { agrees := false; }
      }
      assert checkpoint - {} == checkpoint;
    }

    /** Record a scenario as complete; the whole file is replaced. */
    method RecordComplete(i: nat) returns (alive: bool)
      requires Running() && Sound() && i < |scenarios| && AllTerminal(scenarios[i], disk)
      modifies this`clock, this`checkpoint
      ensures Sound() && old(checkpoint) <= checkpoint <= old(checkpoint) + {i}
      ensures alive ==> checkpoint == old(checkpoint) + {i}
      ensures Responsive() ==> alive
    {
      var e := Next();
      if !e.fails { checkpoint := checkpoint + {i}; }
      alive := !e.fails && !e.died;
    }

    /** One scenario of a run: skipped when recorded, else scored, and recorded when complete. */
    method RunScenario(i: nat, material: map<string, Material>) returns (alive: bool)
      requires Running() && Sound() && i < |scenarios|
      modifies this`clock, this`disk, this`memory, this`answerCalls, this`judgeCalls, this`completed, this`lost
      modifies this`checkpoint
      ensures Valid() && Sound() && Evolves(old(disk), disk) && old(checkpoint) <= checkpoint
      ensures OneMoreAtMost(old(lost), lost) && (alive ==> Running() && lost == old(lost))
      ensures i in old(checkpoint) ==>
                alive && NoCallsSince(old(answerCalls), old(judgeCalls)) && disk == old(disk)
      ensures Responsive() && Scorable(scenarios[i], material, old(disk)) ==> alive
      ensures alive && AllResolvable(scenarios[i], material, old(disk)) ==> i in checkpoint
    {
      if i in checkpoint { return true; }
      ghost var before := disk;
      var r := ScoreScenario(scenarios[i], material);
      AgreementStays(scenarios, checkpoint, before, disk);
      if r.Stopped? { return false; }
      alive := true;
      if r.value.complete { alive := RecordComplete(i); }
    }

    /** The scenarios of a run, in order, up to the first that stops it. */
    method RunScenarios(materials: nat -> map<string, Material>) returns (alive: bool)
      requires Running() && Sound()
      modifies this`clock, this`disk, this`memory, this`answerCalls, this`judgeCalls, this`completed, this`lost
      modifies this`checkpoint
      ensures Valid() && Sound() && Evolves(old(disk), disk) && old(checkpoint) <= checkpoint
      ensures OneMoreAtMost(old(lost), lost) && (alive ==> lost == old(lost))
      ensures Responsive() && AllScorable(scenarios, materials, old(disk)) ==> alive
      ensures alive && AllScenariosResolvable(scenarios, materials, old(disk)) ==> AllRecorded()
      ensures old(AllRecorded()) ==> alive && NoCallsSince(old(answerCalls), old(judgeCalls)) && disk == old(disk)
    {
      ghost var before := disk;
      ghost var scorable, recorded := Responsive() && AllScorable(scenarios, materials, disk), AllRecorded();
      ghost var resolvable := AllScenariosResolvable(scenarios, materials, disk);
      for i := 0 to |scenarios|
        invariant Running() && Sound() && Evolves(before, disk) && old(checkpoint) <= checkpoint && lost == old(lost)
        invariant resolvable ==> RecordedUpTo(checkpoint, i)
        invariant recorded ==> NoCallsSince(old(answerCalls), old(judgeCalls)) && disk == before
      {
        ghost var mid, recordedBefore := disk, checkpoint;
        ScorableStays(scenarios[i], materials(i), before, mid);
        alive := RunScenario(i, materials(i));
        EvolvesTransitive(before, mid, disk);
        if !alive { return; }
        NextRecorded(recordedBefore, checkpoint, i);
      }
      alive := true;
    }

    /** One process: resume from what is on disk, and score every scenario not yet recorded. */
    method Run(materials: nat -> map<string, Material>) returns (r: RunOutcome)
      requires Valid()
      modifies this`clock, this`disk, this`memory, this`answerCalls, this`judgeCalls, this`completed, this`lost
      modifies this`checkpoint
      ensures Valid() && Evolves(old(disk), disk) && old(checkpoint) <= checkpoint
      ensures r == Disagrees <==> !old(Sound())
      ensures old(Sound()) ==> Sound()
      ensures OneMoreAtMost(old(lost), lost) && (r != StoppedShort ==> lost == old(lost))
      ensures Responsive() && old(Sound()) && AllScorable(scenarios, materials, old(disk)) ==> r == Finished
      ensures r == Finished && AllScenariosResolvable(scenarios, materials, old(disk)) ==> AllRecorded()
      ensures old(Sound() && AllRecorded()) ==>
                r == Finished && NoCallsSince(old(answerCalls), old(judgeCalls)) && disk == old(disk)
    {
      memory := disk;
      var agrees := CheckResume();
      if !agrees { return Disagrees; }
      var alive := RunScenarios(materials);
      r := if alive then Finished else StoppedShort;
    }

    /**
     * Any sequence of processes, each stopped wherever it happens to be.  Nobody pays for a question
     * more often than once and once more for every process stopped before, and no resume check fails.
     */
    method RunAll(runs: seq<nat -> map<string, Material>>) returns (outcomes: seq<RunOutcome>)
      requires Valid() && Sound()
      modifies this`clock, this`disk, this`memory, this`answerCalls, this`judgeCalls, this`completed, this`lost
      modifies this`checkpoint
      ensures Valid() && Sound() && Evolves(old(disk), disk) && old(checkpoint) <= checkpoint
      ensures forall q :: q in old(disk) ==>
                && q in disk && disk[q].hypothesis == old(disk)[q].hypothesis
                && (old(disk)[q].Terminal() ==> disk[q] == old(disk)[q])
      ensures |outcomes| == |runs| && forall i :: 0 <= i < |outcomes| ==> outcomes[i] != Disagrees
      ensures old(lost) <= lost && |lost| <= |old(lost)| + Stops(outcomes)
      ensures forall q :: completed[q] <= old(lost)[q] + Stops(outcomes) + 1
      ensures |completed| <= |disk| + |old(lost)| + Stops(outcomes)
    {
      ghost var before := disk;
      outcomes := [];
      for i := 0 to |runs|
        invariant Valid() && Sound() && Evolves(before, disk) && old(checkpoint) <= checkpoint
        invariant |outcomes| == i && forall j :: 0 <= j < i ==> outcomes[j] != Disagrees
        invariant old(lost) <= lost && |lost| <= |old(lost)| + Stops(outcomes)
      {
        ghost var mid := disk;
        var r := Run(runs[i]);
        EvolvesTransitive(before, mid, disk);
        assert (outcomes + [r])[..i] == outcomes;
        outcomes := outcomes + [r];
      }
      AnswersBounded(disk, completed, old(lost), lost, Stops(outcomes));
      forall q | q in before ensures q in disk && RowEvolves(before[q], disk[q]) {}
    }
  }

  // ---------------------------------------------------------------- what a scenario reports

  datatype ScenarioResult = ScenarioResult(complete: bool, judged: seq<string>, unreliable: seq<string>,
      unavailable: seq<string>)

  method CheckDistinct(declared: seq<string>) returns (distinct: bool)
    ensures distinct <==> NoRepeats(declared)
  {
    var seen: set<string> := {};
    for i := 0 to |declared|
      invariant NoRepeats(declared[..i]) && forall q :: q in seen <==> q in declared[..i]
    {
      if declared[i] in seen {
        var j :| 0 <= j < i && declared[j] == declared[i];
        return false;
      }
      seen := seen + {declared[i]};
    }
    assert declared[..|declared|] == declared;
    return true;
  }

  predicate IsJudged(rows: Rows, q: string) { q in rows && rows[q].Judged? }

  predicate IsUnreliable(rows: Rows, q: string) { q in rows && rows[q].Unreliable? }

  predicate IsOpen(rows: Rows, q: string) { q !in rows || rows[q].Answered? }

  /** The declared ids in that state, in declared order. */
  function InState(ids: seq<string>, rows: Rows, state: (Rows, string) -> bool): seq<string> {
    if ids == [] then []
    else
      var rest, last := InState(ids[..|ids| - 1], rows, state), ids[|ids| - 1];
      if state(rows, last) then rest + [last] else rest
  }

  /** The case is settled already, or its retrieval can be scored. */
  predicate Usable(rows: Rows, q: string, m: Material) { !IsOpen(rows, q) || !m.upstreamFailure }

  /** The case is settled already, or has a target to measure. */
  predicate Resolvable(rows: Rows, q: string, m: Material) { !IsOpen(rows, q) || Ineligible(q, m).None? }

  predicate AllUsable(ids: seq<string>, material: map<string, Material>, rows: Rows) {
    forall q :: q in ids ==> q in material && Usable(rows, q, material[q])
  }

  predicate AllResolvable(ids: seq<string>, material: map<string, Material>, rows: Rows) {
    forall q :: q in ids ==> q in material && Resolvable(rows, q, material[q])
  }

  /** The ids from position i on are as they were. */
  ghost predicate Untouched(declared: seq<string>, i: nat, a: Rows, b: Rows) {
    forall j :: i <= j < |declared| ==>
      (declared[j] in a <==> declared[j] in b) && (declared[j] in a ==> a[declared[j]] == b[declared[j]])
  }

  /** Of the ids scored so far, exactly the resolvable ones are settled. */
  ghost predicate Settled(ids: seq<string>, material: map<string, Material>, a: Rows, b: Rows) {
    AllUsable(ids, material, a) && forall q :: q in ids ==> (IsOpen(b, q) <==> !Resolvable(a, q, material[q]))
  }

  lemma NextSettled(
    declared: seq<string>, i: nat, material: map<string, Material>, before: Rows, a: Rows, b: Rows, r: CaseResult)
    requires i < |declared| && NoRepeats(declared) && OnlyAt(a, b, declared[i]) && Reports(b, declared[i], r)
    requires Untouched(declared, i, before, a) && Settled(declared[..i], material, before, a)
    requires declared[i] in material && Usable(a, declared[i], material[declared[i]])
    requires r.CaseUnavailable? <==> !Resolvable(a, declared[i], material[declared[i]])
    ensures Untouched(declared, i + 1, before, b) && Settled(declared[..i + 1], material, before, b)
  {
    forall q | q != declared[i] ensures (q in a <==> q in b) && (q in a ==> a[q] == b[q]) {
      assert q in a.Keys - {declared[i]} <==> q in b.Keys - {declared[i]};
    }
    forall q | q in declared[..i + 1] ensures q == declared[i] || (q != declared[i] && q in declared[..i]) {}
  }

  /** The three lists and the sidecar after the first i cases. */
  ghost predicate Scored(
    declared: seq<string>, i: nat, material: map<string, Material>, before: Rows, rows: Rows,
    judged: seq<string>, unreliable: seq<string>, unavailable: seq<string>)
  {
    && i <= |declared| && ByState(declared[..i], rows, judged, unreliable, unavailable)
    && Untouched(declared, i, before, rows) && Settled(declared[..i], material, before, rows)
  }

  lemma NextScored(
    declared: seq<string>, i: nat, material: map<string, Material>, before: Rows, a: Rows, b: Rows, r: CaseResult,
    judged: seq<string>, unreliable: seq<string>, unavailable: seq<string>)
    requires i < |declared| && NoRepeats(declared) && OnlyAt(a, b, declared[i]) && Reports(b, declared[i], r)
    requires Scored(declared, i, material, before, a, judged, unreliable, unavailable)
    requires declared[i] in material && Usable(a, declared[i], material[declared[i]])
    requires r.CaseUnavailable? <==> !Resolvable(a, declared[i], material[declared[i]])
    ensures Scored(declared, i + 1, material, before, b,
                   if r.CaseJudged? then judged + [declared[i]] else judged,
                   if r.CaseUnreliable? then unreliable + [declared[i]] else unreliable,
                   if r.CaseUnavailable? then unavailable + [declared[i]] else unavailable)
  {
    NextStates(declared, i, a, b, r, judged, unreliable, unavailable);
    NextSettled(declared, i, material, before, a, b, r);
  }

  lemma AllScored(
    declared: seq<string>, material: map<string, Material>, before: Rows, rows: Rows,
    judged: seq<string>, unreliable: seq<string>, unavailable: seq<string>)
    requires Scored(declared, |declared|, material, before, rows, judged, unreliable, unavailable)
    ensures Summarises(ScenarioResult(|judged| + |unreliable| == |declared|, judged, unreliable, unavailable),
              declared, rows)
    ensures AllUsable(declared, material, before)
    ensures AllTerminal(declared, rows) <==> AllResolvable(declared, material, before)
  {
    assert declared[..|declared|] == declared;
    StatesPartition(declared, rows);
    SettledDecides(declared, material, before, rows);
  }

  lemma SettledDecides(declared: seq<string>, material: map<string, Material>, before: Rows, after: Rows)
    requires Settled(declared, material, before, after)
    ensures AllTerminal(declared, after) <==> AllResolvable(declared, material, before)
  {
    forall q | q in declared ensures IsOpen(after, q) <==> !Resolvable(before, q, material[q]) {}
    forall q | q in declared ensures IsOpen(after, q) <==> !(q in after && after[q].Terminal()) {}
  }

  predicate AllTerminal(ids: seq<string>, rows: Rows) { forall q :: q in ids ==> q in rows && rows[q].Terminal() }

  ghost predicate Summarises(r: ScenarioResult, declared: seq<string>, rows: Rows) {
    && r.judged == InState(declared, rows, IsJudged)
    && r.unreliable == InState(declared, rows, IsUnreliable)
    && r.unavailable == InState(declared, rows, IsOpen)
    && (r.complete <==> AllTerminal(declared, rows))
  }

  lemma {:induction false} SameStates(ids: seq<string>, a: Rows, b: Rows, state: (Rows, string) -> bool)
    requires forall q :: q in ids ==> state(a, q) == state(b, q)
    ensures InState(ids, a, state) == InState(ids, b, state)
  {
    if ids != [] { SameStates(ids[..|ids| - 1], a, b, state); }
  }

  lemma StatesElsewhere(declared: seq<string>, i: nat, a: Rows, b: Rows)
    requires i < |declared| && NoRepeats(declared) && OnlyAt(a, b, declared[i])
    ensures InState(declared[..i], a, IsJudged) == InState(declared[..i], b, IsJudged)
    ensures InState(declared[..i], a, IsUnreliable) == InState(declared[..i], b, IsUnreliable)
    ensures InState(declared[..i], a, IsOpen) == InState(declared[..i], b, IsOpen)
  {
    forall q | q in declared[..i] ensures q != declared[i] && (q in a <==> q in b) && (q in a ==> a[q] == b[q]) {
      assert q in a.Keys - {declared[i]} <==> q in b.Keys - {declared[i]};
    }
    SameStates(declared[..i], a, b, IsJudged);
    SameStates(declared[..i], a, b, IsUnreliable);
    SameStates(declared[..i], a, b, IsOpen);
  }

  /** The three lists of a scenario so far. */
  ghost predicate ByState(
    ids: seq<string>, rows: Rows, judged: seq<string>, unreliable: seq<string>, unavailable: seq<string>) {
    judged == InState(ids, rows, IsJudged) && unreliable == InState(ids, rows, IsUnreliable)
        && unavailable == InState(ids, rows, IsOpen)
  }

  lemma NextStates(
    declared: seq<string>, i: nat, a: Rows, b: Rows, r: CaseResult, judged: seq<string>, unreliable: seq<string>,
    unavailable: seq<string>)
    requires i < |declared| && NoRepeats(declared) && OnlyAt(a, b, declared[i]) && Reports(b, declared[i], r)
    requires ByState(declared[..i], a, judged, unreliable, unavailable)
    ensures ByState(declared[..i + 1], b,
                    if r.CaseJudged? then judged + [declared[i]] else judged,
                    if r.CaseUnreliable? then unreliable + [declared[i]] else unreliable,
                    if r.CaseUnavailable? then unavailable + [declared[i]] else unavailable)
  {
    StatesElsewhere(declared, i, a, b);
    assert declared[..i + 1][..i] == declared[..i];
  }

  lemma {:induction false} InStateContents(ids: seq<string>, rows: Rows, state: (Rows, string) -> bool)
    ensures forall q :: q in InState(ids, rows, state) <==> q in ids && state(rows, q)
    ensures NoRepeats(ids) ==> NoRepeats(InState(ids, rows, state))
  {
    if ids != [] {
      var n := |ids| - 1;
      InStateContents(ids[..n], rows, state);
      assert ids == ids[..n] + [ids[n]];
      var rest := InState(ids[..n], rows, state);
      if NoRepeats(ids) {
        forall i | 0 <= i < |rest| ensures rest[i] != ids[n] { assert rest[i] in ids[..n]; }
      }
    }
  }

  lemma {:induction false} StatesPartition(ids: seq<string>, rows: Rows)
    ensures |InState(ids, rows, IsJudged)| + |InState(ids, rows, IsUnreliable)| + |InState(ids, rows, IsOpen)| == |ids|
    ensures AllTerminal(ids, rows) <==> |InState(ids, rows, IsJudged)| + |InState(ids, rows, IsUnreliable)| == |ids|
  {
    if ids != [] {
      var n := |ids| - 1;
      StatesPartition(ids[..n], rows);
      assert ids == ids[..n] + [ids[n]];
      assert AllTerminal(ids, rows) <==> AllTerminal(ids[..n], rows) && !IsOpen(rows, ids[n]);
    }
  }

  /** Every declared id is in exactly one of the three lists, and in it once. */
  lemma ScenarioPartitionsDeclared(r: ScenarioResult, declared: seq<string>, rows: Rows)
    requires Summarises(r, declared, rows) && NoRepeats(declared)
    ensures NoRepeats(r.judged) && NoRepeats(r.unreliable) && NoRepeats(r.unavailable)
    ensures |r.judged| + |r.unreliable| + |r.unavailable| == |declared|
    ensures forall q :: q in r.judged || q in r.unreliable || q in r.unavailable <==> q in declared
    ensures forall q :: !(q in r.judged && q in r.unreliable) && !(q in r.judged && q in r.unavailable)
              && !(q in r.unreliable && q in r.unavailable)
  {
    StatesPartition(declared, rows);
    InStateContents(declared, rows, IsJudged);
    InStateContents(declared, rows, IsUnreliable);
    InStateContents(declared, rows, IsOpen);
  }

  // ---------------------------------------------------------------- resuming

  /** What a run resuming from a checkpoint demands of the scenarios recorded as complete. */
  ghost predicate CheckpointAgrees(scenarios: seq<seq<string>>, recorded: set<nat>, rows: Rows) {
    forall i :: i in recorded && i < |scenarios| ==> AllTerminal(scenarios[i], rows)
  }

  ghost predicate RecordedUpTo(recorded: set<nat>, n: nat) { forall i :: 0 <= i < n ==> i in recorded }

  lemma NextRecorded(before: set<nat>, after: set<nat>, n: nat)
    requires before <= after
    ensures RecordedUpTo(before, n) && n in after ==> RecordedUpTo(after, n + 1)
  {
  }

  lemma TerminalStays(ids: seq<string>, rows: Rows, later: Rows)
    requires AllTerminal(ids, rows) && Evolves(rows, later)
    ensures AllTerminal(ids, later)
  {
    forall q | q in ids ensures q in later && later[q].Terminal() {
      assert q in rows && RowEvolves(rows[q], later[q]);
    }
  }

  lemma AgreementStays(scenarios: seq<seq<string>>, recorded: set<nat>, rows: Rows, later: Rows)
    requires CheckpointAgrees(scenarios, recorded, rows) && Evolves(rows, later)
    ensures CheckpointAgrees(scenarios, recorded, later)
  {
    forall i | i in recorded && i < |scenarios| ensures AllTerminal(scenarios[i], later) {
      TerminalStays(scenarios[i], rows, later);
    }
  }

  /** A scenario that can be scored: its ids are distinct and none of its open cases lacks usable material. */
  predicate Scorable(ids: seq<string>, material: map<string, Material>, rows: Rows) {
    NoRepeats(ids) && AllUsable(ids, material, rows)
  }

  predicate AllScorable(scenarios: seq<seq<string>>, materials: nat -> map<string, Material>, rows: Rows) {
    forall i :: 0 <= i < |scenarios| ==> Scorable(scenarios[i], materials(i), rows)
  }

  predicate AllScenariosResolvable(scenarios: seq<seq<string>>, materials: nat -> map<string, Material>, rows: Rows) {
    forall i :: 0 <= i < |scenarios| ==> AllResolvable(scenarios[i], materials(i), rows)
  }

  lemma ScorableStays(ids: seq<string>, material: map<string, Material>, rows: Rows, later: Rows)
    requires Evolves(rows, later)
    ensures Scorable(ids, material, rows) ==> Scorable(ids, material, later)
    ensures AllResolvable(ids, material, rows) ==> AllResolvable(ids, material, later)
  {
    forall q ensures !IsOpen(rows, q) ==> !IsOpen(later, q) {
      if !IsOpen(rows, q) { assert q in rows && RowEvolves(rows[q], later[q]); }
    }
  }

  lemma CountWithin(part: multiset<string>, q: string)
    ensures part[q] <= |part|
  {
    assert part == part[q := 0] + multiset{}[q := part[q]];
  }

  /** With one answer lost per stop at most, each question is paid for once, and once more per stop. */
  lemma AnswersBounded(
    disk: Rows, completed: multiset<string>, before: multiset<string>, lost: multiset<string>, stops: nat)
    requires Accounted(disk, completed, lost) && before <= lost && |lost| <= |before| + stops
    ensures forall q :: completed[q] <= before[q] + stops + 1
    ensures |completed| <= |disk| + |before| + stops
  {
    var more := lost - before;
    assert lost == before + more && |lost| == |before| + |more|;
    forall q ensures completed[q] <= before[q] + stops + 1 { CountWithin(more, q); }
    KeysCounted(disk);
  }

  lemma KeysCounted(rows: Rows)
    ensures |multiset(rows.Keys)| == |rows|
  {
  }

  /** The case result is what the sidecar says. */
  predicate Reports(rows: Rows, q: string, r: CaseResult) {
    match r
    case CaseJudged => q in rows && rows[q].Judged?
    case CaseUnreliable => q in rows && rows[q].Unreliable?
    case CaseUnavailable(_) => q !in rows || rows[q].Answered?
  }
}
