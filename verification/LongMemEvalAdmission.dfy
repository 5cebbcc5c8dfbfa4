/** Admitting a LongMemEval document: generated identities, and what becomes of every raw turn. */
module LongMemEvalAdmission {
  import opened Common
  import opened DecimalText

  // ---------------------------------------------------------------- the raw document

  datatype Flag = Absent | NotBoolean | Boolean(value: bool)

  /** A raw turn; a field that is not a string is `None`. */
  datatype RawTurn = NotObject | RawTurn(role: Option<string>, content: Option<string>, hasAnswer: Flag)

  datatype RawSession = NotArray | RawSession(turns: seq<RawTurn>)

  datatype RawEvidence = NoEvidence | EvidenceNotArray | Evidence(entries: seq<Option<string>>)

  datatype RawQuestion =
    | NotAQuestion
    | RawQuestion(questionId: Option<string>, question: Option<string>, goldReadable: bool,
                  sessions: Option<seq<RawSession>>, sessionIds: Option<seq<Option<string>>>, evidence: RawEvidence)

  datatype Reason =
    | QuestionNotObject | QuestionInvalidId | QuestionInvalidText | QuestionInvalidGold | QuestionInvalidSessions
    | QuestionInvalidSessionIds | QuestionInvalidEvidence | QuestionNoSessions | QuestionEvidenceUnresolved
    | SessionNotArray | SessionEmptied
    | TurnNotObject | TurnInvalidRole | TurnContentNotString | TurnInvalidHasAnswer
    | TurnEmptyAnswerTarget | TurnEmptyEvidence | SkippedEmptyTurn

  datatype Diagnostic = Diagnostic(questionIndex: nat, sessionIndex: Option<nat>, turnIndex: Option<nat>,
      reason: Reason)

  // ---------------------------------------------------------------- generated ids

  function QuestionId(q: RawQuestion): string { if q.RawQuestion? then Text(q.questionId) else "" }

  function Sessions(q: RawQuestion): seq<RawSession> {
    if q.RawQuestion? && q.sessions.Some? then q.sessions.value else []
  }

  function SourceId(q: RawQuestion, i: nat): string {
    if q.RawQuestion? && q.sessionIds.Some? && i < |q.sessionIds.value| then Text(q.sessionIds.value[i]) else ""
  }

  /** How many of the first `n` sessions name this source. */
  function Occurrences(q: RawQuestion, source: string, n: nat): nat {
    if n == 0 then 0 else Occurrences(q, source, n - 1) + (if SourceId(q, n - 1) == source then 1 else 0)
  }

  function OccurrenceId(questionId: string, source: string, occurrence: nat): string {
    var base := questionId + "::" + source;
    if occurrence == 1 then base else base + "::occ" + Decimal(occurrence)
  }

  /** The session id generated for position `i` of a question. */
  function SessionId(q: RawQuestion, i: nat): string {
    OccurrenceId(QuestionId(q), SourceId(q, i), Occurrences(q, SourceId(q, i), i + 1))
  }

  function TurnId(sessionId: string, turnIndex: nat): string { sessionId + "::turn" + "_" + Decimal(turnIndex + 1) }

  /** Unique session ids also make turn ids unique. */
  lemma TurnIdsDistinct(s: string, t: string, i: nat, j: nat)
    requires TurnId(s, i) == TurnId(t, j)
    ensures s == t && i == j
  {
    NumberedSuffix(s + "::turn", t + "::turn", i + 1, j + 1);
    assert (s + "::turn")[..|s|] == s && (t + "::turn")[..|t|] == t;
  }

  ghost predicate Counts(occurrences: map<string, nat>, q: RawQuestion, n: nat) {
    forall source :: source != "" ==>
        (if source in occurrences then occurrences[source] else 0) == Occurrences(q, source, n)
  }

  method OccurrenceSessionId(
    q: RawQuestion, i: nat, occurrences: map<string, nat>) returns (sessionId: string, counted: map<string, nat>)
    requires SourceId(q, i) != "" && Counts(occurrences, q, i)
    ensures sessionId == SessionId(q, i) && Counts(counted, q, i + 1)
  {
    var source := SourceId(q, i);
    var occurrence := (if source in occurrences then occurrences[source] else 0) + 1;
    counted := occurrences[source := occurrence];
    sessionId := OccurrenceId(QuestionId(q), source, occurrence);
  }

  // ---------------------------------------------------------------- preflight

  /** A session whose identity can be inspected. */
  predicate Inspectable(entries: seq<RawQuestion>, a: (nat, nat)) {
    a.0 < |entries| && QuestionId(entries[a.0]) != "" && a.1 < |Sessions(entries[a.0])|
        && SourceId(entries[a.0], a.1) != ""
  }

  function IdAt(entries: seq<RawQuestion>, a: (nat, nat)): string {
    if a.0 < |entries| then SessionId(entries[a.0], a.1) else ""
  }

  ghost predicate SessionIdsDistinct(entries: seq<RawQuestion>) {
    forall a, b :: Inspectable(entries, a) && Inspectable(entries, b) && IdAt(entries, a) == IdAt(entries, b) ==> a == b
  }

  ghost predicate QuestionIdsDistinct(entries: seq<RawQuestion>) {
    NonBlankDistinct(MapSeq(QuestionId, entries))
  }

  ghost predicate AllRepeatsAgree(entries: seq<RawQuestion>, n: nat) {
    forall k :: 0 <= k < n && k < |entries| && QuestionId(entries[k]) != "" ==> RepeatsAgree(entries[k])
  }

  /** No identity fault: question ids and generated session ids are distinct, and repeated sessions agree. */
  ghost predicate Clean(entries: seq<RawQuestion>) {
    QuestionIdsDistinct(entries) && SessionIdsDistinct(entries) && AllRepeatsAgree(entries, |entries|)
  }

  predicate ValidTurn(t: RawTurn) {
    t.RawTurn? && t.role in {Some("user"), Some("assistant")} && t.content.Some? && !t.hasAnswer.NotBoolean?
  }

  function Projection(turns: seq<RawTurn>): seq<(string, string, bool)> {
    if turns == [] then []
    else
      var rest, last := Projection(turns[..|turns| - 1]), turns[|turns| - 1];
      if ValidTurn(last)
      then rest + [(last.role.value, Trim(last.content.value), last.hasAnswer == Boolean(true))] else rest
  }

  predicate Repeats(q: RawQuestion, i: nat, j: nat)
    requires i < |Sessions(q)| && j < |Sessions(q)|
  {
    SourceId(q, i) != "" && SourceId(q, i) == SourceId(q, j) && Sessions(q)[i].RawSession? && Sessions(q)[j].RawSession?
  }

  /** Repeated occurrences of one source session within a question carry the same valid turns. */
  ghost predicate RepeatsAgree(q: RawQuestion) {
    forall i, j :: 0 <= i < j < |Sessions(q)| && Repeats(q, i, j) ==>
        Projection(Sessions(q)[i].turns) == Projection(Sessions(q)[j].turns)
  }

  datatype Rejection = DuplicateQuestionId | DuplicateSessionMismatch | GeneratedIdCollision | AllRejected

  /** The inspected sessions before position (k, n). */
  predicate Before(a: (nat, nat), k: nat, n: nat) { a.0 < k || (a.0 == k && a.1 < n) }

  ghost predicate SeenIds(entries: seq<RawQuestion>, ids: set<string>, k: nat, n: nat) {
    && (forall a :: Inspectable(entries, a) && Before(a, k, n) ==> IdAt(entries, a) in ids)
    && (forall id :: id in ids ==> exists a :: Inspectable(entries, a) && Before(a, k, n) && IdAt(entries, a) == id)
    && DistinctBefore(entries, k, n)
  }

  ghost predicate DistinctBefore(entries: seq<RawQuestion>, k: nat, n: nat) {
    forall a, b :: Inspectable(entries, a) && Inspectable(entries, b) && Before(a, k, n) && Before(b, k, n)
        && IdAt(entries, a) == IdAt(entries, b)
      ==> a == b
  }

  ghost predicate AgreesUpTo(q: RawQuestion, projections: Projections, n: nat)
    requires n <= |Sessions(q)|
  {
    && (forall i :: 0 <= i < n && SourceId(q, i) != "" && Sessions(q)[i].RawSession? ==>
          SourceId(q, i) in projections && projections[SourceId(q, i)] == Projection(Sessions(q)[i].turns))
    && (forall source :: source in projections ==> WasKept(q, source, projections[source], n))
  }

  ghost predicate WasKept(q: RawQuestion, source: string, projection: seq<(string, string, bool)>, n: nat) {
    exists i :: Kept(q, source, projection, n, i)
  }

  /** Position i, before n, is where this projection of the source came from. */
  ghost predicate Kept(q: RawQuestion, source: string, projection: seq<(string, string, bool)>, n: nat, i: nat) {
    i < n && i < |Sessions(q)| && SourceId(q, i) == source && Sessions(q)[i].RawSession?
    && Projection(Sessions(q)[i].turns) == projection
  }

  lemma NothingBefore(entries: seq<RawQuestion>)
    ensures SeenIds(entries, {}, 0, 0)
  {
  }

  lemma SameBefore(entries: seq<RawQuestion>, ids: set<string>, k: nat, n: nat, k': nat, n': nat)
    requires SeenIds(entries, ids, k, n)
    requires forall a :: Inspectable(entries, a) ==> (Before(a, k, n) <==> Before(a, k', n'))
    ensures SeenIds(entries, ids, k', n')
  {
  }

  lemma OneMoreSeen(entries: seq<RawQuestion>, ids: set<string>, k: nat, n: nat)
    requires SeenIds(entries, ids, k, n) && Inspectable(entries, (k, n)) && IdAt(entries, (k, n)) !in ids
    ensures SeenIds(entries, ids + {IdAt(entries, (k, n))}, k, n + 1)
  {
    forall a | Inspectable(entries, a) && Before(a, k, n + 1) ensures Before(a, k, n) || a == (k, n) {}
    assert Before((k, n), k, n + 1);
  }

  /** What the preflight knows before session n of question k. */
  ghost predicate QuestionSeen(
    entries: seq<RawQuestion>, k: nat, n: nat, ids: set<string>, occurrences: map<string, nat>,
    projections: Projections)
  {
    && k < |entries| && QuestionId(entries[k]) != "" && n <= |Sessions(entries[k])|
    && SeenIds(entries, ids, k, n) && Counts(occurrences, entries[k], n) && AgreesUpTo(entries[k], projections, n)
  }

  /** A fault found while inspecting question k is there to be found. */
  ghost predicate RealFault(entries: seq<RawQuestion>, k: nat, rejection: Rejection)
    requires k < |entries|
  {
    || (rejection == DuplicateSessionMismatch && !RepeatsAgree(entries[k]))
    || (rejection == GeneratedIdCollision && !SessionIdsDistinct(entries))
  }

  method PreflightSession(
    entries: seq<RawQuestion>, k: nat, n: nat, ids: set<string>, occurrences: map<string, nat>,
    projections: Projections)
    returns (rejection: Option<Rejection>, seen: set<string>, counted: map<string, nat>, known: Projections)
    requires QuestionSeen(entries, k, n, ids, occurrences, projections)
    requires n < |Sessions(entries[k])| && SourceId(entries[k], n) != ""
    ensures match rejection
            case None => QuestionSeen(entries, k, n + 1, seen, counted, known)
            case Some(r) => RealFault(entries, k, r)
  {
    var q := entries[k];
    seen := ids;
    var sessionId, mismatch;
    sessionId, counted := OccurrenceSessionId(q, n, occurrences);
    mismatch, known := CompareProjection(q, n, projections);
    if mismatch { return Some(DuplicateSessionMismatch), seen, counted, known; }
    var collides;
    collides, seen := AddSessionId(entries, k, n, seen, sessionId);
    rejection := if collides then Some(GeneratedIdCollision) else None;
  }

  lemma BlankSession(
    entries: seq<RawQuestion>, k: nat, n: nat, ids: set<string>, occurrences: map<string, nat>,
    projections: Projections)
    requires QuestionSeen(entries, k, n, ids, occurrences, projections)
    requires n < |Sessions(entries[k])| && SourceId(entries[k], n) == ""
    ensures QuestionSeen(entries, k, n + 1, ids, occurrences, projections)
  {
    SameBefore(entries, ids, k, n, k, n + 1);
    NothingKept(entries[k], n, projections);
  }

  /** The sessions of one question. */
  method PreflightQuestion(entries: seq<RawQuestion>, k: nat, ids: set<string>)
    returns (rejection: Option<Rejection>, seen: set<string>)
    requires k < |entries| && QuestionId(entries[k]) != "" && SeenIds(entries, ids, k, 0)
    ensures match rejection
            case None => SeenIds(entries, seen, k, |Sessions(entries[k])|) && RepeatsAgree(entries[k])
            case Some(r) => RealFault(entries, k, r)
  {
    seen := ids;
    var occurrences: map<string, nat> := map[];
    var projections: Projections := map[];
    for n := 0 to |Sessions(entries[k])|
      invariant QuestionSeen(entries, k, n, seen, occurrences, projections)
    {
      if SourceId(entries[k], n) == "" {
        BlankSession(entries, k, n, seen, occurrences, projections);
      } else {
        rejection, seen, occurrences, projections := PreflightSession(entries, k, n, seen, occurrences, projections);
        if rejection.Some? { return; }
      }
    }
    AgreementHolds(entries[k], projections);
    return None, seen;
  }

  method AddSessionId(
    entries: seq<RawQuestion>, k: nat, n: nat, ids: set<string>, sessionId: string)
    returns (collides: bool, seen: set<string>)
    requires SeenIds(entries, ids, k, n) && Inspectable(entries, (k, n)) && sessionId == IdAt(entries, (k, n))
    ensures if collides then !SessionIdsDistinct(entries) else SeenIds(entries, seen, k, n + 1)
  {
    if sessionId in ids {
      var a :| Inspectable(entries, a) && Before(a, k, n) && IdAt(entries, a) == sessionId;
      assert a != (k, n);
      return true, ids;
    }
    OneMoreSeen(entries, ids, k, n);
    return false, ids + {sessionId};
  }

  type Projections = map<string, seq<(string, string, bool)>>

  method CompareProjection(
    q: RawQuestion, n: nat, projections: Projections) returns (mismatch: bool, known: Projections)
    requires n < |Sessions(q)| && SourceId(q, n) != "" && AgreesUpTo(q, projections, n)
    ensures if mismatch then !RepeatsAgree(q) else AgreesUpTo(q, known, n + 1)
  {
    mismatch, known := false, projections;
    if Sessions(q)[n].RawSession? {
      var projection := Projection(Sessions(q)[n].turns);
      if SourceId(q, n) !in projections {
        known := projections[SourceId(q, n) := projection];
        FirstKept(q, n, projections);
      } else {
        mismatch := projections[SourceId(q, n)] != projection;
        RepeatCompared(q, n, projections);
      }
    } else {
      NothingKept(q, n, projections);
    }
  }

  lemma FirstKept(q: RawQuestion, n: nat, projections: Projections)
    requires n < |Sessions(q)| && SourceId(q, n) != "" && Sessions(q)[n].RawSession? && AgreesUpTo(q, projections, n)
    requires SourceId(q, n) !in projections
    ensures AgreesUpTo(q, projections[SourceId(q, n) := Projection(Sessions(q)[n].turns)], n + 1)
  {
    var known := projections[SourceId(q, n) := Projection(Sessions(q)[n].turns)];
    var next := n + 1;
    forall source | source in known ensures WasKept(q, source, known[source], next) {
      if source == SourceId(q, n) {
        assert Kept(q, source, known[source], next, n);
      } else {
        var i :| Kept(q, source, projections[source], n, i);
        assert Kept(q, source, known[source], next, i);
      }
    }
  }

  lemma RepeatCompared(q: RawQuestion, n: nat, projections: Projections)
    requires n < |Sessions(q)| && SourceId(q, n) != "" && Sessions(q)[n].RawSession? && AgreesUpTo(q, projections, n)
    requires SourceId(q, n) in projections
    ensures if projections[SourceId(q, n)] == Projection(Sessions(q)[n].turns) then AgreesUpTo(q, projections, n + 1)
            else !RepeatsAgree(q)
  {
    if projections[SourceId(q, n)] == Projection(Sessions(q)[n].turns) {
      NothingKept(q, n, projections);
    } else {
      var i :| Kept(q, SourceId(q, n), projections[SourceId(q, n)], n, i);
      assert Repeats(q, i, n);
    }
  }

  lemma NothingKept(q: RawQuestion, n: nat, projections: Projections)
    requires n < |Sessions(q)| && AgreesUpTo(q, projections, n)
    requires SourceId(q, n) != "" && Sessions(q)[n].RawSession? ==>
               SourceId(q, n) in projections && projections[SourceId(q, n)] == Projection(Sessions(q)[n].turns)
    ensures AgreesUpTo(q, projections, n + 1)
  {
    var next := n + 1;
    forall source | source in projections ensures WasKept(q, source, projections[source], next) {
      var i :| Kept(q, source, projections[source], n, i);
      assert Kept(q, source, projections[source], next, i);
    }
  }

  lemma AgreementHolds(q: RawQuestion, projections: Projections)
    requires AgreesUpTo(q, projections, |Sessions(q)|)
    ensures RepeatsAgree(q)
  {
  }

  /** What the preflight knows before entry k. */
  ghost predicate EntriesSeen(entries: seq<RawQuestion>, k: nat, questionIds: set<string>, sessionIds: set<string>) {
    && k <= |entries| && IdsSeen(MapSeq(QuestionId, entries), questionIds, k)
    && SeenIds(entries, sessionIds, k, 0) && AllRepeatsAgree(entries, k)
  }

  ghost predicate DocumentFault(entries: seq<RawQuestion>, rejection: Rejection) {
    match rejection
    case DuplicateQuestionId => !QuestionIdsDistinct(entries)
    case DuplicateSessionMismatch => !AllRepeatsAgree(entries, |entries|)
    case GeneratedIdCollision => !SessionIdsDistinct(entries)
    case AllRejected => false
  }

  lemma NextEntrySeen(
    entries: seq<RawQuestion>, k: nat, questionIds: set<string>, sessionIds: set<string>, seen: set<string>)
    requires k < |entries| && EntriesSeen(entries, k, questionIds, sessionIds)
    requires QuestionId(entries[k]) != "" && QuestionId(entries[k]) !in questionIds
    requires SeenIds(entries, seen, k, |Sessions(entries[k])|) && RepeatsAgree(entries[k])
    ensures EntriesSeen(entries, k + 1, questionIds + {QuestionId(entries[k])}, seen)
  {
    NextIdSeen(MapSeq(QuestionId, entries), questionIds, k);
    SameBefore(entries, seen, k, |Sessions(entries[k])|, k + 1, 0);
  }

  lemma BlankEntry(entries: seq<RawQuestion>, k: nat, questionIds: set<string>, sessionIds: set<string>)
    requires k < |entries| && EntriesSeen(entries, k, questionIds, sessionIds) && QuestionId(entries[k]) == ""
    ensures EntriesSeen(entries, k + 1, questionIds, sessionIds)
  {
    NextIdSeen(MapSeq(QuestionId, entries), questionIds, k);
    SameBefore(entries, sessionIds, k, 0, k + 1, 0);
  }

  /** One question with an id. */
  method PreflightEntry(entries: seq<RawQuestion>, k: nat, questionIds: set<string>, sessionIds: set<string>)
    returns (rejection: Option<Rejection>, seen: set<string>)
    requires k < |entries| && EntriesSeen(entries, k, questionIds, sessionIds) && QuestionId(entries[k]) != ""
    ensures match rejection
            case None => EntriesSeen(entries, k + 1, questionIds + {QuestionId(entries[k])}, seen)
            case Some(r) => DocumentFault(entries, r)
  {
    if QuestionId(entries[k]) in questionIds {
      NextIdSeen(MapSeq(QuestionId, entries), questionIds, k);
      return Some(DuplicateQuestionId), sessionIds;
    }
    rejection, seen := PreflightQuestion(entries, k, sessionIds);
    if rejection.None? { NextEntrySeen(entries, k, questionIds, sessionIds, seen); }
  }

  /** The document is clean, or a fault of the kind named is there to be found. */
  method PreflightIdentity(entries: seq<RawQuestion>) returns (rejection: Option<Rejection>)
    ensures rejection.None? <==> Clean(entries)
    ensures rejection.Some? ==> DocumentFault(entries, rejection.value)
  {
    var questionIds: set<string> := {};
    var sessionIds: set<string> := {};
    NothingBefore(entries);
    for k := 0 to |entries|
      invariant EntriesSeen(entries, k, questionIds, sessionIds)
    {
      if QuestionId(entries[k]) == "" {
        BlankEntry(entries, k, questionIds, sessionIds);
      } else {
        rejection, sessionIds := PreflightEntry(entries, k, questionIds, sessionIds);
        if rejection.Some? { return; }
        questionIds := questionIds + {QuestionId(entries[k])};
      }
    }
    rejection := None;
    AllIdsSeen(MapSeq(QuestionId, entries), questionIds);
    AllSeen(entries, sessionIds);
  }

  lemma AllSeen(entries: seq<RawQuestion>, ids: set<string>)
    requires SeenIds(entries, ids, |entries|, 0)
    ensures SessionIdsDistinct(entries)
  {
    forall a | Inspectable(entries, a) ensures Before(a, |entries|, 0) {}
  }

  // ---------------------------------------------------------------- turns

  datatype AdmittedTurn = AdmittedTurn(turnIndex: nat, user: bool, body: string, hasAnswer: bool, turnId: string)

  datatype TurnFate = Admitted(user: bool, body: string, hasAnswer: bool) | Refused(reason: Reason)

  /** The first fault of a turn, in the order the adapter looks for faults. */
  function AdmitTurn(t: RawTurn, inEvidence: bool): TurnFate {
    if t.NotObject? then Refused(TurnNotObject)
    else if t.role != Some("user") && t.role != Some("assistant") then Refused(TurnInvalidRole)
    else if t.content.None? then Refused(TurnContentNotString)
    else if t.hasAnswer.NotBoolean? then Refused(TurnInvalidHasAnswer)
    else
      var hasAnswer, body := t.hasAnswer == Boolean(true), Trim(t.content.value);
      if body == "" then
        Refused(if hasAnswer then TurnEmptyAnswerTarget else if inEvidence then TurnEmptyEvidence else SkippedEmptyTurn)
      else Admitted(t.role == Some("user"), body, hasAnswer)
  }

  function AdmittedTurns(raw: seq<RawTurn>, inEvidence: bool, sessionId: string): seq<AdmittedTurn> {
    if raw == [] then []
    else
      var n := |raw| - 1;
      var rest := AdmittedTurns(raw[..n], inEvidence, sessionId);
      match AdmitTurn(raw[n], inEvidence)
      case Admitted(user, body, hasAnswer) => rest + [AdmittedTurn(n, user, body, hasAnswer, TurnId(sessionId, n))]
      case Refused(_) => rest
  }

  function Refusals(raw: seq<RawTurn>, inEvidence: bool, question: nat, session: nat): seq<Diagnostic> {
    if raw == [] then []
    else
      var n := |raw| - 1;
      var rest := Refusals(raw[..n], inEvidence, question, session);
      match AdmitTurn(raw[n], inEvidence)
      case Admitted(_, _, _) => rest
      case Refused(reason) => rest + [Diagnostic(question, Some(session), Some(n), reason)]
  }

  method WalkTurns(raw: seq<RawTurn>, inEvidence: bool, sessionId: string, question: nat, session: nat)
    returns (turns: seq<AdmittedTurn>, refusals: seq<Diagnostic>)
    ensures turns == AdmittedTurns(raw, inEvidence, sessionId)
              && refusals == Refusals(raw, inEvidence, question, session)
  {
    turns, refusals := [], [];
    for n := 0 to |raw|
      invariant turns == AdmittedTurns(raw[..n], inEvidence, sessionId)
                && refusals == Refusals(raw[..n], inEvidence, question, session)
    {
      assert raw[..n + 1][..n] == raw[..n];
      match AdmitTurn(raw[n], inEvidence)
      case Admitted(user, body, hasAnswer) =>
        turns := turns + [AdmittedTurn(n, user, body, hasAnswer, TurnId(sessionId, n))];
      case Refused(reason) => refusals := refusals + [Diagnostic(question, Some(session), Some(n), reason)];
    }
    assert raw[..|raw|] == raw;
  }

  ghost predicate AscendingTurns(turns: seq<AdmittedTurn>, below: nat) {
    && (forall i :: 0 <= i < |turns| ==> turns[i].turnIndex < below)
    && (forall i, j :: 0 <= i < j < |turns| ==> turns[i].turnIndex < turns[j].turnIndex)
  }

  ghost predicate AscendingRefusals(refusals: seq<Diagnostic>, session: nat, below: nat) {
    && (forall i :: 0 <= i < |refusals| ==>
         refusals[i].sessionIndex == Some(session) && refusals[i].turnIndex.Some?
             && refusals[i].turnIndex.value < below)
    && (forall i, j :: 0 <= i < j < |refusals| && refusals[i].turnIndex.Some? && refusals[j].turnIndex.Some? ==>
         refusals[i].turnIndex.value < refusals[j].turnIndex.value)
  }

  lemma TurnAdded(rest: seq<AdmittedTurn>, last: AdmittedTurn, n: nat)
    requires AscendingTurns(rest, n) && last.turnIndex == n
    ensures AscendingTurns(rest + [last], n + 1)
  {
  }

  lemma {:induction false} TurnsAscend(raw: seq<RawTurn>, inEvidence: bool, sessionId: string)
    ensures AscendingTurns(AdmittedTurns(raw, inEvidence, sessionId), |raw|)
  {
    if raw != [] {
      var n: nat := |raw| - 1;
      TurnsAscend(raw[..n], inEvidence, sessionId);
      var rest := AdmittedTurns(raw[..n], inEvidence, sessionId);
      match AdmitTurn(raw[n], inEvidence)
      case Admitted(user, body, hasAnswer) =>
        TurnAdded(rest, AdmittedTurn(n, user, body, hasAnswer, TurnId(sessionId, n)), n);
      case Refused(_) =>
    }
  }

  lemma {:induction false} TurnsNamed(raw: seq<RawTurn>, inEvidence: bool, sessionId: string)
    ensures forall t :: t in AdmittedTurns(raw, inEvidence, sessionId) ==> t.turnId == TurnId(sessionId, t.turnIndex)
  {
    if raw != [] { TurnsNamed(raw[..|raw| - 1], inEvidence, sessionId); }
  }

  lemma {:induction false} RefusalsAscend(raw: seq<RawTurn>, inEvidence: bool, question: nat, session: nat)
    ensures AscendingRefusals(Refusals(raw, inEvidence, question, session), session, |raw|)
  {
    if raw != [] { RefusalsAscend(raw[..|raw| - 1], inEvidence, question, session); }
  }

  lemma {:induction false} TurnsAndRefusalsApart(
    raw: seq<RawTurn>, inEvidence: bool, sessionId: string, question: nat, session: nat)
    ensures var turns, refusals := AdmittedTurns(raw, inEvidence, sessionId),
              Refusals(raw, inEvidence, question, session);
            && |turns| + |refusals| == |raw|
            && forall i, j :: 0 <= i < |turns| && 0 <= j < |refusals| ==>
               Some(turns[i].turnIndex) != refusals[j].turnIndex
  {
    if raw != [] {
      TurnsAndRefusalsApart(raw[..|raw| - 1], inEvidence, sessionId, question, session);
      TurnsAscend(raw[..|raw| - 1], inEvidence, sessionId);
      RefusalsAscend(raw[..|raw| - 1], inEvidence, question, session);
    }
  }

  /**
   * Every raw turn of a walked session becomes exactly one admitted turn or exactly one diagnostic:
   * both lists are strictly ascending in the turn's position, and together they hold each position once.
   */
  lemma EveryTurnOnce(raw: seq<RawTurn>, inEvidence: bool, sessionId: string, question: nat, session: nat)
    ensures var turns, refusals := AdmittedTurns(raw, inEvidence, sessionId),
              Refusals(raw, inEvidence, question, session);
            && |turns| + |refusals| == |raw|
            && AscendingTurns(turns, |raw|) && AscendingRefusals(refusals, session, |raw|)
            && (forall i, j :: 0 <= i < |turns| && 0 <= j < |refusals| ==>
               Some(turns[i].turnIndex) != refusals[j].turnIndex)
            && (forall i :: 0 <= i < |turns| ==> turns[i].turnId == TurnId(sessionId, turns[i].turnIndex))
  {
    TurnsNamed(raw, inEvidence, sessionId);
    TurnsAscend(raw, inEvidence, sessionId);
    RefusalsAscend(raw, inEvidence, question, session);
    TurnsAndRefusalsApart(raw, inEvidence, sessionId, question, session);
  }

  // ---------------------------------------------------------------- sessions of one question

  function EvidenceIds(q: RawQuestion): Option<seq<string>> {
    if !q.RawQuestion? then None
    else
      match q.evidence
      case NoEvidence => Some([])
      case EvidenceNotArray => None
      case Evidence(entries) => ReadIds(entries)
  }

  /** One non-blank string each, used trimmed. */
  function ReadIds(entries: seq<Option<string>>): Option<seq<string>> {
    if forall i :: 0 <= i < |entries| ==> Text(entries[i]) != "" then Some(MapSeq(Text, entries)) else None
  }

  function InEvidence(q: RawQuestion, i: nat): bool {
    EvidenceIds(q).Some? && SourceId(q, i) in EvidenceIds(q).value
  }

  datatype Conversation = Conversation(sessionIndex: nat, source: string, sessionId: string, turns: seq<AdmittedTurn>)

  function ConversationAt(q: RawQuestion, i: nat): Conversation
    requires i < |Sessions(q)| && Sessions(q)[i].RawSession?
  {
    Conversation(i, SourceId(q, i), SessionId(q, i),
        AdmittedTurns(Sessions(q)[i].turns, InEvidence(q, i), SessionId(q, i)))
  }

  /** The conversations of the first `n` sessions: the array sessions that keep at least one turn. */
  function Conversations(q: RawQuestion, n: nat): seq<Conversation>
    requires n <= |Sessions(q)|
  {
    if n == 0 then []
    else
      var rest := Conversations(q, n - 1);
      if Sessions(q)[n - 1].RawSession? && ConversationAt(q, n - 1).turns != []
      then rest + [ConversationAt(q, n - 1)] else rest
  }

  function SessionEntries(q: RawQuestion, question: nat, i: nat): seq<Diagnostic>
    requires i < |Sessions(q)|
  {
    if Sessions(q)[i].NotArray? then [Diagnostic(question, Some(i), None, SessionNotArray)]
    else
      (if ConversationAt(q, i).turns == [] then [Diagnostic(question, Some(i), None, SessionEmptied)] else [])
      + Refusals(Sessions(q)[i].turns, InEvidence(q, i), question, i)
  }

  function Nested(q: RawQuestion, question: nat, n: nat): seq<Diagnostic>
    requires n <= |Sessions(q)|
  {
    if n == 0 then [] else Nested(q, question, n - 1) + SessionEntries(q, question, n - 1)
  }

  function RejectedSessions(q: RawQuestion, n: nat): nat
    requires n <= |Sessions(q)|
  {
    if n == 0 then 0 else RejectedSessions(q, n - 1) + (if Sessions(q)[n - 1].NotArray? then 1 else 0)
  }

  predicate LosesEvidence(d: Diagnostic) { d.reason == TurnEmptyAnswerTarget || d.reason == TurnEmptyEvidence }

  predicate SomeEvidenceLost(nested: seq<Diagnostic>) {
    exists i :: 0 <= i < |nested| && LosesEvidence(nested[i])
  }

  function AnswerIds(turns: seq<AdmittedTurn>, userOnly: bool): seq<string> {
    if turns == [] then []
    else
      var rest, last := AnswerIds(turns[..|turns| - 1], userOnly), turns[|turns| - 1];
      if last.hasAnswer && (last.user || !userOnly) then rest + [last.turnId] else rest
  }

  function ExpectedTurnIds(cs: seq<Conversation>, userOnly: bool): seq<string> {
    if cs == [] then [] else ExpectedTurnIds(cs[..|cs| - 1], userOnly) + AnswerIds(cs[|cs| - 1].turns, userOnly)
  }

  function OfficialSessionIds(cs: seq<Conversation>): seq<string> {
    if cs == [] then []
    else
      var rest, last := OfficialSessionIds(cs[..|cs| - 1]), cs[|cs| - 1];
      if AnswerIds(last.turns, true) != [] then rest + [last.sessionId] else rest
  }

  function AdmittedOf(cs: seq<Conversation>, source: string): seq<string> {
    if cs == [] then []
    else
      var rest, last := AdmittedOf(cs[..|cs| - 1], source), cs[|cs| - 1];
      if last.source == source then rest + [last.sessionId] else rest
  }

  function ExpectedSessionIds(cs: seq<Conversation>, evidence: seq<string>): seq<string> {
    if evidence == [] then []
    else ExpectedSessionIds(cs, evidence[..|evidence| - 1]) + AdmittedOf(cs, evidence[|evidence| - 1])
  }

  // ---------------------------------------------------------------- one question

  datatype Case = Case(
    caseId: string, expectedSessionIds: seq<string>, expectedTurnIds: seq<string>,
    officialEligible: bool, officialSessionIds: seq<string>, officialTurnIds: seq<string>, abstention: bool)

  datatype Scenario = Scenario(scenarioId: string, conversations: seq<Conversation>, evaluation: Case)

  datatype Admission = Admission(entries: seq<Diagnostic>, scenario: Option<Scenario>)

  predicate SessionIdsReadable(q: RawQuestion)
    requires q.RawQuestion?
  {
    q.sessionIds.Some? && |q.sessionIds.value| == |Sessions(q)| && ReadIds(q.sessionIds.value).Some?
  }

  /** What is checked before any session is walked. */
  function EarlyRejection(q: RawQuestion): Option<Reason> {
    if !q.RawQuestion? then Some(QuestionNotObject)
    else if QuestionId(q) == "" then Some(QuestionInvalidId)
    else if Text(q.question) == "" then Some(QuestionInvalidText)
    else if !q.goldReadable then Some(QuestionInvalidGold)
    else if q.sessions.None? then Some(QuestionInvalidSessions)
    else if !SessionIdsReadable(q) then Some(QuestionInvalidSessionIds)
    else if EvidenceIds(q).None? then Some(QuestionInvalidEvidence)
    else None
  }

  /** What the walk itself can bring to light. */
  function LateRejection(
    q: RawQuestion, cs: seq<Conversation>, rejected: nat, lost: bool, evidence: seq<string>): Option<Reason> {
    if rejected == |Sessions(q)| then Some(QuestionNoSessions)
    else if lost || exists i :: 0 <= i < |evidence| && AdmittedOf(cs, evidence[i]) == []
    then Some(QuestionEvidenceUnresolved)
    else if cs == [] then Some(QuestionNoSessions)
    else None
  }

  function CaseOf(q: RawQuestion, cs: seq<Conversation>, evidence: seq<string>): Case {
    var abstention := EndsWith(QuestionId(q), "_abs");
    var official := ExpectedTurnIds(cs, true);
    var eligible := !abstention && evidence != [] && official != [];
    Case(QuestionId(q), ExpectedSessionIds(cs, evidence), ExpectedTurnIds(cs, false), eligible,
         if eligible then OfficialSessionIds(cs) else [], if eligible then official else [], abstention)
  }

  function AdmissionOf(q: RawQuestion, question: nat): Admission {
    var early := EarlyRejection(q);
    if early.Some? then Admission([Diagnostic(question, None, None, early.value)], None)
    else
      var n, evidence := |Sessions(q)|, EvidenceIds(q).value;
      var cs, nested := Conversations(q, n), Nested(q, question, n);
      var late := LateRejection(q, cs, RejectedSessions(q, n), SomeEvidenceLost(nested), evidence);
      if late.Some? then Admission([Diagnostic(question, None, None, late.value)] + nested, None)
      else Admission(nested, Some(Scenario(QuestionId(q), cs, CaseOf(q, cs, evidence))))
  }

  lemma ReadableIds(q: RawQuestion, i: nat)
    requires EarlyRejection(q).None? && i < |Sessions(q)|
    ensures SourceId(q, i) != "" && QuestionId(q) != ""
  {
    assert Text(q.sessionIds.value[i]) != "";
  }

  /** One array session under its generated id. */
  method WalkSession(
    q: RawQuestion, question: nat, i: nat, sessionId: string) returns (kept: Conversation, entries: seq<Diagnostic>)
    requires i < |Sessions(q)| && Sessions(q)[i].RawSession? && sessionId == SessionId(q, i)
    ensures kept == ConversationAt(q, i) && entries == SessionEntries(q, question, i)
  {
    var turns, refusals := WalkTurns(Sessions(q)[i].turns, InEvidence(q, i), sessionId, question, i);
    kept := Conversation(i, SourceId(q, i), sessionId, turns);
    entries := (if turns == [] then [Diagnostic(question, Some(i), None, SessionEmptied)] else []) + refusals;
  }

  ghost predicate Walked(
    q: RawQuestion, question: nat, i: nat, cs: seq<Conversation>, nested: seq<Diagnostic>, rejected: nat) {
    i <= |Sessions(q)| && cs == Conversations(q, i) && nested == Nested(q, question, i)
        && rejected == RejectedSessions(q, i)
  }

  lemma WalkedNext(q: RawQuestion, question: nat, i: nat, cs: seq<Conversation>, nested: seq<Diagnostic>, rejected: nat)
    requires i < |Sessions(q)| && Walked(q, question, i, cs, nested, rejected)
    ensures if Sessions(q)[i].NotArray?
            then Walked(q, question, i + 1, cs, nested + [Diagnostic(question, Some(i), None, SessionNotArray)],
                        rejected + 1)
            else Walked(q, question, i + 1,
                        if ConversationAt(q, i).turns == [] then cs else cs + [ConversationAt(q, i)],
                        nested + SessionEntries(q, question, i), rejected)
  {
  }

  /** The next session of the walk. */
  method WalkNext(
    q: RawQuestion, question: nat, i: nat, sessionId: string, cs: seq<Conversation>, nested: seq<Diagnostic>,
    rejected: nat)
    returns (kept: seq<Conversation>, entries: seq<Diagnostic>, refused: nat)
    requires i < |Sessions(q)| && Walked(q, question, i, cs, nested, rejected) && sessionId == SessionId(q, i)
    ensures Walked(q, question, i + 1, kept, entries, refused)
  {
    WalkedNext(q, question, i, cs, nested, rejected);
    if Sessions(q)[i].NotArray? {
      return cs, nested + [Diagnostic(question, Some(i), None, SessionNotArray)], rejected + 1;
    }
    var conversation, more := WalkSession(q, question, i, sessionId);
    return if conversation.turns == [] then cs else cs + [conversation], nested + more, rejected;
  }

  method WalkSessions(q: RawQuestion, question: nat)
    returns (cs: seq<Conversation>, nested: seq<Diagnostic>, rejected: nat)
    requires EarlyRejection(q).None?
    ensures Walked(q, question, |Sessions(q)|, cs, nested, rejected)
  {
    cs, nested, rejected := [], [], 0;
    var occurrences: map<string, nat> := map[];
    for i := 0 to |Sessions(q)|
      invariant Counts(occurrences, q, i) && Walked(q, question, i, cs, nested, rejected)
    {
      ReadableIds(q, i);
      var sessionId;
      sessionId, occurrences := OccurrenceSessionId(q, i, occurrences);
      cs, nested, rejected := WalkNext(q, question, i, sessionId, cs, nested, rejected);
    }
  }

  method AdmitQuestion(q: RawQuestion, question: nat) returns (r: Admission)
    ensures r == AdmissionOf(q, question)
  {
    var early := EarlyRejection(q);
    if early.Some? { return Admission([Diagnostic(question, None, None, early.value)], None); }
    var evidence := EvidenceIds(q).value;
    var cs, nested, rejected := WalkSessions(q, question);
    var late := LateRejection(q, cs, rejected, SomeEvidenceLost(nested), evidence);
    if late.Some? { return Admission([Diagnostic(question, None, None, late.value)] + nested, None); }
    return Admission(nested, Some(Scenario(QuestionId(q), cs, CaseOf(q, cs, evidence))));
  }

  // ---------------------------------------------------------------- expected ids name admitted content

  ghost predicate IsAnswerTurn(cs: seq<Conversation>, id: string, userOnly: bool) {
    exists c, t :: 0 <= c < |cs| && 0 <= t < |cs[c].turns| && cs[c].turns[t].turnId == id
                   && cs[c].turns[t].hasAnswer && (cs[c].turns[t].user || !userOnly)
  }

  ghost predicate IsSession(cs: seq<Conversation>, id: string, source: string) {
    exists c :: 0 <= c < |cs| && cs[c].sessionId == id && cs[c].source == source
  }

  lemma {:induction false} AnswerIdsName(turns: seq<AdmittedTurn>, userOnly: bool)
    ensures forall id :: id in AnswerIds(turns, userOnly) <==>
              exists t :: 0 <= t < |turns| && turns[t].turnId == id && turns[t].hasAnswer
                  && (turns[t].user || !userOnly)
  {
    if turns != [] {
      AnswerIdsName(turns[..|turns| - 1], userOnly);
    }
  }

  /** The expected turn ids are exactly the ids of the admitted answer turns. */
  lemma {:induction false} ExpectedTurnsName(cs: seq<Conversation>, userOnly: bool, id: string)
    ensures id in ExpectedTurnIds(cs, userOnly) <==> IsAnswerTurn(cs, id, userOnly)
  {
    if cs != [] {
      var n := |cs| - 1;
      ExpectedTurnsName(cs[..n], userOnly, id);
      AnswerIdsName(cs[n].turns, userOnly);
      if IsAnswerTurn(cs[..n], id, userOnly) {
        var c, t :| 0 <= c < n && 0 <= t < |cs[..n][c].turns| && cs[..n][c].turns[t].turnId == id
                    && cs[..n][c].turns[t].hasAnswer && (cs[..n][c].turns[t].user || !userOnly);
        assert cs[c] == cs[..n][c];
      }
      if IsAnswerTurn(cs, id, userOnly) && id !in AnswerIds(cs[n].turns, userOnly) {
        var c, t :| 0 <= c < |cs| && 0 <= t < |cs[c].turns| && cs[c].turns[t].turnId == id
                    && cs[c].turns[t].hasAnswer && (cs[c].turns[t].user || !userOnly);
        assert c < n && cs[..n][c] == cs[c];
      }
    }
  }

  lemma {:induction false} AdmittedOfNames(cs: seq<Conversation>, source: string, id: string)
    ensures id in AdmittedOf(cs, source) <==> IsSession(cs, id, source)
  {
    if cs != [] {
      var n := |cs| - 1;
      AdmittedOfNames(cs[..n], source, id);
      if IsSession(cs[..n], id, source) {
        var c :| 0 <= c < n && cs[..n][c].sessionId == id && cs[..n][c].source == source;
        assert cs[c] == cs[..n][c];
      }
      if IsSession(cs, id, source) && !(cs[n].source == source && cs[n].sessionId == id) {
        var c :| 0 <= c < |cs| && cs[c].sessionId == id && cs[c].source == source;
        assert c < n && cs[..n][c] == cs[c];
      }
    }
  }

  /** The expected session ids are exactly the admitted sessions of the evidence. */
  lemma {:induction false} ExpectedSessionsName(cs: seq<Conversation>, evidence: seq<string>, id: string)
    ensures id in ExpectedSessionIds(cs, evidence) <==> exists e :: e in evidence && IsSession(cs, id, e)
  {
    if evidence != [] {
      var n := |evidence| - 1;
      ExpectedSessionsName(cs, evidence[..n], id);
      AdmittedOfNames(cs, evidence[n], id);
      assert evidence == evidence[..n] + [evidence[n]];
    }
  }

  /** An admitted session in which the user gives an answer. */
  ghost predicate IsOfficialSession(cs: seq<Conversation>, id: string) {
    exists c :: 0 <= c < |cs| && cs[c].sessionId == id && AnswerIds(cs[c].turns, true) != []
  }

  lemma {:induction false} OfficialSessionsName(cs: seq<Conversation>, id: string)
    ensures id in OfficialSessionIds(cs) <==> IsOfficialSession(cs, id)
  {
    if cs != [] {
      var n := |cs| - 1;
      OfficialSessionsName(cs[..n], id);
      if IsOfficialSession(cs[..n], id) {
        var c :| 0 <= c < n && cs[..n][c].sessionId == id && AnswerIds(cs[..n][c].turns, true) != [];
        assert cs[c] == cs[..n][c];
      }
      if IsOfficialSession(cs, id) && !(cs[n].sessionId == id && AnswerIds(cs[n].turns, true) != []) {
        var c :| 0 <= c < |cs| && cs[c].sessionId == id && AnswerIds(cs[c].turns, true) != [];
        assert c < n && cs[..n][c] == cs[c];
      }
    }
  }

  lemma AllOfficialSessionsName(cs: seq<Conversation>)
    ensures forall id :: id in OfficialSessionIds(cs) <==> IsOfficialSession(cs, id)
  {
    forall id ensures id in OfficialSessionIds(cs) <==> IsOfficialSession(cs, id) { OfficialSessionsName(cs, id); }
  }

  /**
   * Eligible are the cases with evidence whose user answers; their official ids are exactly those
   * turns and sessions.
   */
  ghost predicate NamesOfficial(x: Case, cs: seq<Conversation>, evidence: seq<string>) {
    && (x.officialEligible <==> !x.abstention && evidence != [] && exists id :: IsAnswerTurn(cs, id, true))
    && (forall id :: id in x.officialTurnIds <==> x.officialEligible && IsAnswerTurn(cs, id, true))
    && (forall id :: id in x.officialSessionIds <==> x.officialEligible && IsOfficialSession(cs, id))
  }

  lemma OfficialIdsNameUserAnswers(q: RawQuestion, cs: seq<Conversation>, evidence: seq<string>)
    ensures NamesOfficial(CaseOf(q, cs, evidence), cs, evidence)
  {
    AllExpectedTurnsName(cs, true);
    AllOfficialSessionsName(cs);
    var official := ExpectedTurnIds(cs, true);
    if official != [] { assert official[0] in official; }
  }

  /**
   * The expected turns are the admitted answer turns, and the expected sessions the admitted
   * evidence, none of it missing.
   */
  ghost predicate NamesContent(x: Case, cs: seq<Conversation>, evidence: seq<string>) {
    && (forall id :: id in x.expectedTurnIds <==> IsAnswerTurn(cs, id, false))
    && (forall id :: id in x.officialTurnIds ==> IsAnswerTurn(cs, id, true))
    && (forall id :: id in x.expectedSessionIds <==> exists e :: e in evidence && IsSession(cs, id, e))
    && (forall e :: e in evidence ==> exists id :: IsSession(cs, id, e))
  }

  lemma CaseNamesContent(q: RawQuestion, cs: seq<Conversation>, evidence: seq<string>)
    requires forall i :: 0 <= i < |evidence| ==> AdmittedOf(cs, evidence[i]) != []
    ensures NamesContent(CaseOf(q, cs, evidence), cs, evidence)
  {
    AllExpectedTurnsName(cs, false);
    AllExpectedTurnsName(cs, true);
    AllExpectedSessionsName(cs, evidence);
    AllEvidenceAdmitted(cs, evidence);
  }

  lemma AdmittedParts(q: RawQuestion, question: nat)
    requires AdmissionOf(q, question).scenario.Some?
    ensures EvidenceIds(q).Some?
    ensures var cs, evidence := Conversations(q, |Sessions(q)|), EvidenceIds(q).value;
            && AdmissionOf(q, question).scenario.value == Scenario(QuestionId(q), cs, CaseOf(q, cs, evidence))
            && cs != [] && forall i :: 0 <= i < |evidence| ==> AdmittedOf(cs, evidence[i]) != []
  {
  }

  /** Every id an admitted case expects names admitted content, and no evidence source is left without any. */
  lemma ExpectedIdsNameAdmittedContent(q: RawQuestion, question: nat)
    requires AdmissionOf(q, question).scenario.Some?
    ensures var s := AdmissionOf(q, question).scenario.value;
            && s.conversations == Conversations(q, |Sessions(q)|) && s.conversations != []
            && EvidenceIds(q).Some? && NamesContent(s.evaluation, s.conversations, EvidenceIds(q).value)
            && NamesOfficial(s.evaluation, s.conversations, EvidenceIds(q).value)
  {
    AdmittedParts(q, question);
    OfficialIdsNameUserAnswers(q, Conversations(q, |Sessions(q)|), EvidenceIds(q).value);
    CaseNamesContent(q, Conversations(q, |Sessions(q)|), EvidenceIds(q).value);
  }

  lemma AllExpectedSessionsName(cs: seq<Conversation>, evidence: seq<string>)
    ensures forall id :: id in ExpectedSessionIds(cs, evidence) <==> exists e :: e in evidence && IsSession(cs, id, e)
  {
    forall id ensures id in ExpectedSessionIds(cs, evidence) <==> exists e :: e in evidence && IsSession(cs, id, e) {
      ExpectedSessionsName(cs, evidence, id);
    }
  }

  lemma AllEvidenceAdmitted(cs: seq<Conversation>, evidence: seq<string>)
    requires forall i :: 0 <= i < |evidence| ==> AdmittedOf(cs, evidence[i]) != []
    ensures forall e :: e in evidence ==> exists id :: IsSession(cs, id, e)
  {
    forall e | e in evidence ensures exists id :: IsSession(cs, id, e) { EvidenceAdmitted(cs, evidence, e); }
  }

  lemma AllExpectedTurnsName(cs: seq<Conversation>, userOnly: bool)
    ensures forall id :: id in ExpectedTurnIds(cs, userOnly) <==> IsAnswerTurn(cs, id, userOnly)
  {
    forall id ensures id in ExpectedTurnIds(cs, userOnly) <==> IsAnswerTurn(cs, id, userOnly) {
      ExpectedTurnsName(cs, userOnly, id);
    }
  }

  lemma EvidenceAdmitted(cs: seq<Conversation>, evidence: seq<string>, e: string)
    requires e in evidence && forall i :: 0 <= i < |evidence| ==> AdmittedOf(cs, evidence[i]) != []
    ensures exists id :: IsSession(cs, id, e)
  {
    var i :| 0 <= i < |evidence| && evidence[i] == e;
    AdmittedOfNames(cs, e, AdmittedOf(cs, evidence[i])[0]);
  }

  // ---------------------------------------------------------------- the document

  datatype Document = Accepted(scenarios: seq<Scenario>, diagnostics: seq<Diagnostic>) | Rejected(why: Rejection)

  function Scenarios(entries: seq<RawQuestion>, n: nat): seq<Scenario>
    requires n <= |entries|
  {
    if n == 0 then []
    else
      var rest, last := Scenarios(entries, n - 1), AdmissionOf(entries[n - 1], n - 1).scenario;
      if last.Some? then rest + [last.value] else rest
  }

  function Diagnostics(entries: seq<RawQuestion>, n: nat): seq<Diagnostic>
    requires n <= |entries|
  {
    if n == 0 then [] else Diagnostics(entries, n - 1) + AdmissionOf(entries[n - 1], n - 1).entries
  }

  /** Accepted exactly when the preflight finds no fault and some question is admitted. */
  method AdmitLongMemEvalDocument(entries: seq<RawQuestion>) returns (r: Document)
    ensures r.Accepted? <==> Clean(entries) && Scenarios(entries, |entries|) != []
    ensures r.Accepted? ==>
              r.scenarios == Scenarios(entries, |entries|) && r.diagnostics == Diagnostics(entries, |entries|)
    ensures r == Rejected(AllRejected) <==> Clean(entries) && Scenarios(entries, |entries|) == []
    ensures r.Rejected? && r.why != AllRejected ==> DocumentFault(entries, r.why)
  {
    var fault := PreflightIdentity(entries);
    if fault.Some? { return Rejected(fault.value); }
    var scenarios, diagnostics := [], [];
    for k := 0 to |entries|
      invariant scenarios == Scenarios(entries, k) && diagnostics == Diagnostics(entries, k)
    {
      var admission := AdmitQuestion(entries[k], k);
      diagnostics := diagnostics + admission.entries;
      if admission.scenario.Some? { scenarios := scenarios + [admission.scenario.value]; }
    }
    return if scenarios == [] then Rejected(AllRejected) else Accepted(scenarios, diagnostics);
  }

  /** Where an admitted conversation came from. */
  lemma {:induction false} ConversationOrigin(q: RawQuestion, n: nat, c: nat)
    requires n <= |Sessions(q)| && c < |Conversations(q, n)|
    ensures var conv := Conversations(q, n)[c];
            && conv.sessionIndex < n && Sessions(q)[conv.sessionIndex].RawSession?
               && conv == ConversationAt(q, conv.sessionIndex)
            && (forall b :: 0 <= b < c ==> Conversations(q, n)[b].sessionIndex < conv.sessionIndex)
  {
    var rest := Conversations(q, n - 1);
    if c < |rest| {
      ConversationOrigin(q, n - 1, c);
      assert forall b :: 0 <= b < c ==> Conversations(q, n)[b] == rest[b];
    } else {
      forall b: nat | b < c ensures Conversations(q, n)[b].sessionIndex < n - 1 { ConversationOrigin(q, n - 1, b); }
    }
  }

  /** An admitted question and one of its conversations. */
  ghost predicate HasConversation(entries: seq<RawQuestion>, k: nat, c: nat) {
    && k < |entries| && AdmissionOf(entries[k], k).scenario.Some?
    && c < |Conversations(entries[k], |Sessions(entries[k])|)|
  }

  function ConversationIn(entries: seq<RawQuestion>, k: nat, c: nat): Conversation
    requires HasConversation(entries, k, c)
    ensures AdmissionOf(entries[k], k).scenario.value.conversations[c] == ConversationIn(entries, k, c)
  {
    Conversations(entries[k], |Sessions(entries[k])|)[c]
  }

  lemma InspectedConversation(entries: seq<RawQuestion>, k: nat, c: nat)
    requires HasConversation(entries, k, c)
    ensures var conv := ConversationIn(entries, k, c);
            && Inspectable(entries, (k, conv.sessionIndex)) && conv.sessionId == IdAt(entries, (k, conv.sessionIndex))
            && Sessions(entries[k])[conv.sessionIndex].RawSession?
            && conv.turns
               == AdmittedTurns(Sessions(entries[k])[conv.sessionIndex].turns,
                   InEvidence(entries[k], conv.sessionIndex), conv.sessionId)
  {
    var q := entries[k];
    ConversationOrigin(q, |Sessions(q)|, c);
    ReadableIds(q, ConversationIn(entries, k, c).sessionIndex);
  }

  /** After a clean preflight no two admitted conversations share a session id ... */
  lemma SessionIdsUnique(entries: seq<RawQuestion>, k: nat, c: nat, l: nat, d: nat)
    requires SessionIdsDistinct(entries) && HasConversation(entries, k, c) && HasConversation(entries, l, d)
    requires ConversationIn(entries, k, c).sessionId == ConversationIn(entries, l, d).sessionId
    ensures k == l && c == d
  {
    InspectedConversation(entries, k, c);
    InspectedConversation(entries, l, d);
    SameInspected(entries, (k, ConversationIn(entries, k, c).sessionIndex),
        (l, ConversationIn(entries, l, d).sessionIndex));
    SamePosition(entries[k], c, d);
  }

  lemma SameInspected(entries: seq<RawQuestion>, a: (nat, nat), b: (nat, nat))
    requires SessionIdsDistinct(entries) && Inspectable(entries, a) && Inspectable(entries, b)
              && IdAt(entries, a) == IdAt(entries, b)
    ensures a == b
  {
  }

  lemma SamePosition(q: RawQuestion, c: nat, d: nat)
    ensures var cs := Conversations(q, |Sessions(q)|);
            c < |cs| && d < |cs| && cs[c].sessionIndex == cs[d].sessionIndex ==> c == d
  {
    var cs := Conversations(q, |Sessions(q)|);
    if c < |cs| && d < |cs| {
      ConversationOrigin(q, |Sessions(q)|, c);
      ConversationOrigin(q, |Sessions(q)|, d);
    }
  }

  /** ... and no two admitted turns share a turn id. */
  lemma TurnIdsUnique(entries: seq<RawQuestion>, k: nat, c: nat, t: nat, l: nat, d: nat, u: nat)
    requires SessionIdsDistinct(entries) && HasConversation(entries, k, c) && HasConversation(entries, l, d)
    requires t < |ConversationIn(entries, k, c).turns| && u < |ConversationIn(entries, l, d).turns|
    requires ConversationIn(entries, k, c).turns[t].turnId == ConversationIn(entries, l, d).turns[u].turnId
    ensures k == l && c == d && t == u
  {
    var x, y := ConversationIn(entries, k, c), ConversationIn(entries, l, d);
    TurnsOf(entries, k, c);
    TurnsOf(entries, l, d);
    TurnIdsDistinct(x.sessionId, y.sessionId, x.turns[t].turnIndex, y.turns[u].turnIndex);
    SessionIdsUnique(entries, k, c, l, d);
  }

  lemma TurnsOf(entries: seq<RawQuestion>, k: nat, c: nat)
    requires HasConversation(entries, k, c)
    ensures var conv := ConversationIn(entries, k, c);
            && (forall t :: 0 <= t < |conv.turns| ==>
               conv.turns[t].turnId == TurnId(conv.sessionId, conv.turns[t].turnIndex))
            && (forall t, u :: 0 <= t < u < |conv.turns| ==> conv.turns[t].turnIndex < conv.turns[u].turnIndex)
  {
    var conv := ConversationIn(entries, k, c);
    InspectedConversation(entries, k, c);
    EveryTurnOnce(Sessions(entries[k])[conv.sessionIndex].turns, InEvidence(entries[k], conv.sessionIndex),
        conv.sessionId, k, conv.sessionIndex);
  }

  lemma CaseIdsUnique(entries: seq<RawQuestion>, k: nat, l: nat)
    requires QuestionIdsDistinct(entries) && k < |entries| && l < |entries|
    requires AdmissionOf(entries[k], k).scenario.Some? && AdmissionOf(entries[l], l).scenario.Some?
    requires AdmissionOf(entries[k], k).scenario.value.evaluation.caseId
              == AdmissionOf(entries[l], l).scenario.value.evaluation.caseId
    ensures k == l
  {
    var ids := MapSeq(QuestionId, entries);
    assert ids[k] == ids[l];
  }

  // ---------------------------------------------------------------- across the two kinds of id

  /** A session id without its question: the source, and `::occ<k>` on a repeat. */
  function Tail(q: RawQuestion, i: nat): string {
    var occurrence := Occurrences(q, SourceId(q, i), i + 1);
    if occurrence == 1 then SourceId(q, i) else SourceId(q, i) + "::occ" + Decimal(occurrence)
  }

  lemma SessionIdIsTail(q: RawQuestion, i: nat)
    ensures SessionId(q, i) == QuestionId(q) + "::" + Tail(q, i)
  {
    var occurrence := Occurrences(q, SourceId(q, i), i + 1);
    if occurrence != 1 {
      assert (QuestionId(q) + "::" + SourceId(q, i)) + "::occ" + Decimal(occurrence)
          == QuestionId(q) + "::" + (SourceId(q, i) + "::occ" + Decimal(occurrence));
    }
  }

  /**
   * Session ids and turn ids are not distinct from each other in general.  They coincide exactly when
   * the session is the first occurrence of a source that spells the turn.
   */
  lemma SessionIsTurnExactly(p: RawQuestion, j: nat, q: RawQuestion, i: nat, t: nat)
    ensures SessionId(p, j) == TurnId(SessionId(q, i), t) <==>
            Occurrences(p, SourceId(p, j), j + 1) == 1 &&
            QuestionId(p) + "::" + SourceId(p, j) == QuestionId(q) + "::" + Tail(q, i) + "::turn" + "_" + Decimal(t + 1)
  {
    SessionIdIsTail(q, i);
    if SessionId(p, j) == TurnId(SessionId(q, i), t) {
      DecimalReads(t + 1);
      RepeatIsNoTurn(QuestionId(p) + "::" + SourceId(p, j), Occurrences(p, SourceId(p, j), j + 1), SessionId(q, i),
                     Decimal(t + 1));
    }
  }

  lemma RepeatIsNoTurn(base: string, occurrence: nat, session: string, number: string)
    requires AllDigits(number)
    requires (if occurrence == 1 then base else base + "::occ" + Decimal(occurrence))
             == session + "::turn" + "_" + number
    ensures occurrence == 1
  {
    if occurrence != 1 {
      DecimalReads(occurrence);
      assert base + "::occ" + Decimal(occurrence) == (base + "::oc") + ['c'] + Decimal(occurrence);
      DigitSuffix(base + "::oc", session + "::turn", 'c', '_', Decimal(occurrence), number);
    }
  }

  /** Session j of a question is the first to name a source that spells turn t of session i. */
  predicate SpellsTurn(q: RawQuestion, j: nat, i: nat, t: nat) {
    Occurrences(q, SourceId(q, j), j + 1) == 1 && SourceId(q, j) == Tail(q, i) + "::turn" + "_" + Decimal(t + 1)
  }

  /** Every colon is followed by something other than a colon, so `::` ends the id. */
  predicate Separable(id: string) {
    forall k :: 0 <= k < |id| && id[k] == ':' ==> k + 1 < |id| && id[k + 1] != ':'
  }

  lemma SeparatedOnce(a: string, x: string, b: string, y: string)
    requires Separable(a) && Separable(b) && a + "::" + x == b + "::" + y
    ensures a == b && x == y
  {
    var s := a + "::" + x;
    assert s[|a|] == ':' && s[|a| + 1] == ':' && s[|b|] == ':' && s[|b| + 1] == ':';
    NoEarlySeparator(a, x, b, y);
    NoEarlySeparator(b, y, a, x);
    assert s[..|a|] == a && s[..|b|] == b && s[|a| + 2..] == x && s[|b| + 2..] == y;
  }

  lemma NoEarlySeparator(a: string, x: string, b: string, y: string)
    requires Separable(b) && a + "::" + x == b + "::" + y
    ensures |b| <= |a|
  {
    var s := a + "::" + x;
    assert s[|a|] == ':' && s[|a| + 1] == ':';
    assert forall k :: 0 <= k < |b| ==> s[k] == b[k];
  }

  /** Across a whole document, if question ids can be told from what follows them. */
  lemma SessionIsTurnInDocument(entries: seq<RawQuestion>, k: nat, j: nat, l: nat, i: nat, t: nat)
    requires QuestionIdsDistinct(entries) && k < |entries| && l < |entries| && QuestionId(entries[k]) != ""
    requires Separable(QuestionId(entries[k])) && Separable(QuestionId(entries[l]))
    ensures SessionId(entries[k], j) == TurnId(SessionId(entries[l], i), t) <==>
            k == l && SpellsTurn(entries[k], j, i, t)
  {
    var p, q := entries[k], entries[l];
    SessionIsTurnExactly(p, j, q, i, t);
    var spelled := Tail(q, i) + "::turn" + "_" + Decimal(t + 1);
    assert QuestionId(q) + "::" + Tail(q, i) + "::turn" + "_" + Decimal(t + 1) == QuestionId(q) + "::" + spelled;
    if QuestionId(p) + "::" + SourceId(p, j) == QuestionId(q) + "::" + spelled {
      SeparatedOnce(QuestionId(p), SourceId(p, j), QuestionId(q), spelled);
      SameQuestion(entries, k, l);
    }
  }

  lemma SameQuestion(entries: seq<RawQuestion>, k: nat, l: nat)
    requires QuestionIdsDistinct(entries) && k < |entries| && l < |entries|
    requires QuestionId(entries[k]) != "" && QuestionId(entries[k]) == QuestionId(entries[l])
    ensures k == l
  {
    var ids := MapSeq(QuestionId, entries);
    assert ids[k] == ids[l];
  }

  /** Conversation c of question k, and turn t of conversation d of question l. */
  ghost predicate HasBoth(entries: seq<RawQuestion>, k: nat, c: nat, l: nat, d: nat, t: nat) {
    HasConversation(entries, k, c) && HasConversation(entries, l, d) && t < |ConversationIn(entries, l, d).turns|
  }

  /** The conversation bears the id of the turn. */
  ghost predicate Coincide(entries: seq<RawQuestion>, k: nat, c: nat, l: nat, d: nat, t: nat) {
    HasBoth(entries, k, c, l, d, t)
    && ConversationIn(entries, k, c).sessionId == ConversationIn(entries, l, d).turns[t].turnId
  }

  /** They are of one question, and the conversation's session is the first to name a source that spells the turn. */
  ghost predicate Spelled(entries: seq<RawQuestion>, k: nat, c: nat, l: nat, d: nat, t: nat) {
    HasBoth(entries, k, c, l, d, t) && k == l
    && SpellsTurn(entries[k], ConversationIn(entries, k, c).sessionIndex, ConversationIn(entries, l, d).sessionIndex,
                  ConversationIn(entries, l, d).turns[t].turnIndex)
  }

  ghost predicate SeparableIds(entries: seq<RawQuestion>) {
    QuestionIdsDistinct(entries) && forall n :: 0 <= n < |entries| ==> Separable(QuestionId(entries[n]))
  }

  lemma CoincideExactly(entries: seq<RawQuestion>, k: nat, c: nat, l: nat, d: nat, t: nat)
    requires SeparableIds(entries)
    ensures Coincide(entries, k, c, l, d, t) <==> Spelled(entries, k, c, l, d, t)
  {
    if HasBoth(entries, k, c, l, d, t) {
      var x, y := ConversationIn(entries, k, c), ConversationIn(entries, l, d);
      InspectedConversation(entries, k, c);
      InspectedConversation(entries, l, d);
      TurnsOf(entries, l, d);
      SessionIsTurnInDocument(entries, k, x.sessionIndex, l, y.sessionIndex, y.turns[t].turnIndex);
    }
  }

  /**
   * In a document whose question ids are distinct and separable, no id names both kinds exactly
   * when no source spells a turn.
   */
  lemma KindsApartExactly(entries: seq<RawQuestion>)
    requires SeparableIds(entries)
    ensures (forall k, c, l, d, t :: !Coincide(entries, k, c, l, d, t)) <==>
            (forall k, c, l, d, t :: !Spelled(entries, k, c, l, d, t))
  {
    forall k, c, l, d, t ensures Coincide(entries, k, c, l, d, t) <==> Spelled(entries, k, c, l, d, t) {
      CoincideExactly(entries, k, c, l, d, t);
    }
  }

  // ---------------------------------------------------------------- a document in which they coincide

  function Greeting(): RawSession { RawSession([RawTurn(Some("user"), Some("hi"), Absent)]) }

  /** Two sessions of one turn each; the source of the second spells the turn of the first. */
  function SpellingQuestion(): RawQuestion {
    RawQuestion(Some("q"), Some("?"), true, Some([Greeting(), Greeting()]), Some([Some("s"), Some("s::turn_1")]),
        NoEvidence)
  }

  lemma TrimWord(s: string)
    requires s != "" && !IsSpace(s[0]) && !IsSpace(s[|s| - 1])
    ensures Trim(s) == s
  {
  }

  lemma SpellingIds()
    ensures var q := SpellingQuestion();
            && QuestionId(q) == "q" && SourceId(q, 0) == "s" && SourceId(q, 1) == "s::turn_1"
            && SessionId(q, 0) == "q::s" && SessionId(q, 1) == "q::s::turn_1" == TurnId(SessionId(q, 0), 0)
  {
    var q := SpellingQuestion();
    TrimWord("q");
    TrimWord("s");
    TrimWord("s::turn_1");
    assert Decimal(1) == "1";
    assert Occurrences(q, "s", 1) == 1;
    assert Occurrences(q, "s::turn_1", 1) == 0;
    assert Occurrences(q, "s::turn_1", 2) == 1;
    assert "q" + "::" + "s" == "q::s" && "q" + "::" + "s::turn_1" == "q::s::turn_1";
    assert "q::s" + "::turn" + "_" + "1" == "q::s::turn_1";
  }

  lemma SpellingTurns(q: RawQuestion, i: nat)
    requires q == SpellingQuestion() && i < 2
    ensures AdmittedTurns(Greeting().turns, InEvidence(q, i), SessionId(q, i))
            == [AdmittedTurn(0, true, "hi", false, TurnId(SessionId(q, i), 0))]
    ensures Refusals(Greeting().turns, InEvidence(q, i), 0, i) == []
  {
    TrimWord("hi");
    assert Greeting().turns[..0] == [];
    assert AdmitTurn(Greeting().turns[0], InEvidence(q, i)) == Admitted(true, "hi", false);
  }

  lemma SpellingWalk(q: RawQuestion)
    requires q == SpellingQuestion()
    ensures Conversations(q, 2) == [ConversationAt(q, 0), ConversationAt(q, 1)]
    ensures Nested(q, 0, 2) == [] && RejectedSessions(q, 2) == 0
  {
    SpellingTurns(q, 0);
    SpellingTurns(q, 1);
    assert Conversations(q, 1) == [ConversationAt(q, 0)];
    assert Nested(q, 0, 1) == [] && RejectedSessions(q, 1) == 0;
  }

  lemma SpellingReadable(q: RawQuestion)
    requires q == SpellingQuestion()
    ensures EarlyRejection(q).None? && EvidenceIds(q) == Some([])
  {
    TrimWord("?");
    TrimWord("q");
    TrimWord("s");
    TrimWord("s::turn_1");
    assert SessionIdsReadable(q);
  }

  /** Nothing refused, no evidence asked for and something kept: the question is admitted. */
  lemma PlainQuestionAdmitted(q: RawQuestion, k: nat)
    requires EarlyRejection(q).None? && EvidenceIds(q) == Some([]) && Conversations(q, |Sessions(q)|) != []
    requires Nested(q, k, |Sessions(q)|) == [] && RejectedSessions(q, |Sessions(q)|) < |Sessions(q)|
    ensures AdmissionOf(q, k).scenario.Some?
    ensures AdmissionOf(q, k).scenario.value.conversations == Conversations(q, |Sessions(q)|)
  {
    var n := |Sessions(q)|;
    assert LateRejection(q, Conversations(q, n), RejectedSessions(q, n), false, []) == None;
    NoLateRejection(q, k);
  }

  lemma NoLateRejection(q: RawQuestion, k: nat)
    requires EarlyRejection(q).None? && EvidenceIds(q).Some?
    requires var n := |Sessions(q)|;
             LateRejection(q, Conversations(q, n), RejectedSessions(q, n), SomeEvidenceLost(Nested(q, k, n)),
                           EvidenceIds(q).value).None?
    ensures AdmissionOf(q, k).scenario.Some?
    ensures AdmissionOf(q, k).scenario.value.conversations == Conversations(q, |Sessions(q)|)
  {
  }

  lemma SpellingAdmitted(q: RawQuestion)
    requires q == SpellingQuestion()
    ensures AdmissionOf(q, 0).scenario.Some?
    ensures AdmissionOf(q, 0).scenario.value.conversations == [ConversationAt(q, 0), ConversationAt(q, 1)]
  {
    SpellingReadable(q);
    SpellingWalk(q);
    PlainQuestionAdmitted(q, 0);
  }

  lemma SpellingClean(q: RawQuestion)
    requires q == SpellingQuestion()
    ensures Clean([q])
  {
    SpellingIds();
    assert |SessionId(q, 0)| == 4 && |SessionId(q, 1)| == 12;
    assert SessionIdsDistinct([q]) by {
      forall a, b | Inspectable([q], a) && Inspectable([q], b) && IdAt([q], a) == IdAt([q], b) ensures a == b {
        assert a.0 == 0 && b.0 == 0;
      }
    }
    assert RepeatsAgree(q);
  }

  /** The document of that one question is admitted, and in its scenario one id names a session and a turn. */
  lemma CoincidenceExample()
    ensures var entries := [SpellingQuestion()];
            && Clean(entries) && |Scenarios(entries, 1)| == 1
            && var cs := Scenarios(entries, 1)[0].conversations;
               |cs| == 2 && |cs[0].turns| == 1 && cs[1].sessionId == cs[0].turns[0].turnId
  {
    var q := SpellingQuestion();
    SpellingClean(q);
    SpellingAdmitted(q);
    SpellingIds();
    SpellingTurns(q, 0);
    assert Scenarios([q], 0) == [];
  }

  method AdmitSpellingDocument() returns (r: Document)
    ensures r.Accepted? && |r.scenarios| == 1
    ensures var cs := r.scenarios[0].conversations;
            |cs| == 2 && |cs[0].turns| == 1 && cs[1].sessionId == cs[0].turns[0].turnId
  {
    CoincidenceExample();
    r := AdmitLongMemEvalDocument([SpellingQuestion()]);
  }
}
