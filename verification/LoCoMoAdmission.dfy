/** Admitting a LoCoMo document: numbered sessions, dialog references, and generated case ids. */
module LoCoMoAdmission {
  import opened Common
  import opened DecimalText

  // ---------------------------------------------------------------- the raw document

  datatype RawTurn = NotObject | RawTurn(speaker: Option<string>, text: Option<string>, dialogId: Option<string>)

  datatype RawSession = NotArray | RawSession(turns: seq<RawTurn>)

  datatype RawEvidence = NoEvidence | EvidenceNotArray | Evidence(entries: seq<Option<string>>)

  datatype RawQa =
    | QaNotObject
    | RawQa(question: Option<string>, category: Option<int>, goldReadable: bool, evidence: RawEvidence)

  /** The `session_...` members of a conversation object, by key, and its two speakers. */
  datatype RawConversation = RawConversation(sessions: map<string, RawSession>, speakerA: Option<string>,
      speakerB: Option<string>)

  datatype RawSample =
    | SampleNotObject
    | RawSample(sampleId: Option<string>, conversation: Option<RawConversation>, qa: Option<seq<RawQa>>)

  datatype Reason =
    | NotASample | SampleInvalidId | SampleInvalidConversation | SampleInvalidQa | SampleInvalidSpeakers
    | SessionGap | SessionNotArray | SessionEmptied | SessionInvalidKey
    | TurnNotObject | TurnInvalidSpeaker | TurnUnknownSpeaker | TurnContentNotString | TurnEmptyEvidence |
        SkippedEmptyTurn
    | NotAQa | QaInvalidQuestion | QaInvalidCategory | QaInvalidGold | QaInvalidEvidence | QaEvidenceUnresolved

  // ---------------------------------------------------------------- session keys

  const SESSION: string := "session_"

  function Key(index: nat): string { SESSION + Decimal(index) }

  predicate SessionKey(key: string) { SESSION < key && AllDigits(key[|SESSION|..]) }

  /** A key without a leading zero has a place in the walk; any other session key is invalid. */
  predicate Canonical(key: string) { SessionKey(key) && key[|SESSION|] != '0' }

  lemma {:induction false} DecimalOfReading(digits: string)
    requires AllDigits(digits) && digits != "" && digits[0] != '0'
    ensures Decimal(Reading(digits)) == digits && Reading(digits) > 0
  {
    var n := |digits| - 1;
    assert digits == digits[..n] + [digits[n]];
    if n == 0 {
      DigitRoundTrip(digits[0]);
      assert Reading(digits[..0]) == 0;
    } else {
      DecimalOfReading(digits[..n]);
      DigitRoundTrip(digits[n]);
      TensAndUnits(Reading(digits[..n]), DigitValue(digits[n]));
    }
  }

  lemma TensAndUnits(tens: nat, units: nat)
    requires tens > 0 && units < 10
    ensures Decimal(10 * tens + units) == Decimal(tens) + [Digit(units)]
  {
  }

  lemma DigitRoundTrip(c: char)
    requires IsDigit(c)
    ensures DigitValue(c) < 10 && Digit(DigitValue(c)) == c && (c != '0' ==> DigitValue(c) > 0)
  {
  }

  lemma {:induction false} DecimalHasNoLeadingZero(n: nat)
    requires n > 0
    ensures Decimal(n) != "" && Decimal(n)[0] != '0'
  {
    if n >= 10 { DecimalHasNoLeadingZero(n / 10); }
  }

  lemma KeyIsCanonical(n: nat)
    requires n > 0
    ensures Canonical(Key(n)) && Reading(Key(n)[|SESSION|..]) == n
  {
    DecimalReads(n);
    DecimalHasNoLeadingZero(n);
    assert Key(n)[|SESSION|..] == Decimal(n);
  }

  lemma CanonicalKeyReads(key: string)
    requires Canonical(key)
    ensures Reading(key[|SESSION|..]) > 0 && key == Key(Reading(key[|SESSION|..]))
  {
    DecimalOfReading(key[|SESSION|..]);
    assert key == SESSION + key[|SESSION|..];
  }

  /** The canonical keys are exactly the keys of the positive numbers, each read back from its key. */
  lemma CanonicalKeys(key: string)
    ensures Canonical(key) <==> exists n: nat :: n > 0 && key == Key(n)
    ensures Canonical(key) ==> Reading(key[|SESSION|..]) > 0 && key == Key(Reading(key[|SESSION|..]))
  {
    if Canonical(key) {
      CanonicalKeyReads(key);
    } else if exists n: nat :: n > 0 && key == Key(n) {
      var n: nat :| n > 0 && key == Key(n);
      KeyIsCanonical(n);
    }
  }

  function InvalidKeys(c: RawConversation): set<string> {
    set key | key in c.sessions && SessionKey(key) && !Canonical(key)
  }

  /** What is known once only the keys in `left` are still to be looked at. */
  ghost predicate Scanned(c: RawConversation, left: set<string>, last: nat, invalidKeys: nat) {
    && left <= c.sessions.Keys
    && (forall key :: key in c.sessions && key !in left && Canonical(key) ==> Reading(key[|SESSION|..]) <= last)
    && (last > 0 ==> Key(last) in c.sessions)
    && invalidKeys == |InvalidKeys(c) - left|
  }

  lemma ScannedKey(c: RawConversation, left: set<string>, last: nat, invalidKeys: nat, key: string)
    requires Scanned(c, left, last, invalidKeys) && key in left
    ensures if Canonical(key) then
              var n := Reading(key[|SESSION|..]); Scanned(c, left - {key}, if n > last then n else last, invalidKeys)
            else Scanned(c, left - {key}, last, if SessionKey(key) then invalidKeys + 1 else invalidKeys)
  {
    var before, after := InvalidKeys(c) - left, InvalidKeys(c) - (left - {key});
    if key in InvalidKeys(c) {
      assert after == before + {key};
    } else {
      assert after == before;
    }
    if Canonical(key) { CanonicalKeyReads(key); }
  }

  lemma AllScanned(c: RawConversation, last: nat, invalidKeys: nat)
    requires Scanned(c, {}, last, invalidKeys)
    ensures IsLast(c, last) && invalidKeys == |InvalidKeys(c)|
  {
    assert InvalidKeys(c) - {} == InvalidKeys(c);
    forall n | n > 0 && Key(n) in c.sessions ensures n <= last { KeyIsCanonical(n); }
  }

  /** The highest session number in use, and how many session keys have no number. */
  method ScanKeys(c: RawConversation) returns (last: nat, invalidKeys: nat)
    ensures IsLast(c, last) && invalidKeys == |InvalidKeys(c)|
  {
    last, invalidKeys := 0, 0;
    var left := c.sessions.Keys;
    assert InvalidKeys(c) - left == {};
    while left != {}
      invariant Scanned(c, left, last, invalidKeys)
      decreases |left|
    {
      var key :| key in left;
      ScannedKey(c, left, last, invalidKeys, key);
      left := left - {key};
      if SessionKey(key) {
        if Canonical(key) {
          var n := Reading(key[|SESSION|..]);
          if n > last { last := n; }
        } else {
          invalidKeys := invalidKeys + 1;
        }
      }
    }
    AllScanned(c, last, invalidKeys);
  }

  // ---------------------------------------------------------------- turns

  datatype AdmittedTurn = AdmittedTurn(turnIndex: nat, user: bool, body: string, dialogId: string)

  datatype TurnFate = Admitted(user: bool, body: string, dialogId: string) | Refused(reason: Reason)

  datatype Speakers = Speakers(a: string, b: string, referenced: set<string>)

  function AdmitTurn(t: RawTurn, s: Speakers): TurnFate {
    if t.NotObject? then Refused(TurnNotObject)
    else
      var speaker := Text(t.speaker);
      if speaker == "" then Refused(TurnInvalidSpeaker)
      else if speaker != s.a && speaker != s.b then Refused(TurnUnknownSpeaker)
      else if t.text.None? then Refused(TurnContentNotString)
      else
        var dialogId, body := Text(t.dialogId), Trim(t.text.value);
        if body == ""
            then Refused(if dialogId != "" && dialogId in s.referenced then TurnEmptyEvidence else SkippedEmptyTurn)
        else Admitted(speaker == s.a, body, dialogId)
  }

  function AdmittedTurns(raw: seq<RawTurn>, s: Speakers): seq<AdmittedTurn> {
    if raw == [] then []
    else
      var n := |raw| - 1;
      var rest := AdmittedTurns(raw[..n], s);
      match AdmitTurn(raw[n], s)
      case Admitted(user, body, dialogId) => rest + [AdmittedTurn(n, user, body, dialogId)]
      case Refused(_) => rest
  }

  function Refusals(raw: seq<RawTurn>, s: Speakers): seq<(nat, Reason)> {
    if raw == [] then []
    else
      var n := |raw| - 1;
      var rest := Refusals(raw[..n], s);
      match AdmitTurn(raw[n], s)
      case Admitted(_, _, _) => rest
      case Refused(reason) => rest + [(n, reason)]
  }

  /** Each position of a walked session is in exactly one of the two lists, once, and the lists keep the order. */
  lemma {:induction false} EveryTurnOnce(raw: seq<RawTurn>, s: Speakers)
    ensures var turns, refusals := AdmittedTurns(raw, s), Refusals(raw, s);
            && |turns| + |refusals| == |raw|
            && (forall i :: 0 <= i < |turns| ==> turns[i].turnIndex < |raw|)
            && (forall i :: 0 <= i < |refusals| ==> refusals[i].0 < |raw|)
            && (forall i, j :: 0 <= i < j < |turns| ==> turns[i].turnIndex < turns[j].turnIndex)
            && (forall i, j :: 0 <= i < j < |refusals| ==> refusals[i].0 < refusals[j].0)
            && (forall i, j :: 0 <= i < |turns| && 0 <= j < |refusals| ==> turns[i].turnIndex != refusals[j].0)
  {
    if raw != [] { EveryTurnOnce(raw[..|raw| - 1], s); }
  }

  // ---------------------------------------------------------------- sessions

  datatype Conversation = Conversation(index: nat, sessionId: string, turns: seq<AdmittedTurn>)

  datatype Diagnostic =
    | AtSession(index: nat, reason: Reason)
    | AtTurn(index: nat, turnIndex: nat, reason: Reason)
    | AtQa(qaIndex: nat, reason: Reason)
    | AtSample(reason: Reason)

  function SessionId(sampleId: string, index: nat): string { sampleId + "::session" + "_" + Decimal(index) }

  function CaseId(sampleId: string, qaIndex: nat): string { sampleId + "::qa" + "_" + Decimal(qaIndex + 1) }

  /** Generated session and case ids never coincide, within a kind or across. */
  lemma GeneratedIdsDistinct(s: string, t: string, i: nat, j: nat)
    ensures SessionId(s, i) == SessionId(t, j) ==> s == t && i == j
    ensures CaseId(s, i) == CaseId(t, j) ==> s == t && i == j
    ensures SessionId(s, i) != CaseId(t, j)
  {
    if SessionId(s, i) == SessionId(t, j) {
      NumberedSuffix(s + "::session", t + "::session", i, j);
      assert (s + "::session")[..|s|] == s && (t + "::session")[..|t|] == t;
    }
    if CaseId(s, i) == CaseId(t, j) {
      NumberedSuffix(s + "::qa", t + "::qa", i + 1, j + 1);
      assert (s + "::qa")[..|s|] == s && (t + "::qa")[..|t|] == t;
    }
    if SessionId(s, i) == CaseId(t, j) {
      NumberedSuffix(s + "::session", t + "::qa", i, j + 1);
      EndsApart(s + "::session", t + "::qa");
    }
  }

  lemma EndsApart(a: string, b: string)
    requires a != "" && b != "" && a[|a| - 1] == 'n' && b[|b| - 1] == 'a'
    ensures a != b
  {
  }

  function ConversationAt(c: RawConversation, sampleId: string, s: Speakers, index: nat): Conversation
    requires Key(index) in c.sessions && c.sessions[Key(index)].RawSession?
  {
    Conversation(index, SessionId(sampleId, index), AdmittedTurns(c.sessions[Key(index)].turns, s))
  }

  predicate Walkable(c: RawConversation, index: nat) { Key(index) in c.sessions && c.sessions[Key(index)].RawSession? }

  /** The conversations of sessions 1 to `n`. */
  function Conversations(c: RawConversation, sampleId: string, s: Speakers, n: nat): seq<Conversation> {
    if n == 0 then []
    else
      var rest := Conversations(c, sampleId, s, n - 1);
      if Walkable(c, n) && ConversationAt(c, sampleId, s, n).turns != []
      then rest + [ConversationAt(c, sampleId, s, n)] else rest
  }

  function TurnEntries(index: nat, refusals: seq<(nat, Reason)>): seq<Diagnostic> {
    MapSeq((r: (nat, Reason)) => AtTurn(index, r.0, r.1), refusals)
  }

  function SessionEntries(c: RawConversation, sampleId: string, s: Speakers, index: nat): seq<Diagnostic> {
    if !Walkable(c, index) then [AtSession(index, if Key(index) in c.sessions then SessionNotArray else SessionGap)]
    else
      (if ConversationAt(c, sampleId, s, index).turns == [] then [AtSession(index, SessionEmptied)] else [])
      + TurnEntries(index, Refusals(c.sessions[Key(index)].turns, s))
  }

  function Entries(c: RawConversation, sampleId: string, s: Speakers, n: nat): seq<Diagnostic> {
    if n == 0 then [] else Entries(c, sampleId, s, n - 1) + SessionEntries(c, sampleId, s, n)
  }

  function RecordDialogs(turns: seq<AdmittedTurn>, sessionId: string, known: map<string, string>): map<string, string> {
    if turns == [] then known
    else
      var before, last := RecordDialogs(turns[..|turns| - 1], sessionId, known), turns[|turns| - 1];
      if last.dialogId != "" then before[last.dialogId := sessionId] else before
  }

  function Dialogs(cs: seq<Conversation>): map<string, string> {
    if cs == [] then map[] else RecordDialogs(cs[|cs| - 1].turns, cs[|cs| - 1].sessionId, Dialogs(cs[..|cs| - 1]))
  }

  method WalkTurns(raw: seq<RawTurn>, s: Speakers, sessionId: string, known: map<string, string>)
    returns (turns: seq<AdmittedTurn>, refusals: seq<(nat, Reason)>, dialogs: map<string, string>)
    ensures turns == AdmittedTurns(raw, s) && refusals == Refusals(raw, s)
              && dialogs == RecordDialogs(turns, sessionId, known)
  {
    turns, refusals, dialogs := [], [], known;
    for n := 0 to |raw|
      invariant turns == AdmittedTurns(raw[..n], s) && refusals == Refusals(raw[..n], s)
                && dialogs == RecordDialogs(turns, sessionId, known)
    {
      assert raw[..n + 1][..n] == raw[..n];
      match AdmitTurn(raw[n], s)
      case Admitted(user, body, dialogId) =>
        var turn := AdmittedTurn(n, user, body, dialogId);
        assert (turns + [turn])[..|turns|] == turns;
        turns := turns + [turn];
        if dialogId != "" { dialogs := dialogs[dialogId := sessionId]; }
      case Refused(reason) => refusals := refusals + [(n, reason)];
    }
    assert raw[..|raw|] == raw;
  }

  /** What sessions 1 to `n` contributed. */
  ghost predicate Walked(
    c: RawConversation, sampleId: string, s: Speakers, n: nat, cs: seq<Conversation>, entries: seq<Diagnostic>,
    dialogs: map<string, string>) {
    cs == Conversations(c, sampleId, s, n) && entries == Entries(c, sampleId, s, n) && dialogs == Dialogs(cs)
  }

  lemma DialogsSnoc(cs: seq<Conversation>, next: Conversation)
    ensures Dialogs(cs + [next]) == RecordDialogs(next.turns, next.sessionId, Dialogs(cs))
  {
    assert (cs + [next])[..|cs|] == cs;
  }

  lemma WalkedOn(
    c: RawConversation, sampleId: string, s: Speakers, index: nat, cs: seq<Conversation>, entries: seq<Diagnostic>,
    dialogs: map<string, string>)
    requires index > 0 && Walked(c, sampleId, s, index - 1, cs, entries, dialogs)
    ensures var more := entries + SessionEntries(c, sampleId, s, index);
            if !Walkable(c, index) then Walked(c, sampleId, s, index, cs, more, dialogs)
            else
              var next := ConversationAt(c, sampleId, s, index);
              Walked(c, sampleId, s, index, if next.turns == [] then cs else cs + [next], more,
                     RecordDialogs(next.turns, next.sessionId, dialogs))
  {
    assert Entries(c, sampleId, s, index) == entries + SessionEntries(c, sampleId, s, index);
    if Walkable(c, index) {
      var next := ConversationAt(c, sampleId, s, index);
      if next.turns != [] {
        assert Conversations(c, sampleId, s, index) == cs + [next];
        DialogsSnoc(cs, next);
      } else {
        assert Conversations(c, sampleId, s, index) == cs;
      }
    } else {
      assert Conversations(c, sampleId, s, index) == cs;
    }
  }

  /** One array session. */
  method WalkSession(c: RawConversation, sampleId: string, s: Speakers, index: nat, known: map<string, string>)
    returns (next: Conversation, entries: seq<Diagnostic>, dialogs: map<string, string>)
    requires Walkable(c, index)
    ensures next == ConversationAt(c, sampleId, s, index) && entries == SessionEntries(c, sampleId, s, index)
    ensures dialogs == RecordDialogs(next.turns, next.sessionId, known)
  {
    var turns, refusals;
    turns, refusals, dialogs := WalkTurns(c.sessions[Key(index)].turns, s, SessionId(sampleId, index), known);
    next := Conversation(index, SessionId(sampleId, index), turns);
    entries := (if turns == [] then [AtSession(index, SessionEmptied)] else []) + TurnEntries(index, refusals);
  }

  /** The walk over session numbers; a number without a key is a gap. */
  method WalkNumbered(c: RawConversation, sampleId: string, s: Speakers, last: nat)
    returns (cs: seq<Conversation>, entries: seq<Diagnostic>, dialogs: map<string, string>)
    ensures Walked(c, sampleId, s, last, cs, entries, dialogs)
  {
    cs, entries, dialogs := [], [], map[];
    var index := 1;
    while index <= last
      invariant 1 <= index <= last + 1 && Walked(c, sampleId, s, index - 1, cs, entries, dialogs)
    {
      WalkedOn(c, sampleId, s, index, cs, entries, dialogs);
      if !Walkable(c, index) {
        entries := entries + SessionEntries(c, sampleId, s, index);
      } else {
        var next, more;
        next, more, dialogs := WalkSession(c, sampleId, s, index, dialogs);
        entries := entries + more;
        if next.turns != [] { cs := cs + [next]; }
      }
      index := index + 1;
    }
  }

  method WalkSessions(c: RawConversation, sampleId: string, s: Speakers)
    returns (last: nat, cs: seq<Conversation>, entries: seq<Diagnostic>, dialogs: map<string, string>, invalidKeys: nat)
    ensures IsLast(c, last) && invalidKeys == |InvalidKeys(c)|
    ensures Walked(c, sampleId, s, last, cs, entries, dialogs)
  {
    last, invalidKeys := ScanKeys(c);
    cs, entries, dialogs := WalkNumbered(c, sampleId, s, last);
  }

  /** The highest session number in use, or 0. */
  ghost predicate IsLast(c: RawConversation, last: nat) {
    (forall n :: n > 0 && Key(n) in c.sessions ==> n <= last) && (last > 0 ==> Key(last) in c.sessions)
  }

  lemma {:induction false} GreatestExists(s: set<nat>)
    requires s != {}
    ensures exists m :: IsGreatest(s, m)
  {
    var x :| x in s;
    var rest := s - {x};
    assert forall n :: n in s ==> n == x || n in rest;
    if rest == {} {
      assert IsGreatest(s, x);
    } else {
      GreatestExists(rest);
      var y :| IsGreatest(rest, y);
      assert IsGreatest(s, if x <= y then y else x);
    }
  }

  predicate IsGreatest(s: set<nat>, m: nat) { m in s && forall n :: n in s ==> n <= m }

  lemma LastExists(c: RawConversation)
    ensures exists last :: IsLast(c, last)
  {
    var numbers := set key | key in c.sessions && Canonical(key) :: Reading(key[|SESSION|..]);
    forall n: nat | n > 0 && Key(n) in c.sessions ensures n in numbers {
      KeyIsCanonical(n);
      assert Reading(Key(n)[|SESSION|..]) in numbers;
    }
    if numbers == {} {
      assert IsLast(c, 0);
    } else {
      GreatestExists(numbers);
      var m :| IsGreatest(numbers, m);
      var key :| key in c.sessions && Canonical(key) && Reading(key[|SESSION|..]) == m;
      CanonicalKeyReads(key);
      assert IsLast(c, m);
    }
  }

  ghost function LastOf(c: RawConversation): (last: nat)
    ensures IsLast(c, last)
  {
    LastExists(c);
    var last :| IsLast(c, last);
    last
  }

  lemma LastUnique(c: RawConversation, last: nat)
    requires IsLast(c, last)
    ensures last == LastOf(c)
  {
  }

  // ---------------------------------------------------------------- dialog references

  ghost predicate HoldsDialog(c: Conversation, d: string) { exists t :: 0 <= t < |c.turns| && c.turns[t].dialogId == d }

  lemma {:induction false} RecordedDialogs(
    turns: seq<AdmittedTurn>, sessionId: string, known: map<string, string>, d: string)
    ensures var after := RecordDialogs(turns, sessionId, known);
            d in after <==> d in known || (d != "" && exists t :: 0 <= t < |turns| && turns[t].dialogId == d)
    ensures var after := RecordDialogs(turns, sessionId, known);
            d in after ==>
                if exists t :: 0 <= t < |turns| && turns[t].dialogId == d && d != "" then after[d] == sessionId
                           else d in known && after[d] == known[d]
  {
    if turns != [] {
      var n := |turns| - 1;
      RecordedDialogs(turns[..n], sessionId, known, d);
      assert forall t :: 0 <= t < n ==> turns[..n][t] == turns[t];
      if turns[n].dialogId == d {
        assert exists t :: 0 <= t < |turns| && turns[t].dialogId == d;
      }
    }
  }

  /** A recorded dialog id sits on an admitted turn of the session it is recorded under. */
  lemma {:induction false} DialogsName(cs: seq<Conversation>, d: string)
    requires d in Dialogs(cs)
    ensures d != "" && exists c :: 0 <= c < |cs| && HoldsDialog(cs[c], d) && Dialogs(cs)[d] == cs[c].sessionId
  {
    var n := |cs| - 1;
    RecordedDialogs(cs[n].turns, cs[n].sessionId, Dialogs(cs[..n]), d);
    if !(HoldsDialog(cs[n], d) && d != "") {
      DialogsName(cs[..n], d);
      var c :| 0 <= c < n && HoldsDialog(cs[..n][c], d) && Dialogs(cs[..n])[d] == cs[..n][c].sessionId;
      assert cs[c] == cs[..n][c];
    }
  }

  /** And every non-blank dialog id of an admitted turn is recorded. */
  lemma {:induction false} DialogsComplete(cs: seq<Conversation>, c: nat, d: string)
    requires c < |cs| && HoldsDialog(cs[c], d) && d != ""
    ensures d in Dialogs(cs)
  {
    var n := |cs| - 1;
    RecordedDialogs(cs[n].turns, cs[n].sessionId, Dialogs(cs[..n]), d);
    if c < n {
      assert cs[..n][c] == cs[c];
      DialogsComplete(cs[..n], c, d);
    }
  }

  // ---------------------------------------------------------------- evidence

  predicate Separator(c: char) { c == ';' || IsSpace(c) }

  /** The maximal runs free of separators. */
  function Tokens(s: string): (r: seq<string>)
    ensures s != "" && !Separator(s[|s| - 1]) ==> r != []
    ensures forall i :: 0 <= i < |r| ==> r[i] != ""
  {
    if s == "" then []
    else
      var n := |s| - 1;
      var rest := Tokens(s[..n]);
      if Separator(s[n]) then rest
      else if n > 0 && !Separator(s[n - 1]) then rest[..|rest| - 1] + [rest[|rest| - 1] + [s[n]]]
      else rest + [[s[n]]]
  }

  function AddNew(ids: seq<string>, more: seq<string>): seq<string> {
    if more == [] then ids
    else
      var before, last := AddNew(ids, more[..|more| - 1]), more[|more| - 1];
      if last in before then before else before + [last]
  }

  function UniqueTokens(entries: seq<Option<string>>): seq<string> {
    if entries == [] then []
    else
      var before, last := UniqueTokens(entries[..|entries| - 1]), entries[|entries| - 1];
      if last.Some? then AddNew(before, Tokens(last.value)) else before
  }

  /** Absent evidence is empty; a malformed list, or an entry naming nothing, is refused. */
  function ReadEvidence(e: RawEvidence): Option<seq<string>> {
    match e
    case NoEvidence => Some([])
    case EvidenceNotArray => None
    case Evidence(entries) =>
      if forall i :: 0 <= i < |entries| ==> entries[i].Some? && Tokens(entries[i].value) != []
      then Some(UniqueTokens(entries)) else None
  }

  function Referenced(qa: seq<RawQa>): set<string> {
    if qa == [] then {}
    else
      var last := qa[|qa| - 1];
      Referenced(qa[..|qa| - 1]) +
      (if last.RawQa? && last.evidence.Evidence? then set id | id in UniqueTokens(last.evidence.entries) else {})
  }

  // ---------------------------------------------------------------- cases

  datatype Ineligible = Abstention | NoEvidenceGiven

  datatype Case = Case(caseId: string, expectedDialogIds: seq<string>, expectedSessionIds: seq<string>,
      ineligible: Option<Ineligible>)

  datatype QaFate = Accepted(c: Case) | Declined(reason: Reason)

  function SessionsOf(dialogs: map<string, string>, ids: seq<string>): seq<string> {
    if ids == [] then []
    else
      var before, last := SessionsOf(dialogs, ids[..|ids| - 1]), ids[|ids| - 1];
      if last in dialogs && dialogs[last] !in before then before + [dialogs[last]] else before
  }

  const ABSTENTION_CATEGORY: int := 5

  function AdmitQa(item: RawQa, sampleId: string, qaIndex: nat, dialogs: map<string, string>): QaFate {
    if item.QaNotObject? then Declined(NotAQa)
    else if Text(item.question) == "" then Declined(QaInvalidQuestion)
    else if item.category.None? || item.category.value < 1
        || item.category.value > ABSTENTION_CATEGORY then Declined(QaInvalidCategory)
    else
      var abstention, evidence := item.category.value == ABSTENTION_CATEGORY, ReadEvidence(item.evidence);
      if !abstention && !item.goldReadable then Declined(QaInvalidGold)
      else if evidence.None? then Declined(QaInvalidEvidence)
      else if exists i :: 0 <= i < |evidence.value| && evidence.value[i] !in dialogs then Declined(QaEvidenceUnresolved)
      else
        var expected := if abstention then [] else evidence.value;
        Accepted(Case(CaseId(sampleId, qaIndex), expected, SessionsOf(dialogs, expected),
                      if abstention then Some(Abstention)
                          else if evidence.value == [] then Some(NoEvidenceGiven) else None))
  }

  function Cases(qa: seq<RawQa>, sampleId: string, dialogs: map<string, string>): seq<Case> {
    if qa == [] then []
    else
      var n := |qa| - 1;
      var rest := Cases(qa[..n], sampleId, dialogs);
      match AdmitQa(qa[n], sampleId, n, dialogs) case Accepted(c) => rest + [c] case Declined(_) => rest
  }

  function QaEntries(qa: seq<RawQa>, sampleId: string, dialogs: map<string, string>): seq<Diagnostic> {
    if qa == [] then []
    else
      var n := |qa| - 1;
      var rest := QaEntries(qa[..n], sampleId, dialogs);
      match AdmitQa(qa[n], sampleId, n, dialogs)
      case Accepted(_) => rest
      case Declined(reason) => rest + [AtQa(n, reason)]
  }

  method AdmitCases(
    qa: seq<RawQa>, sampleId: string, dialogs: map<string, string>) returns (cases: seq<Case>, entries: seq<Diagnostic>)
    ensures cases == Cases(qa, sampleId, dialogs) && entries == QaEntries(qa, sampleId, dialogs)
  {
    cases, entries := [], [];
    for n := 0 to |qa|
      invariant cases == Cases(qa[..n], sampleId, dialogs) && entries == QaEntries(qa[..n], sampleId, dialogs)
    {
      assert qa[..n + 1][..n] == qa[..n];
      match AdmitQa(qa[n], sampleId, n, dialogs)
      case Accepted(c) => cases := cases + [c];
      case Declined(reason) => entries := entries + [AtQa(n, reason)];
    }
    assert qa[..|qa|] == qa;
  }

  lemma {:induction false} SessionsOfContents(dialogs: map<string, string>, ids: seq<string>)
    ensures forall x :: x in SessionsOf(dialogs, ids) <==> exists d :: d in ids && d in dialogs && dialogs[d] == x
  {
    if ids != [] {
      var n := |ids| - 1;
      SessionsOfContents(dialogs, ids[..n]);
      assert ids == ids[..n] + [ids[n]];
    }
  }

  lemma {:induction false} CaseOrigin(
    qa: seq<RawQa>, sampleId: string, dialogs: map<string, string>, k: nat) returns (n: nat)
    requires k < |Cases(qa, sampleId, dialogs)|
    ensures n < |qa| && AdmitQa(qa[n], sampleId, n, dialogs) == Accepted(Cases(qa, sampleId, dialogs)[k])
    ensures n >= k
  {
    n := |qa| - 1;
    var rest := Cases(qa[..n], sampleId, dialogs);
    if k < |rest| {
      n := CaseOrigin(qa[..n], sampleId, dialogs, k);
    } else {
      CasesFewer(qa[..n], sampleId, dialogs);
      assert |rest| <= n;
    }
  }

  lemma {:induction false} CasesFewer(qa: seq<RawQa>, sampleId: string, dialogs: map<string, string>)
    ensures |Cases(qa, sampleId, dialogs)| <= |qa|
  {
    if qa != [] { CasesFewer(qa[..|qa| - 1], sampleId, dialogs); }
  }

  /** Every dialog id an admitted case expects is on an admitted turn, in a session the case also expects. */
  lemma ExpectedDialogsAreAdmitted(qa: seq<RawQa>, sampleId: string, cs: seq<Conversation>, k: nat, d: string)
    requires k < |Cases(qa, sampleId, Dialogs(cs))| && d in Cases(qa, sampleId, Dialogs(cs))[k].expectedDialogIds
    ensures var x := Cases(qa, sampleId, Dialogs(cs))[k];
            exists c :: 0 <= c < |cs| && HoldsDialog(cs[c], d) && cs[c].sessionId in x.expectedSessionIds
  {
    var x := Cases(qa, sampleId, Dialogs(cs))[k];
    var n := CaseOrigin(qa, sampleId, Dialogs(cs), k);
    var evidence := ReadEvidence(qa[n].evidence).value;
    var i :| 0 <= i < |evidence| && evidence[i] == d;
    DialogsName(cs, d);
    SessionsOfContents(Dialogs(cs), x.expectedDialogIds);
  }

  lemma {:induction false} AddedAreNew(ids: seq<string>, more: seq<string>, d: string)
    requires d in AddNew(ids, more)
    ensures d in ids || d in more
  {
    if more != [] && d in AddNew(ids, more[..|more| - 1]) { AddedAreNew(ids, more[..|more| - 1], d); }
  }

  lemma {:induction false} TokensAreNonBlank(entries: seq<Option<string>>, d: string)
    requires d in UniqueTokens(entries)
    ensures d != ""
  {
    var n := |entries| - 1;
    if d in UniqueTokens(entries[..n]) {
      TokensAreNonBlank(entries[..n], d);
    } else if entries[n].Some? {
      AddedAreNew(UniqueTokens(entries[..n]), Tokens(entries[n].value), d);
    }
  }

  /** The question, its category, its answer and its evidence can be read. */
  predicate Readable(item: RawQa) {
    && item.RawQa? && Text(item.question) != ""
    && item.category.Some? && 1 <= item.category.value <= ABSTENTION_CATEGORY
    && (item.category.value == ABSTENTION_CATEGORY || item.goldReadable) && ReadEvidence(item.evidence).Some?
  }

  /** A question becomes a case exactly when it can be read and each dialog it cites is on an admitted turn. */
  lemma CaseKeptExactly(item: RawQa, sampleId: string, qaIndex: nat, cs: seq<Conversation>)
    ensures AdmitQa(item, sampleId, qaIndex, Dialogs(cs)).Accepted? <==>
            Readable(item) && forall d :: d in ReadEvidence(item.evidence).value ==> OnAdmittedTurn(cs, d)
  {
    if Readable(item) {
      var evidence := ReadEvidence(item.evidence).value;
      forall d | d in evidence ensures d in Dialogs(cs) <==> OnAdmittedTurn(cs, d) {
        if item.evidence.Evidence? { TokensAreNonBlank(item.evidence.entries, d); }
        CitedDialog(cs, d);
      }
      if !AdmitQa(item, sampleId, qaIndex, Dialogs(cs)).Accepted? {
        var i :| 0 <= i < |evidence| && evidence[i] !in Dialogs(cs);
        assert evidence[i] in evidence;
      }
    }
  }

  ghost predicate OnAdmittedTurn(cs: seq<Conversation>, d: string) {
    exists c :: 0 <= c < |cs| && HoldsDialog(cs[c], d)
  }

  lemma CitedDialog(cs: seq<Conversation>, d: string)
    requires d != ""
    ensures d in Dialogs(cs) <==> OnAdmittedTurn(cs, d)
  {
    if d in Dialogs(cs) { DialogsName(cs, d); }
    if OnAdmittedTurn(cs, d) {
      var c :| 0 <= c < |cs| && HoldsDialog(cs[c], d);
      DialogsComplete(cs, c, d);
    }
  }

  /** Every session it expects is an admitted conversation that holds one of its dialogs. */
  lemma ExpectedSessionsAreAdmitted(qa: seq<RawQa>, sampleId: string, cs: seq<Conversation>, k: nat, id: string)
    requires k < |Cases(qa, sampleId, Dialogs(cs))| && id in Cases(qa, sampleId, Dialogs(cs))[k].expectedSessionIds
    ensures var x := Cases(qa, sampleId, Dialogs(cs))[k];
            exists c, d :: 0 <= c < |cs| && cs[c].sessionId == id && d in x.expectedDialogIds && HoldsDialog(cs[c], d)
  {
    var x := Cases(qa, sampleId, Dialogs(cs))[k];
    var n := CaseOrigin(qa, sampleId, Dialogs(cs), k);
    SessionsOfContents(Dialogs(cs), x.expectedDialogIds);
    var d :| d in x.expectedDialogIds && d in Dialogs(cs) && Dialogs(cs)[d] == id;
    DialogsName(cs, d);
  }

  // ---------------------------------------------------------------- samples and the document

  datatype Scenario = Scenario(scenarioId: string, conversations: seq<Conversation>, evaluations: seq<Case>)

  datatype Admission = Admission(entries: seq<Diagnostic>, scenario: Option<Scenario>)

  function SampleId(x: RawSample): string { if x.RawSample? then Text(x.sampleId) else "" }

  function EarlyRejection(x: RawSample): Option<Reason> {
    if x.SampleNotObject? then Some(NotASample)
    else if SampleId(x) == "" then Some(SampleInvalidId)
    else if x.conversation.None? then Some(SampleInvalidConversation)
    else if x.qa.None? then Some(SampleInvalidQa)
    else
      var a, b := Text(x.conversation.value.speakerA), Text(x.conversation.value.speakerB);
      if a == "" || b == "" || a == b then Some(SampleInvalidSpeakers) else None
  }

  function SpeakersOf(x: RawSample): Speakers
    requires EarlyRejection(x).None?
  {
    Speakers(Text(x.conversation.value.speakerA), Text(x.conversation.value.speakerB), Referenced(x.qa.value))
  }

  /** The scenario of an admitted sample is a function of the sample and its highest session number. */
  function ScenarioOf(x: RawSample, last: nat): Scenario
    requires EarlyRejection(x).None?
  {
    var cs := Conversations(x.conversation.value, SampleId(x), SpeakersOf(x), last);
    Scenario(SampleId(x), cs, Cases(x.qa.value, SampleId(x), Dialogs(cs)))
  }

  /** Its diagnostics: the walk in session order, then one per unnumbered key, then the declined questions. */
  function EntriesOf(x: RawSample, last: nat): seq<Diagnostic>
    requires EarlyRejection(x).None?
  {
    var c, cs := x.conversation.value, ScenarioOf(x, last).conversations;
    Entries(c, SampleId(x), SpeakersOf(x), last)
    + seq(|InvalidKeys(c)|, _ => AtSample(SessionInvalidKey))
    + QaEntries(x.qa.value, SampleId(x), Dialogs(cs))
  }

  /** What becomes of a sample: its one early rejection, or its scenario with the diagnostics. */
  ghost function AdmissionOf(x: RawSample): Admission {
    if EarlyRejection(x).Some? then Admission([AtSample(EarlyRejection(x).value)], None)
    else
      var last := LastOf(x.conversation.value);
      Admission(EntriesOf(x, last), Some(ScenarioOf(x, last)))
  }

  method AdmitSample(x: RawSample) returns (r: Admission)
    ensures r == AdmissionOf(x)
  {
    var early := EarlyRejection(x);
    if early.Some? { return Admission([AtSample(early.value)], None); }
    var last, cs, entries, dialogs, invalidKeys := WalkSessions(x.conversation.value, SampleId(x), SpeakersOf(x));
    LastUnique(x.conversation.value, last);
    entries := entries + seq(invalidKeys, _ => AtSample(SessionInvalidKey));
    var cases, qaEntries := AdmitCases(x.qa.value, SampleId(x), dialogs);
    r := Admission(entries + qaEntries, Some(Scenario(SampleId(x), cs, cases)));
  }

  /** Where in a conversation object a dialog id may stand. */
  predicate DialogAt(c: RawConversation, a: (string, nat), d: string) {
    && a.0 in c.sessions && SessionKey(a.0) && c.sessions[a.0].RawSession? && a.1 < |c.sessions[a.0].turns|
    && c.sessions[a.0].turns[a.1].RawTurn? && Text(c.sessions[a.0].turns[a.1].dialogId) == d && d != ""
  }

  ghost predicate DialogsDistinct(c: RawConversation) {
    forall a, b, d :: DialogAt(c, a, d) && DialogAt(c, b, d) ==> a == b
  }

  /** The positions inspected: every key no longer in `left`, and the first `n` turns under `key`. */
  predicate Inspected(c: RawConversation, left: set<string>, key: string, n: nat, a: (string, nat)) {
    a.0 in c.sessions && a.0 !in left && (a.0 == key ==> a.1 < n)
  }

  ghost predicate SeenDialogs(c: RawConversation, ids: set<string>, left: set<string>, key: string, n: nat) {
    && (forall a, d :: DialogAt(c, a, d) && Inspected(c, left, key, n, a) ==> d in ids)
    && (forall d :: d in ids ==> exists a :: DialogAt(c, a, d) && Inspected(c, left, key, n, a))
    && (forall a, b, d ::
          DialogAt(c, a, d) && DialogAt(c, b, d) && Inspected(c, left, key, n, a) && Inspected(c, left, key, n, b)
          ==> a == b)
  }

  lemma SameInspected(
    c: RawConversation, ids: set<string>, left: set<string>, key: string, n: nat, left': set<string>, key': string,
    n': nat)
    requires SeenDialogs(c, ids, left, key, n)
    requires forall a, d :: DialogAt(c, a, d) ==> (Inspected(c, left, key, n, a) <==> Inspected(c, left', key', n', a))
    ensures SeenDialogs(c, ids, left', key', n')
  {
  }

  lemma OneMoreDialog(c: RawConversation, ids: set<string>, left: set<string>, key: string, n: nat, d: string)
    requires SeenDialogs(c, ids, left, key, n) && key !in left && DialogAt(c, (key, n), d) && d !in ids
    ensures SeenDialogs(c, ids + {d}, left, key, n + 1)
  {
    forall a, e | DialogAt(c, a, e) && Inspected(c, left, key, n + 1, a)
        ensures Inspected(c, left, key, n, a) || (a == (key, n) && e == d) {}
    assert Inspected(c, left, key, n + 1, (key, n));
    forall e | e in ids ensures exists a :: DialogAt(c, a, e) && Inspected(c, left, key, n + 1, a) {
      var a :| DialogAt(c, a, e) && Inspected(c, left, key, n, a);
      assert Inspected(c, left, key, n + 1, a);
    }
  }

  lemma DialogSeenTwice(c: RawConversation, ids: set<string>, left: set<string>, key: string, n: nat, d: string)
    requires SeenDialogs(c, ids, left, key, n) && DialogAt(c, (key, n), d) && d in ids
    ensures !DialogsDistinct(c)
  {
    var a :| DialogAt(c, a, d) && Inspected(c, left, key, n, a);
    assert a != (key, n);
  }

  method PreflightSession(
    c: RawConversation, ids: set<string>, left: set<string>, key: string) returns (duplicate: bool, seen: set<string>)
    requires key in c.sessions && key !in left && SeenDialogs(c, ids, left, key, 0)
    requires SessionKey(key) && c.sessions[key].RawSession?
    ensures if duplicate then !DialogsDistinct(c) else SeenDialogs(c, seen, left, key, |c.sessions[key].turns|)
  {
    seen := ids;
    var turns := c.sessions[key].turns;
    for n := 0 to |turns|
      invariant SeenDialogs(c, seen, left, key, n)
    {
      var d := if turns[n].RawTurn? then Text(turns[n].dialogId) else "";
      if d == "" {
        SameInspected(c, seen, left, key, n, left, key, n + 1);
      } else {
        if d in seen {
          DialogSeenTwice(c, seen, left, key, n, d);
          return true, seen;
        }
        OneMoreDialog(c, seen, left, key, n, d);
        seen := seen + {d};
      }
    }
    return false, seen;
  }

  method PreflightDialogs(c: RawConversation) returns (duplicate: bool)
    ensures duplicate <==> !DialogsDistinct(c)
  {
    var left := c.sessions.Keys;
    var ids: set<string> := {};
    while left != {}
      invariant left <= c.sessions.Keys && SeenDialogs(c, ids, left, "", 0)
      decreases |left|
    {
      var key :| key in left;
      var rest := left - {key};
      if SessionKey(key) && c.sessions[key].RawSession? {
        SameInspected(c, ids, left, "", 0, rest, key, 0);
        duplicate, ids := PreflightSession(c, ids, rest, key);
        if duplicate { return true; }
        SameInspected(c, ids, rest, key, |c.sessions[key].turns|, rest, "", 0);
      } else {
        SameInspected(c, ids, left, "", 0, rest, "", 0);
      }
      left := rest;
    }
    AllInspected(c, ids);
    return false;
  }

  lemma AllInspected(c: RawConversation, ids: set<string>)
    requires SeenDialogs(c, ids, {}, "", 0)
    ensures DialogsDistinct(c)
  {
    forall a, d | DialogAt(c, a, d) ensures Inspected(c, {}, "", 0, a) {}
  }

  ghost predicate SampleIdsDistinct(entries: seq<RawSample>) {
    NonBlankDistinct(MapSeq(SampleId, entries))
  }

  ghost predicate AllDialogsDistinct(entries: seq<RawSample>, n: nat) {
    forall i :: 0 <= i < n && i < |entries| && entries[i].RawSample? && entries[i].conversation.Some? ==>
        DialogsDistinct(entries[i].conversation.value)
  }

  datatype Rejection = DuplicateSampleId | DuplicateDialogId | AllRejected

  /** The document is clean, or a fault of the kind named is there to be found. */
  method PreflightIdentity(entries: seq<RawSample>) returns (rejection: Option<Rejection>)
    ensures rejection.None? <==> SampleIdsDistinct(entries) && AllDialogsDistinct(entries, |entries|)
    ensures rejection == Some(DuplicateSampleId) ==> !SampleIdsDistinct(entries)
    ensures rejection == Some(DuplicateDialogId) ==> !AllDialogsDistinct(entries, |entries|)
    ensures rejection != Some(AllRejected)
  {
    var sampleIds: set<string> := {};
    for k := 0 to |entries|
      invariant AllDialogsDistinct(entries, k) && IdsSeen(MapSeq(SampleId, entries), sampleIds, k)
    {
      NextIdSeen(MapSeq(SampleId, entries), sampleIds, k);
      var sampleId := SampleId(entries[k]);
      if sampleId != "" {
        if sampleId in sampleIds { return Some(DuplicateSampleId); }
        sampleIds := sampleIds + {sampleId};
      }
      if entries[k].RawSample? && entries[k].conversation.Some? {
        var duplicate := PreflightDialogs(entries[k].conversation.value);
        if duplicate { return Some(DuplicateDialogId); }
      }
    }
    AllIdsSeen(MapSeq(SampleId, entries), sampleIds);
    return None;
  }

  lemma {:induction false} ConversationOrigin(c: RawConversation, sampleId: string, s: Speakers, n: nat, k: nat)
    requires k < |Conversations(c, sampleId, s, n)|
    ensures var x := Conversations(c, sampleId, s, n)[k];
            && 0 < x.index <= n && Walkable(c, x.index) && x == ConversationAt(c, sampleId, s, x.index)
            && forall j :: 0 <= j < k ==> Conversations(c, sampleId, s, n)[j].index < x.index
  {
    var rest := Conversations(c, sampleId, s, n - 1);
    if k < |rest| {
      ConversationOrigin(c, sampleId, s, n - 1, k);
      assert forall j :: 0 <= j < k ==> Conversations(c, sampleId, s, n)[j] == rest[j];
    } else {
      forall j: nat | j < k
          ensures Conversations(c, sampleId, s, n)[j].index < n { ConversationOrigin(c, sampleId, s, n - 1, j); }
    }
  }

  lemma SessionIdAt(x: RawSample, n: nat, a: nat)
    requires EarlyRejection(x).None? && a < |ScenarioOf(x, n).conversations|
    ensures var y := ScenarioOf(x, n).conversations[a]; y.sessionId == SessionId(SampleId(x), y.index)
  {
    ConversationOrigin(x.conversation.value, SampleId(x), SpeakersOf(x), n, a);
  }

  lemma CaseIdAt(x: RawSample, n: nat, a: nat) returns (k: nat)
    requires EarlyRejection(x).None? && a < |ScenarioOf(x, n).evaluations|
    ensures ScenarioOf(x, n).evaluations[a].caseId == CaseId(SampleId(x), k)
  {
    k := CaseOrigin(x.qa.value, SampleId(x), Dialogs(ScenarioOf(x, n).conversations), a);
  }

  lemma SameSample(entries: seq<RawSample>, i: nat, j: nat)
    requires SampleIdsDistinct(entries) && i < |entries| && j < |entries|
    requires SampleId(entries[i]) != "" && SampleId(entries[i]) == SampleId(entries[j])
    ensures i == j
  {
    var ids := MapSeq(SampleId, entries);
    assert ids[i] == ids[j];
  }

  /** Across a whole preflighted document no two conversations share a session id ... */
  lemma DocumentIdsUnique(entries: seq<RawSample>, i: nat, m: nat, a: nat, j: nat, n: nat, b: nat)
    requires SampleIdsDistinct(entries) && i < |entries| && j < |entries|
    requires EarlyRejection(entries[i]).None? && EarlyRejection(entries[j]).None?
    requires a < |ScenarioOf(entries[i], m).conversations| && b < |ScenarioOf(entries[j], n).conversations|
    requires ScenarioOf(entries[i], m).conversations[a].sessionId
              == ScenarioOf(entries[j], n).conversations[b].sessionId
    ensures i == j
    ensures ScenarioOf(entries[i], m).conversations[a].index == ScenarioOf(entries[j], n).conversations[b].index
  {
    SessionIdAt(entries[i], m, a);
    SessionIdAt(entries[j], n, b);
    GeneratedIdsDistinct(SampleId(entries[i]), SampleId(entries[j]), ScenarioOf(entries[i], m).conversations[a].index,
                         ScenarioOf(entries[j], n).conversations[b].index);
    SameSample(entries, i, j);
  }

  /** ... and none is named as a case is. */
  lemma SessionIsNoCase(x: RawSample, m: nat, a: nat, y: RawSample, n: nat, b: nat)
    requires EarlyRejection(x).None? && a < |ScenarioOf(x, m).conversations|
    requires EarlyRejection(y).None? && b < |ScenarioOf(y, n).evaluations|
    ensures ScenarioOf(x, m).conversations[a].sessionId != ScenarioOf(y, n).evaluations[b].caseId
  {
    SessionIdAt(x, m, a);
    var k := CaseIdAt(y, n, b);
    GeneratedIdsDistinct(SampleId(x), SampleId(y), ScenarioOf(x, m).conversations[a].index, k);
  }

  /** Within a preflighted sample a dialog id belongs to one conversation, so the reference is unambiguous. */
  lemma DialogHasOneConversation(c: RawConversation, sampleId: string, s: Speakers, n: nat, a: nat, b: nat, d: string)
    requires DialogsDistinct(c) && d != ""
    requires var cs := Conversations(c, sampleId, s, n);
             a < |cs| && b < |cs| && HoldsDialog(cs[a], d) && HoldsDialog(cs[b], d)
    ensures a == b
  {
    ConversationOrigin(c, sampleId, s, n, a);
    ConversationOrigin(c, sampleId, s, n, b);
    var cs := Conversations(c, sampleId, s, n);
    var i := DialogPosition(c, sampleId, s, cs[a].index, d);
    var j := DialogPosition(c, sampleId, s, cs[b].index, d);
    KeyIsCanonical(cs[a].index);
    KeyIsCanonical(cs[b].index);
    assert (Key(cs[a].index), i) == (Key(cs[b].index), j);
    assert Key(cs[a].index)[|SESSION|..] == Key(cs[b].index)[|SESSION|..];
  }

  lemma DialogPosition(c: RawConversation, sampleId: string, s: Speakers, index: nat, d: string) returns (i: nat)
    requires index > 0 && Walkable(c, index) && HoldsDialog(ConversationAt(c, sampleId, s, index), d) && d != ""
    ensures DialogAt(c, (Key(index), i), d)
  {
    var turns := ConversationAt(c, sampleId, s, index).turns;
    var t :| 0 <= t < |turns| && turns[t].dialogId == d;
    KeyIsCanonical(index);
    AdmittedFrom(c.sessions[Key(index)].turns, s, t);
    i := turns[t].turnIndex;
  }

  lemma {:induction false} AdmittedFrom(raw: seq<RawTurn>, s: Speakers, t: nat)
    requires t < |AdmittedTurns(raw, s)|
    ensures var x := AdmittedTurns(raw, s)[t];
            x.turnIndex < |raw| && AdmitTurn(raw[x.turnIndex], s) == Admitted(x.user, x.body, x.dialogId)
  {
    var n := |raw| - 1;
    if t < |AdmittedTurns(raw[..n], s)| { AdmittedFrom(raw[..n], s, t); }
  }

  lemma {:induction false} CaseIdsWithinSample(qa: seq<RawQa>, sampleId: string, dialogs: map<string, string>)
    ensures forall k, l :: 0 <= k < l < |Cases(qa, sampleId, dialogs)| ==>
              Cases(qa, sampleId, dialogs)[k].caseId != Cases(qa, sampleId, dialogs)[l].caseId
  {
    if qa != [] {
      var n := |qa| - 1;
      CaseIdsWithinSample(qa[..n], sampleId, dialogs);
      var rest := Cases(qa[..n], sampleId, dialogs);
      forall k: nat | k < |rest| ensures rest[k].caseId != CaseId(sampleId, n) {
        var m := CaseOrigin(qa[..n], sampleId, dialogs, k);
        GeneratedIdsDistinct(sampleId, sampleId, m, n);
      }
    }
  }

  /** No two cases of a preflighted document share an id. */
  lemma CaseIdsUnique(entries: seq<RawSample>, i: nat, m: nat, a: nat, j: nat, n: nat, b: nat)
    requires SampleIdsDistinct(entries) && i < |entries| && j < |entries|
    requires EarlyRejection(entries[i]).None? && EarlyRejection(entries[j]).None? && (i == j ==> m == n)
    requires a < |ScenarioOf(entries[i], m).evaluations| && b < |ScenarioOf(entries[j], n).evaluations|
    requires ScenarioOf(entries[i], m).evaluations[a].caseId == ScenarioOf(entries[j], n).evaluations[b].caseId
    ensures i == j && a == b
  {
    var k := CaseIdAt(entries[i], m, a);
    var l := CaseIdAt(entries[j], n, b);
    GeneratedIdsDistinct(SampleId(entries[i]), SampleId(entries[j]), k, l);
    SameSample(entries, i, j);
    CaseIdsWithinSample(entries[i].qa.value, SampleId(entries[i]), Dialogs(ScenarioOf(entries[i], m).conversations));
  }

  datatype Document = DocumentAdmitted(scenarios: seq<Scenario>) | Rejected(why: Rejection)

  /** The scenarios of the first `n` samples: those not rejected outright, in document order. */
  ghost function Scenarios(entries: seq<RawSample>, n: nat): seq<Scenario>
    requires n <= |entries|
  {
    if n == 0 then []
    else
      var rest, last := Scenarios(entries, n - 1), AdmissionOf(entries[n - 1]).scenario;
      if last.Some? then rest + [last.value] else rest
  }

  ghost predicate Clean(
    entries: seq<RawSample>) { SampleIdsDistinct(entries) && AllDialogsDistinct(entries, |entries|) }

  predicate HasCase(scenarios: seq<Scenario>) { exists k :: 0 <= k < |scenarios| && scenarios[k].evaluations != [] }

  /** Accepted exactly when the preflight finds no fault and some sample keeps a case. */
  method AdmitLoCoMoDocument(entries: seq<RawSample>) returns (r: Document)
    ensures r.DocumentAdmitted? <==> Clean(entries) && HasCase(Scenarios(entries, |entries|))
    ensures r.DocumentAdmitted? ==> r.scenarios == Scenarios(entries, |entries|)
    ensures r == Rejected(AllRejected) <==> Clean(entries) && !HasCase(Scenarios(entries, |entries|))
    ensures r == Rejected(DuplicateSampleId) ==> !SampleIdsDistinct(entries)
    ensures r == Rejected(DuplicateDialogId) ==> !AllDialogsDistinct(entries, |entries|)
  {
    var fault := PreflightIdentity(entries);
    if fault.Some? { return Rejected(fault.value); }
    var scenarios: seq<Scenario> := [];
    for k := 0 to |entries|
      invariant scenarios == Scenarios(entries, k)
    {
      var admission := AdmitSample(entries[k]);
      if admission.scenario.Some? { scenarios := scenarios + [admission.scenario.value]; }
    }
    return if HasCase(scenarios) then DocumentAdmitted(scenarios) else Rejected(AllRejected);
  }
}
