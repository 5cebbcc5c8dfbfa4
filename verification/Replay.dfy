/** Replaying a dataset turn by turn or in bounded batches. */
module Replay {
  import opened Common
  import opened DecimalText

  datatype Turn = Turn(role: string, body: string, timestamp: string)

  datatype Conversation = Conversation(conversationId: Option<string>, sessionId: Option<string>, turns: seq<Turn>)

  datatype Item = Item(sessionId: string, turn: Turn, key: string)

  const BATCH_SIZE: nat := 500

  const TIMESTAMP_POLICY: string := "benchmark-timestamp-utc-fields-literal12h-v1"

  // ---------------------------------------------------------------- idempotency keys

  const LF: string := "\n"

  /** What the key's digest covers, line by line. */
  function Fingerprint(benchmark: bool, path: string, ordinal: nat, sessionId: string, turn: Turn): string {
    (if benchmark then TIMESTAMP_POLICY + LF else "") + path + LF + Decimal(ordinal) + LF
    + (sessionId + LF + turn.role + LF + turn.body + LF + turn.timestamp)
  }

  function Key(hash: Hash, benchmark: bool, path: string, ordinal: nat, sessionId: string, turn: Turn): string {
    (if benchmark then "dataset-replay-benchmark:" else "dataset-replay-import:")
    + hash(Fingerprint(benchmark, path, ordinal, sessionId, turn))
  }

  /** Up to its first line break a text is determined. */
  lemma FirstLine(a: string, b: string, x: string, y: string)
    requires '\n' !in a && '\n' !in b && a + LF + x == b + LF + y
    ensures a == b
  {
    var s := a + LF + x;
    assert s[|a|] == '\n' && s[|b|] == '\n';
    assert forall k :: 0 <= k < |a| ==> s[k] == a[k] != '\n';
    assert forall k :: 0 <= k < |b| ==> s[k] == b[k] != '\n';
    assert s[..|a|] == a && s[..|b|] == b;
  }

  function Head(benchmark: bool, path: string): string { (if benchmark then TIMESTAMP_POLICY + LF else "") + path + LF }

  function Rest(sessionId: string, turn: Turn): string {
    sessionId + LF + turn.role + LF + turn.body + LF + turn.timestamp
  }

  lemma FingerprintParts(benchmark: bool, path: string, ordinal: nat, sessionId: string, turn: Turn)
    ensures Fingerprint(benchmark, path, ordinal, sessionId, turn) == Head(benchmark, path)
              + (Decimal(ordinal) + LF + Rest(sessionId, turn))
  {
  }

  lemma FingerprintsDistinct(benchmark: bool, path: string, i: nat, j: nat, s: string, t: string, x: Turn, y: Turn)
    requires Fingerprint(benchmark, path, i, s, x) == Fingerprint(benchmark, path, j, t, y)
    ensures i == j
  {
    FingerprintParts(benchmark, path, i, s, x);
    FingerprintParts(benchmark, path, j, t, y);
    SameTail(Head(benchmark, path), Decimal(i) + LF + Rest(s, x), Decimal(j) + LF + Rest(t, y),
        Fingerprint(benchmark, path, i, s, x));
    DecimalReads(i);
    DecimalReads(j);
    FirstLine(Decimal(i), Decimal(j), Rest(s, x), Rest(t, y));
  }

  /** Two turns at different positions never share a key, whatever their sessions, bodies and times contain. */
  lemma KeysDistinct(hash: Hash, benchmark: bool, path: string, i: nat, j: nat, s: string, t: string, x: Turn, y: Turn)
    requires Injective(hash) && Key(hash, benchmark, path, i, s, x) == Key(hash, benchmark, path, j, t, y)
    ensures i == j
  {
    var prefix := if benchmark then "dataset-replay-benchmark:" else "dataset-replay-import:";
    SameTail(prefix, hash(Fingerprint(benchmark, path, i, s, x)), hash(Fingerprint(benchmark, path, j, t, y)),
             Key(hash, benchmark, path, i, s, x));
    FingerprintsDistinct(benchmark, path, i, j, s, t, x, y);
  }

  lemma SameTail(head: string, a: string, b: string, f: string)
    requires f == head + a && f == head + b
    ensures a == b
  {
    assert f[|head|..] == a && f[|head|..] == b;
  }

  // ---------------------------------------------------------------- what is selected

  /** A positive limit counts its whole part; anything else is no limit. */
  function Limit(given: Option<real>): Option<nat> {
    if given.Some? && given.value > 0.0 then Some(given.value.Floor) else None
  }

  predicate Reached(count: nat, limit: Option<nat>) { limit.Some? && count >= limit.value }

  function Cut(turns: seq<Turn>, limit: Option<nat>): seq<Turn> {
    if limit.Some? && limit.value < |turns| then turns[..limit.value] else turns
  }

  function CutTurns(c: Conversation, limit: Option<nat>): Conversation { c.(turns := Cut(c.turns, limit)) }

  function NonEmpty(cs: seq<Conversation>): seq<Conversation> {
    if cs == [] then []
    else
      var rest, last := NonEmpty(cs[..|cs| - 1]), cs[|cs| - 1];
      if last.turns != [] then rest + [last] else rest
  }

  function CutAll(cs: seq<Conversation>, limit: Option<nat>): seq<Conversation> {
    MapSeq((c: Conversation) => CutTurns(c, limit), cs)
  }

  lemma {:induction false} NonEmptyPrefix(cs: seq<Conversation>, i: nat)
    requires i <= |cs|
    ensures NonEmpty(cs[..i]) <= NonEmpty(cs)
    decreases |cs|
  {
    if i < |cs| {
      var n := |cs| - 1;
      NonEmptyPrefix(cs[..n], i);
      assert cs[..n][..i] == cs[..i];
    } else {
      assert cs[..i] == cs;
    }
  }

  /** Every selected conversation was selected while the limit had still not been reached. */
  predicate NeverReachedBefore(selected: seq<Conversation>, limit: nat) {
    forall i :: 0 <= i < |selected| ==> |NonEmpty(selected[..i])| < limit
  }

  /** The selection: a prefix of the dataset, cut just after its `limit`-th conversation with turns. */
  method SelectConversations(
    cs: seq<Conversation>, limit: Option<nat>, turnLimit: Option<nat>) returns (selected: seq<Conversation>)
    ensures selected <= CutAll(cs, turnLimit)
    ensures limit.Some? ==> |NonEmpty(selected)| <= limit.value && NeverReachedBefore(selected, limit.value)
    ensures |selected| == |cs| || (limit.Some? && |NonEmpty(selected)| == limit.value)
  {
    selected := [];
    var selectedCount := 0;
    ghost var all := CutAll(cs, turnLimit);
    var i := 0;
    while i < |cs| && !Reached(selectedCount, limit)
      invariant i <= |cs| && selected == all[..i]
      invariant selectedCount == |NonEmpty(selected)| && (limit.Some? ==> selectedCount <= limit.value)
      invariant limit.Some? ==> NeverReachedBefore(selected, limit.value)
    {
      var turns := Cut(cs[i].turns, turnLimit);
      assert all[i] == cs[i].(turns := turns);
      assert (selected + [all[i]])[..i] == selected;
      assert forall k :: 0 <= k < i ==> (selected + [all[i]])[..k] == selected[..k];
      selected := selected + [cs[i].(turns := turns)];
      if turns != [] { selectedCount := selectedCount + 1; }
      i := i + 1;
    }
  }

  function FirstNonEmpty(cs: seq<Conversation>, limit: Option<nat>): seq<Conversation> {
    var all := NonEmpty(cs);
    if limit.Some? && limit.value < |all| then all[..limit.value] else all
  }

  /** Exactly the first `limit` conversations with turns are replayed. */
  lemma SelectsFirstNonEmpty(cs: seq<Conversation>, selected: seq<Conversation>, limit: Option<nat>)
    requires selected <= cs && (limit.Some? ==> |NonEmpty(selected)| <= limit.value)
    requires |selected| == |cs| || (limit.Some? && |NonEmpty(selected)| == limit.value)
    ensures NonEmpty(selected) == FirstNonEmpty(cs, limit)
  {
    assert selected == cs[..|selected|];
    NonEmptyPrefix(cs, |selected|);
    assert NonEmpty(selected) == NonEmpty(cs)[..|NonEmpty(selected)|];
    if |selected| == |cs| { assert selected == cs; }
  }

  /** Conversations that all have turns are all counted. */
  lemma {:induction false} AllNonEmpty(cs: seq<Conversation>)
    requires forall i :: 0 <= i < |cs| ==> cs[i].turns != []
    ensures NonEmpty(cs) == cs
  {
    if cs != [] {
      AllNonEmpty(cs[..|cs| - 1]);
      assert cs == cs[..|cs| - 1] + [cs[|cs| - 1]];
    }
  }

  /** The dataset tells two limits apart that differ, if it is long enough. */
  lemma LimitsTellApart(n: nat, limit: Option<nat>) returns (cs: seq<Conversation>)
    requires limit != Some(n)
    ensures FirstNonEmpty(cs, limit) != FirstNonEmpty(cs, Some(n))
  {
    var longest := if limit.Some? && limit.value > n then limit.value else n;
    cs := seq(longest + 1, _ => Conversation(None, None, [Turn("user", "", "")]));
    AllNonEmpty(cs);
  }

  /**
   * The limits under which the first `n` conversations with turns are replayed, whatever the
   * dataset: `n <= limit < n + 1`, but never 0.
   */
  lemma LimitSelectsExactly(given: Option<real>, n: nat)
    ensures (forall cs :: FirstNonEmpty(cs, Limit(given)) == FirstNonEmpty(cs, Some(n))) <==>
            given.Some? && given.value > 0.0 && n as real <= given.value < (n + 1) as real
  {
    if Limit(given) != Some(n) { var cs := LimitsTellApart(n, Limit(given)); }
  }

  /** So a limit strictly between 0 and 1 selects nothing, where 0 itself is no limit. */
  lemma FractionalLimitSelectsNothing(cs: seq<Conversation>, given: real)
    requires 0.0 < given < 1.0
    ensures FirstNonEmpty(cs, Limit(Some(given))) == []
    ensures NonEmpty(CutAll(cs, Limit(Some(given)))) == []
    ensures Limit(Some(0.0)) == None
  {
    assert Limit(Some(given)) == Some(0);
    AllCutAway(CutAll(cs, Some(0)));
  }

  lemma {:induction false} AllCutAway(cs: seq<Conversation>)
    requires forall i :: 0 <= i < |cs| ==> cs[i].turns == []
    ensures NonEmpty(cs) == []
  {
    if cs != [] { AllCutAway(cs[..|cs| - 1]); }
  }

  // ---------------------------------------------------------------- the items of a replay

  function SessionOf(c: Conversation, index: nat): string {
    if c.sessionId.Some? then c.sessionId.value
    else if c.conversationId.Some? then c.conversationId.value
    else "conversation-" + Decimal(index + 1)
  }

  function WithSession(turns: seq<Turn>, sessionId: string): seq<(string, Turn)> {
    MapSeq((t: Turn) => (sessionId, t), turns)
  }

  /** Every selected turn with its session, in dataset order. */
  function Stream(cs: seq<Conversation>): seq<(string, Turn)> {
    if cs == [] then []
    else
      var n := |cs| - 1;
      Stream(cs[..n]) + WithSession(cs[n].turns, SessionOf(cs[n], n))
  }

  datatype Settings = Settings(hash: Hash, benchmark: bool, path: string)

  function ItemAt(settings: Settings, ordinal: nat, turn: (string, Turn)): Item {
    Item(turn.0, turn.1, Key(settings.hash, settings.benchmark, settings.path, ordinal, turn.0, turn.1))
  }

  function Items(settings: Settings, stream: seq<(string, Turn)>): seq<Item> {
    seq(|stream|, i requires 0 <= i < |stream| => ItemAt(settings, i, stream[i]))
  }

  lemma ItemKeysDistinct(settings: Settings, stream: seq<(string, Turn)>)
    requires Injective(settings.hash)
    ensures forall i, j :: 0 <= i < j < |stream| ==> Items(settings, stream)[i].key != Items(settings, stream)[j].key
  {
    forall i, j | 0 <= i < j < |stream| ensures Items(settings, stream)[i].key != Items(settings, stream)[j].key {
      if Items(settings, stream)[i].key == Items(settings, stream)[j].key {
        KeysDistinct(settings.hash, settings.benchmark, settings.path, i, j, stream[i].0, stream[j].0, stream[i].1,
            stream[j].1);
      }
    }
  }

  function Flatten(batches: seq<seq<Item>>): seq<Item> {
    if batches == [] then [] else Flatten(batches[..|batches| - 1]) + batches[|batches| - 1]
  }

  function CountTrue(outcomes: seq<bool>): nat {
    if outcomes == [] then 0 else CountTrue(outcomes[..|outcomes| - 1]) + (if outcomes[|outcomes| - 1] then 1 else 0)
  }

  /** The batches are the items in order; all but the last are full, and none is empty or too large. */
  ghost predicate WellBatched(batches: seq<seq<Item>>, items: seq<Item>) {
    && Flatten(batches) == items
    && (forall i :: 0 <= i < |batches| ==> 0 < |batches[i]| <= BATCH_SIZE)
    && (forall i :: 0 <= i < |batches| - 1 ==> |batches[i]| == BATCH_SIZE)
  }

  lemma SnocTrue(outcomes: seq<bool>, ok: bool)
    ensures CountTrue(outcomes + [ok]) == CountTrue(outcomes) + (if ok then 1 else 0)
  {
    assert (outcomes + [ok])[..|outcomes|] == outcomes;
  }

  /** `receipts[k]` answers the k-th batch; none at all means the write threw. */
  type Receipts = nat -> Option<seq<bool>>

  /** One item of a batch succeeded when the write returned a receipt that says so. */
  predicate Fate(answer: Option<seq<bool>>, index: nat) {
    answer.Some? && index < |answer.value| && answer.value[index]
  }

  function Fates(answer: Option<seq<bool>>, size: nat): seq<bool> { seq(size, i requires 0 <= i => Fate(answer, i)) }

  function AllFates(receipts: Receipts, batches: seq<seq<Item>>): seq<bool> {
    if batches == [] then []
    else
      var n := |batches| - 1;
      AllFates(receipts, batches[..n]) + Fates(receipts(n), |batches[n]|)
  }

  function Singly(accepts: nat -> bool, count: nat): seq<bool> { seq(count, i requires 0 <= i => accepts(i)) }

  class Replayer {
    const settings: Settings
    const batched: bool
    const receipts: Receipts
    const accepts: nat -> bool
    var submitted: seq<seq<Item>>
    var pending: seq<Item>
    var turnsImported: nat
    var failedTurns: nat
    var conversationsImported: nat
    var skippedConversations: nat
    /** How each turn whose fate is known has fared, in dataset order. */
    var outcomes: seq<bool>

    constructor (settings: Settings, batched: bool, receipts: Receipts, accepts: nat -> bool)
      ensures this.settings == settings && this.batched == batched && this.receipts == receipts
                && this.accepts == accepts
      ensures Replayed([]) && conversationsImported == 0 && skippedConversations == 0
    {
      this.settings, this.batched, this.receipts, this.accepts := settings, batched, receipts, accepts;
      submitted, pending, outcomes := [], [], [];
      turnsImported, failedTurns, conversationsImported, skippedConversations := 0, 0, 0, 0;
    }

    ghost predicate Counted()
      reads this
    {
      turnsImported == CountTrue(outcomes) && turnsImported + failedTurns == |outcomes|
    }

    ghost predicate FullBatches()
      reads this
    {
      forall i :: 0 <= i < |submitted| ==> |submitted[i]| == BATCH_SIZE
    }

    /** These items have been taken up so far, and what could not yet be sent is less than a batch. */
    ghost predicate Replayed(items: seq<Item>)
      reads this
    {
      && Counted()
      && (batched ==>
         Flatten(submitted) + pending == items && |pending| < BATCH_SIZE && FullBatches()
             && outcomes == AllFates(receipts, submitted))
      && (!batched ==> submitted == [] && pending == [] && outcomes == Singly(accepts, |items|))
    }

    method Settle(ok: bool)
      requires Counted()
      modifies this`turnsImported, this`failedTurns, this`outcomes
      ensures Counted() && outcomes == old(outcomes) + [ok]
    {
      SnocTrue(outcomes, ok);
      outcomes := outcomes + [ok];
      if ok { turnsImported := turnsImported + 1; } else { failedTurns := failedTurns + 1; }
    }

    /** Send what is pending as one batch; its receipts settle its items one by one. */
    method FlushBatch()
      requires Counted() && batched
      modifies this`submitted, this`pending, this`turnsImported, this`failedTurns, this`outcomes
      ensures Counted() && pending == []
      ensures submitted == if old(pending) == [] then old(submitted) else old(submitted) + [old(pending)]
      ensures outcomes == old(outcomes)
                + (if old(pending) == [] then [] else Fates(receipts(|old(submitted)|), |old(pending)|))
    {
      if pending == [] { return; }
      var chunk := pending;
      var answer := receipts(|submitted|);
      submitted := submitted + [chunk];
      pending := [];
      for index := 0 to |chunk|
        invariant Counted() && outcomes == old(outcomes) + Fates(answer, index)
        invariant pending == [] && submitted == old(submitted) + [chunk]
      {
        assert Fates(answer, index + 1) == Fates(answer, index) + [Fate(answer, index)];
        Settle(answer.Some? && index < |answer.value| && answer.value[index]);
      }
    }

    method ReplayTurn(ghost items: seq<Item>, item: Item, ordinal: nat)
      requires Replayed(items) && ordinal == |items|
      modifies this`submitted, this`pending, this`turnsImported, this`failedTurns, this`outcomes
      ensures Replayed(items + [item])
    {
      if batched {
        pending := pending + [item];
        assert Flatten(submitted) + pending == items + [item];
        if |pending| >= BATCH_SIZE {
          FlushBatch();
          assert submitted[..|submitted| - 1] == old(submitted);
        }
      } else {
        assert Singly(accepts, ordinal + 1) == Singly(accepts, ordinal) + [accepts(ordinal)];
        Settle(accepts(ordinal));
      }
    }

    method ReplayConversation(
      ghost stream: seq<(string, Turn)>, sessionId: string, turns: seq<Turn>, start: nat) returns (next: nat)
      requires Replayed(Items(settings, stream)) && start == |stream|
      modifies this`submitted, this`pending, this`turnsImported, this`failedTurns, this`outcomes
      ensures Replayed(Items(settings, stream + WithSession(turns, sessionId)))
      ensures next == start + |turns|
    {
      next := start;
      assert stream + WithSession(turns[..0], sessionId) == stream;
      for i := 0 to |turns|
        invariant next == start + i
        invariant Replayed(Items(settings, stream + WithSession(turns[..i], sessionId)))
      {
        ghost var before := stream + WithSession(turns[..i], sessionId);
        ghost var after := stream + WithSession(turns[..i + 1], sessionId);
        assert after == before + [(sessionId, turns[i])];
        assert Items(settings, after) == Items(settings, before) + [ItemAt(settings, next, (sessionId, turns[i]))];
        ReplayTurn(Items(settings, before), ItemAt(settings, next, (sessionId, turns[i])), next);
        next := next + 1;
      }
      assert turns[..|turns|] == turns;
    }

    /** The state after the first `index` selected conversations. */
    ghost predicate Through(selected: seq<Conversation>, index: nat)
      requires index <= |selected|
      reads this
    {
      && Replayed(Items(settings, Stream(selected[..index])))
      && conversationsImported == |NonEmpty(selected[..index])|
      && conversationsImported + skippedConversations == index
    }

    method ReplayNext(selected: seq<Conversation>, index: nat, turnLimit: Option<nat>, ordinal: nat) returns (next: nat)
      requires index < |selected| && Cut(selected[index].turns, turnLimit) == selected[index].turns
      requires Through(selected, index) && ordinal == |Stream(selected[..index])|
      modifies this
      ensures Through(selected, index + 1) && next == |Stream(selected[..index + 1])|
    {
      next := ordinal;
      ThroughNext(selected, index);
      var turns := Cut(selected[index].turns, turnLimit);
      if turns == [] {
        skippedConversations := skippedConversations + 1;
      } else {
        next := ReplayConversation(Stream(selected[..index]), SessionOf(selected[index], index), turns, ordinal);
        conversationsImported := conversationsImported + 1;
      }
    }

    /** The second loop; its own limit never cuts the selection short. */
    method ReplaySelected(selected: seq<Conversation>, limit: Option<nat>, turnLimit: Option<nat>)
      requires Replayed([]) && conversationsImported == 0 && skippedConversations == 0
      requires limit.Some? ==> NeverReachedBefore(selected, limit.value)
      requires forall i :: 0 <= i < |selected| ==> Cut(selected[i].turns, turnLimit) == selected[i].turns
      modifies this
      ensures Through(selected, |selected|)
    {
      assert Items(settings, []) == [];
      var ordinal, index := 0, 0;
      while index < |selected| && !Reached(conversationsImported, limit)
        invariant index <= |selected| && Through(selected, index) && ordinal == |Stream(selected[..index])|
        invariant index < |selected| ==> !Reached(conversationsImported, limit)
      {
        ordinal := ReplayNext(selected, index, turnLimit, ordinal);
        index := index + 1;
      }
    }
  }

  lemma ThroughNext(selected: seq<Conversation>, index: nat)
    requires index < |selected|
    ensures Stream(selected[..index + 1]) ==
            Stream(selected[..index]) + WithSession(selected[index].turns, SessionOf(selected[index], index))
    ensures selected[index].turns == [] ==> Stream(selected[..index + 1]) == Stream(selected[..index])
    ensures |NonEmpty(selected[..index + 1])| == |NonEmpty(selected[..index])|
              + (if selected[index].turns == [] then 0 else 1)
  {
    assert selected[..index + 1][..index] == selected[..index];
  }

  lemma CutTwice(turns: seq<Turn>, limit: Option<nat>)
    ensures Cut(Cut(turns, limit), limit) == Cut(turns, limit)
  {
  }

  datatype ImportResult = ImportResult(conversationsImported: nat, turnsImported: nat, skippedConversations: nat,
      failedTurns: nat)

  /** What is replayed for a dataset: the selected conversations, cut to the turn limit. */
  ghost predicate Selected(
    cs: seq<Conversation>, limit: Option<nat>, turnLimit: Option<nat>, selected: seq<Conversation>) {
    selected <= CutAll(cs, turnLimit) && NonEmpty(selected) == FirstNonEmpty(CutAll(cs, turnLimit), limit)
  }

  method ReplayConversationDataset(
    cs: seq<Conversation>, givenLimit: Option<real>, givenTurnLimit: Option<real>, replayer: Replayer)
    returns (r: ImportResult, selected: seq<Conversation>)
    requires replayer.Replayed([]) && replayer.conversationsImported == 0 && replayer.skippedConversations == 0
    modifies replayer
    ensures Selected(cs, Limit(givenLimit), Limit(givenTurnLimit), selected)
    ensures var items := Items(replayer.settings, Stream(selected));
            && r.turnsImported + r.failedTurns == |items| == |replayer.outcomes|
            && r.turnsImported == CountTrue(replayer.outcomes)
            && (replayer.batched ==>
               WellBatched(replayer.submitted, items)
                   && replayer.outcomes == AllFates(replayer.receipts, replayer.submitted))
            && (!replayer.batched ==>
               replayer.submitted == [] && replayer.outcomes == Singly(replayer.accepts, |items|))
    ensures r.conversationsImported == |FirstNonEmpty(CutAll(cs, Limit(givenTurnLimit)), Limit(givenLimit))|
    ensures r.conversationsImported + r.skippedConversations == |selected|
  {
    var limit, turnLimit := Limit(givenLimit), Limit(givenTurnLimit);
    selected := SelectConversations(cs, limit, turnLimit);
    SelectsFirstNonEmpty(CutAll(cs, turnLimit), selected, limit);
    forall i | 0 <= i < |selected| ensures Cut(selected[i].turns, turnLimit) == selected[i].turns {
      assert selected[i] == CutAll(cs, turnLimit)[i];
      CutTwice(cs[i].turns, turnLimit);
    }
    replayer.ReplaySelected(selected, limit, turnLimit);
    assert selected[..|selected|] == selected;
    ghost var items := Items(replayer.settings, Stream(selected));
    if replayer.batched {
      ghost var full, rest := replayer.submitted, replayer.pending;
      replayer.FlushBatch();
      LastBatch(full, rest, items);
      LastFates(replayer.receipts, full, rest);
      FatesLength(replayer.receipts, replayer.submitted);
    }
    r := ImportResult(replayer.conversationsImported, replayer.turnsImported, replayer.skippedConversations,
        replayer.failedTurns);
  }

  lemma LastFates(receipts: Receipts, full: seq<seq<Item>>, rest: seq<Item>)
    ensures AllFates(receipts, full + [rest]) == AllFates(receipts, full) + Fates(receipts(|full|), |rest|)
  {
    assert (full + [rest])[..|full|] == full;
  }

  lemma LastBatch(full: seq<seq<Item>>, rest: seq<Item>, items: seq<Item>)
    requires Flatten(full) + rest == items && |rest| < BATCH_SIZE
    requires forall i :: 0 <= i < |full| ==> |full[i]| == BATCH_SIZE
    ensures WellBatched(if rest == [] then full else full + [rest], items)
  {
    if rest != [] { assert (full + [rest])[..|full|] == full; } else { assert Flatten(full) + rest == Flatten(full); }
  }

  /** The batches of a replay are determined by its items: there is one way to fill batches in order. */
  lemma {:induction false} BatchingUnique(a: seq<seq<Item>>, b: seq<seq<Item>>, items: seq<Item>)
    requires WellBatched(a, items) && WellBatched(b, items)
    ensures a == b
    decreases |a|
  {
    if a == [] || b == [] {
      EmptyBatches(a, items);
      EmptyBatches(b, items);
    } else {
      LengthsFix(a, items);
      LengthsFix(b, items);
      var n, m := |a| - 1, |b| - 1;
      assert n == m;
      assert Flatten(a[..n]) == items[..BATCH_SIZE * n] && Flatten(b[..m]) == items[..BATCH_SIZE * m];
      BatchingUnique(a[..n], b[..m], items[..BATCH_SIZE * n]);
      assert a == a[..n] + [a[n]] && b == b[..m] + [b[m]];
    }
  }

  lemma {:induction false} FullLength(a: seq<seq<Item>>)
    requires forall i :: 0 <= i < |a| ==> |a[i]| == BATCH_SIZE
    ensures |Flatten(a)| == BATCH_SIZE * |a|
  {
    if a != [] { FullLength(a[..|a| - 1]); }
  }

  lemma LengthsFix(a: seq<seq<Item>>, items: seq<Item>)
    requires WellBatched(a, items) && a != []
    ensures var n := |a| - 1;
            && BATCH_SIZE * n < |items| <= BATCH_SIZE * (n + 1)
            && Flatten(a[..n]) == items[..BATCH_SIZE * n] && a[n] == items[BATCH_SIZE * n..]
            && WellBatched(a[..n], items[..BATCH_SIZE * n])
  {
    FullLength(a[..|a| - 1]);
  }

  lemma EmptyBatches(a: seq<seq<Item>>, items: seq<Item>)
    requires WellBatched(a, items)
    ensures a == [] <==> items == []
  {
    if a != [] { LengthsFix(a, items); }
  }

  lemma {:induction false} FatesPerTurn(receipts: Receipts, batches: seq<seq<Item>>, items: seq<Item>, i: nat)
    requires WellBatched(batches, items) && i < |items|
    ensures |AllFates(receipts, batches)| == |items|
    ensures AllFates(receipts, batches)[i] == Fate(receipts(i / BATCH_SIZE), i % BATCH_SIZE)
    decreases |batches|
  {
    var n := |batches| - 1;
    LengthsFix(batches, items);
    var before := items[..BATCH_SIZE * n];
    FatesLength(receipts, batches[..n]);
    if i < BATCH_SIZE * n {
      FatesPerTurn(receipts, batches[..n], before, i);
    } else {
      assert i / BATCH_SIZE == n && i % BATCH_SIZE == i - BATCH_SIZE * n;
    }
  }

  lemma {:induction false} FatesLength(receipts: Receipts, batches: seq<seq<Item>>)
    ensures |AllFates(receipts, batches)| == |Flatten(batches)|
  {
    if batches != [] { FatesLength(receipts, batches[..|batches| - 1]); }
  }

  /** When each turn fares the same in either mode, both modes count the same. */
  lemma ModesCountAlike(receipts: Receipts, accepts: nat -> bool, batches: seq<seq<Item>>, items: seq<Item>)
    requires WellBatched(batches, items)
    requires forall i :: 0 <= i < |items| ==> Fate(receipts(i / BATCH_SIZE), i % BATCH_SIZE) == accepts(i)
    ensures CountTrue(AllFates(receipts, batches)) == CountTrue(Singly(accepts, |items|))
  {
    FatesLength(receipts, batches);
    forall i | 0 <= i < |items| ensures AllFates(receipts, batches)[i] == Singly(accepts, |items|)[i] {
      FatesPerTurn(receipts, batches, items, i);
    }
    assert AllFates(receipts, batches) == Singly(accepts, |items|);
  }
}
