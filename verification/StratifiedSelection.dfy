/** The frozen stratified subset: per-type targets, two quotas, and a seeded fill. */
module StratifiedSelection {
  import opened Common
  import opened SeededShuffle

  datatype Reason = QuotaAllAfter | QuotaAbstention | TypeFill

  datatype Chosen = Chosen(question: Question, reason: Reason)

  datatype Failure =
    | NoTypes
    | DuplicateId(id: string)
    | QuotaUnfilled(reason: Reason, taken: nat, needed: nat)
    | TypeUnfilled(questionType: string, filled: nat, target: nat)

  datatype Result<+T> = Ok(value: T) | Err(failure: Failure)

  // ---------------------------------------------------------------- targets

  type Targets = map<string, nat>

  /** The first `k` types get the floor, and the first `remainder` of them one more. */
  function TargetPrefix(types: seq<string>, k: nat, base: nat, remainder: nat): Targets
    requires k <= |types|
  {
    if k == 0 then map[]
    else TargetPrefix(types, k - 1, base, remainder)[types[k - 1] := base + (if k - 1 < remainder then 1 else 0)]
  }

  function Share(size: nat, n: nat): (base: nat)
    requires n > 0
    ensures base * n <= size < base * n + n
  {
    size / n
  }

  function TargetsOf(types: set<string>, size: nat): Targets
    requires types != {}
  {
    var sorted := Sorted(types);
    var base := Share(size, |sorted|);
    TargetPrefix(sorted, |sorted|, base, size - base * |sorted|)
  }

  function TargetsOfList(types: seq<string>, size: nat): Targets
    requires types != []
  {
    assert types[0] in Members(types);
    TargetsOf(Members(types), size)
  }

  function Target(targets: Targets, t: string): nat { if t in targets then targets[t] else 0 }

  function Sum(types: seq<string>, m: map<string, nat>): nat {
    if types == [] then 0 else Sum(types[..|types| - 1], m) + Target(m, types[|types| - 1])
  }

  lemma {:induction false} TargetPrefixAt(types: seq<string>, k: nat, base: nat, remainder: nat)
    requires k <= |types| && NoRepeats(types)
    ensures forall i :: 0 <= i < k ==>
              types[i] in TargetPrefix(types, k, base, remainder)
              && TargetPrefix(types, k, base, remainder)[types[i]] == base + (if i < remainder then 1 else 0)
    ensures forall t :: t in TargetPrefix(types, k, base, remainder) <==> t in types[..k]
  {
    if k > 0 {
      TargetPrefixAt(types, k - 1, base, remainder);
      assert types[..k] == types[..k - 1] + [types[k - 1]];
    }
  }

  lemma {:induction false} SumOfTargets(types: seq<string>, targets: Targets, k: nat, base: nat, remainder: nat)
    requires k <= |types|
    requires forall i :: 0 <= i < k ==> Target(targets, types[i]) == base + (if i < remainder then 1 else 0)
    ensures Sum(types[..k], targets) == base * k + Least(k, remainder)
  {
    if k > 0 {
      SumOfTargets(types, targets, k - 1, base, remainder);
      assert types[..k][..k - 1] == types[..k - 1];
      assert base * k == base * (k - 1) + base;
    }
  }

  lemma FairPrefix(sorted: seq<string>, base: nat, remainder: nat)
    requires NoRepeats(sorted) && remainder <= |sorted|
    ensures var targets := TargetPrefix(sorted, |sorted|, base, remainder);
            && (forall t :: t in targets <==> t in sorted)
            && Sum(sorted, targets) == base * |sorted| + remainder
            && forall t :: t in sorted ==> base <= targets[t] <= base + 1
  {
    var n := |sorted|;
    TargetPrefixAt(sorted, n, base, remainder);
    var targets := TargetPrefix(sorted, n, base, remainder);
    assert sorted[..n] == sorted;
    SumOfTargets(sorted, targets, n, base, remainder);
    forall t | t in sorted ensures base <= targets[t] <= base + 1 {
      var i :| 0 <= i < n && sorted[i] == t;
    }
  }

  /** The targets cover exactly the types, add up to the size, and differ by at most one. */
  lemma TargetsAreFair(types: set<string>, size: nat)
    requires types != {}
    ensures var targets := TargetsOf(types, size);
            && targets.Keys == types
            && Sum(Sorted(types), targets) == size
            && forall s, t :: s in types && t in types ==> targets[s] <= targets[t] + 1
  {
    var sorted := Sorted(types);
    var base := Share(size, |sorted|);
    SortedHasNoRepeats(types);
    FairPrefix(sorted, base, size - base * |sorted|);
  }

  method TypeTargets(types: seq<string>, size: nat) returns (targets: Option<Targets>)
    ensures targets == if types == [] then None else Some(TargetsOfList(types, size))
  {
    if types == [] { return None; }
    assert types[0] in Members(types);
    var sorted := Sorted(Members(types));
    var base := Share(size, |sorted|);
    var remainder: nat := size - base * |sorted|;
    var m := SpreadTargets(sorted, base, remainder);
    targets := Some(m);
  }

  method SpreadTargets(sorted: seq<string>, base: nat, total: nat) returns (m: Targets)
    ensures m == TargetPrefix(sorted, |sorted|, base, total)
  {
    m := map[];
    var remainder := total;
    for i := 0 to |sorted|
      invariant remainder == if i < total then total - i else 0
      invariant m == TargetPrefix(sorted, i, base, total)
    {
      var extra := if remainder > 0 then 1 else 0;
      remainder := remainder - extra;
      m := m[sorted[i] := base + extra];
    }
  }

  // ---------------------------------------------------------------- taking from a shuffled pool

  datatype State = State(selected: map<string, Chosen>, counts: map<string, nat>)

  predicate Takes(st: State, q: Question, targets: Targets) {
    q.caseId !in st.selected && Target(st.counts, q.questionType) < Target(targets, q.questionType)
  }

  function Add(st: State, q: Question, reason: Reason): State {
    State(st.selected[q.caseId := Chosen(q, reason)],
        st.counts[q.questionType := Target(st.counts, q.questionType) + 1])
  }

  /** Walk the shuffled pool, taking whatever still fits, until `needed` are taken. */
  function Take(s: seq<Question>, needed: nat, reason: Reason, st: State, targets: Targets): State
    decreases |s|
  {
    if s == [] || needed == 0 then st
    else if Takes(st, s[0], targets) then Take(s[1..], needed - 1, reason, Add(st, s[0], reason), targets)
    else Take(s[1..], needed, reason, st, targets)
  }

  /** What the pool can still give to one type. */
  function Avail(s: seq<Question>, st: State, t: string): set<Question> {
    set q | q in s && q.questionType == t && q.caseId !in st.selected
  }

  function Slack(s: seq<Question>, st: State, targets: Targets, t: string): nat {
    var room := Target(targets, t) - Target(st.counts, t);
    Least(if room < 0 then 0 else room, |Avail(s, st, t)|)
  }

  /** What the pool can still give in all: each type is bounded by its room and by its rows. */
  function Capacity(types: seq<string>, s: seq<Question>, st: State, targets: Targets): nat {
    if types == [] then 0
    else Capacity(types[..|types| - 1], s, st, targets) + Slack(s, st, targets, types[|types| - 1])
  }

  lemma {:induction false} CapacitySame(
    types: seq<string>, s: seq<Question>, s': seq<Question>, st: State, st': State, targets: Targets)
    requires forall i :: 0 <= i < |types| ==> Slack(s, st, targets, types[i]) == Slack(s', st', targets, types[i])
    ensures Capacity(types, s, st, targets) == Capacity(types, s', st', targets)
  {
    if types != [] { CapacitySame(types[..|types| - 1], s, s', st, st', targets); }
  }

  lemma {:induction false} CapacityOneLess(
    types: seq<string>, s: seq<Question>, s': seq<Question>, st: State, st': State, targets: Targets, t: string)
    requires NoRepeats(types) && t in types
    requires Slack(s, st, targets, t) == Slack(s', st', targets, t) + 1
    requires forall u :: u in types && u != t ==> Slack(s, st, targets, u) == Slack(s', st', targets, u)
    ensures Capacity(types, s, st, targets) == Capacity(types, s', st', targets) + 1
  {
    var n := |types| - 1;
    if types[n] == t {
      CapacitySame(types[..n], s, s', st, st', targets);
    } else {
      CapacityOneLess(types[..n], s, s', st, st', targets, t);
    }
  }

  lemma {:induction false} NothingAvailable(types: seq<string>, st: State, targets: Targets)
    ensures Capacity(types, [], st, targets) == 0
  {
    if types != [] {
      NothingAvailable(types[..|types| - 1], st, targets);
      assert Avail([], st, types[|types| - 1]) == {};
    }
  }

  lemma SlackAfterSkip(s: seq<Question>, st: State, targets: Targets, t: string)
    requires s != [] && DistinctIds(s) && !Takes(st, s[0], targets)
    ensures Slack(s, st, targets, t) == Slack(s[1..], st, targets, t)
  {
    var q := s[0];
    assert s == [q] + s[1..];
    if q.caseId in st.selected || q.questionType != t {
      assert Avail(s, st, t) == Avail(s[1..], st, t);
    }
  }

  lemma AvailAfterTake(s: seq<Question>, st: State, reason: Reason, t: string)
    requires s != [] && DistinctIds(s) && s[0].caseId !in st.selected
    ensures var rest := Avail(s[1..], Add(st, s[0], reason), t);
            s[0] !in rest && Avail(s, st, t) == rest + (if t == s[0].questionType then {s[0]} else {})
  {
    var q := s[0];
    assert s == [q] + s[1..];
    forall x | x in s[1..] ensures x.caseId != q.caseId {
      var i :| 0 <= i < |s[1..]| && s[1..][i] == x;
      assert s[i + 1] == x;
    }
  }

  lemma SlackAfterTake(s: seq<Question>, st: State, targets: Targets, reason: Reason, t: string)
    requires s != [] && DistinctIds(s) && Takes(st, s[0], targets)
    ensures Slack(s, st, targets, t) ==
            Slack(s[1..], Add(st, s[0], reason), targets, t) + (if t == s[0].questionType then 1 else 0)
  {
    AvailAfterTake(s, st, reason, t);
  }

  predicate Covers(types: seq<string>, targets: Targets) { forall t :: t in targets ==> t in types }

  lemma CapacityAfterTake(types: seq<string>, s: seq<Question>, reason: Reason, st: State, targets: Targets)
    requires s != [] && DistinctIds(s) && Takes(st, s[0], targets)
    requires NoRepeats(types) && Covers(types, targets)
    ensures Capacity(types, s, st, targets) == Capacity(types, s[1..], Add(st, s[0], reason), targets) + 1
  {
    forall t ensures Slack(s, st, targets, t) ==
                     Slack(s[1..], Add(st, s[0], reason), targets, t) + (if t == s[0].questionType then 1 else 0) {
      SlackAfterTake(s, st, targets, reason, t);
    }
    CapacityOneLess(types, s, s[1..], st, Add(st, s[0], reason), targets, s[0].questionType);
  }

  lemma CapacityAfterSkip(types: seq<string>, s: seq<Question>, st: State, targets: Targets)
    requires s != [] && DistinctIds(s) && !Takes(st, s[0], targets)
    ensures Capacity(types, s, st, targets) == Capacity(types, s[1..], st, targets)
  {
    forall t ensures Slack(s, st, targets, t) == Slack(s[1..], st, targets, t) { SlackAfterSkip(s, st, targets, t); }
    CapacitySame(types, s, s[1..], st, st, targets);
  }

  lemma AddSize(st: State, q: Question, reason: Reason)
    requires q.caseId !in st.selected
    ensures |Add(st, q, reason).selected| == |st.selected| + 1
  {
  }

  /** A quota takes all it needs, or all that rooms and rows together allow. */
  predicate TakesAll(s: seq<Question>, needed: nat, reason: Reason, st: State, targets: Targets, types: seq<string>) {
    |Take(s, needed, reason, st, targets).selected| == |st.selected| + Least(needed, Capacity(types, s, st, targets))
  }

  lemma TakesOne(
    s: seq<Question>, needed: nat, less: nat, reason: Reason, st: State, targets: Targets, types: seq<string>)
    requires s != [] && needed == less + 1 && Takes(st, s[0], targets)
    requires DistinctIds(s) && NoRepeats(types) && Covers(types, targets)
    requires TakesAll(s[1..], less, reason, Add(st, s[0], reason), targets, types)
    ensures TakesAll(s, needed, reason, st, targets, types)
  {
    TakeUnfolds(s, needed, less, reason, st, targets);
    CapacityAfterTake(types, s, reason, st, targets);
    AddSize(st, s[0], reason);
    var after := Add(st, s[0], reason);
    LeastStep(needed, less, Capacity(types, s, st, targets), Capacity(types, s[1..], after, targets));
  }

  lemma TakeUnfolds(s: seq<Question>, needed: nat, less: nat, reason: Reason, st: State, targets: Targets)
    requires s != [] && needed == less + 1 && Takes(st, s[0], targets)
    ensures Take(s, needed, reason, st, targets) == Take(s[1..], less, reason, Add(st, s[0], reason), targets)
  {
  }

  lemma LeastStep(a: nat, b: nat, c: nat, d: nat)
    requires a == b + 1 && c == d + 1
    ensures Least(a, c) == Least(b, d) + 1
  {
  }

  lemma SkipsOne(s: seq<Question>, needed: nat, reason: Reason, st: State, targets: Targets, types: seq<string>)
    requires s != [] && needed > 0 && !Takes(st, s[0], targets) && DistinctIds(s)
    requires TakesAll(s[1..], needed, reason, st, targets, types)
    ensures TakesAll(s, needed, reason, st, targets, types)
  {
    CapacityAfterSkip(types, s, st, targets);
  }

  lemma {:induction false} TakeTakesAllItCan(
    s: seq<Question>, needed: nat, reason: Reason, st: State, targets: Targets, types: seq<string>)
    requires DistinctIds(s) && NoRepeats(types) && Covers(types, targets)
    ensures TakesAll(s, needed, reason, st, targets, types)
    decreases |s|
  {
    if s == [] {
      NothingAvailable(types, st, targets);
    } else if needed > 0 {
      if Takes(st, s[0], targets) {
        var less := needed - 1;
        TakeTakesAllItCan(s[1..], less, reason, Add(st, s[0], reason), targets, types);
        TakesOne(s, needed, less, reason, st, targets, types);
      } else {
        TakeTakesAllItCan(s[1..], needed, reason, st, targets, types);
        SkipsOne(s, needed, reason, st, targets, types);
      }
    }
  }

  /** The capacity of a pool does not depend on its order. */
  lemma CapacityOfPermutation(types: seq<string>, s: seq<Question>, s': seq<Question>, st: State, targets: Targets)
    requires multiset(s) == multiset(s')
    ensures Capacity(types, s, st, targets) == Capacity(types, s', st, targets)
  {
    forall t ensures Avail(s, st, t) == Avail(s', st, t) {
      assert forall q :: q in s <==> q in multiset(s);
      assert forall q :: q in s' <==> q in multiset(s');
    }
    CapacitySame(types, s, s', st, st, targets);
  }

  // ---------------------------------------------------------------- what one quota leaves another

  /** A row shares its id with no other row of the pool. */
  predicate OwnId(q: Question, pool: seq<Question>) { forall x :: x in pool && x.caseId == q.caseId ==> x == q }

  lemma AvailAfterAdd(pool: seq<Question>, st: State, q: Question, reason: Reason, t: string)
    requires OwnId(q, pool)
    ensures Avail(pool, Add(st, q, reason), t) == Avail(pool, st, t) - (if t == q.questionType then {q} else {})
  {
  }

  lemma SlackAfterAdd(pool: seq<Question>, st: State, q: Question, reason: Reason, targets: Targets, t: string)
    requires OwnId(q, pool) && Takes(st, q, targets)
    ensures var before, after := Slack(pool, st, targets, t), Slack(pool, Add(st, q, reason), targets, t);
            if t == q.questionType then after <= before <= after + 1 else after == before
  {
    AvailAfterAdd(pool, st, q, reason, t);
  }

  lemma {:induction false} CapacityAtMostOneLess(
    types: seq<string>, pool: seq<Question>, st: State, st': State, targets: Targets, t: string)
    requires NoRepeats(types)
    requires forall u :: u in types && u != t ==> Slack(pool, st', targets, u) == Slack(pool, st, targets, u)
    requires Slack(pool, st', targets, t) <= Slack(pool, st, targets, t) <= Slack(pool, st', targets, t) + 1
    ensures var before, after := Capacity(types, pool, st, targets), Capacity(types, pool, st', targets);
            after <= before <= after + 1
  {
    if types != [] {
      var n := |types| - 1;
      if types[n] == t {
        CapacitySame(types[..n], pool, pool, st, st', targets);
      } else {
        CapacityAtMostOneLess(types[..n], pool, st, st', targets, t);
      }
    }
  }

  lemma CapacityAfterAdd(
    types: seq<string>, pool: seq<Question>, st: State, q: Question, reason: Reason, targets: Targets)
    requires NoRepeats(types) && OwnId(q, pool) && Takes(st, q, targets)
    ensures var before, after := Capacity(types, pool, st, targets), Capacity(types, pool, Add(st, q, reason), targets);
            after <= before <= after + 1
  {
    forall t ensures var before, after := Slack(pool, st, targets, t), Slack(pool, Add(st, q, reason), targets, t);
                     if t == q.questionType then after <= before <= after + 1 else after == before {
      SlackAfterAdd(pool, st, q, reason, targets, t);
    }
    CapacityAtMostOneLess(types, pool, st, Add(st, q, reason), targets, q.questionType);
  }

  /** However a quota is filled, it costs another pool no more than it took, and gives it nothing. */
  lemma {:induction false} TakeCostsAtMostNeeded(
    s: seq<Question>, needed: nat, reason: Reason, st: State, targets: Targets, types: seq<string>, pool: seq<Question>)
    requires NoRepeats(types) && forall q :: q in s ==> OwnId(q, pool)
    ensures var before, after := Capacity(types, pool, st, targets),
                                 Capacity(types, pool, Take(s, needed, reason, st, targets), targets);
            after <= before <= after + needed
    decreases |s|
  {
    if s != [] && needed > 0 {
      assert s == [s[0]] + s[1..];
      if Takes(st, s[0], targets) {
        CapacityAfterAdd(types, pool, st, s[0], reason, targets);
        TakeCostsAtMostNeeded(s[1..], needed - 1, reason, Add(st, s[0], reason), targets, types, pool);
      } else {
        TakeCostsAtMostNeeded(s[1..], needed, reason, st, targets, types, pool);
      }
    }
  }

  // ---------------------------------------------------------------- what taking keeps

  function OfType(selected: map<string, Chosen>, t: string): set<string> {
    set id | id in selected && selected[id].question.questionType == t
  }

  /** The counts are those of the selection, and no type is beyond its target. */
  ghost predicate Coherent(st: State, targets: Targets) {
    && (forall id :: id in st.selected ==> st.selected[id].question.caseId == id)
    && (forall t :: Target(st.counts, t) == |OfType(st.selected, t)|)
    && (forall t :: Target(st.counts, t) <= Target(targets, t))
  }

  lemma AddOfType(st: State, q: Question, reason: Reason, t: string)
    requires q.caseId !in st.selected
    ensures |OfType(Add(st, q, reason).selected, t)| == |OfType(st.selected, t)|
              + (if t == q.questionType then 1 else 0)
  {
    var after := OfType(Add(st, q, reason).selected, t);
    if t == q.questionType {
      assert after == OfType(st.selected, t) + {q.caseId};
    } else {
      assert after == OfType(st.selected, t);
    }
  }

  lemma AddCoherent(st: State, q: Question, reason: Reason, targets: Targets)
    requires Coherent(st, targets) && Takes(st, q, targets)
    ensures Coherent(Add(st, q, reason), targets)
  {
    var st' := Add(st, q, reason);
    forall t ensures Target(st'.counts, t) == |OfType(st'.selected, t)| { AddOfType(st, q, reason, t); }
  }

  lemma {:induction false} TakeCoherent(s: seq<Question>, needed: nat, reason: Reason, st: State, targets: Targets)
    requires Coherent(st, targets)
    ensures Coherent(Take(s, needed, reason, st, targets), targets)
    decreases |s|
  {
    if s != [] && needed > 0 {
      if Takes(st, s[0], targets) {
        AddCoherent(st, s[0], reason, targets);
        TakeCoherent(s[1..], needed - 1, reason, Add(st, s[0], reason), targets);
      } else {
        TakeCoherent(s[1..], needed, reason, st, targets);
      }
    }
  }

  /** `b` is `a` with further rows of the pool, all chosen for the same reason. */
  ghost predicate Extends(a: State, b: State, pool: seq<Question>, reason: Reason) {
    && (forall id :: id in a.selected ==> id in b.selected && b.selected[id] == a.selected[id])
    && (forall id :: id in b.selected && id !in a.selected ==>
       b.selected[id].reason == reason && b.selected[id].question in pool)
  }

  lemma {:induction false} TakeExtends(s: seq<Question>, needed: nat, reason: Reason, st: State, targets: Targets)
    ensures Extends(st, Take(s, needed, reason, st, targets), s, reason)
    decreases |s|
  {
    if s != [] && needed > 0 {
      if Takes(st, s[0], targets) {
        TakeExtends(s[1..], needed - 1, reason, Add(st, s[0], reason), targets);
      } else {
        TakeExtends(s[1..], needed, reason, st, targets);
      }
    }
  }

  // ---------------------------------------------------------------- one quota

  function Quota(
    pool: seq<Question>, needed: nat, reason: Reason, st: State, targets: Targets, draws: Draws, at: nat): State {
    Take(Shuffled(SortById(pool), draws, at), needed, reason, st, targets)
  }

  function Taken(st: State, st': State): nat {
    if |st'.selected| >= |st.selected| then |st'.selected| - |st.selected| else 0
  }

  lemma ShuffledPool(pool: seq<Question>, draws: Draws, at: nat)
    requires DistinctIds(pool)
    ensures var shuffled := Shuffled(SortById(pool), draws, at);
            DistinctIds(shuffled) && multiset(shuffled) == multiset(pool)
  {
    SortPermutes(pool);
    DistinctOfPermutation(pool, SortById(pool));
    var sorted := SortById(pool);
    var top := if sorted == [] then 0 else |sorted| - 1;
    ShuffleKeepsDistinct(sorted, top, draws, at);
    ShufflePermutes(sorted, top, draws, at);
  }

  lemma {:induction false} AtMostOnce(a: seq<Question>, x: Question)
    requires DistinctIds(a)
    ensures multiset(a)[x] <= 1
  {
    if a != [] {
      AtMostOnce(a[..|a| - 1], x);
      assert a == a[..|a| - 1] + [a[|a| - 1]];
      assert multiset(a[..|a| - 1])[a[|a| - 1]] == 0;
    }
  }

  lemma TwicePresent(b: seq<Question>, i: nat, j: nat)
    requires i < j < |b| && b[i] == b[j]
    ensures multiset(b)[b[i]] >= 2
  {
    assert b == b[..j] + [b[j]] + b[j + 1..];
    assert b[i] in b[..j];
  }

  lemma DistinctOfPermutation(a: seq<Question>, b: seq<Question>)
    requires DistinctIds(a) && multiset(a) == multiset(b)
    ensures DistinctIds(b)
  {
    forall i, j | 0 <= i < j < |b| ensures b[i].caseId != b[j].caseId {
      assert b[i] in multiset(a) && b[j] in multiset(a);
      if b[i].caseId == b[j].caseId {
        SameRow(a, b[i], b[j]);
        AtMostOnce(a, b[i]);
        TwicePresent(b, i, j);
      }
    }
  }

  /** A quota is met exactly when rooms and rows allow it, whatever the draws. */
  lemma QuotaMetExactly(
    pool: seq<Question>, needed: nat, reason: Reason, st: State, targets: Targets, draws: Draws, at: nat,
    types: seq<string>)
    requires DistinctIds(pool) && NoRepeats(types) && Covers(types, targets)
    ensures Taken(st, Quota(pool, needed, reason, st, targets, draws, at))
              == Least(needed, Capacity(types, pool, st, targets))
  {
    var shuffled := Shuffled(SortById(pool), draws, at);
    ShuffledPool(pool, draws, at);
    TakeTakesAllItCan(shuffled, needed, reason, st, targets, types);
    CapacityOfPermutation(types, shuffled, pool, st, targets);
  }

  // ---------------------------------------------------------------- the fill

  function Unselected(ordered: seq<Question>, t: string, st: State): seq<Question> {
    Filter(ordered, (q: Question) => q.questionType == t && q.caseId !in st.selected)
  }

  function Missing(st: State, targets: Targets, t: string): nat {
    if Target(st.counts, t) <= Target(targets, t) then Target(targets, t) - Target(st.counts, t) else 0
  }

  function FillType(t: string, ordered: seq<Question>, st: State, targets: Targets, draws: Draws, at: nat): State {
    Take(Shuffled(Unselected(ordered, t, st), draws, at), Missing(st, targets, t), TypeFill, st, targets)
  }

  /** Where the stream stands after one type. */
  function AfterFill(t: string, ordered: seq<Question>, st: State, at: nat): nat {
    at + DrawsUsed(Unselected(ordered, t, st))
  }

  function FillFrom(
    types: seq<string>, i: nat, ordered: seq<Question>, st: State, targets: Targets, draws: Draws, at: nat)
    : Result<State>
    requires i <= |types|
    decreases |types| - i
  {
    if i == |types| then Ok(st)
    else
      var t := types[i];
      var st' := FillType(t, ordered, st, targets, draws, at);
      if Target(st'.counts, t) != Target(targets, t)
          then Err(TypeUnfilled(t, Target(st'.counts, t), Target(targets, t)))
      else FillFrom(types, i + 1, ordered, st', targets, draws, AfterFill(t, ordered, st, at))
  }

  lemma {:induction false} TakeOneType(s: seq<Question>, needed: nat, st: State, targets: Targets, t: string)
    requires DistinctIds(s) && forall q :: q in s ==> q.questionType == t && q.caseId !in st.selected
    requires Target(st.counts, t) + needed <= Target(targets, t)
    ensures var st' := Take(s, needed, TypeFill, st, targets);
            && Target(st'.counts, t) == Target(st.counts, t) + Least(needed, |s|)
            && forall u :: u != t ==> Target(st'.counts, u) == Target(st.counts, u)
    decreases |s|
  {
    if s != [] && needed > 0 {
      assert s[0] in s;
      forall q | q in s[1..] ensures q.questionType == t && q.caseId !in Add(st, s[0], TypeFill).selected {
        var i :| 0 <= i < |s[1..]| && s[1..][i] == q;
        assert s[i + 1] == q && q in s;
      }
      TakeOneType(s[1..], needed - 1, Add(st, s[0], TypeFill), targets, t);
    }
  }

  function IdSet(s: seq<Question>): set<string> { set q | q in s :: q.caseId }

  lemma {:induction false} IdSetSize(s: seq<Question>)
    requires DistinctIds(s)
    ensures |IdSet(s)| == |s|
  {
    if s != [] {
      var n := |s| - 1;
      IdSetSize(s[..n]);
      assert s == s[..n] + [s[n]];
      assert IdSet(s) == IdSet(s[..n]) + {s[n].caseId};
    }
  }

  function RowIds(ordered: seq<Question>, t: string): set<string> {
    set q | q in ordered && q.questionType == t :: q.caseId
  }

  /** Everything selected so far comes from the given rows. */
  ghost predicate From(st: State, ordered: seq<Question>) {
    forall id :: id in st.selected ==> st.selected[id].question in ordered
  }

  /** The rows of a type still to choose from are those the selection does not already hold. */
  lemma UnselectedSize(ordered: seq<Question>, t: string, st: State, targets: Targets)
    requires DistinctIds(ordered) && Coherent(st, targets) && From(st, ordered)
    ensures |Unselected(ordered, t, st)| == |RowIds(ordered, t)| - Target(st.counts, t)
  {
    var rest := Unselected(ordered, t, st);
    FilterKeepsDistinct(ordered, (q: Question) => q.questionType == t && q.caseId !in st.selected);
    IdSetSize(rest);
    var held := OfType(st.selected, t);
    forall id | id in held ensures id in RowIds(ordered, t) { assert st.selected[id].question in ordered; }
    forall id | id in IdSet(rest) ensures id in RowIds(ordered, t) && id !in held {
      var q :| q in rest && q.caseId == id;
    }
    forall id | id in RowIds(ordered, t) && id in st.selected ensures id in held {
      var q :| q in ordered && q.questionType == t && q.caseId == id;
      SameRow(ordered, q, st.selected[id].question);
    }
    forall id | id in RowIds(ordered, t) && id !in held ensures id in IdSet(rest) {
      var q :| q in ordered && q.questionType == t && q.caseId == id;
      assert q in rest;
    }
    assert IdSet(rest) == RowIds(ordered, t) - held;
  }

  lemma SameRow(ordered: seq<Question>, p: Question, q: Question)
    requires DistinctIds(ordered) && p in ordered && q in ordered && p.caseId == q.caseId
    ensures p == q
  {
  }

  lemma FillTypeResult(t: string, ordered: seq<Question>, st: State, targets: Targets, draws: Draws, at: nat)
    requires DistinctIds(ordered) && Coherent(st, targets) && From(st, ordered)
    ensures var st' := FillType(t, ordered, st, targets, draws, at);
            && Coherent(st', targets) && From(st', ordered)
            && (Target(st'.counts, t) == Target(targets, t) <==> |RowIds(ordered, t)| >= Target(targets, t))
            && (forall u :: u != t ==> Target(st'.counts, u) == Target(st.counts, u))
            && KeepsSelected(st, st')
  {
    var pool := Unselected(ordered, t, st);
    FilterKeepsDistinct(ordered, (q: Question) => q.questionType == t && q.caseId !in st.selected);
    var top := if pool == [] then 0 else |pool| - 1;
    ShuffleKeepsDistinct(pool, top, draws, at);
    ShufflePermutes(pool, top, draws, at);
    var shuffled := Shuffled(pool, draws, at);
    forall q | q in shuffled ensures q in pool { assert q in multiset(shuffled); }
    TakeOneType(shuffled, Missing(st, targets, t), st, targets, t);
    TakeCoherent(shuffled, Missing(st, targets, t), TypeFill, st, targets);
    TakeExtends(shuffled, Missing(st, targets, t), TypeFill, st, targets);
    UnselectedSize(ordered, t, st, targets);
  }

  ghost predicate Filled(types: seq<string>, i: nat, st: State, targets: Targets)
    requires i <= |types|
  {
    forall j :: 0 <= j < i ==> Target(st.counts, types[j]) == Target(targets, types[j])
  }

  ghost predicate Enough(types: seq<string>, i: nat, ordered: seq<Question>, targets: Targets)
    requires i <= |types|
  {
    forall j :: i <= j < |types| ==> |RowIds(ordered, types[j])| >= Target(targets, types[j])
  }

  ghost predicate KeepsSelected(a: State, b: State) {
    forall id :: id in a.selected ==> id in b.selected && b.selected[id] == a.selected[id]
  }

  lemma FilledNext(types: seq<string>, i: nat, st: State, st': State, targets: Targets)
    requires i < |types| && NoRepeats(types) && Filled(types, i, st, targets)
    requires forall u :: u != types[i] ==> Target(st'.counts, u) == Target(st.counts, u)
    requires Target(st'.counts, types[i]) == Target(targets, types[i])
    ensures Filled(types, i + 1, st', targets)
  {
  }

  lemma EnoughNext(types: seq<string>, i: nat, ordered: seq<Question>, targets: Targets)
    requires i < |types|
    ensures Enough(types, i, ordered, targets) <==>
            |RowIds(ordered, types[i])| >= Target(targets, types[i]) && Enough(types, i + 1, ordered, targets)
  {
  }

  lemma FillStep(types: seq<string>, i: nat, ordered: seq<Question>, st: State, targets: Targets, draws: Draws, at: nat)
    requires i < |types|
    ensures var st', next := FillType(types[i], ordered, st, targets, draws, at), AfterFill(types[i], ordered, st, at);
            FillFrom(types, i, ordered, st, targets, draws, at).Ok? <==>
            Target(st'.counts, types[i]) == Target(targets, types[i])
                && FillFrom(types, i + 1, ordered, st', targets, draws, next).Ok?
  {
  }

  /** The fill fails only for a type with fewer rows than its target ... */
  lemma {:induction false} FillFailsOnlyForLack(
    types: seq<string>, i: nat, ordered: seq<Question>, st: State, targets: Targets, draws: Draws, at: nat)
    requires i <= |types| && DistinctIds(ordered) && Coherent(st, targets) && From(st, ordered)
    ensures FillFrom(types, i, ordered, st, targets, draws, at).Ok? <==> Enough(types, i, ordered, targets)
    decreases |types| - i
  {
    if i < |types| {
      var st' := FillType(types[i], ordered, st, targets, draws, at);
      FillTypeResult(types[i], ordered, st, targets, draws, at);
      FillStep(types, i, ordered, st, targets, draws, at);
      EnoughNext(types, i, ordered, targets);
      FillFailsOnlyForLack(types, i + 1, ordered, st', targets, draws, AfterFill(types[i], ordered, st, at));
    }
  }

  /** ... and otherwise meets every target, keeping what the quotas chose. */
  lemma {:induction false} FillMeetsTargets(
    types: seq<string>, i: nat, ordered: seq<Question>, st: State, targets: Targets, draws: Draws, at: nat)
    requires i <= |types| && NoRepeats(types)
    requires DistinctIds(ordered) && Coherent(st, targets) && From(st, ordered) && Filled(types, i, st, targets)
    ensures var r := FillFrom(types, i, ordered, st, targets, draws, at);
            r.Ok? ==> Coherent(r.value, targets) && From(r.value, ordered)
                      && Filled(types, |types|, r.value, targets) && KeepsSelected(st, r.value)
    decreases |types| - i
  {
    if i < |types| {
      var st' := FillType(types[i], ordered, st, targets, draws, at);
      FillTypeResult(types[i], ordered, st, targets, draws, at);
      if Target(st'.counts, types[i]) == Target(targets, types[i]) {
        FilledNext(types, i, st, st', targets);
        FillMeetsTargets(types, i + 1, ordered, st', targets, draws, AfterFill(types[i], ordered, st, at));
      }
    }
  }

  // ---------------------------------------------------------------- the whole selection

  function FirstDuplicate(s: seq<Question>, seen: set<string>): Option<string> {
    if s == [] then None
    else if s[0].caseId in seen then Some(s[0].caseId)
    else FirstDuplicate(s[1..], seen + {s[0].caseId})
  }

  lemma {:induction false} NoDuplicateIsDistinct(s: seq<Question>, seen: set<string>)
    ensures FirstDuplicate(s, seen).None? <==> DistinctIds(s) && IdSet(s) !! seen
  {
    if s != [] {
      assert s == [s[0]] + s[1..] && s[0] in s;
      assert IdSet(s) == {s[0].caseId} + IdSet(s[1..]);
      if s[0].caseId !in seen { NoDuplicateIsDistinct(s[1..], seen + {s[0].caseId}); }
      assert (s[0].caseId !in IdSet(s[1..]) && DistinctIds(s[1..])) <==> DistinctIds(s) by { DistinctCons(s); }
    }
  }

  lemma DistinctCons(s: seq<Question>)
    requires s != []
    ensures (s[0].caseId !in IdSet(s[1..]) && DistinctIds(s[1..])) <==> DistinctIds(s)
  {
    if s[0].caseId !in IdSet(s[1..]) {
      forall j | 1 <= j < |s| ensures s[j].caseId != s[0].caseId { assert s[1..][j - 1] in s[1..]; }
      if DistinctIds(s[1..]) {
        forall i, j | 0 <= i < j < |s| ensures s[i].caseId != s[j].caseId {
          if i > 0 { assert s[1..][i - 1].caseId != s[1..][j - 1].caseId; }
        }
      }
    } else {
      var q :| q in s[1..] && q.caseId == s[0].caseId;
      var j :| 0 <= j < |s[1..]| && s[1..][j] == q;
      assert s[j + 1] == q;
    }
  }

  const EMPTY: State := State(map[], map[])

  function Types(s: seq<Question>): seq<string> { MapSeq((q: Question) => q.questionType, s) }

  function AllAfterPool(ordered: seq<Question>): seq<Question> {
    Filter(ordered, (q: Question) => q.allSessionsAfterQuestionDate)
  }

  function AbstentionPool(ordered: seq<Question>): seq<Question> {
    Filter(ordered, (q: Question) => q.abstention)
  }

  function Values(selected: map<string, Chosen>, ids: seq<string>): seq<Chosen>
    requires forall id :: id in ids ==> id in selected
  {
    if ids == [] then [] else Values(selected, ids[..|ids| - 1]) + [selected[ids[|ids| - 1]]]
  }

  datatype Options = Options(size: nat, abstentionMinimum: nat, allAfterMinimum: nat)

  /** One quota, or the error it is not filled with. */
  function QuotaResult(
    pool: seq<Question>, needed: nat, reason: Reason, st: State, targets: Targets, draws: Draws, at: nat)
    : Result<State> {
    var st' := Quota(pool, needed, reason, st, targets, draws, at);
    if Taken(st, st') < needed then Err(QuotaUnfilled(reason, Taken(st, st'), needed)) else Ok(st')
  }

  /** The two quotas, one stream through both. */
  function Quotas(
    late: seq<Question>, abstaining: seq<Question>, o: Options, targets: Targets, draws: Draws): Result<State> {
    var first := QuotaResult(late, o.allAfterMinimum, QuotaAllAfter, EMPTY, targets, draws, 0);
    if first.Err? then first
    else QuotaResult(abstaining, o.abstentionMinimum, QuotaAbstention, first.value, targets, draws, DrawsUsed(late))
  }

  function TargetsFor(ordered: seq<Question>, size: nat): Targets
    requires ordered != []
  {
    TargetsOfList(Types(ordered), size)
  }

  /** How far the two quotas advance the stream. */
  function QuotaDraws(late: seq<Question>, abstaining: seq<Question>): nat { DrawsUsed(late) + DrawsUsed(abstaining) }

  /** The fill after whatever the quotas came to. */
  function ThenFill(
    quotas: Result<State>, ordered: seq<Question>, targets: Targets, draws: Draws, at: nat): Result<State> {
    if quotas.Err? then quotas else FillFrom(Sorted(targets.Keys), 0, ordered, quotas.value, targets, draws, at)
  }

  lemma ThenFillSucceedsExactly(quotas: Result<State>, ordered: seq<Question>, targets: Targets, draws: Draws, at: nat)
    requires DistinctIds(ordered) && (quotas.Ok? ==> Coherent(quotas.value, targets) && From(quotas.value, ordered))
    ensures ThenFill(quotas, ordered, targets, draws, at).Ok? <==>
            quotas.Ok? && Enough(Sorted(targets.Keys), 0, ordered, targets)
  {
    if quotas.Ok? { FillFailsOnlyForLack(Sorted(targets.Keys), 0, ordered, quotas.value, targets, draws, at); }
  }

  lemma ThenFillMeetsTargets(quotas: Result<State>, ordered: seq<Question>, targets: Targets, draws: Draws, at: nat)
    requires DistinctIds(ordered) && ThenFill(quotas, ordered, targets, draws, at).Ok?
    requires quotas.Ok? ==> Coherent(quotas.value, targets) && From(quotas.value, ordered)
    ensures var st, types := ThenFill(quotas, ordered, targets, draws, at).value, Sorted(targets.Keys);
            && quotas.Ok? && Coherent(st, targets) && From(st, ordered) && Filled(types, |types|, st, targets)
            && KeepsSelected(quotas.value, st)
  {
    SortedHasNoRepeats(targets.Keys);
    FillMeetsTargets(Sorted(targets.Keys), 0, ordered, quotas.value, targets, draws, at);
  }

  function QuotasAndFill(
    ordered: seq<Question>, late: seq<Question>, abstaining: seq<Question>, o: Options, targets: Targets,
    draws: Draws): Result<State>
  {
    ThenFill(Quotas(late, abstaining, o, targets, draws), ordered, targets, draws, QuotaDraws(late, abstaining))
  }

  function Selection(ordered: seq<Question>, o: Options, draws: Draws): Result<State> {
    var duplicate := FirstDuplicate(ordered, {});
    if duplicate.Some? then Err(DuplicateId(duplicate.value))
    else if ordered == [] then Err(NoTypes)
    else QuotasAndFill(ordered, AllAfterPool(ordered), AbstentionPool(ordered), o, TargetsFor(ordered, o.size), draws)
  }

  /** What `selectB2FrozenSet` returns for rows listed in any order. */
  function Select(questions: seq<Question>, o: Options, draws: Draws): Result<seq<Chosen>> {
    match Selection(SortById(questions), o, draws)
    case Ok(st) => Ok(Values(st.selected, Sorted(st.selected.Keys)))
    case Err(failure) => Err(failure)
  }
}
