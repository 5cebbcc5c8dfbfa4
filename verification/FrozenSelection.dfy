/** The selection as the program runs it, and what its result guarantees. */
module FrozenSelection {
  import opened Common
  import opened SeededShuffle
  import opened StratifiedSelection

  // ---------------------------------------------------------------- the program

  class Selector {
    const targets: Targets
    const rng: Stream
    var selected: map<string, Chosen>
    var counts: map<string, nat>

    constructor (targets: Targets, rng: Stream)
      ensures this.targets == targets && this.rng == rng && selected == map[] && counts == map[]
    {
      this.targets, this.rng, this.selected, this.counts := targets, rng, map[], map[];
    }

    ghost function Value(): State
      reads this
    {
      State(selected, counts)
    }

    method TakeQuota(pool: seq<Question>, reason: Reason, needed: nat) returns (r: Result<State>)
      modifies this, rng
      ensures r == QuotaResult(pool, needed, reason, old(Value()), targets, rng.draws, old(rng.at))
      ensures Value() == Quota(pool, needed, reason, old(Value()), targets, rng.draws, old(rng.at))
      ensures rng.at == old(rng.at) + DrawsUsed(pool)
    {
      SortPermutes(pool);
      assert |SortById(pool)| == |multiset(SortById(pool))| == |pool|;
      var shuffled := rng.SeededShuffle(SortById(pool));
      var taken := TakeFrom(shuffled, reason, needed);
      r := if taken < needed then Err(QuotaUnfilled(reason, taken, needed)) else Ok(State(selected, counts));
    }

    /** The loop over the shuffled pool. */
    method TakeFrom(shuffled: seq<Question>, reason: Reason, needed: nat) returns (taken: nat)
      modifies this
      ensures Value() == Take(shuffled, needed, reason, old(Value()), targets)
      ensures taken == Taken(old(Value()), Value()) && taken <= needed
    {
      taken := 0;
      ghost var goal, left := Take(shuffled, needed, reason, Value(), targets), needed;
      assert shuffled[0..] == shuffled;
      var i := 0;
      while i < |shuffled| && taken < needed
        invariant i <= |shuffled| && taken + left == needed
        invariant |selected| == old(|selected|) + taken
        invariant Take(shuffled[i..], left, reason, Value(), targets) == goal
      {
        var question := shuffled[i];
        ghost var before := Value();
        TakeNext(shuffled, i, left, reason, before, targets);
        i := i + 1;
        if question.caseId !in selected {
          var used := if question.questionType in counts then counts[question.questionType] else 0;
          var target := if question.questionType in targets then targets[question.questionType] else 0;
          if used < target {
            selected := selected[question.caseId := Chosen(question, reason)];
            counts := counts[question.questionType := used + 1];
            taken, left := taken + 1, left - 1;
            assert Value() == Add(before, question, reason);
          }
        }
      }
    }

    /** The loop that fills one type up to its target. */
    method FillFromShuffled(t: string, shuffled: seq<Question>)
      requires DistinctIds(shuffled) && forall j :: 0 <= j < |shuffled| ==>
                shuffled[j].questionType == t && shuffled[j].caseId !in selected
      modifies this
      ensures Value() == Take(shuffled, Missing(old(Value()), targets, t), TypeFill, old(Value()), targets)
    {
      var target := if t in targets then targets[t] else 0;
      var used := if t in counts then counts[t] else 0;
      ghost var goal := Take(shuffled, Missing(Value(), targets, t), TypeFill, Value(), targets);
      assert shuffled[0..] == shuffled;
      var i := 0;
      while i < |shuffled| && used < target
        invariant i <= |shuffled| && used == Target(counts, t)
        invariant forall j :: i <= j < |shuffled| ==> shuffled[j].caseId !in selected
        invariant Take(shuffled[i..], Missing(Value(), targets, t), TypeFill, Value(), targets) == goal
      {
        ghost var before := Value();
        TakeNext(shuffled, i, Missing(before, targets, t), TypeFill, before, targets);
        selected := selected[shuffled[i].caseId := Chosen(shuffled[i], TypeFill)];
        used := used + 1;
        counts := counts[t := used];
        i := i + 1;
        assert Value() == Add(before, shuffled[i - 1], TypeFill);
      }
    }

    method FillOneType(t: string, ordered: seq<Question>) returns (failure: Option<Failure>)
      requires DistinctIds(ordered)
      modifies this, rng
      ensures Value() == FillType(t, ordered, old(Value()), targets, rng.draws, old(rng.at))
      ensures rng.at == old(rng.at) + DrawsUsed(Unselected(ordered, t, old(Value())))
      ensures failure == if Target(counts, t) != Target(targets, t)
                         then Some(TypeUnfilled(t, Target(counts, t), Target(targets, t))) else None
    {
      var remaining := Unselected(ordered, t, State(selected, counts));
      var shuffled := rng.SeededShuffle(remaining);
      ShuffledMembers(remaining, rng.draws, old(rng.at));
      ShuffledDistinct(ordered, t, State(selected, counts), rng.draws, old(rng.at));
      forall j | 0 <= j < |shuffled| ensures shuffled[j].questionType == t && shuffled[j].caseId !in selected {
        assert shuffled[j] in remaining;
      }
      FillFromShuffled(t, shuffled);
      var filled, target := Target(counts, t), Target(targets, t);
      failure := if filled != target then Some(TypeUnfilled(t, filled, target)) else None;
    }

    /** One turn of the fill: what is left of the whole fill is the fill of the types that follow. */
    method FillNextType(types: seq<string>, i: nat, ordered: seq<Question>) returns (failure: Option<Failure>)
      requires i < |types| && DistinctIds(ordered)
      modifies this, rng
      ensures var whole := FillFrom(types, i, ordered, old(Value()), targets, rng.draws, old(rng.at));
              whole == if failure.Some? then Err(failure.value)
                  else FillFrom(types, i + 1, ordered, Value(), targets, rng.draws, rng.at)
    {
      ghost var before, from := Value(), rng.at;
      failure := FillOneType(types[i], ordered);
      FillNext(types, i, ordered, before, Value(), targets, rng.draws, from);
    }

    method FillAllTypes(ordered: seq<Question>, ghost st: State, ghost from: nat) returns (r: Result<State>)
      requires DistinctIds(ordered) && st == Value() && from == rng.at
      modifies this, rng
      ensures r == FillFrom(Sorted(targets.Keys), 0, ordered, st, targets, rng.draws, from)
    {
      var types := Sorted(targets.Keys);
      ghost var goal := FillFrom(types, 0, ordered, st, targets, rng.draws, from);
      var i := 0;
      while i < |types|
        invariant i <= |types| && FillFrom(types, i, ordered, Value(), targets, rng.draws, rng.at) == goal
      {
        var failed := FillNextType(types, i, ordered);
        if failed.Some? { return Err(failed.value); }
        i := i + 1;
      }
      return Ok(State(selected, counts));
    }

    /** Both quotas; the generator goes on from one to the other. */
    method TakeQuotas(late: seq<Question>, abstaining: seq<Question>, o: Options) returns (r: Result<State>)
      requires Value() == EMPTY && rng.at == 0
      modifies this, rng
      ensures r == Quotas(late, abstaining, o, targets, rng.draws)
      ensures r.Ok? ==> Value() == r.value && rng.at == QuotaDraws(late, abstaining)
    {
      r := TakeQuota(late, QuotaAllAfter, o.allAfterMinimum);
      if r.Ok? { r := TakeQuota(abstaining, QuotaAbstention, o.abstentionMinimum); }
    }

    method Run(
      ordered: seq<Question>, late: seq<Question>, abstaining: seq<Question>, o: Options) returns (r: Result<State>)
      requires Value() == EMPTY && rng.at == 0 && DistinctIds(ordered)
      modifies this, rng
      ensures r == QuotasAndFill(ordered, late, abstaining, o, targets, rng.draws)
    {
      var quotas := TakeQuotas(late, abstaining, o);
      r := quotas;
      if quotas.Ok? { r := FillAllTypes(ordered, quotas.value, QuotaDraws(late, abstaining)); }
    }
  }

  lemma FillNext(
    types: seq<string>, i: nat, ordered: seq<Question>, st: State, st': State, targets: Targets, draws: Draws,
    at: nat)
    requires i < |types| && st' == FillType(types[i], ordered, st, targets, draws, at)
    ensures FillFrom(types, i, ordered, st, targets, draws, at) ==
            if Target(st'.counts, types[i]) != Target(targets, types[i])
            then Err(TypeUnfilled(types[i], Target(st'.counts, types[i]), Target(targets, types[i])))
            else FillFrom(types, i + 1, ordered, st', targets, draws, AfterFill(types[i], ordered, st, at))
  {
  }

  lemma TakeNext(s: seq<Question>, i: nat, needed: nat, reason: Reason, st: State, targets: Targets)
    requires i < |s| && needed > 0
    ensures Take(s[i..], needed, reason, st, targets) ==
            if Takes(st, s[i], targets) then Take(s[i + 1..], needed - 1, reason, Add(st, s[i], reason), targets)
            else Take(s[i + 1..], needed, reason, st, targets)
  {
    assert s[i..][1..] == s[i + 1..];
  }

  lemma ShuffledMembers(s: seq<Question>, draws: Draws, at: nat)
    ensures forall q :: q in Shuffled(s, draws, at) ==> q in s
  {
    ShufflePermutes(s, if s == [] then 0 else |s| - 1, draws, at);
    forall q | q in Shuffled(s, draws, at) ensures q in s { assert q in multiset(Shuffled(s, draws, at)); }
  }

  lemma ShuffledDistinct(ordered: seq<Question>, t: string, st: State, draws: Draws, at: nat)
    requires DistinctIds(ordered)
    ensures DistinctIds(Shuffled(Unselected(ordered, t, st), draws, at))
  {
    var rest := Unselected(ordered, t, st);
    FilterKeepsDistinct(ordered, (q: Question) => q.questionType == t && q.caseId !in st.selected);
    ShuffleKeepsDistinct(rest, if rest == [] then 0 else |rest| - 1, draws, at);
  }

  lemma QuotaCoherent(
    pool: seq<Question>, ordered: seq<Question>, needed: nat, reason: Reason, st: State, targets: Targets,
    draws: Draws, at: nat)
    requires Coherent(st, targets) && From(st, ordered) && forall q :: q in pool ==> q in ordered
    ensures var st' := Quota(pool, needed, reason, st, targets, draws, at);
            && Coherent(st', targets) && From(st', ordered) && KeepsSelected(st, st')
            && forall id :: id in st'.selected && id !in st.selected ==> st'.selected[id].question in pool
  {
    var shuffled := Shuffled(SortById(pool), draws, at);
    SortPermutes(pool);
    ShuffledMembers(SortById(pool), draws, at);
    forall q | q in shuffled ensures q in pool {
      assert q in multiset(SortById(pool));
    }
    TakeCoherent(shuffled, needed, reason, st, targets);
    TakeExtends(shuffled, needed, reason, st, targets);
  }

  lemma EmptyCoherent(targets: Targets, ordered: seq<Question>)
    ensures Coherent(EMPTY, targets) && From(EMPTY, ordered)
  {
    forall t ensures |OfType(EMPTY.selected, t)| == 0 { assert OfType(EMPTY.selected, t) == {}; }
  }

  /** The first repeated id in sorted order, as the guard loop finds it. */
  method FindDuplicate(ordered: seq<Question>) returns (duplicate: Option<string>)
    ensures duplicate == FirstDuplicate(ordered, {})
  {
    var ids: set<string> := {};
    for i := 0 to |ordered|
      invariant FirstDuplicate(ordered[i..], ids) == FirstDuplicate(ordered, {})
    {
      assert ordered[i..][0] == ordered[i] && ordered[i..][1..] == ordered[i + 1..];
      if ordered[i].caseId in ids { return Some(ordered[i].caseId); }
      ids := ids + {ordered[i].caseId};
    }
    return None;
  }

  /** Disjoint groups of the selection, one of each quota's size, that carry the two flags. */
  ghost predicate MeetsQuotas(st: State, o: Options, late: set<string>, abstaining: set<string>) {
    && late <= st.selected.Keys && abstaining <= st.selected.Keys && late !! abstaining
    && |late| == o.allAfterMinimum && |abstaining| == o.abstentionMinimum
    && (forall id :: id in late ==> st.selected[id].question.allSessionsAfterQuestionDate)
    && (forall id :: id in abstaining ==> st.selected[id].question.abstention)
  }

  /** One quota met: the rows it added are exactly as many as asked, all from its pool. */
  lemma QuotaAdds(
    pool: seq<Question>, ordered: seq<Question>, needed: nat, reason: Reason, st: State, targets: Targets,
    draws: Draws, at: nat)
    requires Coherent(st, targets) && From(st, ordered) && forall q :: q in pool ==> q in ordered
    requires Taken(st, Quota(pool, needed, reason, st, targets, draws, at)) >= needed
    ensures var st' := Quota(pool, needed, reason, st, targets, draws, at);
            && Coherent(st', targets) && From(st', ordered) && KeepsSelected(st, st')
            && |st'.selected.Keys - st.selected.Keys| == needed
            && forall id :: id in st'.selected.Keys - st.selected.Keys ==> st'.selected[id].question in pool
  {
    var st' := Quota(pool, needed, reason, st, targets, draws, at);
    QuotaCoherent(pool, ordered, needed, reason, st, targets, draws, at);
    QuotaTakesNoMore(pool, needed, reason, st, targets, draws, at);
    assert st.selected.Keys <= st'.selected.Keys;
    assert |st.selected.Keys| == |st.selected| && |st'.selected.Keys| == |st'.selected|;
  }

  lemma QuotasCoherent(
    ordered: seq<Question>, o: Options, targets: Targets, draws: Draws)
    returns (lateIds: set<string>, abstainingIds: set<string>)
    requires Quotas(AllAfterPool(ordered), AbstentionPool(ordered), o, targets, draws).Ok?
    ensures var st := Quotas(AllAfterPool(ordered), AbstentionPool(ordered), o, targets, draws).value;
            Coherent(st, targets) && From(st, ordered) && MeetsQuotas(st, o, lateIds, abstainingIds)
  {
    var late, abstaining := AllAfterPool(ordered), AbstentionPool(ordered);
    var st1 := Quota(late, o.allAfterMinimum, QuotaAllAfter, EMPTY, targets, draws, 0);
    var st2 := Quota(abstaining, o.abstentionMinimum, QuotaAbstention, st1, targets, draws, DrawsUsed(late));
    EmptyCoherent(targets, ordered);
    QuotaAdds(late, ordered, o.allAfterMinimum, QuotaAllAfter, EMPTY, targets, draws, 0);
    QuotaAdds(abstaining, ordered, o.abstentionMinimum, QuotaAbstention, st1, targets, draws, DrawsUsed(late));
    lateIds, abstainingIds := st1.selected.Keys - EMPTY.selected.Keys, st2.selected.Keys - st1.selected.Keys;
  }

  predicate SubPool(pool: seq<Question>, ordered: seq<Question>) { forall q :: q in pool ==> q in ordered }

  lemma QuotasKeepCoherence(
    ordered: seq<Question>, late: seq<Question>, abstaining: seq<Question>, o: Options, targets: Targets,
    draws: Draws, st: State)
    requires SubPool(late, ordered) && SubPool(abstaining, ordered)
    requires Quotas(late, abstaining, o, targets, draws) == Ok(st)
    ensures Coherent(st, targets) && From(st, ordered)
  {
    var st1 := Quota(late, o.allAfterMinimum, QuotaAllAfter, EMPTY, targets, draws, 0);
    EmptyCoherent(targets, ordered);
    QuotaCoherent(late, ordered, o.allAfterMinimum, QuotaAllAfter, EMPTY, targets, draws, 0);
    QuotaCoherent(abstaining, ordered, o.abstentionMinimum, QuotaAbstention, st1, targets, draws, DrawsUsed(late));
  }

  lemma {:induction false} TakeTakesNoMore(s: seq<Question>, needed: nat, reason: Reason, st: State, targets: Targets)
    ensures |st.selected| <= |Take(s, needed, reason, st, targets).selected| <= |st.selected| + needed
    decreases |s|
  {
    if s != [] && needed > 0 {
      if Takes(st, s[0], targets) {
        assert |Add(st, s[0], reason).selected| == |st.selected| + 1;
        TakeTakesNoMore(s[1..], needed - 1, reason, Add(st, s[0], reason), targets);
      } else {
        TakeTakesNoMore(s[1..], needed, reason, st, targets);
      }
    }
  }

  lemma QuotaTakesNoMore(
    pool: seq<Question>, needed: nat, reason: Reason, st: State, targets: Targets, draws: Draws, at: nat)
    ensures |st.selected| <= |Quota(pool, needed, reason, st, targets, draws, at).selected| <= |st.selected| + needed
  {
    TakeTakesNoMore(Shuffled(SortById(pool), draws, at), needed, reason, st, targets);
  }

  method SelectState(ordered: seq<Question>, rng: Stream, o: Options) returns (r: Result<State>)
    requires rng.at == 0
    modifies rng
    ensures r == Selection(ordered, o, rng.draws)
  {
    var duplicate := FindDuplicate(ordered);
    if duplicate.Some? { return Err(DuplicateId(duplicate.value)); }
    NoDuplicateIsDistinct(ordered, {});
    var targets := TypeTargets(Types(ordered), o.size);
    if targets.None? { return Err(NoTypes); }
    var selector := new Selector(targets.value, rng);
    r := selector.Run(ordered, AllAfterPool(ordered), AbstentionPool(ordered), o);
  }

  method SelectB2FrozenSet(questions: seq<Question>, seed: bv32, o: Options) returns (r: Result<seq<Chosen>>)
    ensures r == Select(questions, o, Mulberry32(seed))
  {
    var rng := new Stream(Mulberry32(seed));
    var state := SelectState(SortById(questions), rng, o);
    if state.Err? { return Err(state.failure); }
    r := Ok(Values(state.value.selected, Sorted(state.value.selected.Keys)));
  }

  // ---------------------------------------------------------------- what the result guarantees

  function CountOf(chosen: seq<Chosen>, p: Question -> bool): nat {
    if chosen == [] then 0
    else CountOf(chosen[..|chosen| - 1], p) + (if p(chosen[|chosen| - 1].question) then 1 else 0)
  }

  function Where(selected: map<string, Chosen>, ids: seq<string>, p: Question -> bool): set<string>
    requires forall id :: id in ids ==> id in selected
  {
    set id | id in ids && p(selected[id].question)
  }

  lemma WhereSnoc(selected: map<string, Chosen>, ids: seq<string>, p: Question -> bool)
    requires ids != [] && NoRepeats(ids) && forall id :: id in ids ==> id in selected
    ensures var n := |ids| - 1;
            |Where(selected, ids, p)| == |Where(selected, ids[..n], p)|
                + (if p(selected[ids[n]].question) then 1 else 0)
  {
    var n := |ids| - 1;
    assert ids == ids[..n] + [ids[n]];
    assert ids[n] !in Where(selected, ids[..n], p);
    assert Where(selected, ids, p) == Where(selected, ids[..n], p)
        + (if p(selected[ids[n]].question) then {ids[n]} else {});
  }

  lemma {:induction false} ValuesCount(selected: map<string, Chosen>, ids: seq<string>, p: Question -> bool)
    requires NoRepeats(ids) && forall id :: id in ids ==> id in selected
    ensures CountOf(Values(selected, ids), p) == |Where(selected, ids, p)|
  {
    if ids == [] {
      assert Where(selected, ids, p) == {};
    } else {
      var n := |ids| - 1;
      ValuesCount(selected, ids[..n], p);
      WhereSnoc(selected, ids, p);
      assert Values(selected, ids)[..|Values(selected, ids)| - 1] == Values(selected, ids[..n]);
    }
  }

  lemma {:induction false} ValuesAt(selected: map<string, Chosen>, ids: seq<string>)
    requires forall id :: id in ids ==> id in selected
    ensures var r := Values(selected, ids); |r| == |ids| && forall i :: 0 <= i < |ids| ==> r[i] == selected[ids[i]]
  {
    if ids != [] { ValuesAt(selected, ids[..|ids| - 1]); }
  }

  function OfTypes(selected: map<string, Chosen>, types: seq<string>): set<string> {
    set id | id in selected && selected[id].question.questionType in types
  }

  lemma OfTypesSnoc(types: seq<string>, selected: map<string, Chosen>)
    requires types != [] && NoRepeats(types)
    ensures var n := |types| - 1;
            |OfTypes(selected, types)| == |OfTypes(selected, types[..n])| + |OfType(selected, types[n])|
  {
    var n := |types| - 1;
    assert types == types[..n] + [types[n]];
    assert OfTypes(selected, types) == OfTypes(selected, types[..n]) + OfType(selected, types[n]);
    assert OfTypes(selected, types[..n]) !! OfType(selected, types[n]);
  }

  lemma {:induction false} PartitionByType(types: seq<string>, st: State, targets: Targets)
    requires NoRepeats(types) && Coherent(st, targets)
    ensures |OfTypes(st.selected, types)| == Sum(types, st.counts)
  {
    if types == [] {
      assert OfTypes(st.selected, types) == {};
    } else {
      PartitionByType(types[..|types| - 1], st, targets);
      OfTypesSnoc(types, st.selected);
    }
  }

  lemma {:induction false} SumSame(types: seq<string>, a: map<string, nat>, b: map<string, nat>)
    requires forall i :: 0 <= i < |types| ==> Target(a, types[i]) == Target(b, types[i])
    ensures Sum(types, a) == Sum(types, b)
  {
    if types != [] { SumSame(types[..|types| - 1], a, b); }
  }

  lemma TypesOf(ordered: seq<Question>)
    ensures forall q :: q in ordered ==> q.questionType in Members(Types(ordered))
  {
    forall q | q in ordered ensures q.questionType in Types(ordered) {
      var i :| 0 <= i < |ordered| && ordered[i] == q;
      assert Types(ordered)[i] == q.questionType;
    }
  }

  /** A successful selection holds exactly `size` rows, each type at its target, both quotas met. */
  lemma SelectionMeetsSpecification(
    ordered: seq<Question>, o: Options, draws: Draws) returns (late: set<string>, abstaining: set<string>)
    requires Selection(ordered, o, draws).Ok?
    ensures var st, targets := Selection(ordered, o, draws).value, TargetsFor(ordered, o.size);
            && |st.selected| == o.size
            && Coherent(st, targets) && From(st, ordered) && DistinctIds(ordered)
            && (forall t :: t in targets ==> |OfType(st.selected, t)| == targets[t])
            && MeetsQuotas(st, o, late, abstaining)
  {
    NoDuplicateIsDistinct(ordered, {});
    var targets := TargetsFor(ordered, o.size);
    var types := Sorted(targets.Keys);
    late, abstaining := QuotasCoherent(ordered, o, targets, draws);
    var quotas := Quotas(AllAfterPool(ordered), AbstentionPool(ordered), o, targets, draws);
    FilledSelection(ordered, quotas, o, targets, draws, QuotaDraws(AllAfterPool(ordered), AbstentionPool(ordered)),
                    late, abstaining);
    assert Types(ordered)[0] in Members(Types(ordered));
    TargetsAreFair(Members(Types(ordered)), o.size);
    AllTargetsMet(ordered, types, Selection(ordered, o, draws).value, targets);
  }

  lemma FilledSelection(
    ordered: seq<Question>, quotas: Result<State>, o: Options, targets: Targets, draws: Draws, at: nat,
    late: set<string>, abstaining: set<string>)
    requires DistinctIds(ordered) && ThenFill(quotas, ordered, targets, draws, at).Ok?
    requires quotas.Ok? ==> Coherent(quotas.value, targets) && From(quotas.value, ordered)
                            && MeetsQuotas(quotas.value, o, late, abstaining)
    ensures var st, types := ThenFill(quotas, ordered, targets, draws, at).value, Sorted(targets.Keys);
            && Coherent(st, targets) && From(st, ordered) && Filled(types, |types|, st, targets)
            && MeetsQuotas(st, o, late, abstaining)
  {
    ThenFillMeetsTargets(quotas, ordered, targets, draws, at);
    KeepsQuotas(quotas.value, ThenFill(quotas, ordered, targets, draws, at).value, o, late, abstaining);
  }

  lemma KeepsQuotas(a: State, b: State, o: Options, late: set<string>, abstaining: set<string>)
    requires MeetsQuotas(a, o, late, abstaining) && KeepsSelected(a, b)
    ensures MeetsQuotas(b, o, late, abstaining)
  {
  }

  lemma EveryTypeListed(ordered: seq<Question>, types: seq<string>, st: State)
    requires From(st, ordered) && forall q :: q in ordered ==> q.questionType in types
    ensures OfTypes(st.selected, types) == st.selected.Keys
  {
  }

  lemma AllTargetsMet(ordered: seq<Question>, types: seq<string>, st: State, targets: Targets)
    requires targets.Keys == Members(Types(ordered)) && types == Sorted(targets.Keys)
    requires Coherent(st, targets) && From(st, ordered) && Filled(types, |types|, st, targets)
    ensures |st.selected| == Sum(types, targets) && forall t :: t in targets ==> |OfType(st.selected, t)| == targets[t]
  {
    TypesOf(ordered);
    SortedHasNoRepeats(targets.Keys);
    PartitionByType(types, st, targets);
    SumSame(types, st.counts, targets);
    EveryTypeListed(ordered, types, st);
    forall t | t in targets ensures |OfType(st.selected, t)| == targets[t] {
      assert t in types;
    }
  }

  /** It succeeds exactly when ids are distinct, both quotas fit, and each type has rows for its target. */
  lemma SelectionSucceedsExactly(ordered: seq<Question>, o: Options, draws: Draws)
    requires DistinctIds(ordered) && ordered != []
    ensures var targets := TargetsFor(ordered, o.size);
            var types, st1 := Sorted(targets.Keys),
                Quota(AllAfterPool(ordered), o.allAfterMinimum, QuotaAllAfter, EMPTY, targets, draws, 0);
            Selection(ordered, o, draws).Ok? <==>
            && o.allAfterMinimum <= Capacity(types, AllAfterPool(ordered), EMPTY, targets)
            && o.abstentionMinimum <= Capacity(types, AbstentionPool(ordered), st1, targets)
            && Enough(types, 0, ordered, targets)
  {
    QuotasSucceedExactly(ordered, o, TargetsFor(ordered, o.size), draws);
    SelectionIsQuotasAndFill(ordered, o, draws);
  }

  lemma FillSucceedsExactly(
    ordered: seq<Question>, late: seq<Question>, abstaining: seq<Question>, o: Options, targets: Targets, draws: Draws)
    requires DistinctIds(ordered) && SubPool(late, ordered) && SubPool(abstaining, ordered)
    ensures QuotasAndFill(ordered, late, abstaining, o, targets, draws).Ok? <==>
            Quotas(late, abstaining, o, targets, draws).Ok? && Enough(Sorted(targets.Keys), 0, ordered, targets)
  {
    var quotas := Quotas(late, abstaining, o, targets, draws);
    if quotas.Ok? { QuotasKeepCoherence(ordered, late, abstaining, o, targets, draws, quotas.value); }
    ThenFillSucceedsExactly(quotas, ordered, targets, draws, QuotaDraws(late, abstaining));
  }

  lemma QuotasSucceedExactly(ordered: seq<Question>, o: Options, targets: Targets, draws: Draws)
    requires DistinctIds(ordered)
    ensures var types, st1 := Sorted(targets.Keys),
              Quota(AllAfterPool(ordered), o.allAfterMinimum, QuotaAllAfter, EMPTY, targets, draws, 0);
            Quotas(AllAfterPool(ordered), AbstentionPool(ordered), o, targets, draws).Ok? <==>
            && o.allAfterMinimum <= Capacity(types, AllAfterPool(ordered), EMPTY, targets)
            && o.abstentionMinimum <= Capacity(types, AbstentionPool(ordered), st1, targets)
  {
    var types := Sorted(targets.Keys);
    SortedHasNoRepeats(targets.Keys);
    FilterKeepsDistinct(ordered, (q: Question) => q.allSessionsAfterQuestionDate);
    FilterKeepsDistinct(ordered, (q: Question) => q.abstention);
    var late, abstaining := AllAfterPool(ordered), AbstentionPool(ordered);
    var st1 := Quota(late, o.allAfterMinimum, QuotaAllAfter, EMPTY, targets, draws, 0);
    QuotaFits(late, o.allAfterMinimum, QuotaAllAfter, EMPTY, targets, draws, 0, types);
    QuotaFits(abstaining, o.abstentionMinimum, QuotaAbstention, st1, targets, draws, DrawsUsed(late), types);
  }

  lemma QuotaFits(
    pool: seq<Question>, needed: nat, reason: Reason, st: State, targets: Targets, draws: Draws, at: nat,
    types: seq<string>)
    requires DistinctIds(pool) && NoRepeats(types) && Covers(types, targets)
    ensures QuotaResult(pool, needed, reason, st, targets, draws, at).Ok? <==>
              needed <= Capacity(types, pool, st, targets)
  {
    QuotaMetExactly(pool, needed, reason, st, targets, draws, at, types);
  }

  /** What the first quota can cost the second, whatever the draws. */
  lemma FirstQuotaCosts(ordered: seq<Question>, o: Options, draws: Draws)
    requires DistinctIds(ordered) && ordered != []
    ensures var targets, pool := TargetsFor(ordered, o.size), AbstentionPool(ordered);
            var types, st1 := Sorted(targets.Keys),
                Quota(AllAfterPool(ordered), o.allAfterMinimum, QuotaAllAfter, EMPTY, targets, draws, 0);
            Capacity(types, pool, st1, targets) <= Capacity(types, pool, EMPTY, targets)
            <= Capacity(types, pool, st1, targets) + o.allAfterMinimum
  {
    var targets, late, pool := TargetsFor(ordered, o.size), AllAfterPool(ordered), AbstentionPool(ordered);
    SortedHasNoRepeats(targets.Keys);
    SortPermutes(late);
    ShuffledMembers(SortById(late), draws, 0);
    forall q | q in Shuffled(SortById(late), draws, 0) ensures OwnId(q, pool) {
      assert q in multiset(SortById(late));
      forall x | x in pool && x.caseId == q.caseId ensures x == q { SameRow(ordered, x, q); }
    }
    TakeCostsAtMostNeeded(Shuffled(SortById(late), draws, 0), o.allAfterMinimum, QuotaAllAfter, EMPTY, targets,
                          Sorted(targets.Keys), pool);
  }

  /** With room for both quotas at once among the abstentions no draw can make the selection fail ... */
  lemma SucceedsWhateverTheDraws(ordered: seq<Question>, o: Options, draws: Draws)
    requires DistinctIds(ordered) && ordered != []
    requires var targets := TargetsFor(ordered, o.size);
             var types := Sorted(targets.Keys);
             && o.allAfterMinimum <= Capacity(types, AllAfterPool(ordered), EMPTY, targets)
             && o.allAfterMinimum + o.abstentionMinimum <= Capacity(types, AbstentionPool(ordered), EMPTY, targets)
             && Enough(types, 0, ordered, targets)
    ensures Selection(ordered, o, draws).Ok?
  {
    FirstQuotaCosts(ordered, o, draws);
    SelectionSucceedsExactly(ordered, o, draws);
  }

  /** ... and without room for each on its own no draw can make it succeed. */
  lemma NeedsRoomWhateverTheDraws(ordered: seq<Question>, o: Options, draws: Draws)
    requires DistinctIds(ordered) && ordered != [] && Selection(ordered, o, draws).Ok?
    ensures var targets := TargetsFor(ordered, o.size);
            var types := Sorted(targets.Keys);
            && o.allAfterMinimum <= Capacity(types, AllAfterPool(ordered), EMPTY, targets)
            && o.abstentionMinimum <= Capacity(types, AbstentionPool(ordered), EMPTY, targets)
            && Enough(types, 0, ordered, targets)
  {
    FirstQuotaCosts(ordered, o, draws);
    SelectionSucceedsExactly(ordered, o, draws);
  }

  // ---------------------------------------------------------------- rows for which the draws decide

  const FLAGGED_TWICE: Question := Question("a", "x", true, true)
  const FLAGGED_ONCE: Question := Question("b", "y", false, true)
  const ONE_OF_EACH: Options := Options(2, 1, 1)

  function TwoRows(): seq<Question> { [FLAGGED_TWICE, FLAGGED_ONCE] }

  lemma TwoTypes(s: string, t: string)
    requires s != t
    ensures var targets := TargetsOf({s, t}, 2); targets.Keys == {s, t} && targets[s] == 1 && targets[t] == 1
  {
    var sorted := Sorted({s, t});
    SortedHasNoRepeats({s, t});
    TargetPrefixAt(sorted, 2, 1, 0);
    assert s in sorted && t in sorted;
  }

  lemma TwoRowTargets()
    ensures var targets := TargetsFor(TwoRows(), 2);
            && targets.Keys == {"x", "y"} && targets["x"] == 1 && targets["y"] == 1
  {
    assert Types(TwoRows()) == ["x", "y"];
    assert Members(["x", "y"]) == {"x", "y"};
    TwoTypes("x", "y");
  }

  lemma FilterTwo(a: Question, b: Question, p: Question -> bool)
    ensures Filter([a, b], p) == (if p(a) then [a] else []) + (if p(b) then [b] else [])
  {
    assert [a, b][..1] == [a] && [a][..0] == [];
    assert Filter([a], p) == if p(a) then [a] else [];
  }

  lemma SortTwo(a: Question, b: Question)
    requires !Less(b.caseId, a.caseId)
    ensures SortById([a, b]) == [a, b] && SortById([a]) == [a]
  {
    assert [a, b][..1] == [a] && [a][..0] == [];
    assert SortById([a]) == [a];
  }

  lemma TwoRowPools()
    ensures AllAfterPool(TwoRows()) == TwoRows() && AbstentionPool(TwoRows()) == [FLAGGED_TWICE]
    ensures SortById(TwoRows()) == TwoRows() && SortById([FLAGGED_TWICE]) == [FLAGGED_TWICE]
    ensures DistinctIds(TwoRows())
  {
    FilterTwo(FLAGGED_TWICE, FLAGGED_ONCE, (q: Question) => q.abstention);
    FilterTwo(FLAGGED_TWICE, FLAGGED_ONCE, (q: Question) => q.allSessionsAfterQuestionDate);
    SortTwo(FLAGGED_TWICE, FLAGGED_ONCE);
  }

  /** A first draw below one half puts the second row first; any other leaves the order alone. */
  lemma TwoRowShuffle(draws: Draws)
    ensures Shuffled(TwoRows(), draws, 0) == if draws(0) < 0.5 then [FLAGGED_ONCE, FLAGGED_TWICE] else TwoRows()
  {
    assert SwapIndex(draws(0), 1) == if draws(0) < 0.5 then 0 else 1;
  }

  /** Taking one row from a pool whose first row fits. */
  lemma TakeFirst(s: seq<Question>, reason: Reason, st: State, targets: Targets)
    requires s != [] && Takes(st, s[0], targets)
    ensures Take(s, 1, reason, st, targets) == Add(st, s[0], reason)
  {
  }

  lemma TakeNothing(q: Question, reason: Reason, st: State, targets: Targets)
    requires !Takes(st, q, targets)
    ensures Take([q], 1, reason, st, targets) == st
  {
    assert [q][1..] == [];
  }

  /** Quotas of one row each, the second from a pool of `a` alone: they fit unless the first took `a`. */
  lemma OneOfEach(
    late: seq<Question>, abstaining: seq<Question>, a: Question, shuffled: seq<Question>, o: Options, targets: Targets,
    draws: Draws)
    requires o.allAfterMinimum == 1 && o.abstentionMinimum == 1
    requires shuffled != [] && shuffled == Shuffled(SortById(late), draws, 0)
    requires Shuffled(SortById(abstaining), draws, DrawsUsed(late)) == [a]
    requires Target(targets, shuffled[0].questionType) > 0 && Target(targets, a.questionType) > 0
    requires shuffled[0] != a ==> shuffled[0].caseId != a.caseId && shuffled[0].questionType != a.questionType
    ensures Quotas(late, abstaining, o, targets, draws).Ok? <==> shuffled[0] != a
  {
    TakeFirst(shuffled, QuotaAllAfter, EMPTY, targets);
    var st := Add(EMPTY, shuffled[0], QuotaAllAfter);
    if shuffled[0] == a {
      TakeNothing(a, QuotaAbstention, st, targets);
    } else {
      TakeFirst([a], QuotaAbstention, st, targets);
    }
  }

  lemma TwoRowQuotas(draws: Draws, targets: Targets)
    requires targets == TargetsFor(TwoRows(), 2)
    ensures Quotas(TwoRows(), [FLAGGED_TWICE], ONE_OF_EACH, targets, draws).Ok? <==> draws(0) < 0.5
  {
    TwoRowTargets();
    TwoRowPools();
    TwoRowShuffle(draws);
    OneOfEach(TwoRows(), [FLAGGED_TWICE], FLAGGED_TWICE, Shuffled(TwoRows(), draws, 0), ONE_OF_EACH, targets, draws);
  }

  /** A row for each type is enough where no target exceeds one. */
  lemma OneRowEach(ordered: seq<Question>, targets: Targets)
    requires forall t :: t in targets ==> targets[t] <= 1 && exists q :: q in ordered && q.questionType == t
    ensures Enough(Sorted(targets.Keys), 0, ordered, targets)
  {
    var types := Sorted(targets.Keys);
    forall j | 0 <= j < |types| ensures |RowIds(ordered, types[j])| >= Target(targets, types[j]) {
      assert types[j] in types;
      var q :| q in ordered && q.questionType == types[j];
      assert q.caseId in RowIds(ordered, types[j]);
    }
  }

  lemma TwoRowsEnough(targets: Targets)
    requires targets == TargetsFor(TwoRows(), 2)
    ensures Enough(Sorted(targets.Keys), 0, TwoRows(), targets)
  {
    TwoRowTargets();
    assert FLAGGED_TWICE in TwoRows() && FLAGGED_ONCE in TwoRows();
    forall t | t in targets ensures targets[t] <= 1 && exists q :: q in TwoRows() && q.questionType == t {
      if t == "x" { assert FLAGGED_TWICE.questionType == t; } else { assert FLAGGED_ONCE.questionType == t; }
    }
    OneRowEach(TwoRows(), targets);
  }

  /** Same rows, same options: the first draw alone decides, so no condition free of the draws is exact. */
  lemma DrawsDecide(draws: Draws)
    ensures Selection(TwoRows(), ONE_OF_EACH, draws).Ok? <==> draws(0) < 0.5
  {
    TwoRowPools();
    TwoRowQuotas(draws, TargetsFor(TwoRows(), 2));
    TwoRowsEnough(TargetsFor(TwoRows(), 2));
    SelectionIsQuotasAndFill(TwoRows(), ONE_OF_EACH, draws);
  }

  lemma FirstStates()
    ensures Mix(0x6d2b79f5) < 0x80000000 && Mix(0x6d2b79f6) >= 0x80000000
  {
  }

  /** Two seeds of the program's own generator, of which one fails on rows the other selects from. */
  lemma SeedDecides()
    ensures Selection(TwoRows(), ONE_OF_EACH, Mulberry32(0)).Ok?
    ensures Selection(TwoRows(), ONE_OF_EACH, Mulberry32(1)).Err?
    ensures Select(TwoRows(), ONE_OF_EACH, Mulberry32(0)).Ok? && Select(TwoRows(), ONE_OF_EACH, Mulberry32(1)).Err?
  {
    FirstStates();
    assert StateAfter(0, 1) == 0x6d2b79f5 && StateAfter(1, 1) == 0x6d2b79f6;
    UnitBelowHalf(Mix(0x6d2b79f5));
    UnitBelowHalf(Mix(0x6d2b79f6));
    DrawsDecide(Mulberry32(0));
    DrawsDecide(Mulberry32(1));
    TwoRowPools();
  }

  lemma SelectionIsQuotasAndFill(ordered: seq<Question>, o: Options, draws: Draws)
    requires DistinctIds(ordered) && ordered != []
    ensures var targets := TargetsFor(ordered, o.size);
            Selection(ordered, o, draws).Ok? <==>
            && Quotas(AllAfterPool(ordered), AbstentionPool(ordered), o, targets, draws).Ok?
            && Enough(Sorted(targets.Keys), 0, ordered, targets)
  {
    NoDuplicateIsDistinct(ordered, {});
    FillSucceedsExactly(ordered, AllAfterPool(ordered), AbstentionPool(ordered), o, TargetsFor(ordered, o.size), draws);
  }

  // ---------------------------------------------------------------- the published list

  /** The published list: ascending ids, `size` entries, each type counted at its target. */
  lemma ResultMeetsSpecification(questions: seq<Question>, o: Options, draws: Draws)
    requires Select(questions, o, draws).Ok?
    ensures questions != []
    ensures var r, targets := Select(questions, o, draws).value, TargetsFor(SortById(questions), o.size);
            && |r| == o.size && (forall i :: 0 <= i < |r| ==> r[i].question in questions)
            && AscendingChosen(r)
            && (forall t :: t in targets ==> CountOf(r, (q: Question) => q.questionType == t) == targets[t])
            && CountOf(r, (q: Question) => q.allSessionsAfterQuestionDate) >= o.allAfterMinimum
            && CountOf(r, (q: Question) => q.abstention) >= o.abstentionMinimum
  {
    var ordered := SortById(questions);
    SortPermutes(questions);
    var late, abstaining := SelectionMeetsSpecification(ordered, o, draws);
    var st, targets := Selection(ordered, o, draws).value, TargetsFor(ordered, o.size);
    forall t | t in targets ensures CountOf(ListOf(st), (q: Question) => q.questionType == t) == targets[t] {
      TypeCount(st, t);
    }
    QuotaCounts(st, o, late, abstaining);
    ListedFrom(st, ordered, targets);
    forall q | q in ordered ensures q in questions { assert q in multiset(ordered); }
  }

  function ListOf(st: State): seq<Chosen> { Values(st.selected, Sorted(st.selected.Keys)) }

  ghost predicate AscendingChosen(r: seq<Chosen>) {
    forall i, j :: 0 <= i < j < |r| ==> Less(r[i].question.caseId, r[j].question.caseId)
  }

  lemma TypeCount(st: State, t: string)
    ensures CountOf(ListOf(st), (q: Question) => q.questionType == t) == |OfType(st.selected, t)|
  {
    var ids, p := Sorted(st.selected.Keys), (q: Question) => q.questionType == t;
    SortedHasNoRepeats(st.selected.Keys);
    ValuesCount(st.selected, ids, p);
    assert Where(st.selected, ids, p) == OfType(st.selected, t);
  }

  lemma QuotaCounts(st: State, o: Options, late: set<string>, abstaining: set<string>)
    requires MeetsQuotas(st, o, late, abstaining)
    ensures CountOf(ListOf(st), (q: Question) => q.allSessionsAfterQuestionDate) >= o.allAfterMinimum
    ensures CountOf(ListOf(st), (q: Question) => q.abstention) >= o.abstentionMinimum
  {
    var ids := Sorted(st.selected.Keys);
    SortedHasNoRepeats(st.selected.Keys);
    ValuesCount(st.selected, ids, (q: Question) => q.allSessionsAfterQuestionDate);
    ValuesCount(st.selected, ids, (q: Question) => q.abstention);
    SubsetSize(late, Where(st.selected, ids, (q: Question) => q.allSessionsAfterQuestionDate));
    SubsetSize(abstaining, Where(st.selected, ids, (q: Question) => q.abstention));
  }

  lemma ListedFrom(st: State, ordered: seq<Question>, targets: Targets)
    requires Coherent(st, targets) && From(st, ordered)
    ensures |ListOf(st)| == |st.selected| && AscendingChosen(ListOf(st))
    ensures forall i :: 0 <= i < |ListOf(st)| ==> ListOf(st)[i].question in ordered
  {
    var ids := Sorted(st.selected.Keys);
    SortedAscends(st.selected.Keys);
    ValuesAt(st.selected, ids);
    forall i | 0 <= i < |ids| ensures ListOf(st)[i].question in ordered && ListOf(st)[i].question.caseId == ids[i] {
      assert ids[i] in st.selected;
    }
  }

  /** The order in which the rows were listed never matters, not even to which error is raised. */
  lemma OrderDoesNotMatter(a: seq<Question>, b: seq<Question>, o: Options, draws: Draws)
    requires multiset(a) == multiset(b)
    ensures Select(a, o, draws) == Select(b, o, draws)
  {
    SameSortedIds(a, b);
    var x, y := SortById(a), SortById(b);
    DuplicateFromIds(x, y, {});
    SortPermutes(a);
    SortPermutes(b);
    NoDuplicateIsDistinct(x, {});
    if FirstDuplicate(x, {}).None? { SameSorted(x, y); }
  }

  lemma SameSortedIds(a: seq<Question>, b: seq<Question>)
    requires multiset(a) == multiset(b)
    ensures Ids(SortById(a)) == Ids(SortById(b))
  {
    SortSorts(a);
    SortSorts(b);
    SortPermutes(a);
    SortPermutes(b);
    IdsOfPermutation(SortById(a), SortById(b));
    AscendingUnique(Ids(SortById(a)), Ids(SortById(b)));
  }

  lemma {:induction false} IdsOfPermutation(a: seq<Question>, b: seq<Question>)
    requires multiset(a) == multiset(b)
    ensures multiset(Ids(a)) == multiset(Ids(b))
    decreases |a|
  {
    assert |a| == |multiset(a)| == |multiset(b)| == |b|;
    if a != [] {
      assert a[0] in multiset(b);
      var i :| 0 <= i < |b| && b[i] == a[0];
      RemoveAt(a, 0);
      RemoveAt(b, i);
      assert multiset(Without(a, 0)) == multiset(a) - multiset{a[0]};
      assert multiset(Without(b, i)) == multiset(b) - multiset{a[0]};
      IdsOfPermutation(Without(a, 0), Without(b, i));
    }
  }

  function Without(s: seq<Question>, i: nat): (r: seq<Question>)
    requires i < |s|
    ensures |r| == |s| - 1
  {
    s[..i] + s[i + 1..]
  }

  lemma RemoveAt(s: seq<Question>, i: nat)
    requires i < |s|
    ensures multiset(s) == multiset(Without(s, i)) + multiset{s[i]}
    ensures multiset(Ids(s)) == multiset(Ids(Without(s, i))) + multiset{s[i].caseId}
  {
    assert s == s[..i] + [s[i]] + s[i + 1..];
    var ids := Ids(s);
    assert ids == ids[..i] + [ids[i]] + ids[i + 1..];
    assert Ids(Without(s, i)) == ids[..i] + ids[i + 1..];
  }

  lemma {:induction false} DuplicateFromIds(a: seq<Question>, b: seq<Question>, seen: set<string>)
    requires Ids(a) == Ids(b)
    ensures FirstDuplicate(a, seen) == FirstDuplicate(b, seen)
  {
    assert |a| == |Ids(a)| == |b|;
    if a != [] {
      assert Ids(a)[0] == a[0].caseId && Ids(b)[0] == b[0].caseId;
      assert Ids(a[1..]) == Ids(a)[1..] && Ids(b[1..]) == Ids(b)[1..];
      DuplicateFromIds(a[1..], b[1..], seen + {a[0].caseId});
    }
  }

  lemma SameSorted(a: seq<Question>, b: seq<Question>)
    requires DistinctIds(a) && multiset(a) == multiset(b) && Ids(a) == Ids(b)
    ensures a == b
  {
    assert |a| == |Ids(a)| == |b|;
    forall i | 0 <= i < |a| ensures a[i] == b[i] {
      assert b[i] in multiset(a);
      assert Ids(a)[i] == a[i].caseId && Ids(b)[i] == b[i].caseId;
      SameRow(a, a[i], b[i]);
    }
  }
}
