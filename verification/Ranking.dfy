/** Retrieval metrics over rankings whose slots may repeat ids or carry several. */
module Ranking {
  import opened Common

  /** The ids one slot of a ranking carries. */
  type Group = seq<string>

  /** A positive, non-increasing discount per rank slot. */
  type Discount = d: nat -> real |
    (forall i: nat :: d(i) > 0.0) && (forall i: nat, j: nat :: i <= j ==> d(j) <= d(i))
    witness i => 1.0

  // ---------------------------------------------------------------- unique ids

  function Keep(ids: seq<string>, id: string): seq<string> {
    if Trim(id) != "" && Trim(id) !in ids then ids + [Trim(id)] else ids
  }

  /** Trimmed, non-blank, first occurrences only. */
  function UniqueIds(ids: seq<string>): seq<string> {
    if ids == [] then [] else Keep(UniqueIds(ids[..|ids| - 1]), ids[|ids| - 1])
  }

  predicate Clean(id: string) { id != "" && Trim(id) == id }

  lemma {:induction false} UniqueIdsContents(ids: seq<string>)
    ensures NoRepeats(UniqueIds(ids))
    ensures forall x :: x in UniqueIds(ids) ==> Clean(x) && exists y :: y in ids && Trim(y) == x
    ensures forall y :: y in ids && Trim(y) != "" ==> Trim(y) in UniqueIds(ids)
  {
    if ids != [] {
      var init, last := ids[..|ids| - 1], ids[|ids| - 1];
      assert ids == init + [last];
      UniqueIdsContents(init);
      TrimIdempotent(last);
    }
  }

  /** On ids that are already clean, only repetitions go. */
  lemma UniqueCleanIds(ids: seq<string>)
    requires forall x :: x in ids ==> Clean(x)
    ensures forall x :: x in UniqueIds(ids) <==> x in ids
  {
    UniqueIdsContents(ids);
  }

  // ---------------------------------------------------------------- the two rankings

  /** Each result keeps only ids that no earlier result carried; a result left with none takes no slot. */
  function RankGroups(results: seq<seq<string>>): seq<Group> {
    if results == [] then []
    else
      var before := RankGroups(results[..|results| - 1]);
      var ids := NotIn(UniqueIds(results[|results| - 1]), Ids(before));
      if ids == [] then before else before + [ids]
  }

  function Ids(groups: seq<Group>): set<string> { set g, id | g in groups && id in g :: id }

  function NotIn(ids: seq<string>, seen: set<string>): (r: seq<string>)
    ensures forall x :: x in r <==> x in ids && x !in seen
  {
    if ids == [] then []
    else
      var rest, last := NotIn(ids[..|ids| - 1], seen), ids[|ids| - 1];
      assert ids == ids[..|ids| - 1] + [last];
      if last !in seen then rest + [last] else rest
  }

  /** Each id takes a slot of its own, and a result without ids burns one. */
  function Slots(ids: seq<string>): seq<Group> {
    if ids == [] then [[]] else Singletons(ids)
  }

  function Singletons(ids: seq<string>): seq<Group> { MapSeq((id: string) => [id], ids) }

  function Project(results: seq<seq<string>>): seq<Group> {
    if results == [] then []
    else Project(results[..|results| - 1]) + Slots(UniqueIds(results[|results| - 1]))
  }

  lemma IdsSnoc(groups: seq<Group>, g: Group)
    ensures Ids(groups + [g]) == Ids(groups) + (set id | id in g)
  {
    assert forall h :: h in groups + [g] <==> h in groups || h == g;
  }

  method RankResultIdGroups(results: seq<seq<string>>) returns (ranked: seq<Group>)
    ensures ranked == RankGroups(results)
  {
    var seen: set<string> := {};
    ranked := [];
    for i := 0 to |results|
      invariant ranked == RankGroups(results[..i]) && seen == Ids(ranked)
    {
      assert results[..i + 1][..i] == results[..i];
      var ids := NotIn(UniqueIds(results[i]), seen);
      if ids != [] {
        IdsSnoc(ranked, ids);
        seen := seen + (set id | id in ids);
        ranked := ranked + [ids];
      }
    }
    assert results[..|results|] == results;
  }

  method ProjectCanonicalRankedGroups(results: seq<seq<string>>) returns (groups: seq<Group>)
    ensures groups == Project(results)
  {
    groups := [];
    for i := 0 to |results|
      invariant groups == Project(results[..i])
    {
      assert results[..i + 1][..i] == results[..i];
      var ids := UniqueIds(results[i]);
      if ids == [] {
        groups := groups + [[]];
      } else {
        ghost var before := groups;
        for j := 0 to |ids|
          invariant groups == before + Singletons(ids[..j])
        {
          assert Singletons(ids[..j + 1]) == Singletons(ids[..j]) + [[ids[j]]];
          groups := groups + [[ids[j]]];
        }
        assert ids[..|ids|] == ids;
      }
    }
    assert results[..|results|] == results;
  }

  // ---------------------------------------------------------------- ids at k

  function Top(groups: seq<Group>, k: nat): seq<Group> { if k <= |groups| then groups[..k] else groups }

  function Flatten(groups: seq<Group>): seq<string> {
    if groups == [] then [] else Flatten(groups[..|groups| - 1]) + groups[|groups| - 1]
  }

  function IdsAtK(groups: seq<Group>, k: nat): seq<string> { UniqueIds(Flatten(Top(groups, k))) }

  ghost predicate CleanGroups(groups: seq<Group>) { forall i, id :: 0 <= i < |groups| && id in groups[i] ==> Clean(id) }

  lemma {:induction false} FlattenContents(groups: seq<Group>)
    ensures forall id :: id in Flatten(groups) <==> exists i :: 0 <= i < |groups| && id in groups[i]
  {
    if groups != [] { FlattenContents(groups[..|groups| - 1]); }
  }

  /** With clean groups, the ids at `k` are those of the first `k` slots. */
  lemma IdsAtKContents(groups: seq<Group>, k: nat)
    requires CleanGroups(groups)
    ensures forall id :: id in IdsAtK(groups, k) <==> exists i :: 0 <= i < |groups| && i < k && id in groups[i]
  {
    var top := Top(groups, k);
    FlattenContents(top);
    UniqueCleanIds(Flatten(top));
  }

  /** Every slot of the projection carries ids of a result no later than its own rank. */
  lemma {:induction false} ProjectSlot(results: seq<seq<string>>, i: nat)
    requires i < |Project(results)|
    ensures exists j :: 0 <= j < |results| && j <= i && forall id :: id in Project(results)[i] ==>
              id in UniqueIds(results[j])
    ensures |Project(results)| >= |results|
  {
    var n := |results| - 1;
    var before, slots := Project(results[..n]), Slots(UniqueIds(results[n]));
    ProjectLength(results[..n]);
    if i < |before| {
      ProjectSlot(results[..n], i);
      var j :| 0 <= j < n && j <= i && forall id :: id in before[i] ==> id in UniqueIds(results[..n][j]);
      assert results[..n][j] == results[j];
    } else {
      assert Project(results)[i] == slots[i - |before|];
      assert n <= i && forall id :: id in slots[i - |before|] ==> id in UniqueIds(results[n]);
    }
  }

  lemma {:induction false} ProjectLength(results: seq<seq<string>>)
    ensures |Project(results)| >= |results|
  {
    if results != [] { ProjectLength(results[..|results| - 1]); }
  }

  ghost predicate HasBy(groups: seq<Group>, j: nat, id: string) {
    exists g :: 0 <= g < |groups| && g <= j && id in groups[g]
  }

  lemma HasByExtends(before: seq<Group>, after: seq<Group>, i: nat, j: nat, id: string)
    requires HasBy(before, i, id) && before <= after && i <= j
    ensures HasBy(after, j, id)
  {
    var g :| 0 <= g < |before| && g <= i && id in before[g];
    assert after[g] == before[g];
  }

  /** The ids of the next result, once its group is in place, all sit in some group so far. */
  lemma NextGroupHas(before: seq<Group>, ids: seq<string>, n: nat, id: string)
    requires |before| <= n && id in ids
    ensures var novel := NotIn(ids, Ids(before)); HasBy(if novel == [] then before else before + [novel], n, id)
  {
    var novel := NotIn(ids, Ids(before));
    if id in novel {
      assert (before + [novel])[|before|] == novel;
    } else {
      var h :| h in before && id in h;
      var g :| 0 <= g < |before| && before[g] == h;
      assert HasBy(before, n, id);
      HasByExtends(before, before + [novel], n, n, id);
    }
  }

  lemma RankGroupsExtend(results: seq<seq<string>>)
    requires results != []
    ensures RankGroups(results[..|results| - 1]) <= RankGroups(results)
  {
  }

  /** Every id of a result is in a group no later than that result. */
  lemma {:induction false} GroupedBy(results: seq<seq<string>>, j: nat, id: string)
    requires j < |results| && id in UniqueIds(results[j])
    ensures HasBy(RankGroups(results), j, id)
  {
    var n: nat := |results| - 1;
    if j < n {
      assert results[..n][j] == results[j];
      GroupedBy(results[..n], j, id);
      RankGroupsExtend(results);
      HasByExtends(RankGroups(results[..n]), RankGroups(results), j, j, id);
    } else {
      LastResultGrouped(results, n, id);
    }
  }

  lemma LastResultGrouped(results: seq<seq<string>>, n: nat, id: string)
    requires |results| == n + 1 && id in UniqueIds(results[n])
    ensures HasBy(RankGroups(results), n, id)
  {
    GroupsLength(results[..n]);
    NextGroupHas(RankGroups(results[..n]), UniqueIds(results[n]), n, id);
  }

  lemma {:induction false} GroupsLength(results: seq<seq<string>>)
    ensures |RankGroups(results)| <= |results|
  {
    if results != [] { GroupsLength(results[..|results| - 1]); }
  }

  lemma {:induction false} ProjectIsClean(results: seq<seq<string>>)
    ensures CleanGroups(Project(results))
  {
    if results != [] {
      var n := |results| - 1;
      ProjectIsClean(results[..n]);
      UniqueIdsContents(results[n]);
      var before, slots := Project(results[..n]), Slots(UniqueIds(results[n]));
      forall i, id | 0 <= i < |before + slots| && id in (before + slots)[i] ensures Clean(id) {
        if i >= |before| { assert id in slots[i - |before|]; }
      }
    }
  }

  lemma {:induction false} RankGroupsAreClean(results: seq<seq<string>>)
    ensures CleanGroups(RankGroups(results))
  {
    if results != [] {
      RankGroupsAreClean(results[..|results| - 1]);
      UniqueIdsContents(results[|results| - 1]);
    }
  }

  /**
   * Repeated and unattributable slots only deflate: at every k the projection finds no id the
   * grouped ranking misses.
   */
  lemma ProjectionOnlyDeflates(results: seq<seq<string>>, k: nat, id: string)
    requires id in IdsAtK(Project(results), k)
    ensures id in IdsAtK(RankGroups(results), k)
  {
    ProjectIsClean(results);
    RankGroupsAreClean(results);
    IdsAtKContents(Project(results), k);
    IdsAtKContents(RankGroups(results), k);
    var i :| 0 <= i < |Project(results)| && i < k && id in Project(results)[i];
    ProjectSlot(results, i);
    var j :| 0 <= j < |results| && j <= i && forall x :: x in Project(results)[i] ==> x in UniqueIds(results[j]);
    GroupedBy(results, j, id);
  }

  // ---------------------------------------------------------------- gain

  /** The slot brings a relevant id that no earlier slot brought. */
  ghost predicate Fresh(groups: seq<Group>, relevant: set<string>, i: nat)
    requires i < |groups|
  {
    exists id :: id in groups[i] && id in relevant && id !in Ids(groups[..i])
  }

  /** Gain once per relevant id, discounted by slot. */
  ghost function Dcg(groups: seq<Group>, relevant: set<string>, d: Discount, n: nat): real
    requires n <= |groups|
  {
    if n == 0 then 0.0
    else Dcg(groups, relevant, d, n - 1) + (if Fresh(groups, relevant, n - 1) then d(n - 1) else 0.0)
  }

  function Prefix(d: Discount, n: nat): real { if n == 0 then 0.0 else Prefix(d, n - 1) + d(n - 1) }

  /** The best any ranking can do with that many relevant ids in `k` slots. */
  function IdealDcg(relevantCount: nat, k: nat, d: Discount): real { Prefix(d, Least(relevantCount, k)) }

  function Picked(ids: seq<string>, relevant: set<string>, credited: set<string>): set<string> {
    set id | id in ids && id in relevant && id !in credited
  }

  lemma FreshIsPicked(groups: seq<Group>, relevant: set<string>, i: nat, credited: set<string>)
    requires i < |groups| && credited == Ids(groups[..i]) * relevant
    ensures Fresh(groups, relevant, i) <==> Picked(groups[i], relevant, credited) != {}
    ensures Ids(groups[..i + 1]) * relevant == credited + Picked(groups[i], relevant, credited)
  {
    assert groups[..i + 1] == groups[..i] + [groups[i]];
    IdsSnoc(groups[..i], groups[i]);
    if Fresh(groups, relevant, i) {
      var id :| id in groups[i] && id in relevant && id !in Ids(groups[..i]);
      assert id in Picked(groups[i], relevant, credited);
    }
    if Picked(groups[i], relevant, credited) != {} {
      var id :| id in Picked(groups[i], relevant, credited);
      assert id in groups[i] && id in relevant && id !in Ids(groups[..i]);
    }
  }

  method OfficialDcgAtK(groups: seq<Group>, relevant: set<string>, k: nat, d: Discount) returns (score: real)
    ensures score == Dcg(groups, relevant, d, Least(k, |groups|))
  {
    score := 0.0;
    var credited: set<string> := {};
    assert groups[..0] == [];
    for index := 0 to Least(k, |groups|)
      invariant credited == Ids(groups[..index]) * relevant
      invariant score == Dcg(groups, relevant, d, index)
    {
      FreshIsPicked(groups, relevant, index, credited);
      var novel := Picked(groups[index], relevant, credited);
      if novel != {} {
        credited := credited + novel;
        score := score + d(index);
      }
    }
  }

  method OfficialIdealDcg(relevantCount: nat, k: nat, d: Discount) returns (score: real)
    ensures score == IdealDcg(relevantCount, k, d)
  {
    score := 0.0;
    for index := 0 to Least(relevantCount, k)
      invariant score == Prefix(d, index)
    {
      score := score + d(index);
    }
  }

  // ---------------------------------------------------------------- the normalised gain

  lemma {:induction false} PrefixGrows(d: Discount, m: nat, n: nat)
    requires m <= n
    ensures 0.0 <= Prefix(d, m) <= Prefix(d, n)
    ensures 0 < m ==> Prefix(d, m) > 0.0
    decreases n
  {
    if m < n {
      PrefixGrows(d, m, n - 1);
    } else if m > 0 {
      PrefixGrows(d, m - 1, m - 1);
    }
  }

  /** After `n` slots the score is at most that of `f` leading slots, and `f` ids were credited. */
  ghost predicate Bounds(groups: seq<Group>, relevant: set<string>, d: Discount, n: nat, f: nat)
    requires n <= |groups|
  {
    f <= n && f <= |Ids(groups[..n]) * relevant| && 0.0 <= Dcg(groups, relevant, d, n) <= Prefix(d, f)
  }

  lemma BoundsNext(groups: seq<Group>, relevant: set<string>, d: Discount, n: nat, f: nat)
    requires n < |groups| && Bounds(groups, relevant, d, n, f)
    ensures Bounds(groups, relevant, d, n + 1, if Fresh(groups, relevant, n) then f + 1 else f)
  {
    CreditedNext(groups, relevant, n);
    assert d(n) <= d(f);
  }

  /** A fresh slot credits at least one id more. */
  lemma CreditedNext(groups: seq<Group>, relevant: set<string>, n: nat)
    requires n < |groups|
    ensures var before, after := Ids(groups[..n]) * relevant, Ids(groups[..n + 1]) * relevant;
            |before| + (if Fresh(groups, relevant, n) then 1 else 0) <= |after|
  {
    var credited := Ids(groups[..n]) * relevant;
    FreshIsPicked(groups, relevant, n, credited);
    var picked := Picked(groups[n], relevant, credited);
    assert credited !! picked;
    assert |credited + picked| == |credited| + |picked|;
  }

  lemma {:induction false} DcgBounded(groups: seq<Group>, relevant: set<string>, d: Discount, n: nat) returns (f: nat)
    requires n <= |groups|
    ensures Bounds(groups, relevant, d, n, f)
  {
    if n == 0 {
      f := 0;
    } else {
      f := DcgBounded(groups, relevant, d, n - 1);
      BoundsNext(groups, relevant, d, n - 1, f);
      f := if Fresh(groups, relevant, n - 1) then f + 1 else f;
    }
  }

  /** No ranking, however it repeats or bundles ids, beats the ideal. */
  lemma DcgAtMostIdeal(groups: seq<Group>, relevant: set<string>, d: Discount, k: nat)
    ensures 0.0 <= Dcg(groups, relevant, d, Least(k, |groups|)) <= IdealDcg(|relevant|, k, d)
  {
    var n := Least(k, |groups|);
    var f := DcgBounded(groups, relevant, d, n);
    SubsetSize(Ids(groups[..n]) * relevant, relevant);
    PrefixGrows(d, f, Least(|relevant|, k));
  }

  lemma {:induction false} DcgOfFreshSlots(groups: seq<Group>, relevant: set<string>, d: Discount, m: nat, n: nat)
    requires m <= n <= |groups| && forall i :: 0 <= i < m ==> Fresh(groups, relevant, i)
    ensures Dcg(groups, relevant, d, n) >= Prefix(d, m)
    decreases n
  {
    if n > m { DcgOfFreshSlots(groups, relevant, d, m, n - 1); }
    else if n > 0 { DcgOfFreshSlots(groups, relevant, d, m - 1, n - 1); }
  }

  function Ndcg(dcg: real, idcg: real): real { if idcg > 0.0 then dcg / idcg else 0.0 }

  lemma RatioInUnit(a: real, b: real)
    requires 0.0 <= a <= b && b > 0.0
    ensures 0.0 <= a / b <= 1.0 && (a == b ==> a / b == 1.0)
  {
  }

  /** Official nDCG is a number in [0, 1] ... */
  lemma NdcgInUnitInterval(groups: seq<Group>, relevant: set<string>, d: Discount, k: nat)
    ensures 0.0 <= Ndcg(Dcg(groups, relevant, d, Least(k, |groups|)), IdealDcg(|relevant|, k, d)) <= 1.0
  {
    DcgAtMostIdeal(groups, relevant, d, k);
    var dcg, idcg := Dcg(groups, relevant, d, Least(k, |groups|)), IdealDcg(|relevant|, k, d);
    if idcg > 0.0 { RatioInUnit(dcg, idcg); }
  }

  /** ... and 1 when the leading slots each bring another relevant id. */
  lemma NdcgPerfect(groups: seq<Group>, relevant: set<string>, d: Discount, k: nat)
    requires relevant != {} && k > 0
    requires var m := Least(|relevant|, k); m <= |groups| && forall i :: 0 <= i < m ==> Fresh(groups, relevant, i)
    ensures Ndcg(Dcg(groups, relevant, d, Least(k, |groups|)), IdealDcg(|relevant|, k, d)) == 1.0
  {
    var m := Least(|relevant|, k);
    DcgAtMostIdeal(groups, relevant, d, k);
    DcgOfFreshSlots(groups, relevant, d, m, Least(k, |groups|));
    PrefixGrows(d, m, m);
    RatioInUnit(Dcg(groups, relevant, d, Least(k, |groups|)), IdealDcg(|relevant|, k, d));
  }

  // ---------------------------------------------------------------- the internal metric

  predicate Touches(group: Group, relevant: set<string>) { exists id :: id in group && id in relevant }

  /** Gain for every slot with a relevant id, credited or not. */
  function UncreditedDcg(groups: seq<Group>, relevant: set<string>, d: Discount, n: nat): real
    requires n <= |groups|
  {
    if n == 0 then 0.0
    else UncreditedDcg(groups, relevant, d, n - 1) + (if Touches(groups[n - 1], relevant) then d(n - 1) else 0.0)
  }

  method DcgAtK(groups: seq<Group>, relevant: set<string>, k: nat, d: Discount) returns (score: real)
    ensures score == UncreditedDcg(groups, relevant, d, Least(k, |groups|))
  {
    score := 0.0;
    for index := 0 to Least(k, |groups|)
      invariant score == UncreditedDcg(groups, relevant, d, index)
    {
      if Touches(groups[index], relevant) { score := score + d(index); }
    }
  }

  ghost predicate DisjointGroups(groups: seq<Group>) {
    forall i, id :: 0 <= i < |groups| && id in groups[i] ==> id !in Ids(groups[..i])
  }

  lemma {:induction false} RankGroupsAreDisjoint(results: seq<seq<string>>)
    ensures DisjointGroups(RankGroups(results))
  {
    if results != [] {
      var n := |results| - 1;
      RankGroupsAreDisjoint(results[..n]);
      var before, groups := RankGroups(results[..n]), RankGroups(results);
      forall i, id | 0 <= i < |groups| && id in groups[i] ensures id !in Ids(groups[..i]) {
        if i < |before| { assert groups[..i] == before[..i]; } else { assert groups[..i] == before; }
      }
    }
  }

  lemma {:induction false} UncreditedIsCredited(groups: seq<Group>, relevant: set<string>, d: Discount, n: nat)
    requires DisjointGroups(groups) && n <= |groups|
    ensures UncreditedDcg(groups, relevant, d, n) == Dcg(groups, relevant, d, n)
  {
    if n > 0 {
      UncreditedIsCredited(groups, relevant, d, n - 1);
      if Touches(groups[n - 1], relevant) {
        var id :| id in groups[n - 1] && id in relevant;
        assert Fresh(groups, relevant, n - 1);
      }
    }
  }

  /** On the grouped ranking the internal metric needs no credit set: it too stays in [0, 1]. */
  lemma InternalNdcgInUnitInterval(results: seq<seq<string>>, relevant: set<string>, d: Discount, k: nat)
    ensures var groups := RankGroups(results);
            0.0 <= Ndcg(UncreditedDcg(groups, relevant, d, Least(k, |groups|)), IdealDcg(|relevant|, k, d)) <= 1.0
  {
    var groups := RankGroups(results);
    RankGroupsAreDisjoint(results);
    UncreditedIsCredited(groups, relevant, d, Least(k, |groups|));
    NdcgInUnitInterval(groups, relevant, d, k);
  }

  lemma ProjectTwice(id: string)
    requires Clean(id)
    ensures Project([[id], [id]]) == [[id], [id]]
  {
    assert [id][..0] == [] && UniqueIds([id]) == [id];
    assert [[id]][..0] == [] && Project([[id]]) == [[id]];
    assert [[id], [id]][..1] == [[id]];
  }

  /** On the projection it would not: one attributed id in two slots already exceeds the ideal. */
  lemma UncreditedProjectionExceedsIdeal(d: Discount, k: nat, id: string)
    requires k >= 2 && Clean(id)
    ensures var groups := Project([[id], [id]]);
            UncreditedDcg(groups, {id}, d, Least(k, |groups|)) > IdealDcg(|{id}|, k, d)
  {
    ProjectTwice(id);
    var groups := [[id], [id]];
    assert Touches(groups[0], {id}) && Touches(groups[1], {id});
    assert UncreditedDcg(groups, {id}, d, 2) == UncreditedDcg(groups, {id}, d, 1) + d(1);
    assert UncreditedDcg(groups, {id}, d, 1) == UncreditedDcg(groups, {id}, d, 0) + d(0);
    assert Prefix(d, 1) == Prefix(d, 0) + d(0);
  }

  // ---------------------------------------------------------------- recall

  predicate RecallAny(groups: seq<Group>, relevant: set<string>, k: nat) {
    exists id :: id in relevant && id in IdsAtK(groups, k)
  }

  predicate RecallAll(groups: seq<Group>, relevant: set<string>, k: nat) {
    forall id :: id in relevant ==> id in IdsAtK(groups, k)
  }

  datatype AtK = AtK(recallAny: bool, recallAll: bool, ndcgAny: real)

  ghost function OfficialAtK(groups: seq<Group>, relevant: set<string>, d: Discount, k: nat): AtK {
    AtK(RecallAny(groups, relevant, k), RecallAll(groups, relevant, k),
        Ndcg(Dcg(groups, relevant, d, Least(k, |groups|)), IdealDcg(|relevant|, k, d)))
  }

  /** One cutoff of the official evaluation; no metrics at all without a relevant id. */
  method EvaluateOfficialRetrieval(
    groups: seq<Group>, relevantIds: seq<string>, d: Discount, k: nat) returns (r: Option<AtK>)
    ensures var relevant := set id | id in UniqueIds(relevantIds);
            r == if relevant == {} then None else Some(OfficialAtK(groups, relevant, d, k))
  {
    var relevant := set id | id in UniqueIds(relevantIds);
    if |relevant| == 0 { return None; }
    var recalled := IdsAtK(groups, k);
    var idcg := OfficialIdealDcg(|relevant|, k, d);
    var dcg := OfficialDcgAtK(groups, relevant, k, d);
    return Some(AtK(exists id :: id in relevant && id in recalled,
                    forall id :: id in relevant ==> id in recalled,
                    if idcg > 0.0 then dcg / idcg else 0.0));
  }

  /** Recall on the shipped projection never exceeds recall on the grouped ranking. */
  lemma ProjectedRecallIsLower(results: seq<seq<string>>, relevant: set<string>, k: nat)
    ensures RecallAny(Project(results), relevant, k) ==> RecallAny(RankGroups(results), relevant, k)
    ensures RecallAll(Project(results), relevant, k) ==> RecallAll(RankGroups(results), relevant, k)
  {
    forall id | id in IdsAtK(Project(results), k) ensures id in IdsAtK(RankGroups(results), k) {
      ProjectionOnlyDeflates(results, k, id);
    }
  }

  lemma IdsAtKGrow(groups: seq<Group>, j: nat, k: nat)
    requires CleanGroups(groups) && j <= k
    ensures forall id :: id in IdsAtK(groups, j) ==> id in IdsAtK(groups, k)
  {
    IdsAtKContents(groups, j);
    IdsAtKContents(groups, k);
  }

  /** Recall only grows with k, and with anything relevant, recalling all is recalling some. */
  lemma RecallMonotone(groups: seq<Group>, relevant: set<string>, j: nat, k: nat)
    requires CleanGroups(groups) && j <= k
    ensures RecallAny(groups, relevant, j) ==> RecallAny(groups, relevant, k)
    ensures RecallAll(groups, relevant, j) ==> RecallAll(groups, relevant, k)
    ensures relevant != {} && RecallAll(groups, relevant, k) ==> RecallAny(groups, relevant, k)
  {
    IdsAtKGrow(groups, j, k);
  }

  /** The share of relevant ids among the first k is at most 1: each is counted once. */
  lemma RecallShareBounded(groups: seq<Group>, relevant: set<string>, k: nat)
    ensures |NotIn(IdsAtK(groups, k), (set id | id in IdsAtK(groups, k)) - relevant)| <= |relevant|
  {
    var top := IdsAtK(groups, k);
    UniqueIdsContents(Flatten(Top(groups, k)));
    NotInDistinct(top, (set id | id in top) - relevant);
    DistinctSize(NotIn(top, (set id | id in top) - relevant), relevant);
  }

  lemma {:induction false} NotInDistinct(ids: seq<string>, seen: set<string>)
    requires NoRepeats(ids)
    ensures NoRepeats(NotIn(ids, seen))
  {
    if ids != [] {
      NotInDistinct(ids[..|ids| - 1], seen);
      var rest := NotIn(ids[..|ids| - 1], seen);
      forall i | 0 <= i < |rest| ensures rest[i] != ids[|ids| - 1] { assert rest[i] in ids[..|ids| - 1]; }
    }
  }

  lemma {:induction false} DistinctSize(ids: seq<string>, bound: set<string>)
    requires NoRepeats(ids) && forall id :: id in ids ==> id in bound
    ensures |ids| <= |bound|
  {
    if ids != [] {
      var n := |ids| - 1;
      DistinctSize(ids[..n], bound - {ids[n]});
    }
  }
}
