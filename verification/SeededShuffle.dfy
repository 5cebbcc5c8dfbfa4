/** The seeded shuffle and the orderings under it. */
module SeededShuffle {
  import opened Common

  datatype Question = Question(caseId: string, questionType: string, abstention: bool,
      allSessionsAfterQuestionDate: bool)

  // ---------------------------------------------------------------- the random stream

  /** A stream of draws from the half-open unit interval. */
  type Draws = d: nat -> real | forall n :: 0.0 <= d(n) < 1.0 witness n => 0.0

  const GOLDEN: bv32 := 0x6d2b79f5

  function Mix(state: bv32): bv32 {
    var t := (state ^ (state >> 15)) * (state | 1);
    var u := t ^ (t + (t ^ (t >> 7)) * (t | 61));
    u ^ (u >> 14)
  }

  function StateAfter(seed: bv32, steps: nat): bv32 {
    if steps == 0 then seed else StateAfter(seed, steps - 1) + GOLDEN
  }

  function Unit(x: bv32): (r: real)
    ensures 0.0 <= r < 1.0
  {
    x as int as real / 4294967296.0
  }

  lemma UnitBelowHalf(x: bv32)
    ensures x < 0x80000000 <==> Unit(x) < 0.5
  {
  }

  function Mulberry32(seed: bv32): Draws {
    (n: nat) => Unit(Mix(StateAfter(seed, n + 1)))
  }

  // ---------------------------------------------------------------- the shuffle

  function SwapIndex(draw: real, index: nat): (k: nat)
    requires 0.0 <= draw < 1.0
    ensures k <= index
  {
    ScaleBounds(draw, (index + 1) as real);
    (draw * (index + 1) as real).Floor
  }

  lemma ScaleBounds(draw: real, n: real)
    requires 0.0 <= draw < 1.0 && n > 0.0
    ensures 0.0 <= draw * n < n
  {
    assert n - draw * n == (1.0 - draw) * n;
    assert (1.0 - draw) * n > 0.0;
  }

  function Swapped<T>(s: seq<T>, i: nat, j: nat): seq<T>
    requires i < |s| && j < |s|
  {
    s[i := s[j]][j := s[i]]
  }

  /** The shuffle of positions `0..index`, drawing from position `at` of the stream. */
  function ShuffleDown<T>(s: seq<T>, index: nat, draws: Draws, at: nat): (r: seq<T>)
    requires index < |s| || (index == 0 && s == [])
    ensures |r| == |s|
    decreases index
  {
    if index == 0 then s
    else ShuffleDown(Swapped(s, index, SwapIndex(draws(at), index)), index - 1, draws, at + 1)
  }

  function Shuffled<T>(s: seq<T>, draws: Draws, at: nat): seq<T> {
    ShuffleDown(s, if s == [] then 0 else |s| - 1, draws, at)
  }

  /** How far one shuffle advances the stream. */
  function DrawsUsed<T>(s: seq<T>): nat { if s == [] then 0 else |s| - 1 }

  lemma SwappedPermutes<T>(s: seq<T>, i: nat, j: nat)
    requires i < |s| && j < |s|
    ensures multiset(Swapped(s, i, j)) == multiset(s)
  {
  }

  /** Whatever the draws, shuffling only rearranges. */
  lemma {:induction false} ShufflePermutes<T>(s: seq<T>, index: nat, draws: Draws, at: nat)
    requires index < |s| || (index == 0 && s == [])
    ensures multiset(ShuffleDown(s, index, draws, at)) == multiset(s)
    decreases index
  {
    if index > 0 {
      var j := SwapIndex(draws(at), index);
      SwappedPermutes(s, index, j);
      ShufflePermutes(Swapped(s, index, j), index - 1, draws, at + 1);
    }
  }

  lemma {:induction false} ShuffleKeepsDistinct(s: seq<Question>, index: nat, draws: Draws, at: nat)
    requires index < |s| || (index == 0 && s == [])
    requires DistinctIds(s)
    ensures DistinctIds(ShuffleDown(s, index, draws, at))
    decreases index
  {
    if index > 0 {
      ShuffleKeepsDistinct(Swapped(s, index, SwapIndex(draws(at), index)), index - 1, draws, at + 1);
    }
  }

  // ---------------------------------------------------------------- sorting and filtering

  predicate DistinctIds(s: seq<Question>) {
    forall i, j :: 0 <= i < j < |s| ==> s[i].caseId != s[j].caseId
  }

  function Insert(s: seq<Question>, q: Question): seq<Question> {
    if s != [] && Less(q.caseId, s[|s| - 1].caseId) then Insert(s[..|s| - 1], q) + [s[|s| - 1]] else s + [q]
  }

  /** The stable sort by case id. */
  function SortById(s: seq<Question>): seq<Question> {
    if s == [] then [] else Insert(SortById(s[..|s| - 1]), s[|s| - 1])
  }

  ghost predicate Ascending(ids: seq<string>) {
    forall i, j :: 0 <= i < j < |ids| ==> !Less(ids[j], ids[i])
  }

  ghost predicate SortedById(s: seq<Question>) {
    forall i, j :: 0 <= i < j < |s| ==> !Less(s[j].caseId, s[i].caseId)
  }

  function Ids(s: seq<Question>): seq<string> { MapSeq((q: Question) => q.caseId, s) }

  lemma {:induction false} InsertAdds(s: seq<Question>, q: Question)
    ensures multiset(Insert(s, q)) == multiset(s) + multiset{q}
  {
    if s != [] && Less(q.caseId, s[|s| - 1].caseId) {
      InsertAdds(s[..|s| - 1], q);
      assert s == s[..|s| - 1] + [s[|s| - 1]];
    }
  }

  lemma InsertMembers(s: seq<Question>, q: Question, i: nat)
    requires i < |Insert(s, q)|
    ensures Insert(s, q)[i] == q || Insert(s, q)[i] in s
  {
    InsertAdds(s, q);
    assert Insert(s, q)[i] in multiset(Insert(s, q));
  }

  lemma {:induction false} InsertSorts(s: seq<Question>, q: Question)
    requires SortedById(s)
    ensures SortedById(Insert(s, q))
  {
    if s != [] && Less(q.caseId, s[|s| - 1].caseId) {
      var init, last := s[..|s| - 1], s[|s| - 1];
      InsertSorts(init, q);
      forall i | 0 <= i < |Insert(init, q)| ensures !Less(last.caseId, Insert(init, q)[i].caseId) {
        InsertMembers(init, q, i);
        LessAsymmetric(q.caseId, last.caseId);
      }
    } else if s != [] {
      forall i | 0 <= i < |s| ensures !Less(q.caseId, s[i].caseId) {
        NotLessTransitive(s[i].caseId, s[|s| - 1].caseId, q.caseId);
      }
    }
  }

  lemma NotLessTransitive(a: string, b: string, c: string)
    requires a == b || !Less(b, a)
    requires !Less(c, b)
    ensures !Less(c, a)
  {
    if Less(c, a) {
      LessTotal(a, b);
      LessTotal(b, c);
      if a != b { LessTransitive(c, a, b); }
    }
  }

  lemma {:induction false} SortSorts(s: seq<Question>)
    ensures SortedById(SortById(s))
  {
    if s != [] {
      SortSorts(s[..|s| - 1]);
      InsertSorts(SortById(s[..|s| - 1]), s[|s| - 1]);
    }
  }

  lemma BagOfInit(s: seq<Question>)
    requires s != []
    ensures multiset(s) == multiset(s[..|s| - 1]) + multiset{s[|s| - 1]}
  {
    assert s == s[..|s| - 1] + [s[|s| - 1]];
  }

  lemma {:induction false} SortPermutes(s: seq<Question>)
    ensures multiset(SortById(s)) == multiset(s)
  {
    if s != [] {
      SortPermutes(s[..|s| - 1]);
      InsertAdds(SortById(s[..|s| - 1]), s[|s| - 1]);
      BagOfInit(s);
    }
  }

  function Filter(s: seq<Question>, p: Question -> bool): (r: seq<Question>)
    ensures forall q :: q in r <==> q in s && p(q)
  {
    if s == [] then []
    else
      var rest, last := Filter(s[..|s| - 1], p), s[|s| - 1];
      assert s == s[..|s| - 1] + [last];
      if p(last) then rest + [last] else rest
  }

  lemma {:induction false} FilterKeepsDistinct(s: seq<Question>, p: Question -> bool)
    requires DistinctIds(s)
    ensures DistinctIds(Filter(s, p))
  {
    if s != [] {
      FilterKeepsDistinct(s[..|s| - 1], p);
      assert forall q {:trigger q.caseId} :: q in Filter(s[..|s| - 1], p) ==> q in s[..|s| - 1];
    }
  }

  /** Two ascending lists of the same strings are one list. */
  lemma {:induction false} AscendingUnique(a: seq<string>, b: seq<string>)
    requires Ascending(a) && Ascending(b) && multiset(a) == multiset(b)
    ensures a == b
  {
    assert |a| == |multiset(a)| == |b|;
    if a != [] {
      HeadIsLeast(a, b);
      HeadIsLeast(b, a);
      LessTotal(a[0], b[0]);
      BagOfTail(a);
      BagOfTail(b);
      AscendingUnique(a[1..], b[1..]);
    }
  }

  lemma BagOfTail(a: seq<string>)
    requires a != []
    ensures a == [a[0]] + a[1..] && multiset(a[1..]) == multiset(a) - multiset{a[0]}
  {
    assert a == [a[0]] + a[1..];
  }

  lemma HeadIsLeast(a: seq<string>, b: seq<string>)
    requires Ascending(a) && a != [] && b != [] && multiset(a) == multiset(b)
    ensures !Less(b[0], a[0])
  {
    assert b[0] in multiset(a);
    var i :| 0 <= i < |a| && a[i] == b[0];
    LessIrreflexive(a[0]);
  }

  method SwapElements<T>(a: array<T>, i: nat, j: nat)
    requires i < a.Length && j < a.Length
    modifies a
    ensures a[..] == Swapped(old(a[..]), i, j)
  {
    var current := a[i];
    a[i] := a[j];
    a[j] := current;
  }

  /** The random stream as the selection uses it: one position, advanced by every draw. */
  class Stream {
    const draws: Draws
    var at: nat

    constructor (draws: Draws)
      ensures this.draws == draws && at == 0
    {
      this.draws, this.at := draws, 0;
    }

    /** The shuffle in place, from the last position down. */
    method ShuffleInPlace(copy: array<Question>)
      requires copy.Length > 0
      modifies copy, this`at
      ensures copy[..] == Shuffled(old(copy[..]), draws, old(at)) && at == old(at) + DrawsUsed(old(copy[..]))
    {
      ghost var items := copy[..];
      var index: nat := copy.Length - 1;
      while index > 0
        invariant index < copy.Length
        invariant ShuffleDown(copy[..], index, draws, at) == Shuffled(items, draws, old(at))
        invariant at + index == old(at) + DrawsUsed(items)
      {
        var swap := SwapIndex(draws(at), index);
        SwapElements(copy, index, swap);
        at := at + 1;
        index := index - 1;
      }
    }

    method SeededShuffle(items: seq<Question>) returns (shuffled: seq<Question>)
      modifies this`at
      ensures shuffled == Shuffled(items, draws, old(at)) && at == old(at) + DrawsUsed(items)
    {
      if items == [] { return []; }
      var copy := new Question[|items|](i requires 0 <= i < |items| => items[i]);
      assert copy[..] == items;
      ShuffleInPlace(copy);
      shuffled := copy[..];
    }
  }
}
