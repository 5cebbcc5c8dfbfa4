/** Small shared vocabulary: optional values, the code-unit order on strings and sorted sets. */
module Common {

  datatype Option<+T> = None | Some(value: T)

  function Get<K, V>(m: map<K, V>, k: K): Option<V> {
    if k in m then Some(m[k]) else None
  }

  function MapSeq<A, B>(f: A -> B, s: seq<A>): (r: seq<B>)
    ensures |r| == |s|
    ensures forall i :: 0 <= i < |s| ==> r[i] == f(s[i])
  {
    seq(|s|, i requires 0 <= i < |s| => f(s[i]))
  }

  type Hash = string -> string

  ghost predicate Injective(hash: Hash) {
    forall x, y :: hash(x) == hash(y) ==> x == y
  }

  function Least(a: nat, b: nat): nat { if a <= b then a else b }

  predicate NoRepeats(ids: seq<string>) { forall i, j :: 0 <= i < j < |ids| ==> ids[i] != ids[j] }

  function Members(ids: seq<string>): set<string> { set id | id in ids }

  /** No two of these ids are equal, blank ones aside. */
  ghost predicate NonBlankDistinct(ids: seq<string>) {
    forall i, j :: 0 <= i < j < |ids| && ids[i] != "" ==> ids[i] != ids[j]
  }

  /** The first `k` ids are distinct, and `seen` holds them. */
  ghost predicate IdsSeen(ids: seq<string>, seen: set<string>, k: nat)
    requires k <= |ids|
  {
    && (forall i :: 0 <= i < k && ids[i] != "" ==> ids[i] in seen)
    && (forall id :: id in seen ==> id != "" && id in ids[..k])
    && NonBlankDistinct(ids[..k])
  }

  lemma NextIdSeen(ids: seq<string>, seen: set<string>, k: nat)
    requires k < |ids| && IdsSeen(ids, seen, k)
    ensures if ids[k] == "" then IdsSeen(ids, seen, k + 1)
            else if ids[k] in seen then !NonBlankDistinct(ids)
            else IdsSeen(ids, seen + {ids[k]}, k + 1)
  {
    assert ids[..k + 1] == ids[..k] + [ids[k]];
    if ids[k] != "" && ids[k] in seen {
      var i :| 0 <= i < k && ids[..k][i] == ids[k];
      assert ids[i] == ids[k];
    }
  }

  lemma AllIdsSeen(ids: seq<string>, seen: set<string>)
    requires IdsSeen(ids, seen, |ids|)
    ensures NonBlankDistinct(ids)
  {
    assert ids[..|ids|] == ids;
  }

  lemma SubsetSize<T>(a: set<T>, b: set<T>)
    requires a <= b
    ensures |a| <= |b|
  {
    assert b == a + (b - a);
  }

  predicate Includes(text: string, part: string) {
    |part| <= |text| && (text[..|part|] == part || (text != "" && Includes(text[1..], part)))
  }

  predicate EndsWith(s: string, suffix: string) {
    |suffix| <= |s| && s[|s| - |suffix|..] == suffix
  }

  /** The order of JavaScript's `<` on strings: lexicographic by character code. */
  predicate Less(a: string, b: string) {
    |b| > 0 &&
    (|a| == 0 || a[0] < b[0] || (a[0] == b[0] && Less(a[1..], b[1..])))
  }

  lemma {:induction false} LessIrreflexive(a: string)
    ensures !Less(a, a)
  {
    if |a| > 0 { LessIrreflexive(a[1..]); }
  }

  lemma {:induction false} LessTransitive(a: string, b: string, c: string)
    requires Less(a, b) && Less(b, c)
    ensures Less(a, c)
  {
    if |a| > 0 && a[0] == b[0] && b[0] == c[0] {
      LessTransitive(a[1..], b[1..], c[1..]);
    }
  }

  lemma {:induction false} LessTotal(a: string, b: string)
    ensures a == b || Less(a, b) || Less(b, a)
  {
    if |a| > 0 && |b| > 0 && a[0] == b[0] {
      LessTotal(a[1..], b[1..]);
      assert a == [a[0]] + a[1..] && b == [b[0]] + b[1..];
    }
  }

  lemma {:induction false} LessAsymmetric(a: string, b: string)
    requires Less(a, b)
    ensures a != b && !Less(b, a)
  {
    LessIrreflexive(a);
    if Less(b, a) { LessTransitive(a, b, a); }
  }

  ghost predicate StrictlySorted(s: seq<string>) {
    forall i, j :: 0 <= i < j < |s| ==> Less(s[i], s[j])
  }

  predicate IsMinimum(s: set<string>, m: string) {
    m in s && forall x :: x in s && x != m ==> Less(m, x)
  }

  lemma {:induction false} MinimumExists(s: set<string>)
    requires s != {}
    ensures exists m :: IsMinimum(s, m)
  {
    var x :| x in s;
    if s == {x} {
      assert IsMinimum(s, x);
    } else {
      assert s - {x} == {} ==> s == {x};
      MinimumExists(s - {x});
      var y :| IsMinimum(s - {x}, y);
      LessTotal(x, y);
      if Less(x, y) {
        forall z | z in s && z != x ensures Less(x, z) {
          if z != y { LessTransitive(x, y, z); }
        }
        assert IsMinimum(s, x);
      } else {
        assert IsMinimum(s, y);
      }
    }
  }

  lemma MinimumUnique(s: set<string>, m: string, n: string)
    requires IsMinimum(s, m) && IsMinimum(s, n)
    ensures m == n
  {
    if m != n { LessAsymmetric(m, n); }
  }

  function Minimum(s: set<string>): (m: string)
    requires s != {}
    ensures IsMinimum(s, m)
  {
    MinimumExists(s);
    assert forall a, b | IsMinimum(s, a) && IsMinimum(s, b) :: a == b by {
      forall a, b | IsMinimum(s, a) && IsMinimum(s, b) ensures a == b { MinimumUnique(s, a, b); }
    }
    var m :| m in s && IsMinimum(s, m);
    m
  }

  /** The members of a set in ascending order. */
  function Sorted(s: set<string>): (r: seq<string>)
    ensures forall x :: x in r <==> x in s
    ensures |r| == |s|
  {
    if s == {} then [] else
      var m := Minimum(s);
      [m] + Sorted(s - {m})
  }

  lemma {:induction false} SortedAscends(s: set<string>)
    ensures StrictlySorted(Sorted(s))
  {
    if s != {} {
      var m := Minimum(s);
      SortedAscends(s - {m});
      forall x | x in Sorted(s - {m}) ensures Less(m, x) { assert x in s && x != m; }
    }
  }

  lemma SortedHasNoRepeats(s: set<string>)
    ensures NoRepeats(Sorted(s))
  {
    var r := Sorted(s);
    SortedAscends(s);
    forall i, j | 0 <= i < j < |r| ensures r[i] != r[j] { LessIrreflexive(r[i]); }
  }

  /** JavaScript white space and line terminators. */
  predicate IsSpace(c: char) {
    || c in {' ', '\t', '\n', '\r', '\U{000B}', '\U{000C}', '\U{00A0}', '\U{1680}', '\U{2028}', '\U{2029}',
             '\U{202F}', '\U{205F}', '\U{3000}', '\U{FEFF}'}
    || '\U{2000}' <= c <= '\U{200A}'
  }

  function TrimStart(s: string): string {
    if s != "" && IsSpace(s[0]) then TrimStart(s[1..]) else s
  }

  function TrimEnd(s: string): string {
    if s != "" && IsSpace(s[|s| - 1]) then TrimEnd(s[..|s| - 1]) else s
  }

  function Trim(s: string): string { TrimEnd(TrimStart(s)) }

  lemma {:induction false} TrimStartDone(s: string)
    ensures TrimStart(s) == "" || !IsSpace(TrimStart(s)[0])
  {
    if s != "" && IsSpace(s[0]) { TrimStartDone(s[1..]); }
  }

  lemma {:induction false} TrimEndDone(s: string)
    requires s == "" || !IsSpace(s[0])
    ensures TrimEnd(s) == "" || (!IsSpace(TrimEnd(s)[0]) && !IsSpace(TrimEnd(s)[|TrimEnd(s)| - 1]))
  {
    if s != "" && IsSpace(s[|s| - 1]) { TrimEndDone(s[..|s| - 1]); }
  }

  lemma TrimIdempotent(s: string)
    ensures Trim(Trim(s)) == Trim(s)
  {
    TrimStartDone(s);
    TrimEndDone(TrimStart(s));
  }

  /** A string field trimmed; anything else reads as blank. */
  function Text(s: Option<string>): string { if s.Some? then Trim(s.value) else "" }
}
