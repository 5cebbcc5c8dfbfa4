/**
 * Row-digest multisets, as both migrations build and compare them.  A row is its stored bytes; the
 * hash is a parameter, and only the lemmas that need it ask for injectivity.
 */
module RowDigest {
  import opened Common

  type Row = string

  datatype Digest = Digest(entries: seq<(string, nat)>, documentCount: nat)

  /** Two cursor orders of one payload. */
  ghost predicate SamePayload(a: seq<Row>, b: seq<Row>) {
    multiset(a) == multiset(b)
  }

  function HashBag(hash: Hash, rows: seq<Row>): multiset<string> {
    multiset(MapSeq(hash, rows))
  }

  /** The canonical form of a bag of row hashes: distinct hashes ascending, each with its count. */
  function DigestOf(bag: multiset<string>): Digest {
    var keys := Sorted(set h | h in bag);
    Digest(seq(|keys|, i requires 0 <= i < |keys| => (keys[i], bag[keys[i]])), |bag|)
  }

  function DigestRows(hash: Hash, rows: seq<Row>): Digest {
    DigestOf(HashBag(hash, rows))
  }

  lemma HashBagSnoc(hash: Hash, rows: seq<Row>, i: nat)
    requires i < |rows|
    ensures HashBag(hash, rows[..i + 1]) == HashBag(hash, rows[..i]) + multiset{hash(rows[i])}
  {
    assert MapSeq(hash, rows[..i + 1]) == MapSeq(hash, rows[..i]) + [hash(rows[i])];
  }

  /** `counts` is the multiplicity function of `bag`. */
  ghost predicate Tallies(counts: map<string, nat>, bag: multiset<string>) {
    && (forall h :: h in counts <==> h in bag)
    && (forall h :: h in counts ==> counts[h] == bag[h])
  }

  function Entries(counts: map<string, nat>): (r: seq<(string, nat)>)
    ensures |r| == |counts|
  {
    var keys := Sorted(counts.Keys);
    seq(|keys|, i requires 0 <= i < |keys| => (keys[i], counts[keys[i]]))
  }

  lemma TalliedEntries(counts: map<string, nat>, bag: multiset<string>)
    requires Tallies(counts, bag)
    ensures Entries(counts) == DigestOf(bag).entries
  {
    assert counts.Keys == set h | h in bag;
  }

  function Added(counts: map<string, nat>, h: string): map<string, nat> {
    counts[h := (if h in counts then counts[h] else 0) + 1]
  }

  lemma AddedTallies(counts: map<string, nat>, bag: multiset<string>, h: string)
    requires Tallies(counts, bag)
    ensures Tallies(Added(counts, h), bag + multiset{h})
  {
  }

  method DigestMultiset(hash: Hash, rows: seq<Row>) returns (digest: Digest)
    ensures digest == DigestRows(hash, rows)
  {
    var counts: map<string, nat> := map[];
    ghost var bag: multiset<string> := multiset{};
    for i := 0 to |rows|
      invariant bag == HashBag(hash, rows[..i])
      invariant Tallies(counts, bag)
    {
      HashBagSnoc(hash, rows, i);
      var h := hash(rows[i]);
      AddedTallies(counts, bag, h);
      bag := bag + multiset{h};
      counts := Added(counts, h);
    }
    assert rows[..|rows|] == rows;
    TalliedEntries(counts, bag);
    digest := Digest(Entries(counts), |rows|);
  }

  predicate DigestsEqual(a: Digest, b: Digest) {
    && a.documentCount == b.documentCount
    && |a.entries| == |b.entries|
    && forall i :: 0 <= i < |a.entries| ==>
        a.entries[i].0 == b.entries[i].0 && a.entries[i].1 == b.entries[i].1
  }

  /** The positional comparison of two built digests decides equality of the hash bags. */
  lemma DigestsEqualExact(a: multiset<string>, b: multiset<string>)
    ensures DigestsEqual(DigestOf(a), DigestOf(b)) <==> a == b
  {
    var da, db := DigestOf(a), DigestOf(b);
    if DigestsEqual(da, db) {
      var ka, kb := Sorted(set h | h in a), Sorted(set h | h in b);
      assert forall i :: 0 <= i < |ka| ==> da.entries[i] == (ka[i], a[ka[i]]);
      assert forall i :: 0 <= i < |kb| ==> db.entries[i] == (kb[i], b[kb[i]]);
      assert forall i :: 0 <= i < |ka| ==> ka[i] == da.entries[i].0 == db.entries[i].0 == kb[i];
      assert ka == kb;
      forall h ensures a[h] == b[h] {
        if h in a {
          assert h in ka;
          var i :| 0 <= i < |ka| && ka[i] == h;
          assert da.entries[i] == (h, a[h]);
        } else {
          assert h !in ka && h !in kb;
        }
      }
    }
  }

  lemma {:induction false} HashCount(hash: Hash, rows: seq<Row>, x: Row)
    requires Injective(hash)
    ensures HashBag(hash, rows)[hash(x)] == multiset(rows)[x]
  {
    if rows != [] {
      var n := |rows| - 1;
      HashCount(hash, rows[..n], x);
      assert rows == rows[..n] + [rows[n]];
      assert MapSeq(hash, rows) == MapSeq(hash, rows[..n]) + [hash(rows[n])];
    }
  }

  lemma HashBagConcat(hash: Hash, a: seq<Row>, b: seq<Row>)
    ensures HashBag(hash, a + b) == HashBag(hash, a) + HashBag(hash, b)
  {
    assert MapSeq(hash, a + b) == MapSeq(hash, a) + MapSeq(hash, b);
  }

  lemma HashBagRemove(hash: Hash, b: seq<Row>, k: nat)
    requires k < |b|
    ensures HashBag(hash, b) == HashBag(hash, b[..k] + b[k + 1..]) + multiset{hash(b[k])}
    ensures multiset(b) == multiset(b[..k] + b[k + 1..]) + multiset{b[k]}
  {
    assert b == b[..k] + ([b[k]] + b[k + 1..]);
    HashBagConcat(hash, b[..k], [b[k]] + b[k + 1..]);
    HashBagConcat(hash, [b[k]], b[k + 1..]);
    HashBagConcat(hash, b[..k], b[k + 1..]);
    assert MapSeq(hash, [b[k]]) == [hash(b[k])];
  }

  lemma RestsAgree(a: multiset<Row>, b: multiset<Row>, restA: multiset<Row>, restB: multiset<Row>, x: Row)
    requires a == b && a == restA + multiset{x} && b == restB + multiset{x}
    ensures restA == restB
  {
    assert restA == a - multiset{x} && restB == b - multiset{x};
  }

  lemma {:induction false} HashBagOfPayload(hash: Hash, a: seq<Row>, b: seq<Row>)
    requires SamePayload(a, b)
    ensures HashBag(hash, a) == HashBag(hash, b)
  {
    if a == [] {
      assert |multiset(b)| == 0;
      assert b == [];
    } else {
      assert a[0] in multiset(b);
      var k :| 0 <= k < |b| && b[k] == a[0];
      HashBagRemove(hash, a, 0);
      HashBagRemove(hash, b, k);
      var restA, restB := a[..0] + a[1..], b[..k] + b[k + 1..];
      RestsAgree(multiset(a), multiset(b), multiset(restA), multiset(restB), a[0]);
      HashBagOfPayload(hash, restA, restB);
    }
  }

  /** Under an injective hash, a digest match is a payload match, and nothing less. */
  lemma DigestDecidesPayload(hash: Hash, a: seq<Row>, b: seq<Row>)
    requires Injective(hash)
    ensures DigestsEqual(DigestRows(hash, a), DigestRows(hash, b)) <==> SamePayload(a, b)
  {
    DigestsEqualExact(HashBag(hash, a), HashBag(hash, b));
    if HashBag(hash, a) == HashBag(hash, b) {
      forall x ensures multiset(a)[x] == multiset(b)[x] {
        HashCount(hash, a, x);
        HashCount(hash, b, x);
      }
    }
    if SamePayload(a, b) { HashBagOfPayload(hash, a, b); }
  }

  lemma DigestsEqualIsEquality(a: Digest, b: Digest)
    ensures DigestsEqual(a, b) <==> a == b
  {
    if DigestsEqual(a, b) { assert a.entries == b.entries; }
  }

  /** A hash together with the digest it induces on payloads, so that protocols may leave both unopened. */
  datatype RawDigester = Digester(hash: Hash, of: seq<Row> -> Digest)

  ghost predicate Wired(d: RawDigester) {
    forall rows {:trigger DigestRows(d.hash, rows)} :: d.of(rows) == DigestRows(d.hash, rows)
  }

  type Digester = d: RawDigester | Wired(d)
    ghost witness RawDigester.Digester(x => x, rows => DigestRows(x => x, rows))

  method ComputeDigest(d: Digester, rows: seq<Row>) returns (digest: Digest)
    ensures digest == d.of(rows)
  {
    digest := DigestMultiset(d.hash, rows);
  }

  method CompareDigests(a: Digest, b: Digest) returns (equal: bool)
    ensures equal <==> a == b
  {
    DigestsEqualIsEquality(a, b);
    equal := DigestsEqual(a, b);
  }

  /** One payload, one digest; and under an injective hash one digest, one payload. */
  lemma DigesterDecidesPayload(d: Digester, a: seq<Row>, b: seq<Row>)
    ensures SamePayload(a, b) ==> d.of(a) == d.of(b)
    ensures Injective(d.hash) && d.of(a) == d.of(b) ==> SamePayload(a, b)
  {
    assert d.of(a) == DigestRows(d.hash, a) && d.of(b) == DigestRows(d.hash, b);
    if SamePayload(a, b) { HashBagOfPayload(d.hash, a, b); }
    if Injective(d.hash) {
      DigestsEqualIsEquality(d.of(a), d.of(b));
      DigestDecidesPayload(d.hash, a, b);
    }
  }

  lemma DigestCountsRows(d: Digester, rows: seq<Row>)
    ensures d.of(rows).documentCount == |rows|
  {
    assert d.of(rows) == DigestRows(d.hash, rows);
    assert |HashBag(d.hash, rows)| == |rows|;
  }
}
