/**
 * The per-agent to shared-prefix migration: a keep-existing merge, a consuming digest check and a
 * conditional drop, repeated over many sources that feed common targets.
 */
module SharedPrefixMigration {
  import opened Common
  import opened RowDigest
  import opened SharedPrefixNames

  // ---------------------------------------------------------------- the database

  datatype Shape = Shape(kind: Option<string>, capped: bool, ttlIndexes: seq<string>)

  const PLAIN: Shape := Shape(None, false, [])

  /** A keyed collection holds at most one row per `_id`; views and time series hold no such map. */
  datatype Stored =
    | Keyed(capped: bool, ttlIndexes: seq<string>, rows: map<string, Row>)
    | Unkeyed(view: bool, capped: bool)
  {
    /** Nothing but a client removes rows from it. */
    predicate Stable() { Keyed? && !capped && ttlIndexes == [] }

    function GetShape(): Shape {
      match this
      case Keyed(capped, ttl, _) => Shape(Some("collection"), capped, ttl)
      case Unkeyed(view, capped) => Shape(Some(if view then "view" else "timeseries"), capped, [])
    }
  }

  type Db = map<string, Stored>

  function RowsOf(db: Db, name: string): map<string, Row> {
    if name in db && db[name].Keyed? then db[name].rows else map[]
  }

  predicate StableAt(db: Db, name: string) { name in db ==> db[name].Stable() }

  predicate Within(x: map<string, Row>, y: map<string, Row>) { forall k :: k in x ==> k in y && y[k] == x[k] }

  /** Every row is stored under its own `_id`. */
  ghost predicate WellKeyed(db: Db, idOf: Row -> string) {
    forall n, k :: n in db && k in RowsOf(db, n) ==> idOf(RowsOf(db, n)[k]) == k
  }

  datatype Unsupported = SourceKind | TargetKind | SourceCapped | TargetCapped | SourceTtl | TargetTtl | NotInspected

  predicate UnsupportedKind(shape: Shape) { shape.kind.Some? && shape.kind.value != "collection" }

  function UnsupportedShapeReason(source: Shape, target: Shape): Option<Unsupported> {
    if UnsupportedKind(source) then Some(SourceKind)
    else if UnsupportedKind(target) then Some(TargetKind)
    else if source.capped then Some(SourceCapped)
    else if target.capped then Some(TargetCapped)
    else if source.ttlIndexes != [] then Some(SourceTtl)
    else if target.ttlIndexes != [] then Some(TargetTtl)
    else None
  }

  // ---------------------------------------------------------------- what every step conserves

  /** The source side: untouched, except for rows the server itself expires or evicts. */
  predicate Kept(x: Stored, y: Stored) {
    if x.Stable() || x.Unkeyed? then y == x
    else y.Keyed? && y.capped == x.capped && y.ttlIndexes == x.ttlIndexes && Within(y.rows, x.rows)
  }

  /** The target side: every pre-existing row unchanged, possibly more rows. */
  predicate Grown(x: Stored, y: Stored) {
    if x.Stable() then y.Stable() && Within(x.rows, y.rows) else Kept(x, y)
  }

  predicate IsSource(route: Route, n: string) { route(n).Some? }

  function TargetOf(route: Route, n: string): string
    requires IsSource(route, n)
  {
    route(n).value.targetName
  }

  /** A source that is gone left every row, byte for byte, in its target. */
  predicate Moved(route: Route, a: Db, b: Db, n: string)
    requires IsSource(route, n)
  {
    StableAt(a, n) && StableAt(b, TargetOf(route, n)) && Within(RowsOf(a, n), RowsOf(b, TargetOf(route, n)))
  }

  ghost predicate SourceConserved(route: Route, a: Db, b: Db, n: string)
    requires n in a && IsSource(route, n)
  {
    if n in b then Kept(a[n], b[n]) else Moved(route, a, b, n)
  }

  predicate TargetConserved(a: Db, b: Db, n: string)
    requires n in a
  {
    n in b && Grown(a[n], b[n])
  }

  /** Every row that appeared was a row of a source of that target. */
  ghost predicate Accounted(route: Route, a: Db, b: Db, n: string, k: string)
    requires k in RowsOf(b, n)
  {
    || (k in RowsOf(a, n) && RowsOf(a, n)[k] == RowsOf(b, n)[k])
    || exists s ::
         s in a && IsSource(route, s) && TargetOf(route, s) == n && k in RowsOf(a, s)
         && RowsOf(a, s)[k] == RowsOf(b, n)[k]
  }

  ghost predicate Conserved(route: Route, a: Db, b: Db) {
    && (forall n :: n in a && IsSource(route, n) ==> SourceConserved(route, a, b, n))
    && (forall n :: n in a && !IsSource(route, n) ==> TargetConserved(a, b, n))
    && (forall n :: n in b && n !in a ==> !IsSource(route, n) && b[n].Stable())
    && (forall n, k :: n in b && k in RowsOf(b, n) ==> Accounted(route, a, b, n, k))
  }

  lemma ConservedReflexive(route: Route, a: Db)
    ensures Conserved(route, a, a)
  {
  }

  lemma SourceTransitive(route: Route, a: Db, b: Db, c: Db, n: string)
    requires Conserved(route, a, b) && Conserved(route, b, c)
    requires n in a && IsSource(route, n)
    ensures SourceConserved(route, a, c, n)
  {
    assert SourceConserved(route, a, b, n);
    if n in b {
      assert SourceConserved(route, b, c, n);
    } else {
      var t := TargetOf(route, n);
      if t in b { assert TargetConserved(b, c, t); }
    }
  }

  lemma TargetTransitive(route: Route, a: Db, b: Db, c: Db, n: string)
    requires Conserved(route, a, b) && Conserved(route, b, c)
    requires n in a && !IsSource(route, n)
    ensures TargetConserved(a, c, n)
  {
    assert TargetConserved(a, b, n) && TargetConserved(b, c, n);
  }

  lemma AccountedTransitive(route: Route, a: Db, b: Db, c: Db, n: string, k: string)
    requires Conserved(route, a, b) && Conserved(route, b, c)
    requires n in c && k in RowsOf(c, n)
    ensures Accounted(route, a, c, n, k)
  {
    assert Accounted(route, b, c, n, k);
    var row := RowsOf(c, n)[k];
    if k in RowsOf(b, n) && RowsOf(b, n)[k] == row {
      assert n in b && Accounted(route, a, b, n, k);
    } else {
      var s :| s in b && IsSource(route, s) && TargetOf(route, s) == n && k in RowsOf(b, s) && RowsOf(b, s)[k] == row;
      assert s in a && SourceConserved(route, a, b, s);
      assert k in RowsOf(a, s) && RowsOf(a, s)[k] == row;
    }
  }

  lemma ConservedTransitive(route: Route, a: Db, b: Db, c: Db)
    requires Conserved(route, a, b) && Conserved(route, b, c)
    ensures Conserved(route, a, c)
  {
    forall n | n in a && IsSource(route, n)
        ensures SourceConserved(route, a, c, n) { SourceTransitive(route, a, b, c, n); }
    forall n | n in a && !IsSource(route, n) ensures TargetConserved(a, c, n) { TargetTransitive(route, a, b, c, n); }
    forall n | n in c && n !in a ensures !IsSource(route, n) && c[n].Stable() {
      if n in b { assert TargetConserved(b, c, n); }
    }
    forall n, k | n in c && k in RowsOf(c, n)
        ensures Accounted(route, a, c, n, k) { AccountedTransitive(route, a, b, c, n, k); }
  }

  // ---------------------------------------------------------------- what conservation gives the operator

  /** No row is lost: each is still in its source, or byte-identical in the shared target. */
  lemma NoRowLost(route: Route, a: Db, b: Db, n: string, k: string)
    requires Conserved(route, a, b) && IsSource(route, n) && n in a && a[n].Stable() && k in a[n].rows
    ensures || (k in RowsOf(b, n) && RowsOf(b, n)[k] == a[n].rows[k])
            || (k in RowsOf(b, TargetOf(route, n)) && RowsOf(b, TargetOf(route, n))[k] == a[n].rows[k])
  {
    assert SourceConserved(route, a, b, n);
  }

  /** A source with a row whose `_id` the target already holds differently is never dropped. */
  lemma ConflictingSourceKept(route: Route, a: Db, b: Db, n: string, k: string)
    requires Conserved(route, a, b) && IsSource(route, n) && n in a && a[n].Stable() && k in a[n].rows
    requires var t := TargetOf(route, n); t in a && a[t].Stable() && k in a[t].rows && a[t].rows[k] != a[n].rows[k]
    ensures n in b && b[n] == a[n]
  {
    assert SourceConserved(route, a, b, n);
    assert TargetConserved(a, b, TargetOf(route, n));
  }

  // ---------------------------------------------------------------- the steps on the database

  /** The rows among `ids` of the source whose `_id` the target lacks. */
  function Missing(db: Db, s: string, t: string, ids: set<string>): map<string, Row> {
    map k | k in RowsOf(db, s) && k in ids && k !in RowsOf(db, t) :: RowsOf(db, s)[k]
  }

  /** They are inserted; nothing else changes. */
  function Merged(db: Db, s: string, t: string, ids: set<string>): Db {
    var missing := Missing(db, s, t, ids);
    if missing == map[] then db
    else if t in db && db[t].Keyed? then db[t := db[t].(rows := db[t].rows + missing)]
    else db[t := Keyed(false, [], missing)]
  }

  lemma MergedRows(db: Db, s: string, t: string, ids: set<string>)
    requires s != t && StableAt(db, t)
    ensures var after := Merged(db, s, t, ids);
            && RowsOf(after, t) == RowsOf(db, t) + Missing(db, s, t, ids) && RowsOf(after, s) == RowsOf(db, s)
            && StableAt(after, t)
  {
  }

  lemma MergedElsewhere(db: Db, s: string, t: string, ids: set<string>, n: string)
    requires StableAt(db, t)
    ensures var after := Merged(db, s, t, ids);
            && (n != t ==> (n in after <==> n in db) && (n in db ==> after[n] == db[n]))
            && (t in after ==> after[t].Stable()) && (t in db ==> t in after && Within(db[t].rows, after[t].rows))
            && forall k :: k in RowsOf(after, t) ==>
                 || (k in RowsOf(db, t) && RowsOf(db, t)[k] == RowsOf(after, t)[k])
                 || (k in RowsOf(db, s) && RowsOf(db, s)[k] == RowsOf(after, t)[k])
  {
  }

  lemma MergeConserves(route: Route, db: Db, s: string, ids: set<string>)
    requires IsSource(route, s) && StableAt(db, TargetOf(route, s))
    ensures Conserved(route, db, Merged(db, s, TargetOf(route, s), ids))
  {
    var t := TargetOf(route, s);
    var after := Merged(db, s, t, ids);
    MergedElsewhere(db, s, t, ids, t);
    forall n | n in db ensures n in after && if n == t then Grown(db[n], after[n]) else after[n] == db[n] {
      MergedElsewhere(db, s, t, ids, n);
    }
    forall n | n in after && n !in db ensures n == t { MergedElsewhere(db, s, t, ids, n); }
    forall n, k | n in after && k in RowsOf(after, n) ensures Accounted(route, db, after, n, k) {
      if n == t {
        if k in RowsOf(db, t) && RowsOf(db, t)[k] == RowsOf(after, t)[k] {} else { assert s in db; }
      }
    }
  }

  /** A complete merge brings over everything exactly when no `_id` conflicts. */
  predicate Conflicts(db: Db, s: string, t: string, k: string) {
    k in RowsOf(db, s) && k in RowsOf(db, t) && RowsOf(db, t)[k] != RowsOf(db, s)[k]
  }

  lemma CompleteMergeCovers(db: Db, s: string, t: string)
    requires s != t && StableAt(db, t)
    ensures var after := Merged(db, s, t, RowsOf(db, s).Keys);
            Within(RowsOf(after, s), RowsOf(after, t)) <==> forall k :: !Conflicts(db, s, t, k)
  {
    var after := Merged(db, s, t, RowsOf(db, s).Keys);
    assert RowsOf(after, s) == RowsOf(db, s);
    CompleteMergeRows(db, s, t);
    if Within(RowsOf(after, s), RowsOf(after, t)) {
      forall k ensures !Conflicts(db, s, t, k) {}
    }
    if forall k :: !Conflicts(db, s, t, k) {
      forall k | k in RowsOf(db, s) ensures k in RowsOf(after, t) && RowsOf(after, t)[k] == RowsOf(db, s)[k] {
        assert !Conflicts(db, s, t, k);
      }
    }
  }

  lemma CompleteMergeRows(db: Db, s: string, t: string)
    requires s != t && StableAt(db, t)
    ensures var after := RowsOf(Merged(db, s, t, RowsOf(db, s).Keys), t);
            && Within(RowsOf(db, t), after)
            && forall k :: k in RowsOf(db, s) && k !in RowsOf(db, t) ==> k in after && after[k] == RowsOf(db, s)[k]
  {
    MergedRows(db, s, t, RowsOf(db, s).Keys);
  }

  /** Repeating a merge, or completing a partial one, changes nothing more than one complete merge. */
  lemma MergeIdempotent(db: Db, s: string, t: string, ids: set<string>)
    requires s != t && StableAt(db, t)
    ensures var all := RowsOf(db, s).Keys;
            var whole := Merged(db, s, t, all);
            Merged(Merged(db, s, t, ids), s, t, all) == whole && Merged(whole, s, t, all) == whole
  {
    var all := RowsOf(db, s).Keys;
    var whole, part := Merged(db, s, t, all), Merged(db, s, t, ids);
    MergedRows(db, s, t, all);
    MergedRows(db, s, t, ids);
    MergedRows(part, s, t, all);
    MergedRows(whole, s, t, all);
    var twice := Merged(part, s, t, all);
    assert RowsOf(twice, t) == RowsOf(whole, t);
    MergeOverMerge(db, s, t, ids);
  }

  /** Merges differ from the database, and from each other, in the target's rows alone. */
  lemma MergeOverMerge(db: Db, s: string, t: string, ids: set<string>)
    requires s != t && StableAt(db, t)
    requires var all := RowsOf(db, s).Keys;
             RowsOf(Merged(Merged(db, s, t, ids), s, t, all), t) == RowsOf(Merged(db, s, t, all), t)
    ensures var all := RowsOf(db, s).Keys;
            Merged(Merged(db, s, t, ids), s, t, all) == Merged(db, s, t, all)
  {
  }

  lemma DropConserves(route: Route, db: Db, s: string)
    requires IsSource(route, s) && StableAt(db, s) && StableAt(db, TargetOf(route, s))
    requires Within(RowsOf(db, s), RowsOf(db, TargetOf(route, s)))
    ensures Conserved(route, db, db - {s})
  {
    WithoutConserves(route, db, db - {s}, s);
  }

  lemma WithoutConserves(route: Route, db: Db, after: Db, s: string)
    requires IsSource(route, s) && Moved(route, db, after, s)
    requires s !in after && forall n :: n != s ==> (n in after <==> n in db) && (n in db ==> after[n] == db[n])
    ensures Conserved(route, db, after)
  {
    forall n | n in db && IsSource(route, n) ensures SourceConserved(route, db, after, n) {
      if n != s { assert Kept(db[n], after[n]); }
    }
    forall n, k | n in after && k in RowsOf(after, n) ensures Accounted(route, db, after, n, k) {
      assert RowsOf(db, n) == RowsOf(after, n);
    }
  }

  /** The server's own expiry and eviction, which only unstable collections suffer. */
  function Evicted(db: Db, survives: (string, string) -> bool): Db {
    map n | n in db ::
      if db[n].Keyed? && !db[n].Stable()
      then db[n].(rows := map k | k in db[n].rows && survives(n, k) :: db[n].rows[k])
      else db[n]
  }

  lemma EvictedRows(db: Db, survives: (string, string) -> bool, n: string)
    ensures Within(RowsOf(Evicted(db, survives), n), RowsOf(db, n))
    ensures n in db ==> Kept(db[n], Evicted(db, survives)[n])
  {
  }

  /** A database in which every collection was merely kept. */
  lemma OnlyKeptConserves(route: Route, db: Db, after: Db)
    requires after.Keys == db.Keys
    requires forall n :: Within(RowsOf(after, n), RowsOf(db, n)) && (n in db ==> Kept(db[n], after[n]))
    ensures Conserved(route, db, after)
  {
    forall n, k | n in after && k in RowsOf(after, n) ensures Accounted(route, db, after, n, k) {
      assert Within(RowsOf(after, n), RowsOf(db, n));
    }
  }

  // ---------------------------------------------------------------- the digest check

  function Remaining(counts: map<string, nat>, h: string): nat { if h in counts then counts[h] else 0 }

  /** `counts` holds the multiplicities of `bag`, possibly with exhausted entries left at zero. */
  ghost predicate Holds(counts: map<string, nat>, bag: multiset<string>) {
    forall h :: Remaining(counts, h) == bag[h]
  }

  method SumValues(counts: map<string, nat>, ghost bag: multiset<string>) returns (total: nat)
    requires Holds(counts, bag)
    ensures total == |bag|
  {
    total := 0;
    var keys := counts.Keys;
    ghost var left := bag;
    while keys != {}
      invariant keys <= counts.Keys
      invariant forall h :: left[h] == if h in keys then counts[h] else 0
      invariant total + |left| == |bag|
      decreases |keys|
    {
      var h :| h in keys;
      total := total + counts[h];
      left := left[h := 0];
      keys := keys - {h};
    }
    assert left == multiset{};
  }

  function Consumed(counts: map<string, nat>, h: string): map<string, nat> {
    if h in counts && counts[h] > 0 then counts[h := counts[h] - 1] else counts
  }

  lemma AddedHolds(counts: map<string, nat>, bag: multiset<string>, h: string)
    requires Holds(counts, bag)
    ensures Holds(Added(counts, h), bag + multiset{h})
  {
    forall x ensures Remaining(Added(counts, h), x) == (bag + multiset{h})[x] {
      assert Remaining(counts, x) == bag[x];
    }
  }

  lemma ConsumedHolds(counts: map<string, nat>, bag: multiset<string>, seen: multiset<string>, h: string)
    requires Holds(counts, bag - seen)
    ensures Holds(Consumed(counts, h), bag - (seen + multiset{h}))
  {
    forall x ensures Remaining(Consumed(counts, h), x) == (bag - (seen + multiset{h}))[x] {
      assert Remaining(counts, x) == (bag - seen)[x];
      assert Remaining(counts, h) == (bag - seen)[h];
    }
  }

  /** Digest the source into a multiset, then let every target row consume one equal digest. */
  method VerifyCopy(hash: Hash, source: seq<Row>, target: seq<Row>) returns (scanned: nat, unmatched: nat)
    ensures scanned == |source|
    ensures unmatched == |HashBag(hash, source) - HashBag(hash, target)|
  {
    var digests: map<string, nat> := map[];
    scanned := 0;
    for i := 0 to |source|
      invariant scanned == i
      invariant Holds(digests, HashBag(hash, source[..i]))
    {
      HashBagSnoc(hash, source, i);
      var h := hash(source[i]);
      AddedHolds(digests, HashBag(hash, source[..i]), h);
      digests := digests[h := Remaining(digests, h) + 1];
      scanned := scanned + 1;
    }
    assert source[..|source|] == source;
    ghost var bag := HashBag(hash, source);
    assert bag - HashBag(hash, target[..0]) == bag;
    for i := 0 to |target|
      invariant Holds(digests, bag - HashBag(hash, target[..i]))
    {
      HashBagSnoc(hash, target, i);
      var h := hash(target[i]);
      ConsumedHolds(digests, bag, HashBag(hash, target[..i]), h);
      if h in digests && digests[h] > 0 { digests := digests[h := digests[h] - 1]; }
    }
    assert target[..|target|] == target;
    unmatched := SumValues(digests, bag - HashBag(hash, target));
  }

  lemma {:induction false} SomeOrder(bag: multiset<Row>) returns (rows: seq<Row>)
    ensures multiset(rows) == bag
    decreases |bag|
  {
    if bag == multiset{} {
      rows := [];
    } else {
      var x :| x in bag;
      var rest := SomeOrder(bag - multiset{x});
      rows := rest + [x];
    }
  }

  lemma HashBagCount(hash: Hash, rows: seq<Row>, h: string)
    ensures h in HashBag(hash, rows) ==> exists x :: x in rows && hash(x) == h
  {
    var hashes := MapSeq(hash, rows);
    if h in HashBag(hash, rows) {
      assert h in hashes;
      var i :| 0 <= i < |hashes| && hashes[i] == h;
      assert rows[i] in rows && hash(rows[i]) == h;
    }
  }

  /** `unmatched` is the size of source minus target as multisets of rows, whatever the cursor orders. */
  lemma UnmatchedIsDifference(hash: Hash, source: seq<Row>, target: seq<Row>)
    requires Injective(hash)
    ensures |HashBag(hash, source) - HashBag(hash, target)| == |multiset(source) - multiset(target)|
  {
    var rest := SomeOrder(multiset(source) - multiset(target));
    var difference := HashBag(hash, source) - HashBag(hash, target);
    forall h ensures HashBag(hash, rest)[h] == difference[h] {
      HashBagCount(hash, source, h);
      HashBagCount(hash, rest, h);
      if x :| x in source && hash(x) == h {
        HashCount(hash, source, x);
        HashCount(hash, target, x);
        HashCount(hash, rest, x);
      } else {
        assert forall x :: x in rest ==> x in multiset(rest);
        assert h !in HashBag(hash, rest);
      }
    }
    assert HashBag(hash, rest) == difference;
    assert |rest| == |multiset(rest)|;
  }

  /** One complete scan of a keyed collection, in some cursor order. */
  ghost predicate Scans(rows: seq<Row>, m: map<string, Row>) {
    && |rows| == |m|
    && (forall x :: x in rows <==> exists k :: k in m && m[k] == x)
    && (forall x :: multiset(rows)[x] <= 1)
  }

  lemma ScansDecide(source: seq<Row>, target: seq<Row>, s: map<string, Row>, t: map<string, Row>, idOf: Row -> string)
    requires Scans(source, s) && Scans(target, t)
    requires forall k :: k in s ==> idOf(s[k]) == k
    requires forall k :: k in t ==> idOf(t[k]) == k
    ensures |multiset(source) - multiset(target)| == 0 <==> Within(s, t)
  {
    var difference := multiset(source) - multiset(target);
    if |difference| == 0 {
      forall k | k in s ensures k in t && t[k] == s[k] {
        assert s[k] in source;
        assert s[k] !in difference;
        assert s[k] in target;
      }
    }
    if Within(s, t) {
      forall x ensures difference[x] == 0 {
        if x in source {
          var k :| k in s && s[k] == x;
          assert x in target;
        }
      }
      assert difference == multiset{};
    }
  }

  // ---------------------------------------------------------------- the run

  /** What the world does at one operation: fail it, land part of it, expire rows, kill the process. */
  datatype Choice = Choice(killed: bool, completes: bool, landed: set<string>, survives: (string, string) -> bool) {
    predicate Healthy() { completes && !killed }
  }

  datatype CopyReport = CopyReport(
    sourceName: string, targetName: string, scanned: nat, unmatched: nat,
    unsupported: Option<Unsupported>, uncertain: bool, verified: bool, dropped: bool)

  datatype Reply = Completed | Failed | Killed

  /** Only the server's own expiry happened. */
  ghost predicate Calm(a: Db, b: Db) {
    a.Keys == b.Keys && forall n :: n in a ==> Kept(a[n], b[n])
  }

  lemma CalmConserves(route: Route, a: Db, b: Db)
    requires Calm(a, b)
    ensures Conserved(route, a, b)
  {
    forall n ensures Within(RowsOf(b, n), RowsOf(a, n)) { assert n in a ==> Kept(a[n], b[n]); }
    OnlyKeptConserves(route, a, b);
  }

  lemma CalmKeepsStable(a: Db, b: Db, n: string)
    requires Calm(a, b) && StableAt(a, n)
    ensures StableAt(b, n) && RowsOf(b, n) == RowsOf(a, n) && (n in b <==> n in a)
  {
    if n in a { assert Kept(a[n], b[n]); }
  }

  lemma CalmTransitive(a: Db, b: Db, c: Db)
    requires Calm(a, b) && Calm(b, c)
    ensures Calm(a, c)
  {
    forall n | n in a ensures Kept(a[n], c[n]) { assert Kept(a[n], b[n]) && Kept(b[n], c[n]); }
  }

  lemma EvictionIsCalm(db: Db, survives: (string, string) -> bool)
    ensures Calm(db, Evicted(db, survives))
  {
    forall n | n in db ensures Kept(db[n], Evicted(db, survives)[n]) { EvictedRows(db, survives, n); }
  }

  lemma ConservedWellKeyed(route: Route, a: Db, b: Db, idOf: Row -> string)
    requires WellKeyed(a, idOf) && Conserved(route, a, b)
    ensures WellKeyed(b, idOf)
  {
    forall n, k | n in b && k in RowsOf(b, n) ensures idOf(RowsOf(b, n)[k]) == k {
      assert Accounted(route, a, b, n, k);
    }
  }

  predicate Supported(shape: Shape) { !UnsupportedKind(shape) && !shape.capped && shape.ttlIndexes == [] }

  lemma SupportedShapes(source: Shape, target: Shape)
    ensures UnsupportedShapeReason(source, target).None? <==> Supported(source) && Supported(target)
  {
  }

  /** The two collections of one source can lose rows to nobody but this tool. */
  predicate BothStable(db: Db, source: Source) {
    StableAt(db, source.sourceName) && StableAt(db, source.targetName)
  }

  predicate Covered(db: Db, source: Source) {
    Within(RowsOf(db, source.sourceName), RowsOf(db, source.targetName))
  }

  /** A further copy would have nothing to bring over, or would be refused. */
  predicate Quiet(db: Db, source: Source) { BothStable(db, source) ==> Covered(db, source) }

  predicate ConflictFree(db: Db, source: Source) {
    forall k :: k in RowsOf(db, source.sourceName) ==> !Conflicts(db, source.sourceName, source.targetName, k)
  }

  // ---------------------------------------------------------------- when a run verifies everything

  /** A row of the target came from the target or from this source. */
  predicate Stems(a: Db, source: Source, k: string, row: Row) {
    || (k in RowsOf(a, source.targetName) && RowsOf(a, source.targetName)[k] == row)
    || (k in RowsOf(a, source.sourceName) && RowsOf(a, source.sourceName)[k] == row)
  }

  /** Only this source and its target changed, beyond the server's own expiry. */
  ghost predicate Touched(a: Db, b: Db, source: Source) {
    && (forall n :: n != source.sourceName && n != source.targetName ==>
          (n in a <==> n in b) && (n in a ==> Kept(a[n], b[n])))
    && (source.sourceName in b ==> source.sourceName in a)
    && Within(RowsOf(b, source.sourceName), RowsOf(a, source.sourceName))
    && (forall k :: k in RowsOf(b, source.targetName) ==> Stems(a, source, k, RowsOf(b, source.targetName)[k]))
  }

  lemma CalmTouches(a: Db, b: Db, source: Source)
    requires Calm(a, b)
    ensures Touched(a, b, source)
  {
    forall n | n in a ensures Kept(a[n], b[n]) && Within(RowsOf(b, n), RowsOf(a, n)) {}
  }

  lemma TouchedTransitive(a: Db, b: Db, c: Db, source: Source)
    requires Touched(a, b, source) && Touched(b, c, source)
    ensures Touched(a, c, source)
  {
    forall k | k in RowsOf(c, source.targetName) ensures Stems(a, source, k, RowsOf(c, source.targetName)[k]) {
      assert Stems(b, source, k, RowsOf(c, source.targetName)[k]);
    }
  }

  lemma MergeTouches(db: Db, source: Source, ids: set<string>)
    requires source.sourceName != source.targetName && StableAt(db, source.targetName)
    ensures Touched(db, Merged(db, source.sourceName, source.targetName, ids), source)
  {
    MergedRows(db, source.sourceName, source.targetName, ids);
  }

  lemma DropTouches(db: Db, source: Source)
    requires source.sourceName != source.targetName
    ensures Touched(db, db - {source.sourceName}, source)
  {
  }

  /** What a copy of one source needs, besides operations that succeed. */
  ghost predicate Ready(db: Db, source: Source) {
    source.sourceName in db && BothStable(db, source) && ConflictFree(db, source)
  }

  /** Two sources of one target do not hold different rows under one `_id`. */
  predicate Compatible(db: Db, x: Source, y: Source) {
    x.targetName == y.targetName ==>
      forall k :: k in RowsOf(db, x.sourceName) && k in RowsOf(db, y.sourceName) ==>
        RowsOf(db, x.sourceName)[k] == RowsOf(db, y.sourceName)[k]
  }

  ghost predicate Routed(route: Route, x: Source) { route(x.sourceName) == Some(x) }

  /** Copying one source leaves another one ready. */
  lemma ReadyStays(route: Route, a: Db, b: Db, x: Source, y: Source)
    requires Routed(route, x) && Routed(route, y) && x.sourceName != y.sourceName
    requires Touched(a, b, x) && Conserved(route, a, b) && Ready(a, y) && Compatible(a, x, y)
    ensures Ready(b, y) && RowsOf(b, y.sourceName) == RowsOf(a, y.sourceName)
  {
    assert y.sourceName != x.targetName && y.targetName != x.sourceName;
    assert Kept(a[y.sourceName], b[y.sourceName]);
    TargetStaysStable(route, a, b, y.targetName);
    forall k | k in RowsOf(b, y.sourceName) ensures !Conflicts(b, y.sourceName, y.targetName, k) {
      assert !Conflicts(a, y.sourceName, y.targetName, k);
      if k in RowsOf(b, y.targetName) && y.targetName == x.targetName {
        assert Stems(a, x, k, RowsOf(b, y.targetName)[k]);
      }
    }
  }

  lemma TargetStaysStable(route: Route, a: Db, b: Db, t: string)
    requires Conserved(route, a, b) && !IsSource(route, t) && StableAt(a, t)
    ensures StableAt(b, t)
  {
    if t in a { assert TargetConserved(a, b, t); }
  }

  /** A source verified at the end was ready at the start. */
  lemma DoneWasReady(route: Route, a: Db, b: Db, x: Source, drop: bool)
    requires Conserved(route, a, b) && Routed(route, x) && x.sourceName in a && Done(b, x, drop)
    ensures Ready(a, x) && Within(RowsOf(a, x.sourceName), RowsOf(b, x.targetName))
  {
    assert SourceConserved(route, a, b, x.sourceName);
    if x.targetName in a { assert TargetConserved(a, b, x.targetName); }
  }

  lemma DoneWereCompatible(route: Route, a: Db, b: Db, x: Source, y: Source, drop: bool)
    requires Conserved(route, a, b) && Routed(route, x) && Routed(route, y)
    requires x.sourceName in a && y.sourceName in a && Done(b, x, drop) && Done(b, y, drop)
    ensures Compatible(a, x, y)
  {
    DoneWasReady(route, a, b, x, drop);
    DoneWasReady(route, a, b, y, drop);
  }

  /** What is known of a source that an earlier step of the run verified. */
  ghost predicate Done(db: Db, source: Source, drop: bool) {
    if drop then source.sourceName !in db else Covered(db, source) && BothStable(db, source)
  }

  class Migrator {
    const route: Route
    const order: NameOrder
    const hash: Hash
    const idOf: Row -> string
    const env: nat -> Choice
    var db: Db
    var clock: nat

    constructor (route: Route, order: NameOrder, hash: Hash, idOf: Row -> string, env: nat -> Choice, db: Db)
      ensures this.route == route && this.order == order && this.hash == hash && this.idOf == idOf
      ensures this.env == env && this.db == db
    {
      this.route, this.order, this.hash, this.idOf, this.env := route, order, hash, idOf, env;
      this.db, this.clock := db, 0;
    }

    ghost predicate Valid()
      reads this
    {
      WellKeyed(db, idOf) && Injective(hash)
    }

    /** No operation from `start` up to the present failed. */
    ghost predicate HealthySince(start: nat)
      reads this
    {
      forall i :: start <= i < clock ==> env(i).Healthy()
    }

    ghost predicate AllHealthy() { forall i :: env(i).Healthy() }

    method Tick() returns (choice: Choice)
      requires Valid()
      modifies this`db, this`clock
      ensures Valid() && Calm(old(db), db) && clock == old(clock) + 1 && choice == env(old(clock))
    {
      choice := env(clock);
      EvictionIsCalm(db, choice.survives);
      CalmConserves(route, db, Evicted(db, choice.survives));
      ConservedWellKeyed(route, db, Evicted(db, choice.survives), idOf);
      db := Evicted(db, choice.survives);
      clock := clock + 1;
    }

    /** The keep-existing `$merge`; a failed one may have landed any part of it. */
    method CopyCollection(source: Source) returns (reply: Reply)
      requires Valid() && route(source.sourceName) == Some(source) && BothStable(db, source)
      modifies this`db, this`clock
      ensures Valid() && Conserved(route, old(db), db) && BothStable(db, source)
      ensures clock > old(clock) && (HealthySince(old(clock)) ==> reply == Completed)
      ensures RowsOf(db, source.sourceName) == RowsOf(old(db), source.sourceName)
      ensures source.sourceName in db <==> source.sourceName in old(db)
      ensures reply == Completed ==> (Covered(db, source) <==> ConflictFree(old(db), source))
      ensures Covered(old(db), source) ==> Calm(old(db), db)
      ensures Touched(old(db), db, source)
    {
      var s, t := source.sourceName, source.targetName;
      var choice := Tick();
      ghost var mid := db;
      CalmKeepsStable(old(db), mid, s);
      CalmKeepsStable(old(db), mid, t);
      CalmConserves(route, old(db), mid);
      var ids := if choice.completes then RowsOf(db, s).Keys else choice.landed;
      MergeConserves(route, mid, s, ids);
      CompleteMergeCovers(mid, s, t);
      MergedElsewhere(mid, s, t, ids, s);
      MergedElsewhere(mid, s, t, ids, t);
      CoveredMergeIsNothing(mid, s, t, ids);
      CalmTouches(old(db), mid, source);
      MergeTouches(mid, source, ids);
      TouchedTransitive(old(db), mid, Merged(mid, s, t, ids), source);
      db := Merged(db, s, t, ids);
      ConservedTransitive(route, old(db), mid, db);
      ConservedWellKeyed(route, mid, db, idOf);
      reply := if choice.killed then Killed else if choice.completes then Completed else Failed;
    }

    /** One raw scan in the order the cursor happens to use. */
    method Scan(name: string) returns (rows: seq<Row>)
      requires Valid()
      ensures Scans(rows, RowsOf(db, name))
    {
      rows := [];
      var m := RowsOf(db, name);
      var keys := m.Keys;
      while keys != {}
        invariant keys <= m.Keys
        invariant |rows| + |keys| == |m|
        invariant forall x :: x in rows <==> exists k :: k in m && k !in keys && m[k] == x
        invariant forall x :: multiset(rows)[x] <= 1
        decreases |keys|
      {
        var k :| k in keys;
        FreshRow(m, keys, rows, k);
        rows := rows + [m[k]];
        keys := keys - {k};
      }
    }

    lemma FreshRow(m: map<string, Row>, keys: set<string>, rows: seq<Row>, k: string)
      requires k in keys && keys <= m.Keys
      requires forall j :: j in m ==> idOf(m[j]) == j
      requires forall x :: x in rows <==> exists j :: j in m && j !in keys && m[j] == x
      ensures m[k] !in rows
      ensures forall x :: x in rows + [m[k]] <==> exists j :: j in m && j !in keys - {k} && m[j] == x
    {
    }

    /** Both scans and the verdict; a failed or malformed read answers nothing. */
    method VerifyCollectionCopy(source: Source) returns (reply: Reply, scanned: nat, unmatched: nat)
      requires Valid() && BothStable(db, source)
      modifies this`db, this`clock
      ensures Valid() && Calm(old(db), db) && BothStable(db, source)
      ensures clock > old(clock) && (HealthySince(old(clock)) ==> reply == Completed)
      ensures reply == Completed ==>
                (unmatched == 0 <==> Covered(old(db), source)) && scanned == |RowsOf(old(db), source.sourceName)|
    {
      scanned, unmatched := 0, 0;
      ghost var before := db;
      var first := Tick();
      CalmKeepsStable(before, db, source.sourceName);
      CalmKeepsStable(before, db, source.targetName);
      if !first.Healthy() { return if first.killed then Killed else Failed, 0, 0; }
      var sourceRows := Scan(source.sourceName);
      ghost var mid := db;
      var second := Tick();
      CalmTransitive(before, mid, db);
      CalmKeepsStable(mid, db, source.sourceName);
      CalmKeepsStable(mid, db, source.targetName);
      if !second.Healthy() { return if second.killed then Killed else Failed, 0, 0; }
      var targetRows := Scan(source.targetName);
      scanned, unmatched := VerifyCopy(hash, sourceRows, targetRows);
      UnmatchedIsDifference(hash, sourceRows, targetRows);
      ScansDecide(sourceRows, targetRows, RowsOf(db, source.sourceName), RowsOf(db, source.targetName), idOf);
      reply := Completed;
    }

    method DropCollection(source: Source) returns (reply: Reply)
      requires Valid() && route(source.sourceName) == Some(source) && BothStable(db, source) && Covered(db, source)
      modifies this`db, this`clock
      ensures Valid() && Conserved(route, old(db), db)
      ensures clock > old(clock) && (HealthySince(old(clock)) ==> reply == Completed)
      ensures reply == Completed ==> source.sourceName !in db
      ensures Touched(old(db), db, source)
    {
      ghost var before := db;
      var choice := Tick();
      CalmConserves(route, before, db);
      CalmKeepsStable(before, db, source.sourceName);
      CalmKeepsStable(before, db, source.targetName);
      CalmTouches(before, db, source);
      ghost var mid := db;
      if choice.completes || choice.landed != {} {
        DropConserves(route, db, source.sourceName);
        DropTouches(mid, source);
        db := db - {source.sourceName};
        TouchedTransitive(before, mid, db, source);
        ConservedTransitive(route, before, mid, db);
        ConservedWellKeyed(route, mid, db, idOf);
      }
      reply := if choice.killed then Killed else if choice.completes then Completed else Failed;
    }

    /** Copy, verify what is durable, and only then perhaps drop; no report if the drop threw or the process died. */
    method MigrateCollection(
      source: Source, sourceShape: Shape, targetShape: Shape, drop: bool) returns (report: Option<CopyReport>)
      requires Valid() && route(source.sourceName) == Some(source)
      requires Supported(sourceShape) && Supported(targetShape) ==> BothStable(db, source)
      modifies this`db, this`clock
      ensures Valid() && Conserved(route, old(db), db)
      ensures clock >= old(clock) && (HealthySince(old(clock)) ==> report.Some?)
      ensures report.Some? ==> report.value.sourceName == source.sourceName
      ensures report.Some? && report.value.verified && !drop ==> Covered(db, source) && BothStable(db, source)
      ensures report.Some? && report.value.verified && drop ==> source.sourceName !in db
      ensures report.Some? ==> (report.value.dropped <==> drop && report.value.verified)
      ensures report.Some? && HealthySince(old(clock)) ==>
                (report.value.verified <==>
                    Supported(sourceShape) && Supported(targetShape) && ConflictFree(old(db), source))
      ensures Covered(old(db), source) && !drop ==> Calm(old(db), db)
      ensures !(Supported(sourceShape) && Supported(targetShape)) ==> db == old(db)
      ensures Touched(old(db), db, source)
    {
      var unsupported := UnsupportedShapeReason(sourceShape, targetShape);
      SupportedShapes(sourceShape, targetShape);
      ConservedReflexive(route, db);
      var blank := CopyReport(source.sourceName, source.targetName, 0, 0, unsupported, false, false, false);
      if unsupported.Some? { return Some(blank); }
      ghost var before := db;
      ghost var start := clock;
      var copied := CopyCollection(source);
      if copied == Killed { return None; }
      ghost var merged := db;
      var verification, scanned, unmatched := VerifyCollectionCopy(source);
      CalmConserves(route, merged, db);
      ConservedTransitive(route, before, merged, db);
      CalmTouches(merged, db, source);
      TouchedTransitive(before, merged, db, source);
      if Covered(before, source) { CalmTransitive(before, merged, db); }
      CalmKeepsStable(merged, db, source.sourceName);
      CalmKeepsStable(merged, db, source.targetName);
      if verification == Killed { return None; }
      var uncertain := copied != Completed || verification != Completed;
      var verified := !uncertain && unmatched == 0;
      assert HealthySince(start) ==> (verified <==> ConflictFree(before, source));
      if drop && verified {
        ghost var checked := db;
        var dropped := DropCollection(source);
        ConservedTransitive(route, before, checked, db);
        TouchedTransitive(before, checked, db, source);
        if dropped != Completed { return None; }
      }
      report := Some(blank.(scanned := scanned, unmatched := unmatched, uncertain := uncertain, verified := verified,
                            dropped := drop && verified));
    }

    /** The shape of one collection: its kind from the listing taken at the start, its indexes read now. */
    method ResolveShape(infos: Db, name: string) returns (shape: Option<Shape>)
      requires Valid() && Conserved(route, infos, db)
      modifies this`db, this`clock
      ensures Valid() && Calm(old(db), db) && clock >= old(clock)
      ensures shape.Some? && Supported(shape.value) ==> StableAt(db, name)
      ensures AllHealthy() && StableAt(old(db), name) && (name in infos ==> name in old(db)) ==>
                shape.Some? && Supported(shape.value)
    {
      if name !in infos { return Some(PLAIN); }
      if infos[name].Unkeyed? { return Some(infos[name].GetShape()); }
      ghost var before := db;
      var choice := Tick();
      CalmConserves(route, before, db);
      ConservedTransitive(route, infos, before, db);
      if !choice.Healthy() || name !in db || db[name].Unkeyed? { return None; }
      assert if IsSource(route, name) then SourceConserved(route, infos, db, name)
          else TargetConserved(infos, db, name);
      shape := Some(Shape(Some("collection"), infos[name].capped, db[name].ttlIndexes));
    }

    /** Both shapes and an estimated count; only an error of the count stops the run. */
    method InspectShapes(
      infos: Db, source: Source) returns (died: bool, sourceShape: Option<Shape>, targetShape: Option<Shape>)
      requires Valid() && Conserved(route, infos, db)
      modifies this`db, this`clock
      ensures Valid() && Conserved(route, infos, db) && Calm(old(db), db)
      ensures sourceShape.Some? && targetShape.Some? && Supported(sourceShape.value) && Supported(targetShape.value) ==>
                BothStable(db, source)
      ensures AllHealthy() ==> !died
      ensures AllHealthy() && BothStable(old(db), source) && source.sourceName in old(db)
              && (source.targetName in infos ==> source.targetName in old(db)) ==>
                sourceShape.Some? && targetShape.Some? && Supported(sourceShape.value) && Supported(targetShape.value)
    {
      ghost var before := db;
      sourceShape := ResolveShape(infos, source.sourceName);
      ghost var first := db;
      CalmConserves(route, before, first);
      ConservedTransitive(route, infos, before, first);
      if BothStable(before, source) {
        CalmKeepsStable(before, first, source.sourceName);
        CalmKeepsStable(before, first, source.targetName);
      }
      targetShape := ResolveShape(infos, source.targetName);
      ghost var second := db;
      CalmTransitive(before, first, second);
      var counted := Tick();
      CalmTransitive(before, second, db);
      CalmConserves(route, before, db);
      ConservedTransitive(route, infos, before, db);
      died := !counted.Healthy();
      if sourceShape.Some? && targetShape.Some? {
        ShapesStillHold(before, first, second, db, source, sourceShape.value, targetShape.value);
      }
    }

    lemma TargetsPersist(infos: Db, source: Source)
      requires Conserved(route, infos, db) && Routed(route, source)
      ensures source.targetName in infos ==> source.targetName in db
    {
      if source.targetName in infos { assert TargetConserved(infos, db, source.targetName); }
    }

    lemma ReadyCalm(a: Db, b: Db, source: Source)
      requires Calm(a, b) && Ready(a, source)
      ensures Ready(b, source)
    {
      CalmKeepsStable(a, b, source.sourceName);
      CalmKeepsStable(a, b, source.targetName);
      forall k | k in RowsOf(b, source.sourceName) ensures !Conflicts(b, source.sourceName, source.targetName, k) {
        assert !Conflicts(a, source.sourceName, source.targetName, k);
      }
    }

    /** Inspecting changes nothing that matters to a source. */
    lemma CarriedOver(a: Db, b: Db, source: Source)
      requires Calm(a, b)
      ensures Conserved(route, a, b) && Touched(a, b, source)
      ensures Ready(a, source) ==> Ready(b, source)
      ensures Quiet(a, source) ==> Quiet(b, source)
    {
      CalmConserves(route, a, b);
      CalmTouches(a, b, source);
      if Ready(a, source) { ReadyCalm(a, b, source); }
      if Quiet(a, source) { QuietStays(a, b, source); }
    }

    /** What follows an inspection: a copy, or a report that the shapes are not known. */
    method MigrateInspected(
      source: Source, sourceShape: Option<Shape>, targetShape: Option<Shape>, drop: bool)
      returns (report: Option<CopyReport>)
      requires Valid() && Routed(route, source)
      requires sourceShape.Some? && targetShape.Some? && Supported(sourceShape.value) && Supported(targetShape.value)
               ==> BothStable(db, source)
      modifies this`db, this`clock
      ensures Valid() && Conserved(route, old(db), db) && Touched(old(db), db, source)
      ensures report.Some? && report.value.verified ==> Done(db, source, drop)
      ensures report.Some? ==> (report.value.dropped <==> drop && report.value.verified)
      ensures Quiet(old(db), source) && !drop ==> Calm(old(db), db)
      ensures AllHealthy() ==> report.Some?
      ensures AllHealthy() && sourceShape.Some? && targetShape.Some? && Supported(sourceShape.value)
              && Supported(targetShape.value) && ConflictFree(old(db), source)
              ==> report.value.verified
    {
      if sourceShape.None? || targetShape.None? {
        ConservedReflexive(route, db);
        CalmTouches(db, db, source);
        return Some(CopyReport(source.sourceName, source.targetName, 0, 0, Some(NotInspected), false, false, false));
      }
      report := MigrateCollection(source, sourceShape.value, targetShape.value, drop);
    }

    /** One source of the run: inspect, then migrate or report why not. */
    method ProcessSource(infos: Db, source: Source, drop: bool) returns (report: Option<CopyReport>)
      requires Valid() && Conserved(route, infos, db) && Routed(route, source)
      modifies this`db, this`clock
      ensures Valid() && Conserved(route, old(db), db) && Touched(old(db), db, source)
      ensures report.Some? && report.value.verified ==> Done(db, source, drop)
      ensures report.Some? ==> (report.value.dropped <==> drop && report.value.verified)
      ensures Quiet(old(db), source) && !drop ==> Calm(old(db), db)
      ensures AllHealthy() ==> report.Some? && (Ready(old(db), source) ==> report.value.verified)
    {
      ghost var before := db;
      TargetsPersist(infos, source);
      var died, sourceShape, targetShape := InspectShapes(infos, source);
      ghost var mid := db;
      CarriedOver(before, mid, source);
      if died { return None; }
      report := MigrateInspected(source, sourceShape, targetShape, drop);
      ConservedTransitive(route, before, mid, db);
      TouchedTransitive(before, mid, db, source);
      if Quiet(before, source) && !drop { CalmTransitive(before, mid, db); }
    }

    /** The sources one run would process. */
    ghost predicate Pending(db: Db, agents: Option<set<string>>, n: string) {
      n in db && IsSource(route, n) && Selected(route(n).value, agents)
    }

    method ListNames() returns (names: seq<string>)
      ensures NoRepeats(names) && forall n :: n in names <==> n in db
    {
      names := [];
      var left := db.Keys;
      while left != {}
        invariant left <= db.Keys && forall n :: n in names <==> n in db && n !in left
        invariant NoRepeats(names)
        decreases |left|
      {
        var n :| n in left;
        names := names + [n];
        left := left - {n};
      }
    }

    lemma DoneStays(a: Db, b: Db, source: Source, drop: bool)
      requires Conserved(route, a, b) && Routed(route, source) && Done(a, source, drop)
      ensures Done(b, source, drop)
    {
      var s, t := source.sourceName, source.targetName;
      if s in a { assert SourceConserved(route, a, b, s); }
      if t in a { assert TargetConserved(a, b, t); }
    }

    ghost predicate FromPrefix(sources: seq<Source>) {
      DistinctSources(sources) && forall j :: 0 <= j < |sources| ==> Routed(route, sources[j])
    }

    /** The sources from position i on are ready, and no two of them disagree. */
    ghost predicate AllReady(db: Db, sources: seq<Source>, i: nat) {
      && (forall j :: i <= j < |sources| ==> Ready(db, sources[j]))
      && (forall j, k :: i <= j < k < |sources| ==> Compatible(db, sources[j], sources[k]))
    }

    lemma RestStaysReady(a: Db, b: Db, sources: seq<Source>, i: nat)
      requires i < |sources| && FromPrefix(sources) && AllReady(a, sources, i)
      requires Touched(a, b, sources[i]) && Conserved(route, a, b)
      ensures AllReady(b, sources, i + 1)
    {
      forall j | i < j < |sources|
        ensures Ready(b, sources[j]) && RowsOf(b, sources[j].sourceName) == RowsOf(a, sources[j].sourceName)
      {
        ReadyStays(route, a, b, sources[i], sources[j]);
      }
      forall j, k | i < j < k < |sources| ensures Compatible(b, sources[j], sources[k]) {
        assert Compatible(a, sources[j], sources[k]);
      }
    }

    ghost predicate AllDone(db: Db, sources: seq<Source>, count: nat, drop: bool)
      requires count <= |sources|
    {
      forall j :: 0 <= j < count ==> Done(db, sources[j], drop)
    }

    ghost predicate AllQuiet(db: Db, sources: seq<Source>) {
      forall j :: 0 <= j < |sources| ==> Quiet(db, sources[j])
    }

    lemma AllDoneStays(a: Db, b: Db, sources: seq<Source>, count: nat, drop: bool)
      requires count <= |sources| && FromPrefix(sources)
      requires Conserved(route, a, b) && AllDone(a, sources, count, drop)
      ensures AllDone(b, sources, count, drop)
    {
      forall j | 0 <= j < count ensures Done(b, sources[j], drop) { DoneStays(a, b, sources[j], drop); }
    }

    lemma QuietStep(infos: Db, a: Db, b: Db, source: Source)
      requires Calm(infos, a) && Quiet(infos, source)
      requires Quiet(a, source) ==> Calm(a, b)
      ensures Calm(infos, b)
    {
      QuietStays(infos, a, source);
      CalmTransitive(infos, a, b);
    }

    /** One turn of the loop: what was verified before stays so, and quiet sources change nothing. */
    method ProcessNext(
      infos: Db, sources: seq<Source>, i: nat, drop: bool, verified: bool) returns (report: Option<CopyReport>)
      requires Valid() && i < |sources| && FromPrefix(sources) && Conserved(route, infos, db)
      requires verified ==> AllDone(db, sources, i, drop)
      requires !drop && AllQuiet(infos, sources) ==> Calm(infos, db)
      modifies this`db, this`clock
      ensures Valid() && Conserved(route, infos, db)
      ensures AllHealthy() ==> report.Some?
      ensures AllHealthy() && AllReady(old(db), sources, i) ==> report.value.verified && AllReady(db, sources, i + 1)
      ensures verified && report.Some? && report.value.verified ==> AllDone(db, sources, i + 1, drop)
      ensures !drop && AllQuiet(infos, sources) ==> Calm(infos, db)
    {
      ghost var mid := db;
      report := ProcessSource(infos, sources[i], drop);
      ConservedTransitive(route, infos, mid, db);
      if verified { AllDoneStays(mid, db, sources, i, drop); }
      if AllReady(mid, sources, i) { RestStaysReady(mid, db, sources, i); }
      if !drop && AllQuiet(infos, sources) { QuietStep(infos, mid, db, sources[i]); }
    }

    method ProcessAll(infos: Db, sources: seq<Source>, drop: bool) returns (allVerified: Option<bool>)
      requires Valid() && infos == db && FromPrefix(sources)
      modifies this`db, this`clock
      ensures Valid() && Conserved(route, infos, db)
      ensures allVerified == Some(true) ==> AllDone(db, sources, |sources|, drop)
      ensures AllHealthy() ==> allVerified.Some? && (AllReady(infos, sources, 0) ==> allVerified.value)
      ensures !drop && AllQuiet(infos, sources) ==> Calm(infos, db)
    {
      ConservedReflexive(route, db);
      var verified := true;
      for i := 0 to |sources|
        invariant Valid() && Conserved(route, infos, db)
        invariant verified ==> AllDone(db, sources, i, drop)
        invariant AllHealthy() && AllReady(infos, sources, 0) ==> verified && AllReady(db, sources, i)
        invariant !drop && AllQuiet(infos, sources) ==> Calm(infos, db)
      {
        var report := ProcessNext(infos, sources, i, drop, verified);
        if report.None? { return None; }
        verified := verified && report.value.verified;
      }
      allVerified := Some(verified);
    }

    /** Every source of the run can be copied, and no two of them disagree about a row of their target. */
    ghost predicate RunReady(db: Db, agents: Option<set<string>>) {
      && (forall n :: Pending(db, agents, n) ==> Ready(db, route(n).value))
      && (forall m, n :: Pending(db, agents, m) && Pending(db, agents, n) ==>
            Compatible(db, route(m).value, route(n).value))
    }

    ghost predicate Processes(db: Db, agents: Option<set<string>>, sources: seq<Source>) {
      && FromPrefix(sources)
      && (forall s :: s in sources ==> Pending(db, agents, s.sourceName))
      && (forall n :: Pending(db, agents, n) ==> route(n).value in sources)
    }

    lemma ReadyRun(db: Db, agents: Option<set<string>>, sources: seq<Source>)
      requires Processes(db, agents, sources) && RunReady(db, agents)
      ensures AllReady(db, sources, 0)
    {
      forall j | 0 <= j < |sources| ensures Pending(db, agents, sources[j].sourceName) { assert sources[j] in sources; }
    }

    lemma VerifiedRun(a: Db, b: Db, agents: Option<set<string>>, sources: seq<Source>, drop: bool)
      requires Processes(a, agents, sources) && Conserved(route, a, b) && AllDone(b, sources, |sources|, drop)
      ensures RunReady(a, agents)
      ensures forall n :: Pending(a, agents, n) ==> Done(b, route(n).value, drop)
    {
      forall n | Pending(a, agents, n) ensures Ready(a, route(n).value) && Done(b, route(n).value, drop) {
        assert route(n).value in sources;
        DoneWasReady(route, a, b, route(n).value, drop);
      }
      forall m, n | Pending(a, agents, m) && Pending(a, agents, n)
          ensures Compatible(a, route(m).value, route(n).value) {
        DoneWereCompatible(route, a, b, route(m).value, route(n).value, drop);
      }
    }

    /**
     * `--apply`, with or without `--drop`; no result if the process died or an operation threw.  Every
     * source is verified only if all were ready, and always if besides every operation succeeds.
     */
    method Run(agents: Option<set<string>>, drop: bool) returns (allVerified: Option<bool>)
      requires Valid()
      modifies this`db, this`clock
      ensures Valid() && Conserved(route, old(db), db)
      ensures allVerified == Some(true) ==> forall n :: Pending(old(db), agents, n) ==> Done(db, route(n).value, drop)
      ensures allVerified == Some(true) ==> RunReady(old(db), agents)
      ensures AllHealthy() ==> allVerified.Some? && (allVerified.value <==> RunReady(old(db), agents))
      ensures !drop && (forall n :: Pending(old(db), agents, n) ==> Quiet(old(db), route(n).value)) ==>
                Calm(old(db), db)
    {
      var names := ListNames();
      var sources := DiscoverSources(names, route, agents, order);
      DiscoveredDistinct(names, route, agents, order);
      ghost var before := db;
      ProcessesAll(names, agents, sources);
      allVerified := ProcessAll(db, sources, drop);
      if RunReady(before, agents) { ReadyRun(before, agents, sources); }
      if allVerified == Some(true) { VerifiedRun(before, db, agents, sources, drop); }
    }

    lemma ProcessesAll(names: seq<string>, agents: Option<set<string>>, sources: seq<Source>)
      requires DistinctSources(sources) && forall n :: n in names <==> n in db
      requires forall s :: s in sources <==> s.sourceName in names && Routed(route, s) && Selected(s, agents)
      ensures Processes(db, agents, sources)
      ensures (forall n :: Pending(db, agents, n) ==> Quiet(db, route(n).value)) ==> AllQuiet(db, sources)
    {
      forall j | 0 <= j < |sources| ensures Routed(route, sources[j]) && Pending(db, agents, sources[j].sourceName) {
        assert sources[j] in sources;
      }
    }

    /** Runs with any filters and modes, interrupted anywhere, one after another. */
    method RunRepeatedly(runs: seq<(Option<set<string>>, bool)>)
      requires Valid()
      modifies this`db, this`clock
      ensures Valid() && Conserved(route, old(db), db)
    {
      ConservedReflexive(route, db);
      ghost var before := db;
      for i := 0 to |runs|
        invariant Valid() && Conserved(route, before, db)
      {
        ghost var mid := db;
        var _ := Run(runs[i].0, runs[i].1);
        ConservedTransitive(route, before, mid, db);
      }
    }

    lemma QuietStays(before: Db, after: Db, source: Source)
      requires Calm(before, after) && Quiet(before, source)
      ensures Quiet(after, source)
    {
      if BothStable(after, source) {
        assert source.sourceName in before ==> Kept(before[source.sourceName], after[source.sourceName]);
        assert source.targetName in before ==> Kept(before[source.targetName], after[source.targetName]);
        CalmKeepsStable(before, after, source.sourceName);
        CalmKeepsStable(before, after, source.targetName);
      }
    }

    lemma ShapesStillHold(
      before: Db, first: Db, second: Db, third: Db, source: Source, sourceShape: Shape, targetShape: Shape)
      requires Calm(before, first) && Calm(first, second) && Calm(second, third)
      requires Supported(sourceShape) ==> StableAt(first, source.sourceName)
      requires Supported(targetShape) ==> StableAt(second, source.targetName)
      ensures Supported(sourceShape) && Supported(targetShape) ==> BothStable(third, source)
    {
      if Supported(sourceShape) && Supported(targetShape) {
        CalmKeepsStable(first, second, source.sourceName);
        CalmKeepsStable(second, third, source.sourceName);
        CalmKeepsStable(second, third, source.targetName);
      }
    }
  }

  lemma CoveredMergeIsNothing(db: Db, s: string, t: string, ids: set<string>)
    ensures Within(RowsOf(db, s), RowsOf(db, t)) ==> Merged(db, s, t, ids) == db
  {
    if Within(RowsOf(db, s), RowsOf(db, t)) {
      assert Missing(db, s, t, ids) == map[];
    }
  }

  // ---------------------------------------------------------------- the names as the program reads them

  /** A collection of one agent, under a name that discovery reads back. */
  predicate AgentCollection(prefix: string, agentId: string, j: nat, name: string) {
    && j < |BASE_COLLECTIONS| && AgentSegment(agentId) && name == prefix + agentId + "_" + BASE_COLLECTIONS[j]
    && agentId + "_" + BASE_COLLECTIONS[j] !in BASE_COLLECTIONS
  }

  lemma AgentCollectionRouted(prefix: string, agentId: string, j: nat, name: string)
    requires AgentCollection(prefix, agentId, j, name)
    ensures PrefixRoute(prefix)(name) ==
            Some(Source(agentId, BASE_COLLECTIONS[j], name, prefix + BASE_COLLECTIONS[j]))
  {
    DiscoveryRecoversAgentAndBase(prefix, agentId, j);
  }

  /** Each row of an agent's collection is still there, or byte-identical in the shared collection. */
  ghost predicate AgentRowsKept(prefix: string, j: nat, name: string, a: Db, b: Db)
    requires j < |BASE_COLLECTIONS|
  {
    name in a && a[name].Stable() ==> forall k :: k in a[name].rows ==>
      || (k in RowsOf(b, name) && RowsOf(b, name)[k] == a[name].rows[k])
      || (k in RowsOf(b, prefix + BASE_COLLECTIONS[j]) && RowsOf(b, prefix + BASE_COLLECTIONS[j])[k] == a[name].rows[k])
  }

  lemma AgentRowsSurvive(prefix: string, agentId: string, j: nat, name: string, a: Db, b: Db)
    requires Conserved(PrefixRoute(prefix), a, b) && AgentCollection(prefix, agentId, j, name)
    ensures AgentRowsKept(prefix, j, name, a, b)
  {
    AgentCollectionRouted(prefix, agentId, j, name);
    if name in a && a[name].Stable() {
      forall k | k in a[name].rows
        ensures || (k in RowsOf(b, name) && RowsOf(b, name)[k] == a[name].rows[k])
                || (k in RowsOf(b, prefix + BASE_COLLECTIONS[j])
                    && RowsOf(b, prefix + BASE_COLLECTIONS[j])[k] == a[name].rows[k])
      {
        NoRowLost(PrefixRoute(prefix), a, b, name, k);
      }
    }
  }

  lemma SharedRowsSurvive(prefix: string, j: nat, a: Db, b: Db)
    requires Conserved(PrefixRoute(prefix), a, b) && j < |BASE_COLLECTIONS|
    requires var t := prefix + BASE_COLLECTIONS[j]; t in a && a[t].Stable()
    ensures var t := prefix + BASE_COLLECTIONS[j]; t in b && Within(a[t].rows, RowsOf(b, t))
  {
    var t := prefix + BASE_COLLECTIONS[j];
    assert t[|prefix|..] == BASE_COLLECTIONS[j];
    assert TargetConserved(a, b, t);
  }

  /**
   * One run over the real names.  The rows of every agent's collection survive it and so do those of
   * every shared collection; if all copies verified, the selected ones are covered, or dropped.
   */
  method MigrateToSharedPrefix(
    prefix: string, order: NameOrder, hash: Hash, idOf: Row -> string, env: nat -> Choice, db: Db,
    agents: Option<set<string>>, drop: bool)
    returns (allVerified: Option<bool>, after: Db)
    requires WellKeyed(db, idOf) && Injective(hash)
    ensures forall agentId, j: nat, name | AgentCollection(prefix, agentId, j, name) ::
              AgentRowsKept(prefix, j, name, db, after)
    ensures forall j | 0 <= j < |BASE_COLLECTIONS| && StableAt(db, prefix + BASE_COLLECTIONS[j]) ::
              Within(RowsOf(db, prefix + BASE_COLLECTIONS[j]), RowsOf(after, prefix + BASE_COLLECTIONS[j]))
    ensures allVerified == Some(true) ==>
              forall agentId, j: nat, name | AgentCollection(prefix, agentId, j, name) && name in db
                && (agents.Some? ==> agentId in agents.value) ::
                  Done(after, Source(agentId, BASE_COLLECTIONS[j], name, prefix + BASE_COLLECTIONS[j]), drop)
  {
    var migrator := new Migrator(PrefixRoute(prefix), order, hash, idOf, env, db);
    allVerified := migrator.Run(agents, drop);
    after := migrator.db;
    forall agentId, j: nat, name | AgentCollection(prefix, agentId, j, name)
      ensures AgentRowsKept(prefix, j, name, db, after)
    {
      AgentRowsSurvive(prefix, agentId, j, name, db, after);
    }
    forall j | 0 <= j < |BASE_COLLECTIONS| && StableAt(db, prefix + BASE_COLLECTIONS[j])
      ensures Within(RowsOf(db, prefix + BASE_COLLECTIONS[j]), RowsOf(after, prefix + BASE_COLLECTIONS[j]))
    {
      if prefix + BASE_COLLECTIONS[j] in db { SharedRowsSurvive(prefix, j, db, after); }
    }
    if allVerified == Some(true) {
      forall agentId, j: nat, name | AgentCollection(prefix, agentId, j, name) && name in db
                                     && (agents.Some? ==> agentId in agents.value)
        ensures Done(after, Source(agentId, BASE_COLLECTIONS[j], name, prefix + BASE_COLLECTIONS[j]), drop)
      {
        AgentCollectionRouted(prefix, agentId, j, name);
        assert migrator.Pending(db, agents, name);
      }
    }
  }
}
