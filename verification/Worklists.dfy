/** Three closures computed by worklists: source files, workspace packages, and RegExp bindings. */
module Worklists {
  import opened Common

  // ---------------------------------------------------------------- the benchmark's source graph

  const WORKSPACE: string := "@memongo/"

  datatype Import = Import(importer: string, specifier: string)

  /** A repository as the walk sees it. */
  datatype Tree = Tree(
    files: set<string>,
    linked: set<string>,
    /** The module requests of a file, or nothing when it does not parse. */
    requests: string -> Option<seq<string>>,
    /** The file a relative request resolves to. */
    resolve: (string, string) -> Option<string>,
    /** Outside the repository, or under a generated directory. */
    excluded: string -> bool)

  predicate Workspace(specifier: string) { WORKSPACE <= specifier }

  predicate Relative(specifier: string) { !Workspace(specifier) && "." <= specifier }

  predicate Followable(t: Tree, file: string, specifier: string) {
    var target := t.resolve(file, specifier);
    target.Some? && target.value in t.files && !t.excluded(target.value)
  }

  /** Every relative request of the file leads to a tracked-style source file. */
  predicate Sound(t: Tree, file: string) {
    && file !in t.linked && t.requests(file).Some?
    && forall i :: 0 <= i < |t.requests(file).value| && Relative(t.requests(file).value[i]) ==>
       Followable(t, file, t.requests(file).value[i])
  }

  predicate Edge(t: Tree, a: string, b: string) {
    && Sound(t, a)
    && exists i ::
         0 <= i < |t.requests(a).value| && Relative(t.requests(a).value[i])
         && t.resolve(a, t.requests(a).value[i]) == Some(b)
  }

  ghost predicate Path(t: Tree, entry: string, p: seq<string>) {
    p != [] && p[0] == entry && forall i :: 0 <= i < |p| - 1 ==> Edge(t, p[i], p[i + 1])
  }

  ghost predicate Reachable(t: Tree, entry: string, file: string) {
    exists p :: Path(t, entry, p) && p[|p| - 1] == file
  }

  lemma ReachableStep(t: Tree, entry: string, a: string, b: string)
    requires Reachable(t, entry, a) && Edge(t, a, b)
    ensures Reachable(t, entry, b)
  {
    var p :| Path(t, entry, p) && p[|p| - 1] == a;
    var q := p + [b];
    forall i | 0 <= i < |q| - 1 ensures Edge(t, q[i], q[i + 1]) {
      if i < |p| - 1 { assert Edge(t, p[i], p[i + 1]); }
    }
    assert Path(t, entry, q) && q[|q| - 1] == b;
  }

  lemma ReachableEntry(t: Tree, entry: string)
    ensures Reachable(t, entry, entry)
  {
    assert Path(t, entry, [entry]) && [entry][|[entry]| - 1] == entry;
  }

  /** A set that holds the entry and is closed under edges holds everything reachable. */
  lemma {:induction false} ClosedHoldsPath(t: Tree, entry: string, p: seq<string>, s: set<string>)
    requires Path(t, entry, p) && entry in s && forall a, b :: a in s && Edge(t, a, b) ==> b in s
    ensures p[|p| - 1] in s
    decreases |p|
  {
    if |p| > 1 {
      var n := |p| - 1;
      assert Path(t, entry, p[..n]);
      ClosedHoldsPath(t, entry, p[..n], s);
      assert Edge(t, p[n - 1], p[n]);
    }
  }

  function Targets(t: Tree, file: string, requests: seq<string>): seq<string> {
    if requests == [] then []
    else
      var rest, last := Targets(t, file, requests[..|requests| - 1]), requests[|requests| - 1];
      if Relative(last) && Followable(t, file, last) then rest + [t.resolve(file, last).value] else rest
  }

  function WorkspaceImports(file: string, requests: seq<string>): seq<Import> {
    if requests == [] then []
    else
      var rest, last := WorkspaceImports(file, requests[..|requests| - 1]), requests[|requests| - 1];
      if Workspace(last) then rest + [Import(file, last)] else rest
  }

  lemma {:induction false} TargetsContents(t: Tree, file: string, requests: seq<string>)
    ensures forall b :: b in Targets(t, file, requests) <==>
              exists i :: 0 <= i < |requests| && Relative(requests[i]) && Followable(t, file, requests[i])
                  && t.resolve(file, requests[i]) == Some(b)
  {
    if requests != [] {
      var n := |requests| - 1;
      TargetsContents(t, file, requests[..n]);
      forall b ensures b in Targets(t, file, requests) <==>
                exists i :: 0 <= i < |requests| && Relative(requests[i]) && Followable(t, file, requests[i])
                    && t.resolve(file, requests[i]) == Some(b) {
        if i :|
          0 <= i < n && Relative(requests[..n][i]) && Followable(t, file, requests[..n][i])
          && t.resolve(file, requests[..n][i]) == Some(b)
        {
          assert requests[..n][i] == requests[i];
        }
      }
    }
  }

  /** The requests of one file: what to follow and what to report, or a refusal. */
  method ScanFile(t: Tree, file: string) returns (r: Option<(seq<string>, seq<Import>)>)
    ensures r.Some? <==> Sound(t, file)
    ensures r.Some? ==>
              (forall b :: b in r.value.0 <==> Edge(t, file, b)) && (forall b :: b in r.value.0 ==> b in t.files)
    ensures r.Some? ==> r.value.1 == WorkspaceImports(file, t.requests(file).value)
  {
    if file in t.linked { return None; }
    var parsed := t.requests(file);
    if parsed.None? { return None; }
    var requests := parsed.value;
    var queue, imports := [], [];
    for i := 0 to |requests|
      invariant queue == Targets(t, file, requests[..i]) && imports == WorkspaceImports(file, requests[..i])
      invariant forall j :: 0 <= j < i && Relative(requests[j]) ==> Followable(t, file, requests[j])
    {
      assert requests[..i + 1][..i] == requests[..i];
      var specifier := requests[i];
      if Workspace(specifier) {
        imports := imports + [Import(file, specifier)];
      } else if "." <= specifier {
        if !Followable(t, file, specifier) { return None; }
        queue := queue + [t.resolve(file, specifier).value];
      }
    }
    assert requests[..|requests|] == requests;
    TargetsContents(t, file, requests);
    return Some((queue, imports));
  }

  function AllImports(t: Tree, visited: seq<string>): seq<Import> {
    if visited == [] then []
    else
      var last := visited[|visited| - 1];
      AllImports(t, visited[..|visited| - 1])
          + (if t.requests(last).Some? then WorkspaceImports(last, t.requests(last).value) else [])
  }

  datatype Walk = Walked(files: seq<string>, imports: seq<Import>) | WalkRefused

  /** The files found are closed under edges up to what is still queued, and all reachable. */
  ghost predicate Frontier(t: Tree, entry: string, seen: set<string>, queue: seq<string>) {
    && (entry in seen || entry in queue)
    && (forall f :: f in seen ==> Reachable(t, entry, f) && Sound(t, f))
    && (forall f :: f in queue ==> Reachable(t, entry, f) && f in t.files)
    && (forall a, b :: a in seen && Edge(t, a, b) ==> b in seen || b in queue)
  }

  method WalkSourceGraph(t: Tree, entry: string) returns (r: Walk, ghost visited: seq<string>)
    ensures r.Walked? ==>
              && (forall f :: f in r.files <==> Reachable(t, entry, f))
              && StrictlySorted(r.files)
              && NoRepeats(visited) && (forall f :: f in visited <==> f in r.files)
                 && r.imports == AllImports(t, visited)
    ensures r.Walked? <==> entry in t.files && forall f :: Reachable(t, entry, f) ==> Sound(t, f)
  {
    visited := [];
    if entry !in t.files {
      return WalkRefused, [];
    }
    var seen: set<string> := {};
    var queue := [entry];
    var imports: seq<Import> := [];
    ReachableEntry(t, entry);
    while queue != []
      invariant Frontier(t, entry, seen, queue) && seen <= t.files
      invariant Logged(t, visited, seen, imports)
      decreases |t.files - seen|, |queue|
    {
      var file := queue[|queue| - 1];
      var rest := queue[..|queue| - 1];
      assert queue == rest + [file];
      if file in seen {
        queue := rest;
      } else {
        var scanned := ScanFile(t, file);
        if scanned.None? {
          return WalkRefused, visited;
        }
        NextFrontier(t, entry, seen, rest, file, scanned.value.0);
        LogNext(t, visited, seen, imports, file);
        LeftShrinks(t.files, seen, file);
        seen := seen + {file};
        visited := visited + [file];
        imports := imports + scanned.value.1;
        queue := rest + scanned.value.0;
      }
    }
    FrontierDone(t, entry, seen);
    SortedAscends(seen);
    r := Walked(Sorted(seen), imports);
  }

  /** The files in the order they were read, and the workspace imports in that order. */
  ghost predicate Logged(t: Tree, visited: seq<string>, seen: set<string>, imports: seq<Import>) {
    NoRepeats(visited) && (forall f :: f in visited <==> f in seen) && imports == AllImports(t, visited)
  }

  lemma LogNext(t: Tree, visited: seq<string>, seen: set<string>, imports: seq<Import>, file: string)
    requires Logged(t, visited, seen, imports) && file !in seen && t.requests(file).Some?
    ensures Logged(t, visited + [file], seen + {file}, imports + WorkspaceImports(file, t.requests(file).value))
  {
    assert (visited + [file])[..|visited|] == visited;
  }

  lemma LeftShrinks(all: set<string>, seen: set<string>, x: string)
    requires x in all && x !in seen
    ensures |all - (seen + {x})| < |all - seen|
  {
    assert all - seen == (all - (seen + {x})) + {x};
  }

  lemma FrontierDone(t: Tree, entry: string, seen: set<string>)
    requires Frontier(t, entry, seen, [])
    ensures forall f :: Reachable(t, entry, f) <==> f in seen
  {
    forall f | Reachable(t, entry, f) ensures f in seen {
      var p :| Path(t, entry, p) && p[|p| - 1] == f;
      ClosedHoldsPath(t, entry, p, seen);
    }
  }

  lemma NextFrontier(t: Tree, entry: string, seen: set<string>, rest: seq<string>, file: string, targets: seq<string>)
    requires Frontier(t, entry, seen, rest + [file]) && Sound(t, file)
    requires (forall b :: b in targets <==> Edge(t, file, b)) && (forall b :: b in targets ==> b in t.files)
    ensures Frontier(t, entry, seen + {file}, rest + targets)
  {
    assert file in rest + [file];
    forall b | b in targets ensures Reachable(t, entry, b) { ReachableStep(t, entry, file, b); }
    forall f | f in rest ensures f in rest + [file] {}
  }

  // ---------------------------------------------------------------- the workspace build

  /** Resolution and built trees as the identity check sees them. */
  datatype Workspaces = Workspaces(
    packages: set<string>,
    /** The package a specifier resolves to from a directory; it depends on nothing else. */
    resolve: (string, string) -> Option<string>,
    /** The workspace imports found in a package's built tree, or nothing when the tree is refused. */
    built: string -> Option<seq<Import>>,
    directoryOf: string -> string)

  predicate Resolves(w: Workspaces, i: Import) {
    var target := w.resolve(w.directoryOf(i.importer), i.specifier);
    target.Some? && target.value in w.packages
  }

  function PackageOf(w: Workspaces, i: Import): string
    requires Resolves(w, i)
  {
    w.resolve(w.directoryOf(i.importer), i.specifier).value
  }

  /** A package is needed when an import needed so far resolves to it. */
  ghost predicate Needed(w: Workspaces, imports: seq<Import>, p: string, depth: nat)
    decreases depth
  {
    || (exists i :: i in imports && Resolves(w, i) && PackageOf(w, i) == p)
    || (depth > 0 && exists q, i :: Needed(w, imports, q, depth - 1) && w.built(q).Some? && i in w.built(q).value
                                    && Resolves(w, i) && PackageOf(w, i) == p)
  }

  ghost predicate NeededAtAll(
    w: Workspaces, imports: seq<Import>, p: string) { exists d: nat :: Needed(w, imports, p, d) }

  /** An import that some needed package, or the benchmark itself, makes. */
  ghost predicate Made(w: Workspaces, imports: seq<Import>, i: Import) {
    i in imports || exists q :: NeededAtAll(w, imports, q) && w.built(q).Some? && i in w.built(q).value
  }

  lemma MadeIsNeeded(w: Workspaces, imports: seq<Import>, i: Import)
    requires Made(w, imports, i) && Resolves(w, i)
    ensures NeededAtAll(w, imports, PackageOf(w, i))
  {
    if i in imports {
      assert Needed(w, imports, PackageOf(w, i), 0);
    } else {
      var q :| NeededAtAll(w, imports, q) && w.built(q).Some? && i in w.built(q).value;
      var d: nat :| Needed(w, imports, q, d);
      assert Needed(w, imports, PackageOf(w, i), d + 1);
    }
  }

  /** The packages found, the resolutions already made, and what is still to resolve. */
  ghost predicate Observing(
    w: Workspaces, imports: seq<Import>, found: set<string>, resolved: set<(string, string)>, pending: seq<Import>) {
    && found <= w.packages
    && (forall p :: p in found ==> NeededAtAll(w, imports, p) && w.built(p).Some?)
    && (forall i :: i in pending ==> Made(w, imports, i))
    && (forall k :: k in resolved ==> w.resolve(k.0, k.1).Some? && w.resolve(k.0, k.1).value in found)
    && (forall i :: i in imports ==> i in pending || (w.directoryOf(i.importer), i.specifier) in resolved)
    && (forall p, i :: p in found && i in w.built(p).value ==>
       i in pending || (w.directoryOf(i.importer), i.specifier) in resolved)
  }

  /** With nothing pending, every needed package has been found. */
  lemma {:induction false} ObservedAll(
    w: Workspaces, imports: seq<Import>, found: set<string>, resolved: set<(string, string)>, p: string, depth: nat)
    requires Observing(w, imports, found, resolved, []) && Needed(w, imports, p, depth)
    ensures p in found
    decreases depth
  {
    if i :| i in imports && Resolves(w, i) && PackageOf(w, i) == p {
      assert (w.directoryOf(i.importer), i.specifier) in resolved;
    } else {
      var q, i :| Needed(w, imports, q, depth - 1) && w.built(q).Some? && i in w.built(q).value && Resolves(w, i)
          && PackageOf(w, i) == p;
      ObservedAll(w, imports, found, resolved, q, depth - 1);
      assert (w.directoryOf(i.importer), i.specifier) in resolved;
    }
  }

  /** Nothing the walk meets is refused. */
  ghost predicate AllAcceptable(w: Workspaces, imports: seq<Import>) {
    && (forall i :: Made(w, imports, i) ==> Resolves(w, i))
    && (forall p :: NeededAtAll(w, imports, p) ==> w.built(p).Some?)
  }

  method ObserveWorkspaceBuild(w: Workspaces, imports: seq<Import>) returns (r: Option<set<string>>)
    ensures r.Some? ==> forall p :: p in r.value <==> NeededAtAll(w, imports, p)
    ensures r.Some? <==> AllAcceptable(w, imports)
  {
    var pending := imports;
    var resolvedFrom: set<(string, string)> := {};
    var packages: set<string> := {};
    while pending != []
      invariant Observing(w, imports, packages, resolvedFrom, pending)
      invariant forall k :: k in resolvedFrom ==> w.resolve(k.0, k.1).Some?
      decreases |w.packages - packages|, |pending|
    {
      var next := pending[|pending| - 1];
      var rest := pending[..|pending| - 1];
      assert pending == rest + [next];
      assert Made(w, imports, next);
      var key := (w.directoryOf(next.importer), next.specifier);
      if key in resolvedFrom {
        SkipResolved(w, imports, packages, resolvedFrom, rest, next);
        pending := rest;
      } else {
        if !Resolves(w, next) { return None; }
        var dir := PackageOf(w, next);
        MadeIsNeeded(w, imports, next);
        if dir in packages {
          ResolveKnown(w, imports, packages, resolvedFrom, rest, next);
          pending := rest;
        } else {
          var tree := w.built(dir);
          if tree.None? { return None; }
          ResolveNew(w, imports, packages, resolvedFrom, rest, next);
          LeftShrinks(w.packages, packages, dir);
          packages := packages + {dir};
          pending := rest + tree.value;
        }
        resolvedFrom := resolvedFrom + {key};
      }
    }
    ObservationDone(w, imports, packages, resolvedFrom);
    r := Some(packages);
  }

  lemma SkipResolved(
    w: Workspaces, imports: seq<Import>, found: set<string>, resolved: set<(string, string)>, rest: seq<Import>,
    next: Import)
    requires Observing(w, imports, found, resolved, rest + [next])
              && (w.directoryOf(next.importer), next.specifier) in resolved
    ensures Observing(w, imports, found, resolved, rest)
  {
    forall i | i in rest ensures i in rest + [next] {}
  }

  lemma ResolveKnown(
    w: Workspaces, imports: seq<Import>, found: set<string>, resolved: set<(string, string)>, rest: seq<Import>,
    next: Import)
    requires Observing(w, imports, found, resolved, rest + [next]) && Resolves(w, next) && PackageOf(w, next) in found
    ensures Observing(w, imports, found, resolved + {(w.directoryOf(next.importer), next.specifier)}, rest)
  {
    forall i | i in rest ensures i in rest + [next] {}
  }

  lemma ResolveNew(
    w: Workspaces, imports: seq<Import>, found: set<string>, resolved: set<(string, string)>, rest: seq<Import>,
    next: Import)
    requires Observing(w, imports, found, resolved, rest + [next]) && Resolves(w, next)
    requires NeededAtAll(w, imports, PackageOf(w, next)) && w.built(PackageOf(w, next)).Some?
    ensures Observing(w, imports, found + {PackageOf(w, next)},
              resolved + {(w.directoryOf(next.importer), next.specifier)},
                      rest + w.built(PackageOf(w, next)).value)
  {
    forall i | i in rest ensures i in rest + [next] {}
  }

  lemma ObservationDone(w: Workspaces, imports: seq<Import>, found: set<string>, resolved: set<(string, string)>)
    requires Observing(w, imports, found, resolved, [])
    ensures (forall p :: p in found <==> NeededAtAll(w, imports, p)) && AllAcceptable(w, imports)
  {
    forall p | NeededAtAll(w, imports, p) ensures p in found {
      var d: nat :| Needed(w, imports, p, d);
      ObservedAll(w, imports, found, resolved, p, d);
    }
    forall i | Made(w, imports, i) ensures Resolves(w, i) {
      assert (w.directoryOf(i.importer), i.specifier) in resolved;
    }
  }

  // ---------------------------------------------------------------- RegExp bindings

  datatype Expr =
    | RegexLiteral
    | New(callee: Option<string>)
    | Call(callee: Option<string>)
    | Ident(name: string)
    | Conditional(whenTrue: Expr, whenFalse: Expr)
    | Choice(left: Expr, right: Expr)
    | Wrapped(inner: Expr)
    | Other

  /** The nodes a pass reacts to, in the order it meets them. */
  datatype Binding =
    | Variable(name: Option<string>, typed: bool, init: Option<Expr>)
    | Parameter(name: Option<string>, typed: bool)
    | Assignment(left: Option<string>, right: Expr)

  /** Strip parentheses, assertions and the like. */
  function Unwrapped(e: Expr): (r: Expr)
    ensures !r.Wrapped?
    ensures r == e || r < e
  {
    if e.Wrapped? then Unwrapped(e.inner) else e
  }

  predicate IsRegExpConstruction(e: Expr) {
    var inner := Unwrapped(e);
    inner.RegexLiteral? || ((inner.New? || inner.Call?) && inner.callee == Some("RegExp"))
  }

  predicate ProducesRegExp(e: Expr, names: set<string>, factories: set<string>)
    decreases e
  {
    var inner := Unwrapped(e);
    if IsRegExpConstruction(inner) then true
    else
      match inner
      case Ident(name) => name in names
      case Call(callee) => callee.Some? && callee.value in factories
      case Conditional(a, b) => ProducesRegExp(a, names, factories) || ProducesRegExp(b, names, factories)
      case Choice(a, b) => ProducesRegExp(a, names, factories) || ProducesRegExp(b, names, factories)
      case _ => false
  }

  /** The name one node binds, given the names bound so far. */
  function Binds(b: Binding, names: set<string>, factories: set<string>): Option<string> {
    match b
    case Variable(name, typed, init) =>
      if typed || (init.Some? && ProducesRegExp(init.value, names, factories)) then name else None
    case Parameter(name, typed) => if typed then name else None
    case Assignment(left, right) => if ProducesRegExp(right, names, factories) then left else None
  }

  lemma {:induction false} ProducesMonotone(e: Expr, a: set<string>, b: set<string>, factories: set<string>)
    requires a <= b && ProducesRegExp(e, a, factories)
    ensures ProducesRegExp(e, b, factories)
    decreases e
  {
    var inner := Unwrapped(e);
    if !IsRegExpConstruction(inner) {
      match inner
      case Conditional(x, y) =>
        if ProducesRegExp(x, a, factories) { ProducesMonotone(x, a, b, factories); }
            else { ProducesMonotone(y, a, b, factories); }
      case Choice(x, y) =>
        if ProducesRegExp(x, a, factories) { ProducesMonotone(x, a, b, factories); }
            else { ProducesMonotone(y, a, b, factories); }
      case _ =>
    }
  }

  lemma BindsMonotone(n: Binding, a: set<string>, b: set<string>, factories: set<string>)
    requires a <= b && Binds(n, a, factories).Some?
    ensures Binds(n, b, factories) == Binds(n, a, factories)
  {
    match n
    case Variable(_, typed, init) => if !typed { ProducesMonotone(init.value, a, b, factories); }
    case Parameter(_, _) =>
    case Assignment(_, right) => ProducesMonotone(right, a, b, factories);
  }

  /** No node would bind a further name. */
  ghost predicate Closed(bindings: seq<Binding>, names: set<string>, factories: set<string>) {
    forall b :: b in bindings && Binds(b, names, factories).Some? ==> Binds(b, names, factories).value in names
  }

  /** The least set of names closed under the alias rules. */
  ghost predicate LeastClosed(bindings: seq<Binding>, names: set<string>, factories: set<string>) {
    Closed(bindings, names, factories) && forall s :: Closed(bindings, s, factories) ==> names <= s
  }

  function Mentioned(bindings: seq<Binding>): set<string> {
    set b | b in bindings && NameOf(b).Some? :: NameOf(b).value
  }

  function NameOf(b: Binding): Option<string> {
    match b case Variable(name, _, _) => name case Parameter(name, _) => name case Assignment(left, _) => left
  }

  /** One pass over the file, binding as it goes. */
  method Visit(
    bindings: seq<Binding>, names: set<string>, factories: set<string>) returns (more: set<string>, grew: bool)
    requires names <= Mentioned(bindings) && forall s :: Closed(bindings, s, factories) ==> names <= s
    ensures names <= more <= Mentioned(bindings) && (grew <==> more != names)
    ensures forall s :: Closed(bindings, s, factories) ==> more <= s
    ensures !grew ==> Closed(bindings, names, factories)
  {
    more, grew := names, false;
    for i := 0 to |bindings|
      invariant names <= more <= Mentioned(bindings) && (grew <==> more != names)
      invariant forall s :: Closed(bindings, s, factories) ==> more <= s
      invariant !grew ==> forall j :: 0 <= j < i && Binds(bindings[j], names, factories).Some? ==>
                Binds(bindings[j], names, factories).value in names
    {
      var bound := Binds(bindings[i], more, factories);
      if bound.Some? && bound.value !in more {
        BindForced(bindings, bindings[i], more, factories);
        assert NameOf(bindings[i]) == bound;
        more := more + {bound.value};
        grew := true;
      }
    }
  }

  lemma BindForced(bindings: seq<Binding>, b: Binding, names: set<string>, factories: set<string>)
    requires b in bindings && Binds(b, names, factories).Some?
    requires forall s :: Closed(bindings, s, factories) ==> names <= s
    ensures forall s :: Closed(bindings, s, factories) ==> Binds(b, names, factories).value in s
  {
    forall s | Closed(bindings, s, factories) ensures Binds(b, names, factories).value in s {
      BindsMonotone(b, names, s, factories);
    }
  }

  method CollectRegExpBindings(bindings: seq<Binding>, factories: set<string>) returns (names: set<string>)
    ensures LeastClosed(bindings, names, factories)
  {
    names := {};
    var grew := true;
    while grew
      invariant names <= Mentioned(bindings) && forall s :: Closed(bindings, s, factories) ==> names <= s
      invariant !grew ==> Closed(bindings, names, factories)
      decreases |Mentioned(bindings) - names|, grew
    {
      ghost var before := names;
      names, grew := Visit(bindings, names, factories);
      if grew { Fewer(Mentioned(bindings), before, names); }
    }
  }

  lemma Fewer(all: set<string>, a: set<string>, b: set<string>)
    requires a < b <= all
    ensures |all - b| < |all - a|
  {
    assert all - a == (all - b) + (b - a);
    assert b - a != {};
  }

  /** The order of the declarations does not matter. */
  lemma BindingOrderDoesNotMatter(
    a: seq<Binding>, b: seq<Binding>, x: set<string>, y: set<string>, factories: set<string>)
    requires multiset(a) == multiset(b)
    requires LeastClosed(a, x, factories) && LeastClosed(b, y, factories)
    ensures x == y
  {
    forall n ensures n in a <==> n in b { assert n in multiset(a) <==> n in multiset(b); }
    forall s ensures Closed(a, s, factories) <==> Closed(b, s, factories) {}
  }
}
