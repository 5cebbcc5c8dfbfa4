/** Which per-agent collections feed which shared target, as read from their names. */
module SharedPrefixNames {
  import opened Common

  const BASE_COLLECTIONS: seq<string> := [
    "structured_mem_revisions", "relevance_regressions", "procedure_revisions", "consolidation_runs",
    "relevance_artifacts", "memory_quarantine", "projection_runs", "memory_mutations", "memory_cost_ledger",
    "relevance_runs", "memory_telemetry", "session_chunks", "knowledge_base", "lane_coverage", "recall_traces",
    "access_events", "entity_links", "memory_jobs", "structured_mem", "kb_chunks", "procedures", "query_cache",
    "episodes", "relations", "entities", "chunks", "events", "files", "meta", "memory_evidence", "ingest_runs"]

  datatype Source = Source(agentId: string, base: string, sourceName: string, targetName: string)

  predicate SegmentChar(c: char) { 'a' <= c <= 'z' || '0' <= c <= '9' || c == '-' }

  predicate AgentSegment(s: string) { s != [] && forall i :: 0 <= i < |s| ==> SegmentChar(s[i]) }

  function FirstBase(rest: string, candidates: seq<string>): Option<string> {
    if candidates == [] then None
    else if EndsWith(rest, "_" + candidates[0]) then Some(candidates[0])
    else FirstBase(rest, candidates[1..])
  }

  lemma {:induction false} FirstBaseFits(rest: string, candidates: seq<string>)
    ensures var b := FirstBase(rest, candidates); b.Some? ==> b.value in candidates && EndsWith(rest, "_" + b.value)
  {
    if candidates != [] && !EndsWith(rest, "_" + candidates[0]) { FirstBaseFits(rest, candidates[1..]); }
  }

  /** One collection name read against a list of shared bases. */
  function ParseSource(prefix: string, name: string, bases: seq<string>): Option<Source> {
    if !(prefix <= name) then None
    else
      var rest := name[|prefix|..];
      if rest in bases then None
      else
        var base := FirstBase(rest, bases);
        FirstBaseFits(rest, bases);
        if base.None? then None
        else
          var agentId := rest[..|rest| - |base.value| - 1];
          if AgentSegment(agentId) then Some(Source(agentId, base.value, name, prefix + base.value)) else None
  }

  /** One collection name as a migration source, before any agent filter. */
  function SourceOf(prefix: string, name: string): Option<Source> {
    ParseSource(prefix, name, BASE_COLLECTIONS)
  }

  /** A shared target is never itself a source, so no run ever drops what another run filled. */
  lemma TargetIsNoSource(prefix: string, name: string)
    requires SourceOf(prefix, name).Some?
    ensures SourceOf(prefix, SourceOf(prefix, name).value.targetName).None?
  {
    var s := SourceOf(prefix, name).value;
    FirstBaseFits(name[|prefix|..], BASE_COLLECTIONS);
    assert (prefix + s.base)[|prefix|..] == s.base;
  }

  /** Which names are sources, and of which target; no target is itself a source. */
  type Route = f: string -> Option<Source> | forall n :: f(n).Some? ==>
      f(n).value.sourceName == n && f(f(n).value.targetName).None?
    witness n => None

  /** The route that a target prefix induces. */
  function PrefixRoute(prefix: string): Route {
    assert forall n :: SourceOf(prefix, n).Some? ==> SourceOf(prefix, SourceOf(prefix, n).value.targetName).None? by {
      forall n | SourceOf(prefix, n).Some? ensures SourceOf(prefix, SourceOf(prefix, n).value.targetName).None? {
        TargetIsNoSource(prefix, n);
      }
    }
    n => SourceOf(prefix, n)
  }

  predicate Selected(source: Source, agents: Option<set<string>>) { agents.Some? ==> source.agentId in agents.value }

  /** The selected sources among the listed names, as often as they are listed. */
  function SelectedSources(names: seq<string>, route: Route, agents: Option<set<string>>): (sources: seq<Source>)
    ensures forall s :: s in sources <==> s.sourceName in names && route(s.sourceName) == Some(s) && Selected(s, agents)
  {
    if names == [] then []
    else
      var rest := SelectedSources(names[1..], route, agents);
      var s := route(names[0]);
      assert forall n :: n in names <==> n == names[0] || n in names[1..];
      if s.Some? && Selected(s.value, agents) then [s.value] + rest else rest
  }

  /** The order in which the sources are sorted, whatever the locale makes of it. */
  type NameOrder = leq: (string, string) -> bool |
    (forall a, b :: leq(a, b) || leq(b, a)) && (forall a, b, c :: leq(a, b) && leq(b, c) ==> leq(a, c))
    witness (a, b) => true

  predicate Ascending(sources: seq<Source>, leq: NameOrder) {
    forall i, j :: 0 <= i < j < |sources| ==> leq(sources[i].sourceName, sources[j].sourceName)
  }

  function Inserted(s: Source, sources: seq<Source>, leq: NameOrder): seq<Source> {
    if sources == [] then [s]
    else if leq(s.sourceName, sources[0].sourceName) then [s] + sources
    else [sources[0]] + Inserted(s, sources[1..], leq)
  }

  lemma {:induction false} InsertedContents(s: Source, sources: seq<Source>, leq: NameOrder)
    ensures multiset(Inserted(s, sources, leq)) == multiset(sources) + multiset{s}
  {
    if sources != [] {
      assert sources == [sources[0]] + sources[1..];
      InsertedContents(s, sources[1..], leq);
    }
  }

  lemma {:induction false} InsertedAscends(s: Source, sources: seq<Source>, leq: NameOrder)
    requires Ascending(sources, leq)
    ensures Ascending(Inserted(s, sources, leq), leq)
  {
    if sources == [] {
    } else if leq(s.sourceName, sources[0].sourceName) {
      forall i | 0 <= i < |sources| ensures leq(s.sourceName, sources[i].sourceName) {
        assert leq(sources[0].sourceName, sources[i].sourceName);
      }
    } else {
      var rest := Inserted(s, sources[1..], leq);
      InsertedAscends(s, sources[1..], leq);
      InsertedContents(s, sources[1..], leq);
      forall x | x in rest ensures leq(sources[0].sourceName, x.sourceName) {
        assert x in multiset(rest);
        if x != s {
          assert x in multiset(sources[1..]);
          var i :| 1 <= i < |sources| && sources[i] == x;
        }
      }
    }
  }

  /** Exactly the selected sources among the listed names, each as often as it is listed, in order. */
  function DiscoverSources(
    names: seq<string>, route: Route, agents: Option<set<string>>, leq: NameOrder): (sources: seq<Source>)
    ensures multiset(sources) == multiset(SelectedSources(names, route, agents)) && Ascending(sources, leq)
  {
    SortedByName(SelectedSources(names, route, agents), leq)
  }

  function SortedByName(sources: seq<Source>, leq: NameOrder): (r: seq<Source>)
    ensures multiset(r) == multiset(sources) && Ascending(r, leq)
  {
    if sources == [] then []
    else
      var rest := SortedByName(sources[1..], leq);
      InsertedContents(sources[0], rest, leq);
      InsertedAscends(sources[0], rest, leq);
      assert sources == [sources[0]] + sources[1..];
      Inserted(sources[0], rest, leq)
  }

  ghost predicate DistinctSources(sources: seq<Source>) {
    forall i, j :: 0 <= i < j < |sources| ==> sources[i].sourceName != sources[j].sourceName
  }

  lemma HeadNotAgain(names: seq<string>)
    requires NoRepeats(names) && names != []
    ensures names[0] !in names[1..]
  {
  }

  lemma {:induction false} SelectedOnce(names: seq<string>, route: Route, agents: Option<set<string>>, s: Source)
    requires NoRepeats(names)
    ensures multiset(SelectedSources(names, route, agents))[s] <= 1
  {
    if names != [] {
      SelectedOnce(names[1..], route, agents, s);
      HeadNotAgain(names);
    }
  }

  lemma TwiceCounted<T>(s: seq<T>, i: nat, j: nat)
    requires i < j < |s| && s[i] == s[j]
    ensures multiset(s)[s[i]] >= 2
  {
    assert s == s[..j] + s[j..];
    assert s[i] in s[..j] && s[j] in s[j..];
  }

  /** Each listed source is processed once. */
  lemma DiscoveredDistinct(names: seq<string>, route: Route, agents: Option<set<string>>, leq: NameOrder)
    requires NoRepeats(names)
    ensures var sources := DiscoverSources(names, route, agents, leq);
            && DistinctSources(sources)
            && forall s :: s in sources <==>
               s.sourceName in names && route(s.sourceName) == Some(s) && Selected(s, agents)
  {
    var sources, selected := DiscoverSources(names, route, agents, leq), SelectedSources(names, route, agents);
    forall s ensures s in sources <==> s in selected { assert s in multiset(sources) <==> s in multiset(selected); }
    forall i, j | 0 <= i < j < |sources| ensures sources[i].sourceName != sources[j].sourceName {
      assert sources[i] in sources && sources[j] in sources;
      if sources[i].sourceName == sources[j].sourceName {
        TwiceCounted(sources, i, j);
        SelectedOnce(names, route, agents, sources[i]);
      }
    }
  }

  /** What must happen for `c` to be found, after an underscore, at the end of a longer entry `b`. */
  predicate Clash(c: string, b: string) {
    0 < |c| < |b| && b[|b| - |c| - 1] == '_' && b[|b| - 1] == c[|c| - 1]
  }

  /** The ordering rule of the suffix list: no entry is shadowed by one that precedes it. */
  lemma NoShadowedBase(i: nat, j: nat)
    requires i < j < |BASE_COLLECTIONS|
    ensures !Clash(BASE_COLLECTIONS[i], BASE_COLLECTIONS[j]) && BASE_COLLECTIONS[i] != []
  {
    if i < 8 {
      EarlyBases(i, j);
    } else if i < 16 {
      MiddleBases(i, j);
    } else {
      LateBases(i, j);
    }
  }

  lemma EarlyBases(i: nat, j: nat)
    requires i < 8 && i < j < |BASE_COLLECTIONS|
    ensures !Clash(BASE_COLLECTIONS[i], BASE_COLLECTIONS[j]) && BASE_COLLECTIONS[i] != []
  {
  }

  lemma MiddleBases(i: nat, j: nat)
    requires 8 <= i < 16 && i < j < |BASE_COLLECTIONS|
    ensures !Clash(BASE_COLLECTIONS[i], BASE_COLLECTIONS[j]) && BASE_COLLECTIONS[i] != []
  {
  }

  lemma LateBases(i: nat, j: nat)
    requires 16 <= i < j < |BASE_COLLECTIONS|
    ensures !Clash(BASE_COLLECTIONS[i], BASE_COLLECTIONS[j]) && BASE_COLLECTIONS[i] != []
  {
  }

  lemma SuffixCharacters(rest: string, c: string)
    requires EndsWith(rest, "_" + c)
    ensures |c| < |rest| && rest[|rest| - |c| - 1] == '_' && rest[|rest| - |c|..] == c
  {
    var tail := rest[|rest| - |c| - 1..];
    assert tail[0] == '_' && tail[1..] == c;
  }

  lemma SuffixWithinBase(agentId: string, b: string, c: string)
    requires AgentSegment(agentId) && EndsWith(agentId + "_" + b, "_" + c)
    ensures |c| <= |b|
  {
    var rest := agentId + "_" + b;
    assert forall k :: 0 <= k < |agentId| ==> rest[k] == agentId[k] && SegmentChar(rest[k]);
    SuffixCharacters(rest, c);
  }

  /** A suffix found at the end of `agent_base` is that base, or clashes with it. */
  lemma MatchIsBaseOrClash(agentId: string, b: string, c: string)
    requires AgentSegment(agentId) && c != [] && EndsWith(agentId + "_" + b, "_" + c)
    ensures c == b || Clash(c, b)
  {
    var rest := agentId + "_" + b;
    SuffixCharacters(rest, c);
    SuffixWithinBase(agentId, b, c);
    assert rest[|rest| - |b|..] == b;
    if |c| < |b| {
      assert rest[|rest| - |c|..][|c| - 1] == rest[|rest| - 1] == b[|b| - 1];
      assert rest[|rest| - |c| - 1] == b[|b| - |c| - 1];
    }
  }

  lemma {:induction false} FirstBaseFinds(agentId: string, candidates: seq<string>, j: nat)
    requires AgentSegment(agentId) && j < |candidates|
    requires forall i :: 0 <= i < j ==> candidates[i] != [] && !Clash(candidates[i], candidates[j])
    ensures FirstBase(agentId + "_" + candidates[j], candidates) == Some(candidates[j])
  {
    var rest := agentId + "_" + candidates[j];
    if j == 0 {
      assert rest[|agentId|..] == "_" + candidates[j];
    } else if EndsWith(rest, "_" + candidates[0]) {
      MatchIsBaseOrClash(agentId, candidates[j], candidates[0]);
    } else {
      FirstBaseFinds(agentId, candidates[1..], j - 1);
    }
  }

  lemma ParseNamed(prefix: string, agentId: string, base: string, bases: seq<string>)
    requires AgentSegment(agentId) && FirstBase(agentId + "_" + base, bases) == Some(base)
    ensures var name, rest := prefix + agentId + "_" + base, agentId + "_" + base;
            ParseSource(prefix, name, bases) ==
            if rest in bases then None else Some(Source(agentId, base, name, prefix + base))
  {
    var name, rest := prefix + agentId + "_" + base, agentId + "_" + base;
    assert name[|prefix|..] == rest;
    assert rest[..|rest| - |base| - 1] == agentId;
  }

  /**
   * The name an agent's collection was created under is recovered exactly: `agent_base` parses back
   * to its agent and base if and only if it is not itself a shared base (an agent called `access`
   * owning `events` would be read as the shared `access_events`).
   */
  lemma DiscoveryRecoversAgentAndBase(prefix: string, agentId: string, j: nat)
    requires AgentSegment(agentId) && j < |BASE_COLLECTIONS|
    ensures var name := prefix + agentId + "_" + BASE_COLLECTIONS[j];
            SourceOf(prefix, name) == Some(Source(agentId, BASE_COLLECTIONS[j], name, prefix + BASE_COLLECTIONS[j]))
            <==> agentId + "_" + BASE_COLLECTIONS[j] !in BASE_COLLECTIONS
  {
    forall i: nat | i < j ensures BASE_COLLECTIONS[i] != [] && !Clash(BASE_COLLECTIONS[i], BASE_COLLECTIONS[j]) {
      NoShadowedBase(i, j);
    }
    FirstBaseFinds(agentId, BASE_COLLECTIONS, j);
    ParseNamed(prefix, agentId, BASE_COLLECTIONS[j], BASE_COLLECTIONS);
  }

  /** An agent called `access` loses its `events` so, under every prefix. */
  lemma AccessEventsNotFound(prefix: string)
    ensures SourceOf(prefix, prefix + "access" + "_" + "events").None?
  {
    assert BASE_COLLECTIONS[15] == "access_events";
    var name := prefix + "access" + "_" + "events";
    assert "access" + "_" + "events" == "access_events";
    assert name[|prefix|..] == "access_events";
  }
}
