/**
 * The offline diagnostics migration as a memoryless protocol: what one server command or one
 * journal write may do, given only what survives a crash (the server and the journal file).
 *
 * `pins` is a history variable: the payload the latest snapshot session read from a source.
 * It is written by `Pin` alone and no decision reads it.
 */
module DiagnosticsProtocol {
  import opened Common
  import opened RowDigest

  // ---------------------------------------------------------------- data

  datatype SurfaceId = Telemetry | AccessEvents

  type Uuid = nat

  datatype Config = Config(prefix: string, digester: Digester)

  function Suffix(s: SurfaceId): string {
    match s
    case Telemetry => "memory_telemetry"
    case AccessEvents => "access_events"
  }

  const CANDIDATE_SUFFIX := "__ordinary_candidate"

  function CanonicalRetention(s: SurfaceId): nat {
    match s
    case Telemetry => 604800
    case AccessEvents => 2592000
  }

  /** The names the tool uses on the server, beside whatever else the database holds. */
  datatype Namespace = Canonical(surface: SurfaceId) | Candidacy(surface: SurfaceId) | Unrelated(name: string)

  function FullName(prefix: string, n: Namespace): string {
    match n
    case Canonical(s) => prefix + Suffix(s)
    case Candidacy(s) => prefix + Suffix(s) + CANDIDATE_SUFFIX
    case Unrelated(name) => name
  }

  /** The four names differ under every prefix, so naming them apart loses nothing. */
  lemma FullNamesDistinct(prefix: string, m: Namespace, n: Namespace)
    requires !m.Unrelated? && !n.Unrelated?
    ensures FullName(prefix, m) == FullName(prefix, n) <==> m == n
  {
    assert |Suffix(Telemetry)| == 16 && |Suffix(AccessEvents)| == 13 && |CANDIDATE_SUFFIX| == 20;
  }

  datatype Kind = Ordinary | TimeSeries | DatabaseView

  /** An index that carries an expiry; `onTs` says its key is exactly {ts: 1}. */
  datatype TtlIndex = TtlIndex(onTs: bool, expireAfterSeconds: nat, partialFilter: bool)

  datatype Coll = Coll(
    kind: Kind,
    uuid: Option<Uuid>,
    rows: seq<Row>,
    retention: Option<nat>,
    freshIds: bool,
    ttl: seq<TtlIndex>)

  datatype Phase = Validated | Copying | Copied | Verified | Installed | Complete | Skipped

  datatype Source = Source(uuid: Uuid, retention: Option<nat>)
  datatype Plan = Plan(retention: nat, documentCount: nat)
  datatype Candidate = Candidate(uuid: Uuid, documentCount: nat)

  datatype SurfaceState = SurfaceState(
    canonicalName: Namespace,
    candidateName: Namespace,
    phase: Phase,
    skipReason: Option<string>,
    source: Option<Source>,
    plan: Option<Plan>,
    digest: Option<Digest>,
    candidate: Option<Candidate>,
    installed: Option<Uuid>)

  type Journal = map<SurfaceId, SurfaceState>

  datatype World = World(
    server: map<Namespace, Coll>,
    nextUuid: Uuid,
    journal: Option<Journal>,
    pins: map<SurfaceId, seq<Row>>)

  /** Everything about one surface. */
  datatype SurfaceView = SurfaceView(
    canonical: Option<Coll>,
    candidate: Option<Coll>,
    entry: Option<SurfaceState>,
    pin: Option<seq<Row>>)

  function EntryOf(w: World, s: SurfaceId): Option<SurfaceState> {
    if w.journal.Some? then Get(w.journal.value, s) else None
  }

  function ViewOf(cfg: Config, w: World, s: SurfaceId): SurfaceView {
    SurfaceView(Get(w.server, Canonical(s)), Get(w.server, Candidacy(s)),
                EntryOf(w, s), Get(w.pins, s))
  }

  function Other(s: SurfaceId): SurfaceId { if s == Telemetry then AccessEvents else Telemetry }

  // ---------------------------------------------------------------- pure decisions

  predicate OwnsNamespace(recorded: Option<Uuid>, observed: Option<Coll>) {
    observed.Some? && observed.value.uuid.Some? && recorded.Some? && observed.value.uuid == recorded
  }

  function SourceUuid(e: SurfaceState): Option<Uuid> {
    if e.source.Some? then Some(e.source.value.uuid) else None
  }

  function CandidateUuid(e: SurfaceState): Option<Uuid> {
    if e.candidate.Some? then Some(e.candidate.value.uuid) else None
  }

  /** The canonical name still holds the recorded time-series source. */
  predicate SourceOwned(e: SurfaceState, canonical: Option<Coll>) {
    canonical.Some? && canonical.value.kind == TimeSeries && OwnsNamespace(SourceUuid(e), canonical)
  }

  predicate ExactPolicy(c: Coll, retention: nat) {
    |c.ttl| == 1 && c.ttl[0] == TtlIndex(true, retention, false)
  }

  predicate NeedsCandidateRecovery(e: SurfaceState) {
    e.phase == Copying || (e.phase == Copied && e.candidate.None?)
  }

  /** The per-surface part of the persisted-state check: what each phase must and must not record. */
  predicate ValidEntry(cfg: Config, s: SurfaceId, e: SurfaceState) {
    && e.canonicalName == Canonical(s)
    && e.candidateName == Candidacy(s)
    && (e.plan.Some? ==> e.plan.value.retention == CanonicalRetention(s))
    && match e.phase
       case Validated => e.digest.None? && e.candidate.None? && e.installed.None?
       case Copying => e.digest.Some? && e.source.Some? && e.plan.Some? && e.candidate.None? && e.installed.None?
       case Copied => e.digest.Some? && e.source.Some? && e.plan.Some? && e.installed.None?
       case Verified => e.digest.Some? && e.source.Some? && e.plan.Some? && e.candidate.Some? && e.installed.None?
       case Installed => e.digest.Some? && e.source.Some? && e.plan.Some? && e.installed.Some?
       case Complete => e.digest.Some? && e.source.Some? && e.plan.Some? && e.installed.Some?
       case Skipped => e.skipReason.Some? && |e.skipReason.value| > 0
                       && e.digest.None? && e.candidate.None? && e.installed.None?
  }

  predicate ValidJournal(cfg: Config, j: Journal) {
    forall s :: s in j ==> ValidEntry(cfg, s, j[s])
  }

  // ---------------------------------------------------------------- commands

  datatype Cmd =
    | Expire(survivors: map<Namespace, seq<Row>>)  // the server's own TTL monitor
    | Pin(s: SurfaceId)                         // first read of the snapshot session
    | Write(state: Journal)                     // replace the journal file
    | Out(s: SurfaceId, copied: seq<Row>)       // $unset _id, $out into the candidate
    | Rename(s: SurfaceId)                      // candidate onto canonical, dropTarget
    | Drop(s: SurfaceId)                        // drop the candidate
    | CreateTtl(s: SurfaceId)                   // {ts: 1} index with the planned expiry
    | Erase                                     // remove the journal file

  predicate Expirable(c: Coll) { c.kind == TimeSeries || c.ttl != [] }

  predicate CandidateMatches(cfg: Config, e: SurfaceState, candidate: Option<Coll>) {
    && candidate.Some? && candidate.value.kind == Ordinary && candidate.value.uuid.Some?
    && e.digest.Some?
    // What was read still holds unless an index of a foreign candidate expires rows meanwhile.
    && (candidate.value.ttl == [] ==> cfg.digester.of(candidate.value.rows) == e.digest.value)
  }

  /** The canonical name carries a recorded candidate or installed identity. */
  predicate Renamed(e: SurfaceState, canonical: Option<Coll>) {
    canonical.Some? &&
    (OwnsNamespace(e.installed, canonical) || OwnsNamespace(CandidateUuid(e), canonical))
  }

  ghost predicate MayStartCopying(cfg: Config, s: SurfaceId, v: SurfaceView, e: SurfaceState) {
    && (v.entry.None? || v.entry.value.phase == Validated)
    && SourceOwned(e, v.canonical) && v.candidate.None? && v.pin.Some?
    && e.digest == Some(cfg.digester.of(v.pin.value))
    && e.plan == Some(Plan(CanonicalRetention(s), |v.pin.value|))
  }

  /** Which record may follow the persisted one, given the server as it is. */
  ghost predicate OkEntry(cfg: Config, s: SurfaceId, v: SurfaceView, e: SurfaceState) {
    v.entry == Some(e) ||
    (ValidEntry(cfg, s, e) &&
    match e.phase
    case Skipped =>
      && (v.entry.None? || v.entry.value.phase in {Validated, Skipped})
      && (v.canonical.None? || v.canonical.value.kind != TimeSeries)
    case Copying => MayStartCopying(cfg, s, v, e)
    case Validated =>
      v.entry.Some? && var p := v.entry.value;
      && v.candidate.None?
      && (NeedsCandidateRecovery(p) || (p.phase == Verified && SourceOwned(p, v.canonical)))
      && e == p.(phase := Validated, digest := None, candidate := None)
    case Copied =>
      v.entry.Some? && var p := v.entry.value;
      && NeedsCandidateRecovery(p) && CandidateMatches(cfg, p, v.candidate)
      && e.candidate.Some? && v.candidate.value.uuid == Some(e.candidate.value.uuid)
      && e == p.(phase := Copied, candidate := e.candidate)
    case Verified =>
      v.entry.Some? && var p := v.entry.value;
      && p.phase == Copied && OwnsNamespace(CandidateUuid(p), v.candidate)
      && CandidateMatches(cfg, p, v.candidate) && v.candidate.value.freshIds
      && e.candidate.Some? && v.candidate.value.uuid == Some(e.candidate.value.uuid)
      && e == p.(phase := Verified, candidate := e.candidate)
    case Installed =>
      v.entry.Some? && var p := v.entry.value;
      && Renamed(p, v.canonical)
      && e == p.(phase := Installed, installed := v.canonical.value.uuid)
    case Complete =>
      v.entry.Some? && var p := v.entry.value;
      && Renamed(p, v.canonical) && ExactPolicy(v.canonical.value, CanonicalRetention(s))
      && e == p.(phase := Complete, installed := v.canonical.value.uuid))
  }

  predicate Done(p: Phase) { p == Complete || p == Skipped }

  ghost predicate WriteEnabled(cfg: Config, w: World, j: Journal) {
    && (forall s :: EntryOf(w, s).Some? ==> s in j)
    && (forall s :: s in j ==> OkEntry(cfg, s, ViewOf(cfg, w, s), j[s]))
    && (AccessEvents in j && EntryOf(w, AccessEvents) != Some(j[AccessEvents]) ==>
          Telemetry in j && Done(j[Telemetry].phase))
  }

  ghost predicate OutEnabled(cfg: Config, v: SurfaceView, copied: seq<Row>) {
    && v.entry.Some? && v.entry.value.phase == Copying && SourceOwned(v.entry.value, v.canonical)
    && v.candidate.None?
    && v.pin.Some? && v.entry.value.digest == Some(cfg.digester.of(v.pin.value))
    && SamePayload(copied, v.pin.value)
  }

  ghost predicate RenameEnabled(v: SurfaceView) {
    v.entry.Some? && var e := v.entry.value;
    && OwnsNamespace(CandidateUuid(e), v.candidate)
    && ((v.canonical.None? && e.phase in {Verified, Installed, Complete}) ||
        (e.phase == Verified && SourceOwned(e, v.canonical)))
  }

  ghost predicate DropEnabled(cfg: Config, v: SurfaceView) {
    v.entry.Some? && var e := v.entry.value;
    && e.phase in {Copying, Copied, Verified} && SourceOwned(e, v.canonical)
    && (OwnsNamespace(CandidateUuid(e), v.candidate) ||
        (NeedsCandidateRecovery(e) && CandidateMatches(cfg, e, v.candidate)))
  }

  ghost predicate CreateTtlEnabled(v: SurfaceView) {
    v.entry.Some? && var e := v.entry.value;
    && e.plan.Some? && Renamed(e, v.canonical)
    && (forall i :: 0 <= i < |v.canonical.value.ttl| ==> !v.canonical.value.ttl[i].onTs)
    && (!Expirable(v.canonical.value) ==> |v.canonical.value.rows| == e.plan.value.documentCount)
  }

  /** An abort may pass a surface by: nothing was copied, or the copy is gone and the source intact. */
  ghost predicate Abandoned(v: SurfaceView) {
    v.entry.None? || v.entry.value.phase in {Skipped, Validated} ||
    (v.entry.value.phase in {Copying, Copied, Verified} && v.candidate.None? && SourceOwned(v.entry.value, v.canonical))
  }

  ghost predicate Enabled(cfg: Config, w: World, c: Cmd) {
    match c
    case Expire(f) =>
      forall n :: n in f ==> n in w.server && Expirable(w.server[n]) && multiset(f[n]) <= multiset(w.server[n].rows)
    case Pin(s) =>
      var v := ViewOf(cfg, w, s);
      && v.canonical.Some? && v.canonical.value.kind == TimeSeries && v.candidate.None?
      && (v.entry.None? || v.entry.value.phase == Validated)
    case Write(j) => WriteEnabled(cfg, w, j)
    case Out(s, copied) => OutEnabled(cfg, ViewOf(cfg, w, s), copied)
    case Rename(s) => RenameEnabled(ViewOf(cfg, w, s))
    case Drop(s) =>
      DropEnabled(cfg, ViewOf(cfg, w, s)) && (s == AccessEvents ==> Abandoned(ViewOf(cfg, w, Telemetry)))
    case CreateTtl(s) => CreateTtlEnabled(ViewOf(cfg, w, s))
    case Erase => forall s :: Abandoned(ViewOf(cfg, w, s))
  }

  function OrdinaryCopy(uuid: Uuid, rows: seq<Row>): Coll {
    Coll(Ordinary, Some(uuid), rows, None, true, [])
  }

  function Apply(cfg: Config, w: World, c: Cmd): World
    requires Enabled(cfg, w, c)
  {
    match c
    case Expire(f) =>
      w.(server := map n | n in w.server :: if n in f then w.server[n].(rows := f[n]) else w.server[n])
    case Pin(s) => w.(pins := w.pins[s := w.server[Canonical(s)].rows])
    case Write(j) => w.(journal := Some(j))
    case Out(s, copied) =>
      w.(server := w.server[Candidacy(s) := OrdinaryCopy(w.nextUuid, copied)],
         nextUuid := w.nextUuid + 1)
    case Rename(s) =>
      w.(server := w.server[Canonical(s) := w.server[Candidacy(s)]] - {Candidacy(s)})
    case Drop(s) => w.(server := w.server - {Candidacy(s)})
    case CreateTtl(s) =>
      var n := Canonical(s);
      var c := w.server[n];
      w.(server := w.server[n := c.(ttl := c.ttl + [TtlIndex(true, EntryOf(w, s).value.plan.value.retention, false)])])
    case Erase => w.(journal := None)
  }

  ghost predicate Step(cfg: Config, w: World, c: Cmd, w': World) {
    Enabled(cfg, w, c) && w' == Apply(cfg, w, c)
  }

  ghost predicate StepAt(cfg: Config, worlds: seq<World>, log: seq<Cmd>, i: nat)
    requires i < |log| < |worlds|
  {
    Step(cfg, worlds[i], log[i], worlds[i + 1])
  }

  /** The worlds a command log passes through.  Any of them is where a crash may leave the next run. */
  ghost predicate Behaviour(cfg: Config, worlds: seq<World>, log: seq<Cmd>) {
    && |worlds| == |log| + 1
    && forall i :: 0 <= i < |log| ==> StepAt(cfg, worlds, log, i)
  }

  lemma BehaviourExtends(cfg: Config, worlds: seq<World>, log: seq<Cmd>, c: Cmd)
    requires Behaviour(cfg, worlds, log) && Enabled(cfg, worlds[|log|], c)
    ensures Behaviour(cfg, worlds + [Apply(cfg, worlds[|log|], c)], log + [c])
  {
    var w', log' := worlds + [Apply(cfg, worlds[|log|], c)], log + [c];
    forall i | 0 <= i < |log'| ensures StepAt(cfg, w', log', i) {
      if i < |log| { assert StepAt(cfg, worlds, log, i); }
    }
  }
}
