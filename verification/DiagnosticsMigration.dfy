/**
 * The diagnostics migration itself, phase by phase, over the server it talks to and the journal it
 * keeps.  Every method is proved to issue only commands the protocol allows, whatever the server
 * holds when it starts; from a state the protocol can reach it is also proved to succeed.
 */
module DiagnosticsMigration {
  import opened Common
  import opened RowDigest
  import opened DiagnosticsProtocol
  import opened DiagnosticsSafety

  datatype Failure =
    | ForeignCanonical | ForeignCandidate | NothingToInstall | CandidateLostRestarted
    | CandidateExisted | CopyUnidentified | CheckpointIncomplete
    | DigestMismatch | IdsNotFresh | CandidateMissing
    | RenameUncertain | CountMismatch | TtlPolicyWrong | StaleInstallation
    | SourceNotOwned | RetentionDiffers | CommandFailed | InvalidJournal
    | NoJournal | AlreadyInstalled | SourceReplaced

  type Result = Option<Failure>

  /**
   * What happens to a command: it may take effect and still be reported as failed, and a copy or a
   * rename may be reported done and not be.
   */
  datatype Outcome = Succeeded | ResponseLost | Refused | Misreported

  /** The world's answer to one command: rows expired just before it, its outcome, and a cursor order. */
  datatype Choice = Choice(outcome: Outcome, survivors: map<Namespace, seq<Row>>, order: seq<Row>)

  predicate TakesEffect(o: Outcome) { o == Succeeded || o == ResponseLost }

  datatype InstallAction =
    | DoRename | DoAlreadyInstalled | DoRestartFromCopy
    | DoAbortForeignCanonical | DoAbortForeignCandidate | DoAbortMissing

  function PlanInstallAction(
    canonical: Option<Coll>, candidate: Option<Coll>,
    sourceUuid: Option<Uuid>, candidateUuid: Option<Uuid>, installedUuid: Option<Uuid>): InstallAction
  {
    if canonical.Some? then
      if OwnsNamespace(installedUuid, canonical) || OwnsNamespace(candidateUuid, canonical) then
        DoAlreadyInstalled
      else if canonical.value.kind == TimeSeries then
        if !OwnsNamespace(sourceUuid, canonical) then DoAbortForeignCanonical
        else if candidate.None? then DoRestartFromCopy
        else if OwnsNamespace(candidateUuid, candidate) then DoRename
        else DoAbortForeignCandidate
      else DoAbortForeignCanonical
    else if candidate.None? then DoAbortMissing
    else if OwnsNamespace(candidateUuid, candidate) then DoRename
    else DoAbortForeignCandidate
  }

  /** The canonical retention, or None when a differing source setting was not explicitly given up. */
  function DecideRetention(discovered: Option<nat>, canonical: nat, acceptChange: bool): Option<nat> {
    if discovered == Some(canonical) || acceptChange then Some(canonical) else None
  }

  function Fresh(cfg: Config, s: SurfaceId): SurfaceState {
    SurfaceState(Canonical(s), Candidacy(s), Validated, None, None, None, None, None, None)
  }

  const SOURCE_ABSENT := "source collection absent; the fresh initializer will create the ordinary collection"
  const NOT_TIME_SERIES := "canonical is already ordinary; this tool only converts time-series sources"
  const RETENTION_DECIDED := "retention decided"

  predicate LostWork(prior: Option<SurfaceState>, current: SurfaceState) {
    prior.Some? &&
    (prior.value.phase == Copying || current.phase in {Copied, Verified, Installed, Complete})
  }

  lemma PristineDigestMatches(cfg: Config, s: SurfaceId, e: SurfaceState, c: Option<Coll>, pin: Option<seq<Row>>)
    requires Pinned(cfg, s, e, pin) && PristineCopy(c, pin.value)
    ensures cfg.digester.of(c.value.rows) == e.digest.value
    ensures |c.value.rows| == e.plan.value.documentCount
  {
    DigesterDecidesPayload(cfg.digester, c.value.rows, pin.value);
    assert |multiset(c.value.rows)| == |multiset(pin.value)|;
  }

  /** In a reachable state, whatever stands under the candidate name during recovery is the pinned copy. */
  lemma RecoveryFindsOwnCopy(cfg: Config, s: SurfaceId, v: SurfaceView)
    requires SurfaceInv(cfg, s, v) && v.entry.Some? && NeedsCandidateRecovery(v.entry.value) && v.candidate.Some?
    ensures CandidateMatches(cfg, v.entry.value, v.candidate) && v.candidate.value.ttl == []
  {
    PristineDigestMatches(cfg, s, v.entry.value, v.candidate, v.pin);
  }

  lemma StillMatches(cfg: Config, e: SurfaceState, v: SurfaceView, u: SurfaceView)
    requires Calm(v, u) && e.digest.Some? && u.candidate.Some? && u.candidate.value.kind == Ordinary
    requires u.candidate.value.uuid.Some? && cfg.digester.of(v.candidate.value.rows) == e.digest.value
    ensures CandidateMatches(cfg, e, u.candidate)
  {
  }

  lemma AdoptedEntryOk(cfg: Config, s: SurfaceId, v: SurfaceView, p: SurfaceState, c: Candidate)
    requires v.entry == Some(p) && ValidEntry(cfg, s, p) && NeedsCandidateRecovery(p)
    requires CandidateMatches(cfg, p, v.candidate) && v.candidate.value.uuid == Some(c.uuid)
    ensures OkEntry(cfg, s, v, p.(phase := Copied, candidate := Some(c)))
  {
  }

  lemma RestartedEntryOk(cfg: Config, s: SurfaceId, v: SurfaceView, p: SurfaceState)
    requires v.entry == Some(p) && ValidEntry(cfg, s, p) && v.candidate.None? && p.installed.None?
    requires NeedsCandidateRecovery(p) || (p.phase == Verified && SourceOwned(p, v.canonical))
    ensures OkEntry(cfg, s, v, p.(phase := Validated, digest := None, candidate := None))
  {
  }

  lemma StartedEntryOk(cfg: Config, s: SurfaceId, v: SurfaceView, m: SurfaceState)
    requires ValidEntry(cfg, s, m) && m.phase == Copying && MayStartCopying(cfg, s, v, m)
    ensures OkEntry(cfg, s, v, m)
  {
  }

  /** Where a surface stands once its record has been reconciled with what is on the server. */
  ghost predicate Reconciled(cfg: Config, s: SurfaceId, v: SurfaceView, m: SurfaceState) {
    && ValidEntry(cfg, s, m)
    && match m.phase
       case Validated =>
         && v.canonical.Some? && v.canonical.value.kind == TimeSeries && v.candidate.None?
         && (v.entry.None? || (v.entry == Some(m) && SourceOwned(m, v.canonical)))
       case Copied =>
         && v.entry == Some(m) && m.candidate.Some?
         && (SourceOwned(m, v.canonical) || v.canonical.None?)
         && (OwnsNamespace(CandidateUuid(m), v.candidate) || (v.canonical.Some? && v.candidate.None?))
       case Verified =>
         && v.entry.Some? && ValidEntry(cfg, s, v.entry.value)
         && (m == v.entry.value ||
             (v.canonical.None? && v.entry.value.phase in {Installed, Complete}
              && m == v.entry.value.(phase := Verified, installed := None)))
         && (SourceOwned(m, v.canonical) || v.canonical.None?)
         && (OwnsNamespace(CandidateUuid(m), v.candidate) || (v.canonical.Some? && v.candidate.None?))
       case Installed =>
         && v.entry.Some? && Renamed(v.entry.value, v.canonical)
         && m == v.entry.value.(phase := Installed, installed := v.canonical.value.uuid)
       case Complete => v.entry == Some(m) && Renamed(m, v.canonical)
       case Copying => false
       case Skipped => OkEntry(cfg, s, v, m)
  }

  lemma ReconciledCalm(cfg: Config, s: SurfaceId, v: SurfaceView, u: SurfaceView, m: SurfaceState)
    requires Reconciled(cfg, s, v, m) && Calm(v, u)
    ensures Reconciled(cfg, s, u, m)
  {
    if m.phase == Skipped { CalmKeepsOkEntry(cfg, s, v, u, m); }
  }

  lemma CalmTransitive(v: SurfaceView, u: SurfaceView, t: SurfaceView)
    requires Calm(v, u) && Calm(u, t)
    ensures Calm(v, t)
  {
  }

  /** Recovery will find nothing foreign. */
  ghost predicate RecoverySafe(cfg: Config, v: SurfaceView) {
    v.entry.Some? && NeedsCandidateRecovery(v.entry.value) ==>
      && (v.canonical.Some? ==> OwnsNamespace(SourceUuid(v.entry.value), v.canonical))
      && (v.candidate.Some? ==> CandidateMatches(cfg, v.entry.value, v.candidate) && v.candidate.value.ttl == [])
  }

  lemma ReachableRecoverySafe(cfg: Config, s: SurfaceId, v: SurfaceView)
    requires SurfaceInv(cfg, s, v)
    ensures RecoverySafe(cfg, v)
  {
    if v.entry.Some? && NeedsCandidateRecovery(v.entry.value) && v.candidate.Some? { RecoveryFindsOwnCopy(cfg, s, v); }
  }

  datatype Verdict = Refuse(failure: Failure) | Skip(reason: string) | Proceed(state: SurfaceState)

  /** The record against the observed namespaces, once an interrupted copy has been recovered. */
  function ReconcileRecord(
    prior: Option<SurfaceState>, current: SurfaceState, canonical: Option<Coll>, candidate: Option<Coll>): Verdict
  {
    var lostWork := LostWork(prior, current);
    if canonical.None? then
      if !lostWork then Skip(SOURCE_ABSENT)
      else if OwnsNamespace(CandidateUuid(current), candidate) then
        Proceed(if current.phase in {Installed, Complete} then current.(installed := None, phase := Verified)
            else current)
      else
        var action := PlanInstallAction(canonical, candidate, SourceUuid(current), CandidateUuid(current),
            current.installed);
        if action in {DoAbortMissing, DoAbortForeignCandidate} then Refuse(InstallFailure(action)) else Proceed(current)
    else if canonical.value.kind != TimeSeries then
      if prior.Some? &&
         OwnsNamespace(if current.installed.Some? then current.installed else CandidateUuid(current), canonical) then
        Proceed(current.(phase := if current.phase == Complete then Complete else Installed,
                         installed := if current.installed.Some? then current.installed else canonical.value.uuid))
      else if lostWork then Refuse(ForeignCanonical)
      else Skip(NOT_TIME_SERIES)
    else if prior.Some? && !OwnsNamespace(SourceUuid(current), canonical) then Refuse(ForeignCanonical)
    else if candidate.Some? && !OwnsNamespace(CandidateUuid(current), candidate) then Refuse(ForeignCandidate)
    else if current.phase in {Installed, Complete} then Refuse(StaleInstallation)
    else Proceed(current)
  }

  /** A surface that is done: as persisted, or skipped and not persisted yet. */
  ghost predicate FinishedRecord(cfg: Config, s: SurfaceId, v: SurfaceView, m: SurfaceState) {
    || (Done(m.phase) && v.entry == Some(m))
    || (m.phase == Skipped && ValidEntry(cfg, s, m)
        && (v.entry.None? || v.entry.value.phase in {Validated, Skipped})
        && (v.canonical.None? || v.canonical.value.kind != TimeSeries))
  }

  function SkippedState(m: SurfaceState, reason: string): SurfaceState {
    m.(phase := Skipped, skipReason := Some(reason))
  }

  lemma ReconciledRecord(cfg: Config, s: SurfaceId, v: SurfaceView, prior: Option<SurfaceState>, m: SurfaceState)
    requires ValidEntry(cfg, s, m) && !NeedsCandidateRecovery(m)
    requires if prior.None? then v.entry.None? && m == Fresh(cfg, s) else v.entry == Some(m)
    ensures var verdict := ReconcileRecord(prior, m, v.canonical, v.candidate);
            match verdict
            case Refuse(_) => true
            case Skip(reason) => reason != "" ==> FinishedRecord(cfg, s, v, SkippedState(m, reason))
            case Proceed(n) => Reconciled(cfg, s, v, n)
  {
  }

  /** From a reachable state nothing is refused. */
  lemma ReachableNotRefused(cfg: Config, s: SurfaceId, v: SurfaceView, prior: Option<SurfaceState>, m: SurfaceState)
    requires SurfaceInv(cfg, s, v) && !NeedsCandidateRecovery(m)
    requires if prior.None? then v.entry.None? && m == Fresh(cfg, s) else v.entry == Some(m)
    requires prior.Some? ==> prior.value == m || m.phase in {Validated, Copied}
    ensures !ReconcileRecord(prior, m, v.canonical, v.candidate).Refuse?
    ensures CandidateLost(v) ==> ReconcileRecord(prior, m, v.canonical, v.candidate) == Proceed(m)
  {
  }

  lemma SettledRecord(cfg: Config, s: SurfaceId, v: SurfaceView, prior: Option<SurfaceState>, m: SurfaceState)
    requires ValidEntry(cfg, s, m) && !NeedsCandidateRecovery(m)
    requires if prior.None? then v.entry.None? && m == Fresh(cfg, s) else v.entry == Some(m)
    ensures match ReconcileRecord(prior, m, v.canonical, v.candidate)
            case Refuse(_) => true
            case Skip(reason) => FinishedRecord(cfg, s, v, SkippedState(m, reason))
            case Proceed(n) => Reconciled(cfg, s, v, n)
    ensures SurfaceInv(cfg, s, v) && (prior.Some? ==> prior.value == m || m.phase in {Validated, Copied}) ==>
              !ReconcileRecord(prior, m, v.canonical, v.candidate).Refuse?
    ensures SurfaceInv(cfg, s, v) && prior == Some(m) && Done(m.phase) ==>
              match ReconcileRecord(prior, m, v.canonical, v.candidate)
              case Refuse(_) => false
              case Skip(_) => true
              case Proceed(n) => Done(n.phase)
  {
    ReconciledRecord(cfg, s, v, prior, m);
    if SurfaceInv(cfg, s, v) && (prior.Some? ==> prior.value == m || m.phase in {Validated, Copied}) {
      ReachableNotRefused(cfg, s, v, prior, m);
    }
  }

  lemma ReconcileCalm(v: SurfaceView, u: SurfaceView, prior: Option<SurfaceState>, m: SurfaceState)
    requires CalmColl(v.canonical, u.canonical) && CalmColl(v.candidate, u.candidate)
    ensures ReconcileRecord(prior, m, v.canonical, v.candidate) == ReconcileRecord(prior, m, u.canonical, u.candidate)
  {
  }

  lemma VerifiedEntryOk(cfg: Config, s: SurfaceId, v: SurfaceView, p: SurfaceState, m: SurfaceState)
    requires v.entry == Some(p) && Reconciled(cfg, s, v, p) && p.phase == Copied
    requires CandidateMatches(cfg, p, v.candidate) && v.candidate.value.freshIds
    requires m.candidate.Some? && OwnsNamespace(CandidateUuid(m), v.candidate)
    requires m == p.(phase := Verified, candidate := m.candidate)
    ensures OkEntry(cfg, s, v, m) && Reconciled(cfg, s, v.(entry := Some(m)), m)
  {
  }

  lemma InstalledEntryOk(cfg: Config, s: SurfaceId, v: SurfaceView, p: SurfaceState, m: SurfaceState)
    requires v.entry.Some? && ValidEntry(cfg, s, v.entry.value) && ValidEntry(cfg, s, p) && p.phase == Verified
    requires p == v.entry.value ||
             (v.entry.value.phase in {Installed, Complete} && p == v.entry.value.(phase := Verified, installed := None))
    requires Renamed(p, v.canonical) && m == p.(phase := Installed, installed := v.canonical.value.uuid)
    ensures OkEntry(cfg, s, v, m) && Reconciled(cfg, s, v.(entry := Some(m)), m)
  {
  }

  lemma CompleteEntryOk(cfg: Config, s: SurfaceId, v: SurfaceView, p: SurfaceState, m: SurfaceState)
    requires Reconciled(cfg, s, v, p) && p.phase == Installed && m == p.(phase := Complete)
    requires ExactPolicy(v.canonical.value, CanonicalRetention(s))
    ensures OkEntry(cfg, s, v, m) && Reconciled(cfg, s, v.(entry := Some(m)), m)
  {
  }

  lemma CopiedReconciled(cfg: Config, s: SurfaceId, v: SurfaceView, m: SurfaceState)
    requires v.entry == Some(m) && ValidEntry(cfg, s, m) && m.phase == Copied && m.candidate.Some?
    requires OwnsNamespace(CandidateUuid(m), v.candidate) && SourceOwned(m, v.canonical)
    ensures Reconciled(cfg, s, v, m)
  {
  }

  /** The state of an installation attempt, as far as it decides what the install phase does. */
  lemma InstallPlans(cfg: Config, s: SurfaceId, v: SurfaceView, m: SurfaceState)
    requires Reconciled(cfg, s, v, m) && m.phase == Verified && SurfaceInv(cfg, s, v)
    ensures InstallReady(v, m)
    ensures InstallPlan(v, m) == if CandidateLost(v) then DoRestartFromCopy else DoRename
  {
  }

  /** What verification needs of a candidate, and what makes the expiry phase succeed. */
  ghost predicate VerifySafe(cfg: Config, v: SurfaceView) {
    && v.entry.Some? && CandidateMatches(cfg, v.entry.value, v.candidate)
    && v.candidate.value.ttl == [] && v.candidate.value.freshIds
  }

  ghost predicate TtlSafe(cfg: Config, s: SurfaceId, v: SurfaceView) {
    v.canonical.Some? && v.entry.Some? && v.entry.value.plan.Some? &&
    (ExactPolicy(v.canonical.value, CanonicalRetention(s)) ||
     (v.canonical.value.ttl == [] && v.canonical.value.kind == Ordinary &&
      |v.canonical.value.rows| == v.entry.value.plan.value.documentCount))
  }

  lemma ReachableVerifySafe(cfg: Config, s: SurfaceId, v: SurfaceView, m: SurfaceState)
    requires SurfaceInv(cfg, s, v) && Reconciled(cfg, s, v, m) && m.phase == Copied && !CandidateLost(v)
    ensures VerifySafe(cfg, v)
  {
    PristineDigestMatches(cfg, s, m, v.candidate, v.pin);
  }

  lemma ReachableTtlSafe(cfg: Config, s: SurfaceId, v: SurfaceView, m: SurfaceState)
    requires SurfaceInv(cfg, s, v) && Reconciled(cfg, s, v, m) && m.phase == Installed
    ensures TtlSafe(cfg, s, v)
  {
    if v.canonical.value.ttl == [] { PristineDigestMatches(cfg, s, v.entry.value, v.canonical, v.pin); }
  }

  /** In a reachable state only a lost candidate can stop a conversion that is accepted and answered. */
  lemma ReachableStages(cfg: Config, s: SurfaceId, v: SurfaceView, m: SurfaceState)
    requires SurfaceInv(cfg, s, v) && Reconciled(cfg, s, v, m)
    ensures m.phase == Validated ==> v.canonical.value.uuid.Some? && !CandidateLost(v)
    ensures m.phase == Copied ==> if CandidateLost(v) then v.candidate.None? else VerifySafe(cfg, v)
    ensures m.phase == Verified ==>
              InstallReady(v, m) && InstallPlan(v, m) == if CandidateLost(v) then DoRestartFromCopy else DoRename
    ensures m.phase == Installed ==> TtlSafe(cfg, s, v) && !CandidateLost(v)
    ensures Done(m.phase) ==> FinishedRecord(cfg, s, v, m) && !CandidateLost(v)
  {
    if m.phase == Copied && !CandidateLost(v) { ReachableVerifySafe(cfg, s, v, m); }
    if m.phase == Verified { InstallPlans(cfg, s, v, m); }
    if m.phase == Installed { ReachableTtlSafe(cfg, s, v, m); }
  }

  lemma ReconciledReady(cfg: Config, s: SurfaceId, v: SurfaceView, m: SurfaceState)
    requires Reconciled(cfg, s, v, m)
    ensures m.phase == Verified ==> InstallReady(v, m)
    ensures Done(m.phase) ==> FinishedRecord(cfg, s, v, m)
  {
  }

  lemma FinishedNotLost(cfg: Config, s: SurfaceId, v: SurfaceView, m: SurfaceState)
    requires FinishedRecord(cfg, s, v, m) || (Reconciled(cfg, s, v, m) && Done(m.phase))
    ensures FinishedRecord(cfg, s, v, m) && !CandidateLost(v)
  {
  }

  lemma FinishedWritable(cfg: Config, s: SurfaceId, v: SurfaceView, m: SurfaceState)
    requires FinishedRecord(cfg, s, v, m)
    ensures OkEntry(cfg, s, v, m) && Done(m.phase)
  {
  }

  /** Nothing of this surface has been installed: an abort has nothing it cannot undo. */
  ghost predicate NotInstalled(v: SurfaceView) {
    v.entry.None? || v.entry.value.phase in {Skipped, Validated} || SourceOwned(v.entry.value, v.canonical)
  }

  lemma CalmSameLoss(v: SurfaceView, u: SurfaceView)
    requires Calm(v, u)
    ensures CandidateLost(v) <==> CandidateLost(u)
  {
  }

  /** Recovering an interrupted copy neither loses a candidate nor finds a lost one. */
  lemma RecoveredSameLoss(v: SurfaceView, u: SurfaceView)
    requires Calm(v, u) || u.entry.None? ||
             (v.entry.Some? && NeedsCandidateRecovery(v.entry.value) &&
              (u.entry.value.phase == Validated || (u.entry.value.phase == Copied && u.candidate.Some?)))
    requires v.entry.Some? <==> u.entry.Some?
    ensures CandidateLost(v) <==> CandidateLost(u)
  {
  }

  ghost predicate Finished(v: SurfaceView) {
    v.entry.Some? && Done(v.entry.value.phase)
  }

  /** An abort will recognise the candidate it finds. */
  ghost predicate DropSafe(cfg: Config, v: SurfaceView) {
    v.entry.Some? && var e := v.entry.value;
    if NeedsCandidateRecovery(e) then CandidateMatches(cfg, e, v.candidate) && v.candidate.value.ttl == []
    else OwnsNamespace(CandidateUuid(e), v.candidate)
  }

  ghost predicate AbortSafe(cfg: Config, v: SurfaceView) {
    v.entry.None? || v.entry.value.phase in {Skipped, Validated} ||
    (var e := v.entry.value;
     && e.phase in {Copying, Copied, Verified} && SourceOwned(e, v.canonical)
     && CandidateUuid(e) != SourceUuid(e) && e.installed.None?
     && (v.candidate.Some? ==> DropSafe(cfg, v)))
  }

  lemma ReachableAbortSafe(cfg: Config, s: SurfaceId, v: SurfaceView)
    requires SurfaceInv(cfg, s, v)
    ensures AbortSafe(cfg, v) <==> NotInstalled(v)
  {
    if v.entry.Some? && NeedsCandidateRecovery(v.entry.value) && v.candidate.Some? { RecoveryFindsOwnCopy(cfg, s, v); }
  }

  lemma AbortCalm(cfg: Config, v: SurfaceView, u: SurfaceView)
    requires Calm(v, u)
    ensures AbortSafe(cfg, v) ==> AbortSafe(cfg, u)
    ensures NotInstalled(v) <==> NotInstalled(u)
  {
  }

  lemma AbandonedBy(v: SurfaceView, u: SurfaceView)
    requires v.entry.Some? && v.entry.value.phase in {Copying, Copied, Verified}
              && SourceOwned(v.entry.value, v.canonical)
    requires u.entry == v.entry && u.candidate.None? && CalmColl(v.canonical, u.canonical)
    ensures Abandoned(u) && NotInstalled(v)
  {
  }

  /** What a finished surface is: left alone, or the pinned payload under its one canonical expiry. */
  ghost predicate Converted(s: SurfaceId, v: SurfaceView) {
    v.entry.Some? && var e := v.entry.value;
    || (e.phase == Skipped && (v.canonical.None? || v.canonical.value.kind != TimeSeries))
    || (e.phase == Complete && v.pin.Some? && v.candidate.None?
        && InstalledCopy(v.canonical, e.installed, v.pin.value, CanonicalRetention(s))
        && ExactPolicy(v.canonical.value, CanonicalRetention(s)))
  }

  lemma FinishedIsConverted(cfg: Config, s: SurfaceId, v: SurfaceView)
    requires SurfaceInv(cfg, s, v) && Finished(v)
    ensures Converted(s, v)
  {
  }

  /** Where an apply cannot complete, an abort can. */
  lemma LostMeansNotInstalled(cfg: Config, w: World)
    requires Inv(cfg, w)
    requires CandidateLost(ViewOf(cfg, w, Telemetry)) || CandidateLost(ViewOf(cfg, w, AccessEvents))
    ensures w.journal.Some?
    ensures NotInstalled(ViewOf(cfg, w, Telemetry)) && NotInstalled(ViewOf(cfg, w, AccessEvents))
  {
    LostMeansAbandoned(ViewOf(cfg, w, Telemetry), ViewOf(cfg, w, AccessEvents));
  }

  predicate HasTsIndex(c: Coll) {
    exists i :: 0 <= i < |c.ttl| && c.ttl[i].onTs
  }

  lemma OutCalm(cfg: Config, v: SurfaceView, u: SurfaceView, snapshot: seq<Row>, copied: seq<Row>)
    requires OutEnabled(cfg, v, snapshot) && Calm(v, u) && SamePayload(copied, snapshot)
    ensures OutEnabled(cfg, u, copied)
  {
  }

  lemma OutView(cfg: Config, w: World, s: SurfaceId, copied: seq<Row>)
    requires Enabled(cfg, w, Out(s, copied))
    ensures var u := ViewOf(cfg, Apply(cfg, w, Out(s, copied)), s);
            && PristineCopy(u.candidate, copied) && u == ViewOf(cfg, w, s).(candidate := u.candidate)
  {
    OwnCommandView(cfg, w, Out(s, copied));
  }

  lemma CreateTtlCalm(v: SurfaceView, u: SurfaceView)
    requires CreateTtlEnabled(v) && Calm(v, u)
    ensures CreateTtlEnabled(u)
  {
  }

  lemma AbandonedCalm(v: SurfaceView, u: SurfaceView)
    requires Abandoned(v) && Calm(v, u)
    ensures Abandoned(u)
  {
  }

  /**
   * What the tool remembers of the surface it is not converting: the access events are as recorded
   * while telemetry is converted, and telemetry is done, if only in memory, by the time they are.
   */
  ghost predicate OthersRecord(cfg: Config, s: SurfaceId, v: SurfaceView, m: Option<SurfaceState>) {
    if s == Telemetry then m == v.entry
    else m.Some? && FinishedRecord(cfg, Telemetry, v, m.value)
  }

  lemma PlanCalm(v: SurfaceView, u: SurfaceView, m: SurfaceState)
    requires Calm(v, u)
    ensures InstallPlan(v, m) == InstallPlan(u, m)
  {
  }

  function InstallPlan(v: SurfaceView, m: SurfaceState): InstallAction {
    PlanInstallAction(v.canonical, v.candidate, SourceUuid(m), CandidateUuid(m), m.installed)
  }

  function InstallFailure(action: InstallAction): Failure {
    match action
    case DoAbortForeignCanonical => ForeignCanonical
    case DoAbortForeignCandidate => ForeignCandidate
    case _ => NothingToInstall
  }

  /** The record to install from: as persisted, or a stale installation whose candidate is intact. */
  ghost predicate InstallReady(v: SurfaceView, m: SurfaceState) {
    v.entry.Some? && var e := v.entry.value;
    && m.phase == Verified && m.installed.None?
    && (m == e
       || (v.canonical.None? && e.phase in {Installed, Complete} && m == e.(phase := Verified, installed := None)))
  }

  /** The commands that take back work: only an abort may issue them. */
  predicate Undoes(c: Cmd) { c.Drop? || c.Erase? }

  ghost predicate NothingUndone(log: seq<Cmd>, from: nat) {
    forall i :: from <= i < |log| ==> !Undoes(log[i])
  }

  ghost predicate Quiet(before: seq<Cmd>, after: seq<Cmd>) {
    before <= after && forall i :: |before| <= i < |after| ==> after[i].Expire? || after[i].Write?
  }

  lemma DropCalm(cfg: Config, v: SurfaceView, u: SurfaceView)
    requires DropEnabled(cfg, v) && Calm(v, u)
    ensures DropEnabled(cfg, u)
  {
  }

  /**
   * `world` is the database and the journal file, `surfaces` the records in memory, and `env` what
   * the world will do at each command.  `worlds` and `log` are the history the claims are about, of
   * earlier processes too; none of its commands from `undone` on drops a copy or erases the journal,
   * and the apply methods may not move that mark.
   */
  class Converter {
    const cfg: Config
    const env: nat -> Choice
    var world: World
    var surfaces: Journal
    var clock: nat
    var worlds: seq<World>
    var log: seq<Cmd>
    ghost var undone: nat

    /** A new process, which finds what earlier ones left. */
    constructor (cfg: Config, env: nat -> Choice, world: World, worlds: seq<World>, log: seq<Cmd>)
      requires Behaviour(cfg, worlds, log) && worlds[|log|] == world
      ensures Valid() && this.cfg == cfg && this.env == env && this.world == world
      ensures this.worlds == worlds && this.log == log
    {
      this.cfg, this.env, this.world := cfg, env, world;
      this.worlds, this.log, undone := worlds, log, |log|;
      surfaces, clock := map[], 0;
    }

    ghost function View(s: SurfaceId): SurfaceView
      reads `world
    {
      ViewOf(cfg, world, s)
    }

    ghost predicate Valid()
      reads this
    {
      && Behaviour(cfg, worlds, log) && worlds[|log|] == world
      && undone <= |log| && NothingUndone(log, undone)
    }

    /** Only legal commands were issued since. */
    twostate predicate Progress()
      reads this
    {
      Valid() && old(log) <= log && old(worlds) <= worlds
    }

    /** So a state the protocol can reach stays one. */
    twostate lemma InvCarried()
      requires old(Valid()) && Progress() && old(Inv(cfg, world))
      ensures Inv(cfg, world)
    {
      BehaviourKeepsInv(cfg, worlds, log, |old(log)|, |log|);
    }

    /** Nothing taken back, nothing lost. */
    twostate lemma NoneLost()
      requires old(Valid()) && Progress() && old(Inv(cfg, world)) && NothingUndone(log, |old(log)|)
      ensures forall s :: !CandidateLost(old(View(s))) ==> !CandidateLost(View(s))
    {
      forall s | !CandidateLost(old(View(s))) ensures !CandidateLost(View(s)) {
        OnlyDropLosesCandidate(cfg, worlds, log, |old(log)|, |log|, s);
      }
    }

    /** Every command from now on takes effect and is answered. */
    ghost predicate Cooperative() {
      forall i :: env(i).outcome == Succeeded
    }

    /** The record kept for the surface that is not being converted. */
    ghost predicate OtherReady(s: SurfaceId)
      reads this
    {
      OthersRecord(cfg, s, View(Other(s)), Get(surfaces, Other(s)))
    }

    lemma OtherReadyGives(s: SurfaceId)
      requires OtherReady(s) && s in surfaces && OkEntry(cfg, s, View(s), surfaces[s])
      ensures WriteEnabled(cfg, world, surfaces)
    {
      forall t: SurfaceId
        ensures EntryOf(world, t).Some? ==> t in surfaces
        ensures t in surfaces ==> OkEntry(cfg, t, View(t), surfaces[t])
      {
        if t != s { assert t == Other(s); }
      }
    }

    // ---------------------------------------------------------------- commands

    method Issue(cmd: Cmd)
      requires Valid() && Enabled(cfg, world, cmd) && !Undoes(cmd)
      modifies `world, `worlds, `log
      ensures Progress() && world == Apply(cfg, old(world), cmd)
      ensures log == old(log) + [cmd]
    {
      BehaviourExtends(cfg, worlds, log, cmd);
      world := Apply(cfg, world, cmd);
      worlds, log := worlds + [world], log + [cmd];
    }

    method IssueUndoing(cmd: Cmd)
      requires Valid() && Enabled(cfg, world, cmd)
      modifies `world, `worlds, `log, `undone
      ensures Progress() && world == Apply(cfg, old(world), cmd)
    {
      BehaviourExtends(cfg, worlds, log, cmd);
      world := Apply(cfg, world, cmd);
      worlds, log := worlds + [world], log + [cmd];
      undone := |log|;
    }

    method Tick() returns (c: Choice)
      requires Valid()
      modifies `world, `clock, `worlds, `log
      ensures Progress() && Quiet(old(log), log) && c == env(old(clock))
      ensures forall s :: Calm(old(View(s)), View(s))
      ensures world == old(world).(server := world.server)
    {
      c := env(clock);
      clock := clock + 1;
      var server := world.server;
      var f := map n | n in c.survivors && n in server && Expirable(server[n])
                       && multiset(c.survivors[n]) <= multiset(server[n].rows) :: c.survivors[n];
      forall s ensures Calm(View(s), ViewOf(cfg, Apply(cfg, world, Expire(f)), s)) { ExpireIsCalm(cfg, world, f, s); }
      Issue(Expire(f));
    }

    method Persist() returns (ok: bool)
      requires Valid() && WriteEnabled(cfg, world, surfaces)
      modifies `world, `clock, `worlds, `log
      ensures Progress() && Quiet(old(log), log)
      ensures ok ==> forall s :: Calm(old(View(s)).(entry := Get(surfaces, s)), View(s))
      ensures Cooperative() ==> ok
    {
      var c := Tick();
      forall s | s in surfaces ensures OkEntry(cfg, s, ViewOf(cfg, world, s), surfaces[s]) {
        CalmKeepsOkEntry(cfg, s, old(View(s)), View(s), surfaces[s]);
      }
      ok := c.outcome == Succeeded;
      if TakesEffect(c.outcome) {
        forall s ensures ViewOf(cfg, Apply(cfg, world, Write(surfaces)), s) == View(s).(entry := Get(surfaces, s)) {
          WriteView(cfg, world, surfaces, s);
        }
        Issue(Write(surfaces));
      }
    }

    /** `$out`: atomic on the server, from the pinned snapshot, in whatever order it writes. */
    method OutCopy(s: SurfaceId, snapshot: seq<Row>) returns (ok: bool)
      requires Valid() && View(s).pin == Some(snapshot) && OutEnabled(cfg, View(s), snapshot)
      modifies `world, `clock, `worlds, `log
      ensures Progress()
      ensures Calm(old(View(s)).(candidate := View(s).candidate), View(s))
      ensures View(s).candidate.None? || PristineCopy(View(s).candidate, snapshot)
      ensures Calm(old(View(Other(s))), View(Other(s)))
      ensures Cooperative() ==> ok && View(s).candidate.Some?
    {
      var c := Tick();
      assert Calm(old(View(s)), View(s)) && Calm(old(View(Other(s))), View(Other(s)));
      ok := c.outcome == Succeeded || c.outcome == Misreported;
      if TakesEffect(c.outcome) {
        var copied := if multiset(c.order) == multiset(snapshot) then c.order else snapshot;
        OutCalm(cfg, old(View(s)), View(s), snapshot, copied);
        OutView(cfg, world, s, copied);
        OtherSurfaceUntouched(cfg, world, Out(s, copied), Other(s));
        Issue(Out(s, copied));
      }
    }

    method RenameCandidate(s: SurfaceId) returns (ok: bool)
      requires Valid() && RenameEnabled(View(s))
      modifies `world, `clock, `worlds, `log
      ensures Progress()
      ensures var renamed := old(View(s)).(canonical := old(View(s)).candidate, candidate := None);
              && (Calm(old(View(s)), View(s)) || Calm(renamed, View(s)))
              && (Cooperative() ==> ok && Calm(renamed, View(s)))
      ensures Calm(old(View(Other(s))), View(Other(s)))
    {
      var c := Tick();
      assert Calm(old(View(s)), View(s)) && Calm(old(View(Other(s))), View(Other(s)));
      ok := c.outcome == Succeeded || c.outcome == Misreported;
      if TakesEffect(c.outcome) {
        OwnCommandView(cfg, world, Rename(s));
        OtherSurfaceUntouched(cfg, world, Rename(s), Other(s));
        Issue(Rename(s));
      }
    }

    method DropCandidate(s: SurfaceId) returns (ok: bool)
      requires Valid() && DropEnabled(cfg, View(s)) && (s == AccessEvents ==> Abandoned(View(Telemetry)))
      modifies `world, `clock, `worlds, `log, `undone
      ensures Progress()
      ensures ok ==> Calm(old(View(s)).(candidate := None), View(s))
      ensures Calm(old(View(Other(s))), View(Other(s)))
      ensures Cooperative() ==> ok
    {
      var c := Tick();
      assert Calm(old(View(s)), View(s)) && Calm(old(View(Other(s))), View(Other(s)));
      ok := c.outcome == Succeeded;
      if TakesEffect(c.outcome) {
        DropCalm(cfg, old(View(s)), View(s));
        if s == AccessEvents { AbandonedCalm(old(View(Telemetry)), View(Telemetry)); }
        OwnCommandView(cfg, world, Drop(s));
        OtherSurfaceUntouched(cfg, world, Drop(s), Other(s));
        IssueUndoing(Drop(s));
      }
    }

    /** The server refuses a second index on the same key with other options. */
    method CreateTtlIndex(s: SurfaceId, retention: nat) returns (ok: bool)
      requires Valid() && View(s).canonical.Some?
      requires HasTsIndex(View(s).canonical.value) ||
               (CreateTtlEnabled(View(s)) && View(s).entry.value.plan.value.retention == retention)
      modifies `world, `clock, `worlds, `log
      ensures Progress()
      ensures var v, u := old(View(s)), View(s);
              && u == v.(canonical := u.canonical, candidate := u.candidate)
              && CalmColl(v.candidate, u.candidate)
              && u.canonical.Some? && u.canonical.value.kind == v.canonical.value.kind
              && u.canonical.value.uuid == v.canonical.value.uuid
              && (Cooperative() && v.canonical.value.ttl == [] ==> ok && ExactPolicy(u.canonical.value, retention))
      ensures Calm(old(View(Other(s))), View(Other(s)))
    {
      var c := Tick();
      assert Calm(old(View(s)), View(s)) && Calm(old(View(Other(s))), View(Other(s)));
      var existing := world.server[Canonical(s)];
      ok := c.outcome == Succeeded;
      if HasTsIndex(existing) {
        ok := ok && TtlIndex(true, retention, false) in existing.ttl;
      } else if TakesEffect(c.outcome) {
        CreateTtlCalm(old(View(s)), View(s));
        OwnCommandView(cfg, world, CreateTtl(s));
        OtherSurfaceUntouched(cfg, world, CreateTtl(s), Other(s));
        Issue(CreateTtl(s));
      }
    }

    method EraseJournal() returns (ok: bool)
      requires Valid() && Abandoned(View(Telemetry)) && Abandoned(View(AccessEvents))
      modifies `world, `clock, `worlds, `log, `undone
      ensures Progress()
      ensures ok ==> world.journal == None
      ensures Calm(old(View(Telemetry)).(entry := View(Telemetry).entry), View(Telemetry))
      ensures Calm(old(View(AccessEvents)).(entry := View(AccessEvents).entry), View(AccessEvents))
      ensures Cooperative() ==> ok
    {
      var c := Tick();
      ok := c.outcome == Succeeded;
      if TakesEffect(c.outcome) {
        AbandonedCalm(old(View(Telemetry)), View(Telemetry));
        AbandonedCalm(old(View(AccessEvents)), View(AccessEvents));
        forall s ensures Abandoned(ViewOf(cfg, world, s)) { assert s == Telemetry || s == AccessEvents; }
        EraseView(cfg, world, Telemetry);
        EraseView(cfg, world, AccessEvents);
        IssueUndoing(Erase);
      }
    }

    // ---------------------------------------------------------------- reads

    method Inspect(name: Namespace) returns (observed: Option<Coll>)
      requires Valid()
      modifies `world, `clock, `worlds, `log
      ensures Progress() && Quiet(old(log), log)
      ensures forall s :: Calm(old(View(s)), View(s))
      ensures observed == Get(world.server, name)
    {
      var _ := Tick();
      observed := Get(world.server, name);
    }

    /** An absent collection reads as an empty one. */
    method DigestCollection(name: Namespace) returns (digest: Digest)
      requires Valid()
      modifies `world, `clock, `worlds, `log
      ensures Progress() && Quiet(old(log), log)
      ensures forall s :: Calm(old(View(s)), View(s))
      ensures digest == cfg.digester.of(if name in world.server then world.server[name].rows else [])
    {
      var _ := Tick();
      digest := ComputeDigest(cfg.digester, if name in world.server then world.server[name].rows else []);
    }

    method PinSource(s: SurfaceId) returns (rows: seq<Row>)
      requires Valid() && View(s).canonical.Some? && View(s).canonical.value.kind == TimeSeries
      requires View(s).candidate.None? && (View(s).entry.None? || View(s).entry.value.phase == Validated)
      modifies `world, `clock, `worlds, `log
      ensures Progress()
      ensures Calm(old(View(s)).(pin := Some(rows)), View(s))
      ensures Calm(old(View(Other(s))), View(Other(s)))
    {
      var _ := Tick();
      assert Calm(old(View(s)), View(s)) && Calm(old(View(Other(s))), View(Other(s)));
      rows := world.server[Canonical(s)].rows;
      OwnCommandView(cfg, world, Pin(s));
      OtherSurfaceUntouched(cfg, world, Pin(s), Other(s));
      Issue(Pin(s));
    }

    /** Persist while one surface is being converted. */
    method PersistSurface(s: SurfaceId) returns (ok: bool)
      requires Valid() && OtherReady(s) && s in surfaces && OkEntry(cfg, s, View(s), surfaces[s])
      modifies `world, `clock, `worlds, `log
      ensures Progress() && Quiet(old(log), log)
      ensures ok ==> OtherReady(s) && Calm(old(View(s)).(entry := Some(surfaces[s])), View(s))
      ensures ok && s == Telemetry ==> Calm(old(View(AccessEvents)), View(AccessEvents))
      ensures Cooperative() ==> ok
    {
      OtherReadyGives(s);
      ok := Persist();
      if ok {
        var o := Other(s);
        assert Calm(old(View(o)).(entry := Get(surfaces, o)), View(o));
        if s == AccessEvents {
          assert View(Telemetry).entry == Some(surfaces[Telemetry]);
        }
      }
    }

    // ---------------------------------------------------------------- phases

    method RecoverCopyingPhase(s: SurfaceId, observed: Option<Coll>) returns (err: Result)
      requires Valid() && s in surfaces && surfaces[s].digest.Some? && CalmColl(observed, View(s).candidate)
      modifies `world, `clock, `worlds, `log, `surfaces
      ensures Progress() && Quiet(old(log), log)
      ensures Calm(old(View(s)), View(s)) && Calm(old(View(Other(s))), View(Other(s)))
      ensures s in surfaces && surfaces == old(surfaces)[s := surfaces[s]]
      ensures observed.None? ==>
                err.None? && surfaces[s] == old(surfaces[s]).(phase := Validated, digest := None, candidate := None)
      ensures observed.Some? && err.None? ==>
                && CandidateMatches(cfg, old(surfaces[s]), View(s).candidate)
                && surfaces[s].candidate.Some? && OwnsNamespace(CandidateUuid(surfaces[s]), View(s).candidate)
                && surfaces[s] == old(surfaces[s]).(phase := Copied, candidate := surfaces[s].candidate)
      ensures (observed.Some? && CandidateMatches(cfg, old(surfaces[s]), old(View(s)).candidate)
               && old(View(s)).candidate.value.ttl == []) ==> err.None?
    {
      var m := surfaces[s];
      if observed.None? {
        surfaces := surfaces[s := m.(phase := Validated, digest := None, candidate := None)];
        return None;
      }
      if observed.value.kind != Ordinary || observed.value.uuid.None? {
        return Some(ForeignCandidate);
      }
      var digest := DigestCollection(Candidacy(s));
      assert Calm(old(View(s)), View(s)) && Calm(old(View(Other(s))), View(Other(s)));
      var equal := CompareDigests(digest, m.digest.value);
      if !equal {
        return Some(ForeignCandidate);
      }
      surfaces := surfaces[s := m.(phase := Copied,
                                   candidate := Some(Candidate(observed.value.uuid.value, digest.documentCount)))];
      return None;
    }

    /** One snapshot session, opened only while the candidate name is free ... */
    method OpenSnapshot(s: SurfaceId) returns (err: Result, rows: seq<Row>)
      requires Valid() && View(s).canonical.Some? && View(s).canonical.value.kind == TimeSeries
      requires View(s).entry.None? || View(s).entry.value.phase == Validated
      modifies `world, `clock, `worlds, `log
      ensures Progress()
      ensures err.None? ==> View(s).candidate.None? && Calm(old(View(s)).(pin := Some(rows)), View(s))
      ensures Calm(old(View(Other(s))), View(Other(s)))
      ensures old(View(s)).candidate.None? ==> err.None?
    {
      var existing := Inspect(Candidacy(s));
      assert Calm(old(View(s)), View(s)) && Calm(old(View(Other(s))), View(Other(s)));
      if existing.Some? { return Some(CandidateExisted), []; }
      label Free:
      rows := PinSource(s);
      CalmTransitive(old(View(Other(s))), old@Free(View(Other(s))), View(Other(s)));
      CalmTransitive(old(View(s)).(pin := Some(rows)), old@Free(View(s)).(pin := Some(rows)), View(s));
      err := None;
    }

    /** ... the digest that pins it, and the persisted intent ... */
    method BeginCopy(s: SurfaceId) returns (err: Result, rows: seq<Row>)
      requires Valid() && OtherReady(s) && s in surfaces && surfaces[s].phase == Validated
      requires ValidEntry(cfg, s, surfaces[s]) && surfaces[s].plan.Some?
      requires SourceOwned(surfaces[s], View(s).canonical)
      requires View(s).entry.None? || View(s).entry.value.phase == Validated
      modifies `world, `surfaces, `clock, `worlds, `log
      ensures Progress()
      ensures s in surfaces && surfaces == old(surfaces)[s := surfaces[s]]
      ensures err.None? ==> OtherReady(s) && OutEnabled(cfg, View(s), rows) && View(s).pin == Some(rows)
      ensures err.None? ==>
                && View(s).entry == Some(surfaces[s]) && surfaces[s].plan.Some? && ValidEntry(cfg, s, surfaces[s])
                && surfaces[s] == old(surfaces[s]).(digest := surfaces[s].digest, plan := surfaces[s].plan,
                                                    candidate := None, phase := Copying)
      ensures err.None? && s == Telemetry ==> Calm(old(View(AccessEvents)), View(AccessEvents))
      ensures Cooperative() && old(View(s)).candidate.None? ==> err.None?
    {
      err, rows := OpenSnapshot(s);
      if err.Some? { return; }
      label Pinned:
      var digest := ComputeDigest(cfg.digester, rows);
      DigestCountsRows(cfg.digester, rows);
      var m := surfaces[s];
      m := m.(digest := Some(digest), plan := Some(m.plan.value.(documentCount := digest.documentCount)),
              candidate := None, phase := Copying);
      surfaces := surfaces[s := m];
      StartedEntryOk(cfg, s, View(s), m);
      var ok := PersistSurface(s);
      if s == Telemetry
          && ok { CalmTransitive(old(View(AccessEvents)), old@Pinned(View(AccessEvents)), View(AccessEvents)); }
      return if ok then None else Some(CommandFailed), rows;
    }

    /** The candidate's identity, for which it must be an ordinary collection. */
    method IdentifyCandidate(s: SurfaceId) returns (candidate: Option<Coll>)
      requires Valid()
      modifies `world, `clock, `worlds, `log
      ensures Progress() && Quiet(old(log), log)
      ensures Calm(old(View(s)), View(s)) && Calm(old(View(Other(s))), View(Other(s)))
      ensures candidate.Some? ==> candidate == View(s).candidate && candidate.value.kind == Ordinary
                                  && candidate.value.uuid.Some?
      ensures candidate.None? ==> View(s).candidate.None? || View(s).candidate.value.kind != Ordinary
                                  || View(s).candidate.value.uuid.None?
    {
      candidate := Inspect(Candidacy(s));
      if candidate.Some? && (candidate.value.kind != Ordinary || candidate.value.uuid.None?) { candidate := None; }
    }

    /** ... and the copy made from that same snapshot, told apart by its identity. */
    method FinishCopy(s: SurfaceId, rows: seq<Row>) returns (err: Result)
      requires Valid() && s in surfaces && OutEnabled(cfg, View(s), rows) && View(s).pin == Some(rows)
      requires View(s).entry == Some(surfaces[s])
      modifies `world, `surfaces, `clock, `worlds, `log
      ensures Progress()
      ensures s in surfaces && surfaces == old(surfaces)[s := surfaces[s]]
      ensures Calm(old(View(s)).(candidate := View(s).candidate), View(s)) && Calm(old(View(Other(s))), View(Other(s)))
      ensures err.None? ==>
                && CandidateMatches(cfg, old(surfaces[s]), View(s).candidate)
                && OwnsNamespace(CandidateUuid(surfaces[s]), View(s).candidate) && surfaces[s].candidate.Some?
                && surfaces[s] == old(surfaces[s]).(phase := Copied, candidate := surfaces[s].candidate)
      ensures Cooperative() ==> err.None?
    {
      var ok := OutCopy(s, rows);
      if !ok { return Some(CommandFailed); }
      label Written:
      var candidate := IdentifyCandidate(s);
      CalmTransitive(old(View(Other(s))), old@Written(View(Other(s))), View(Other(s)));
      if candidate.None? { return Some(CopyUnidentified); }
      DigesterDecidesPayload(cfg.digester, candidate.value.rows, rows);
      surfaces := surfaces[s := surfaces[s].(candidate := Some(Candidate(candidate.value.uuid.value, |rows|)),
          phase := Copied)];
      return None;
    }

    method RunCopyPhase(s: SurfaceId) returns (err: Result)
      requires Valid() && OtherReady(s) && s in surfaces && surfaces[s].phase == Validated
      requires ValidEntry(cfg, s, surfaces[s]) && surfaces[s].plan.Some?
      requires SourceOwned(surfaces[s], View(s).canonical)
      requires View(s).entry.None? || View(s).entry.value.phase == Validated
      modifies `world, `surfaces, `clock, `worlds, `log
      ensures Progress()
      ensures s in surfaces && surfaces == old(surfaces)[s := surfaces[s]]
      ensures err.None? ==> OtherReady(s) && surfaces[s].candidate.Some? && surfaces[s].phase == Copied
      ensures err.None? ==>
                && OwnsNamespace(CandidateUuid(surfaces[s]), View(s).candidate)
                && SourceOwned(surfaces[s], View(s).canonical)
                && View(s).entry.Some? && View(s).entry.value.phase == Copying
                   && ValidEntry(cfg, s, View(s).entry.value)
                && CandidateMatches(cfg, View(s).entry.value, View(s).candidate)
                && surfaces[s] == View(s).entry.value.(phase := Copied, candidate := surfaces[s].candidate)
      ensures err.None? && s == Telemetry ==> Calm(old(View(AccessEvents)), View(AccessEvents))
      ensures Cooperative() && old(View(s)).candidate.None? ==> err.None?
    {
      var rows;
      err, rows := BeginCopy(s);
      if err.Some? { return; }
      err := FinishCopy(s, rows);
    }

    method MatchCandidate(s: SurfaceId, expected: Digest) returns (matched: bool, digest: Digest)
      requires Valid()
      modifies `world, `clock, `worlds, `log
      ensures Progress()
      ensures Calm(old(View(s)), View(s)) && Calm(old(View(Other(s))), View(Other(s)))
      ensures matched && View(s).candidate.Some? ==> cfg.digester.of(View(s).candidate.value.rows) == expected
      ensures old(View(s)).candidate.Some? && old(View(s)).candidate.value.ttl == []
              && cfg.digester.of(old(View(s)).candidate.value.rows) == expected
                 && old(View(s)).candidate.value.kind == Ordinary
              ==> matched
    {
      digest := DigestCollection(Candidacy(s));
      assert Calm(old(View(s)), View(s)) && Calm(old(View(Other(s))), View(Other(s)));
      matched := CompareDigests(digest, expected);
    }

    /** The copied rows carry fresh ids, and the collection can be told apart. */
    method IdentifyFresh(s: SurfaceId) returns (err: Result, candidate: Option<Coll>)
      requires Valid()
      modifies `world, `clock, `worlds, `log
      ensures Progress()
      ensures Calm(old(View(s)), View(s)) && Calm(old(View(Other(s))), View(Other(s)))
      ensures candidate == View(s).candidate
      ensures err.None? <==> candidate.Some? && candidate.value.freshIds && candidate.value.kind == Ordinary
                             && candidate.value.uuid.Some?
    {
      candidate := Inspect(Candidacy(s));
      assert Calm(old(View(s)), View(s)) && Calm(old(View(Other(s))), View(Other(s)));
      err := if candidate.Some? && !candidate.value.freshIds then Some(IdsNotFresh)
             else if candidate.None? || candidate.value.kind != Ordinary || candidate.value.uuid.None? then
               Some(CandidateMissing)
             else None;
    }

    method RunVerifyPhase(s: SurfaceId) returns (err: Result)
      requires Valid() && s in surfaces && surfaces[s].digest.Some?
      modifies `world, `surfaces, `clock, `worlds, `log
      ensures Progress()
      ensures Calm(old(View(s)), View(s)) && Calm(old(View(Other(s))), View(Other(s)))
      ensures s in surfaces && surfaces == old(surfaces)[s := surfaces[s]]
      ensures err.None? ==>
                && CandidateMatches(cfg, old(surfaces[s]), View(s).candidate) && View(s).candidate.value.freshIds
                && surfaces[s].candidate.Some? && OwnsNamespace(CandidateUuid(surfaces[s]), View(s).candidate)
                && surfaces[s] == old(surfaces[s]).(phase := Verified, candidate := surfaces[s].candidate)
      ensures old(View(s)).candidate.None? ==> err.Some?
      ensures (CandidateMatches(cfg, old(surfaces[s]), old(View(s)).candidate)
               && old(View(s)).candidate.value.ttl == [] && old(View(s)).candidate.value.freshIds) ==> err.None?
    {
      ghost var e := surfaces[s];
      var matched, digest := MatchCandidate(s, surfaces[s].digest.value);
      if !matched { return Some(DigestMismatch); }
      label Matched:
      var candidate;
      err, candidate := IdentifyFresh(s);
      CalmTransitive(old(View(s)), old@Matched(View(s)), View(s));
      CalmTransitive(old(View(Other(s))), old@Matched(View(Other(s))), View(Other(s)));
      if err.Some? { return; }
      StillMatches(cfg, e, old@Matched(View(s)), View(s));
      surfaces := surfaces[s := surfaces[s].(
        candidate := Some(Candidate(candidate.value.uuid.value, digest.documentCount)), phase := Verified)];
    }

    method ObserveInstall(s: SurfaceId) returns (action: InstallAction)
      requires Valid() && s in surfaces
      modifies `world, `clock, `worlds, `log
      ensures Progress()
      ensures Calm(old(View(s)), View(s)) && Calm(old(View(Other(s))), View(Other(s)))
      ensures action == InstallPlan(View(s), surfaces[s])
    {
      var m := surfaces[s];
      var canonical := Inspect(Canonical(s));
      label Seen:
      var candidate := Inspect(Candidacy(s));
      CalmTransitive(old(View(s)), old@Seen(View(s)), View(s));
      CalmTransitive(old(View(Other(s))), old@Seen(View(Other(s))), View(Other(s)));
      action := PlanInstallAction(canonical, candidate, SourceUuid(m), CandidateUuid(m), m.installed);
      PlanCalm(old@Seen(View(s)), View(s), m);
    }

    method RenameAndConfirm(s: SurfaceId) returns (err: Result)
      requires Valid() && RenameEnabled(View(s)) && s in surfaces
      requires surfaces[s].candidate == View(s).entry.value.candidate
      modifies `world, `surfaces, `clock, `worlds, `log
      ensures Progress()
      ensures Calm(old(View(Other(s))), View(Other(s))) && View(s).entry == old(View(s)).entry
      ensures s in surfaces && surfaces == old(surfaces)[s := surfaces[s]]
      ensures err.None? ==>
                && Renamed(old(surfaces[s]), View(s).canonical)
                && surfaces[s] == old(surfaces[s]).(phase := Installed, installed := View(s).canonical.value.uuid)
      ensures Cooperative() ==> err.None?
    {
      var ok := RenameCandidate(s);
      if !ok { return Some(CommandFailed); }
      label Answered:
      var canonical := Inspect(Canonical(s));
      CalmTransitive(old(View(Other(s))), old@Answered(View(Other(s))), View(Other(s)));
      assert Calm(old@Answered(View(s)), View(s));
      if !OwnsNamespace(CandidateUuid(surfaces[s]), canonical) { return Some(RenameUncertain); }
      surfaces := surfaces[s := surfaces[s].(phase := Installed, installed := canonical.value.uuid)];
      return None;
    }

    /** The rename, or its recovery by identity; `restarted` when the verified candidate is gone. */
    method RunInstallPhase(s: SurfaceId) returns (err: Result, restarted: bool)
      requires Valid() && s in surfaces && InstallReady(View(s), surfaces[s])
      modifies `world, `surfaces, `clock, `worlds, `log
      ensures Progress()
      ensures Calm(old(View(Other(s))), View(Other(s))) && View(s).entry == old(View(s)).entry
      ensures s in surfaces && surfaces == old(surfaces)[s := surfaces[s]]
      ensures err.None? && restarted ==>
                && surfaces[s] == old(surfaces[s]).(phase := Validated, digest := None, candidate := None)
                && View(s).candidate.None? && SourceOwned(old(surfaces[s]), View(s).canonical)
                && Calm(old(View(s)), View(s))
      ensures err.None? && !restarted ==>
                && Renamed(old(surfaces[s]), View(s).canonical)
                && surfaces[s] == old(surfaces[s]).(phase := Installed, installed := View(s).canonical.value.uuid)
      ensures var planned := InstallPlan(old(View(s)), old(surfaces[s]));
              && (planned == DoRename && Cooperative() ==> err.None? && !restarted)
              && (planned == DoRestartFromCopy ==> err.None? && restarted)
    {
      restarted := false;
      var m := surfaces[s];
      var action := ObserveInstall(s);
      PlanCalm(old(View(s)), View(s), m);
      if action == DoRestartFromCopy {
        surfaces := surfaces[s := m.(phase := Validated, digest := None, candidate := None)];
        return None, true;
      }
      if action == DoAlreadyInstalled {
        surfaces := surfaces[s := m.(phase := Installed, installed := if m.installed.Some? then m.installed
            else CandidateUuid(m))];
        return None, false;
      }
      if action != DoRename {
        return Some(InstallFailure(action)), false;
      }
      label Planned:
      err := RenameAndConfirm(s);
      CalmTransitive(old(View(Other(s))), old@Planned(View(Other(s))), View(Other(s)));
    }

    method HasExactPolicy(s: SurfaceId, retention: nat) returns (exact: bool, count: nat)
      requires Valid() && View(s).canonical.Some?
      modifies `world, `clock, `worlds, `log
      ensures Progress()
      ensures Calm(old(View(s)), View(s)) && Calm(old(View(Other(s))), View(Other(s)))
      ensures View(s).canonical.Some? && exact == ExactPolicy(View(s).canonical.value, retention)
      ensures count == |View(s).canonical.value.rows|
    {
      var installed := Inspect(Canonical(s));
      exact, count := ExactPolicy(installed.value, retention), |installed.value.rows|;
    }

    method EstablishTtl(s: SurfaceId, retention: nat) returns (err: Result)
      requires Valid() && View(s).canonical.Some?
      requires HasTsIndex(View(s).canonical.value) ||
               (CreateTtlEnabled(View(s)) && View(s).entry.value.plan.value.retention == retention)
      modifies `world, `clock, `worlds, `log
      ensures Progress()
      ensures Calm(old(View(Other(s))), View(Other(s))) && View(s).entry == old(View(s)).entry
      ensures View(s).canonical.Some? && View(s).canonical.value.uuid == old(View(s)).canonical.value.uuid
      ensures err.None? ==> ExactPolicy(View(s).canonical.value, retention)
      ensures Cooperative() && old(View(s)).canonical.value.ttl == [] ==> err.None?
    {
      var ok := CreateTtlIndex(s, retention);
      if !ok { return Some(CommandFailed); }
      label Created:
      var exact, _ := HasExactPolicy(s, retention);
      CalmTransitive(old(View(Other(s))), old@Created(View(Other(s))), View(Other(s)));
      return if exact then None else Some(TtlPolicyWrong);
    }

    /** The index is created only on the full row count. */
    method CountAndEstablish(s: SurfaceId, plan: Plan) returns (err: Result)
      requires Valid() && View(s).entry.Some? && View(s).entry.value.plan == Some(plan)
      requires Renamed(View(s).entry.value, View(s).canonical)
      modifies `world, `clock, `worlds, `log
      ensures Progress()
      ensures Calm(old(View(Other(s))), View(Other(s))) && View(s).entry == old(View(s)).entry
      ensures View(s).canonical.Some? && View(s).canonical.value.uuid == old(View(s)).canonical.value.uuid
      ensures err.None? ==> ExactPolicy(View(s).canonical.value, plan.retention)
      ensures (Cooperative() && old(View(s)).canonical.value.ttl == []
               && old(|View(s).canonical.value.rows| == plan.documentCount)
               && old(View(s)).canonical.value.kind == Ordinary) ==> err.None?
    {
      var _, count := HasExactPolicy(s, plan.retention);
      if count != plan.documentCount { return Some(CountMismatch); }
      label Counted:
      err := EstablishTtl(s, plan.retention);
      CalmTransitive(old(View(Other(s))), old@Counted(View(Other(s))), View(Other(s)));
    }

    method RunTtlPhase(s: SurfaceId) returns (err: Result)
      requires Valid() && s in surfaces && surfaces[s].plan.Some?
      requires View(s).entry.Some? && View(s).entry.value.plan == surfaces[s].plan
      requires Renamed(View(s).entry.value, View(s).canonical)
      modifies `world, `surfaces, `clock, `worlds, `log
      ensures Progress()
      ensures Calm(old(View(Other(s))), View(Other(s))) && View(s).entry == old(View(s)).entry
      ensures s in surfaces && surfaces == old(surfaces)[s := surfaces[s]]
      ensures View(s).canonical.Some? && View(s).canonical.value.uuid == old(View(s)).canonical.value.uuid
      ensures err.None? ==>
                && surfaces[s] == old(surfaces[s]).(phase := Complete)
                && ExactPolicy(View(s).canonical.value, old(surfaces[s]).plan.value.retention)
      ensures old(ExactPolicy(View(s).canonical.value, surfaces[s].plan.value.retention)) ==> err.None?
      ensures (Cooperative() && old(View(s)).canonical.value.ttl == []
               && old(|View(s).canonical.value.rows| == surfaces[s].plan.value.documentCount)
               && old(View(s)).canonical.value.kind == Ordinary) ==> err.None?
    {
      var plan := surfaces[s].plan.value;
      var exact, _ := HasExactPolicy(s, plan.retention);
      if !exact {
        label Listed:
        err := CountAndEstablish(s, plan);
        CalmTransitive(old(View(Other(s))), old@Listed(View(Other(s))), View(Other(s)));
        if err.Some? { return; }
      }
      surfaces := surfaces[s := surfaces[s].(phase := Complete)];
      return None;
    }

    // ---------------------------------------------------------------- one surface

    /** Recover an interrupted copy and persist what was found. */
    method RecoverSurface(s: SurfaceId, candidate: Option<Coll>) returns (err: Result)
      requires Valid() && OtherReady(s) && s in surfaces && View(s).entry == Some(surfaces[s])
      requires ValidEntry(cfg, s, surfaces[s]) && NeedsCandidateRecovery(surfaces[s])
      requires CalmColl(candidate, View(s).candidate)
      modifies `world, `surfaces, `clock, `worlds, `log
      ensures Progress() && Quiet(old(log), log)
      ensures s in surfaces && Get(surfaces, Other(s)) == old(Get(surfaces, Other(s)))
      ensures err.None? ==> OtherReady(s) && View(s).entry == Some(surfaces[s]) && ValidEntry(cfg, s, surfaces[s])
      ensures err.None? ==> (surfaces[s].phase == Validated && View(s).candidate.None?) ||
                            (surfaces[s].phase == Copied && View(s).candidate.Some? && surfaces[s].candidate.Some?)
      ensures err.None? ==>
                CalmColl(old(View(s)).canonical, View(s).canonical)
                    && CalmColl(old(View(s)).candidate, View(s).candidate)
      ensures err.None? && s == Telemetry ==> Calm(old(View(AccessEvents)), View(AccessEvents))
      ensures (Cooperative() && (candidate.Some? ==> CandidateMatches(cfg, old(surfaces[s]), old(View(s)).candidate)
                                                      && old(View(s)).candidate.value.ttl == [])) ==> err.None?
    {
      var m := surfaces[s];
      err := RecoverCopyingPhase(s, candidate);
      if err.Some? { return; }
      label Found:
      if candidate.None? {
        RestartedEntryOk(cfg, s, View(s), m);
      } else {
        AdoptedEntryOk(cfg, s, View(s), m, surfaces[s].candidate.value);
      }
      var ok := PersistSurface(s);
      if s == Telemetry
          && ok { CalmTransitive(old(View(AccessEvents)), old@Found(View(AccessEvents)), View(AccessEvents)); }
      return if ok then None else Some(CommandFailed);
    }

    method ObserveSurface(s: SurfaceId) returns (canonical: Option<Coll>, candidate: Option<Coll>)
      requires Valid()
      modifies `world, `clock, `worlds, `log
      ensures Progress() && Quiet(old(log), log)
      ensures Calm(old(View(s)), View(s)) && Calm(old(View(Other(s))), View(Other(s)))
      ensures CalmColl(canonical, View(s).canonical) && CalmColl(candidate, View(s).candidate)
    {
      canonical := Inspect(Canonical(s));
      label Seen:
      candidate := Inspect(Candidacy(s));
      CalmTransitive(old(View(s)), old@Seen(View(s)), View(s));
      CalmTransitive(old(View(Other(s))), old@Seen(View(Other(s))), View(Other(s)));
    }

    /** Observe both names, and settle an interrupted copy before anything else. */
    method ObserveAndRecover(s: SurfaceId) returns (err: Result, canonical: Option<Coll>, candidate: Option<Coll>)
      requires Valid() && OtherReady(s) && Get(surfaces, s) == View(s).entry
      requires s in surfaces ==> ValidEntry(cfg, s, surfaces[s])
      modifies `world, `surfaces, `clock, `worlds, `log
      ensures Progress() && Quiet(old(log), log)
      ensures Get(surfaces, Other(s)) == old(Get(surfaces, Other(s))) && (s in surfaces <==> s in old(surfaces))
      ensures err.None? ==> OtherReady(s) && Get(surfaces, s) == View(s).entry
      ensures err.None? ==> CalmColl(canonical, View(s).canonical) && CalmColl(candidate, View(s).candidate)
      ensures err.None? && s in surfaces ==> ValidEntry(cfg, s, surfaces[s]) && !NeedsCandidateRecovery(surfaces[s])
      ensures err.None? && s in surfaces ==>
                || (surfaces[s] == old(surfaces[s]) && Calm(old(View(s)), View(s)))
                || (NeedsCandidateRecovery(old(surfaces[s])) && surfaces[s].phase == Validated)
                || (NeedsCandidateRecovery(old(surfaces[s])) && surfaces[s].phase == Copied && View(s).candidate.Some?)
      ensures err.None? && s == Telemetry ==> Calm(old(View(AccessEvents)), View(AccessEvents))
      ensures Cooperative() && old(RecoverySafe(cfg, View(s))) ==> err.None?
    {
      canonical, candidate := ObserveSurface(s);
      if s !in surfaces || !NeedsCandidateRecovery(surfaces[s]) { return None, canonical, candidate; }
      if canonical.Some? && !OwnsNamespace(SourceUuid(surfaces[s]), canonical) {
        return Some(ForeignCanonical), canonical, candidate;
      }
      label Observed:
      err := RecoverSurface(s, candidate);
      if s == Telemetry && err.None? {
        CalmTransitive(old(View(AccessEvents)), old@Observed(View(AccessEvents)), View(AccessEvents));
      }
    }

    method Settle(s: SurfaceId, prior: Option<SurfaceState>, canonical: Option<Coll>, candidate: Option<Coll>)
      returns (err: Result)
      requires OtherReady(s) && Get(surfaces, s) == View(s).entry && (s in surfaces <==> prior.Some?)
      requires s in surfaces ==> ValidEntry(cfg, s, surfaces[s]) && !NeedsCandidateRecovery(surfaces[s])
      requires CalmColl(canonical, View(s).canonical) && CalmColl(candidate, View(s).candidate)
      modifies `surfaces
      ensures Get(surfaces, Other(s)) == old(Get(surfaces, Other(s))) && OtherReady(s)
      ensures err.None? ==> s in surfaces
      ensures err.None? ==> (FinishedRecord(cfg, s, View(s), surfaces[s]) || Reconciled(cfg, s, View(s), surfaces[s]))
      ensures SurfaceInv(cfg, s, View(s))
                && (prior.Some? ==> prior.value == old(surfaces[s]) || old(surfaces[s]).phase in {Validated, Copied})
              ==> err.None?
      ensures SurfaceInv(cfg, s, View(s)) && s in old(surfaces) && Done(old(surfaces[s]).phase)
                && prior == Some(old(surfaces[s]))
              ==> err.None? && Done(surfaces[s].phase)
    {
      var current := if s in surfaces then surfaces[s] else Fresh(cfg, s);
      ReconcileCalm(View(s).(canonical := canonical, candidate := candidate), View(s), prior, current);
      SettledRecord(cfg, s, View(s), prior, current);
      match ReconcileRecord(prior, current, canonical, candidate)
      case Refuse(failure) => err := Some(failure);
      case Skip(reason) => err := None; surfaces := surfaces[s := SkippedState(current, reason)];
      case Proceed(m) => err := None; surfaces := surfaces[s := m];
    }

    /** Which source is copied, and under which retention it will expire. */
    method PlanCopy(s: SurfaceId, accept: bool, observed: Option<Coll>) returns (err: Result)
      requires Valid() && OtherReady(s) && s in surfaces && surfaces[s].phase == Validated
      requires Reconciled(cfg, s, View(s), surfaces[s]) && CalmColl(observed, View(s).canonical)
      modifies `world, `surfaces, `clock, `worlds, `log
      ensures Progress()
      ensures s in surfaces && surfaces == old(surfaces)[s := surfaces[s]]
      ensures Calm(old(View(s)), View(s)) && Calm(old(View(Other(s))), View(Other(s)))
      ensures err.None? ==>
                && OtherReady(s) && surfaces[s].phase == Validated && ValidEntry(cfg, s, surfaces[s])
                && surfaces[s].plan.Some? && SourceOwned(surfaces[s], View(s).canonical)
      ensures accept && old(View(s)).canonical.value.uuid.Some? ==> err.None?
    {
      if observed.value.uuid.None? { return Some(SourceNotOwned); }
      var retention := DecideRetention(observed.value.retention, CanonicalRetention(s), accept);
      if retention.None? { return Some(RetentionDiffers); }
      var counted := Inspect(Canonical(s));
      assert Calm(old(View(s)), View(s)) && Calm(old(View(Other(s))), View(Other(s)));
      surfaces := surfaces[s := surfaces[s].(
        source := Some(Source(observed.value.uuid.value, observed.value.retention)),
        plan := Some(Plan(retention.value, |counted.value.rows|)), skipReason := Some(RETENTION_DECIDED))];
      return None;
    }

    method CopyStage(s: SurfaceId, accept: bool, observed: Option<Coll>) returns (err: Result)
      requires Valid() && OtherReady(s) && s in surfaces && surfaces[s].phase == Validated
      requires Reconciled(cfg, s, View(s), surfaces[s]) && CalmColl(observed, View(s).canonical)
      modifies `world, `surfaces, `clock, `worlds, `log
      ensures Progress()
      ensures s in surfaces && Get(surfaces, Other(s)) == old(Get(surfaces, Other(s)))
      ensures err.None? ==> OtherReady(s) && surfaces[s].phase == Copied && View(s).candidate.Some?
      ensures err.None? ==> Reconciled(cfg, s, View(s), surfaces[s])
      ensures err.None? && s == Telemetry ==> Calm(old(View(AccessEvents)), View(AccessEvents))
      ensures Cooperative() && accept && old(View(s)).canonical.value.uuid.Some? ==> err.None?
    {
      err := PlanCopy(s, accept, observed);
      if err.Some? { return; }
      label Planned:
      err := RunCopyPhase(s);
      if err.Some? { return; }
      if s == Telemetry { CalmTransitive(old(View(AccessEvents)), old@Planned(View(AccessEvents)),
          View(AccessEvents)); }
      label Copied:
      AdoptedEntryOk(cfg, s, View(s), View(s).entry.value, surfaces[s].candidate.value);
      var ok := PersistSurface(s);
      if !ok { return Some(CommandFailed); }
      if s == Telemetry { CalmTransitive(old(View(AccessEvents)), old@Copied(View(AccessEvents)), View(AccessEvents)); }
      CopiedReconciled(cfg, s, View(s), surfaces[s]);
    }

    method VerifyStage(s: SurfaceId) returns (err: Result)
      requires Valid() && OtherReady(s) && s in surfaces && surfaces[s].phase == Copied
      requires Reconciled(cfg, s, View(s), surfaces[s])
      modifies `world, `surfaces, `clock, `worlds, `log
      ensures Progress()
      ensures s in surfaces && Get(surfaces, Other(s)) == old(Get(surfaces, Other(s)))
      ensures err.None? ==> OtherReady(s) && surfaces[s].phase == Verified && View(s).candidate.Some?
      ensures err.None? ==> Reconciled(cfg, s, View(s), surfaces[s])
      ensures err.None? && s == Telemetry ==> Calm(old(View(AccessEvents)), View(AccessEvents))
      ensures old(View(s)).candidate.None? ==> err.Some?
      ensures Cooperative() && VerifySafe(cfg, old(View(s))) ==> err.None?
    {
      var p := surfaces[s];
      err := RunVerifyPhase(s);
      if err.Some? { return; }
      ReconciledCalm(cfg, s, old(View(s)), View(s), p);
      label Matched:
      VerifiedEntryOk(cfg, s, View(s), p, surfaces[s]);
      ghost var u := View(s).(entry := Some(surfaces[s]));
      var ok := PersistSurface(s);
      if !ok { return Some(CommandFailed); }
      if s == Telemetry { CalmTransitive(old(View(AccessEvents)), old@Matched(View(AccessEvents)),
          View(AccessEvents)); }
      ReconciledCalm(cfg, s, u, View(s), surfaces[s]);
    }

    method InstallStage(s: SurfaceId) returns (err: Result)
      requires Valid() && OtherReady(s) && s in surfaces && InstallReady(View(s), surfaces[s])
      requires Reconciled(cfg, s, View(s), surfaces[s])
      modifies `world, `surfaces, `clock, `worlds, `log
      ensures Progress()
      ensures s in surfaces && Get(surfaces, Other(s)) == old(Get(surfaces, Other(s)))
      ensures err.None? ==> OtherReady(s) && surfaces[s].phase == Installed && Reconciled(cfg, s, View(s), surfaces[s])
      ensures err.None? && s == Telemetry ==> Calm(old(View(AccessEvents)), View(AccessEvents))
      ensures var planned := InstallPlan(old(View(s)), old(surfaces[s]));
              && (planned == DoRename && Cooperative() ==> err.None?)
              && (planned == DoRestartFromCopy ==> err.Some?)
    {
      var p := surfaces[s];
      var restarted;
      err, restarted := RunInstallPhase(s);
      if err.Some? { return; }
      label Installed:
      if restarted {
        RestartedEntryOk(cfg, s, View(s), p);
        var saved := PersistSurface(s);
        return Some(if saved then CandidateLostRestarted else CommandFailed);
      }
      InstalledEntryOk(cfg, s, View(s), p, surfaces[s]);
      ghost var u := View(s).(entry := Some(surfaces[s]));
      var ok := PersistSurface(s);
      if !ok { return Some(CommandFailed); }
      if s == Telemetry { CalmTransitive(old(View(AccessEvents)), old@Installed(View(AccessEvents)),
          View(AccessEvents)); }
      ReconciledCalm(cfg, s, u, View(s), surfaces[s]);
    }

    method TtlStage(s: SurfaceId) returns (err: Result)
      requires Valid() && OtherReady(s) && s in surfaces && surfaces[s].phase == Installed
      requires Reconciled(cfg, s, View(s), surfaces[s])
      modifies `world, `surfaces, `clock, `worlds, `log
      ensures Progress()
      ensures s in surfaces && Get(surfaces, Other(s)) == old(Get(surfaces, Other(s)))
      ensures err.None? ==> OtherReady(s) && surfaces[s].phase == Complete && View(s).entry == Some(surfaces[s])
      ensures err.None? && s == Telemetry ==> Calm(old(View(AccessEvents)), View(AccessEvents))
      ensures Cooperative() && TtlSafe(cfg, s, old(View(s))) ==> err.None?
    {
      var p := surfaces[s];
      err := RunTtlPhase(s);
      if err.Some? { return; }
      label Established:
      CompleteEntryOk(cfg, s, View(s), p, surfaces[s]);
      var ok := PersistSurface(s);
      if !ok { return Some(CommandFailed); }
      if s == Telemetry { CalmTransitive(old(View(AccessEvents)), old@Established(View(AccessEvents)),
          View(AccessEvents)); }
    }

    lemma SurfaceInvHolds(s: SurfaceId)
      requires Inv(cfg, world)
      ensures SurfaceInv(cfg, s, View(s))
    {
      match s case Telemetry => case AccessEvents =>
    }

    /** From a verified candidate, or an installed one, to the end. */
    method FinishInstallation(s: SurfaceId) returns (err: Result)
      requires Valid() && OtherReady(s) && s in surfaces
                && surfaces[s].phase in {Verified, Installed, Complete, Skipped}
      requires Reconciled(cfg, s, View(s), surfaces[s])
      modifies `world, `surfaces, `clock, `worlds, `log
      ensures Progress()
      ensures Get(surfaces, Other(s)) == old(Get(surfaces, Other(s)))
      ensures err.None? ==> OtherReady(s) && s in surfaces && FinishedRecord(cfg, s, View(s), surfaces[s])
      ensures err.None? && s == Telemetry ==> Calm(old(View(AccessEvents)), View(AccessEvents))
      ensures Cooperative() && old(Inv(cfg, world)) ==> (err.None? <==> !CandidateLost(old(View(s))))
      ensures old(Done(surfaces[s].phase)) ==> Quiet(old(log), log)
    {
      err := None;
      ghost var live := Inv(cfg, world);
      ReconciledReady(cfg, s, View(s), surfaces[s]);
      if live { SurfaceInvHolds(s); ReachableStages(cfg, s, View(s), surfaces[s]); }
      if surfaces[s].phase == Verified {
        err := InstallStage(s);
        if err.Some? { return; }
        if live { InvCarried(); SurfaceInvHolds(s); ReachableStages(cfg, s, View(s), surfaces[s]); }
      }
      label Renamed:
      if surfaces[s].phase == Installed {
        err := TtlStage(s);
        if err.Some? { return; }
        if s == Telemetry { CalmTransitive(old(View(AccessEvents)), old@Renamed(View(AccessEvents)),
            View(AccessEvents)); }
      }
    }

    /** A recorded candidate is verified; anything later is left as it is. */
    method VerifyIfCopied(s: SurfaceId) returns (err: Result)
      requires Valid() && OtherReady(s) && s in surfaces && surfaces[s].phase != Validated
      requires Reconciled(cfg, s, View(s), surfaces[s])
      modifies `world, `surfaces, `clock, `worlds, `log
      ensures Progress()
      ensures s in surfaces && Get(surfaces, Other(s)) == old(Get(surfaces, Other(s)))
      ensures err.None? ==> OtherReady(s) && surfaces[s].phase in {Verified, Installed, Complete, Skipped}
      ensures err.None? ==> Reconciled(cfg, s, View(s), surfaces[s])
      ensures err.None? && s == Telemetry ==> Calm(old(View(AccessEvents)), View(AccessEvents))
      ensures Cooperative() && old(Inv(cfg, world)) && !CandidateLost(old(View(s))) ==> err.None?
      ensures err.None? ==> (CandidateLost(View(s)) <==> CandidateLost(old(View(s))))
      ensures old(Done(surfaces[s].phase)) ==> surfaces == old(surfaces) && Quiet(old(log), log)
    {
      err := None;
      if surfaces[s].phase == Copied {
        if Inv(cfg, world) && !CandidateLost(View(s)) {
          SurfaceInvHolds(s);
          ReachableVerifySafe(cfg, s, View(s), surfaces[s]);
        }
        err := VerifyStage(s);
      }
    }

    /** From a recorded candidate to the end. */
    method FinishConversion(s: SurfaceId) returns (err: Result)
      requires Valid() && OtherReady(s) && s in surfaces && surfaces[s].phase != Validated
      requires Reconciled(cfg, s, View(s), surfaces[s])
      modifies `world, `surfaces, `clock, `worlds, `log
      ensures Progress()
      ensures Get(surfaces, Other(s)) == old(Get(surfaces, Other(s)))
      ensures err.None? ==> OtherReady(s) && s in surfaces && FinishedRecord(cfg, s, View(s), surfaces[s])
      ensures err.None? && s == Telemetry ==> Calm(old(View(AccessEvents)), View(AccessEvents))
      ensures Cooperative() && old(Inv(cfg, world)) ==> (err.None? <==> !CandidateLost(old(View(s))))
      ensures old(Done(surfaces[s].phase)) ==> Quiet(old(log), log)
    {
      ghost var live := Inv(cfg, world);
      err := VerifyIfCopied(s);
      if err.Some? { return; }
      if live { InvCarried(); }
      label Checked:
      err := FinishInstallation(s);
      if s == Telemetry && err.None? {
        CalmTransitive(old(View(AccessEvents)), old@Checked(View(AccessEvents)), View(AccessEvents));
      }
    }

    /** From a reconciled record to the end. */
    method ConvertReconciled(s: SurfaceId, accept: bool, observed: Option<Coll>) returns (err: Result)
      requires Valid() && OtherReady(s) && s in surfaces && CalmColl(observed, View(s).canonical)
      requires Reconciled(cfg, s, View(s), surfaces[s])
      modifies `world, `surfaces, `clock, `worlds, `log
      ensures Progress()
      ensures Get(surfaces, Other(s)) == old(Get(surfaces, Other(s)))
      ensures err.None? ==> OtherReady(s) && s in surfaces && FinishedRecord(cfg, s, View(s), surfaces[s])
      ensures err.None? && s == Telemetry ==> Calm(old(View(AccessEvents)), View(AccessEvents))
      ensures Cooperative() && accept && old(Inv(cfg, world)) ==> (err.None? <==> !CandidateLost(old(View(s))))
    {
      ghost var live := Inv(cfg, world);
      if live { SurfaceInvHolds(s); ReachableStages(cfg, s, View(s), surfaces[s]); }
      if surfaces[s].phase == Validated {
        err := CopyStage(s, accept, observed);
        if err.Some? { return; }
        if live { InvCarried(); }
      }
      label Ready:
      err := FinishConversion(s);
      if s == Telemetry && err.None? {
        CalmTransitive(old(View(AccessEvents)), old@Ready(View(AccessEvents)), View(AccessEvents));
      }
    }

    method ObserveAndSettle(s: SurfaceId) returns (err: Result, observed: Option<Coll>)
      requires Valid() && OtherReady(s) && Get(surfaces, s) == View(s).entry
      requires s in surfaces ==> ValidEntry(cfg, s, surfaces[s])
      modifies `world, `surfaces, `clock, `worlds, `log
      ensures Progress() && Quiet(old(log), log)
      ensures Get(surfaces, Other(s)) == old(Get(surfaces, Other(s)))
      ensures err.None? ==> OtherReady(s) && s in surfaces && CalmColl(observed, View(s).canonical)
      ensures err.None? ==> (FinishedRecord(cfg, s, View(s), surfaces[s]) || Reconciled(cfg, s, View(s), surfaces[s]))
      ensures err.None? && s == Telemetry ==> Calm(old(View(AccessEvents)), View(AccessEvents))
      ensures err.None? ==> (CandidateLost(old(View(s))) <==> CandidateLost(View(s)))
      ensures Cooperative() && old(Inv(cfg, world)) ==> err.None?
      ensures old(Inv(cfg, world)) && old(s in surfaces && Done(surfaces[s].phase)) && err.None? ==>
                Done(surfaces[s].phase)
    {
      ghost var live := Inv(cfg, world);
      if live { SurfaceInvHolds(s); ReachableRecoverySafe(cfg, s, View(s)); }
      ghost var v := View(s);
      var prior := Get(surfaces, s);
      var candidate;
      err, observed, candidate := ObserveAndRecover(s);
      if err.Some? { return; }
      if live { InvCarried(); SurfaceInvHolds(s); }
      RecoveredSameLoss(v, View(s));
      err := Settle(s, prior, observed, candidate);
    }

    /** One surface, from whatever an earlier run left of it. */
    method ConvertSurface(s: SurfaceId, accept: bool) returns (err: Result)
      requires Valid() && OtherReady(s) && Get(surfaces, s) == View(s).entry
      requires s in surfaces ==> ValidEntry(cfg, s, surfaces[s])
      modifies `world, `surfaces, `clock, `worlds, `log
      ensures Progress()
      ensures Get(surfaces, Other(s)) == old(Get(surfaces, Other(s)))
      ensures err.None? ==> OtherReady(s) && s in surfaces && FinishedRecord(cfg, s, View(s), surfaces[s])
      ensures err.None? && s == Telemetry ==> Calm(old(View(AccessEvents)), View(AccessEvents))
      ensures Cooperative() && accept && old(Inv(cfg, world)) ==> (err.None? <==> !CandidateLost(old(View(s))))
      ensures old(Inv(cfg, world)) && old(s in surfaces && Done(surfaces[s].phase)) ==> Quiet(old(log), log)
    {
      ghost var live := Inv(cfg, world);
      var observed;
      err, observed := ObserveAndSettle(s);
      if err.Some? { return; }
      if live { InvCarried(); SurfaceInvHolds(s); }
      if Done(surfaces[s].phase) {
        FinishedNotLost(cfg, s, View(s), surfaces[s]);
        return None;
      }
      label Settled:
      err := ConvertReconciled(s, accept, observed);
      if s == Telemetry && err.None? {
        CalmTransitive(old(View(AccessEvents)), old@Settled(View(AccessEvents)), View(AccessEvents));
      }
    }

    // ---------------------------------------------------------------- runs

    method ConvertBoth(accept: bool) returns (err: Result)
      requires Valid() && surfaces == (if world.journal.Some? then world.journal.value else map[])
      requires ValidJournal(cfg, surfaces)
      modifies `world, `surfaces, `clock, `worlds, `log
      ensures Progress()
      ensures err.None? ==> OtherReady(AccessEvents) && AccessEvents in surfaces
      ensures err.None? ==> FinishedRecord(cfg, AccessEvents, View(AccessEvents), surfaces[AccessEvents])
      ensures Cooperative() && accept && old(Inv(cfg, world)) ==>
                (err.None? <==> !CandidateLost(old(View(Telemetry))) && !CandidateLost(old(View(AccessEvents))))
      ensures old(Inv(cfg, world) && Finished(View(Telemetry)) && Finished(View(AccessEvents))) ==> Quiet(old(log), log)
    {
      ghost var live := Inv(cfg, world);
      err := ConvertSurface(Telemetry, accept);
      if err.Some? { return; }
      if live { InvCarried(); }
      CalmSameLoss(old(View(AccessEvents)), View(AccessEvents));
      err := ConvertSurface(AccessEvents, accept);
    }

    method PersistFinished() returns (ok: bool)
      requires Valid() && OtherReady(AccessEvents) && AccessEvents in surfaces
      requires FinishedRecord(cfg, AccessEvents, View(AccessEvents), surfaces[AccessEvents])
      modifies `world, `clock, `worlds, `log
      ensures Progress() && Quiet(old(log), log)
      ensures ok ==> Finished(View(Telemetry)) && Finished(View(AccessEvents))
      ensures Cooperative() ==> ok
    {
      FinishedWritable(cfg, AccessEvents, View(AccessEvents), surfaces[AccessEvents]);
      FinishedWritable(cfg, Telemetry, View(Telemetry), surfaces[Telemetry]);
      OtherReadyGives(AccessEvents);
      ok := Persist();
      assert ok ==> View(Telemetry).entry == Some(surfaces[Telemetry]);
      assert ok ==> View(AccessEvents).entry == Some(surfaces[AccessEvents]);
    }

    /** One apply run up to its last write, with what that leaves whatever it found. */
    method ConvertAndPersist(accept: bool) returns (err: Result)
      requires Valid() && surfaces == (if world.journal.Some? then world.journal.value else map[])
      requires ValidJournal(cfg, surfaces)
      modifies `world, `surfaces, `clock, `worlds, `log
      ensures Progress()
      ensures err.None? ==> Finished(View(Telemetry)) && Finished(View(AccessEvents))
      ensures Cooperative() && accept && old(Inv(cfg, world)) ==>
                (err.None? <==> !CandidateLost(old(View(Telemetry))) && !CandidateLost(old(View(AccessEvents))))
      ensures old(Inv(cfg, world) && Finished(View(Telemetry)) && Finished(View(AccessEvents))) ==> Quiet(old(log), log)
    {
      err := ConvertBoth(accept);
      if err.Some? { return; }
      var ok := PersistFinished();
      err := if ok then None else Some(CommandFailed);
    }

    /**
     * One apply run.  It takes nothing back, however it ends, so it loses no candidate.  From a
     * reachable state, answered and with the retention accepted, it completes exactly when no
     * interrupted abort has dropped a recorded candidate; repeated, it only rewrites the journal.
     */
    method RunApply(accept: bool) returns (err: Result)
      requires Valid()
      modifies `world, `surfaces, `clock, `worlds, `log
      ensures Progress()
      ensures NothingUndone(log, |old(log)|)
      ensures err.None? ==> Finished(View(Telemetry)) && Finished(View(AccessEvents))
      ensures old(Inv(cfg, world)) ==> Inv(cfg, world)
      ensures old(Inv(cfg, world)) && err.None? ==>
                Converted(Telemetry, View(Telemetry)) && Converted(AccessEvents, View(AccessEvents))
      ensures old(Inv(cfg, world) && !CandidateLost(View(Telemetry)) && !CandidateLost(View(AccessEvents))) ==>
                !CandidateLost(View(Telemetry)) && !CandidateLost(View(AccessEvents))
      ensures old(Inv(cfg, world)) && Cooperative() && accept ==>
                (err.None? <==> !CandidateLost(old(View(Telemetry))) && !CandidateLost(old(View(AccessEvents))))
      ensures old(Inv(cfg, world) && Finished(View(Telemetry)) && Finished(View(AccessEvents))) ==> Quiet(old(log), log)
    {
      ghost var live := Inv(cfg, world);
      if live { InvJournalValid(cfg, world); }
      surfaces := if world.journal.Some? then world.journal.value else map[];
      if !ValidJournal(cfg, surfaces) { return Some(InvalidJournal); }
      err := ConvertAndPersist(accept);
      if live {
        InvCarried();
        NoneLost();
        if err.None? {
          FinishedIsConverted(cfg, Telemetry, View(Telemetry));
          FinishedIsConverted(cfg, AccessEvents, View(AccessEvents));
        }
      }
    }

    /** A candidate whose identity was never recorded is claimed by its digest, and looked at again. */
    method ClaimByDigest(s: SurfaceId, candidate: Option<Coll>) returns (err: Result)
      requires Valid() && s in surfaces && View(s).entry == Some(surfaces[s]) && surfaces[s].digest.Some?
      requires NeedsCandidateRecovery(surfaces[s]) && SourceOwned(surfaces[s], View(s).canonical)
      requires CalmColl(candidate, View(s).candidate) && candidate.Some?
      modifies `world, `surfaces, `clock, `worlds, `log
      ensures Progress()
      ensures Get(surfaces, Other(s)) == old(Get(surfaces, Other(s)))
      ensures Calm(old(View(s)), View(s)) && Calm(old(View(Other(s))), View(Other(s)))
      ensures err.None? ==> CandidateMatches(cfg, old(surfaces[s]), View(s).candidate)
      ensures DropSafe(cfg, old(View(s))) ==> err.None?
    {
      err := RecoverCopyingPhase(s, candidate);
      if err.Some? { return; }
      label Adopted:
      var again := Inspect(Candidacy(s));
      CalmTransitive(old(View(s)), old@Adopted(View(s)), View(s));
      CalmTransitive(old(View(Other(s))), old@Adopted(View(Other(s))), View(Other(s)));
      return if OwnsNamespace(CandidateUuid(surfaces[s]), again) then None else Some(ForeignCandidate);
    }

    /** Establish that a candidate may be dropped: by its recorded identity, or by its digest. */
    method ClaimCandidate(s: SurfaceId, candidate: Option<Coll>) returns (err: Result)
      requires Valid() && s in surfaces && View(s).entry == Some(surfaces[s]) && surfaces[s].digest.Some?
      requires surfaces[s].phase in {Copying, Copied, Verified} && SourceOwned(surfaces[s], View(s).canonical)
      requires CalmColl(candidate, View(s).candidate) && candidate.Some?
      modifies `world, `surfaces, `clock, `worlds, `log
      ensures Progress()
      ensures Get(surfaces, Other(s)) == old(Get(surfaces, Other(s)))
      ensures Calm(old(View(s)), View(s)) && Calm(old(View(Other(s))), View(Other(s)))
      ensures err.None? ==> DropEnabled(cfg, View(s))
      ensures DropSafe(cfg, old(View(s))) ==> err.None?
    {
      if NeedsCandidateRecovery(surfaces[s]) {
        err := ClaimByDigest(s, candidate);
      } else {
        err := if OwnsNamespace(CandidateUuid(surfaces[s]), candidate) then None else Some(ForeignCandidate);
      }
    }

    method InspectForAbort(s: SurfaceId) returns (err: Result, candidate: Option<Coll>)
      requires Valid() && s in surfaces && surfaces[s].phase in {Copying, Copied, Verified}
      modifies `world, `clock, `worlds, `log
      ensures Progress()
      ensures Calm(old(View(s)), View(s)) && Calm(old(View(Other(s))), View(Other(s)))
      ensures CalmColl(candidate, View(s).candidate)
      ensures err.None? ==> SourceOwned(surfaces[s], old(View(s)).canonical)
      ensures (SourceOwned(surfaces[s], old(View(s)).canonical) && surfaces[s].installed.None?
               && CandidateUuid(surfaces[s]) != SourceUuid(surfaces[s])) ==> err.None?
    {
      var source;
      source, candidate := ObserveSurface(s);
      var m := surfaces[s];
      err := if OwnsNamespace(CandidateUuid(m), source)
          || OwnsNamespace(m.installed, source) then Some(AlreadyInstalled)
             else if !SourceOwned(m, source) then Some(SourceReplaced) else None;
    }

    method ClaimAndDrop(s: SurfaceId, candidate: Option<Coll>) returns (err: Result)
      requires Valid() && s in surfaces && View(s).entry == Some(surfaces[s]) && surfaces[s].digest.Some?
      requires surfaces[s].phase in {Copying, Copied, Verified} && SourceOwned(surfaces[s], View(s).canonical)
      requires CalmColl(candidate, View(s).candidate) && candidate.Some?
      requires s == AccessEvents ==> Abandoned(View(Telemetry))
      modifies `world, `surfaces, `clock, `worlds, `log, `undone
      ensures Progress()
      ensures Get(surfaces, Other(s)) == old(Get(surfaces, Other(s)))
      ensures Calm(old(View(Other(s))), View(Other(s)))
      ensures err.None? ==> Calm(old(View(s)).(candidate := None), View(s))
      ensures Cooperative() && DropSafe(cfg, old(View(s))) ==> err.None?
    {
      err := ClaimCandidate(s, candidate);
      if err.Some? { return; }
      label Claimed:
      if s == AccessEvents { AbandonedCalm(old(View(Telemetry)), View(Telemetry)); }
      var ok := DropCandidate(s);
      CalmTransitive(old(View(Other(s))), old@Claimed(View(Other(s))), View(Other(s)));
      if !ok { return Some(CommandFailed); }
      CalmTransitive(old(View(s)).(candidate := None), old@Claimed(View(s)).(candidate := None), View(s));
    }

    /** Drop the candidate of one surface, while its source is still in place. */
    method AbortSurface(s: SurfaceId) returns (err: Result)
      requires Valid() && Get(surfaces, s) == View(s).entry && (s in surfaces ==> ValidEntry(cfg, s, surfaces[s]))
      requires s == AccessEvents ==> Abandoned(View(Telemetry))
      modifies `world, `surfaces, `clock, `worlds, `log, `undone
      ensures Progress()
      ensures Get(surfaces, Other(s)) == old(Get(surfaces, Other(s)))
      ensures Calm(old(View(Other(s))), View(Other(s)))
      ensures err.None? ==> Abandoned(View(s)) && CalmColl(old(View(s)).canonical, View(s).canonical)
      ensures err.None? ==> NotInstalled(old(View(s)))
      ensures Cooperative() && AbortSafe(cfg, old(View(s))) ==> err.None?
    {
      ghost var v := View(s);
      if s !in surfaces || surfaces[s].phase in {Skipped, Validated} { return None; }
      if surfaces[s].phase in {Installed, Complete} { return Some(AlreadyInstalled); }
      var candidate;
      err, candidate := InspectForAbort(s);
      if err.Some? { return; }
      label Observed:
      if candidate.Some? {
        if s == AccessEvents { AbandonedCalm(old(View(Telemetry)), View(Telemetry)); }
        err := ClaimAndDrop(s, candidate);
        CalmTransitive(old(View(Other(s))), old@Observed(View(Other(s))), View(Other(s)));
        if err.Some? { return; }
      }
      AbandonedBy(v, View(s));
    }

    method AbortBoth() returns (err: Result)
      requires Valid() && world.journal.Some? && surfaces == world.journal.value && ValidJournal(cfg, surfaces)
      modifies `world, `surfaces, `clock, `worlds, `log, `undone
      ensures Progress()
      ensures err.None? ==> Abandoned(View(Telemetry)) && Abandoned(View(AccessEvents))
      ensures err.None? ==>
                && CalmColl(old(View(Telemetry)).canonical, View(Telemetry).canonical)
                && CalmColl(old(View(AccessEvents)).canonical, View(AccessEvents).canonical)
      ensures err.None? ==> NotInstalled(old(View(Telemetry))) && NotInstalled(old(View(AccessEvents)))
      ensures Cooperative() && AbortSafe(cfg, old(View(Telemetry))) && AbortSafe(cfg, old(View(AccessEvents))) ==>
                err.None?
    {
      err := AbortSurface(Telemetry);
      if err.Some? { return; }
      label Half:
      AbortCalm(cfg, old(View(AccessEvents)), View(AccessEvents));
      err := AbortSurface(AccessEvents);
      if err.None? { AbandonedCalm(old@Half(View(Telemetry)), View(Telemetry)); }
    }

    /** Drop every owned candidate, then the journal; refused as soon as anything was installed. */
    method RunAbort() returns (err: Result)
      requires Valid()
      modifies `world, `surfaces, `clock, `worlds, `log, `undone
      ensures Progress()
      ensures old(Inv(cfg, world)) ==> Inv(cfg, world)
      ensures err.None? ==> world.journal.None?
      ensures err.None? ==>
                && CalmColl(old(View(Telemetry)).canonical, View(Telemetry).canonical)
                && CalmColl(old(View(AccessEvents)).canonical, View(AccessEvents).canonical)
      ensures old(Inv(cfg, world)) && Cooperative() && old(world.journal.Some?) ==>
                (err.None? <==> NotInstalled(old(View(Telemetry))) && NotInstalled(old(View(AccessEvents))))
    {
      ghost var live := Inv(cfg, world);
      if live {
        InvJournalValid(cfg, world);
        SurfaceInvHolds(Telemetry);
        SurfaceInvHolds(AccessEvents);
        ReachableAbortSafe(cfg, Telemetry, View(Telemetry));
        ReachableAbortSafe(cfg, AccessEvents, View(AccessEvents));
      }
      if world.journal.None? { return Some(NoJournal); }
      surfaces := world.journal.value;
      if !ValidJournal(cfg, surfaces) { return Some(InvalidJournal); }
      err := AbortBoth();
      if err.None? {
        var ok := EraseJournal();
        err := if ok then None else Some(CommandFailed);
      }
      if live { InvCarried(); }
    }

    /**
     * No reachable state is a dead end: an apply completes, after an abort when an earlier one was
     * interrupted between its drop and its erasing of the journal.
     */
    method Recover() returns (err: Result)
      requires Valid() && Inv(cfg, world) && Cooperative()
      modifies `world, `surfaces, `clock, `worlds, `log, `undone
      ensures Progress() && err.None? && Inv(cfg, world)
      ensures Converted(Telemetry, View(Telemetry)) && Converted(AccessEvents, View(AccessEvents))
      ensures !CandidateLost(old(View(Telemetry))) && !CandidateLost(old(View(AccessEvents))) ==>
                NothingUndone(log, |old(log)|)
    {
      if CandidateLost(ViewOf(cfg, world, Telemetry)) || CandidateLost(ViewOf(cfg, world, AccessEvents)) {
        LostMeansNotInstalled(cfg, world);
        err := RunAbort();
      }
      err := RunApply(true);
    }
  }

  /**
   * One process: what the world does to it, whether its operator accepts a changed retention, and
   * after how many of its commands it is killed if it has not ended.
   */
  datatype Process = Process(env: nat -> Choice, accept: bool, killedAfter: nat)

  /** A history of apply runs, however many of them were cut off and wherever. */
  ghost predicate ApplyHistory(cfg: Config, worlds: seq<World>, log: seq<Cmd>) {
    Behaviour(cfg, worlds, log) && Initial(cfg, worlds[0]) && NothingUndone(log, 0)
  }

  predicate HasSource(v: SurfaceView) { v.canonical.Some? && v.canonical.value.kind == TimeSeries }

  /** What a surface's source held at the start is held at the end. */
  ghost predicate SourceHeld(cfg: Config, worlds: seq<World>, log: seq<Cmd>, s: SurfaceId)
    requires |log| < |worlds|
  {
    HasSource(ViewOf(cfg, worlds[0], s)) ==>
      var c := ViewOf(cfg, worlds[0], s).canonical.value;
      DataHeld(s, c.uuid, multiset(c.rows), Expired(worlds, log, |log|, s), ViewOf(cfg, worlds[|log|], s))
  }

  /** Cutting such a history off anywhere leaves such a history. */
  lemma CutHistory(cfg: Config, worlds: seq<World>, log: seq<Cmd>, i: nat)
    requires ApplyHistory(cfg, worlds, log) && i <= |log|
    ensures ApplyHistory(cfg, worlds[..i + 1], log[..i])
  {
    var worlds', log' := worlds[..i + 1], log[..i];
    forall k | 0 <= k < i ensures StepAt(cfg, worlds', log', k) { assert StepAt(cfg, worlds, log, k); }
  }

  lemma HistoryKeepsCandidates(cfg: Config, worlds: seq<World>, log: seq<Cmd>)
    requires ApplyHistory(cfg, worlds, log)
    ensures var w := worlds[|log|];
            Inv(cfg, w) && !CandidateLost(ViewOf(cfg, w, Telemetry)) && !CandidateLost(ViewOf(cfg, w, AccessEvents))
  {
    ReachableInv(cfg, worlds, log, |log|);
    OnlyDropLosesCandidate(cfg, worlds, log, 0, |log|, Telemetry);
    OnlyDropLosesCandidate(cfg, worlds, log, 0, |log|, AccessEvents);
  }

  /** An apply process that is killed: its memory is lost, the server and the journal are not. */
  method KilledApply(cfg: Config, p: Process, worlds: seq<World>, log: seq<Cmd>)
    returns (worlds': seq<World>, log': seq<Cmd>)
    requires ApplyHistory(cfg, worlds, log)
    ensures ApplyHistory(cfg, worlds', log') && worlds <= worlds' && log <= log'
    ensures |log'| <= |log| + p.killedAfter
  {
    var process := new Converter(cfg, p.env, worlds[|log|], worlds, log);
    var _ := process.RunApply(p.accept);
    assert ApplyHistory(cfg, process.worlds, process.log);
    var last := Least(|log| + p.killedAfter, |process.log|);
    CutHistory(cfg, process.worlds, process.log, last);
    return process.worlds[..last + 1], process.log[..last];
  }

  /** From wherever a history of apply runs was cut off, one uninterrupted run completes. */
  method CompleteApply(cfg: Config, env: nat -> Choice, worlds: seq<World>, log: seq<Cmd>)
    returns (err: Result, worlds': seq<World>, log': seq<Cmd>)
    requires ApplyHistory(cfg, worlds, log) && forall i :: env(i).outcome == Succeeded
    ensures ApplyHistory(cfg, worlds', log') && worlds <= worlds' && log <= log'
    ensures err.None? && forall s :: Converted(s, ViewOf(cfg, worlds'[|log'|], s))
  {
    HistoryKeepsCandidates(cfg, worlds, log);
    var process := new Converter(cfg, env, worlds[|log|], worlds, log);
    err := process.RunApply(true);
    worlds', log' := process.worlds, process.log;
    forall s ensures Converted(s, ViewOf(cfg, worlds'[|log'|], s)) { assert s == Telemetry || s == AccessEvents; }
  }

  /**
   * Any number of apply runs, each killed between any two of its commands, and then one that is
   * answered and accepts the retention: it completes, both surfaces are converted, and what the
   * sources held at first is still held.
   */
  method ApplyUntilConverted(cfg: Config, start: World, killed: seq<Process>, env: nat -> Choice)
    returns (err: Result, worlds: seq<World>, log: seq<Cmd>)
    requires Initial(cfg, start) && forall i :: env(i).outcome == Succeeded
    ensures ApplyHistory(cfg, worlds, log) && worlds[0] == start
    ensures err.None? && forall s :: Converted(s, ViewOf(cfg, worlds[|log|], s)) && SourceHeld(cfg, worlds, log, s)
  {
    worlds, log := [start], [];
    for n := 0 to |killed|
      invariant ApplyHistory(cfg, worlds, log) && worlds[0] == start
    {
      worlds, log := KilledApply(cfg, killed[n], worlds, log);
    }
    err, worlds, log := CompleteApply(cfg, env, worlds, log);
    forall s ensures SourceHeld(cfg, worlds, log, s) {
      if HasSource(ViewOf(cfg, start, s)) { DataNeverLost(cfg, worlds, log, |log|, s); }
    }
  }
}
