/**
 * What every command of the diagnostics migration keeps, over every run, however many runs crash
 * and wherever, when nothing but the migration and the server's own expiry touches the server.
 */
module DiagnosticsSafety {
  import opened Common
  import opened RowDigest
  import opened DiagnosticsProtocol

  ghost predicate Pinned(cfg: Config, s: SurfaceId, e: SurfaceState, pin: Option<seq<Row>>) {
    && pin.Some?
    && e.digest == Some(cfg.digester.of(pin.value))
    && e.plan == Some(Plan(CanonicalRetention(s), |pin.value|))
  }

  /** An ordinary collection with exactly the pinned payload that nothing can expire. */
  ghost predicate PristineCopy(c: Option<Coll>, pin: seq<Row>) {
    && c.Some? && c.value.kind == Ordinary && c.value.uuid.Some? && c.value.freshIds
    && c.value.ttl == [] && SamePayload(c.value.rows, pin)
  }

  /** The installed collection: the pinned payload until its only expiry index exists. */
  ghost predicate InstalledCopy(c: Option<Coll>, uuid: Option<Uuid>, pin: seq<Row>, retention: nat) {
    && c.Some? && c.value.kind == Ordinary && c.value.uuid.Some? && c.value.uuid == uuid && c.value.freshIds
    && ((c.value.ttl == [] && SamePayload(c.value.rows, pin)) ||
        (ExactPolicy(c.value, retention) && multiset(c.value.rows) <= multiset(pin)))
  }

  ghost predicate OwnCopy(v: SurfaceView) {
    && v.pin.Some? && PristineCopy(v.candidate, v.pin.value)
    && v.canonical.Some? && v.candidate.value.uuid != v.canonical.value.uuid
  }

  ghost predicate SurfaceInv(cfg: Config, s: SurfaceId, v: SurfaceView)
  {
    match v.entry
    case None =>
      v.canonical.Some? && v.canonical.value.kind == TimeSeries ==>
        v.canonical.value.uuid.Some? && v.candidate.None?
    case Some(e) =>
      ValidEntry(cfg, s, e) &&
      match e.phase
      case Skipped => v.canonical.None? || v.canonical.value.kind != TimeSeries
      case Validated => SourceOwned(e, v.canonical) && v.candidate.None?
      case Copying =>
        SourceOwned(e, v.canonical) && Pinned(cfg, s, e, v.pin) && (v.candidate.None? || OwnCopy(v))
      case Copied =>
        && SourceOwned(e, v.canonical) && Pinned(cfg, s, e, v.pin)
        && (v.candidate.None? || OwnCopy(v))
        && CandidateUuid(e) != SourceUuid(e)
        && (e.candidate.Some? && v.candidate.Some? ==> OwnsNamespace(CandidateUuid(e), v.candidate))
      case Verified =>
        && Pinned(cfg, s, e, v.pin) && CandidateUuid(e) != SourceUuid(e)
        && ((SourceOwned(e, v.canonical) &&
             (v.candidate.None? || (OwnCopy(v) && OwnsNamespace(CandidateUuid(e), v.candidate)))) ||
            (v.candidate.None? && InstalledCopy(v.canonical, CandidateUuid(e), v.pin.value, CanonicalRetention(s))))
      case Installed =>
        && Pinned(cfg, s, e, v.pin) && v.candidate.None?
        && InstalledCopy(v.canonical, e.installed, v.pin.value, CanonicalRetention(s))
      case Complete =>
        && Pinned(cfg, s, e, v.pin) && v.candidate.None?
        && InstalledCopy(v.canonical, e.installed, v.pin.value, CanonicalRetention(s))
        && ExactPolicy(v.canonical.value, CanonicalRetention(s))
  }

  /** A copy was recorded and is gone, the journal kept (see `OnlyDropLosesCandidate`). */
  predicate CandidateLost(v: SurfaceView) {
    v.entry.Some? && var e := v.entry.value;
    && ((e.phase == Copied && e.candidate.Some?) || e.phase == Verified)
    && v.candidate.None? && SourceOwned(e, v.canonical)
  }

  /** Surfaces are converted in order, and an abort never undoes an installation. */
  ghost predicate Order(telemetry: SurfaceView, access: SurfaceView) {
    && (access.entry.Some? ==>
          telemetry.entry.Some? && telemetry.entry.value.phase in {Installed, Complete, Skipped})
    && (CandidateLost(access) ==> telemetry.entry.Some? && telemetry.entry.value.phase == Skipped)
  }

  ghost predicate UuidsAllocated(w: World) {
    forall n :: n in w.server && w.server[n].uuid.Some? ==> w.server[n].uuid.value < w.nextUuid
  }

  ghost predicate Inv(cfg: Config, w: World) {
    && SurfaceInv(cfg, Telemetry, ViewOf(cfg, w, Telemetry))
    && SurfaceInv(cfg, AccessEvents, ViewOf(cfg, w, AccessEvents))
    && Order(ViewOf(cfg, w, Telemetry), ViewOf(cfg, w, AccessEvents)) && UuidsAllocated(w)
  }

  /** Before the first run: nothing recorded, whatever the server holds. */
  ghost predicate Unstarted(w: World) {
    w.journal.None? && w.pins == map[] && UuidsAllocated(w)
  }

  /** Where the tool is meant to be pointed: no candidate name is taken beside a source. */
  ghost predicate Initial(cfg: Config, w: World) {
    Unstarted(w) && forall s :: SurfaceInv(cfg, s, ViewOf(cfg, w, s))
  }

  // ---------------------------------------------------------------- preservation

  /** Two views that differ at most in rows the server may expire. */
  ghost predicate CalmColl(c: Option<Coll>, d: Option<Coll>) {
    && c.Some? == d.Some?
    && (c.Some? ==>
          && d.value == c.value.(rows := d.value.rows)
          && multiset(d.value.rows) <= multiset(c.value.rows)
          && (!Expirable(c.value) ==> d.value == c.value))
  }

  ghost predicate Calm(v: SurfaceView, u: SurfaceView) {
    && CalmColl(v.canonical, u.canonical) && CalmColl(v.candidate, u.candidate)
    && u.entry == v.entry && u.pin == v.pin
  }

  lemma ExpireIsCalm(cfg: Config, w: World, f: map<Namespace, seq<Row>>, s: SurfaceId)
    requires Enabled(cfg, w, Expire(f))
    ensures Calm(ViewOf(cfg, w, s), ViewOf(cfg, Apply(cfg, w, Expire(f)), s))
  {
  }

  lemma CalmKeepsSurfaceInv(cfg: Config, s: SurfaceId, v: SurfaceView, u: SurfaceView)
    requires SurfaceInv(cfg, s, v) && Calm(v, u)
    ensures SurfaceInv(cfg, s, u)
    ensures CandidateLost(v) <==> CandidateLost(u)
  {
  }

  lemma CalmKeepsOkEntry(cfg: Config, s: SurfaceId, v: SurfaceView, u: SurfaceView, e: SurfaceState)
    requires OkEntry(cfg, s, v, e) && Calm(v, u)
    ensures OkEntry(cfg, s, u, e)
  {
  }

  lemma WriteKeepsSurfaceInv(cfg: Config, s: SurfaceId, v: SurfaceView, e: SurfaceState)
    requires SurfaceInv(cfg, s, v) && OkEntry(cfg, s, v, e)
    ensures SurfaceInv(cfg, s, v.(entry := Some(e)))
    ensures CandidateLost(v.(entry := Some(e))) ==> CandidateLost(v)
    ensures v.entry.Some? && v.entry.value.phase == Skipped ==> e.phase == Skipped
    ensures v.entry.Some? && v.entry.value.phase in {Installed, Complete} ==> e.phase in {Installed, Complete}
  {
  }

  lemma WriteView(cfg: Config, w: World, j: Journal, s: SurfaceId)
    requires Enabled(cfg, w, Write(j))
    ensures ViewOf(cfg, Apply(cfg, w, Write(j)), s) == ViewOf(cfg, w, s).(entry := Get(j, s))
  {
  }

  lemma WrittenSurface(cfg: Config, w: World, j: Journal, s: SurfaceId)
    requires Enabled(cfg, w, Write(j)) && SurfaceInv(cfg, s, ViewOf(cfg, w, s))
    ensures var v, u := ViewOf(cfg, w, s), ViewOf(cfg, Apply(cfg, w, Write(j)), s);
            && SurfaceInv(cfg, s, u)
            && (CandidateLost(u) ==> CandidateLost(v))
            && (v.entry.Some? ==>
                  && u.entry.Some?
                  && (v.entry.value.phase == Skipped ==> u.entry.value.phase == Skipped)
                  && (v.entry.value.phase in {Installed, Complete} ==> u.entry.value.phase in {Installed, Complete}))
  {
    WriteView(cfg, w, j, s);
    if s in j { WriteKeepsSurfaceInv(cfg, s, ViewOf(cfg, w, s), j[s]); }
  }

  lemma WriteKeepsOrder(cfg: Config, w: World, j: Journal)
    requires Inv(cfg, w) && Enabled(cfg, w, Write(j))
    ensures var w' := Apply(cfg, w, Write(j)); Order(ViewOf(cfg, w', Telemetry), ViewOf(cfg, w', AccessEvents))
  {
    WrittenSurface(cfg, w, j, Telemetry);
    WrittenSurface(cfg, w, j, AccessEvents);
    WriteView(cfg, w, j, Telemetry);
    WriteView(cfg, w, j, AccessEvents);
  }

  /** A command on one surface leaves the other alone. */
  lemma OtherSurfaceUntouched(cfg: Config, w: World, c: Cmd, s: SurfaceId)
    requires Enabled(cfg, w, c)
    requires (c.Pin? || c.Out? || c.Rename? || c.Drop? || c.CreateTtl?) && c.s != s
    ensures ViewOf(cfg, Apply(cfg, w, c), s) == ViewOf(cfg, w, s)
  {
    assert c.s == Other(s);
  }

  lemma OwnCommandView(cfg: Config, w: World, c: Cmd)
    requires Enabled(cfg, w, c) && (c.Pin? || c.Out? || c.Rename? || c.Drop? || c.CreateTtl?)
    ensures var v, u := ViewOf(cfg, w, c.s), ViewOf(cfg, Apply(cfg, w, c), c.s);
            match c
            case Pin(_) => u == v.(pin := Some(v.canonical.value.rows))
            case Out(_, copied) => u == v.(candidate := Some(OrdinaryCopy(w.nextUuid, copied)))
            case Rename(_) => u == v.(canonical := v.candidate, candidate := None)
            case Drop(_) => u == v.(candidate := None)
            case CreateTtl(_) =>
              u == v.(canonical := Some(v.canonical.value.(
                ttl := v.canonical.value.ttl + [TtlIndex(true, v.entry.value.plan.value.retention, false)])))
            case _ => true
  {
  }

  lemma SurfaceCommandKeepsSurfaceInv(cfg: Config, w: World, c: Cmd)
    requires Enabled(cfg, w, c) && UuidsAllocated(w)
    requires c.Pin? || c.Out? || c.Rename? || c.Drop? || c.CreateTtl?
    requires SurfaceInv(cfg, c.s, ViewOf(cfg, w, c.s))
    ensures SurfaceInv(cfg, c.s, ViewOf(cfg, Apply(cfg, w, c), c.s))
    ensures CandidateLost(ViewOf(cfg, Apply(cfg, w, c), c.s)) ==> CandidateLost(ViewOf(cfg, w, c.s)) || c.Drop?
  {
    OwnCommandView(cfg, w, c);
    match c case Pin(_) => case Out(_, _) => case Rename(_) => case Drop(_) => case CreateTtl(_) =>
  }

  lemma EraseView(cfg: Config, w: World, s: SurfaceId)
    requires Enabled(cfg, w, Erase)
    ensures ViewOf(cfg, Apply(cfg, w, Erase), s) == ViewOf(cfg, w, s).(entry := None)
    ensures Abandoned(ViewOf(cfg, w, s))
  {
  }

  /** One surface at a time, whatever the other looks like; only its own drop can lose its candidate. */
  lemma StepKeepsSurface(cfg: Config, w: World, c: Cmd, s: SurfaceId)
    requires Enabled(cfg, w, c) && UuidsAllocated(w) && SurfaceInv(cfg, s, ViewOf(cfg, w, s))
    ensures SurfaceInv(cfg, s, ViewOf(cfg, Apply(cfg, w, c), s))
    ensures CandidateLost(ViewOf(cfg, Apply(cfg, w, c), s)) ==> CandidateLost(ViewOf(cfg, w, s)) || c == Drop(s)
  {
    match c
    case Expire(f) =>
      ExpireIsCalm(cfg, w, f, s);
      CalmKeepsSurfaceInv(cfg, s, ViewOf(cfg, w, s), ViewOf(cfg, Apply(cfg, w, c), s));
    case Write(j) => WrittenSurface(cfg, w, j, s);
    case Erase => EraseView(cfg, w, s);
    case _ =>
      if c.s == s { SurfaceCommandKeepsSurfaceInv(cfg, w, c); } else { OtherSurfaceUntouched(cfg, w, c, s); }
  }

  lemma StepKeepsUuids(cfg: Config, w: World, c: Cmd)
    requires UuidsAllocated(w) && Enabled(cfg, w, c)
    ensures UuidsAllocated(Apply(cfg, w, c))
  {
  }

  lemma SurfaceCommandKeepsOrder(cfg: Config, w: World, c: Cmd)
    requires Inv(cfg, w) && Enabled(cfg, w, c)
    requires c.Pin? || c.Out? || c.Rename? || c.Drop? || c.CreateTtl?
    ensures var w' := Apply(cfg, w, c); Order(ViewOf(cfg, w', Telemetry), ViewOf(cfg, w', AccessEvents))
  {
    assert SurfaceInv(cfg, c.s, ViewOf(cfg, w, c.s)) by { match c.s case Telemetry => case AccessEvents => }
    SurfaceCommandKeepsSurfaceInv(cfg, w, c);
    OtherSurfaceUntouched(cfg, w, c, Other(c.s));
    var w' := Apply(cfg, w, c);
    assert ViewOf(cfg, w', c.s).entry == ViewOf(cfg, w, c.s).entry;
  }

  lemma StepKeepsOrder(cfg: Config, w: World, c: Cmd)
    requires Inv(cfg, w) && Enabled(cfg, w, c)
    ensures var w' := Apply(cfg, w, c); Order(ViewOf(cfg, w', Telemetry), ViewOf(cfg, w', AccessEvents))
  {
    match c
    case Expire(f) =>
      ExpireIsCalm(cfg, w, f, Telemetry);
      ExpireIsCalm(cfg, w, f, AccessEvents);
    case Write(j) => WriteKeepsOrder(cfg, w, j);
    case Erase =>
      EraseView(cfg, w, Telemetry);
      EraseView(cfg, w, AccessEvents);
    case _ => SurfaceCommandKeepsOrder(cfg, w, c);
  }

  lemma StepKeepsInv(cfg: Config, w: World, c: Cmd)
    requires Inv(cfg, w) && Enabled(cfg, w, c)
    ensures Inv(cfg, Apply(cfg, w, c))
  {
    StepKeepsSurface(cfg, w, c, Telemetry);
    StepKeepsSurface(cfg, w, c, AccessEvents);
    StepKeepsOrder(cfg, w, c);
    StepKeepsUuids(cfg, w, c);
  }

  /** Every world after world i of a behaviour keeps the invariant world i has. */
  lemma {:induction false} BehaviourKeepsInv(cfg: Config, worlds: seq<World>, log: seq<Cmd>, i: nat, j: nat)
    requires Behaviour(cfg, worlds, log) && i <= j <= |log| && Inv(cfg, worlds[i])
    ensures Inv(cfg, worlds[j])
    decreases j
  {
    if i < j {
      BehaviourKeepsInv(cfg, worlds, log, i, j - 1);
      assert StepAt(cfg, worlds, log, j - 1);
      StepKeepsInv(cfg, worlds[j - 1], log[j - 1]);
    }
  }

  // ---------------------------------------------------------------- what it means

  lemma ReachableInv(cfg: Config, worlds: seq<World>, log: seq<Cmd>, i: nat)
    requires Behaviour(cfg, worlds, log) && Initial(cfg, worlds[0]) && i <= |log|
    ensures Inv(cfg, worlds[i])
  {
    BehaviourKeepsInv(cfg, worlds, log, 0, i);
  }

  /** Whatever is interrupted, the journal left behind passes the persisted-state check. */
  lemma JournalAlwaysValid(cfg: Config, worlds: seq<World>, log: seq<Cmd>, i: nat)
    requires Behaviour(cfg, worlds, log) && Initial(cfg, worlds[0]) && i <= |log|
    ensures var j := worlds[i].journal; j.Some? ==> ValidJournal(cfg, j.value)
  {
    ReachableInv(cfg, worlds, log, i);
    InvJournalValid(cfg, worlds[i]);
  }

  lemma InvJournalValid(cfg: Config, w: World)
    requires Inv(cfg, w)
    ensures w.journal.Some? ==> ValidJournal(cfg, w.journal.value)
  {
    if w.journal.Some? {
      forall s | s in w.journal.value ensures ValidEntry(cfg, s, w.journal.value[s]) {
        assert SurfaceInv(cfg, s, ViewOf(cfg, w, s)) by { match s case Telemetry => case AccessEvents => }
      }
    }
  }

  /** What one command's expiry takes from the canonical name of a surface. */
  function ExpiredBy(w: World, c: Cmd, s: SurfaceId): multiset<Row> {
    var n := Canonical(s);
    if c.Expire? && n in c.survivors && n in w.server then multiset(w.server[n].rows) - multiset(c.survivors[n])
    else multiset{}
  }

  /** Every row the server expired under the canonical name of a surface, up to world i. */
  ghost function Expired(worlds: seq<World>, log: seq<Cmd>, i: nat, s: SurfaceId): multiset<Row>
    requires i <= |log| <= |worlds|
  {
    if i == 0 then multiset{} else Expired(worlds, log, i - 1, s) + ExpiredBy(worlds[i - 1], log[i - 1], s)
  }

  /**
   * Where the data of a source is.  Either the source itself is still in place, short of exactly the
   * rows the server expired; or the canonical name is an ordinary collection with exactly the pinned
   * payload until its one expiry index exists, and short of nothing the server did not expire.
   */
  ghost predicate DataHeld(
    s: SurfaceId, uuid: Option<Uuid>, original: multiset<Row>, expired: multiset<Row>, v: SurfaceView) {
    && (v.pin.Some? ==> multiset(v.pin.value) <= original <= multiset(v.pin.value) + expired)
    && v.canonical.Some?
    && ((v.canonical.value.kind == TimeSeries && v.canonical.value.uuid == uuid &&
         original == multiset(v.canonical.value.rows) + expired) ||
        (v.entry.Some? && v.entry.value.phase in {Verified, Installed, Complete} && v.pin.Some? &&
         InstalledCopy(v.canonical, v.canonical.value.uuid, v.pin.value, CanonicalRetention(s)) &&
         original <= multiset(v.canonical.value.rows) + expired))
  }

  /** Nothing is recorded of a source with no identity, or beside a taken candidate name: it is refused. */
  ghost predicate Refused(v: SurfaceView) {
    && v.entry.None? && v.canonical.Some? && v.canonical.value.kind == TimeSeries
    && (v.canonical.value.uuid.None? || v.candidate.Some?)
  }

  lemma ExpireHoldsData(
    cfg: Config, w: World, f: map<Namespace, seq<Row>>, s: SurfaceId, uuid: Option<Uuid>,
    original: multiset<Row>, expired: multiset<Row>)
    requires Enabled(cfg, w, Expire(f)) && DataHeld(s, uuid, original, expired, ViewOf(cfg, w, s))
    ensures DataHeld(s, uuid, original, expired + ExpiredBy(w, Expire(f), s),
                     ViewOf(cfg, Apply(cfg, w, Expire(f)), s))
  {
    ExpireIsCalm(cfg, w, f, s);
    ExpiredRows(cfg, w, f, s);
    var u := ViewOf(cfg, Apply(cfg, w, Expire(f)), s);
    var rows, left := w.server[Canonical(s)].rows, u.canonical.value.rows;
    StillAccounted(original, multiset(rows), multiset(left), ExpiredBy(w, Expire(f), s), expired);
    if u.pin.Some? { MoreExpired(original, multiset(u.pin.value), expired, ExpiredBy(w, Expire(f), s)); }
  }

  lemma ExpiredRows(cfg: Config, w: World, f: map<Namespace, seq<Row>>, s: SurfaceId)
    requires Enabled(cfg, w, Expire(f)) && Canonical(s) in w.server
    ensures multiset(w.server[Canonical(s)].rows)
            == multiset(Apply(cfg, w, Expire(f)).server[Canonical(s)].rows) + ExpiredBy(w, Expire(f), s)
  {
  }

  lemma StillAccounted(
    original: multiset<Row>, rows: multiset<Row>, left: multiset<Row>, gone: multiset<Row>, expired: multiset<Row>)
    requires rows == left + gone
    ensures original == rows + expired ==> original == left + (expired + gone)
    ensures original <= rows + expired ==> original <= left + (expired + gone)
  {
  }

  lemma MoreExpired(original: multiset<Row>, held: multiset<Row>, expired: multiset<Row>, gone: multiset<Row>)
    requires original <= held + expired
    ensures original <= held + (expired + gone)
  {
  }

  lemma WriteHoldsData(
    cfg: Config, s: SurfaceId, uuid: Option<Uuid>, original: multiset<Row>, expired: multiset<Row>,
    v: SurfaceView, e: SurfaceState)
    requires SurfaceInv(cfg, s, v) && OkEntry(cfg, s, v, e) && DataHeld(s, uuid, original, expired, v)
    ensures DataHeld(s, uuid, original, expired, v.(entry := Some(e)))
  {
  }

  lemma CommandHoldsData(
    cfg: Config, w: World, c: Cmd, uuid: Option<Uuid>, original: multiset<Row>, expired: multiset<Row>)
    requires Enabled(cfg, w, c) && (c.Pin? || c.Out? || c.Rename? || c.Drop? || c.CreateTtl?)
    requires SurfaceInv(cfg, c.s, ViewOf(cfg, w, c.s))
    requires DataHeld(c.s, uuid, original, expired, ViewOf(cfg, w, c.s))
    ensures DataHeld(c.s, uuid, original, expired, ViewOf(cfg, Apply(cfg, w, c), c.s))
  {
    OwnCommandView(cfg, w, c);
    match c case Pin(_) => case Out(_, _) => case Rename(_) => case Drop(_) => case CreateTtl(_) =>
  }

  lemma StepHoldsData(
    cfg: Config, w: World, c: Cmd, s: SurfaceId, uuid: Option<Uuid>, original: multiset<Row>, expired: multiset<Row>)
    requires Enabled(cfg, w, c) && SurfaceInv(cfg, s, ViewOf(cfg, w, s))
    requires DataHeld(s, uuid, original, expired, ViewOf(cfg, w, s))
    ensures DataHeld(s, uuid, original, expired + ExpiredBy(w, c, s), ViewOf(cfg, Apply(cfg, w, c), s))
  {
    if !c.Expire? { assert expired + ExpiredBy(w, c, s) == expired; }
    match c
    case Expire(f) => ExpireHoldsData(cfg, w, f, s, uuid, original, expired);
    case Write(j) =>
      WriteView(cfg, w, j, s);
      if s in j { WriteHoldsData(cfg, s, uuid, original, expired, ViewOf(cfg, w, s), j[s]); }
    case Erase => EraseView(cfg, w, s);
    case _ =>
      if c.s == s {
        CommandHoldsData(cfg, w, c, uuid, original, expired);
      } else {
        OtherSurfaceUntouched(cfg, w, c, s);
      }
  }

  /** A refused source stays refused and is never touched, whatever happens to the other surface. */
  lemma StepKeepsRefused(
    cfg: Config, w: World, c: Cmd, s: SurfaceId, uuid: Option<Uuid>, original: multiset<Row>, expired: multiset<Row>)
    requires Enabled(cfg, w, c) && Refused(ViewOf(cfg, w, s))
    requires DataHeld(s, uuid, original, expired, ViewOf(cfg, w, s))
    ensures Refused(ViewOf(cfg, Apply(cfg, w, c), s))
    ensures DataHeld(s, uuid, original, expired + ExpiredBy(w, c, s), ViewOf(cfg, Apply(cfg, w, c), s))
  {
    if !c.Expire? { assert expired + ExpiredBy(w, c, s) == expired; }
    match c
    case Expire(f) =>
      ExpireIsCalm(cfg, w, f, s);
      ExpireHoldsData(cfg, w, f, s, uuid, original, expired);
    case Write(j) => WriteView(cfg, w, j, s);
    case Erase => EraseView(cfg, w, s);
    case _ =>
      if c.s == s { OwnCommandView(cfg, w, c); } else { OtherSurfaceUntouched(cfg, w, c, s); }
  }

  /** Held, by a surface the protocol governs or one it refuses. */
  ghost predicate Held(
    cfg: Config, s: SurfaceId, uuid: Option<Uuid>, original: multiset<Row>, expired: multiset<Row>, w: World) {
    && UuidsAllocated(w)
    && (SurfaceInv(cfg, s, ViewOf(cfg, w, s)) || Refused(ViewOf(cfg, w, s)))
    && DataHeld(s, uuid, original, expired, ViewOf(cfg, w, s))
  }

  lemma StepKeepsHeld(
    cfg: Config, w: World, c: Cmd, s: SurfaceId, uuid: Option<Uuid>, original: multiset<Row>, expired: multiset<Row>)
    requires Enabled(cfg, w, c) && Held(cfg, s, uuid, original, expired, w)
    ensures Held(cfg, s, uuid, original, expired + ExpiredBy(w, c, s), Apply(cfg, w, c))
  {
    StepKeepsUuids(cfg, w, c);
    if Refused(ViewOf(cfg, w, s)) {
      StepKeepsRefused(cfg, w, c, s, uuid, original, expired);
    } else {
      StepKeepsSurface(cfg, w, c, s);
      StepHoldsData(cfg, w, c, s, uuid, original, expired);
    }
  }

  ghost predicate HeldAt(
    cfg: Config, worlds: seq<World>, log: seq<Cmd>, i: nat, s: SurfaceId, uuid: Option<Uuid>, original: multiset<Row>)
    requires i <= |log| < |worlds|
  {
    Held(cfg, s, uuid, original, Expired(worlds, log, i, s), worlds[i])
  }

  lemma NextHeld(
    cfg: Config, worlds: seq<World>, log: seq<Cmd>, j: nat, i: nat, s: SurfaceId, uuid: Option<Uuid>,
    original: multiset<Row>)
    requires Behaviour(cfg, worlds, log) && i == j + 1 <= |log| && HeldAt(cfg, worlds, log, j, s, uuid, original)
    ensures HeldAt(cfg, worlds, log, i, s, uuid, original)
  {
    assert StepAt(cfg, worlds, log, j);
    var expired := Expired(worlds, log, j, s);
    StepKeepsHeld(cfg, worlds[j], log[j], s, uuid, original, expired);
    assert Expired(worlds, log, i, s) == expired + ExpiredBy(worlds[j], log[j], s);
  }

  lemma {:induction false} BehaviourKeepsHeld(
    cfg: Config, worlds: seq<World>, log: seq<Cmd>, i: nat, s: SurfaceId, uuid: Option<Uuid>, original: multiset<Row>)
    requires Behaviour(cfg, worlds, log) && i <= |log| && HeldAt(cfg, worlds, log, 0, s, uuid, original)
    ensures HeldAt(cfg, worlds, log, i, s, uuid, original)
    decreases i
  {
    if i > 0 {
      var j: nat := i - 1;
      BehaviourKeepsHeld(cfg, worlds, log, j, s, uuid, original);
      NextHeld(cfg, worlds, log, j, i, s, uuid, original);
    }
  }

  /** From any server contents at all, the data of a source is held at every point of every log. */
  lemma DataNeverLost(cfg: Config, worlds: seq<World>, log: seq<Cmd>, i: nat, s: SurfaceId)
    requires Behaviour(cfg, worlds, log) && Unstarted(worlds[0]) && i <= |log|
    requires var c := ViewOf(cfg, worlds[0], s).canonical; c.Some? && c.value.kind == TimeSeries
    ensures var c := ViewOf(cfg, worlds[0], s).canonical.value;
            DataHeld(s, c.uuid, multiset(c.rows), Expired(worlds, log, i, s), ViewOf(cfg, worlds[i], s))
  {
    var c := ViewOf(cfg, worlds[0], s).canonical.value;
    BehaviourKeepsHeld(cfg, worlds, log, i, s, c.uuid, multiset(c.rows));
  }

  /** Only a rename removes a source, only after a persisted `verified`, and what replaces it is the pinned copy. */
  lemma OnlyRenameRemovesSource(cfg: Config, w: World, c: Cmd, s: SurfaceId)
    requires Inv(cfg, w) && Enabled(cfg, w, c)
    requires var k := ViewOf(cfg, w, s).canonical; k.Some? && k.value.kind == TimeSeries
    ensures var v, u := ViewOf(cfg, w, s), ViewOf(cfg, Apply(cfg, w, c), s);
            || (u.canonical.Some? && u.canonical.value.kind == TimeSeries
                && u.canonical.value.uuid == v.canonical.value.uuid)
            || (c == Rename(s) && v.entry.Some? && v.entry.value.phase == Verified && v.pin.Some?
                && PristineCopy(v.candidate, v.pin.value) && u.canonical == v.candidate)
  {
    var v := ViewOf(cfg, w, s);
    assert SurfaceInv(cfg, s, v) by { match s case Telemetry => case AccessEvents => }
    match c
    case Expire(f) => ExpireIsCalm(cfg, w, f, s);
    case Write(j) => WriteView(cfg, w, j, s);
    case Erase => EraseView(cfg, w, s);
    case _ =>
      if c.s == s { OwnCommandView(cfg, w, c); } else { OtherSurfaceUntouched(cfg, w, c, s); }
  }

  /**
   * What a command may do to an existing collection beyond the server's own expiry, and under which
   * proof of ownership.
   */
  ghost predicate Entitled(cfg: Config, w: World, c: Cmd, n: Namespace)
    requires Enabled(cfg, w, c)
  {
    match c
    case Rename(s) =>
      var v := ViewOf(cfg, w, s);
      || (n == Canonical(s) && SourceOwned(v.entry.value, v.canonical) && v.entry.value.phase == Verified)
      || (n == Candidacy(s) && OwnsNamespace(CandidateUuid(v.entry.value), v.candidate))
    case Drop(s) =>
      var v := ViewOf(cfg, w, s);
      && n == Candidacy(s) && SourceOwned(v.entry.value, v.canonical)
      && (OwnsNamespace(CandidateUuid(v.entry.value), v.candidate) ||
          CandidateMatches(cfg, v.entry.value, v.candidate))
    case CreateTtl(s) =>
      var v := ViewOf(cfg, w, s);
      n == Canonical(s) && Renamed(v.entry.value, v.canonical)
    case _ => false
  }

  /** From any world at all, not only a reachable one: no unrecorded collection is replaced, dropped or indexed. */
  lemma OnlyOwnedCollectionsTouched(cfg: Config, w: World, c: Cmd, n: Namespace)
    requires Enabled(cfg, w, c) && n in w.server
    ensures var w' := Apply(cfg, w, c);
            || (n in w'.server && CalmColl(Some(w.server[n]), Some(w'.server[n])))
            || Entitled(cfg, w, c, n)
  {
    match c case Rename(_) => case Drop(_) => case CreateTtl(_) => case _ =>
  }

  /** Adoption by digest is adoption of the pinned payload: nothing else under the candidate name is ever dropped. */
  lemma AdoptedPayload(cfg: Config, e: SurfaceState, candidate: Option<Coll>, pin: seq<Row>)
    requires Injective(cfg.digester.hash) && e.digest == Some(cfg.digester.of(pin))
    requires candidate.Some? && candidate.value.ttl == []
    ensures CandidateMatches(cfg, e, candidate) <==>
            candidate.value.kind == Ordinary && candidate.value.uuid.Some? && SamePayload(candidate.value.rows, pin)
  {
    DigesterDecidesPayload(cfg.digester, candidate.value.rows, pin);
  }

  lemma LostMeansAbandoned(telemetry: SurfaceView, access: SurfaceView)
    requires Order(telemetry, access) && (CandidateLost(telemetry) || CandidateLost(access))
    ensures Abandoned(telemetry) && Abandoned(access)
  {
  }

  /** Only a drop loses a candidate, so a history without one never does, however often it was interrupted. */
  lemma {:induction false} OnlyDropLosesCandidate(
    cfg: Config, worlds: seq<World>, log: seq<Cmd>, i: nat, j: nat, s: SurfaceId)
    requires Behaviour(cfg, worlds, log) && i <= j <= |log| && Inv(cfg, worlds[i])
    requires !CandidateLost(ViewOf(cfg, worlds[i], s))
    requires forall k :: i <= k < j ==> log[k] != Drop(s)
    ensures !CandidateLost(ViewOf(cfg, worlds[j], s))
    decreases j
  {
    if i < j {
      OnlyDropLosesCandidate(cfg, worlds, log, i, j - 1, s);
      BehaviourKeepsInv(cfg, worlds, log, i, j - 1);
      assert StepAt(cfg, worlds, log, j - 1);
      assert SurfaceInv(cfg, s, ViewOf(cfg, worlds[j - 1], s)) by { match s case Telemetry => case AccessEvents => }
      StepKeepsSurface(cfg, worlds[j - 1], log[j - 1], s);
    }
  }

  /** The record of one copied surface, from the intent to the copy. */
  function CopyRecord(cfg: Config, rows: seq<Row>, candidate: Option<Candidate>): SurfaceState {
    SurfaceState(Canonical(Telemetry), Candidacy(Telemetry), if candidate.None? then Copying else Copied, None,
                 Some(Source(0, None)), Some(Plan(CanonicalRetention(Telemetry), |rows|)),
                 Some(cfg.digester.of(rows)), candidate, None)
  }

  function OneSource(rows: seq<Row>): World {
    World(map[Canonical(Telemetry) := Coll(TimeSeries, Some(0), rows, None, false, [])], 1, None, map[])
  }

  /** The five commands of `InterruptedAbortLosesCandidate`, the drop last, and the worlds between them. */
  ghost function LossLog(cfg: Config, rows: seq<Row>): seq<Cmd> {
    [Pin(Telemetry), Write(map[Telemetry := CopyRecord(cfg, rows, None)]), Out(Telemetry, rows),
     Write(map[Telemetry := CopyRecord(cfg, rows, Some(Candidate(1, |rows|)))]), Drop(Telemetry)]
  }

  ghost function LossWorlds(cfg: Config, rows: seq<Row>): seq<World> {
    var w0 := OneSource(rows);
    var w1 := w0.(pins := map[Telemetry := rows]);
    var w2 := w1.(journal := Some(map[Telemetry := CopyRecord(cfg, rows, None)]));
    var w3 := w2.(server := w0.server[Candidacy(Telemetry) := OrdinaryCopy(1, rows)], nextUuid := 2);
    var w4 := w3.(journal := Some(map[Telemetry := CopyRecord(cfg, rows, Some(Candidate(1, |rows|)))]));
    [w0, w1, w2, w3, w4, w4.(server := w0.server)]
  }

  lemma PinsSource(cfg: Config, rows: seq<Row>)
    ensures var ws := LossWorlds(cfg, rows); Step(cfg, ws[0], Pin(Telemetry), ws[1])
  {
    assert ViewOf(cfg, OneSource(rows), Telemetry).canonical.Some?;
  }

  lemma RecordsIntent(cfg: Config, rows: seq<Row>)
    ensures var ws := LossWorlds(cfg, rows); Step(cfg, ws[1], LossLog(cfg, rows)[1], ws[2])
  {
    var e, w := CopyRecord(cfg, rows, None), LossWorlds(cfg, rows)[1];
    assert MayStartCopying(cfg, Telemetry, ViewOf(cfg, w, Telemetry), e);
    assert WriteEnabled(cfg, w, map[Telemetry := e]);
  }

  lemma MakesCopy(cfg: Config, rows: seq<Row>)
    ensures var ws := LossWorlds(cfg, rows); Step(cfg, ws[2], LossLog(cfg, rows)[2], ws[3])
  {
    var w := LossWorlds(cfg, rows)[2];
    assert OutEnabled(cfg, ViewOf(cfg, w, Telemetry), rows);
  }

  lemma RecordsCopy(cfg: Config, rows: seq<Row>)
    ensures var ws := LossWorlds(cfg, rows); Step(cfg, ws[3], LossLog(cfg, rows)[3], ws[4])
  {
    var e, w := CopyRecord(cfg, rows, Some(Candidate(1, |rows|))), LossWorlds(cfg, rows)[3];
    assert OkEntry(cfg, Telemetry, ViewOf(cfg, w, Telemetry), e);
    forall s | EntryOf(w, s).Some? ensures s == Telemetry {}
    assert WriteEnabled(cfg, w, map[Telemetry := e]);
  }

  lemma DropsCopy(cfg: Config, rows: seq<Row>)
    ensures var ws := LossWorlds(cfg, rows); Step(cfg, ws[4], LossLog(cfg, rows)[4], ws[5])
    ensures CandidateLost(ViewOf(cfg, LossWorlds(cfg, rows)[5], Telemetry))
  {
    var ws := LossWorlds(cfg, rows);
    assert DropEnabled(cfg, ViewOf(cfg, ws[4], Telemetry));
    assert ws[4].server - {Candidacy(Telemetry)} == ws[5].server;
  }

  /** It happens: a copy is made and recorded, and an abort is interrupted just after its drop. */
  lemma InterruptedAbortLosesCandidate(cfg: Config, rows: seq<Row>)
    ensures var worlds, log := LossWorlds(cfg, rows), LossLog(cfg, rows);
            && Behaviour(cfg, worlds, log) && worlds[0] == OneSource(rows) && Initial(cfg, worlds[0])
            && log[4] == Drop(Telemetry) && CandidateLost(ViewOf(cfg, worlds[5], Telemetry))
  {
    var worlds, log := LossWorlds(cfg, rows), LossLog(cfg, rows);
    forall i | 0 <= i < |log| ensures StepAt(cfg, worlds, log, i) {
      if i == 0 { PinsSource(cfg, rows); }
      if i == 1 { RecordsIntent(cfg, rows); }
      if i == 2 { MakesCopy(cfg, rows); }
      if i == 3 { RecordsCopy(cfg, rows); }
      if i == 4 { DropsCopy(cfg, rows); }
    }
    DropsCopy(cfg, rows);
  }

  /**
   * No dead end: once an interrupted abort has dropped a recorded candidate, the whole journal may be
   * erased, which leaves every source in place and nothing lost.
   */
  lemma LostCandidateCanBeAbandoned(cfg: Config, w: World, s: SurfaceId)
    requires Inv(cfg, w) && CandidateLost(ViewOf(cfg, w, s))
    ensures Enabled(cfg, w, Erase)
    ensures var w' := Apply(cfg, w, Erase); Inv(cfg, w') && forall t :: !CandidateLost(ViewOf(cfg, w', t))
  {
    assert s == Telemetry || s == AccessEvents;
    LostMeansAbandoned(ViewOf(cfg, w, Telemetry), ViewOf(cfg, w, AccessEvents));
    forall t: SurfaceId ensures Abandoned(ViewOf(cfg, w, t)) { assert t == Telemetry || t == AccessEvents; }
    StepKeepsInv(cfg, w, Erase);
    forall t: SurfaceId ensures !CandidateLost(ViewOf(cfg, Apply(cfg, w, Erase), t)) { EraseView(cfg, w, t); }
  }
}
