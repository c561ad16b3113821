/** What each locked section comes to, field by field: the row in memory and the directory on disk after a section
    that finished, and the row after one that failed. */
module ArtifactEffects {
  import opened Prelude
  import opened ArtifactDisk
  import opened ArtifactProtocol
  import opened ArtifactRecovery

  /** The directory holds this manifest and pin, has both partitions and no temporary, and these files. */
  predicate Holds(d: Dir, m: Manifest, pin: bool, files: map<string, nat>) {
    d.raw && d.derived && d.manifest == Some(m) && d.pin == Some(pin) && d.files == files
  }

  /** `m` with the marks of a quarantine; everything else is kept. */
  predicate MarkedFailed(m: Manifest, q: Manifest, reason: string, at: nat) {
    && q.status.Failed? && q.quarantined && q.reason == reason && q.completed.Some?
    && q.completed.value >= at && q.completed.value >= m.created && (q.completed.value == at || q.completed.value == m.created)
    && (q.id, q.created, q.provenance, q.required, q.files) == (m.id, m.created, m.provenance, m.required, m.files)
  }

  predicate MarkedPublished(m: Manifest, q: Manifest, success: bool, reason: string, at: nat, files: map<string, nat>) {
    && (if success then q.status.Complete? else q.status.Failed?) && !q.quarantined && q.reason == reason && q.completed.Some?
    && q.completed.value >= at && q.completed.value >= m.created && (q.completed.value == at || q.completed.value == m.created)
    && (q.id, q.created, q.provenance, q.required, q.files) == (m.id, m.created, m.provenance, m.required, files)
  }

  /** Nothing of the identity but the staged directory and the row differs. */
  predicate OnlyStaging(l: Local, r: Local) {
    r.cell.(staging := None) == l.cell.(staging := None) && r.memo.(entry := None) == l.memo.(entry := None) && r.leases == l.leases
  }

  /** The row is quarantined and pinned, and so is the directory. */
  ghost predicate Quarantined(l: Local, r: Local, reason: string, at: nat)
    requires l.memo.entry.Some? && l.cell.staging.Some?
  {
    var e, d := l.memo.entry.value, l.cell.staging.value;
    && OnlyStaging(l, r) && r.memo.entry.Some? && r.cell.staging.Some?
    && MarkedFailed(e.manifest, r.memo.entry.value.manifest, reason, at)
    && r.memo.entry.value.pinned && r.memo.entry.value.staged && r.memo.entry.value.leases == e.leases
    && r.cell.staging.value == d.(manifest := Some(r.memo.entry.value.manifest), pin := Some(true))
  }

  /** The identity before and after a section that finished. */
  ghost predicate Effected(l: Local, r: Local, op: Op)
    requires Admits(l, op)
  {
    match op
    case Begin(id, created, provenance, required, pinned) =>
      var m := Manifest(id, Staging, created, None, "", false, provenance, required, map[]);
      && OnlyStaging(l, r) && r.writer && r.memo.entry == Some(Entry(m, pinned, true, 0, true))
      && r.cell.staging.Some? && Holds(r.cell.staging.value, m, pinned, map[])
    case UpdateProvenance(_, provenance) =>
      var e := l.memo.entry.value;
      && OnlyStaging(l, r) && r.writer == l.writer
      && r.memo.entry == Some(e.(manifest := e.manifest.(provenance := provenance)))
      && l.cell.staging.Some? && r.cell.staging == Some(l.cell.staging.value.(manifest := Some(r.memo.entry.value.manifest)))
    case Quarantine(_, reason, at) =>
      && l.cell.staging.Some? && Quarantined(l, r, reason, at)
      && r.memo.entry.value.writerActive == l.memo.entry.value.writerActive && r.writer == l.writer
    case SweepTemps(_) => r == l.(cell := l.cell.(staging := Some(l.cell.staging.value.(temps := 0))))
    case Publish(_, success, reason, at) =>
      var e, d := l.memo.entry.value, l.cell.staging.value;
      && r.memo.entry.Some? && MarkedPublished(e.manifest, r.memo.entry.value.manifest, success, reason, at, d.files)
      && r.memo.entry.value == e.(staged := false, manifest := r.memo.entry.value.manifest)
      && r.cell == l.cell.(staging := None, bundle := Some(d.(manifest := Some(r.memo.entry.value.manifest))))
      && r.(memo := l.memo, cell := l.cell) == l && r.memo.(entry := None) == l.memo.(entry := None)
    case Pin(_, pinned) =>
      var e, d := l.memo.entry.value, Home(l.cell, l.memo.entry.value.staged);
      && d.Some? && r == WithEntry(l, e.(pinned := pinned)).(cell := WithHome(l.cell, e.staged, d.value.(pin := Some(pinned))))
    case CloseWriter(_, at) =>
      var e := l.memo.entry.value;
      && !r.writer && r.memo.entry.Some? && !r.memo.entry.value.writerActive
      && if e.staged && !e.manifest.quarantined
         then l.cell.staging.Some? &&
              Quarantined(l, r, "Writer closed without confirmed publication; owned-process cleanup must be verified", at)
         else r == WithEntry(l, e.(writerActive := false)).(writer := false)
    case Claim(_, record) =>
      && l.cell.bundle.Some? && r.(memo := l.memo, cell := l.cell) == l
      && r.memo == Memo(None, Some(record.summary), Some(record.summary.bytes))
      && r.cell == Cell(l.cell.staging, None, Some(record), Some(Names(l.cell.bundle.value)))
  }

  /** A section does, row and directory together, exactly what it is for. */
  lemma SectionEffects(l: Local, op: Op)
    requires Admits(l, op) && LocalOk(l, op.id)
    ensures Effected(l, DoneLocal(l, op), op)
  {
    match op
    case Begin(_, _, _, _, _) => BeginEffects(l, op);
    case Quarantine(_, reason, at) =>
      QuarantineEffects(l.cell, QuarantinedManifest(l.memo.entry.value.manifest, reason, at));
    case CloseWriter(_, at) =>
      if ClosesIntoQuarantine(l) { QuarantineEffects(l.cell, QuarantinedManifest(l.memo.entry.value.manifest, UNCONFIRMED, at)); }
    case Publish(_, _, _, _) => PublishResult(l, op, 3);
    case UpdateProvenance(_, _) => ProvenanceResult(l, op, 2);
    case Pin(_, pinned) => PinResult(l.cell, l.memo.entry.value.staged, pinned, 2);
    case Claim(_, _) => ClaimResult(l, op, 3);
    case SweepTemps(_) => assert After(l.cell, Plan(l, op), 1) == Effect(l.cell, CleanTemps(true));
  }

  lemma BeginEffects(l: Local, op: Op)
    requires op.Begin? && Admits(l, op) && LocalOk(l, op.id)
    ensures Effected(l, DoneLocal(l, op), op)
  {
    var p, c := Plan(l, op), l.cell;
    BeginResult(l, op, |p|);
    assert After(c, p, 1) == EmptyCell.(staging := Some(NewDir));
    assert After(c, p, 2) == Effect(After(c, p, 1), p[1]);
    assert After(c, p, 3) == Effect(After(c, p, 2), p[2]);
    assert After(c, p, 4) == Effect(After(c, p, 3), p[3]);
    assert After(c, p, 5) == Effect(After(c, p, 4), p[4]);
    assert After(c, p, 6) == Effect(After(c, p, 5), p[5]);
  }

  lemma FourSteps(c: Cell, p: seq<Change>)
    requires |p| == 4
    ensures After(c, p, 4) == Effect(Effect(Effect(Effect(c, p[0]), p[1]), p[2]), p[3])
  {
    hide Effect;
    assert After(c, p, 1) == Effect(c, p[0]);
    assert After(c, p, 2) == Effect(After(c, p, 1), p[1]);
    assert After(c, p, 3) == Effect(After(c, p, 2), p[2]);
  }

  lemma QuarantineEffects(c: Cell, m: Manifest)
    requires c.staging.Some?
    ensures After(c, QuarantinePlan(m), 4) == c.(staging := Some(c.staging.value.(manifest := Some(m), pin := Some(true))))
  {
    hide After;
    FourSteps(c, QuarantinePlan(m));
  }

  /** The row after a section that failed: as it was, or protective, or as after success once the commit was made. */
  ghost predicate Survives(l: Local, r: Local, op: Op, k: nat)
    requires Admits(l, op)
  {
    match op
    case Begin(id, created, provenance, required, pinned) =>
      && r.writer == l.writer && r.leases == l.leases && r.memo.(entry := None) == l.memo.(entry := None)
      && r.memo.entry == if k == 0 then None else
                           Some(Entry(Manifest(id, Staging, created, None, "", false, provenance, required, map[]), pinned, true, 0, false))
    case UpdateProvenance(_, _) => r.(cell := l.cell) == l
    case SweepTemps(_) => r.(cell := l.cell) == l
    case Pin(_, _) => r.(cell := l.cell) == WithEntry(l, l.memo.entry.value.(pinned := true))
    case Quarantine(_, _, _) => r.(cell := l.cell) == DoneLocal(l, op).(cell := l.cell)
    case CloseWriter(_, _) => r.(cell := l.cell) == DoneLocal(l, op).(cell := l.cell)
    case Publish(_, _, _, _) => r.(cell := l.cell) == if k < 3 then l else DoneLocal(l, op).(cell := l.cell)
    case Claim(_, _) => r.(cell := l.cell) == if k < 3 then l else DoneLocal(l, op).(cell := l.cell)
  }

  /** An I/O error loses no protection: it leaves the row as it was, except that a quarantine and a closed writer keep
      their marks, a pin keeps the bundle pinned, a publication or a claim whose rename was made counts as made, and a
      `begin` that made its directory keeps a row without a writer. */
  lemma FailureEffects(l: Local, op: Op, k: nat)
    requires Admits(l, op) && LocalOk(l, op.id) && k <= |Plan(l, op)|
    ensures Survives(l, FailedLocal(l, op, k), op, k)
  {
  }

  /** Handles and deletions, event by event. */
  ghost predicate Brushed(l: Local, r: Local, t: Touch) {
    match t
    case Strand => r.(cell := l.cell) == l && r.cell == l.cell.(staging := r.cell.staging) &&
      r.cell.staging == Some(Dir(false, false, false, true, map[], None, None, 0))
    case Resume => l.memo.entry.Some? && r == WithEntry(l, l.memo.entry.value.(writerActive := true)).(writer := true)
    case TakeLease =>
      l.memo.entry.Some? && r.leases == l.leases + 1 && r.memo.entry == Some(l.memo.entry.value.(leases := l.memo.entry.value.leases + 1)) &&
      r.(leases := l.leases, memo := l.memo) == l && r.memo.(entry := l.memo.entry) == l.memo
    case ReleaseLease =>
      r.leases + 1 == l.leases && r.(leases := l.leases, memo := l.memo) == l && r.memo.(entry := l.memo.entry) == l.memo &&
      (l.memo.entry.Some? ==> r.memo.entry.Some? && r.memo.entry.value.leases + 1 == l.memo.entry.value.leases &&
                              r.memo.entry.value.(leases := l.memo.entry.value.leases) == l.memo.entry.value)
    case DropWriter => r == l.(writer := false)
    case WithdrawRecord => r == l.(cell := l.cell.(record := None))
    case DeleteStep =>
      l.cell.trash.Some? && r == l.(cell := l.cell.(trash := if l.cell.trash.value > 0 then Some(l.cell.trash.value - 1) else None))
    case ForgetTrash => r == l.(memo := l.memo.(usage := None))
    case OutsideWrite(files, fits, stray) =>
      && l.cell.staging.Some? && r.cell.staging.Some?
      && r == l.(cell := l.cell.(staging := Some(l.cell.staging.value.(files := files, fits := fits, stray := stray))))
  }

  lemma TouchEffects(l: Local, t: Touch, id: Id)
    requires Allows(l, t) && LocalOk(l, id)
    ensures Brushed(l, Touched(l, t), t)
  {
  }

  // ----- Recovery -----

  /** The manifest of an attempt that was interrupted before it had one. */
  predicate MarkedLost(q: Manifest, id: Id, now: nat) {
    && q.status.Failed? && q.quarantined && q.completed == Some(now)
    && q.reason == "Interrupted before publication; verify owned-process cleanup before releasing quarantine"
    && (q.id, q.created, q.provenance, q.required, q.files) == (id, now, RECOVERY_PROVENANCE, [], map[])
  }

  /** An interrupted attempt is quarantined under its old reason if it had been quarantined before. */
  predicate MarkedInterrupted(d: Dir, q: Manifest, id: Id, now: nat) {
    if d.manifest.None? then MarkedLost(q, id, now)
    else if d.manifest.value.quarantined then MarkedFailed(d.manifest.value, q, d.manifest.value.reason, now)
    else MarkedFailed(d.manifest.value, q,
                      "Interrupted before publication; verify owned-process cleanup before releasing quarantine", now)
  }

  /** An identity before and after recovery. */
  ghost predicate Revived(c: Cell, l: Local, id: Id, how: How) {
    if c.bundle.Some? then
      var d := c.bundle.value;
      && l.cell == Cell(None, Some(d.(temps := 0)), None, None) && d.manifest.Some? && d.pin.Some?
      && l.memo == Memo(Some(Entry(d.manifest.value, d.pin.value, false, 0, false)), None, None)
    else if c.staging.Some? && c.staging.value.manifest.Some? &&
            !c.staging.value.manifest.value.status.Staging? && !c.staging.value.manifest.value.quarantined then
      var d := c.staging.value;
      && l.cell == Cell(None, Some(d.(temps := 0)), None, None) && d.pin.Some?
      && l.memo == Memo(Some(Entry(d.manifest.value, d.pin.value, false, 0, false)), None, None)
    else if c.staging.Some? then
      var d := c.staging.value;
      && l.memo.entry.Some?
      && var q := l.memo.entry.value.manifest;
      && MarkedInterrupted(d, q, id, how.now)
      && l.memo == Memo(Some(Entry(q, true, true, 0, false)), None, None)
      && l.cell == Cell(Some(d.(raw := true, derived := true, manifest := Some(q), pin := Some(true), temps := 0)), None, None, None)
    else if c.record.Some? then
      var stuck := c.trash.Some? && id in how.stuck;
      && l.memo.entry.None? && l.memo.expiration == Some(c.record.value.summary)
      && l.memo.usage == (if stuck then Some(how.stuck[id].bytes) else None)
      && l.cell == c.(trash := if !stuck then None
                               else Some(if how.stuck[id].gone < c.trash.value then c.trash.value - how.stuck[id].gone else 0))
    else l.cell == EmptyCell && l.memo == Memo(None, None, None)
  }

  /** Recovery keeps what was published, finishes a publication whose manifest was written, quarantines every other
      attempt with its files, and goes on deleting what was claimed. */
  lemma RecoveryEffects(c: Cell, id: Id, how: How)
    requires CellOk(c, id)
    ensures Revived(c, RecoveredLocal(c, id, how), id, how)
    ensures RecoveredLocal(c, id, how).leases == 0 && !RecoveredLocal(c, id, how).writer
  {
    var n := |RecoveryPlan(c, id, how)|;
    if c.bundle.Some? {
      BundleRecovery(c, id, how, n);
    } else if c.staging.Some? {
      if FinishesPublication(c.staging.value, id) { PublishRecovery(c, id, how, n); } else { InterruptedEffects(c, id, how); }
    } else if c.trash.Some? {
      TrashRecovery(c, c.trash.value, Get(how.stuck, id), n);
    }
  }

  lemma InterruptedEffects(c: Cell, id: Id, how: How)
    requires CellOk(c, id) && c.staging.Some? && !FinishesPublication(c.staging.value, id)
    ensures RecoveredCell(c, id, how) == c.(staging := Some(c.staging.value.(
            raw := true, derived := true, manifest := Some(Requarantined(c.staging.value, id, how)), pin := Some(true), temps := 0)))
  {
    hide Effect, Enabled, Requarantined;
    var d, m := c.staging.value, Requarantined(c.staging.value, id, how);
    QuarantineRecovery(c, id, how, 7);
    AfterSecond(c, OpenPlan, QuarantinePlan(m), 4);
    OpenRecovery(c, 3);
    QuarantineEffects(c.(staging := Some(d.(temps := 0, raw := true, derived := true))), m);
  }

  // ----- What recovery accepts -----

  /** A manifest of this identity: a time of completion exactly once it is finished, and not before its creation; a reason
      of at most 4096 characters, and one at all for a failure; no quarantined success; at most 128 different outputs. */
  predicate Sound(m: Manifest, id: Id) {
    && m.id == id && |m.reason| <= 4096 && |m.required| <= 128 && |m.files| <= 4096
    && (forall i, j :: 0 <= i < j < |m.required| ==> m.required[i] != m.required[j])
    && (m.completed.Some? <==> !m.status.Staging?) && (m.completed.Some? ==> m.completed.value >= m.created)
    && (m.status.Failed? ==> m.reason != "") && (m.status.Complete? ==> !m.quarantined)
  }

  /** The files are those of the manifest, at most 4096, and a success has its required outputs, none of them empty. */
  predicate Inventoried(d: Dir, m: Manifest) {
    && d.fits && d.files == m.files && |d.files| <= 4096
    && (m.status.Complete? ==> forall r :: r in m.required ==> r in d.files && d.files[r] > 0)
  }

  /** A staged directory whose final manifest is installed is finished, so it must be complete; any other is quarantined,
      under its old reason if it was so before, which must then be a proper one. */
  predicate StagingSound(d: Dir, id: Id) {
    d.manifest.Some? && Sound(d.manifest.value, id) ==>
      var m := d.manifest.value;
      if m.quarantined then m.reason != "" else m.status.Staging? || (d.pin.Some? && Inventoried(d, m))
  }

  lemma SoundIff(m: Manifest, id: Id)
    ensures Sound(m, id) <==> ManifestOk(m, id)
  {
  }

  lemma InventoriedIff(d: Dir, m: Manifest)
    requires d.raw && d.derived
    ensures Inventoried(d, m) <==> Matches(d, m)
  {
    if m.status.Complete? && (forall r :: r in m.required ==> r in d.files && d.files[r] > 0) {
      forall i | 0 <= i < |m.required| ensures m.required[i] in d.files && d.files[m.required[i]] != 0 {
        assert m.required[i] in m.required;
      }
    }
  }

  /** Recovery takes an identity, from whatever lies on disk, exactly if it is in one place, its expiration has a proper
      reason and stands beside everything in trash, and what is or would be published is sound and inventoried. */
  lemma AcceptedIff(c: Cell, id: Id)
    ensures !Refuses(c, id) <==>
            && (c.record.Some? ==> 0 < |c.record.value.summary.reason| <= 4096)
            && (c.bundle.Some? ==>
                  var d := c.bundle.value;
                  && d.raw && d.derived && d.manifest.Some? && d.pin.Some? && Sound(d.manifest.value, id)
                  && !d.manifest.value.status.Staging? && !d.manifest.value.quarantined && Inventoried(d, d.manifest.value))
            && (c.staging.Some? ==> c.bundle.None? && c.record.None? && StagingSound(c.staging.value, id))
            && (c.trash.Some? ==> c.bundle.None? && c.staging.None? && c.record.Some?)
  {
    hide Sound, ManifestOk, Inventoried, Matches;
    if c.bundle.Some? && c.bundle.value.manifest.Some? {
      SoundIff(c.bundle.value.manifest.value, id);
      ReasonFits(c.bundle.value.manifest.value, id);
      if c.bundle.value.raw && c.bundle.value.derived { InventoriedIff(c.bundle.value, c.bundle.value.manifest.value); }
      MatchesOpen(c.bundle.value, c.bundle.value.manifest.value);
    }
    if c.staging.Some? && c.staging.value.manifest.Some? {
      var d := c.staging.value;
      SoundIff(d.manifest.value, id);
      ReasonFits(d.manifest.value, id);
      InventoriedIff(d.(raw := true, derived := true), d.manifest.value);
      SameInventory(d, d.manifest.value);
    }
  }

  lemma MatchesOpen(d: Dir, m: Manifest)
    ensures Matches(d, m) ==> d.raw && d.derived
  {
  }

  lemma SameInventory(d: Dir, m: Manifest)
    ensures Inventoried(d.(raw := true, derived := true), m) == Inventoried(d, m)
  {
  }

  lemma ReasonFits(m: Manifest, id: Id)
    ensures ManifestOk(m, id) ==> (ReasonOk(m.reason) <==> m.reason != "")
  {
  }
}
