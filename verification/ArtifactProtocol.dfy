/** The artifact store as a protocol: every locked section of the store, every step of an unlocked
    deletion, every write by an outside process, every power loss and every recovery is one event.
    A locked section may finish, fail with an I/O error after any number of its durable steps, or be
    cut by a power loss there. All of it is defined one identity at a time. */
module ArtifactProtocol {
  import opened Prelude
  import opened ArtifactDisk

  datatype Entry = Entry(manifest: Manifest, pinned: bool, staged: bool, leases: nat, writerActive: bool)

  /** What the store remembers of one identity: its rows in `entries`, `expirations` and `trash_usage`. */
  datatype Memo = Memo(entry: Option<Entry>, expiration: Option<Summary>, usage: Option<nat>)

  /** `leases` counts the live lease handles, `writer` says whether a writer handle is live. */
  datatype Local = Local(cell: Cell, memo: Memo, leases: nat, writer: bool)

  const UNCONFIRMED := "Writer closed without confirmed publication; owned-process cleanup must be verified"
  const INTERRUPTED := "Interrupted before publication; verify owned-process cleanup before releasing quarantine"
  const RECOVERY_PROVENANCE: nat := 0

  // ----- Manifests the store writes -----

  function Max(a: nat, b: nat): nat {
    if a < b then b else a
  }

  function InitialManifest(id: Id, created: nat, provenance: nat, required: seq<string>): Manifest {
    Manifest(id, Staging, created, None, "", false, provenance, required, map[])
  }

  function QuarantinedManifest(m: Manifest, reason: string, at: nat): Manifest {
    m.(quarantined := true, status := Failed, completed := Some(Max(at, m.created)), reason := reason)
  }

  function PublishedManifest(m: Manifest, success: bool, reason: string, at: nat, files: map<string, nat>): Manifest {
    m.(status := if success then Complete else Failed, quarantined := false,
       completed := Some(Max(at, m.created)), reason := reason, files := files)
  }

  // ----- Locked sections with durable steps -----

  datatype Op =
    | Begin(id: Id, created: nat, provenance: nat, required: seq<string>, pinned: bool)
    | UpdateProvenance(id: Id, provenance: nat)
    | Quarantine(id: Id, reason: string, at: nat)
    | SweepTemps(id: Id)
    | Publish(id: Id, success: bool, reason: string, at: nat)
    | Pin(id: Id, pinned: bool)
    | CloseWriter(id: Id, at: nat)
    | Claim(id: Id, record: Record)

  /** The deletion guard: what retention may take. */
  predicate Unprotected(e: Entry) {
    !e.staged && !e.pinned && e.leases == 0 && !e.writerActive
  }

  predicate Publishable(d: Dir, m: Manifest, success: bool, reason: string) {
    && (success ==> !m.quarantined && reason == "")
    && (!success ==> ReasonOk(reason))
    && !d.stray && InventoryOk(d)
    && (success ==> RequiredOk(m.required, d.files))
  }

  /** The checks of the locked section pass. */
  predicate Admits(l: Local, op: Op) {
    var e := l.memo.entry;
    match op
    case Begin(_, _, _, required, _) =>
      e.None? && l.memo.expiration.None? && l.cell.staging.None? && InputsOk(required)
    case UpdateProvenance(_, _) => l.writer && e.Some? && e.value.staged
    case Quarantine(_, reason, _) => l.writer && e.Some? && e.value.staged && ReasonOk(reason)
    case SweepTemps(_) => l.writer && e.Some? && e.value.staged && l.cell.staging.Some?
    case Publish(_, success, reason, _) =>
      l.writer && e.Some? && e.value.staged && l.cell.staging.Some? &&
      Publishable(l.cell.staging.value, e.value.manifest, success, reason)
    case Pin(_, pinned) => e.Some? && (pinned || !e.value.manifest.quarantined)
    case CloseWriter(_, _) => l.writer && e.Some?
    case Claim(_, record) =>
      e.Some? && Unprotected(e.value) && ReasonOk(record.summary.reason) &&
      record.summary.created == e.value.manifest.created && Some(record.summary.completed) == e.value.manifest.completed
  }

  function PinPlan(staged: bool, pinned: bool): seq<Change> {
    [WriteTemp(staged), InstallPin(staged, pinned)]
  }

  function QuarantinePlan(m: Manifest): seq<Change> {
    [WriteTemp(true), InstallPin(true, true), WriteTemp(true), InstallManifest(m)]
  }

  predicate ClosesIntoQuarantine(l: Local) {
    l.memo.entry.Some? && l.memo.entry.value.staged && !l.memo.entry.value.manifest.quarantined
  }

  /** The durable steps of the section, in order. */
  function Plan(l: Local, op: Op): seq<Change>
    requires Admits(l, op)
  {
    match op
    case Begin(id, created, provenance, required, pinned) =>
      [MakeStaging, MakeRaw, MakeDerived, WriteTemp(true), InstallPin(true, pinned), WriteTemp(true),
       InstallManifest(InitialManifest(id, created, provenance, required))]
    case UpdateProvenance(_, provenance) =>
      [WriteTemp(true), InstallManifest(l.memo.entry.value.manifest.(provenance := provenance))]
    case Quarantine(_, reason, at) => QuarantinePlan(QuarantinedManifest(l.memo.entry.value.manifest, reason, at))
    case SweepTemps(_) => [CleanTemps(true)]
    case Publish(_, success, reason, at) =>
      [WriteTemp(true),
       InstallManifest(PublishedManifest(l.memo.entry.value.manifest, success, reason, at, l.cell.staging.value.files)),
       RenamePublish]
    case Pin(_, pinned) => PinPlan(l.memo.entry.value.staged, pinned)
    case CloseWriter(_, at) =>
      if ClosesIntoQuarantine(l) then QuarantinePlan(QuarantinedManifest(l.memo.entry.value.manifest, UNCONFIRMED, at))
      else []
    case Claim(_, record) => [WriteRecordTemp, InstallRecord(record), RenameClaim]
  }

  function WithEntry(l: Local, e: Entry): Local {
    l.(memo := l.memo.(entry := Some(e)))
  }

  /** What memory holds once the section has run to its end. */
  function Finished(l: Local, op: Op): Local
    requires Admits(l, op)
  {
    match op
    case Begin(id, created, provenance, required, pinned) =>
      WithEntry(l, Entry(InitialManifest(id, created, provenance, required), pinned, true, 0, true)).(writer := true)
    case UpdateProvenance(_, provenance) =>
      var e := l.memo.entry.value; WithEntry(l, e.(manifest := e.manifest.(provenance := provenance)))
    case Quarantine(_, reason, at) =>
      var e := l.memo.entry.value;
      WithEntry(l, e.(pinned := true, manifest := QuarantinedManifest(e.manifest, reason, at)))
    case SweepTemps(_) => l
    case Publish(_, success, reason, at) =>
      var e := l.memo.entry.value;
      WithEntry(l, e.(staged := false,
                      manifest := PublishedManifest(e.manifest, success, reason, at, l.cell.staging.value.files)))
    case Pin(_, pinned) => WithEntry(l, l.memo.entry.value.(pinned := pinned))
    case CloseWriter(_, at) =>
      var e := l.memo.entry.value.(writerActive := false);
      WithEntry(l, if ClosesIntoQuarantine(l)
                   then e.(pinned := true, manifest := QuarantinedManifest(e.manifest, UNCONFIRMED, at))
                   else e).(writer := false)
    case Claim(_, record) => l.(memo := Memo(None, Some(record.summary), Some(record.summary.bytes)))
  }

  /** What memory holds when an I/O error strikes after `k` durable steps; `k == |plan|` is a failed final sync. */
  function Broken(l: Local, op: Op, k: nat): Local
    requires Admits(l, op)
  {
    match op
    case Begin(id, created, provenance, required, pinned) =>
      if k == 0 then l
      else WithEntry(l, Entry(InitialManifest(id, created, provenance, required), pinned, true, 0, false))
    case UpdateProvenance(_, _) => l
    case Quarantine(_, _, _) => Finished(l, op)
    case SweepTemps(_) => l
    case Publish(_, _, _, _) => if k == |Plan(l, op)| then Finished(l, op) else l
    case Pin(_, _) => WithEntry(l, l.memo.entry.value.(pinned := true))
    case CloseWriter(_, _) => Finished(l, op)
    case Claim(_, _) => if k == |Plan(l, op)| then Finished(l, op) else l
  }

  // ----- Events without a durable plan of their own -----

  datatype Touch =
    | Strand                     // a new attempt's directory that could not be opened: it never gets a row
    | Resume
    | TakeLease
    | ReleaseLease
    | DropWriter                 // a closing writer whose clock read failed: the error is swallowed
    | WithdrawRecord             // the record of a claim whose rename failed
    | DeleteStep                 // one unlink of an unlocked deletion
    | ForgetTrash
    | OutsideWrite(files: map<string, nat>, fits: bool, stray: bool)

  predicate Allows(l: Local, t: Touch) {
    var e := l.memo.entry;
    match t
    case Strand => e.None? && l.memo.expiration.None? && l.cell.staging.None?
    case Resume => e.Some? && e.value.staged && e.value.manifest.quarantined && !e.value.writerActive
    case TakeLease => e.Some? && !e.value.staged
    case ReleaseLease => l.leases > 0
    case DropWriter => l.writer
    case WithdrawRecord => e.Some? && !e.value.staged
    case DeleteStep => l.cell.trash.Some?
    case ForgetTrash => l.memo.usage.Some? && l.cell.trash.None?
    // Writers leave the files alone once a publication has installed its manifest.
    case OutsideWrite(_, _, _) =>
      l.cell.staging.Some? &&
      (l.cell.staging.value.manifest.Some? ==> !Prepared(l.cell.staging.value.manifest.value))
  }

  function Touched(l: Local, t: Touch): Local
    requires Allows(l, t)
  {
    match t
    case Strand => l.(cell := l.cell.(staging := Some(NewDir)))
    case Resume => WithEntry(l, l.memo.entry.value.(writerActive := true)).(writer := true)
    case TakeLease => WithEntry(l, l.memo.entry.value.(leases := l.memo.entry.value.leases + 1)).(leases := l.leases + 1)
    case ReleaseLease =>
      var r := l.(leases := l.leases - 1);
      if l.memo.entry.Some? && l.memo.entry.value.leases > 0
      then WithEntry(r, l.memo.entry.value.(leases := l.memo.entry.value.leases - 1)) else r
    case DropWriter => l.(writer := false)
    case WithdrawRecord => l.(cell := Effect(l.cell, RemoveRecord))
    case DeleteStep => l.(cell := Effect(l.cell, if l.cell.trash.value > 0 then UnlinkTrash else RemoveTrashDir))
    case ForgetTrash => l.(memo := l.memo.(usage := None))
    case OutsideWrite(files, fits, stray) =>
      l.(cell := l.cell.(staging := Some(l.cell.staging.value.(files := files, fits := fits, stray := stray))))
  }

  // ----- The invariant of one identity -----

  ghost predicate EntryOk(e: Entry, c: Cell, id: Id) {
    && ManifestOk(e.manifest, id)
    && (if e.staged then c.staging.Some? else c.bundle.Some?)
    && (e.staged ==>
          && e.leases == 0
          && (e.manifest.quarantined ==> e.pinned && e.manifest.status.Failed?)
          && (!e.manifest.quarantined ==> e.manifest.status.Staging?)
          && (e.writerActive || e.manifest.quarantined ==>
                c.staging.value.raw && c.staging.value.derived && c.staging.value.pin.Some? &&
                c.staging.value.manifest.Some?))
    && (!e.staged ==> Some(e.manifest) == c.bundle.value.manifest)
    && (Home(c, e.staged).value.pin == Some(true) ==> e.pinned)
  }

  ghost predicate LinkOk(l: Local, id: Id) {
    var e, c := l.memo.entry, l.cell;
    && (e.Some? ==> EntryOk(e.value, c, id) && e.value.leases == l.leases && l.memo.expiration.None?)
    && (e.None? ==> c.bundle.None? && l.leases == 0 && !l.writer)
    && (c.staging.Some? && e.None? ==> c.staging.value.manifest.None?)
    && (l.writer ==> e.Some? && e.value.writerActive)
    && (l.memo.expiration.Some? ==> c.record.Some?)
    && (c.record.Some? && e.None? ==> l.memo.expiration.Some?)
    && (c.trash.Some? ==> l.memo.usage.Some?)
    && (l.memo.usage.Some? ==> l.memo.expiration.Some?)
  }

  ghost predicate LocalOk(l: Local, id: Id) {
    CellOk(l.cell, id) && LinkOk(l, id)
  }

  // ----- Each event keeps it -----

  lemma BeginSafe(l: Local, op: Op, i: nat)
    requires op.Begin? && Admits(l, op) && LocalOk(l, op.id) && i < |Plan(l, op)|
    ensures Safe(After(l.cell, Plan(l, op), i), op.id, Plan(l, op)[i])
  {
    var p, c := Plan(l, op), l.cell;
    assert After(c, p, 1) == EmptyCell.(staging := Some(NewDir));
    var d2 := NewDir.(raw := true);
    assert After(c, p, 2) == EmptyCell.(staging := Some(d2));
    var d3 := d2.(derived := true);
    assert After(c, p, 3) == EmptyCell.(staging := Some(d3));
    assert After(c, p, 4) == EmptyCell.(staging := Some(d3.(temps := 1)));
    var d5 := d3.(pin := Some(op.pinned));
    assert After(c, p, 5) == EmptyCell.(staging := Some(d5));
    assert After(c, p, 6) == EmptyCell.(staging := Some(d5.(temps := 1)));
  }

  lemma QuarantineSafe(c: Cell, id: Id, m: Manifest, i: nat)
    requires c.staging.Some? && ManifestOk(m, id) && m.status.Failed? && m.quarantined && i < 4
    ensures Safe(After(c, QuarantinePlan(m), i), id, QuarantinePlan(m)[i])
  {
    hide ManifestOk, Matches;
    var p := QuarantinePlan(m);
    var d := c.staging.value;
    assert After(c, p, 1) == c.(staging := Some(d.(temps := d.temps + 1)));
    assert After(c, p, 2) == c.(staging := Some(d.(pin := Some(true))));
    assert After(c, p, 3) == c.(staging := Some(d.(pin := Some(true), temps := d.temps + 1)));
  }

  lemma PublishSafe(l: Local, op: Op, i: nat)
    requires op.Publish? && Admits(l, op) && LocalOk(l, op.id) && i < 3
    ensures Safe(After(l.cell, Plan(l, op), i), op.id, Plan(l, op)[i])
  {
    var p, c := Plan(l, op), l.cell;
    var d := c.staging.value;
    assert After(c, p, 1) == c.(staging := Some(d.(temps := d.temps + 1)));
    assert After(c, p, 2) == c.(staging := Some(d.(manifest := Some(p[1].manifest))));
  }

  lemma SmallPlanSafe(l: Local, op: Op, i: nat)
    requires op.UpdateProvenance? || op.SweepTemps? || op.Pin? || op.Claim?
    requires Admits(l, op) && LocalOk(l, op.id) && i < |Plan(l, op)|
    ensures Safe(After(l.cell, Plan(l, op), i), op.id, Plan(l, op)[i])
  {
    var p, c := Plan(l, op), l.cell;
    assert After(c, p, 0) == c;
    assert i >= 1 ==> After(c, p, 1) == Effect(c, p[0]);
    assert i >= 2 ==> After(c, p, 2) == Effect(Effect(c, p[0]), p[1]);
  }

  /** Every durable step is accepted by the file system and keeps the cell recoverable. */
  lemma PlanIsSafe(l: Local, op: Op, i: nat)
    requires Admits(l, op) && LocalOk(l, op.id) && i < |Plan(l, op)|
    ensures Safe(After(l.cell, Plan(l, op), i), op.id, Plan(l, op)[i])
  {
    match op
    case Begin(_, _, _, _, _) => BeginSafe(l, op, i);
    case Quarantine(id, reason, at) =>
      QuarantineSafe(l.cell, id, QuarantinedManifest(l.memo.entry.value.manifest, reason, at), i);
    case CloseWriter(id, at) =>
      QuarantineSafe(l.cell, id, QuarantinedManifest(l.memo.entry.value.manifest, UNCONFIRMED, at), i);
    case Publish(_, _, _, _) => PublishSafe(l, op, i);
    case _ => SmallPlanSafe(l, op, i);
  }

  /** A power loss or an I/O error anywhere in a locked section leaves a recoverable cell. */
  lemma CutKeeps(l: Local, op: Op, k: nat)
    requires Admits(l, op) && LocalOk(l, op.id) && k <= |Plan(l, op)|
    ensures CellOk(After(l.cell, Plan(l, op), k), op.id)
  {
    forall i | 0 <= i < |Plan(l, op)| ensures Safe(After(l.cell, Plan(l, op), i), op.id, Plan(l, op)[i]) {
      PlanIsSafe(l, op, i);
    }
    SafePlan(l.cell, op.id, Plan(l, op), k);
  }

  ghost function DoneLocal(l: Local, op: Op): Local
    requires Admits(l, op)
  {
    Finished(l, op).(cell := After(l.cell, Plan(l, op), |Plan(l, op)|))
  }

  ghost function FailedLocal(l: Local, op: Op, k: nat): Local
    requires Admits(l, op) && k <= |Plan(l, op)|
  {
    Broken(l, op, k).(cell := After(l.cell, Plan(l, op), k))
  }

  lemma BeginResult(l: Local, op: Op, k: nat)
    requires op.Begin? && Admits(l, op) && LocalOk(l, op.id) && 0 < k <= |Plan(l, op)|
    ensures After(l.cell, Plan(l, op), k).(staging := None) == EmptyCell
    ensures After(l.cell, Plan(l, op), k).staging.Some?
    ensures After(l.cell, Plan(l, op), k).staging.value.pin == Some(true) ==> op.pinned
    ensures k == |Plan(l, op)| ==>
              var d := After(l.cell, Plan(l, op), k).staging.value;
              d.raw && d.derived && d.pin.Some? && d.manifest.Some?
  {
    var p, c := Plan(l, op), l.cell;
    assert After(c, p, 1) == EmptyCell.(staging := Some(NewDir));
    assert After(c, p, 2).staging.value.raw;
    assert After(c, p, 3).staging.value.derived;
    assert After(c, p, 4).staging.value.derived;
    assert After(c, p, 5).staging.value.pin.Some?;
    assert After(c, p, 6).staging.value.pin.Some?;
  }

  lemma QuarantineResult(c: Cell, m: Manifest, k: nat)
    requires c.staging.Some? && k <= 4
    ensures var r := After(c, QuarantinePlan(m), k);
            && r.staging.Some? && r.(staging := c.staging) == c
            && (c.staging.value.raw ==> r.staging.value.raw) && (c.staging.value.derived ==> r.staging.value.derived)
            && (c.staging.value.pin.Some? ==> r.staging.value.pin.Some?)
            && (c.staging.value.manifest.Some? ==> r.staging.value.manifest.Some?)
            && (k == 4 ==> r.staging.value.manifest == Some(m) && r.staging.value.pin == Some(true))
  {
    var p := QuarantinePlan(m);
    var d := c.staging.value;
    assert After(c, p, 1) == c.(staging := Some(d.(temps := d.temps + 1)));
    assert After(c, p, 2) == c.(staging := Some(d.(pin := Some(true))));
    assert After(c, p, 3) == c.(staging := Some(d.(pin := Some(true), temps := d.temps + 1)));
  }

  lemma PublishResult(l: Local, op: Op, k: nat)
    requires op.Publish? && Admits(l, op) && LocalOk(l, op.id) && k <= 3
    ensures var d, m := l.cell.staging.value, Plan(l, op)[1].manifest;
            After(l.cell, Plan(l, op), k) ==
            (if k == 0 then l.cell
             else if k == 1 then l.cell.(staging := Some(d.(temps := d.temps + 1)))
             else if k == 2 then l.cell.(staging := Some(d.(manifest := Some(m))))
             else l.cell.(staging := None, bundle := Some(d.(manifest := Some(m)))))
  {
    var p, c := Plan(l, op), l.cell;
    var d := c.staging.value;
    assert k >= 1 ==> After(c, p, 1) == c.(staging := Some(d.(temps := d.temps + 1)));
    assert k >= 2 ==> After(c, p, 2) == c.(staging := Some(d.(manifest := Some(p[1].manifest))));
  }

  lemma PinResult(c: Cell, staged: bool, pinned: bool, k: nat)
    requires Home(c, staged).Some? && k <= 2
    ensures var d := Home(c, staged).value;
            After(c, PinPlan(staged, pinned), k) ==
            (if k == 0 then c else if k == 1 then WithHome(c, staged, d.(temps := d.temps + 1))
             else WithHome(c, staged, d.(pin := Some(pinned))))
  {
    assert k >= 1 ==> After(c, PinPlan(staged, pinned), 1) == Effect(c, WriteTemp(staged));
  }

  lemma ProvenanceResult(l: Local, op: Op, k: nat)
    requires op.UpdateProvenance? && Admits(l, op) && LocalOk(l, op.id) && k <= 2
    ensures var d := l.cell.staging.value;
            After(l.cell, Plan(l, op), k) == l.cell.(staging := Some(
            if k == 0 then d else if k == 1 then d.(temps := d.temps + 1)
            else d.(manifest := Some(Plan(l, op)[1].manifest))))
  {
    var p, c := Plan(l, op), l.cell;
    assert k >= 1 ==> After(c, p, 1) == Effect(c, p[0]);
  }

  lemma ClaimResult(l: Local, op: Op, k: nat)
    requires op.Claim? && Admits(l, op) && LocalOk(l, op.id) && k <= 3
    ensures var r := l.cell.(record := Some(op.record));
            After(l.cell, Plan(l, op), k) ==
            (if k <= 1 then l.cell else if k == 2 then r
             else r.(bundle := None, trash := Some(Names(l.cell.bundle.value))))
  {
    hide ManifestOk, CellOk;
    var p, c := Plan(l, op), l.cell;
    assert k >= 1 ==> After(c, p, 1) == Effect(c, p[0]);
    assert k >= 2 ==> After(c, p, 2) == Effect(c, p[1]);
  }

  ghost predicate Keeps(l: Local, op: Op, k: nat)
    requires Admits(l, op) && k <= |Plan(l, op)|
  {
    LocalOk(FailedLocal(l, op, k), op.id) && (k == |Plan(l, op)| ==> LocalOk(DoneLocal(l, op), op.id))
  }

  lemma BeginKeeps(l: Local, op: Op, k: nat)
    requires op.Begin? && Admits(l, op) && LocalOk(l, op.id) && k <= |Plan(l, op)|
    ensures Keeps(l, op, k)
  {
    CutKeeps(l, op, k);
    if k > 0 { BeginResult(l, op, k); }
  }

  lemma QuarantineKeeps(l: Local, op: Op, k: nat)
    requires op.Quarantine? || op.CloseWriter?
    requires Admits(l, op) && LocalOk(l, op.id) && k <= |Plan(l, op)|
    ensures Keeps(l, op, k)
  {
    CutKeeps(l, op, k);
    if op.Quarantine? {
      QuarantineResult(l.cell, QuarantinedManifest(l.memo.entry.value.manifest, op.reason, op.at), k);
    } else if ClosesIntoQuarantine(l) {
      QuarantineResult(l.cell, QuarantinedManifest(l.memo.entry.value.manifest, UNCONFIRMED, op.at), k);
    }
  }

  lemma PublishKeeps(l: Local, op: Op, k: nat)
    requires op.Publish? && Admits(l, op) && LocalOk(l, op.id) && k <= |Plan(l, op)|
    ensures Keeps(l, op, k)
  {
    CutKeeps(l, op, k);
    PublishResult(l, op, k);
  }

  lemma ProvenanceKeeps(l: Local, op: Op, k: nat)
    requires op.UpdateProvenance? && Admits(l, op) && LocalOk(l, op.id) && k <= |Plan(l, op)|
    ensures Keeps(l, op, k)
  {
    CutKeeps(l, op, k);
    ProvenanceResult(l, op, k);
  }

  lemma PinKeeps(l: Local, op: Op, k: nat)
    requires op.Pin? && Admits(l, op) && LocalOk(l, op.id) && k <= |Plan(l, op)|
    ensures Keeps(l, op, k)
  {
    hide After;
    CutKeeps(l, op, k);
    PinResult(l.cell, l.memo.entry.value.staged, op.pinned, k);
  }

  lemma ClaimKeeps(l: Local, op: Op, k: nat)
    requires op.Claim? && Admits(l, op) && LocalOk(l, op.id) && k <= |Plan(l, op)|
    ensures Keeps(l, op, k)
  {
    CutKeeps(l, op, k);
    ClaimResult(l, op, k);
  }

  lemma SweepKeeps(l: Local, op: Op, k: nat)
    requires op.SweepTemps? && Admits(l, op) && LocalOk(l, op.id) && k <= |Plan(l, op)|
    ensures Keeps(l, op, k)
  {
    CutKeeps(l, op, k);
    assert k == 1 ==> After(l.cell, Plan(l, op), 1) == Effect(l.cell, CleanTemps(true));
  }

  /** A locked section that finishes, or fails with an I/O error after any of its durable steps, keeps the invariant. */
  lemma OpKeeps(l: Local, op: Op, k: nat)
    requires Admits(l, op) && LocalOk(l, op.id) && k <= |Plan(l, op)|
    ensures LocalOk(FailedLocal(l, op, k), op.id)
    ensures k == |Plan(l, op)| ==> LocalOk(DoneLocal(l, op), op.id)
  {
    match op
    case Begin(_, _, _, _, _) => BeginKeeps(l, op, k);
    case Quarantine(_, _, _) => QuarantineKeeps(l, op, k);
    case CloseWriter(_, _) => QuarantineKeeps(l, op, k);
    case Publish(_, _, _, _) => PublishKeeps(l, op, k);
    case UpdateProvenance(_, _) => ProvenanceKeeps(l, op, k);
    case Pin(_, _) => PinKeeps(l, op, k);
    case Claim(_, _) => ClaimKeeps(l, op, k);
    case SweepTemps(_) => SweepKeeps(l, op, k);
  }

  lemma TouchKeeps(l: Local, t: Touch, id: Id)
    requires Allows(l, t) && LocalOk(l, id)
    ensures LocalOk(Touched(l, t), id)
  {
  }
}
