/** What the artifact store keeps on disk, one identity at a time.

    An identity owns at most one directory in each of `staging`, `bundles` and `trash`, and at most
    one record in `expired`. A `Change` is one durable step: it either happened before a power loss
    or it did not. */
module ArtifactDisk {
  import opened Prelude

  /** A 128-bit identity. Identities print as fixed-length lower-case hexadecimal, so text order is numeric order. */
  type Id = nat

  const REASON_LIMIT := 4096
  const FILE_LIMIT := 4096
  const REQUIRED_LIMIT := 128

  datatype Status = Staging | Complete | Failed

  datatype Manifest = Manifest(
    id: Id, status: Status, created: nat, completed: Option<nat>, reason: string, quarantined: bool,
    provenance: nat, required: seq<string>, files: map<string, nat>)

  /** `fits` is the verdict of the recursive inventory on entries, depth, paths and file kinds; `stray`
      says that something lies outside raw/ and derived/; `temps` counts leftover metadata temporaries. */
  datatype Dir = Dir(
    raw: bool, derived: bool, stray: bool, fits: bool, files: map<string, nat>,
    manifest: Option<Manifest>, pin: Option<bool>, temps: nat)

  datatype Summary = Summary(created: nat, completed: nat, bytes: nat, reason: string)

  datatype Record = Record(summary: Summary, expiredAt: nat)

  /** `trash` holds the number of names that `remove_tree` has still to unlink below the directory. */
  datatype Cell = Cell(staging: Option<Dir>, bundle: Option<Dir>, record: Option<Record>, trash: Option<nat>)

  const EmptyCell := Cell(None, None, None, None)
  const NewDir := Dir(false, false, false, true, map[], None, None, 0)
  const RETAINED := "raw/recovery-manifest.json"

  datatype Change =
    | MakeStaging
    | MakeRaw
    | MakeDerived
    | WriteTemp(staged: bool)
    | CleanTemps(staged: bool)
    | InstallPin(staged: bool, pinned: bool)
    | InstallManifest(manifest: Manifest)
    | RetainManifest
    | RenamePublish
    | WriteRecordTemp
    | InstallRecord(record: Record)
    | RemoveRecord
    | RenameClaim
    | UnlinkTrash
    | RemoveTrashDir

  // ----- Validity of what is read back -----

  predicate Distinct(s: seq<string>) {
    forall i, j :: 0 <= i < j < |s| ==> s[i] != s[j]
  }

  predicate InputsOk(required: seq<string>) {
    |required| <= REQUIRED_LIMIT && Distinct(required)
  }

  predicate ReasonOk(reason: string) {
    reason != "" && |reason| <= REASON_LIMIT
  }

  predicate ManifestOk(m: Manifest, id: Id) {
    && m.id == id
    && (if m.status.Staging? then m.completed.None? else m.completed.Some? && m.created <= m.completed.value)
    && |m.reason| <= REASON_LIMIT
    && (m.status.Failed? ==> m.reason != "")
    && (m.status.Complete? ==> !m.quarantined)
    && InputsOk(m.required)
    && |m.files| <= FILE_LIMIT
  }

  predicate RequiredOk(required: seq<string>, files: map<string, nat>) {
    forall i :: 0 <= i < |required| ==> required[i] in files && files[required[i]] != 0
  }

  /** Walking raw/ and derived/ succeeds. */
  predicate InventoryOk(d: Dir) {
    d.raw && d.derived && d.fits && |d.files| <= FILE_LIMIT
  }

  /** The manifest describes a finished bundle: only the final rename may still be missing. */
  predicate Prepared(m: Manifest) {
    !m.status.Staging? && !m.quarantined
  }

  predicate Matches(d: Dir, m: Manifest) {
    && InventoryOk(d)
    && d.files == m.files
    && (m.status.Complete? ==> RequiredOk(m.required, d.files))
  }

  predicate RecordOk(r: Record) {
    ReasonOk(r.summary.reason)
  }

  predicate PublishedOk(d: Dir, id: Id) {
    && d.manifest.Some?
    && ManifestOk(d.manifest.value, id)
    && Prepared(d.manifest.value)
    && Matches(d, d.manifest.value)
    && d.pin.Some?
  }

  predicate StagedOk(d: Dir, id: Id) {
    d.manifest.Some? ==>
      && ManifestOk(d.manifest.value, id)
      && (d.manifest.value.quarantined ==> d.manifest.value.status.Failed?)
      && (Prepared(d.manifest.value) ==> Matches(d, d.manifest.value) && d.pin.Some?)
  }

  /** What a crash may leave behind for one identity: everything recovery needs to succeed. */
  predicate CellOk(c: Cell, id: Id) {
    && (c.staging.Some? ==> c.bundle.None? && c.trash.None? && c.record.None? && StagedOk(c.staging.value, id))
    && (c.bundle.Some? ==> c.trash.None? && PublishedOk(c.bundle.value, id))
    && (c.trash.Some? ==> c.record.Some?)
    && (c.record.Some? ==> RecordOk(c.record.value))
  }

  // ----- One durable step -----

  function Home(c: Cell, staged: bool): Option<Dir> {
    if staged then c.staging else c.bundle
  }

  function WithHome(c: Cell, staged: bool, d: Dir): Cell {
    if staged then c.(staging := Some(d)) else c.(bundle := Some(d))
  }

  /** Number of names below a bundle directory, raw/ and derived/ included. */
  function Names(d: Dir): nat {
    |d.files| + d.temps + (if d.raw then 1 else 0) + (if d.derived then 1 else 0) +
    (if d.manifest.Some? then 1 else 0) + (if d.pin.Some? then 1 else 0)
  }

  /** The file system accepts the step. */
  predicate Enabled(c: Cell, ch: Change) {
    match ch
    case MakeStaging => c.staging.None?
    case MakeRaw => c.staging.Some?
    case MakeDerived => c.staging.Some?
    case WriteTemp(staged) => Home(c, staged).Some?
    case CleanTemps(staged) => Home(c, staged).Some?
    case InstallPin(staged, _) => Home(c, staged).Some? && Home(c, staged).value.temps > 0
    case InstallManifest(_) => c.staging.Some? && c.staging.value.temps > 0
    case RetainManifest => c.staging.Some? && c.staging.value.raw && c.staging.value.manifest.Some?
    case RenamePublish => c.staging.Some? && c.bundle.None?
    case WriteRecordTemp => true
    case InstallRecord(_) => true
    case RemoveRecord => true
    case RenameClaim => c.bundle.Some? && c.trash.None?
    case UnlinkTrash => c.trash.Some? && c.trash.value > 0
    case RemoveTrashDir => c.trash == Some(0)
  }

  /** The effect of a step; a step the file system refuses changes nothing. */
  function Effect(c: Cell, ch: Change): Cell {
    if !Enabled(c, ch) then c else
      match ch
      case MakeStaging => c.(staging := Some(NewDir))
      case MakeRaw => c.(staging := Some(c.staging.value.(raw := true)))
      case MakeDerived => c.(staging := Some(c.staging.value.(derived := true)))
      case WriteTemp(staged) => var d := Home(c, staged).value; WithHome(c, staged, d.(temps := d.temps + 1))
      case CleanTemps(staged) => WithHome(c, staged, Home(c, staged).value.(temps := 0))
      case InstallPin(staged, pinned) =>
        var d := Home(c, staged).value; WithHome(c, staged, d.(pin := Some(pinned), temps := d.temps - 1))
      case InstallManifest(m) =>
        var d := c.staging.value; c.(staging := Some(d.(manifest := Some(m), temps := d.temps - 1)))
      case RetainManifest =>
        var d := c.staging.value; c.(staging := Some(d.(manifest := None, files := d.files[RETAINED := 1])))
      case RenamePublish => c.(staging := None, bundle := c.staging)
      case WriteRecordTemp => c
      case InstallRecord(r) => c.(record := Some(r))
      case RemoveRecord => c.(record := None)
      case RenameClaim => c.(bundle := None, trash := Some(Names(c.bundle.value)))
      case UnlinkTrash => c.(trash := Some(c.trash.value - 1))
      case RemoveTrashDir => c.(trash := None)
  }

  /** The cell after the first `k` steps of a plan: where a crash before step `k` leaves it. */
  ghost function After(c: Cell, plan: seq<Change>, k: nat): Cell
    requires k <= |plan|
  {
    if k == 0 then c else Effect(After(c, plan, k - 1), plan[k - 1])
  }

  /** The step keeps the cell recoverable when taken in this cell. */
  predicate Safe(c: Cell, id: Id, ch: Change) {
    && Enabled(c, ch)
    && match ch
       case MakeStaging => c == EmptyCell
       case InstallManifest(m) =>
         && ManifestOk(m, id)
         && (m.quarantined ==> m.status.Failed?)
         && (Prepared(m) ==> Matches(c.staging.value, m) && c.staging.value.pin.Some?)
       case RetainManifest => !ManifestOk(c.staging.value.manifest.value, id)
       case RenamePublish => c.staging.value.manifest.Some? && Prepared(c.staging.value.manifest.value)
       case InstallRecord(r) => RecordOk(r) && c.staging.None?
       case RemoveRecord => c.bundle.Some?
       case RenameClaim => c.record.Some?
       case _ => true
  }

  lemma SafeKeeps(c: Cell, id: Id, ch: Change)
    requires CellOk(c, id) && Safe(c, id, ch)
    ensures CellOk(Effect(c, ch), id)
  {
  }

  /** A plan all of whose steps are safe where they are taken can be cut anywhere. */
  lemma {:induction false} SafePlan(c: Cell, id: Id, plan: seq<Change>, k: nat)
    requires k <= |plan| && CellOk(c, id)
    requires forall i :: 0 <= i < |plan| ==> Safe(After(c, plan, i), id, plan[i])
    ensures CellOk(After(c, plan, k), id)
  {
    if k > 0 {
      SafePlan(c, id, plan, k - 1);
      SafeKeeps(After(c, plan, k - 1), id, plan[k - 1]);
    }
  }

  lemma {:induction false} AfterFirst(c: Cell, a: seq<Change>, b: seq<Change>, k: nat)
    requires k <= |a|
    ensures After(c, a + b, k) == After(c, a, k)
  {
    if k > 0 { AfterFirst(c, a, b, k - 1); }
  }

  lemma {:induction false} AfterSecond(c: Cell, a: seq<Change>, b: seq<Change>, k: nat)
    requires k <= |b|
    ensures After(c, a + b, |a| + k) == After(After(c, a, |a|), b, k)
  {
    if k > 0 { AfterSecond(c, a, b, k - 1); } else { AfterFirst(c, a, b, |a|); }
  }

  // ----- The four directories together -----

  datatype Disk = Disk(
    staging: map<Id, Dir>, bundles: map<Id, Dir>, expired: map<Id, Record>, trash: map<Id, nat>,
    expiredTemps: nat)

  const EmptyDisk := Disk(map[], map[], map[], map[], 0)

  function Get<V>(m: map<Id, V>, id: Id): Option<V> {
    if id in m then Some(m[id]) else None
  }

  function Set<V>(m: map<Id, V>, id: Id, v: Option<V>): map<Id, V> {
    if v.Some? then m[id := v.value] else m - {id}
  }

  lemma SetSame<V>(m: map<Id, V>, id: Id)
    ensures Set(m, id, Get(m, id)) == m
  {
  }

  lemma SetTwice<V>(m: map<Id, V>, id: Id, a: Option<V>, b: Option<V>)
    ensures Set(Set(m, id, a), id, b) == Set(m, id, b)
  {
  }

  function At(d: Disk, id: Id): Cell {
    Cell(Get(d.staging, id), Get(d.bundles, id), Get(d.expired, id), Get(d.trash, id))
  }

  function Put(d: Disk, id: Id, c: Cell): Disk {
    Disk(Set(d.staging, id, c.staging), Set(d.bundles, id, c.bundle), Set(d.expired, id, c.record),
         Set(d.trash, id, c.trash), d.expiredTemps)
  }

  lemma PutAt(d: Disk, id: Id, c: Cell)
    ensures forall i :: At(Put(d, id, c), i) == if i == id then c else At(d, i)
  {
  }

  lemma PutSame(d: Disk, id: Id)
    ensures Put(d, id, At(d, id)) == d
  {
    SetSame(d.staging, id);
    SetSame(d.bundles, id);
    SetSame(d.expired, id);
    SetSame(d.trash, id);
  }

  datatype Step = Step(id: Id, change: Change)

  /** Temporaries in `expired` belong to no identity; only their number is kept. */
  function Apply(d: Disk, s: Step): Disk {
    var r := Put(d, s.id, Effect(At(d, s.id), s.change));
    match s.change
    case WriteRecordTemp => r.(expiredTemps := d.expiredTemps + 1)
    case InstallRecord(_) => r.(expiredTemps := if d.expiredTemps > 0 then d.expiredTemps - 1 else 0)
    case _ => r
  }

  lemma ApplyAt(d: Disk, s: Step)
    ensures forall i :: At(Apply(d, s), i) == if i == s.id then Effect(At(d, s.id), s.change) else At(d, i)
  {
    PutAt(d, s.id, Effect(At(d, s.id), s.change));
  }

  ghost function DiskAfter(d: Disk, steps: seq<Step>, k: nat): Disk
    requires k <= |steps|
  {
    if k == 0 then d else Apply(DiskAfter(d, steps, k - 1), steps[k - 1])
  }

  function On(id: Id, plan: seq<Change>): (r: seq<Step>)
    ensures |r| == |plan| && forall i :: 0 <= i < |plan| ==> r[i] == Step(id, plan[i])
  {
    seq(|plan|, i requires 0 <= i < |plan| => Step(id, plan[i]))
  }

  /** A plan for one identity runs in that identity's cell and leaves every other cell alone. */
  lemma {:induction false} PlanAt(d: Disk, id: Id, plan: seq<Change>, k: nat)
    requires k <= |plan|
    ensures forall i :: At(DiskAfter(d, On(id, plan), k), i) == if i == id then After(At(d, id), plan, k) else At(d, i)
  {
    if k > 0 {
      PlanAt(d, id, plan, k - 1);
      ApplyAt(DiskAfter(d, On(id, plan), k - 1), On(id, plan)[k - 1]);
    }
  }
}
