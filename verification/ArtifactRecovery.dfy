/** Opening a store after a crash: what recovery refuses, what it does on disk and what it remembers. */
module ArtifactRecovery {
  import opened Prelude
  import opened ArtifactDisk
  import opened ArtifactProtocol

  predicate HasValidManifest(d: Dir, id: Id) {
    d.manifest.Some? && ManifestOk(d.manifest.value, id)
  }

  predicate FinishesPublication(d: Dir, id: Id) {
    HasValidManifest(d, id) && Prepared(d.manifest.value)
  }

  predicate BadRecord(c: Cell) {
    c.record.Some? && !RecordOk(c.record.value)
  }

  predicate BadBundle(c: Cell, id: Id) {
    c.bundle.Some? && !PublishedOk(c.bundle.value, id)
  }

  predicate BadStaging(c: Cell, id: Id) {
    && c.staging.Some?
    && (|| c.bundle.Some? || c.record.Some?
        || (FinishesPublication(c.staging.value, id) &&
            !(c.staging.value.pin.Some? &&
              Matches(c.staging.value.(raw := true, derived := true), c.staging.value.manifest.value)))
        || (HasValidManifest(c.staging.value, id) && c.staging.value.manifest.value.quarantined &&
            !ReasonOk(c.staging.value.manifest.value.reason)))
  }

  predicate BadTrash(c: Cell) {
    c.trash.Some? && (c.bundle.Some? || c.staging.Some? || c.record.None?)
  }

  /** Recovery stops with an error on this identity. */
  predicate Refuses(c: Cell, id: Id) {
    BadRecord(c) || BadBundle(c, id) || BadStaging(c, id) || BadTrash(c)
  }

  /** A deletion that fails: how many names it still removed, and what was charged for the directory before. */
  datatype Remnant = Remnant(gone: nat, bytes: nat)

  /** What the environment answers while a store is opened: the time, and which deletions of trash fail. Such an
      error is swallowed; the rest of the directory stays charged for a later retry. */
  datatype How = How(now: nat, stuck: map<Id, Remnant>)

  /** The manifest an unfinished attempt is quarantined under. */
  function Requarantined(d: Dir, id: Id, how: How): Manifest {
    if HasValidManifest(d, id) then
      QuarantinedManifest(d.manifest.value,
                          if d.manifest.value.quarantined then d.manifest.value.reason else INTERRUPTED, how.now)
    else
      QuarantinedManifest(InitialManifest(id, how.now, RECOVERY_PROVENANCE, []), INTERRUPTED, how.now)
  }

  function StagedPlan(d: Dir, id: Id, how: How): seq<Change> {
    if FinishesPublication(d, id) then [CleanTemps(true), MakeRaw, MakeDerived, RenamePublish]
    else if d.manifest.Some? && !HasValidManifest(d, id) then
      [CleanTemps(true), MakeRaw, MakeDerived, RetainManifest] + QuarantinePlan(Requarantined(d, id, how))
    else
      OpenPlan + QuarantinePlan(Requarantined(d, id, how))
  }

  function TrashPlan(names: nat, stuck: Option<Remnant>): seq<Change> {
    if stuck.Some? then seq(if stuck.value.gone < names then stuck.value.gone else names, i => UnlinkTrash)
    else seq(names, i => UnlinkTrash) + [RemoveTrashDir]
  }

  /** The durable steps recovery takes for one identity. */
  function RecoveryPlan(c: Cell, id: Id, how: How): seq<Change> {
    if c.bundle.Some? then (if c.record.Some? then [CleanTemps(false), RemoveRecord] else [CleanTemps(false)])
    else if c.staging.Some? then StagedPlan(c.staging.value, id, how)
    else if c.trash.Some? then TrashPlan(c.trash.value, Get(how.stuck, id))
    else []
  }

  /** The rows recovery builds for one identity. */
  function RecoveredMemo(c: Cell, id: Id, how: How): Memo {
    if c.bundle.Some? && PublishedOk(c.bundle.value, id) then
      Memo(Some(Entry(c.bundle.value.manifest.value, c.bundle.value.pin.value, false, 0, false)), None, None)
    else if c.staging.Some? then
      if FinishesPublication(c.staging.value, id) && c.staging.value.pin.Some? then
        Memo(Some(Entry(c.staging.value.manifest.value, c.staging.value.pin.value, false, 0, false)), None, None)
      else Memo(Some(Entry(Requarantined(c.staging.value, id, how), true, true, 0, false)), None, None)
    else if c.record.Some? then
      Memo(None, Some(c.record.value.summary), if c.trash.Some? && id in how.stuck then Some(how.stuck[id].bytes) else None)
    else Memo(None, None, None)
  }

  ghost function RecoveredCell(c: Cell, id: Id, how: How): Cell {
    After(c, RecoveryPlan(c, id, how), |RecoveryPlan(c, id, how)|)
  }

  /** Nothing a crash leaves behind is refused. */
  lemma NeverRefuses(c: Cell, id: Id)
    requires CellOk(c, id)
    ensures !Refuses(c, id)
  {
    if c.staging.Some? && FinishesPublication(c.staging.value, id) {
      assert c.staging.value.(raw := true, derived := true) == c.staging.value;
    }
  }

  // ----- What the plan does to a recoverable cell -----

  lemma BundleRecovery(c: Cell, id: Id, how: How, k: nat)
    requires CellOk(c, id) && c.bundle.Some? && k <= |RecoveryPlan(c, id, how)|
    ensures After(c, RecoveryPlan(c, id, how), k) ==
            (if k == 0 then c
             else c.(bundle := Some(c.bundle.value.(temps := 0)), record := if k == 1 then c.record else None))
  {
    assert k >= 1 ==> After(c, RecoveryPlan(c, id, how), 1) == Effect(c, CleanTemps(false));
  }

  lemma PublishRecovery(c: Cell, id: Id, how: How, k: nat)
    requires CellOk(c, id) && c.staging.Some? && FinishesPublication(c.staging.value, id) && k <= 4
    ensures var d := c.staging.value;
            After(c, RecoveryPlan(c, id, how), k) ==
            (if k == 0 then c else if k < 4 then c.(staging := Some(d.(temps := 0)))
             else c.(staging := None, bundle := Some(d.(temps := 0))))
  {
    var p, d := RecoveryPlan(c, id, how), c.staging.value;
    assert k >= 1 ==> After(c, p, 1) == c.(staging := Some(d.(temps := 0)));
    assert k >= 2 ==> After(c, p, 2) == c.(staging := Some(d.(temps := 0)));
    assert k >= 3 ==> After(c, p, 3) == c.(staging := Some(d.(temps := 0)));
  }

  const OpenPlan: seq<Change> := [CleanTemps(true), MakeRaw, MakeDerived]

  lemma OpenRecovery(c: Cell, k: nat)
    requires c.staging.Some? && k <= 3
    ensures var d := c.staging.value.(temps := 0);
            After(c, OpenPlan, k) == c.(staging := Some(
            if k == 0 then c.staging.value else if k == 1 then d
            else if k == 2 then d.(raw := true) else d.(raw := true, derived := true)))
  {
    assert k >= 1 ==> After(c, OpenPlan, 1) == Effect(c, CleanTemps(true));
    assert k >= 2 ==> After(c, OpenPlan, 2) == Effect(After(c, OpenPlan, 1), MakeRaw);
  }

  lemma QuarantineRecovery(c: Cell, id: Id, how: How, k: nat)
    requires CellOk(c, id) && c.staging.Some? && !FinishesPublication(c.staging.value, id)
    requires k <= |RecoveryPlan(c, id, how)|
    ensures |RecoveryPlan(c, id, how)| == 7
    ensures var r := After(c, RecoveryPlan(c, id, how), k);
            && CellOk(r, id)
            && (k == 7 ==>
                  && r.staging.Some? && r.(staging := c.staging) == c
                  && r.staging.value.raw && r.staging.value.derived && r.staging.value.pin == Some(true)
                  && r.staging.value.manifest == Some(Requarantined(c.staging.value, id, how)))
  {
    hide Effect, Enabled;
    var d, m := c.staging.value, Requarantined(c.staging.value, id, how);
    var ready := c.(staging := Some(d.(temps := 0, raw := true, derived := true)));
    OpenRecovery(c, 3);
    if k <= 3 {
      AfterFirst(c, OpenPlan, QuarantinePlan(m), k);
      OpenRecovery(c, k);
    } else {
      AfterSecond(c, OpenPlan, QuarantinePlan(m), k - 3);
      QuarantineResult(ready, m, k - 3);
      forall i | 0 <= i < 4 ensures Safe(After(ready, QuarantinePlan(m), i), id, QuarantinePlan(m)[i]) {
        QuarantineSafe(ready, id, m, i);
      }
      SafePlan(ready, id, QuarantinePlan(m), k - 3);
    }
  }

  lemma {:induction false} TrashRecovery(c: Cell, names: nat, stuck: Option<Remnant>, k: nat)
    requires c.trash == Some(names) && k <= |TrashPlan(names, stuck)|
    ensures After(c, TrashPlan(names, stuck), k) ==
            (if k <= names then c.(trash := Some(names - k)) else c.(trash := None))
  {
    if k > 0 { TrashRecovery(c, names, stuck, k - 1); }
  }

  /** A crash inside recovery is again recoverable. */
  lemma RecoveryCut(c: Cell, id: Id, how: How, k: nat)
    requires CellOk(c, id) && k <= |RecoveryPlan(c, id, how)|
    ensures CellOk(After(c, RecoveryPlan(c, id, how), k), id)
  {
    if c.bundle.Some? {
      BundleRecovery(c, id, how, k);
    } else if c.staging.Some? {
      if FinishesPublication(c.staging.value, id) { PublishRecovery(c, id, how, k); }
      else { QuarantineRecovery(c, id, how, k); }
    } else if c.trash.Some? {
      TrashRecovery(c, c.trash.value, Get(how.stuck, id), k);
    }
  }

  /** Where recovery leaves an identity: published, quarantined and protected in staging, expired, or unknown. */
  ghost predicate Classified(l: Local) {
    var e := l.memo.entry;
    || (&& e.Some? && !e.value.staged && l.memo.expiration.None?
        && l.cell.bundle.Some? && l.cell.staging.None? && l.cell.record.None? && l.cell.trash.None?
        && Some(e.value.manifest) == l.cell.bundle.value.manifest && l.cell.bundle.value.pin == Some(e.value.pinned))
    || (&& e.Some? && e.value.staged && e.value.pinned && e.value.manifest.quarantined
        && e.value.manifest.status.Failed? && l.memo.expiration.None?
        && l.cell.staging.Some? && l.cell.bundle.None? && l.cell.record.None? && l.cell.trash.None?
        && Some(e.value.manifest) == l.cell.staging.value.manifest && l.cell.staging.value.pin == Some(true))
    || (&& e.None? && l.memo.expiration.Some?
        && l.cell.staging.None? && l.cell.bundle.None? && l.cell.record.Some?
        && l.cell.record.value.summary == l.memo.expiration.value && (l.cell.trash.Some? <==> l.memo.usage.Some?))
    || (e.None? && l.memo.expiration.None? && l.cell == EmptyCell)
  }

  ghost function RecoveredLocal(c: Cell, id: Id, how: How): Local {
    Local(RecoveredCell(c, id, how), RecoveredMemo(c, id, how), 0, false)
  }

  lemma RecoveryKeeps(c: Cell, id: Id, how: How)
    requires CellOk(c, id)
    ensures LocalOk(RecoveredLocal(c, id, how), id)
    ensures Classified(RecoveredLocal(c, id, how))
  {
    var n := |RecoveryPlan(c, id, how)|;
    RecoveryCut(c, id, how, n);
    if c.bundle.Some? {
      BundleRecovery(c, id, how, n);
    } else if c.staging.Some? {
      if FinishesPublication(c.staging.value, id) { PublishRecovery(c, id, how, n); }
      else { QuarantineRecovery(c, id, how, n); }
    } else if c.trash.Some? {
      TrashRecovery(c, c.trash.value, Get(how.stuck, id), n);
    }
  }

  // ----- All identities together -----

  /** How many steps of its plan each identity has seen; `All` once recovery has run to its end. */
  datatype Progress = All | Part(done: map<Id, nat>)

  ghost function PartCell(c: Cell, id: Id, how: How, p: Progress): Cell {
    var plan := RecoveryPlan(c, id, how);
    After(c, plan, if p.All? then |plan| else if id in p.done && p.done[id] <= |plan| then p.done[id] else 0)
  }

  function KnownIds(d: Disk): set<Id> {
    d.staging.Keys + d.bundles.Keys + d.expired.Keys + d.trash.Keys
  }

  /** The disk once every identity has advanced that far along its own plan. */
  ghost function RecoveredDisk(d: Disk, how: How, p: Progress): Disk {
    Disk(map id | id in KnownIds(d) && PartCell(At(d, id), id, how, p).staging.Some? :: PartCell(At(d, id), id, how, p).staging.value,
         map id | id in KnownIds(d) && PartCell(At(d, id), id, how, p).bundle.Some? :: PartCell(At(d, id), id, how, p).bundle.value,
         map id | id in KnownIds(d) && PartCell(At(d, id), id, how, p).record.Some? :: PartCell(At(d, id), id, how, p).record.value,
         map id | id in KnownIds(d) && PartCell(At(d, id), id, how, p).trash.Some? :: PartCell(At(d, id), id, how, p).trash.value,
         0)
  }

  lemma RecoveredDiskAt(d: Disk, how: How, p: Progress, id: Id)
    ensures At(RecoveredDisk(d, how, p), id) == PartCell(At(d, id), id, how, p)
  {
    if id !in KnownIds(d) {
      assert At(d, id) == EmptyCell && RecoveryPlan(EmptyCell, id, how) == [];
      assert PartCell(EmptyCell, id, how, p) == EmptyCell;
    }
  }

  lemma SameDisk(a: Disk, b: Disk)
    requires (forall id :: At(a, id) == At(b, id)) && a.expiredTemps == b.expiredTemps
    ensures a == b
  {
    forall id ensures Get(a.staging, id) == Get(b.staging, id) { assert At(a, id) == At(b, id); }
    forall id ensures Get(a.bundles, id) == Get(b.bundles, id) { assert At(a, id) == At(b, id); }
    forall id ensures Get(a.expired, id) == Get(b.expired, id) { assert At(a, id) == At(b, id); }
    forall id ensures Get(a.trash, id) == Get(b.trash, id) { assert At(a, id) == At(b, id); }
    SameMap(a.staging, b.staging);
    SameMap(a.bundles, b.bundles);
    SameMap(a.expired, b.expired);
    SameMap(a.trash, b.trash);
  }

  lemma SameMap<V>(a: map<Id, V>, b: map<Id, V>)
    requires forall id :: Get(a, id) == Get(b, id)
    ensures a == b
  {
    forall id ensures id in a <==> id in b { assert Get(a, id) == Get(b, id); }
    forall id | id in a ensures a[id] == b[id] { assert Get(a, id) == Get(b, id); }
  }

  // ----- The visits one by one -----

  /** Recovery has finished exactly the identities in `seen`: their cells and rows are final, the rest is as found. */
  ghost predicate Settled(d: Disk, disk: Disk, entries: map<Id, Entry>, expirations: map<Id, Summary>, seen: set<Id>, how: How) {
    && disk.expiredTemps == 0
    && (forall x :: SettledAt(d, disk, entries, expirations, seen, how, x))
  }

  ghost predicate SettledAt(d: Disk, disk: Disk, entries: map<Id, Entry>, expirations: map<Id, Summary>, seen: set<Id>,
                            how: How, x: Id)
  {
    var c := At(d, x);
    && At(disk, x) == (if x in seen then RecoveredCell(c, x, how) else c)
    && Get(entries, x) == (if x in seen then RecoveredMemo(c, x, how).entry else None)
    && Get(expirations, x) == (if c.record.None? || (x in seen && c.bundle.Some?) then None else Some(c.record.value.summary))
  }

  /** Only this identity's cell and rows change when it is visited. */
  lemma Visit(d: Disk, disk: Disk, e: map<Id, Entry>, n: map<Id, Summary>, seen: set<Id>, how: How,
              id: Id, disk': Disk, e': map<Id, Entry>, n': map<Id, Summary>)
    requires Settled(d, disk, e, n, seen, how) && id !in seen
    requires disk'.expiredTemps == 0
    requires forall x :: At(disk', x) == if x == id then RecoveredCell(At(d, id), id, how) else At(disk, x)
    requires e' == Set(e, id, RecoveredMemo(At(d, id), id, how).entry)
    requires n' == if id in d.bundles then n - {id} else n
    ensures Settled(d, disk', e', n', seen + {id}, how)
  {
    forall x ensures SettledAt(d, disk', e', n', seen + {id}, how, x) {
      assert SettledAt(d, disk, e, n, seen, how, x);
      assert At(disk', x) == if x == id then RecoveredCell(At(d, id), id, how) else At(disk, x);
    }
  }

  /** The finished identities are at the end of their plans, `id` is `k` steps into its own. */
  ghost function CutAt(d: Disk, seen: set<Id>, how: How, id: Id, k: nat): Progress {
    Part(map x | x in seen + {id} :: if x == id then k else |RecoveryPlan(At(d, x), x, how)|)
  }

  lemma CutCell(d: Disk, disk: Disk, e: map<Id, Entry>, n: map<Id, Summary>, seen: set<Id>, how: How, id: Id, k: nat, x: Id)
    requires Settled(d, disk, e, n, seen, how) && id !in seen && k <= |RecoveryPlan(At(d, id), id, how)|
    ensures PartCell(At(d, x), x, how, CutAt(d, seen, how, id, k)) ==
            if x == id then After(At(d, id), RecoveryPlan(At(d, id), id, how), k) else At(disk, x)
  {
    hide RecoveryPlan, Effect, Enabled, RecoveredMemo;
    assert SettledAt(d, disk, e, n, seen, how, x);
  }

  /** A crash during a visit. */
  lemma CutVisit(d: Disk, disk: Disk, e: map<Id, Entry>, n: map<Id, Summary>, seen: set<Id>, how: How,
                 id: Id, k: nat, disk': Disk)
    requires Settled(d, disk, e, n, seen, how) && id !in seen
    requires k <= |RecoveryPlan(At(d, id), id, how)| && disk'.expiredTemps == 0
    requires forall x :: At(disk', x) == if x == id then After(At(d, id), RecoveryPlan(At(d, id), id, how), k) else At(disk, x)
    ensures disk' == RecoveredDisk(d, how, CutAt(d, seen, how, id, k))
  {
    hide RecoveryPlan, PartCell, CutAt, Settled, After;
    var p := CutAt(d, seen, how, id, k);
    forall x ensures At(disk', x) == At(RecoveredDisk(d, how, p), x) {
      RecoveredDiskAt(d, how, p, x);
      CutCell(d, disk, e, n, seen, how, id, k, x);
    }
    SameDisk(disk', RecoveredDisk(d, how, p));
  }

  /** No step of the plan touches trash or writes a record. */
  predicate Quiet(ch: Change) {
    !ch.WriteRecordTemp? && !ch.InstallRecord? && !ch.RenameClaim? && !ch.UnlinkTrash? && !ch.RemoveTrashDir?
  }

  lemma {:induction false} QuietKeeps(c: Cell, plan: seq<Change>, k: nat)
    requires k <= |plan| && forall i :: 0 <= i < |plan| ==> Quiet(plan[i])
    ensures After(c, plan, k).trash == c.trash
  {
    if k > 0 { QuietKeeps(c, plan, k - 1); }
  }

  lemma {:induction false} NoRecordTemps(d: Disk, id: Id, plan: seq<Change>, k: nat)
    requires k <= |plan| && forall i :: 0 <= i < |plan| ==> !plan[i].WriteRecordTemp? && !plan[i].InstallRecord?
    ensures DiskAfter(d, On(id, plan), k).expiredTemps == d.expiredTemps
  {
    if k > 0 { NoRecordTemps(d, id, plan, k - 1); }
  }

  /** Recovery leaves no temporary behind in `expired`: it writes no record. */
  lemma PlanTemps(d: Disk, c: Cell, id: Id, how: How, k: nat)
    requires k <= |RecoveryPlan(c, id, how)|
    ensures DiskAfter(d, On(id, RecoveryPlan(c, id, how)), k).expiredTemps == d.expiredTemps
  {
    NoRecordTemps(d, id, RecoveryPlan(c, id, how), k);
  }

  /** A visit to `bundles` leaves `staging` and `trash` alone, a visit to `staging` leaves `trash` alone. */
  lemma LaterNames(c: Cell, id: Id, how: How)
    ensures c.bundle.Some? ==> RecoveredCell(c, id, how).staging == c.staging
    ensures c.bundle.Some? || c.staging.Some? ==> RecoveredCell(c, id, how).trash == c.trash
  {
    var plan := RecoveryPlan(c, id, how);
    if c.bundle.Some? {
      assert After(c, plan, 0) == c;
      assert After(c, plan, 1) == Effect(c, plan[0]);
    }
    if c.bundle.Some? || c.staging.Some? { QuietKeeps(c, plan, |plan|); }
  }

  lemma NamesLeft(d: Disk, disk: Disk, e: map<Id, Entry>, n: map<Id, Summary>, seen: set<Id>, how: How)
    requires Settled(d, disk, e, n, seen, how)
    ensures seen == {} ==> disk.bundles.Keys == d.bundles.Keys
    ensures seen == d.bundles.Keys ==> disk.staging.Keys == d.staging.Keys
    ensures seen == d.bundles.Keys + d.staging.Keys ==> disk.trash.Keys == d.trash.Keys
  {
    forall x
      ensures seen == {} ==> (x in disk.bundles <==> x in d.bundles)
      ensures seen == d.bundles.Keys ==> (x in disk.staging <==> x in d.staging)
      ensures seen == d.bundles.Keys + d.staging.Keys ==> (x in disk.trash <==> x in d.trash)
    {
      assert SettledAt(d, disk, e, n, seen, how, x);
      LaterNames(At(d, x), x, how);
    }
  }

  /** When every identity found in bundles, staging or trash has been visited, the disk is recovered. */
  lemma AllSettled(d: Disk, disk: Disk, e: map<Id, Entry>, n: map<Id, Summary>, how: How)
    requires Settled(d, disk, e, n, d.bundles.Keys + d.staging.Keys + d.trash.Keys, how)
    ensures disk == RecoveredDisk(d, how, All)
  {
    var seen, r := d.bundles.Keys + d.staging.Keys + d.trash.Keys, RecoveredDisk(d, how, All);
    forall x ensures At(disk, x) == At(r, x) {
      RecoveredDiskAt(d, how, All, x);
      assert SettledAt(d, disk, e, n, seen, how, x);
    }
    SameDisk(disk, r);
  }

  /** ... and so are the rows, provided nothing was refused. */
  lemma RowsSettled(d: Disk, disk: Disk, e: map<Id, Entry>, n: map<Id, Summary>, how: How, x: Id)
    requires Settled(d, disk, e, n, d.bundles.Keys + d.staging.Keys + d.trash.Keys, how)
    requires !Refuses(At(d, x), x)
    ensures Get(e, x) == RecoveredMemo(At(d, x), x, how).entry
    ensures Get(n, x) == RecoveredMemo(At(d, x), x, how).expiration
  {
    assert SettledAt(d, disk, e, n, d.bundles.Keys + d.staging.Keys + d.trash.Keys, how, x);
  }
}
