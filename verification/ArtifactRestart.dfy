/** Opening a store on whatever a power loss left: `recover` of a fresh state object. */
module ArtifactRestart {
  import opened Prelude
  import opened ArtifactDisk
  import opened ArtifactProtocol
  import opened ArtifactRecovery

  datatype Opening = Opened | Interrupted | Rejected

  /** The rows of one identity are the ones recovery should build. */
  ghost predicate RowsOk(d: Disk, e: map<Id, Entry>, n: map<Id, Summary>, how: How, x: Id) {
    && !Refuses(At(d, x), x)
    && Get(e, x) == RecoveredMemo(At(d, x), x, how).entry
    && Get(n, x) == RecoveredMemo(At(d, x), x, how).expiration
  }

  /** The deletions that failed stay charged. */
  function Retained(trash: set<Id>, how: How): map<Id, nat> {
    map id | id in trash && id in how.stuck :: how.stuck[id].bytes
  }

  lemma SettledOne(d: Disk, disk: Disk, e: map<Id, Entry>, n: map<Id, Summary>, seen: set<Id>, how: How, id: Id)
    requires Settled(d, disk, e, n, seen, how)
    ensures SettledAt(d, disk, e, n, seen, how, id)
  {
  }

  lemma RetainedMore(trash: set<Id>, id: Id, how: How)
    ensures Retained(trash + {id}, how) ==
            if id in how.stuck then Retained(trash, how)[id := how.stuck[id].bytes] else Retained(trash, how)
  {
  }

  /** The disk and every row are what recovery of `d` should make, and nothing was refused. */
  ghost predicate Recovered(d: Disk, disk: Disk, e: map<Id, Entry>, n: map<Id, Summary>, u: map<Id, nat>, how: How) {
    disk == RecoveredDisk(d, how, All) && u == Retained(d.trash.Keys, how) && forall x :: RowsOk(d, e, n, how, x)
  }

  lemma Finish(d: Disk, disk: Disk, e: map<Id, Entry>, n: map<Id, Summary>, u: map<Id, nat>, how: How)
    requires u == Retained(d.trash.Keys, how)
    requires Settled(d, disk, e, n, d.bundles.Keys + d.staging.Keys + d.trash.Keys, how)
    requires forall id :: !BadRecord(At(d, id)) && !BadBundle(At(d, id), id) && !BadStaging(At(d, id), id) && !BadTrash(At(d, id))
    ensures Recovered(d, disk, e, n, u, how)
  {
    AllSettled(d, disk, e, n, how);
    forall x ensures RowsOk(d, e, n, how, x) { RowsSettled(d, disk, e, n, how, x); }
  }

  lemma Untouched(d: Disk, disk: Disk, n: map<Id, Summary>, how: How)
    requires disk == d.(expiredTemps := 0)
    requires n.Keys == d.expired.Keys && forall id :: id in n ==> n[id] == d.expired[id].summary
    ensures Settled(d, disk, map[], n, {}, how)
  {
    forall x ensures SettledAt(d, disk, map[], n, {}, how, x) { assert At(disk, x) == At(d, x); }
  }

  class Restart {
    var entries: map<Id, Entry>
    var expirations: map<Id, Summary>
    var trashUsage: map<Id, nat>
    var disk: Disk
    /** Whether the power holds while the store is opened. */
    const calm: bool

    constructor (disk: Disk, calm: bool)
      ensures this.calm == calm
      ensures this.disk == disk && entries == map[] && expirations == map[] && trashUsage == map[]
    {
      this.calm, this.disk, entries, expirations, trashUsage := calm, disk, map[], map[], map[];
    }

    /** Recovery's durable steps for one identity; the power may fail before any of them. */
    method RecoverySteps(id: Id, plan: seq<Change>) returns (done: nat)
      modifies `disk
      ensures done <= |plan| && disk == DiskAfter(old(disk), On(id, plan), done) && (calm ==> done == |plan|)
    {
      done := 0;
      while done < |plan|
        invariant done <= |plan| && disk == DiskAfter(old(disk), On(id, plan), done)
      {
        var outage: bool :| calm ==> !outage;
        if outage { return; }
        disk := Apply(disk, Step(id, plan[done]));
        done := done + 1;
      }
    }

    /** One identity's visit: its rows are built, its steps taken. */
    method RecoverOne(id: Id, e: Option<Entry>, how: How, ghost d: Disk, ghost seen: set<Id>)
      returns (r: Opening, ghost p: Progress)
      requires Settled(d, disk, entries, expirations, seen, how) && id !in seen
      requires e == RecoveredMemo(At(d, id), id, how).entry
      modifies `disk, `entries, `expirations
      ensures r.Opened? ==> Settled(d, disk, entries, expirations, seen + {id}, how)
      ensures r.Interrupted? ==> p.Part? && disk == RecoveredDisk(d, how, p)
      ensures !r.Rejected? && (calm ==> r.Opened?)
    {
      hide RecoveryPlan, Effect, Enabled, RecoveredMemo;
      ghost var before, e0, n0 := disk, entries, expirations;
      assert SettledAt(d, disk, entries, expirations, seen, how, id);
      var c := At(disk, id);
      var plan := RecoveryPlan(c, id, how);
      entries := Set(entries, id, e);
      if id in disk.bundles { expirations := expirations - {id}; }
      var done := RecoverySteps(id, plan);
      PlanAt(before, id, plan, done);
      PlanTemps(before, c, id, how, done);
      if done < |plan| {
        CutVisit(d, before, e0, n0, seen, how, id, done, disk);
        return Interrupted, CutAt(d, seen, how, id, done);
      }
      Visit(d, before, e0, n0, seen, how, id, disk, entries, expirations);
      return Opened, All;
    }

    /** What a pass over one directory promises. */
    ghost predicate Passed(r: Opening, p: Progress, d: Disk, seen: set<Id>, how: How)
      reads this
    {
      match r
      case Opened => Settled(d, disk, entries, expirations, seen, how)
      case Interrupted => !calm && p.Part? && disk == RecoveredDisk(d, how, p)
      case Rejected => exists id :: Refuses(At(d, id), id)
    }

    /** Expiration records are read before anything else; their temporaries are swept. */
    method ReadRecords(how: How, ghost d: Disk) returns (r: Opening, ghost p: Progress)
      requires disk == d && entries == map[] && expirations == map[]
      modifies `disk, `expirations
      ensures !r.Interrupted? && Passed(r, p, d, {}, how)
      ensures r.Opened? ==> forall id :: !BadRecord(At(d, id))
    {
      p := All;
      disk := disk.(expiredTemps := 0);
      var todo := disk.expired.Keys;
      while todo != {}
        invariant disk == d.(expiredTemps := 0) && todo <= d.expired.Keys && expirations.Keys == d.expired.Keys - todo
        invariant forall id :: id in expirations ==> expirations[id] == d.expired[id].summary && RecordOk(d.expired[id])
        decreases todo
      {
        var id := Least(todo);
        if !RecordOk(disk.expired[id]) {
          assert Refuses(At(d, id), id);
          return Rejected, All;
        }
        expirations := expirations[id := disk.expired[id].summary];
        todo := todo - {id};
      }
      Untouched(d, disk, expirations, how);
      return Opened, All;
    }

    method RecoverBundles(how: How, ghost d: Disk) returns (r: Opening, ghost p: Progress)
      requires Settled(d, disk, entries, expirations, {}, how)
      modifies `disk, `entries, `expirations
      ensures Passed(r, p, d, d.bundles.Keys, how)
      ensures r.Opened? ==> forall id :: !BadBundle(At(d, id), id)
    {
      r, p := Opened, All;
      NamesLeft(d, disk, entries, expirations, {}, how);
      var todo := disk.bundles.Keys;
      ghost var seen: set<Id> := {};
      while todo != {}
        invariant r.Opened? && Passed(r, p, d, seen, how)
        invariant todo !! seen && todo + seen == d.bundles.Keys
        invariant forall id :: id in seen ==> !BadBundle(At(d, id), id)
        decreases todo
      {
        var id := Least(todo);
        assert SettledAt(d, disk, entries, expirations, seen, how, id);
        var dir := disk.bundles[id];
        if !PublishedOk(dir, id) {
          assert Refuses(At(d, id), id);
          return Rejected, All;
        }
        r, p := RecoverOne(id, Some(Entry(dir.manifest.value, dir.pin.value, false, 0, false)), how, d, seen);
        if !r.Opened? { return; }
        todo, seen := todo - {id}, seen + {id};
      }
      assert seen == d.bundles.Keys;
    }

    /** The row of an attempt found in staging: it finishes its publication or is quarantined. */
    function StagedEntry(dir: Dir, id: Id, how: How): Entry
      requires FinishesPublication(dir, id) ==> dir.pin.Some?
    {
      if FinishesPublication(dir, id) then Entry(dir.manifest.value, dir.pin.value, false, 0, false)
      else Entry(Requarantined(dir, id, how), true, true, 0, false)
    }

    method RecoverStaging(how: How, ghost d: Disk) returns (r: Opening, ghost p: Progress)
      requires Settled(d, disk, entries, expirations, d.bundles.Keys, how)
      requires forall id :: !BadBundle(At(d, id), id)
      modifies `disk, `entries, `expirations
      ensures Passed(r, p, d, d.bundles.Keys + d.staging.Keys, how)
      ensures r.Opened? ==> forall id :: !BadStaging(At(d, id), id)
    {
      r, p := Opened, All;
      NamesLeft(d, disk, entries, expirations, d.bundles.Keys, how);
      var todo := disk.staging.Keys;
      ghost var seen: set<Id> := {};
      assert d.bundles.Keys + seen == d.bundles.Keys;
      while todo != {}
        invariant r.Opened? && Settled(d, disk, entries, expirations, d.bundles.Keys + seen, how)
        invariant todo !! seen && todo + seen == d.staging.Keys
        invariant forall id :: id in seen ==> !BadStaging(At(d, id), id)
        decreases todo
      {
        var id := Least(todo);
        assert SettledAt(d, disk, entries, expirations, d.bundles.Keys + seen, how, id);
        assert !BadBundle(At(d, id), id);
        if id in entries || id in expirations || BadStaging(At(disk, id), id) {
          assert Refuses(At(d, id), id);
          return Rejected, All;
        }
        var e := StagedEntry(disk.staging[id], id, how);
        r, p := RecoverOne(id, Some(e), how, d, d.bundles.Keys + seen);
        if !r.Opened? { return; }
        assert d.bundles.Keys + seen + {id} == d.bundles.Keys + (seen + {id});
        todo, seen := todo - {id}, seen + {id};
      }
    }

    method RecoverTrash(how: How, ghost d: Disk) returns (r: Opening, ghost p: Progress)
      requires Settled(d, disk, entries, expirations, d.bundles.Keys + d.staging.Keys, how)
      requires trashUsage == map[] && forall id :: !BadBundle(At(d, id), id)
      modifies `disk, `entries, `expirations, `trashUsage
      ensures Passed(r, p, d, d.bundles.Keys + d.staging.Keys + d.trash.Keys, how)
      ensures r.Opened? ==> trashUsage == Retained(d.trash.Keys, how) && forall id :: !BadTrash(At(d, id))
    {
      r, p := Opened, All;
      ghost var live := d.bundles.Keys + d.staging.Keys;
      NamesLeft(d, disk, entries, expirations, live, how);
      var todo := disk.trash.Keys;
      ghost var seen: set<Id> := {};
      assert live + seen == live;
      while todo != {}
        invariant r.Opened? && Settled(d, disk, entries, expirations, live + seen, how)
        invariant todo !! seen && todo + seen == d.trash.Keys
        invariant trashUsage == Retained(seen, how) && forall id :: id in seen ==> !BadTrash(At(d, id))
        decreases todo
      {
        hide Retained, Settled, RecoveredMemo;
        var id := Least(todo);
        SettledOne(d, disk, entries, expirations, live + seen, how, id);
        assert !BadBundle(At(d, id), id);
        if id in entries || id !in expirations {
          assert Refuses(At(d, id), id);
          return Rejected, All;
        }
        r, p := RecoverOne(id, None, how, d, live + seen);
        if !r.Opened? { return; }
        assert live + seen + {id} == live + (seen + {id});
        RetainedMore(seen, id, how);
        if id in how.stuck { trashUsage := trashUsage[id := how.stuck[id].bytes]; }
        todo, seen := todo - {id}, seen + {id};
      }
      assert seen == d.trash.Keys;
    }

    /** Opens whatever is on disk. It succeeds exactly when no identity is refused. */
    method Recover(how: How) returns (r: Opening, ghost p: Progress)
      requires entries == map[] && expirations == map[] && trashUsage == map[]
      modifies this
      ensures r.Rejected? ==> exists id :: Refuses(At(old(disk), id), id)
      ensures r.Interrupted? ==> !calm && p.Part? && disk == RecoveredDisk(old(disk), how, p)
      ensures r.Opened? ==> p.All? && Recovered(old(disk), disk, entries, expirations, trashUsage, how)
    {
      ghost var d := disk;
      r, p := ReadRecords(how, d);
      if !r.Opened? { return; }
      r, p := RecoverBundles(how, d);
      if !r.Opened? { return; }
      r, p := RecoverStaging(how, d);
      if !r.Opened? { return; }
      r, p := RecoverTrash(how, d);
      if !r.Opened? { return; }
      p := All;
      Finish(d, disk, entries, expirations, trashUsage, how);
    }
  }
}
