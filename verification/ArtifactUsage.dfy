/** What the store charges against its budget, and the retention policy. */
module ArtifactUsage {
  import opened Prelude
  import opened ArtifactDisk
  import opened ArtifactProtocol
  import opened ArtifactRecovery
  import opened ArtifactWorld

  /** Sizes in bytes of what lies in a bundle directory, in `expired` and in the root. `temporaries` is the size of
      that many leftover metadata temporaries, `stray` that of what lies outside raw/ and derived/. */
  datatype Sizes = Sizes(
    files: map<string, nat> -> nat, manifest: Manifest -> nat, pin: bool -> nat, record: Record -> nat,
    temporaries: nat -> nat, stray: nat, root: nat)

  datatype Options = Options(maxAge: nat, maxBytes: nat, sizes: Sizes)

  const AGED := "Maximum retention age reached"
  const OVER_BUDGET := "Storage budget required oldest eligible evidence removal"

  function DirBytes(z: Sizes, d: Dir): nat {
    z.files(d.files) + (if d.manifest.Some? then z.manifest(d.manifest.value) else 0) +
    (if d.pin.Some? then z.pin(d.pin.value) else 0) + z.temporaries(d.temps) + (if d.stray then z.stray else 0)
  }

  function CellBytes(z: Sizes, c: Cell, staged: bool): nat {
    if Home(c, staged).Some? then DirBytes(z, Home(c, staged).value) else 0
  }

  ghost function EntryBytes(z: Sizes, entries: map<Id, Entry>, d: Disk): map<nat, nat> {
    map id | id in entries :: CellBytes(z, At(d, id), entries[id].staged)
  }

  ghost function RecordBytes(z: Sizes, d: Disk): map<nat, nat> {
    map id | id in d.expired :: z.record(d.expired[id])
  }

  /** Everything charged: bundles and staging, bytes still in trash, and metadata. */
  ghost function Usage(z: Sizes, w: World): nat
    requires w.Up?
  {
    Sum(EntryBytes(z, w.mem.entries, w.disk)) + Sum(w.mem.trashUsage) + Sum(RecordBytes(z, w.disk)) +
    z.temporaries(w.disk.expiredTemps) + z.root
  }

  predicate Exceeds(o: Options, current: nat, additional: nat) {
    o.maxBytes != 0 && (additional > o.maxBytes || current > o.maxBytes - additional)
  }

  /** The budget is exceeded exactly if there is one and the two together are more. */
  lemma ExceedsMeans(o: Options, current: nat, additional: nat)
    ensures Exceeds(o, current, additional) <==> o.maxBytes > 0 && current + additional > o.maxBytes
  {
  }

  predicate Aged(o: Options, time: nat, completed: nat) {
    o.maxAge != 0 && (if time >= completed then (time - completed) / 1000 else 0) >= o.maxAge
  }

  /** Too old means: the age limit, given in seconds, has passed since the completion, given in milliseconds. */
  lemma AgedMeans(o: Options, time: nat, completed: nat)
    ensures Aged(o, time, completed) <==> o.maxAge > 0 && time >= completed + 1000 * o.maxAge
  {
  }

  lemma AgedMonotone(o: Options, time: nat, older: nat, newer: nat)
    requires older <= newer && Aged(o, time, newer)
    ensures Aged(o, time, older)
  {
    if time >= newer { assert (time - newer) / 1000 <= (time - older) / 1000; }
  }

  /** Candidates in the order retention considers them: completion time, then identity. */
  predicate Before(a: (nat, Id), b: (nat, Id)) {
    a.0 < b.0 || (a.0 == b.0 && a.1 < b.1)
  }

  predicate InOrder(c: seq<(nat, Id)>) {
    forall i, j :: 0 <= i < j < |c| ==> Before(c[i], c[j])
  }

  predicate IsCandidate(entries: map<Id, Entry>, p: (nat, Id)) {
    p.1 in entries && !entries[p.1].staged && entries[p.1].manifest.completed == Some(p.0)
  }

  lemma OrderSnoc(c: seq<(nat, Id)>, i: nat, order: seq<(nat, Id)>)
    requires InOrder(c) && InOrder(order) && i < |c| && forall p :: p in order ==> p in c[..i]
    ensures InOrder(order + [c[i]])
  {
    forall j | 0 <= j < |order| ensures Before(order[j], c[i]) { assert order[j] in c[..i]; }
  }

  /** Nothing protects the candidate. */
  predicate Free(entries: map<Id, Entry>, p: (nat, Id)) {
    p.1 in entries && Unprotected(entries[p.1])
  }

  /** The candidates among these identities, in order. */
  ghost predicate Collected(entries: map<Id, Entry>, c: seq<(nat, Id)>, ids: seq<Id>) {
    InOrder(c) && forall p :: p in c <==> IsCandidate(entries, p) && p.1 in ids
  }

  lemma CollectNone(entries: map<Id, Entry>, ids: seq<Id>)
    ensures Collected(entries, [], ids[..0])
  {
  }

  lemma CollectOne(entries: map<Id, Entry>, c: seq<(nat, Id)>, ids: seq<Id>, id: Id)
    requires Collected(entries, c, ids) && id !in ids && id in entries
    requires !entries[id].staged ==> entries[id].manifest.completed.Some?
    ensures Collected(entries, if entries[id].staged then c else Insert(c, (entries[id].manifest.completed.value, id)), ids + [id])
  {
    hide InOrder, Insert;
    if !entries[id].staged {
      var n := (entries[id].manifest.completed.value, id);
      assert n !in c && forall p: (nat, Id) :: p.1 == id ==> (p == n <==> IsCandidate(entries, p));
    }
  }

  method CollectCandidates(entries: map<Id, Entry>) returns (c: seq<(nat, Id)>)
    requires forall id :: id in entries && !entries[id].staged ==> entries[id].manifest.completed.Some?
    ensures InOrder(c) && forall p :: p in c <==> IsCandidate(entries, p)
  {
    hide Collected, Insert, InOrder, IsCandidate, Increasing;
    c := [];
    var ids: seq<Id> := Ordered(entries.Keys);
    CollectNone(entries, ids);
    for i := 0 to |ids|
      invariant Collected(entries, c, ids[..i])
    {
      var id := ids[i];
      assert id in ids;
      NotBefore(ids, i);
      assert ids[..i + 1] == ids[..i] + [id];
      CollectOne(entries, c, ids[..i], id);
      if !entries[id].staged { c := Insert(c, (entries[id].manifest.completed.value, id)); }
    }
    assert ids[..|ids|] == ids;
    Everyone(entries, c, ids);
  }

  lemma Everyone(entries: map<Id, Entry>, c: seq<(nat, Id)>, ids: seq<Id>)
    requires Collected(entries, c, ids) && forall id :: id in ids <==> id in entries
    ensures InOrder(c) && forall p :: p in c <==> IsCandidate(entries, p)
  {
  }

  lemma NotBefore(ids: seq<Id>, i: nat)
    requires Increasing(ids) && i < |ids|
    ensures ids[i] !in ids[..i]
  {
  }

  function Insert(c: seq<(nat, Id)>, p: (nat, Id)): (r: seq<(nat, Id)>)
    ensures forall q :: q in r <==> q == p || q in c
    ensures InOrder(c) && p !in c ==> InOrder(r)
  {
    if c == [] then [p]
    else if Before(p, c[0]) then [p] + c
    else
      var r := Insert(c[1..], p);
      assert c == [c[0]] + c[1..];
      assert InOrder(c) && p !in c ==> InOrder([c[0]] + r) by {
        if InOrder(c) && p !in c {
          assert InOrder(c[1..]) && p !in c[1..];
          assert forall q :: q in r ==> Before(c[0], q);
        }
      }
      [c[0]] + r
  }

  /** The record retention writes for a bundle it claims. */
  function ClaimRecord(z: Sizes, e: Entry, d: Dir, aged: bool, time: nat): Record {
    Record(Summary(e.manifest.created, if e.manifest.completed.Some? then e.manifest.completed.value else 0,
                   DirBytes(z, d), if aged then AGED else OVER_BUDGET), time)
  }

  /** Changing one entry's directory changes the total by exactly that directory's difference. */
  lemma UsageShift(z: Sizes, w: World, r: World, id: Id)
    requires w.Up? && r.Up? && id in w.mem.entries && r.mem.entries.Keys == w.mem.entries.Keys
    requires r.mem.trashUsage == w.mem.trashUsage && r.disk.expired == w.disk.expired
    requires r.disk.expiredTemps == w.disk.expiredTemps
    requires forall i :: i in w.mem.entries && i != id ==>
                           At(r.disk, i) == At(w.disk, i) && r.mem.entries[i].staged == w.mem.entries[i].staged
    ensures Usage(z, r) + CellBytes(z, At(w.disk, id), w.mem.entries[id].staged)
            == Usage(z, w) + CellBytes(z, At(r.disk, id), r.mem.entries[id].staged)
  {
    var m, v := EntryBytes(z, w.mem.entries, w.disk), CellBytes(z, At(r.disk, id), r.mem.entries[id].staged);
    assert EntryBytes(z, r.mem.entries, r.disk) == m[id := v];
    SumUpdate(m, id, v);
  }

  /** Publishing replaces one manifest in what is charged, and nothing else. */
  lemma PublishUsage(z: Sizes, w: World, op: Op)
    requires Inv(w) && op.Publish? && Can(w, Call(op, Done))
    ensures var d := w.disk.staging[op.id];
            var m := PublishedManifest(w.mem.entries[op.id].manifest, op.success, op.reason, op.at, d.files);
            Usage(z, Next(w, Call(op, Done))) + (if d.manifest.Some? then z.manifest(d.manifest.value) else 0)
            == Usage(z, w) + z.manifest(m)
  {
    var r, id := Next(w, Call(op, Done)), op.id;
    assert LocalOk(Look(w, id), id);
    PublishLook(w, op);
    UsageShift(z, w, r, id);
  }

  /** An empty store is charged for what lies in its root only. */
  lemma FreshUsage(z: Sizes)
    ensures Usage(z, Fresh) == z.temporaries(0) + z.root
  {
  }

  lemma SumWith(m: map<nat, nat>, k: nat, v: nat)
    ensures Sum(m[k := v]) == Sum(m - {k}) + v
  {
    SumWithout(m[k := v], k);
    assert m[k := v] - {k} == m - {k};
  }

  /** Row and directory of one bundle become a deletion account and a record. */
  ghost predicate Moved(w: World, r: World, id: Id, record: Record) {
    && w.Up? && r.Up? && id in w.mem.entries && !w.mem.entries[id].staged && id !in w.mem.trashUsage && id in w.disk.bundles
    && r.mem.entries == w.mem.entries - {id} && r.mem.trashUsage == w.mem.trashUsage[id := record.summary.bytes]
    && r.disk.expired == w.disk.expired[id := record] && r.disk.expiredTemps == w.disk.expiredTemps
    && forall i :: i != id ==> At(r.disk, i) == At(w.disk, i)
  }

  lemma ClaimMoves(w: World, op: Op)
    requires Inv(w) && op.Claim? && Can(w, Call(op, Done))
    ensures Moved(w, Next(w, Call(op, Done)), op.id, op.record)
  {
    hide RecoveryPlan, RecoveredMemo, ManifestOk, DiskAfter, Effect, Enabled, After;
    var r, l := Next(w, Call(op, Done)), Look(w, op.id);
    assert LocalOk(l, op.id);
    ClaimResult(l, op, 3);
    PlanAt(w.disk, op.id, Plan(l, op), 3);
    ClaimTemps(w.disk, op.id, op.record);
    assert forall i :: At(r.disk, i).record == if i == op.id then Some(op.record) else At(w.disk, i).record;
    OneRecord(r.disk, w.disk, op.id, op.record);
  }

  lemma ClaimTemps(d: Disk, id: Id, record: Record)
    ensures var s := On(id, [WriteRecordTemp, InstallRecord(record), RenameClaim]);
            DiskAfter(d, s, 3).expiredTemps == d.expiredTemps
  {
    hide Effect, Enabled;
    var s := On(id, [WriteRecordTemp, InstallRecord(record), RenameClaim]);
    assert DiskAfter(d, s, 1) == Apply(DiskAfter(d, s, 0), s[0]);
    assert DiskAfter(d, s, 2) == Apply(DiskAfter(d, s, 1), s[1]);
  }

  lemma OneRecord(a: Disk, b: Disk, id: Id, r: Record)
    requires forall i :: At(a, i).record == if i == id then Some(r) else At(b, i).record
    ensures a.expired == b.expired[id := r]
  {
    forall i ensures Get(a.expired, i) == Get(b.expired[id := r], i) {
      assert At(a, i).record == if i == id then Some(r) else At(b, i).record;
    }
    SameMap(a.expired, b.expired[id := r]);
  }

  lemma SumWithNew(m: map<nat, nat>, k: nat, v: nat)
    ensures Sum(m[k := v]) + (if k in m then m[k] else 0) == Sum(m) + v
  {
    SumWith(m, k, v);
    if k in m { SumWithout(m, k); } else { assert m - {k} == m; }
  }

  lemma MovedEntries(z: Sizes, w: World, r: World, id: Id, record: Record)
    requires Moved(w, r, id, record)
    ensures var m := EntryBytes(z, w.mem.entries, w.disk);
            id in m && m[id] == DirBytes(z, w.disk.bundles[id]) && EntryBytes(z, r.mem.entries, r.disk) == m - {id}
  {
    hide DirBytes;
    forall i | i in r.mem.entries ensures At(r.disk, i) == At(w.disk, i) {}
  }

  lemma MovedRecords(z: Sizes, w: World, r: World, id: Id, record: Record)
    requires Moved(w, r, id, record)
    ensures var n := RecordBytes(z, w.disk);
            && (id in n <==> id in w.disk.expired) && (id in n ==> n[id] == z.record(w.disk.expired[id]))
            && RecordBytes(z, r.disk) == n[id := z.record(record)]
  {
  }

  lemma MovedUsage(z: Sizes, w: World, r: World, id: Id, record: Record)
    requires Moved(w, r, id, record)
    ensures Usage(z, r) + DirBytes(z, w.disk.bundles[id]) +
            (if id in w.disk.expired then z.record(w.disk.expired[id]) else 0)
            == Usage(z, w) + record.summary.bytes + z.record(record)
  {
    hide DirBytes, EntryBytes, RecordBytes, Sum;
    MovedEntries(z, w, r, id, record);
    MovedRecords(z, w, r, id, record);
    SumWithout(EntryBytes(z, w.mem.entries, w.disk), id);
    SumWithNew(w.mem.trashUsage, id, record.summary.bytes);
    SumWithNew(RecordBytes(z, w.disk), id, z.record(record));
  }

  /** A claim moves a bundle from one account to another: what its directory was charged is now charged as trash, at the
      size written into its record; besides, only the record itself is added. */
  lemma ClaimUsage(z: Sizes, w: World, op: Op)
    requires Inv(w) && op.Claim? && Can(w, Call(op, Done))
    ensures op.id in w.disk.bundles
    ensures Usage(z, Next(w, Call(op, Done))) + DirBytes(z, w.disk.bundles[op.id]) +
            (if op.id in w.disk.expired then z.record(w.disk.expired[op.id]) else 0)
            == Usage(z, w) + op.record.summary.bytes + z.record(op.record)
  {
    hide Inv, Next, Usage;
    ClaimMoves(w, op);
    MovedUsage(z, w, Next(w, Call(op, Done)), op.id, op.record);
  }

  /** The record of a claim says what the bundle was, why it went and when; the total is afterwards what it was, but for
      the record itself. */
  lemma RecordedClaim(z: Sizes, w: World, id: Id, aged: bool, time: nat)
    requires Inv(w) && w.Up? && id in w.mem.entries && id in w.disk.bundles
    requires var r := ClaimRecord(z, w.mem.entries[id], w.disk.bundles[id], aged, time); Can(w, Call(Op.Claim(id, r), Done))
    ensures var m, r := w.mem.entries[id].manifest, ClaimRecord(z, w.mem.entries[id], w.disk.bundles[id], aged, time);
            && r.expiredAt == time && r.summary.created == m.created && Some(r.summary.completed) == m.completed
            && r.summary.reason == (if aged then "Maximum retention age reached"
                                    else "Storage budget required oldest eligible evidence removal")
            && Usage(z, Next(w, Call(Op.Claim(id, r), Done))) + (if id in w.disk.expired then z.record(w.disk.expired[id]) else 0)
               == Usage(z, w) + z.record(r)
  {
    hide Inv, Next, Usage, Can;
    var op := Op.Claim(id, ClaimRecord(z, w.mem.entries[id], w.disk.bundles[id], aged, time));
    ClaimUsage(z, w, op);
    ClaimMatches(w, op);
  }

  lemma ClaimMatches(w: World, op: Op)
    requires op.Claim? && Can(w, Call(op, Done))
    ensures w.Up? && op.id in w.mem.entries
    ensures var m := w.mem.entries[op.id].manifest;
            op.record.summary.created == m.created && Some(op.record.summary.completed) == m.completed
  {
  }

  /** Closing a deletion account lowers the total by exactly that account. */
  lemma ForgetUsage(z: Sizes, w: World, id: Id)
    requires w.Up? && Can(w, Brush(id, ForgetTrash))
    ensures id in w.mem.trashUsage
    ensures Usage(z, Next(w, Brush(id, ForgetTrash))) + w.mem.trashUsage[id] == Usage(z, w)
  {
    hide EntryBytes, RecordBytes;
    var r := Next(w, Brush(id, ForgetTrash));
    PutSame(w.disk, id);
    SetSame(w.mem.entries, id);
    SetSame(w.mem.expirations, id);
    SumWithout(w.mem.trashUsage, id);
  }

  /** A directory in staging without a row is not charged, whatever lies in it. */
  lemma OrphanIsUncharged(z: Sizes, w: World, id: Id, d: Dir)
    requires Orphan(w, id)
    ensures Usage(z, w.(disk := w.disk.(staging := w.disk.staging[id := d]))) == Usage(z, w)
  {
    var disk := w.disk.(staging := w.disk.staging[id := d]);
    forall i | i in w.mem.entries ensures At(disk, i) == At(w.disk, i) {}
    assert EntryBytes(z, w.mem.entries, disk) == EntryBytes(z, w.mem.entries, w.disk);
    assert RecordBytes(z, disk) == RecordBytes(z, w.disk);
  }

  /** How much a publication adds to what is charged. */
  ghost function Growth(z: Sizes, w: World, op: Op): nat
    requires op.Publish? && Admitted(w, op)
  {
    var before, after := Usage(z, w), Usage(z, Next(w, Call(op, Done)));
    if after > before then after - before else 0
  }

  lemma GrowthIs(z: Sizes, w: World, op: Op)
    requires Inv(w) && op.Publish? && Admitted(w, op)
    ensures op.id in w.disk.staging && op.id in w.mem.entries
    ensures var d := w.disk.staging[op.id];
            var size := z.manifest(PublishedManifest(w.mem.entries[op.id].manifest, op.success, op.reason, op.at, d.files));
            var previous := if d.manifest.Some? then z.manifest(d.manifest.value) else 0;
            Growth(z, w, op) == if size > previous then size - previous else 0
  {
    hide Usage;
    PublishUsage(z, w, op);
  }

  lemma PublishLook(w: World, op: Op)
    requires Inv(w) && op.Publish? && Can(w, Call(op, Done))
    ensures var r, d := Next(w, Call(op, Done)), w.disk.staging[op.id];
            var m := PublishedManifest(w.mem.entries[op.id].manifest, op.success, op.reason, op.at, d.files);
            && r.mem.entries == w.mem.entries[op.id := w.mem.entries[op.id].(staged := false, manifest := m)]
            && r.mem.trashUsage == w.mem.trashUsage && r.disk.expired == w.disk.expired
            && r.disk.expiredTemps == w.disk.expiredTemps
            && (forall i :: i != op.id ==> At(r.disk, i) == At(w.disk, i))
            && At(r.disk, op.id).bundle == Some(d.(manifest := Some(m)))
  {
    hide RecoveryPlan, Effect, Enabled, RecoveredMemo;
    var r, id := Next(w, Call(op, Done)), op.id;
    assert LocalOk(Look(w, id), id);
    PublishResult(Look(w, id), op, 3);
    PlanAt(w.disk, id, Plan(Look(w, id), op), 3);
    NoRecordTemps(w.disk, id, Plan(Look(w, id), op), 3);
    SetSame(w.mem.trashUsage, id);
    assert forall i :: At(r.disk, i).record == At(w.disk, i).record;
    SameRecords(r.disk, w.disk);
  }

  lemma SameRecords(a: Disk, b: Disk)
    requires forall i :: At(a, i).record == At(b, i).record
    ensures a.expired == b.expired
  {
    forall i ensures i in a.expired <==> i in b.expired { assert At(a, i).record == At(b, i).record; }
    forall i | i in a.expired ensures a.expired[i] == b.expired[i] { assert At(a, i).record == At(b, i).record; }
  }

  /** The policy for one candidate, checked under the lock that also claims. */
  ghost predicate Wanted(o: Options, w: World, id: Id, completed: nat, time: nat, additional: nat)
    requires w.Up?
  {
    && id in w.mem.entries && Unprotected(w.mem.entries[id])
    && (Aged(o, time, completed) || Exceeds(o, Usage(o.sizes, w), additional))
  }

  /** A step of an unlocked deletion, the withdrawal of a record, or a loss of power. */
  predicate Cleans(e: Event) {
    e.PowerLoss? || (e.Brush? && (e.touch.DeleteStep? || e.touch.ForgetTrash? || e.touch.WithdrawRecord?))
  }

  /** What retention may do: claim what it wants, and clean up. */
  ghost predicate WantedEvent(o: Options, w: World, e: Event, time: nat, additional: nat) {
    if e.Call?
    then e.op.Claim? && w.Up? && Wanted(o, w, e.op.id, e.op.record.summary.completed, time, additional)
    else Cleans(e)
  }

  /** Retention leaves a staged attempt exactly as it is. */
  lemma StagedUntouched(o: Options, w: World, e: Event, time: nat, additional: nat, id: Id)
    requires Inv(w) && Can(w, e) && WantedEvent(o, w, e, time, additional) && Next(w, e).Up?
    ensures w.Up?
    ensures id in w.mem.entries && w.mem.entries[id].staged ==> Look(Next(w, e), id) == Look(w, id)
  {
    hide Plan, Finished, Broken, Effect, Enabled, After, RecoveredMemo, RecoveryPlan;
    assert LocalOk(Look(w, id), id);
    match e
    case Call(op, out) => CallLook(w, op, out);
    case Brush(i, t) => BrushLook(w, i, t);
    case PowerLoss =>
    case Recover(_, _) =>
  }

  /** Retention so far, as long as nothing failed: the oldest free candidates are gone, the next is not wanted. */
  ghost predicate Pruned(o: Options, e0: map<Id, Entry>, w: World, expired: seq<Id>, order: seq<(nat, Id)>,
                           time: nat, additional: nat)
    requires w.Up?
  {
    && |expired| <= |order| && (forall j :: 0 <= j < |expired| ==> expired[j] == order[j].1)
    && w.mem.entries == e0 - (set id | id in expired)
    && w.mem.trashUsage == map[] && (forall id :: id in expired ==> id in w.mem.expirations)
    && (|expired| < |order| ==>
          !Aged(o, time, order[|expired|].0) && !Exceeds(o, Usage(o.sizes, w), additional))
  }

  lemma StillOut(e0: map<Id, Entry>, w: World, expired: seq<Id>, id: Id, j: nat)
    requires w.Up? && w.mem.entries == e0 - (set i | i in expired) && id in w.mem.entries
    ensures j >= |expired| || expired[j] != id
  {
  }

  /** Nothing retention could still take. */
  predicate NoneLeft(entries: map<Id, Entry>) {
    forall id :: id in entries ==> !Unprotected(entries[id])
  }

  /** If the budget is still exceeded afterwards, no unprotected published bundle remains. */
  lemma ExceededMeansNoneLeft(o: Options, e0: map<Id, Entry>, w: World, expired: seq<Id>, order: seq<(nat, Id)>,
                              time: nat, additional: nat)
    requires w.Up? && Pruned(o, e0, w, expired, order, time, additional) && Exceeds(o, Usage(o.sizes, w), additional)
    requires forall id :: id in e0 && !e0[id].staged ==> e0[id].manifest.completed.Some?
    requires forall p :: p in order <==> IsCandidate(e0, p) && Free(e0, p)
    ensures NoneLeft(w.mem.entries)
  {
    hide Usage;
    forall id | id in w.mem.entries ensures !Unprotected(w.mem.entries[id]) {
      if Unprotected(e0[id]) {
        var p := (e0[id].manifest.completed.value, id);
        assert p in order;
        var j :| 0 <= j < |order| && order[j] == p;
        StillOut(e0, w, expired, id, j);
      }
    }
  }

  /** `id` could still be taken. */
  predicate Takeable(e0: map<Id, Entry>, id: Id) {
    id in e0 && !e0[id].staged && !e0[id].pinned && e0[id].leases == 0 && !e0[id].writerActive && e0[id].manifest.completed.Some?
  }

  /** Whatever went was completed before whatever could have gone and stayed, the smaller identity first in the same
      millisecond; and what stayed is neither too old nor is there need for room. */
  ghost predicate OldestWent(o: Options, e0: map<Id, Entry>, w: World, time: nat, additional: nat)
    requires w.Up?
  {
    && (forall gone, kept :: gone in e0 && gone !in w.mem.entries && kept in w.mem.entries && Takeable(e0, kept) && Takeable(e0, gone) ==>
          var g, k := e0[gone].manifest.completed.value, e0[kept].manifest.completed.value;
          g < k || (g == k && gone < kept))
    && (forall kept :: kept in w.mem.entries && Takeable(e0, kept) ==>
          && (o.maxAge > 0 ==> time < e0[kept].manifest.completed.value + 1000 * o.maxAge)
          && !Exceeds(o, Usage(o.sizes, w), additional))
    && forall gone :: gone in e0 && gone !in w.mem.entries ==> Takeable(e0, gone)
  }

  lemma PrunedOldest(o: Options, e0: map<Id, Entry>, w: World, expired: seq<Id>, order: seq<(nat, Id)>, time: nat, additional: nat)
    requires w.Up? && Pruned(o, e0, w, expired, order, time, additional) && InOrder(order)
    requires forall p :: p in order <==> IsCandidate(e0, p) && Free(e0, p)
    ensures OldestWent(o, e0, w, time, additional)
  {
    hide Usage, Exceeds;
    forall gone | gone in e0 && gone !in w.mem.entries
      ensures Takeable(e0, gone) && exists j :: 0 <= j < |expired| && order[j] == (e0[gone].manifest.completed.value, gone)
    {
      var j :| 0 <= j < |expired| && expired[j] == gone;
      assert order[j] in order;
    }
    forall kept | kept in w.mem.entries && Takeable(e0, kept)
      ensures exists j :: |expired| <= j < |order| && order[j] == (e0[kept].manifest.completed.value, kept)
      ensures !Aged(o, time, e0[kept].manifest.completed.value) && |expired| < |order|
    {
      var p := (e0[kept].manifest.completed.value, kept);
      assert p in order;
      var j :| 0 <= j < |order| && order[j] == p;
      StillOut(e0, w, expired, kept, j);
      if Aged(o, time, p.0) { AgedMonotone(o, time, order[|expired|].0, p.0); }
    }
    forall kept | kept in w.mem.entries && Takeable(e0, kept)
      ensures o.maxAge > 0 ==> time < e0[kept].manifest.completed.value + 1000 * o.maxAge
    {
      AgedMeans(o, time, e0[kept].manifest.completed.value);
    }
  }

  lemma NonePruned(o: Options, w: World, time: nat, additional: nat)
    requires w.Up? && w.mem.trashUsage == map[]
    ensures Pruned(o, w.mem.entries, w, [], [], time, additional)
  {
  }

  lemma KeptStep(o: Options, e0: map<Id, Entry>, w: World, expired: seq<Id>, order: seq<(nat, Id)>,
                 p: (nat, Id), time: nat, additional: nat)
    requires w.Up? && Pruned(o, e0, w, expired, order, time, additional)
    requires p.1 in w.mem.entries && p.1 in e0 && !Wanted(o, w, p.1, p.0, time, additional)
    ensures Pruned(o, e0, w, expired, if Free(e0, p) then order + [p] else order, time, additional)
  {
    assert w.mem.entries[p.1] == e0[p.1];
  }

  /** The free ones among the first `i` candidates, in order. */
  ghost predicate FreeAmong(e0: map<Id, Entry>, c: seq<(nat, Id)>, i: nat, order: seq<(nat, Id)>)
    requires i <= |c|
  {
    InOrder(order) && forall p :: p in order <==> p in c[..i] && Free(e0, p)
  }

  lemma CandidateIs(e0: map<Id, Entry>, c: seq<(nat, Id)>, p: (nat, Id))
    requires p in c && forall q :: q in c <==> IsCandidate(e0, q)
    ensures IsCandidate(e0, p) && p.1 in e0 && !e0[p.1].staged && e0[p.1].manifest.completed == Some(p.0)
  {
  }

  lemma FreeNone(e0: map<Id, Entry>, c: seq<(nat, Id)>)
    ensures FreeAmong(e0, c, 0, []) && InOrder([])
  {
  }

  lemma FreeMore(e0: map<Id, Entry>, c: seq<(nat, Id)>, i: nat, order: seq<(nat, Id)>)
    requires i < |c| && InOrder(c) && FreeAmong(e0, c, i, order)
    ensures FreeAmong(e0, c, i + 1, if Free(e0, c[i]) then order + [c[i]] else order)
    ensures InOrder(order) && InOrder(order + [c[i]]) && forall p :: p in order ==> p in c[..i]
  {
    assert c[..i + 1] == c[..i] + [c[i]];
    OrderSnoc(c, i, order);
  }

  lemma FreeAll(e0: map<Id, Entry>, c: seq<(nat, Id)>, order: seq<(nat, Id)>)
    requires FreeAmong(e0, c, |c|, order) && forall p :: p in c <==> IsCandidate(e0, p)
    ensures InOrder(order) && forall p :: p in order <==> IsCandidate(e0, p) && Free(e0, p)
  {
    assert c[..|c|] == c;
  }

  lemma OneLess(e0: map<Id, Entry>, expired: seq<Id>, id: Id)
    ensures e0 - (set i | i in expired) - {id} == e0 - (set i | i in expired + [id])
  {
  }

  /** A candidate that is still taken comes right after the ones already gone. */
  lemma GoneStep(o: Options, e0: map<Id, Entry>, w: World, r: World, expired: seq<Id>, order: seq<(nat, Id)>,
                 p: (nat, Id), time: nat, additional: nat)
    requires w.Up? && r.Up? && Pruned(o, e0, w, expired, order, time, additional)
    requires p.1 in e0 && Wanted(o, w, p.1, p.0, time, additional) && InOrder(order + [p])
    requires r.mem.entries == w.mem.entries - {p.1} && r.mem.trashUsage.Keys <= w.mem.trashUsage.Keys
    requires r.mem.expirations.Keys == w.mem.expirations.Keys + {p.1}
    ensures Free(e0, p) && Pruned(o, e0, r, expired + [p.1], order + [p], time, additional)
  {
    if |expired| < |order| {
      var q := order[|expired|];
      assert (order + [p])[|expired|] == q && (order + [p])[|order|] == p;
      assert Before(q, p);
      if Aged(o, time, p.0) { AgedMonotone(o, time, q.0, p.0); }
      assert false;
    }
    assert (set id | id in expired + [p.1]) == (set id | id in expired) + {p.1};
  }

  /** The i-th candidate has not been considered before, so it is still there unless a deletion failed. */
  lemma StillThere(o: Options, e0: map<Id, Entry>, w: World, c: seq<(nat, Id)>, i: nat, expired: seq<Id>,
                   order: seq<(nat, Id)>, time: nat, additional: nat)
    requires w.Up? && Pruned(o, e0, w, expired, order, time, additional)
    requires InOrder(c) && i < |c| && (forall p :: p in c ==> IsCandidate(e0, p)) && forall p :: p in order ==> p in c[..i]
    ensures c[i].1 in w.mem.entries
  {
    assert c[i] in c && IsCandidate(e0, c[i]);
    forall j | 0 <= j < |expired| ensures expired[j] != c[i].1 {
      var q := order[j];
      assert q in order;
      var k :| 0 <= k < i && c[k] == q;
      assert c[k] in c && IsCandidate(e0, c[k]) && Before(c[k], c[i]);
    }
  }
}
