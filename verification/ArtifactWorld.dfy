/** Runs of the whole store: any interleaving of locked sections, outside writes, unlocked deletion
    steps, power losses and recoveries, and what every run keeps. */
module ArtifactWorld {
  import opened Prelude
  import opened ArtifactDisk
  import opened ArtifactProtocol
  import opened ArtifactRecovery

  datatype Mem = Mem(entries: map<Id, Entry>, expirations: map<Id, Summary>, trashUsage: map<Id, nat>)

  /** `leases` holds one element per live lease handle, `writers` the identities with a live writer handle. */
  datatype World =
    | Up(mem: Mem, disk: Disk, leases: multiset<Id>, writers: set<Id>)
    | Down(disk: Disk)

  const Fresh := Up(Mem(map[], map[], map[]), EmptyDisk, multiset{}, {})

  datatype Outcome = Done | Failed(steps: nat) | Cut(steps: nat)

  datatype Event =
    | Call(op: Op, out: Outcome)
    | Brush(id: Id, touch: Touch)
    | PowerLoss
    | Recover(how: How, progress: Progress)

  // ----- One identity's share of the world -----

  function MemoAt(m: Mem, id: Id): Memo {
    Memo(Get(m.entries, id), Get(m.expirations, id), Get(m.trashUsage, id))
  }

  function Look(w: World, id: Id): Local
    requires w.Up?
  {
    Local(At(w.disk, id), MemoAt(w.mem, id), w.leases[id], id in w.writers)
  }

  function SetMemo(m: Mem, id: Id, memo: Memo): Mem {
    Mem(Set(m.entries, id, memo.entry), Set(m.expirations, id, memo.expiration), Set(m.trashUsage, id, memo.usage))
  }

  /** The world with one identity's memory and handles replaced, over a given disk. */
  function Update(w: World, id: Id, l: Local, disk: Disk): World
    requires w.Up?
  {
    Up(SetMemo(w.mem, id, l.memo), disk, w.leases[id := l.leases],
       if l.writer then w.writers + {id} else w.writers - {id})
  }

  // ----- Steps -----

  ghost predicate Admitted(w: World, op: Op) {
    w.Up? && Admits(Look(w, op.id), op)
  }

  ghost function Steps(w: World, op: Op): seq<Step>
    requires Admitted(w, op)
  {
    On(op.id, Plan(Look(w, op.id), op))
  }

  ghost function RecoveredMem(d: Disk, how: How): Mem {
    Mem(map id | id in d.bundles.Keys + d.staging.Keys && RecoveredMemo(At(d, id), id, how).entry.Some? ::
          RecoveredMemo(At(d, id), id, how).entry.value,
        map id | id in d.expired && RecoveredMemo(At(d, id), id, how).expiration.Some? ::
          RecoveredMemo(At(d, id), id, how).expiration.value,
        map id | id in d.trash && RecoveredMemo(At(d, id), id, how).usage.Some? ::
          RecoveredMemo(At(d, id), id, how).usage.value)
  }

  ghost predicate Can(w: World, e: Event) {
    match e
    case Call(op, out) =>
      Admitted(w, op) && (!out.Done? ==> out.steps <= |Steps(w, op)|)
    case Brush(id, t) => w.Up? && Allows(Look(w, id), t)
    case PowerLoss => w.Up?
    case Recover(_, _) => w.Down? && forall id :: !Refuses(At(w.disk, id), id)
  }

  ghost function Next(w: World, e: Event): World
    requires Can(w, e)
  {
    match e
    case Call(op, out) =>
      var l, s := Look(w, op.id), Steps(w, op);
      (match out
       case Done => Update(w, op.id, Finished(l, op), DiskAfter(w.disk, s, |s|))
       case Failed(k) => Update(w, op.id, Broken(l, op, k), DiskAfter(w.disk, s, k))
       case Cut(k) => Down(DiskAfter(w.disk, s, k)))
    case Brush(id, t) =>
      var r := Touched(Look(w, id), t);
      Update(w, id, r, Put(w.disk, id, r.cell))
    case PowerLoss => Down(w.disk)
    case Recover(how, p) =>
      var d := RecoveredDisk(w.disk, how, p);
      if p.All? then Up(RecoveredMem(w.disk, how), d, multiset{}, {}) else Down(d)
  }

  ghost predicate Follows(ws: seq<World>, es: seq<Event>, i: nat)
    requires i < |es| && |ws| == |es| + 1
  {
    Can(ws[i], es[i]) && ws[i + 1] == Next(ws[i], es[i])
  }

  /** `ws` are the worlds a run passes through, `es` the events between them. */
  ghost predicate IsRun(ws: seq<World>, es: seq<Event>) {
    |ws| == |es| + 1 && forall i :: 0 <= i < |es| ==> Follows(ws, es, i)
  }

  // ----- The invariant -----

  ghost predicate Inv(w: World) {
    match w
    case Up(_, _, _, _) => forall id :: LocalOk(Look(w, id), id)
    case Down(d) => forall id :: CellOk(At(d, id), id)
  }

  lemma UpdateLook(w: World, id: Id, l: Local, disk: Disk)
    requires w.Up?
    requires forall i :: At(disk, i) == if i == id then l.cell else At(w.disk, i)
    ensures forall i :: Look(Update(w, id, l, disk), i) == if i == id then l else Look(w, i)
  {
    var r := Update(w, id, l, disk);
    forall i ensures Look(r, i) == if i == id then l else Look(w, i) {
      assert MemoAt(r.mem, i) == if i == id then l.memo else MemoAt(w.mem, i);
    }
  }

  /** What one event does to each identity: at most one of them changes while the store is up. */
  lemma CallLook(w: World, op: Op, out: Outcome)
    requires Can(w, Call(op, out))
    ensures out.Done? ==>
              forall i :: Look(Next(w, Call(op, out)), i) ==
                          if i == op.id then DoneLocal(Look(w, op.id), op) else Look(w, i)
    ensures out.Failed? ==>
              forall i :: Look(Next(w, Call(op, out)), i) ==
                          if i == op.id then FailedLocal(Look(w, op.id), op, out.steps) else Look(w, i)
    ensures out.Cut? ==>
              forall i :: At(Next(w, Call(op, out)).disk, i) ==
                          if i == op.id then After(At(w.disk, op.id), Plan(Look(w, op.id), op), out.steps) else At(w.disk, i)
  {
    hide Effect, Enabled, Plan, Finished, Broken, Touched;
    var l, s := Look(w, op.id), Steps(w, op);
    var k := if out.Done? then |s| else out.steps;
    PlanAt(w.disk, op.id, Plan(l, op), k);
    if out.Done? {
      UpdateLook(w, op.id, DoneLocal(l, op), DiskAfter(w.disk, s, k));
    } else if out.Failed? {
      UpdateLook(w, op.id, FailedLocal(l, op, k), DiskAfter(w.disk, s, k));
    }
  }

  lemma BrushLook(w: World, id: Id, t: Touch)
    requires Can(w, Brush(id, t))
    ensures forall i :: Look(Next(w, Brush(id, t)), i) == if i == id then Touched(Look(w, id), t) else Look(w, i)
  {
    var r := Touched(Look(w, id), t);
    PutAt(w.disk, id, r.cell);
    UpdateLook(w, id, r, Put(w.disk, id, r.cell));
  }

  lemma RecoveredMemAt(d: Disk, how: How, id: Id)
    ensures MemoAt(RecoveredMem(d, how), id) == RecoveredMemo(At(d, id), id, how)
  {
  }

  lemma RecoverLook(w: World, how: How, id: Id)
    requires Can(w, Recover(how, All)) && CellOk(At(w.disk, id), id)
    ensures Look(Next(w, Recover(how, All)), id) == RecoveredLocal(At(w.disk, id), id, how)
  {
    RecoveredDiskAt(w.disk, how, All, id);
    RecoveredMemAt(w.disk, how, id);
  }

  lemma RecoverCutKeeps(w: World, how: How, p: Progress, id: Id)
    requires Can(w, Recover(how, p)) && CellOk(At(w.disk, id), id)
    ensures CellOk(At(Next(w, Recover(how, p)).disk, id), id)
  {
    RecoveredDiskAt(w.disk, how, p, id);
    var plan := RecoveryPlan(At(w.disk, id), id, how);
    RecoveryCut(At(w.disk, id), id, how,
                if p.All? then |plan| else if id in p.done && p.done[id] <= |plan| then p.done[id] else 0);
  }

  lemma CutCallKeeps(w: World, op: Op, k: nat)
    requires Inv(w) && Can(w, Call(op, Cut(k)))
    ensures Inv(Next(w, Call(op, Cut(k))))
  {
    var r := Next(w, Call(op, Cut(k)));
    CallLook(w, op, Cut(k));
    assert LocalOk(Look(w, op.id), op.id);
    CutKeeps(Look(w, op.id), op, k);
    forall i ensures CellOk(At(r.disk, i), i) { assert LocalOk(Look(w, i), i); }
  }

  lemma CallKeeps(w: World, op: Op, out: Outcome)
    requires Inv(w) && Can(w, Call(op, out)) && !out.Cut?
    ensures Inv(Next(w, Call(op, out)))
  {
    hide Plan, Finished, Broken, Effect, Enabled, After;
    var r := Next(w, Call(op, out));
    CallLook(w, op, out);
    assert LocalOk(Look(w, op.id), op.id);
    OpKeeps(Look(w, op.id), op, if out.Done? then |Steps(w, op)| else out.steps);
    forall i ensures LocalOk(Look(r, i), i) { assert LocalOk(Look(w, i), i); }
  }

  lemma RecoverKeeps(w: World, how: How, p: Progress)
    requires Inv(w) && Can(w, Recover(how, p))
    ensures Inv(Next(w, Recover(how, p)))
  {
    var r := Next(w, Recover(how, p));
    if p.All? {
      forall i ensures LocalOk(Look(r, i), i) { RecoverLook(w, how, i); RecoveryKeeps(At(w.disk, i), i, how); }
    } else {
      forall i ensures CellOk(At(r.disk, i), i) { RecoverCutKeeps(w, how, p, i); }
    }
  }

  /** Every event keeps the invariant. */
  lemma NextKeeps(w: World, e: Event)
    requires Inv(w) && Can(w, e)
    ensures Inv(Next(w, e))
  {
    match e
    case Call(op, out) => if out.Cut? { CutCallKeeps(w, op, out.steps); } else { CallKeeps(w, op, out); }
    case Brush(id, t) =>
      BrushLook(w, id, t);
      TouchKeeps(Look(w, id), t, id);
    case PowerLoss =>
      forall i ensures CellOk(At(w.disk, i), i) { assert LocalOk(Look(w, i), i); }
    case Recover(how, p) => RecoverKeeps(w, how, p);
  }

  lemma FreshOk()
    ensures Inv(Fresh)
  {
  }

  lemma {:induction false} RunKeeps(ws: seq<World>, es: seq<Event>, i: nat)
    requires IsRun(ws, es) && Inv(ws[0]) && i <= |es|
    ensures Inv(ws[i])
  {
    if i > 0 {
      RunKeeps(ws, es, i - 1);
      assert Follows(ws, es, i - 1);
      NextKeeps(ws[i - 1], es[i - 1]);
    }
  }

  // ----- Main results over all runs -----

  /** Crash safety: after any run from a fresh store, however often it was cut, the store opens again, and
      then every identity is published, or quarantined and pinned in staging, or expired, or unknown. */
  lemma CrashSafety(ws: seq<World>, es: seq<Event>, how: How)
    requires IsRun(ws, es) && ws[0] == Fresh && ws[|es|].Down?
    ensures Can(ws[|es|], Recover(how, All))
    ensures forall id :: Classified(Look(Next(ws[|es|], Recover(how, All)), id))
  {
    FreshOk();
    RunKeeps(ws, es, |es|);
    var w := ws[|es|];
    forall id ensures !Refuses(At(w.disk, id), id) { NeverRefuses(At(w.disk, id), id); }
    forall id ensures Classified(Look(Next(w, Recover(how, All)), id)) {
      RecoverLook(w, how, id);
      RecoveryKeeps(At(w.disk, id), id, how);
    }
  }

  /** A bundle with this manifest lies in `bundles`. */
  ghost predicate Holds(w: World, id: Id, m: Manifest) {
    id in w.disk.bundles && w.disk.bundles[id].manifest == Some(m)
  }

  ghost predicate Claims(e: Event, id: Id) {
    e.Call? && e.op.Claim? && e.op.id == id
  }

  ghost predicate CellHolds(c: Cell, m: Manifest) {
    c.bundle.Some? && c.bundle.value.manifest == Some(m)
  }

  lemma OpHolds(l: Local, op: Op, k: nat, m: Manifest)
    requires Admits(l, op) && LocalOk(l, op.id) && !op.Claim? && CellHolds(l.cell, m) && k <= |Plan(l, op)|
    ensures CellHolds(After(l.cell, Plan(l, op), k), m)
  {
    if op.Pin? { PinResult(l.cell, false, op.pinned, k); }
  }

  /** What any event does to one identity's cell. */
  ghost predicate CellStep(w: World, e: Event, id: Id, r: Cell, k: nat)
    requires Can(w, e)
  {
    var c := At(w.disk, id);
    match e
    case Call(op, out) =>
      if op.id == id
      then k == (if out.Done? then |Plan(Look(w, id), op)| else out.steps) && r == After(c, Plan(Look(w, id), op), k)
      else r == c
    case Brush(i, t) => r == if i == id then Touched(Look(w, id), t).cell else c
    case PowerLoss => r == c
    case Recover(how, p) => k <= |RecoveryPlan(c, id, how)| && r == After(c, RecoveryPlan(c, id, how), k)
  }

  lemma EventCell(w: World, e: Event, id: Id) returns (k: nat)
    requires Can(w, e)
    ensures CellStep(w, e, id, At(Next(w, e).disk, id), k)
  {
    var r := At(Next(w, e).disk, id);
    match e
    case Call(op, out) =>
      CallLook(w, op, out);
      k := if out.Done? then |Steps(w, op)| else out.steps;
      if !out.Cut? { assert r == Look(Next(w, e), id).cell; }
    case Brush(i, t) =>
      BrushLook(w, i, t);
      k := 0;
      assert r == Look(Next(w, e), id).cell;
    case PowerLoss =>
      k := 0;
    case Recover(how, p) =>
      RecoveredDiskAt(w.disk, how, p, id);
      var plan := RecoveryPlan(At(w.disk, id), id, how);
      k := if p.All? then |plan| else if id in p.done && p.done[id] <= |plan| then p.done[id] else 0;
  }

  lemma PublishedStays(w: World, e: Event, id: Id, m: Manifest)
    requires Inv(w) && Can(w, e) && Holds(w, id, m) && !Claims(e, id)
    ensures Holds(Next(w, e), id, m)
  {
    var c, r := At(w.disk, id), At(Next(w, e).disk, id);
    var k := EventCell(w, e, id);
    assert CellHolds(c, m);
    assert CellHolds(r, m) by {
      if e.Call? && e.op.id == id { OpHolds(Look(w, id), e.op, k, m); }
      if e.Recover? { BundleRecovery(c, id, e.how, k); }
    }
  }

  /** A published bundle keeps its manifest through every run, crashes included, that does not claim it. */
  lemma {:induction false} PublicationIsDurable(ws: seq<World>, es: seq<Event>, n: nat, id: Id, m: Manifest)
    requires IsRun(ws, es) && Inv(ws[0]) && n <= |es| && Holds(ws[0], id, m)
    requires forall i :: 0 <= i < n ==> !Claims(es[i], id)
    ensures Holds(ws[n], id, m)
  {
    if n > 0 {
      PublicationIsDurable(ws, es, n - 1, id, m);
      RunKeeps(ws, es, n - 1);
      assert Follows(ws, es, n - 1);
      PublishedStays(ws[n - 1], es[n - 1], id, m);
    }
  }

  /** A finished publication is durable from that moment on. */
  lemma PublishHolds(w: World, op: Op)
    requires Inv(w) && op.Publish? && Can(w, Call(op, Done))
    ensures var l := Look(w, op.id);
            Holds(Next(w, Call(op, Done)), op.id,
                  PublishedManifest(l.memo.entry.value.manifest, op.success, op.reason, op.at, l.cell.staging.value.files))
  {
    var k := EventCell(w, Call(op, Done), op.id);
    PublishResult(Look(w, op.id), op, k);
    assert At(Next(w, Call(op, Done)).disk, op.id).bundle.Some?;
  }

  // ----- Quarantine -----

  /** The identity is in use and nothing on disk could ever be taken for a success. */
  ghost predicate TaintedCell(c: Cell) {
    && (c.staging.Some? || c.bundle.Some? || c.record.Some?)
    && (c.staging.Some? ==> c.staging.value.manifest.Some? && c.staging.value.manifest.value.status.Failed?)
    && (c.bundle.Some? ==> c.bundle.value.manifest.Some? && c.bundle.value.manifest.value.status.Failed?)
  }

  ghost predicate TaintedMemo(m: Memo) {
    m.entry.Some? && m.entry.value.staged ==> m.entry.value.manifest.quarantined
  }

  ghost predicate Tainted(w: World, id: Id) {
    TaintedCell(At(w.disk, id)) && (w.Up? ==> TaintedMemo(MemoAt(w.mem, id)))
  }

  lemma TaintOp(l: Local, op: Op, k: nat)
    requires Admits(l, op) && LocalOk(l, op.id) && TaintedCell(l.cell) && TaintedMemo(l.memo) && k <= |Plan(l, op)|
    ensures TaintedCell(After(l.cell, Plan(l, op), k))
  {
    match op
    case Begin(_, _, _, _, _) =>
    case Quarantine(_, reason, at) =>
      var m := QuarantinedManifest(l.memo.entry.value.manifest, reason, at);
      QuarantineResult(l.cell, m, k);
      if k < 4 { QuarantineEarly(l.cell, m, k); }
    case CloseWriter(_, _) =>
    case Publish(_, _, _, _) => PublishResult(l, op, k);
    case UpdateProvenance(_, _) => ProvenanceResult(l, op, k);
    case Pin(_, pinned) => PinResult(l.cell, l.memo.entry.value.staged, pinned, k);
    case Claim(_, _) => ClaimResult(l, op, k);
    case SweepTemps(_) => assert k == 1 ==> After(l.cell, Plan(l, op), 1) == Effect(l.cell, CleanTemps(true));
  }

  lemma QuarantineEarly(c: Cell, m: Manifest, k: nat)
    requires c.staging.Some? && k < 4
    ensures After(c, QuarantinePlan(m), k).staging.Some?
    ensures After(c, QuarantinePlan(m), k).staging.value.manifest == c.staging.value.manifest
  {
    var p := QuarantinePlan(m);
    assert k >= 1 ==> After(c, p, 1) == Effect(c, p[0]);
    assert k >= 2 ==> After(c, p, 2) == Effect(After(c, p, 1), p[1]);
  }

  lemma TaintRecovery(c: Cell, id: Id, how: How, k: nat)
    requires CellOk(c, id) && TaintedCell(c) && k <= |RecoveryPlan(c, id, how)|
    ensures TaintedCell(After(c, RecoveryPlan(c, id, how), k))
  {
    if c.bundle.Some? {
      BundleRecovery(c, id, how, k);
    } else if c.staging.Some? {
      if FinishesPublication(c.staging.value, id) { PublishRecovery(c, id, how, k); }
      else { TaintRequarantine(c, id, how, k); }
    } else if c.trash.Some? {
      TrashRecovery(c, c.trash.value, Get(how.stuck, id), k);
    }
  }

  lemma TaintRequarantine(c: Cell, id: Id, how: How, k: nat)
    requires CellOk(c, id) && TaintedCell(c) && c.staging.Some? && !FinishesPublication(c.staging.value, id)
    requires k <= |RecoveryPlan(c, id, how)|
    ensures TaintedCell(After(c, RecoveryPlan(c, id, how), k))
  {
    var m := Requarantined(c.staging.value, id, how);
    QuarantineRecovery(c, id, how, k);
    if k <= 3 {
      AfterFirst(c, OpenPlan, QuarantinePlan(m), k);
      OpenRecovery(c, k);
    } else if k < 7 {
      AfterSecond(c, OpenPlan, QuarantinePlan(m), k - 3);
      OpenRecovery(c, 3);
      QuarantineEarly(After(c, OpenPlan, 3), m, k - 3);
    }
  }

  lemma TaintMemoOp(l: Local, op: Op, k: nat)
    requires Admits(l, op) && LocalOk(l, op.id) && TaintedCell(l.cell) && TaintedMemo(l.memo) && k <= |Plan(l, op)|
    ensures TaintedMemo(Finished(l, op).memo) && TaintedMemo(Broken(l, op, k).memo)
  {
  }

  lemma TaintCellStays(w: World, e: Event, id: Id)
    requires Inv(w) && Can(w, e) && Tainted(w, id)
    ensures TaintedCell(At(Next(w, e).disk, id))
  {
    var k := EventCell(w, e, id);
    if w.Up? { assert LocalOk(Look(w, id), id); }
    if e.Call? && e.op.id == id { TaintOp(Look(w, id), e.op, k); }
    if e.Recover? { TaintRecovery(At(w.disk, id), id, e.how, k); }
  }

  lemma TaintMemoStays(w: World, e: Event, id: Id)
    requires Inv(w) && Can(w, e) && Tainted(w, id) && Next(w, e).Up?
    ensures TaintedMemo(MemoAt(Next(w, e).mem, id))
  {
    hide Plan, Finished, Broken;
    match e
    case Call(op, out) =>
      CallLook(w, op, out);
      assert LocalOk(Look(w, id), id);
      if op.id == id { TaintMemoOp(Look(w, id), op, if out.Done? then 0 else out.steps); }
      assert MemoAt(Next(w, e).mem, id) == Look(Next(w, e), id).memo;
    case Brush(i, t) =>
      BrushLook(w, i, t);
      assert MemoAt(Next(w, e).mem, id) == Look(Next(w, e), id).memo;
    case PowerLoss =>
    case Recover(how, p) =>
      RecoveredMemAt(w.disk, how, id);
  }

  lemma TaintStays(w: World, e: Event, id: Id)
    requires Inv(w) && Can(w, e) && Tainted(w, id)
    ensures Tainted(Next(w, e), id)
  {
    TaintCellStays(w, e, id);
    if Next(w, e).Up? { TaintMemoStays(w, e, id); }
  }

  lemma TaintStep(ws: seq<World>, es: seq<Event>, i: nat, id: Id)
    requires IsRun(ws, es) && Inv(ws[0]) && i < |es| && Tainted(ws[i], id)
    ensures Tainted(ws[i + 1], id)
  {
    RunKeeps(ws, es, i);
    var w, e := ws[i], es[i];
    assert Follows(ws, es, i);
    TaintStays(w, e, id);
  }

  /** Once an identity is tainted it stays tainted. */
  lemma {:induction false} TaintIsForever(ws: seq<World>, es: seq<Event>, m: nat, n: nat, id: Id)
    requires IsRun(ws, es) && Inv(ws[0]) && m <= n <= |es| && Tainted(ws[m], id)
    ensures Tainted(ws[n], id)
    decreases n
  {
    if n > m {
      TaintIsForever(ws, es, m, n - 1, id);
      TaintStep(ws, es, n - 1, id);
    }
  }

  lemma QuarantineTaints(w: World, op: Op)
    requires Inv(w) && Can(w, Call(op, Done))
    requires op.Quarantine? || (op.CloseWriter? && ClosesIntoQuarantine(Look(w, op.id)))
    ensures Tainted(Next(w, Call(op, Done)), op.id)
  {
    var l := Look(w, op.id);
    assert LocalOk(l, op.id);
    CallLook(w, op, Done);
    var m := QuarantinedManifest(l.memo.entry.value.manifest, if op.Quarantine? then op.reason else UNCONFIRMED, op.at);
    QuarantineResult(l.cell, m, 4);
    assert Look(Next(w, Call(op, Done)), op.id) == DoneLocal(l, op);
  }

  /** Never a success, on disk or in memory; and while staged, quarantined, pinned and failed. */
  ghost predicate NeverSucceeds(w: World, id: Id) {
    && (id in w.disk.bundles ==>
          w.disk.bundles[id].manifest.Some? && !w.disk.bundles[id].manifest.value.status.Complete?)
    && (id in w.disk.staging ==>
          w.disk.staging[id].manifest.Some? && !w.disk.staging[id].manifest.value.status.Complete?)
    && (w.Up? && id in w.mem.entries ==>
          var e := w.mem.entries[id];
          e.manifest.status.Failed? && (e.staged ==> e.manifest.quarantined && e.pinned))
  }

  lemma TaintedNeverSucceeds(w: World, id: Id)
    requires Inv(w) && Tainted(w, id)
    ensures NeverSucceeds(w, id)
  {
    assert TaintedCell(At(w.disk, id));
    if w.Up? { assert LocalOk(Look(w, id), id); }
  }

  /** Quarantine is final: once a quarantine call has returned, or a writer has closed unpublished, no run
      (crashes, recoveries, resumed writers and outside writes included) ever shows the identity as a success. */
  lemma QuarantineIsFinal(ws: seq<World>, es: seq<Event>, i: nat, op: Op, n: nat)
    requires IsRun(ws, es) && ws[0] == Fresh && i < n <= |es| && es[i] == Call(op, Done)
    requires op.Quarantine? || (op.CloseWriter? && ws[i].Up? && ClosesIntoQuarantine(Look(ws[i], op.id)))
    ensures NeverSucceeds(ws[n], op.id)
  {
    hide NeverSucceeds, Tainted, Can, Next, Inv;
    FreshOk();
    RunKeeps(ws, es, i);
    assert Follows(ws, es, i);
    QuarantineTaints(ws[i], op);
    TaintIsForever(ws, es, i + 1, n, op.id);
    RunKeeps(ws, es, n);
    TaintedNeverSucceeds(ws[n], op.id);
  }

  // ----- Protection -----

  /** In every interleaving the lease counter is the number of live handles, a live writer handle means an
      active writer, and the trash and the deletion accounts hold expired identities only. */
  lemma AccountsAgree(ws: seq<World>, es: seq<Event>, i: nat, id: Id)
    requires IsRun(ws, es) && ws[0] == Fresh && i <= |es| && ws[i].Up?
    ensures var w := ws[i];
            && (id in w.mem.entries ==> w.mem.entries[id].leases == w.leases[id])
            && (id !in w.mem.entries ==> w.leases[id] == 0 && id !in w.writers)
            && (id in w.writers ==> id in w.mem.entries && w.mem.entries[id].writerActive)
            && (id in w.disk.trash ==> id in w.mem.trashUsage)
            && (id in w.mem.trashUsage ==> id in w.mem.expirations && id in w.disk.expired)
            && !(id in w.mem.entries && id in w.mem.expirations)
  {
    FreshOk();
    RunKeeps(ws, es, i);
    assert LocalOk(Look(ws[i], id), id);
  }

  /** A published bundle that is gone was claimed at a moment when nothing protected it: it was not pinned,
      no lease handle and no writer handle was live. */
  lemma {:induction false} OnlyUnprotectedAreDeleted(ws: seq<World>, es: seq<Event>, n: nat, id: Id, m: Manifest)
    returns (i: nat)
    requires IsRun(ws, es) && Inv(ws[0]) && n <= |es| && Holds(ws[0], id, m) && !Holds(ws[n], id, m)
    ensures i < n && Claims(es[i], id)
    ensures var s := ws[i];
            && s.Up? && id in s.mem.entries && s.leases[id] == 0 && id !in s.writers
            && var e := s.mem.entries[id]; !e.staged && !e.pinned && e.leases == 0 && !e.writerActive
  {
    hide Effect, Enabled, Plan, Finished, Broken, Touched;
    if !Holds(ws[n - 1], id, m) {
      i := OnlyUnprotectedAreDeleted(ws, es, n - 1, id, m);
    } else {
      i := n - 1;
      RunKeeps(ws, es, i);
      assert Follows(ws, es, i);
      if !Claims(es[i], id) { PublishedStays(ws[i], es[i], id, m); }
      assert LocalOk(Look(ws[i], id), id);
    }
  }

  // ----- Attempts left without a writer and without quarantine -----

  /** A row that nobody owns and nothing protects but its being staged. */
  predicate AbandonedMemo(m: Memo) {
    m.entry.Some? && m.entry.value.staged && !m.entry.value.writerActive && !m.entry.value.manifest.quarantined
  }

  ghost predicate Abandoned(w: World, id: Id) {
    w.Up? && AbandonedMemo(MemoAt(w.mem, id))
  }

  /** A `begin` that fails after making the attempt's row. */
  predicate FailedBegin(e: Event, id: Id) {
    e.Call? && e.op.Begin? && e.op.id == id && e.out.Failed? && e.out.steps > 0
  }

  lemma AbandonedOp(l: Local, op: Op, k: nat)
    requires Admits(l, op) && LocalOk(l, op.id) && k <= |Plan(l, op)|
    ensures !op.Begin? ==> (AbandonedMemo(Finished(l, op).memo) <==> AbandonedMemo(l.memo))
    ensures !op.Begin? ==> (AbandonedMemo(Broken(l, op, k).memo) <==> AbandonedMemo(l.memo))
    ensures op.Begin? ==> !AbandonedMemo(l.memo) && !AbandonedMemo(Finished(l, op).memo)
    ensures op.Begin? ==> (AbandonedMemo(Broken(l, op, k).memo) <==> k > 0)
  {
  }

  lemma AbandonedTouch(l: Local, t: Touch)
    requires Allows(l, t)
    ensures AbandonedMemo(Touched(l, t).memo) <==> AbandonedMemo(l.memo)
  {
  }

  lemma AbandonedCall(w: World, op: Op, out: Outcome, id: Id)
    requires Inv(w) && Can(w, Call(op, out)) && !out.Cut?
    ensures Abandoned(Next(w, Call(op, out)), id) <==> FailedBegin(Call(op, out), id) || Abandoned(w, id)
  {
    hide Plan, Finished, Broken, Effect, Enabled, After;
    CallLook(w, op, out);
    assert LocalOk(Look(w, op.id), op.id);
    AbandonedOp(Look(w, op.id), op, if out.Done? then 0 else out.steps);
    var r := Next(w, Call(op, out));
    assert MemoAt(r.mem, id) == Look(r, id).memo;
  }

  lemma AbandonedStep(w: World, e: Event, id: Id)
    requires Inv(w) && Can(w, e)
    ensures Abandoned(Next(w, e), id) <==> FailedBegin(e, id) || (Abandoned(w, id) && Next(w, e).Up?)
  {
    hide Effect, Enabled, Plan, Finished, Broken, Touched;
    match e
    case Call(op, out) => if !out.Cut? { AbandonedCall(w, op, out, id); }
    case Brush(i, t) =>
      BrushLook(w, i, t);
      AbandonedTouch(Look(w, i), t);
      assert MemoAt(Next(w, e).mem, id) == Look(Next(w, e), id).memo;
    case PowerLoss =>
    case Recover(how, p) =>
      if p.All? {
        RecoveredMemAt(w.disk, how, id);
        assert CellOk(At(w.disk, id), id);
      }
  }

  // ----- Directories left in staging without a row -----

  predicate OrphanLocal(l: Local) {
    l.cell.staging.Some? && l.memo.entry.None?
  }

  /** A directory in staging that no row knows: nothing charges, publishes, quarantines or deletes it. */
  ghost predicate Orphan(w: World, id: Id) {
    w.Up? && id in w.disk.staging && id !in w.mem.entries
  }

  /** A `begin` that cannot open the directory it has just made. */
  predicate StrandedBegin(e: Event, id: Id) {
    e == Brush(id, Strand)
  }

  lemma OrphanOp(l: Local, op: Op, k: nat)
    requires Admits(l, op) && LocalOk(l, op.id) && k <= |Plan(l, op)|
    ensures !OrphanLocal(l) && !OrphanLocal(DoneLocal(l, op)) && !OrphanLocal(FailedLocal(l, op, k))
  {
    match op
    case Claim(_, _) =>
      ClaimResult(l, op, k);
      ClaimResult(l, op, 3);
    case _ =>
  }

  lemma OrphanTouch(l: Local, t: Touch)
    requires Allows(l, t)
    ensures OrphanLocal(Touched(l, t)) <==> t.Strand? || OrphanLocal(l)
  {
  }

  lemma OrphanCall(w: World, op: Op, out: Outcome, id: Id)
    requires Inv(w) && Can(w, Call(op, out)) && !out.Cut?
    ensures Orphan(Next(w, Call(op, out)), id) <==> Orphan(w, id)
  {
    hide Plan, Finished, Broken, Effect, Enabled, After, DoneLocal, FailedLocal;
    CallLook(w, op, out);
    assert LocalOk(Look(w, op.id), op.id);
    OrphanOp(Look(w, op.id), op, if out.Done? then 0 else out.steps);
    var r := Next(w, Call(op, out));
    assert OrphanLocal(Look(r, id)) <==> OrphanLocal(Look(w, id));
  }

  lemma OrphanRecover(w: World, how: How, p: Progress, id: Id)
    requires Inv(w) && Can(w, Recover(how, p))
    ensures !Orphan(Next(w, Recover(how, p)), id)
  {
    if p.All? {
      assert CellOk(At(w.disk, id), id);
      RecoverLook(w, how, id);
      RecoveryKeeps(At(w.disk, id), id, how);
      assert !OrphanLocal(Look(Next(w, Recover(how, p)), id));
    }
  }

  lemma OrphanStep(w: World, e: Event, id: Id)
    requires Inv(w) && Can(w, e)
    ensures Orphan(Next(w, e), id) <==> StrandedBegin(e, id) || (Orphan(w, id) && Next(w, e).Up?)
  {
    hide Effect, Enabled, Plan, Finished, Broken, Touched;
    match e
    case Call(op, out) => if !out.Cut? { OrphanCall(w, op, out, id); }
    case Brush(i, t) =>
      BrushLook(w, i, t);
      OrphanTouch(Look(w, i), t);
      assert OrphanLocal(Look(Next(w, e), id)) <==> Orphan(Next(w, e), id);
    case PowerLoss =>
    case Recover(how, p) => OrphanRecover(w, how, p, id);
  }

  // ----- What a failing `begin` leaves behind stays exactly until the next restart -----

  datatype Leftover = Row | Directory

  predicate Leaves(e: Event, id: Id, left: Leftover) {
    if left.Row? then FailedBegin(e, id) else StrandedBegin(e, id)
  }

  /** Event `i` left this behind, and the store has not been restarted since. */
  ghost predicate LeftAt(ws: seq<World>, es: seq<Event>, i: nat, n: nat, id: Id, left: Leftover)
    requires n <= |es| && |ws| == |es| + 1
  {
    i < n && Leaves(es[i], id, left) && forall j: nat :: i < j <= n ==> ws[j].Up?
  }

  /** An attempt is staged without active writer and without quarantine exactly if its `begin` failed after making
      the row and the store has not been restarted since: nothing else leads there, and nothing but a restart
      leads out. */
  lemma {:induction false} AbandonedIff(ws: seq<World>, es: seq<Event>, n: nat, id: Id)
    requires IsRun(ws, es) && ws[0] == Fresh && n <= |es|
    ensures Abandoned(ws[n], id) <==> exists i: nat :: LeftAt(ws, es, i, n, id, Row)
  {
    if n > 0 {
      AbandonedIff(ws, es, n - 1, id);
      FreshOk();
      RunKeeps(ws, es, n - 1);
      assert Follows(ws, es, n - 1);
      AbandonedStep(ws[n - 1], es[n - 1], id);
      LeftAtSnoc(ws, es, n, id, Row);
    }
  }

  /** A directory lies in staging without a row exactly if a `begin` made it without opening it and the store has
      not been restarted since. */
  lemma {:induction false} OrphanIff(ws: seq<World>, es: seq<Event>, n: nat, id: Id)
    requires IsRun(ws, es) && ws[0] == Fresh && n <= |es|
    ensures Orphan(ws[n], id) <==> exists i: nat :: LeftAt(ws, es, i, n, id, Directory)
  {
    if n > 0 {
      OrphanIff(ws, es, n - 1, id);
      FreshOk();
      RunKeeps(ws, es, n - 1);
      assert Follows(ws, es, n - 1);
      OrphanStep(ws[n - 1], es[n - 1], id);
      LeftAtSnoc(ws, es, n, id, Directory);
    }
  }

  lemma LeftAtSnoc(ws: seq<World>, es: seq<Event>, n: nat, id: Id, left: Leftover)
    requires |ws| == |es| + 1 && 0 < n <= |es| && (Leaves(es[n - 1], id, left) ==> ws[n].Up?)
    ensures (exists i: nat :: LeftAt(ws, es, i, n, id, left)) <==>
            Leaves(es[n - 1], id, left) || (ws[n].Up? && var m := n - 1; exists i: nat :: LeftAt(ws, es, i, m, id, left))
  {
    var m := n - 1;
    if Leaves(es[m], id, left) { assert LeftAt(ws, es, m, n, id, left); }
    if ws[n].Up? && exists i: nat :: LeftAt(ws, es, i, m, id, left) {
      var i: nat :| LeftAt(ws, es, i, m, id, left);
      assert LeftAt(ws, es, i, n, id, left);
    }
    if exists i: nat :: LeftAt(ws, es, i, n, id, left) {
      var i: nat :| LeftAt(ws, es, i, n, id, left);
      if i < m { assert LeftAt(ws, es, i, m, id, left); }
    }
  }

  /** Such a row is reached: the first `begin` of a fresh store fails to make raw/. */
  lemma AbandonedIsReachable(id: Id, created: nat) returns (ws: seq<World>, es: seq<Event>)
    ensures IsRun(ws, es) && ws[0] == Fresh && |es| == 1 && Abandoned(ws[1], id)
  {
    var e := Call(Op.Begin(id, created, 0, [], false), Outcome.Failed(1));
    ws, es := [Fresh, Next(Fresh, e)], [e];
    FreshOk();
    assert Follows(ws, es, 0);
    AbandonedStep(Fresh, e, id);
  }

  /** And such a directory: the first `begin` of a fresh store cannot open what it has made. */
  lemma OrphanIsReachable(id: Id) returns (ws: seq<World>, es: seq<Event>)
    ensures IsRun(ws, es) && ws[0] == Fresh && |es| == 1 && Orphan(ws[1], id)
  {
    var e := Brush(id, Strand);
    ws, es := [Fresh, Next(Fresh, e)], [e];
    FreshOk();
    assert Follows(ws, es, 0);
    OrphanStep(Fresh, e, id);
  }
}
