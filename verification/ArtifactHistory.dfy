/** What runs of the store keep of one attempt from its `begin` on: where its metadata comes from, what a bundle owes
    to its publication, and what a pin protects. */
module ArtifactHistory {
  import opened Prelude
  import opened ArtifactDisk
  import opened ArtifactProtocol
  import opened ArtifactRecovery
  import opened ArtifactWorld
  import opened ArtifactUsage

  // ----- Required outputs, creation time and provenance -----

  /** What a `begin` laid down for good. */
  datatype Origin = Origin(created: nat, required: seq<string>)

  /** The manifest is of this origin, and its provenance is one of these. */
  predicate OfOrigin(m: Manifest, o: Origin, provenances: set<nat>) {
    m.created == o.created && m.required == o.required && m.provenance in provenances
  }

  ghost predicate BornDir(d: Dir, o: Origin, ps: set<nat>) {
    d.manifest.Some? && OfOrigin(d.manifest.value, o, ps)
  }

  ghost predicate BornCell(c: Cell, o: Origin, ps: set<nat>) {
    && (c.staging.Some? || c.bundle.Some? || c.record.Some?)
    && (c.staging.Some? ==> BornDir(c.staging.value, o, ps)) && (c.bundle.Some? ==> BornDir(c.bundle.value, o, ps))
    && (c.record.Some? ==> c.record.value.summary.created == o.created)
  }

  ghost predicate BornMemo(m: Memo, o: Origin, ps: set<nat>) {
    && (m.entry.Some? ==> OfOrigin(m.entry.value.manifest, o, ps))
    && (m.expiration.Some? ==> m.expiration.value.created == o.created)
  }

  /** Wherever the identity is found, it is of this origin. */
  ghost predicate Born(w: World, id: Id, o: Origin, ps: set<nat>) {
    BornCell(At(w.disk, id), o, ps) && (w.Up? ==> BornMemo(MemoAt(w.mem, id), o, ps))
  }

  /** A provenance given to the identity by this event. */
  predicate Gives(e: Event, id: Id, p: nat) {
    e.Call? && e.op.UpdateProvenance? && e.op.id == id && e.op.provenance == p
  }

  lemma BornOp(l: Local, op: Op, k: nat, o: Origin, ps: set<nat>)
    requires Admits(l, op) && LocalOk(l, op.id) && BornCell(l.cell, o, ps) && BornMemo(l.memo, o, ps) && k <= |Plan(l, op)|
    requires op.UpdateProvenance? ==> op.provenance in ps
    ensures BornCell(After(l.cell, Plan(l, op), k), o, ps)
  {
    match op
    case Begin(_, _, _, _, _) =>
    case Quarantine(_, reason, at) => BornQuarantine(l.cell, QuarantinedManifest(l.memo.entry.value.manifest, reason, at), k, o, ps);
    case CloseWriter(_, at) =>
      if ClosesIntoQuarantine(l) {
        BornQuarantine(l.cell, QuarantinedManifest(l.memo.entry.value.manifest, UNCONFIRMED, at), k, o, ps);
      }
    case Publish(_, _, _, _) => PublishResult(l, op, k);
    case UpdateProvenance(_, _) => ProvenanceResult(l, op, k);
    case Pin(_, pinned) => PinResult(l.cell, l.memo.entry.value.staged, pinned, k);
    case Claim(_, _) => ClaimResult(l, op, k);
    case SweepTemps(_) => assert k == 1 ==> After(l.cell, Plan(l, op), 1) == Effect(l.cell, CleanTemps(true));
  }

  lemma BornQuarantine(c: Cell, m: Manifest, k: nat, o: Origin, ps: set<nat>)
    requires c.staging.Some? && BornCell(c, o, ps) && OfOrigin(m, o, ps) && k <= 4
    ensures BornCell(After(c, QuarantinePlan(m), k), o, ps)
  {
    QuarantineResult(c, m, k);
    if k < 4 { QuarantineEarly(c, m, k); }
  }

  lemma BornMemoOp(l: Local, op: Op, k: nat, o: Origin, ps: set<nat>)
    requires Admits(l, op) && LocalOk(l, op.id) && BornCell(l.cell, o, ps) && BornMemo(l.memo, o, ps) && k <= |Plan(l, op)|
    requires op.UpdateProvenance? ==> op.provenance in ps
    ensures BornMemo(Finished(l, op).memo, o, ps) && BornMemo(Broken(l, op, k).memo, o, ps)
  {
  }

  lemma BornRecovery(c: Cell, id: Id, how: How, k: nat, o: Origin, ps: set<nat>)
    requires CellOk(c, id) && BornCell(c, o, ps) && k <= |RecoveryPlan(c, id, how)|
    ensures BornCell(After(c, RecoveryPlan(c, id, how), k), o, ps)
    ensures BornMemo(RecoveredMemo(c, id, how), o, ps)
  {
    if c.bundle.Some? {
      BundleRecovery(c, id, how, k);
    } else if c.staging.Some? {
      if FinishesPublication(c.staging.value, id) { PublishRecovery(c, id, how, k); }
      else { BornRequarantine(c, id, how, k, o, ps); }
    } else if c.trash.Some? {
      TrashRecovery(c, c.trash.value, Get(how.stuck, id), k);
    }
  }

  lemma BornRequarantine(c: Cell, id: Id, how: How, k: nat, o: Origin, ps: set<nat>)
    requires CellOk(c, id) && BornCell(c, o, ps) && c.staging.Some? && !FinishesPublication(c.staging.value, id)
    requires k <= |RecoveryPlan(c, id, how)|
    ensures BornCell(After(c, RecoveryPlan(c, id, how), k), o, ps)
  {
    var m := Requarantined(c.staging.value, id, how);
    QuarantineRecovery(c, id, how, k);
    if k <= 3 {
      AfterFirst(c, OpenPlan, QuarantinePlan(m), k);
      OpenRecovery(c, k);
    } else {
      AfterSecond(c, OpenPlan, QuarantinePlan(m), k - 3);
      OpenRecovery(c, 3);
      BornQuarantine(After(c, OpenPlan, 3), m, k - 3, o, ps);
    }
  }

  lemma BornTouch(l: Local, t: Touch, id: Id, o: Origin, ps: set<nat>)
    requires Allows(l, t) && LocalOk(l, id) && BornCell(l.cell, o, ps) && BornMemo(l.memo, o, ps)
    ensures BornCell(Touched(l, t).cell, o, ps) && BornMemo(Touched(l, t).memo, o, ps)
  {
  }

  lemma BornCellStep(w: World, e: Event, id: Id, o: Origin, ps: set<nat>)
    requires Inv(w) && Can(w, e) && Born(w, id, o, ps) && forall p :: Gives(e, id, p) ==> p in ps
    ensures BornCell(At(Next(w, e).disk, id), o, ps)
  {
    hide BornCell, BornMemo;
    var k := EventCell(w, e, id);
    if w.Up? { assert LocalOk(Look(w, id), id); }
    if e.Call? && e.op.id == id {
      assert e.op.UpdateProvenance? ==> Gives(e, id, e.op.provenance);
      BornOp(Look(w, id), e.op, k, o, ps);
    }
    if e.Brush? && e.id == id { BornTouch(Look(w, id), e.touch, id, o, ps); }
    if e.Recover? { BornRecovery(At(w.disk, id), id, e.how, k, o, ps); }
  }

  lemma BornMemoStep(w: World, e: Event, id: Id, o: Origin, ps: set<nat>)
    requires Inv(w) && Can(w, e) && Born(w, id, o, ps) && Next(w, e).Up? && forall p :: Gives(e, id, p) ==> p in ps
    ensures BornMemo(MemoAt(Next(w, e).mem, id), o, ps)
  {
    hide BornCell, BornMemo, Plan, Finished, Broken;
    match e
    case Call(op, out) =>
      CallLook(w, op, out);
      assert LocalOk(Look(w, id), id);
      if op.id == id {
        assert op.UpdateProvenance? ==> Gives(e, id, op.provenance);
        BornMemoOp(Look(w, id), op, if out.Done? then 0 else out.steps, o, ps);
      }
      assert MemoAt(Next(w, e).mem, id) == Look(Next(w, e), id).memo;
    case Brush(i, t) =>
      BrushLook(w, i, t);
      assert LocalOk(Look(w, id), id);
      if i == id { BornTouch(Look(w, id), t, id, o, ps); }
      assert MemoAt(Next(w, e).mem, id) == Look(Next(w, e), id).memo;
    case PowerLoss =>
    case Recover(how, p) =>
      RecoveredMemAt(w.disk, how, id);
      BornRecovery(At(w.disk, id), id, how, 0, o, ps);
  }

  lemma BornStep(w: World, e: Event, id: Id, o: Origin, ps: set<nat>)
    requires Inv(w) && Can(w, e) && Born(w, id, o, ps) && forall p :: Gives(e, id, p) ==> p in ps
    ensures Born(Next(w, e), id, o, ps)
  {
    hide BornCell, BornMemo;
    BornCellStep(w, e, id, o, ps);
    if Next(w, e).Up? { BornMemoStep(w, e, id, o, ps); }
  }

  /** No event between `m` and `n` gives another provenance. */
  ghost predicate GivenOnly(es: seq<Event>, m: nat, n: nat, id: Id, ps: set<nat>) {
    n <= |es| && forall j, p :: m <= j < n && Gives(es[j], id, p) ==> p in ps
  }

  lemma {:induction false} BornStays(ws: seq<World>, es: seq<Event>, m: nat, n: nat, id: Id, o: Origin, ps: set<nat>)
    requires IsRun(ws, es) && Inv(ws[0]) && m <= n <= |es| && Born(ws[m], id, o, ps) && GivenOnly(es, m, n, id, ps)
    ensures Born(ws[n], id, o, ps)
    decreases n
  {
    hide Born, Can, Next;
    if n > m {
      BornStays(ws, es, m, n - 1, id, o, ps);
      RunKeeps(ws, es, n - 1);
      assert Follows(ws, es, n - 1);
      BornStep(ws[n - 1], es[n - 1], id, o, ps);
    }
  }

  lemma BeginBears(w: World, op: Op)
    requires Inv(w) && op.Begin? && Can(w, Call(op, Done))
    ensures Born(Next(w, Call(op, Done)), op.id, Origin(op.created, op.required), {op.provenance})
  {
    var l := Look(w, op.id);
    assert LocalOk(l, op.id);
    CallLook(w, op, Done);
    BeginInstalls(l, op);
    assert Look(Next(w, Call(op, Done)), op.id) == DoneLocal(l, op);
  }

  /** A finished `begin` leaves a staged directory with its manifest and pin, and nothing else. */
  lemma BeginInstalls(l: Local, op: Op)
    requires op.Begin? && Admits(l, op) && LocalOk(l, op.id)
    ensures var c := After(l.cell, Plan(l, op), |Plan(l, op)|);
            && c.(staging := None) == EmptyCell && c.staging.Some? && c.staging.value.manifest.Some?
            && c.staging.value.pin == Some(op.pinned)
            && var m := c.staging.value.manifest.value;
            m.created == op.created && m.required == op.required && m.provenance == op.provenance && m.status.Staging?
  {
    BeginResult(l, op, |Plan(l, op)|);
    var p, c := Plan(l, op), l.cell;
    assert After(c, p, 1) == EmptyCell.(staging := Some(NewDir));
    assert After(c, p, 2) == Effect(After(c, p, 1), p[1]);
    assert After(c, p, 3) == Effect(After(c, p, 2), p[2]);
    assert After(c, p, 4) == Effect(After(c, p, 3), p[3]);
    assert After(c, p, 5) == Effect(After(c, p, 4), p[4]);
    assert After(c, p, 6) == Effect(After(c, p, 5), p[5]);
  }

  /** An attempt keeps what its `begin` was given, whatever happens: its creation time, the outputs it requires, and as
      provenance that of `begin` or one given since. */
  lemma OriginIsKept(ws: seq<World>, es: seq<Event>, i: nat, op: Op, n: nat, ps: set<nat>)
    requires IsRun(ws, es) && ws[0] == Fresh && i < n <= |es| && es[i] == Call(op, Done) && op.Begin?
    requires op.provenance in ps && GivenOnly(es, i + 1, n, op.id, ps)
    ensures Born(ws[n], op.id, Origin(op.created, op.required), ps)
  {
    hide Can, Next, Inv, BornCell, BornMemo;
    FreshOk();
    RunKeeps(ws, es, i);
    assert Follows(ws, es, i);
    BeginBears(ws[i], op);
    MoreProvenances(ws[i + 1], op.id, Origin(op.created, op.required), {op.provenance}, ps);
    BornStays(ws, es, i + 1, n, op.id, Origin(op.created, op.required), ps);
  }

  lemma MoreProvenances(w: World, id: Id, o: Origin, ps: set<nat>, qs: set<nat>)
    requires Born(w, id, o, ps) && ps <= qs
    ensures Born(w, id, o, qs)
  {
  }

  /** The latest provenance given is the one kept, unless a later update was begun. */
  lemma ProvenanceIsLatest(ws: seq<World>, es: seq<Event>, i: nat, op: Op, n: nat, o: Origin, ps: set<nat>)
    requires IsRun(ws, es) && ws[0] == Fresh && i < n <= |es| && es[i] == Call(op, Done) && op.UpdateProvenance?
    requires Born(ws[i], op.id, o, ps) && GivenOnly(es, i + 1, n, op.id, {op.provenance})
    ensures Born(ws[n], op.id, o, {op.provenance})
  {
    hide Can, Next, Inv, BornCell, BornMemo;
    FreshOk();
    RunKeeps(ws, es, i);
    assert Follows(ws, es, i);
    UpdateBears(ws[i], op, o, ps);
    BornStays(ws, es, i + 1, n, op.id, o, {op.provenance});
  }

  lemma UpdateBears(w: World, op: Op, o: Origin, ps: set<nat>)
    requires Inv(w) && op.UpdateProvenance? && Can(w, Call(op, Done)) && Born(w, op.id, o, ps)
    ensures Born(Next(w, Call(op, Done)), op.id, o, {op.provenance})
  {
    var l := Look(w, op.id);
    assert LocalOk(l, op.id);
    CallLook(w, op, Done);
    ProvenanceResult(l, op, 2);
    assert Look(Next(w, Call(op, Done)), op.id) == DoneLocal(l, op);
  }

  /** A bundle that is complete has every output its `begin` required, and none of them is empty. */
  lemma CompleteHasOutputs(ws: seq<World>, es: seq<Event>, i: nat, op: Op, n: nat)
    requires IsRun(ws, es) && ws[0] == Fresh && i < n <= |es| && es[i] == Call(op, Done) && op.Begin?
    requires var b := ws[n].disk.bundles;
             op.id in b && b[op.id].manifest.Some? && b[op.id].manifest.value.status.Complete?
    ensures var files := ws[n].disk.bundles[op.id].files;
            forall r :: r in op.required ==> r in files && files[r] > 0
  {
    var ps := Provenances(es, i + 1, n, op.id) + {op.provenance};
    OriginIsKept(ws, es, i, op, n, ps);
    FreshOk();
    RunKeeps(ws, es, n);
    InvCell(ws[n], op.id);
  }

  /** Every provenance given in a stretch of events. */
  ghost function Provenances(es: seq<Event>, m: nat, n: nat, id: Id): (ps: set<nat>)
    requires n <= |es|
    ensures GivenOnly(es, m, n, id, ps)
  {
    set j | m <= j < n && es[j].Call? && es[j].op.UpdateProvenance? :: es[j].op.provenance
  }

  lemma InvCell(w: World, id: Id)
    requires Inv(w)
    ensures CellOk(At(w.disk, id), id)
  {
    if w.Up? { assert LocalOk(Look(w, id), id); }
  }

  // ----- Publications -----

  /** The manifest of a bundle that only the rename still keeps in staging, or that is published. */
  ghost predicate Final(c: Cell, m: Manifest) {
    || (c.staging.Some? && c.staging.value.manifest == Some(m) && !m.status.Staging? && !m.quarantined)
    || (c.bundle.Some? && c.bundle.value.manifest == Some(m))
  }

  /** The event is a publication that asks for this manifest: its status, reason and time are those of the call, its
      files those found in staging. */
  ghost predicate Asks(w: World, e: Event, id: Id, m: Manifest) {
    && w.Up? && e.Call? && e.op.Publish? && e.op.id == id && id in w.disk.staging
    && (if e.op.success then m.status.Complete? else m.status.Failed?) && m.reason == e.op.reason && !m.quarantined
    && m.completed == Some(if e.op.at < m.created then m.created else e.op.at)
    && m.files == w.disk.staging[id].files
  }

  lemma FinalOp(l: Local, op: Op, k: nat, m: Manifest)
    requires Admits(l, op) && LocalOk(l, op.id) && k <= |Plan(l, op)| && Final(After(l.cell, Plan(l, op), k), m)
    ensures Final(l.cell, m) ||
            (op.Publish? && l.cell.staging.Some? && m.files == l.cell.staging.value.files && m.reason == op.reason &&
             !m.quarantined && (if op.success then m.status.Complete? else m.status.Failed?) &&
             m.completed == Some(if op.at < m.created then m.created else op.at))
  {
    match op
    case Begin(_, _, _, _, _) =>
      if 0 < k < |Plan(l, op)| { BeginNotFinal(l, op, k); }
      BeginInstalls(l, op);
    case Quarantine(_, reason, at) => NotFinal(l.cell, QuarantinedManifest(l.memo.entry.value.manifest, reason, at), k);
    case CloseWriter(_, at) =>
      if ClosesIntoQuarantine(l) { NotFinal(l.cell, QuarantinedManifest(l.memo.entry.value.manifest, UNCONFIRMED, at), k); }
    case Publish(_, _, _, _) => PublishResult(l, op, k);
    case UpdateProvenance(_, _) => ProvenanceResult(l, op, k);
    case Pin(_, pinned) => PinResult(l.cell, l.memo.entry.value.staged, pinned, k);
    case Claim(_, _) => ClaimResult(l, op, k);
    case SweepTemps(_) => assert k == 1 ==> After(l.cell, Plan(l, op), 1) == Effect(l.cell, CleanTemps(true));
  }

  lemma BeginNotFinal(l: Local, op: Op, k: nat)
    requires op.Begin? && Admits(l, op) && LocalOk(l, op.id) && 0 < k < |Plan(l, op)|
    ensures After(l.cell, Plan(l, op), k).(staging := None) == EmptyCell
    ensures After(l.cell, Plan(l, op), k).staging.Some? && After(l.cell, Plan(l, op), k).staging.value.manifest.None?
  {
    BeginResult(l, op, k);
    var p, c := Plan(l, op), l.cell;
    assert After(c, p, 1) == EmptyCell.(staging := Some(NewDir));
    assert k >= 2 ==> After(c, p, 2) == Effect(After(c, p, 1), p[1]);
    assert k >= 3 ==> After(c, p, 3) == Effect(After(c, p, 2), p[2]);
    assert k >= 4 ==> After(c, p, 4) == Effect(After(c, p, 3), p[3]);
    assert k >= 5 ==> After(c, p, 5) == Effect(After(c, p, 4), p[4]);
    assert k >= 6 ==> After(c, p, 6) == Effect(After(c, p, 5), p[5]);
  }

  /** Quarantine never makes a manifest final. */
  lemma NotFinal(c: Cell, m: Manifest, k: nat)
    requires c.staging.Some? && m.quarantined && k <= 4
    ensures forall f :: Final(After(c, QuarantinePlan(m), k), f) ==> Final(c, f)
  {
    QuarantineResult(c, m, k);
    if k < 4 { QuarantineEarly(c, m, k); }
  }

  lemma FinalRecovery(c: Cell, id: Id, how: How, k: nat, m: Manifest)
    requires CellOk(c, id) && k <= |RecoveryPlan(c, id, how)| && Final(After(c, RecoveryPlan(c, id, how), k), m)
    ensures Final(c, m)
  {
    if c.bundle.Some? {
      BundleRecovery(c, id, how, k);
    } else if c.staging.Some? {
      if FinishesPublication(c.staging.value, id) { PublishRecovery(c, id, how, k); }
      else { FinalRequarantine(c, id, how, k, m); }
    } else if c.trash.Some? {
      TrashRecovery(c, c.trash.value, Get(how.stuck, id), k);
    }
  }

  lemma FinalRequarantine(c: Cell, id: Id, how: How, k: nat, m: Manifest)
    requires CellOk(c, id) && c.staging.Some? && !FinishesPublication(c.staging.value, id)
    requires k <= |RecoveryPlan(c, id, how)| && Final(After(c, RecoveryPlan(c, id, how), k), m)
    ensures Final(c, m)
  {
    var q := Requarantined(c.staging.value, id, how);
    if k <= 3 {
      AfterFirst(c, OpenPlan, QuarantinePlan(q), k);
      OpenRecovery(c, k);
    } else {
      AfterSecond(c, OpenPlan, QuarantinePlan(q), k - 3);
      OpenRecovery(c, 3);
      NotFinal(After(c, OpenPlan, 3), q, k - 3);
    }
  }

  lemma FinalTouch(l: Local, t: Touch, id: Id, m: Manifest)
    requires Allows(l, t) && LocalOk(l, id) && Final(Touched(l, t).cell, m)
    ensures Final(l.cell, m)
  {
  }

  lemma FinalStep(w: World, e: Event, id: Id, m: Manifest)
    requires Inv(w) && Can(w, e) && Final(At(Next(w, e).disk, id), m)
    ensures Final(At(w.disk, id), m) || Asks(w, e, id, m)
  {
    hide Final;
    var k := EventCell(w, e, id);
    if w.Up? { assert LocalOk(Look(w, id), id); }
    if e.Call? && e.op.id == id { FinalOp(Look(w, id), e.op, k, m); }
    if e.Brush? && e.id == id { FinalTouch(Look(w, id), e.touch, id, m); }
    if e.Recover? { FinalRecovery(At(w.disk, id), id, e.how, k, m); }
  }

  /** Nothing is published but by a publication: every bundle in bundles, however it got there, carries the status, the
      reason, the time and the files of a call that asked for it. */
  lemma {:induction false} PublishedWasAsked(ws: seq<World>, es: seq<Event>, n: nat, id: Id, m: Manifest) returns (i: nat)
    requires IsRun(ws, es) && ws[0] == Fresh && n <= |es| && Final(At(ws[n].disk, id), m)
    ensures i < n && Asks(ws[i], es[i], id, m)
  {
    hide Can, Next, Inv, Final, Asks;
    FreshOk();
    assert n > 0 by { NothingFinal(id, m); }
    RunKeeps(ws, es, n - 1);
    assert Follows(ws, es, n - 1);
    FinalStep(ws[n - 1], es[n - 1], id, m);
    if Asks(ws[n - 1], es[n - 1], id, m) { i := n - 1; } else { i := PublishedWasAsked(ws, es, n - 1, id, m); }
  }

  lemma NothingFinal(id: Id, m: Manifest)
    ensures !Final(At(Fresh.disk, id), m)
  {
  }

  lemma EntryIsFinal(w: World, id: Id)
    requires Inv(w) && w.Up? && id in w.mem.entries && !w.mem.entries[id].staged
    ensures Final(At(w.disk, id), w.mem.entries[id].manifest) && w.mem.entries[id].manifest.completed.Some?
  {
    assert LocalOk(Look(w, id), id);
  }

  /** What retention claims as too old was published at least the age limit ago: a claim for age comes no less than
      `maxAge` seconds after the time of a publication of that bundle, whenever its attempt began. */
  lemma AgedClaimIsOld(o: Options, ws: seq<World>, es: seq<Event>, n: nat, op: Op, out: Outcome, time: nat, additional: nat)
    returns (i: nat)
    requires IsRun(ws, es) && ws[0] == Fresh && n < |es| && es[n] == Call(op, out) && op.Claim?
    requires WantedEvent(o, ws[n], es[n], time, additional) && Aged(o, time, op.record.summary.completed)
    ensures i < n && es[i].Call? && es[i].op.Publish? && es[i].op.id == op.id
    ensures o.maxAge > 0 && time >= es[i].op.at + 1000 * o.maxAge
  {
    hide Inv, Next, Final;
    FreshOk();
    RunKeeps(ws, es, n);
    assert Follows(ws, es, n);
    EntryIsFinal(ws[n], op.id);
    i := PublishedWasAsked(ws, es, n, op.id, ws[n].mem.entries[op.id].manifest);
    AgedMeans(o, time, op.record.summary.completed);
  }

  // ----- Pins -----

  /** The pin file says so, and so does memory. */
  ghost predicate PinnedCell(c: Cell) {
    && (c.staging.Some? || c.bundle.Some?)
    && (c.staging.Some? ==> c.staging.value.pin == Some(true))
    && (c.bundle.Some? ==> c.bundle.value.pin == Some(true))
  }

  ghost predicate Pinned(w: World, id: Id) {
    PinnedCell(At(w.disk, id)) && (w.Up? ==> id in w.mem.entries && w.mem.entries[id].pinned)
  }

  predicate Unpins(e: Event, id: Id) {
    e.Call? && e.op == Op.Pin(id, false)
  }

  lemma PinnedOp(l: Local, op: Op, k: nat)
    requires Admits(l, op) && LocalOk(l, op.id) && PinnedCell(l.cell) && l.memo.entry.Some? && l.memo.entry.value.pinned
    requires k <= |Plan(l, op)| && op != Op.Pin(op.id, false)
    ensures PinnedCell(After(l.cell, Plan(l, op), k)) && !op.Claim?
    ensures Finished(l, op).memo.entry.Some? && Finished(l, op).memo.entry.value.pinned
    ensures Broken(l, op, k).memo.entry.Some? && Broken(l, op, k).memo.entry.value.pinned
  {
    match op
    case Quarantine(_, reason, at) => PinnedQuarantine(l.cell, QuarantinedManifest(l.memo.entry.value.manifest, reason, at), k);
    case CloseWriter(_, at) =>
      if ClosesIntoQuarantine(l) {
        PinnedQuarantine(l.cell, QuarantinedManifest(l.memo.entry.value.manifest, UNCONFIRMED, at), k);
      }
    case Publish(_, _, _, _) => PublishResult(l, op, k);
    case UpdateProvenance(_, _) => ProvenanceResult(l, op, k);
    case Pin(_, pinned) => PinResult(l.cell, l.memo.entry.value.staged, pinned, k);
    case SweepTemps(_) => assert k == 1 ==> After(l.cell, Plan(l, op), 1) == Effect(l.cell, CleanTemps(true));
    case _ =>
  }

  lemma PinnedQuarantine(c: Cell, m: Manifest, k: nat)
    requires c.staging.Some? && PinnedCell(c) && k <= 4
    ensures PinnedCell(After(c, QuarantinePlan(m), k))
  {
    QuarantineResult(c, m, k);
    var p := QuarantinePlan(m);
    assert k >= 1 ==> After(c, p, 1) == Effect(c, p[0]);
    assert k >= 2 ==> After(c, p, 2) == Effect(After(c, p, 1), p[1]);
    assert k >= 3 ==> After(c, p, 3) == Effect(After(c, p, 2), p[2]);
  }

  lemma PinnedRecovery(c: Cell, id: Id, how: How, k: nat)
    requires CellOk(c, id) && PinnedCell(c) && k <= |RecoveryPlan(c, id, how)|
    ensures PinnedCell(After(c, RecoveryPlan(c, id, how), k))
    ensures RecoveredMemo(c, id, how).entry.Some? && RecoveredMemo(c, id, how).entry.value.pinned
  {
    if c.bundle.Some? {
      BundleRecovery(c, id, how, k);
    } else {
      if FinishesPublication(c.staging.value, id) { PublishRecovery(c, id, how, k); }
      else { PinnedRequarantine(c, id, how, k); }
    }
  }

  lemma PinnedRequarantine(c: Cell, id: Id, how: How, k: nat)
    requires CellOk(c, id) && PinnedCell(c) && c.staging.Some? && !FinishesPublication(c.staging.value, id)
    requires k <= |RecoveryPlan(c, id, how)|
    ensures PinnedCell(After(c, RecoveryPlan(c, id, how), k))
  {
    var q := Requarantined(c.staging.value, id, how);
    if k <= 3 {
      AfterFirst(c, OpenPlan, QuarantinePlan(q), k);
      OpenRecovery(c, k);
    } else {
      AfterSecond(c, OpenPlan, QuarantinePlan(q), k - 3);
      OpenRecovery(c, 3);
      PinnedQuarantine(After(c, OpenPlan, 3), q, k - 3);
    }
  }

  lemma PinnedTouch(l: Local, t: Touch, id: Id)
    requires Allows(l, t) && LocalOk(l, id) && PinnedCell(l.cell) && l.memo.entry.Some? && l.memo.entry.value.pinned
    ensures PinnedCell(Touched(l, t).cell)
    ensures Touched(l, t).memo.entry.Some? && Touched(l, t).memo.entry.value.pinned
  {
  }

  lemma PinnedCellStep(w: World, e: Event, id: Id)
    requires Inv(w) && Can(w, e) && Pinned(w, id) && !Unpins(e, id)
    ensures PinnedCell(At(Next(w, e).disk, id)) && !Claims(e, id)
  {
    hide PinnedCell;
    var k := EventCell(w, e, id);
    if w.Up? { assert LocalOk(Look(w, id), id); }
    if e.Call? && e.op.id == id { PinnedOp(Look(w, id), e.op, k); }
    if e.Brush? && e.id == id { PinnedTouch(Look(w, id), e.touch, id); }
    if e.Recover? { PinnedRecovery(At(w.disk, id), id, e.how, k); }
  }

  lemma PinnedMemoStep(w: World, e: Event, id: Id)
    requires Inv(w) && Can(w, e) && Pinned(w, id) && !Unpins(e, id) && Next(w, e).Up?
    ensures id in Next(w, e).mem.entries && Next(w, e).mem.entries[id].pinned
  {
    hide PinnedCell, Plan, Finished, Broken;
    match e
    case Call(op, out) =>
      CallLook(w, op, out);
      assert LocalOk(Look(w, id), id);
      if op.id == id { PinnedOp(Look(w, id), op, if out.Done? then 0 else out.steps); }
      assert MemoAt(Next(w, e).mem, id) == Look(Next(w, e), id).memo;
    case Brush(i, t) =>
      BrushLook(w, i, t);
      assert LocalOk(Look(w, id), id);
      if i == id { PinnedTouch(Look(w, id), t, id); }
      assert MemoAt(Next(w, e).mem, id) == Look(Next(w, e), id).memo;
    case PowerLoss =>
    case Recover(how, p) =>
      RecoveredMemAt(w.disk, how, id);
      PinnedRecovery(At(w.disk, id), id, how, 0);
  }

  /** Pinned evidence stays where it is: until somebody asks to unpin it, it stays pinned on disk and in memory through
      every run, and retention never claims it. */
  lemma {:induction false} PinProtects(ws: seq<World>, es: seq<Event>, m: nat, n: nat, id: Id)
    requires IsRun(ws, es) && Inv(ws[0]) && m <= n <= |es| && Pinned(ws[m], id)
    requires forall j :: m <= j < n ==> !Unpins(es[j], id)
    ensures Pinned(ws[n], id)
    ensures forall j :: m <= j < n ==> !Claims(es[j], id)
    decreases n
  {
    hide Can, Next, Inv, PinnedCell;
    if n > m {
      PinProtects(ws, es, m, n - 1, id);
      RunKeeps(ws, es, n - 1);
      assert Follows(ws, es, n - 1);
      PinnedCellStep(ws[n - 1], es[n - 1], id);
      if ws[n].Up? { PinnedMemoStep(ws[n - 1], es[n - 1], id); }
    }
  }

  lemma PinsCell(l: Local, op: Op)
    requires Admits(l, op) && LocalOk(l, op.id)
    requires op == Op.Pin(op.id, true) || (op.Begin? && op.pinned) || op.Quarantine?
    ensures PinnedCell(After(l.cell, Plan(l, op), |Plan(l, op)|))
    ensures Finished(l, op).memo.entry.Some? && Finished(l, op).memo.entry.value.pinned
  {
    match op
    case Pin(_, _) => PinResult(l.cell, l.memo.entry.value.staged, true, 2);
    case Begin(_, _, _, _, _) => BeginInstalls(l, op);
    case Quarantine(_, reason, at) =>
      QuarantineResult(l.cell, QuarantinedManifest(l.memo.entry.value.manifest, reason, at), 4);
  }

  /** A pin that was set, an attempt begun as pinned and a quarantined one are pinned. */
  lemma PinsPin(w: World, op: Op)
    requires Inv(w) && Can(w, Call(op, Done))
    requires op == Op.Pin(op.id, true) || (op.Begin? && op.pinned) || op.Quarantine?
    ensures Pinned(Next(w, Call(op, Done)), op.id)
  {
    hide PinnedCell, Plan, Finished, Broken, After, LocalOk;
    var l := Look(w, op.id);
    assert LocalOk(l, op.id);
    CallLook(w, op, Done);
    PinsCell(l, op);
    assert Look(Next(w, Call(op, Done)), op.id) == DoneLocal(l, op);
  }
}
