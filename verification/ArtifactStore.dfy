/** The store object itself. Each method is a locked section that updates the maps and takes its durable
    steps one by one; any step may hit an I/O error, and the power may fail before it. Every method is
    tied to one event of the protocol, so every result about runs applies to every use of the object. */
module ArtifactStore {
  import opened Prelude
  import opened ArtifactDisk
  import opened ArtifactProtocol
  import opened ArtifactRecovery
  import opened ArtifactWorld
  import opened ArtifactUsage
  import opened ArtifactRestart
  import Listing = ArtifactListing

  datatype ErrorCode = InvalidArgument | NotFound | WasExpired | Busy | QuotaExceeded | Filesystem | Corrupt

  /** `Stranded` is the reply of a `begin` that made its directory but could not open it: no row is kept. `Unopened` is
      that of a pin whose directory could not be opened: nothing has changed. */
  datatype Reply = Refused(code: ErrorCode) | Ended(out: Outcome) | Stranded | Unopened

  /** Where a publication of success was answered. */
  datatype Stage = FirstLook | Room | LastSection

  datatype Verdict = Kept | Gone | Trouble

  /** How a run of durable steps went: all taken, or stopped after `out.steps` of the section's steps. */
  datatype Fate = Ok | Stop(out: Outcome)

  /** The run so far: it began with a fresh store. */
  ghost predicate IsHistory(ws: seq<World>, es: seq<Event>) {
    IsRun(ws, es) && ws[0] == Fresh
  }

  lemma Extend(ws: seq<World>, es: seq<Event>, e: Event)
    requires IsHistory(ws, es) && Can(ws[|es|], e)
    ensures IsHistory(ws + [Next(ws[|es|], e)], es + [e])
  {
    hide Can, Next;
    var ws', es' := ws + [Next(ws[|es|], e)], es + [e];
    forall i | 0 <= i < |es'| ensures Follows(ws', es', i) {
      if i < |es| { assert Follows(ws, es, i); }
    }
  }

  lemma Lengths(ws: seq<World>, es: seq<Event>)
    requires IsHistory(ws, es)
    ensures |ws| == |es| + 1
  {
  }

  /** What the invariant says about one identity, in the store's own terms. */
  lemma Known(ws: seq<World>, es: seq<Event>, id: Id)
    requires IsHistory(ws, es) && ws[|es|].Up?
    ensures var w := ws[|es|];
            && (id in w.writers ==> id in w.mem.entries && w.mem.entries[id].writerActive)
            && (w.leases[id] > 0 ==> id in w.mem.entries)
            && (id in w.mem.entries ==>
                  && w.mem.entries[id].leases == w.leases[id]
                  && (if w.mem.entries[id].staged then id in w.disk.staging else id in w.disk.bundles)
                  && (!w.mem.entries[id].staged ==>
                        w.disk.bundles[id].manifest == Some(w.mem.entries[id].manifest) &&
                        w.mem.entries[id].manifest.completed.Some?))
            && (id in w.disk.trash ==> id in w.mem.trashUsage)
  {
    FreshOk();
    RunKeeps(ws, es, |es|);
    assert LocalOk(Look(ws[|es|], id), id);
  }

  lemma Everything(ws: seq<World>, es: seq<Event>)
    requires IsHistory(ws, es)
    ensures Inv(ws[|es|])
  {
    FreshOk();
    RunKeeps(ws, es, |es|);
  }

  lemma SameSet(s: set<Id>, id: Id)
    ensures s == if id in s then s + {id} else s - {id}
  {
  }

  lemma UpdateSame(w: World, id: Id, disk: Disk)
    requires w.Up?
    ensures Update(w, id, Look(w, id), disk) == w.(disk := disk)
  {
    SetSame(w.mem.entries, id);
    SetSame(w.mem.expirations, id);
    SetSame(w.mem.trashUsage, id);
    assert w.leases[id := w.leases[id]] == w.leases;
  }

  /** A section that rewrites one entry ends in the old world with that entry and the disk replaced. */
  lemma EndsWith(w: World, op: Op, out: Outcome, e: Entry)
    requires Can(w, Call(op, out)) && !out.Cut?
    requires var l := Look(w, op.id);
             var r := if out.Done? then Finished(l, op) else Broken(l, op, out.steps);
             r == WithEntry(l, e).(writer := r.writer)
    ensures var l := Look(w, op.id);
            var r := if out.Done? then Finished(l, op) else Broken(l, op, out.steps);
            Next(w, Call(op, out)) ==
            Up(w.mem.(entries := w.mem.entries[op.id := e]),
               DiskAfter(w.disk, Steps(w, op), if out.Done? then |Steps(w, op)| else out.steps),
               w.leases, if r.writer then w.writers + {op.id} else w.writers - {op.id})
  {
    SetSame(w.mem.expirations, op.id);
    SetSame(w.mem.trashUsage, op.id);
    assert w.leases[op.id := w.leases[op.id]] == w.leases;
  }

  /** Closing rewrites the entry twice: the writer goes, then the manifest is quarantined. */
  lemma CloseEnds(w: World, op: Op, out: Outcome, e: Entry)
    requires op.CloseWriter? && Can(w, Call(op, out)) && !out.Cut? && ClosesIntoQuarantine(Look(w, op.id))
    requires e == w.mem.entries[op.id].(writerActive := false)
    ensures var q := e.(pinned := true, manifest := QuarantinedManifest(e.manifest, UNCONFIRMED, op.at));
            Next(w, Call(op, out)) ==
            Up(w.mem.(entries := w.mem.entries[op.id := e][op.id := q]),
               DiskAfter(w.disk, Steps(w, op), if out.Done? then |Steps(w, op)| else out.steps),
               w.leases, w.writers - {op.id})
  {
    var q := e.(pinned := true, manifest := QuarantinedManifest(e.manifest, UNCONFIRMED, op.at));
    SetTwice(w.mem.entries, op.id, Some(e), Some(q));
    EndsWith(w, op, out, q);
  }

  lemma WantedIsFree(o: Options, w: World, id: Id, completed: nat, time: nat, additional: nat)
    requires w.Up?
    ensures Wanted(o, w, id, completed, time, additional) ==> id in w.mem.entries && Unprotected(w.mem.entries[id])
  {
  }

  /** What a publication writes and what memory holds afterwards. */
  lemma PublishScript(w: World, op: Op)
    requires op.Publish? && Admitted(w, op)
    ensures var e, d := w.mem.entries[op.id], w.disk.staging[op.id];
            var m := PublishedManifest(e.manifest, op.success, op.reason, op.at, d.files);
            && Steps(w, op) == On(op.id, [WriteTemp(true), InstallManifest(m), RenamePublish])
            && Finished(Look(w, op.id), op) == WithEntry(Look(w, op.id), e.(staged := false, manifest := m))
  {
  }

  lemma CloseScript(w: World, op: Op)
    requires op.CloseWriter? && Admitted(w, op) && ClosesIntoQuarantine(Look(w, op.id))
    ensures Steps(w, op) == On(op.id, QuarantinePlan(QuarantinedManifest(w.mem.entries[op.id].manifest, UNCONFIRMED, op.at)))
  {
  }

  lemma StrandedWorld(w: World, op: Op)
    requires op.Begin? && Admitted(w, op)
    ensures |Steps(w, op)| == 7 && Can(w, Brush(op.id, Strand))
    ensures Next(w, Brush(op.id, Strand)) == w.(disk := DiskAfter(w.disk, Steps(w, op), 1))
  {
    assert DiskAfter(w.disk, Steps(w, op), 1) == Apply(DiskAfter(w.disk, Steps(w, op), 0), Steps(w, op)[0]);
    UpdateSame(w, op.id, DiskAfter(w.disk, Steps(w, op), 1));
  }

  lemma EndsIdle(w: World, op: Op, k: nat)
    requires Can(w, Call(op, Outcome.Failed(k))) && Broken(Look(w, op.id), op, k) == Look(w, op.id)
    ensures Next(w, Call(op, Outcome.Failed(k))) == w.(disk := DiskAfter(w.disk, Steps(w, op), k))
  {
    UpdateSame(w, op.id, DiskAfter(w.disk, Steps(w, op), k));
  }

  lemma StepOf(ws: seq<World>, es: seq<Event>, i: nat, w: World, e: Event)
    requires IsHistory(ws, es) && i < |es| && w == ws[i] && e == es[i]
    ensures Can(w, e) && ws[i + 1] == Next(w, e)
  {
    assert Follows(ws, es, i);
  }

  /** Events determine the worlds: a longer history passes through the same worlds. */
  lemma {:induction false} SameHistory(ws: seq<World>, es: seq<Event>, ws': seq<World>, es': seq<Event>, i: nat)
    requires IsHistory(ws, es) && IsHistory(ws', es') && es <= es' && i <= |es|
    ensures ws[i] == ws'[i]
  {
    if i > 0 {
      SameHistory(ws, es, ws', es', i - 1);
      var w, e := ws[i - 1], es[i - 1];
      StepOf(ws, es, i - 1, w, e);
      StepOf(ws', es', i - 1, w, e);
    }
  }

  /** Everything since `from` is a claim the policy wanted at that moment, or part of a deletion. */
  ghost predicate Justified(o: Options, ws: seq<World>, es: seq<Event>, from: nat, time: nat, additional: nat) {
    |ws| == |es| + 1 && forall p :: from <= p < |es| ==> WantedEvent(o, ws[p], es[p], time, additional)
  }

  lemma Justify(o: Options, ws: seq<World>, es: seq<Event>, ws': seq<World>, es': seq<Event>, from: nat, time: nat, additional: nat)
    requires IsHistory(ws, es) && IsHistory(ws', es') && es <= es' && from <= |es|
    requires Justified(o, ws, es, from, time, additional)
    requires |es| < |es'| ==> WantedEvent(o, ws[|es|], es'[|es|], time, additional)
    requires forall p :: |es| < p < |es'| ==> Cleans(es'[p])
    ensures Justified(o, ws', es', from, time, additional)
  {
    forall p | from <= p < |es'| ensures WantedEvent(o, ws'[p], es'[p], time, additional) {
      SameHistory(ws, es, ws', es', if p < |es| then p else |es|);
      if p < |es| { assert WantedEvent(o, ws[p], es[p], time, additional); }
    }
  }

  /** Retention, however often and wherever it fails, leaves every staged attempt exactly as it was. */
  lemma {:induction false} StagedStays(o: Options, ws: seq<World>, es: seq<Event>, from: nat, n: nat, time: nat,
                                         additional: nat, id: Id)
    requires IsHistory(ws, es) && from <= n <= |es| && ws[n].Up? && Justified(o, ws, es, from, time, additional)
    ensures ws[from].Up?
    ensures var w := ws[from]; id in w.mem.entries && w.mem.entries[id].staged ==> Look(ws[n], id) == Look(w, id)
  {
    hide Can, Next, Inv, WantedEvent;
    if from < n {
      var w, e := ws[n - 1], es[n - 1];
      StepOf(ws, es, n - 1, w, e);
      FreshOk();
      RunKeeps(ws, es, n - 1);
      assert WantedEvent(o, w, e, time, additional);
      StagedUntouched(o, w, e, time, additional, id);
      StagedStays(o, ws, es, from, n - 1, time, additional, id);
    }
  }

  lemma ForgetEnds(w: World, id: Id)
    requires Can(w, Brush(id, ForgetTrash))
    ensures Next(w, Brush(id, ForgetTrash)) == w.(mem := w.mem.(trashUsage := w.mem.trashUsage - {id}))
  {
    PutSame(w.disk, id);
    SetSame(w.mem.entries, id);
    SetSame(w.mem.expirations, id);
    SameSet(w.writers, id);
    assert w.leases[id := w.leases[id]] == w.leases;
  }

  lemma ClaimEnds(w: World, op: Op, out: Outcome)
    requires op.Claim? && Can(w, Call(op, out)) && (out.Done? || (out.Failed? && out.steps == 3))
    ensures var s := op.record.summary;
            Next(w, Call(op, out)) ==
            Up(Mem(w.mem.entries - {op.id}, w.mem.expirations[op.id := s], w.mem.trashUsage[op.id := s.bytes]),
               DiskAfter(w.disk, Steps(w, op), 3), w.leases, w.writers)
  {
    assert w.leases[op.id := w.leases[op.id]] == w.leases;
    SameSet(w.writers, op.id);
  }

  lemma TouchEndsWith(w: World, id: Id, t: Touch, e: Entry)
    requires Can(w, Brush(id, t)) && Touched(Look(w, id), t).memo == Look(w, id).memo.(entry := Some(e))
    requires Touched(Look(w, id), t).cell == At(w.disk, id)
    ensures var r := Touched(Look(w, id), t);
            Next(w, Brush(id, t)) ==
            Up(w.mem.(entries := w.mem.entries[id := e]), w.disk, w.leases[id := r.leases],
               if r.writer then w.writers + {id} else w.writers - {id})
  {
    PutSame(w.disk, id);
    SetSame(w.mem.expirations, id);
    SetSame(w.mem.trashUsage, id);
  }

  /** The file system accepts every step of the script. */
  ghost predicate Runs(base: Disk, script: seq<Step>) {
    forall k :: 0 <= k < |script| ==> Enabled(At(DiskAfter(base, script, k), script[k].id), script[k].change)
  }

  lemma ScriptRuns(ws: seq<World>, es: seq<Event>, w: World, op: Op)
    requires IsHistory(ws, es) && w == ws[|es|] && Admitted(w, op)
    ensures Runs(w.disk, Steps(w, op))
  {
    FreshOk();
    RunKeeps(ws, es, |es|);
    assert LocalOk(Look(w, op.id), op.id);
    forall k | 0 <= k < |Steps(w, op)|
      ensures Enabled(At(DiskAfter(w.disk, Steps(w, op), k), Steps(w, op)[k].id), Steps(w, op)[k].change)
    {
      PlanAt(w.disk, op.id, Plan(Look(w, op.id), op), k);
      PlanIsSafe(Look(w, op.id), op, k);
    }
  }

  lemma TimesKnown(ws: seq<World>, es: seq<Event>)
    requires IsHistory(ws, es) && ws[|es|].Up?
    ensures var e := ws[|es|].mem.entries; forall id :: id in e && !e[id].staged ==> e[id].manifest.completed.Some?
  {
    var e := ws[|es|].mem.entries;
    forall id | id in e && !e[id].staged ensures e[id].manifest.completed.Some? { Known(ws, es, id); }
  }

  lemma OpenedRow(d: Disk, disk: Disk, e: map<Id, Entry>, n: map<Id, Summary>, u: map<Id, nat>, how: How, x: Id)
    requires Recovered(d, disk, e, n, u, how)
    ensures Get(e, x) == Get(RecoveredMem(d, how).entries, x)
    ensures Get(n, x) == Get(RecoveredMem(d, how).expirations, x)
    ensures Get(u, x) == Get(RecoveredMem(d, how).trashUsage, x)
  {
    assert RowsOk(d, e, n, how, x);
    RecoveredMemAt(d, how, x);
    assert MemoAt(RecoveredMem(d, how), x) == RecoveredMemo(At(d, x), x, how);
  }

  lemma OpenedMem(d: Disk, disk: Disk, e: map<Id, Entry>, n: map<Id, Summary>, u: map<Id, nat>, how: How)
    requires Recovered(d, disk, e, n, u, how)
    ensures Mem(e, n, u) == RecoveredMem(d, how)
  {
    var m := RecoveredMem(d, how);
    forall x ensures Get(e, x) == Get(m.entries, x) && Get(n, x) == Get(m.expirations, x) && Get(u, x) == Get(m.trashUsage, x) {
      OpenedRow(d, disk, e, n, u, how, x);
    }
    SameMap(e, m.entries);
    SameMap(n, m.expirations);
    SameMap(u, m.trashUsage);
  }

  lemma OpenedRows(d: Disk, disk: Disk, e: map<Id, Entry>, n: map<Id, Summary>, u: map<Id, nat>, how: How)
    requires Recovered(d, disk, e, n, u, how) && Can(Down(d), Event.Recover(how, All))
    ensures Up(Mem(e, n, u), disk, multiset{}, {}) == Next(Down(d), Event.Recover(how, All))
  {
    OpenedMem(d, disk, e, n, u, how);
  }

  lemma Reopened(ws: seq<World>, es: seq<Event>, how: How, p: Progress, r: Opening)
    requires IsHistory(ws, es) && ws[|es|].Down?
    requires r.Rejected? ==> exists id :: Refuses(At(ws[|es|].disk, id), id)
    ensures !r.Rejected?
    ensures Can(ws[|es|], Event.Recover(how, p))
    ensures IsHistory(ws + [Next(ws[|es|], Event.Recover(how, p))], es + [Event.Recover(how, p)])
    ensures forall id :: Classified(Look(Next(ws[|es|], Event.Recover(how, All)), id))
  {
    CrashSafety(ws, es, how);
    Extend(ws, es, Event.Recover(how, p));
  }

  /** What stands in the way of a publication: something beside the two partitions, an inventory beyond the limits, a
      quarantine, a required output that is missing or empty, or no proper reason for a failure. */
  predicate Unpublishable(m: Manifest, d: Dir, success: bool, reason: string) {
    || d.stray || !d.raw || !d.derived || !d.fits || |d.files| > 4096
    || (success && (m.quarantined || reason != "" || exists r :: r in m.required && (r !in d.files || d.files[r] == 0)))
    || (!success && (reason == "" || |reason| > 4096))
  }

  lemma UnpublishableIff(d: Dir, m: Manifest, success: bool, reason: string)
    ensures Unpublishable(m, d, success, reason) <==> !Publishable(d, m, success, reason)
  {
    if success && !RequiredOk(m.required, d.files) {
      var i :| 0 <= i < |m.required| && !(m.required[i] in d.files && d.files[m.required[i]] != 0);
      assert m.required[i] in m.required;
    }
  }

  /** The reply about an identity without a row. */
  function Absent(id: Id, expirations: map<Id, Summary>): Reply {
    Refused(if id in expirations then WasExpired else NotFound)
  }

  /** The reason a finalization gives is the true one: only a publication of success can be refused for the budget,
      and only if nothing else forbids it and the published bundle would not fit. */
  ghost predicate TrueReason(o: Options, w: World, op: Op, code: ErrorCode)
    requires w.Up? && op.Publish?
  {
    if code.QuotaExceeded?
    then op.success && o.maxBytes != 0 && Admitted(w, op) && Usage(o.sizes, Next(w, Call(op, Done))) > o.maxBytes
    else !Admitted(w, op)
  }

  /** The sweep of temporaries does not change what is admitted. */
  lemma SweepAdmits(w: World, op: Op)
    requires op.Publish? && Admitted(w, op)
    ensures Admitted(w, Op.SweepTemps(op.id))
    ensures var r := Next(w, Call(Op.SweepTemps(op.id), Done)); r.Up? && Admitted(r, op)
  {
    var sweep := Op.SweepTemps(op.id);
    CallLook(w, sweep, Done);
    var c, p := At(w.disk, op.id), Plan(Look(w, op.id), sweep);
    assert After(c, p, 1) == Effect(c, CleanTemps(true));
  }

  /** An attempt that could be published as a success can be published as a failure with any proper reason. */
  ghost predicate MayFail(w: World, id: Id) {
    forall reason, at :: ReasonOk(reason) ==> Admitted(w, Op.Publish(id, false, reason, at))
  }

  lemma SuccessMayFail(w: World, id: Id, at: nat)
    requires Admitted(w, Op.Publish(id, true, "", at))
    ensures MayFail(w, id)
  {
  }

  /** Whether a publication is admitted depends on its own identity only. */
  lemma SameLookAdmits(w: World, r: World, op: Op)
    requires Admitted(w, op) && r.Up? && Look(r, op.id) == Look(w, op.id)
    ensures Admitted(r, op)
  {
  }

  /** What was admitted before retention still is. */
  lemma PruneAdmits(o: Options, ws: seq<World>, es: seq<Event>, ws': seq<World>, es': seq<Event>, time: nat,
                       additional: nat, op: Op)
    requires IsHistory(ws, es) && IsHistory(ws', es') && es <= es' && Justified(o, ws', es', |es|, time, additional)
    requires op.Publish? && Admitted(ws[|es|], op) && ws'[|es'|].Up?
    ensures Admitted(ws'[|es'|], op)
  {
    hide Can, Next, IsHistory, Justified, Admitted;
    Lengths(ws, es);
    Lengths(ws', es');
    SameHistory(ws, es, ws', es', |es|);
    StagedStays(o, ws', es', |es|, |es'|, time, additional, op.id);
    PublishesStaged(ws[|es|], op);
    SameLookAdmits(ws[|es|], ws'[|es'|], op);
  }

  lemma PublishesStaged(w: World, op: Op)
    requires op.Publish? && Admitted(w, op)
    ensures w.Up? && op.id in w.writers && op.id in w.mem.entries && w.mem.entries[op.id].staged
  {
  }

  class Store {
    const options: Options
    /** While the environment is calm no durable step fails, no directory is unreadable and the power holds. */
    const calm: bool
    var entries: map<Id, Entry>
    var expirations: map<Id, Summary>
    var trashUsage: map<Id, nat>
    var disk: Disk
    var up: bool
    ghost var leases: multiset<Id>
    ghost var writers: set<Id>
    ghost var worlds: seq<World>
    ghost var trace: seq<Event>

    ghost function Now(): World
      reads this
    {
      if up then Up(Mem(entries, expirations, trashUsage), disk, leases, writers) else Down(disk)
    }

    ghost predicate Valid()
      reads this
    {
      IsHistory(worlds, trace) && Now() == worlds[|trace|]
    }

    /** In a calm environment what is not refused is done. */
    ghost predicate Smooth(reply: Reply) {
      calm ==> reply.Refused? || reply == Ended(Done)
    }

    /** The reply is the protocol's: a refusal exactly when the checks fail, else one event of that section. */
    ghost predicate Answers(w: World, t: seq<Event>, op: Op, reply: Reply)
      requires w.Up?
      reads this
    {
      match reply
      case Refused(_) => !Admits(Look(w, op.id), op) && Now() == w && trace == t
      case Stranded =>
        op.Begin? && Can(w, Brush(op.id, Strand)) && Now() == Next(w, Brush(op.id, Strand)) && trace == t + [Brush(op.id, Strand)]
      case Unopened => op.Pin? && Admitted(w, op) && Now() == w && trace == t
      case Ended(out) =>
        Can(w, Call(op, out)) && Now() == Next(w, Call(op, out)) && trace == t + [Call(op, out)]
    }

    constructor (options: Options, calm: bool)
      ensures Valid() && Now() == Fresh && trace == [] && this.options == options && this.calm == calm
    {
      this.options, this.calm := options, calm;
      entries, expirations, trashUsage := map[], map[], map[];
      disk, up := EmptyDisk, true;
      leases, writers, worlds, trace := multiset{}, {}, [Fresh], [];
    }

    ghost method LogCall(w: World, op: Op, out: Outcome)
      requires IsHistory(worlds, trace) && w == worlds[|trace|] && Admitted(w, op)
      requires !out.Done? ==> out.steps <= |Steps(w, op)|
      requires Now() == Next(w, Call(op, out))
      modifies `worlds, `trace
      ensures Valid() && trace == old(trace) + [Call(op, out)]
    {
      Extend(worlds, trace, Call(op, out));
      worlds, trace := worlds + [Now()], trace + [Call(op, out)];
    }

    ghost method LogTouch(w: World, id: Id, t: Touch)
      requires IsHistory(worlds, trace) && w == worlds[|trace|] && w.Up? && Allows(Look(w, id), t)
      requires Now() == Next(w, Brush(id, t))
      modifies `worlds, `trace
      ensures Valid() && trace == old(trace) + [Brush(id, t)]
    {
      Extend(worlds, trace, Brush(id, t));
      worlds, trace := worlds + [Now()], trace + [Brush(id, t)];
    }

    /** The script was left between steps `lo` and `hi`, at the step the outcome names. */
    ghost predicate Stopped(base: Disk, script: seq<Step>, lo: nat, hi: nat, out: Outcome)
      requires hi <= |script|
      reads this
    {
      !out.Done? && lo <= out.steps <= hi && disk == DiskAfter(base, script, out.steps)
    }

    /** One durable step: it may fail, fail after taking effect (a failed sync), or find the power gone. */
    method Durable(s: Step, ghost base: Disk, ghost script: seq<Step>, k: nat) returns (fate: Fate)
      requires Runs(base, script) && k < |script| && s == script[k] && disk == DiskAfter(base, script, k)
      modifies `disk
      ensures fate.Ok? ==> disk == DiskAfter(base, script, k + 1)
      ensures fate.Stop? ==> !calm && Stopped(base, script, k, k + 1, fate.out)
    {
      assert Enabled(At(disk, s.id), s.change);
      var outage: bool, refused: bool, unsynchronised: bool :| calm ==> !outage && !refused && !unsynchronised;
      if outage { return Stop(Cut(k)); }
      if refused { return Stop(Outcome.Failed(k)); }
      disk := Apply(disk, s);
      if unsynchronised { return Stop(Outcome.Failed(k + 1)); }
      return Ok;
    }
  
    /** `atomic_json` for pin.json: a temporary, then the rename. */
    method WritePin(id: Id, staged: bool, pinned: bool, ghost base: Disk, ghost script: seq<Step>, k: nat) returns (fate: Fate)
      requires Runs(base, script) && k + 1 < |script| && disk == DiskAfter(base, script, k)
      requires script[k] == Step(id, WriteTemp(staged)) && script[k + 1] == Step(id, InstallPin(staged, pinned))
      modifies `disk
      ensures fate.Ok? ==> disk == DiskAfter(base, script, k + 2)
      ensures fate.Stop? ==> !calm && Stopped(base, script, k, k + 2, fate.out)
    {
      fate := Durable(Step(id, WriteTemp(staged)), base, script, k);
      if fate.Ok? { fate := Durable(Step(id, InstallPin(staged, pinned)), base, script, k + 1); }
    }

    /** `atomic_json` for manifest.json of a staged bundle. */
    method WriteManifest(id: Id, m: Manifest, ghost base: Disk, ghost script: seq<Step>, k: nat) returns (fate: Fate)
      requires Runs(base, script) && k + 1 < |script| && disk == DiskAfter(base, script, k)
      requires script[k] == Step(id, WriteTemp(true)) && script[k + 1] == Step(id, InstallManifest(m))
      modifies `disk
      ensures fate.Ok? ==> disk == DiskAfter(base, script, k + 2)
      ensures fate.Stop? ==> !calm && Stopped(base, script, k, k + 2, fate.out)
    {
      fate := Durable(Step(id, WriteTemp(true)), base, script, k);
      if fate.Ok? { fate := Durable(Step(id, InstallManifest(m)), base, script, k + 1); }
    }

    /** The end of a section that did not lose power. */
    ghost method Conclude(out: Outcome, w: World, op: Op)
      requires up && IsHistory(worlds, trace) && w == worlds[|trace|] && Admitted(w, op)
      requires !out.Cut? && (out.Failed? ==> out.steps <= |Steps(w, op)|)
      requires Now() == Next(w, Call(op, out))
      modifies `worlds, `trace
      ensures Valid() && Answers(w, old(trace), op, Ended(out))
    {
      LogCall(w, op, out);
    }

    /** A power loss takes memory and handles with it. */
    method LosePower(out: Outcome, ghost w: World, ghost op: Op)
      requires up && IsHistory(worlds, trace) && w == worlds[|trace|] && Admitted(w, op)
      requires out.Cut? && out.steps <= |Steps(w, op)| && disk == DiskAfter(w.disk, Steps(w, op), out.steps)
      modifies `up, `worlds, `trace
      ensures Valid() && Answers(w, old(trace), op, Ended(out))
    {
      up := false;
      LogCall(w, op, out);
    }

    method BeginLocked(id: Id, created: nat, provenance: nat, required: seq<string>, pinned: bool) returns (reply: Reply)
      requires Valid() && up
      modifies this
      ensures Valid() && Answers(old(Now()), old(trace), Op.Begin(id, created, provenance, required, pinned), reply)
      ensures reply.Refused? <==>
              |required| > 128 || !Distinct(required) ||
              id in old(entries) || id in old(expirations) || id in old(disk).staging
      ensures reply.Refused? ==>
                reply.code == if |required| > 128 || !Distinct(required) then InvalidArgument else Filesystem
      ensures Smooth(reply)
    {
      hide Can, Next, IsHistory, Runs;
      ghost var w, op := Now(), Op.Begin(id, created, provenance, required, pinned);
      if !InputsOk(required) { return Refused(InvalidArgument); }
      if id in entries || id in expirations || id in disk.staging { return Refused(Filesystem); }
      var m := InitialManifest(id, created, provenance, required);
      ScriptRuns(worlds, trace, w, op);
      reply := MakeAttempt(id, m, pinned, w, op);
    }

    /** The directory is made, and filled if it can be opened. */
    method MakeAttempt(id: Id, m: Manifest, pinned: bool, ghost w: World, ghost op: Op) returns (reply: Reply)
      requires Valid() && up && w == Now() && Admitted(w, op) && op.Begin? && op.id == id && op.pinned == pinned
      requires m == InitialManifest(id, op.created, op.provenance, op.required) && Runs(w.disk, Steps(w, op))
      modifies this
      ensures Valid() && Answers(w, old(trace), op, reply) && !reply.Refused?
      ensures Smooth(reply)
    {
      hide Can, Next, IsHistory, Runs, Admitted;
      StrandedWorld(w, op);
      var fate := Durable(Step(id, MakeStaging), w.disk, Steps(w, op), 0);
      var usable: bool :| calm ==> usable;
      if fate.Ok? && !usable {
        LogTouch(w, id, Strand);
        return Stranded;
      }
      var out;
      if fate.Ok? { out := BeginSteps(id, m, pinned, w.disk, Steps(w, op)); } else { out := fate.out; }
      EndBegin(id, Entry(m, pinned, true, 0, out.Done?), out, w, op);
      return Ended(out);
    }

    /** However the steps ended, memory is brought up to them. */
    method EndBegin(id: Id, e: Entry, out: Outcome, ghost w: World, ghost op: Op)
      requires up && IsHistory(worlds, trace) && w == worlds[|trace|] && Admitted(w, op) && op.Begin? && op.id == id
      requires !out.Done? ==> out.steps <= |Steps(w, op)|
      requires Now() == w.(disk := DiskAfter(w.disk, Steps(w, op), if out.Done? then |Steps(w, op)| else out.steps))
      requires e == Entry(InitialManifest(id, op.created, op.provenance, op.required), op.pinned, true, 0, out.Done?)
      modifies this
      ensures Valid() && Answers(w, old(trace), op, Ended(out))
    {
      hide Can, Next, IsHistory, Runs, DiskAfter;
      if out.Cut? {
        LosePower(out, w, op);
      } else if out.Failed? && out.steps == 0 {
        EndsIdle(w, op, 0);
        Conclude(out, w, op);
      } else {
        Admit(id, e, out, w, op);
      }
    }

    /** The new attempt's row; its writer handle exists only if every step was taken. */
    method Admit(id: Id, e: Entry, out: Outcome, ghost w: World, ghost op: Op)
      requires up && IsHistory(worlds, trace) && w == worlds[|trace|] && Admitted(w, op) && op.Begin? && op.id == id
      requires out.Done? || (out.Failed? && 0 < out.steps <= |Steps(w, op)|)
      requires Now() == w.(disk := DiskAfter(w.disk, Steps(w, op), if out.Done? then |Steps(w, op)| else out.steps))
      requires e == Entry(InitialManifest(id, op.created, op.provenance, op.required), op.pinned, true, 0, out.Done?)
      modifies this
      ensures Valid() && Answers(w, old(trace), op, Ended(out))
    {
      hide Can, Next, IsHistory, Runs, DiskAfter, Usage;
      Known(worlds, trace, id);
      entries := entries[id := e];
      if out.Done? { writers := writers + {id}; } else { SameSet(writers, id); }
      EndsWith(w, op, out, e);
      Conclude(out, w, op);
    }

    /** The two partitions of a new attempt. */
    method MakeDirectories(id: Id, ghost base: Disk, ghost script: seq<Step>) returns (fate: Fate)
      requires Runs(base, script) && 3 <= |script| && disk == DiskAfter(base, script, 1)
      requires script[1] == Step(id, MakeRaw) && script[2] == Step(id, MakeDerived)
      modifies `disk
      ensures fate.Ok? ==> disk == DiskAfter(base, script, 3)
      ensures fate.Stop? ==> !calm && Stopped(base, script, 1, 3, fate.out)
    {
      fate := Durable(Step(id, MakeRaw), base, script, 1);
      if fate.Stop? { return; }
      fate := Durable(Step(id, MakeDerived), base, script, 2);
    }

    method BeginSteps(id: Id, m: Manifest, pinned: bool, ghost base: Disk, ghost script: seq<Step>) returns (out: Outcome)
      requires script == On(id, [MakeStaging, MakeRaw, MakeDerived, WriteTemp(true), InstallPin(true, pinned),
                                 WriteTemp(true), InstallManifest(m)])
      requires Runs(base, script) && disk == DiskAfter(base, script, 1)
      modifies `disk
      ensures out.Done? ==> disk == DiskAfter(base, script, |script|)
      ensures !out.Done? ==> !calm && Stopped(base, script, 1, |script|, out)
    {
      hide Runs, DiskAfter;
      var fate := MakeDirectories(id, base, script);
      if fate.Stop? { return fate.out; }
      fate := WritePin(id, true, pinned, base, script, 3);
      if fate.Stop? { return fate.out; }
      fate := WriteManifest(id, m, base, script, 5);
      if fate.Stop? { return fate.out; }
      return Done;
    }

    method UpdateProvenance(id: Id, provenance: nat) returns (reply: Reply)
      requires Valid() && up && id in writers
      modifies this
      ensures Valid() && Answers(old(Now()), old(trace), Op.UpdateProvenance(id, provenance), reply)
      ensures Smooth(reply)
      ensures id in old(entries) && (reply == Refused(InvalidArgument) <==> !old(entries)[id].staged)
      ensures reply.Refused? ==> reply == Refused(InvalidArgument)
    {
      hide Can, Next, IsHistory, Runs, Effect, Enabled, Touched;
      ghost var w, op := Now(), Op.UpdateProvenance(id, provenance);
      Known(worlds, trace, id);
      var e := entries[id];
      if !e.staged { return Refused(InvalidArgument); }
      var m := e.manifest.(provenance := provenance);
      ScriptRuns(worlds, trace, w, op);
      var fate := WriteManifest(id, m, w.disk, Steps(w, op), 0);
      var out := if fate.Ok? then Done else fate.out;
      if out.Cut? {
        LosePower(out, w, op);
        return Ended(out);
      } else if out.Done? {
        entries := entries[id := e.(manifest := m)];
        EndsWith(w, op, out, e.(manifest := m));
        SameSet(writers, id);
      } else {
        EndsIdle(w, op, out.steps);
      }
      Conclude(out, w, op);
      return Ended(out);
    }

    /** Protection first, then the failed manifest. Memory is changed before the disk. */
    method QuarantineLocked(id: Id, m: Manifest, ghost base: Disk, ghost script: seq<Step>) returns (out: Outcome)
      requires id in entries && script == On(id, QuarantinePlan(m)) && Runs(base, script) && disk == base
      modifies `disk, `entries
      ensures entries == old(entries)[id := old(entries)[id].(pinned := true, manifest := m)]
      ensures out.Done? ==> disk == DiskAfter(base, script, 4)
      ensures !out.Done? ==> !calm && Stopped(base, script, 0, 4, out)
    {
      entries := entries[id := entries[id].(pinned := true, manifest := m)];
      var fate := WritePin(id, true, true, base, script, 0);
      if fate.Stop? { return fate.out; }
      fate := WriteManifest(id, m, base, script, 2);
      if fate.Stop? { return fate.out; }
      return Done;
    }

    method Quarantine(id: Id, reason: string, at: nat) returns (reply: Reply)
      requires Valid() && up && id in writers
      modifies this
      ensures Valid() && Answers(old(Now()), old(trace), Op.Quarantine(id, reason, at), reply)
      ensures Smooth(reply)
      ensures id in old(entries) && (reply.Refused? <==> !old(entries)[id].staged || reason == "" || |reason| > 4096)
      ensures reply.Refused? ==> reply == Refused(InvalidArgument)
    {
      hide Can, Next, IsHistory, Runs, DiskAfter, Usage;
      ghost var w, op := Now(), Op.Quarantine(id, reason, at);
      Known(worlds, trace, id);
      var e := entries[id];
      if !e.staged { return Refused(InvalidArgument); }
      if !ReasonOk(reason) { return Refused(InvalidArgument); }
      ScriptRuns(worlds, trace, w, op);
      var out := QuarantineLocked(id, QuarantinedManifest(e.manifest, reason, at), w.disk, Steps(w, op));
      if out.Cut? {
        LosePower(out, w, op);
      } else {
        EndsWith(w, op, out, entries[id]);
        SameSet(writers, id);
        Conclude(out, w, op);
      }
      return Ended(out);
    }

    /** A writer handle goes away: an unfinished attempt is quarantined. */
    method CloseWriter(id: Id, at: nat) returns (reply: Reply)
      requires Valid() && up && id in writers
      modifies this
      ensures Valid() && reply.Ended? && Answers(old(Now()), old(trace), Op.CloseWriter(id, at), reply)
      ensures Smooth(reply)
    {
      ghost var w, op := Now(), Op.CloseWriter(id, at);
      Known(worlds, trace, id);
      var e := entries[id];
      if !e.staged || e.manifest.quarantined {
        entries := entries[id := e.(writerActive := false)];
        writers := writers - {id};
        EndsWith(w, op, Done, entries[id]);
        Conclude(Done, w, op);
        return Ended(Done);
      }
      var out := CloseUnpublished(id, at);
      return Ended(out);
    }

    method CloseUnpublished(id: Id, at: nat) returns (out: Outcome)
      requires Valid() && up && id in writers && id in entries && ClosesIntoQuarantine(Look(Now(), id))
      modifies this
      ensures Valid() && Answers(old(Now()), old(trace), Op.CloseWriter(id, at), Ended(out))
      ensures calm ==> out.Done?
    {
      hide IsHistory, Runs, DiskAfter;
      ghost var w, op := Now(), Op.CloseWriter(id, at);
      CloseScript(w, op);
      var e := entries[id].(writerActive := false);
      entries := entries[id := e];
      writers := writers - {id};
      ScriptRuns(worlds, trace, w, op);
      out := QuarantineLocked(id, QuarantinedManifest(e.manifest, UNCONFIRMED, at), w.disk, Steps(w, op));
      EndClose(out, e, w, op);
    }

    method EndClose(out: Outcome, ghost e: Entry, ghost w: World, ghost op: Op)
      requires up && IsHistory(worlds, trace) && w == worlds[|trace|] && Admitted(w, op)
      requires op.CloseWriter? && ClosesIntoQuarantine(Look(w, op.id)) && (out.Done? || out.steps <= |Steps(w, op)|)
      requires e == w.mem.entries[op.id].(writerActive := false)
      requires var q := e.(pinned := true, manifest := QuarantinedManifest(e.manifest, UNCONFIRMED, op.at));
               Now() == Up(w.mem.(entries := w.mem.entries[op.id := e][op.id := q]),
                           DiskAfter(w.disk, Steps(w, op), if out.Done? then |Steps(w, op)| else out.steps),
                           w.leases, w.writers - {op.id})
      modifies `up, `worlds, `trace
      ensures Valid() && Answers(w, old(trace), op, Ended(out))
    {
      hide Next, IsHistory, Plan, Steps;
      if out.Cut? {
        LosePower(out, w, op);
      } else {
        CloseEnds(w, op, out, e);
        Conclude(out, w, op);
      }
    }

    /** The clock cannot be read while a writer closes: the error is swallowed and the row stays active. */
    method DropWriter(id: Id)
      requires Valid() && up && id in writers
      modifies this
      ensures Valid()
      ensures Now() == Next(old(Now()), Brush(id, Touch.DropWriter)) && trace == old(trace) + [Brush(id, Touch.DropWriter)]
    {
      ghost var w := Now();
      writers := writers - {id};
      PutSame(w.disk, id);
      UpdateSame(w, id, disk);
      LogTouch(w, id, Touch.DropWriter);
    }

    method Resume(id: Id) returns (reply: Reply)
      requires Valid() && up
      modifies this
      ensures Valid() && !reply.Stranded? && !reply.Unopened?
      ensures reply.Refused? ==> !Can(old(Now()), Brush(id, Touch.Resume)) && Now() == old(Now()) && trace == old(trace)
      ensures reply.Ended? ==>
                Can(old(Now()), Brush(id, Touch.Resume)) && Now() == Next(old(Now()), Brush(id, Touch.Resume)) &&
                trace == old(trace) + [Brush(id, Touch.Resume)]
      ensures reply ==
              if id !in old(entries) then Absent(id, old(expirations))
              else if old(entries)[id].staged && old(entries)[id].manifest.quarantined && !old(entries)[id].writerActive
              then Ended(Done) else Refused(Busy)
    {
      hide IsHistory, Runs, DiskAfter, Plan;
      ghost var w := Now();
      if id !in entries { return Refused(if id in expirations then WasExpired else NotFound); }
      var e := entries[id];
      if !e.staged || !e.manifest.quarantined || e.writerActive { return Refused(Busy); }
      entries := entries[id := e.(writerActive := true)];
      writers := writers + {id};
      TouchEndsWith(w, id, Touch.Resume, entries[id]);
      LogTouch(w, id, Touch.Resume);
      return Ended(Done);
    }

    method Lease(id: Id) returns (reply: Reply)
      requires Valid() && up
      modifies this
      ensures Valid() && !reply.Stranded? && !reply.Unopened?
      ensures reply.Refused? ==> !Can(old(Now()), Brush(id, TakeLease)) && Now() == old(Now()) && trace == old(trace)
      ensures reply.Ended? ==>
                Can(old(Now()), Brush(id, TakeLease)) && Now() == Next(old(Now()), Brush(id, TakeLease)) &&
                trace == old(trace) + [Brush(id, TakeLease)]
      ensures reply == if id !in old(entries) then Absent(id, old(expirations))
                       else if old(entries)[id].staged then Refused(Busy) else Ended(Done)
    {
      ghost var w := Now();
      if id !in entries { return Refused(if id in expirations then WasExpired else NotFound); }
      var e := entries[id];
      if e.staged { return Refused(Busy); }
      entries := entries[id := e.(leases := e.leases + 1)];
      leases := leases[id := leases[id] + 1];
      TouchEndsWith(w, id, TakeLease, entries[id]);
      SameSet(writers, id);
      LogTouch(w, id, TakeLease);
      return Ended(Done);
    }

    method ReleaseLease(id: Id)
      requires Valid() && up && leases[id] > 0
      modifies this
      ensures Valid()
      ensures Now() == Next(old(Now()), Brush(id, Touch.ReleaseLease)) && trace == old(trace) + [Brush(id, Touch.ReleaseLease)]
    {
      hide IsHistory, Runs, DiskAfter;
      ghost var w := Now();
      Known(worlds, trace, id);
      if id in entries && entries[id].leases > 0 {
        entries := entries[id := entries[id].(leases := entries[id].leases - 1)];
      }
      leases := leases[id := leases[id] - 1];
      TouchEndsWith(w, id, Touch.ReleaseLease, entries[id]);
      SameSet(writers, id);
      LogTouch(w, id, Touch.ReleaseLease);
    }

    method Pin(id: Id, pinned: bool) returns (reply: Reply)
      requires Valid() && up
      modifies this
      ensures Valid() && Answers(old(Now()), old(trace), Op.Pin(id, pinned), reply)
      ensures Smooth(reply)
      ensures reply.Refused? <==> id !in old(entries) || (!pinned && old(entries)[id].manifest.quarantined)
      ensures reply.Refused? ==> reply == if id in old(entries) then Refused(Busy) else Absent(id, old(expirations))
    {
      ghost var w, op := Now(), Op.Pin(id, pinned);
      if id !in entries { return Refused(if id in expirations then WasExpired else NotFound); }
      Known(worlds, trace, id);
      var e := entries[id];
      if !pinned && e.manifest.quarantined { return Refused(Busy); }
      var usable: bool :| calm ==> usable;
      if !usable { return Unopened; }
      var out := PinLocked(id, pinned);
      return Ended(out);
    }

    method PinLocked(id: Id, pinned: bool) returns (out: Outcome)
      requires Valid() && up && Admitted(Now(), Op.Pin(id, pinned))
      modifies this
      ensures Valid() && Answers(old(Now()), old(trace), Op.Pin(id, pinned), Ended(out))
      ensures calm ==> out.Done?
    {
      hide Can, Next, IsHistory, Effect, Enabled, Usage, Answers;
      ghost var w, op := Now(), Op.Pin(id, pinned);
      var e := entries[id];
      ScriptRuns(worlds, trace, w, op);
      var fate := WritePin(id, e.staged, pinned, w.disk, Steps(w, op), 0);
      out := if fate.Ok? then Done else fate.out;
      if out.Cut? {
        LosePower(out, w, op);
      } else {
        // After an error the rename may have taken effect: stay protected in memory.
        entries := entries[id := e.(pinned := if out.Done? then pinned else true)];
        EndsWith(w, op, out, entries[id]);
        SameSet(writers, id);
        Conclude(out, w, op);
      }
    }

    // ----- Publication -----

    predicate MayNot(e: map<Id, Entry>, d: Disk, id: Id, success: bool, reason: string) {
      || id !in e || !e[id].staged || id !in d.staging || Unpublishable(e[id].manifest, d.staging[id], success, reason)
    }

    /** The checks of a publication that precede any write. */
    method PreCheck(id: Id, success: bool, reason: string) returns (refusal: Option<ErrorCode>)
      requires Valid() && up && id in writers
      ensures refusal.Some? ==>
                !refusal.value.QuotaExceeded? && forall at :: !Admitted(Now(), Op.Publish(id, success, reason, at))
      ensures refusal.Some? ==> refusal == Some(InvalidArgument) && MayNot(entries, disk, id, success, reason)
      ensures refusal.None? ==>
                id in entries && entries[id].staged && id in disk.staging &&
                (success ==> !entries[id].manifest.quarantined && reason == "") && (!success ==> ReasonOk(reason))
    {
      Known(worlds, trace, id);
      var e := entries[id];
      if !e.staged { return Some(InvalidArgument); }
      if success && (e.manifest.quarantined || reason != "") { return Some(InvalidArgument); }
      if !success && !ReasonOk(reason) { return Some(InvalidArgument); }
      return None;
    }

    /** Leftover temporaries of the attempt are swept before its files are listed. */
    method SweepTemps(id: Id) returns (out: Outcome)
      requires Valid() && up && id in writers && id in entries && entries[id].staged && id in disk.staging
      modifies `disk, `up, `worlds, `trace
      ensures up == !out.Cut?
      ensures Valid() && Answers(old(Now()), old(trace), Op.SweepTemps(id), Ended(out))
      ensures out.Done? ==> id in disk.staging && disk.staging[id] == old(disk).staging[id].(temps := 0)
      ensures calm ==> out.Done?
    {
      ghost var w, op := Now(), Op.SweepTemps(id);
      ScriptRuns(worlds, trace, w, op);
      var fate := Durable(Step(id, CleanTemps(true)), w.disk, Steps(w, op), 0);
      ApplyAt(w.disk, Step(id, CleanTemps(true)));
      assert fate.Ok? ==> At(disk, id) == Effect(At(w.disk, id), CleanTemps(true));
      out := if fate.Ok? then Done else fate.out;
      if out.Cut? {
        LosePower(out, w, op);
      } else {
        UpdateSame(w, id, disk);
        Conclude(out, w, op);
      }
    }

    /** Manifest first, then the rename that publishes: the store's commit point. */
    method PublishSteps(id: Id, m: Manifest, ghost base: Disk, ghost script: seq<Step>) returns (out: Outcome)
      requires script == On(id, [WriteTemp(true), InstallManifest(m), RenamePublish])
      requires Runs(base, script) && disk == base
      modifies `disk
      ensures out.Done? ==> disk == DiskAfter(base, script, 3)
      ensures !out.Done? ==> !calm && Stopped(base, script, 0, 3, out)
    {
      var fate := WriteManifest(id, m, base, script, 0);
      if fate.Stop? { return fate.out; }
      fate := Durable(Step(id, RenamePublish), base, script, 2);
      if fate.Stop? { return fate.out; }
      return Done;
    }

    predicate PublishedAs(id: Id, success: bool)
      reads this
    {
      up && id in entries && !entries[id].staged &&
      (if success then entries[id].manifest.status.Complete? else entries[id].manifest.status.Failed?)
    }

    method Commit(id: Id, success: bool, reason: string, at: nat) returns (out: Outcome)
      requires Valid() && up && Admitted(Now(), Op.Publish(id, success, reason, at))
      modifies this
      ensures Valid() && Answers(old(Now()), old(trace), Op.Publish(id, success, reason, at), Ended(out))
      ensures out.Done? ==> PublishedAs(id, success)
      ensures calm ==> out.Done?
    {
      hide Can, Next, IsHistory, Runs, DiskAfter, Usage;
      ghost var w, op := Now(), Op.Publish(id, success, reason, at);
      PublishScript(w, op);
      var e := entries[id];
      var m := PublishedManifest(e.manifest, success, reason, at, disk.staging[id].files);
      ScriptRuns(worlds, trace, w, op);
      out := PublishSteps(id, m, w.disk, Steps(w, op));
      EndCommit(id, e.(staged := false, manifest := m), out, w, op);
    }

    method EndCommit(id: Id, e: Entry, out: Outcome, ghost w: World, ghost op: Op)
      requires up && IsHistory(worlds, trace) && w == worlds[|trace|] && Admitted(w, op) && op.Publish? && op.id == id
      requires Finished(Look(w, id), op) == WithEntry(Look(w, id), e) && |Steps(w, op)| == 3
      requires Now() == w.(disk := disk)
      requires (!out.Done? ==> out.steps <= 3) && disk == DiskAfter(w.disk, Steps(w, op), if out.Done? then 3 else out.steps)
      modifies this
      ensures Valid() && Answers(w, old(trace), op, Ended(out))
      ensures out.Done? ==> up && entries == old(entries)[id := e]
    {
      hide Can, Next, IsHistory;
      if out.Cut? {
        LosePower(out, w, op);
      } else if out.Done? || out.steps == 3 {
        Commemorate(id, e, out, w, op);
      } else {
        EndsIdle(w, op, out.steps);
        Conclude(out, w, op);
      }
    }

    /** The rename has happened: memory says so even when a later sync failed. */
    method Commemorate(id: Id, e: Entry, out: Outcome, ghost w: World, ghost op: Op)
      requires up && IsHistory(worlds, trace) && w == worlds[|trace|] && Admitted(w, op) && op.Publish? && op.id == id
      requires out.Done? || (out.Failed? && out.steps == 3)
      requires Finished(Look(w, id), op) == WithEntry(Look(w, id), e)
      requires Now() == w.(disk := DiskAfter(w.disk, Steps(w, op), 3))
      modifies this
      ensures Valid() && Answers(w, old(trace), op, Ended(out))
      ensures up && entries == old(entries)[id := e]
    {
      hide IsHistory;
      entries := entries[id := e];
      EndsWith(w, op, out, e);
      SameSet(writers, id);
      Conclude(out, w, op);
    }

    /** A finalization is a sweep of temporaries followed, if nothing forbids it, by the commit. */
    ghost predicate Finalizes(w: World, t: seq<Event>, op: Op, reply: Reply)
      requires op.Publish? && Admitted(w, Op.SweepTemps(op.id))
      reads this
    {
      var sweep := Op.SweepTemps(op.id);
      var swept := Next(w, Call(sweep, Done));
      match reply
      case Stranded => false
      case Unopened => false
      case Refused(code) =>
        swept.Up? && Now() == swept && trace == t + [Call(sweep, Done)] && TrueReason(options, swept, op, code)
      case Ended(out) =>
        (!out.Done? && Answers(w, t, sweep, reply)) ||
        (swept.Up? && Answers(swept, t + [Call(sweep, Done)], op, reply))
    }

    /** Writes the final manifest and renames the bundle. A success that would not fit the budget is refused; an
        admitted publication of failure is never refused. */
    method Finalize(id: Id, success: bool, reason: string, at: nat) returns (reply: Reply)
      requires Valid() && up && id in writers
      modifies this
      ensures Valid() && old(trace) <= trace && (reply.Refused? ==> up)
      ensures old(id in entries && entries[id].staged) ||
              (reply.Refused? && Now() == old(Now()) && trace == old(trace))
      ensures (reply.Refused? && Now() == old(Now()) && trace == old(trace) && !reply.code.QuotaExceeded? &&
               !Admitted(Now(), Op.Publish(id, success, reason, at))) ||
              (Admitted(old(Now()), Op.SweepTemps(id)) &&
               Finalizes(old(Now()), old(trace), Op.Publish(id, success, reason, at), reply))
      ensures reply.Refused? && Admitted(old(Now()), Op.Publish(id, success, reason, at)) ==>
                reply.code.QuotaExceeded? && success && id in writers && MayFail(Now(), id)
      ensures reply == Ended(Done) ==> PublishedAs(id, success)
      ensures reply == Ended(Done) && success && options.maxBytes != 0 ==> up && Usage(options.sizes, Now()) <= options.maxBytes
      ensures Smooth(reply)
      ensures reply == Refused(InvalidArgument) ==> MayNot(old(entries), old(disk), id, success, reason)
      ensures reply == Ended(Done) ==> !MayNot(old(entries), old(disk), id, success, reason)
    {
      hide Can, Next, IsHistory, Runs, Usage;
      ghost var w, op := Now(), Op.Publish(id, success, reason, at);
      if Admitted(w, op) { SweepAdmits(w, op); }
      var refusal := PreCheck(id, success, reason);
      if refusal.Some? {
        assert !Admitted(w, op);
        return Refused(refusal.value);
      }
      var out := SweepTemps(id);
      if !out.Done? { return Ended(out); }
      Known(worlds, trace, id);
      reply := FinalizeSwept(id, success, reason, at);
      if reply == Refused(QuotaExceeded) {
        SuccessMayFail(Now(), id, at);
        PublishesStaged(Now(), Op.Publish(id, true, "", at));
      }
    }

    method FinalizeSwept(id: Id, success: bool, reason: string, at: nat) returns (reply: Reply)
      requires Valid() && up && id in writers && id in entries && entries[id].staged && id in disk.staging
      modifies this
      ensures Valid() && !reply.Stranded? && !reply.Unopened?
      ensures reply.Refused? ==>
                up && Now() == old(Now()) && trace == old(trace) &&
                TrueReason(options, Now(), Op.Publish(id, success, reason, at), reply.code)
      ensures reply == Refused(InvalidArgument) <==> Unpublishable(old(entries)[id].manifest, old(disk).staging[id], success, reason)
      ensures reply.Refused? ==> reply.code.InvalidArgument? || reply.code.QuotaExceeded?
      ensures reply.Ended? ==> Answers(old(Now()), old(trace), Op.Publish(id, success, reason, at), reply)
      ensures reply == Ended(Done) ==> PublishedAs(id, success)
      ensures reply == Ended(Done) && success && options.maxBytes != 0 ==> up && Usage(options.sizes, Now()) <= options.maxBytes
      ensures Smooth(reply)
    {
      ghost var w, op := Now(), Op.Publish(id, success, reason, at);
      Everything(worlds, trace);
      var e, d := entries[id], disk.staging[id];
      UnpublishableIff(d, e.manifest, success, reason);
      if !Publishable(d, e.manifest, success, reason) { return Refused(InvalidArgument); }
      var m := PublishedManifest(e.manifest, success, reason, at, d.files);
      PublishUsage(options.sizes, w, op);
      if success && options.maxBytes != 0 {
        var total := UsageLocked();
        var previous := if d.manifest.Some? then options.sizes.manifest(d.manifest.value) else 0;
        if total + options.sizes.manifest(m) > options.maxBytes + previous { return Refused(QuotaExceeded); }
      }
      var out := Commit(id, success, reason, at);
      return Ended(out);
    }

    // ----- Accounting -----

    method SumOf(m: map<nat, nat>) returns (total: nat)
      ensures total == Sum(m)
    {
      total := 0;
      var rest := m;
      while rest.Keys != {}
        invariant total + Sum(rest) == Sum(m)
        decreases |rest|
      {
        var k := Least(rest.Keys);
        SumWithout(rest, k);
        total := total + rest[k];
        rest := rest - {k};
      }
    }

    method UsageLocked() returns (total: nat)
      requires up
      ensures total == Usage(options.sizes, Now())
    {
      var z := options.sizes;
      var bundles := SumOf(map id | id in entries :: CellBytes(z, At(disk, id), entries[id].staged));
      var trash := SumOf(trashUsage);
      var records := SumOf(map id | id in disk.expired :: z.record(disk.expired[id]));
      return bundles + trash + records + z.temporaries(disk.expiredTemps) + z.root;
    }

    // ----- Retention -----

    /** The claim's durable steps: record, then the rename into trash. */
    method ClaimSteps(id: Id, r: Record, ghost base: Disk, ghost script: seq<Step>) returns (out: Outcome)
      requires script == On(id, [WriteRecordTemp, InstallRecord(r), RenameClaim]) && Runs(base, script) && disk == base
      modifies `disk
      ensures out.Done? ==> disk == DiskAfter(base, script, 3)
      ensures !out.Done? ==> !calm && Stopped(base, script, 0, 3, out)
    {
      var fate := Durable(Step(id, WriteRecordTemp), base, script, 0);
      if fate.Stop? { return fate.out; }
      fate := Durable(Step(id, InstallRecord(r)), base, script, 1);
      if fate.Stop? { return fate.out; }
      fate := Durable(Step(id, RenameClaim), base, script, 2);
      if fate.Stop? { return fate.out; }
      return Done;
    }

    /** What a claim by the policy would record. */
    ghost function PolicyClaim(w: World, id: Id, completed: nat, time: nat): Op
      requires w.Up? && id in w.mem.entries && id in w.disk.bundles
    {
      Op.Claim(id, ClaimRecord(options.sizes, w.mem.entries[id], w.disk.bundles[id], Aged(options, time, completed), time))
    }

    /** Claims one candidate if nothing protects it and it is too old or the budget is exceeded. */
    method Claim(id: Id, completed: nat, time: nat, additional: nat) returns (taken: Option<Outcome>, moved: bool, ghost e: Event)
      requires Valid() && up
      requires id in entries && !entries[id].staged ==> entries[id].manifest.completed == Some(completed)
      modifies `entries, `expirations, `trashUsage, `disk, `up, `worlds, `trace
      ensures Valid()
      ensures taken.None? <==> !Wanted(options, old(Now()), id, completed, time, additional)
      ensures taken.None? ==> Now() == old(Now()) && trace == old(trace) && worlds == old(worlds)
      ensures taken.Some? ==>
                id in old(entries) && id in old(disk).bundles &&
                Answers(old(Now()), old(trace), PolicyClaim(old(Now()), id, completed, time), Ended(taken.value))
      ensures taken.Some? ==> trace == old(trace) + [e] && WantedEvent(options, old(Now()), e, time, additional)
      ensures moved ==> up && taken.Some? && Expired(id, old(entries), old(expirations), old(trashUsage))
      ensures up && !moved ==> entries == old(entries) && (taken.Some? ==> taken.value.Failed?)
      ensures calm && taken.Some? ==> taken.value.Done? && up && moved
    {
      hide Can, Next, IsHistory, Runs, Usage;
      taken, moved, e := None, false, PowerLoss;
      if id !in entries || !Unprotected(entries[id]) { return; }
      var aged := Aged(options, time, completed);
      if !aged {
        var total := UsageLocked();
        if !Exceeds(options, total, additional) { return; }
      }
      Known(worlds, trace, id);
      ghost var op := PolicyClaim(Now(), id, completed, time);
      var out := Take(id, ClaimRecord(options.sizes, entries[id], disk.bundles[id], aged, time));
      taken, moved, e := Some(out), !out.Cut? && (out.Done? || out.steps == 3), Call(op, out);
    }

    /** The identity has moved out of `entries`; nothing else in memory has changed. */
    ghost predicate Expired(id: Id, e: map<Id, Entry>, x: map<Id, Summary>, u: map<Id, nat>)
      reads this
    {
      && entries == e - {id}
      && id in expirations && expirations == x[id := expirations[id]]
      && id in trashUsage && trashUsage == u[id := trashUsage[id]]
    }

    method Take(id: Id, r: Record) returns (out: Outcome)
      requires Valid() && up && Admitted(Now(), Op.Claim(id, r))
      modifies `entries, `expirations, `trashUsage, `disk, `up, `worlds, `trace
      ensures up == !out.Cut?
      ensures if up && (out.Done? || out.steps == 3)
              then Expired(id, old(entries), old(expirations), old(trashUsage))
              else entries == old(entries) && expirations == old(expirations) && trashUsage == old(trashUsage)
      ensures Valid() && Answers(old(Now()), old(trace), Op.Claim(id, r), Ended(out))
      ensures calm ==> out.Done?
    {
      hide IsHistory, Runs, DiskAfter;
      ghost var w, op := Now(), Op.Claim(id, r);
      ScriptRuns(worlds, trace, w, op);
      out := ClaimSteps(id, r, w.disk, Steps(w, op));
      if out.Cut? {
        LosePower(out, w, op);
      } else if out.Done? || out.steps == 3 {
        Expire(id, r.summary, out, w, op);
      } else {
        EndsIdle(w, op, out.steps);
        Conclude(out, w, op);
      }
    }

    /** The rename has happened: the identity moves from `entries` to `expirations` and to the deletion account. */
    method Expire(id: Id, s: Summary, out: Outcome, ghost w: World, ghost op: Op)
      requires up && IsHistory(worlds, trace) && w == worlds[|trace|] && Admitted(w, op)
      requires op.Claim? && op.id == id && op.record.summary == s
      requires out.Done? || (out.Failed? && out.steps == 3)
      requires Now() == w.(disk := DiskAfter(w.disk, Steps(w, op), 3))
      modifies `entries, `expirations, `trashUsage, `disk, `up, `worlds, `trace
      ensures Valid() && Answers(w, old(trace), op, Ended(out))
      ensures up && Expired(id, old(entries), old(expirations), old(trashUsage))
    {
      hide Can, Next, IsHistory, Runs, DiskAfter, Usage;
      ClaimEnds(w, op, out);
      trashUsage := trashUsage[id := s.bytes];
      expirations := expirations[id := s];
      entries := entries - {id};
      Conclude(out, w, op);
    }

    /** The power fails between two locked sections. */
    method Outage()
      requires Valid() && up
      modifies `up, `worlds, `trace
      ensures Valid() && !up && Now() == Next(old(Now()), PowerLoss) && trace == old(trace) + [PowerLoss]
    {
      up := false;
      Extend(worlds, trace, PowerLoss);
      worlds, trace := worlds + [Now()], trace + [PowerLoss];
    }

    /** One unlink of a deletion that runs outside the lock. */
    method Unlink(id: Id)
      requires Valid() && up && id in disk.trash
      modifies `disk, `worlds, `trace
      ensures Valid() && Now() == Next(old(Now()), Brush(id, DeleteStep)) && trace == old(trace) + [Brush(id, DeleteStep)]
      ensures if old(disk.trash[id]) > 0 then id in disk.trash && disk.trash[id] < old(disk.trash[id]) else id !in disk.trash
    {
      hide RecoveredMemo, IsHistory, Runs, DiskAfter, Plan, Finished, Broken, RecoveryPlan, RecoveredMem;
      ghost var w := Now();
      disk := Put(disk, id, Effect(At(disk, id), if disk.trash[id] > 0 then UnlinkTrash else RemoveTrashDir));
      UpdateSame(w, id, disk);
      LogTouch(w, id, DeleteStep);
    }

    /** A claim whose rename failed leaves its record behind, which is withdrawn. */
    method Withdraw(id: Id)
      requires Valid() && up && id in entries && !entries[id].staged
      modifies `disk, `worlds, `trace
      ensures Valid() && Now() == Next(old(Now()), Brush(id, WithdrawRecord))
      ensures trace == old(trace) + [Brush(id, WithdrawRecord)]
    {
      ghost var w := Now();
      disk := Put(disk, id, Effect(At(disk, id), RemoveRecord));
      UpdateSame(w, id, disk);
      LogTouch(w, id, WithdrawRecord);
    }

    /** The claimed directory is gone: the deletion account is closed under the lock. */
    method Forget(id: Id)
      requires Valid() && up && id in trashUsage && id !in disk.trash
      modifies `trashUsage, `worlds, `trace
      ensures Valid() && Now() == Next(old(Now()), Brush(id, ForgetTrash)) && trace == old(trace) + [Brush(id, ForgetTrash)]
      ensures trashUsage == old(trashUsage) - {id}
    {
      ghost var w := Now();
      trashUsage := trashUsage - {id};
      ForgetEnds(w, id);
      LogTouch(w, id, ForgetTrash);
    }

    /** Only deletion steps and the closing of one account were added to the history. */
    ghost predicate Deleting(t: seq<Event>)
      reads this
    {
      t <= trace && forall i :: |t| <= i < |trace| ==> Cleans(trace[i])
    }

    /** Deletes one claimed bundle outside the lock and closes its account; any step may fail. */
    method DeleteClaimed(id: Id) returns (clean: bool)
      requires Valid() && up && id in trashUsage
      modifies `disk, `trashUsage, `up, `worlds, `trace
      ensures Valid() && Deleting(old(trace))
      ensures clean ==> up
      ensures up ==> trashUsage == if clean then old(trashUsage) - {id} else old(trashUsage)
      ensures calm ==> clean
    {
      hide Can, Next, IsHistory, Runs, DiskAfter, Usage;
      while id in disk.trash
        invariant Valid() && up && Deleting(old(trace)) && trashUsage == old(trashUsage)
        decreases if id in disk.trash then 1 + disk.trash[id] else 0
      {
        var outage: bool, refused: bool :| calm ==> !outage && !refused;
        if outage { Outage(); return false; }
        if refused { return false; }
        Unlink(id);
      }
      Forget(id);
      return true;
    }

    /** The deletions an earlier prune left behind are retried first. */
    method RetryDeletions() returns (errors: nat)
      requires Valid() && up
      modifies `disk, `trashUsage, `up, `worlds, `trace
      ensures Valid() && Deleting(old(trace))
      ensures up && errors == 0 ==> trashUsage == map[]
      ensures calm ==> up && errors == 0
    {
      errors := 0;
      var todo := trashUsage.Keys;
      while todo != {}
        invariant Valid() && up && Deleting(old(trace))
        invariant todo <= trashUsage.Keys && (errors == 0 ==> todo == trashUsage.Keys) && (calm ==> errors == 0)
        decreases todo
      {
        var id := Least(todo);
        var clean := DeleteClaimed(id);
        if !up { return; }
        if !clean { errors := errors + 1; }
        todo := todo - {id};
      }
    }

    /** One candidate: kept untouched, gone for good, or an error on the way. */
    method Consider(id: Id, completed: nat, time: nat, additional: nat)
      returns (verdict: Verdict, moved: bool, ghost e: Event)
      requires Valid() && up
      requires id in entries && !entries[id].staged ==> entries[id].manifest.completed == Some(completed)
      modifies `entries, `expirations, `trashUsage, `disk, `up, `worlds, `trace
      ensures Valid()
      ensures if verdict.Kept? then up && Now() == old(Now()) && trace == old(trace) &&
                                    !Wanted(options, Now(), id, completed, time, additional)
              else Deleting(old(trace) + [e]) && WantedEvent(options, old(Now()), e, time, additional)
      ensures verdict.Gone? ==>
                up && moved && Wanted(options, old(Now()), id, completed, time, additional) &&
                expirations.Keys == old(expirations).Keys + {id} && trashUsage.Keys <= old(trashUsage).Keys
      ensures verdict.Kept? ==> !moved
      ensures up ==> entries == if moved then old(entries) - {id} else old(entries)
      ensures calm ==> up && !verdict.Trouble?
    {
      hide Can, Next, IsHistory, Wanted, Answers, PolicyClaim;
      WantedIsFree(options, Now(), id, completed, time, additional);
      var taken;
      taken, moved, e := Claim(id, completed, time, additional);
      if taken.None? { return Kept, moved, e; }
      if !up { return Trouble, moved, e; }
      verdict := Dispose(id, moved, taken.value);
    }

    /** After a claim: delete what was claimed, or withdraw the record of a claim that failed. */
    method Dispose(id: Id, moved: bool, out: Outcome) returns (verdict: Verdict)
      requires Valid() && up
      requires if moved then id in trashUsage else out.Failed? && id in entries && !entries[id].staged
      modifies `disk, `trashUsage, `up, `worlds, `trace
      ensures Valid() && Deleting(old(trace)) && !verdict.Kept?
      ensures verdict.Gone? ==> up && moved && trashUsage == old(trashUsage) - {id}
      ensures calm && moved && out.Done? ==> verdict.Gone?
    {
      verdict := Trouble;
      if moved {
        var clean := DeleteClaimed(id);
        if clean && out.Done? { verdict := Gone; }
      } else if out.steps == 2 {
        // The record is withdrawn when it was the rename that failed.
        var outage: bool, renamed: bool :| calm ==> !outage;
        if outage { Outage(); } else if !renamed { Withdraw(id); }
      }
    }

    /** Retention: old trash first, then the candidates in order, each claimed only if unprotected and wanted.
        `order` is the list of unprotected published bundles by completion time and identity. */
    method Prune(time: nat, additional: nat) returns (expired: seq<Id>, errors: nat, ghost order: seq<(nat, Id)>)
      requires Valid() && up
      modifies `entries, `expirations, `trashUsage, `disk, `up, `worlds, `trace
      ensures Valid() && old(trace) <= trace && Justified(options, worlds, trace, |old(trace)|, time, additional)
      ensures InOrder(order)
      ensures up ==> forall p :: p in order <==> IsCandidate(old(entries), p) && Free(old(entries), p)
      ensures up ==> entries == old(entries) - (set id | id in expired)
      ensures up && errors == 0 ==> Pruned(options, old(entries), Now(), expired, order, time, additional)
      ensures up && errors == 0 ==> OldestWent(options, old(entries), Now(), time, additional)
      ensures up && errors == 0 && Exceeds(options, Usage(options.sizes, Now()), additional) ==> NoneLeft(entries)
      ensures calm ==> up && errors == 0
    {
      hide Can, Next, IsHistory, Wanted, Pruned, InOrder, Justified, NoneLeft, Usage, OldestWent;
      ghost var e0 := entries;
      TimesKnown(worlds, trace);
      expired, errors, order := PruneOldest(time, additional);
      if up && errors == 0 { PrunedOldest(options, e0, Now(), expired, order, time, additional); }
      if up && errors == 0 && Exceeds(options, Usage(options.sizes, Now()), additional) {
        ExceededMeansNoneLeft(options, e0, Now(), expired, order, time, additional);
      }
    }

    /** The candidates one by one. */
    method PruneOldest(time: nat, additional: nat) returns (expired: seq<Id>, errors: nat, ghost order: seq<(nat, Id)>)
      requires Valid() && up
      modifies `entries, `expirations, `trashUsage, `disk, `up, `worlds, `trace
      ensures Valid() && old(trace) <= trace && Justified(options, worlds, trace, |old(trace)|, time, additional)
      ensures InOrder(order)
      ensures up ==> forall p :: p in order <==> IsCandidate(old(entries), p) && Free(old(entries), p)
      ensures up ==> entries == old(entries) - (set id | id in expired)
      ensures up && errors == 0 ==> Pruned(options, old(entries), Now(), expired, order, time, additional)
      ensures calm ==> up && errors == 0
    {
      hide Can, Next, IsHistory, Wanted, Usage, Pruned, InOrder, FreeAmong, Justified, IsCandidate;
      Lengths(worlds, trace);
      expired, errors, order := [], 0, [];
      TimesKnown(worlds, trace);
      var c := CollectCandidates(entries);
      ghost var ws, es, e0 := worlds, trace, entries;
      FreeNone(e0, c);
      errors := RetryDeletions();
      Justify(options, ws, es, worlds, trace, |es|, time, additional);
      if !up { return; }
      if errors == 0 { NonePruned(options, Now(), time, additional); }
      for i := 0 to |c|
        invariant Valid() && up && es <= trace && Justified(options, worlds, trace, |es|, time, additional)
        invariant entries == e0 - (set id | id in expired)
        invariant FreeAmong(e0, c, i, order)
        invariant errors == 0 ==> Pruned(options, e0, Now(), expired, order, time, additional)
        invariant calm ==> errors == 0
      {
        ghost var w, ws0, es0 := Now(), worlds, trace;
        var p := c[i];
        FreeMore(e0, c, i, order);
        CandidateIs(e0, c, p);
        if errors == 0 { StillThere(options, e0, w, c, i, expired, order, time, additional); }
        var verdict, moved, e := Consider(p.1, p.0, time, additional);
        Justify(options, ws0, es0, worlds, trace, |es|, time, additional);
        if !up { return; }
        if verdict.Trouble? { errors := errors + 1; }
        if errors == 0 && verdict.Kept? { KeptStep(options, e0, w, expired, order, p, time, additional); }
        if errors == 0 && verdict.Gone? { GoneStep(options, e0, w, Now(), expired, order, p, time, additional); }
        OneLess(e0, expired, p.1);
        if moved { expired := expired + [p.1]; }
        if Free(e0, p) { order := order + [p]; }
      }
      FreeAll(e0, c, order);
    }

    /** First look at the attempt, before any room is made. `growth` is what publishing it will add to the total. */
    method PrepareSuccess(id: Id, at: nat) returns (stop: Option<Reply>, growth: nat)
      requires Valid() && up && id in writers
      modifies `disk, `up, `worlds, `trace
      ensures Valid() && old(trace) <= trace
      ensures stop.None? ==>
                up && Admitted(Now(), Op.Publish(id, true, "", at)) &&
                growth == Growth(options.sizes, Now(), Op.Publish(id, true, "", at))
      ensures stop.Some? && stop.value.Refused? ==>
                up && !stop.value.code.QuotaExceeded? && !Admitted(Now(), Op.Publish(id, true, "", at))
      ensures stop.Some? && !stop.value.Refused? ==>
                stop.value.Ended? && !stop.value.out.Done? && Admitted(old(Now()), Op.SweepTemps(id)) &&
                Answers(old(Now()), old(trace), Op.SweepTemps(id), stop.value)
      ensures calm ==> up && (stop.None? || stop.value.Refused?)
    {
      hide Can, Next, IsHistory, Growth, Answers;
      growth := 0;
      var refusal := PreCheck(id, true, "");
      if refusal.Some? { return Some(Refused(refusal.value)), 0; }
      var out := SweepTemps(id);
      if !out.Done? { return Some(Ended(out)), 0; }
      Known(worlds, trace, id);
      var fits;
      fits, growth := MeasureSuccess(id, at);
      return if fits then None else Some(Refused(InvalidArgument)), growth;
    }

    method MeasureSuccess(id: Id, at: nat) returns (fits: bool, growth: nat)
      requires Valid() && up && id in writers && id in entries && entries[id].staged && id in disk.staging
      ensures fits <==> Admitted(Now(), Op.Publish(id, true, "", at))
      ensures fits ==> growth == Growth(options.sizes, Now(), Op.Publish(id, true, "", at))
    {
      hide Can, Next, IsHistory, Growth;
      var e, d, z := entries[id], disk.staging[id], options.sizes;
      if !Publishable(d, e.manifest, true, "") { return false, 0; }
      var size := z.manifest(PublishedManifest(e.manifest, true, "", at, d.files));
      var previous := if d.manifest.Some? then z.manifest(d.manifest.value) else 0;
      Everything(worlds, trace);
      GrowthIs(options.sizes, Now(), Op.Publish(id, true, "", at));
      return true, if size > previous then size - previous else 0;
    }

    /** Prunes for room, then publishes. Returning success means the store is within its budget. A refusal is the
        first look's, or there is no room for the growth, or the last section's: `w` and `t` are the world and the
        history that section starts from. A refusal for the budget leaves the writer fit to publish a failure. */
    method PublishSuccess(id: Id, at: nat, time: nat)
      returns (reply: Reply, ghost stage: Stage, ghost errors: nat, ghost w: World, ghost t: seq<Event>)
      requires Valid() && up && id in writers
      modifies this
      ensures Valid() && old(trace) <= t <= trace
      ensures reply == Ended(Done) ==>
                up && id in entries && !entries[id].staged && entries[id].manifest.status.Complete? &&
                id in disk.bundles && disk.bundles[id].manifest == Some(entries[id].manifest)
      ensures reply == Ended(Done) && options.maxBytes != 0 ==> Usage(options.sizes, Now()) <= options.maxBytes
      ensures reply.Refused? ==> up
      ensures reply.Refused? && stage.FirstLook? ==> !reply.code.QuotaExceeded? && !Admitted(Now(), Op.Publish(id, true, "", at))
      ensures reply == Refused(QuotaExceeded) ==> id in writers && MayFail(Now(), id)
      ensures stage.Room? ==>
                reply == Refused(QuotaExceeded) && w.Up? && Admitted(w, Op.Publish(id, true, "", at)) &&
                Exceeds(options, Usage(options.sizes, Now()), Growth(options.sizes, w, Op.Publish(id, true, "", at))) &&
                (errors == 0 ==> NoneLeft(entries))
      ensures stage.LastSection? && w.Up? ==>
                (reply.Refused? && !reply.code.QuotaExceeded? && Now() == w && trace == t &&
                 !Admitted(w, Op.Publish(id, true, "", at))) ||
                (Admitted(w, Op.SweepTemps(id)) && Finalizes(w, t, Op.Publish(id, true, "", at), reply))
      ensures Smooth(reply)
    {
      hide Can, Next, IsHistory, Finalizes, Pruned, Justified, InOrder, Growth, Usage, NoneLeft, Admitted, MayFail;
      stage, errors := FirstLook, 0;
      var stop, growth := PrepareSuccess(id, at);
      w, t := Now(), trace;
      if stop.Some? { return stop.value, stage, errors, w, t; }
      ghost var ws, op := worlds, Op.Publish(id, true, "", at);
      var _, trouble, _ := Prune(time, growth);
      errors := trouble;
      if !up { return Ended(Cut(0)), LastSection, errors, Now(), trace; }
      PruneAdmits(options, ws, t, worlds, trace, time, growth, op);
      SuccessMayFail(Now(), id, at);
      PublishesStaged(Now(), op);
      var total := UsageLocked();
      if Exceeds(options, total, growth) { return Refused(QuotaExceeded), Room, errors, w, t; }
      stage, w, t := LastSection, Now(), trace;
      reply := Finalize(id, true, "", at);
      if reply == Ended(Done) { Known(worlds, trace, id); }
    }

    // ----- Starting an attempt, listing -----

    /** Room is made first; an attempt starts only while the store is within its budget. `w` and `t` are the
        world and the history just before the attempt's own locked section. */
    method Begin(id: Id, created: nat, provenance: nat, required: seq<string>, pinned: bool, time: nat)
      returns (reply: Reply, ghost errors: nat, ghost w: World, ghost t: seq<Event>)
      requires Valid() && up
      modifies this
      ensures Valid() && old(trace) <= t <= trace
      ensures !reply.Refused? && w.Up? ==>
                Answers(w, t, Op.Begin(id, created, provenance, required, pinned), reply) &&
                (options.maxBytes != 0 ==> Usage(options.sizes, w) <= options.maxBytes)
      ensures reply.Refused? ==>
                up && w.Up? && Now() == w && trace == t &&
                if reply.code.QuotaExceeded?
                then Exceeds(options, Usage(options.sizes, w), 0) && (errors == 0 ==> NoneLeft(entries))
                else !Admitted(w, Op.Begin(id, created, provenance, required, pinned))
      ensures Smooth(reply)
    {
      hide Pruned, Justified, InOrder, NoneLeft;
      w, t, errors := Now(), trace, 0;
      if !InputsOk(required) { return Refused(InvalidArgument), errors, w, t; }
      var _, trouble, _ := Prune(time, 0);
      w, t, errors := Now(), trace, trouble;
      if !up { return Ended(Cut(0)), errors, w, t; }
      var total := UsageLocked();
      if Exceeds(options, total, 0) { return Refused(QuotaExceeded), errors, w, t; }
      reply := BeginLocked(id, created, provenance, required, pinned);
    }

    lemma Apart()
      requires Valid() && up
      ensures entries.Keys !! expirations.Keys
    {
      forall id ensures !(id in entries && id in expirations) { AccountsAgree(worlds, trace, |trace|, id); }
    }

    /** A page of the live and the expired identities. */
    method List(after: Option<Id>, limit: nat) returns (page: Option<Listing.Page>)
      requires Valid() && up
      ensures page.None? <==> limit == 0 || limit > Listing.PAGE_LIMIT
      ensures page.Some? ==>
                var all := Ordered(entries.Keys + expirations.Keys);
                Listing.Ids(page.value.items) == Listing.PageIds(all, after, limit) &&
                page.value.nextAfter == Listing.PageNext(all, after, limit)
      ensures page.Some? ==>
                forall t :: t in page.value.items ==> if t.Live? then t.id in entries else t.id in expirations
    {
      Apart();
      page := Listing.List(entries, expirations, after, limit);
    }

    // ----- Opening after a power loss -----

    /** A restart after a power loss: it is never refused, and the run goes on from what recovery made. */
    method Reopen(how: How) returns (usable: bool, ghost p: Progress)
      requires Valid() && !up
      modifies this
      ensures Valid() && usable == up && (usable ==> p.All?)
      ensures trace == old(trace) + [Event.Recover(how, p)]
      ensures usable ==> forall id :: Classified(Look(Now(), id))
      ensures calm ==> usable
    {
      ghost var d := disk;
      var state := new Restart(disk, calm);
      var r;
      r, p := state.Recover(how);
      Reopened(worlds, trace, how, p, r);
      usable := r.Opened?;
      entries, expirations, trashUsage, disk := state.entries, state.expirations, state.trashUsage, state.disk;
      up, leases, writers := usable, multiset{}, {};
      if usable { OpenedRows(d, disk, entries, expirations, trashUsage, how); }
      worlds, trace := worlds + [Now()], trace + [Event.Recover(how, p)];
    }
  }
}
