/** What the histories of a captured frame mean, stated without the recursions that compute them: which queue labels
    are open, which submission a call belongs to, and when two submissions use one generation of a buffer. */
module FrameHistory {
  import opened Prelude
  import opened DrawExecutions

  function LabelStep(c: FrameCommand, queue: string): int {
    match c
    case QueueBegin(q, _) => if q == queue then 1 else 0
    case QueueEnd(q) => if q == queue then -1 else 0
    case _ => 0
  }

  /** Label scopes of the queue opened minus those closed by the calls i..t. */
  function Depth(f: seq<FrameCall>, queue: string, i: nat, t: nat): int
    requires i <= t <= |f|
  {
    if i == t then 0 else Depth(f, queue, i, t - 1) + LabelStep(f[t - 1].command, queue)
  }

  predicate Opens(c: FrameCommand, queue: string) {
    c.QueueBegin? && c.queue == queue
  }

  /** The label that call `i` began on the queue has not been ended before `t`. */
  ghost predicate IsOpen(f: seq<FrameCall>, queue: string, i: nat, t: nat)
    requires t <= |f|
  {
    i < t && Opens(f[i].command, queue) && forall j :: i < j <= t ==> Depth(f, queue, i, j) >= 1
  }

  /** The texts of the labels open on the queue, outermost first; `opens` are the calls that began them. */
  ghost predicate OpenLabels(f: seq<FrameCall>, queue: string, t: nat, opens: seq<nat>, labels: seq<string>)
    requires t <= |f|
  {
    && Increasing(opens) && |labels| == |opens|
    && (forall i :: i in opens <==> IsOpen(f, queue, i, t))
    && (forall k :: 0 <= k < |opens| ==> opens[k] < t && f[opens[k]].command == QueueBegin(queue, labels[k]))
  }

  ghost predicate Nested(f: seq<FrameCall>, queue: string, t: nat, opens: seq<nat>)
    requires t <= |f|
  {
    forall k :: 0 <= k < |opens| ==> opens[k] < t && Depth(f, queue, opens[k], t) == |opens| - k
  }

  lemma OpenStep(f: seq<FrameCall>, queue: string, i: nat, t: nat)
    requires t < |f|
    ensures IsOpen(f, queue, i, t + 1) <==>
            if i == t then Opens(f[t].command, queue)
            else IsOpen(f, queue, i, t) && Depth(f, queue, i, t + 1) >= 1
  {
    if i == t { assert Depth(f, queue, t, t + 1) == LabelStep(f[t].command, queue) + Depth(f, queue, t, t); }
  }

  lemma LabelBegins(f: seq<FrameCall>, queue: string, t: nat, opens: seq<nat>, labels: seq<string>)
    requires t < |f| && Opens(f[t].command, queue) && OpenLabels(f, queue, t, opens, labels) && Nested(f, queue, t, opens)
    ensures OpenLabels(f, queue, t + 1, opens + [t], labels + [f[t].command.text])
    ensures Nested(f, queue, t + 1, opens + [t])
  {
    forall i ensures i in opens + [t] <==> IsOpen(f, queue, i, t + 1) {
      OpenStep(f, queue, i, t);
      if i in opens { assert IsOpen(f, queue, i, t); }
    }
  }

  lemma LabelEnds(f: seq<FrameCall>, queue: string, t: nat, opens: seq<nat>, labels: seq<string>)
    requires t < |f| && f[t].command == QueueEnd(queue) && opens != []
    requires OpenLabels(f, queue, t, opens, labels) && Nested(f, queue, t, opens)
    ensures OpenLabels(f, queue, t + 1, opens[..|opens| - 1], labels[..|opens| - 1])
    ensures Nested(f, queue, t + 1, opens[..|opens| - 1])
  {
    var r := opens[..|opens| - 1];
    forall i ensures i in r <==> IsOpen(f, queue, i, t + 1) {
      OpenStep(f, queue, i, t);
      if i in opens {
        var k :| 0 <= k < |opens| && opens[k] == i;
        assert Depth(f, queue, i, t) == |opens| - k;
        if k < |r| { assert r[k] == i; }
      }
    }
  }

  lemma LabelsStay(f: seq<FrameCall>, queue: string, t: nat, opens: seq<nat>, labels: seq<string>)
    requires t < |f| && LabelStep(f[t].command, queue) == 0
    requires OpenLabels(f, queue, t, opens, labels) && Nested(f, queue, t, opens)
    ensures OpenLabels(f, queue, t + 1, opens, labels) && Nested(f, queue, t + 1, opens)
  {
    forall i ensures i in opens <==> IsOpen(f, queue, i, t + 1) {
      OpenStep(f, queue, i, t);
      if IsOpen(f, queue, i, t) { assert Depth(f, queue, i, t) >= 1; }
    }
  }

  /** The labels that an execution reports are those begun on its queue and not yet ended, outermost first, in every
      frame whose calls so far are in order. */
  lemma {:induction false} LabelsAreOpen(src: Source, f: seq<FrameCall>, queue: string, t: nat) returns (opens: seq<nat>)
    requires t <= |f| && forall i :: 0 <= i < t ==> CallOk(src, f, i)
    ensures OpenLabels(f, queue, t, opens, QueueLabels(f, t, queue)) && Nested(f, queue, t, opens)
  {
    opens := [];
    if t > 0 {
      var s := t - 1;
      opens := LabelsAreOpen(src, f, queue, s);
      var c := f[s].command;
      assert CallOk(src, f, s);
      if Opens(c, queue) {
        LabelBegins(f, queue, s, opens, QueueLabels(f, s, queue));
        opens := opens + [s];
      } else if c == QueueEnd(queue) {
        LabelEnds(f, queue, s, opens, QueueLabels(f, s, queue));
        opens := opens[..|opens| - 1];
      } else {
        LabelsStay(f, queue, s, opens, QueueLabels(f, s, queue));
      }
    }
  }

  /** The queues that count against the limit are those on which a label was ever begun. */
  lemma {:induction false} LabelledIff(f: seq<FrameCall>, t: nat, queue: string)
    requires t <= |f|
    ensures queue in LabelledQueues(f, t) <==> exists i :: 0 <= i < t && Opens(f[i].command, queue)
  {
    if t > 0 { LabelledIff(f, t - 1, queue); }
  }

  function Submissions(f: seq<FrameCall>, t: nat): set<nat>
    requires t <= |f|
  {
    set i | 0 <= i < t && f[i].command.Submit?
  }

  /** Submissions are numbered from zero in the order of their calls. */
  lemma {:induction false} SubmissionsAreCounted(f: seq<FrameCall>, t: nat)
    requires t <= |f|
    ensures SubmissionAt(f, t) == |Submissions(f, t)|
  {
    if t > 0 {
      SubmissionsAreCounted(f, t - 1);
      assert Submissions(f, t) == Submissions(f, t - 1) + if f[t - 1].command.Submit? then {t - 1} else {};
    }
  }

  predicate RecordedIn(f: seq<FrameCall>, s: nat, t: nat, buffer: string)
    requires t <= |f|
  {
    exists i :: s <= i < t && f[i].command.Record? && f[i].command.buffer == buffer
  }

  /** A buffer has the same generation at two points exactly if it was not recorded between them. */
  lemma {:induction false} SameGeneration(f: seq<FrameCall>, s: nat, t: nat, buffer: string)
    requires s <= t <= |f|
    ensures GenerationAt(f, s, buffer) <= GenerationAt(f, t, buffer)
    ensures GenerationAt(f, s, buffer) == GenerationAt(f, t, buffer) <==> !RecordedIn(f, s, t, buffer)
  {
    if s < t { SameGeneration(f, s, t - 1, buffer); }
  }

  /** What an accepted frame submits is a begun recording of a primary buffer, put into it before the submission. */
  lemma SubmittedIsQualified(src: Source, f: seq<FrameCall>, s: Slot) returns (at: nat)
    requires LegalFrame(src, f) && IsSlot(f, s)
    ensures at < s.call && f[at].command.Record? && f[at].command.buffer == BufferOf(f, s)
    ensures f[at].command.recording in src.recordings && src.recordings[f[at].command.recording].begun
    ensures BufferOf(f, s) in src.primary && src.primary[BufferOf(f, s)]
  {
    SlotsAre(f, |f|);
    assert s in Slots(f, |f|);
    var k :| 0 <= k < |Slots(f, |f|)| && Slots(f, |f|)[k] == s;
    assert SlotOk(src, f, Slots(f, |f|)[k]);
    var buffer, recording := BufferOf(f, s), RecordingOf(f, s).value;
    ActiveIff(f, s.call, buffer, recording);
    at :| RecordedBy(f, at, s.call, buffer, recording);
  }

  /** No recording of a one-time buffer is submitted twice: between two such submissions of one buffer there is a
      new recording of it. */
  lemma RerecordedBetween(src: Source, f: seq<FrameCall>, p: nat, q: nat)
    requires LegalFrame(src, f) && p < q < |Slots(f, |f|)|
    requires IsSlot(f, Slots(f, |f|)[p]) && IsSlot(f, Slots(f, |f|)[q])
    requires OneTime(src, f, Slots(f, |f|)[p]) && OneTime(src, f, Slots(f, |f|)[q])
    requires BufferOf(f, Slots(f, |f|)[p]) == BufferOf(f, Slots(f, |f|)[q])
    ensures RecordedIn(f, Slots(f, |f|)[p].call, Slots(f, |f|)[q].call, BufferOf(f, Slots(f, |f|)[p]))
  {
    var a, b := Slots(f, |f|)[p], Slots(f, |f|)[q];
    SlotsAre(f, |f|);
    assert Earlier(a, b);
    SameGeneration(f, a.call, b.call, BufferOf(f, a));
  }

  /** The executions of a list of submitted buffers. */
  function All(src: Source, f: seq<FrameCall>): seq<Execution>
    requires AllSlots(f, Slots(f, |f|))
  {
    Executions(src, f, Slots(f, |f|), |Slots(f, |f|)|)
  }

  /** Every execution of a legal frame, field by field: the submission it belongs to, its place there, the buffer
      submitted, the recording that call `at` put into it, the draw, and the labels then open on the queue. */
  lemma ExecutionIs(src: Source, f: seq<FrameCall>, i: nat) returns (s: Slot, d: nat, at: nat, opens: seq<nat>)
    requires LegalFrame(src, f) && i < |All(src, f)|
    ensures s.call < |f| && f[s.call].command.Submit?
    ensures var e, infos, queue := All(src, f)[i], f[s.call].command.infos, f[s.call].command.queue;
            && s.info < |infos| && s.index < |infos[s.info]| && at < s.call && f[at].command.Record?
            && var buffer, recording := infos[s.info][s.index], f[at].command.recording;
            && e.selection == Selection(|Submissions(f, s.call)|, s.info, s.index, queue, buffer, recording, e.draw.event)
            && f[at].command.buffer == buffer && (forall j :: at < j < s.call ==> !Replaces(f[j].command, buffer))
            && recording in src.draws && d < |src.draws[recording]| && e.draw == src.draws[recording][d]
            && OpenLabels(f, queue, s.call, opens, e.queueLabels)
  {
    s, d, at := ExecutionsUseLatest(src, f, i);
    SubmissionsAreCounted(f, s.call);
    opens := LabelsAreOpen(src, f, f[s.call].command.queue, s.call);
  }

  lemma {:induction false} ExecutionsStart(src: Source, f: seq<FrameCall>, slots: seq<Slot>, m: nat, n: nat)
    requires AllSlots(f, slots) && m <= n <= |slots|
    ensures Executions(src, f, slots, m) <= Executions(src, f, slots, n)
  {
    hide SlotExecutions, DrawsOf, IsSlot, BufferOf, RecordingOf, ExecutionOf, Slots;
    if m < n {
      ExecutionsStart(src, f, slots, m, n - 1);
      OneMoreSlot(src, f, slots, n - 1);
    }
  }

  lemma OneMoreSlot(src: Source, f: seq<FrameCall>, slots: seq<Slot>, k: nat)
    requires AllSlots(f, slots) && k < |slots|
    ensures Executions(src, f, slots, k + 1) ==
            Executions(src, f, slots, k) + SlotExecutions(src, f, slots[k], |DrawsOf(src, f, slots[k])|)
  {
  }

  lemma DrawsAre(src: Source, f: seq<FrameCall>, s: Slot, d: nat)
    requires IsSlot(f, s) && RecordingOf(f, s).Some? && RecordingOf(f, s).value in src.draws
    requires d < |src.draws[RecordingOf(f, s).value]|
    ensures DrawsOf(src, f, s) == src.draws[RecordingOf(f, s).value]
    ensures forall e :: ComesFrom(src, f, s, d, e) ==> e.draw == src.draws[RecordingOf(f, s).value][d]
  {
    hide RecordingOf;
  }

  lemma DrawOfSlot(src: Source, f: seq<FrameCall>, s: Slot, d: nat)
    requires IsSlot(f, s) && d < |DrawsOf(src, f, s)|
    ensures var own := SlotExecutions(src, f, s, |DrawsOf(src, f, s)|);
            |own| == |DrawsOf(src, f, s)| && ComesFrom(src, f, s, d, own[d])
  {
    hide ExecutionOf, ActiveAt;
  }

  lemma DrawIsPlaced(src: Source, f: seq<FrameCall>, slots: seq<Slot>, k: nat, d: nat)
    requires AllSlots(f, slots) && k < |slots| && d < |DrawsOf(src, f, slots[k])|
    ensures var i := |Executions(src, f, slots, k)| + d;
            && i < |Executions(src, f, slots, |slots|)|
            && ComesFrom(src, f, slots[k], d, Executions(src, f, slots, |slots|)[i])
  {
    hide ComesFrom, DrawsOf, SlotExecutions, Executions, RecordingOf, BufferOf;
    ExecutionsStart(src, f, slots, k + 1, |slots|);
    OneMoreSlot(src, f, slots, k);
    DrawOfSlot(src, f, slots[k], d);
  }

  /** Every draw of the recording in every submitted buffer is executed, after those of earlier slots and earlier draws. */
  lemma EachDrawExecutes(src: Source, f: seq<FrameCall>, slots: seq<Slot>, k: nat, d: nat)
    requires AllSlots(f, slots) && k < |slots| && RecordingOf(f, slots[k]).Some?
    requires var r := RecordingOf(f, slots[k]).value; r in src.draws && d < |src.draws[r]|
    ensures var i := |Executions(src, f, slots, k)| + d;
            && i < |Executions(src, f, slots, |slots|)|
            && ComesFrom(src, f, slots[k], d, Executions(src, f, slots, |slots|)[i])
            && Executions(src, f, slots, |slots|)[i].draw == src.draws[RecordingOf(f, slots[k]).value][d]
  {
    hide ComesFrom, DrawsOf, Executions, RecordingOf, BufferOf;
    DrawsAre(src, f, slots[k], d);
    DrawIsPlaced(src, f, slots, k, d);
  }

  /** Executions come in the order of submissions, submit infos, buffers and draws. */
  lemma InSubmissionOrder(src: Source, f: seq<FrameCall>, i: nat, j: nat) returns (a: Slot, d: nat, b: Slot, e: nat)
    requires AllSlots(f, Slots(f, |f|)) && i < j < |All(src, f)|
    ensures ComesFrom(src, f, a, d, All(src, f)[i]) && ComesFrom(src, f, b, e, All(src, f)[j])
    ensures Earlier(a, b) || (a == b && d < e)
  {
    hide ComesFrom, Executions, IsSlot, BufferOf, RecordingOf, ExecutionOf, DrawsOf;
    var slots := Slots(f, |f|);
    SlotsAre(f, |f|);
    var k, l;
    k, d := Origin(src, f, slots, |slots|, i);
    l, e := Origin(src, f, slots, |slots|, j);
    a, b := slots[k], slots[l];
    if l < k { ExecutionsGrow(src, f, slots, l + 1, k); }
  }
}
