/** From recordings to executions: a captured frame records, resets and submits command buffers; every draw of
    every submitted recording becomes one execution. */
module DrawExecutions {
  import opened Prelude
  import opened DrawReading

  const SUBMIT_LIMIT := 16
  const QUEUE_LIMIT := 64
  const EXECUTION_LIMIT := 10000

  datatype FrameCommand =
    | Record(buffer: string, recording: string)
    | Reset(buffer: string)
    | QueueBegin(queue: string, text: string)
    | QueueEnd(queue: string)
    | Submit(queue: string, infos: seq<seq<string>>)
    | Observed

  /** `qualified`: a known call whose operands decode. */
  datatype FrameCall = FrameCall(qualified: bool, command: FrameCommand)

  /** `begun` says that the recording has a decodable begin structure, `oneTime` is its usage flag. */
  datatype Recording = Recording(begun: bool, oneTime: bool)

  /** What the source provides: its recordings, the draws of those that could be read, and for each command
      buffer whether its allocation is a primary single one. */
  datatype Source = Source(recordings: map<string, Recording>, draws: map<string, seq<DrawRecord>>, primary: map<string, bool>)

  datatype Selection = Selection(
    submission: nat, info: nat, index: nat, queue: string, buffer: string, recording: string, event: nat)

  datatype Execution = Execution(selection: Selection, draw: DrawRecord, queueLabels: seq<string>)

  // ----- Reading the frame -----

  /** The recording a buffer holds: the latest one since its last reset. */
  function ActiveAt(f: seq<FrameCall>, t: nat, buffer: string): Option<string>
    requires t <= |f|
  {
    if t == 0 then None
    else match f[t - 1].command
      case Record(b, r) => if b == buffer then Some(r) else ActiveAt(f, t - 1, buffer)
      case Reset(b) => if b == buffer then None else ActiveAt(f, t - 1, buffer)
      case _ => ActiveAt(f, t - 1, buffer)
  }

  /** How often the buffer has been recorded. */
  function GenerationAt(f: seq<FrameCall>, t: nat, buffer: string): nat
    requires t <= |f|
  {
    if t == 0 then 0
    else GenerationAt(f, t - 1, buffer) +
         if f[t - 1].command.Record? && f[t - 1].command.buffer == buffer then 1 else 0
  }

  function SubmissionAt(f: seq<FrameCall>, t: nat): nat
    requires t <= |f|
  {
    if t == 0 then 0 else SubmissionAt(f, t - 1) + if f[t - 1].command.Submit? then 1 else 0
  }

  /** The labels open on a queue, outermost first. */
  function QueueLabels(f: seq<FrameCall>, t: nat, queue: string): seq<string>
    requires t <= |f|
  {
    if t == 0 then [] else
      var before := QueueLabels(f, t - 1, queue);
      match f[t - 1].command
      case QueueBegin(q, text) => if q == queue then before + [text] else before
      case QueueEnd(q) => if q == queue && before != [] then before[..|before| - 1] else before
      case _ => before
  }

  function LabelledQueues(f: seq<FrameCall>, t: nat): set<string>
    requires t <= |f|
  {
    if t == 0 then {}
    else if f[t - 1].command.QueueBegin? then LabelledQueues(f, t - 1) + {f[t - 1].command.queue}
    else LabelledQueues(f, t - 1)
  }

  // ----- Submitted buffers, in submission order -----

  datatype Slot = Slot(call: nat, info: nat, index: nat)

  function InfoSlots(t: nat, i: nat, n: nat): seq<Slot> {
    if n == 0 then [] else InfoSlots(t, i, n - 1) + [Slot(t, i, n - 1)]
  }

  function CallSlots(t: nat, infos: seq<seq<string>>, n: nat): seq<Slot>
    requires n <= |infos|
  {
    if n == 0 then [] else CallSlots(t, infos, n - 1) + InfoSlots(t, n - 1, |infos[n - 1]|)
  }

  function Slots(f: seq<FrameCall>, t: nat): seq<Slot>
    requires t <= |f|
  {
    if t == 0 then []
    else Slots(f, t - 1) +
         if f[t - 1].command.Submit? then CallSlots(t - 1, f[t - 1].command.infos, |f[t - 1].command.infos|) else []
  }

  predicate IsSlot(f: seq<FrameCall>, s: Slot) {
    && s.call < |f| && f[s.call].command.Submit?
    && s.info < |f[s.call].command.infos| && s.index < |f[s.call].command.infos[s.info]|
  }

  function BufferOf(f: seq<FrameCall>, s: Slot): string
    requires IsSlot(f, s)
  {
    f[s.call].command.infos[s.info][s.index]
  }

  function RecordingOf(f: seq<FrameCall>, s: Slot): Option<string>
    requires IsSlot(f, s)
  {
    ActiveAt(f, s.call, BufferOf(f, s))
  }

  /** Which use of which recording of which buffer a slot submits. */
  function GenerationOf(f: seq<FrameCall>, s: Slot): (string, nat)
    requires IsSlot(f, s)
  {
    (BufferOf(f, s), GenerationAt(f, s.call, BufferOf(f, s)))
  }

  predicate OneTime(src: Source, f: seq<FrameCall>, s: Slot)
    requires IsSlot(f, s)
  {
    var r := RecordingOf(f, s);
    r.Some? && r.value in src.recordings && src.recordings[r.value].oneTime
  }

  /** The slot submits a known recording of a primary buffer. */
  predicate SlotOk(src: Source, f: seq<FrameCall>, s: Slot)
    requires IsSlot(f, s)
  {
    var r, b := RecordingOf(f, s), BufferOf(f, s);
    r.Some? && r.value in src.recordings && src.recordings[r.value].begun && b in src.primary && src.primary[b]
  }

  ghost predicate AllSlots(f: seq<FrameCall>, slots: seq<Slot>) {
    forall k :: 0 <= k < |slots| ==> IsSlot(f, slots[k])
  }

  /** No generation of a one-time recording is submitted twice. */
  ghost predicate OnceOnly(src: Source, f: seq<FrameCall>, slots: seq<Slot>)
    requires AllSlots(f, slots)
  {
    forall p, q :: 0 <= p < q < |slots| && OneTime(src, f, slots[p]) && OneTime(src, f, slots[q]) ==>
                     GenerationOf(f, slots[p]) != GenerationOf(f, slots[q])
  }

  // ----- Executions -----

  function DrawsOf(src: Source, f: seq<FrameCall>, s: Slot): seq<DrawRecord>
    requires IsSlot(f, s)
  {
    var r := RecordingOf(f, s);
    if r.Some? && r.value in src.draws then src.draws[r.value] else []
  }

  function ExecutionOf(src: Source, f: seq<FrameCall>, s: Slot, d: DrawRecord): Execution
    requires IsSlot(f, s) && RecordingOf(f, s).Some?
  {
    var queue := f[s.call].command.queue;
    Execution(Selection(SubmissionAt(f, s.call), s.info, s.index, queue, BufferOf(f, s), RecordingOf(f, s).value, d.event),
              d, QueueLabels(f, s.call, queue))
  }

  function SlotExecutions(src: Source, f: seq<FrameCall>, s: Slot, n: nat): (r: seq<Execution>)
    requires IsSlot(f, s) && n <= |DrawsOf(src, f, s)|
    ensures |r| == n && forall i :: 0 <= i < n ==> r[i] == ExecutionOf(src, f, s, DrawsOf(src, f, s)[i])
  {
    if n == 0 then []
    else SlotExecutions(src, f, s, n - 1) + [ExecutionOf(src, f, s, DrawsOf(src, f, s)[n - 1])]
  }

  /** The in-order flattening: submissions, submit infos, buffers, draws. */
  function Executions(src: Source, f: seq<FrameCall>, slots: seq<Slot>, n: nat): seq<Execution>
    requires n <= |slots| && forall k :: 0 <= k < |slots| ==> IsSlot(f, slots[k])
  {
    if n == 0 then []
    else Executions(src, f, slots, n - 1) + SlotExecutions(src, f, slots[n - 1], |DrawsOf(src, f, slots[n - 1])|)
  }

  // ----- Accepted frames -----

  predicate CallOk(src: Source, f: seq<FrameCall>, t: nat)
    requires t < |f|
  {
    f[t].qualified &&
    match f[t].command
    case Record(_, recording) => recording in src.recordings
    case QueueBegin(queue, _) =>
      |LabelledQueues(f, t) + {queue}| <= QUEUE_LIMIT && |QueueLabels(f, t, queue)| < LABEL_DEPTH
    case QueueEnd(queue) => QueueLabels(f, t, queue) != []
    case Submit(_, infos) => 0 < |infos| <= SUBMIT_LIMIT && forall i :: 0 <= i < |infos| ==> infos[i] != []
    case _ => true
  }

  ghost predicate SlotsLegal(src: Source, f: seq<FrameCall>, slots: seq<Slot>) {
    && AllSlots(f, slots) && OnceOnly(src, f, slots)
    && (forall k :: 0 <= k < |slots| ==> SlotOk(src, f, slots[k]))
    && |Executions(src, f, slots, |slots|)| <= EXECUTION_LIMIT
  }

  ghost predicate LegalFrame(src: Source, f: seq<FrameCall>) {
    && (forall t :: 0 <= t < |f| ==> CallOk(src, f, t))
    && SlotsLegal(src, f, Slots(f, |f|))
    && forall queue :: QueueLabels(f, |f|, queue) == []
  }

  // ----- Lemmas -----

  lemma {:induction false} InfoSlotsAre(t: nat, i: nat, n: nat)
    ensures |InfoSlots(t, i, n)| == n && forall k :: 0 <= k < n ==> InfoSlots(t, i, n)[k] == Slot(t, i, k)
  {
    if n > 0 { InfoSlotsAre(t, i, n - 1); }
  }

  /** Slots come in lexicographic order of call, submit info and buffer. */
  predicate Earlier(a: Slot, b: Slot) {
    a.call < b.call || (a.call == b.call && (a.info < b.info || (a.info == b.info && a.index < b.index)))
  }

  ghost predicate InOrder(s: seq<Slot>) {
    forall p, q :: 0 <= p < q < |s| ==> Earlier(s[p], s[q])
  }

  lemma {:induction false} CallSlotsAre(t: nat, infos: seq<seq<string>>, n: nat)
    requires n <= |infos|
    ensures InOrder(CallSlots(t, infos, n))
    ensures forall s :: s in CallSlots(t, infos, n) <==> s.call == t && s.info < n && s.index < |infos[s.info]|
  {
    if n > 0 {
      CallSlotsAre(t, infos, n - 1);
      InfoSlotsAre(t, n - 1, |infos[n - 1]|);
      var a, b := CallSlots(t, infos, n - 1), InfoSlots(t, n - 1, |infos[n - 1]|);
      forall p, q | 0 <= p < q < |a + b| ensures Earlier((a + b)[p], (a + b)[q]) {
        if p < |a| { assert a[p] in a; }
      }
      forall s ensures s in b <==> s.call == t && s.info == n - 1 && s.index < |infos[n - 1]| {
        if s.call == t && s.info == n - 1 && s.index < |infos[n - 1]| { assert b[s.index] == s; }
      }
    }
  }

  /** The slots up to a call are exactly the submitted buffers before it, in order. */
  lemma {:induction false} SlotsAre(f: seq<FrameCall>, t: nat)
    requires t <= |f|
    ensures InOrder(Slots(f, t))
    ensures forall s :: s in Slots(f, t) <==> IsSlot(f, s) && s.call < t
  {
    if t > 0 {
      SlotsAre(f, t - 1);
      var a := Slots(f, t - 1);
      if f[t - 1].command.Submit? {
        var infos := f[t - 1].command.infos;
        CallSlotsAre(t - 1, infos, |infos|);
        var b := CallSlots(t - 1, infos, |infos|);
        forall p, q | 0 <= p < q < |a + b| ensures Earlier((a + b)[p], (a + b)[q]) {
          if p < |a| { assert a[p] in a; }
          if q >= |a| { assert b[q - |a|] in b; }
        }
      }
    }
  }

  lemma {:induction false} SlotsPrefix(f: seq<FrameCall>, t: nat, n: nat)
    requires t <= n <= |f|
    ensures Slots(f, t) <= Slots(f, n)
  {
    if t < n { SlotsPrefix(f, t, n - 1); }
  }

  lemma {:induction false} CallSlotsPrefix(t: nat, infos: seq<seq<string>>, m: nat, n: nat)
    requires m <= n <= |infos|
    ensures CallSlots(t, infos, m) <= CallSlots(t, infos, n)
  {
    if m < n { CallSlotsPrefix(t, infos, m, n - 1); }
  }

  lemma {:induction false} InfoSlotsPrefix(t: nat, i: nat, m: nat, n: nat)
    requires m <= n
    ensures InfoSlots(t, i, m) <= InfoSlots(t, i, n)
  {
    if m < n { InfoSlotsPrefix(t, i, m, n - 1); }
  }

  lemma {:induction false} ExecutionsPrefix(src: Source, f: seq<FrameCall>, a: seq<Slot>, b: seq<Slot>, n: nat)
    requires a <= b && AllSlots(f, b) && n <= |a|
    ensures AllSlots(f, a) && Executions(src, f, a, n) == Executions(src, f, b, n)
  {
    if n > 0 { ExecutionsPrefix(src, f, a, b, n - 1); }
  }

  lemma {:induction false} ExecutionsGrow(src: Source, f: seq<FrameCall>, s: seq<Slot>, m: nat, n: nat)
    requires AllSlots(f, s) && m <= n <= |s|
    ensures |Executions(src, f, s, m)| <= |Executions(src, f, s, n)|
  {
    if m < n { ExecutionsGrow(src, f, s, m, n - 1); }
  }

  lemma LegalPrefix(src: Source, f: seq<FrameCall>, a: seq<Slot>, b: seq<Slot>)
    requires a <= b && SlotsLegal(src, f, b)
    ensures SlotsLegal(src, f, a)
  {
    ExecutionsPrefix(src, f, a, b, |a|);
    ExecutionsGrow(src, f, b, |a|, |b|);
    forall p, q | 0 <= p < q < |a| && OneTime(src, f, a[p]) && OneTime(src, f, a[q])
      ensures GenerationOf(f, a[p]) != GenerationOf(f, a[q])
    {
      assert a[p] == b[p] && a[q] == b[q];
    }
  }

  predicate Replaces(c: FrameCommand, buffer: string) {
    (c.Record? || c.Reset?) && c.buffer == buffer
  }

  /** Call `i` put the recording into the buffer, and neither a recording nor a reset of the buffer came after it. */
  ghost predicate RecordedBy(f: seq<FrameCall>, i: nat, t: nat, buffer: string, recording: string)
    requires t <= |f|
  {
    i < t && f[i].command == Record(buffer, recording) && forall j :: i < j < t ==> !Replaces(f[j].command, buffer)
  }

  /** A buffer holds a recording exactly if that is its latest one since its last reset. */
  lemma {:induction false} ActiveIff(f: seq<FrameCall>, t: nat, buffer: string, recording: string)
    requires t <= |f|
    ensures ActiveAt(f, t, buffer) == Some(recording) <==> exists i: nat :: RecordedBy(f, i, t, buffer, recording)
  {
    if t > 0 {
      var s := t - 1;
      ActiveIff(f, s, buffer, recording);
      if Replaces(f[s].command, buffer) {
        assert f[s].command == Record(buffer, recording) ==> RecordedBy(f, s, t, buffer, recording);
        forall i: nat ensures RecordedBy(f, i, t, buffer, recording) ==> i == s {}
      } else {
        forall i: nat ensures RecordedBy(f, i, t, buffer, recording) <==> RecordedBy(f, i, s, buffer, recording) {}
      }
    }
  }

  lemma {:induction false} SubmissionsGrow(f: seq<FrameCall>, s: nat, t: nat)
    requires s < t <= |f| && f[s].command.Submit?
    ensures SubmissionAt(f, s) < SubmissionAt(f, t)
  {
    if s < t - 1 { SubmissionsGrow(f, s, t - 1); }
  }

  /** Where an execution comes from. */
  ghost predicate ComesFrom(src: Source, f: seq<FrameCall>, s: Slot, d: nat, e: Execution) {
    IsSlot(f, s) && RecordingOf(f, s).Some? && d < |DrawsOf(src, f, s)| &&
    e == ExecutionOf(src, f, s, DrawsOf(src, f, s)[d])
  }

  lemma {:induction false} Origin(src: Source, f: seq<FrameCall>, slots: seq<Slot>, n: nat, i: nat) returns (k: nat, d: nat)
    requires n <= |slots| && AllSlots(f, slots) && i < |Executions(src, f, slots, n)|
    ensures k < n && ComesFrom(src, f, slots[k], d, Executions(src, f, slots, n)[i])
    ensures i == |Executions(src, f, slots, k)| + d < |Executions(src, f, slots, k + 1)|
  {
    hide ExecutionOf, RecordingOf, BufferOf, ActiveAt;
    var before := |Executions(src, f, slots, n - 1)|;
    if i < before { k, d := Origin(src, f, slots, n - 1, i); } else { k, d := n - 1, i - before; }
  }

  /** The draws of one recording carry distinct event annotations. */
  ghost predicate DrawsDistinct(src: Source) {
    forall r :: r in src.draws ==>
      forall i, j :: 0 <= i < j < |src.draws[r]| ==> src.draws[r][i].event != src.draws[r][j].event
  }

  /** Every execution is a draw of the recording that its buffer held when it was submitted: call `at` recorded it,
      and nothing recorded or reset the buffer between that call and the submission. */
  lemma ExecutionsUseLatest(src: Source, f: seq<FrameCall>, i: nat) returns (s: Slot, d: nat, at: nat)
    requires AllSlots(f, Slots(f, |f|)) && i < |Executions(src, f, Slots(f, |f|), |Slots(f, |f|)|)|
    ensures var e := Executions(src, f, Slots(f, |f|), |Slots(f, |f|)|)[i];
            && ComesFrom(src, f, s, d, e)
            && RecordedBy(f, at, s.call, e.selection.buffer, e.selection.recording)
            && e.selection.recording in src.draws && d < |src.draws[e.selection.recording]|
            && e.draw == src.draws[e.selection.recording][d]
  {
    var slots := Slots(f, |f|);
    var k;
    k, d := Origin(src, f, slots, |slots|, i);
    s := slots[k];
    var buffer, recording := BufferOf(f, s), RecordingOf(f, s).value;
    ActiveIff(f, s.call, buffer, recording);
    at :| RecordedBy(f, at, s.call, buffer, recording);
  }

  /** Selection keys are unique. */
  lemma SelectionsUnique(src: Source, f: seq<FrameCall>, i: nat, j: nat)
    requires DrawsDistinct(src) && AllSlots(f, Slots(f, |f|))
    requires var e := Executions(src, f, Slots(f, |f|), |Slots(f, |f|)|);
             i < |e| && j < |e| && e[i].selection == e[j].selection
    ensures i == j
  {
    var slots := Slots(f, |f|);
    SlotsAre(f, |f|);
    var k, d := Origin(src, f, slots, |slots|, i);
    var l, e := Origin(src, f, slots, |slots|, j);
    if slots[k].call < slots[l].call { SubmissionsGrow(f, slots[k].call, slots[l].call); }
    if slots[l].call < slots[k].call { SubmissionsGrow(f, slots[l].call, slots[k].call); }
    assert slots[k] == slots[l];
    assert k == l;
    assert d == e;
  }

  // ----- One more slot -----

  lemma ExecutionsSnoc(src: Source, f: seq<FrameCall>, slots: seq<Slot>, s: Slot)
    requires AllSlots(f, slots) && IsSlot(f, s)
    ensures AllSlots(f, slots + [s])
    ensures Executions(src, f, slots + [s], |slots| + 1) ==
            Executions(src, f, slots, |slots|) + SlotExecutions(src, f, s, |DrawsOf(src, f, s)|)
  {
    ExecutionsPrefix(src, f, slots, slots + [s], |slots|);
  }

  ghost predicate IsOneTimeKey(src: Source, f: seq<FrameCall>, slots: seq<Slot>, g: (string, nat))
    requires AllSlots(f, slots)
  {
    exists k :: 0 <= k < |slots| && OneTime(src, f, slots[k]) && GenerationOf(f, slots[k]) == g
  }

  ghost predicate IsSubmitted(f: seq<FrameCall>, slots: seq<Slot>, r: string)
    requires AllSlots(f, slots)
  {
    exists k :: 0 <= k < |slots| && RecordingOf(f, slots[k]) == Some(r)
  }

  lemma OneTimeKeySnoc(src: Source, f: seq<FrameCall>, slots: seq<Slot>, s: Slot)
    requires AllSlots(f, slots) && IsSlot(f, s)
    ensures AllSlots(f, slots + [s])
    ensures forall g :: IsOneTimeKey(src, f, slots + [s], g) <==>
                        IsOneTimeKey(src, f, slots, g) || (OneTime(src, f, s) && GenerationOf(f, s) == g)
  {
    var r := slots + [s];
    forall g ensures IsOneTimeKey(src, f, r, g) <==> IsOneTimeKey(src, f, slots, g) || (OneTime(src, f, s) && GenerationOf(f, s) == g) {
      if IsOneTimeKey(src, f, slots, g) {
        var k :| 0 <= k < |slots| && OneTime(src, f, slots[k]) && GenerationOf(f, slots[k]) == g;
        assert r[k] == slots[k];
      }
      if OneTime(src, f, s) && GenerationOf(f, s) == g { assert r[|slots|] == s; }
    }
  }

  lemma OnceOnlySnoc(src: Source, f: seq<FrameCall>, slots: seq<Slot>, s: Slot)
    requires AllSlots(f, slots) && IsSlot(f, s) && OnceOnly(src, f, slots)
    ensures AllSlots(f, slots + [s])
    ensures OnceOnly(src, f, slots + [s]) <==>
            (OneTime(src, f, s) ==> !IsOneTimeKey(src, f, slots, GenerationOf(f, s)))
  {
    var r := slots + [s];
    if OneTime(src, f, s) && IsOneTimeKey(src, f, slots, GenerationOf(f, s)) {
      var k :| 0 <= k < |slots| && OneTime(src, f, slots[k]) && GenerationOf(f, slots[k]) == GenerationOf(f, s);
      assert r[k] == slots[k] && r[|slots|] == s;
    }
  }

  lemma SubmittedSnoc(f: seq<FrameCall>, slots: seq<Slot>, s: Slot)
    requires AllSlots(f, slots) && IsSlot(f, s)
    ensures AllSlots(f, slots + [s])
    ensures forall r :: IsSubmitted(f, slots + [s], r) <==> IsSubmitted(f, slots, r) || RecordingOf(f, s) == Some(r)
  {
    forall r ensures IsSubmitted(f, slots + [s], r) <==> IsSubmitted(f, slots, r) || RecordingOf(f, s) == Some(r) {
      if IsSubmitted(f, slots, r) {
        var k :| 0 <= k < |slots| && RecordingOf(f, slots[k]) == Some(r);
        assert (slots + [s])[k] == slots[k];
      }
      if RecordingOf(f, s) == Some(r) { assert (slots + [s])[|slots|] == s; }
    }
  }

  // ----- Slot by slot -----

  datatype Tally = Tally(executions: seq<Execution>, oneTime: set<(string, nat)>, submitted: set<string>)

  /** One more slot: refused, or entered in all accounts. */
  function Add(src: Source, f: seq<FrameCall>, y: Tally, s: Slot): Option<Tally> {
    if IsSlot(f, s) && SlotOk(src, f, s) && (OneTime(src, f, s) ==> GenerationOf(f, s) !in y.oneTime) &&
       |y.executions| + |DrawsOf(src, f, s)| <= EXECUTION_LIMIT
    then Some(Tally(y.executions + SlotExecutions(src, f, s, |DrawsOf(src, f, s)|),
                    if OneTime(src, f, s) then y.oneTime + {GenerationOf(f, s)} else y.oneTime,
                    y.submitted + {RecordingOf(f, s).value}))
    else None
  }

  function TallyOf(src: Source, f: seq<FrameCall>, slots: seq<Slot>, n: nat): Option<Tally>
    requires n <= |slots|
  {
    if n == 0 then Some(Tally([], {}, {}))
    else
      var y := TallyOf(src, f, slots, n - 1);
      if y.None? then None else Add(src, f, y.value, slots[n - 1])
  }

  lemma {:induction false} TallyPrefix(src: Source, f: seq<FrameCall>, a: seq<Slot>, b: seq<Slot>, n: nat)
    requires a <= b && n <= |a|
    ensures TallyOf(src, f, a, n) == TallyOf(src, f, b, n)
  {
    if n > 0 { TallyPrefix(src, f, a, b, n - 1); }
  }

  lemma {:induction false} TallyFails(src: Source, f: seq<FrameCall>, s: seq<Slot>, m: nat, n: nat)
    requires m <= n <= |s| && TallyOf(src, f, s, m).None?
    ensures TallyOf(src, f, s, n).None?
  {
    if m < n { TallyFails(src, f, s, m, n - 1); }
  }

  ghost predicate CanBeTallied(src: Source, f: seq<FrameCall>, slots: seq<Slot>) {
    TallyOf(src, f, slots, |slots|).Some?
  }

  lemma TallySnoc(src: Source, f: seq<FrameCall>, slots: seq<Slot>, s: Slot)
    requires CanBeTallied(src, f, slots)
    ensures TallyOf(src, f, slots + [s], |slots| + 1) == Add(src, f, TallyOf(src, f, slots, |slots|).value, s)
  {
    TallyPrefix(src, f, slots, slots + [s], |slots|);
  }

  /** A list that cannot be tallied cannot be completed to one that can. */
  lemma NotTallied(src: Source, f: seq<FrameCall>, base: seq<Slot>, part: seq<Slot>, whole: seq<Slot>)
    requires part <= whole && !CanBeTallied(src, f, base + part)
    ensures !CanBeTallied(src, f, base + whole)
  {
    TallyPrefix(src, f, base + part, base + whole, |base + part|);
    TallyFails(src, f, base + whole, |base + part|, |base + whole|);
  }

  /** A tally of these slots exists exactly if they are legal, and then its accounts are theirs. */
  ghost predicate IsTally(src: Source, f: seq<FrameCall>, slots: seq<Slot>, y: Option<Tally>)
    requires AllSlots(f, slots)
  {
    && (y.Some? <==> SlotsLegal(src, f, slots))
    && (y.Some? ==>
          && y.value.executions == Executions(src, f, slots, |slots|)
          && (forall g :: g in y.value.oneTime <==> IsOneTimeKey(src, f, slots, g))
          && (forall r :: r in y.value.submitted <==> IsSubmitted(f, slots, r)))
  }

  lemma IsTallySnoc(src: Source, f: seq<FrameCall>, slots: seq<Slot>, y: Tally, s: Slot)
    requires AllSlots(f, slots) && IsSlot(f, s) && IsTally(src, f, slots, Some(y))
    ensures AllSlots(f, slots + [s]) && IsTally(src, f, slots + [s], Add(src, f, y, s))
  {
    hide IsOneTimeKey, IsSubmitted, SlotsLegal, Executions, RecordingOf, GenerationOf, OneTime;
    ExecutionsSnoc(src, f, slots, s);
    OneTimeKeySnoc(src, f, slots, s);
    SubmittedSnoc(f, slots, s);
    LegalSnoc(src, f, slots, s);
  }

  lemma NoTallySnoc(src: Source, f: seq<FrameCall>, slots: seq<Slot>, s: Slot)
    requires AllSlots(f, slots) && IsSlot(f, s) && IsTally(src, f, slots, None)
    ensures AllSlots(f, slots + [s]) && IsTally(src, f, slots + [s], None)
  {
    hide SlotsLegal;
    if SlotsLegal(src, f, slots + [s]) { LegalPrefix(src, f, slots, slots + [s]); }
  }

  lemma TallyNone(src: Source, f: seq<FrameCall>, slots: seq<Slot>)
    ensures AllSlots(f, slots[..0]) && IsTally(src, f, slots[..0], TallyOf(src, f, slots, 0))
  {
    assert slots[..0] == [];
  }

  /** Tallying succeeds exactly on legal lists, and its accounts are the flattening and the two sets. */
  lemma {:induction false} TallyIs(src: Source, f: seq<FrameCall>, slots: seq<Slot>, n: nat)
    requires n <= |slots| && AllSlots(f, slots)
    ensures AllSlots(f, slots[..n]) && IsTally(src, f, slots[..n], TallyOf(src, f, slots, n))
  {
    hide IsTally, Add;
    if n == 0 {
      TallyNone(src, f, slots);
    } else {
      var a, s := slots[..n - 1], slots[n - 1];
      assert slots[..n] == a + [s];
      TallyIs(src, f, slots, n - 1);
      var y := TallyOf(src, f, slots, n - 1);
      if y.Some? { IsTallySnoc(src, f, a, y.value, s); } else { NoTallySnoc(src, f, a, s); }
    }
  }

  /** What one more slot needs. */
  ghost predicate CanAdd(src: Source, f: seq<FrameCall>, slots: seq<Slot>, s: Slot)
    requires AllSlots(f, slots) && IsSlot(f, s)
  {
    && SlotOk(src, f, s)
    && (OneTime(src, f, s) ==> !IsOneTimeKey(src, f, slots, GenerationOf(f, s)))
    && |Executions(src, f, slots, |slots|)| + |DrawsOf(src, f, s)| <= EXECUTION_LIMIT
  }

  lemma LegalSnoc(src: Source, f: seq<FrameCall>, slots: seq<Slot>, s: Slot)
    requires SlotsLegal(src, f, slots) && IsSlot(f, s)
    ensures SlotsLegal(src, f, slots + [s]) <==> CanAdd(src, f, slots, s)
  {
    var r := slots + [s];
    OnceOnlySnoc(src, f, slots, s);
    ExecutionsSnoc(src, f, slots, s);
    if SlotsLegal(src, f, r) { assert SlotOk(src, f, r[|slots|]); }
    if CanAdd(src, f, slots, s) {
      forall k | 0 <= k < |r| ensures SlotOk(src, f, r[k]) { if k < |slots| { assert r[k] == slots[k]; } }
    }
  }

  lemma InfoSlotsNone(base: seq<Slot>, t: nat, i: nat)
    ensures base + InfoSlots(t, i, 0) == base
  {
  }

  lemma InfoSlotsSnoc(base: seq<Slot>, t: nat, i: nat, n: nat)
    ensures base + InfoSlots(t, i, n + 1) == base + InfoSlots(t, i, n) + [Slot(t, i, n)]
  {
  }

  lemma Longer(a: seq<Slot>, b: seq<Slot>, c: seq<Slot>)
    ensures a + b + c == a + (b + c)
  {
  }

  // ----- Call by call -----

  function Get<V>(m: map<string, V>, k: string, default: V): V {
    if k in m then m[k] else default
  }

  datatype Tables = Tables(
    active: map<string, string>, generations: map<string, nat>, queueLabels: map<string, seq<string>>, submission: nat)

  /** One more call of the frame: refused, or entered in the tables. */
  function Keep(src: Source, y: Tables, c: FrameCall): Option<Tables> {
    if !c.qualified then None
    else match c.command
      case Record(buffer, recording) =>
        if recording !in src.recordings then None
        else Some(y.(active := y.active[buffer := recording],
                     generations := y.generations[buffer := Get(y.generations, buffer, 0) + 1]))
      case Reset(buffer) => Some(y.(active := y.active - {buffer}))
      case QueueBegin(queue, text) =>
        var stack := Get(y.queueLabels, queue, []);
        if |y.queueLabels.Keys + {queue}| > QUEUE_LIMIT || |stack| >= LABEL_DEPTH then None
        else Some(y.(queueLabels := y.queueLabels[queue := stack + [text]]))
      case QueueEnd(queue) =>
        var stack := Get(y.queueLabels, queue, []);
        if stack == [] then None else Some(y.(queueLabels := y.queueLabels[queue := stack[..|stack| - 1]]))
      case Submit(_, infos) =>
        if 0 < |infos| <= SUBMIT_LIMIT && (forall i :: 0 <= i < |infos| ==> infos[i] != [])
        then Some(y.(submission := y.submission + 1)) else None
      case Observed => Some(y)
  }

  function TablesAt(src: Source, f: seq<FrameCall>, t: nat): Option<Tables>
    requires t <= |f|
  {
    if t == 0 then Some(Tables(map[], map[], map[], 0))
    else
      var y := TablesAt(src, f, t - 1);
      if y.None? then None else Keep(src, y.value, f[t - 1])
  }

  lemma {:induction false} TablesFail(src: Source, f: seq<FrameCall>, m: nat, n: nat)
    requires m <= n <= |f| && TablesAt(src, f, m).None?
    ensures TablesAt(src, f, n).None?
  {
    if m < n { TablesFail(src, f, m, n - 1); }
  }

  ghost predicate ActiveRead(src: Source, f: seq<FrameCall>, t: nat, y: Tables, k: string)
    requires t <= |f|
  {
    && (if k in y.active then Some(y.active[k]) else None) == ActiveAt(f, t, k)
    && (k in y.active ==> y.active[k] in src.recordings)
    && Get(y.generations, k, 0) == GenerationAt(f, t, k)
  }

  ghost predicate LabelsRead(f: seq<FrameCall>, t: nat, y: Tables, k: string)
    requires t <= |f|
  {
    && Get(y.queueLabels, k, []) == QueueLabels(f, t, k)
    && (k in y.queueLabels <==> k in LabelledQueues(f, t))
  }

  ghost predicate Reads(src: Source, f: seq<FrameCall>, t: nat, y: Tables, k: string)
    requires t <= |f|
  {
    ActiveRead(src, f, t, y, k) && LabelsRead(f, t, y, k)
  }

  /** The tables exist exactly while every call is in order, and hold what the frame's history says. */
  lemma {:induction false} TablesAre(src: Source, f: seq<FrameCall>, t: nat)
    requires t <= |f|
    ensures TablesAt(src, f, t).Some? <==> forall i :: 0 <= i < t ==> CallOk(src, f, i)
    ensures TablesAt(src, f, t).Some? ==>
              var y := TablesAt(src, f, t).value;
              y.submission == SubmissionAt(f, t) && forall k :: Reads(src, f, t, y, k)
  {
    if t > 0 {
      var s := t - 1;
      TablesAre(src, f, s);
      var o := TablesAt(src, f, s);
      if o.Some? {
        OneCheck(src, f, s, o.value);
        if TablesAt(src, f, t).Some? { NextReads(src, f, s, t, o.value); }
      }
    }
  }

  lemma NextReads(src: Source, f: seq<FrameCall>, s: nat, t: nat, o: Tables)
    requires s < |f| && t == s + 1 && (forall k :: Reads(src, f, s, o, k)) && Keep(src, o, f[s]).Some?
    requires o.submission == SubmissionAt(f, s)
    ensures var y := Keep(src, o, f[s]).value;
            y.submission == SubmissionAt(f, t) && forall k :: Reads(src, f, t, y, k)
  {
    var y := Keep(src, o, f[s]).value;
    forall k ensures Reads(src, f, t, y, k) {
      hide Keep;
      assert Reads(src, f, s, o, k);
      OneActive(src, f, s, o, k);
      OneLabels(src, f, s, o, k);
    }
  }

  lemma OneActive(src: Source, f: seq<FrameCall>, s: nat, o: Tables, k: string)
    requires s < |f| && ActiveRead(src, f, s, o, k) && Keep(src, o, f[s]).Some?
    ensures ActiveRead(src, f, s + 1, Keep(src, o, f[s]).value, k)
  {
  }

  lemma OneLabels(src: Source, f: seq<FrameCall>, s: nat, o: Tables, k: string)
    requires s < |f| && LabelsRead(f, s, o, k) && Keep(src, o, f[s]).Some?
    ensures LabelsRead(f, s + 1, Keep(src, o, f[s]).value, k)
  {
  }

  lemma OneCheck(src: Source, f: seq<FrameCall>, s: nat, o: Tables)
    requires s < |f| && forall k :: Reads(src, f, s, o, k)
    ensures Keep(src, o, f[s]).Some? <==> CallOk(src, f, s)
  {
    var c := f[s].command;
    if c.QueueBegin? || c.QueueEnd? {
      assert Reads(src, f, s, o, c.queue);
      SameQueues(src, f, s, o);
    }
  }

  lemma SameQueues(src: Source, f: seq<FrameCall>, s: nat, o: Tables)
    requires s <= |f| && forall k :: Reads(src, f, s, o, k)
    ensures o.queueLabels.Keys == LabelledQueues(f, s)
  {
    forall k ensures k in o.queueLabels <==> k in LabelledQueues(f, s) { assert Reads(src, f, s, o, k); }
  }

  lemma Stops(src: Source, f: seq<FrameCall>, t: nat)
    requires t <= |f| && (TablesAt(src, f, t).None? || !CanBeTallied(src, f, Slots(f, t)))
    ensures TablesAt(src, f, |f|).None? || !CanBeTallied(src, f, Slots(f, |f|))
  {
    if TablesAt(src, f, t).None? {
      TablesFail(src, f, t, |f|);
    } else {
      SlotsPrefix(f, t, |f|);
      assert [] + Slots(f, t) == Slots(f, t) && [] + Slots(f, |f|) == Slots(f, |f|);
      NotTallied(src, f, [], Slots(f, t), Slots(f, |f|));
    }
  }

  lemma LegalIff(src: Source, f: seq<FrameCall>)
    ensures LegalFrame(src, f) <==>
            && TablesAt(src, f, |f|).Some? && CanBeTallied(src, f, Slots(f, |f|))
            && var labels := TablesAt(src, f, |f|).value.queueLabels;
               forall queue :: queue in labels ==> labels[queue] == []
  {
    var all := Slots(f, |f|);
    SlotsAre(f, |f|);
    assert all[..|all|] == all;
    TallyIs(src, f, all, |all|);
    TablesAre(src, f, |f|);
    if TablesAt(src, f, |f|).Some? {
      var y := TablesAt(src, f, |f|).value;
      forall queue ensures QueueLabels(f, |f|, queue) == Get(y.queueLabels, queue, []) { assert Reads(src, f, |f|, y, queue); }
      if queue :| queue in y.queueLabels && y.queueLabels[queue] != [] { assert QueueLabels(f, |f|, queue) != []; }
    }
  }

  lemma Accounted(src: Source, f: seq<FrameCall>)
    requires CanBeTallied(src, f, Slots(f, |f|))
    ensures var y := TallyOf(src, f, Slots(f, |f|), |Slots(f, |f|)|).value;
            AllSlots(f, Slots(f, |f|)) &&
            y.executions == Executions(src, f, Slots(f, |f|), |Slots(f, |f|)|) &&
            forall r :: r in y.submitted <==> IsSubmitted(f, Slots(f, |f|), r)
  {
    var all := Slots(f, |f|);
    SlotsAre(f, |f|);
    assert all[..|all|] == all;
    TallyIs(src, f, all, |all|);
  }

  // ----- The frame reader -----

  class FrameReader {
    const src: Source
    const frame: seq<FrameCall>
    var active: map<string, string>
    var generations: map<string, nat>
    var oneTime: set<(string, nat)>
    var submitted: set<string>
    var queueLabels: map<string, seq<string>>
    var submission: nat
    var executions: seq<Execution>

    ghost predicate Kept(t: nat)
      requires t <= |frame|
      reads `active, `generations, `submission, `queueLabels
    {
      TablesAt(src, frame, t) == Some(Tables(active, generations, queueLabels, submission))
    }

    /** The accounts are those of the slots submitted so far. */
    ghost predicate Tallied(slots: seq<Slot>)
      reads `executions, `oneTime, `submitted
    {
      TallyOf(src, frame, slots, |slots|) == Some(Tally(executions, oneTime, submitted))
    }

    /** The tables answer rightly for one submitted buffer. */
    ghost predicate Sees(s: Slot)
      reads `active, `generations, `submission, `queueLabels
    {
      && IsSlot(frame, s)
      && var buffer, queue := BufferOf(frame, s), frame[s.call].command.queue;
      && RecordingOf(frame, s) == (if buffer in active then Some(active[buffer]) else None)
      && (buffer in active ==> active[buffer] in src.recordings)
      && GenerationOf(frame, s) == (buffer, Get(generations, buffer, 0))
      && submission == SubmissionAt(frame, s.call) && Get(queueLabels, queue, []) == QueueLabels(frame, s.call, queue)
    }

    lemma Visible(s: Slot)
      requires IsSlot(frame, s) && Kept(s.call)
      ensures Sees(s)
    {
      TablesAre(src, frame, s.call);
      var y := TablesAt(src, frame, s.call).value;
      assert Reads(src, frame, s.call, y, BufferOf(frame, s)) && Reads(src, frame, s.call, y, frame[s.call].command.queue);
    }

    constructor (src: Source, frame: seq<FrameCall>)
      ensures this.src == src && this.frame == frame && Kept(0) && Tallied([])
    {
      this.src, this.frame := src, frame;
      active, generations, oneTime, submitted, queueLabels := map[], map[], {}, {}, map[];
      submission, executions := 0, [];
    }

    /** Every draw of the submitted recording becomes an execution. */
    method AddDraws(s: Slot, recording: string) returns (ok: bool)
      requires Sees(s) && RecordingOf(frame, s) == Some(recording)
      requires |executions| <= EXECUTION_LIMIT
      modifies `executions
      ensures ok <==> |old(executions)| + |DrawsOf(src, frame, s)| <= EXECUTION_LIMIT
      ensures ok ==> executions == old(executions) + SlotExecutions(src, frame, s, |DrawsOf(src, frame, s)|)
    {
      if recording !in src.draws { return true; }
      var draws := src.draws[recording];
      var queue := frame[s.call].command.queue;
      for d := 0 to |draws|
        invariant executions == old(executions) + SlotExecutions(src, frame, s, d) && |executions| <= EXECUTION_LIMIT
      {
        var selection := Selection(submission, s.info, s.index, queue, frame[s.call].command.infos[s.info][s.index],
                                   recording, draws[d].event);
        executions := executions + [Execution(selection, draws[d], Get(queueLabels, queue, []))];
        if |executions| > EXECUTION_LIMIT { return false; }
      }
      return true;
    }

    lemma TalliedCan(slots: seq<Slot>)
      requires Tallied(slots)
      ensures CanBeTallied(src, frame, slots)
    {
    }

    /** One submitted command buffer. */
    method SubmitBuffer(s: Slot, ghost done: seq<Slot>, ghost next: seq<Slot>) returns (ok: bool)
      requires Sees(s) && Tallied(done) && next == done + [s] && |executions| <= EXECUTION_LIMIT
      modifies `oneTime, `submitted, `executions
      ensures ok <==> CanBeTallied(src, frame, next)
      ensures ok ==> Tallied(next) && |executions| <= EXECUTION_LIMIT
    {
      TallySnoc(src, frame, done, s);
      var buffer := frame[s.call].command.infos[s.info][s.index];
      if buffer !in active { return false; }
      var recording := active[buffer];
      var recorded := src.recordings[recording];
      if !recorded.begun { return false; }
      if recorded.oneTime {
        var key := (buffer, Get(generations, buffer, 0));
        if key in oneTime { return false; }
        oneTime := oneTime + {key};
      }
      if buffer !in src.primary || !src.primary[buffer] { return false; }
      submitted := submitted + {recording};
      ok := AddDraws(s, recording);
    }

    method SubmitInfo(t: nat, i: nat, ghost base: seq<Slot>, ghost next: seq<Slot>) returns (ok: bool)
      requires t < |frame| && frame[t].command.Submit? && i < |frame[t].command.infos|
      requires Kept(t) && Tallied(base) && |executions| <= EXECUTION_LIMIT
      requires next == base + InfoSlots(t, i, |frame[t].command.infos[i]|)
      modifies `oneTime, `submitted, `executions
      ensures ok <==> frame[t].command.infos[i] != [] && CanBeTallied(src, frame, next)
      ensures ok ==> Tallied(next) && |executions| <= EXECUTION_LIMIT
    {
      hide TallyOf, Tallied, CanBeTallied, Sees, InfoSlots, TablesAt, Keep, Kept;
      var buffers := frame[t].command.infos[i];
      if buffers == [] { return false; }
      InfoSlotsNone(base, t, i);
      for n := 0 to |buffers|
        invariant Tallied(base + InfoSlots(t, i, n)) && |executions| <= EXECUTION_LIMIT
      {
        InfoSlotsPrefix(t, i, n + 1, |buffers|);
        InfoSlotsSnoc(base, t, i, n);
        assert IsSlot(frame, Slot(t, i, n));
        Visible(Slot(t, i, n));
        ok := SubmitBuffer(Slot(t, i, n), base + InfoSlots(t, i, n), base + InfoSlots(t, i, n + 1));
        if !ok {
          NotTallied(src, frame, base, InfoSlots(t, i, n + 1), InfoSlots(t, i, |buffers|));
          return;
        }
      }
      TalliedCan(next);
      return true;
    }

    method SubmitCall(t: nat) returns (ok: bool)
      requires t < |frame| && frame[t].command.Submit? && Kept(t) && Tallied(Slots(frame, t))
      requires |executions| <= EXECUTION_LIMIT
      modifies `oneTime, `submitted, `executions, `submission
      ensures ok <==> TablesAt(src, frame, t + 1).Some? && CanBeTallied(src, frame, Slots(frame, t + 1))
      ensures ok ==> Kept(t + 1) && Tallied(Slots(frame, t + 1)) && |executions| <= EXECUTION_LIMIT
    {
      hide TallyOf;
      var infos := frame[t].command.infos;
      if !frame[t].qualified || |infos| == 0 || |infos| > SUBMIT_LIMIT { return false; }
      ghost var base := Slots(frame, t);
      assert base + CallSlots(t, infos, 0) == base;
      for i := 0 to |infos|
        modifies `oneTime, `submitted, `executions
        invariant Tallied(base + CallSlots(t, infos, i)) && |executions| <= EXECUTION_LIMIT
        invariant forall k :: 0 <= k < i ==> infos[k] != []
      {
        CallSlotsPrefix(t, infos, i + 1, |infos|);
        Longer(base, CallSlots(t, infos, i), InfoSlots(t, i, |infos[i]|));
        ok := SubmitInfo(t, i, base + CallSlots(t, infos, i), base + CallSlots(t, infos, i + 1));
        if !ok {
          if infos[i] != [] { NotTallied(src, frame, base, CallSlots(t, infos, i + 1), CallSlots(t, infos, |infos|)); }
          return;
        }
      }
      submission := submission + 1;
      return true;
    }

    /** A call other than a submission. */
    method Bookkeep(t: nat) returns (ok: bool)
      requires t < |frame| && !frame[t].command.Submit? && Kept(t)
      modifies `active, `generations, `queueLabels
      ensures ok <==> TablesAt(src, frame, t + 1).Some?
      ensures ok ==> Kept(t + 1)
    {
      if !frame[t].qualified { return false; }
      match frame[t].command {
        case Record(buffer, recording) =>
          if recording !in src.recordings { return false; }
          active := active[buffer := recording];
          generations := generations[buffer := Get(generations, buffer, 0) + 1];
        case Reset(buffer) =>
          active := active - {buffer};
        case QueueBegin(queue, text) =>
          var stack := Get(queueLabels, queue, []);
          if |queueLabels.Keys + {queue}| > QUEUE_LIMIT || |stack| >= LABEL_DEPTH { return false; }
          queueLabels := queueLabels[queue := stack + [text]];
        case QueueEnd(queue) =>
          var stack := Get(queueLabels, queue, []);
          if stack == [] { return false; }
          queueLabels := queueLabels[queue := stack[..|stack| - 1]];
        case Observed =>
      }
      return true;
    }

    method Call(t: nat) returns (ok: bool)
      requires t < |frame| && Kept(t) && Tallied(Slots(frame, t)) && |executions| <= EXECUTION_LIMIT
      modifies this
      ensures ok <==> TablesAt(src, frame, t + 1).Some? && CanBeTallied(src, frame, Slots(frame, t + 1))
      ensures ok ==> Kept(t + 1) && Tallied(Slots(frame, t + 1)) && |executions| <= EXECUTION_LIMIT
    {
      if frame[t].command.Submit? {
        ok := SubmitCall(t);
      } else {
        assert Slots(frame, t + 1) == Slots(frame, t);
        ok := Bookkeep(t);
      }
    }

    /** The frame up to its first refusal. */
    method ReadFrame() returns (ok: bool)
      requires Kept(0) && Tallied([]) && executions == []
      modifies this
      ensures ok <==> TablesAt(src, frame, |frame|).Some? && CanBeTallied(src, frame, Slots(frame, |frame|))
      ensures ok ==> Kept(|frame|) && Tallied(Slots(frame, |frame|))
    {
      for t := 0 to |frame|
        invariant Kept(t) && Tallied(Slots(frame, t)) && |executions| <= EXECUTION_LIMIT
      {
        ok := Call(t);
        if !ok { Stops(src, frame, t + 1); return; }
      }
      return true;
    }
  }

  /** Main result: the frame is accepted exactly when it is legal; then the executions are the in-order flattening
      of its submissions, and every recording that was never submitted is reported. A refused frame has none. */
  method InspectDrawExecutions(src: Source, frame: seq<FrameCall>)
    returns (executions: seq<Execution>, refused: bool, unsubmitted: set<string>)
    ensures refused <==> !LegalFrame(src, frame)
    ensures refused ==> executions == []
    ensures !refused ==> executions == Executions(src, frame, Slots(frame, |frame|), |Slots(frame, |frame|)|)
    ensures !refused ==>
              forall r :: r in unsubmitted <==> r in src.recordings && !IsSubmitted(frame, Slots(frame, |frame|), r)
  {
    var reader := new FrameReader(src, frame);
    var ok := reader.ReadFrame();
    LegalIff(src, frame);
    if !ok || exists queue :: queue in reader.queueLabels && reader.queueLabels[queue] != [] { return [], true, {}; }
    Accounted(src, frame);
    return reader.executions, false, src.recordings.Keys - reader.submitted;
  }
}
