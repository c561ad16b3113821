/** The process supervisor: it watches one target, stops it on exit, failure, command or timeout, and reports
    cleanup only when no child is left. One tick is one turn of its polling loop. */
module Supervisor {
  import opened Prelude

  const KILL_BUDGET := 2000

  datatype Observation = Running | Exited | Unobservable
  datatype ExecStatus = Again | Closed | LaunchFailure(stage: Stage) | Garbled | Broken
  datatype Request = Silent | Stop
  datatype Reaping = Reaped | Pending | ReapFailed
  datatype Remaining = SomeChild | NoChild | Interrupted | WaitFailed

  /** What the operating system answers during one turn of the loop; `sweep` is the failure of the sweep, if any. */
  datatype Tick = Tick(
    now: nat, observed: Observation, exec: ExecStatus, request: Request, killed: bool,
    sweep: Option<Stage>, live: bool, reaping: Reaping, remaining: Remaining)

  datatype Stage =
    | Descriptors | Signals | Session | Subreaper | ForkTarget | ProcessGroup | Directory | Execute
    | Wait | Children | Terminate | Cleanup

  datatype Report = Report(
    exit: bool, timedOut: bool, cancelled: bool, cleanupConfirmed: bool, failure: Option<Stage>)

  datatype Launch = Launch(timeout: nat, grace: nat)

  datatype Signal = Term | Kill

  /** A signal to the target's process group. */
  datatype Sent = Sent(tick: nat, signal: Signal, reaped: bool)

  /** A millisecond clock: it may stand still from one turn to the next, but never goes back and passes every time. */
  ghost predicate Advances(ticks: nat -> Tick) {
    && (forall i: nat, j: nat :: i < j ==> ticks(i).now <= ticks(j).now)
    && (forall time: nat :: Passes(ticks, time))
  }

  ghost predicate Passes(ticks: nat -> Tick, time: nat) {
    exists n: nat :: ticks(n).now >= time
  }

  /** A turn in which the clock has passed the time. */
  ghost function TurnPast(ticks: nat -> Tick, time: nat): (n: nat)
    requires Advances(ticks)
    ensures forall i: nat :: ticks(i).now < time ==> i < n
  {
    assert Passes(ticks, time);
    var n: nat :| ticks(n).now >= time;
    n
  }

  /** Group signals so far: none to a reaped target, at most one TERM, then at most one KILL. */
  ghost predicate InOrder(log: seq<Sent>, term: bool, kill: bool, turn: nat) {
    && |log| == (if term then 1 else 0) + (if kill then 1 else 0)
    && (term ==> log[0].signal.Term?) && (kill ==> log[|log| - 1].signal.Kill?)
    && (term && kill ==> log[0].tick < log[1].tick)
    && forall i :: 0 <= i < |log| ==> !log[i].reaped && log[i].tick < turn
  }

  /** TERM before the grace period is over, KILL after it. */
  ghost predicate OnTime(s: Sent, ticks: nat -> Tick, since: nat, grace: nat) {
    since <= ticks(s.tick).now && (s.signal.Kill? <==> ticks(s.tick).now - since >= grace)
  }

  lemma OneMore(log: seq<Sent>, term: bool, kill: bool, turn: nat, signal: Signal)
    requires InOrder(log, term, kill, turn) && !kill && (signal.Term? ==> !term)
    ensures InOrder(log + [Sent(turn, signal, false)], term || signal.Term?, kill || signal.Kill?, turn + 1)
  {
  }

  lemma NoneMore(log: seq<Sent>, term: bool, kill: bool, turn: nat)
    requires InOrder(log, term, kill, turn)
    ensures InOrder(log, term, kill, turn + 1)
  {
  }

  function Remember(r: Report, s: Stage): Report {
    if r.failure.None? then r.(failure := Some(s)) else r
  }

  // ----- What went wrong in one turn -----

  ghost function FirstOf(a: Option<Stage>, b: Option<Stage>): Option<Stage> {
    if a.Some? then a else b
  }

  ghost function If(b: bool, s: Stage): Option<Stage> {
    if b then Some(s) else None
  }

  /** A launch that failed says where, and unreadable word of it is a failure to execute. */
  ghost function ExecTrouble(e: ExecStatus): Option<Stage> {
    match e
    case LaunchFailure(s) => Some(s)
    case Garbled => Some(Execute)
    case Broken => Some(Execute)
    case _ => None
  }

  // ----- What a report means -----

  /** The target was seen to have exited, and had not been lost before. */
  ghost predicate ExitedAt(ticks: nat -> Tick, k: nat) {
    ticks(k).observed.Exited? && forall j: nat :: j < k ==> !ticks(j).observed.Unobservable?
  }

  ghost predicate Exits(ticks: nat -> Tick, n: nat) {
    exists k: nat :: k < n && ExitedAt(ticks, k)
  }

  /** The status pipe stayed silent, and then closed unless it is still open: the program was started. */
  ghost predicate Quiet(ticks: nat -> Tick, n: nat) {
    forall k: nat :: k < n ==> ticks(k).exec.Again?
  }

  ghost predicate Started(ticks: nat -> Tick, n: nat) {
    exists c: nat :: c < n && ticks(c).exec.Closed? && Quiet(ticks, c)
  }

  /** Nothing has happened before turn `n` that would start the cleaning. */
  ghost predicate Uneventful(ticks: nat -> Tick, n: nat, deadline: nat) {
    !Exits(ticks, n) && forall k: nat :: k < n ==> ticks(k).request.Silent? && ticks(k).now < deadline
  }

  /** Why cleaning began in turn `c`: it is cancelled exactly for a request and timed out exactly for the timeout, each
      only if the target has neither exited nor failed. */
  ghost predicate Cause(ticks: nat -> Tick, c: nat, deadline: nat, r: Report) {
    && Uneventful(ticks, c, deadline)
    && (r.cancelled ==> !Exits(ticks, c + 1) && ticks(c).request.Stop?)
    && (r.timedOut ==> !Exits(ticks, c + 1) && ticks(c).request.Silent? && ticks(c).now >= deadline)
    && (!r.cancelled && !r.timedOut ==> Exits(ticks, c + 1) || r.failure.Some?)
  }

  /** Every signal reached the group, and since cleaning began every sweep was clean. */
  ghost predicate Untroubled(ticks: nat -> Tick, log: seq<Sent>, c: nat, n: nat) {
    && (forall i :: 0 <= i < |log| ==> ticks(log[i].tick).killed)
    && forall k: nat :: c <= k < n ==> ticks(k).sweep.None?
  }

  /** The target can no longer be signalled: it was lost, or reaped. */
  ghost predicate Released(ticks: nat -> Tick, n: nat) {
    exists k: nat :: k < n && (ticks(k).observed.Unobservable? || ticks(k).reaping.Reaped?)
  }

  /** One more turn. */
  lemma ExitsSnoc(ticks: nat -> Tick, n: nat)
    ensures Exits(ticks, n + 1) <==> Exits(ticks, n) || ExitedAt(ticks, n)
  {
    if Exits(ticks, n + 1) { var k: nat :| k < n + 1 && ExitedAt(ticks, k); }
  }

  class Supervision {
    const launch: Launch
    const started: nat
    var cleaning: bool
    var reaped: bool
    var execOpen: bool
    var sentTerm: bool
    var sentKill: bool
    var cleanupStarted: nat
    var report: Report
    ghost var log: seq<Sent>
    ghost var begun: nat

    ghost predicate LogOk(turn: nat)
      reads `log, `sentTerm, `sentKill
    {
      InOrder(log, sentTerm, sentKill, turn)
    }

    /** Signals follow the clock. */
    ghost predicate Timed(ticks: nat -> Tick)
      reads `log, `cleaning, `cleanupStarted
    {
      forall i :: 0 <= i < |log| ==> cleaning && OnTime(log[i], ticks, cleanupStarted, launch.grace)
    }

    constructor (launch: Launch, started: nat, grouped: bool, cleanupStarted: nat)
      ensures this.launch == launch && this.started == started && log == [] && cleaning == !grouped
      ensures this.cleanupStarted == cleanupStarted && !reaped
      ensures report == Report(false, false, false, false, if grouped then None else Some(ProcessGroup))
      ensures !sentTerm && !sentKill && execOpen && begun == 0
    {
      this.launch, this.started, this.cleanupStarted := launch, started, cleanupStarted;
      cleaning, reaped, execOpen, sentTerm, sentKill, log, begun := !grouped, false, true, false, false, [], 0;
      report := Report(false, false, false, false, if grouped then None else Some(ProcessGroup));
    }

    lemma NothingSent(ticks: nat -> Tick)
      requires log == [] && !sentTerm && !sentKill
      ensures Timed(ticks) && LogOk(0)
    {
    }

    /** The target and its exec status pipe. */
    method Look(t: Tick) returns (exited: bool)
      modifies `reaped, `report, `execOpen
      ensures exited <==> !old(reaped) && t.observed.Exited?
      ensures reaped == (old(reaped) || t.observed.Unobservable?)
      ensures execOpen <==> old(execOpen) && (t.exec.Again? || t.exec.Broken?)
      ensures old(execOpen) && (t.exec.LaunchFailure? || t.exec.Garbled? || t.exec.Broken?) ==> report.failure.Some?
      ensures report == old(report).(
                exit := old(report).exit || exited,
                failure := FirstOf(old(report).failure, FirstOf(If(reaped && !old(reaped), Wait),
                                                                if old(execOpen) then ExecTrouble(t.exec) else None)))
    {
      exited := false;
      if !reaped {
        if t.observed.Unobservable? {
          report := Remember(report, Wait);
          // No longer holding the leader: group signals would be unsafe.
          reaped := true;
        } else {
          exited := t.observed.Exited?;
        }
      }
      if exited { report := report.(exit := true); }
      if execOpen {
        match t.exec {
          case LaunchFailure(stage) =>
            report := Remember(report, stage);
            execOpen := false;
          case Garbled =>
            report := Remember(report, Execute);
            execOpen := false;
          case Closed =>
            execOpen := false;
          case Broken =>
            report := Remember(report, Execute);
          case Again =>
        }
      }
    }

    /** Cleaning starts on exit or failure, else on a request, else on timeout: never for two of them. */
    method Decide(t: Tick, exited: bool)
      requires started <= t.now && !cleaning && !report.timedOut && !report.cancelled
      modifies `cleaning, `report, `cleanupStarted
      ensures cleaning <==> exited || old(report).failure.Some? || t.request.Stop? || t.now - started >= launch.timeout
      ensures cleanupStarted == if cleaning then t.now else old(cleanupStarted)
      ensures report == old(report).(timedOut := report.timedOut, cancelled := report.cancelled)
      ensures report.cancelled <==> !exited && old(report).failure.None? && t.request.Stop?
      ensures report.timedOut <==>
              !exited && old(report).failure.None? && !t.request.Stop? && t.now - started >= launch.timeout
    {
      if exited || report.failure.Some? {
        cleaning := true;
      } else if t.request.Stop? {
        report := report.(cancelled := true);
        cleaning := true;
      } else if t.now - started >= launch.timeout {
        report := report.(timedOut := true);
        cleaning := true;
      }
      if cleaning { cleanupStarted := t.now; }
    }

    /** The group signal of this turn, if it is still to be sent and the target is still held. */
    method Signal(t: Tick, ticks: nat -> Tick, turn: nat)
      requires ticks(turn) == t && cleaning && cleanupStarted <= t.now && LogOk(turn) && Timed(ticks) && Advances(ticks)
      modifies `sentTerm, `sentKill, `report, `log
      ensures LogOk(turn + 1) && Timed(ticks)
      ensures var due := !reaped && if t.now - cleanupStarted >= launch.grace then !old(sentKill) else !old(sentTerm);
              && log == old(log) + (if due then [Sent(turn, if t.now - cleanupStarted >= launch.grace then Kill else Term, false)]
                                    else [])
              && report == old(report).(failure := FirstOf(old(report).failure, If(due && !t.killed, Terminate)))
      ensures !reaped ==> if t.now - cleanupStarted >= launch.grace then sentKill else sentTerm || sentKill
    {
      var signal := if t.now - cleanupStarted >= launch.grace then Kill else Term;
      hide InOrder;
      KillIsLast(ticks, turn);
      NoneMore(log, sentTerm, sentKill, turn);
      if !reaped && ((!sentTerm && signal.Term?) || (!sentKill && signal.Kill?)) {
        if !t.killed { report := Remember(report, Terminate); }
        OneMore(log, sentTerm, sentKill, turn, signal);
        sentTerm := sentTerm || signal.Term?;
        sentKill := sentKill || signal.Kill?;
        log := log + [Sent(turn, signal, reaped)];
      }
    }

    /** Once the grace period is over it stays over. */
    lemma KillIsLast(ticks: nat -> Tick, turn: nat)
      requires cleaning && cleanupStarted <= ticks(turn).now && LogOk(turn) && Timed(ticks) && Advances(ticks)
      ensures sentKill ==> ticks(turn).now - cleanupStarted >= launch.grace
    {
      if sentKill {
        var s := log[|log| - 1];
        assert ticks(s.tick).now <= ticks(turn).now;
      }
    }

    /** Sweeping, reaping, and the authoritative question whether any child is left. */
    method Clean(t: Tick, exited: bool) returns (done: bool)
      requires cleaning && cleanupStarted <= t.now && !report.cleanupConfirmed
      modifies `reaped, `report
      ensures reaped <==> old(reaped) || (exited && t.sweep.None? && !t.live && t.reaping.Reaped?)
      ensures report.cleanupConfirmed <==> reaped && t.remaining.NoChild?
      ensures done <==> report.cleanupConfirmed || t.now - cleanupStarted >= launch.grace + KILL_BUDGET
      ensures var tried := !old(reaped) && exited && t.sweep.None? && !t.live;
              report == old(report).(
                cleanupConfirmed := report.cleanupConfirmed,
                failure := FirstOf(old(report).failure, FirstOf(t.sweep, FirstOf(
                                     If(tried && t.reaping.ReapFailed?, Wait), FirstOf(
                                     If(reaped && t.remaining.WaitFailed?, Wait),
                                     If(done && !report.cleanupConfirmed, Cleanup))))))
    {
      if t.sweep.Some? { report := Remember(report, t.sweep.value); }
      if !reaped && exited && t.sweep.None? && !t.live {
        reaped := t.reaping.Reaped?;
        if t.reaping.ReapFailed? { report := Remember(report, Wait); }
      }
      if reaped {
        // The list of children is only an aid; the wait call is what confirms.
        if t.remaining.NoChild? {
          report := report.(cleanupConfirmed := true);
          return true;
        }
        if t.remaining.WaitFailed? { report := Remember(report, Wait); }
      }
      var elapsed := t.now - cleanupStarted;
      if elapsed >= launch.grace && elapsed - launch.grace >= KILL_BUDGET {
        report := Remember(report, Cleanup);
        return true;
      }
      return false;
    }

    /** The turn before this one did not end the loop. */
    ghost predicate GoesOn(ticks: nat -> Tick, turn: nat)
      reads `cleaning, `cleanupStarted
    {
      turn > 0 ==>
        if cleaning then ticks(turn - 1).now < cleanupStarted + launch.grace + KILL_BUDGET
        else ticks(turn - 1).now < started + launch.timeout
    }

    ghost predicate FlagsOk()
      reads this
    {
      && !report.cleanupConfirmed && !(report.timedOut && report.cancelled)
      && (!cleaning ==> !reaped && !report.exit && report.failure.None? && !report.timedOut && !report.cancelled && log == [])
    }

    ghost predicate Settled(ticks: nat -> Tick, turn: nat)
      reads this
    {
      && LogOk(turn) && Timed(ticks) && FlagsOk() && GoesOn(ticks, turn)
      && started <= ticks(turn).now && (cleaning ==> cleanupStarted <= ticks(turn).now)
    }

    /** What the first `n` turns make of the target. */
    ghost predicate TargetTold(ticks: nat -> Tick, n: nat)
      reads `report, `reaped, `execOpen
    {
      && (report.exit <==> Exits(ticks, n)) && (reaped ==> Released(ticks, n))
      && (!reaped ==> forall j: nat :: j < n ==> !ticks(j).observed.Unobservable?)
      && (reaped && !report.exit ==> report.failure.Some? && exists j: nat :: j < n && ticks(j).observed.Unobservable?)
      && (report.failure.None? ==> if execOpen then Quiet(ticks, n) else Started(ticks, n))
    }

    /** ... and of the cleaning. */
    ghost predicate CleaningTold(ticks: nat -> Tick, n: nat)
      reads `report, `cleaning, `begun, `log
    {
      if cleaning then (begun == 0 || begun < n) && Accounted(ticks, n) else Uneventful(ticks, n, started + launch.timeout)
    }

    ghost predicate Accounted(ticks: nat -> Tick, n: nat)
      reads `report, `begun, `log
    {
      && Cause(ticks, begun, started + launch.timeout, report)
      && (report.failure.None? ==> Untroubled(ticks, log, begun, n))
    }

    lemma NothingTold(ticks: nat -> Tick)
      requires !report.exit && !reaped && execOpen && log == [] && begun == 0 && !report.cancelled && !report.timedOut
      requires cleaning ==> report.failure.Some?
      ensures TargetTold(ticks, 0) && CleaningTold(ticks, 0)
    {
    }

    /** What a report means in the end. */
    lemma Concluded(ticks: nat -> Tick, turn: nat)
      requires LogOk(turn + 1) && TargetTold(ticks, turn + 1) && CleaningTold(ticks, turn + 1) && cleaning
      requires if report.cleanupConfirmed then reaped else report.failure.Some? && (reaped || sentKill)
      ensures |log| <= 2 && forall i :: 0 <= i < |log| ==> !log[i].reaped && log[i].tick <= turn
      ensures |log| == 2 ==> log[0].signal.Term? && log[1].signal.Kill? && log[0].tick < log[1].tick
      ensures begun <= turn && forall k: nat :: k < begun ==> ticks(k).now < started + launch.timeout
      ensures (report.exit <==> Exits(ticks, turn + 1)) && Cause(ticks, begun, started + launch.timeout, report)
      ensures report.failure.None? ==>
                forall k: nat :: k <= turn ==> ticks(k).exec.Again? || exists c: nat :: c <= k && ticks(c).exec.Closed?
      ensures report.failure.None? ==> report.exit && Untroubled(ticks, log, begun, turn + 1)
      ensures report.cleanupConfirmed || Released(ticks, turn + 1) || (log != [] && log[|log| - 1].signal.Kill?)
    {
      hide Exits, Released;
      if report.failure.None? {
        forall k: nat | k <= turn ensures ticks(k).exec.Again? || exists c: nat :: c <= k && ticks(c).exec.Closed? {
          NoExecTrouble(ticks, turn + 1, k);
        }
      }
    }

    /** The look at the target completes what is told of it. */
    method Observe(ticks: nat -> Tick, turn: nat) returns (exited: bool)
      requires TargetTold(ticks, turn) && CleaningTold(ticks, turn)
      modifies `reaped, `report, `execOpen
      ensures TargetTold(ticks, turn + 1) && (report.exit <==> old(report).exit || exited)
      ensures if cleaning then Accounted(ticks, turn) else Uneventful(ticks, turn, started + launch.timeout)
      ensures reaped ==> old(reaped) || report.failure.Some?
      ensures report == old(report).(exit := report.exit, failure := report.failure)
      ensures old(report).failure.Some? ==> report.failure == old(report).failure
    {
      hide Exits, Uneventful, Untroubled;
      var t := ticks(turn);
      exited := Look(t);
      ExitsSnoc(ticks, turn);
    }

    /** Whether cleaning begins in this turn. */
    method Choose(ticks: nat -> Tick, turn: nat, exited: bool)
      requires !cleaning && Uneventful(ticks, turn, started + launch.timeout) && TargetTold(ticks, turn + 1)
      requires started <= ticks(turn).now && log == [] && !report.timedOut && !report.cancelled && (report.exit <==> exited)
      modifies `cleaning, `report, `cleanupStarted, `begun
      ensures TargetTold(ticks, turn + 1)
      ensures report == old(report).(timedOut := report.timedOut, cancelled := report.cancelled)
      ensures if cleaning then Accounted(ticks, turn) && begun == turn && cleanupStarted == ticks(turn).now
              else Uneventful(ticks, turn + 1, started + launch.timeout) && report == old(report) &&
                   !report.exit && report.failure.None? && ticks(turn).now < started + launch.timeout
      ensures !(report.timedOut && report.cancelled)
    {
      Decide(ticks(turn), exited);
      if cleaning { begun := turn; }
    }

    /** One turn of the loop. */
    method Turn(ticks: nat -> Tick, turn: nat) returns (done: bool)
      requires Settled(ticks, turn) && Advances(ticks) && TargetTold(ticks, turn) && CleaningTold(ticks, turn)
      modifies this
      ensures LogOk(turn + 1) && !(report.timedOut && report.cancelled)
      ensures !done ==> Settled(ticks, turn + 1)
      ensures TargetTold(ticks, turn + 1) && CleaningTold(ticks, turn + 1)
      ensures report.cleanupConfirmed ==> done && reaped && ticks(turn).remaining.NoChild?
      ensures done ==> cleaning && (report.cleanupConfirmed || report.failure.Some?)
      ensures done && !report.cleanupConfirmed ==>
                ticks(turn).now >= cleanupStarted + launch.grace + KILL_BUDGET && (reaped || sentKill)
      ensures old(cleaning) ==> cleaning && cleanupStarted == old(cleanupStarted) && begun == old(begun)
      ensures !old(cleaning) && cleaning ==> cleanupStarted == ticks(turn).now && begun == turn
    {
      hide TargetTold, Accounted, Uneventful, InOrder;
      var t := ticks(turn);
      Later(ticks, turn);
      NoneMore(log, sentTerm, sentKill, turn);
      var exited := Observe(ticks, turn);
      if !cleaning {
        Choose(ticks, turn, exited);
        if !cleaning { return false; }
      }
      done := TurnCleaning(ticks, turn, t, exited);
    }

    method TurnCleaning(ticks: nat -> Tick, turn: nat, t: Tick, exited: bool) returns (done: bool)
      requires t == ticks(turn) && Advances(ticks) && cleaning && cleanupStarted <= t.now && started <= t.now
      requires LogOk(turn) && Timed(ticks) && FlagsOk() && begun <= turn && (exited ==> report.exit)
      requires TargetTold(ticks, turn + 1) && Accounted(ticks, turn)
      modifies `reaped, `report, `sentTerm, `sentKill, `log
      ensures LogOk(turn + 1) && !(report.timedOut && report.cancelled)
      ensures !done ==> Settled(ticks, turn + 1)
      ensures TargetTold(ticks, turn + 1) && CleaningTold(ticks, turn + 1)
      ensures report.cleanupConfirmed ==> done && reaped && t.remaining.NoChild?
      ensures done ==> report.cleanupConfirmed || report.failure.Some?
      ensures done && !report.cleanupConfirmed ==> t.now >= cleanupStarted + launch.grace + KILL_BUDGET && (reaped || sentKill)
    {
      hide LogOk, Timed, Exits, Uneventful, Started, Quiet;
      assert ticks(turn).now <= ticks(turn + 1).now;
      Signal(t, ticks, turn);
      done := Clean(t, exited);
    }
  }

  /** How many turns the loop may still take before the clock has passed the deadline. */
  ghost function Left(ticks: nat -> Tick, deadline: nat, turn: nat): nat
    requires Advances(ticks)
  {
    var end := TurnPast(ticks, deadline);
    if turn <= end then 1 + end - turn else 0
  }

  /** The status pipe: silent up to here, or closed at or before every turn that is not. */
  lemma NoExecTrouble(ticks: nat -> Tick, n: nat, k: nat)
    requires (Quiet(ticks, n) || Started(ticks, n)) && k < n
    ensures ticks(k).exec.Again? || exists c: nat :: c <= k && ticks(c).exec.Closed?
  {
    if Started(ticks, n) {
      var c: nat :| c < n && ticks(c).exec.Closed? && Quiet(ticks, c);
      if c <= k { assert ticks(c).exec.Closed?; }
    }
  }

  /** Main result, for every environment with an advancing clock: the loop ends, no later than the kill budget after
      the turn in which cleaning began, and cleaning begins no later than the first turn past the timeout. Group
      signals went only to a target still held: at most one TERM, then at most one KILL.

      The report tells what happened: an exit exactly if the target was seen to exit; cancelled or timed out, never
      both, only if the target had neither exited nor failed by then; no failure only if the program was not seen
      failing to start, every signal arrived and every sweep was clean. Cleanup is confirmed only if no child was left;
      if it is not, the budget is over and a target still held was sent KILL. */
  method Supervise(launch: Launch, started: nat, grouped: bool, cleanup: nat, ticks: nat -> Tick)
    returns (report: Report, ghost turn: nat, ghost log: seq<Sent>, ghost since: nat, ghost begun: nat)
    requires Advances(ticks) && started <= cleanup <= ticks(0).now
    ensures |log| <= 2 && forall i :: 0 <= i < |log| ==> !log[i].reaped && log[i].tick <= turn
    ensures |log| == 2 ==> log[0].signal.Term? && log[1].signal.Kill? && log[0].tick < log[1].tick
    ensures !(report.timedOut && report.cancelled)
    ensures report.exit <==> Exits(ticks, turn + 1)
    ensures Cause(ticks, begun, started + launch.timeout, report)
    ensures report.failure.None? ==>
              forall k: nat :: k <= turn ==> ticks(k).exec.Again? || exists c: nat :: c <= k && ticks(c).exec.Closed?
    ensures report.failure.None? ==> report.exit && Untroubled(ticks, log, begun, turn + 1)
    ensures report.cleanupConfirmed ==> ticks(turn).remaining.NoChild?
    ensures !report.cleanupConfirmed ==>
              && report.failure.Some? && ticks(turn).now >= since + launch.grace + KILL_BUDGET
              && (Released(ticks, turn + 1) || (log != [] && log[|log| - 1].signal.Kill?))
    ensures forall i: nat :: i < turn && ticks(i).now >= since ==> ticks(i).now < since + launch.grace + KILL_BUDGET
    ensures begun <= turn && (since == cleanup || since == ticks(begun).now)
    ensures forall k: nat :: k < begun ==> ticks(k).now < started + launch.timeout
  {
    hide Supervision.Timed, Supervision.TargetTold, Supervision.CleaningTold, Supervision.LogOk, Advances, Cause, Untroubled,
         Exits, Released, Uneventful, InOrder;
    var s := new Supervision(launch, started, grouped, cleanup);
    s.NothingSent(ticks);
    s.NothingTold(ticks);
    var n: nat := 0;
    while true
      invariant fresh(s) && s.launch == launch && s.started == started && s.Settled(ticks, n)
      invariant s.TargetTold(ticks, n) && s.CleaningTold(ticks, n)
      invariant s.cleaning ==> s.cleanupStarted == cleanup || s.cleanupStarted == ticks(s.begun).now
      decreases if s.cleaning then 0 else 1,
                Left(ticks, if s.cleaning then s.cleanupStarted + launch.grace + KILL_BUDGET else started + launch.timeout, n)
    {
      ghost var since0 := s.cleanupStarted;
      AllBefore(ticks, n, since0 + launch.grace + KILL_BUDGET);
      Later(ticks, n);
      if n > 0 { Later(ticks, n - 1); }
      AllBefore(ticks, n, ticks(n).now + 1);
      var done := s.Turn(ticks, n);
      if done {
        s.Concluded(ticks, n);
        return s.report, n, s.log, s.cleanupStarted, s.begun;
      }
      n := n + 1;
    }
  }

  lemma Later(ticks: nat -> Tick, n: nat)
    requires Advances(ticks)
    ensures ticks(n).now <= ticks(n + 1).now
  {
  }

  lemma AllBefore(ticks: nat -> Tick, n: nat, deadline: nat)
    requires Advances(ticks)
    ensures (n > 0 ==> ticks(n - 1).now < deadline) ==> forall i: nat :: i < n ==> ticks(i).now < deadline
  {
    if n > 0 {
      forall i: nat | i < n ensures ticks(i).now <= ticks(n - 1).now { if i < n - 1 { assert ticks(i).now <= ticks(n - 1).now; } }
    }
  }
}
