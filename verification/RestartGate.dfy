/** The proactive restart gate: when a heavy session may be cleared, and when a
    gate that will not open is worth an alert (src/context-restart-gate.ts). */
module RestartGate {
  import opened Prelude

  datatype Config = Config(enabled: bool, thresholdTokens: int, persistentBlockAlertMs: int)

  datatype PaneState = IdlePane | BusyPane | TypingPane | UnknownPane | ErrorPane

  datatype GuardPhase = IdlePhase | CooldownPhase | AwaitHandoffPhase | AwaitReadyPhase

  // None stands for an unmeasurable signal.
  datatype Inputs = Inputs(
    nowMs: int,
    contextTokens: Option<int>,
    paneState: Option<PaneState>,
    paneUsageLimited: bool,
    hardGuardPhase: GuardPhase,
    pendingOutboundCount: nat,
    hasStaleOutbound: bool,
    hasChildProcesses: Option<bool>,
    hasOpenQuestion: bool,
    hasLiveTaskState: bool)

  datatype Action = Allow | Block | BlockAlert

  function BlockFor(firstBlockedAt: Option<int>, nowMs: int, cfg: Config): Action {
    var elapsed := if firstBlockedAt.Some? then nowMs - firstBlockedAt.value else 0;
    if elapsed >= cfg.persistentBlockAlertMs then BlockAlert else Block
  }

  function DecideGate(inputs: Inputs, cfg: Config, firstBlockedAt: Option<int>): Action {
    var blocked := BlockFor(firstBlockedAt, inputs.nowMs, cfg);
    if !cfg.enabled then Block
    else if inputs.contextTokens.None? then Block
    else if inputs.contextTokens.value < cfg.thresholdTokens then Block
    else if inputs.hardGuardPhase == AwaitHandoffPhase || inputs.hardGuardPhase == AwaitReadyPhase then blocked
    else if inputs.paneState.None? then blocked
    else if inputs.paneState.value == BusyPane || inputs.paneState.value == TypingPane then blocked
    else if inputs.paneUsageLimited then blocked
    else if inputs.paneState.value == UnknownPane || inputs.paneState.value == ErrorPane then blocked
    else if inputs.hasChildProcesses.None? then blocked
    else if inputs.hasChildProcesses.value then blocked
    else if inputs.pendingOutboundCount > 0 then blocked
    else if inputs.hasOpenQuestion then blocked
    else if inputs.hasLiveTaskState then blocked
    else Allow
  }

  function NextBlockClock(firstBlockedAt: Option<int>, contextTokens: Option<int>, thresholdTokens: int,
                          nowMs: int): Option<int>
  {
    if contextTokens.None? then firstBlockedAt
    else if contextTokens.value < thresholdTokens then None
    else if firstBlockedAt.Some? then firstBlockedAt
    else Some(nowMs)
  }

  predicate Heavy(inputs: Inputs, cfg: Config) {
    inputs.contextTokens.Some? && inputs.contextTokens.value >= cfg.thresholdTokens
  }

  // Every live-work signal was measured and is absent.
  predicate NothingInFlight(inputs: Inputs) {
    && inputs.hardGuardPhase in {IdlePhase, CooldownPhase}
    && inputs.paneState == Some(IdlePane) && !inputs.paneUsageLimited
    && inputs.hasChildProcesses == Some(false) && inputs.pendingOutboundCount == 0
    && !inputs.hasOpenQuestion && !inputs.hasLiveTaskState
  }

  /** The gate is fail-closed: it opens exactly when the session is measured
      heavy and every signal was measured clear. An alert needs a heavy reading
      and a clock that has run long enough. */
  lemma GateMeaning(inputs: Inputs, cfg: Config, firstBlockedAt: Option<int>)
    ensures DecideGate(inputs, cfg, firstBlockedAt) == Allow <==>
              cfg.enabled && Heavy(inputs, cfg) && NothingInFlight(inputs)
    ensures DecideGate(inputs, cfg, firstBlockedAt) == BlockAlert <==>
              && cfg.enabled && Heavy(inputs, cfg) && !NothingInFlight(inputs)
              && (if firstBlockedAt.Some? then inputs.nowMs - firstBlockedAt.value else 0) >= cfg.persistentBlockAlertMs
  {
  }

  // ---- Runs -----------------------------------------------------------------------

  // One sweep of the runner; `cleared` says whether an allowed /clear was sent.
  datatype Sweep = Sweep(inputs: Inputs, cleared: bool)

  // What the runner stores after a sweep: a sent /clear stops the clock, a
  // plain block advances it, an alert leaves it running.
  function NextClock(clock: Option<int>, sweep: Sweep, cfg: Config): Option<int> {
    match DecideGate(sweep.inputs, cfg, clock)
    case Allow => if sweep.cleared then None else clock
    case Block => NextBlockClock(clock, sweep.inputs.contextTokens, cfg.thresholdTokens, sweep.inputs.nowMs)
    case BlockAlert => clock
  }

  // The clock before sweep n of a run that starts with no clock.
  function ClockAt(sweeps: seq<Sweep>, cfg: Config, n: nat): Option<int>
    requires n <= |sweeps|
  {
    if n == 0 then None else NextClock(ClockAt(sweeps, cfg, n - 1), sweeps[n - 1], cfg)
  }

  function ActionAt(sweeps: seq<Sweep>, cfg: Config, i: nat): Action
    requires i < |sweeps|
  {
    DecideGate(sweeps[i].inputs, cfg, ClockAt(sweeps, cfg, i))
  }

  // From sweep i up to n, no reading fell below the threshold and no /clear was sent.
  predicate Unbroken(sweeps: seq<Sweep>, cfg: Config, i: nat, n: nat)
    requires n <= |sweeps|
  {
    forall k :: i <= k < n ==>
      && (sweeps[k].inputs.contextTokens.Some? ==> Heavy(sweeps[k].inputs, cfg))
      && !(ActionAt(sweeps, cfg, k) == Allow && sweeps[k].cleared)
  }

  // Sweep i was refused on a heavy reading and nothing has broken the wait since.
  predicate StreakFrom(sweeps: seq<Sweep>, cfg: Config, i: nat, n: nat)
    requires n <= |sweeps|
  {
    && i < n && Heavy(sweeps[i].inputs, cfg) && ActionAt(sweeps, cfg, i) != Allow
    && Unbroken(sweeps, cfg, i, n)
  }

  ghost predicate WaitedSince(sweeps: seq<Sweep>, cfg: Config, n: nat, t: int)
    requires n <= |sweeps|
  {
    exists i: nat :: StreakFrom(sweeps, cfg, i, n) && sweeps[i].inputs.nowMs <= t
  }

  predicate Clocked(sweeps: seq<Sweep>) {
    forall i, j :: 0 <= i < j < |sweeps| ==> sweeps[i].inputs.nowMs <= sweeps[j].inputs.nowMs
  }

  // What one sweep does to the clock.
  lemma ClockStep(clock: Option<int>, sweep: Sweep, cfg: Config)
    requires cfg.enabled && cfg.persistentBlockAlertMs > 0
    ensures var action := DecideGate(sweep.inputs, cfg, clock);
            var light := sweep.inputs.contextTokens.Some? && !Heavy(sweep.inputs, cfg);
            NextClock(clock, sweep, cfg) ==
              if light || (action == Allow && sweep.cleared) then None
              else if Heavy(sweep.inputs, cfg) && action != Allow && clock.None? then Some(sweep.inputs.nowMs)
              else clock
  {
    GateMeaning(sweep.inputs, cfg, clock);
  }

  // A running clock shows the time of the refused heavy sweep that began the
  // streak reaching up to n.
  lemma {:induction false} ClockHasStreak(sweeps: seq<Sweep>, cfg: Config, n: nat) returns (i: nat)
    requires n <= |sweeps| && cfg.enabled && cfg.persistentBlockAlertMs > 0 && ClockAt(sweeps, cfg, n).Some?
    ensures StreakFrom(sweeps, cfg, i, n) && sweeps[i].inputs.nowMs == ClockAt(sweeps, cfg, n).value
  {
    hide DecideGate;
    ClockStep(ClockAt(sweeps, cfg, n - 1), sweeps[n - 1], cfg);
    if ClockAt(sweeps, cfg, n - 1).Some? {
      i := ClockHasStreak(sweeps, cfg, n - 1);
    } else {
      i := n - 1;
    }
  }

  // Any streak reaching up to n keeps the clock running since at least its start.
  lemma {:induction false} StreakHasClock(sweeps: seq<Sweep>, cfg: Config, i: nat, n: nat)
    requires n <= |sweeps| && cfg.enabled && cfg.persistentBlockAlertMs > 0 && Clocked(sweeps)
    requires StreakFrom(sweeps, cfg, i, n)
    ensures ClockAt(sweeps, cfg, n).Some? && ClockAt(sweeps, cfg, n).value <= sweeps[i].inputs.nowMs
  {
    hide DecideGate;
    ClockStep(ClockAt(sweeps, cfg, n - 1), sweeps[n - 1], cfg);
    if i < n - 1 {
      StreakHasClock(sweeps, cfg, i, n - 1);
    } else if ClockAt(sweeps, cfg, n - 1).Some? {
      var k := ClockHasStreak(sweeps, cfg, n - 1);
    }
  }

  lemma {:induction false} NoIntervalNoClock(sweeps: seq<Sweep>, cfg: Config, n: nat)
    requires n <= |sweeps| && cfg.enabled && cfg.persistentBlockAlertMs <= 0
    ensures ClockAt(sweeps, cfg, n).None?
  {
    if n > 0 {
      NoIntervalNoClock(sweeps, cfg, n - 1);
      GateMeaning(sweeps[n - 1].inputs, cfg, None);
    }
  }

  /** A block-alert is raised exactly when the session is heavy, the gate is
      shut, and a refused heavy sweep at least the alert interval ago started a
      wait that no lighter reading and no sent /clear has interrupted. An
      interval of zero, which a configured fraction of a millisecond becomes,
      alerts at every refusal. */
  lemma AlertMeaning(sweeps: seq<Sweep>, cfg: Config, n: nat)
    requires n < |sweeps| && cfg.enabled && Clocked(sweeps)
    ensures ActionAt(sweeps, cfg, n) == BlockAlert <==>
              && Heavy(sweeps[n].inputs, cfg) && !NothingInFlight(sweeps[n].inputs)
              && (cfg.persistentBlockAlertMs <= 0 ||
                  WaitedSince(sweeps, cfg, n, sweeps[n].inputs.nowMs - cfg.persistentBlockAlertMs))
  {
    GateMeaning(sweeps[n].inputs, cfg, ClockAt(sweeps, cfg, n));
    if cfg.persistentBlockAlertMs <= 0 {
      NoIntervalNoClock(sweeps, cfg, n);
    } else {
      if ClockAt(sweeps, cfg, n).Some? {
        var i := ClockHasStreak(sweeps, cfg, n);
      }
      forall i: nat | StreakFrom(sweeps, cfg, i, n)
        ensures ClockAt(sweeps, cfg, n).Some? && ClockAt(sweeps, cfg, n).value <= sweeps[i].inputs.nowMs
      {
        StreakHasClock(sweeps, cfg, i, n);
      }
    }
  }
}
