/** One tick of the context guard in terms of its inputs alone: when it asks for a
    handoff, restarts, resumes or waits, and what it remembers. */
module GuardMeaning {
  import opened Prelude
  import opened ContextGuard
  import opened GuardRuns

  // ---- Signals ----------------------------------------------------------------------

  // Some toggle is on; with all off the guard forgets everything.
  predicate SomeToggle(cfg: Config) {
    cfg.enabled || cfg.saturationRestart || cfg.idleFlushEnabled
  }

  predicate Saturated(inputs: Inputs, cfg: Config) {
    cfg.saturationRestart && inputs.paneSaturated
  }

  predicate PctAtLeast(inputs: Inputs, threshold: real) {
    inputs.pct.Some? && inputs.pct.value >= threshold
  }

  // Between the two thresholds.
  predicate ActsOnPct(inputs: Inputs, cfg: Config) {
    cfg.enabled && PctAtLeast(inputs, cfg.actPct) && !PctAtLeast(inputs, cfg.hardPct)
  }

  // Heavy, untouched for long enough and idle now, and below both thresholds.
  predicate Flushes(inputs: Inputs, cfg: Config) {
    && cfg.idleFlushEnabled
    && !(cfg.enabled && (PctAtLeast(inputs, cfg.actPct) || PctAtLeast(inputs, cfg.hardPct)))
    && inputs.contextTokens.Some? && inputs.contextTokens.value >= cfg.idleFlushTokens
    && inputs.idleMs.Some? && inputs.idleMs.value >= 60000.0 * cfg.idleMinutes
    && inputs.paneIdle
  }

  // The handoff file is newer than at the request, or new.
  predicate Written(state: State, inputs: Inputs) {
    inputs.handoffMtime.Some? &&
    (state.handoffMtimeAtRequest == None || state.handoffMtimeAtRequest.value < inputs.handoffMtime.value)
  }

  // The session went on working for more than three minutes after the file was written.
  predicate WorkedOn(inputs: Inputs) {
    inputs.handoffMtime.Some? && inputs.idleMs.Some? &&
    (inputs.nowMs - inputs.idleMs.value) - inputs.handoffMtime.value > 180000.0
  }

  // Written and stale, with time left and the hard threshold not reached.
  predicate WantsRefresh(state: State, inputs: Inputs, cfg: Config) {
    Written(state, inputs) && inputs.paneIdle && WorkedOn(inputs) && inputs.nowMs < state.deadlineMs &&
    !PctAtLeast(inputs, cfg.hardPct)
  }

  predicate StillWanted(inputs: Inputs, cfg: Config) {
    inputs.running && (cfg.enabled || cfg.idleFlushEnabled)
  }

  // ---- The four actions ------------------------------------------------------------------

  // The guard asks for a handoff.
  predicate ShouldAsk(state: State, inputs: Inputs, cfg: Config) {
    match state.phase
    case Idle => inputs.running && !Saturated(inputs, cfg) && (ActsOnPct(inputs, cfg) || Flushes(inputs, cfg))
    case AwaitHandoff =>
      StillWanted(inputs, cfg) && !Saturated(inputs, cfg) && WantsRefresh(state, inputs, cfg)
    case _ => false
  }

  // The guard restarts the session.
  predicate ShouldRestart(state: State, inputs: Inputs, cfg: Config) {
    match state.phase
    case Idle =>
      inputs.running &&
      if Saturated(inputs, cfg) then state.saturatedStreak + 1 >= 2
      else cfg.enabled && PctAtLeast(inputs, cfg.hardPct) && !inputs.paneBusy
    case AwaitHandoff =>
      StillWanted(inputs, cfg) &&
      (|| Saturated(inputs, cfg)
       || (if Written(state, inputs) && inputs.paneIdle then !WantsRefresh(state, inputs, cfg)
           else (PctAtLeast(inputs, cfg.hardPct) || inputs.nowMs >= state.deadlineMs) && !inputs.paneBusy))
    case _ => false
  }

  predicate ShouldResume(state: State, inputs: Inputs) {
    state.phase == AwaitReady && inputs.running && inputs.sessionReady
  }

  /** Which action the guard takes, exactly, for every state, measurement and
      configuration. */
  lemma ActionMeaning(state: State, inputs: Inputs, cfg: Config)
    ensures var action := DecideGuard(state, inputs, cfg).action;
            && (action == RequestHandoff <==> SomeToggle(cfg) && ShouldAsk(state, inputs, cfg))
            && (action == Restart <==> SomeToggle(cfg) && ShouldRestart(state, inputs, cfg))
            && (action == InjectResume <==> SomeToggle(cfg) && ShouldResume(state, inputs))
            && (action == Wait <==>
                  || !SomeToggle(cfg)
                  || (!ShouldAsk(state, inputs, cfg) && !ShouldRestart(state, inputs, cfg)
                      && !ShouldResume(state, inputs)))
  {
  }

  /** What the guard remembers after an action. A request for a handoff from the idle
      phase sets the one deadline of the episode, a refresh only moves the recorded
      file time; a restart gives the session five minutes to come back; a resume
      starts the cooldown. */
  lemma ActionLeaves(state: State, inputs: Inputs, cfg: Config)
    ensures var d := DecideGuard(state, inputs, cfg);
            && (d.action == RequestHandoff && state.phase == Idle ==>
                  && d.next == State(AwaitHandoff, inputs.handoffMtime,
                                     inputs.nowMs + 60000.0 * cfg.handoffTimeoutMinutes, 0.0, 0, Fresh)
                  && d.reason == if ActsOnPct(inputs, cfg) then ActThreshold else IdleFlush)
            && (d.action == RequestHandoff && state.phase != Idle ==>
                  d.next == state.(handoffMtimeAtRequest := inputs.handoffMtime) && d.reason == StaleRefresh)
            && (d.action == Restart ==>
                  d.next == State(AwaitReady, None, inputs.nowMs + 300000.0, 0.0, 0, HandoffStaleness(inputs)))
            && (d.action == InjectResume ==>
                  d.next == State(Cooldown, None, 0.0, inputs.nowMs + 60000.0 * cfg.cooldownMinutes, 0, Fresh))
  {
  }

  /** What it remembers after waiting, phase by phase. */
  lemma WaitLeaves(state: State, inputs: Inputs, cfg: Config)
    requires DecideGuard(state, inputs, cfg).action == Wait
    ensures var start := State(Idle, None, 0.0, 0.0, 0, Fresh);
            var standDown := State(Cooldown, None, 0.0, inputs.nowMs + 60000.0 * cfg.cooldownMinutes, 0, Fresh);
            DecideGuard(state, inputs, cfg).next ==
              if !SomeToggle(cfg) then start
              else match state.phase
                   case Cooldown => if inputs.nowMs >= state.cooldownUntilMs then start else state
                   case Idle =>
                     if !inputs.running then start
                     else if Saturated(inputs, cfg) then state.(saturatedStreak := state.saturatedStreak + 1)
                     else if state.saturatedStreak > 0 then state.(saturatedStreak := 0) else state
                   case AwaitHandoff => if StillWanted(inputs, cfg) then state else standDown
                   case AwaitReady => if inputs.nowMs >= state.deadlineMs then standDown else state
  {
  }

  /** How stale a handoff is reported to be: not at all without a file or within the
      slack, unknown without an idle time, otherwise the minutes of work since,
      rounded to the nearest with ties up. */
  lemma StalenessMeaning(inputs: Inputs)
    ensures HandoffStaleness(inputs) == Unknown <==> inputs.handoffMtime.Some? && inputs.idleMs == None
    ensures HandoffStaleness(inputs).Stale? <==> WorkedOn(inputs)
    ensures WorkedOn(inputs) ==>
              var minutes := ((inputs.nowMs - inputs.idleMs.value) - inputs.handoffMtime.value) / 60000.0;
              var reported := HandoffStaleness(inputs).minutes as real;
              minutes - 0.5 < reported <= minutes + 0.5
  {
  }

  // ---- The handoff timeout --------------------------------------------------------------------

  // The session runs, is between turns, and the proactive guard stays on.
  predicate Available(sweep: Sweep) {
    sweep.inputs.running && !sweep.inputs.paneBusy && sweep.cfg.enabled
  }

  lemma {:induction false} WaitsUntilDeadline(start: State, sweeps: seq<Sweep>, n: nat)
    requires start.phase == AwaitHandoff && n <= |sweeps|
    requires forall i :: 0 <= i < n ==> Available(sweeps[i]) && At(start, sweeps, i).action != Restart
    ensures After(start, sweeps[..n]).phase == AwaitHandoff && After(start, sweeps[..n]).deadlineMs == start.deadlineMs
  {
    hide DecideGuard, After;
    if n > 0 {
      WaitsUntilDeadline(start, sweeps, n - 1);
      AfterStep(start, sweeps, n - 1);
      var state, sweep := After(start, sweeps[..n - 1]), sweeps[n - 1];
      ActionMeaning(state, sweep.inputs, sweep.cfg);
      ActionLeaves(state, sweep.inputs, sweep.cfg);
      if At(start, sweeps, n - 1).action == Wait { WaitLeaves(state, sweep.inputs, sweep.cfg); }
    } else {
      AfterNone(start, sweeps);
    }
  }

  /** A handoff that is asked for ends in a restart: while the session stays running
      and between turns and the guard on, it is restarted at the latest by the first
      sweep at or after the deadline, whatever was written meanwhile. */
  lemma TimeoutRestarts(start: State, sweeps: seq<Sweep>, n: nat) returns (r: nat)
    requires start.phase == AwaitHandoff && n < |sweeps| && Now(sweeps, n) >= start.deadlineMs
    requires forall i :: 0 <= i <= n ==> Available(sweeps[i])
    ensures r <= n && At(start, sweeps, r).action == Restart
  {
    hide DecideGuard, After;
    if forall i :: 0 <= i < n ==> At(start, sweeps, i).action != Restart {
      WaitsUntilDeadline(start, sweeps, n);
      ActionMeaning(After(start, sweeps[..n]), sweeps[n].inputs, sweeps[n].cfg);
      r := n;
    } else {
      r :| r < n && At(start, sweeps, r).action == Restart;
    }
  }

  /** So a session over the act threshold is asked for a handoff at once and
      restarted within the configured timeout: an idle guard that is on, sees a
      running, unsaturated session between the thresholds, and finds it available
      from then on. */
  lemma OverThresholdIsRestarted(start: State, sweeps: seq<Sweep>, n: nat) returns (r: nat)
    requires start.phase == Idle && 0 < n < |sweeps| && forall i :: 0 < i <= n ==> Available(sweeps[i])
    requires var first := sweeps[0];
             && first.inputs.running && first.cfg.enabled
             && !(first.cfg.saturationRestart && first.inputs.paneSaturated)
             && first.inputs.pct.Some? && first.cfg.actPct <= first.inputs.pct.value < first.cfg.hardPct
             && Now(sweeps, n) >= Now(sweeps, 0) + 60000.0 * first.cfg.handoffTimeoutMinutes
    ensures At(start, sweeps, 0).action == RequestHandoff
    ensures 0 < r <= n && At(start, sweeps, r).action == Restart
  {
    hide DecideGuard, After;
    AfterNone(start, sweeps);
    ActionMeaning(start, sweeps[0].inputs, sweeps[0].cfg);
    ActionLeaves(start, sweeps[0].inputs, sweeps[0].cfg);
    var asked := At(start, sweeps, 0).next;
    var rest := sweeps[1..];
    assert Now(rest, n - 1) == Now(sweeps, n);
    assert forall i :: 0 <= i <= n - 1 ==> rest[i] == sweeps[i + 1];
    var k := TimeoutRestarts(asked, rest, n - 1);
    r := k + 1;
    Shifted(start, sweeps, k);
  }

  // A run that starts after the first sweep.
  lemma {:induction false} Shifted(start: State, sweeps: seq<Sweep>, k: nat)
    requires k + 1 < |sweeps|
    ensures At(start, sweeps, k + 1) == At(At(start, sweeps, 0).next, sweeps[1..], k)
  {
    ShiftedAfter(start, sweeps, k);
  }

  lemma {:induction false} ShiftedAfter(start: State, sweeps: seq<Sweep>, k: nat)
    requires k < |sweeps|
    ensures After(start, sweeps[..k + 1]) == After(At(start, sweeps, 0).next, sweeps[1..][..k])
  {
    hide DecideGuard, After;
    AfterStep(start, sweeps, k);
    if k == 0 {
      AfterNone(At(start, sweeps, 0).next, sweeps[1..]);
    } else {
      ShiftedAfter(start, sweeps, k - 1);
      AfterStep(At(start, sweeps, 0).next, sweeps[1..], k - 1);
    }
  }

  // ---- Configuration --------------------------------------------------------------------------

  /** How a stored configuration is read, field by field: a value of the wrong kind or
      out of range counts as missing and gives the default. */
  lemma NormalizeMeaning(o: RawConfig)
    ensures var cfg := Normalize(o);
            && (cfg.enabled <==> o.enabled == Bool(true))
            && (cfg.saturationRestart <==> o.saturationRestart != Bool(false))
            && (cfg.idleFlushEnabled <==> o.idleFlushEnabled == Bool(true))
            && cfg.actPct == (if o.actPct.Number? && 0.0 < o.actPct.value < 1.0 then o.actPct.value else 0.9)
            && var hard := if o.hardPct.Number? && 0.0 < o.hardPct.value < 1.0 then o.hardPct.value else 0.97;
               cfg.hardPct == (if hard >= cfg.actPct then hard else cfg.actPct)
    ensures var cfg := Normalize(o);
            && cfg.cooldownMinutes ==
                 (if o.cooldownMinutes.Number? && o.cooldownMinutes.value > 0.0 then o.cooldownMinutes.value else 15.0)
            && cfg.handoffTimeoutMinutes ==
                 (if o.handoffTimeoutMinutes.Number? && o.handoffTimeoutMinutes.value > 0.0
                  then o.handoffTimeoutMinutes.value else 20.0)
            && cfg.idleMinutes == (if o.idleMinutes.Number? && o.idleMinutes.value > 0.0 then o.idleMinutes.value
                                   else 20.0)
    ensures var cfg, some := Normalize(o), o.limitTokens.Number? && o.limitTokens.value >= 10000.0;
            && (cfg.limitTokens.Some? <==> some)
            && (some ==> cfg.limitTokens.value as real <= o.limitTokens.value < (cfg.limitTokens.value + 1) as real)
    ensures var cfg, some := Normalize(o), o.idleFlushTokens.Number? && o.idleFlushTokens.value >= 10000.0;
            && (some ==> cfg.idleFlushTokens as real <= o.idleFlushTokens.value < (cfg.idleFlushTokens + 1) as real)
            && (!some ==> cfg.idleFlushTokens == 400000)
  {
  }
}
