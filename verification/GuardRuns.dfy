/** The context guard over whole runs of sweeps. Each sweep carries its own
    configuration, so operator changes in mid-run are covered. */
module GuardRuns {
  import opened Prelude
  import opened ContextGuard

  datatype Sweep = Sweep(inputs: Inputs, cfg: Config)

  function After(start: State, sweeps: seq<Sweep>): State {
    if sweeps == [] then start
    else
      var last := sweeps[|sweeps| - 1];
      DecideGuard(After(start, sweeps[..|sweeps| - 1]), last.inputs, last.cfg).next
  }

  // The decision taken at sweep i.
  function At(start: State, sweeps: seq<Sweep>, i: nat): Decision
    requires i < |sweeps|
  {
    DecideGuard(After(start, sweeps[..i]), sweeps[i].inputs, sweeps[i].cfg)
  }

  function Now(sweeps: seq<Sweep>, i: nat): real
    requires i < |sweeps|
  {
    sweeps[i].inputs.nowMs
  }

  predicate Clocked(sweeps: seq<Sweep>) {
    forall i, j :: 0 <= i < j < |sweeps| ==> sweeps[i].inputs.nowMs <= sweeps[j].inputs.nowMs
  }

  lemma AfterNone(start: State, sweeps: seq<Sweep>)
    ensures After(start, sweeps[..0]) == start
  {
  }

  lemma AfterStep(start: State, sweeps: seq<Sweep>, i: nat)
    requires i < |sweeps|
    ensures After(start, sweeps[..i + 1]) == At(start, sweeps, i).next
  {
    assert sweeps[..i + 1][..i] == sweeps[..i];
  }

  // ---- What a single restart means -------------------------------------------------

  /** A restart only ever hits a running session; it hits a busy pane only when
      the pane is saturated and the net is armed; and it carries the staleness
      verdict computed from that sweep's own measurements. */
  lemma RestartIsJustified(state: State, inputs: Inputs, cfg: Config)
    requires DecideGuard(state, inputs, cfg).action == Restart
    requires !(inputs.paneIdle && inputs.paneBusy)
    ensures inputs.running
    ensures inputs.paneBusy ==> cfg.saturationRestart && inputs.paneSaturated
    ensures var next := DecideGuard(state, inputs, cfg).next;
            && next.phase == AwaitReady && next.staleness == HandoffStaleness(inputs)
            && next.deadlineMs == inputs.nowMs + READY_TIMEOUT_MS
  {
  }

  // ---- Restart spacing --------------------------------------------------------------

  // Since a restart at `since`, the machine is still coming back, or cooling
  // down until at least `span` later, or `span` has already passed at `now`.
  predicate Quiet(state: State, now: real, since: real, span: real) {
    || state.phase == AwaitReady
    || (state.phase == Cooldown && state.cooldownUntilMs >= since + span)
    || now >= since + span
  }

  predicate ArmedFor(sweep: Sweep, span: real) {
    Armed(sweep.cfg) && Ms(sweep.cfg.cooldownMinutes) >= span
  }

  lemma RestartIsQuiet(state: State, sweep: Sweep)
    requires DecideGuard(state, sweep.inputs, sweep.cfg).action == Restart
    ensures DecideGuard(state, sweep.inputs, sweep.cfg).next.phase == AwaitReady
  {
  }

  lemma QuietStep(state: State, sweep: Sweep, now: real, since: real, span: real)
    requires Quiet(state, now, since, span) && ArmedFor(sweep, span) && since <= now <= sweep.inputs.nowMs
    ensures var d := DecideGuard(state, sweep.inputs, sweep.cfg);
            && Quiet(d.next, sweep.inputs.nowMs, since, span)
            && (d.action == Restart ==> sweep.inputs.nowMs >= since + span)
  {
  }

  /** Two restarts are at least the cooldown apart, as long as every sweep has
      some toggle on and a cooldown of at least `span`. */
  lemma {:induction false} RestartSpacing(start: State, sweeps: seq<Sweep>, i: nat, j: nat, span: real)
    requires i < j < |sweeps| && Clocked(sweeps)
    requires forall k :: i < k <= j ==> ArmedFor(sweeps[k], span)
    requires At(start, sweeps, i).action == Restart
    ensures At(start, sweeps, j).action == Restart ==> Now(sweeps, j) - Now(sweeps, i) >= span
    ensures Quiet(At(start, sweeps, j).next, Now(sweeps, j), Now(sweeps, i), span)
    decreases j
  {
    hide DecideGuard, After;
    AfterStep(start, sweeps, j - 1);
    if i < j - 1 {
      RestartSpacing(start, sweeps, i, j - 1, span);
    } else {
      RestartIsQuiet(After(start, sweeps[..i]), sweeps[i]);
    }
    QuietStep(After(start, sweeps[..j]), sweeps[j], Now(sweeps, j - 1), Now(sweeps, i), span);
  }

  // What an armed configuration restarts on within two sweeps of the idle phase.
  function Provoking(cfg: Config, t: real, again: bool): Inputs {
    if cfg.saturationRestart then Inputs(t, None, true, false, false, false, None, true, None, None)
    else if cfg.enabled then Inputs(t, Some(cfg.hardPct), true, true, false, false, None, false, None, None)
    else Inputs(t, None, true, true, false, false, if again then Some(t) else None, false,
                Some(cfg.idleFlushTokens), if again then None else Some(Ms(cfg.idleMinutes)))
  }

  lemma ProvokingRestarts(cfg: Config, t: real)
    requires Armed(cfg)
    ensures var first := DecideGuard(INITIAL, Provoking(cfg, t, false), cfg);
            first.action == Restart ||
            DecideGuard(first.next, Provoking(cfg, t + 1.0, true), cfg).action == Restart
  {
  }

  // Whatever the state, a sweep with every toggle off resets it.
  lemma DisarmedResets(state: State, inputs: Inputs, off: Config)
    requires !Armed(off)
    ensures DecideGuard(state, inputs, off).next == INITIAL
  {
  }

  /** The proviso is needed, for every armed configuration: with a single sweep of
      all toggles off between them, two restarts are at most four ticks apart
      however long the cooldown is. */
  lemma DisarmingForgetsTheCooldown(cfg: Config, off: Config) returns (i: nat, j: nat)
    requires Armed(cfg) && !Armed(off)
    ensures var run := [Sweep(Provoking(cfg, 0.0, false), cfg), Sweep(Provoking(cfg, 1.0, true), cfg),
                        Sweep(Provoking(cfg, 2.0, false), off),
                        Sweep(Provoking(cfg, 3.0, false), cfg), Sweep(Provoking(cfg, 4.0, true), cfg)];
            && Clocked(run) && i < 2 < j < 5
            && At(INITIAL, run, i).action == Restart && At(INITIAL, run, j).action == Restart
            && Now(run, j) - Now(run, i) <= 4.0
  {
    var run := [Sweep(Provoking(cfg, 0.0, false), cfg), Sweep(Provoking(cfg, 1.0, true), cfg),
                Sweep(Provoking(cfg, 2.0, false), off),
                Sweep(Provoking(cfg, 3.0, false), cfg), Sweep(Provoking(cfg, 4.0, true), cfg)];
    AfterNone(INITIAL, run);
    AfterStep(INITIAL, run, 0);
    AfterStep(INITIAL, run, 2);
    AfterStep(INITIAL, run, 3);
    DisarmedResets(After(INITIAL, run[..2]), Provoking(cfg, 2.0, false), off);
    ProvokingRestarts(cfg, 0.0);
    ProvokingRestarts(cfg, 3.0);
    hide DecideGuard, After;
    i := if At(INITIAL, run, 0).action == Restart then 0 else 1;
    j := if At(INITIAL, run, 3).action == Restart then 3 else 4;
  }

  // ---- Resume follows restart ----------------------------------------------------------

  // Await-ready is entered by a restart and otherwise only waited in.
  lemma AwaitReadyStep(state: State, sweep: Sweep)
    requires DecideGuard(state, sweep.inputs, sweep.cfg).next.phase == AwaitReady
    ensures var d := DecideGuard(state, sweep.inputs, sweep.cfg);
            if d.action == Restart then d.next.staleness == HandoffStaleness(sweep.inputs)
            else d.action == Wait && d.next == state
  {
  }

  /** Whenever the guard sits in await-ready, that state is the one an earlier
      restart left, with nothing but waits since. */
  lemma {:induction false} AwaitReadyTraces(sweeps: seq<Sweep>, n: nat) returns (r: nat)
    requires n <= |sweeps| && After(INITIAL, sweeps[..n]).phase == AwaitReady
    ensures r < n && At(INITIAL, sweeps, r).action == Restart
    ensures After(INITIAL, sweeps[..n]) == At(INITIAL, sweeps, r).next
    ensures forall k :: r < k < n ==> At(INITIAL, sweeps, k).action == Wait
    ensures After(INITIAL, sweeps[..n]).staleness == HandoffStaleness(sweeps[r].inputs)
  {
    hide DecideGuard, After;
    AfterNone(INITIAL, sweeps);
    AfterStep(INITIAL, sweeps, n - 1);
    AwaitReadyStep(After(INITIAL, sweeps[..n - 1]), sweeps[n - 1]);
    if At(INITIAL, sweeps, n - 1).action == Restart {
      r := n - 1;
    } else {
      r := AwaitReadyTraces(sweeps, n - 1);
    }
  }

  /** So a resume prompt follows a restart with only waits between, and the
      staleness it announces is the one measured at that restart. */
  lemma ResumeFollowsRestart(sweeps: seq<Sweep>, j: nat) returns (r: nat)
    requires j < |sweeps| && At(INITIAL, sweeps, j).action == InjectResume
    ensures r < j && At(INITIAL, sweeps, r).action == Restart
    ensures forall k :: r < k < j ==> At(INITIAL, sweeps, k).action == Wait
    ensures After(INITIAL, sweeps[..j]).staleness == HandoffStaleness(sweeps[r].inputs)
  {
    r := AwaitReadyTraces(sweeps, j);
  }

  // ---- Bounded refreshes -----------------------------------------------------------------

  predicate Asks(start: State, sweeps: seq<Sweep>, i: nat)
    requires i < |sweeps|
  {
    At(start, sweeps, i).action == RequestHandoff
  }

  // One await-handoff episode: opened by sweep 0 out of the idle phase, and
  // waiting for the handoff ever since.
  predicate Episode(start: State, sweeps: seq<Sweep>) {
    && sweeps != [] && start.phase == Idle && Asks(start, sweeps, 0)
    && forall k :: 0 < k <= |sweeps| ==> After(start, sweeps[..k]).phase == AwaitHandoff
  }

  // A handoff file that an earlier sweep did not yet see was written after it.
  predicate WrittenWhenNew(sweeps: seq<Sweep>) {
    forall i, j :: 0 <= i < j < |sweeps| && sweeps[j].inputs.handoffMtime.Some?
                   && sweeps[i].inputs.handoffMtime != sweeps[j].inputs.handoffMtime
                   ==> sweeps[j].inputs.handoffMtime.value > sweeps[i].inputs.nowMs
  }

  predicate IdleTimesOk(sweeps: seq<Sweep>) {
    forall i :: 0 <= i < |sweeps| && sweeps[i].inputs.idleMs.Some? ==> sweeps[i].inputs.idleMs.value >= 0.0
  }

  // Refreshes among sweeps 1 to n - 1.
  function Refreshes(start: State, sweeps: seq<Sweep>, n: nat): nat
    requires n <= |sweeps|
  {
    if n <= 1 then 0 else Refreshes(start, sweeps, n - 1) + (if Asks(start, sweeps, n - 1) then 1 else 0)
  }

  // The slack, n times over.
  function Slacks(n: nat): real {
    if n == 0 then 0.0 else Slacks(n - 1) + STALE_HANDOFF_SLACK_MS
  }

  lemma {:induction false} SlacksInMinutes(n: nat, timeout: real)
    ensures Slacks(n) == 180000.0 * (n as real)
    ensures Slacks(n) < Ms(timeout) <==> 3.0 * (n as real) < timeout
  {
    if n > 0 {
      SlacksInMinutes(n - 1, timeout);
    }
  }

  // Inside an episode the state changes only by a refresh, and then only in
  // the recorded mtime; a refresh needs a newer file that is already stale.
  lemma InsideEpisode(state: State, sweep: Sweep)
    requires state.phase == AwaitHandoff && DecideGuard(state, sweep.inputs, sweep.cfg).next.phase == AwaitHandoff
    requires sweep.inputs.idleMs.Some? ==> sweep.inputs.idleMs.value >= 0.0
    ensures var d := DecideGuard(state, sweep.inputs, sweep.cfg);
            if d.action == RequestHandoff then
              && d.next == state.(handoffMtimeAtRequest := sweep.inputs.handoffMtime)
              && sweep.inputs.handoffMtime.Some? && sweep.inputs.handoffMtime != state.handoffMtimeAtRequest
              && sweep.inputs.handoffMtime.value + STALE_HANDOFF_SLACK_MS < sweep.inputs.nowMs < state.deadlineMs
            else d.next == state
  {
  }

  lemma OpensEpisode(state: State, sweep: Sweep)
    requires state.phase == Idle && DecideGuard(state, sweep.inputs, sweep.cfg).action == RequestHandoff
    ensures DecideGuard(state, sweep.inputs, sweep.cfg).next ==
            State(AwaitHandoff, sweep.inputs.handoffMtime,
                  sweep.inputs.nowMs + Ms(sweep.cfg.handoffTimeoutMinutes), 0.0, 0, Fresh)
  {
  }

  // The state remembers the last request: its mtime, and a deadline that the
  // opening request fixed once and for all.
  lemma {:induction false} EpisodeState(start: State, sweeps: seq<Sweep>, n: nat) returns (last: nat)
    requires Episode(start, sweeps) && WrittenWhenNew(sweeps) && IdleTimesOk(sweeps) && 0 < n <= |sweeps|
    ensures last < n && Asks(start, sweeps, last)
    ensures forall k :: last < k < n ==> !Asks(start, sweeps, k)
    ensures var state := After(start, sweeps[..n]);
            && state.handoffMtimeAtRequest == sweeps[last].inputs.handoffMtime
            && state.deadlineMs == Now(sweeps, 0) + Ms(sweeps[0].cfg.handoffTimeoutMinutes)
            && (Refreshes(start, sweeps, n) > 0 ==> Now(sweeps, last) < state.deadlineMs)
    ensures if Refreshes(start, sweeps, n) == 0 then last == 0
            else Now(sweeps, last) > Now(sweeps, 0) + Slacks(Refreshes(start, sweeps, n))
  {
    hide DecideGuard, After;
    AfterStep(start, sweeps, n - 1);
    if n == 1 {
      AfterNone(start, sweeps);
      OpensEpisode(start, sweeps[0]);
      last := 0;
    } else {
      var p := EpisodeState(start, sweeps, n - 1);
      var state := After(start, sweeps[..n - 1]);
      InsideEpisode(state, sweeps[n - 1]);
      last := if Asks(start, sweeps, n - 1) then n - 1 else p;
    }
  }

  /** Requests within one episode are more than the slack apart. */
  lemma {:induction false} RequestSpacing(start: State, sweeps: seq<Sweep>, i: nat, j: nat)
    requires Episode(start, sweeps) && WrittenWhenNew(sweeps) && IdleTimesOk(sweeps)
    requires i < j < |sweeps| && Asks(start, sweeps, i) && Asks(start, sweeps, j)
    ensures Now(sweeps, j) - Now(sweeps, i) > STALE_HANDOFF_SLACK_MS
    decreases j
  {
    var last := EpisodeState(start, sweeps, j);
    AfterStep(start, sweeps, j);
    InsideEpisode(After(start, sweeps[..j]), sweeps[j]);
    if i != last {
      RequestSpacing(start, sweeps, i, last);
    }
  }

  /** One episode emits fewer refreshes than its timeout has slack intervals,
      and none of them moves the deadline. */
  lemma RefreshesAreBounded(start: State, sweeps: seq<Sweep>)
    requires Episode(start, sweeps) && WrittenWhenNew(sweeps) && IdleTimesOk(sweeps)
    ensures var refreshes := Refreshes(start, sweeps, |sweeps|);
            refreshes == 0 || 3.0 * (refreshes as real) < sweeps[0].cfg.handoffTimeoutMinutes
    ensures After(start, sweeps).deadlineMs == Now(sweeps, 0) + Ms(sweeps[0].cfg.handoffTimeoutMinutes)
  {
    hide DecideGuard, After;
    var last := EpisodeState(start, sweeps, |sweeps|);
    assert sweeps[..|sweeps|] == sweeps;
    SlacksInMinutes(Refreshes(start, sweeps, |sweeps|), sweeps[0].cfg.handoffTimeoutMinutes);
  }

  // ---- Bounded recovery -----------------------------------------------------------------------

  // What every state reached at time `now` satisfies when no cooldown is longer than `span`.
  predicate Reached(state: State, now: real, span: real) {
    && state.saturatedStreak >= 0
    && (state.phase == Cooldown ==> state.cooldownUntilMs <= now + span)
    && (state.phase == AwaitReady ==> state.deadlineMs <= now + READY_TIMEOUT_MS)
  }

  predicate CooldownsWithin(sweeps: seq<Sweep>, span: real) {
    forall i :: 0 <= i < |sweeps| ==> 0.0 <= Ms(sweeps[i].cfg.cooldownMinutes) <= span
  }

  lemma ReachedStep(state: State, sweep: Sweep, now: real, span: real)
    requires Reached(state, now, span) && now <= sweep.inputs.nowMs && 0.0 <= Ms(sweep.cfg.cooldownMinutes) <= span
    ensures Reached(DecideGuard(state, sweep.inputs, sweep.cfg).next, sweep.inputs.nowMs, span)
  {
  }

  lemma {:induction false} EveryRunIsReached(sweeps: seq<Sweep>, n: nat, span: real)
    requires 0 < n <= |sweeps| && Clocked(sweeps) && CooldownsWithin(sweeps, span)
    ensures Reached(After(INITIAL, sweeps[..n]), Now(sweeps, n - 1), span)
  {
    AfterStep(INITIAL, sweeps, n - 1);
    if n > 1 {
      EveryRunIsReached(sweeps, n - 1, span);
      ReachedStep(After(INITIAL, sweeps[..n - 1]), sweeps[n - 1], Now(sweeps, n - 2), span);
    } else {
      ReachedStep(INITIAL, sweeps[0], Now(sweeps, 0), span);
    }
  }

  // The longest a saturated session can still wait for its restart, seen at
  // `now`, when sweeps are at most `gap` apart.
  function Patience(state: State, now: real, span: real, gap: real): real {
    match state.phase
    case Idle => if state.saturatedStreak >= 1 then gap else 2.0 * gap
    case Cooldown => Max(0.0, state.cooldownUntilMs - now) + 3.0 * gap
    case AwaitReady => Max(0.0, state.deadlineMs - now) + span + 4.0 * gap
    case AwaitHandoff => span + 4.0 * gap
  }

  predicate Wedged(sweep: Sweep) {
    sweep.cfg.saturationRestart && sweep.inputs.running && sweep.inputs.paneSaturated
  }

  lemma PatienceRunsOut(state: State, sweep: Sweep, now: real, span: real, gap: real)
    requires Reached(state, now, span) && Wedged(sweep)
    requires 0.0 <= Ms(sweep.cfg.cooldownMinutes) <= span
    requires now <= sweep.inputs.nowMs <= now + gap
    ensures var d := DecideGuard(state, sweep.inputs, sweep.cfg);
            var t := sweep.inputs.nowMs;
            d.action != Restart ==>
              Reached(d.next, t, span) && t + Patience(d.next, t, span, gap) <= now + Patience(state, now, span, gap)
  {
  }

  /** With the saturation net on throughout, a session that stays running and
      saturated is restarted within the ready timeout, one cooldown and four
      sweep gaps of any state the guard can be in, whatever the other toggles
      do meanwhile. */
  lemma {:induction false} SaturatedSessionIsRestarted(start: State, from: real, sweeps: seq<Sweep>, span: real,
                                                       gap: real)
    returns (r: nat)
    requires Reached(start, from, span) && Clocked(sweeps) && CooldownsWithin(sweeps, span) && gap >= 0.0 && span >= 0.0
    requires sweeps != [] && from <= Now(sweeps, 0) <= from + gap
    requires forall i :: 0 < i < |sweeps| ==> sweeps[i].inputs.nowMs - sweeps[i - 1].inputs.nowMs <= gap
    requires forall i :: 0 <= i < |sweeps| ==> Wedged(sweeps[i])
    requires Now(sweeps, |sweeps| - 1) > from + READY_TIMEOUT_MS + span + 3.0 * gap
    ensures r < |sweeps| && At(start, sweeps, r).action == Restart
    ensures Now(sweeps, r) <= from + READY_TIMEOUT_MS + span + 4.0 * gap
  {
    hide DecideGuard, After, Reached, Patience;
    if forall k :: 0 <= k < |sweeps| ==> At(start, sweeps, k).action != Restart {
      NoRestartBudget(start, from, sweeps, |sweeps|, span, gap);
      assert false;
    }
    r := 0;
    while At(start, sweeps, r).action != Restart
      invariant r < |sweeps|
      invariant forall k :: 0 <= k < r ==> At(start, sweeps, k).action != Restart
      decreases |sweeps| - r
    {
      assert exists k :: 0 <= k < |sweeps| && At(start, sweeps, k).action == Restart;
      r := r + 1;
    }
    if r > 0 {
      NoRestartBudget(start, from, sweeps, r, span, gap);
    }
  }

  // As long as no restart has happened, the time spent and the patience left
  // stay within what the starting state allowed.
  lemma {:induction false} NoRestartBudget(start: State, from: real, sweeps: seq<Sweep>, n: nat, span: real, gap: real)
    requires Reached(start, from, span) && Clocked(sweeps) && CooldownsWithin(sweeps, span) && gap >= 0.0 && span >= 0.0
    requires 0 < n <= |sweeps| && from <= Now(sweeps, 0) <= from + gap
    requires forall i :: 0 < i < |sweeps| ==> sweeps[i].inputs.nowMs - sweeps[i - 1].inputs.nowMs <= gap
    requires forall i :: 0 <= i < |sweeps| ==> Wedged(sweeps[i])
    requires forall k :: 0 <= k < n ==> At(start, sweeps, k).action != Restart
    ensures var state, now := After(start, sweeps[..n]), Now(sweeps, n - 1);
            && Reached(state, now, span)
            && now + Patience(state, now, span, gap) <= from + READY_TIMEOUT_MS + span + 4.0 * gap
    ensures Now(sweeps, n - 1) + gap <= from + READY_TIMEOUT_MS + span + 4.0 * gap
  {
    hide DecideGuard, After;
    AfterStep(start, sweeps, n - 1);
    if n == 1 {
      AfterNone(start, sweeps);
      PatienceRunsOut(start, sweeps[0], from, span, gap);
    } else {
      NoRestartBudget(start, from, sweeps, n - 1, span, gap);
      PatienceRunsOut(After(start, sweeps[..n - 1]), sweeps[n - 1], Now(sweeps, n - 2), span, gap);
    }
  }
}
