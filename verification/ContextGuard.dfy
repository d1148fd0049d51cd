/** The fleet context guard's state machine: when to ask for a handoff, when to
    restart a session and when to resume it (src/context-guard.ts). Times are
    epoch milliseconds as exact reals. */
module ContextGuard {
  import opened Prelude

  const READY_TIMEOUT_MS := 300000.0
  const STALE_HANDOFF_SLACK_MS := 180000.0
  const SATURATION_CONFIRM_SWEEPS := 2

  // Minutes in milliseconds.
  function Ms(minutes: real): real {
    60000.0 * minutes
  }

  datatype Config = Config(
    enabled: bool,
    saturationRestart: bool,
    actPct: real,
    hardPct: real,
    limitTokens: Option<int>,
    cooldownMinutes: real,
    handoffTimeoutMinutes: real,
    idleFlushEnabled: bool,
    idleFlushTokens: int,
    idleMinutes: real)

  datatype Staleness = Fresh | Unknown | Stale(minutes: int)

  datatype Phase = Idle | AwaitHandoff | AwaitReady | Cooldown

  datatype State = State(
    phase: Phase,
    handoffMtimeAtRequest: Option<real>,
    deadlineMs: real,
    cooldownUntilMs: real,
    saturatedStreak: int,
    staleness: Staleness)

  const INITIAL := State(Idle, None, 0.0, 0.0, 0, Fresh)

  datatype Inputs = Inputs(
    nowMs: real,
    pct: Option<real>,
    running: bool,
    paneIdle: bool,
    paneBusy: bool,
    sessionReady: bool,
    handoffMtime: Option<real>,
    paneSaturated: bool,
    contextTokens: Option<int>,
    idleMs: Option<real>)

  datatype Action = Wait | RequestHandoff | Restart | InjectResume

  // The reasons the runner distinguishes; every other wording is Other.
  datatype Reason = ActThreshold | IdleFlush | StaleRefresh | Other

  datatype Decision = Decision(action: Action, reason: Reason, next: State)

  function Waiting(next: State): Decision {
    Decision(Wait, Other, next)
  }

  // Math.round: ties go up.
  function Round(x: real): int {
    (x + 0.5).Floor
  }

  function HandoffStaleness(inputs: Inputs): Staleness {
    if inputs.handoffMtime.None? then Fresh
    else if inputs.idleMs.None? then Unknown
    else
      var gap := inputs.nowMs - inputs.idleMs.value - inputs.handoffMtime.value;
      if gap > STALE_HANDOFF_SLACK_MS then Stale(Round(gap / 60000.0)) else Fresh
  }

  function Cooled(nowMs: real, cfg: Config): State {
    State(Cooldown, None, 0.0, nowMs + Ms(cfg.cooldownMinutes), 0, Fresh)
  }

  function RestartNow(nowMs: real, staleness: Staleness): Decision {
    Decision(Restart, Other, State(AwaitReady, None, nowMs + READY_TIMEOUT_MS, 0.0, 0, staleness))
  }

  function HandoffRequest(inputs: Inputs, cfg: Config, reason: Reason): Decision {
    Decision(RequestHandoff, reason,
             State(AwaitHandoff, inputs.handoffMtime, inputs.nowMs + Ms(cfg.handoffTimeoutMinutes), 0.0, 0, Fresh))
  }

  predicate AtHardPct(inputs: Inputs, cfg: Config) {
    inputs.pct.Some? && inputs.pct.value >= cfg.hardPct
  }

  // The two wedge tiers; None when neither applies.
  function DecideWedgeTiers(inputs: Inputs, cfg: Config, cleared: State): Option<Decision>
    requires inputs.pct.Some?
  {
    if inputs.pct.value >= cfg.hardPct then
      Some(if inputs.paneBusy then Waiting(cleared) else RestartNow(inputs.nowMs, HandoffStaleness(inputs)))
    else if inputs.pct.value >= cfg.actPct then Some(HandoffRequest(inputs, cfg, ActThreshold))
    else None
  }

  // The idle-flush tier; None when the session is too light for it.
  function DecideIdleFlush(inputs: Inputs, cfg: Config, cleared: State): Option<Decision> {
    if inputs.contextTokens.None? then Some(Waiting(cleared))
    else if inputs.contextTokens.value < cfg.idleFlushTokens then None
    else if inputs.idleMs.None? then Some(Waiting(cleared))
    else if inputs.idleMs.value < Ms(cfg.idleMinutes) then Some(Waiting(cleared))
    else if !inputs.paneIdle then Some(Waiting(cleared))
    else Some(HandoffRequest(inputs, cfg, IdleFlush))
  }

  function DecideIdle(state: State, inputs: Inputs, cfg: Config): Decision {
    if !inputs.running then Waiting(INITIAL)
    else if cfg.saturationRestart && inputs.paneSaturated then
      var streak := state.saturatedStreak + 1;
      if streak >= SATURATION_CONFIRM_SWEEPS then RestartNow(inputs.nowMs, HandoffStaleness(inputs))
      else Waiting(state.(saturatedStreak := streak))
    else
      var cleared := if state.saturatedStreak > 0 then state.(saturatedStreak := 0) else state;
      var wedge := if cfg.enabled && inputs.pct.Some? then DecideWedgeTiers(inputs, cfg, cleared) else None;
      if wedge.Some? then wedge.value
      else
        var flush := if cfg.idleFlushEnabled then DecideIdleFlush(inputs, cfg, cleared) else None;
        if flush.Some? then flush.value else Waiting(cleared)
  }

  predicate HandoffWritten(state: State, inputs: Inputs) {
    inputs.handoffMtime.Some? &&
    (state.handoffMtimeAtRequest.None? || inputs.handoffMtime.value > state.handoffMtimeAtRequest.value)
  }

  function DecideAwaitHandoff(state: State, inputs: Inputs, cfg: Config): Decision {
    if !cfg.enabled && !cfg.idleFlushEnabled then Waiting(Cooled(inputs.nowMs, cfg))
    else if !inputs.running then Waiting(Cooled(inputs.nowMs, cfg))
    else if cfg.saturationRestart && inputs.paneSaturated then RestartNow(inputs.nowMs, HandoffStaleness(inputs))
    else if HandoffWritten(state, inputs) && inputs.paneIdle then
      var staleness := HandoffStaleness(inputs);
      if staleness.Stale? && inputs.nowMs < state.deadlineMs && !AtHardPct(inputs, cfg) then
        Decision(RequestHandoff, StaleRefresh, state.(handoffMtimeAtRequest := inputs.handoffMtime))
      else RestartNow(inputs.nowMs, staleness)
    else if AtHardPct(inputs, cfg) then
      if inputs.paneBusy then Waiting(state) else RestartNow(inputs.nowMs, HandoffStaleness(inputs))
    else if inputs.nowMs >= state.deadlineMs then
      if inputs.paneBusy then Waiting(state) else RestartNow(inputs.nowMs, HandoffStaleness(inputs))
    else Waiting(state)
  }

  function DecideAwaitReady(state: State, inputs: Inputs, cfg: Config): Decision {
    if inputs.running && inputs.sessionReady then Decision(InjectResume, Other, Cooled(inputs.nowMs, cfg))
    else if inputs.nowMs >= state.deadlineMs then Waiting(Cooled(inputs.nowMs, cfg))
    else Waiting(state)
  }

  predicate Armed(cfg: Config) {
    cfg.enabled || cfg.saturationRestart || cfg.idleFlushEnabled
  }

  /** One guard tick for one agent. */
  function DecideGuard(state: State, inputs: Inputs, cfg: Config): Decision {
    if !Armed(cfg) then Waiting(INITIAL)
    else
      match state.phase
      case Cooldown => if inputs.nowMs >= state.cooldownUntilMs then Waiting(INITIAL) else Waiting(state)
      case Idle => DecideIdle(state, inputs, cfg)
      case AwaitHandoff => DecideAwaitHandoff(state, inputs, cfg)
      case AwaitReady => DecideAwaitReady(state, inputs, cfg)
  }

  // ---- Configuration -----------------------------------------------------------------

  // A parsed JSON value; NoValue covers missing, null, text and non-finite numbers.
  datatype Json = Number(value: real) | Bool(flag: bool) | NoValue

  datatype RawConfig = RawConfig(
    enabled: Json, saturationRestart: Json, actPct: Json, hardPct: Json, limitTokens: Json,
    cooldownMinutes: Json, handoffTimeoutMinutes: Json, idleFlushEnabled: Json, idleFlushTokens: Json,
    idleMinutes: Json)

  function Fraction(v: Json, default: real): real {
    if v.Number? && 0.0 < v.value < 1.0 then v.value else default
  }

  function Minutes(v: Json, default: real): real {
    if v.Number? && v.value > 0.0 then v.value else default
  }

  function Tokens(v: Json): Option<int> {
    if v.Number? && v.value >= 10000.0 then Some(v.value.Floor) else None
  }

  function Normalize(o: RawConfig): Config {
    var actPct := Fraction(o.actPct, 0.90);
    var hardPct := Fraction(o.hardPct, 0.97);
    Config(
      o.enabled == Bool(true),
      o.saturationRestart != Bool(false),
      actPct,
      if hardPct < actPct then actPct else hardPct,
      Tokens(o.limitTokens),
      Minutes(o.cooldownMinutes, 15.0),
      Minutes(o.handoffTimeoutMinutes, 20.0),
      o.idleFlushEnabled == Bool(true),
      Tokens(o.idleFlushTokens).GetOr(400000),
      Minutes(o.idleMinutes, 20.0))
  }

  predicate WellFormed(cfg: Config) {
    && 0.0 < cfg.actPct <= cfg.hardPct < 1.0
    && (cfg.limitTokens.Some? ==> cfg.limitTokens.value >= 10000)
    && cfg.cooldownMinutes > 0.0 && cfg.handoffTimeoutMinutes > 0.0 && cfg.idleMinutes > 0.0
    && cfg.idleFlushTokens >= 10000
  }

  function Store(cfg: Config): RawConfig {
    RawConfig(
      Bool(cfg.enabled), Bool(cfg.saturationRestart), Number(cfg.actPct), Number(cfg.hardPct),
      if cfg.limitTokens.Some? then Number(cfg.limitTokens.value as real) else NoValue,
      Number(cfg.cooldownMinutes), Number(cfg.handoffTimeoutMinutes), Bool(cfg.idleFlushEnabled),
      Number(cfg.idleFlushTokens as real), Number(cfg.idleMinutes))
  }

  /** Whatever JSON is on disk, the guard runs on a well-formed configuration;
      every well-formed one survives being stored and read back, so the
      well-formed configurations are exactly what normalization yields. */
  lemma NormalizeRoundTrip(raw: RawConfig, cfg: Config)
    ensures WellFormed(Normalize(raw))
    ensures WellFormed(cfg) ==> Normalize(Store(cfg)) == cfg
    ensures Normalize(Store(Normalize(raw))) == Normalize(raw)
  {
  }

  // ---- Window calibration ---------------------------------------------------------

  const TIERS := [200000, 500000, 1000000]

  // Observed tokens within 1.25 times the limit are explained by it.
  predicate Explains(limit: int, observed: int) {
    4 * observed <= 5 * limit
  }

  /** Steps an assumed window up to the smallest one that explains what was
      observed, and to the largest tier when none does; never down. */
  method CalibrateLimit(observed: int, base: int) returns (limit: int)
    ensures limit >= base && limit in {base, 200000, 500000, 1000000}
    ensures observed as real <= 1.25 * (base as real) ==> limit == base
    ensures base < 200000 < limit ==> observed > 250000
    ensures base < 500000 < limit ==> observed > 625000
    ensures observed as real > 1.25 * (limit as real) ==> limit >= 1000000
  {
    limit := base;
    for i := 0 to |TIERS|
      invariant limit >= base && (limit == base || limit in TIERS)
      invariant Explains(base, observed) ==> limit == base
      invariant forall j :: 0 <= j < i ==> TIERS[j] <= limit
      invariant forall tier :: tier in TIERS && base < tier < limit ==> !Explains(tier, observed)
      invariant limit > base ==> i > 0 && limit == TIERS[i - 1]
    {
      if Explains(limit, observed) {
        break;
      }
      if TIERS[i] > limit {
        limit := TIERS[i];
      }
    }
    assert TIERS[0] == 200000 && TIERS[1] == 500000 && TIERS[2] == 1000000;
    assert 200000 in TIERS && 500000 in TIERS;
  }
}
