/** Quota pace and its alerts (scripts/usage-collect.py), over the reals. */
module UsagePace {
  import opened Prelude

  const PACE_OVER_RATIO := 1.5
  const PACE_UNDER_RATIO := 0.5
  const PACE_MIN_ELAPSED_FRACTION := 0.15
  const HARD_NEAR_EXHAUSTION := 0.92
  const UNDERUSE_MIN_WINDOW_SEC := 86400.0

  // ---- Pace ------------------------------------------------------------------------

  datatype Pace = Pace(elapsedFraction: real, usedFraction: real, paceRatio: Option<real>, timeRemaining: real,
                       resetsAt: real, projectedExhaustion: Option<real>)

  // One quota window; the fields the provider may not report are optional.
  datatype Window = Window(scope: string, usedPercent: Option<real>, resetsAt: Option<real>, length: real)

  function ElapsedFraction(length: real, remaining: real): real
    requires length != 0.0
  {
    Max(0.0, Min(1.0, (length - remaining) / length))
  }

  function Scaled(fraction: real, length: real): real { fraction * length }

  function Ratio(used: real, elapsedFraction: real): real
    requires elapsedFraction > 0.0
  {
    used / elapsedFraction
  }

  function UsedFraction(percent: real): real { Max(0.0, percent / 100.0) }

  // When use reaches the whole quota at the burn rate so far.
  function Projection(now: real, used: real, elapsed: real): real
    requires used > 0.0 && elapsed > 0.0
  {
    PositiveQuotient(used, elapsed);
    now + (1.0 - used) / (used / elapsed)
  }

  function ComputePace(w: Window, now: real): Option<Pace> {
    if w.usedPercent.None? || w.resetsAt.None? || w.length == 0.0 then None
    else
      var remaining := w.resetsAt.value - now;
      var elapsedFraction := ElapsedFraction(w.length, remaining);
      var elapsed := Scaled(elapsedFraction, w.length);
      var used := UsedFraction(w.usedPercent.value);
      Some(Pace(elapsedFraction, used,
                if elapsedFraction > 0.000001 then Some(Ratio(used, elapsedFraction)) else None,
                remaining, w.resetsAt.value,
                if elapsed > 0.000001 && used > 0.0 then Some(Projection(now, used, elapsed)) else None))
  }

  predicate TooEarly(p: Pace) {
    p.paceRatio.None? || p.elapsedFraction < PACE_MIN_ELAPSED_FRACTION
  }

  predicate Overuse(p: Pace) {
    p.paceRatio.Some? && p.paceRatio.value >= PACE_OVER_RATIO
    && p.projectedExhaustion.Some? && p.projectedExhaustion.value < p.resetsAt
  }

  // ---- Arithmetic ----------------------------------------------------------------------

  lemma RatioAtLeast(u: real, e: real, k: real)
    requires e > 0.0
    ensures Ratio(u, e) >= k <==> u >= k * e
  {
    var q := u / e;
    assert q * e == u;
    if q < k { StrictProductOrder(q, k, e); }
    if k <= q { ProductOrder(k, q, e); }
    assert q >= k <==> u >= k * e;
  }

  lemma ProductOrder(a: real, b: real, c: real)
    requires a <= b && c >= 0.0
    ensures a * c <= b * c
  {
  }

  lemma StrictProductOrder(a: real, b: real, c: real)
    requires a < b && c > 0.0
    ensures a * c < b * c
  {
  }

  // Dividing by a rate: (1 - u) / (u / s) is (1 - u) * s / u.
  lemma TimeToExhaustion(u: real, s: real, t: real)
    requires u > 0.0 && s > 0.0 && u / s > 0.0
    ensures (1.0 - u) / (u / s) < t <==> (1.0 - u) * s < u * t
  {
    var rate := u / s;
    var left := (1.0 - u) / rate;
    assert rate * s == u;
    assert left * rate == 1.0 - u;
    assert (1.0 - u) * s == left * rate * s == left * u by { Reassociate(left, rate, s); }
    if left < t { StrictProductOrder(left, t, u); } else { ProductOrder(t, left, u); }
  }

  lemma Reassociate(a: real, b: real, c: real)
    ensures a * b * c == a * (b * c)
  {
  }

  lemma PositiveQuotient(a: real, b: real)
    requires a > 0.0 && b > 0.0
    ensures a / b > 0.0
  {
    var q := a / b;
    assert q * b == a;
    if q <= 0.0 { ProductOrder(q, 0.0, b); }
  }

  // The elapsed part of an open window, in seconds, and of an expired one.
  lemma ElapsedSeconds(length: real, remaining: real)
    requires length > 0.0
    ensures var e := ElapsedFraction(length, remaining);
            && (remaining < 0.0 ==> e == 1.0) && (remaining > length ==> e == 0.0)
            && (0.0 <= remaining <= length ==> Scaled(e, length) == length - remaining)
  {
    var q := (length - remaining) / length;
    assert q * length == length - remaining;
    assert q == Ratio(length - remaining, length);
    RatioAtLeast(length - remaining, length, 1.0);
    RatioAtLeast(length - remaining, length, 0.0);
  }

  // Running out before the reset, without the division.
  lemma RunsOutIff(u: real, length: real, remaining: real, elapsed: real)
    requires elapsed == length - remaining
    ensures (1.0 - u) * elapsed < u * remaining <==> elapsed < u * length
  {
    assert (1.0 - u) * elapsed == elapsed - u * elapsed;
    assert u * elapsed + u * remaining == u * length by { Distribute(u, elapsed, remaining); }
  }

  lemma Distribute(a: real, b: real, c: real)
    ensures a * b + a * c == a * (b + c)
  {
  }

  // Before the reset nothing more is asked; after it, use must outgrow the overrun.
  predicate StillRunsOut(used: real, length: real, remaining: real) {
    remaining >= 0.0 || used * (length + remaining) > length
  }

  /** The OVERUSE condition without its projection. Past the early guard it holds
      exactly when use is at least 1.5 times the elapsed part and, once the reset
      time has passed, use times (length plus the negative rest) still exceeds
      the length; the middle clause only rules out windows of microseconds. */
  lemma OveruseMeaning(w: Window, now: real)
    requires ComputePace(w, now).Some? && !TooEarly(ComputePace(w, now).value) && w.length > 0.0
    ensures var p := ComputePace(w, now).value;
            Overuse(p) <==>
              && p.usedFraction >= 1.5 * p.elapsedFraction
              && Scaled(p.elapsedFraction, w.length) > 0.000001
              && StillRunsOut(p.usedFraction, w.length, p.timeRemaining)
  {
    hide ComputePace, Projection, Ratio, Scaled, StillRunsOut;
    var p := ComputePace(w, now).value;
    var u, e, remaining := p.usedFraction, p.elapsedFraction, p.timeRemaining;
    PaceShape(w, now);
    RatioAtLeast(u, e, 1.5);
    var s := Scaled(e, w.length);
    if u >= 1.5 * e && s > 0.000001 {
      ProjectionBefore(now, u, s, p.resetsAt, remaining);
      ProjectionMeaning(u, e, w.length, remaining, s);
    } else if s > 0.000001 {
      assert p.paceRatio.value < PACE_OVER_RATIO;
    } else {
      assert p.projectedExhaustion.None?;
    }
  }

  // The parts of a pace past the early guard.
  lemma PaceShape(w: Window, now: real)
    requires ComputePace(w, now).Some? && !TooEarly(ComputePace(w, now).value) && w.length > 0.0
    ensures var p := ComputePace(w, now).value; var s := Scaled(p.elapsedFraction, w.length);
            && p.elapsedFraction > 0.0 && p.paceRatio == Some(Ratio(p.usedFraction, p.elapsedFraction))
            && p.projectedExhaustion ==
                 (if s > 0.000001 && p.usedFraction > 0.0 then Some(Projection(now, p.usedFraction, s)) else None)
            && p.resetsAt - now == p.timeRemaining
            && (if p.timeRemaining < 0.0 then p.elapsedFraction == 1.0
                else p.timeRemaining <= w.length && s == w.length - p.timeRemaining)
  {
    hide Projection, Overuse, ElapsedFraction, Scaled, Ratio, UsedFraction;
    ElapsedSeconds(w.length, w.resetsAt.value - now);
  }

  lemma ProjectionBefore(now: real, u: real, s: real, reset: real, remaining: real)
    requires u > 0.0 && s > 0.0 && remaining == reset - now
    ensures Projection(now, u, s) < reset <==> (1.0 - u) * s < u * remaining
  {
    PositiveQuotient(u, s);
    TimeToExhaustion(u, s, remaining);
  }

  lemma ProjectionMeaning(u: real, e: real, length: real, remaining: real, s: real)
    requires e > 0.0 && u >= 1.5 * e && length > 0.0 && s == Scaled(e, length)
    requires if remaining < 0.0 then e == 1.0 else remaining <= length && s == length - remaining
    ensures (1.0 - u) * s < u * remaining <==> StillRunsOut(u, length, remaining)
  {
    if remaining >= 0.0 {
      RunsOutIff(u, length, remaining, s);
      StrictProductOrder(e, u, length);
    } else {
      Distribute(u, length, remaining);
      assert (1.0 - u) * s == s - u * s;
    }
  }

  /** For an open window of at least a second past the early guard, OVERUSE means
      exactly that use is at least 1.5 times the elapsed part: projected
      exhaustion before the reset adds nothing. */
  lemma OpenWindowOveruse(w: Window, now: real)
    requires ComputePace(w, now).Some? && !TooEarly(ComputePace(w, now).value) && w.length >= 1.0
    requires ComputePace(w, now).value.timeRemaining >= 0.0
    ensures var p := ComputePace(w, now).value; Overuse(p) <==> p.usedFraction >= 1.5 * p.elapsedFraction
  {
    OveruseMeaning(w, now);
    ProductOrder(1.0, w.length, ComputePace(w, now).value.elapsedFraction);
  }

  // ---- De-duplication -----------------------------------------------------------------------

  datatype Entry = Entry(active: bool, lastFired: Option<real>)

  datatype Style = Cross | CrossRefire | Throttle

  datatype Kind = Near | Over | Under

  datatype Alert = Alert(scope: string, kind: Kind)

  function StyleOf(kind: Kind): Style { if kind == Under then Throttle else CrossRefire }

  function RefireOf(kind: Kind): real { if kind == Under then 43200.0 else 2700.0 }

  function Suffix(kind: Kind): string {
    match kind
    case Near => "_near_exhaustion"
    case Over => "_over"
    case Under => "_under"
  }

  function KeyOf(scope: string, kind: Kind): string { scope + Suffix(kind) }

  /** The three alert kinds of all windows never share a de-duplication entry. */
  lemma KeyIsInjective(a: string, k: Kind, b: string, l: Kind)
    requires KeyOf(a, k) == KeyOf(b, l)
    ensures a == b && k == l
  {
    var s := KeyOf(a, k);
    assert s[|s| - 4] == Suffix(k)[|Suffix(k)| - 4] && s[|s| - 4] == Suffix(l)[|Suffix(l)| - 4];
    assert k == l;
    assert a == s[..|s| - |Suffix(k)|] && b == s[..|s| - |Suffix(l)|];
  }

  function Lookup(state: map<string, Entry>, key: string): Entry {
    if key in state then state[key] else Entry(false, None)
  }

  predicate Fires(e: Entry, condition: bool, style: Style, now: real, refire: real) {
    && condition
    && match style
       case Cross => !e.active
       case CrossRefire => !e.active || (e.lastFired.Some? && now - e.lastFired.value >= refire)
       case Throttle => e.lastFired.None? || now - e.lastFired.value >= refire
  }

  function Next(e: Entry, condition: bool, style: Style, now: real, refire: real): Entry {
    if !condition then Entry(false, None)
    else Entry(true, if Fires(e, condition, style, now, refire) then Some(now) else e.lastFired)
  }

  // An entry is active exactly while it remembers a firing.
  predicate Healthy(e: Entry) { e.active <==> e.lastFired.Some? }

  /** Crossing with refire and throttling are the same rule on every entry that
      runs of either produce; and both keep entries that way. */
  lemma StylesAgree(e: Entry, condition: bool, now: real, refire: real)
    requires Healthy(e)
    ensures Fires(e, condition, CrossRefire, now, refire) == Fires(e, condition, Throttle, now, refire)
    ensures Next(e, condition, CrossRefire, now, refire) == Next(e, condition, Throttle, now, refire)
    ensures Healthy(Next(e, condition, CrossRefire, now, refire))
  {
  }

  /** Plain crossing fires on a rising edge: after any evaluation, the next fires if
      and only if its condition holds and the one before did not. A throttled alert
      whose condition goes on holding fires when the interval since it last fired has
      passed. */
  lemma NextFires(e: Entry, before: bool, condition: bool, then0: real, now: real, refire: real)
    ensures Fires(Next(e, before, Cross, then0, refire), condition, Cross, now, refire) <==> condition && !before
    ensures before && Fires(e, before, Throttle, then0, refire) ==>
              (Fires(Next(e, before, Throttle, then0, refire), condition, Throttle, now, refire) <==>
                 condition && now - then0 >= refire)
  {
  }

  // ---- One collection ---------------------------------------------------------------------------

  // What this window says about a kind of alert, if it says anything.
  function Verdict(w: Window, now: real, kind: Kind): Option<bool> {
    var pace := ComputePace(w, now);
    if pace.None? then None
    else
      var p := pace.value;
      match kind
      case Near => Some(p.usedFraction >= HARD_NEAR_EXHAUSTION)
      case Over => Some(!TooEarly(p) && Overuse(p))
      case Under =>
        if w.length < UNDERUSE_MIN_WINDOW_SEC then None
        else Some(!TooEarly(p) && p.paceRatio.value <= PACE_UNDER_RATIO)
  }

  // The part of the window that has passed, in seconds.
  function Elapsed(w: Window, now: real): real
    requires w.resetsAt.Some?
  {
    var passed := w.length - (w.resetsAt.value - now);
    if passed < 0.0 then 0.0 else if passed > w.length then w.length else passed
  }

  /** What each alert says of a window of positive length, in reported percent and
      seconds. Nothing is said when the provider reports no use or no reset, and
      underuse only of windows of a day or more. Near exhaustion is 92 percent.
      The others need 15 percent of the window to have passed: overuse is use of at
      least one and a half times the elapsed part -- and, once the reset time is
      past, enough to outgrow the overrun --, underuse at most half of it. */
  lemma VerdictMeaning(w: Window, now: real)
    requires w.length > 0.0
    ensures w.usedPercent == None || w.resetsAt == None ==> forall k :: Verdict(w, now, k) == None
    ensures w.usedPercent.Some? && w.resetsAt.Some? ==>
              var percent, remaining, passed := w.usedPercent.value, w.resetsAt.value - now, Elapsed(w, now);
              var late := 100.0 * passed >= 15.0 * w.length;
              && Verdict(w, now, Near) == Some(percent >= 92.0)
              && Verdict(w, now, Over) ==
                   Some(late && percent * w.length >= 150.0 * passed && passed > 0.000001 &&
                        (remaining >= 0.0 || percent * (w.length + remaining) > 100.0 * w.length))
              && Verdict(w, now, Under) ==
                   if w.length < 86400.0 then None else Some(late && percent * w.length <= 50.0 * passed)
  {
    if w.usedPercent.Some? && w.resetsAt.Some? {
      NearMeaning(w, now);
      OverMeaning(w, now);
      UnderMeaning(w, now);
    }
  }

  lemma NearMeaning(w: Window, now: real)
    requires w.length > 0.0 && w.usedPercent.Some? && w.resetsAt.Some?
    ensures Verdict(w, now, Near) == Some(w.usedPercent.value >= 92.0)
  {
    hide ElapsedFraction, Scaled, Ratio, Projection;
  }

  // The elapsed fraction in seconds, and the early guard on it.
  lemma ElapsedIs(w: Window, now: real)
    requires w.length > 0.0 && w.usedPercent.Some? && w.resetsAt.Some?
    ensures ComputePace(w, now).Some?
    ensures var p := ComputePace(w, now).value;
            && Scaled(p.elapsedFraction, w.length) == Elapsed(w, now) && p.timeRemaining == w.resetsAt.value - now
            && p.usedFraction == (if w.usedPercent.value >= 0.0 then w.usedPercent.value / 100.0 else 0.0)
            && (!TooEarly(p) <==> 100.0 * Elapsed(w, now) >= 15.0 * w.length)
            && (!TooEarly(p) ==>
                  p.paceRatio == Some(Ratio(p.usedFraction, p.elapsedFraction)) && p.elapsedFraction > 0.0)
  {
    hide Projection, Ratio;
    var remaining := w.resetsAt.value - now;
    ElapsedSeconds(w.length, remaining);
    var e := ElapsedFraction(w.length, remaining);
    AtLeastScaled(e, 0.15, w.length);
    hide ElapsedFraction;
  }

  lemma AtLeastScaled(e: real, k: real, length: real)
    requires length > 0.0
    ensures e >= k <==> Scaled(e, length) >= k * length
  {
    if e >= k { ProductOrder(k, e, length); } else { StrictProductOrder(e, k, length); }
  }

  // A multiple of the elapsed fraction, without the division.
  lemma UseAgainst(percent: real, e: real, k: real, length: real)
    requires length > 0.0
    ensures percent / 100.0 >= k * e <==> percent * length >= 100.0 * k * Scaled(e, length)
    ensures percent / 100.0 <= k * e <==> percent * length <= 100.0 * k * Scaled(e, length)
  {
    var u, v := percent / 100.0, k * e;
    assert percent * length == 100.0 * (u * length) by { Reassociate(100.0, u, length); }
    assert v * length == k * Scaled(e, length) by { Reassociate(k, e, length); }
    if u < v { StrictProductOrder(u, v, length); }
    if u > v { StrictProductOrder(v, u, length); }
  }

  lemma OverMeaning(w: Window, now: real)
    requires w.length > 0.0 && w.usedPercent.Some? && w.resetsAt.Some?
    ensures var percent, remaining, passed := w.usedPercent.value, w.resetsAt.value - now, Elapsed(w, now);
            Verdict(w, now, Over) ==
              Some(100.0 * passed >= 15.0 * w.length && percent * w.length >= 150.0 * passed && passed > 0.000001 &&
                   (remaining >= 0.0 || percent * (w.length + remaining) > 100.0 * w.length))
  {
    ElapsedIs(w, now);
    var p := ComputePace(w, now).value;
    if !TooEarly(p) {
      OveruseMeaning(w, now);
      OverInPercent(w.usedPercent.value, p.elapsedFraction, w.length, p.timeRemaining);
    }
    hide ComputePace, Overuse, Elapsed, StillRunsOut;
  }

  lemma OverInPercent(percent: real, e: real, length: real, remaining: real)
    requires length > 0.0 && e > 0.0
    ensures var used := if percent >= 0.0 then percent / 100.0 else 0.0;
            used >= 1.5 * e && StillRunsOut(used, length, remaining) <==>
              percent * length >= 150.0 * Scaled(e, length) &&
              (remaining >= 0.0 || percent * (length + remaining) > 100.0 * length)
  {
    UseAgainst(percent, e, 1.5, length);
    if percent >= 0.0 {
      Reassociate(100.0, percent / 100.0, length + remaining);
    } else {
      StrictProductOrder(percent, 0.0, length);
      StrictProductOrder(0.0, e, length);
    }
  }

  lemma UnderMeaning(w: Window, now: real)
    requires w.length > 0.0 && w.usedPercent.Some? && w.resetsAt.Some?
    ensures var percent, passed := w.usedPercent.value, Elapsed(w, now);
            Verdict(w, now, Under) ==
              if w.length < 86400.0 then None
              else Some(100.0 * passed >= 15.0 * w.length && percent * w.length <= 50.0 * passed)
  {
    ElapsedIs(w, now);
    var p, percent := ComputePace(w, now).value, w.usedPercent.value;
    if !TooEarly(p) {
      RatioAtMost(p.usedFraction, p.elapsedFraction, 0.5);
      UseAgainst(percent, p.elapsedFraction, 0.5, w.length);
      if percent < 0.0 {
        StrictProductOrder(percent, 0.0, w.length);
        StrictProductOrder(0.0, p.elapsedFraction, w.length);
      }
    }
    hide ComputePace, Elapsed, Scaled, Ratio;
  }

  lemma RatioAtMost(u: real, e: real, k: real)
    requires e > 0.0
    ensures Ratio(u, e) <= k <==> u <= k * e
  {
    var q := u / e;
    assert q * e == u;
    if q > k { StrictProductOrder(k, q, e); } else { ProductOrder(q, k, e); }
  }

  datatype Outcome = Outcome(state: map<string, Entry>, alerts: seq<Alert>)

  // One verdict passed through the de-duplication.
  function Gate(o: Outcome, scope: string, kind: Kind, verdict: Option<bool>, now: real): Outcome {
    if verdict.None? then o
    else
      var e := Lookup(o.state, KeyOf(scope, kind));
      Outcome(o.state[KeyOf(scope, kind) := Next(e, verdict.value, StyleOf(kind), now, RefireOf(kind))],
              if Fires(e, verdict.value, StyleOf(kind), now, RefireOf(kind)) then o.alerts + [Alert(scope, kind)]
              else o.alerts)
  }

  function EvalWindow(o: Outcome, w: Window, now: real): Outcome {
    var near := Gate(o, w.scope, Near, Verdict(w, now, Near), now);
    var over := Gate(near, w.scope, Over, Verdict(w, now, Over), now);
    Gate(over, w.scope, Under, Verdict(w, now, Under), now)
  }

  function EvalUpTo(state: map<string, Entry>, windows: seq<Window>, now: real, n: nat): Outcome
    requires n <= |windows|
  {
    if n == 0 then Outcome(state, []) else EvalWindow(EvalUpTo(state, windows, now, n - 1), windows[n - 1], now)
  }

  predicate DistinctScopes(windows: seq<Window>) {
    forall i, j :: 0 <= i < j < |windows| ==> windows[i].scope != windows[j].scope
  }

  // The verdict the first n windows hold for a scope.
  function VerdictOf(windows: seq<Window>, now: real, scope: string, kind: Kind, n: nat): Option<bool>
    requires n <= |windows|
  {
    if n == 0 then None
    else if windows[n - 1].scope == scope then Verdict(windows[n - 1], now, kind)
    else VerdictOf(windows, now, scope, kind, n - 1)
  }

  lemma GateFrame(o: Outcome, scope: string, kind: Kind, verdict: Option<bool>, now: real, s: string, k: Kind)
    ensures var g, key := Gate(o, scope, kind, verdict, now), KeyOf(s, k);
            && ((s != scope || k != kind || verdict.None?) ==>
                  Lookup(g.state, key) == Lookup(o.state, key) &&
                    (Alert(s, k) in g.alerts <==> Alert(s, k) in o.alerts))
            && (s == scope && k == kind && verdict.Some? ==>
                  Lookup(g.state, key) == Next(Lookup(o.state, key), verdict.value, StyleOf(k), now, RefireOf(k)) &&
                  (Alert(s, k) in g.alerts <==>
                     Alert(s, k) in o.alerts ||
                     Fires(Lookup(o.state, key), verdict.value, StyleOf(k), now, RefireOf(k))))
  {
    hide Fires, Next;
    if KeyOf(s, k) == KeyOf(scope, kind) {
      KeyIsInjective(s, k, scope, kind);
    }
  }

  lemma WindowFrame(o: Outcome, w: Window, now: real, s: string, k: Kind)
    ensures var g, key, v := EvalWindow(o, w, now), KeyOf(s, k), Verdict(w, now, k);
            && ((s != w.scope || v.None?) ==>
                  Lookup(g.state, key) == Lookup(o.state, key) &&
                    (Alert(s, k) in g.alerts <==> Alert(s, k) in o.alerts))
            && (s == w.scope && v.Some? ==>
                  Lookup(g.state, key) == Next(Lookup(o.state, key), v.value, StyleOf(k), now, RefireOf(k)) &&
                  (Alert(s, k) in g.alerts <==>
                     Alert(s, k) in o.alerts || Fires(Lookup(o.state, key), v.value, StyleOf(k), now, RefireOf(k))))
  {
    hide Gate, Verdict, Fires, Next, Lookup, KeyOf;
    var near := Gate(o, w.scope, Near, Verdict(w, now, Near), now);
    var over := Gate(near, w.scope, Over, Verdict(w, now, Over), now);
    GateFrame(o, w.scope, Near, Verdict(w, now, Near), now, s, k);
    GateFrame(near, w.scope, Over, Verdict(w, now, Over), now, s, k);
    GateFrame(over, w.scope, Under, Verdict(w, now, Under), now, s, k);
  }

  lemma {:induction false} VerdictAbsent(windows: seq<Window>, now: real, scope: string, kind: Kind, n: nat)
    requires n <= |windows| && forall i :: 0 <= i < n ==> windows[i].scope != scope
    ensures VerdictOf(windows, now, scope, kind, n) == None
  {
    if n > 0 {
      VerdictAbsent(windows, now, scope, kind, n - 1);
    }
  }

  /** One collection treats every scope and kind on its own: the alert is raised
      exactly if the scope's verdict fires against the entry left by earlier
      collections, and only that entry moves. */
  lemma {:induction false} CollectionMeaning(state: map<string, Entry>, windows: seq<Window>, now: real, n: nat,
                                             s: string, k: Kind)
    requires n <= |windows| && DistinctScopes(windows)
    ensures var o, e := EvalUpTo(state, windows, now, n), Lookup(state, KeyOf(s, k));
            var v := VerdictOf(windows, now, s, k, n);
            && Lookup(o.state, KeyOf(s, k)) == (if v.None? then e else Next(e, v.value, StyleOf(k), now, RefireOf(k)))
            && (Alert(s, k) in o.alerts <==> v.Some? && Fires(e, v.value, StyleOf(k), now, RefireOf(k)))
  {
    hide Verdict, EvalWindow, Fires, Next, Lookup, KeyOf;
    if n > 0 {
      CollectionMeaning(state, windows, now, n - 1, s, k);
      WindowFrame(EvalUpTo(state, windows, now, n - 1), windows[n - 1], now, s, k);
      if windows[n - 1].scope == s {
        VerdictAbsent(windows, now, s, k, n - 1);
      }
    }
  }

  // ---- Runs of collections ---------------------------------------------------------------------------

  datatype Sweep = Sweep(windows: seq<Window>, now: real)

  function StateAt(state: map<string, Entry>, sweeps: seq<Sweep>, n: nat): map<string, Entry>
    requires n <= |sweeps|
  {
    if n == 0 then state
    else
      var sweep := sweeps[n - 1];
      EvalUpTo(StateAt(state, sweeps, n - 1), sweep.windows, sweep.now, |sweep.windows|).state
  }

  predicate AlertAt(state: map<string, Entry>, sweeps: seq<Sweep>, i: nat, s: string, k: Kind)
    requires i < |sweeps|
  {
    Alert(s, k) in EvalUpTo(StateAt(state, sweeps, i), sweeps[i].windows, sweeps[i].now, |sweeps[i].windows|).alerts
  }

  function VerdictAt(sweeps: seq<Sweep>, i: nat, s: string, k: Kind): Option<bool>
    requires i < |sweeps|
  {
    VerdictOf(sweeps[i].windows, sweeps[i].now, s, k, |sweeps[i].windows|)
  }

  // The latest alert before sweep n that no false verdict has followed yet.
  function Standing(state: map<string, Entry>, sweeps: seq<Sweep>, n: nat, s: string, k: Kind): (r: Option<nat>)
    requires n <= |sweeps|
    ensures r.Some? ==> r.value < n
  {
    if n == 0 then None
    else
      var v := VerdictAt(sweeps, n - 1, s, k);
      if v == Some(false) then None
      else if AlertAt(state, sweeps, n - 1, s, k) then Some(n - 1)
      else Standing(state, sweeps, n - 1, s, k)
  }

  lemma StandingStep(state: map<string, Entry>, sweeps: seq<Sweep>, i: nat, s: string, k: Kind)
    requires i < |sweeps| && DistinctScopes(sweeps[i].windows)
    ensures var e, v := Lookup(StateAt(state, sweeps, i), KeyOf(s, k)), VerdictAt(sweeps, i, s, k);
            && Lookup(StateAt(state, sweeps, i + 1), KeyOf(s, k))
            == (if v.None? then e else Next(e, v.value, StyleOf(k), sweeps[i].now, RefireOf(k)))
            && (AlertAt(state, sweeps, i, s, k) <==>
                  v.Some? && Fires(e, v.value, StyleOf(k), sweeps[i].now, RefireOf(k)))
  {
    hide Fires, Next, Lookup, KeyOf;
    CollectionMeaning(StateAt(state, sweeps, i), sweeps[i].windows, sweeps[i].now, |sweeps[i].windows|, s, k);
  }

  // The entry remembers exactly the standing alert.
  lemma {:induction false} EntryIsStanding(state: map<string, Entry>, sweeps: seq<Sweep>, n: nat, s: string, k: Kind)
    requires n <= |sweeps| && KeyOf(s, k) !in state && forall i :: 0 <= i < n ==> DistinctScopes(sweeps[i].windows)
    ensures Lookup(StateAt(state, sweeps, n), KeyOf(s, k)) ==
              match Standing(state, sweeps, n, s, k)
              case None => Entry(false, None)
              case Some(j) => Entry(true, Some(sweeps[j].now))
  {
    hide VerdictAt, AlertAt, KeyOf, StateAt;
    if n > 0 {
      EntryIsStanding(state, sweeps, n - 1, s, k);
      StandingStep(state, sweeps, n - 1, s, k);
    } else {
      StateAtStart(state, sweeps);
    }
  }

  lemma StateAtStart(state: map<string, Entry>, sweeps: seq<Sweep>)
    ensures StateAt(state, sweeps, 0) == state
  {
  }

  // A false verdict strictly between two sweeps.
  ghost predicate ClearedBetween(sweeps: seq<Sweep>, j: nat, i: nat, s: string, k: Kind)
    requires i <= |sweeps|
  {
    exists m: nat :: j < m < i && VerdictAt(sweeps, m, s, k) == Some(false)
  }

  lemma {:induction false} StandingMeaning(state: map<string, Entry>, sweeps: seq<Sweep>, n: nat, s: string, k: Kind)
    requires n <= |sweeps| && forall i :: 0 <= i < n ==> DistinctScopes(sweeps[i].windows)
    ensures var r := Standing(state, sweeps, n, s, k);
            && (r.Some? ==> AlertAt(state, sweeps, r.value, s, k) && !ClearedBetween(sweeps, r.value, n, s, k))
            && (forall j: nat :: j < n && AlertAt(state, sweeps, j, s, k) && !ClearedBetween(sweeps, j, n, s, k) ==>
                  r.Some? && j <= r.value)
  {
    hide VerdictAt, AlertAt, KeyOf, StateAt, Lookup;
    if n > 0 {
      StandingMeaning(state, sweeps, n - 1, s, k);
      StandingStep(state, sweeps, n - 1, s, k);
      forall j: nat | j < n - 1
        ensures ClearedBetween(sweeps, j, n, s, k) <==>
                  ClearedBetween(sweeps, j, n - 1, s, k) || VerdictAt(sweeps, n - 1, s, k) == Some(false)
      {
      }
    }
  }

  predicate Clocked(sweeps: seq<Sweep>) {
    forall i, j :: 0 <= i < j < |sweeps| ==> sweeps[i].now <= sweeps[j].now
  }

  /** When an alert is raised, exactly: its verdict is true, and every earlier
      alert of the same scope and kind is either at least the refire interval old,
      three quarters of an hour or for underuse half a day, or was followed by a
      false verdict. So between two alerts the interval
      passed or the condition was false in between, and no due alert is missed. */
  lemma AlertIff(state: map<string, Entry>, sweeps: seq<Sweep>, i: nat, s: string, k: Kind)
    requires i < |sweeps| && KeyOf(s, k) !in state && Clocked(sweeps)
    requires forall m :: 0 <= m < |sweeps| ==> DistinctScopes(sweeps[m].windows)
    ensures AlertAt(state, sweeps, i, s, k) <==>
              VerdictAt(sweeps, i, s, k) == Some(true) &&
              forall j: nat :: j < i && AlertAt(state, sweeps, j, s, k) ==>
                ClearedBetween(sweeps, j, i, s, k) ||
                sweeps[i].now - sweeps[j].now >= if k == Under then 43200.0 else 2700.0
  {
    hide VerdictAt, AlertAt, KeyOf, StateAt, Lookup, ClearedBetween, Standing;
    EntryIsStanding(state, sweeps, i, s, k);
    StandingMeaning(state, sweeps, i, s, k);
    StandingStep(state, sweeps, i, s, k);
  }

  // ---- The program ----------------------------------------------------------------------------------------

  class AlertGate {
    var state: map<string, Entry>

    constructor ()
      ensures state == map[]
    {
      state := map[];
    }

    method ShouldFire(key: string, condition: bool, style: Style, now: real, refire: real) returns (fire: bool)
      modifies this
      ensures fire == Fires(Lookup(old(state), key), condition, style, now, refire)
      ensures state == old(state)[key := Next(Lookup(old(state), key), condition, style, now, refire)]
    {
      var entry := if key in state then state[key] else Entry(false, None);
      fire := false;
      if condition {
        match style {
          case Cross => fire := !entry.active;
          case CrossRefire =>
            if !entry.active {
              fire := true;
            } else if entry.lastFired.Some? && now - entry.lastFired.value >= refire {
              fire := true;
            }
          case Throttle => fire := entry.lastFired.None? || now - entry.lastFired.value >= refire;
        }
        entry := entry.(active := true);
        if fire {
          entry := entry.(lastFired := Some(now));
        }
      } else {
        entry := Entry(false, None);
      }
      state := state[key := entry];
    }

    // The body of the loop over windows: the alerts this window adds.
    method EvaluateWindow(w: Window, now: real) returns (raised: seq<Alert>)
      modifies this
      ensures var o := EvalWindow(Outcome(old(state), []), w, now); state == o.state && raised == o.alerts
    {
      raised := [];
      var pace := ComputePace(w, now);
      if pace.None? {
        return;
      }
      hide ComputePace, Overuse, Fires, Next, Lookup;
      var p := pace.value;
      var underuseEligible := w.length >= UNDERUSE_MIN_WINDOW_SEC;
      var fire := ShouldFire(KeyOf(w.scope, Near), p.usedFraction >= HARD_NEAR_EXHAUSTION, CrossRefire, now, 2700.0);
      if fire {
        raised := raised + [Alert(w.scope, Near)];
      }
      if TooEarly(p) {
        fire := ShouldFire(KeyOf(w.scope, Over), false, CrossRefire, now, 2700.0);
        FalseNeverFires();
        if underuseEligible {
          fire := ShouldFire(KeyOf(w.scope, Under), false, Throttle, now, 43200.0);
        }
        return;
      }
      fire := ShouldFire(KeyOf(w.scope, Over), Overuse(p), CrossRefire, now, 2700.0);
      if fire {
        raised := raised + [Alert(w.scope, Over)];
      }
      if underuseEligible {
        fire := ShouldFire(KeyOf(w.scope, Under), p.paceRatio.value <= PACE_UNDER_RATIO, Throttle, now, 43200.0);
        if fire {
          raised := raised + [Alert(w.scope, Under)];
        }
      }
    }

    method ComputeAlerts(windows: seq<Window>, now: real) returns (alerts: seq<Alert>)
      modifies this
      ensures var o := EvalUpTo(old(state), windows, now, |windows|); state == o.state && alerts == o.alerts
    {
      alerts := [];
      for i := 0 to |windows|
        invariant EvalUpTo(old(state), windows, now, i) == Outcome(state, alerts)
      {
        AlertsAppend(Outcome(state, alerts), windows[i], now);
        var raised := EvaluateWindow(windows[i], now);
        alerts := alerts + raised;
      }
    }
  }

  lemma FalseNeverFires()
    ensures forall e: Entry, style: Style, now: real, refire: real :: !Fires(e, false, style, now, refire)
  {
  }

  // Alerts raised earlier do not influence a window.
  lemma AlertsAppend(o: Outcome, w: Window, now: real)
    ensures var alone := EvalWindow(Outcome(o.state, []), w, now);
            EvalWindow(o, w, now) == Outcome(alone.state, o.alerts + alone.alerts)
  {
    hide Verdict, Fires, Next, Lookup;
  }
}
