/** The canonical seven-state card workflow, its lossy projection onto the five
    legacy statuses, and the rules that resolve the state a caller asks for
    (src/kanban-workflow.ts). */
module KanbanWorkflow {
  import opened Prelude

  datatype State = New | Ready | Running | Verify | Repair | Blocked | Done

  datatype Status = Planned | InProgress | Testing | Waiting | Finished

  function StateOf(status: Status): State {
    match status
    case Planned => Ready
    case InProgress => Running
    case Testing => Verify
    case Waiting => Blocked
    case Finished => Done
  }

  function StatusOf(state: State): Status {
    match state
    case New => Planned
    case Ready => Planned
    case Running => InProgress
    case Verify => Testing
    case Repair => Testing
    case Blocked => Waiting
    case Done => Finished
  }

  function Edges(from: State): set<State> {
    match from
    case New => {Ready, Blocked}
    case Ready => {Running, Blocked}
    case Running => {Verify, Blocked}
    case Verify => {Done, Repair, Blocked}
    case Repair => {Verify, Blocked}
    case Blocked => {Ready}
    case Done => {}
  }

  predicate Compatible(state: State, status: Status) {
    StatusOf(state) == status
  }

  // The same relation as the database triggers spell it out, pair by pair.
  predicate TriggerCompatible(status: Status, state: State) {
    || (status == Planned && state in {New, Ready})
    || (status == InProgress && state == Running)
    || (status == Testing && state in {Verify, Repair})
    || (status == Waiting && state == Blocked)
    || (status == Finished && state == Done)
  }

  // The projection loses exactly two distinctions, its section StateOf picks
  // one state per bucket, and the triggers' list is the projection's graph.
  lemma ProjectionShape(state: State, other: State, status: Status)
    ensures StatusOf(StateOf(status)) == status
    ensures TriggerCompatible(status, state) <==> Compatible(state, status)
    ensures StatusOf(state) == StatusOf(other) <==>
              state == other || {state, other} == {New, Ready} || {state, other} == {Verify, Repair}
  {
    match state case _ => match other case _ => match status case _ =>
  }

  // What a legacy status reads as, and what each state is written as.
  lemma LegacyReading(status: Status, state: State)
    ensures StateOf(status) == state <==>
              (status, state) in {(Planned, Ready), (InProgress, Running), (Testing, Verify), (Waiting, Blocked),
                                  (Finished, Done)}
    ensures StatusOf(state) == status <==>
              (state, status) in {(New, Planned), (Ready, Planned), (Running, InProgress), (Verify, Testing),
                                  (Repair, Testing), (Blocked, Waiting), (Done, Finished)}
  {
    match state case _ => match status case _ =>
  }

  // ---- Transition decision ------------------------------------------------

  datatype Reason = InvalidTransition | RepairLimitExhausted

  datatype Decision = Decision(allowed: bool, state: State, repairs: int, reason: Option<Reason>)

  const REPAIR_LIMIT := 2

  function Decide(from: State, requested: State, repairs: int): Decision {
    if requested !in Edges(from) then
      Decision(false, from, repairs, Some(InvalidTransition))
    else if requested != Repair then
      Decision(true, requested, repairs, None)
    else if repairs >= REPAIR_LIMIT then
      Decision(true, Blocked, repairs, Some(RepairLimitExhausted))
    else
      Decision(true, Repair, repairs + 1, None)
  }

  /** The steps a card may be asked to take, pair by pair, whatever its repair count. */
  lemma AllowedSteps(from: State, requested: State, repairs: int)
    ensures Decide(from, requested, repairs).allowed <==>
              || (from == New && requested == Ready)
              || (from == Ready && requested == Running)
              || (from == Running && requested == Verify)
              || (from == Verify && requested == Repair)
              || (from == Repair && requested == Verify)
              || (from == Verify && requested == Done)
              || (from == Blocked && requested == Ready)
              || (requested == Blocked && from != Blocked && from != Done)
  {
    match from case _ => match requested case _ =>
  }

  /** What a decision says: a step that is not allowed leaves state and counter; a
      third request for repair blocks the card instead; any other lands where asked. */
  lemma DecisionMeaning(from: State, requested: State, repairs: int)
    ensures var d := Decide(from, requested, repairs);
            if !d.allowed then d.state == from && d.repairs == repairs && d.reason == Some(InvalidTransition)
            else if requested == Repair && repairs >= 2 then
              d.state == Blocked && d.repairs == repairs && d.reason == Some(RepairLimitExhausted)
            else
              && d.state == requested && d.reason == None
              && d.repairs == if requested == Repair then repairs + 1 else repairs
  {
  }

  // Whatever state an allowed decision lands in is one edge away, even when
  // the exhausted repair budget diverts the card; the budget moves by one
  // exactly on entry to Repair and never passes the limit.
  lemma DecideTakesAnEdge(from: State, requested: State, repairs: int)
    requires Decide(from, requested, repairs).allowed
    ensures Decide(from, requested, repairs).state in Edges(from)
    ensures Decide(from, requested, repairs).state != from
    ensures var d := Decide(from, requested, repairs);
            d.repairs == repairs + (if d.state == Repair then 1 else 0) &&
            (d.state == Repair ==> d.repairs <= REPAIR_LIMIT)
    ensures requested != Decide(from, requested, repairs).state ==>
              from == Verify && requested == Repair && repairs >= REPAIR_LIMIT
  {
    match from case _ => match requested case _ =>
  }

  // Fuel left before a run that never enters Blocked must stop: a
  // lexicographic (repair budget, stage) order folded into one number.
  function Fuel(state: State, repairs: int): int {
    2 * (REPAIR_LIMIT - repairs) +
    match state
    case New => 4
    case Ready => 3
    case Running => 2
    case Verify => 1
    case Repair => 2
    case Blocked => 4
    case Done => 0
  }

  // Every allowed step burns at least one unit of fuel; entering Blocked is
  // the only way to buy more, and it buys at most four.
  lemma StepBurnsFuel(from: State, requested: State, repairs: int)
    requires Decide(from, requested, repairs).allowed
    ensures var d := Decide(from, requested, repairs);
            Fuel(d.state, d.repairs) + 1 <= Fuel(from, repairs) + (if d.state == Blocked then 4 else 0)
    ensures repairs <= REPAIR_LIMIT ==> Fuel(from, repairs) >= 0
  {
    match from case _ => match requested case _ =>
  }

  // ---- Resolving the state a caller names ----------------------------------

  datatype CreationError = InvalidState | InconsistentState

  // The caller's optional fields; a supplied value that is not a string is
  // represented by any name that is not a state.
  datatype StateRequest = StateRequest(state: Option<string>, workflowState: Option<string>, status: Option<string>)

  function ParseState(name: string): Option<State> {
    if name == "new" then Some(New)
    else if name == "ready" then Some(Ready)
    else if name == "running" then Some(Running)
    else if name == "verify" then Some(Verify)
    else if name == "repair" then Some(Repair)
    else if name == "blocked" then Some(Blocked)
    else if name == "done" then Some(Done)
    else None
  }

  function ParseStatus(name: string): Option<Status> {
    if name == "planned" then Some(Planned)
    else if name == "in_progress" then Some(InProgress)
    else if name == "testing" then Some(Testing)
    else if name == "waiting" then Some(Waiting)
    else if name == "done" then Some(Finished)
    else None
  }

  // Some supplied field is not a name of its kind.
  predicate Malformed(q: StateRequest) {
    || (q.state.Some? && ParseState(q.state.value).None?)
    || (q.workflowState.Some? && ParseState(q.workflowState.value).None?)
    || (q.status.Some? && ParseStatus(q.status.value).None?)
  }

  // The request names state s through some field.
  predicate Names(q: StateRequest, s: State) {
    || (q.state.Some? && ParseState(q.state.value) == Some(s))
    || (q.workflowState.Some? && ParseState(q.workflowState.value) == Some(s))
    || (q.status.Some? && ParseStatus(q.status.value).Some? && StateOf(ParseStatus(q.status.value).value) == s)
  }

  predicate Empty(q: StateRequest) {
    q.state.None? && q.workflowState.None? && q.status.None?
  }

  function ResolveInitial(q: StateRequest): Result<State, CreationError> {
    if q.state.Some? && ParseState(q.state.value).None? then Err(InvalidState)
    else if q.workflowState.Some? && ParseState(q.workflowState.value).None? then Err(InvalidState)
    else if q.state.Some? && q.workflowState.Some? && q.state != q.workflowState then Err(InconsistentState)
    else if q.status.Some? && ParseStatus(q.status.value).None? then Err(InvalidState)
    else
      var canonical := if q.state.Some? then ParseState(q.state.value)
                       else if q.workflowState.Some? then ParseState(q.workflowState.value) else None;
      var legacy := if q.status.Some? then Some(StateOf(ParseStatus(q.status.value).value)) else None;
      if canonical.Some? && legacy.Some? && canonical != legacy then Err(InconsistentState)
      else
        var state := if canonical.Some? then canonical.value else legacy.GetOr(Ready);
        if state != New && state != Ready then Err(InvalidState) else Ok(state)
  }

  // Creation succeeds exactly when every supplied field is well formed, all of
  // them name the same state, and that state is New or Ready; with nothing
  // supplied the card starts Ready.
  lemma ResolveInitialMeaning(q: StateRequest, s: State)
    ensures ResolveInitial(q) == Ok(s) <==>
              !Malformed(q) && s in {New, Ready} &&
                (if Empty(q) then s == Ready else forall t :: Names(q, t) <==> t == s)
  {
    if ResolveInitial(q) == Ok(s) && !Empty(q) {
      assert Names(q, s);
    }
    if !Malformed(q) && !Empty(q) && (forall t :: Names(q, t) <==> t == s) {
      if q.state.Some? {
        assert Names(q, ParseState(q.state.value).value);
        NamesInjective(q.state.value, q.workflowState);
      }
      if q.workflowState.Some? { assert Names(q, ParseState(q.workflowState.value).value); }
      if q.status.Some? { assert Names(q, StateOf(ParseStatus(q.status.value).value)); }
    }
  }

  // How the states and statuses are spelled, the other way round.
  function NameOf(state: State): string {
    match state
    case New => "new"
    case Ready => "ready"
    case Running => "running"
    case Verify => "verify"
    case Repair => "repair"
    case Blocked => "blocked"
    case Done => "done"
  }

  function LegacyNameOf(status: Status): string {
    match status
    case Planned => "planned"
    case InProgress => "in_progress"
    case Testing => "testing"
    case Waiting => "waiting"
    case Finished => "done"
  }

  lemma NamesRoundTrip(name: string, state: State, status: Status)
    ensures ParseState(name) == Some(state) <==> name == NameOf(state)
    ensures ParseStatus(name) == Some(status) <==> name == LegacyNameOf(status)
  {
  }

  /** The requests a card is created from, field by field: "new" needs a state
      field, both agreeing and no legacy status; "ready" is the default and the
      reading of the legacy status "planned". */
  lemma CreationRequests(q: StateRequest)
    ensures ResolveInitial(q) == Ok(New) <==>
              && (q.state.Some? || q.workflowState.Some?) && q.status.None?
              && (q.state.Some? ==> q.state.value == "new")
              && (q.workflowState.Some? ==> q.workflowState.value == "new")
    ensures ResolveInitial(q) == Ok(Ready) <==>
              && (q.state.Some? ==> q.state.value == "ready")
              && (q.workflowState.Some? ==> q.workflowState.value == "ready")
              && (q.status.Some? ==> q.status.value == "planned")
    ensures ResolveInitial(q).Ok? ==> ResolveInitial(q).value in {New, Ready}
  {
  }

  // A state name a request may carry.
  predicate StateName(name: string) {
    name in {"new", "ready", "running", "verify", "repair", "blocked", "done"}
  }

  /** A creation request is refused as contradicting itself exactly when its state
      names are known and they differ, or agree on a state that its known legacy
      status does not stand for. An unknown name is reported first. */
  lemma CreationConflicts(q: StateRequest)
    ensures ResolveInitial(q) == Err(InconsistentState) <==>
              && (q.state.Some? ==> StateName(q.state.value))
              && (q.workflowState.Some? ==> StateName(q.workflowState.value))
              && (|| (q.state.Some? && q.workflowState.Some? && q.state.value != q.workflowState.value)
                  || (q.status.Some?
                      && (q.state.Some? || q.workflowState.Some?)
                      && var named := if q.state.Some? then q.state.value else q.workflowState.value;
                         || (q.status.value == "planned" && named != "ready")
                         || (q.status.value == "in_progress" && named != "running")
                         || (q.status.value == "testing" && named != "verify")
                         || (q.status.value == "waiting" && named != "blocked")
                         || (q.status.value == "done" && named != "done")))
  {
  }

  /** The requests that resolve to a state, field by field: whatever is supplied
      names that state, a legacy status the one that reads as it, and something is. */
  lemma TransitionRequests(q: StateRequest, s: State)
    ensures ResolveTransition(q) == Ok(s) <==>
              && (q.state.Some? || q.workflowState.Some? || q.status.Some?)
              && (q.state.Some? ==> q.state.value == NameOf(s))
              && (q.workflowState.Some? ==> q.workflowState.value == NameOf(s))
              && (q.status.Some? ==>
                    || (s == Ready && q.status.value == "planned")
                    || (s == Running && q.status.value == "in_progress")
                    || (s == Verify && q.status.value == "testing")
                    || (s == Blocked && q.status.value == "waiting")
                    || (s == Done && q.status.value == "done"))
  {
    hide ParseState, ParseStatus, ResolveTransition, Names, Malformed;
    ResolveTransitionMeaning(q, s);
    RequestNames(q, s);
    if q.state.Some? { NamesRoundTrip(q.state.value, s, Planned); }
    if q.workflowState.Some? { NamesRoundTrip(q.workflowState.value, s, Planned); }
    if q.status.Some? {
      LegacyRequest(q.status.value, s);
    }
  }

  lemma LegacyRequest(name: string, s: State)
    ensures ParseStatus(name).Some? && StateOf(ParseStatus(name).value) == s <==>
              || (s == Ready && name == "planned")
              || (s == Running && name == "in_progress")
              || (s == Verify && name == "testing")
              || (s == Blocked && name == "waiting")
              || (s == Done && name == "done")
  {
  }

  // A well-formed request that names s and nothing else, field by field.
  lemma RequestNames(q: StateRequest, s: State)
    ensures !Malformed(q) && Names(q, s) && (forall t :: Names(q, t) ==> t == s) <==>
              && (q.state.Some? || q.workflowState.Some? || q.status.Some?)
              && (q.state.Some? ==> ParseState(q.state.value) == Some(s))
              && (q.workflowState.Some? ==> ParseState(q.workflowState.value) == Some(s))
              && (q.status.Some? ==>
                    ParseStatus(q.status.value).Some? && StateOf(ParseStatus(q.status.value).value) == s)
  {
    hide ParseState, ParseStatus, StateOf;
    if q.state.Some? && ParseState(q.state.value).Some? { assert Names(q, ParseState(q.state.value).value); }
    if q.workflowState.Some? && ParseState(q.workflowState.value).Some? {
      assert Names(q, ParseState(q.workflowState.value).value);
    }
    if q.status.Some? && ParseStatus(q.status.value).Some? {
      assert Names(q, StateOf(ParseStatus(q.status.value).value));
    }
  }

  // State names are spelled in one way only.
  lemma NamesInjective(name: string, other: Option<string>)
    ensures ParseState(name).Some? && other.Some? && ParseState(other.value) == ParseState(name) ==> other == Some(name)
  {
  }

  // The states the request names, field by field.
  function Claims(q: StateRequest): seq<State> {
    Claim(q.state) + Claim(q.workflowState) + LegacyClaim(q.status)
  }

  function Claim(field: Option<string>): seq<State> {
    if field.Some? && ParseState(field.value).Some? then [ParseState(field.value).value] else []
  }

  function LegacyClaim(field: Option<string>): seq<State> {
    if field.Some? && ParseStatus(field.value).Some? then [StateOf(ParseStatus(field.value).value)] else []
  }

  function ResolveTransition(q: StateRequest): Result<State, CreationError> {
    var claims := Claims(q);
    if Malformed(q) || claims == [] then Err(InvalidState)
    else if forall i :: 0 <= i < |claims| ==> claims[i] == claims[0] then Ok(claims[0])
    else Err(InconsistentState)
  }

  // A transition request resolves to s exactly when it is well formed and s is
  // the one state its fields name; it is inconsistent exactly when well formed
  // fields name two different states.
  lemma ResolveTransitionMeaning(q: StateRequest, s: State)
    ensures ResolveTransition(q) == Ok(s) <==> !Malformed(q) && Names(q, s) && forall t :: Names(q, t) ==> t == s
    ensures ResolveTransition(q) == Err(InconsistentState) <==>
              !Malformed(q) && exists t, u :: Names(q, t) && Names(q, u) && t != u
  {
    var claims := Claims(q);
    assert forall t :: Names(q, t) <==> t in claims by {
      forall t ensures Names(q, t) <==> t in claims { ClaimsAreNames(q, t); }
    }
    if claims != [] {
      assert Names(q, claims[0]);
      forall i | 0 <= i < |claims| ensures Names(q, claims[i]) {}
    }
  }

  lemma ClaimsAreNames(q: StateRequest, t: State)
    ensures Names(q, t) <==> t in Claims(q)
  {
    assert t in Claims(q) <==> t in Claim(q.state) || t in Claim(q.workflowState) || t in LegacyClaim(q.status);
  }

  /** Collects the supplied states in order and insists that they agree. */
  method ResolveTransitionState(q: StateRequest) returns (r: Result<State, CreationError>)
    ensures r == ResolveTransition(q)
  {
    var supplied: seq<State> := [];
    for i := 0 to 2
      invariant supplied == (if i >= 1 then Claim(q.state) else []) + (if i == 2 then Claim(q.workflowState) else [])
      invariant i >= 1 && q.state.Some? ==> ParseState(q.state.value).Some?
      invariant i == 2 && q.workflowState.Some? ==> ParseState(q.workflowState.value).Some?
    {
      var field := if i == 0 then q.state else q.workflowState;
      if field.Some? {
        if ParseState(field.value).None? {
          return Err(InvalidState);
        }
        supplied := supplied + [ParseState(field.value).value];
      }
    }
    if q.status.Some? {
      if ParseStatus(q.status.value).None? {
        return Err(InvalidState);
      }
      supplied := supplied + [StateOf(ParseStatus(q.status.value).value)];
    }
    assert supplied == Claims(q);
    if |supplied| == 0 {
      return Err(InvalidState);
    }
    if forall i :: 0 <= i < |supplied| ==> supplied[i] == supplied[0] {
      return Ok(supplied[0]);
    }
    return Err(InconsistentState);
  }
}
