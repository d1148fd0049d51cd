/** The card-writing functions of src/db.ts as functions from one database state
    to the next, built on the row statements of KanbanStore. */
module KanbanApi {
  import opened Prelude
  import opened KanbanWorkflow
  import opened KanbanLanes
  import opened KanbanStore

  // ---- Results ---------------------------------------------------------------

  datatype LaneGate = LaneGate(lane: string, running: nat, limit: int, allowed: bool)

  // The gate's verdict: a lane is missing, or a lane was counted and enforced or not.
  datatype Gate = Gate(laneRequired: bool, laneGate: Option<LaneGate>, enforce: bool)

  const NO_GATE := Gate(false, None, false)

  // Why a call throws: its transaction is rolled back.
  datatype Fault =
    | Aborted(abort: Abort)
    | UnknownLane
    | InvalidLane
    | ConflictingState
    | UnsafeTaskId
    | BadRequest(error: CreationError)

  datatype Reply = Reply(changed: bool, state: Option<State>, reason: Option<Reason>,
                         laneGate: Option<LaneGate>, laneRequired: bool)

  const NOT_FOUND := Reply(false, None, None, None, false)
  const DONE := Reply(true, None, None, None, false)

  datatype Answer = Answer(db: Db, reply: Result<Reply, Fault>)

  // ---- Lookup -------------------------------------------------------------------

  ghost function RowOf(db: Db, id: string): Option<nat> {
    if r :| r in db.cards && db.cards[r].id == Some(id) then Some(r) else None
  }

  // Letters, digits and ._:- with an alphanumeric first, at most 128 long.
  predicate SafeId(id: string) {
    && 1 <= |id| <= 128
    && Alphanumeric(id[0])
    && forall i :: 0 <= i < |id| ==> Alphanumeric(id[i]) || id[i] in {'.', '_', ':', '-'}
  }

  predicate Alphanumeric(c: char) {
    'A' <= c <= 'Z' || 'a' <= c <= 'z' || '0' <= c <= '9'
  }

  // ---- The lane gate ---------------------------------------------------------------

  // The gate identifies the moving card by id, where the triggers use its rowid.
  function OthersRunning(cards: map<nat, Card>, lane: string, id: string): set<nat> {
    set r | r in cards && Runs(cards[r], lane) && cards[r].id != Some(id)
  }

  function PolicyFor(db: Db, lane: string, override: Option<Policy>): Result<Policy, Fault> {
    if override.Some? then Ok(override.value)
    else if lane in db.policy then Ok(db.policy[lane])
    else Err(UnknownLane)
  }

  function EffectiveLane(supplied: Option<string>, stored: Option<string>): Option<string> {
    if supplied.Some? then supplied else stored
  }

  // An absent or null lane argument is None; `archivedAt` is the value the
  // card will have after the write.
  function EvaluateLane(db: Db, id: string, existing: Card, requested: Status, supplied: Option<string>,
                        override: Option<Policy>, archivedAt: Option<int>): Result<Gate, Fault> {
    var startsRunning := requested == InProgress && existing.status != InProgress;
    var changesRunningLane := requested == InProgress && supplied.Some? && supplied != existing.lane;
    var restoresRunning := requested == InProgress && existing.archivedAt.Some? && archivedAt.None?;
    if !startsRunning && !changesRunningLane && !restoresRunning then Ok(NO_GATE)
    else
      var lane := EffectiveLane(supplied, existing.lane);
      if lane.None? || lane.value == "" then Ok(Gate(startsRunning, None, false))
      else if archivedAt.Some? then Ok(NO_GATE)
      else
        match PolicyFor(db, lane.value, override)
        case Err(fault) => Err(fault)
        case Ok(policy) =>
          var running := |OthersRunning(db.cards, lane.value, id)|;
          Ok(Gate(false, Some(LaneGate(lane.value, running, policy.limit, WipAllows(running, policy.limit))),
                  policy.enforce))
  }

  predicate Refuses(gate: Gate) {
    gate.laneRequired || (gate.laneGate.Some? && !gate.laneGate.value.allowed && gate.enforce)
  }

  // ---- Transitions -------------------------------------------------------------------

  datatype MoveArgs = MoveArgs(sortOrder: real, actor: Option<string>, lane: Option<string>, now: int)

  function FromState(card: Card): State {
    if card.wf.Some? then card.wf.value else StateOf(card.status)
  }

  // The card at its requested position, otherwise as it was.
  function Placed(card: Card, args: MoveArgs): Card {
    card.(sortOrder := args.sortOrder, updatedAt := args.now)
  }

  // The row the transition's bare UPDATE would write.
  function Transitioned(card: Card, d: Decision, args: MoveArgs): Card {
    card.(wf := Some(d.state), status := StatusOf(d.state), repairs := d.repairs,
          sortOrder := args.sortOrder, updatedAt := args.now, lane := EffectiveLane(args.lane, card.lane))
  }

  function MaxSequence(observations: seq<Observation>, taskId: string): nat {
    if observations == [] then 0
    else
      var rest := MaxSequence(observations[..|observations| - 1], taskId);
      var last := observations[|observations| - 1];
      if last.taskId == taskId && last.sequence > rest then last.sequence else rest
  }

  function Record(db: Db, id: string, from: Card, d: Decision, args: MoveArgs): Db {
    var event := Event(id, FromState(from), d.state, from.status, StatusOf(d.state), d.reason, args.actor, args.now);
    var seen := Observation(id, MaxSequence(db.observations, id) + 1, FromState(from), d.state, d.repairs);
    db.(events := db.events + [event], observations := db.observations + [seen])
  }

  // Run one statement; on success answer `reply`, on abort leave everything.
  function Run(db: Db, stmt: Statement, reply: Reply): Answer {
    match Exec(db, stmt)
    case Ok(db') => Answer(db', Ok(reply))
    case Err(abort) => Answer(db, Err(Aborted(abort)))
  }

  function TransitionRow(db: Db, row: nat, id: string, requested: State, args: MoveArgs,
                         override: Option<Policy>): Answer
    requires row in db.cards
  {
    var card := db.cards[row];
    var from := FromState(card);
    if requested == from then
      if args.lane.Some? && args.lane != card.lane then
        Answer(db, Ok(Reply(false, Some(from), Some(InvalidTransition), None, false)))
      else
        Run(db, Update(row, Placed(card, args), false, args.now),
            Reply(true, Some(from), None, None, false))
    else
      var d := Decide(from, requested, card.repairs);
      if !d.allowed then Answer(db, Ok(Reply(false, Some(from), d.reason, None, false)))
      else
        match EvaluateLane(db, id, card, StatusOf(d.state), args.lane, override, card.archivedAt)
        case Err(fault) => Answer(db, Err(fault))
        case Ok(gate) =>
          if gate.laneRequired then Answer(db, Ok(Reply(false, None, None, None, true)))
          else if Refuses(gate) then Answer(db, Ok(Reply(false, Some(from), None, gate.laneGate, false)))
          else
            match Exec(db, Update(row, Transitioned(card, d, args), true, args.now))
            case Err(abort) => Answer(db, Err(Aborted(abort)))
            case Ok(db') =>
              if !SafeId(id) then Answer(db, Err(UnsafeTaskId))
              else Answer(Record(db', id, card, d, args),
                          Ok(Reply(true, Some(d.state), d.reason, gate.laneGate, false)))
  }

  // ---- Moves through a legacy status ----------------------------------------------------

  // moveKanbanCard: never starts a card running, so it needs no gate.
  function MoveRow(db: Db, row: nat, id: string, status: Status, args: MoveArgs): Answer
    requires row in db.cards
  {
    var card := db.cards[row];
    var requested := StateOf(status);
    if requested == Hydrated(card) then
      if args.lane.Some? && args.lane != card.lane then Answer(db, Ok(NOT_FOUND))
      else Run(db, Update(row, Placed(card, args), false, args.now), DONE)
    else if requested == Running then Answer(db, Ok(NOT_FOUND))
    else if card.status == InProgress && args.lane.Some? && args.lane != card.lane then Answer(db, Ok(NOT_FOUND))
    else if args.lane.Some? && !ValidLane(args.lane.value) then Answer(db, Ok(NOT_FOUND))
    else
      var answer := TransitionRow(db, row, id, requested, args, None);
      if answer.reply.Ok? then Answer(answer.db, Ok(if answer.reply.value.changed then DONE else NOT_FOUND)) else answer
  }

  function MoveGatedRow(db: Db, row: nat, id: string, status: Status, args: MoveArgs, override: Option<Policy>): Answer
    requires row in db.cards
  {
    var card := db.cards[row];
    var requested := StateOf(status);
    if requested == Hydrated(card) then
      if args.lane.Some? && args.lane != card.lane then Answer(db, Ok(NOT_FOUND))
      else
        match EvaluateLane(db, id, card, status, args.lane, override, card.archivedAt)
        case Err(fault) => Answer(db, Err(fault))
        case Ok(gate) =>
          if gate.laneRequired then Answer(db, Ok(NOT_FOUND.(laneRequired := true)))
          else if Refuses(gate) then Answer(db, Ok(NOT_FOUND.(laneGate := gate.laneGate)))
          else
            Run(db, Update(row, card.(sortOrder := args.sortOrder, updatedAt := args.now,
                                      lane := EffectiveLane(args.lane, card.lane)), false, args.now),
                DONE.(laneGate := gate.laneGate))
    else TransitionRow(db, row, id, requested, args, override)
  }

  // ---- Field updates ------------------------------------------------------------------------

  // A partial card: only the supplied fields are present. `touchesWorkflow`
  // says that status, state, workflow_state or repair_attempts was supplied.
  datatype Edit = Edit(touchesWorkflow: bool, lane: Option<string>, archivedAt: Option<Option<int>>,
                       sortOrder: Option<real>, title: Option<string>, content: Option<string>)

  function Edited(card: Card, edit: Edit, now: int): Card {
    card.(lane := EffectiveLane(edit.lane, card.lane), archivedAt := edit.archivedAt.GetOr(card.archivedAt),
          sortOrder := edit.sortOrder.GetOr(card.sortOrder), title := edit.title.GetOr(card.title),
          content := edit.content.GetOr(card.content), updatedAt := now)
  }

  function EditRow(db: Db, row: nat, edit: Edit, now: int): Answer
    requires row in db.cards
  {
    var card := db.cards[row];
    if edit.touchesWorkflow then Answer(db, Ok(NOT_FOUND))
    else if card.status == InProgress && edit.lane.Some? && edit.lane != card.lane then Answer(db, Ok(NOT_FOUND))
    else if edit.lane.Some? && !ValidLane(edit.lane.value) then Answer(db, Ok(NOT_FOUND))
    else Run(db, Update(row, Edited(card, edit, now), false, now), DONE)
  }

  function EditGatedRow(db: Db, row: nat, id: string, edit: Edit, override: Option<Policy>, now: int): Answer
    requires row in db.cards
  {
    var card := db.cards[row];
    if edit.touchesWorkflow then Answer(db, Ok(NOT_FOUND))
    else
      match EvaluateLane(db, id, card, card.status, edit.lane, override, edit.archivedAt.GetOr(card.archivedAt))
      case Err(fault) => Answer(db, Err(fault))
      case Ok(gate) =>
        if gate.laneRequired then Answer(db, Ok(NOT_FOUND.(laneRequired := true)))
        else if Refuses(gate) then Answer(db, Ok(NOT_FOUND.(laneGate := gate.laneGate)))
        else Run(db, Update(row, Edited(card, edit, now), false, now), DONE.(laneGate := gate.laneGate))
  }

  // ---- Archive ------------------------------------------------------------------------------------

  function ArchiveRow(db: Db, row: nat, now: int): Answer
    requires row in db.cards
  {
    Run(db, Update(row, db.cards[row].(archivedAt := Some(now), updatedAt := now), false, now), DONE)
  }

  function UnarchiveRow(db: Db, row: nat, now: int): Answer
    requires row in db.cards
  {
    if db.cards[row].archivedAt.None? then Answer(db, Ok(NOT_FOUND))
    else Run(db, Update(row, db.cards[row].(archivedAt := None, updatedAt := now), false, now), DONE)
  }

  function UnarchiveGatedRow(db: Db, row: nat, id: string, policy: Policy, now: int): Answer
    requires row in db.cards
  {
    var card := db.cards[row];
    if card.archivedAt.None? then Answer(db, Ok(NOT_FOUND))
    else
      var gate := UnarchiveGate(db, card, id, policy);
      if Refuses(gate) then Answer(db, Ok(NOT_FOUND.(laneGate := gate.laneGate)))
      else Run(db, Update(row, card.(archivedAt := None, updatedAt := now), false, now),
               DONE.(laneGate := gate.laneGate))
  }

  // The unarchive gate is written out separately from EvaluateLane.
  function UnarchiveGate(db: Db, card: Card, id: string, policy: Policy): Gate {
    if card.status == InProgress && card.lane.Some? && card.lane.value != "" then
      var running := |OthersRunning(db.cards, card.lane.value, id)|;
      Gate(false, Some(LaneGate(card.lane.value, running, policy.limit, WipAllows(running, policy.limit))),
           policy.enforce)
    else NO_GATE
  }

  // ---- Comments and dispatch ----------------------------------------------------------------------

  // addKanbanComment stamps the card; the comment itself is not part of the table.
  function CommentRow(db: Db, row: nat, now: int): Answer
    requires row in db.cards
  {
    Run(db, Update(row, db.cards[row].(updatedAt := now), false, now), DONE)
  }

  // markKanbanCardDispatched stamps the dispatch alone.
  function DispatchRow(db: Db, row: nat, now: int): Answer
    requires row in db.cards
  {
    Run(db, Update(row, db.cards[row].(dispatchedAt := Some(now)), false, now), DONE)
  }

  // listKanbanCards archives finished cards not touched since the cutoff.
  function AutoArchive(db: Db, now: int, cutoff: int): Db {
    db.(cards := map r | r in db.cards ::
          if db.cards[r].status == Finished && db.cards[r].archivedAt.None? && db.cards[r].updatedAt < cutoff
          then db.cards[r].(archivedAt := Some(now)) else db.cards[r])
  }

  // ---- Creation and import -----------------------------------------------------------------------------

  datatype NewCard = NewCard(id: string, request: StateRequest, lane: Option<string>, title: string, content: string)

  function Fresh(card: NewCard, state: State, sortOrder: real, now: int): Card {
    Card(Some(card.id), StatusOf(state), Some(state), 0, card.lane, None, sortOrder, now, card.title, None,
         card.content)
  }

  function Create(db: Db, row: nat, card: NewCard, sortOrder: real, now: int): Answer {
    match ResolveInitial(card.request)
    case Err(error) => Answer(db, Err(BadRequest(error)))
    case Ok(state) =>
      if card.lane.Some? && !ValidLane(card.lane.value) then Answer(db, Err(InvalidLane))
      else
        Run(db, Insert(row, Fresh(card, state, sortOrder, now)), DONE)
  }

  // Fleet restore: the flag that silences the lane triggers exists only
  // inside the transaction, and an id that is already taken is skipped.
  function Import(db: Db, row: nat, card: Card): Answer {
    if card.lane.Some? && !ValidLane(card.lane.value) then Answer(db, Err(InvalidLane))
    else if !Projected(card) then Answer(db, Err(ConflictingState))
    else
      var flagged := db.(importing := true);
      match Exec(flagged, Insert(row, card))
      case Ok(db') => Answer(db'.(importing := false), Ok(DONE))
      case Err(DuplicateId) => Answer(db, Ok(DONE))
      case Err(abort) => Answer(db, Err(Aborted(abort)))
  }

  // A fleet import copies the snapshot's event rows, unless the log has one with
  // the same card, time and target.
  function ImportEvent(db: Db, event: Event): Db {
    if exists e :: e in db.events && e.cardId == event.cardId && e.at == event.at && e.toStatus == event.toStatus &&
                   e.to == event.to
    then db else db.(events := db.events + [event])
  }

  function DeleteRow(db: Db, row: nat): Answer {
    Run(db, Delete(row), DONE)
  }
}
