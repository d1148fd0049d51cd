/** The append-only event log replays to the card: its events are an
    edge-by-edge path through the workflow graph, its observations are numbered
    without gaps, and the repair budget bounds how long a run can be. */
module KanbanHistory {
  import opened Prelude
  import opened KanbanWorkflow
  import opened KanbanLanes
  import opened KanbanStore
  import opened KanbanApi
  import opened KanbanGuards
  import opened KanbanRuns
  import opened TitleGate

  function EventsOf(events: seq<Event>, id: string): seq<Event> {
    if events == [] then []
    else
      var rest := EventsOf(events[..|events| - 1], id);
      var last := events[|events| - 1];
      if last.cardId == id then rest + [last] else rest
  }

  function ObservationsOf(observations: seq<Observation>, id: string): seq<Observation> {
    if observations == [] then []
    else
      var rest := ObservationsOf(observations[..|observations| - 1], id);
      var last := observations[|observations| - 1];
      if last.taskId == id then rest + [last] else rest
  }

  // The events lead from `start` to `finish`, each along an edge of the
  // workflow and each carrying the projections of its two states.
  predicate Path(start: State, events: seq<Event>, finish: State) {
    if events == [] then start == finish
    else
      var last := events[|events| - 1];
      && last.to == finish && last.to in Edges(last.from)
      && last.fromStatus == StatusOf(last.from) && last.toStatus == StatusOf(last.to)
      && Path(start, events[..|events| - 1], last.from)
  }

  function Entries(events: seq<Event>, state: State): nat {
    if events == [] then 0
    else Entries(events[..|events| - 1], state) + (if events[|events| - 1].to == state then 1 else 0)
  }

  // Observation i of a card carries sequence number i + 1.
  predicate Dense(observations: seq<Observation>, id: string) {
    var own := ObservationsOf(observations, id);
    && (forall i :: 0 <= i < |own| ==> own[i].sequence == i + 1)
    && MaxSequence(observations, id) == |own|
  }

  // ---- One step ---------------------------------------------------------------

  // Nothing the history of card `id` depends on moved.
  predicate Unmoved(db: Db, db': Db, row: nat, id: string)
    requires row in db.cards && row in db'.cards
  {
    && Hydrated(db'.cards[row]) == Hydrated(db.cards[row]) && db'.cards[row].repairs == db.cards[row].repairs
    && EventsOf(db'.events, id) == EventsOf(db.events, id)
    && ObservationsOf(db'.observations, id) == ObservationsOf(db.observations, id)
    && MaxSequence(db'.observations, id) == MaxSequence(db.observations, id)
  }

  // The card took one decided transition and it was recorded.
  predicate Moved(db: Db, db': Db, row: nat, id: string, requested: State, args: MoveArgs)
    requires row in db.cards && row in db'.cards
  {
    var card := db.cards[row];
    var d := Decide(Hydrated(card), requested, card.repairs);
    && d.allowed && Hydrated(db'.cards[row]) == d.state && db'.cards[row].repairs == d.repairs
    && db'.events == Record(db, id, card, d, args).events
    && db'.observations == Record(db, id, card, d, args).observations
  }

  ghost predicate StepShape(db: Db, db': Db, row: nat, id: string) {
    && row in db.cards && row in db'.cards && db'.cards[row].id == Some(id)
    && (Unmoved(db, db', row, id) || (SafeId(id) && exists requested, args :: Moved(db, db', row, id, requested, args)))
  }

  // An update of one row that leaves its status alone leaves its state alone.
  lemma TouchKeepsState(db: Db, row: nat, card: Card, clock: int)
    requires Valid(db) && row in db.cards && card.status == db.cards[row].status && card.id == db.cards[row].id
    requires card.repairs == db.cards[row].repairs
    requires Exec(db, Update(row, card, false, clock)).Ok?
    ensures var db' := Exec(db, Update(row, card, false, clock)).value; var was := db.cards[row];
            && db'.cards == db.cards[row := card.(wf := was.wf, title := StoredTitle(was.title, card.title))]
            && db' == db.(cards := db'.cards)
  {
    hide ExecUpdate, UpdateAbort, StoredTitle;
    UpdateIs(db, row, card, false, clock);
  }

  lemma TransitionShape(db: Db, row: nat, id: string, requested: State, args: MoveArgs, override: Option<Policy>)
    requires Holds(db, row, id)
    ensures var db' := TransitionRow(db, row, id, requested, args, override).db;
            && StepShape(db, db', row, id)
            && (forall r :: r in db.cards && r != row ==> r in db'.cards && db'.cards[r] == db.cards[r])
            && (db'.events == db.events || exists e: Event :: e.cardId == id && db'.events == db.events + [e])
            && (db'.observations == db.observations ||
                exists o: Observation :: o.taskId == id && db'.observations == db.observations + [o])
  {
    var card := db.cards[row];
    assert RowOk(card);
    var db' := TransitionRow(db, row, id, requested, args, override).db;
    var d := Decide(FromState(card), requested, card.repairs);
    var next := Transitioned(card, d, args);
    if requested == FromState(card) {
      TransitionTouch(db, row, id, args);
    } else if d.allowed && db' != db {
      DecideTakesAnEdge(FromState(card), requested, card.repairs);
      ExecTransitioned(db, row, next);
      assert Moved(db, db', row, id, requested, args);
      assert db'.events == db.events + [db'.events[|db.events|]];
      assert db'.observations == db.observations + [db'.observations[|db.observations|]];
    }
  }

  lemma TransitionTouch(db: Db, row: nat, id: string, args: MoveArgs)
    requires Holds(db, row, id)
    ensures var touched := Placed(db.cards[row], args);
            Exec(db, Update(row, touched, false, args.now)) == Ok(db.(cards := db.cards[row := touched]))
  {
    SameStateTouch(db, row, id, args);
    TouchKeepsState(db, row, Placed(db.cards[row], args), args.now);
  }

  // The AFTER triggers add nothing to a write that keeps state, time and title in order.
  lemma ExecTransitioned(db: Db, row: nat, next: Card)
    requires row in db.cards && Projected(next) && next.wf.Some? && next.title == db.cards[row].title
    requires Exec(db, Update(row, next, true, next.updatedAt)).Ok?
    ensures Exec(db, Update(row, next, true, next.updatedAt)).value == db.(cards := db.cards[row := next])
  {
    hide ExecUpdate, UpdateAbort;
    UpdateIs(db, row, next, true, next.updatedAt);
    ProjectionForRow(next);
  }

  // Another card's transition does not show in this card's history.
  lemma ForeignRecord(db: Db, db': Db, row: nat, id: string, other: string)
    requires row in db.cards && row in db'.cards && db'.cards[row] == db.cards[row] && other != id
    requires db'.events == db.events || exists e: Event :: e.cardId == other && db'.events == db.events + [e]
    requires db'.observations == db.observations ||
             exists o: Observation :: o.taskId == other && db'.observations == db.observations + [o]
    ensures Unmoved(db, db', row, id)
  {
    if db'.events != db.events {
      assert db'.events[..|db'.events| - 1] == db.events;
    }
    if db'.observations != db.observations {
      assert db'.observations[..|db'.observations| - 1] == db.observations;
    }
  }

  lemma CardStepShape(db: Db, row: nat, id: string, target: string, act: Act)
    requires Holds(db, row, id) && !(target == id && act == Remove)
    ensures StepShape(db, CardStep(db, target, act).db, row, id)
  {
    var at := RowOf(db, target);
    if at.Some? {
      if target == id {
        assert at.value == row;
        OwnStepShape(db, row, id, act);
      } else {
        ForeignStepShape(db, row, id, at.value, target, act);
      }
    }
  }

  lemma OwnStepShape(db: Db, row: nat, id: string, act: Act)
    requires Holds(db, row, id) && act != Remove
    ensures StepShape(db, RowStep(db, row, id, act).db, row, id)
  {
    hide TransitionRow, MoveRow, MoveGatedRow, EditGatedRow, UnarchiveGatedRow, Exec, StepShape;
    var card := db.cards[row];
    match act {
      case Transit(requested, args, override) => TransitionShape(db, row, id, requested, args, override);
      case MoveTo(status, args) => MoveShape(db, row, id, status, args);
      case MoveGated(status, args, override) => MoveGatedShape(db, row, id, status, args, override);
      case EditFields(edit, now) => TouchShape(db, row, id, Edited(card, edit, now), now);
      case EditGated(edit, override, now) => EditGatedShape(db, row, id, edit, override, now);
      case Archive(now) => TouchShape(db, row, id, card.(archivedAt := Some(now), updatedAt := now), now);
      case Unarchive(now) => TouchShape(db, row, id, card.(archivedAt := None, updatedAt := now), now);
      case UnarchiveGated(policy, now) => UnarchiveGatedShape(db, row, id, policy, now);
      case Comment(now) => TouchShape(db, row, id, card.(updatedAt := now), now);
      case MarkDispatched(now) => TouchShape(db, row, id, card.(dispatchedAt := Some(now)), now);
    }
  }

  lemma MoveShape(db: Db, row: nat, id: string, status: Status, args: MoveArgs)
    requires Holds(db, row, id)
    ensures StepShape(db, MoveRow(db, row, id, status, args).db, row, id)
  {
    hide TransitionRow, Exec, StepShape;
    TransitionShape(db, row, id, StateOf(status), args, None);
    TouchShape(db, row, id, Placed(db.cards[row], args), args.now);
  }

  lemma MoveGatedShape(db: Db, row: nat, id: string, status: Status, args: MoveArgs, override: Option<Policy>)
    requires Holds(db, row, id)
    ensures StepShape(db, MoveGatedRow(db, row, id, status, args, override).db, row, id)
  {
    hide TransitionRow, Exec, StepShape, EvaluateLane;
    var card := db.cards[row];
    TransitionShape(db, row, id, StateOf(status), args, override);
    TouchShape(db, row, id, Placed(card, args).(lane := EffectiveLane(args.lane, card.lane)), args.now);
  }

  lemma EditGatedShape(db: Db, row: nat, id: string, edit: Edit, override: Option<Policy>, now: int)
    requires Holds(db, row, id)
    ensures StepShape(db, EditGatedRow(db, row, id, edit, override, now).db, row, id)
  {
    hide Exec, StepShape, EvaluateLane;
    TouchShape(db, row, id, Edited(db.cards[row], edit, now), now);
  }

  lemma UnarchiveGatedShape(db: Db, row: nat, id: string, policy: Policy, now: int)
    requires Holds(db, row, id)
    ensures StepShape(db, UnarchiveGatedRow(db, row, id, policy, now).db, row, id)
  {
    hide Exec, StepShape, UnarchiveGate;
    TouchShape(db, row, id, db.cards[row].(archivedAt := None, updatedAt := now), now);
  }

  lemma TouchShape(db: Db, row: nat, id: string, card: Card, clock: int)
    requires Holds(db, row, id) && card.status == db.cards[row].status && card.id == db.cards[row].id
    requires card.repairs == db.cards[row].repairs
    ensures Exec(db, Update(row, card, false, clock)).Ok? ==>
            StepShape(db, Exec(db, Update(row, card, false, clock)).value, row, id)
    ensures StepShape(db, db, row, id)
  {
    if Exec(db, Update(row, card, false, clock)).Ok? {
      TouchKeepsState(db, row, card, clock);
      assert Unmoved(db, Exec(db, Update(row, card, false, clock)).value, row, id);
    }
    assert Unmoved(db, db, row, id);
  }

  lemma ForeignStepShape(db: Db, row: nat, id: string, at: nat, target: string, act: Act)
    requires Holds(db, row, id) && Holds(db, at, target) && target != id
    ensures StepShape(db, RowStep(db, at, target, act).db, row, id)
  {
    hide TransitionRow, MoveRow, MoveGatedRow, EditGatedRow, UnarchiveGatedRow, Exec, Unmoved;
    var db' := RowStep(db, at, target, act).db;
    match act {
      case Transit(requested, args, override) => TransitionShape(db, at, target, requested, args, override);
      case MoveTo(status, args) => ForeignMove(db, row, at, target, status, args);
      case MoveGated(status, args, override) => ForeignMoveGated(db, row, at, target, status, args, override);
      case _ => PlainStepIsLocal(db, row, at, target, act);
    }
    ForeignRecord(db, db', row, id, target);
  }

  // What another card's move leaves of this card, and what it may log.
  ghost predicate ForeignOk(db: Db, db': Db, row: nat, other: string)
    requires row in db.cards
  {
    && row in db'.cards && db'.cards[row] == db.cards[row]
    && (db'.events == db.events || exists e: Event :: e.cardId == other && db'.events == db.events + [e])
    && (db'.observations == db.observations ||
        exists o: Observation :: o.taskId == other && db'.observations == db.observations + [o])
  }

  lemma ForeignMove(db: Db, row: nat, at: nat, target: string, status: Status, args: MoveArgs)
    requires row in db.cards && Holds(db, at, target) && at != row
    ensures ForeignOk(db, MoveRow(db, at, target, status, args).db, row, target)
  {
    hide TransitionRow, Exec;
    TransitionShape(db, at, target, StateOf(status), args, None);
    StatementIsLocal(db, Update(at, Placed(db.cards[at], args), false, args.now), row);
  }

  lemma ForeignMoveGated(db: Db, row: nat, at: nat, target: string, status: Status, args: MoveArgs,
                         override: Option<Policy>)
    requires row in db.cards && Holds(db, at, target) && at != row
    ensures ForeignOk(db, MoveGatedRow(db, at, target, status, args, override).db, row, target)
  {
    hide TransitionRow, Exec, EvaluateLane;
    TransitionShape(db, at, target, StateOf(status), args, override);
    var next := Placed(db.cards[at], args).(lane := EffectiveLane(args.lane, db.cards[at].lane));
    StatementIsLocal(db, Update(at, next, false, args.now), row);
  }

  predicate LocalTo(db: Db, db': Db, row: nat)
    requires row in db.cards
  {
    row in db'.cards && db'.cards[row] == db.cards[row] && db'.events == db.events &&
      db'.observations == db.observations
  }

  lemma StatementIsLocal(db: Db, stmt: Statement, row: nat)
    requires row in db.cards && stmt.row != row
    ensures Exec(db, stmt).Ok? ==> LocalTo(db, Exec(db, stmt).value, row)
  {
    if Exec(db, stmt).Ok? {
      ExecRows(db, stmt);
    }
  }

  lemma PlainStepIsLocal(db: Db, row: nat, at: nat, target: string, act: Act)
    requires row in db.cards && at in db.cards && at != row && !act.Transit? && !act.MoveTo? && !act.MoveGated?
    ensures LocalTo(db, RowStep(db, at, target, act).db, row)
  {
    var card := db.cards[at];
    match act {
      case EditFields(edit, now) => StatementIsLocal(db, Update(at, Edited(card, edit, now), false, now), row);
      case EditGated(edit, override, now) => StatementIsLocal(db, Update(at, Edited(card, edit, now), false, now), row);
      case Archive(now) =>
        StatementIsLocal(db, Update(at, card.(archivedAt := Some(now), updatedAt := now), false, now), row);
      case Unarchive(now) =>
        StatementIsLocal(db, Update(at, card.(archivedAt := None, updatedAt := now), false, now), row);
      case UnarchiveGated(policy, now) =>
        StatementIsLocal(db, Update(at, card.(archivedAt := None, updatedAt := now), false, now), row);
      case Comment(now) => StatementIsLocal(db, Update(at, card.(updatedAt := now), false, now), row);
      case MarkDispatched(now) => StatementIsLocal(db, Update(at, card.(dispatchedAt := Some(now)), false, now), row);
      case Remove => StatementIsLocal(db, Delete(at), row);
    }
  }

  lemma StepHasShape(db: Db, row: nat, id: string, op: Op)
    requires Holds(db, row, id) && LeavesRow(op, row, id)
    ensures StepShape(db, Step(db, op), row, id)
  {
    hide CardStep;
    if op.CardOp? {
      CardStepShape(db, row, id, op.id, op.act);
    } else if op.RawOp? {
      RawStepIsElsewhere(db, row, id, op.stmt);
    } else {
      NewRowsAreElsewhere(db, row, id, op);
    }
  }

  lemma RawStepIsElsewhere(db: Db, row: nat, id: string, stmt: Statement)
    requires Holds(db, row, id) && stmt.row != row
    ensures StepShape(db, Step(db, RawOp(stmt)), row, id)
  {
    hide Exec, EventsOf, ObservationsOf, MaxSequence;
    StatementIsLocal(db, stmt, row);
    assert Unmoved(db, Step(db, RawOp(stmt)), row, id);
  }

  lemma NewRowsAreElsewhere(db: Db, row: nat, id: string, op: Op)
    requires Holds(db, row, id) && !op.RawOp? && !op.CardOp? && LeavesRow(op, row, id)
    ensures row in Step(db, op).cards && Step(db, op).cards[row].id == Some(id) && Unmoved(db, Step(db, op), row, id)
  {
    if op.ImportEventOp? {
      assert (db.events + [op.event])[..|db.events|] == db.events;
    } else {
      OtherRowsStay(db, row, id, op);
      hide Step, EventsOf, ObservationsOf, MaxSequence;
    }
  }

  // Creation, import and the sweep leave the state columns of other rows and the logs.
  lemma OtherRowsStay(db: Db, row: nat, id: string, op: Op)
    requires Holds(db, row, id) && (op.CreateOp? || op.ImportOp? || op.AutoArchiveOp?)
    ensures var db' := Step(db, op);
            && row in db'.cards && db'.cards[row] == db.cards[row].(archivedAt := db'.cards[row].archivedAt)
            && db'.events == db.events && db'.observations == db.observations
  {
    hide ResolveInitial, Exec, NewTitle;
    match op {
      case CreateOp(at, card, sortOrder, now) =>
        if ResolveInitial(card.request).Ok? {
          InsertElsewhere(db, at, Fresh(card, ResolveInitial(card.request).value, sortOrder, now), row);
        }
      case ImportOp(at, card) => InsertElsewhere(db.(importing := true), at, card, row);
      case AutoArchiveOp(now, cutoff) =>
    }
  }

  lemma InsertElsewhere(db: Db, at: nat, card: Card, row: nat)
    requires row in db.cards
    ensures Exec(db, Insert(at, card)).Ok? ==>
              var db' := Exec(db, Insert(at, card)).value;
              row in db'.cards && db'.cards[row] == db.cards[row] && db' == db.(cards := db'.cards)
  {
    if Exec(db, Insert(at, card)).Ok? { ExecRows(db, Insert(at, card)); }
    hide Exec;
  }

  // ---- Whole runs -----------------------------------------------------------------

  // The events lead from one state and repair count to another.
  predicate LogLeads(from: State, start: int, log: seq<Event>, to: State, repairs: int) {
    && Path(from, log, to)
    && repairs == start + Entries(log, Repair)
    && (Entries(log, Repair) > 0 ==> repairs <= REPAIR_LIMIT)
    && |log| + Fuel(to, repairs) <= Fuel(from, start) + 4 * Entries(log, Blocked)
  }

  // The history accumulated since a starting state and repair count.
  ghost predicate Replays(db: Db, row: nat, id: string, from: State, repairs: int, earlier: nat) {
    && Holds(db, row, id)
    && earlier <= |EventsOf(db.events, id)|
    && LogLeads(from, repairs, EventsOf(db.events, id)[earlier..], Hydrated(db.cards[row]), db.cards[row].repairs)
  }

  // The card is not deleted, raw statements write other rows only, and no event is
  // imported into the card's log.
  predicate LeavesRow(op: Op, row: nat, id: string) {
    op != CardOp(id, Remove) && (op.RawOp? ==> op.stmt.row != row) && (op.ImportEventOp? ==> op.event.cardId != id)
  }

  ghost predicate HistoryOps(ops: seq<Op>, row: nat, id: string) {
    forall i :: 0 <= i < |ops| ==> LeavesRow(ops[i], row, id)
  }

  // A recorded transition appends one event and one observation to the card's own logs.
  lemma MovedAppends(db: Db, db': Db, row: nat, id: string, requested: State, args: MoveArgs)
    requires row in db.cards && row in db'.cards && Moved(db, db', row, id, requested, args)
    ensures var card := db.cards[row];
            var d := Decide(Hydrated(card), requested, card.repairs);
            && EventsOf(db'.events, id) == EventsOf(db.events, id) +
                 [Event(id, FromState(card), d.state, card.status, StatusOf(d.state), d.reason, args.actor, args.now)]
            && ObservationsOf(db'.observations, id) == ObservationsOf(db.observations, id) +
                 [Observation(id, MaxSequence(db.observations, id) + 1, FromState(card), d.state, d.repairs)]
            && MaxSequence(db'.observations, id) == MaxSequence(db.observations, id) + 1
  {
    hide Decide, Hydrated;
    assert db'.events[..|db'.events| - 1] == db.events;
    assert db'.observations[..|db'.observations| - 1] == db.observations;
  }

  lemma EventExtends(from: State, own: seq<Event>, mid: State, event: Event)
    requires Path(from, own, mid) && event.from == mid && event.to in Edges(mid)
    requires event.fromStatus == StatusOf(event.from) && event.toStatus == StatusOf(event.to)
    ensures Path(from, own + [event], event.to)
    ensures forall s :: Entries(own + [event], s) == Entries(own, s) + (if event.to == s then 1 else 0)
  {
    assert (own + [event])[..|own + [event]| - 1] == own;
  }

  lemma ValidRow(db: Db, row: nat)
    requires Valid(db) && row in db.cards
    ensures RowOk(db.cards[row])
  {
  }

  lemma StepReplays(db: Db, db': Db, row: nat, id: string, from: State, repairs: int, earlier: nat)
    requires Replays(db, row, id, from, repairs, earlier) && Valid(db') && StepShape(db, db', row, id)
    ensures Replays(db', row, id, from, repairs, earlier)
  {
    ValidRow(db, row);
    hide Decide, EventsOf, ObservationsOf, MaxSequence, LogLeads, Hydrated;
    if !Unmoved(db, db', row, id) {
      var requested, args :| Moved(db, db', row, id, requested, args);
      MovedAppends(db, db', row, id, requested, args);
      var card := db.cards[row];
      ProjectionForState(card);
      var all, now := EventsOf(db.events, id), EventsOf(db'.events, id);
      LogExtends(from, repairs, all[earlier..], card, requested, now[|all|]);
      assert now[earlier..] == all[earlier..] + [now[|all|]];
    }
  }

  // Reading a sound row: its state is the stored one, and its status the state's.
  lemma ProjectionForState(card: Card)
    requires RowOk(card)
    ensures FromState(card) == Hydrated(card) && card.status == StatusOf(Hydrated(card))
  {
    ProjectionShape(StateOf(card.status), New, card.status);
  }

  // The event of one decided step extends the log.
  lemma LogExtends(from: State, start: int, log: seq<Event>, card: Card, requested: State, event: Event)
    requires LogLeads(from, start, log, Hydrated(card), card.repairs)
    requires Decide(Hydrated(card), requested, card.repairs).allowed
    requires event.from == Hydrated(card) && event.to == Decide(Hydrated(card), requested, card.repairs).state
    requires event.fromStatus == StatusOf(event.from) && event.toStatus == StatusOf(event.to)
    ensures var d := Decide(Hydrated(card), requested, card.repairs);
            LogLeads(from, start, log + [event], d.state, d.repairs)
  {
    hide Decide, Fuel, Path, Entries, Edges, Hydrated;
    DecideTakesAnEdge(Hydrated(card), requested, card.repairs);
    StepBurnsFuel(Hydrated(card), requested, card.repairs);
    EventExtends(from, log, Hydrated(card), event);
  }

  lemma StepKeepsDense(db: Db, db': Db, row: nat, id: string)
    requires StepShape(db, db', row, id)
    ensures Dense(db.observations, id) ==> Dense(db'.observations, id)
    ensures |EventsOf(db'.events, id)| - |EventsOf(db.events, id)| ==
            |ObservationsOf(db'.observations, id)| - |ObservationsOf(db.observations, id)|
  {
    hide Decide, EventsOf, ObservationsOf, MaxSequence;
    if !Unmoved(db, db', row, id) {
      var requested, args :| Moved(db, db', row, id, requested, args);
      MovedAppends(db, db', row, id, requested, args);
    }
  }

  /** From any card, over any run of application calls, imports and raw statements
      on other rows that neither deletes it nor imports events into its log, the
      events recorded meanwhile are a path from the state it had to the state it has; its repair counter grew by
      exactly the entries into Repair; and the run's length is bounded by its fuel
      plus four per visit to Blocked. Numbering stays dense. */
  lemma {:induction false} HistoryReplays(db: Db, ops: seq<Op>, row: nat, id: string)
    requires Holds(db, row, id) && HistoryOps(ops, row, id)
    ensures Replays(RunAll(db, ops), row, id, Hydrated(db.cards[row]), db.cards[row].repairs, |EventsOf(db.events, id)|)
    ensures Dense(db.observations, id) ==> Dense(RunAll(db, ops).observations, id)
    ensures |EventsOf(RunAll(db, ops).events, id)| - |EventsOf(db.events, id)| ==
            |ObservationsOf(RunAll(db, ops).observations, id)| - |ObservationsOf(db.observations, id)|
  {
    if ops != [] {
      var prefix := ops[..|ops| - 1];
      HistoryReplays(db, prefix, row, id);
      var mid := RunAll(db, prefix);
      StepHasShape(mid, row, id, ops[|ops| - 1]);
      StepKeepsValid(mid, ops[|ops| - 1]);
      StepKeepsDense(mid, RunAll(db, ops), row, id);
      StepReplays(mid, RunAll(db, ops), row, id, Hydrated(db.cards[row]), db.cards[row].repairs,
                  |EventsOf(db.events, id)|);
    }
  }

  /** A card created through the application: its whole log is a path from New
      or Ready to its current state, numbered 1..n, its repair counter is the
      number of entries into Repair and never passes two, and a log that avoids
      Blocked has at most eight transitions. */
  lemma CreatedCardHistory(db: Db, row: nat, card: NewCard, sortOrder: real, now: int, ops: seq<Op>)
    requires Valid(db) && Create(db, row, card, sortOrder, now).reply.Ok? && HistoryOps(ops, row, card.id)
    requires EventsOf(db.events, card.id) == [] && ObservationsOf(db.observations, card.id) == []
    ensures var end := RunAll(Create(db, row, card, sortOrder, now).db, ops);
            var log := EventsOf(end.events, card.id);
            && Holds(end, row, card.id)
            && (Path(New, log, Hydrated(end.cards[row])) || Path(Ready, log, Hydrated(end.cards[row])))
            && end.cards[row].repairs == Entries(log, Repair) <= REPAIR_LIMIT
            && Dense(end.observations, card.id) && |ObservationsOf(end.observations, card.id)| == |log|
            && |log| <= 8 + 4 * Entries(log, Blocked)
  {
    var start := Create(db, row, card, sortOrder, now).db;
    CreatedStart(db, row, card, sortOrder, now);
    hide Create, EventsOf, ObservationsOf, MaxSequence, Path, RunAll, Decide, Hydrated, HistoryOps, Dense, Replays,
      Holds;
    HistoryReplays(start, ops, row, card.id);
    WholeLog(RunAll(start, ops), row, card.id, Hydrated(start.cards[row]));
  }

  // A log that replays a card from its beginning.
  lemma WholeLog(db: Db, row: nat, id: string, start: State)
    requires Replays(db, row, id, start, 0, 0) && start in {New, Ready}
    ensures var log := EventsOf(db.events, id);
            && Holds(db, row, id) && Path(start, log, Hydrated(db.cards[row]))
            && db.cards[row].repairs == Entries(log, Repair) <= REPAIR_LIMIT
            && |log| <= 8 + 4 * Entries(log, Blocked)
  {
    hide EventsOf, Path, Decide, Hydrated;
    var log := EventsOf(db.events, id);
    assert log[0..] == log;
    ValidRow(db, row);
    assert Fuel(Hydrated(db.cards[row]), db.cards[row].repairs) >= 0;
  }

  // The steps a log may record, pair by pair; a third repair is recorded as a block.
  predicate RecordedStep(from: State, to: State) {
    || (from == New && to == Ready) || (from == Ready && to == Running) || (from == Running && to == Verify)
    || (from == Verify && to == Repair) || (from == Repair && to == Verify) || (from == Verify && to == Done)
    || (from == Blocked && to == Ready) || (to == Blocked && from != Blocked && from != Done)
  }

  // A path event by event: each goes on where the one before it ended.
  lemma {:induction false} PathSteps(start: State, log: seq<Event>, finish: State)
    requires Path(start, log, finish)
    ensures forall i :: 0 <= i < |log| ==> RecordedStep(log[i].from, log[i].to)
    ensures forall i :: 0 < i < |log| ==> log[i].from == log[i - 1].to
    ensures if log == [] then finish == start else log[0].from == start && log[|log| - 1].to == finish
    ensures forall i :: 0 <= i < |log| && log[i].to == Done ==> i == |log| - 1
  {
    if log != [] {
      var prefix, last := log[..|log| - 1], log[|log| - 1];
      PathSteps(start, prefix, last.from);
      EdgesRecorded(last.from, last.to);
      assert forall i :: 0 <= i < |prefix| ==> prefix[i] == log[i];
      forall i | 0 < i < |log| ensures log[i].from == log[i - 1].to {
        assert log[i - 1] == prefix[i - 1];
      }
    }
  }

  lemma EdgesRecorded(from: State, to: State)
    ensures to in Edges(from) <==> RecordedStep(from, to)
  {
    match from case _ => match to case _ =>
  }

  // From New or Ready, each event goes on where the last one ended, by one of the
  // listed steps; the last ends at the state the card has.
  predicate StepByStep(db: Db, row: nat, id: string) {
    var log := EventsOf(db.events, id);
    && (forall i :: 0 <= i < |log| ==> RecordedStep(log[i].from, log[i].to))
    && (forall i :: 0 < i < |log| ==> log[i].from == log[i - 1].to)
    && (log != [] ==> log[0].from in {New, Ready})
    && row in db.cards && Hydrated(db.cards[row]) in (if log == [] then {New, Ready} else {log[|log| - 1].to})
  }

  /** What the log of a created card shows, over the same runs. So a card is finished
      from verification only and for good, and a blocked one becomes ready before
      anything else. */
  lemma CreatedCardLog(db: Db, row: nat, card: NewCard, sortOrder: real, now: int, ops: seq<Op>)
    requires Valid(db) && Create(db, row, card, sortOrder, now).reply.Ok? && HistoryOps(ops, row, card.id)
    requires EventsOf(db.events, card.id) == [] && ObservationsOf(db.observations, card.id) == []
    ensures var end := RunAll(Create(db, row, card, sortOrder, now).db, ops); var log := EventsOf(end.events, card.id);
            && StepByStep(end, row, card.id)
            && (forall i :: 0 <= i < |log| && log[i].to == Done ==> log[i].from == Verify && i == |log| - 1)
            && (forall i :: 0 <= i < |log| && log[i].from == Blocked ==> log[i].to == Ready)
  {
    CreatedCardHistory(db, row, card, sortOrder, now, ops);
    hide *;
    LogFromStart(RunAll(Create(db, row, card, sortOrder, now).db, ops), row, card.id);
  }

  lemma LogFromStart(db: Db, row: nat, id: string)
    requires row in db.cards
    requires var log, finish := EventsOf(db.events, id), Hydrated(db.cards[row]);
             Path(New, log, finish) || Path(Ready, log, finish)
    ensures var log := EventsOf(db.events, id);
            && StepByStep(db, row, id)
            && (forall i :: 0 <= i < |log| && log[i].to == Done ==> log[i].from == Verify && i == |log| - 1)
            && (forall i :: 0 <= i < |log| && log[i].from == Blocked ==> log[i].to == Ready)
  {
    hide EventsOf, Path, Hydrated;
    var log := EventsOf(db.events, id);
    PathSteps(if Path(New, log, Hydrated(db.cards[row])) then New else Ready, log, Hydrated(db.cards[row]));
  }

  lemma CreatedStart(db: Db, row: nat, card: NewCard, sortOrder: real, now: int)
    requires Valid(db) && Create(db, row, card, sortOrder, now).reply.Ok?
    requires EventsOf(db.events, card.id) == [] && ObservationsOf(db.observations, card.id) == []
    ensures var start := Create(db, row, card, sortOrder, now).db;
            && Holds(start, row, card.id) && Hydrated(start.cards[row]) in {New, Ready} && start.cards[row].repairs == 0
            && EventsOf(start.events, card.id) == [] && ObservationsOf(start.observations, card.id) == []
            && Dense(start.observations, card.id)
  {
    StepKeepsValid(db, CreateOp(row, card, sortOrder, now));
    NoObservations(db.observations, card.id);
    hide EventsOf, ObservationsOf, MaxSequence;
  }

  lemma NoObservations(observations: seq<Observation>, id: string)
    requires ObservationsOf(observations, id) == []
    ensures MaxSequence(observations, id) == 0
  {
    if observations != [] {
      NoObservations(observations[..|observations| - 1], id);
    }
  }

  // ---- The bound is reached -----------------------------------------------------------

  // A board on which no lane is enforced.
  predicate Unenforced(db: Db) {
    forall lane :: lane in db.policy ==> !db.policy[lane].enforce
  }

  lemma ChangedMoves(db: Db, row: nat, id: string, requested: State, args: MoveArgs, override: Option<Policy>)
    requires Holds(db, row, id) && Steps(db.cards[row], requested)
    requires TransitionRow(db, row, id, requested, args, override).reply.Ok?
    requires TransitionRow(db, row, id, requested, args, override).reply.value.changed
    ensures var db' := TransitionRow(db, row, id, requested, args, override).db;
            row in db'.cards && Moved(db, db', row, id, requested, args)
  {
    var card := db.cards[row];
    ValidRow(db, row);
    DecideTakesAnEdge(FromState(card), requested, card.repairs);
    ExecTransitioned(db, row, Stepped(card, requested, args));
  }

  lemma FreeIsWritten(db: Db, row: nat, id: string, requested: State, args: MoveArgs)
    requires Holds(db, row, id) && SafeId(id) && Unenforced(db) && db.cards[row].lane.Some? && args.lane.None?
    requires Steps(db.cards[row], requested)
    ensures var reply := TransitionRow(db, row, id, requested, args, None).reply; reply.Ok? && reply.value.changed
  {
    TransitionMatchesTriggers(db, row, id, requested, args);
    hide Exec, EvaluateLane, Decide;
    assert !LaneTriggersAbort(db, row, Stepped(db.cards[row], requested, args));
  }

  lemma FreeTransition(db: Db, row: nat, id: string, requested: State, args: MoveArgs)
    requires Holds(db, row, id) && SafeId(id) && Unenforced(db) && db.cards[row].lane.Some? && args.lane.None?
    requires requested != Hydrated(db.cards[row])
    requires Decide(Hydrated(db.cards[row]), requested, db.cards[row].repairs).allowed
    ensures var db' := Step(db, CardOp(id, Transit(requested, args, None)));
            Holds(db', row, id) && Unenforced(db') && db'.cards[row].lane.Some? &&
              Moved(db, db', row, id, requested, args)
  {
    ValidRow(db, row);
    ProjectionShape(StateOf(db.cards[row].status), New, db.cards[row].status);
    FreeIsWritten(db, row, id, requested, args);
    ChangedMoves(db, row, id, requested, args, None);
    TransitionWrites(db, row, id, requested, args, None);
    StepKeepsValid(db, CardOp(id, Transit(requested, args, None)));
    hide TransitionRow, Decide;
    assert RowOf(db, id) == Some(row);
  }

  // The state and repair count a card reaches by requesting the targets in turn.
  function Walked(state: State, repairs: int, targets: seq<State>): (State, int) {
    if targets == [] then (state, repairs)
    else
      var at := Walked(state, repairs, targets[..|targets| - 1]);
      var d := Decide(at.0, targets[|targets| - 1], at.1);
      (d.state, d.repairs)
  }

  // Each request is allowed, moves the card, and does not block it.
  predicate Walks(state: State, repairs: int, targets: seq<State>) {
    targets == [] ||
    (Walks(state, repairs, targets[..|targets| - 1]) &&
     var at := Walked(state, repairs, targets[..|targets| - 1]); var d := Decide(at.0, targets[|targets| - 1], at.1);
     targets[|targets| - 1] != at.0 && d.allowed && d.state != Blocked)
  }

  function Moves(id: string, targets: seq<State>, args: MoveArgs): seq<Op> {
    seq(|targets|, i requires 0 <= i < |targets| => CardOp(id, Transit(targets[i], args, None)))
  }

  lemma {:induction false} Walk(db: Db, row: nat, id: string, targets: seq<State>, args: MoveArgs)
    requires Holds(db, row, id) && SafeId(id) && Unenforced(db) && db.cards[row].lane.Some? && args.lane.None?
    requires Walks(Hydrated(db.cards[row]), db.cards[row].repairs, targets)
    ensures var end := RunAll(db, Moves(id, targets, args));
            && Holds(end, row, id) && Unenforced(end) && end.cards[row].lane.Some?
            && (Hydrated(end.cards[row]), end.cards[row].repairs)
            == Walked(Hydrated(db.cards[row]), db.cards[row].repairs, targets)
            && |EventsOf(end.events, id)| == |EventsOf(db.events, id)| + |targets|
            && Entries(EventsOf(end.events, id), Blocked) == Entries(EventsOf(db.events, id), Blocked)
  {
    hide Step, Decide, Hydrated, EventsOf, Moved, Holds, SafeId, Unenforced;
    if targets != [] {
      var prefix, last := targets[..|targets| - 1], targets[|targets| - 1];
      Walk(db, row, id, prefix, args);
      var mid := RunAll(db, Moves(id, prefix, args));
      assert Moves(id, targets, args)[..|targets| - 1] == Moves(id, prefix, args);
      HoldsRow(mid, row, id);
      FreeTransition(mid, row, id, last, args);
      HoldsRow(Step(mid, CardOp(id, Transit(last, args, None))), row, id);
      WalkStep(mid, Step(mid, CardOp(id, Transit(last, args, None))), row, id, last, args);
    }
  }

  lemma HoldsRow(db: Db, row: nat, id: string)
    requires Holds(db, row, id)
    ensures row in db.cards
  {
  }

  lemma WalkStep(db: Db, db': Db, row: nat, id: string, requested: State, args: MoveArgs)
    requires row in db.cards && row in db'.cards && Moved(db, db', row, id, requested, args)
    ensures var d := Decide(Hydrated(db.cards[row]), requested, db.cards[row].repairs);
            && Hydrated(db'.cards[row]) == d.state && db'.cards[row].repairs == d.repairs
            && |EventsOf(db'.events, id)| == |EventsOf(db.events, id)| + 1
            && (d.state != Blocked ==>
                  Entries(EventsOf(db'.events, id), Blocked) == Entries(EventsOf(db.events, id), Blocked))
  {
    hide Decide, Hydrated, EventsOf, ObservationsOf, MaxSequence;
    MovedAppends(db, db', row, id, requested, args);
    var before, after := EventsOf(db.events, id), EventsOf(db'.events, id);
    assert after[..|after| - 1] == before;
  }

  // What to request of a card to finish it.
  function WayToDone(state: State): seq<State> {
    match state
    case New => [Ready, Running, Verify, Done]
    case Ready => [Running, Verify, Done]
    case Running => [Verify, Done]
    case Verify => [Done]
    case Repair => [Verify, Done]
    case Blocked => [Ready, Running, Verify, Done]
    case Done => []
  }

  lemma WalksOn(state: State, repairs: int, targets: seq<State>, next: State)
    requires Walks(state, repairs, targets)
    requires var at := Walked(state, repairs, targets);
             next != at.0 && Decide(at.0, next, at.1).allowed && Decide(at.0, next, at.1).state != Blocked
    ensures Walks(state, repairs, targets + [next])
    ensures var at := Walked(state, repairs, targets); var d := Decide(at.0, next, at.1);
            Walked(state, repairs, targets + [next]) == (d.state, d.repairs)
  {
    hide Decide;
    assert (targets + [next])[..|targets + [next]| - 1] == targets;
  }

  lemma NoTargets(state: State, repairs: int)
    ensures Walks(state, repairs, []) && Walked(state, repairs, []) == (state, repairs)
  {
  }

  lemma WayToDoneWalks(state: State, repairs: int)
    ensures Walks(state, repairs, WayToDone(state)) && Walked(state, repairs, WayToDone(state)) == (Done, repairs)
  {
    hide Walks, Walked, Decide;
    var way := WayToDone(state);
    var done := [];
    NoTargets(state, repairs);
    while |done| < |way|
      invariant |done| <= |way| && done == way[..|done|]
      invariant Walks(state, repairs, done)
      invariant Walked(state, repairs, done) == (if done == [] then state else done[|done| - 1], repairs)
    {
      var at, next := if done == [] then state else done[|done| - 1], way[|done|];
      AllowedSteps(at, next, repairs);
      DecisionMeaning(at, next, repairs);
      WalksOn(state, repairs, done, next);
      done := done + [next];
    }
    assert way == done;
  }

  /** No state is a dead end: on a board that enforces no lane limit, every card
      with an accepted id and a lane is finished by the requests listed above, from
      whatever state it is in and however often it was repaired. */
  lemma EveryCardCanFinish(db: Db, row: nat, id: string, args: MoveArgs)
    requires Holds(db, row, id) && SafeId(id) && Unenforced(db) && db.cards[row].lane.Some? && args.lane.None?
    ensures var end := RunAll(db, Moves(id, WayToDone(Hydrated(db.cards[row])), args));
            row in end.cards && Hydrated(end.cards[row]) == Done && end.cards[row].status == Finished
  {
    WayToDoneWalks(Hydrated(db.cards[row]), db.cards[row].repairs);
    hide Walks, Walked, Decide, Step, RunAll, Moves;
    Walk(db, row, id, WayToDone(Hydrated(db.cards[row])), args);
    ProjectionForState(RunAll(db, Moves(id, WayToDone(Hydrated(db.cards[row])), args)).cards[row]);
  }

  const OPEN_LANES: map<string, Policy> := map lane | lane in LANES :: Policy(0, false)
  const ANY_MOVE := MoveArgs(0.0, None, None, 0)
  const LONG_WAY := [Ready, Running, Verify, Repair, Verify, Repair, Verify, Done]

  lemma LongWayWalks()
    ensures Walks(New, 0, LONG_WAY) && Walked(New, 0, LONG_WAY) == (Done, 2)
  {
    var t := LONG_WAY;
    assert Walks(New, 0, t[..0]);
    assert t[..1][..0] == t[..0] && Walks(New, 0, t[..1]) && Walked(New, 0, t[..1]) == (Ready, 0);
    assert t[..2][..1] == t[..1] && Walks(New, 0, t[..2]) && Walked(New, 0, t[..2]) == (Running, 0);
    assert t[..3][..2] == t[..2] && Walks(New, 0, t[..3]) && Walked(New, 0, t[..3]) == (Verify, 0);
    assert t[..4][..3] == t[..3] && Walks(New, 0, t[..4]) && Walked(New, 0, t[..4]) == (Repair, 1);
    assert t[..5][..4] == t[..4] && Walks(New, 0, t[..5]) && Walked(New, 0, t[..5]) == (Verify, 1);
    assert t[..6][..5] == t[..5] && Walks(New, 0, t[..6]) && Walked(New, 0, t[..6]) == (Repair, 2);
    assert t[..7][..6] == t[..6] && Walks(New, 0, t[..7]) && Walked(New, 0, t[..7]) == (Verify, 2);
    assert t[..8] == t && t[..8][..7] == t[..7];
  }

  /** The bound of CreatedCardHistory is tight: on an empty board a card is created
      whose run ends in Done with a log of eight events, none of them entering
      Blocked. */
  lemma EightIsReached() returns (db: Db, card: NewCard, ops: seq<Op>)
    ensures Valid(db) && Create(db, 0, card, 0.0, 0).reply.Ok? && HistoryOps(ops, 0, card.id)
    ensures EventsOf(db.events, card.id) == [] && ObservationsOf(db.observations, card.id) == []
    ensures var end := RunAll(Create(db, 0, card, 0.0, 0).db, ops);
            && Holds(end, 0, card.id) && Hydrated(end.cards[0]) == Done && end.cards[0].repairs == 2
            && |EventsOf(end.events, card.id)| == 8 && Entries(EventsOf(end.events, card.id), Blocked) == 0
  {
    db := Db(map[], OPEN_LANES, false, [], []);
    card := NewCard("c", StateRequest(Some("new"), None, None), Some("DEVELOPMENT"), "", "");
    ops := Moves("c", LONG_WAY, ANY_MOVE);
    var start := Create(db, 0, card, 0.0, 0).db;
    assert ResolveInitial(card.request) == Ok(New);
    assert start.cards == map[0 := Fresh(card, New, 0.0, 0)];
    StepKeepsValid(db, CreateOp(0, card, 0.0, 0));
    LongWayWalks();
    hide Walks, Walked, Step, Decide, Create;
    Walk(start, 0, "c", LONG_WAY, ANY_MOVE);
  }

  /** A card whose id the observation log rejects can be created but never
      leaves its state: every allowed transition throws and is rolled back. */
  lemma {:induction false} UnsafeIdNeverMoves(db: Db, ops: seq<Op>, row: nat, id: string)
    requires Holds(db, row, id) && HistoryOps(ops, row, id) && !SafeId(id)
    ensures Holds(RunAll(db, ops), row, id)
    ensures Hydrated(RunAll(db, ops).cards[row]) == Hydrated(db.cards[row])
    ensures EventsOf(RunAll(db, ops).events, id) == EventsOf(db.events, id)
  {
    if ops != [] {
      var prefix := ops[..|ops| - 1];
      UnsafeIdNeverMoves(db, prefix, row, id);
      StepHasShape(RunAll(db, prefix), row, id, ops[|ops| - 1]);
      StepKeepsValid(RunAll(db, prefix), ops[|ops| - 1]);
    }
  }
}
