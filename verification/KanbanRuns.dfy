/** Whole runs of card writers, application calls and raw SQL interleaved:
    the projection invariant, the lane WIP bound and its exact exception. */
module KanbanRuns {
  import opened Prelude
  import opened KanbanWorkflow
  import opened KanbanStore
  import opened KanbanApi
  import opened KanbanLanes
  import opened TitleGate

  // What can be asked of one existing card.
  datatype Act =
    | Transit(requested: State, args: MoveArgs, override: Option<Policy>)
    | MoveTo(status: Status, args: MoveArgs)
    | MoveGated(status: Status, args: MoveArgs, override: Option<Policy>)
    | EditFields(edit: Edit, now: int)
    | EditGated(edit: Edit, override: Option<Policy>, now: int)
    | Archive(now: int)
    | Unarchive(now: int)
    | UnarchiveGated(policy: Policy, now: int)
    | Comment(now: int)
    | MarkDispatched(now: int)
    | Remove

  // One write by any caller. Row numbers of insertions are SQLite's choice;
  // a taken one makes the insertion fail.
  datatype Op =
    | CardOp(id: string, act: Act)
    | CreateOp(row: nat, card: NewCard, sortOrder: real, now: int)
    | ImportOp(row: nat, snapshot: Card)
    | ImportEventOp(event: Event)
    | AutoArchiveOp(now: int, cutoff: int)
    | RawOp(stmt: Statement)

  function RowStep(db: Db, row: nat, id: string, act: Act): Answer
    requires row in db.cards
  {
    match act
    case Transit(requested, args, override) => TransitionRow(db, row, id, requested, args, override)
    case MoveTo(status, args) => MoveRow(db, row, id, status, args)
    case MoveGated(status, args, override) => MoveGatedRow(db, row, id, status, args, override)
    case EditFields(edit, now) => EditRow(db, row, edit, now)
    case EditGated(edit, override, now) => EditGatedRow(db, row, id, edit, override, now)
    case Archive(now) => ArchiveRow(db, row, now)
    case Unarchive(now) => UnarchiveRow(db, row, now)
    case UnarchiveGated(policy, now) => UnarchiveGatedRow(db, row, id, policy, now)
    case Comment(now) => CommentRow(db, row, now)
    case MarkDispatched(now) => DispatchRow(db, row, now)
    case Remove => DeleteRow(db, row)
  }

  ghost function CardStep(db: Db, id: string, act: Act): Answer {
    match RowOf(db, id)
    case None => Answer(db, Ok(NOT_FOUND))
    case Some(row) => RowStep(db, row, id, act)
  }

  ghost function Step(db: Db, op: Op): Db {
    match op
    case CardOp(id, act) => CardStep(db, id, act).db
    case CreateOp(row, card, sortOrder, now) => Create(db, row, card, sortOrder, now).db
    case ImportOp(row, card) => Import(db, row, card).db
    case ImportEventOp(event) => ImportEvent(db, event)
    case AutoArchiveOp(now, cutoff) => AutoArchive(db, now, cutoff)
    case RawOp(stmt) => if Exec(db, stmt).Ok? then Exec(db, stmt).value else db
  }

  ghost function RunAll(db: Db, ops: seq<Op>): Db {
    if ops == [] then db else Step(RunAll(db, ops[..|ops| - 1]), ops[|ops| - 1])
  }

  function Imports(ops: seq<Op>): nat {
    if ops == [] then 0 else Imports(ops[..|ops| - 1]) + (if ops[|ops| - 1].ImportOp? then 1 else 0)
  }

  // ---- Every application write is at most one row statement --------------------

  // The tables that matter here moved by one successful statement or not at all.
  ghost predicate OneStatement(db: Db, db': Db) {
    || db'.cards == db.cards
    || exists stmt :: Exec(db, stmt).Ok? && Exec(db, stmt).value.cards == db'.cards
  }

  lemma RowStepIsOneStatement(db: Db, row: nat, id: string, act: Act)
    requires row in db.cards
    ensures var db' := RowStep(db, row, id, act).db;
            OneStatement(db, db') && db'.policy == db.policy && db'.importing == db.importing
  {
    hide TransitionRow, EvaluateLane, UnarchiveGate, Exec;
    match act {
      case Transit(requested, args, override) => TransitionIsOneStatement(db, row, id, requested, args, override);
      case MoveTo(status, args) =>
        TransitionIsOneStatement(db, row, id, StateOf(status), args, None);
        RunIsOneStatement(db, Update(row, Placed(db.cards[row], args), false, args.now), DONE);
      case MoveGated(status, args, override) => MoveGatedIsOneStatement(db, row, id, status, args, override);
      case _ => PlainIsOneStatement(db, row, id, act);
    }
  }

  lemma RunIsOneStatement(db: Db, stmt: Statement, reply: Reply)
    ensures var db' := Run(db, stmt, reply).db;
            OneStatement(db, db') && db'.policy == db.policy && db'.importing == db.importing
  {
    if Exec(db, stmt).Ok? {
      ExecRows(db, stmt);
    }
  }

  lemma MoveGatedIsOneStatement(db: Db, row: nat, id: string, status: Status, args: MoveArgs, override: Option<Policy>)
    requires row in db.cards
    ensures var db' := MoveGatedRow(db, row, id, status, args, override).db;
            OneStatement(db, db') && db'.policy == db.policy && db'.importing == db.importing
  {
    hide TransitionRow, EvaluateLane, Run, OneStatement;
    var card := db.cards[row];
    TransitionIsOneStatement(db, row, id, StateOf(status), args, override);
    NothingIsOneStatement(db);
    if EvaluateLane(db, id, card, status, args.lane, override, card.archivedAt).Ok? {
      var gate := EvaluateLane(db, id, card, status, args.lane, override, card.archivedAt).value;
      RunIsOneStatement(db, Update(row, card.(sortOrder := args.sortOrder, updatedAt := args.now,
                                              lane := EffectiveLane(args.lane, card.lane)), false, args.now),
                        DONE.(laneGate := gate.laneGate));
    }
  }

  lemma NothingIsOneStatement(db: Db)
    ensures OneStatement(db, db)
  {
  }

  // The writers that are one statement or none, whatever they answer.
  lemma PlainIsOneStatement(db: Db, row: nat, id: string, act: Act)
    requires row in db.cards && !act.Transit? && !act.MoveTo? && !act.MoveGated?
    ensures var db' := RowStep(db, row, id, act).db;
            OneStatement(db, db') && db'.policy == db.policy && db'.importing == db.importing
  {
    hide EvaluateLane, UnarchiveGate, Exec, OneStatement, Refuses;
    NothingIsOneStatement(db);
    forall stmt: Statement, reply: Reply
      ensures var db' := Run(db, stmt, reply).db;
              OneStatement(db, db') && db'.policy == db.policy && db'.importing == db.importing
    {
      RunIsOneStatement(db, stmt, reply);
    }
  }

  lemma TransitionIsOneStatement(db: Db, row: nat, id: string, requested: State, args: MoveArgs,
                                 override: Option<Policy>)
    requires row in db.cards
    ensures var db' := TransitionRow(db, row, id, requested, args, override).db;
            OneStatement(db, db') && db'.policy == db.policy && db'.importing == db.importing
  {
    hide Exec, EvaluateLane, Refuses, Decide, MaxSequence;
    var card := db.cards[row];
    var d := Decide(FromState(card), requested, card.repairs);
    var stmt := Update(row, Transitioned(card, d, args), true, args.now);
    NothingIsOneStatement(db);
    RunIsOneStatement(db, Update(row, Placed(card, args), false, args.now),
                      Reply(true, Some(FromState(card)), None, None, false));
    if requested != FromState(card) && d.allowed && Exec(db, stmt).Ok? {
      ExecRows(db, stmt);
    }
  }

  // ---- One step ---------------------------------------------------------------------

  lemma StepFrame(db: Db, op: Op)
    requires !op.ImportOp? && !op.AutoArchiveOp?
    ensures OneStatement(db, Step(db, op)) && Step(db, op).policy == db.policy && Step(db, op).importing == db.importing
  {
    match op {
      case CardOp(id, act) =>
        if RowOf(db, id).Some? {
          RowStepIsOneStatement(db, RowOf(db, id).value, id, act);
        }
      case RawOp(stmt) =>
        if Exec(db, stmt).Ok? {
          ExecRows(db, stmt);
        }
      case _ =>
    }
  }

  lemma StepKeepsValid(db: Db, op: Op)
    requires Valid(db)
    ensures Valid(Step(db, op)) && Step(db, op).policy == db.policy
  {
    match op {
      case ImportOp(row, card) => ImportKeepsValid(db, row, card);
      case AutoArchiveOp(now, cutoff) =>
        var db' := Step(db, op);
        assert forall r :: r in db'.cards ==>
                 db'.cards[r].id == db.cards[r].id && RowOk(db.cards[r]) && RowOk(db'.cards[r]);
        assert UniqueIds(db'.cards);
      case _ =>
        StepFrame(db, op);
        var db' := Step(db, op);
        if db'.cards != db.cards {
          var stmt :| Exec(db, stmt).Ok? && Exec(db, stmt).value.cards == db'.cards;
          ExecKeepsValid(db, stmt);
        }
    }
  }

  // A successful import adds one row.
  lemma ImportIs(db: Db, row: nat, card: Card)
    ensures var answer := Import(db, row, card);
            || (answer.db == db && Exec(db.(importing := true), Insert(row, card)).Err?)
            || (answer.db == db && (!Projected(card) || (card.lane.Some? && !ValidLane(card.lane.value))))
            || (answer.db == db.(importing := false, cards := db.cards[row := Entered(card)]) &&
                InsertAbort(db.(importing := true), row, card).None?)
  {
    hide InsertAbort, ExecInsert;
    InsertIs(db.(importing := true), row, card);
  }

  lemma ImportKeepsValid(db: Db, row: nat, card: Card)
    requires Valid(db)
    ensures Valid(Import(db, row, card).db) && Import(db, row, card).db.policy == db.policy
  {
    hide ExecInsert, NewTitle;
    var flagged := db.(importing := true);
    if Projected(card) && Exec(flagged, Insert(row, card)).Ok? {
      ImportIs(db, row, card);
      InsertIs(flagged, row, card);
      FreshRow(flagged, row, card);
      PutKeepsUnique(db.cards, row, Entered(card));
    }
  }

  // A step raises an enforced lane above its limit only if it is an import,
  // and then by at most one card.
  lemma StepKeepsWip(db: Db, op: Op, lane: string)
    requires !db.importing && Enforced(db, lane)
    ensures var limit := db.policy[lane].limit;
            var before, after := RunningCount(db.cards, lane), RunningCount(Step(db, op).cards, lane);
            if op.ImportOp? then after <= before + 1 else after <= before || after <= limit
  {
    if op.ImportOp? {
      ImportKeepsWip(db, op.row, op.snapshot, lane);
    } else if op.AutoArchiveOp? {
      AutoArchiveKeepsWip(db, op.now, op.cutoff, lane);
    } else {
      StepFrame(db, op);
      OneStatementKeepsWip(db, Step(db, op), lane);
    }
  }

  lemma ImportKeepsWip(db: Db, row: nat, card: Card, lane: string)
    ensures RunningCount(Import(db, row, card).db.cards, lane) <= RunningCount(db.cards, lane) + 1
  {
    hide RunningRows, InsertAbort, Runs, Import;
    RunningAfterPut(db.cards, row, Entered(card), lane);
    AtMostOneMore(RunningRows(db.cards, lane), row);
    ImportIs(db, row, card);
  }

  lemma AtMostOneMore(rows: set<nat>, row: nat)
    ensures |rows - {row} + {row}| <= |rows| + 1
    ensures |rows - {row} + {}| <= |rows|
  {
    assert rows - {row} + {} == rows - {row};
    SubsetSize(rows - {row}, rows);
  }

  lemma AutoArchiveKeepsWip(db: Db, now: int, cutoff: int, lane: string)
    ensures RunningCount(AutoArchive(db, now, cutoff).cards, lane) <= RunningCount(db.cards, lane)
  {
    SubsetSize(RunningRows(AutoArchive(db, now, cutoff).cards, lane), RunningRows(db.cards, lane));
  }

  lemma OneStatementKeepsWip(db: Db, db': Db, lane: string)
    requires !db.importing && Enforced(db, lane) && OneStatement(db, db')
    ensures WipKept(db, db'.cards, lane)
  {
    if db'.cards != db.cards {
      var stmt :| Exec(db, stmt).Ok? && Exec(db, stmt).value.cards == db'.cards;
      ExecKeepsWip(db, stmt, lane);
    }
  }

  // ---- Whole runs ----------------------------------------------------------------------

  /** Whatever mix of application calls, imports and raw statements ran, every
      row's canonical state is NULL or compatible with its status, so the state
      readers see always projects back to the stored status. */
  lemma {:induction false} ProjectionHolds(db: Db, ops: seq<Op>)
    requires Valid(db)
    ensures Valid(RunAll(db, ops)) && RunAll(db, ops).policy == db.policy
    ensures var db' := RunAll(db, ops);
            forall r :: r in db'.cards ==>
              && (db'.cards[r].wf.Some? ==> Compatible(db'.cards[r].wf.value, db'.cards[r].status))
              && StatusOf(Hydrated(db'.cards[r])) == db'.cards[r].status
              && FromState(db'.cards[r]) == Hydrated(db'.cards[r])
  {
    if ops != [] {
      ProjectionHolds(db, ops[..|ops| - 1]);
      StepKeepsValid(RunAll(db, ops[..|ops| - 1]), ops[|ops| - 1]);
    }
    var db' := RunAll(db, ops);
    forall r | r in db'.cards
      ensures RowOk(db'.cards[r]) && StatusOf(Hydrated(db'.cards[r])) == db'.cards[r].status
    {
      ProjectionShape(StateOf(db'.cards[r].status), New, db'.cards[r].status);
    }
  }

  /** The WIP bound over every run: an enforced lane's count ends at or below
      the larger of its starting count and its limit, plus one for each fleet
      import. A board within its limits therefore stays within them as long as
      nothing is imported, whatever raw SQL writers do. */
  lemma {:induction false} LaneWipBound(db: Db, ops: seq<Op>, lane: string)
    requires Valid(db) && Enforced(db, lane)
    ensures var start := if RunningCount(db.cards, lane) > db.policy[lane].limit
                         then RunningCount(db.cards, lane) else db.policy[lane].limit;
            RunningCount(RunAll(db, ops).cards, lane) <= start + Imports(ops)
    ensures RunningCount(db.cards, lane) <= db.policy[lane].limit && Imports(ops) == 0 ==>
              RunningCount(RunAll(db, ops).cards, lane) <= db.policy[lane].limit
  {
    if ops != [] {
      var prefix := ops[..|ops| - 1];
      LaneWipBound(db, prefix, lane);
      ProjectionHolds(db, prefix);
      StepKeepsWip(RunAll(db, prefix), ops[|ops| - 1], lane);
    }
  }

  // ---- Lanes stick ------------------------------------------------------------------------

  // Cards running without an execution lane: legacy rows.
  function LanelessRunning(cards: map<nat, Card>): set<nat> {
    set r | r in cards && cards[r].status == InProgress && cards[r].lane.None?
  }

  /** No statement outside an import makes a card run without a lane, and none
      takes a lane away from a row. */
  lemma ExecKeepsLanes(db: Db, stmt: Statement)
    requires !db.importing && Exec(db, stmt).Ok?
    ensures LanelessRunning(Exec(db, stmt).value.cards) <= LanelessRunning(db.cards)
    ensures forall r :: r in db.cards && r in Exec(db, stmt).value.cards && db.cards[r].lane.Some? ==>
              Exec(db, stmt).value.cards[r].lane.Some?
  {
    hide WipFires, WipUpdateFires, Duplicates, ChecksFail, StateConflicts, NeedsReconcile, ExecInsert, ExecUpdate,
      StoredTitle, NewTitle;
    match stmt {
      case Delete(row) =>
      case Insert(row, card) => InsertIs(db, row, card);
      case Update(row, card, namesState, clock) => UpdateIs(db, row, card, namesState, clock);
    }
  }

  /** Over every run without imports, whoever writes, the cards running without a
      lane are among those that did at the start. */
  lemma {:induction false} NoLanelessStart(db: Db, ops: seq<Op>)
    requires Valid(db) && Imports(ops) == 0
    ensures LanelessRunning(RunAll(db, ops).cards) <= LanelessRunning(db.cards)
  {
    hide Exec, Step;
    if ops != [] {
      var prefix, last := ops[..|ops| - 1], ops[|ops| - 1];
      NoLanelessStart(db, prefix);
      ProjectionHolds(db, prefix);
      StepKeepsLanes(RunAll(db, prefix), last);
    }
  }

  lemma StepKeepsLanes(db: Db, op: Op)
    requires Valid(db) && !op.ImportOp?
    ensures LanelessRunning(Step(db, op).cards) <= LanelessRunning(db.cards)
  {
    if !op.AutoArchiveOp? {
      hide Exec, Step;
      StepFrame(db, op);
      if Step(db, op).cards != db.cards {
        var stmt :| Exec(db, stmt).Ok? && Exec(db, stmt).value.cards == Step(db, op).cards;
        ExecKeepsLanes(db, stmt);
      }
    }
  }

  /** The import exception is real: one import fills an enforced lane past its limit. */
  lemma ImportPassesTheLimit(db: Db, row: nat, card: Card, lane: string)
    requires Valid(db) && Enforced(db, lane) && row !in db.cards && Runs(card, lane) && RowOk(card)
    requires card.id.Some? && !Duplicates(db.cards, row, card.id)
    requires RunningCount(db.cards, lane) >= db.policy[lane].limit
    ensures RunningCount(Step(db, ImportOp(row, card)).cards, lane) == RunningCount(db.cards, lane) + 1
    ensures Exec(db, Insert(row, card)).Err?
  {
    InsertIs(db.(importing := true), row, card);
    InsertIs(db, row, card);
    RunningAfterPut(db.cards, row, Entered(card), lane);
    assert RunningRows(db.cards, lane) - {row} == RunningRows(db.cards, lane);
    ProjectionForRow(card);
  }

  // ---- Titles and time stamps ----------------------------------------------------------------

  /** Over every run, whoever writes and whatever is imported, a title over the
      limit is one that was in the same row at the start. */
  lemma {:induction false} TitlesStayShort(db: Db, ops: seq<Op>)
    requires Valid(db)
    ensures OverlongTitles(RunAll(db, ops).cards) <= OverlongTitles(db.cards)
  {
    hide Step, OverlongTitles;
    if ops != [] {
      var prefix := ops[..|ops| - 1];
      TitlesStayShort(db, prefix);
      ProjectionHolds(db, prefix);
      StepKeepsTitles(RunAll(db, prefix), ops[|ops| - 1]);
    }
  }

  lemma StepKeepsTitles(db: Db, op: Op)
    requires Valid(db)
    ensures OverlongTitles(Step(db, op).cards) <= OverlongTitles(db.cards)
  {
    if op.ImportOp? {
      hide Import;
      ImportIs(db, op.row, op.snapshot);
    } else if !op.AutoArchiveOp? {
      hide Exec, Step;
      StepFrame(db, op);
      if Step(db, op).cards != db.cards {
        var stmt :| Exec(db, stmt).Ok? && Exec(db, stmt).value.cards == Step(db, op).cards;
        ExecKeepsTitles(db, stmt);
      }
    }
  }

  /** A raw statement that finishes a card without touching its time: the sweep of
      the next listing archives the card if and only if its cutoff is past the
      statement itself, however long ago the card had last changed. */
  lemma FinishedCardIsSweptByAge(db: Db, stmt: Statement, now: int, cutoff: int)
    requires stmt.Update? && stmt.row in db.cards && Exec(db, stmt).Ok?
    requires db.cards[stmt.row].status != Finished && stmt.card.status == Finished && stmt.card.archivedAt.None?
    requires stmt.card.updatedAt == db.cards[stmt.row].updatedAt
    ensures var db' := AutoArchive(Step(db, RawOp(stmt)), now, cutoff);
            stmt.row in db'.cards && (db'.cards[stmt.row].archivedAt.Some? <==> stmt.clock < cutoff)
  {
    StatusChangeIsStamped(db, stmt);
    ExecRows(db, stmt);
    hide Exec;
  }
}
