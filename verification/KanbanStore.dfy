/** The kanban card table as SQLite sees it: rows keyed by rowid, CHECK and
    UNIQUE constraints, and the triggers that guard every writer, including a
    raw SQL connection that never calls the application code (src/db.ts). */
module KanbanStore {
  import opened Prelude
  import opened KanbanWorkflow
  import opened KanbanLanes
  import opened TitleGate

  // `id` is a nullable TEXT primary key: legacy rows without an id exist.
  // `content` stands for description, assignee, priority and the like.
  datatype Card = Card(
    id: Option<string>,
    status: Status,
    wf: Option<State>,
    repairs: int,
    lane: Option<string>,
    archivedAt: Option<int>,
    sortOrder: real,
    updatedAt: int,
    title: string,
    dispatchedAt: Option<int>,
    content: string)

  datatype Policy = Policy(limit: int, enforce: bool)

  datatype Event = Event(cardId: string, from: State, to: State, fromStatus: Status, toStatus: Status,
                         reason: Option<Reason>, actor: Option<string>, at: int)

  datatype Observation = Observation(taskId: string, sequence: nat, from: State, to: State, repairs: int)

  datatype Db = Db(
    cards: map<nat, Card>,
    policy: map<string, Policy>,
    importing: bool,
    events: seq<Event>,
    observations: seq<Observation>)

  // ---- Counting ------------------------------------------------------------

  predicate Runs(card: Card, lane: string) {
    card.status == InProgress && card.archivedAt.None? && card.lane == Some(lane)
  }

  function RunningRows(cards: map<nat, Card>, lane: string): set<nat> {
    set r | r in cards && Runs(cards[r], lane)
  }

  function RunningCount(cards: map<nat, Card>, lane: string): nat {
    |RunningRows(cards, lane)|
  }

  // The lane has a positive limit and the stored policy enforces it.
  predicate Enforced(db: Db, lane: string) {
    lane in db.policy && db.policy[lane].enforce && db.policy[lane].limit > 0
  }

  // ---- Triggers -------------------------------------------------------------

  datatype Abort =
    | IdRequired | LaneRequired | LaneCleared | WipFull | StateConflict | CheckFailed | DuplicateId
    | CommentWithoutCard

  // The WIP trigger for a row that would be `next` while `others` counts the rest.
  predicate WipFires(db: Db, next: Card, others: set<nat>) {
    && next.status == InProgress && next.archivedAt.None? && next.lane.Some?
    && !db.importing
    && Enforced(db, next.lane.value)
    && |others| >= db.policy[next.lane.value].limit
  }

  predicate LaneRequiredFires(was: Card, next: Card) {
    && next.status == InProgress && next.lane.None?
    && !(was.status == InProgress && was.lane.None?)
  }

  predicate LaneClearedFires(was: Card, next: Card) {
    was.lane.Some? && next.lane.None?
  }

  predicate WipUpdateFires(db: Db, row: nat, next: Card)
    requires row in db.cards
  {
    var was := db.cards[row];
    && next.lane.Some?
    && !(was.status == InProgress && was.archivedAt.None? && was.lane == next.lane)
    && WipFires(db, next, RunningRows(db.cards, next.lane.value) - {row})
  }

  // The three lane triggers a row UPDATE can hit.
  predicate LaneTriggersAbort(db: Db, row: nat, next: Card)
    requires row in db.cards
  {
    || LaneRequiredFires(db.cards[row], next)
    || LaneClearedFires(db.cards[row], next)
    || WipUpdateFires(db, row, next)
  }

  predicate StateConflicts(next: Card) {
    next.wf.Some? && !TriggerCompatible(next.status, next.wf.value)
  }

  predicate ChecksFail(next: Card) {
    next.repairs < 0 || (next.lane.Some? && !ValidLane(next.lane.value))
  }

  predicate Duplicates(cards: map<nat, Card>, row: nat, id: Option<string>) {
    id.Some? && exists r :: r in cards && r != row && cards[r].id == id
  }

  // Everything that can abort an UPDATE of one row before it is written.
  // SQLite leaves the order of the BEFORE triggers open; one is fixed here.
  function UpdateAbort(db: Db, row: nat, next: Card, namesState: bool): Option<Abort>
    requires row in db.cards
  {
    var was := db.cards[row];
    if was.id.Some? && next.id.None? then Some(IdRequired)
    else if LaneRequiredFires(was, next) then Some(LaneRequired)
    else if LaneClearedFires(was, next) then Some(LaneCleared)
    else if WipUpdateFires(db, row, next) then Some(WipFull)
    else if namesState && StateConflicts(next) then Some(StateConflict)
    else if ChecksFail(next) then Some(CheckFailed)
    else if Duplicates(db.cards, row, next.id) then Some(DuplicateId)
    else None
  }

  function InsertAbort(db: Db, row: nat, next: Card): Option<Abort> {
    if next.id.None? then Some(IdRequired)
    else if next.status == InProgress && next.lane.None? && !db.importing then Some(LaneRequired)
    else if next.lane.Some? && WipFires(db, next, RunningRows(db.cards, next.lane.value)) then Some(WipFull)
    else if StateConflicts(next) then Some(StateConflict)
    else if ChecksFail(next) then Some(CheckFailed)
    else if Duplicates(db.cards, row, next.id) || row in db.cards then Some(DuplicateId)
    else None
  }

  // ---- Statements -------------------------------------------------------------

  // `namesState` says whether the SET list mentions workflow_state: only then
  // can the column change, and only then does the canonical-update trigger run.
  // `clock` is the time SQLite reads when a trigger stamps the row.
  datatype Statement =
    | Insert(row: nat, card: Card)
    | Update(row: nat, card: Card, namesState: bool, clock: int)
    | Delete(row: nat)

  predicate NeedsReconcile(was: Card, next: Card) {
    was.status != next.status && (next.wf.None? || StateConflicts(next))
  }

  // The status changed and the statement left the time of the last change as it was.
  predicate Unstamped(was: Card, next: Card) {
    was.status != next.status && next.updatedAt == was.updatedAt
  }

  // A cut title is copied to a comment, which a row without an id cannot have.
  predicate CommentFails(was: Card, next: Card) {
    next.id.None? && !Fits(was.title, next.title)
  }

  // The UPDATE of a row that an AFTER trigger issues when it fires; it runs the
  // BEFORE triggers again.
  function Nested(db: Db, row: nat, fires: bool, next: Card, namesState: bool): (r: Result<Db, Abort>)
    requires row in db.cards
    ensures r.Ok? ==> row in r.value.cards
  {
    if !fires then Ok(db)
    else
      var abort := UpdateAbort(db, row, next, namesState);
      if abort.Some? then Err(abort.value) else Ok(db.(cards := db.cards[row := next]))
  }

  // One row statement with its triggers; an abort leaves the table unchanged.
  function Exec(db: Db, stmt: Statement): Result<Db, Abort> {
    match stmt
    case Delete(row) => Ok(db.(cards := db.cards - {row}))
    case Insert(row, card) => ExecInsert(db, row, card)
    case Update(row, card, namesState, clock) => ExecUpdate(db, row, card, namesState, clock)
  }

  function ExecInsert(db: Db, row: nat, card: Card): Result<Db, Abort> {
    var abort := InsertAbort(db, row, card);
    if abort.Some? then Err(abort.value)
    else
      var overlong := |card.title| > TITLE_LIMIT;
      Nested(db.(cards := db.cards[row := card]), row, overlong, card.(title := NewTitle(card.title)), false)
  }

  function ExecUpdate(db: Db, row: nat, card: Card, namesState: bool, clock: int): Result<Db, Abort> {
    if row !in db.cards then Ok(db)
    else
      var was := db.cards[row];
      var next := if namesState then card else card.(wf := was.wf);
      var abort := UpdateAbort(db, row, next, namesState);
      if abort.Some? then Err(abort.value)
      else AfterUpdate(db.(cards := db.cards[row := next]), row, was, clock)
  }

  // The three AFTER triggers of an UPDATE, which reconcile the canonical column,
  // stamp a change of status and cut a title. They write different columns, so
  // the order SQLite runs them in does not matter.
  function AfterUpdate(db: Db, row: nat, was: Card, clock: int): Result<Db, Abort>
    requires row in db.cards
  {
    var next := db.cards[row];
    var first := Nested(db, row, NeedsReconcile(was, next), next.(wf := Some(StateOf(next.status))), true);
    if first.Err? then first
    else
      var db1 := first.value;
      var second := Nested(db1, row, Unstamped(was, next), db1.cards[row].(updatedAt := clock), false);
      if second.Err? then second
      else
        var db2 := second.value;
        if CommentFails(was, next) then Err(CommentWithoutCard)
        else
          Nested(db2, row, !Fits(was.title, next.title),
                 db2.cards[row].(title := StoredTitle(was.title, next.title)), false)
  }

  // What the AFTER triggers make of an inserted and of an updated row.
  function Entered(card: Card): Card {
    card.(title := NewTitle(card.title))
  }

  function Settled(was: Card, next: Card, clock: int): Card {
    next.(wf := if NeedsReconcile(was, next) then Some(StateOf(next.status)) else next.wf,
          updatedAt := if Unstamped(was, next) then clock else next.updatedAt,
          title := StoredTitle(was.title, next.title))
  }

  // ---- Invariant -----------------------------------------------------------------

  predicate Projected(card: Card) {
    card.wf.Some? ==> Compatible(card.wf.value, card.status)
  }

  ghost predicate UniqueIds(cards: map<nat, Card>) {
    forall r, s :: r in cards && s in cards && cards[r].id.Some? && cards[r].id == cards[s].id ==> r == s
  }

  predicate RowOk(card: Card) {
    Projected(card) && !ChecksFail(card)
  }

  ghost predicate Valid(db: Db) {
    && !db.importing
    && db.policy.Keys == LANES
    && UniqueIds(db.cards)
    && (forall r :: r in db.cards ==> RowOk(db.cards[r]))
  }

  // The state readers see: the canonical column when it agrees with the
  // status, otherwise the status's own state.
  function Hydrated(card: Card): State {
    if card.wf.Some? && Compatible(card.wf.value, card.status) then card.wf.value else StateOf(card.status)
  }

  // The columns the aborting triggers and constraints look at, other than the state.
  predicate SameGuarded(card: Card, next: Card) {
    && next.id == card.id && next.status == card.status && next.repairs == card.repairs && next.lane == card.lane
    && next.archivedAt == card.archivedAt
  }

  // What an AFTER trigger writes over a row that passed: it never aborts, so a
  // status change alone always heals the canonical column.
  lemma ReconcileNeverAborts(db: Db, row: nat, next: Card, again: Card, namesState: bool)
    requires row in db.cards && db.cards[row] == next && !ChecksFail(next) && !Duplicates(db.cards, row, next.id)
    requires SameGuarded(next, again) && (namesState ==> again.wf == Some(StateOf(next.status)))
    ensures UpdateAbort(db, row, again, namesState).None?
  {
    ProjectionShape(StateOf(next.status), New, next.status);
  }

  lemma NestedWrites(db: Db, row: nat, fires: bool, again: Card, namesState: bool)
    requires row in db.cards && !ChecksFail(db.cards[row]) && !Duplicates(db.cards, row, db.cards[row].id)
    requires SameGuarded(db.cards[row], again) && (namesState ==> again.wf == Some(StateOf(again.status)))
    ensures Nested(db, row, fires, again, namesState) == Ok(if fires then db.(cards := db.cards[row := again]) else db)
  {
    if fires { ReconcileNeverAborts(db, row, db.cards[row], again, namesState); }
  }

  /** A statement aborts before it has written, or over a title to cut in a row
      without an id: the writes its AFTER triggers issue otherwise all go through,
      and this is the row they leave. */
  lemma UpdateIs(db: Db, row: nat, card: Card, namesState: bool, clock: int)
    ensures Exec(db, Update(row, card, namesState, clock)) ==
            if row !in db.cards then Ok(db)
            else
              var next := if namesState then card else card.(wf := db.cards[row].wf);
              var abort := UpdateAbort(db, row, next, namesState);
              if abort.Some? then Err(abort.value)
              else if CommentFails(db.cards[row], next) then Err(CommentWithoutCard)
              else Ok(db.(cards := db.cards[row := Settled(db.cards[row], next, clock)]))
  {
    if row in db.cards {
      var next := if namesState then card else card.(wf := db.cards[row].wf);
      if UpdateAbort(db, row, next, namesState).None? {
        TriggersSettle(db, row, next, clock, namesState);
      }
    }
  }

  lemma TriggersSettle(db: Db, row: nat, next: Card, clock: int, namesState: bool)
    requires row in db.cards && UpdateAbort(db, row, next, namesState).None?
    ensures AfterUpdate(db.(cards := db.cards[row := next]), row, db.cards[row], clock) ==
            if CommentFails(db.cards[row], next) then Err(CommentWithoutCard)
            else Ok(db.(cards := db.cards[row := Settled(db.cards[row], next, clock)]))
  {
    hide UpdateAbort, Nested, StateConflicts, StoredTitle;
    var was := db.cards[row];
    var db0 := db.(cards := db.cards[row := next]);
    PassedUpdate(db, row, next, namesState);
    NestedWrites(db0, row, NeedsReconcile(was, next), next.(wf := Some(StateOf(next.status))), true);
    var db1 := Nested(db0, row, NeedsReconcile(was, next), next.(wf := Some(StateOf(next.status))), true).value;
    var healed := db1.cards[row];
    assert db1 == db.(cards := db.cards[row := healed]);
    NestedWrites(db1, row, Unstamped(was, next), healed.(updatedAt := clock), false);
    var db2 := Nested(db1, row, Unstamped(was, next), healed.(updatedAt := clock), false).value;
    var stamped := db2.cards[row];
    assert db2 == db.(cards := db.cards[row := stamped]);
    NestedWrites(db2, row, !Fits(was.title, next.title), stamped.(title := StoredTitle(was.title, next.title)), false);
    assert db.cards[row := stamped][row := Settled(was, next, clock)] == db.cards[row := Settled(was, next, clock)];
    TitleKept(was.title, next.title);
  }

  lemma TitleKept(was: string, title: string)
    ensures Fits(was, title) ==> StoredTitle(was, title) == title
  {
  }

  lemma PassedUpdate(db: Db, row: nat, next: Card, namesState: bool)
    requires row in db.cards && UpdateAbort(db, row, next, namesState).None?
    ensures !ChecksFail(next) && !Duplicates(db.cards, row, next.id)
  {
  }

  lemma InsertIs(db: Db, row: nat, card: Card)
    ensures var abort := InsertAbort(db, row, card);
            Exec(db, Insert(row, card)) ==
              if abort.Some? then Err(abort.value) else Ok(db.(cards := db.cards[row := Entered(card)]))
  {
    hide WipFires, StateConflicts, Nested;
    if InsertAbort(db, row, card).None? {
      NestedWrites(db.(cards := db.cards[row := card]), row, |card.title| > TITLE_LIMIT,
                   card.(title := NewTitle(card.title)), false);
      assert db.cards[row := card][row := Entered(card)] == db.cards[row := Entered(card)];
    }
  }

  // What a successful statement leaves in the table.
  lemma ExecRows(db: Db, stmt: Statement)
    requires Exec(db, stmt).Ok?
    ensures var db' := Exec(db, stmt).value;
            && db' == db.(cards := db'.cards)
            && (stmt.Delete? ==> db'.cards == db.cards - {stmt.row})
            && (stmt.Insert? ==> stmt.row !in db.cards && db'.cards == db.cards[stmt.row := Entered(stmt.card)])
            && (stmt.Update? ==>
                  if stmt.row !in db.cards then db' == db
                  else
                    var was, next := db.cards[stmt.row], stmt.card;
                    stmt.row in db'.cards &&
                    var after := db'.cards[stmt.row];
                    && db'.cards == db.cards[stmt.row := after]
                    && after == next.(wf := after.wf, updatedAt := after.updatedAt, title := after.title)
                    && (after.updatedAt == next.updatedAt ||
                        (after.updatedAt == stmt.clock && next.status != was.status && next.updatedAt == was.updatedAt))
                    && after.title == StoredTitle(was.title, next.title))
  {
    hide UpdateAbort, InsertAbort, NeedsReconcile, ExecInsert, ExecUpdate, StoredTitle, NewTitle;
    match stmt {
      case Delete(row) =>
      case Insert(row, card) =>
        InsertIs(db, row, card);
        FreshRow(db, row, card);
      case Update(row, card, namesState, clock) => UpdateIs(db, row, card, namesState, clock);
    }
  }

  lemma FreshRow(db: Db, row: nat, card: Card)
    requires InsertAbort(db, row, card).None?
    ensures row !in db.cards && !Duplicates(db.cards, row, card.id) && !ChecksFail(card)
  {
  }

  /** Every statement, raw or not, keeps the projection invariant: a row's
      canonical state is NULL or compatible with its status. */
  lemma ExecKeepsValid(db: Db, stmt: Statement)
    requires Valid(db) && Exec(db, stmt).Ok?
    ensures Valid(Exec(db, stmt).value)
  {
    hide WipFires, RunningRows, ExecInsert, ExecUpdate, StoredTitle, NewTitle;
    match stmt {
      case Delete(row) =>
      case Insert(row, card) =>
        InsertIs(db, row, card);
        ProjectionForRow(card);
        PutKeepsUnique(db.cards, row, Entered(card));
      case Update(row, card, namesState, clock) =>
        UpdateIs(db, row, card, namesState, clock);
        if row in db.cards {
          UpdateKeepsValid(db, row, card, namesState, clock);
        }
    }
  }

  lemma UpdateKeepsValid(db: Db, row: nat, card: Card, namesState: bool, clock: int)
    requires Valid(db) && row in db.cards && Exec(db, Update(row, card, namesState, clock)).Ok?
    ensures Valid(Exec(db, Update(row, card, namesState, clock)).value)
  {
    hide WipUpdateFires, LaneRequiredFires, LaneClearedFires, ExecUpdate, StoredTitle;
    UpdateIs(db, row, card, namesState, clock);
    var was := db.cards[row];
    var next := if namesState then card else card.(wf := was.wf);
    ProjectionForRow(next);
    ProjectionShape(StateOf(next.status), New, next.status);
    PutKeepsUnique(db.cards, row, Settled(was, next, clock));
    assert RowOk(Settled(was, next, clock));
  }

  lemma PutKeepsUnique(cards: map<nat, Card>, row: nat, card: Card)
    requires UniqueIds(cards) && !Duplicates(cards, row, card.id)
    ensures UniqueIds(cards[row := card])
  {
  }

  lemma ProjectionForRow(card: Card)
    ensures StateConflicts(card) <==> !Projected(card)
  {
    if card.wf.Some? {
      ProjectionShape(card.wf.value, New, card.status);
    }
  }

  // Writing one row changes a lane's running rows by that row only.
  lemma RunningAfterPut(cards: map<nat, Card>, row: nat, card: Card, lane: string)
    ensures RunningRows(cards[row := card], lane) ==
            RunningRows(cards, lane) - {row} + (if Runs(card, lane) then {row} else {})
  {
  }

  // `after` rows run in the lane where `before` did: the count did not pass
  // the larger of its old value and the limit.
  predicate WipKept(db: Db, cards: map<nat, Card>, lane: string)
    requires lane in db.policy
  {
    RunningCount(cards, lane) <= RunningCount(db.cards, lane) || RunningCount(cards, lane) <= db.policy[lane].limit
  }

  lemma InsertAdmits(db: Db, row: nat, card: Card, lane: string)
    requires !db.importing && Enforced(db, lane) && InsertAbort(db, row, card).None?
    ensures row !in RunningRows(db.cards, lane)
    ensures Runs(card, lane) ==> RunningCount(db.cards, lane) < db.policy[lane].limit
  {
    hide ChecksFail, StateConflicts, Duplicates;
  }

  lemma InsertKeepsWip(db: Db, row: nat, card: Card, after: Card, lane: string)
    requires !db.importing && Enforced(db, lane) && InsertAbort(db, row, card).None? && SameGuarded(card, after)
    ensures WipKept(db, db.cards[row := after], lane)
  {
    InsertAdmits(db, row, card, lane);
    RunningAfterPut(db.cards, row, after, lane);
    assert Runs(after, lane) <==> Runs(card, lane);
    hide RunningRows, InsertAbort, Runs;
    var before := RunningRows(db.cards, lane);
    assert before - {row} == before;
    assert before + {} == before;
  }

  // A lane's running rows depend on the guarded columns alone.
  lemma UpdateKeepsWip(db: Db, row: nat, next: Card, namesState: bool, after: Card, lane: string)
    requires !db.importing && Enforced(db, lane) && row in db.cards && UpdateAbort(db, row, next, namesState).None?
    requires SameGuarded(next, after)
    ensures WipKept(db, db.cards[row := after], lane)
  {
    var before := RunningRows(db.cards, lane);
    RunningAfterPut(db.cards, row, after, lane);
    if !Runs(after, lane) || row in before {
      SubsetSize(RunningRows(db.cards[row := after], lane), before);
    } else {
      assert !WipUpdateFires(db, row, next);
      assert |before - {row}| < db.policy[lane].limit;
    }
  }

  /** No statement outside an import raises an enforced lane's running count
      above the larger of its old value and the limit. */
  lemma ExecKeepsWip(db: Db, stmt: Statement, lane: string)
    requires !db.importing && Enforced(db, lane) && Exec(db, stmt).Ok?
    ensures WipKept(db, Exec(db, stmt).value.cards, lane)
  {
    hide ExecInsert, ExecUpdate, UpdateAbort, InsertAbort, StoredTitle, NewTitle, NeedsReconcile;
    match stmt {
      case Delete(row) =>
        SubsetSize(RunningRows(db.cards - {row}, lane), RunningRows(db.cards, lane));
      case Insert(row, card) =>
        InsertIs(db, row, card);
        InsertKeepsWip(db, row, card, Entered(card), lane);
      case Update(row, card, namesState, clock) =>
        UpdateIs(db, row, card, namesState, clock);
        if row in db.cards {
          var next := if namesState then card else card.(wf := db.cards[row].wf);
          UpdateKeepsWip(db, row, next, namesState, Settled(db.cards[row], next, clock), lane);
        }
    }
  }

  // ---- What the other AFTER triggers are for -----------------------------------------

  /** Whoever changes a status, the row then carries the time of the statement or
      one the statement itself put there, never the time of an earlier change. */
  lemma StatusChangeIsStamped(db: Db, stmt: Statement)
    requires stmt.Update? && stmt.row in db.cards && Exec(db, stmt).Ok? && stmt.card.status != db.cards[stmt.row].status
    ensures stmt.row in Exec(db, stmt).value.cards
    ensures Exec(db, stmt).value.cards[stmt.row].updatedAt ==
              if stmt.card.updatedAt == db.cards[stmt.row].updatedAt then stmt.clock else stmt.card.updatedAt
  {
    hide ExecUpdate, UpdateAbort, StoredTitle, NeedsReconcile;
    UpdateIs(db, stmt.row, stmt.card, stmt.namesState, stmt.clock);
  }

  // The rows whose title is over the limit, with that title.
  function OverlongTitles(cards: map<nat, Card>): set<(nat, string)> {
    set r | r in cards && |cards[r].title| > TITLE_LIMIT :: (r, cards[r].title)
  }

  /** No statement, in an import or not, brings in a title over the limit. */
  lemma ExecKeepsTitles(db: Db, stmt: Statement)
    requires Exec(db, stmt).Ok?
    ensures OverlongTitles(Exec(db, stmt).value.cards) <= OverlongTitles(db.cards)
  {
    hide Exec;
    ExecRows(db, stmt);
  }
}
