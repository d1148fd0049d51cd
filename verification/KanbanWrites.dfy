/** What each card writer leaves in the table and answers, column by column
    (src/db.ts). */
module KanbanWrites {
  import opened Prelude
  import opened KanbanWorkflow
  import opened KanbanLanes
  import opened KanbanStore
  import opened KanbanApi
  import opened KanbanGuards
  import opened KanbanRuns
  import opened TitleGate

  // Of everything stored, one card became `next`.
  ghost predicate OneCard(db: Db, db': Db, row: nat, next: Card) {
    && row in db.cards && db'.cards.Keys == db.cards.Keys && db'.cards[row] == next
    && (forall r :: r in db.cards && r != row ==> db'.cards[r] == db.cards[r])
    && db'.policy == db.policy && db'.importing == db.importing
    && db'.events == db.events && db'.observations == db.observations
  }

  const SIX_LANES := {"DEVELOPMENT", "EMAIL", "CALENDAR", "MONITORING", "MAINTENANCE", "ADMIN"}

  // The unarchived cards running in a lane, other than one.
  function RunningBeside(db: Db, lane: string, id: string): set<nat> {
    set r | r in db.cards && db.cards[r].status == InProgress && db.cards[r].archivedAt.None? &&
            db.cards[r].lane == Some(lane) && db.cards[r].id != Some(id)
  }

  // The lane is limited and enforced, and holds its limit without this card.
  predicate Full(db: Db, lane: string, id: string) {
    lane in db.policy && db.policy[lane].enforce && 0 < db.policy[lane].limit <= |RunningBeside(db, lane, id)|
  }

  lemma RowIs(db: Db, row: nat, id: string)
    requires Holds(db, row, id)
    ensures RowOf(db, id) == Some(row) && row in db.cards && RowOk(db.cards[row])
  {
  }

  // ---- Row statements ----------------------------------------------------------------

  lemma BesideIs(db: Db, lane: string, id: string, row: nat)
    requires Holds(db, row, id)
    ensures RunningBeside(db, lane, id) == RunningRows(db.cards, lane) - {row} == OthersRunning(db.cards, lane, id)
  {
  }

  // An update of a sound card that keeps its status fails only in a full lane.
  lemma KeepingStatus(db: Db, row: nat, id: string, next: Card, clock: int)
    requires Holds(db, row, id) && next.id == Some(id) && next.status == db.cards[row].status && !ChecksFail(next)
    requires next.wf == db.cards[row].wf && (db.cards[row].lane.Some? ==> next.lane.Some?)
    ensures var was, stmt := db.cards[row], Update(row, next, false, clock);
            var counted := next.status == InProgress && next.archivedAt.None? && next.lane.Some? &&
                           (was.archivedAt.Some? || was.lane != next.lane);
            && (Exec(db, stmt).Err? <==> counted && Full(db, next.lane.value, id))
            && (Exec(db, stmt).Ok? ==>
                  OneCard(db, Exec(db, stmt).value, row, next.(title := StoredTitle(was.title, next.title))))
  {
    hide ExecUpdate, StoredTitle;
    RowIs(db, row, id);
    UpdateIs(db, row, next, false, clock);
    OnlyLaneTriggersAbort(db, row, id, next, false, clock);
    if next.lane.Some? { BesideIs(db, next.lane.value, id, row); }
  }

  // ---- Archive, comment, dispatch ----------------------------------------------------------

  /** Archiving always succeeds and stamps the archive and the last change. */
  lemma ArchiveWrites(db: Db, row: nat, id: string, now: int)
    requires Holds(db, row, id)
    ensures var answer := CardStep(db, id, Archive(now));
            && answer.reply.Ok? && answer.reply.value.changed
            && OneCard(db, answer.db, row, db.cards[row].(archivedAt := Some(now), updatedAt := now))
  {
    hide Exec;
    RowIs(db, row, id);
    KeepingStatus(db, row, id, db.cards[row].(archivedAt := Some(now), updatedAt := now), now);
  }

  /** So an archived card frees its lane and is in no listing. */
  lemma ArchiveFrees(db: Db, row: nat, id: string, now: int, lane: string)
    requires Holds(db, row, id)
    ensures var db' := CardStep(db, id, Archive(now)).db;
            && row in db'.cards && db'.cards[row].archivedAt.Some?
            && RunningRows(db'.cards, lane) == RunningRows(db.cards, lane) - {row}
            && forall other :: other != id ==>
                 RunningBeside(db', lane, other) == RunningBeside(db, lane, other) - {row}
  {
    hide CardStep;
    ArchiveWrites(db, row, id, now);
  }

  /** Unarchiving answers no for a card that is not archived, throws exactly when
      the card was running and its lane is full, and otherwise clears the archive
      and stamps the change. */
  lemma UnarchiveWrites(db: Db, row: nat, id: string, now: int)
    requires Holds(db, row, id)
    ensures var was, answer := db.cards[row], CardStep(db, id, Unarchive(now));
            && (was.archivedAt.None? ==> answer == Answer(db, Ok(Reply(false, None, None, None, false))))
            && (was.archivedAt.Some? ==>
                  && (answer.reply.Err? <==> was.status == InProgress && was.lane.Some? && Full(db, was.lane.value, id))
                  && (answer.reply.Err? ==> answer.db == db)
                  && (answer.reply.Ok? ==>
                        answer.reply.value.changed &&
                        OneCard(db, answer.db, row, was.(archivedAt := None, updatedAt := now))))
  {
    hide Exec, Full;
    RowIs(db, row, id);
    KeepingStatus(db, row, id, db.cards[row].(archivedAt := None, updatedAt := now), now);
  }

  /** The gated unarchive counts the lane of a running card against the policy it
      is handed: it reports the count and refuses when that policy is enforced and
      reached; an accepted one writes what the plain one does. */
  lemma UnarchiveGatedWrites(db: Db, row: nat, id: string, policy: Policy, now: int)
    requires Holds(db, row, id)
    ensures var was, answer := db.cards[row], CardStep(db, id, UnarchiveGated(policy, now));
            if was.archivedAt.None? then answer == Answer(db, Ok(Reply(false, None, None, None, false)))
            else
              var counted := was.status == InProgress && was.lane.Some?;
              var n := if counted then |RunningBeside(db, was.lane.value, id)| else 0;
              var allowed := policy.limit <= 0 || n < policy.limit;
              && (answer.reply.Ok? ==>
                    && answer.reply.value.laneGate ==
                         (if counted then Some(LaneGate(was.lane.value, n, policy.limit, allowed)) else None)
                    && answer.reply.value.changed == (!counted || allowed || !policy.enforce)
                    && if answer.reply.value.changed
                       then OneCard(db, answer.db, row, was.(archivedAt := None, updatedAt := now))
                       else answer.db == db)
              && (answer.reply.Err? <==>
                    counted && (allowed || !policy.enforce) && Full(db, was.lane.value, id))
  {
    hide Exec, Full, OneCard;
    RowIs(db, row, id);
    var was := db.cards[row];
    KeepingStatus(db, row, id, was.(archivedAt := None, updatedAt := now), now);
    if was.lane.Some? { BesideIs(db, was.lane.value, id, row); }
  }

  /** A comment stamps the card's last change, a dispatch its dispatch time; neither
      can fail or touch another column. */
  lemma StampsWrite(db: Db, row: nat, id: string, now: int)
    requires Holds(db, row, id)
    ensures var comment, dispatch := CardStep(db, id, Comment(now)), CardStep(db, id, MarkDispatched(now));
            && comment.reply.Ok? && comment.reply.value.changed
            && OneCard(db, comment.db, row, db.cards[row].(updatedAt := now))
            && dispatch.reply.Ok? && dispatch.reply.value.changed
            && OneCard(db, dispatch.db, row, db.cards[row].(dispatchedAt := Some(now)))
  {
    hide Exec;
    RowIs(db, row, id);
    KeepingStatus(db, row, id, db.cards[row].(updatedAt := now), now);
    KeepingStatus(db, row, id, db.cards[row].(dispatchedAt := Some(now)), now);
  }

  /** Deleting takes the card's row and nothing else. */
  lemma DeleteWrites(db: Db, row: nat, id: string)
    requires Holds(db, row, id)
    ensures var answer := CardStep(db, id, Remove);
            && answer.reply.Ok? && answer.reply.value.changed
            && answer.db == db.(cards := answer.db.cards)
            && (forall r :: r in answer.db.cards <==> r in db.cards && r != row)
            && (forall r :: r in answer.db.cards ==> answer.db.cards[r] == db.cards[r])
  {
    RowIs(db, row, id);
  }

  /** No call on an id no card has writes anything; it answers that nothing changed. */
  lemma MissingCard(db: Db, id: string, act: Act)
    requires forall r :: r in db.cards ==> db.cards[r].id != Some(id)
    ensures CardStep(db, id, act) == Answer(db, Ok(Reply(false, None, None, None, false)))
  {
  }

  /** The sweep before a listing archives the finished cards last changed before the
      cutoff, and leaves everything else. */
  lemma SweepWrites(db: Db, now: int, cutoff: int)
    ensures var db' := Step(db, AutoArchiveOp(now, cutoff));
            && db' == db.(cards := db'.cards) && db'.cards.Keys == db.cards.Keys
            && forall r :: r in db.cards ==>
                 var was := db.cards[r];
                 db'.cards[r] == if was.status == Finished && was.archivedAt == None && was.updatedAt < cutoff
                                 then was.(archivedAt := Some(now)) else was
  {
  }

  // ---- Creation and import ----------------------------------------------------------------------

  /** Creation succeeds exactly when the request resolves, the lane is one of the six
      or absent, and row number and id are free; the new card is in the column of
      planned cards with the resolved state, as listed. */
  lemma CreateWrites(db: Db, row: nat, card: NewCard, sortOrder: real, now: int)
    requires Valid(db)
    ensures var answer := Create(db, row, card, sortOrder, now);
            && (answer.reply.Ok? <==>
                  && ResolveInitial(card.request).Ok?
                  && (card.lane.Some? ==> card.lane.value in SIX_LANES)
                  && row !in db.cards && forall r :: r in db.cards ==> db.cards[r].id != Some(card.id))
            && (answer.reply.Err? ==> answer.db == db)
            && (answer.reply.Ok? ==>
                  && answer.reply.value.changed && answer.db == db.(cards := answer.db.cards)
                  && answer.db.cards.Keys == db.cards.Keys + {row}
                  && (forall r :: r in db.cards ==> answer.db.cards[r] == db.cards[r])
                  && var made := answer.db.cards[row];
                     && made.id == Some(card.id) && made.status == Planned
                     && made.wf == Some(ResolveInitial(card.request).value) && made.repairs == 0
                     && made.lane == card.lane && made.archivedAt == None && made.sortOrder == sortOrder
                     && made.updatedAt == now && made.dispatchedAt == None && made.content == card.content
                     && (|card.title| <= 300 ==> made.title == card.title)
                     && (|card.title| > 300 ==> made.title == card.title[..299] + "\U{2026}"))
  {
    hide ExecInsert;
    CreationRequests(card.request);
    if ResolveInitial(card.request).Ok? {
      var first := Fresh(card, ResolveInitial(card.request).value, sortOrder, now);
      InsertIs(db, row, first);
      ProjectionForRow(first);
    }
  }

  /** An import succeeds quietly, and writes nothing, when its row number or id is
      taken; it is refused for a lane that is none of the six, a state that does not
      fit its status, a negative repair count or a missing id; otherwise it adds the
      snapshot's card, whatever the lane limits say, its title cut if too long. */
  lemma ImportWrites(db: Db, row: nat, card: Card)
    requires Valid(db)
    ensures var answer := Import(db, row, card);
            var sound := Projected(card) && card.repairs >= 0 && card.id.Some? &&
              (card.lane.Some? ==> card.lane.value in SIX_LANES);
            var free := row !in db.cards && forall r :: r in db.cards ==> db.cards[r].id != card.id;
            && (answer.reply.Ok? <==> sound)
            && (answer.db != db ==> sound && free)
            && (sound && free ==>
                  && answer.db == db.(cards := answer.db.cards) && answer.db.cards.Keys == db.cards.Keys + {row}
                  && (forall r :: r in db.cards ==> answer.db.cards[r] == db.cards[r])
                  && answer.db.cards[row] ==
                       if |card.title| <= 300 then card else card.(title := card.title[..299] + "\U{2026}"))
  {
    hide ExecInsert;
    InsertIs(db.(importing := true), row, card);
    ProjectionForRow(card);
  }

  // ---- Transitions ------------------------------------------------------------------------------

  // The ids the observation log accepts.
  lemma AcceptedIds(id: string)
    ensures SafeId(id) <==>
              && 0 < |id| < 129 && id[0] !in "._:-"
              && forall c :: c in id ==> 'a' <= c <= 'z' || 'A' <= c <= 'Z' || '0' <= c <= '9' || c in "._:-"
  {
    assert forall i :: 0 <= i < |id| ==> id[i] in id;
  }

  // What the gate finds in the lane of a card about to start running.
  function Report(db: Db, lane: string, id: string, policy: Policy): LaneGate {
    var n := |RunningBeside(db, lane, id)|;
    LaneGate(lane, n, policy.limit, policy.limit <= 0 || n < policy.limit)
  }

  predicate Blank(lane: Option<string>) {
    lane == None || lane == Some("")
  }

  /** The gate looks at a card only when the write starts it running, changes the
      lane it runs in, or restores it running; without a lane it refuses a start,
      and it counts no card that stays archived. */
  lemma GateReports(db: Db, row: nat, id: string, requested: Status, supplied: Option<string>, override: Option<Policy>,
                    archivedAt: Option<int>)
    requires Holds(db, row, id)
    ensures var was := db.cards[row]; var lane := if supplied.Some? then supplied else was.lane;
            var starts := was.status != InProgress;
            var watched := requested == InProgress &&
              (starts || (supplied.Some? && supplied != was.lane) || (was.archivedAt.Some? && archivedAt.None?));
            EvaluateLane(db, id, was, requested, supplied, override, archivedAt) ==
              if !watched then Ok(Gate(false, None, false))
              else if Blank(lane) then Ok(Gate(starts, None, false))
              else if archivedAt.Some? then Ok(Gate(false, None, false))
              else if override.Some? then
                Ok(Gate(false, Some(Report(db, lane.value, id, override.value)), override.value.enforce))
              else if lane.value !in db.policy then Err(UnknownLane)
              else Ok(Gate(false, Some(Report(db, lane.value, id, db.policy[lane.value])),
                           db.policy[lane.value].enforce))
  {
    var lane := if supplied.Some? then supplied else db.cards[row].lane;
    if lane.Some? { BesideIs(db, lane.value, id, row); }
  }

  // The columns of a card after a step to another state.
  function SteppedTo(was: Card, to: State, args: MoveArgs): Card {
    was.(wf := Some(to), status := StatusOf(to), repairs := was.repairs + (if to == Repair then 1 else 0),
         sortOrder := args.sortOrder, updatedAt := args.now, lane := if args.lane.Some? then args.lane else was.lane)
  }

  // The lane gate lets the step pass, whatever it reports.
  predicate Passes(gate: Gate) {
    !gate.laneRequired && (gate.laneGate.Some? ==> gate.laneGate.value.allowed || !gate.enforce)
  }

  // An allowed step past the gate throws for a lane that is none of the six, an id
  // the observation log rejects, or a lane the stored policy holds full.
  predicate StepThrows(db: Db, row: nat, id: string, to: State, args: MoveArgs)
    requires row in db.cards
  {
    var was := db.cards[row];
    var lane := if args.lane.Some? then args.lane else was.lane;
    || (args.lane.Some? && args.lane.value !in SIX_LANES) || !SafeId(id)
    || (to == Running && was.archivedAt.None? && lane.Some? && Full(db, lane.value, id))
  }

  // The card took the step, and one event and one observation were appended.
  ghost predicate TookStep(db: Db, db': Db, row: nat, id: string, to: State, reason: Option<Reason>, args: MoveArgs)
    requires row in db.cards
  {
    var was := db.cards[row];
    && OneCard(db, db'.(events := db.events, observations := db.observations), row, SteppedTo(was, to, args))
    && db'.events == db.events + [Event(id, Hydrated(was), to, was.status, StatusOf(to), reason, args.actor, args.now)]
    && db'.observations == db.observations +
         [Observation(id, MaxSequence(db.observations, id) + 1, Hydrated(was), to, SteppedTo(was, to, args).repairs)]
  }

  ghost predicate Stepping(db: Db, row: nat, id: string, to: State, reason: Option<Reason>, gate: Gate, args: MoveArgs,
                           answer: Answer)
    requires row in db.cards
  {
    && (answer.reply.Err? <==> StepThrows(db, row, id, to, args))
    && (answer.reply.Err? ==> answer.db == db)
    && (answer.reply.Ok? ==>
          && answer.reply.value == Reply(true, Some(to), reason, gate.laneGate, false)
          && TookStep(db, answer.db, row, id, to, reason, args))
  }

  /** Every answer of a workflow transition. A request for the state the card is in
      only moves it, unless it names another lane; a step that is not allowed or
      that the gate refuses changes nothing and says why. */
  lemma TransitionAnswers(db: Db, row: nat, id: string, requested: State, args: MoveArgs, override: Option<Policy>)
    requires Holds(db, row, id)
    ensures var was, answer := db.cards[row], CardStep(db, id, Transit(requested, args, override));
            var from := Hydrated(was); var d := Decide(from, requested, was.repairs);
            var gate := EvaluateLane(db, id, was, StatusOf(d.state), args.lane, override, was.archivedAt);
            if requested == from then
              if args.lane.Some? && args.lane != was.lane then
                answer == Answer(db, Ok(Reply(false, Some(from), Some(InvalidTransition), None, false)))
              else
                && answer.reply == Ok(Reply(true, Some(from), None, None, false))
                && OneCard(db, answer.db, row, was.(sortOrder := args.sortOrder, updatedAt := args.now))
            else if !d.allowed then
              answer == Answer(db, Ok(Reply(false, Some(from), Some(InvalidTransition), None, false)))
            else if gate.Err? then answer == Answer(db, Err(UnknownLane))
            else if gate.value.laneRequired then answer == Answer(db, Ok(Reply(false, None, None, None, true)))
            else if !Passes(gate.value) then
              answer == Answer(db, Ok(Reply(false, Some(from), None, gate.value.laneGate, false)))
            else Stepping(db, row, id, d.state, d.reason, gate.value, args, answer)
  {
    RowIs(db, row, id);
    hide Exec, Decide, OneCard, Stepping, EvaluateLane;
    var was := db.cards[row];
    ProjectionShape(StateOf(was.status), New, was.status);
    var d := Decide(Hydrated(was), requested, was.repairs);
    if requested == Hydrated(was) {
      KeepingStatus(db, row, id, Placed(was, args), args.now);
    } else if d.allowed {
      GateReports(db, row, id, StatusOf(d.state), args.lane, override, was.archivedAt);
      var gate := EvaluateLane(db, id, was, StatusOf(d.state), args.lane, override, was.archivedAt);
      DecisionMeaning(Hydrated(was), requested, was.repairs);
      if gate.Ok? && Passes(gate.value) {
        StepAnswers(db, row, id, requested, args, override);
      }
    }
  }

  lemma StepAnswers(db: Db, row: nat, id: string, requested: State, args: MoveArgs, override: Option<Policy>)
    requires Holds(db, row, id) && requested != Hydrated(db.cards[row])
    requires Decide(Hydrated(db.cards[row]), requested, db.cards[row].repairs).allowed
    requires var was := db.cards[row]; var d := Decide(Hydrated(was), requested, was.repairs);
             var gate := EvaluateLane(db, id, was, StatusOf(d.state), args.lane, override, was.archivedAt);
             gate.Ok? && Passes(gate.value)
    ensures var was := db.cards[row]; var d := Decide(Hydrated(was), requested, was.repairs);
            var gate := EvaluateLane(db, id, was, StatusOf(d.state), args.lane, override, was.archivedAt).value;
            Stepping(db, row, id, d.state, d.reason, gate, args, TransitionRow(db, row, id, requested, args, override))
  {
    RowIs(db, row, id);
    var was := db.cards[row];
    var d := Decide(Hydrated(was), requested, was.repairs);
    DecisionMeaning(Hydrated(was), requested, was.repairs);
    hide Exec, Decide, EvaluateLane, SafeId, Full, TransitionRow, TookStep, Record;
    TransitionRowIs(db, row, id, requested, args, override);
    StepIsWritten(db, row, id, requested, args);
    LaneIsGiven(db, row, id, requested, args, override);
    StepIsRecorded(db, row, id, d, args);
  }

  lemma StepIsRecorded(db: Db, row: nat, id: string, d: Decision, args: MoveArgs)
    requires Holds(db, row, id) && d.repairs == db.cards[row].repairs + (if d.state == Repair then 1 else 0)
    ensures var was := db.cards[row];
            var written := db.(cards := db.cards[row := SteppedTo(was, d.state, args)]);
            TookStep(db, Record(written, id, was, d, args), row, id, d.state, d.reason, args)
  {
    RowIs(db, row, id);
    var was := db.cards[row];
    ProjectionShape(StateOf(was.status), New, was.status);
    hide MaxSequence;
  }

  // A step that starts a card running and passes the gate has a lane.
  lemma LaneIsGiven(db: Db, row: nat, id: string, requested: State, args: MoveArgs, override: Option<Policy>)
    requires Holds(db, row, id) && requested != Hydrated(db.cards[row])
    requires var was := db.cards[row]; var d := Decide(Hydrated(was), requested, was.repairs);
             var gate := EvaluateLane(db, id, was, StatusOf(d.state), args.lane, override, was.archivedAt);
             d.allowed && gate.Ok? && Passes(gate.value)
    ensures var was := db.cards[row];
            Decide(Hydrated(was), requested, was.repairs).state == Running ==> args.lane.Some? || was.lane.Some?
  {
    RowIs(db, row, id);
    var was := db.cards[row];
    ProjectionShape(StateOf(was.status), New, was.status);
    DecisionMeaning(Hydrated(was), requested, was.repairs);
  }

  // The transaction of an allowed step past the gate.
  lemma TransitionRowIs(db: Db, row: nat, id: string, requested: State, args: MoveArgs, override: Option<Policy>)
    requires Holds(db, row, id) && requested != Hydrated(db.cards[row])
    requires var was := db.cards[row]; var d := Decide(Hydrated(was), requested, was.repairs);
             var gate := EvaluateLane(db, id, was, StatusOf(d.state), args.lane, override, was.archivedAt);
             d.allowed && gate.Ok? && Passes(gate.value)
    ensures var was := db.cards[row]; var d := Decide(Hydrated(was), requested, was.repairs);
            var gate := EvaluateLane(db, id, was, StatusOf(d.state), args.lane, override, was.archivedAt).value;
            TransitionRow(db, row, id, requested, args, override) ==
              match Exec(db, Update(row, SteppedTo(was, d.state, args), true, args.now))
              case Err(abort) => Answer(db, Err(Aborted(abort)))
              case Ok(db') =>
                if !SafeId(id) then Answer(db, Err(UnsafeTaskId))
                else Answer(Record(db', id, was, d, args),
                            Ok(Reply(true, Some(d.state), d.reason, gate.laneGate, false)))
  {
    RowIs(db, row, id);
    var was := db.cards[row];
    ProjectionShape(StateOf(was.status), New, was.status);
    var d := Decide(Hydrated(was), requested, was.repairs);
    DecisionMeaning(Hydrated(was), requested, was.repairs);
    assert SteppedTo(was, d.state, args) == Transitioned(was, d, args);
    hide Exec, Decide, EvaluateLane, SafeId, Record;
  }

  // The UPDATE of an allowed step: what stops it and what it leaves.
  lemma StepIsWritten(db: Db, row: nat, id: string, requested: State, args: MoveArgs)
    requires Holds(db, row, id) && requested != Hydrated(db.cards[row])
    requires Decide(Hydrated(db.cards[row]), requested, db.cards[row].repairs).allowed
    ensures var was := db.cards[row]; var to := Decide(Hydrated(was), requested, was.repairs).state;
            var next := SteppedTo(was, to, args);
            var r := Exec(db, Update(row, next, true, args.now));
            && (r.Ok? ==> r.value == db.(cards := db.cards[row := next]))
            && (r.Err? <==>
                  || (args.lane.Some? && args.lane.value !in SIX_LANES)
                  || (to == Running && (next.lane.None? || (was.archivedAt.None? && Full(db, next.lane.value, id)))))
  {
    RowIs(db, row, id);
    var was := db.cards[row];
    ProjectionShape(StateOf(was.status), New, was.status);
    AllowedSteps(Hydrated(was), requested, was.repairs);
    DecisionMeaning(Hydrated(was), requested, was.repairs);
    hide Decide, Exec;
    var to := Decide(Hydrated(was), requested, was.repairs).state;
    StepUpdate(db, row, id, to, args);
  }

  lemma StepUpdate(db: Db, row: nat, id: string, to: State, args: MoveArgs)
    requires Holds(db, row, id) && to != Hydrated(db.cards[row]) && db.cards[row].repairs >= 0
    ensures var was := db.cards[row]; var next := SteppedTo(was, to, args);
            var r := Exec(db, Update(row, next, true, args.now));
            && (r.Ok? ==> r.value == db.(cards := db.cards[row := next]))
            && (r.Err? <==>
                  || (args.lane.Some? && args.lane.value !in SIX_LANES)
                  || (to == Running && (next.lane.None? || (was.archivedAt.None? && Full(db, next.lane.value, id)))))
  {
    RowIs(db, row, id);
    var was := db.cards[row];
    var next := SteppedTo(was, to, args);
    ProjectionShape(StateOf(was.status), New, was.status);
    ProjectionForRow(next);
    hide ExecUpdate;
    UpdateIs(db, row, next, true, args.now);
    if args.lane.Some? && args.lane.value !in SIX_LANES {
      BadLaneAborts(db, row, next, true, args.now);
    } else {
      OnlyLaneTriggersAbort(db, row, id, next, true, args.now);
      if next.lane.Some? { BesideIs(db, next.lane.value, id, row); }
    }
  }

  // ---- Moves and field updates --------------------------------------------------------------------

  // A call that changed nothing and says no more.
  const REFUSED := Reply(false, None, None, None, false)

  /** The ungated move. It never starts a card running, changes the lane of a
      running card or names a lane that is none of the six; past that it is the
      transition to the state the status reads as, reduced to whether it changed. */
  lemma MoveAnswers(db: Db, row: nat, id: string, status: Status, args: MoveArgs)
    requires Holds(db, row, id)
    ensures var was, to, answer := db.cards[row], StateOf(status), CardStep(db, id, MoveTo(status, args));
            var step := CardStep(db, id, Transit(to, args, None));
            var otherLane := args.lane.Some? && args.lane != was.lane;
            if to == Hydrated(was) && !otherLane then
              && answer.reply == Ok(Reply(true, None, None, None, false))
              && OneCard(db, answer.db, row, was.(sortOrder := args.sortOrder, updatedAt := args.now))
            else if to == Hydrated(was) || to == Running || (was.status == InProgress && otherLane)
                    || (args.lane.Some? && args.lane.value !in SIX_LANES) then
              answer == Answer(db, Ok(REFUSED))
            else
              && answer.db == step.db && (answer.reply.Err? ==> answer.reply == step.reply)
              && (answer.reply.Ok? <==> step.reply.Ok?)
              && (answer.reply.Ok? ==> answer.reply.value == REFUSED.(changed := step.reply.value.changed))
  {
    RowIs(db, row, id);
    hide Exec, TransitionRow, OneCard;
    KeepingStatus(db, row, id, Placed(db.cards[row], args), args.now);
  }

  /** The gated move: for the state the card is in it only moves the card; for any
      other it is the transition. */
  lemma MoveGatedAnswers(db: Db, row: nat, id: string, status: Status, args: MoveArgs, override: Option<Policy>)
    requires Holds(db, row, id)
    ensures var was, answer := db.cards[row], CardStep(db, id, MoveGated(status, args, override));
            if StateOf(status) != Hydrated(was) then
              answer == CardStep(db, id, Transit(StateOf(status), args, override))
            else if args.lane.Some? && args.lane != was.lane then answer == Answer(db, Ok(REFUSED))
            else
              && answer.reply == Ok(Reply(true, None, None, None, false))
              && OneCard(db, answer.db, row, was.(sortOrder := args.sortOrder, updatedAt := args.now))
  {
    RowIs(db, row, id);
    hide Exec, TransitionRow, OneCard;
    var was := db.cards[row];
    ProjectionShape(StateOf(was.status), New, was.status);
    KeepingStatus(db, row, id, Placed(was, args), args.now);
    assert args.lane == None || args.lane == was.lane ==>
             was.(sortOrder := args.sortOrder, updatedAt := args.now, lane := EffectiveLane(args.lane, was.lane)) ==
             Placed(was, args);
  }

  // The columns of a card after a field update: what was supplied, a null lane
  // counting as absent, and the time of the change.
  function WithFields(was: Card, edit: Edit, now: int): Card {
    was.(lane := if edit.lane.Some? then edit.lane else was.lane,
         archivedAt := if edit.archivedAt.Some? then edit.archivedAt.value else was.archivedAt,
         sortOrder := if edit.sortOrder.Some? then edit.sortOrder.value else was.sortOrder,
         title := if edit.title.Some? then StoredTitle(was.title, edit.title.value) else was.title,
         content := if edit.content.Some? then edit.content.value else was.content,
         updatedAt := now)
  }

  // The lane must be counted for this update of a running card.
  predicate Counts(was: Card, next: Card) {
    was.status == InProgress && next.archivedAt.None? && next.lane.Some? &&
      (was.archivedAt.Some? || was.lane != next.lane)
  }

  lemma FieldsAreWritten(db: Db, row: nat, id: string, edit: Edit, now: int)
    requires Holds(db, row, id) && (edit.lane.Some? ==> edit.lane.value in SIX_LANES)
    ensures var was := db.cards[row]; var next := WithFields(was, edit, now);
            var r := Exec(db, Update(row, Edited(was, edit, now), false, now));
            && (r.Err? <==> Counts(was, next) && Full(db, next.lane.value, id))
            && (r.Ok? ==> OneCard(db, r.value, row, next))
  {
    hide Exec, Full;
    RowIs(db, row, id);
    KeepingStatus(db, row, id, Edited(db.cards[row], edit, now), now);
  }

  /** The ungated field update: refused when it names workflow columns, another lane
      for a running card or a lane that is none of the six; it throws when it brings
      a running card back into a full lane; otherwise it writes the fields. */
  lemma EditAnswers(db: Db, row: nat, id: string, edit: Edit, now: int)
    requires Holds(db, row, id)
    ensures var was, answer := db.cards[row], CardStep(db, id, EditFields(edit, now));
            var next := WithFields(was, edit, now);
            if edit.touchesWorkflow || (was.status == InProgress && edit.lane.Some? && edit.lane != was.lane)
               || (edit.lane.Some? && edit.lane.value !in SIX_LANES) then
              answer == Answer(db, Ok(REFUSED))
            else
              && (answer.reply.Err? <==> Counts(was, next) && Full(db, next.lane.value, id))
              && (answer.reply.Err? ==> answer.db == db)
              && (answer.reply.Ok? ==>
                    answer.reply.value == Reply(true, None, None, None, false) && OneCard(db, answer.db, row, next))
  {
    hide Exec, Full, OneCard, Counts, Edited, WithFields;
    RowIs(db, row, id);
    if edit.lane.Some? ==> edit.lane.value in SIX_LANES { FieldsAreWritten(db, row, id, edit, now); }
  }

  /** The gated field update asks the lane gate first and passes its report on. */
  lemma EditGatedAnswers(db: Db, row: nat, id: string, edit: Edit, override: Option<Policy>, now: int)
    requires Holds(db, row, id) && (edit.lane.Some? ==> edit.lane.value in SIX_LANES)
    ensures var was, answer := db.cards[row], CardStep(db, id, EditGated(edit, override, now));
            var next := WithFields(was, edit, now);
            var gate := EvaluateLane(db, id, was, was.status, edit.lane, override, next.archivedAt);
            if edit.touchesWorkflow then answer == Answer(db, Ok(REFUSED))
            else if gate.Err? then answer == Answer(db, Err(UnknownLane))
            else if gate.value.laneRequired then answer == Answer(db, Ok(REFUSED.(laneRequired := true)))
            else if !Passes(gate.value) then answer == Answer(db, Ok(REFUSED.(laneGate := gate.value.laneGate)))
            else
              && (answer.reply.Err? <==> Counts(was, next) && Full(db, next.lane.value, id))
              && (answer.reply.Err? ==> answer.db == db)
              && (answer.reply.Ok? ==>
                    && answer.reply.value == Reply(true, None, None, gate.value.laneGate, false)
                    && OneCard(db, answer.db, row, next))
  {
    hide Exec, Full, OneCard, Counts, Edited, EvaluateLane;
    RowIs(db, row, id);
    FieldsAreWritten(db, row, id, edit, now);
    GateReports(db, row, id, db.cards[row].status, edit.lane, override,
                edit.archivedAt.GetOr(db.cards[row].archivedAt));
  }

  // ---- Raw statements ---------------------------------------------------------------------------------

  // The state column does not contradict the status, as the triggers list it.
  predicate Fitting(status: Status, wf: Option<State>) {
    || wf == None || (status == Planned && wf.value in {New, Ready}) || (status == InProgress && wf.value == Running)
    || (status == Testing && wf.value in {Verify, Repair}) || (status == Waiting && wf.value == Blocked)
    || (status == Finished && wf.value == Done)
  }

  // The unarchived cards running in a lane, other than one row.
  function RunningBesideRow(db: Db, lane: string, row: nat): set<nat> {
    set r | r in db.cards && r != row && db.cards[r].status == InProgress && db.cards[r].archivedAt == None &&
            db.cards[r].lane == Some(lane)
  }

  // A write of `next` to this row would put one more card into a full lane.
  predicate Overfills(db: Db, row: nat, next: Card) {
    && next.status == InProgress && next.archivedAt == None && next.lane.Some? && !db.importing
    && next.lane.value in db.policy && var policy := db.policy[next.lane.value];
       policy.enforce && 0 < policy.limit <= |RunningBesideRow(db, next.lane.value, row)|
  }

  // Column checks and the unique id, for a row that would be `next`.
  ghost predicate Storable(db: Db, row: nat, next: Card) {
    && next.repairs >= 0
    && (next.lane.Some? ==> next.lane.value in SIX_LANES)
    && (next.id.Some? ==> forall r :: r in db.cards && r != row ==> db.cards[r].id != next.id)
  }

  /** A raw UPDATE of one row goes through exactly when the id is not cleared, no
      lane is cleared, a card does not start running without a lane or overfill one,
      a state it names fits the status, and the row is storable; one that cuts the
      title of a row without an id fails as well. */
  lemma RawUpdateSucceedsIff(db: Db, row: nat, card: Card, namesState: bool, clock: int)
    requires row in db.cards
    ensures var was := db.cards[row];
            Exec(db, Update(row, card, namesState, clock)).Ok? <==>
              && (was.id.Some? ==> card.id.Some?) && (was.lane.Some? ==> card.lane.Some?)
              && (card.status == InProgress && card.lane == None ==> was.status == InProgress)
              && (Overfills(db, row, card) ==>
                    was.status == InProgress && was.archivedAt == None && was.lane == card.lane)
              && (namesState ==> Fitting(card.status, card.wf))
              && Storable(db, row, card)
              && (card.id == None ==> |card.title| <= 300 || card.title == was.title)
  {
    hide ExecUpdate;
    UpdateIs(db, row, card, namesState, clock);
    if card.lane.Some? {
      assert RunningBesideRow(db, card.lane.value, row) == RunningRows(db.cards, card.lane.value) - {row};
    }
  }

  /** What such a statement leaves: the row as submitted, with the state column as it
      was unless named, healed to the status's own state after a change of status it
      does not fit; the time stamped after a change of status that left it; and a new
      title over 300 characters cut to 299 and an ellipsis. */
  lemma RawUpdateWrites(db: Db, row: nat, card: Card, namesState: bool, clock: int)
    requires row in db.cards && Exec(db, Update(row, card, namesState, clock)).Ok?
    ensures var was, db' := db.cards[row], Exec(db, Update(row, card, namesState, clock)).value;
            var wf := if namesState then card.wf else was.wf;
            var heals := card.status != was.status && (wf == None || !Fitting(card.status, wf));
            var own := match card.status case Planned => Ready case InProgress => Running case Testing => Verify
                                         case Waiting => Blocked case Finished => Done;
            && OneCard(db, db', row, card.(
                 wf := if heals then Some(own) else wf,
                 updatedAt := if card.status != was.status && card.updatedAt == was.updatedAt then clock
                              else card.updatedAt,
                 title := if |card.title| <= 300 || card.title == was.title then card.title
                          else card.title[..299] + "\U{2026}"))
  {
    hide ExecUpdate, UpdateAbort;
    UpdateIs(db, row, card, namesState, clock);
  }

  /** A raw INSERT goes through exactly when row number and id are free, the card has
      an id, starts running neither without a lane nor in a full one, and its state
      and columns are sound; it leaves the card, its title cut if too long. */
  lemma RawInsertMeaning(db: Db, row: nat, card: Card)
    ensures var r := Exec(db, Insert(row, card));
            && (r.Ok? <==>
                  && row !in db.cards && card.id.Some? && !Overfills(db, row, card)
                  && (card.status == InProgress && card.lane == None ==> db.importing)
                  && Fitting(card.status, card.wf) && Storable(db, row, card))
            && (r.Ok? ==>
                  r.value == db.(cards := db.cards[row :=
                    if |card.title| <= 300 then card else card.(title := card.title[..299] + "\U{2026}")]))
  {
    hide ExecInsert;
    InsertIs(db, row, card);
    if card.lane.Some? && row !in db.cards {
      assert RunningBesideRow(db, card.lane.value, row) == RunningRows(db.cards, card.lane.value);
    }
  }

  // ---- Reading --------------------------------------------------------------------------------------------

  /** The state readers see is the stored one where it fits the status, otherwise the
      status's own. */
  lemma ReadersSee(card: Card)
    ensures Hydrated(card) ==
              if card.wf.Some? && Fitting(card.status, card.wf) then card.wf.value
              else match card.status case Planned => Ready case InProgress => Running case Testing => Verify
                                     case Waiting => Blocked case Finished => Done
  {
  }

  /** A fleet import copies an event row unless the log has one of the same card, time
      and target. */
  lemma ImportEventWrites(db: Db, event: Event)
    ensures var db' := Step(db, ImportEventOp(event));
            var known := exists e :: e in db.events && e.cardId == event.cardId && e.at == event.at &&
                                     e.toStatus == event.toStatus && e.to == event.to;
            db' == db.(events := if known then db.events else db.events + [event])
  {
  }
}
