/** The two enforcement layers agree: the application's lane gate, which counts
    by card id inside the transaction, and the database triggers, which count
    by rowid, refuse exactly the same writes. */
module KanbanGuards {
  import opened Prelude
  import opened KanbanWorkflow
  import opened KanbanLanes
  import opened KanbanStore
  import opened KanbanApi
  import opened TitleGate

  ghost predicate Holds(db: Db, row: nat, id: string) {
    Valid(db) && row in db.cards && db.cards[row].id == Some(id)
  }

  predicate LaneArgOk(lane: Option<string>) {
    lane.Some? ==> ValidLane(lane.value)
  }

  lemma CountsAgree(db: Db, row: nat, id: string, lane: string)
    requires Holds(db, row, id)
    ensures OthersRunning(db.cards, lane, id) == RunningRows(db.cards, lane) - {row}
  {
  }

  // For any write whose status, lane and archive columns are `next`'s, the
  // gate under the stored policy refuses exactly when a lane trigger aborts. A
  // lane that is no lane makes it throw, unless nothing is to be counted; an
  // empty one is refused as missing when the card starts running.
  lemma GateAgrees(db: Db, row: nat, id: string, supplied: Option<string>, next: Card)
    requires Holds(db, row, id) && next.lane == EffectiveLane(supplied, db.cards[row].lane)
    ensures var gate := EvaluateLane(db, id, db.cards[row], next.status, supplied, None, next.archivedAt);
            if LaneArgOk(supplied) then gate.Ok? && (Refuses(gate.value) <==> LaneTriggersAbort(db, row, next))
            else
              && (gate.Err? <==> next.status == InProgress && supplied != Some("") && next.archivedAt.None?)
              && (gate.Ok? ==> (Refuses(gate.value) <==> StartsBlank(db.cards[row], supplied, next.status)))
  {
    hide Projected, RunningRows, OthersRunning;
    assert RowOk(db.cards[row]);
    var lane := next.lane;
    if lane.Some? && ValidLane(lane.value) {
      assert lane.value != "";
      CountsAgree(db, row, id, lane.value);
    }
  }

  predicate StartsBlank(card: Card, supplied: Option<string>, to: Status) {
    supplied == Some("") && to == InProgress && card.status != InProgress
  }

  // A lane that is no lane fails the column's check, so the bare UPDATE aborts.
  lemma BadLaneAborts(db: Db, row: nat, card: Card, namesState: bool, clock: int)
    requires row in db.cards && !LaneArgOk(card.lane)
    ensures Exec(db, Update(row, card, namesState, clock)).Err?
  {
    hide WipUpdateFires, AfterUpdate;
  }

  // Once the lane triggers are quiet, a write that keeps the id and a sound
  // row cannot be aborted by anything else.
  lemma OnlyLaneTriggersAbort(db: Db, row: nat, id: string, card: Card, namesState: bool, clock: int)
    requires Holds(db, row, id) && card.id == Some(id) && !ChecksFail(card)
    requires namesState ==> Projected(card)
    ensures Exec(db, Update(row, card, namesState, clock)).Ok? <==> !LaneTriggersAbort(db, row, card)
  {
    hide ExecUpdate;
    var next := if namesState then card else card.(wf := db.cards[row].wf);
    UpdateIs(db, row, card, namesState, clock);
    ProjectionForRow(next);
    assert !Duplicates(db.cards, row, next.id);
    assert LaneTriggersAbort(db, row, next) <==> LaneTriggersAbort(db, row, card);
  }

  // ---- Transitions ---------------------------------------------------------------

  predicate RefusedForLane(reply: Result<Reply, Fault>) {
    reply.Ok? && !reply.value.changed && (reply.value.laneRequired || reply.value.laneGate.Some?)
  }

  lemma TransitionedSound(db: Db, row: nat, id: string, requested: State, args: MoveArgs)
    requires Holds(db, row, id)
    requires Decide(FromState(db.cards[row]), requested, db.cards[row].repairs).allowed
    ensures var card := db.cards[row];
            var next := Transitioned(card, Decide(FromState(card), requested, card.repairs), args);
            next.id == Some(id) && Projected(next) && (ChecksFail(next) <==> !LaneArgOk(args.lane))
  {
    assert RowOk(db.cards[row]);
    DecideTakesAnEdge(FromState(db.cards[row]), requested, db.cards[row].repairs);
  }

  // The request asks for an allowed step to another state.
  predicate Steps(card: Card, requested: State) {
    requested != FromState(card) && Decide(FromState(card), requested, card.repairs).allowed
  }

  // The row a stepping transition would write.
  function Stepped(card: Card, requested: State, args: MoveArgs): Card {
    Transitioned(card, Decide(FromState(card), requested, card.repairs), args)
  }

  // The transition throws: with a real lane, when it would be written for an id
  // the observation log rejects; with any other, when the step is allowed at all
  // and not refused for a missing lane.
  predicate TransitionDies(db: Db, row: nat, id: string, requested: State, args: MoveArgs)
    requires row in db.cards
  {
    var card := db.cards[row];
    && Steps(card, requested)
    && if LaneArgOk(args.lane) then !SafeId(id) && !LaneTriggersAbort(db, row, Stepped(card, requested, args))
       else !StartsBlank(card, args.lane, Stepped(card, requested, args).status)
  }

  /** Under the stored policy a workflow transition is refused for its lane
      exactly when its bare UPDATE would be aborted by a lane trigger, and it
      never dies in one: for a real lane the only exception left is an unsafe
      task id. */
  lemma TransitionMatchesTriggers(db: Db, row: nat, id: string, requested: State, args: MoveArgs)
    requires Holds(db, row, id)
    ensures var card := db.cards[row];
            var answer := TransitionRow(db, row, id, requested, args, None);
            && (Steps(card, requested) && LaneArgOk(args.lane) ==>
                  (RefusedForLane(answer.reply) <==> LaneTriggersAbort(db, row, Stepped(card, requested, args))))
            && (Steps(card, requested) && !LaneArgOk(args.lane) ==>
                  (RefusedForLane(answer.reply) <==>
                   StartsBlank(card, args.lane, Stepped(card, requested, args).status)))
            && (answer.reply.Err? <==> TransitionDies(db, row, id, requested, args))
            && (answer.reply.Err? && LaneArgOk(args.lane) ==> answer.reply.error == UnsafeTaskId)
  {
    var card := db.cards[row];
    if requested == FromState(card) {
      SameStateTouch(db, row, id, args);
    } else if Steps(card, requested) {
      var next := Stepped(card, requested, args);
      TransitionedSound(db, row, id, requested, args);
      GateAgrees(db, row, id, args.lane, next);
      hide Exec, EvaluateLane, LaneTriggersAbort, Decide;
      if LaneArgOk(args.lane) {
        OnlyLaneTriggersAbort(db, row, id, next, true, args.now);
      } else {
        BadLaneAborts(db, row, next, true, args.now);
      }
    }
  }

  // A write that leaves the guarded columns and the state alone always goes through.
  lemma UnguardedWriteSucceeds(db: Db, row: nat, id: string, next: Card, clock: int)
    requires Holds(db, row, id) && SameGuarded(db.cards[row], next)
    ensures Exec(db, Update(row, next, false, clock)).Ok?
  {
    hide Exec;
    assert RowOk(db.cards[row]);
    OnlyLaneTriggersAbort(db, row, id, next, false, clock);
  }

  lemma SameStateTouch(db: Db, row: nat, id: string, args: MoveArgs)
    requires Holds(db, row, id)
    ensures Exec(db, Update(row, Placed(db.cards[row], args), false, args.now)).Ok?
  {
    hide Exec;
    UnguardedWriteSucceeds(db, row, id, Placed(db.cards[row], args), args.now);
  }

  /** A caller that overrides the policy is exposed: its stepping transition
      throws exactly when the override lets through a write that the stored
      policy refuses -- or one with no real lane, or for an unsafe task id. */
  lemma OverrideDiesIff(db: Db, row: nat, id: string, requested: State, args: MoveArgs, policy: Policy)
    requires Holds(db, row, id) && Steps(db.cards[row], requested)
    ensures var card := db.cards[row];
            var to := Stepped(card, requested, args).status;
            var stored := EvaluateLane(db, id, card, to, args.lane, None, card.archivedAt);
            var overridden := EvaluateLane(db, id, card, to, args.lane, Some(policy), card.archivedAt);
            && overridden.Ok? && (LaneArgOk(args.lane) ==> stored.Ok?)
            && (TransitionRow(db, row, id, requested, args, Some(policy)).reply.Err? <==>
                  !Refuses(overridden.value) && (!LaneArgOk(args.lane) || Refuses(stored.value) || !SafeId(id)))
  {
    var card := db.cards[row];
    var next := Stepped(card, requested, args);
    TransitionedSound(db, row, id, requested, args);
    GateAgrees(db, row, id, args.lane, next);
    hide Exec, LaneTriggersAbort, Decide;
    if LaneArgOk(args.lane) {
      OnlyLaneTriggersAbort(db, row, id, next, true, args.now);
    } else {
      BadLaneAborts(db, row, next, true, args.now);
    }
  }

  /** What an accepted transition writes: the decided state with its projection
      and counter, the requested position and time, the supplied lane or else the
      stored one -- and nothing else of the card, nor any other row. */
  lemma TransitionWrites(db: Db, row: nat, id: string, requested: State, args: MoveArgs, override: Option<Policy>)
    requires Holds(db, row, id)
    requires TransitionRow(db, row, id, requested, args, override).reply.Ok?
    requires TransitionRow(db, row, id, requested, args, override).reply.value.changed
    ensures var was, db' := db.cards[row], TransitionRow(db, row, id, requested, args, override).db;
            && db'.cards.Keys == db.cards.Keys
            && (forall r :: r in db.cards && r != row ==> db'.cards[r] == db.cards[r])
            && var now := db'.cards[row];
               && now.id == was.id && now.title == was.title && now.content == was.content
               && now.archivedAt == was.archivedAt
               && now.dispatchedAt == was.dispatchedAt
               && now.sortOrder == args.sortOrder && now.updatedAt == args.now
               && now.lane == (if args.lane.Some? then args.lane else was.lane)
               && now.status == StatusOf(Hydrated(now))
               && (if requested == Hydrated(was) then Hydrated(now) == Hydrated(was) && now.repairs == was.repairs
                   else Hydrated(now) in Edges(Hydrated(was)) &&
                        now.repairs == was.repairs + (if Hydrated(now) == Repair then 1 else 0))
  {
    hide ExecUpdate, UpdateAbort, EvaluateLane, Refuses, Decide;
    var card := db.cards[row];
    var d := Decide(FromState(card), requested, card.repairs);
    assert RowOk(card);
    ProjectionShape(StateOf(card.status), New, card.status);
    if requested == FromState(card) {
      UpdateIs(db, row, Placed(card, args), false, args.now);
    } else {
      DecideTakesAnEdge(FromState(card), requested, card.repairs);
      ProjectionForRow(Transitioned(card, d, args));
      UpdateIs(db, row, Transitioned(card, d, args), true, args.now);
    }
  }

  // ---- Field updates ---------------------------------------------------------------

  /** A gated field update throws exactly for a lane that is no lane; otherwise it
      is refused exactly when its bare UPDATE would be aborted by a lane trigger,
      and written when not. One that touches the workflow is not attempted. */
  lemma EditMatchesTriggers(db: Db, row: nat, id: string, edit: Edit, now: int)
    requires Holds(db, row, id)
    ensures var answer := EditGatedRow(db, row, id, edit, None, now);
            && (answer.reply.Err? <==> !edit.touchesWorkflow && !LaneArgOk(edit.lane))
            && (answer.reply.Ok? ==>
                  && (RefusedForLane(answer.reply) <==>
                        !edit.touchesWorkflow && LaneTriggersAbort(db, row, Edited(db.cards[row], edit, now)))
                  && (answer.reply.value.changed <==> !edit.touchesWorkflow && !RefusedForLane(answer.reply)))
  {
    assert RowOk(db.cards[row]);
    var next := Edited(db.cards[row], edit, now);
    GateAgrees(db, row, id, edit.lane, next);
    hide Exec, LaneTriggersAbort;
    if LaneArgOk(edit.lane) {
      OnlyLaneTriggersAbort(db, row, id, next, false, now);
    } else {
      BadLaneAborts(db, row, next, false, now);
    }
  }

  /** What an accepted field update writes: each supplied field, with a null lane
      read as absent; status, state, counter and id stay, and so does every other row. */
  lemma EditWrites(db: Db, row: nat, id: string, edit: Edit, override: Option<Policy>, now: int)
    requires Holds(db, row, id) && EditGatedRow(db, row, id, edit, override, now).reply.Ok?
    requires EditGatedRow(db, row, id, edit, override, now).reply.value.changed
    ensures var was, db' := db.cards[row], EditGatedRow(db, row, id, edit, override, now).db;
            && db'.cards.Keys == db.cards.Keys
            && (forall r :: r in db.cards && r != row ==> db'.cards[r] == db.cards[r])
            && var card := db'.cards[row];
               && card.id == was.id && card.status == was.status && card.wf == was.wf && card.repairs == was.repairs
               && card.lane == (if edit.lane.Some? then edit.lane else was.lane)
               && card.archivedAt == (if edit.archivedAt.Some? then edit.archivedAt.value else was.archivedAt)
               && card.title == (if edit.title.Some? then StoredTitle(was.title, edit.title.value) else was.title)
               && card.content == (if edit.content.Some? then edit.content.value else was.content)
               && card.dispatchedAt == was.dispatchedAt
               && card.sortOrder == (if edit.sortOrder.Some? then edit.sortOrder.value else was.sortOrder)
               && card.updatedAt == now
  {
    hide EvaluateLane, Refuses, UpdateAbort;
  }

  // ---- Moves ------------------------------------------------------------------------

  /** When the move functions throw, exactly. The ungated one filters lanes
      first and never reaches a lane trigger; so on a card with a safe id it never
      throws, and the gated one throws only for a lane that is no lane. */
  lemma MovesDieIff(db: Db, row: nat, id: string, status: Status, args: MoveArgs)
    requires Holds(db, row, id)
    ensures var card, requested := db.cards[row], StateOf(status);
            && (MoveRow(db, row, id, status, args).reply.Err? <==>
                  && requested != Hydrated(card) && requested != Running && LaneArgOk(args.lane)
                  && !(card.status == InProgress && args.lane.Some? && args.lane != card.lane)
                  && TransitionDies(db, row, id, requested, args))
            && (MoveGatedRow(db, row, id, status, args, None).reply.Err? <==>
                  requested != Hydrated(card) && TransitionDies(db, row, id, requested, args))
    ensures SafeId(id) ==> MoveRow(db, row, id, status, args).reply.Ok?
    ensures SafeId(id) && LaneArgOk(args.lane) ==> MoveGatedRow(db, row, id, status, args, None).reply.Ok?
  {
    var card := db.cards[row];
    assert RowOk(card);
    TransitionMatchesTriggers(db, row, id, StateOf(status), args);
    SameStateTouch(db, row, id, args);
    hide TransitionRow, Exec, LaneTriggersAbort, Decide;
    if StateOf(status) == Hydrated(card) && (args.lane.Some? ==> args.lane == card.lane) {
      assert card.(sortOrder := args.sortOrder, updatedAt := args.now, lane := EffectiveLane(args.lane, card.lane)) ==
             Placed(card, args);
    }
  }

  // ---- Unarchive -----------------------------------------------------------------------

  // The stored policy of the card's lane, as the gated unarchive should be given it.
  predicate StoredPolicy(db: Db, card: Card, policy: Policy) {
    card.lane.Some? && card.lane.value in db.policy ==> policy == db.policy[card.lane.value]
  }

  // The lane is full for this card under the stored, enforced limit.
  predicate LaneFull(db: Db, card: Card, id: string) {
    && card.status == InProgress && card.lane.Some? && Enforced(db, card.lane.value)
    && |OthersRunning(db.cards, card.lane.value, id)| >= db.policy[card.lane.value].limit
  }

  /** A gated unarchive handed the stored policy is refused exactly when the
      bare UPDATE would be aborted; handed any other policy it throws exactly
      when the lane is full and that policy would have let the card back in. */
  lemma UnarchiveMatchesTriggers(db: Db, row: nat, id: string, policy: Policy, now: int)
    requires Holds(db, row, id) && db.cards[row].archivedAt.Some?
    ensures var card := db.cards[row];
            var answer := UnarchiveGatedRow(db, row, id, policy, now);
            && (StoredPolicy(db, card, policy) ==>
                  && answer.reply.Ok?
                  && (RefusedForLane(answer.reply) <==>
                      LaneTriggersAbort(db, row, card.(archivedAt := None, updatedAt := now))))
            && (answer.reply.Err? <==> LaneFull(db, card, id) && !Refuses(UnarchiveGate(db, card, id, policy)))
  {
    var card := db.cards[row];
    assert RowOk(card);
    var next := card.(archivedAt := None, updatedAt := now);
    OnlyLaneTriggersAbort(db, row, id, next, false, now);
    if card.lane.Some? {
      CountsAgree(db, row, id, card.lane.value);
    }
  }

  // ---- Failing boards -----------------------------------------------------------------------

  // Every lane holds one running card at most.
  const ONE_EACH: map<string, Policy> := map lane | lane in LANES :: Policy(1, true)

  function CardIn(id: string, status: Status, archivedAt: Option<int>): Card {
    Card(Some(id), status, None, 0, Some("DEVELOPMENT"), archivedAt, 0.0, 0, "", None, "")
  }

  // Card "a" fills the lane of card "b".
  function FullLane(b: Card): Db {
    Db(map[0 := CardIn("a", InProgress, None), 1 := b], ONE_EACH, false, [], [])
  }

  lemma FullLaneIsFull(b: Card)
    requires b == CardIn("b", b.status, b.archivedAt) && (b.status == InProgress ==> b.archivedAt.Some?)
    ensures var db := FullLane(b);
            && Holds(db, 1, "b") && Enforced(db, "DEVELOPMENT")
            && OthersRunning(db.cards, "DEVELOPMENT", "b") == {0} && RunningRows(db.cards, "DEVELOPMENT") == {0}
  {
  }

  const LIVE := Policy(2, true)

  /** The stored limit is one, the live setting two: restoring an archived running
      card passes the gate and dies in the trigger. */
  lemma SomeUnarchiveThrows(now: int)
    ensures var db := FullLane(CardIn("b", InProgress, Some(0)));
            Holds(db, 1, "b") && UnarchiveGatedRow(db, 1, "b", LIVE, now).reply.Err?
  {
    FullLaneIsFull(CardIn("b", InProgress, Some(0)));
    UnarchiveMatchesTriggers(FullLane(CardIn("b", InProgress, Some(0))), 1, "b", LIVE, now);
  }

  /** So does starting a card with a policy of the caller's own. */
  lemma SomeOverrideThrows(args: MoveArgs)
    requires args.lane.None?
    ensures var db := FullLane(CardIn("b", Planned, None));
            Holds(db, 1, "b") && SafeId("b") && TransitionRow(db, 1, "b", Running, args, Some(LIVE)).reply.Err?
  {
    var db := FullLane(CardIn("b", Planned, None));
    FullLaneIsFull(CardIn("b", Planned, None));
    OverrideDiesIff(db, 1, "b", Running, args, LIVE);
  }

  /** A card under an id the observation log rejects: an allowed step with nothing
      against it throws, and the card stays. */
  lemma SomeIdThrows(args: MoveArgs)
    requires args.lane.None?
    ensures var db := Db(map[0 := CardIn("a b", Planned, None)], ONE_EACH, false, [], []);
            && Holds(db, 0, "a b") && !SafeId("a b")
            && TransitionRow(db, 0, "a b", Blocked, args, None) == Answer(db, Err(UnsafeTaskId))
  {
    var db := Db(map[0 := CardIn("a b", Planned, None)], ONE_EACH, false, [], []);
    assert "a b"[1] == ' ';
    TransitionMatchesTriggers(db, 0, "a b", Blocked, args);
  }
}
