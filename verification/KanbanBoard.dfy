/** The card store as the running program holds it: tables that methods update
    in place, one transaction a call. Each method is proved to take exactly the
    step that KanbanRuns reasons about. */
module KanbanBoard {
  import opened Prelude
  import opened KanbanWorkflow
  import opened KanbanLanes
  import opened KanbanStore
  import opened KanbanApi
  import opened KanbanGuards
  import opened KanbanRuns
  import opened TitleGate

  // The unarchived cards of a status.
  predicate InColumn(cards: map<nat, Card>, status: Status, row: nat) {
    row in cards && cards[row].status == status && cards[row].archivedAt.None?
  }

  // One past the last position of the column, or zero when it is empty.
  ghost predicate EndOf(cards: map<nat, Card>, status: Status, next: real) {
    if exists r :: InColumn(cards, status, r) then
      && (exists r :: InColumn(cards, status, r) && next == cards[r].sortOrder + 1.0)
      && (forall r :: InColumn(cards, status, r) ==> cards[r].sortOrder + 1.0 <= next)
    else next == 0.0
  }

  // A listed card: its row number, its columns and the state readers see.
  datatype Listed = Listed(number: nat, card: Card, state: State)

  // By position, each row once.
  predicate InPlace(listing: seq<Listed>) {
    && (forall i, j :: 0 <= i < j < |listing| ==> listing[i].card.sortOrder <= listing[j].card.sortOrder)
    && (forall i, j :: 0 <= i < j < |listing| ==> listing[i].number != listing[j].number)
  }

  lemma NothingInPlace()
    ensures InPlace([])
  {
  }

  function Place(x: Listed, listing: seq<Listed>): seq<Listed> {
    if listing == [] || x.card.sortOrder <= listing[0].card.sortOrder then [x] + listing
    else [listing[0]] + Place(x, listing[1..])
  }

  lemma {:induction false} PlaceKeeps(x: Listed, listing: seq<Listed>)
    requires InPlace(listing) && forall y :: y in listing ==> y.number != x.number
    ensures InPlace(Place(x, listing)) && forall y :: y in Place(x, listing) <==> y == x || y in listing
  {
    if listing != [] && x.card.sortOrder > listing[0].card.sortOrder {
      PlaceKeeps(x, listing[1..]);
      var rest := Place(x, listing[1..]);
      assert listing == [listing[0]] + listing[1..];
      forall j | 0 <= j < |rest|
        ensures listing[0].card.sortOrder <= rest[j].card.sortOrder && listing[0].number != rest[j].number
      {
        assert rest[j] in rest;
      }
    }
  }

  class Board {
    var cards: map<nat, Card>
    var importing: bool
    var events: seq<Event>
    var observations: seq<Observation>
    const policy: map<string, Policy>

    function Snapshot(): Db
      reads this
    {
      Db(cards, policy, importing, events, observations)
    }

    ghost predicate Sound()
      reads this
    {
      Valid(Snapshot())
    }

    constructor (policy: map<string, Policy>)
      requires policy.Keys == LANES
      ensures Sound() && Snapshot() == Db(map[], policy, false, [], [])
    {
      this.policy := policy;
      cards, importing, events, observations := map[], false, [], [];
    }

    /** SELECT ... WHERE id = ?, by scanning the table. */
    method FindRow(id: string) returns (row: Option<nat>)
      requires Sound()
      ensures row == RowOf(Snapshot(), id)
    {
      var rest := cards.Keys;
      while rest != {}
        invariant rest <= cards.Keys
        invariant forall r :: r in cards && r !in rest ==> cards[r].id != Some(id)
        decreases rest
      {
        var r :| r in rest;
        if cards[r].id == Some(id) {
          return Some(r);
        }
        rest := rest - {r};
      }
      return None;
    }

    /** Runs one row statement with its triggers; an abort writes nothing. */
    method Execute(stmt: Statement) returns (abort: Option<Abort>)
      modifies this`cards
      ensures match Exec(old(Snapshot()), stmt)
              case Ok(db) => abort.None? && Snapshot() == db
              case Err(a) => abort == Some(a) && Snapshot() == old(Snapshot())
    {
      hide ExecInsert, ExecUpdate;
      match stmt {
        case Delete(row) =>
          cards := cards - {row};
          return None;
        case Insert(row, card) =>
          abort := ExecuteInsert(row, card);
        case Update(row, card, namesState, clock) =>
          abort := ExecuteUpdate(row, card, namesState, clock);
      }
    }

    method ExecuteInsert(row: nat, card: Card) returns (abort: Option<Abort>)
      modifies this`cards
      ensures match ExecInsert(old(Snapshot()), row, card)
              case Ok(db) => abort.None? && Snapshot() == db
              case Err(a) => abort == Some(a) && Snapshot() == old(Snapshot())
    {
      InsertIs(Snapshot(), row, card);
      hide InsertAbort, ExecInsert;
      abort := InsertAbort(Snapshot(), row, card);
      if abort.None? {
        cards := cards[row := card];
        if |card.title| > TITLE_LIMIT {
          cards := cards[row := card.(title := Shortened(card.title))];
        }
      }
    }

    method ExecuteUpdate(row: nat, card: Card, namesState: bool, clock: int) returns (abort: Option<Abort>)
      modifies this`cards
      ensures match ExecUpdate(old(Snapshot()), row, card, namesState, clock)
              case Ok(db) => abort.None? && Snapshot() == db
              case Err(a) => abort == Some(a) && Snapshot() == old(Snapshot())
    {
      UpdateIs(Snapshot(), row, card, namesState, clock);
      hide UpdateAbort, NeedsReconcile, ExecUpdate;
      if row !in cards {
        return None;
      }
      var before, was := cards, cards[row];
      var next := if namesState then card else card.(wf := was.wf);
      abort := UpdateAbort(Snapshot(), row, next, namesState);
      if abort.Some? {
        return;
      }
      cards := cards[row := next];
      if NeedsReconcile(was, next) {
        cards := cards[row := cards[row].(wf := Some(StateOf(next.status)))];
      }
      if Unstamped(was, next) {
        cards := cards[row := cards[row].(updatedAt := clock)];
      }
      if |next.title| > TITLE_LIMIT && next.title != was.title {
        if next.id.None? {
          cards := before;
          return Some(CommentWithoutCard);
        }
        cards := cards[row := cards[row].(title := Shortened(next.title))];
      }
      assert cards == before[row := Settled(was, next, clock)];
    }

    /** Runs one statement as a whole call and answers `reply` when it succeeds. */
    method ExecuteAndReply(stmt: Statement, reply: Reply) returns (r: Result<Reply, Fault>)
      modifies this`cards
      ensures Answer(Snapshot(), r) == Run(old(Snapshot()), stmt, reply)
    {
      var abort := Execute(stmt);
      r := if abort.Some? then Err(Aborted(abort.value)) else Ok(reply);
    }

    /** One past the last position of the unarchived cards of a column. */
    method NextSortOrder(status: Status) returns (next: real)
      ensures EndOf(cards, status, next)
    {
      next := 0.0;
      var seen := false;
      var rest := cards.Keys;
      while rest != {}
        invariant rest <= cards.Keys
        invariant !seen ==> next == 0.0 && forall r :: InColumn(cards, status, r) ==> r in rest
        invariant seen ==> exists r :: InColumn(cards, status, r) && next == cards[r].sortOrder + 1.0
        invariant seen ==> forall r :: InColumn(cards, status, r) && r !in rest ==> cards[r].sortOrder + 1.0 <= next
        decreases |rest|
      {
        var r :| r in rest;
        if InColumn(cards, status, r) && (!seen || cards[r].sortOrder + 1.0 > next) {
          seen, next := true, cards[r].sortOrder + 1.0;
        }
        rest := rest - {r};
      }
    }

    // `placed` is the position the card was given.
    method CreateKanbanCard(row: nat, card: NewCard, now: int) returns (r: Result<Reply, Fault>, ghost placed: real)
      requires Sound()
      modifies this
      ensures ResolveInitial(card.request).Ok? ==>
                EndOf(old(cards), StatusOf(ResolveInitial(card.request).value), placed)
      ensures Sound() && Answer(Snapshot(), r) == Create(old(Snapshot()), row, card, placed, now)
    {
      placed := 0.0;
      var state := ResolveInitial(card.request);
      if state.Err? {
        return Err(BadRequest(state.error)), placed;
      }
      var status := StatusOf(state.value);
      var sortOrder := NextSortOrder(status);
      placed := sortOrder;
      StepKeepsValid(Snapshot(), CreateOp(row, card, sortOrder, now));
      if card.lane.Some? && !ValidLane(card.lane.value) {
        return Err(InvalidLane), placed;
      }
      r := ExecuteAndReply(
        Insert(row, Fresh(card, state.value, sortOrder, now)), DONE);
    }

    // The transaction's writes, undone when the observation log rejects the id.
    method RecordTransition(row: nat, id: string, d: Decision, args: MoveArgs, reply: Reply)
      returns (r: Result<Reply, Fault>)
      requires row in cards
      modifies this
      ensures match Exec(old(Snapshot()), Update(row, Transitioned(old(cards)[row], d, args), true, args.now))
              case Err(abort) => r == Err(Aborted(abort)) && Snapshot() == old(Snapshot())
              case Ok(db) =>
                if SafeId(id) then r == Ok(reply) && Snapshot() == Record(db, id, old(cards)[row], d, args)
                else r == Err(UnsafeTaskId) && Snapshot() == old(Snapshot())
    {
      hide Exec, SafeId, MaxSequence, Transitioned;
      var before, card := cards, cards[row];
      var abort := Execute(Update(row, Transitioned(card, d, args), true, args.now));
      if abort.Some? {
        return Err(Aborted(abort.value));
      }
      if !SafeId(id) {
        cards := before;
        return Err(UnsafeTaskId);
      }
      var from, sequence := FromState(card), MaxSequence(observations, id) + 1;
      events := events + [Event(id, from, d.state, card.status, StatusOf(d.state), d.reason, args.actor, args.now)];
      observations := observations + [Observation(id, sequence, from, d.state, d.repairs)];
      return Ok(reply);
    }

    /** The transactional state-change authority: gate, row update, event and
        observation happen together or not at all. */
    method TransitionKanbanWorkflowState(id: string, requested: State, args: MoveArgs, override: Option<Policy>)
      returns (r: Result<Reply, Fault>)
      requires Sound()
      modifies this
      ensures Sound() && Answer(Snapshot(), r) == CardStep(old(Snapshot()), id, Transit(requested, args, override))
    {
      StepKeepsValid(Snapshot(), CardOp(id, Transit(requested, args, override)));
      hide EvaluateLane, Decide, Exec, SafeId, MaxSequence, Refuses, Transitioned;
      var row := FindRow(id);
      if row.None? {
        return Ok(NOT_FOUND);
      }
      var card := cards[row.value];
      var from := FromState(card);
      if requested == from {
        if args.lane.Some? && args.lane != card.lane {
          return Ok(Reply(false, Some(from), Some(InvalidTransition), None, false));
        }
        r := ExecuteAndReply(Update(row.value, Placed(card, args), false, args.now),
                             Reply(true, Some(from), None, None, false));
        return;
      }
      var d := Decide(from, requested, card.repairs);
      if !d.allowed {
        return Ok(Reply(false, Some(from), d.reason, None, false));
      }
      var gate := EvaluateLane(Snapshot(), id, card, StatusOf(d.state), args.lane, override, card.archivedAt);
      if gate.Err? {
        return Err(gate.error);
      }
      if gate.value.laneRequired {
        return Ok(Reply(false, None, None, None, true));
      }
      if Refuses(gate.value) {
        return Ok(Reply(false, Some(from), None, gate.value.laneGate, false));
      }
      r := RecordTransition(row.value, id, d, args, Reply(true, Some(d.state), d.reason, gate.value.laneGate, false));
    }

    method MoveKanbanCard(id: string, status: Status, args: MoveArgs) returns (r: Result<Reply, Fault>)
      requires Sound()
      modifies this
      ensures Sound() && Answer(Snapshot(), r) == CardStep(old(Snapshot()), id, MoveTo(status, args))
    {
      StepKeepsValid(Snapshot(), CardOp(id, MoveTo(status, args)));
      var row := FindRow(id);
      if row.None? {
        return Ok(NOT_FOUND);
      }
      var card := cards[row.value];
      if StateOf(status) == Hydrated(card) {
        if args.lane.Some? && args.lane != card.lane {
          return Ok(NOT_FOUND);
        }
        r := ExecuteAndReply(Update(row.value, Placed(card, args), false, args.now), DONE);
        return;
      }
      if StateOf(status) == Running {
        return Ok(NOT_FOUND);
      }
      if card.status == InProgress && args.lane.Some? && args.lane != card.lane {
        return Ok(NOT_FOUND);
      }
      if args.lane.Some? && !ValidLane(args.lane.value) {
        return Ok(NOT_FOUND);
      }
      r := TransitionKanbanWorkflowState(id, StateOf(status), args, None);
      if r.Ok? {
        r := Ok(if r.value.changed then DONE else NOT_FOUND);
      }
    }

    method MoveKanbanCardWithLaneGate(id: string, status: Status, args: MoveArgs, override: Option<Policy>)
      returns (r: Result<Reply, Fault>)
      requires Sound()
      modifies this
      ensures Sound() && Answer(Snapshot(), r) == CardStep(old(Snapshot()), id, MoveGated(status, args, override))
    {
      StepKeepsValid(Snapshot(), CardOp(id, MoveGated(status, args, override)));
      var row := FindRow(id);
      if row.None? {
        return Ok(NOT_FOUND);
      }
      var card := cards[row.value];
      if StateOf(status) == Hydrated(card) {
        if args.lane.Some? && args.lane != card.lane {
          return Ok(NOT_FOUND);
        }
        var gate := EvaluateLane(Snapshot(), id, card, status, args.lane, override, card.archivedAt);
        if gate.Err? {
          return Err(gate.error);
        }
        if gate.value.laneRequired {
          return Ok(NOT_FOUND.(laneRequired := true));
        }
        if Refuses(gate.value) {
          return Ok(NOT_FOUND.(laneGate := gate.value.laneGate));
        }
        r := ExecuteAndReply(
          Update(row.value, card.(sortOrder := args.sortOrder, updatedAt := args.now,
                                  lane := EffectiveLane(args.lane, card.lane)), false, args.now),
          DONE.(laneGate := gate.value.laneGate));
        return;
      }
      r := TransitionKanbanWorkflowState(id, StateOf(status), args, override);
    }

    method UpdateKanbanCard(id: string, edit: Edit, now: int) returns (r: Result<Reply, Fault>)
      requires Sound()
      modifies this
      ensures Sound() && Answer(Snapshot(), r) == CardStep(old(Snapshot()), id, EditFields(edit, now))
    {
      StepKeepsValid(Snapshot(), CardOp(id, EditFields(edit, now)));
      var row := FindRow(id);
      if row.None? || edit.touchesWorkflow {
        return Ok(NOT_FOUND);
      }
      var card := cards[row.value];
      if card.status == InProgress && edit.lane.Some? && edit.lane != card.lane {
        return Ok(NOT_FOUND);
      }
      if edit.lane.Some? && !ValidLane(edit.lane.value) {
        return Ok(NOT_FOUND);
      }
      r := ExecuteAndReply(Update(row.value, Edited(card, edit, now), false, now), DONE);
    }

    method UpdateKanbanCardWithLaneGate(id: string, edit: Edit, override: Option<Policy>, now: int)
      returns (r: Result<Reply, Fault>)
      requires Sound()
      modifies this
      ensures Sound() && Answer(Snapshot(), r) == CardStep(old(Snapshot()), id, EditGated(edit, override, now))
    {
      StepKeepsValid(Snapshot(), CardOp(id, EditGated(edit, override, now)));
      var row := FindRow(id);
      if row.None? || edit.touchesWorkflow {
        return Ok(NOT_FOUND);
      }
      var card := cards[row.value];
      var archivedAt := edit.archivedAt.GetOr(card.archivedAt);
      var gate := EvaluateLane(Snapshot(), id, card, card.status, edit.lane, override, archivedAt);
      if gate.Err? {
        return Err(gate.error);
      }
      if gate.value.laneRequired {
        return Ok(NOT_FOUND.(laneRequired := true));
      }
      if Refuses(gate.value) {
        return Ok(NOT_FOUND.(laneGate := gate.value.laneGate));
      }
      r := ExecuteAndReply(Update(row.value, Edited(card, edit, now), false, now),
                           DONE.(laneGate := gate.value.laneGate));
    }

    method ArchiveKanbanCard(id: string, now: int) returns (r: Result<Reply, Fault>)
      requires Sound()
      modifies this
      ensures Sound() && Answer(Snapshot(), r) == CardStep(old(Snapshot()), id, Archive(now))
    {
      StepKeepsValid(Snapshot(), CardOp(id, Archive(now)));
      var row := FindRow(id);
      if row.None? {
        return Ok(NOT_FOUND);
      }
      r := ExecuteAndReply(Update(row.value, cards[row.value].(archivedAt := Some(now), updatedAt := now), false, now),
                           DONE);
    }

    method UnarchiveKanbanCard(id: string, now: int) returns (r: Result<Reply, Fault>)
      requires Sound()
      modifies this
      ensures Sound() && Answer(Snapshot(), r) == CardStep(old(Snapshot()), id, Unarchive(now))
    {
      StepKeepsValid(Snapshot(), CardOp(id, Unarchive(now)));
      var row := FindRow(id);
      if row.None? || cards[row.value].archivedAt.None? {
        return Ok(NOT_FOUND);
      }
      r := ExecuteAndReply(Update(row.value, cards[row.value].(archivedAt := None, updatedAt := now), false, now),
                           DONE);
    }

    method UnarchiveKanbanCardWithLaneGate(id: string, limits: Policy, now: int) returns (r: Result<Reply, Fault>)
      requires Sound()
      modifies this
      ensures Sound() && Answer(Snapshot(), r) == CardStep(old(Snapshot()), id, UnarchiveGated(limits, now))
    {
      StepKeepsValid(Snapshot(), CardOp(id, UnarchiveGated(limits, now)));
      var row := FindRow(id);
      if row.None? || cards[row.value].archivedAt.None? {
        return Ok(NOT_FOUND);
      }
      var card := cards[row.value];
      var laneGate := None;
      if card.status == InProgress && card.lane.Some? && card.lane.value != "" {
        var running := |OthersRunning(cards, card.lane.value, id)|;
        var allowed := WipAllows(running, limits.limit);
        laneGate := Some(LaneGate(card.lane.value, running, limits.limit, allowed));
        if !allowed && limits.enforce {
          return Ok(NOT_FOUND.(laneGate := laneGate));
        }
      }
      r := ExecuteAndReply(Update(row.value, card.(archivedAt := None, updatedAt := now), false, now),
                           DONE.(laneGate := laneGate));
    }

    /** Stamps the commented card, if there is one; the comment is written anyway. */
    method AddKanbanComment(id: string, now: int)
      requires Sound()
      modifies this
      ensures Sound() && Answer(Snapshot(), Ok(if RowOf(old(Snapshot()), id).Some? then DONE else NOT_FOUND)) ==
                         CardStep(old(Snapshot()), id, Comment(now))
    {
      StepKeepsValid(Snapshot(), CardOp(id, Comment(now)));
      var row := FindRow(id);
      if row.Some? {
        UnguardedWriteSucceeds(Snapshot(), row.value, id, cards[row.value].(updatedAt := now), now);
        var abort := Execute(Update(row.value, cards[row.value].(updatedAt := now), false, now));
      }
    }

    method MarkKanbanCardDispatched(id: string, now: int) returns (r: Result<Reply, Fault>)
      requires Sound()
      modifies this
      ensures Sound() && Answer(Snapshot(), r) == CardStep(old(Snapshot()), id, MarkDispatched(now))
    {
      StepKeepsValid(Snapshot(), CardOp(id, MarkDispatched(now)));
      var row := FindRow(id);
      if row.None? {
        return Ok(NOT_FOUND);
      }
      r := ExecuteAndReply(Update(row.value, cards[row.value].(dispatchedAt := Some(now)), false, now), DONE);
    }

    /** Every unarchived card by position, each with the state readers see. */
    method Unarchived() returns (listing: seq<Listed>)
      ensures InPlace(listing)
      ensures forall x :: x in listing <==>
                x.number in cards && cards[x.number].archivedAt.None? &&
                x == Listed(x.number, cards[x.number], Hydrated(cards[x.number]))
    {
      hide InPlace, Place, Hydrated;
      listing := [];
      NothingInPlace();
      var rest := cards.Keys;
      while rest != {}
        invariant rest <= cards.Keys && InPlace(listing)
        invariant forall x :: x in listing <==>
                    x.number in cards && x.number !in rest && cards[x.number].archivedAt.None? &&
                    x == Listed(x.number, cards[x.number], Hydrated(cards[x.number]))
        decreases |rest|
      {
        var r :| r in rest;
        if cards[r].archivedAt.None? {
          var x := Listed(r, cards[r], Hydrated(cards[r]));
          PlaceKeeps(x, listing);
          listing := Place(x, listing);
        }
        rest := rest - {r};
      }
    }

    /** Archives the finished cards not touched since the cutoff, then lists the rest. */
    method ListKanbanCards(now: int, cutoff: int) returns (listing: seq<Listed>)
      requires Sound()
      modifies this`cards
      ensures Sound() && Snapshot() == AutoArchive(old(Snapshot()), now, cutoff)
      ensures InPlace(listing)
      ensures forall x :: x in listing <==>
                x.number in cards && cards[x.number].archivedAt.None? &&
                x == Listed(x.number, cards[x.number], Hydrated(cards[x.number]))
    {
      StepKeepsValid(Snapshot(), AutoArchiveOp(now, cutoff));
      cards := map r | r in cards ::
        if cards[r].status == Finished && cards[r].archivedAt.None? && cards[r].updatedAt < cutoff
        then cards[r].(archivedAt := Some(now)) else cards[r];
      listing := Unarchived();
    }

    method DeleteKanbanCard(id: string) returns (r: Result<Reply, Fault>)
      requires Sound()
      modifies this
      ensures Sound() && Answer(Snapshot(), r) == CardStep(old(Snapshot()), id, Remove)
    {
      StepKeepsValid(Snapshot(), CardOp(id, Remove));
      var row := FindRow(id);
      if row.None? {
        return Ok(NOT_FOUND);
      }
      r := ExecuteAndReply(Delete(row.value), DONE);
    }

    method InsertImportedKanbanCard(row: nat, card: Card) returns (r: Result<Reply, Fault>)
      requires Sound()
      modifies this
      ensures Sound() && Answer(Snapshot(), r) == Import(old(Snapshot()), row, card)
    {
      StepKeepsValid(Snapshot(), ImportOp(row, card));
      if card.lane.Some? && !ValidLane(card.lane.value) {
        return Err(InvalidLane);
      }
      if !Projected(card) {
        return Err(ConflictingState);
      }
      importing := true;
      var abort := Execute(Insert(row, card));
      importing := false;
      if abort.Some? && abort.value != DuplicateId {
        return Err(Aborted(abort.value));
      }
      return Ok(DONE);
    }
  }
}
