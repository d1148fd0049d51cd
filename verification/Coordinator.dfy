/** The Telegram backfill coordinator (src/channel-coordinator.ts with the event
    store of src/channel-coordinator/ingest.ts): one loop iteration is one step
    against a messaging server, a liveness probe and a store that may fail. */
module Coordinator {
  import opened Prelude

  const NATIVE_409_COOLDOWN_MS := 90_000
  const DOWN_DEBOUNCE := 2
  const RECONCILE_LIMIT := 50

  // ---- The store --------------------------------------------------------------------

  // A polled update; no content when its kind is not handled.
  datatype Update = Update(id: int, content: Option<string>)

  // A stored update, identified by its position, with the hand-off last linked to it.
  datatype Event = Event(updateId: int, content: string, message: Option<nat>, failed: bool)

  // A hand-off in the agent queue: in flight until the router abandons it.
  datatype Message = Message(updateId: int, content: string, failed: bool)

  datatype Mode = Idle | Backfilling | Stopped

  // `handed` records the updates that batches handed off, in order.
  datatype Coord = Coord(mode: Mode, downStreak: nat, confirmedUpUntil: int, offset: int, events: seq<Event>,
                         messages: map<nat, Message>, nextMessage: nat, handed: seq<int>)

  // Which of the three statements of one hand-off throw.
  datatype Fault = Fault(insert: bool, create: bool, mark: bool)

  function FaultAt(faults: seq<Fault>, i: nat): Fault {
    if i < |faults| then faults[i] else Fault(false, false, false)
  }

  predicate Stored(events: seq<Event>, id: int) {
    exists i :: 0 <= i < |events| && events[i].updateId == id
  }

  // Queue a message for a stored event and link it to the event.
  function HandOff(c: Coord, k: nat, f: Fault): Coord
    requires k < |c.events|
  {
    if f.create then c
    else
      var message := Message(c.events[k].updateId, c.events[k].content, false);
      var queued := c.(messages := c.messages[c.nextMessage := message], nextMessage := c.nextMessage + 1);
      if f.mark then queued
      else queued.(events := c.events[k := c.events[k].(message := Some(c.nextMessage), failed := false)])
  }

  predicate Fresh(c: Coord, u: Update, f: Fault) {
    u.content.Some? && !f.insert && !Stored(c.events, u.id)
  }

  function ProcessOne(c: Coord, u: Update, f: Fault): Coord {
    if !Fresh(c, u, f) then c
    else
      var stored := c.(events := c.events + [Event(u.id, u.content.value, None, false)]);
      HandOff(stored, |c.events|, f).(handed := if f.create then c.handed else c.handed + [u.id])
  }

  function ProcessUpTo(c: Coord, updates: seq<Update>, faults: seq<Fault>, n: nat): Coord
    requires n <= |updates|
  {
    if n == 0 then c else ProcessOne(ProcessUpTo(c, updates, faults, n - 1), updates[n - 1], FaultAt(faults, n - 1))
  }

  function MaxId(updates: seq<Update>): (m: int)
    requires updates != []
    ensures exists i :: 0 <= i < |updates| && updates[i].id == m
    ensures forall i :: 0 <= i < |updates| ==> updates[i].id <= m
  {
    if |updates| == 1 then updates[0].id
    else
      var rest := MaxId(updates[1..]);
      assert forall i :: 1 <= i < |updates| ==> updates[i] == updates[1..][i - 1];
      if updates[0].id > rest then updates[0].id else rest
  }

  // A processed batch moves the offset past its highest id, handled or not.
  function ProcessBatch(c: Coord, updates: seq<Update>, faults: seq<Fault>): Coord
    requires updates != []
  {
    ProcessUpTo(c, updates, faults, |updates|).(offset := MaxId(updates))
  }

  // ---- Replay ---------------------------------------------------------------------------

  predicate NeedsHandoff(c: Coord, e: Event) {
    !e.failed && (e.message.None? || e.message.value !in c.messages || c.messages[e.message.value].failed)
  }

  function Needing(c: Coord, n: nat): (ks: seq<nat>)
    requires n <= |c.events|
    ensures forall i :: 0 <= i < |ks| ==> ks[i] < n
  {
    if n == 0 then [] else if NeedsHandoff(c, c.events[n - 1]) then Needing(c, n - 1) + [n - 1] else Needing(c, n - 1)
  }

  lemma {:induction false} NeedingMeaning(c: Coord, n: nat)
    requires n <= |c.events|
    ensures var ks := Needing(c, n);
            && (forall i :: 0 <= i < |ks| ==> NeedsHandoff(c, c.events[ks[i]]))
            && (forall k: nat :: k < n && NeedsHandoff(c, c.events[k]) ==> k in ks)
            && (forall i, j :: 0 <= i < j < |ks| ==> ks[i] < ks[j])
  {
    hide NeedsHandoff;
    if n > 0 {
      var ks, before := Needing(c, n), Needing(c, n - 1);
      NeedingMeaning(c, n - 1);
      assert ks == if NeedsHandoff(c, c.events[n - 1]) then before + [n - 1] else before;
      assert NeedsHandoff(c, c.events[n - 1]) ==> ks[|ks| - 1] == n - 1;
    }
  }

  function Replayed(c: Coord): seq<nat> {
    var ks := Needing(c, |c.events|);
    if |ks| <= RECONCILE_LIMIT then ks else ks[..RECONCILE_LIMIT]
  }

  lemma ReplayedMeaning(c: Coord)
    ensures var ks := Replayed(c);
            && (forall i :: 0 <= i < |ks| ==> ks[i] < |c.events| && NeedsHandoff(c, c.events[ks[i]]))
            && (forall i, j :: 0 <= i < j < |ks| ==> ks[i] < ks[j])
  {
    hide NeedsHandoff;
    NeedingMeaning(c, |c.events|);
    assert forall i :: 0 <= i < |Replayed(c)| ==> Replayed(c)[i] == Needing(c, |c.events|)[i];
  }

  function HandOffAll(c: Coord, ks: seq<nat>, faults: seq<Fault>, n: nat): (r: Coord)
    requires n <= |ks| && forall i :: 0 <= i < |ks| ==> ks[i] < |c.events|
    ensures |r.events| == |c.events|
  {
    if n == 0 then c else HandOff(HandOffAll(c, ks, faults, n - 1), ks[n - 1], FaultAt(faults, n - 1))
  }

  function Reconcile(c: Coord, queryFails: bool, faults: seq<Fault>): Coord {
    if queryFails then c else HandOffAll(c, Replayed(c), faults, |Replayed(c)|)
  }

  // ---- The loop -----------------------------------------------------------------------------

  datatype ApiError = Fatal | Conflict | RateLimit | Transient

  // What one iteration meets: the clock at its liveness check and after the
  // server's answer, the probes, the answers, the faults, and what the message
  // router and other queue users did since the previous iteration.
  datatype Env = Env(now: int, later: int, probeDown: bool, seed: Result<Option<int>, ApiError>,
                     poll: Result<seq<Update>, ApiError>, stillDown: bool, queryFails: bool, replayFaults: seq<Fault>,
                     batchFaults: seq<Fault>, abandoned: set<nat>, removed: set<nat>, otherMessages: nat)

  function Router(c: Coord, e: Env): Coord {
    c.(messages := map m | m in c.messages && m !in e.removed ::
                     c.messages[m].(failed := c.messages[m].failed || m in e.abandoned),
       nextMessage := c.nextMessage + e.otherMessages)
  }

  // The state the iteration's own branch starts from.
  function Ready(c: Coord, e: Env): Coord {
    Reconcile(Router(c, e), e.queryFails, e.replayFaults)
  }

  function Yield(c: Coord): Coord { c.(mode := Idle, downStreak := 0) }

  // A down reading counts only outside the conflict cooldown.
  predicate CountsAsDown(c: Coord, e: Env) {
    e.probeDown && e.now >= c.confirmedUpUntil
  }

  predicate Seeds(c: Coord, e: Env) {
    c.mode == Idle && CountsAsDown(c, e) && c.downStreak + 1 >= DOWN_DEBOUNCE
  }

  function Watch(c: Coord, e: Env): Coord {
    var w := c.(downStreak := if CountsAsDown(c, e) then c.downStreak + 1 else 0);
    if w.downStreak < DOWN_DEBOUNCE then w
    else
      match e.seed
      case Ok(hw) => w.(offset := hw.GetOr(w.offset), mode := Backfilling)
      case Err(Fatal) => w.(mode := Stopped)
      case Err(Conflict) => w.(confirmedUpUntil := e.later + NATIVE_409_COOLDOWN_MS, downStreak := 0)
      case Err(_) => w
  }

  function Backfill(c: Coord, e: Env): Coord {
    if !e.probeDown then Yield(c)
    else
      match e.poll
      case Err(Fatal) => c.(mode := Stopped)
      case Err(Conflict) => Yield(c.(confirmedUpUntil := e.later + NATIVE_409_COOLDOWN_MS))
      case Err(_) => c
      case Ok(updates) =>
        if updates == [] then c else if !e.stillDown then Yield(c) else ProcessBatch(c, updates, e.batchFaults)
  }

  function Iterate(c: Coord, e: Env): Coord {
    match c.mode
    case Stopped => c
    case Idle => Watch(Ready(c, e), e)
    case Backfilling => Backfill(Ready(c, e), e)
  }

  function At(c: Coord, envs: seq<Env>, n: nat): Coord
    requires n <= |envs|
  {
    if n == 0 then c else Iterate(At(c, envs, n - 1), envs[n - 1])
  }

  // Replay touches neither the mode, the clocks, the offset nor the batch log.
  lemma {:induction false} HandOffAllFrame(c: Coord, ks: seq<nat>, faults: seq<Fault>, n: nat)
    requires n <= |ks| && forall i :: 0 <= i < |ks| ==> ks[i] < |c.events|
    ensures var r := HandOffAll(c, ks, faults, n);
            && r.mode == c.mode && r.downStreak == c.downStreak && r.confirmedUpUntil == c.confirmedUpUntil
            && r.offset == c.offset && r.handed == c.handed
            && forall i :: 0 <= i < |c.events| ==> r.events[i].updateId == c.events[i].updateId
  {
    if n > 0 {
      HandOffAllFrame(c, ks, faults, n - 1);
    }
  }

  lemma ReadyFrame(c: Coord, e: Env)
    ensures var r := Ready(c, e);
            && r.mode == c.mode && r.downStreak == c.downStreak && r.confirmedUpUntil == c.confirmedUpUntil
            && r.offset == c.offset && r.handed == c.handed && |r.events| == |c.events|
            && forall i :: 0 <= i < |c.events| ==> r.events[i].updateId == c.events[i].updateId
  {
    var routed := Router(c, e);
    HandOffAllFrame(routed, Replayed(routed), e.replayFaults, |Replayed(routed)|);
  }

  // ---- Conflicts -----------------------------------------------------------------------------

  predicate Requests(c: Coord, e: Env) {
    Seeds(c, e) || (c.mode == Backfilling && e.probeDown)
  }

  predicate Conflicts(c: Coord, e: Env) {
    (Seeds(c, e) && e.seed == Err(Conflict)) || (c.mode == Backfilling && e.probeDown && e.poll == Err(Conflict))
  }

  predicate Clocked(envs: seq<Env>) {
    && (forall i :: 0 <= i < |envs| ==> envs[i].now <= envs[i].later)
    && (forall i, j :: 0 <= i < j < |envs| ==> envs[i].later <= envs[j].now)
  }

  // The cooldown covers every conflict so far, and backfilling is past it.
  ghost predicate Cooling(c: Coord, envs: seq<Env>, n: nat)
    requires n <= |envs|
  {
    forall i: nat :: i < n && Conflicts(At(c, envs, i), envs[i]) ==>
      && envs[i].later + NATIVE_409_COOLDOWN_MS <= At(c, envs, n).confirmedUpUntil
      && (At(c, envs, n).mode == Backfilling ==> envs[i].later + NATIVE_409_COOLDOWN_MS <= envs[n - 1].later)
  }

  lemma CoolingStep(c: Coord, e: Env)
    ensures var c' := Iterate(c, e);
            && (Conflicts(c, e) ==> c'.mode == Idle && c'.confirmedUpUntil == e.later + NATIVE_409_COOLDOWN_MS)
            && (!Conflicts(c, e) ==> c'.confirmedUpUntil == c.confirmedUpUntil)
            && (c'.mode == Backfilling ==> c.mode == Backfilling || (c.mode == Idle && e.now >= c.confirmedUpUntil))
  {
    hide Ready, ProcessUpTo, MaxId;
    ReadyFrame(c, e);
    if c.mode == Backfilling && e.poll.Ok? && e.poll.value != [] {
      ProcessFrame(Ready(c, e), e.poll.value, e.batchFaults, |e.poll.value|);
    }
  }

  lemma {:induction false} CoolingHolds(c: Coord, envs: seq<Env>, n: nat)
    requires n <= |envs| && Clocked(envs)
    ensures Cooling(c, envs, n)
  {
    hide Iterate, Conflicts, At;
    if n > 0 {
      var before, after := At(c, envs, n - 1), At(c, envs, n);
      CoolingHolds(c, envs, n - 1);
      CoolingStep(before, envs[n - 1]);
      AtStep(c, envs, n - 1);
      forall i: nat | i < n && Conflicts(At(c, envs, i), envs[i])
        ensures envs[i].later + NATIVE_409_COOLDOWN_MS <= after.confirmedUpUntil
        ensures after.mode == Backfilling ==> envs[i].later + NATIVE_409_COOLDOWN_MS <= envs[n - 1].later
      {
      }
    }
  }

  lemma AtStep(c: Coord, envs: seq<Env>, n: nat)
    requires n < |envs|
    ensures At(c, envs, n + 1) == Iterate(At(c, envs, n), envs[n])
  {
  }

  /** Anti-flap bound: after a conflict answer the server is not asked again for
      90 seconds, by seed or by long poll; so any two conflicts are 90 s apart. */
  lemma ConflictSpacing(c: Coord, envs: seq<Env>, i: nat, j: nat)
    requires Clocked(envs) && i < j < |envs|
    requires Conflicts(At(c, envs, i), envs[i]) && Requests(At(c, envs, j), envs[j])
    ensures envs[i].later + NATIVE_409_COOLDOWN_MS <= envs[j].now
  {
    hide Iterate, Conflicts;
    CoolingHolds(c, envs, j);
  }

  // ---- Entering a window -------------------------------------------------------------------------

  // The previous iteration was idle, read DOWN outside the cooldown, and met no conflict.
  ghost predicate WasDown(c: Coord, envs: seq<Env>, n: nat)
    requires n <= |envs|
  {
    && n > 0 && At(c, envs, n - 1).mode == Idle && CountsAsDown(At(c, envs, n - 1), envs[n - 1])
    && !Conflicts(At(c, envs, n - 1), envs[n - 1])
  }

  lemma WatchStep(c: Coord, e: Env)
    requires c.mode == Idle
    ensures var c' := Iterate(c, e);
            && (c'.mode == Backfilling <==> Seeds(c, e) && e.seed.Ok?)
            && (c'.mode == Backfilling ==> c'.offset == e.seed.value.GetOr(c.offset))
            && (c'.mode == Idle ==> (c'.downStreak > 0 <==> CountsAsDown(c, e) && !Conflicts(c, e)))
  {
    ReadyFrame(c, e);
  }

  lemma YieldResets(c: Coord, e: Env)
    requires c.mode == Backfilling && Iterate(c, e).mode == Idle
    ensures Iterate(c, e).downStreak == 0
  {
    ReadyFrame(c, e);
    if e.poll.Ok? && e.poll.value != [] {
      ProcessFrame(Ready(c, e), e.poll.value, e.batchFaults, |e.poll.value|);
    }
  }

  lemma {:induction false} StreakHolds(c: Coord, envs: seq<Env>, n: nat)
    requires n <= |envs| && c.mode == Idle && c.downStreak == 0 && At(c, envs, n).mode == Idle
    ensures At(c, envs, n).downStreak > 0 <==> WasDown(c, envs, n)
  {
    hide Iterate, Conflicts, CountsAsDown;
    if n > 0 {
      var before := At(c, envs, n - 1);
      if before.mode == Idle {
        WatchStep(before, envs[n - 1]);
      } else if before.mode == Backfilling {
        YieldResets(before, envs[n - 1]);
      } else {
        StoppedStays(before, envs[n - 1]);
      }
    }
  }

  lemma StoppedStays(c: Coord, e: Env)
    requires c.mode == Stopped
    ensures Iterate(c, e).mode == Stopped
  {
  }

  /** From process start, an idle coordinator starts backfilling exactly when this
      iteration and the one just before both read DOWN outside the cooldown,
      that earlier one met no conflict, and the high-water request succeeds. */
  lemma EntersAfterTwoDownProbes(c: Coord, envs: seq<Env>, n: nat)
    requires n < |envs| && c.mode == Idle && c.downStreak == 0 && At(c, envs, n).mode == Idle
    ensures At(c, envs, n + 1).mode == Backfilling <==>
              WasDown(c, envs, n) && CountsAsDown(At(c, envs, n), envs[n]) && envs[n].seed.Ok?
    ensures At(c, envs, n + 1).mode == Backfilling ==>
              At(c, envs, n + 1).offset == envs[n].seed.value.GetOr(At(c, envs, n).offset)
  {
    hide Iterate, Conflicts, CountsAsDown;
    StreakHolds(c, envs, n);
    WatchStep(At(c, envs, n), envs[n]);
  }

  // ---- Batches -------------------------------------------------------------------------------------

  lemma {:induction false} ProcessFrame(c: Coord, updates: seq<Update>, faults: seq<Fault>, n: nat)
    requires n <= |updates|
    ensures var r := ProcessUpTo(c, updates, faults, n);
            r.mode == c.mode && r.downStreak == c.downStreak && r.confirmedUpUntil == c.confirmedUpUntil &&
              r.offset == c.offset
  {
    if n > 0 {
      ProcessFrame(c, updates, faults, n - 1);
    }
  }

  // Some copy of the update in the batch is handled and gets inserted.
  ghost predicate InsertedBy(updates: seq<Update>, faults: seq<Fault>, n: nat, id: int)
    requires n <= |updates|
  {
    exists k: nat :: k < n && updates[k].id == id && updates[k].content.Some? && !FaultAt(faults, k).insert
  }

  // What one update does to the stored ids and the batch log.
  lemma ProcessOneMeaning(c: Coord, u: Update, f: Fault)
    ensures var r := ProcessOne(c, u, f);
            && (forall id :: Stored(r.events, id) <==> Stored(c.events, id) || (id == u.id && Fresh(c, u, f)))
            && r.handed == (if Fresh(c, u, f) && !f.create then c.handed + [u.id] else c.handed)
            && (forall i :: 0 <= i < |c.events| ==> i < |r.events| && r.events[i] == c.events[i])
            && (Fresh(c, u, f) ==>
                  |r.events| == |c.events| + 1 && r.events[|c.events|].updateId == u.id &&
                  r.events[|c.events|].content == u.content.value)
  {
    var r := ProcessOne(c, u, f);
    if Fresh(c, u, f) {
      assert r.events[|c.events|].updateId == u.id;
    }
    forall id | Stored(c.events, id) ensures Stored(r.events, id) {
      var i :| 0 <= i < |c.events| && c.events[i].updateId == id;
      assert r.events[i].updateId == id;
    }
  }

  /** What a batch stores, exactly: an update is stored afterwards if and only if
      it was before, or one of its handled copies was inserted without a fault. */
  lemma {:induction false} BatchStores(c: Coord, updates: seq<Update>, faults: seq<Fault>, n: nat, id: int)
    requires n <= |updates|
    ensures Stored(ProcessUpTo(c, updates, faults, n).events, id) <==>
              Stored(c.events, id) || InsertedBy(updates, faults, n, id)
  {
    hide Stored, ProcessOne;
    if n > 0 {
      BatchStores(c, updates, faults, n - 1, id);
      ProcessOneMeaning(ProcessUpTo(c, updates, faults, n - 1), updates[n - 1], FaultAt(faults, n - 1));
      var u, f := updates[n - 1], FaultAt(faults, n - 1);
      assert InsertedBy(updates, faults, n, id) <==>
        (InsertedBy(updates, faults, n - 1, id) || (u.id == id && u.content.Some? && !f.insert));
    }
  }

  // Handed-off ids are pairwise different and stored.
  ghost predicate HandedOnce(c: Coord) {
    && (forall i, j :: 0 <= i < j < |c.handed| ==> c.handed[i] != c.handed[j])
    && (forall i :: 0 <= i < |c.handed| ==> Stored(c.events, c.handed[i]))
  }

  ghost predicate Carries(updates: seq<Update>, n: nat, id: int)
    requires n <= |updates|
  {
    exists k: nat :: k < n && updates[k].id == id && updates[k].content.Some?
  }

  lemma {:induction false} BatchHandsOff(c: Coord, updates: seq<Update>, faults: seq<Fault>, n: nat)
    requires n <= |updates| && HandedOnce(c)
    ensures var r := ProcessUpTo(c, updates, faults, n);
            && HandedOnce(r) && c.handed <= r.handed
            && (forall i :: |c.handed| <= i < |r.handed| ==> Carries(updates, n, r.handed[i]))
  {
    hide Stored, ProcessOne;
    if n > 0 {
      BatchHandsOff(c, updates, faults, n - 1);
      var mid := ProcessUpTo(c, updates, faults, n - 1);
      ProcessOneMeaning(mid, updates[n - 1], FaultAt(faults, n - 1));
      var r := ProcessUpTo(c, updates, faults, n);
      forall i | |c.handed| <= i < |r.handed| ensures Carries(updates, n, r.handed[i]) {
        assert i < |mid.handed| ==> Carries(updates, n - 1, mid.handed[i]);
      }
    }
  }

  predicate Processes(c: Coord, e: Env) {
    c.mode == Backfilling && e.probeDown && e.poll.Ok? && e.poll.value != [] && e.stillDown
  }

  // The server returns only ids at or above the requested offset.
  predicate Honest(c: Coord, e: Env) {
    Processes(c, e) ==> forall i :: 0 <= i < |e.poll.value| ==> e.poll.value[i].id >= c.offset + 1
  }

  lemma WatchFrame(c: Coord, e: Env)
    requires c.mode == Idle
    ensures var w := Watch(c, e);
            && w.handed == c.handed && w.events == c.events
            && w.messages == c.messages && w.nextMessage == c.nextMessage
            && (w.offset != c.offset ==> w.mode == Backfilling)
  {
  }

  lemma BackfillFrame(c: Coord, e: Env)
    requires c.mode == Backfilling && !Processes(c, e)
    ensures var b := Backfill(c, e);
            && b.handed == c.handed && b.events == c.events
            && b.messages == c.messages && b.nextMessage == c.nextMessage
            && b.offset == c.offset
  {
  }

  /** An iteration that does not process a batch -- discarded after the native
      channel recovered, empty, refused, or idle -- hands nothing off and stores
      nothing; only entering a window moves the offset then. */
  lemma DiscardedBatchChangesNothing(c: Coord, e: Env)
    requires !Processes(c, e)
    ensures var c' := Iterate(c, e);
            && c'.handed == c.handed && |c'.events| == |c.events|
            && (forall i :: 0 <= i < |c.events| ==> c'.events[i].updateId == c.events[i].updateId)
            && (c.mode != Stopped ==> c'.events == Ready(c, e).events && c'.messages == Ready(c, e).messages
                                      && c'.nextMessage == Ready(c, e).nextMessage)
            && (c'.offset != c.offset ==> c.mode == Idle && c'.mode == Backfilling)
  {
    hide Watch, Backfill, Ready;
    ReadyFrame(c, e);
    if c.mode == Idle {
      WatchFrame(Ready(c, e), e);
    } else if c.mode == Backfilling {
      BackfillFrame(Ready(c, e), e);
    }
  }

  lemma BatchStep(c: Coord, e: Env)
    requires Processes(c, e) && Honest(c, e) && HandedOnce(c)
    ensures var c' := Iterate(c, e);
            && HandedOnce(c') && c.handed <= c'.handed && c'.offset > c.offset && c'.mode == Backfilling
            && (forall i :: |c.handed| <= i < |c'.handed| ==> c.offset < c'.handed[i] <= c'.offset)
            && (forall k :: 0 <= k < |e.poll.value| ==> e.poll.value[k].id <= c'.offset)
            && (forall id :: Stored(c'.events, id) <==>
                  Stored(c.events, id) || InsertedBy(e.poll.value, e.batchFaults, |e.poll.value|, id))
  {
    ReadyFrame(c, e);
    var ready, updates := Ready(c, e), e.poll.value;
    StoredSame(c.events, ready.events);
    ProcessFrame(ready, updates, e.batchFaults, |updates|);
    BatchHandsOff(ready, updates, e.batchFaults, |updates|);
    forall id { BatchStores(ready, updates, e.batchFaults, |updates|, id); }
  }

  lemma StoredSame(a: seq<Event>, b: seq<Event>)
    requires |a| == |b| && forall i :: 0 <= i < |a| ==> a[i].updateId == b[i].updateId
    ensures forall id :: Stored(a, id) <==> Stored(b, id)
  {
    forall id ensures Stored(a, id) <==> Stored(b, id) {
      if Stored(a, id) { var i :| 0 <= i < |a| && a[i].updateId == id; assert b[i].updateId == id; }
      if Stored(b, id) { var i :| 0 <= i < |b| && b[i].updateId == id; assert a[i].updateId == id; }
    }
  }

  /** Each update is handed off by at most one batch over all windows and all
      faults, and every update handed off is stored. */
  lemma {:induction false} HandedOffOnce(c: Coord, envs: seq<Env>, n: nat)
    requires n <= |envs| && HandedOnce(c)
    ensures HandedOnce(At(c, envs, n))
  {
    hide HandedOnce, Iterate;
    if n > 0 {
      HandedOffOnce(c, envs, n - 1);
      HandedOnceStep(At(c, envs, n - 1), envs[n - 1]);
    }
  }

  lemma HandedOnceStep(c: Coord, e: Env)
    requires HandedOnce(c)
    ensures HandedOnce(Iterate(c, e))
  {
    ReadyFrame(c, e);
    StoredSame(c.events, Ready(c, e).events);
    if Processes(c, e) {
      BatchHandsOff(Ready(c, e), e.poll.value, e.batchFaults, |e.poll.value|);
    } else {
      DiscardedBatchChangesNothing(c, e);
      StoredSame(c.events, Iterate(c, e).events);
    }
  }

  // The iterations from i up to n are one backfill window.
  ghost predicate InWindow(c: Coord, envs: seq<Env>, i: nat, n: nat)
    requires i <= n <= |envs|
  {
    forall k: nat :: i <= k <= n ==> At(c, envs, k).mode == Backfilling
  }

  ghost predicate HonestServer(c: Coord, envs: seq<Env>) {
    forall k: nat :: k < |envs| ==> Honest(At(c, envs, k), envs[k])
  }

  // What was handed off since `open` lies in the offsets passed since.
  ghost predicate Above(open: Coord, end: Coord) {
    && open.offset <= end.offset && open.handed <= end.handed
    && forall k :: |open.handed| <= k < |end.handed| ==> open.offset < end.handed[k] <= end.offset
  }

  lemma AboveStep(open: Coord, c: Coord, e: Env)
    requires Above(open, c) && c.mode == Backfilling && Honest(c, e) && HandedOnce(c)
    ensures Above(open, Iterate(c, e))
  {
    hide Iterate, HandedOnce, Honest, Processes;
    if Processes(c, e) {
      BatchStep(c, e);
    } else {
      DiscardedBatchChangesNothing(c, e);
    }
  }

  /** Window safety: inside a window the offset never decreases, and everything a
      batch hands off lies above the offset in force when the window opened and
      at or below the offset it leaves. */
  lemma {:induction false} WindowSafety(c: Coord, envs: seq<Env>, i: nat, n: nat)
    requires i <= n <= |envs| && InWindow(c, envs, i, n) && HonestServer(c, envs) && HandedOnce(c)
    ensures var open, end := At(c, envs, i), At(c, envs, n);
            && open.offset <= end.offset && open.handed <= end.handed
            && forall k :: |open.handed| <= k < |end.handed| ==> open.offset < end.handed[k] <= end.offset
  {
    hide Iterate, HandedOnce, Honest, At;
    if i < n {
      assert InWindow(c, envs, i, n - 1);
      WindowSafety(c, envs, i, n - 1);
      HandedOffOnce(c, envs, n - 1);
      AtStep(c, envs, n - 1);
      AboveStep(At(c, envs, i), At(c, envs, n - 1), envs[n - 1]);
    }
  }

  /** An update whose insert threw is lost for the window: once the offset has
      passed an update that is not stored, no later batch of the window can
      store it. Together with BatchStores: stored exactly if some insert held. */
  lemma {:induction false} PassedUpdateStaysLost(c: Coord, envs: seq<Env>, i: nat, n: nat, id: int)
    requires i <= n <= |envs| && InWindow(c, envs, i, n) && HonestServer(c, envs) && HandedOnce(c)
    requires id <= At(c, envs, i).offset
    ensures Stored(At(c, envs, n).events, id) <==> Stored(At(c, envs, i).events, id)
  {
    hide Iterate, HandedOnce, Honest, Processes, Stored;
    if i < n {
      PassedUpdateStaysLost(c, envs, i, n - 1, id);
      WindowSafety(c, envs, i, n - 1);
      HandedOffOnce(c, envs, n - 1);
      PassedStep(At(c, envs, n - 1), envs[n - 1], id);
    }
  }

  lemma PassedStep(c: Coord, e: Env, id: int)
    requires Honest(c, e) && HandedOnce(c) && id <= c.offset
    ensures Stored(Iterate(c, e).events, id) <==> Stored(c.events, id)
  {
    if Processes(c, e) {
      BatchStep(c, e);
    } else {
      DiscardedBatchChangesNothing(c, e);
      StoredSame(c.events, Iterate(c, e).events);
    }
  }

  /** A handled update in a processed batch, new to the store, is stored at the
      end of the window if and only if one of its inserts in that batch did not
      throw; and the offset has passed it either way. */
  lemma LostExactlyByInsertFaults(c: Coord, envs: seq<Env>, i: nat, n: nat, id: int)
    requires i < n <= |envs| && InWindow(c, envs, i, n) && HonestServer(c, envs) && HandedOnce(c)
    requires envs[i].poll.Ok? && Processes(At(c, envs, i), envs[i]) && !Stored(At(c, envs, i).events, id)
    requires exists k :: 0 <= k < |envs[i].poll.value| && envs[i].poll.value[k].id == id
    ensures id <= At(c, envs, i + 1).offset
    ensures Stored(At(c, envs, n).events, id) <==>
              InsertedBy(envs[i].poll.value, envs[i].batchFaults, |envs[i].poll.value|, id)
  {
    hide HandedOnce, Stored, InsertedBy, Honest, Iterate, Processes;
    assert envs[i].poll.Ok? && Honest(At(c, envs, i), envs[i]);
    HandedOffOnce(c, envs, i);
    BatchStep(At(c, envs, i), envs[i]);
    PassedUpdateStaysLost(c, envs, i + 1, n, id);
  }

  // One polled update, in the middle of a window, meeting the given faults.
  function OnePoll(f: Fault): Env {
    Env(0, 0, true, Err(Transient), Ok([Update(1, Some("hello"))]), true, false, [], [f], {}, {}, 0)
  }

  const OPEN := Coord(Backfilling, 2, 0, 0, [], map[], 0, [])

  lemma OnePollStep(f: Fault)
    ensures Processes(OPEN, OnePoll(f))
    ensures Iterate(OPEN, OnePoll(f)) == ProcessOne(OPEN, Update(1, Some("hello")), f).(offset := 1)
  {
    hide ProcessOne, HandOffAll;
    OnePollReady(f);
    OneUpdateBatch(OPEN, Update(1, Some("hello")), f);
    hide ProcessBatch, Ready;
    assert Iterate(OPEN, OnePoll(f)) == Backfill(OPEN, OnePoll(f));
  }

  lemma OnePollReady(f: Fault)
    ensures Ready(OPEN, OnePoll(f)) == OPEN
  {
    NothingToReplay(OPEN, OnePoll(f));
  }

  lemma NothingToReplay(c: Coord, e: Env)
    requires c.events == [] && c.messages == map[] && e.otherMessages == 0
    ensures Ready(c, e) == c
  {
    hide HandOff, NeedsHandoff;
    var routed := Router(c, e);
    assert routed.messages == map[];
    assert routed == c;
    assert Replayed(routed) == [];
  }

  lemma OneUpdateBatch(c: Coord, u: Update, f: Fault)
    ensures ProcessBatch(c, [u], [f]) == ProcessOne(c, u, f).(offset := u.id)
  {
    hide ProcessOne;
    assert ProcessUpTo(c, [u], [f], 0) == c;
    assert ProcessUpTo(c, [u], [f], 1) == ProcessOne(c, u, FaultAt([f], 0));
  }

  /** An update whose insert throws: the offset passes it and it is stored nowhere. */
  lemma SomeUpdateIsLost()
    ensures var lost := At(OPEN, [OnePoll(Fault(true, false, false))], 1);
            HandedOnce(OPEN) && lost.mode == Backfilling && lost.offset == 1 && !Stored(lost.events, 1)
  {
    OnePollStep(Fault(true, false, false));
    hide Iterate, Ready, Processes, Watch, Backfill;
    AtStep(OPEN, [OnePoll(Fault(true, false, false))], 0);
  }

  /** An update whose link statement throws: one iteration later two hand-offs of
      it are in flight. */
  lemma SomeUpdateIsHandedOffTwice()
    ensures var twice := Reconcile(Iterate(OPEN, OnePoll(Fault(false, false, true))), false, []);
            UniqueEvents(OPEN) && Linked(OPEN) &&
            twice.messages == map[0 := Message(1, "hello", false), 1 := Message(1, "hello", false)]
  {
    OnePollStep(Fault(false, false, true));
    hide Iterate, Ready, Processes, Watch, Backfill;
    var c := Iterate(OPEN, OnePoll(Fault(false, false, true)));
    StrayIsReplayed(c);
  }

  lemma StrayIsReplayed(c: Coord)
    requires c.events == [Event(1, "hello", None, false)]
    requires c.messages == map[0 := Message(1, "hello", false)] && c.nextMessage == 1
    ensures Reconcile(c, false, []).messages ==
              map[0 := Message(1, "hello", false), 1 := Message(1, "hello", false)]
  {
    assert Needing(c, 0) == [] && Needing(c, 1) == [0];
    assert HandOffAll(c, [0], [], 0) == c;
    assert HandOffAll(c, [0], [], 1) == HandOff(c, 0, FaultAt([], 0));
  }

  // ---- Hand-offs in flight ---------------------------------------------------------------------------

  ghost predicate UniqueEvents(c: Coord) {
    forall i, j :: 0 <= i < j < |c.events| ==> c.events[i].updateId != c.events[j].updateId
  }

  // Every in-flight message is the one its event is linked to.
  ghost predicate Linked(c: Coord) {
    && (forall m :: m in c.messages ==> m < c.nextMessage)
    && (forall i :: 0 <= i < |c.events| && c.events[i].message.Some? ==> c.events[i].message.value < c.nextMessage)
    && (forall m :: m in c.messages && !c.messages[m].failed ==>
          exists i :: 0 <= i < |c.events| && c.events[i].updateId == c.messages[m].updateId &&
            c.events[i].message == Some(m))
  }

  /** Linked means at most one hand-off of an update is in flight. */
  lemma AtMostOneInFlight(c: Coord, a: nat, b: nat)
    requires UniqueEvents(c) && Linked(c) && a in c.messages && b in c.messages
    requires !c.messages[a].failed && !c.messages[b].failed && c.messages[a].updateId == c.messages[b].updateId
    ensures a == b
  {
    var i :| 0 <= i < |c.events| && c.events[i].updateId == c.messages[a].updateId && c.events[i].message == Some(a);
    var j :| 0 <= j < |c.events| && c.events[j].updateId == c.messages[b].updateId && c.events[j].message == Some(b);
    assert i == j;
  }

  /** Handing off an event that needs it keeps the link between events and
      in-flight messages exactly when the message is not queued or gets linked:
      a queued message whose link statement throws leaves a stray in flight. */
  lemma HandOffLinks(c: Coord, k: nat, f: Fault)
    requires UniqueEvents(c) && Linked(c) && k < |c.events| && NeedsHandoff(c, c.events[k])
    ensures Linked(HandOff(c, k, f)) <==> f.create || !f.mark
    ensures UniqueEvents(HandOff(c, k, f))
  {
    var r := HandOff(c, k, f);
    if !f.create {
      var added := c.nextMessage;
      assert added in r.messages && !r.messages[added].failed;
      if !f.mark {
        assert r.events[k].message == Some(added);
        forall m | m in r.messages && !r.messages[m].failed
          ensures exists i :: 0 <= i < |r.events| && r.events[i].updateId == r.messages[m].updateId &&
                              r.events[i].message == Some(m)
        {
          if m != added {
            var i :| 0 <= i < |c.events| && c.events[i].updateId == c.messages[m].updateId &&
                     c.events[i].message == Some(m);
            assert r.events[i] == c.events[i];
          }
        }
      }
    }
  }

  lemma ProcessOneLinks(c: Coord, u: Update, f: Fault)
    requires UniqueEvents(c) && Linked(c)
    ensures Linked(ProcessOne(c, u, f)) <==> !Fresh(c, u, f) || f.create || !f.mark
    ensures UniqueEvents(ProcessOne(c, u, f))
  {
    if Fresh(c, u, f) {
      var stored := c.(events := c.events + [Event(u.id, u.content.value, None, false)]);
      assert forall i :: 0 <= i < |c.events| ==> stored.events[i] == c.events[i];
      assert Linked(stored);
      HandOffLinks(stored, |c.events|, f);
      assert Linked(ProcessOne(c, u, f)) <==> Linked(HandOff(stored, |c.events|, f));
    }
  }

  /** The stray is then handed off again although its first copy is in flight. */
  lemma MarkFaultHandsOffTwice(c: Coord, u: Update, f: Fault)
    requires UniqueEvents(c) && Linked(c) && Fresh(c, u, f) && !f.create && f.mark
    ensures var c' := ProcessOne(c, u, f); var k := |c.events|;
            && c.nextMessage in c'.messages && c'.messages[c.nextMessage] == Message(u.id, u.content.value, false)
            && k < |c'.events| && NeedsHandoff(c', c'.events[k])
            && (forall g: Fault :: !g.create ==>
                  var c'' := HandOff(c', k, g);
                  c''.messages[c.nextMessage] == c''.messages[c.nextMessage + 1] ==
                  Message(u.id, u.content.value, false))
  {
  }

  predicate NoMarkFault(faults: seq<Fault>) {
    forall i :: 0 <= i < |faults| ==> !faults[i].mark
  }

  lemma {:induction false} HandOffAllLinks(c: Coord, ks: seq<nat>, faults: seq<Fault>, n: nat)
    requires UniqueEvents(c) && Linked(c) && NoMarkFault(faults) && n <= |ks|
    requires forall i :: 0 <= i < |ks| ==> ks[i] < |c.events| && NeedsHandoff(c, c.events[ks[i]])
    requires forall i, j :: 0 <= i < j < |ks| ==> ks[i] < ks[j]
    ensures var r := HandOffAll(c, ks, faults, n);
            && UniqueEvents(r) && Linked(r)
            && (forall i :: n <= i < |ks| ==> r.events[ks[i]] == c.events[ks[i]] && NeedsHandoff(r, r.events[ks[i]]))
  {
    if n > 0 {
      HandOffAllLinks(c, ks, faults, n - 1);
      var mid, r := HandOffAll(c, ks, faults, n - 1), HandOffAll(c, ks, faults, n);
      HandOffLinks(mid, ks[n - 1], FaultAt(faults, n - 1));
    }
  }

  lemma {:induction false} ProcessUpToLinks(c: Coord, updates: seq<Update>, faults: seq<Fault>, n: nat)
    requires UniqueEvents(c) && Linked(c) && NoMarkFault(faults) && n <= |updates|
    ensures UniqueEvents(ProcessUpTo(c, updates, faults, n)) && Linked(ProcessUpTo(c, updates, faults, n))
  {
    hide Linked, UniqueEvents, ProcessOne;
    if n > 0 {
      ProcessUpToLinks(c, updates, faults, n - 1);
      ProcessOneLinks(ProcessUpTo(c, updates, faults, n - 1), updates[n - 1], FaultAt(faults, n - 1));
    }
  }

  lemma RouterLinks(c: Coord, e: Env)
    requires UniqueEvents(c) && Linked(c)
    ensures UniqueEvents(Router(c, e)) && Linked(Router(c, e))
  {
  }

  lemma ReadyLinks(c: Coord, e: Env)
    requires UniqueEvents(c) && Linked(c) && NoMarkFault(e.replayFaults)
    ensures UniqueEvents(Ready(c, e)) && Linked(Ready(c, e))
  {
    hide UniqueEvents, Linked, NeedsHandoff;
    var routed := Router(c, e);
    RouterLinks(c, e);
    ReplayedMeaning(routed);
    HandOffAllLinks(routed, Replayed(routed), e.replayFaults, |Replayed(routed)|);
  }

  // Mode, clocks and offset are no part of the link.
  lemma LinksOf(a: Coord, b: Coord)
    requires a.events == b.events && a.messages == b.messages && a.nextMessage == b.nextMessage
    ensures UniqueEvents(a) <==> UniqueEvents(b)
    ensures Linked(a) <==> Linked(b)
  {
  }

  lemma IterateLinks(c: Coord, e: Env)
    requires UniqueEvents(c) && Linked(c) && NoMarkFault(e.replayFaults) && NoMarkFault(e.batchFaults)
    ensures UniqueEvents(Iterate(c, e)) && Linked(Iterate(c, e))
  {
    hide UniqueEvents, Linked, Ready, ProcessUpTo;
    var ready := Ready(c, e);
    ReadyLinks(c, e);
    if Processes(c, e) {
      var done := ProcessUpTo(ready, e.poll.value, e.batchFaults, |e.poll.value|);
      ProcessUpToLinks(ready, e.poll.value, e.batchFaults, |e.poll.value|);
      LinksOf(done, Iterate(c, e));
    } else {
      DiscardedBatchChangesNothing(c, e);
      LinksOf(if c.mode == Stopped then c else ready, Iterate(c, e));
    }
  }

  /** Replay never duplicates: in every run in which no link statement throws --
      inserts and queueing may -- no update ever has two hand-offs in flight. */
  lemma {:induction false} NeverTwoInFlight(c: Coord, envs: seq<Env>, n: nat)
    requires n <= |envs| && UniqueEvents(c) && Linked(c)
    requires forall i :: 0 <= i < |envs| ==> NoMarkFault(envs[i].replayFaults) && NoMarkFault(envs[i].batchFaults)
    ensures UniqueEvents(At(c, envs, n)) && Linked(At(c, envs, n))
    ensures var messages := At(c, envs, n).messages;
            forall a, b :: (a in messages && b in messages && !messages[a].failed && !messages[b].failed &&
                            messages[a].updateId == messages[b].updateId) ==> a == b
  {
    hide UniqueEvents, Linked, Iterate;
    if n > 0 {
      NeverTwoInFlight(c, envs, n - 1);
      IterateLinks(At(c, envs, n - 1), envs[n - 1]);
    }
    var end := At(c, envs, n);
    forall a, b | a in end.messages && b in end.messages && !end.messages[a].failed && !end.messages[b].failed &&
                  end.messages[a].updateId == end.messages[b].updateId
      ensures a == b
    {
      AtMostOneInFlight(end, a, b);
    }
  }

  // ---- Replay makes progress ------------------------------------------------------------------------------

  // No fault: the event is settled, and settled events stay settled.
  lemma HandOffSettles(c: Coord, k: nat)
    requires k < |c.events| && forall m :: m in c.messages ==> m < c.nextMessage
    ensures var r := HandOff(c, k, Fault(false, false, false));
            && |r.events| == |c.events| && r.nextMessage == c.nextMessage + 1 && !NeedsHandoff(r, r.events[k])
            && (forall m :: m in r.messages <==> m in c.messages || m == c.nextMessage)
            && (forall m :: m in c.messages ==> r.messages[m] == c.messages[m])
            && (forall i: nat :: i < |c.events| && i != k ==> r.events[i] == c.events[i])
            && (forall i: nat :: i < |c.events| && !NeedsHandoff(c, c.events[i]) ==> !NeedsHandoff(r, r.events[i]))
  {
  }

  lemma {:induction false} HandOffAllClears(c: Coord, ks: seq<nat>, n: nat)
    requires Linked(c) && n <= |ks|
    requires forall i :: 0 <= i < |ks| ==> ks[i] < |c.events|
    requires forall i, j :: 0 <= i < j < |ks| ==> ks[i] < ks[j]
    ensures var r := HandOffAll(c, ks, [], n);
            && c.nextMessage <= r.nextMessage
            && (forall m :: m in r.messages ==> m < r.nextMessage)
            && (forall m :: m < c.nextMessage ==> (m in r.messages <==> m in c.messages))
            && (forall m :: m in c.messages ==> m in r.messages && r.messages[m] == c.messages[m])
            && (forall k: nat :: k < |c.events| && k !in ks[..n] ==> r.events[k] == c.events[k])
            && (forall k :: k in ks[..n] ==> !NeedsHandoff(r, r.events[k]))
  {
    hide NeedsHandoff, HandOff;
    if n > 0 {
      HandOffAllClears(c, ks, n - 1);
      HandOffSettles(HandOffAll(c, ks, [], n - 1), ks[n - 1]);
      assert ks[..n] == ks[..n - 1] + [ks[n - 1]];
    }
  }

  /** A frozen main agent delays messages and loses none: a replay without faults
      hands off the 50 oldest events that need it and only those, so an event
      still needs a hand-off afterwards exactly if it did and was not among them. */
  lemma ReplayMakesProgress(c: Coord, k: nat)
    requires Linked(c) && k < |c.events|
    ensures var r := Reconcile(c, false, []);
            |r.events| == |c.events| &&
            (NeedsHandoff(r, r.events[k]) <==> NeedsHandoff(c, c.events[k]) && k !in Replayed(c))
    ensures k in Replayed(c) <==>
              NeedsHandoff(c, c.events[k]) && |Needing(c, k)| < RECONCILE_LIMIT
  {
    hide NeedsHandoff, HandOffAll, Linked, Needing;
    var ks, r := Replayed(c), Reconcile(c, false, []);
    ReplayedMeaning(c);
    ReplayedPosition(c, k);
    HandOffAllClears(c, ks, |ks|);
    assert ks[..|ks|] == ks;
    if k !in ks {
      SameNeed(c, r, k);
    }
  }

  lemma SameNeed(c: Coord, r: Coord, k: nat)
    requires Linked(c) && k < |c.events| && k < |r.events| && r.events[k] == c.events[k]
    requires forall m :: m < c.nextMessage ==> (m in r.messages <==> m in c.messages)
    requires forall m :: m in c.messages ==> m in r.messages && r.messages[m] == c.messages[m]
    ensures NeedsHandoff(r, r.events[k]) <==> NeedsHandoff(c, c.events[k])
  {
  }

  lemma ReplayedPosition(c: Coord, k: nat)
    requires k < |c.events|
    ensures k in Replayed(c) <==> NeedsHandoff(c, c.events[k]) && |Needing(c, k)| < RECONCILE_LIMIT
  {
    hide NeedsHandoff;
    var all, ks := Needing(c, |c.events|), Replayed(c);
    NeedingMeaning(c, |c.events|);
    NeedingPosition(c, k, |c.events|);
    assert forall i :: 0 <= i < |ks| ==> ks[i] == all[i];
    if NeedsHandoff(c, c.events[k]) {
      var at := |Needing(c, k)|;
      assert all[at] == k && (at < |ks| ==> ks[at] == k);
    }
  }

  // An event that needs a hand-off sits in the list behind the earlier ones that do.
  lemma {:induction false} NeedingPosition(c: Coord, k: nat, n: nat)
    requires k < n <= |c.events|
    ensures Needing(c, k) <= Needing(c, n)
    ensures NeedsHandoff(c, c.events[k]) ==> |Needing(c, k)| < |Needing(c, n)| && Needing(c, n)[|Needing(c, k)|] == k
  {
    hide NeedsHandoff;
    if k < n - 1 {
      NeedingPosition(c, k, n - 1);
    }
  }

  // ---- Who is served -----------------------------------------------------------------------------------------

  // Event k has a hand-off in the queue that the router has not abandoned.
  predicate Served(c: Coord, k: nat)
    requires k < |c.events|
  {
    c.events[k].message.Some? && c.events[k].message.value in c.messages &&
    !c.messages[c.events[k].message.value].failed
  }

  // The older events that are neither served nor given up.
  function OlderUnserved(c: Coord, k: nat): set<nat>
    requires k <= |c.events|
  {
    set i: nat | i < k && !c.events[i].failed && !Served(c, i)
  }

  // A hand-off carries the id and the text of the event it is linked to.
  ghost predicate LinksTell(c: Coord) {
    forall k: nat :: k < |c.events| && c.events[k].message.Some? && c.events[k].message.value in c.messages ==>
      var m := c.messages[c.events[k].message.value];
      m.updateId == c.events[k].updateId && m.content == c.events[k].content
  }

  lemma NeedsIsUnserved(c: Coord, k: nat)
    requires k < |c.events|
    ensures NeedsHandoff(c, c.events[k]) <==> !c.events[k].failed && !Served(c, k)
  {
  }

  lemma {:induction false} NeedingCounts(c: Coord, n: nat)
    requires n <= |c.events|
    ensures |Needing(c, n)| == |OlderUnserved(c, n)|
  {
    if n > 0 {
      NeedingCounts(c, n - 1);
      NeedsIsUnserved(c, n - 1);
      OneMoreUnserved(c, n - 1);
      hide NeedsHandoff, Served, OlderUnserved;
    }
  }

  lemma OneMoreUnserved(c: Coord, k: nat)
    requires k < |c.events|
    ensures |OlderUnserved(c, k + 1)| == |OlderUnserved(c, k)| + (if !c.events[k].failed && !Served(c, k) then 1 else 0)
  {
    hide Served;
    if !c.events[k].failed && !Served(c, k) {
      assert OlderUnserved(c, k + 1) == OlderUnserved(c, k) + {k};
    } else {
      assert OlderUnserved(c, k + 1) == OlderUnserved(c, k);
    }
  }

  // What replay leaves of one event, whatever faults it meets.
  lemma {:induction false} HandOffAllKeeps(c: Coord, ks: seq<nat>, faults: seq<Fault>, n: nat, k: nat)
    requires n <= |ks| && (forall i :: 0 <= i < |ks| ==> ks[i] < |c.events|) && k < |c.events| && Bounded(c)
    ensures var r := HandOffAll(c, ks, faults, n);
            && |r.events| == |c.events| && c.nextMessage <= r.nextMessage && Bounded(r)
            && (forall m :: m in c.messages ==> m in r.messages && r.messages[m] == c.messages[m])
            && (forall m :: m in r.messages && m !in c.messages ==> c.nextMessage <= m)
            && (k !in ks[..n] ==> r.events[k] == c.events[k])
            && (LinksTell(c) ==> LinksTell(r))
  {
    if n > 0 {
      HandOffAllKeeps(c, ks, faults, n - 1, k);
      HandOffKeeps(HandOffAll(c, ks, faults, n - 1), ks[n - 1], FaultAt(faults, n - 1), k);
      assert ks[..n] == ks[..n - 1] + [ks[n - 1]];
      hide HandOff, LinksTell, Bounded;
    }
  }

  // Message ids come from one counter.
  ghost predicate Bounded(c: Coord) {
    && (forall m :: m in c.messages ==> m < c.nextMessage)
    && (forall i :: 0 <= i < |c.events| && c.events[i].message.Some? ==> c.events[i].message.value < c.nextMessage)
  }

  lemma HandOffKeeps(c: Coord, at: nat, f: Fault, k: nat)
    requires at < |c.events| && k < |c.events| && Bounded(c)
    ensures var r := HandOff(c, at, f);
            && |r.events| == |c.events| && c.nextMessage <= r.nextMessage && Bounded(r)
            && (forall m :: m in c.messages ==> m in r.messages && r.messages[m] == c.messages[m])
            && (forall m :: m in r.messages && m !in c.messages ==> c.nextMessage <= m)
            && (k != at ==> r.events[k] == c.events[k])
            && (LinksTell(c) ==> LinksTell(r))
  {
  }

  /** A frozen main agent delays messages and loses none: after a replay without
      faults, every event that is not given up and has fewer than 50 older unserved
      ones has a hand-off in the queue, not abandoned, with its id and its text. Any
      other unserved event waits, and one that is served or given up is left alone. */
  lemma ReplayServes(c: Coord, k: nat)
    requires Linked(c) && LinksTell(c) && k < |c.events|
    ensures var r := Reconcile(c, false, []);
            && |r.events| == |c.events|
            && (c.events[k].failed || Served(c, k) || |OlderUnserved(c, k)| >= 50 ==> r.events[k] == c.events[k])
            && (!c.events[k].failed && |OlderUnserved(c, k)| < 50 ==>
                  && Served(r, k)
                  && var m := r.messages[r.events[k].message.value];
                     m.updateId == c.events[k].updateId && m.content == c.events[k].content && !m.failed)
  {
    LinkedIsBounded(c);
    ReplayMakesProgress(c, k);
    NeedingCounts(c, k);
    var r := Reconcile(c, false, []);
    NeedsIsUnserved(c, k);
    ReplayKeeps(c, [], k);
    NeedsIsUnserved(r, k);
    hide Linked, Bounded, Reconcile, NeedsHandoff;
  }

  lemma LinkedIsBounded(c: Coord)
    requires Linked(c)
    ensures Bounded(c)
  {
  }

  lemma ReplayKeeps(c: Coord, faults: seq<Fault>, k: nat)
    requires Bounded(c) && k < |c.events|
    ensures var r := Reconcile(c, false, faults);
            && |r.events| == |c.events| && c.nextMessage <= r.nextMessage && Bounded(r)
            && (forall m :: m in c.messages ==> m in r.messages && r.messages[m] == c.messages[m])
            && (forall m :: m in r.messages && m !in c.messages ==> c.nextMessage <= m)
            && (LinksTell(c) ==> LinksTell(r))
            && r.events[k].updateId == c.events[k].updateId && r.events[k].content == c.events[k].content
            && (r.events[k].failed ==> c.events[k].failed)
            && (r.events[k].message == c.events[k].message ||
                (r.events[k].message.Some? && r.events[k].message.value >= c.nextMessage))
            && (c.events[k].failed || Served(c, k) || k !in Replayed(c) ==> r.events[k] == c.events[k])
  {
    var ks := Replayed(c);
    ReplayedMeaning(c);
    NeedsIsUnserved(c, k);
    HandOffAllKeeps(c, ks, faults, |ks|, k);
    HandOffAllTexts(c, ks, faults, |ks|, k);
    assert ks[..|ks|] == ks;
    hide NeedsHandoff, HandOffAll;
  }

  lemma {:induction false} HandOffAllTexts(c: Coord, ks: seq<nat>, faults: seq<Fault>, n: nat, k: nat)
    requires n <= |ks| && (forall i :: 0 <= i < |ks| ==> ks[i] < |c.events|) && k < |c.events|
    ensures var r := HandOffAll(c, ks, faults, n);
            && |r.events| == |c.events| && c.nextMessage <= r.nextMessage
            && r.events[k].updateId == c.events[k].updateId && r.events[k].content == c.events[k].content
            && (r.events[k].failed ==> c.events[k].failed)
            && (r.events[k].message == c.events[k].message ||
                (r.events[k].message.Some? && r.events[k].message.value >= c.nextMessage))
  {
    if n > 0 {
      HandOffAllTexts(c, ks, faults, n - 1, k);
    }
  }

  // A batch adds events and messages and leaves the ones there are.
  lemma {:induction false} ProcessKeeps(c: Coord, updates: seq<Update>, faults: seq<Fault>, n: nat)
    requires n <= |updates| && Bounded(c)
    ensures var r := ProcessUpTo(c, updates, faults, n);
            && c.events <= r.events && c.nextMessage <= r.nextMessage && Bounded(r)
            && (forall m :: m in c.messages ==> m in r.messages && r.messages[m] == c.messages[m])
            && (forall m :: m in r.messages && m !in c.messages ==> c.nextMessage <= m)
            && (LinksTell(c) ==> LinksTell(r))
  {
    if n > 0 {
      ProcessKeeps(c, updates, faults, n - 1);
      ProcessOneKeeps(ProcessUpTo(c, updates, faults, n - 1), updates[n - 1], FaultAt(faults, n - 1));
      hide ProcessOne, LinksTell, Bounded;
    }
  }

  lemma ProcessOneKeeps(c: Coord, u: Update, f: Fault)
    requires Bounded(c)
    ensures var r := ProcessOne(c, u, f);
            && c.events <= r.events && c.nextMessage <= r.nextMessage && Bounded(r)
            && (forall m :: m in c.messages ==> m in r.messages && r.messages[m] == c.messages[m])
            && (forall m :: m in r.messages && m !in c.messages ==> c.nextMessage <= m)
            && (LinksTell(c) ==> LinksTell(r))
  {
    if Fresh(c, u, f) {
      var stored := c.(events := c.events + [Event(u.id, u.content.value, None, false)]);
      assert forall i :: 0 <= i < |c.events| ==> stored.events[i] == c.events[i];
      HandOffKeeps(stored, |c.events|, f, 0);
      forall i: nat | i < |c.events| ensures ProcessOne(c, u, f).events[i] == c.events[i] {
        HandOffKeeps(stored, |c.events|, f, i);
      }
      hide HandOff;
    }
  }

  // The rest of an iteration, after the replay, adds to what the replay left.
  lemma BranchKeeps(c: Coord, e: Env)
    requires c.mode != Stopped && Bounded(Ready(c, e))
    ensures var r, c' := Ready(c, e), Iterate(c, e);
            && r.events <= c'.events && r.nextMessage <= c'.nextMessage && Bounded(c')
            && (forall m :: m in r.messages ==> m in c'.messages && c'.messages[m] == r.messages[m])
            && (forall m :: m in c'.messages && m !in r.messages ==> r.nextMessage <= m)
            && (LinksTell(r) ==> LinksTell(c'))
  {
    hide Ready, Reconcile, Router;
    if Processes(c, e) {
      ReadyFrame(c, e);
      ProcessKeeps(Ready(c, e), e.poll.value, e.batchFaults, |e.poll.value|);
      hide ProcessUpTo;
    } else {
      DiscardedBatchChangesNothing(c, e);
      hide Iterate;
    }
  }

  // What the router leaves: its abandoned messages failed, the removed ones gone.
  lemma RouterLeaves(c: Coord, e: Env)
    ensures var r := Router(c, e);
            && r.events == c.events && r.nextMessage == c.nextMessage + e.otherMessages
            && (forall m :: m in r.messages <==> m in c.messages && m !in e.removed)
            && (forall m :: m in r.messages ==>
                  && r.messages[m].updateId == c.messages[m].updateId && r.messages[m].content == c.messages[m].content
                  && (r.messages[m].failed <==> c.messages[m].failed || m in e.abandoned))
            && (Bounded(c) ==> Bounded(r)) && (LinksTell(c) ==> LinksTell(r))
  {
  }

  /** A user message the router abandoned, or whose hand-off was removed, is handed
      off afresh by the next iteration that meets no fault, with its id and text,
      once fewer than 50 older ones are waiting. */
  lemma AbandonedIsHandedOffAgain(c: Coord, e: Env, k: nat)
    requires c.mode != Stopped && Linked(c) && LinksTell(c) && !e.queryFails && e.replayFaults == []
    requires k < |c.events| && !c.events[k].failed && c.events[k].message.Some?
    requires c.events[k].message.value in e.abandoned || c.events[k].message.value in e.removed
    requires |OlderUnserved(Router(c, e), k)| < 50
    ensures var c' := Iterate(c, e);
            && k < |c'.events| && Served(c', k) && c'.events[k].message.value >= c.nextMessage
            && var m := c'.messages[c'.events[k].message.value];
               m.updateId == c.events[k].updateId && m.content == c.events[k].content
  {
    var routed := Router(c, e);
    RouterLeaves(c, e);
    RouterBounded(c, e);
    ReplayServes(routed, k);
    ReplayKeeps(routed, [], k);
    BranchKeeps(c, e);
    assert !Served(routed, k);
    assert Ready(c, e) == Reconcile(routed, false, []);
    hide Iterate, Ready, Reconcile, Linked, Router;
  }

  lemma RouterBounded(c: Coord, e: Env)
    requires Linked(c)
    ensures Linked(Router(c, e)) && Bounded(Router(c, e))
  {
    var r := Router(c, e);
    forall m | m in r.messages && !r.messages[m].failed
      ensures exists i :: 0 <= i < |r.events| && r.events[i].updateId == r.messages[m].updateId &&
                          r.events[i].message == Some(m)
    {
      var i :| 0 <= i < |c.events| && c.events[i].updateId == c.messages[m].updateId && c.events[i].message == Some(m);
    }
  }

  /** A message in flight is left alone, whatever else the iteration meets: an event
      whose hand-off is neither abandoned nor removed keeps it, and gets no other. */
  lemma InFlightGetsNone(c: Coord, e: Env, k: nat)
    requires Bounded(c) && UniqueEvents(c) && k < |c.events| && Served(c, k)
    requires c.events[k].message.value !in e.abandoned && c.events[k].message.value !in e.removed
    ensures var c' := Iterate(c, e);
            && k < |c'.events| && c'.events[k] == c.events[k] && Served(c', k)
  {
    if c.mode != Stopped {
      var routed := Router(c, e);
      RouterLeaves(c, e);
      assert Served(routed, k);
      if !e.queryFails { ReplayKeeps(routed, e.replayFaults, k); }
      BranchKeeps(c, e);
      assert Ready(c, e) == Reconcile(routed, e.queryFails, e.replayFaults);
      hide Iterate, Ready, Router, HandOffAll;
    }
  }

  /** Over whole runs a hand-off carries the id and the text of its event. */
  lemma {:induction false} LinksAlwaysTell(c: Coord, envs: seq<Env>, n: nat)
    requires n <= |envs| && Bounded(c) && LinksTell(c)
    ensures Bounded(At(c, envs, n)) && LinksTell(At(c, envs, n))
  {
    hide Bounded, LinksTell, Iterate;
    if n > 0 {
      LinksAlwaysTell(c, envs, n - 1);
      LinksStep(At(c, envs, n - 1), envs[n - 1]);
    }
  }

  lemma LinksStep(c: Coord, e: Env)
    requires Bounded(c) && LinksTell(c)
    ensures Bounded(Iterate(c, e)) && LinksTell(Iterate(c, e))
  {
    if c.mode != Stopped {
      var routed := Router(c, e);
      RouterLeaves(c, e);
      ReplayIsSound(routed, e.queryFails, e.replayFaults);
      BranchKeeps(c, e);
      hide Iterate, Router, Reconcile, Bounded, LinksTell;
    }
  }

  lemma ReplayIsSound(c: Coord, queryFails: bool, faults: seq<Fault>)
    requires Bounded(c) && LinksTell(c)
    ensures Bounded(Reconcile(c, queryFails, faults)) && LinksTell(Reconcile(c, queryFails, faults))
  {
    hide NeedsHandoff, HandOff;
    if c.events != [] && !queryFails {
      ReplayKeeps(c, faults, 0);
    } else {
      assert Replayed(c) == [] || queryFails;
    }
  }

  /** What one polled update does, for every kind, store and fault: one that is not
      handled, stored already or not inserted changes nothing; otherwise it is stored,
      and a hand-off with its id and text is queued unless that fails, and linked
      unless that does. */
  lemma UpdateIsHandedOff(c: Coord, u: Update, f: Fault)
    ensures var r := ProcessOne(c, u, f);
            var known := exists i :: 0 <= i < |c.events| && c.events[i].updateId == u.id;
            if u.content == None || f.insert || known then r == c
            else
              var linked := if f.create || f.mark then None else Some(c.nextMessage);
              && r.events == c.events + [Event(u.id, u.content.value, linked, false)]
              && r.messages == (if f.create then c.messages
                                else c.messages[c.nextMessage := Message(u.id, u.content.value, false)])
              && r.nextMessage == (if f.create then c.nextMessage else c.nextMessage + 1)
  {
  }

  // ---- One iteration ---------------------------------------------------------------------------------------------

  /** What an iteration does to mode, down count, conflict cooldown and offset, for
      every reading and every answer of the server. */
  lemma IterationLeaves(c: Coord, e: Env)
    ensures var r, down := Iterate(c, e), e.probeDown && c.confirmedUpUntil <= e.now;
            var count := if down then c.downStreak + 1 else 0;
            var kept := (c.confirmedUpUntil, c.offset);
            match c.mode
            case Stopped => r == c
            case Idle =>
              if count < 2 then r.mode == Idle && r.downStreak == count && (r.confirmedUpUntil, r.offset) == kept
              else (match e.seed
                    case Ok(None) =>
                      r.mode == Backfilling && r.downStreak == count && (r.confirmedUpUntil, r.offset) == kept
                    case Ok(Some(hw)) =>
                      r.mode == Backfilling && r.downStreak == count && (r.confirmedUpUntil, r.offset) == (kept.0, hw)
                    case Err(Fatal) =>
                      r.mode == Stopped && r.downStreak == count && (r.confirmedUpUntil, r.offset) == kept
                    case Err(Conflict) =>
                      r.mode == Idle && r.downStreak == 0 && (r.confirmedUpUntil, r.offset) == (e.later + 90000, kept.1)
                    case Err(_) => r.mode == Idle && r.downStreak == count && (r.confirmedUpUntil, r.offset) == kept)
            case Backfilling =>
              if !e.probeDown then r.mode == Idle && r.downStreak == 0 && (r.confirmedUpUntil, r.offset) == kept
              else (match e.poll
                    case Err(Fatal) =>
                      r.mode == Stopped && r.downStreak == c.downStreak && (r.confirmedUpUntil, r.offset) == kept
                    case Err(Conflict) =>
                      r.mode == Idle && r.downStreak == 0 && (r.confirmedUpUntil, r.offset) == (e.later + 90000, kept.1)
                    case Err(_) =>
                      r.mode == Backfilling && r.downStreak == c.downStreak && (r.confirmedUpUntil, r.offset) == kept
                    case Ok(updates) =>
                      if updates != [] && !e.stillDown then
                        r.mode == Idle && r.downStreak == 0 && (r.confirmedUpUntil, r.offset) == kept
                      else
                        && r.mode == Backfilling && r.downStreak == c.downStreak && r.confirmedUpUntil == kept.0
                        && (if updates == [] then r.offset == kept.1
                            else (exists i :: 0 <= i < |updates| && updates[i].id == r.offset) &&
                                 forall i :: 0 <= i < |updates| ==> updates[i].id <= r.offset))
  {
    hide Ready, ProcessUpTo;
    ReadyFrame(c, e);
    if c.mode == Backfilling && e.poll.Ok? && e.poll.value != [] {
      ProcessFrame(Ready(c, e), e.poll.value, e.batchFaults, |e.poll.value|);
    }
  }

  // ---- The process ------------------------------------------------------------------------------------------

  // The module state of the process and the store behind it.
  class Poller {
    var mode: Mode
    var downStreak: nat
    var confirmedUpUntil: int
    var offset: int
    var events: seq<Event>
    var messages: map<nat, Message>
    var nextMessage: nat
    var handed: seq<int>

    constructor (offset: int, events: seq<Event>, messages: map<nat, Message>, nextMessage: nat)
      ensures Snapshot() == Coord(Idle, 0, 0, offset, events, messages, nextMessage, [])
      ensures HandedOnce(Snapshot())
    {
      mode, downStreak, confirmedUpUntil := Idle, 0, 0;
      this.offset, this.events := offset, events;
      this.messages, this.nextMessage, this.handed := messages, nextMessage, [];
    }

    function Snapshot(): Coord
      reads this
    {
      Coord(mode, downStreak, confirmedUpUntil, offset, events, messages, nextMessage, handed)
    }

    // None when the insert throws.
    method InsertIncomingEvent(u: Update, content: string, f: Fault) returns (inserted: Option<bool>)
      modifies this`events
      ensures inserted == if f.insert then None else Some(!Stored(old(events), u.id))
      ensures events ==
                if inserted == Some(true) then old(events) + [Event(u.id, content, None, false)] else old(events)
    {
      if f.insert {
        return None;
      }
      if Stored(events, u.id) {
        return Some(false);
      }
      events := events + [Event(u.id, content, None, false)];
      return Some(true);
    }

    // Queue and link; false as soon as one of the statements throws.
    method HandOffEvent(k: nat, f: Fault) returns (queued: bool)
      requires k < |events|
      modifies this`events, this`messages, this`nextMessage
      ensures Snapshot() == HandOff(old(Snapshot()), k, f)
      ensures queued == !f.create
    {
      if f.create {
        return false;
      }
      var message := nextMessage;
      messages := messages[message := Message(events[k].updateId, events[k].content, false)];
      nextMessage := nextMessage + 1;
      if !f.mark {
        events := events[k := events[k].(message := Some(message), failed := false)];
      }
      return true;
    }

    method ProcessUpdates(updates: seq<Update>, faults: seq<Fault>) returns (maxUpdateId: Option<int>)
      modifies this`events, this`messages, this`nextMessage, this`handed
      ensures Snapshot() == ProcessUpTo(old(Snapshot()), updates, faults, |updates|)
      ensures maxUpdateId == if updates == [] then None else Some(MaxId(updates))
    {
      maxUpdateId := None;
      for i := 0 to |updates|
        invariant Snapshot() == ProcessUpTo(old(Snapshot()), updates, faults, i)
        invariant maxUpdateId.None? <==> i == 0
        invariant i > 0 ==> (exists k :: 0 <= k < i && updates[k].id == maxUpdateId.value) &&
                            forall k :: 0 <= k < i ==> updates[k].id <= maxUpdateId.value
      {
        var u, f := updates[i], FaultAt(faults, i);
        maxUpdateId := if maxUpdateId.Some? && maxUpdateId.value > u.id then maxUpdateId else Some(u.id);
        if u.content.Some? {
          var inserted := InsertIncomingEvent(u, u.content.value, f);
          if inserted == Some(true) {
            var queued := HandOffEvent(|events| - 1, f);
            if queued {
              handed := handed + [u.id];
            }
          }
        }
      }
    }

    method ReconcilePending(queryFails: bool, faults: seq<Fault>)
      modifies this`events, this`messages, this`nextMessage
      ensures Snapshot() == Reconcile(old(Snapshot()), queryFails, faults)
    {
      if queryFails {
        return;
      }
      var due := Replayed(Snapshot());
      for i := 0 to |due|
        invariant Snapshot() == HandOffAll(old(Snapshot()), due, faults, i)
      {
        var queued := HandOffEvent(due[i], FaultAt(faults, i));
      }
    }

    method WatchNative(e: Env)
      modifies this`mode, this`downStreak, this`confirmedUpUntil, this`offset
      ensures Snapshot() == Watch(old(Snapshot()), e)
    {
      var down := e.probeDown && !(e.now < confirmedUpUntil);
      downStreak := if down then downStreak + 1 else 0;
      if downStreak >= DOWN_DEBOUNCE {
        match e.seed {
          case Ok(hw) =>
            if hw.Some? { offset := hw.value; }
            mode := Backfilling;
          case Err(Fatal) => mode := Stopped;
          case Err(Conflict) =>
            confirmedUpUntil := e.later + NATIVE_409_COOLDOWN_MS;
            downStreak := 0;
          case Err(RateLimit) =>
          case Err(Transient) =>
        }
      }
    }

    method BackfillOnce(e: Env)
      modifies this
      ensures Snapshot() == Backfill(old(Snapshot()), e)
    {
      if !e.probeDown {
        mode, downStreak := Idle, 0;
        return;
      }
      match e.poll {
        case Err(Fatal) => mode := Stopped;
        case Err(Conflict) =>
          confirmedUpUntil := e.later + NATIVE_409_COOLDOWN_MS;
          mode, downStreak := Idle, 0;
        case Err(RateLimit) =>
        case Err(Transient) =>
        case Ok(updates) =>
          if updates != [] {
            if !e.stillDown {
              mode, downStreak := Idle, 0;
            } else {
              var maxUpdateId := ProcessUpdates(updates, e.batchFaults);
              offset := maxUpdateId.value;
            }
          }
      }
    }

    // The loop body; what the router did since the last iteration comes first.
    method RunOnce(e: Env)
      modifies this
      ensures Snapshot() == Iterate(old(Snapshot()), e)
    {
      hide Reconcile, Watch, Backfill;
      if mode == Stopped {
        return;
      }
      messages := map m | m in messages && m !in e.removed ::
        messages[m].(failed := messages[m].failed || m in e.abandoned);
      nextMessage := nextMessage + e.otherMessages;
      ReconcilePending(e.queryFails, e.replayFaults);
      ReadyFrame(old(Snapshot()), e);
      if mode == Idle {
        WatchNative(e);
      } else {
        BackfillOnce(e);
      }
    }

    method RunLoop(envs: seq<Env>)
      modifies this
      ensures Snapshot() == At(old(Snapshot()), envs, |envs|)
    {
      for i := 0 to |envs|
        invariant Snapshot() == At(old(Snapshot()), envs, i)
      {
        RunOnce(envs[i]);
      }
    }
  }
}
