/** The inter-agent message queue: an atomic oldest-first claim among many
    statements that move messages out of the pending state (src/db.ts). */
module MessageQueue {
  import opened Prelude

  datatype Status = Pending | Delivered | Done | Failed

  datatype Message = Message(id: nat, from: string, to: string, content: string, status: Status, result: Option<string>,
                             createdAt: int, deliveredAt: Option<int>, completedAt: Option<int>)

  // Rows are never deleted; AUTOINCREMENT never hands out an id twice.
  datatype Table = Table(rows: map<nat, Message>, nextId: nat)

  ghost predicate Valid(t: Table) {
    forall id :: id in t.rows ==> t.rows[id].id == id && id < t.nextId
  }

  // Delivery order: creation second, then id.
  predicate Before(a: Message, b: Message) {
    a.createdAt < b.createdAt || (a.createdAt == b.createdAt && a.id < b.id)
  }

  // ---- The claim ---------------------------------------------------------------

  function PendingFor(t: Table, agent: string): set<nat> {
    set id | id in t.rows && t.rows[id].status == Pending && t.rows[id].to == agent
  }

  // The rows among `ids` delivered before this one.
  function Ahead(t: Table, ids: set<nat>, id: nat): set<nat>
    requires id in t.rows && forall i :: i in ids ==> i in t.rows
  {
    set other | other in ids && Before(t.rows[other], t.rows[id])
  }

  // The first `limit` rows of `ids` in delivery order.
  function Leading(t: Table, ids: set<nat>, limit: int): set<nat>
    requires forall i :: i in ids ==> i in t.rows
  {
    set id | id in ids && |Ahead(t, ids, id)| < limit
  }

  // The rows the UPDATE's subselect picks; a negative LIMIT means no limit.
  function Chosen(t: Table, agent: string, limit: int): set<nat> {
    if limit < 0 then PendingFor(t, agent) else Leading(t, PendingFor(t, agent), limit)
  }

  function Deliver(m: Message, now: int): Message {
    m.(status := Delivered, deliveredAt := Some(now))
  }

  function DeliverAll(t: Table, ids: set<nat>, now: int): Table {
    t.(rows := map id | id in t.rows :: if id in ids then Deliver(t.rows[id], now) else t.rows[id])
  }

  predicate Earliest(t: Table, ids: set<nat>, id: nat)
    requires forall i :: i in ids ==> i in t.rows
  {
    id in ids && forall other :: other in ids && other != id ==> Before(t.rows[id], t.rows[other])
  }

  lemma EarliestExists(t: Table, ids: set<nat>)
    requires Valid(t) && ids != {} && forall i :: i in ids ==> i in t.rows
    ensures exists id :: Earliest(t, ids, id)
  {
    var x :| x in ids;
    var rest := ids - {x};
    if rest == {} {
      assert ids == {x};
      assert Earliest(t, ids, x);
    } else {
      EarliestExists(t, rest);
      var e :| Earliest(t, rest, e);
      assert Earliest(t, ids, if Before(t.rows[x], t.rows[e]) then x else e);
    }
  }

  ghost function InOrder(t: Table, ids: set<nat>): seq<Message>
    requires Valid(t) && forall i :: i in ids ==> i in t.rows
    decreases |ids|
  {
    if ids == {} then []
    else
      EarliestExists(t, ids);
      var id :| Earliest(t, ids, id);
      [t.rows[id]] + InOrder(t, ids - {id})
  }

  predicate Ascending(ms: seq<Message>) {
    forall i, j :: 0 <= i < j < |ms| ==> Before(ms[i], ms[j])
  }

  // The messages of `ids`, in delivery order.
  ghost predicate Lists(t: Table, ids: set<nat>, ms: seq<Message>)
    requires forall i :: i in ids ==> i in t.rows
  {
    && Ascending(ms) && |ms| == |ids|
    && forall m :: m in ms <==> m.id in ids && m == t.rows[m.id]
  }

  lemma ListsStep(t: Table, ids: set<nat>, id: nat, rest: seq<Message>)
    requires Valid(t) && (forall i :: i in ids ==> i in t.rows) && Earliest(t, ids, id) && Lists(t, ids - {id}, rest)
    ensures Lists(t, ids, [t.rows[id]] + rest)
  {
    var ms := [t.rows[id]] + rest;
    forall j | 0 <= j < |rest| ensures Before(t.rows[id], rest[j]) {
      assert rest[j] in rest;
    }
    forall m ensures m in ms <==> m.id in ids && m == t.rows[m.id] {
      assert m in ms <==> m == t.rows[id] || m in rest;
    }
  }

  lemma {:induction false} InOrderLists(t: Table, ids: set<nat>)
    requires Valid(t) && forall i :: i in ids ==> i in t.rows
    ensures Lists(t, ids, InOrder(t, ids))
    decreases |ids|
  {
    hide Lists, Valid, Before;
    if ids == {} {
      NothingListed(t);
    } else {
      EarliestExists(t, ids);
      var id :| Earliest(t, ids, id) && InOrder(t, ids) == [t.rows[id]] + InOrder(t, ids - {id});
      InOrderLists(t, ids - {id});
      ListsStep(t, ids, id, InOrder(t, ids - {id}));
    }
  }

  lemma NothingListed(t: Table)
    ensures Lists(t, {}, [])
  {
  }

  lemma InOrderMeaning(t: Table, ids: set<nat>)
    requires Valid(t) && forall i :: i in ids ==> i in t.rows
    ensures Ascending(InOrder(t, ids)) && |InOrder(t, ids)| == |ids|
    ensures forall m :: m in InOrder(t, ids) <==> m.id in ids && m == t.rows[m.id]
  {
    InOrderLists(t, ids);
  }

  // ---- Statements -------------------------------------------------------------------

  datatype Op =
    | CreateOp(from: string, to: string, content: string)
    | ClaimOp(agent: string, limit: int)
    | DeliverOp(id: nat)
    | CloseOp(ids: seq<nat>, reason: string)
    | ResultOp(id: nat, result: string)
    | FailFederatedOp(peer: Option<string>, reason: string)
    | DoneOp(id: nat, outcome: Option<string>)
    | FailOp(id: nat, error: Option<string>)
    | FailPendingOp(id: nat, error: Option<string>)

  // An UPDATE of the rows a condition selects.
  function UpdateWhere(t: Table, ids: set<nat>, change: Message -> Message): Table {
    t.(rows := map id | id in t.rows :: if id in ids then change(t.rows[id]) else t.rows[id])
  }

  function PendingAmong(t: Table, ids: seq<nat>): set<nat> {
    set id | id in ids && id in t.rows && t.rows[id].status == Pending
  }

  // The part of a name before its first slash.
  function Slash(name: string): (n: nat)
    ensures n <= |name| && '/' !in name[..n] && (n < |name| ==> name[n] == '/')
  {
    if name == "" || name[0] == '/' then 0 else 1 + Slash(name[1..])
  }

  function LowerChar(c: char): char {
    if 'A' <= c <= 'Z' then c - 'A' + 'a' else c
  }

  function Lower(s: string): string {
    seq(|s|, i requires 0 <= i < |s| => LowerChar(s[i]))
  }

  // A slash-qualified recipient, of one peer system when one is named.
  predicate Federated(to: string, peer: Option<string>) {
    '/' in to && (peer.Some? ==> Lower(to[..Slash(to)]) == Lower(peer.value))
  }

  function PendingFederated(t: Table, peer: Option<string>): set<nat> {
    set id | id in t.rows && t.rows[id].status == Pending && Federated(t.rows[id].to, peer)
  }

  function Closed(m: Message, now: int, reason: string): Message {
    m.(status := Delivered, deliveredAt := Some(now), result := Some("closed-without-delivery: " + reason))
  }

  function Failing(m: Message, now: int, error: Option<string>): Message {
    m.(status := Failed, result := error, completedAt := Some(now))
  }

  function Finishing(m: Message, now: int, outcome: Option<string>): Message {
    m.(status := Done, result := outcome, completedAt := Some(now),
       deliveredAt := if m.deliveredAt.Some? then m.deliveredAt else Some(now))
  }

  function Step(t: Table, op: Op, now: int): Table {
    match op
    case CreateOp(from, to, content) =>
      Table(t.rows[t.nextId := Message(t.nextId, from, to, content, Pending, None, now, None, None)], t.nextId + 1)
    case ClaimOp(agent, limit) => DeliverAll(t, Chosen(t, agent, limit), now)
    case DeliverOp(id) => UpdateWhere(t, PendingAmong(t, [id]), m => Deliver(m, now))
    case CloseOp(ids, reason) => UpdateWhere(t, PendingAmong(t, ids), m => Closed(m, now, reason))
    case ResultOp(id, result) => UpdateWhere(t, {id}, (m: Message) => m.(result := Some(result)))
    case FailFederatedOp(peer, reason) =>
      UpdateWhere(t, PendingFederated(t, peer), m => Failing(m, now, Some(reason)))
    case DoneOp(id, outcome) => UpdateWhere(t, {id}, m => Finishing(m, now, outcome))
    case FailOp(id, error) => UpdateWhere(t, {id}, m => Failing(m, now, error))
    case FailPendingOp(id, error) => UpdateWhere(t, PendingAmong(t, [id]), m => Failing(m, now, error))
  }

  // What a statement hands to its caller for delivery.
  ghost function Claimed(t: Table, op: Op, now: int): seq<Message>
    requires Valid(t)
  {
    if op.ClaimOp? then InOrder(DeliverAll(t, Chosen(t, op.agent, op.limit), now), Chosen(t, op.agent, op.limit))
    else []
  }

  lemma StepKeepsValid(t: Table, op: Op, now: int)
    requires Valid(t)
    ensures Valid(Step(t, op, now))
  {
  }

  // Only a claim, or a statement that names the message, takes it out of
  // pending; and nothing ever puts a message back.
  predicate Names(t: Table, op: Op, id: nat)
    requires id in t.rows
  {
    match op
    case DeliverOp(i) => i == id
    case CloseOp(ids, _) => id in ids
    case FailFederatedOp(peer, _) => Federated(t.rows[id].to, peer)
    case DoneOp(i, _) => i == id
    case FailOp(i, _) => i == id
    case FailPendingOp(i, _) => i == id
    case _ => false
  }

  /** Pending is left by being claimed or by being named, never otherwise, and
      is never entered again; identity, recipient and creation time are fixed. */
  lemma PendingIsLeftOnce(t: Table, op: Op, now: int, id: nat)
    requires Valid(t) && id in t.rows
    ensures var was, now' := t.rows[id], Step(t, op, now).rows[id];
            && id in Step(t, op, now).rows && now'.id == id && now'.to == was.to && now'.createdAt == was.createdAt
            && (was.status != Pending ==> now'.status != Pending)
            && (was.status == Pending ==>
                  (now'.status != Pending <==> Names(t, op, id) || exists m :: m in Claimed(t, op, now) && m.id == id))
  {
    if op.ClaimOp? {
      var delivered := DeliverAll(t, Chosen(t, op.agent, op.limit), now);
      InOrderMeaning(delivered, Chosen(t, op.agent, op.limit));
      if id in Chosen(t, op.agent, op.limit) {
        assert delivered.rows[id] in Claimed(t, op, now);
      }
    }
  }

  // ---- What the statements write -------------------------------------------------------------

  // The same letter in upper and lower case; ASCII only.
  predicate CasePair(c: char, d: char) {
    'A' <= c <= 'Z' && d as int == c as int + 32
  }

  predicate SameIgnoringCase(a: string, b: string) {
    |a| == |b| && forall i :: 0 <= i < |a| ==> a[i] == b[i] || CasePair(a[i], b[i]) || CasePair(b[i], a[i])
  }

  lemma LowerMeaning(a: string, b: string)
    ensures Lower(a) == Lower(b) <==> SameIgnoringCase(a, b)
  {
    forall i | 0 <= i < |a| && i < |b|
      ensures LowerChar(a[i]) == LowerChar(b[i]) <==> a[i] == b[i] || CasePair(a[i], b[i]) || CasePair(b[i], a[i])
    {
    }
    if Lower(a) == Lower(b) {
      assert |Lower(a)| == |a| && |Lower(b)| == |b|;
      assert forall i :: 0 <= i < |a| ==> Lower(a)[i] == LowerChar(a[i]) && Lower(b)[i] == LowerChar(b[i]);
    }
  }

  /** A recipient without a slash is never federated; one that reads "peer/rest" is,
      for every purge that names no peer, and for one that names this peer in any
      case of letters. */
  lemma FederatedMeaning(to: string, system: string, rest: string, peer: Option<string>)
    ensures '/' !in to ==> !Federated(to, peer)
    ensures '/' !in system ==>
              (Federated(system + "/" + rest, peer) <==> peer.Some? ==> SameIgnoringCase(system, peer.value))
  {
    if '/' !in system {
      var name := system + "/" + rest;
      SlashAt(system, rest);
      assert name[|system|] == '/' && name[..|system|] == system;
      if peer.Some? { LowerMeaning(system, peer.value); }
    }
  }

  lemma SlashAt(system: string, rest: string)
    requires '/' !in system
    ensures Slash(system + "/" + rest) == |system|
  {
    var name := system + "/" + rest;
    assert name[|system|] == '/';
    assert forall i :: 0 <= i < |system| ==> name[i] == system[i] && system[i] in system;
    assert forall i :: 0 <= i < Slash(name) ==> name[..Slash(name)][i] == name[i];
  }

  // The agent's pending messages that come before this one, by creation and id.
  function OlderPending(t: Table, m: Message): set<nat> {
    set i | i in t.rows && t.rows[i].status == Pending && t.rows[i].to == m.to &&
            (t.rows[i].createdAt < m.createdAt || (t.rows[i].createdAt == m.createdAt && t.rows[i].id < m.id))
  }

  // Whether a statement selects this message, in terms of its row.
  predicate Selects(t: Table, op: Op, m: Message) {
    match op
    case CreateOp(_, _, _) => false
    case ClaimOp(agent, limit) =>
      m.status == Pending && m.to == agent && (limit < 0 || |OlderPending(t, m)| < limit)
    case DeliverOp(id) => m.status == Pending && m.id == id
    case CloseOp(ids, _) => m.status == Pending && m.id in ids
    case ResultOp(id, _) => m.id == id
    case FailFederatedOp(peer, _) =>
      m.status == Pending && '/' in m.to && (peer.Some? ==> SameIgnoringCase(m.to[..Slash(m.to)], peer.value))
    case DoneOp(id, _) => m.id == id
    case FailOp(id, _) => m.id == id
    case FailPendingOp(id, _) => m.status == Pending && m.id == id
  }

  /** What every statement makes of every message, column by column: a message it does
      not select stays as it is; a claim delivers the agent's first so many pending
      ones; a delivery time once set survives a late done. */
  lemma StatementWrites(t: Table, op: Op, now: int, id: nat)
    requires Valid(t) && id in t.rows
    ensures id in Step(t, op, now).rows
    ensures var was, m := t.rows[id], Step(t, op, now).rows[id];
            m == if !Selects(t, op, was) then was else
              match op
              case ClaimOp(_, _) => was.(status := Delivered, deliveredAt := Some(now))
              case DeliverOp(_) => was.(status := Delivered, deliveredAt := Some(now))
              case CloseOp(_, reason) =>
                was.(status := Delivered, deliveredAt := Some(now),
                     result := Some("closed-without-delivery: " + reason))
              case ResultOp(_, result) => was.(result := Some(result))
              case FailFederatedOp(_, reason) =>
                was.(status := Failed, result := Some(reason), completedAt := Some(now))
              case DoneOp(_, outcome) =>
                was.(status := Done, result := outcome, completedAt := Some(now),
                     deliveredAt := if was.deliveredAt == None then Some(now) else was.deliveredAt)
              case FailOp(_, error) => was.(status := Failed, result := error, completedAt := Some(now))
              case FailPendingOp(_, error) => was.(status := Failed, result := error, completedAt := Some(now))
              case CreateOp(_, _, _) => was
  {
    var was := t.rows[id];
    match op {
      case ClaimOp(agent, limit) => ClaimedWhen(t, agent, limit, id);
      case FailFederatedOp(peer, _) =>
        if peer.Some? && '/' in was.to { LowerMeaning(was.to[..Slash(was.to)], peer.value); }
      case _ =>
    }
    hide Chosen, Lower, OlderPending, SameIgnoringCase;
  }

  lemma ClaimedWhen(t: Table, agent: string, limit: int, id: nat)
    requires Valid(t) && id in t.rows
    ensures id in Chosen(t, agent, limit) <==>
              t.rows[id].status == Pending && t.rows[id].to == agent &&
                (limit < 0 || |OlderPending(t, t.rows[id])| < limit)
  {
    if t.rows[id].to == agent {
      assert Ahead(t, PendingFor(t, agent), id) == OlderPending(t, t.rows[id]);
    }
  }

  /** Creating adds one pending message under a new id; no other statement adds any. */
  lemma CreationWrites(t: Table, op: Op, now: int)
    requires Valid(t)
    ensures forall id :: id in Step(t, op, now).rows <==> id in t.rows || (op.CreateOp? && id == t.nextId)
    ensures op.CreateOp? ==>
              var m := Step(t, op, now).rows[t.nextId];
              && m.id == t.nextId && m.id !in t.rows && m.from == op.from && m.to == op.to && m.content == op.content
              && m.status == Pending && m.createdAt == now
              && m.result == None && m.deliveredAt == None && m.completedAt == None
  {
    hide Chosen, PendingFederated;
  }

  // A claim takes the oldest: whatever it leaves pending comes after all it took.
  lemma ClaimTakesOldest(t: Table, agent: string, limit: int, taken: nat, left: nat)
    requires Valid(t) && taken in Chosen(t, agent, limit) && left in PendingFor(t, agent) &&
             left !in Chosen(t, agent, limit)
    ensures Before(t.rows[taken], t.rows[left])
  {
    var pending := PendingFor(t, agent);
    if !Before(t.rows[taken], t.rows[left]) {
      assert Ahead(t, pending, left) <= Ahead(t, pending, taken);
      SubsetSize(Ahead(t, pending, left), Ahead(t, pending, taken));
    }
  }

  /** A claim returns the agent's min(limit, pending) oldest messages. */
  lemma ClaimSize(t: Table, agent: string, limit: int)
    requires Valid(t)
    ensures |Chosen(t, agent, limit)| ==
              if limit < 0 || |PendingFor(t, agent)| <= limit then |PendingFor(t, agent)| else limit
  {
    if limit >= 0 {
      LeadingSize(t, PendingFor(t, agent), limit);
    }
  }

  lemma {:induction false} LeadingSize(t: Table, ids: set<nat>, limit: nat)
    requires Valid(t) && forall i :: i in ids ==> i in t.rows
    ensures |Leading(t, ids, limit)| == if |ids| <= limit then |ids| else limit
    decreases |ids|
  {
    if ids == {} || limit == 0 {
      LeadingNone(t, ids, limit);
    } else {
      LeadingSome(t, ids, limit);
    }
  }

  lemma LeadingNone(t: Table, ids: set<nat>, limit: nat)
    requires (ids == {} || limit == 0) && forall i :: i in ids ==> i in t.rows
    ensures Leading(t, ids, limit) == {}
  {
  }

  lemma LeadingSome(t: Table, ids: set<nat>, limit: nat)
    requires Valid(t) && ids != {} && limit > 0 && forall i :: i in ids ==> i in t.rows
    ensures |Leading(t, ids, limit)| == if |ids| <= limit then |ids| else limit
    decreases |ids|, 0
  {
    hide Ahead, Leading, Before, Valid;
    EarliestExists(t, ids);
    var e :| Earliest(t, ids, e);
    LeadingSize(t, ids - {e}, limit - 1);
    LeadingWithout(t, ids, e, limit);
  }

  lemma LeadingWithout(t: Table, ids: set<nat>, e: nat, limit: nat)
    requires Valid(t) && (forall i :: i in ids ==> i in t.rows) && Earliest(t, ids, e) && limit > 0
    ensures Leading(t, ids, limit) == {e} + Leading(t, ids - {e}, limit - 1)
    ensures e !in Leading(t, ids - {e}, limit - 1)
  {
    assert Ahead(t, ids, e) == {};
    forall id | id in ids - {e} ensures |Ahead(t, ids, id)| == |Ahead(t, ids - {e}, id)| + 1 {
      assert Ahead(t, ids, id) == Ahead(t, ids - {e}, id) + {e};
    }
  }

  // ---- Runs ------------------------------------------------------------------------------

  datatype Timed = Timed(op: Op, now: int)

  function RunAll(t: Table, ops: seq<Timed>): Table {
    if ops == [] then t
    else Step(RunAll(t, ops[..|ops| - 1]), ops[|ops| - 1].op, ops[|ops| - 1].now)
  }

  lemma {:induction false} RunsAreValid(t: Table, ops: seq<Timed>)
    requires Valid(t)
    ensures Valid(RunAll(t, ops))
  {
    if ops != [] {
      RunsAreValid(t, ops[..|ops| - 1]);
      StepKeepsValid(RunAll(t, ops[..|ops| - 1]), ops[|ops| - 1].op, ops[|ops| - 1].now);
    }
  }

  // Everything claimed during the run, for one agent or for all.
  ghost function Handed(t: Table, ops: seq<Timed>, agent: Option<string>): seq<Message>
    requires Valid(t)
  {
    if ops == [] then []
    else
      var prefix, last := ops[..|ops| - 1], ops[|ops| - 1];
      RunsAreValid(t, prefix);
      Handed(t, prefix, agent) +
      (if last.op.ClaimOp? && (agent.Some? ==> last.op.agent == agent.value)
       then Claimed(RunAll(t, prefix), last.op, last.now) else [])
  }

  predicate Left(t: Table, id: nat) {
    id in t.rows && t.rows[id].status != Pending
  }

  predicate HandedOnce(handed: seq<Message>, t: Table) {
    && (forall i, j :: 0 <= i < j < |handed| ==> handed[i].id != handed[j].id)
    && (forall i :: 0 <= i < |handed| ==> Left(t, handed[i].id))
  }

  /** No message is handed out twice: over any interleaving of statements, all
      claims together return pairwise different ids, each now out of pending
      for good. No clock assumption is needed. */
  lemma {:induction false} NoDoubleDelivery(t: Table, ops: seq<Timed>)
    requires Valid(t)
    ensures HandedOnce(Handed(t, ops, None), RunAll(t, ops))
  {
    if ops != [] {
      var prefix, last := ops[..|ops| - 1], ops[|ops| - 1];
      NoDoubleDelivery(t, prefix);
      RunsAreValid(t, prefix);
      var mid, end := RunAll(t, prefix), RunAll(t, ops);
      var earlier, claimed := Handed(t, prefix, None), Claimed(mid, last.op, last.now);
      assert Handed(t, ops, None) == earlier + claimed;
      forall i | 0 <= i < |earlier| ensures Left(end, earlier[i].id) {
        assert Left(mid, earlier[i].id);
        PendingIsLeftOnce(mid, last.op, last.now, earlier[i].id);
      }
      if last.op.ClaimOp? {
        ClaimedMeaning(mid, last.op.agent, last.op.limit, last.now);
        forall i | 0 <= i < |claimed| ensures Left(end, claimed[i].id) {
          assert claimed[i] in claimed;
        }
      }
    }
  }

  lemma ClaimedMeaning(t: Table, agent: string, limit: int, now: int)
    requires Valid(t)
    ensures var claimed := Claimed(t, ClaimOp(agent, limit), now);
            && Ascending(claimed)
            && (forall m :: m in claimed <==> m.id in Chosen(t, agent, limit) && m == Deliver(t.rows[m.id], now))
            && (forall i, j :: 0 <= i < j < |claimed| ==> claimed[i].id != claimed[j].id)
            && (forall i :: 0 <= i < |claimed| ==> claimed[i].id in t.rows && t.rows[claimed[i].id].status == Pending)
  {
    InOrderMeaning(DeliverAll(t, Chosen(t, agent, limit), now), Chosen(t, agent, limit));
    var claimed := Claimed(t, ClaimOp(agent, limit), now);
    forall i, j | 0 <= i < j < |claimed| ensures claimed[i].id != claimed[j].id {
      assert claimed[i] in claimed && claimed[j] in claimed;
    }
  }

  // Nothing in the table is newer than `now`.
  predicate AsOf(t: Table, now: int) {
    forall id :: id in t.rows ==> t.rows[id].createdAt <= now
  }

  predicate Clocked(ops: seq<Timed>, start: int) {
    && (forall i :: 0 <= i < |ops| ==> start <= ops[i].now)
    && (forall i, j :: 0 <= i < j < |ops| ==> ops[i].now <= ops[j].now)
  }

  // The agent's deliveries so far, and what is still pending for it, are in order.
  predicate InSequence(handed: seq<Message>, t: Table, agent: string) {
    && Ascending(handed)
    && (forall i, id :: 0 <= i < |handed| && id in PendingFor(t, agent) ==> Before(handed[i], t.rows[id]))
    && (forall i :: 0 <= i < |handed| ==>
          handed[i].id in t.rows && t.rows[handed[i].id].createdAt == handed[i].createdAt)
  }

  /** First in, first out across claims: with a nondecreasing clock the
      concatenation of all claim results of one agent is strictly ascending in
      (created_at, id), and everything still pending comes after it. */
  lemma {:induction false} DeliveryIsFifo(t: Table, ops: seq<Timed>, agent: string, start: int)
    requires Valid(t) && AsOf(t, start) && Clocked(ops, start)
    ensures InSequence(Handed(t, ops, Some(agent)), RunAll(t, ops), agent)
    ensures AsOf(RunAll(t, ops), if ops == [] then start else ops[|ops| - 1].now)
  {
    if ops != [] {
      var prefix, last := ops[..|ops| - 1], ops[|ops| - 1];
      DeliveryIsFifo(t, prefix, agent, start);
      RunsAreValid(t, prefix);
      var mid := RunAll(t, prefix);
      assert AsOf(mid, last.now);
      FifoStep(Handed(t, prefix, Some(agent)), mid, last.op, last.now, agent);
    }
  }

  // A statement keeps what was handed ahead of what is pending.
  lemma HandedStays(handed: seq<Message>, t: Table, op: Op, now: int, agent: string)
    requires Valid(t) && AsOf(t, now) && InSequence(handed, t, agent)
    ensures InSequence(handed, Step(t, op, now), agent) && AsOf(Step(t, op, now), now)
  {
    hide Step, Claimed, Names, Chosen;
    var t' := Step(t, op, now);
    forall id | id in t.rows ensures id in t'.rows && SameMessage(t.rows[id], t'.rows[id]) {
      PendingIsLeftOnce(t, op, now, id);
    }
    StepKeepsValid(t, op, now);
    forall id | id in t'.rows && id !in t.rows ensures t'.rows[id].createdAt == now && id >= t.nextId {
      NewRow(t, op, now, id);
    }
  }

  // What no statement changes, and that pending is not entered again.
  predicate SameMessage(was: Message, now: Message) {
    was.id == now.id && was.to == now.to && was.createdAt == now.createdAt &&
      (was.status != Pending ==> now.status != Pending)
  }

  lemma NewRow(t: Table, op: Op, now: int, id: nat)
    requires id in Step(t, op, now).rows && id !in t.rows
    ensures id == t.nextId && Step(t, op, now).rows[id].createdAt == now
    ensures op.CreateOp?
    ensures Step(t, op, now).rows[id] == Message(id, op.from, op.to, op.content, Pending, None, now, None, None)
  {
  }

  lemma ClaimIsInSequence(handed: seq<Message>, t: Table, limit: int, now: int, agent: string)
    requires Valid(t) && InSequence(handed, t, agent)
    ensures var op := ClaimOp(agent, limit); var claimed, t' := Claimed(t, op, now), Step(t, op, now);
            && Ascending(handed + claimed)
            && (forall i, id :: 0 <= i < |claimed| && id in PendingFor(t', agent) ==> Before(claimed[i], t'.rows[id]))
            && (forall i :: 0 <= i < |claimed| ==>
                  claimed[i].id in t'.rows && t'.rows[claimed[i].id].createdAt == claimed[i].createdAt)
  {
    hide Claimed, Chosen, InOrder;
    var op := ClaimOp(agent, limit);
    var claimed, t' := Claimed(t, op, now), Step(t, op, now);
    ClaimedMeaning(t, agent, limit, now);
    forall i | 0 <= i < |claimed|
      ensures claimed[i].id in Chosen(t, agent, limit) && claimed[i] == Deliver(t.rows[claimed[i].id], now)
    {
      assert claimed[i] in claimed;
    }
    forall i, id | 0 <= i < |claimed| && id in PendingFor(t', agent) ensures Before(claimed[i], t'.rows[id]) {
      ClaimTakesOldest(t, agent, limit, claimed[i].id, id);
    }
    forall i, j | 0 <= i < |handed| && 0 <= j < |claimed| ensures Before(handed[i], claimed[j]) {
      ChosenIsPending(t, agent, limit, claimed[j].id);
    }
  }

  lemma ChosenIsPending(t: Table, agent: string, limit: int, id: nat)
    requires id in Chosen(t, agent, limit)
    ensures id in PendingFor(t, agent)
  {
  }

  lemma FifoStep(handed: seq<Message>, t: Table, op: Op, now: int, agent: string)
    requires Valid(t) && AsOf(t, now) && InSequence(handed, t, agent)
    ensures var more := if op.ClaimOp? && op.agent == agent then Claimed(t, op, now) else [];
            InSequence(handed + more, Step(t, op, now), agent)
    ensures AsOf(Step(t, op, now), now)
  {
    hide Step, Claimed, AsOf, Valid, Before;
    HandedStays(handed, t, op, now, agent);
    if op.ClaimOp? && op.agent == agent {
      ClaimIsInSequence(handed, t, op.limit, now, agent);
    } else {
      assert handed + [] == handed;
    }
  }

  // ---- Time stamps ---------------------------------------------------------------------------

  // The stamps a message carries tell its status.
  predicate StampsTell(m: Message) {
    && (m.status == Pending ==> m.deliveredAt.None?)
    && (m.status in {Delivered, Done} ==> m.deliveredAt.Some?)
    && (m.status in {Done, Failed} <==> m.completedAt.Some?)
  }

  ghost predicate Stamped(t: Table) {
    forall id :: id in t.rows ==> StampsTell(t.rows[id])
  }

  // Text and addresses never change, nor does a delivery time once set.
  predicate Fixed(was: Message, now: Message) {
    && now.from == was.from && now.to == was.to && now.content == was.content && now.createdAt == was.createdAt
    && (was.deliveredAt.Some? ==> now.deliveredAt == was.deliveredAt)
  }

  lemma StampOne(t: Table, op: Op, now: int, id: nat)
    requires Valid(t) && id in t.rows && StampsTell(t.rows[id])
    ensures var was, now' := t.rows[id], Step(t, op, now).rows[id];
            && id in Step(t, op, now).rows && StampsTell(now') && Fixed(was, now')
            && (was.deliveredAt.None? && now'.deliveredAt.Some? ==> now'.deliveredAt == Some(now))
  {
    if op.ClaimOp? && id in Chosen(t, op.agent, op.limit) {
      ChosenIsPending(t, op.agent, op.limit, id);
    }
    hide Chosen, Federated;
  }

  lemma StampStep(t: Table, op: Op, now: int)
    requires Valid(t) && Stamped(t)
    ensures Stamped(Step(t, op, now))
    ensures forall id :: id in t.rows ==> id in Step(t, op, now).rows && Fixed(t.rows[id], Step(t, op, now).rows[id])
  {
    hide Fixed;
    forall id | id in t.rows
      ensures id in Step(t, op, now).rows && StampsTell(Step(t, op, now).rows[id])
      ensures Fixed(t.rows[id], Step(t, op, now).rows[id])
    {
      StampOne(t, op, now, id);
    }
    forall id | id in Step(t, op, now).rows && id !in t.rows ensures StampsTell(Step(t, op, now).rows[id]) {
      NewRow(t, op, now, id);
    }
  }

  /** Over every run, pending means not delivered, delivered or done means with a
      delivery time, done or failed means with a completion time; and a delivery
      time, once set, is never overwritten, even by a later done. */
  lemma {:induction false} StampsHold(t: Table, ops: seq<Timed>)
    requires Valid(t) && Stamped(t)
    ensures Stamped(RunAll(t, ops))
    ensures forall id :: id in t.rows ==> id in RunAll(t, ops).rows && Fixed(t.rows[id], RunAll(t, ops).rows[id])
  {
    hide Step, Stamped, Valid;
    if ops != [] {
      var prefix := ops[..|ops| - 1];
      StampsHold(t, prefix);
      RunsAreValid(t, prefix);
      StampStep(RunAll(t, prefix), ops[|ops| - 1].op, ops[|ops| - 1].now);
    }
  }

  // ---- The statements as the program issues them -------------------------------------

  lemma SomeMember(ms: seq<Message>)
    requires ms != []
    ensures exists m :: m in ms
  {
    assert ms[0] in ms;
  }

  lemma {:induction false} SameOrder(a: seq<Message>, b: seq<Message>)
    requires Ascending(a) && Ascending(b) && forall m :: m in a <==> m in b
    ensures a == b
  {
    if a == [] {
      if b != [] { SomeMember(b); }
    } else {
      assert a[0] in b && b != [] && b[0] in a;
      assert a[0] == b[0];
      forall m ensures m in a[1..] <==> m in b[1..] {
        assert m in a <==> m == a[0] || m in a[1..];
        assert m in b <==> m == b[0] || m in b[1..];
        assert m in a[1..] || m in b[1..] ==> m != a[0];
      }
      SameOrder(a[1..], b[1..]);
    }
  }

  lemma InsertAscends(ms: seq<Message>, k: nat, m: Message)
    requires Ascending(ms) && k <= |ms|
    requires (forall i :: 0 <= i < k ==> Before(ms[i], m)) && (k < |ms| ==> Before(m, ms[k]))
    ensures Ascending(ms[..k] + [m] + ms[k..])
    ensures forall x :: x in ms[..k] + [m] + ms[k..] <==> x == m || x in ms
  {
    assert ms == ms[..k] + ms[k..];
  }

  function ClosedUpTo(t: Table, ids: seq<nat>, now: int, reason: string): Table {
    UpdateWhere(t, PendingAmong(t, ids), m => Closed(m, now, reason))
  }

  lemma NothingClosed(t: Table, now: int, reason: string)
    ensures ClosedUpTo(t, [], now, reason) == t && PendingAmong(t, []) == {}
  {
  }

  // Closing one more id: it is still pending exactly if it was and is new to the list.
  lemma CloseStep(t: Table, ids: seq<nat>, id: nat, now: int, reason: string)
    ensures var mid, end := ClosedUpTo(t, ids, now, reason), ClosedUpTo(t, ids + [id], now, reason);
            if id in mid.rows && mid.rows[id].status == Pending then
              end.rows == mid.rows[id := Closed(mid.rows[id], now, reason)] &&
              |PendingAmong(t, ids + [id])| == |PendingAmong(t, ids)| + 1
            else end.rows == mid.rows && |PendingAmong(t, ids + [id])| == |PendingAmong(t, ids)|
  {
    var mid, end := ClosedUpTo(t, ids, now, reason), ClosedUpTo(t, ids + [id], now, reason);
    assert forall i :: i in ids + [id] <==> i in ids || i == id;
    if id in mid.rows && mid.rows[id].status == Pending {
      assert PendingAmong(t, ids + [id]) == PendingAmong(t, ids) + {id};
    } else {
      assert PendingAmong(t, ids + [id]) == PendingAmong(t, ids);
    }
  }

  class Queue {
    var rows: map<nat, Message>
    var nextId: nat

    constructor ()
      ensures Snapshot() == Table(map[], 0) && Valid(Snapshot())
    {
      rows, nextId := map[], 0;
    }

    function Snapshot(): Table
      reads this
    {
      Table(rows, nextId)
    }

    method CreateAgentMessage(from: string, to: string, content: string, now: int) returns (m: Message)
      modifies this
      ensures Snapshot() == Step(old(Snapshot()), CreateOp(from, to, content), now)
      ensures m.id == old(nextId) && m.id in rows && m == rows[m.id]
    {
      m := Message(nextId, from, to, content, Pending, None, now, None, None);
      rows := rows[nextId := m];
      nextId := nextId + 1;
    }

    // The update returns its rows in no particular order; the caller sorts them.
    method ClaimPendingForAgent(agent: string, limit: int, now: int) returns (claimed: seq<Message>)
      requires Valid(Snapshot())
      modifies this
      ensures Snapshot() == Step(old(Snapshot()), ClaimOp(agent, limit), now)
      ensures claimed == Claimed(old(Snapshot()), ClaimOp(agent, limit), now)
    {
      var ids := Chosen(Snapshot(), agent, limit);
      rows := map id | id in rows :: if id in ids then Deliver(rows[id], now) else rows[id];
      claimed := SortForDelivery(ids);
    }

    method SortForDelivery(ids: set<nat>) returns (ms: seq<Message>)
      requires Valid(Snapshot()) && forall id :: id in ids ==> id in rows
      ensures ms == InOrder(Snapshot(), ids)
    {
      ms := [];
      var rest := ids;
      while rest != {}
        invariant rest <= ids && Ascending(ms)
        invariant forall m :: m in ms <==> m.id in ids - rest && m == rows[m.id]
        decreases |rest|
      {
        var id :| id in rest;
        var k := |ms|;
        while k > 0 && Before(rows[id], ms[k - 1])
          invariant 0 <= k <= |ms| && (k < |ms| ==> Before(rows[id], ms[k]))
        {
          k := k - 1;
        }
        forall i | 0 <= i < k ensures Before(ms[i], rows[id]) {
          assert ms[i] in ms && ms[k - 1] in ms;
        }
        InsertAscends(ms, k, rows[id]);
        ms := ms[..k] + [rows[id]] + ms[k..];
        rest := rest - {id};
      }
      InOrderMeaning(Snapshot(), ids);
      SameOrder(ms, InOrder(Snapshot(), ids));
    }

    method MarkMessageDelivered(id: nat, now: int) returns (changed: bool)
      modifies this
      ensures Snapshot() == Step(old(Snapshot()), DeliverOp(id), now)
      ensures changed <==> old(id in rows && rows[id].status == Pending)
    {
      changed := id in rows && rows[id].status == Pending;
      if changed {
        rows := rows[id := Deliver(rows[id], now)];
      }
    }

    // An id listed twice is closed, and counted, once.
    method CloseMessagesWithoutDelivery(ids: seq<nat>, reason: string, now: int) returns (n: nat)
      modifies this
      ensures Snapshot() == Step(old(Snapshot()), CloseOp(ids, reason), now)
      ensures n == |PendingAmong(old(Snapshot()), ids)|
    {
      hide Closed, PendingAmong;
      n := 0;
      ghost var before := Snapshot();
      NothingClosed(before, now, reason);
      assert ids[..0] == [];
      for i := 0 to |ids|
        invariant nextId == before.nextId && rows == ClosedUpTo(before, ids[..i], now, reason).rows
        invariant n == |PendingAmong(before, ids[..i])|
      {
        var id := ids[i];
        assert ids[..i + 1] == ids[..i] + [id];
        CloseStep(before, ids[..i], id, now, reason);
        if id in rows && rows[id].status == Pending {
          rows := rows[id := Closed(rows[id], now, reason)];
          n := n + 1;
        }
      }
      assert ids[..|ids|] == ids;
    }

    method SetMessageResult(id: nat, result: string) returns (changed: bool)
      modifies this
      ensures Snapshot() == Step(old(Snapshot()), ResultOp(id, result), 0)
      ensures changed <==> id in old(rows)
    {
      changed := id in rows;
      if changed {
        rows := rows[id := rows[id].(result := Some(result))];
      }
    }

    method FailPendingFederatedMessages(peer: Option<string>, reason: string, now: int) returns (ids: set<nat>)
      modifies this
      ensures Snapshot() == Step(old(Snapshot()), FailFederatedOp(peer, reason), now)
      ensures ids == PendingFederated(old(Snapshot()), peer)
    {
      ids := PendingFederated(Snapshot(), peer);
      rows := map id | id in rows :: if id in ids then Failing(rows[id], now, Some(reason)) else rows[id];
    }

    method MarkMessageDone(id: nat, outcome: Option<string>, now: int) returns (changed: bool)
      modifies this
      ensures Snapshot() == Step(old(Snapshot()), DoneOp(id, outcome), now)
      ensures changed <==> id in old(rows)
    {
      changed := id in rows;
      if changed {
        rows := rows[id := Finishing(rows[id], now, outcome)];
      }
    }

    method MarkMessageFailed(id: nat, error: Option<string>, now: int) returns (changed: bool)
      modifies this
      ensures Snapshot() == Step(old(Snapshot()), FailOp(id, error), now)
      ensures changed <==> id in old(rows)
    {
      changed := id in rows;
      if changed {
        rows := rows[id := Failing(rows[id], now, error)];
      }
    }

    method MarkPendingFederatedFailed(id: nat, error: string, now: int) returns (changed: bool)
      modifies this
      ensures Snapshot() == Step(old(Snapshot()), FailPendingOp(id, Some(error)), now)
      ensures changed <==> old(id in rows && rows[id].status == Pending)
    {
      changed := id in rows && rows[id].status == Pending;
      if changed {
        rows := rows[id := Failing(rows[id], now, Some(error))];
      }
    }
  }
}
