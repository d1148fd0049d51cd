/** The memory lists and the in-process cache in front of them (src/db.ts):
    when a cached list is the list a fresh query would return. */
module MemoryCache {
  import opened Prelude

  const CATEGORIES: set<string> := {"hot", "warm", "cold", "shared"}

  // The columns a listing returns, without the embedding that is filled in later.
  datatype Memory = Memory(id: nat, owner: string, category: string, content: string, keywords: Option<string>,
                           createdAt: int, accessedAt: int)

  datatype Entry = Entry(value: seq<Memory>, expiresAt: int)

  datatype Store = Store(rows: map<nat, Memory>, nextId: nat, cache: map<string, Entry>)

  // ---- Cache keys ---------------------------------------------------------------

  function NatStr(n: nat): (s: string)
    ensures s != ""
    ensures forall c :: c in s ==> '0' <= c <= '9'
  {
    if n < 10 then ['0' + n as char] else NatStr(n / 10) + ['0' + (n % 10) as char]
  }

  function IntStr(n: int): (s: string)
    ensures s != "" && ':' !in s
  {
    if n < 0 then "-" + NatStr(-n) else NatStr(n)
  }

  lemma {:induction false} NatStrInjective(m: nat, n: nat)
    requires NatStr(m) == NatStr(n)
    ensures m == n
  {
    var a, b := NatStr(m), NatStr(n);
    assert a[|a| - 1] == b[|b| - 1];
    if m >= 10 && n >= 10 {
      assert NatStr(m / 10) == a[..|a| - 1] == b[..|b| - 1] == NatStr(n / 10);
      NatStrInjective(m / 10, n / 10);
    } else {
      assert m >= 10 ==> |a| > 1;
      assert n >= 10 ==> |b| > 1;
    }
  }

  lemma IntStrInjective(m: int, n: int)
    requires IntStr(m) == IntStr(n)
    ensures m == n
  {
    assert IntStr(m)[0] == IntStr(n)[0];
    assert m < 0 ==> IntStr(m)[0] == '-';
    assert m >= 0 ==> IntStr(m)[0] in NatStr(m);
    assert n >= 0 ==> IntStr(n)[0] in NatStr(n);
    if m < 0 {
      assert NatStr(-m) == IntStr(m)[1..] == IntStr(n)[1..] == NatStr(-n);
      NatStrInjective(-m, -n);
    } else {
      NatStrInjective(m, n);
    }
  }

  // The number a row of digits denotes.
  function Value(s: string): int {
    if s == "" then 0 else 10 * Value(s[..|s| - 1]) + (s[|s| - 1] as int - '0' as int)
  }

  /** Numbers appear in keys in decimal: digits without a leading zero, after a minus
      sign if negative. */
  lemma Decimal(n: int)
    ensures n >= 0 ==> Value(IntStr(n)) == n && (n >= 10 ==> IntStr(n)[0] != '0')
    ensures n < 0 ==> IntStr(n)[0] == '-' && Value(IntStr(n)[1..]) == -n && IntStr(n)[1] != '0'
  {
    DecimalDigits(if n < 0 then -n else n);
  }

  lemma {:induction false} DecimalDigits(n: nat)
    ensures Value(NatStr(n)) == n && (n > 0 ==> NatStr(n)[0] != '0')
  {
    if n < 10 {
      assert NatStr(n)[..0] == "";
    } else {
      DecimalDigits(n / 10);
      assert NatStr(n)[..|NatStr(n)| - 1] == NatStr(n / 10);
    }
  }

  function Key(agent: string, limit: int, category: string): string {
    agent + ":" + IntStr(limit) + ":" + category
  }

  lemma KeyParts(agent: string, limit: int, category: string)
    ensures var k, p, q := Key(agent, limit, category), |agent| + 1, |agent| + 1 + |IntStr(limit)|;
            && q < |k| && k[..|agent|] == agent && k[|agent|] == ':' && k[p..] == IntStr(limit) + ":" + category
            && k[p..q] == IntStr(limit) && k[q] == ':'
  {
    assert Key(agent, limit, category) == (agent + ":") + (IntStr(limit) + ":" + category);
  }

  // A segment ":<integer>", ended by a colon or by the end, starts at position i.
  predicate NumberAt(agent: string, i: nat, n: int) {
    && i < |agent| && agent[i] == ':' && IntStr(n) <= agent[i + 1..]
    && var end := i + 1 + |IntStr(n)|; end == |agent| || agent[end] == ':'
  }

  /** The agent ids the cache is right about: not empty, and without a colon that
      an integer follows and then another colon or the end. */
  ghost predicate Safe(agent: string) {
    agent != "" && forall i: nat, n: int :: !NumberAt(agent, i, n)
  }

  // A shorter id with the same key makes the longer one unsafe.
  lemma LongerIdIsUnsafe(a: string, m: int, x: string, b: string, n: int, y: string)
    requires Key(a, m, x) == Key(b, n, y) && |a| < |b|
    ensures NumberAt(b, |a|, m) && a <= b
  {
    KeyParts(a, m, x);
    KeyParts(b, n, y);
    var k := Key(a, m, x);
    assert b == k[..|b|] && a == k[..|a|] == b[..|a|];
    var digits := IntStr(m);
    var end := |a| + 1 + |digits|;
    assert k[|b|] == ':';
    assert end <= |b|;
    assert b[|a| + 1..][..|digits|] == digits;
  }

  /** Distinct (agent, limit, category) triples of safe agents have distinct keys. */
  lemma KeyIsInjective(a: string, m: int, x: string, b: string, n: int, y: string)
    requires Safe(a) && Safe(b) && Key(a, m, x) == Key(b, n, y)
    ensures a == b && m == n && x == y
  {
    if |a| < |b| {
      LongerIdIsUnsafe(a, m, x, b, n, y);
    } else if |b| < |a| {
      LongerIdIsUnsafe(b, n, y, a, m, x);
    }
    KeyParts(a, m, x);
    KeyParts(b, n, y);
    SplitAt(IntStr(m), IntStr(n), x, y, ':');
    IntStrInjective(m, n);
  }

  // ---- The listing query ------------------------------------------------------------

  // Most recently accessed first; rows of the same second in id order.
  predicate Newer(a: Memory, b: Memory) {
    a.accessedAt > b.accessedAt || (a.accessedAt == b.accessedAt && a.id < b.id)
  }

  function InsertByRecency(m: Memory, ms: seq<Memory>): seq<Memory> {
    if ms == [] || Newer(m, ms[0]) then [m] + ms else [ms[0]] + InsertByRecency(m, ms[1..])
  }

  // An empty category means no filter.
  predicate Listed(m: Memory, agent: string, category: string) {
    (m.owner == agent || m.category == "shared") && (category != "" ==> m.category == category)
  }

  function Matching(rows: map<nat, Memory>, agent: string, category: string, n: nat): seq<Memory> {
    if n == 0 then []
    else
      var earlier := Matching(rows, agent, category, n - 1);
      if n - 1 in rows && Listed(rows[n - 1], agent, category) then InsertByRecency(rows[n - 1], earlier) else earlier
  }

  function Query(s: Store, agent: string, limit: int, category: string): seq<Memory> {
    var all := Matching(s.rows, agent, category, s.nextId);
    if 0 <= limit < |all| then all[..limit] else all
  }

  ghost predicate Valid(s: Store) {
    forall id :: id in s.rows ==> s.rows[id].id == id && id < s.nextId
  }

  predicate Sorted(ms: seq<Memory>) {
    forall i, j :: 0 <= i < j < |ms| ==> Newer(ms[i], ms[j])
  }

  lemma {:induction false} InsertMeaning(m: Memory, ms: seq<Memory>)
    requires Sorted(ms) && forall x :: x in ms ==> x.id != m.id
    ensures Sorted(InsertByRecency(m, ms))
    ensures forall x :: x in InsertByRecency(m, ms) <==> x == m || x in ms
  {
    if ms != [] && !Newer(m, ms[0]) {
      assert ms[0] in ms;
      InsertMeaning(m, ms[1..]);
      var rest := InsertByRecency(m, ms[1..]);
      forall j | 0 <= j < |rest| ensures Newer(ms[0], rest[j]) {
        assert rest[j] in rest;
      }
    }
  }

  lemma {:induction false} MatchingMeaning(s: Store, agent: string, category: string, n: nat)
    requires Valid(s)
    ensures var ms := Matching(s.rows, agent, category, n);
            && Sorted(ms)
            && forall m :: m in ms <==> (m.id < n && m.id in s.rows && m == s.rows[m.id] && Listed(m, agent, category))
  {
    hide Listed, InsertByRecency, Newer;
    if n > 0 {
      MatchingMeaning(s, agent, category, n - 1);
      if n - 1 in s.rows {
        InsertMeaning(s.rows[n - 1], Matching(s.rows, agent, category, n - 1));
      }
    }
  }

  /** The listing is most recently accessed first, each row once, holds only the
      agent's own and shared rows of the category, empty meaning any, and leaves out
      a row only when full, of rows accessed at least as recently. */
  lemma QueryMeaning(s: Store, agent: string, limit: int, category: string)
    requires Valid(s)
    ensures var ms := Query(s, agent, limit, category);
            && Sorted(ms) && (limit >= 0 ==> |ms| <= limit)
            && (forall m :: m in ms ==> m.id in s.rows && m == s.rows[m.id] && Listed(m, agent, category))
            && (forall id :: id in s.rows && Listed(s.rows[id], agent, category) && s.rows[id] !in ms ==>
                  |ms| == limit && forall m :: m in ms ==> Newer(m, s.rows[id]))
    ensures var ms := Query(s, agent, limit, category);
            && (forall i, j :: 0 <= i < j < |ms| ==> ms[i].accessedAt >= ms[j].accessedAt && ms[i].id != ms[j].id)
            && (forall m :: m in ms ==> (m.owner == agent || m.category == "shared") && category in {"", m.category})
            && (forall id :: id in s.rows && (s.rows[id].owner == agent || s.rows[id].category == "shared") &&
                             category in {"", s.rows[id].category} && s.rows[id] !in ms ==>
                  |ms| == limit && forall m :: m in ms ==> m.accessedAt >= s.rows[id].accessedAt)
  {
    MatchingMeaning(s, agent, category, s.nextId);
    var all, ms := Matching(s.rows, agent, category, s.nextId), Query(s, agent, limit, category);
    forall id | id in s.rows && Listed(s.rows[id], agent, category) && s.rows[id] !in ms
      ensures |ms| == limit && forall m :: m in ms ==> Newer(m, s.rows[id])
    {
      assert s.rows[id] in all;
      var k :| 0 <= k < |all| && all[k] == s.rows[id];
      assert forall j :: 0 <= j < |ms| ==> all[j] == ms[j] && ms[j] in ms;
    }
  }

  // Listings agree when the rows listed for the agent agree.
  lemma {:induction false} MatchingFrame(before: map<nat, Memory>, after: map<nat, Memory>, agent: string,
                                         category: string, n: nat)
    requires forall id :: id in before || id in after ==>
                            || (id in before && id in after && before[id] == after[id])
                            || ((id in before ==> !Listed(before[id], agent, category)) &&
                                (id in after ==> !Listed(after[id], agent, category)))
    ensures Matching(before, agent, category, n) == Matching(after, agent, category, n)
  {
    if n > 0 {
      MatchingFrame(before, after, agent, category, n - 1);
    }
  }

  lemma {:induction false} MatchingBeyond(s: Store, agent: string, category: string, n: nat)
    requires Valid(s) && s.nextId <= n
    ensures Matching(s.rows, agent, category, n) == Matching(s.rows, agent, category, s.nextId)
  {
    if s.nextId < n {
      MatchingBeyond(s, agent, category, n - 1);
    }
  }

  // ---- Operations -------------------------------------------------------------------------

  function WithoutPrefix(cache: map<string, Entry>, prefix: string): map<string, Entry> {
    map key | key in cache && !(prefix <= key) :: cache[key]
  }

  function Invalidate(cache: map<string, Entry>, agent: string): map<string, Entry> {
    WithoutPrefix(cache, agent + ":")
  }

  // `Unevicted` is any writer that leaves the cache alone, whatever it makes of
  // the table: a fleet import, the touching and fading of memories, a chat memory.
  datatype Op =
    | Save(agent: string, content: string, category: string, keywords: Option<string>)
    | Update(id: nat, content: string, newCategory: Option<string>, newOwner: Option<string>, keywords: Option<string>)
    | Get(agent: string, limit: int, filter: Option<string>)
    | Delete(id: nat)
    | Unevicted(rows: map<nat, Memory>, nextId: nat)

  // An optional string argument counts only when it is present and not empty.
  function Given(arg: Option<string>, default: string): string {
    if arg.Some? && arg.value != "" then arg.value else default
  }

  // Seconds since the epoch, rounding down.
  function Seconds(nowMs: int): int { nowMs / 1000 }

  function SaveStep(s: Store, agent: string, content: string, category: string, keywords: Option<string>,
                    nowMs: int): Store {
    if category !in CATEGORIES then s
    else
      var now := Seconds(nowMs);
      Store(s.rows[s.nextId := Memory(s.nextId, agent, category, content, keywords, now, now)], s.nextId + 1,
            if category == "shared" then map[] else Invalidate(s.cache, agent))
  }

  function Updated(m: Memory, content: string, category: Option<string>, owner: Option<string>,
                   keywords: Option<string>, nowMs: int): Memory {
    m.(content := content, accessedAt := Seconds(nowMs), category := Given(category, m.category),
       owner := Given(owner, m.owner), keywords := if keywords.Some? then keywords else m.keywords)
  }

  function UpdateStep(s: Store, id: nat, content: string, category: Option<string>, owner: Option<string>,
                      keywords: Option<string>, nowMs: int): Store
  {
    if id !in s.rows || Given(category, s.rows[id].category) !in CATEGORIES then s
    else
      var was := s.rows[id];
      var kept := if was.owner != "" then Invalidate(s.cache, was.owner) else s.cache;
      s.(rows := s.rows[id := Updated(was, content, category, owner, keywords, nowMs)],
         cache := if was.category == "shared" || category == Some("shared") then map[]
                  else if Given(owner, was.owner) != was.owner then Invalidate(kept, Given(owner, was.owner))
                  else kept)
  }

  // What a listing answers, and the store after it.
  function GetStep(s: Store, agent: string, limit: int, filter: Option<string>, nowMs: int): (seq<Memory>, Store) {
    var key := Key(agent, limit, filter.GetOr(""));
    if key in s.cache && nowMs <= s.cache[key].expiresAt then (s.cache[key].value, s)
    else
      var answer := Query(s, agent, limit, filter.GetOr(""));
      (answer, s.(cache := s.cache[key := Entry(answer, nowMs + 60_000)]))
  }

  function DeleteStep(s: Store, id: nat): Store {
    if id in s.rows then s.(rows := s.rows - {id}, cache := map[]) else s
  }

  function Step(s: Store, op: Op, nowMs: int): Store {
    match op
    case Save(agent, content, category, keywords) => SaveStep(s, agent, content, category, keywords, nowMs)
    case Update(id, content, category, owner, keywords) => UpdateStep(s, id, content, category, owner, keywords, nowMs)
    case Get(agent, limit, filter) => GetStep(s, agent, limit, filter, nowMs).1
    case Delete(id) => DeleteStep(s, id)
    case Unevicted(rows, nextId) => s.(rows := rows, nextId := nextId)
  }

  // ---- What the writers write -----------------------------------------------------------------

  // The second a time in milliseconds falls in.
  predicate InSecond(nowMs: int, second: int) {
    1000 * second <= nowMs < 1000 * second + 1000
  }

  /** A save adds one row under a new id, created and accessed now; a category that is
      none of the four adds nothing. It drops the author's cached lists, a shared
      memory everyone's, and keeps every other entry. */
  lemma SaveWrites(s: Store, agent: string, content: string, category: string, keywords: Option<string>, nowMs: int)
    requires Valid(s)
    ensures var s' := SaveStep(s, agent, content, category, keywords, nowMs);
            if category !in {"hot", "warm", "cold", "shared"} then s' == s
            else
              && s'.nextId == s.nextId + 1 && s.nextId !in s.rows && s'.rows.Keys == s.rows.Keys + {s.nextId}
              && (forall id :: id in s.rows ==> s'.rows[id] == s.rows[id])
              && var m := s'.rows[s.nextId];
                 && m.id == s.nextId && m.owner == agent && m.category == category && m.content == content
                 && m.keywords == keywords && InSecond(nowMs, m.createdAt) && m.accessedAt == m.createdAt
    ensures category in {"hot", "warm", "cold", "shared"} ==>
              var cache := SaveStep(s, agent, content, category, keywords, nowMs).cache;
              && (forall key :: key in cache <==> key in s.cache && category != "shared" && !(agent + ":" <= key))
              && (forall key :: key in cache ==> cache[key] == s.cache[key])
  {
  }

  /** An edit replaces the text and stamps the access; category, owner and keywords
      change when supplied, the first two only when not empty; a category that is
      none of the four changes nothing. It drops everyone's cached lists when the row
      was or becomes shared, else those of the old owner, unless empty, and of a new
      one, and keeps every other entry. */
  lemma EditWrites(s: Store, id: nat, content: string, category: Option<string>, owner: Option<string>,
                   keywords: Option<string>, nowMs: int)
    requires id in s.rows
    ensures var was, s' := s.rows[id], UpdateStep(s, id, content, category, owner, keywords, nowMs);
            var newCategory := if category.Some? && category.value != "" then category.value else was.category;
            var newOwner := if owner.Some? && owner.value != "" then owner.value else was.owner;
            if newCategory !in {"hot", "warm", "cold", "shared"} then s' == s
            else
              && s'.nextId == s.nextId && s'.rows.Keys == s.rows.Keys
              && (forall other :: other in s.rows && other != id ==> s'.rows[other] == s.rows[other])
              && s'.rows[id].id == was.id && s'.rows[id].content == content && s'.rows[id].category == newCategory
              && s'.rows[id].owner == newOwner
              && s'.rows[id].keywords == (if keywords.Some? then keywords else was.keywords)
              && s'.rows[id].createdAt == was.createdAt && InSecond(nowMs, s'.rows[id].accessedAt)
              && (forall key :: key in s'.cache <==>
                    && key in s.cache && was.category != "shared" && category != Some("shared")
                    && (was.owner == "" || !(was.owner + ":" <= key))
                    && (newOwner == was.owner || !(newOwner + ":" <= key)))
              && (forall key :: key in s'.cache ==> s'.cache[key] == s.cache[key])
  {
  }

  /** A deletion takes the row and drops every cached list; of a row that is not there
      it does neither. */
  lemma DeletionWrites(s: Store, id: nat)
    ensures var s' := DeleteStep(s, id);
            if id !in s.rows then s' == s
            else
              && s'.cache == map[] && s'.nextId == s.nextId
              && (forall r :: r in s'.rows <==> r in s.rows && r != id)
              && (forall r :: r in s'.rows ==> s'.rows[r] == s.rows[r])
  {
  }

  /** A listing answers from the cache until the entry's time has passed, and then
      caches a fresh answer for sixty seconds; no other entry is touched. */
  lemma ListingWrites(s: Store, agent: string, limit: int, filter: Option<string>, nowMs: int)
    ensures var answer, s' := GetStep(s, agent, limit, filter, nowMs).0, GetStep(s, agent, limit, filter, nowMs).1;
            var category := if filter.Some? then filter.value else "";
            var key := agent + ":" + IntStr(limit) + ":" + category;
            if key in s.cache && nowMs <= s.cache[key].expiresAt then answer == s.cache[key].value && s' == s
            else
              && answer == Query(s, agent, limit, category)
              && s' == s.(cache := s'.cache) && s'.cache == s.cache[key := Entry(answer, nowMs + 60000)]
  {
    hide Query, IntStr;
  }

  // ---- Coherence ----------------------------------------------------------------------------

  ghost predicate Coherent(s: Store) {
    forall agent, limit, category :: Safe(agent) && Key(agent, limit, category) in s.cache ==>
      s.cache[Key(agent, limit, category)].value == Query(s, agent, limit, category)
  }

  // An entry that survives an eviction belongs to some other agent.
  lemma SurvivorsAreOthers(cache: map<string, Entry>, evicted: string, agent: string, limit: int, category: string)
    requires Key(agent, limit, category) in Invalidate(cache, evicted)
    ensures agent != evicted
  {
    assert Key(agent, limit, category) == (agent + ":") + IntStr(limit) + ":" + category;
  }

  lemma SaveKeepsCoherent(s: Store, agent: string, content: string, category: string, keywords: Option<string>,
                          nowMs: int)
    requires Valid(s) && Coherent(s)
    ensures Valid(SaveStep(s, agent, content, category, keywords, nowMs))
    ensures Coherent(SaveStep(s, agent, content, category, keywords, nowMs))
  {
    var s' := SaveStep(s, agent, content, category, keywords, nowMs);
    forall a, l, c | Safe(a) && Key(a, l, c) in s'.cache ensures s'.cache[Key(a, l, c)].value == Query(s', a, l, c) {
      if category in CATEGORIES && category != "shared" {
        SurvivorsAreOthers(s.cache, agent, a, l, c);
        MatchingFrame(s.rows, s'.rows, a, c, s'.nextId);
        MatchingBeyond(s, a, c, s'.nextId);
      }
    }
  }

  lemma UpdateKeepsCoherent(s: Store, id: nat, content: string, category: Option<string>, owner: Option<string>,
                            keywords: Option<string>, nowMs: int)
    requires Valid(s) && Coherent(s)
    ensures Valid(UpdateStep(s, id, content, category, owner, keywords, nowMs))
    ensures Coherent(UpdateStep(s, id, content, category, owner, keywords, nowMs))
  {
    var s' := UpdateStep(s, id, content, category, owner, keywords, nowMs);
    forall a, l, c | Safe(a) && Key(a, l, c) in s'.cache ensures s'.cache[Key(a, l, c)].value == Query(s', a, l, c) {
      if s' != s {
        var was := s.rows[id];
        var kept := if was.owner != "" then Invalidate(s.cache, was.owner) else s.cache;
        assert Key(a, l, c) in kept && a != was.owner by {
          if was.owner != "" { SurvivorsAreOthers(s.cache, was.owner, a, l, c); }
        }
        if Given(owner, was.owner) != was.owner {
          SurvivorsAreOthers(kept, Given(owner, was.owner), a, l, c);
        }
        MatchingFrame(s.rows, s'.rows, a, c, s.nextId);
      }
    }
  }

  lemma GetKeepsCoherent(s: Store, agent: string, limit: int, filter: Option<string>, nowMs: int)
    requires Valid(s) && Coherent(s) && Safe(agent)
    ensures Coherent(GetStep(s, agent, limit, filter, nowMs).1)
    ensures GetStep(s, agent, limit, filter, nowMs).0 == Query(s, agent, limit, filter.GetOr(""))
  {
    var s' := GetStep(s, agent, limit, filter, nowMs).1;
    forall a, l, c | Safe(a) && Key(a, l, c) in s'.cache ensures s'.cache[Key(a, l, c)].value == Query(s', a, l, c) {
      assert Query(s', a, l, c) == Query(s, a, l, c);
      if Key(a, l, c) == Key(agent, limit, filter.GetOr("")) {
        KeyIsInjective(a, l, c, agent, limit, filter.GetOr(""));
      }
    }
  }

  datatype Timed = Timed(op: Op, nowMs: int)

  function RunAll(s: Store, ops: seq<Timed>): Store {
    if ops == [] then s else Step(RunAll(s, ops[..|ops| - 1]), ops[|ops| - 1].op, ops[|ops| - 1].nowMs)
  }

  // Only safe ids are listed, and every writer evicts.
  ghost predicate Guarded(op: Op) {
    (op.Get? ==> Safe(op.agent)) && !op.Unevicted?
  }

  ghost predicate AllGuarded(ops: seq<Timed>) {
    forall i :: 0 <= i < |ops| ==> Guarded(ops[i].op)
  }

  /** Cache coherence: in every run of saves, edits (with reassignment and with
      rows becoming or ceasing to be shared), deletions and listings, each
      listing of a safe id answers what a fresh query would. The clock may jump;
      owners of rows may be any string; only ids listings are asked for count. */
  lemma {:induction false} CacheIsCoherent(s: Store, ops: seq<Timed>, agent: string, limit: int, filter: Option<string>,
                                           nowMs: int)
    requires Valid(s) && Coherent(s) && AllGuarded(ops) && Safe(agent)
    ensures Valid(RunAll(s, ops)) && Coherent(RunAll(s, ops))
    ensures GetStep(RunAll(s, ops), agent, limit, filter, nowMs).0
         == Query(RunAll(s, ops), agent, limit, filter.GetOr(""))
  {
    if ops != [] {
      var prefix, last := ops[..|ops| - 1], ops[|ops| - 1];
      CacheIsCoherent(s, prefix, agent, limit, filter, nowMs);
      StepKeepsCoherent(RunAll(s, prefix), last.op, last.nowMs);
    }
    GetKeepsCoherent(RunAll(s, ops), agent, limit, filter, nowMs);
  }

  lemma StepKeepsCoherent(s: Store, op: Op, nowMs: int)
    requires Valid(s) && Coherent(s) && Guarded(op)
    ensures Valid(Step(s, op, nowMs)) && Coherent(Step(s, op, nowMs))
  {
    match op
    case Save(agent, content, category, keywords) => SaveKeepsCoherent(s, agent, content, category, keywords, nowMs);
    case Update(id, content, category, owner, keywords) =>
      UpdateKeepsCoherent(s, id, content, category, owner, keywords, nowMs);
    case Get(agent, limit, filter) => GetKeepsCoherent(s, agent, limit, filter, nowMs);
    case Delete(id) =>
  }

  /** An accepted edit shows at once: whatever is listed for the edited row next,
      through the cache or not, has the new text, category and owner; and an
      unlimited listing of its owner shows the row. */
  lemma EditIsVisible(s: Store, id: nat, content: string, category: Option<string>, owner: Option<string>,
                      keywords: Option<string>, nowMs: int, agent: string, limit: int, readMs: int)
    requires Valid(s) && Coherent(s) && Safe(agent) && id in s.rows &&
             Given(category, s.rows[id].category) in CATEGORIES
    ensures var s' := UpdateStep(s, id, content, category, owner, keywords, nowMs);
            var answer := GetStep(s', agent, limit, None, readMs).0;
            var category', owner' := Given(category, s.rows[id].category), Given(owner, s.rows[id].owner);
            && (forall m :: m in answer && m.id == id ==>
                  m.content == content && m.category == category' && m.owner == owner' &&
                  m.createdAt == s.rows[id].createdAt && m.accessedAt == Seconds(nowMs))
            && (limit < 0 && (owner' == agent || category' == "shared") ==> exists m :: m in answer && m.id == id)
  {
    hide Query, GetStep;
    var s' := UpdateStep(s, id, content, category, owner, keywords, nowMs);
    UpdateKeepsCoherent(s, id, content, category, owner, keywords, nowMs);
    GetKeepsCoherent(s', agent, limit, None, readMs);
    QueryMeaning(s', agent, limit, "");
    assert s'.rows[id].id == id;
    assert limit < 0 && Listed(s'.rows[id], agent, "") ==> s'.rows[id] in Query(s', agent, limit, "");
  }

  /** A saved memory shows at once in an unlimited listing of its author, or of
      anyone when it is shared. */
  lemma SaveIsVisible(s: Store, author: string, content: string, category: string, keywords: Option<string>, nowMs: int,
                      agent: string, readMs: int)
    requires Valid(s) && Coherent(s) && Safe(agent) && category in CATEGORIES &&
             (agent == author || category == "shared")
    ensures var s' := SaveStep(s, author, content, category, keywords, nowMs);
            Memory(s.nextId, author, category, content, keywords, Seconds(nowMs), Seconds(nowMs))
              in GetStep(s', agent, -1, None, readMs).0
  {
    hide Query, GetStep;
    var s' := SaveStep(s, author, content, category, keywords, nowMs);
    SaveKeepsCoherent(s, author, content, category, keywords, nowMs);
    GetKeepsCoherent(s', agent, -1, None, readMs);
    QueryMeaning(s', agent, -1, "");
    assert Listed(s'.rows[s.nextId], agent, "");
  }

  // ---- Bounded staleness ----------------------------------------------------------------------

  // Every entry was made by an earlier listing under the same key.
  lemma {:induction false} EntryHasOrigin(s: Store, ops: seq<Timed>, key: string) returns (i: nat)
    requires s.cache == map[] && key in RunAll(s, ops).cache
    ensures i < |ops| && ops[i].op.Get?
    ensures var get := ops[i].op;
            && Key(get.agent, get.limit, get.filter.GetOr("")) == key
            && RunAll(s, ops).cache[key] ==
                 Entry(Query(RunAll(s, ops[..i]), get.agent, get.limit, get.filter.GetOr("")), ops[i].nowMs + 60_000)
  {
    hide Query, Key;
    var prefix, last := ops[..|ops| - 1], ops[|ops| - 1];
    var before, after := RunAll(s, prefix).cache, RunAll(s, ops).cache;
    if key in before && after[key] == before[key] {
      i := EntryHasOrigin(s, prefix, key);
      assert prefix[..i] == ops[..i];
    } else {
      i := |ops| - 1;
    }
  }

  /** For any agent id, safe or not, and over every run, writers that do not evict
      included: a listing answers what a query under the same key answered at most
      60 seconds ago, now or earlier in the run. */
  lemma StalenessIsBounded(s: Store, ops: seq<Timed>, agent: string, limit: int, filter: Option<string>, nowMs: int)
    returns (i: nat)
    requires s.cache == map[]
    ensures i <= |ops|
    ensures var answer := GetStep(RunAll(s, ops), agent, limit, filter, nowMs).0;
            if i == |ops| then answer == Query(RunAll(s, ops), agent, limit, filter.GetOr(""))
            else
              && ops[i].op.Get? && nowMs - ops[i].nowMs <= 60_000
              && var get := ops[i].op;
                 && Key(get.agent, get.limit, get.filter.GetOr("")) == Key(agent, limit, filter.GetOr(""))
                 && answer == Query(RunAll(s, ops[..i]), get.agent, get.limit, get.filter.GetOr(""))
  {
    hide Query, Key;
    var key, end := Key(agent, limit, filter.GetOr("")), RunAll(s, ops);
    if key in end.cache && nowMs <= end.cache[key].expiresAt {
      i := EntryHasOrigin(s, ops, key);
    } else {
      i := |ops|;
    }
  }

  // ---- Unsafe ids ------------------------------------------------------------------------------

  const EMPTY := Store(map[], 0, map[])

  lemma RunOneMore(s: Store, ops: seq<Timed>, last: Timed)
    ensures RunAll(s, ops + [last]) == Step(RunAll(s, ops), last.op, last.nowMs)
  {
    assert (ops + [last])[..|ops|] == ops;
  }

  // A table holding one row of the agent.
  function OneRow(agent: string, content: string, nowMs: int, cache: map<string, Entry>): Store {
    Store(map[0 := Memory(0, agent, "hot", content, None, Seconds(nowMs), Seconds(nowMs))], 1, cache)
  }

  lemma OneRowListing(agent: string, content: string, nowMs: int, cache: map<string, Entry>, reader: string,
                      limit: int, category: string)
    requires limit != 0
    ensures var s := OneRow(agent, content, nowMs, cache);
            Query(s, reader, limit, category) == if Listed(s.rows[0], reader, category) then [s.rows[0]] else []
  {
    assert Matching(OneRow(agent, content, nowMs, cache).rows, reader, category, 0) == [];
  }

  lemma FirstSave(agent: string, nowMs: int)
    ensures RunAll(EMPTY, [Timed(Save(agent, "a", "hot", None), nowMs)]) == OneRow(agent, "a", nowMs, map[])
  {
    RunOneMore(EMPTY, [], Timed(Save(agent, "a", "hot", None), nowMs));
    assert Invalidate(map[], agent) == map[];
  }

  lemma EmptyIdIsServedStale(nowMs: int) returns (ops: seq<Timed>)
    ensures GetStep(RunAll(EMPTY, ops), "", 1, None, nowMs).0 != Query(RunAll(EMPTY, ops), "", 1, "")
  {
    hide Query, Key;
    var save, read := Timed(Save("", "a", "hot", None), nowMs), Timed(Get("", 1, None), nowMs);
    var edit := Timed(Update(0, "b", None, None, None), nowMs);
    ops := [save] + [read] + [edit];
    FirstSave("", nowMs);
    RunOneMore(EMPTY, [save], read);
    RunOneMore(EMPTY, [save] + [read], edit);
    OneRowListing("", "a", nowMs, map[], "", 1, "");
    var stale := OneRow("", "a", nowMs, map[]).rows[0];
    var cache := map[Key("", 1, "") := Entry([stale], nowMs + 60_000)];
    assert RunAll(EMPTY, ops) == OneRow("", "b", nowMs, cache);
    OneRowListing("", "b", nowMs, cache, "", 1, "");
  }

  // The table before and after an import, listed in between.
  lemma ListedBeforeImport(agent: string, nowMs: int)
    ensures var row := OneRow(agent, "a", nowMs, map[]);
            RunAll(EMPTY, [Timed(Get(agent, 1, None), nowMs)] + [Timed(Unevicted(row.rows, 1), nowMs)]) ==
              OneRow(agent, "a", nowMs, map[Key(agent, 1, "") := Entry([], nowMs + 60_000)])
  {
    hide Query, Key;
    var row := OneRow(agent, "a", nowMs, map[]);
    var read, imported := Timed(Get(agent, 1, None), nowMs), Timed(Unevicted(row.rows, 1), nowMs);
    RunOneMore(EMPTY, [], read);
    RunOneMore(EMPTY, [read], imported);
    NothingListed(agent);
  }

  /** The bound is all there is once a writer does not evict: for every agent id,
      safe or not, a listing up to a minute old hides a memory imported since. */
  lemma ImportIsServedLate(agent: string, nowMs: int, readMs: int) returns (ops: seq<Timed>)
    requires nowMs <= readMs <= nowMs + 60_000
    ensures |ops| == 2 && ops[0] == Timed(Get(agent, 1, None), nowMs) && ops[1].op.Unevicted? && ops[1].nowMs == nowMs
    ensures GetStep(RunAll(EMPTY, ops), agent, 1, None, readMs).0 == []
    ensures exists m :: m in Query(RunAll(EMPTY, ops), agent, 1, "")
  {
    hide Query, Key, RunAll;
    var row := OneRow(agent, "a", nowMs, map[]);
    ops := [Timed(Get(agent, 1, None), nowMs)] + [Timed(Unevicted(row.rows, 1), nowMs)];
    ListedBeforeImport(agent, nowMs);
    var cache := map[Key(agent, 1, "") := Entry([], nowMs + 60_000)];
    OneRowListing(agent, "a", nowMs, cache, agent, 1, "");
    assert row.rows[0] in Query(RunAll(EMPTY, ops), agent, 1, "");
  }

  lemma NothingListed(agent: string)
    ensures Query(EMPTY, agent, 1, "") == []
  {
  }

  lemma UnlistedCategory(agent: string, nowMs: int, reader: string, limit: int, category: string)
    requires category != "" && category != "hot"
    ensures Query(OneRow(agent, "a", nowMs, map[]), reader, limit, category) == []
  {
    assert Matching(OneRow(agent, "a", nowMs, map[]).rows, reader, category, 0) == [];
  }

  // The category whose key, after the shorter id, spells the longer id.
  function Collision(agent: string, i: nat, n: int): (category: string)
    requires NumberAt(agent, i, n)
    ensures Key(agent[..i], n, category) == Key(agent, 1, "") && category != "" && category != "hot"
  {
    var tail := agent[i + 1 + |IntStr(n)|..];
    CollisionKey(agent, i, n);
    (if tail == "" then "" else tail[1..] + ":") + IntStr(1) + ":"
  }

  lemma CollisionKey(agent: string, i: nat, n: int)
    requires NumberAt(agent, i, n)
    ensures var tail := agent[i + 1 + |IntStr(n)|..];
            var category := (if tail == "" then "" else tail[1..] + ":") + IntStr(1) + ":";
            Key(agent[..i], n, category) == Key(agent, 1, "") && category != "" && category != "hot"
  {
    hide IntStr;
    var digits, one := IntStr(n), IntStr(1);
    var tail := agent[i + 1 + |digits|..];
    var category := (if tail == "" then "" else tail[1..] + ":") + one + ":";
    assert agent == agent[..i] + ":" + digits + tail;
    assert tail != "" ==> tail == ":" + tail[1..];
    assert category[|category| - 1] == ':';
  }

  lemma NumberedIdIsServedStale(agent: string, i: nat, n: int, nowMs: int) returns (ops: seq<Timed>)
    requires NumberAt(agent, i, n)
    ensures GetStep(RunAll(EMPTY, ops), agent, 1, None, nowMs).0 != Query(RunAll(EMPTY, ops), agent, 1, "")
  {
    hide Query, Key;
    var shorter, category := agent[..i], Collision(agent, i, n);
    var save, read := Timed(Save(agent, "a", "hot", None), nowMs), Timed(Get(shorter, n, Some(category)), nowMs);
    ops := [save] + [read];
    FirstSave(agent, nowMs);
    RunOneMore(EMPTY, [save], read);
    var s := OneRow(agent, "a", nowMs, map[]);
    UnlistedCategory(agent, nowMs, shorter, n, category);
    var cache := map[Key(agent, 1, "") := Entry([], nowMs + 60_000)];
    assert RunAll(EMPTY, ops) == OneRow(agent, "a", nowMs, cache);
    OneRowListing(agent, "a", nowMs, cache, agent, 1, "");
  }

  /** The condition is exact. For every unsafe id some run from the empty store
      ends in a stale listing: an empty id is never evicted by an edit, and an
      id with a number segment shares a key with a shorter id. */
  lemma UnsafeIdIsServedStale(agent: string, nowMs: int)
    requires !Safe(agent)
    ensures exists ops ::
              GetStep(RunAll(EMPTY, ops), agent, 1, None, nowMs).0 != Query(RunAll(EMPTY, ops), agent, 1, "")
  {
    if agent == "" {
      var ops := EmptyIdIsServedStale(nowMs);
    } else {
      var i: nat, n :| NumberAt(agent, i, n);
      var ops := NumberedIdIsServedStale(agent, i, n, nowMs);
    }
  }

  // ---- The imperative form --------------------------------------------------------------------

  class MemoryStore {
    var rows: map<nat, Memory>
    var nextId: nat
    var cache: map<string, Entry>

    constructor ()
      ensures Snapshot() == EMPTY
    {
      rows, nextId, cache := map[], 0, map[];
    }

    function Snapshot(): Store
      reads this
    {
      Store(rows, nextId, cache)
    }

    method MemoryCacheGet(key: string, nowMs: int) returns (hit: Option<seq<Memory>>)
      modifies this`cache
      ensures hit.Some? <==> key in old(cache) && nowMs <= old(cache)[key].expiresAt
      ensures hit.Some? ==> cache == old(cache) && hit.value == cache[key].value
      ensures hit.None? ==> cache == old(cache) - {key}
    {
      if key !in cache || nowMs > cache[key].expiresAt {
        cache := cache - {key};
        return None;
      }
      return Some(cache[key].value);
    }

    method MemoryCacheInvalidate(agent: string)
      modifies this`cache
      ensures cache == Invalidate(old(cache), agent)
    {
      var keys := cache.Keys;
      while keys != {}
        invariant keys <= old(cache).Keys
        invariant cache == map key | key in old(cache) && (key in keys || !(agent + ":" <= key)) :: old(cache)[key]
        decreases |keys|
      {
        var key :| key in keys;
        if agent + ":" <= key {
          cache := cache - {key};
        }
        keys := keys - {key};
      }
    }

    // A category outside the table's constraint makes the insert throw.
    method SaveAgentMemory(agent: string, content: string, category: string, keywords: Option<string>, nowMs: int)
      returns (r: Option<nat>)
      modifies this
      ensures Snapshot() == Step(old(Snapshot()), Save(agent, content, category, keywords), nowMs)
      ensures r == if category in CATEGORIES then Some(old(nextId)) else None
    {
      if category !in CATEGORIES {
        return None;
      }
      var now := Seconds(nowMs);
      r := Some(nextId);
      rows := rows[nextId := Memory(nextId, agent, category, content, keywords, now, now)];
      nextId := nextId + 1;
      if category == "shared" {
        cache := map[];
      } else {
        MemoryCacheInvalidate(agent);
      }
    }

    method GetAgentMemories(agent: string, limit: int, filter: Option<string>, nowMs: int) returns (answer: seq<Memory>)
      modifies this`cache
      ensures Snapshot() == Step(old(Snapshot()), Get(agent, limit, filter), nowMs)
      ensures answer == GetStep(old(Snapshot()), agent, limit, filter, nowMs).0
      ensures old(Valid(Snapshot()) && Coherent(Snapshot())) && Safe(agent) ==>
                answer == Query(Snapshot(), agent, limit, filter.GetOr(""))
    {
      hide Matching, NumberAt, IntStr;
      var key := Key(agent, limit, filter.GetOr(""));
      var hit := MemoryCacheGet(key, nowMs);
      if hit.Some? {
        answer := hit.value;
      } else {
        answer := Query(Snapshot(), agent, limit, filter.GetOr(""));
        cache := cache[key := Entry(answer, nowMs + 60_000)];
      }
      if old(Valid(Snapshot()) && Coherent(Snapshot())) && Safe(agent) {
        GetKeepsCoherent(old(Snapshot()), agent, limit, filter, nowMs);
      }
    }

    // None when the new category breaks the table's constraint.
    method UpdateMemory(id: nat, content: string, category: Option<string>, owner: Option<string>,
                        keywords: Option<string>, nowMs: int) returns (changed: Option<bool>)
      modifies this
      ensures Snapshot() == Step(old(Snapshot()), Update(id, content, category, owner, keywords), nowMs)
      ensures changed == if id !in old(rows) then Some(false)
                         else if Given(category, old(rows)[id].category) in CATEGORIES then Some(true) else None
    {
      if id !in rows {
        return Some(false);
      }
      var was := rows[id];
      var next := was.(content := content, accessedAt := Seconds(nowMs));
      if category.Some? && category.value != "" { next := next.(category := category.value); }
      if owner.Some? && owner.value != "" { next := next.(owner := owner.value); }
      if keywords.Some? { next := next.(keywords := keywords); }
      if next.category !in CATEGORIES {
        return None;
      }
      rows := rows[id := next];
      if was.category == "shared" || category == Some("shared") {
        cache := map[];
      } else {
        if was.owner != "" { MemoryCacheInvalidate(was.owner); }
        if owner.Some? && owner.value != "" && owner.value != was.owner { MemoryCacheInvalidate(owner.value); }
      }
      return Some(true);
    }

    method DeleteMemory(id: nat) returns (changed: bool)
      modifies this
      ensures Snapshot() == Step(old(Snapshot()), Delete(id), 0)
      ensures changed <==> id in old(rows)
    {
      changed := id in rows;
      if changed {
        rows := rows - {id};
        cache := map[];
      }
    }
  }
}
