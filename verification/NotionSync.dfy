/** The two-way reconcile between the local board and a Notion database
    (scripts/notion_kanban_sync.py), with both stores as mutable maps. */
module NotionSync {
  import opened Prelude
  import opened TitleGate

  const WORKFLOW_STATES: set<string> := {"new", "ready", "running", "verify", "repair", "blocked", "done"}

  // The synced content fields; an absent value and an empty one are the same.
  datatype Fields = Fields(title: string, priority: string, assignee: string, description: string)

  // An unarchived local card.
  datatype Card = Card(fields: Fields, state: string)

  // A Notion row as stored; its status in the lower case the program reads it in.
  datatype Page = Page(localId: string, fields: Fields, status: string, archived: bool)

  datatype World = World(locals: map<string, Card>, pages: map<string, Page>, stored: map<string, string>)

  // ---- What the local store accepts ------------------------------------------------

  const PRIORITIES: set<string> := {"low", "normal", "high", "urgent"}

  // Title and priority are NOT NULL columns and the priority has a CHECK. The
  // program sends null for a text the page lacks: an update with one is refused,
  // a create fills in the default priority but no title.
  predicate Updatable(f: Fields) {
    f.title != "" && f.priority in PRIORITIES
  }

  predicate Creatable(f: Fields) {
    f.title != "" && (f.priority == "" || f.priority in PRIORITIES)
  }

  function Defaulted(f: Fields): Fields {
    if f.priority == "" then f.(priority := "normal") else f
  }

  // The content a card holds after a content update, and after its creation.
  function OnUpdate(was: Fields, f: Fields): Fields {
    f.(title := StoredTitle(was.title, f.title))
  }

  function OnInsert(f: Fields): Fields {
    Defaulted(f).(title := NewTitle(f.title))
  }

  // ---- Reading and writing fields --------------------------------------------------

  predicate IsSpace(c: char) {
    var n := c as int;
    9 <= n <= 13 || 28 <= n <= 32 || n == 133 || n == 160 || n == 5760 || 8192 <= n <= 8202 || n == 8232 || n == 8233 ||
    n == 8239 || n == 8287 || n == 12288
  }

  predicate Blank(s: string) {
    forall i :: 0 <= i < |s| ==> IsSpace(s[i])
  }

  // What is left of a text without the white space at its ends.
  function Strip(s: string): (r: string)
    ensures |r| <= |s| && (r == s <==> Trimmed(s))
    ensures Trimmed(r)
  {
    if s == "" then s
    else if IsSpace(s[0]) then Strip(s[1..])
    else if IsSpace(s[|s| - 1]) then Strip(s[..|s| - 1])
    else s
  }

  lemma {:induction false} StripRange(s: string) returns (i: nat, j: nat)
    ensures i <= j <= |s| && Strip(s) == s[i..j] && Blank(s[..i]) && Blank(s[j..])
  {
    hide Blank, IsSpace;
    if Trimmed(s) {
      i, j := 0, |s|;
      assert s[0..|s|] == s;
      NothingBlank();
      assert s[..0] == "" && s[|s|..] == "";
    } else if IsSpace(s[0]) {
      i, j := StripRange(s[1..]);
      BlankJoin([s[0]], s[1..][..i]);
      assert s[..i + 1] == [s[0]] + s[1..][..i] && s[j + 1..] == s[1..][j..] && s[1..][i..j] == s[i + 1..j + 1];
      i, j := i + 1, j + 1;
    } else {
      var t, last := s[..|s| - 1], [s[|s| - 1]];
      i, j := StripRange(t);
      BlankJoin(t[j..], last);
      assert s[..i] == t[..i] && s[j..] == t[j..] + last && t[i..j] == s[i..j];
    }
  }

  lemma NothingBlank()
    ensures Blank("")
  {
  }

  lemma BlankJoin(a: string, b: string)
    ensures Blank(a) && Blank(b) ==> Blank(a + b)
    ensures |a| == 1 && IsSpace(a[0]) && Blank(b) ==> Blank(a + b)
    ensures |b| == 1 && IsSpace(b[0]) && Blank(a) ==> Blank(a + b)
  {
  }

  // The text t, with white space around it.
  ghost predicate Pads(raw: string, t: string) {
    Trimmed(t) && exists a, b :: raw == a + t + b && Blank(a) && Blank(b)
  }

  /** Stripping leaves exactly the text between the white space. */
  lemma StripMeaning(raw: string, t: string)
    ensures Strip(raw) == t <==> Pads(raw, t)
  {
    if Strip(raw) == t {
      var i, j := StripRange(raw);
      assert raw == raw[..i] + t + raw[j..];
    }
    if Pads(raw, t) {
      var a, b :| raw == a + t + b && Blank(a) && Blank(b);
      StripPadded(a, t, b);
    }
  }

  lemma {:induction false} StripPadded(a: string, t: string, b: string)
    requires Blank(a) && Blank(b) && Trimmed(t)
    ensures Strip(a + t + b) == t
  {
    var s := a + t + b;
    if a != "" {
      assert s[0] == a[0] && s[1..] == a[1..] + t + b;
      StripPadded(a[1..], t, b);
    } else if t == "" {
      assert s == b;
      if b != "" {
        StripPadded("", "", b[1..]);
        assert "" + "" + b[1..] == s[1..];
      }
    } else if b != "" {
      assert s[|s| - 1] == b[|b| - 1] && s[..|s| - 1] == "" + t + b[..|b| - 1] && s[0] == t[0];
      StripPadded("", t, b[..|b| - 1]);
    } else {
      assert s == t;
    }
  }

  /** The characters taken for white space, by code point. */
  lemma SpacesAre(c: char)
    ensures IsSpace(c) <==>
              c as int in {9, 10, 11, 12, 13, 28, 29, 30, 31, 32, 133, 160, 5760, 8192, 8193, 8194, 8195, 8196, 8197,
                           8198, 8199, 8200, 8201, 8202, 8232, 8233, 8239, 8287, 12288}
  {
  }

  predicate Trimmed(s: string) {
    s != "" ==> !IsSpace(s[0]) && !IsSpace(s[|s| - 1])
  }

  const CUT := 1900

  function Cut(s: string): string {
    if |s| <= CUT then s else s[..CUT]
  }

  // A page's content as the program sees it.
  function View(p: Page): Fields {
    p.fields.(title := Strip(p.fields.title), assignee := Strip(p.fields.assignee),
              description := Strip(p.fields.description))
  }

  function LidOf(p: Page): string { Strip(p.localId) }

  // Content written to a page: long text is cut, an empty priority is not sent.
  function Written(was: Fields, f: Fields): Fields {
    Fields(Cut(f.title), if f.priority == "" then was.priority else f.priority, Cut(f.assignee), Cut(f.description))
  }

  function Mirrored(status: string, state: string): string {
    if state in WORKFLOW_STATES then state else status
  }

  function Pushed(p: Page, id: string, card: Card): Page {
    Page(Cut(id), Written(p.fields, card.fields), Mirrored(p.status, card.state), p.archived)
  }

  function Created(id: string, card: Card): Page {
    Page(id, Written(Fields("", "", "", ""), card.fields), Mirrored("", card.state), false)
  }

  // The text the stored signature digests.
  function Sig(f: Fields): string {
    f.title + "\0" + f.priority + "\0" + f.assignee + "\0" + f.description
  }

  predicate NulFree(f: Fields) {
    '\0' !in f.title && '\0' !in f.priority && '\0' !in f.assignee && '\0' !in f.description
  }

  /** The signature tells contents apart, except through a NUL inside a field. */
  lemma SigInjective(f: Fields, g: Fields)
    requires NulFree(f) && NulFree(g)
    ensures Sig(f) == Sig(g) <==> f == g
  {
    if Sig(f) == Sig(g) {
      var f3, g3 := f.assignee + "\0" + f.description, g.assignee + "\0" + g.description;
      var f2, g2 := f.priority + "\0" + f3, g.priority + "\0" + g3;
      assert Sig(f) == f.title + "\0" + f2 && Sig(g) == g.title + "\0" + g2;
      SplitAt(f.title, g.title, f2, g2, '\0');
      SplitAt(f.priority, g.priority, f3, g3, '\0');
      SplitAt(f.assignee, g.assignee, f.description, g.description, '\0');
    }
  }

  predicate Clean(f: Fields) {
    && Trimmed(f.title) && Trimmed(f.assignee) && Trimmed(f.description)
    && |f.title| <= CUT && |f.assignee| <= CUT && |f.description| <= CUT
  }

  /** A write reads back as what was written exactly when the texts are trimmed
      and short enough, and the priority is set or was empty already. */
  lemma ReadsBack(p: Page, f: Fields)
    ensures View(p.(fields := Written(p.fields, f))) == f <==> Clean(f) && (f.priority != "" || p.fields.priority == "")
  {
    CutReadsBack(f.title);
    CutReadsBack(f.assignee);
    CutReadsBack(f.description);
  }

  lemma CutReadsBack(s: string)
    ensures Strip(Cut(s)) == s <==> Trimmed(s) && |s| <= CUT
  {
  }

  // ---- Decisions ---------------------------------------------------------------------------

  datatype Act = Ignore | Agree | Pull | Push | Archive | Import

  // What one run does about a page.
  function Decide(w: World, pid: string): Act
    requires pid in w.pages
  {
    var p := w.pages[pid];
    var lid := LidOf(p);
    if lid == "" || p.archived then Ignore
    else if lid in w.locals then
      var local, remote := Sig(w.locals[lid].fields), Sig(View(p));
      if local == remote then Agree
      else if lid in w.stored && w.stored[lid] == local then Pull
      else if lid in w.stored && w.stored[lid] == remote then Push
      else Pull
    else if lid in w.stored then Archive
    else Import
  }

  predicate PairsWith(w: World, pid: string, id: string) {
    pid in w.pages && id != "" && LidOf(w.pages[pid]) == id
  }

  ghost predicate HasPage(w: World, id: string) {
    exists pid :: PairsWith(w, pid, id)
  }

  ghost function PageOf(w: World, id: string): (pid: string)
    requires HasPage(w, id)
    ensures PairsWith(w, pid, id)
  {
    var pid :| PairsWith(w, pid, id);
    pid
  }

  // No two pages carry the same LocalID.
  ghost predicate Distinct(w: World) {
    forall a, b, id :: PairsWith(w, a, id) && PairsWith(w, b, id) ==> a == b
  }

  // The ids the two stores give to records a run creates, and their inverses.
  datatype Names = Names(card: map<string, string>, importer: map<string, string>,
                         page: map<string, string>, creator: map<string, string>)

  // A card id survives being written to a page.
  predicate GoodId(id: string) {
    id != "" && Trimmed(id) && |id| <= CUT
  }

  ghost predicate Unused(w: World, names: Names) {
    && (forall pid :: pid in w.pages ==>
          pid in names.card && names.card[pid] in names.importer && names.importer[names.card[pid]] == pid)
    && (forall id :: id in names.importer ==>
          GoodId(id) && id !in w.locals && id !in w.stored && !HasPage(w, id))
    && (forall id :: id in w.locals ==>
          id in names.page && names.page[id] in names.creator && names.creator[names.page[id]] == id)
    && (forall pid :: pid in names.creator ==> pid !in w.pages)
  }

  ghost predicate Valid(w: World) {
    Distinct(w) && forall id :: id in w.locals ==> GoodId(id) && w.locals[id].fields.priority in PRIORITIES
  }

  // The local store refuses what the page would write to it, which ends the run.
  predicate Refused(w: World, pid: string)
    requires pid in w.pages
  {
    || (Decide(w, pid) == Pull && !Updatable(View(w.pages[pid])))
    || (Decide(w, pid) == Import && !Creatable(View(w.pages[pid])))
  }

  // Some page is refused: the run cannot complete, in whatever order it goes.
  ghost predicate Blocked(w: World) {
    exists pid :: pid in w.pages && Refused(w, pid)
  }

  // ---- One run, record by record ------------------------------------------------------------

  function PageAfter(w: World, names: Names, pid: string): Page
    requires pid in w.pages && pid in names.card
  {
    var p := w.pages[pid];
    var lid := LidOf(p);
    match Decide(w, pid)
    case Ignore => p
    case Agree => p.(status := Mirrored(p.status, w.locals[lid].state))
    case Pull => p.(status := Mirrored(p.status, w.locals[lid].state))
    case Push => Pushed(p, lid, w.locals[lid])
    case Archive => p.(archived := true)
    case Import => p.(localId := names.card[pid], status := "ready")
  }

  ghost predicate Pulls(w: World, done: set<string>, id: string) {
    id in done && HasPage(w, id) && Decide(w, PageOf(w, id)) == Pull
  }

  ghost predicate Imports(w: World, names: Names, done: set<string>, id: string) {
    && id in names.importer && names.importer[id] in w.pages && names.importer[id] in names.card
    && names.card[names.importer[id]] == id && LidOf(w.pages[names.importer[id]]) in done
    && Decide(w, names.importer[id]) == Import
  }

  ghost predicate Creates(w: World, id: string) {
    id in w.locals && !HasPage(w, id)
  }

  function PulledCard(card: Card, p: Page): Card {
    card.(fields := OnUpdate(card.fields, View(p)))
  }

  // The board once the pages with the LocalIDs in `done` are handled.
  ghost function LocalsUpTo(w: World, names: Names, done: set<string>): map<string, Card> {
    map id | id in w.locals.Keys + names.importer.Keys && (id in w.locals || Imports(w, names, done, id)) ::
      if id !in w.locals then Card(OnInsert(View(w.pages[names.importer[id]])), "ready")
      else if Pulls(w, done, id) then PulledCard(w.locals[id], w.pages[PageOf(w, id)])
      else w.locals[id]
  }

  // The database once those pages, and then the local cards in `made`, are handled.
  ghost function PagesUpTo(w: World, names: Names, done: set<string>, made: set<string>): map<string, Page> {
    map pid | pid in w.pages.Keys + names.creator.Keys &&
              (pid in w.pages || Makes(w, names, made, pid)) ::
      if pid !in w.pages then Created(names.creator[pid], w.locals[names.creator[pid]])
      else if LidOf(w.pages[pid]) in done && pid in names.card then PageAfter(w, names, pid)
      else w.pages[pid]
  }

  ghost predicate Makes(w: World, names: Names, made: set<string>, pid: string) {
    && pid in names.creator && names.creator[pid] in made && Creates(w, names.creator[pid])
    && names.creator[pid] in names.page && names.page[names.creator[pid]] == pid
  }

  ghost function Lids(w: World): set<string> {
    set pid | pid in w.pages :: LidOf(w.pages[pid])
  }

  ghost predicate ImportsLid(w: World, lid: string) {
    lid !in w.locals && HasPage(w, lid) && Decide(w, PageOf(w, lid)) == Import
  }

  // What is remembered: for every card its content BEFORE the run, and for every
  // imported page the LocalID it no longer carries.
  ghost function StoredAfter(w: World): map<string, string> {
    map id | id in w.locals.Keys + Lids(w) && (id in w.locals || ImportsLid(w, id)) ::
      if id in w.locals then Sig(w.locals[id].fields) else Sig(View(w.pages[PageOf(w, id)]))
  }

  ghost function Run(w: World, names: Names): World {
    World(LocalsUpTo(w, names, Lids(w)), PagesUpTo(w, names, Lids(w), w.locals.Keys), StoredAfter(w))
  }

  // A run that writes to neither store.
  ghost predicate PageQuiet(w: World, pid: string)
    requires pid in w.pages
  {
    var p := w.pages[pid];
    var lid := LidOf(p);
    && (Decide(w, pid) == Ignore || Decide(w, pid) == Agree)
    && (Decide(w, pid) == Agree ==> w.locals[lid].state !in WORKFLOW_STATES || p.status == w.locals[lid].state)
  }

  ghost predicate Quiet(w: World) {
    (forall pid :: pid in w.pages ==> PageQuiet(w, pid)) && (forall id :: id in w.locals ==> HasPage(w, id))
  }

  // ---- Convergence ----------------------------------------------------------------------------

  // What the run writes to the page reads back as the card it came from.
  ghost predicate PageReadsBack(w: World, pid: string)
    requires pid in w.pages
  {
    Decide(w, pid) == Push ==>
      var lid := LidOf(w.pages[pid]);
      Sig(View(Pushed(w.pages[pid], lid, w.locals[lid]))) == Sig(w.locals[lid].fields)
  }

  ghost predicate WritesReadBack(w: World) {
    && (forall pid :: pid in w.pages ==> PageReadsBack(w, pid))
    && (forall id :: Creates(w, id) ==> Sig(View(Created(id, w.locals[id]))) == Sig(w.locals[id].fields))
  }

  // Nothing the run takes over from the page is filled in or cut by the local store.
  predicate TakenVerbatim(w: World, pid: string)
    requires pid in w.pages
  {
    var f := View(w.pages[pid]);
    match Decide(w, pid)
    case Pull => Fits(w.locals[LidOf(w.pages[pid])].fields.title, f.title)
    case Import => f.priority != "" && |f.title| <= TITLE_LIMIT
    case _ => true
  }

  ghost predicate Settles(w: World) {
    WritesReadBack(w) && forall pid :: pid in w.pages ==> TakenVerbatim(w, pid)
  }

  // A cut title shows in the signature.
  lemma CutShows(was: Fields, f: Fields)
    ensures Sig(f) == Sig(OnUpdate(was, f)) <==> Fits(was.title, f.title)
  {
    if !Fits(was.title, f.title) {
      assert |Sig(OnUpdate(was, f))| < |Sig(f)|;
    }
  }

  // So do a default priority and a cut title together, even where the default
  // adds as many characters as the cut removes.
  lemma InsertShows(f: Fields)
    ensures Sig(f) == Sig(OnInsert(f)) <==> f.priority != "" && |f.title| <= TITLE_LIMIT
  {
    var g := OnInsert(f);
    if f.priority == "" && |f.title| == TITLE_LIMIT + 6 {
      assert Sig(f)[TITLE_LIMIT + 6] == '\0';
      assert Sig(g) == g.title + ("\0normal\0" + g.assignee + "\0" + g.description);
      assert Sig(g)[TITLE_LIMIT + 6] == 'l';
    } else if f.priority == "" || |f.title| > TITLE_LIMIT {
      assert |Sig(g)| != |Sig(f)|;
    }
  }

  lemma StripFixed(s: string)
    requires Trimmed(s)
    ensures Strip(s) == s
  {
  }

  // The LocalIDs after a run.
  lemma LidAfter(w: World, names: Names, pid: string)
    requires Valid(w) && Unused(w, names) && pid in w.pages
    ensures LidOf(PageAfter(w, names, pid)) == if Decide(w, pid) == Import then names.card[pid] else LidOf(w.pages[pid])
  {
    StripFixed(names.card[pid]);
  }

  lemma OldPage(w: World, names: Names, pid: string)
    requires Unused(w, names) && pid in w.pages
    ensures pid in Run(w, names).pages && Run(w, names).pages[pid] == PageAfter(w, names, pid)
  {
    hide PageAfter, LocalsUpTo, StoredAfter, Makes, HasPage, LidOf, Created;
    assert LidOf(w.pages[pid]) in Lids(w);
  }

  lemma NewPage(w: World, names: Names, id: string)
    requires Unused(w, names) && Creates(w, id)
    ensures names.page[id] in Run(w, names).pages
    ensures Run(w, names).pages[names.page[id]] == Created(id, w.locals[id])
  {
    hide PageAfter, LocalsUpTo, StoredAfter, LidOf, Created, Lids;
    assert Makes(w, names, w.locals.Keys, names.page[id]);
  }

  lemma PageOrigin(w: World, names: Names, pid: string)
    requires Unused(w, names) && pid in Run(w, names).pages && pid !in w.pages
    ensures pid in names.creator && Creates(w, names.creator[pid]) && names.page[names.creator[pid]] == pid
  {
    hide PageAfter, LocalsUpTo, StoredAfter, LidOf, Created, Creates, Lids;
  }

  lemma PageOfUnique(w: World, pid: string)
    requires Distinct(w) && pid in w.pages && LidOf(w.pages[pid]) != ""
    ensures HasPage(w, LidOf(w.pages[pid])) && PageOf(w, LidOf(w.pages[pid])) == pid
  {
    assert PairsWith(w, pid, LidOf(w.pages[pid]));
  }

  lemma OldCard(w: World, names: Names, id: string)
    requires Unused(w, names) && id in w.locals
    ensures id in Run(w, names).locals
    ensures Run(w, names).locals[id] ==
      if Pulls(w, Lids(w), id) then PulledCard(w.locals[id], w.pages[PageOf(w, id)]) else w.locals[id]
  {
    hide PagesUpTo, StoredAfter, View, Imports, Decide, Lids, PulledCard;
  }

  // The card a live page is paired with.
  lemma PairedCard(w: World, names: Names, pid: string)
    requires Valid(w) && Unused(w, names) && pid in w.pages && LidOf(w.pages[pid]) in w.locals &&
             LidOf(w.pages[pid]) != ""
    ensures var id := LidOf(w.pages[pid]);
            && id in Run(w, names).locals && Run(w, names).locals[id].state == w.locals[id].state
            && Run(w, names).locals[id].fields ==
                 if Decide(w, pid) == Pull then OnUpdate(w.locals[id].fields, View(w.pages[pid]))
                 else w.locals[id].fields
  {
    hide Run, View, Decide, LidOf, OnUpdate;
    PageOfUnique(w, pid);
    OldCard(w, names, LidOf(w.pages[pid]));
    assert LidOf(w.pages[pid]) in Lids(w);
  }

  lemma NewCard(w: World, names: Names, pid: string)
    requires Unused(w, names) && pid in w.pages && Decide(w, pid) == Import
    ensures names.card[pid] in Run(w, names).locals
    ensures Run(w, names).locals[names.card[pid]] == Card(OnInsert(View(w.pages[pid])), "ready")
  {
    hide PagesUpTo, StoredAfter, View, Decide, LidOf, OnInsert;
    assert LidOf(w.pages[pid]) in Lids(w);
    assert Imports(w, names, Lids(w), names.card[pid]);
  }

  lemma CardOrigin(w: World, names: Names, id: string)
    requires Unused(w, names) && id in Run(w, names).locals && id !in w.locals
    ensures id in names.importer && names.importer[id] in w.pages && Decide(w, names.importer[id]) == Import
    ensures names.card[names.importer[id]] == id
  {
    hide PagesUpTo, StoredAfter, View, Decide, LidOf, Lids;
  }

  // A live pair is quiet exactly when content and state agree; a page that is
  // archived or carries no LocalID always is.
  lemma PairQuiet(w: World, pid: string)
    requires pid in w.pages
    ensures LidOf(w.pages[pid]) == "" || w.pages[pid].archived ==> PageQuiet(w, pid)
    ensures var p, lid := w.pages[pid], LidOf(w.pages[pid]);
            lid != "" && !p.archived && lid in w.locals ==>
              (PageQuiet(w, pid) <==> Sig(View(p)) == Sig(w.locals[lid].fields) &&
                                      (w.locals[lid].state in WORKFLOW_STATES ==> p.status == w.locals[lid].state))
  {
    hide Sig, View, LidOf;
  }

  lemma PageAfterFrame(w: World, names: Names, pid: string)
    requires pid in w.pages && pid in names.card
    ensures var p, p', a := w.pages[pid], PageAfter(w, names, pid), Decide(w, pid);
            && (a != Push ==> View(p') == View(p))
            && p'.archived == (p.archived || a == Archive)
            && (a == Agree || a == Pull || a == Push ==>
                  LidOf(p) in w.locals && LidOf(p) != "" && !p.archived &&
                  p'.status == Mirrored(p.status, w.locals[LidOf(p)].state))
            && (a == Import ==> p'.status == "ready" && !p'.archived)
            && (a == Agree ==> Sig(View(p)) == Sig(w.locals[LidOf(p)].fields))
            && (a == Ignore ==> p' == p && (LidOf(p) == "" || p.archived))
            && (a == Push ==> p' == Pushed(p, LidOf(p), w.locals[LidOf(p)]))
  {
    hide Strip, Sig, Written, Mirrored, Cut;
  }

  lemma OldPageQuiet(w: World, names: Names, pid: string)
    requires Valid(w) && Unused(w, names) && pid in w.pages
    ensures pid in Run(w, names).pages
    ensures PageQuiet(Run(w, names), pid) <==> PageReadsBack(w, pid) && TakenVerbatim(w, pid)
  {
    hide Run, Sig, View, Written, PageAfter, Decide, PageQuiet, LidOf, HasPage, OnInsert, OnUpdate, Fits;
    OldPage(w, names, pid);
    PageAfterFrame(w, names, pid);
    LidAfter(w, names, pid);
    PairQuiet(Run(w, names), pid);
    var a := Decide(w, pid);
    if a == Import {
      NewCard(w, names, pid);
      InsertShows(View(w.pages[pid]));
    } else if a == Agree || a == Pull || a == Push {
      PairedCard(w, names, pid);
      CutShows(w.locals[LidOf(w.pages[pid])].fields, View(w.pages[pid]));
    }
  }

  lemma NewPageQuiet(w: World, names: Names, id: string)
    requires Valid(w) && Unused(w, names) && Creates(w, id)
    ensures names.page[id] in Run(w, names).pages
    ensures PageQuiet(Run(w, names), names.page[id]) <==>
            Sig(View(Created(id, w.locals[id]))) == Sig(w.locals[id].fields)
  {
    hide Run, Sig, View, Written, PageQuiet, HasPage;
    NewPage(w, names, id);
    StripFixed(id);
    PairQuiet(Run(w, names), names.page[id]);
    OldCard(w, names, id);
  }

  lemma EveryCardHasPage(w: World, names: Names, id: string)
    requires Valid(w) && Unused(w, names) && id in Run(w, names).locals
    ensures HasPage(Run(w, names), id)
  {
    hide Run, PageAfter, Strip;
    var w' := Run(w, names);
    if id !in w.locals {
      CardOrigin(w, names, id);
      var pid := names.importer[id];
      OldPage(w, names, pid);
      LidAfter(w, names, pid);
      assert PairsWith(w', pid, id);
    } else if HasPage(w, id) {
      var pid := PageOf(w, id);
      OldPage(w, names, pid);
      LidAfter(w, names, pid);
      assert PairsWith(w', pid, id);
    } else {
      NewPage(w, names, id);
      StripFixed(id);
      assert PairsWith(w', names.page[id], id);
    }
  }

  /** Convergence of a completed run, exactly: the next run writes nothing to
      either store if and only if everything this one wrote to Notion reads back
      unchanged, every page it imported had a priority, and every title it took
      over was short enough for the card table or stored there already. */
  lemma SecondRunIsQuiet(w: World, names: Names)
    requires Valid(w) && Unused(w, names) && !Blocked(w)
    ensures Quiet(Run(w, names)) <==> Settles(w)
  {
    RunIsQuietIff(w, names);
  }

  lemma RunIsQuietIff(w: World, names: Names)
    requires Valid(w) && Unused(w, names)
    ensures Quiet(Run(w, names)) <==> Settles(w)
  {
    hide Run, PageQuiet, Decide, Pushed, View, Created, HasPage, Sig, LidOf, TakenVerbatim, PageReadsBack;
    var w' := Run(w, names);
    forall pid | pid in w.pages
      ensures pid in w'.pages && (PageQuiet(w', pid) <==> PageReadsBack(w, pid) && TakenVerbatim(w, pid))
    {
      OldPageQuiet(w, names, pid);
    }
    forall id | Creates(w, id)
      ensures names.page[id] in w'.pages
      ensures PageQuiet(w', names.page[id]) <==> Sig(View(Created(id, w.locals[id]))) == Sig(w.locals[id].fields)
    {
      NewPageQuiet(w, names, id);
    }
    forall pid | pid in w'.pages && pid !in w.pages
      ensures pid in names.creator && Creates(w, names.creator[pid]) && names.page[names.creator[pid]] == pid
    {
      PageOrigin(w, names, pid);
    }
    forall id | id in w'.locals { EveryCardHasPage(w, names, id); }
  }

  /** From any board: a run completes and the next one writes nothing if and only
      if every page to be pulled or imported has one of the four priorities and a
      title, of at most 300 characters unless its card has that title already, and
      everything to be written to Notion reads back. */
  lemma ConvergesIff(w: World, names: Names)
    requires Valid(w) && Unused(w, names)
    ensures !Blocked(w) && Quiet(Run(w, names)) <==>
              WritesReadBack(w) &&
              forall pid :: pid in w.pages && (Decide(w, pid) == Pull || Decide(w, pid) == Import) ==>
                Updatable(View(w.pages[pid])) &&
                (|View(w.pages[pid]).title| <= TITLE_LIMIT ||
                 (Decide(w, pid) == Pull && View(w.pages[pid]).title == w.locals[LidOf(w.pages[pid])].fields.title))
  {
    hide Run, Quiet, WritesReadBack, Decide, View, LidOf;
    RunIsQuietIff(w, names);
    forall pid | pid in w.pages { PullIsPaired(w, pid); }
  }

  /** The read-back condition in terms of the cards: no pushed or created card has
      padded or overlong text. */
  lemma ReadBackMeaning(w: World)
    requires Valid(w) && forall id :: id in w.locals ==> NulFree(w.locals[id].fields)
    requires forall pid :: pid in w.pages ==> NulFree(w.pages[pid].fields)
    ensures WritesReadBack(w) <==>
              && (forall pid :: pid in w.pages && Decide(w, pid) == Push ==>
                    Clean(w.locals[LidOf(w.pages[pid])].fields))
              && (forall id :: Creates(w, id) ==> Clean(w.locals[id].fields))
  {
    forall pid | pid in w.pages && Decide(w, pid) == Push
      ensures PageReadsBack(w, pid) <==> Clean(w.locals[LidOf(w.pages[pid])].fields)
    {
      PushReadsBack(w.pages[pid], LidOf(w.pages[pid]), w.locals[LidOf(w.pages[pid])]);
    }
    forall id | Creates(w, id)
      ensures Sig(View(Created(id, w.locals[id]))) == Sig(w.locals[id].fields) <==> Clean(w.locals[id].fields)
    {
      PushReadsBack(Page(id, Fields("", "", "", ""), "", false), id, w.locals[id]);
    }
  }

  lemma PushReadsBack(p: Page, id: string, card: Card)
    requires NulFree(card.fields) && NulFree(p.fields)
    ensures Sig(View(Pushed(p, id, card))) == Sig(card.fields) <==>
              Clean(card.fields) && (card.fields.priority != "" || p.fields.priority == "")
  {
    var q := p.(fields := Written(p.fields, card.fields));
    assert View(Pushed(p, id, card)) == View(q);
    StripKeeps(Cut(card.fields.title), '\0');
    StripKeeps(Cut(card.fields.assignee), '\0');
    StripKeeps(Cut(card.fields.description), '\0');
    SigInjective(View(q), card.fields);
    ReadsBack(p, card.fields);
  }

  lemma {:induction false} StripKeeps(s: string, c: char)
    requires c !in s
    ensures c !in Strip(s)
  {
    if s != "" && IsSpace(s[0]) {
      StripKeeps(s[1..], c);
    } else if s != "" && IsSpace(s[|s| - 1]) {
      StripKeeps(s[..|s| - 1], c);
    }
  }

  /** What a write that does not read back leads to: the next run takes the
      altered page for a Notion edit and overwrites the local card with it, so the
      end of a long text is lost on both sides; or, when nothing is left of the
      title, is refused and cannot complete. */
  lemma UnfaithfulPushIsPulledBack(w: World, names: Names, pid: string)
    requires Valid(w) && Unused(w, names) && pid in w.pages && Decide(w, pid) == Push
    ensures pid in Run(w, names).pages
    ensures Decide(Run(w, names), pid) == if PageReadsBack(w, pid) then Agree else Pull
    ensures Refused(Run(w, names), pid) <==> !PageReadsBack(w, pid) && View(Run(w, names).pages[pid]).title == ""
  {
    hide Run, Sig, View, Written, PageAfter, LidOf, HasPage;
    OldPage(w, names, pid);
    PageAfterFrame(w, names, pid);
    LidAfter(w, names, pid);
    PairedCard(w, names, pid);
    StoredMeaning(w, names, LidOf(w.pages[pid]));
    PushedPriority(w.pages[pid], LidOf(w.pages[pid]), w.locals[LidOf(w.pages[pid])]);
  }

  lemma PushedPriority(p: Page, id: string, card: Card)
    ensures card.fields.priority != "" ==> View(Pushed(p, id, card)).priority == card.fields.priority
  {
  }

  /** After a run that settles, every live pair agrees on content, and
      Notion's status is the local state wherever that is a workflow state. The
      status half needs no condition. */
  lemma PairsAgreeAfterRun(w: World, names: Names, pid: string)
    requires Valid(w) && Unused(w, names)
    requires pid in Run(w, names).pages && !Run(w, names).pages[pid].archived
    requires LidOf(Run(w, names).pages[pid]) in Run(w, names).locals
    ensures var w' := Run(w, names); var card := w'.locals[LidOf(w'.pages[pid])];
            && (card.state in WORKFLOW_STATES ==> w'.pages[pid].status == card.state)
            && (Settles(w) ==> Sig(View(w'.pages[pid])) == Sig(card.fields))
  {
    hide Run, Sig, View, Written, PageAfter, Decide, LidOf, HasPage, OnInsert, OnUpdate, Fits;
    if pid in w.pages {
      OldPage(w, names, pid);
      PageAfterFrame(w, names, pid);
      LidAfter(w, names, pid);
      var a := Decide(w, pid);
      if a == Import {
        NewCard(w, names, pid);
        InsertShows(View(w.pages[pid]));
      } else if a == Agree || a == Pull || a == Push {
        PairedCard(w, names, pid);
        CutShows(w.locals[LidOf(w.pages[pid])].fields, View(w.pages[pid]));
      } else {
        LeftPageIsUnpaired(w, names, pid);
        if "" !in w.locals && "" in Run(w, names).locals { CardOrigin(w, names, ""); }
      }
    } else {
      PageOrigin(w, names, pid);
      var id := names.creator[pid];
      NewPage(w, names, id);
      CreatedFrame(id, w.locals[id]);
      OldCard(w, names, id);
    }
  }

  lemma CreatedFrame(id: string, card: Card)
    requires GoodId(id)
    ensures LidOf(Created(id, card)) == id && Created(id, card).status == Mirrored("", card.state)
  {
    StripFixed(id);
  }

  // A page the run left alone, or archived, has no LocalID or is archived.
  lemma LeftPageIsUnpaired(w: World, names: Names, pid: string)
    requires pid in w.pages && pid in names.card && (Decide(w, pid) == Ignore || Decide(w, pid) == Archive)
    ensures PageAfter(w, names, pid).archived || LidOf(PageAfter(w, names, pid)) == ""
  {
  }

  // ---- What a run writes, in raw texts -----------------------------------------------------------------

  // The page, read between its white space, is of card `id` and says `f`.
  ghost predicate Says(p: Page, id: string, f: Fields) {
    && Pads(p.localId, id) && Pads(p.fields.title, f.title) && Pads(p.fields.assignee, f.assignee)
    && Pads(p.fields.description, f.description) && p.fields.priority == f.priority
  }

  lemma SaysIs(p: Page, id: string, f: Fields)
    requires Says(p, id, f)
    ensures LidOf(p) == id && View(p) == f
  {
    StripMeaning(p.localId, id);
    StripMeaning(p.fields.title, f.title);
    StripMeaning(p.fields.assignee, f.assignee);
    StripMeaning(p.fields.description, f.description);
  }

  /** Which side wins. A page of no card, or archived, is left; a page of a card that
      left the board since the last run is archived, one of an unknown card becomes
      one. Of a pair that differs the card wins only if the page still says what was
      remembered; in every other case, conflicts included, the page does. */
  lemma WhoWins(w: World, pid: string, id: string, f: Fields, remembered: Fields)
    requires pid in w.pages && Says(w.pages[pid], id, f) && NulFree(f) && NulFree(remembered)
    requires id in w.locals ==> NulFree(w.locals[id].fields)
    requires id in w.stored ==> w.stored[id] == Sig(remembered)
    ensures Decide(w, pid) ==
              if id == "" || w.pages[pid].archived then Ignore
              else if id !in w.locals then (if id in w.stored then Archive else Import)
              else if w.locals[id].fields == f then Agree
              else if id in w.stored && remembered == f then Push
              else Pull
  {
    SaysIs(w.pages[pid], id, f);
    SigInjective(remembered, f);
    if id in w.locals {
      SigInjective(w.locals[id].fields, f);
      SigInjective(w.locals[id].fields, remembered);
    }
    hide Sig, View, LidOf, Says;
  }

  /** When the card table refuses a page, in its own words: it is to be pulled or
      imported and its title is blank, or its priority is none of the four, an empty
      one being refused for a card that exists. */
  lemma RefusalMeaning(w: World, pid: string, id: string, f: Fields)
    requires pid in w.pages && Says(w.pages[pid], id, f)
    ensures Refused(w, pid) <==>
              || (Decide(w, pid) == Pull && (f.title == "" || f.priority !in {"low", "normal", "high", "urgent"}))
              || (Decide(w, pid) == Import && (f.title == "" || f.priority !in {"", "low", "normal", "high", "urgent"}))
  {
    SaysIs(w.pages[pid], id, f);
  }

  // A title as the card table keeps it.
  predicate Kept(was: string, sent: string, title: string) {
    if |sent| <= 300 || sent == was then title == sent else title == sent[..299] + "\U{2026}"
  }

  /** What a page that is pulled or imported leaves in the card: the texts between its
      white space, the title cut if it is new and over 300 characters, the priority,
      "normal" for a new card without one; the state of a pulled card stays, a new
      card is ready. */
  lemma CardTakesPage(w: World, names: Names, pid: string, id: string, f: Fields)
    requires Valid(w) && Unused(w, names) && pid in w.pages && Says(w.pages[pid], id, f)
    requires Decide(w, pid) == Pull || Decide(w, pid) == Import
    ensures var cid := if Decide(w, pid) == Pull then id else names.card[pid];
            && (Decide(w, pid) == Pull <==> id in w.locals) && cid in Run(w, names).locals
            && var card := Run(w, names).locals[cid];
               && card.fields.assignee == f.assignee && card.fields.description == f.description
               && card.fields.priority == (if f.priority == "" && Decide(w, pid) == Import then "normal"
                                           else f.priority)
               && Kept(if id in w.locals then w.locals[id].fields.title else "", f.title, card.fields.title)
               && card.state == if id in w.locals then w.locals[id].state else "ready"
  {
    SaysIs(w.pages[pid], id, f);
    PullIsPaired(w, pid);
    ImportIsUnpaired(w, pid);
    hide Run, View, LidOf, Says, Kept, OnUpdate, OnInsert;
    if Decide(w, pid) == Pull {
      PairedCardAfterPull(w, names, pid);
      PairedCard(w, names, pid);
      KeptOnUpdate(w.locals[id].fields, f);
    } else {
      NewCard(w, names, pid);
      KeptOnInsert(f);
    }
    hide Decide, Valid, Unused;
  }

  lemma KeptOnUpdate(was: Fields, f: Fields)
    ensures var r := OnUpdate(was, f);
            && r.assignee == f.assignee && r.description == f.description && r.priority == f.priority
            && Kept(was.title, f.title, r.title)
  {
  }

  lemma KeptOnInsert(f: Fields)
    ensures var r := OnInsert(f);
            && r.assignee == f.assignee && r.description == f.description
            && r.priority == (if f.priority == "" then "normal" else f.priority) && Kept("", f.title, r.title)
  {
  }

  // A text as it is written to a page.
  predicate Sent(text: string, raw: string) {
    if |text| <= 1900 then raw == text else raw == text[..1900]
  }

  // The status a page gets from a card's state: only the seven workflow states show.
  predicate Shown(was: string, state: string, status: string) {
    status == if state in {"new", "ready", "running", "verify", "repair", "blocked", "done"} then state else was
  }

  /** What a run leaves of a page it listed, in raw texts: a pushed page holds the
      card's texts, each cut to 1900 characters, its priority unless empty, and its
      state; an agreeing or pulled one only the state; an archived one is archived;
      an imported one carries the new card's id and is ready; any other is as it was. */
  lemma PageAfterRun(w: World, names: Names, pid: string)
    requires Valid(w) && Unused(w, names) && pid in w.pages
    ensures pid in Run(w, names).pages
    ensures var p, p', act := w.pages[pid], Run(w, names).pages[pid], Decide(w, pid);
            match act
            case Ignore => p' == p
            case Archive => p' == p.(archived := true)
            case Import => p' == p.(localId := names.card[pid], status := "ready")
            case Push =>
              LidOf(p) in w.locals && var card := w.locals[LidOf(p)];
              && Sent(card.fields.title, p'.fields.title) && Sent(card.fields.assignee, p'.fields.assignee)
              && Sent(card.fields.description, p'.fields.description)
              && p'.fields.priority == (if card.fields.priority == "" then p.fields.priority else card.fields.priority)
              && Sent(LidOf(p), p'.localId) && p'.archived == p.archived && Shown(p.status, card.state, p'.status)
            case _ =>
              LidOf(p) in w.locals && Shown(p.status, w.locals[LidOf(p)].state, p'.status) &&
              p' == p.(status := p'.status)
  {
    OldPage(w, names, pid);
    ReconciledPage(w, names, pid);
    hide Run, PageAfter, Decide, LidOf, Valid, Unused, Sent, Shown;
  }

  lemma ReconciledPage(w: World, names: Names, pid: string)
    requires pid in w.pages && pid in names.card
    ensures var p, p', act := w.pages[pid], PageAfter(w, names, pid), Decide(w, pid);
            match act
            case Ignore => p' == p
            case Archive => p' == p.(archived := true)
            case Import => p' == p.(localId := names.card[pid], status := "ready")
            case Push =>
              LidOf(p) in w.locals && var card := w.locals[LidOf(p)];
              && Sent(card.fields.title, p'.fields.title) && Sent(card.fields.assignee, p'.fields.assignee)
              && Sent(card.fields.description, p'.fields.description)
              && p'.fields.priority == (if card.fields.priority == "" then p.fields.priority else card.fields.priority)
              && Sent(LidOf(p), p'.localId) && p'.archived == p.archived && Shown(p.status, card.state, p'.status)
            case _ =>
              LidOf(p) in w.locals && Shown(p.status, w.locals[LidOf(p)].state, p'.status) &&
              p' == p.(status := p'.status)
  {
    hide Sig, View, LidOf;
  }

  /** The page made for a card that had none. */
  lemma PageMadeForCard(w: World, names: Names, id: string)
    requires Valid(w) && Unused(w, names) && id in w.locals
    requires forall pid :: pid in w.pages ==> !Pads(w.pages[pid].localId, id)
    ensures id in names.page && names.page[id] in Run(w, names).pages
    ensures var p, card := Run(w, names).pages[names.page[id]], w.locals[id];
            && p.localId == id && !p.archived && Shown("", card.state, p.status)
            && Sent(card.fields.title, p.fields.title) && Sent(card.fields.assignee, p.fields.assignee)
            && Sent(card.fields.description, p.fields.description) && p.fields.priority == card.fields.priority
  {
    forall pid | pid in w.pages ensures !PairsWith(w, pid, id) {
      StripMeaning(w.pages[pid].localId, id);
    }
    assert Creates(w, id);
    NewPage(w, names, id);
    MadePage(id, w.locals[id]);
    hide Run, Created, Sent, Shown, LidOf;
  }

  lemma MadePage(id: string, card: Card)
    ensures var p := Created(id, card);
            && p.localId == id && !p.archived && Shown("", card.state, p.status)
            && Sent(card.fields.title, p.fields.title) && Sent(card.fields.assignee, p.fields.assignee)
            && Sent(card.fields.description, p.fields.description) && p.fields.priority == card.fields.priority
  {
  }

  // ---- The edit after a run -------------------------------------------------------------------------

  /** What happens to a local edit of one card made right after a run: the next
      run sends it to Notion if and only if the card was there before the run and
      that run did not pull it. After a pull or an import the stored signature is
      not the agreed one, so the edit counts as a conflict and Notion wins. Only
      the edited pair itself need agree after the run. */
  lemma NextLocalEditSurvivesIff(w: World, names: Names, id: string, edited: Fields)
    requires Valid(w) && Unused(w, names)
    requires id in Run(w, names).locals && HasPage(Run(w, names), id)
    requires !Run(w, names).pages[PageOf(Run(w, names), id)].archived
    requires Sig(View(Run(w, names).pages[PageOf(Run(w, names), id)])) == Sig(Run(w, names).locals[id].fields)
    requires Sig(edited) != Sig(Run(w, names).locals[id].fields)
    ensures var w' := Run(w, names); var w'' := w'.(locals := w'.locals[id := w'.locals[id].(fields := edited)]);
            var next := Decide(w'', PageOf(w', id));
            && (next == Push || next == Pull)
            && (next == Push <==> id in w.locals && !Pulls(w, Lids(w), id))
  {
    hide Run, Sig, View, Written, PageAfter, Strip;
    var w' := Run(w, names);
    var pid := PageOf(w', id);
    var w'' := w'.(locals := w'.locals[id := w'.locals[id].(fields := edited)]);
    assert Decide(w'', pid) == if id in w'.stored && w'.stored[id] == Sig(View(w'.pages[pid])) then Push else Pull;
    StoredMeaning(w, names, id);
    if id in w.locals {
      OldCard(w, names, id);
      if Pulls(w, Lids(w), id) {
        PulledDiffers(w, id);
        PulledPage(w, names, id);
      }
    }
  }

  // A pulled card has the page it had, with the content it had.
  lemma PulledPage(w: World, names: Names, id: string)
    requires Valid(w) && Unused(w, names) && Pulls(w, Lids(w), id)
    ensures HasPage(Run(w, names), id) && PageOf(Run(w, names), id) == PageOf(w, id)
    ensures View(Run(w, names).pages[PageOf(w, id)]) == View(w.pages[PageOf(w, id)])
  {
    hide Run, PageAfter, LidOf, View, Lids;
    var pid := PageOf(w, id);
    OldPage(w, names, pid);
    PageAfterFrame(w, names, pid);
    LidAfter(w, names, pid);
    assert PairsWith(Run(w, names), pid, id);
    OnePageEach(w, names, pid, PageOf(Run(w, names), id));
  }

  lemma OnePageEach(w: World, names: Names, a: string, b: string)
    requires Valid(w) && Unused(w, names) && a in Run(w, names).pages && b in Run(w, names).pages
    requires LidOf(Run(w, names).pages[a]) == LidOf(Run(w, names).pages[b]) != ""
    ensures a == b
  {
    hide PagesUpTo, LocalsUpTo, StoredAfter, LidOf;
    UpToDistinct(w, names, Lids(w), w.locals.Keys, a, b);
  }

  // A card is remembered by its content before the run; an imported one is not.
  lemma StoredMeaning(w: World, names: Names, id: string)
    requires Unused(w, names) && id in Run(w, names).locals
    ensures id in Run(w, names).stored <==> id in w.locals
    ensures id in w.locals ==> Run(w, names).stored[id] == Sig(w.locals[id].fields)
  {
    hide PagesUpTo, View, Sig, Decide, LidOf;
    assert Run(w, names).stored == StoredAfter(w);
    if id !in w.locals {
      CardOrigin(w, names, id);
    }
  }

  lemma PulledDiffers(w: World, id: string)
    requires Pulls(w, Lids(w), id)
    ensures id in w.locals && Sig(View(w.pages[PageOf(w, id)])) != Sig(w.locals[id].fields)
  {
  }

  /** The archive loop at the end of a run never archives anything: a page of a
      remembered card that left the board was handled, or already archived,
      before; and nothing it drops is remembered anyway. */
  lemma ArchiveLoopIsDead(w: World, lid: string)
    requires Valid(w) && lid in w.stored && lid !in w.locals
    ensures HasPage(w, lid) && !w.pages[PageOf(w, lid)].archived ==> Decide(w, PageOf(w, lid)) == Archive
    ensures lid !in StoredAfter(w)
  {
  }

  /** A page without a LocalID is never touched and never becomes a card. */
  lemma PageWithoutLocalIdIsIgnored(w: World, names: Names, pid: string)
    requires Valid(w) && Unused(w, names) && pid in w.pages && LidOf(w.pages[pid]) == ""
    ensures pid in Run(w, names).pages && Run(w, names).pages[pid] == w.pages[pid]
    ensures forall id :: id in Run(w, names).locals && id !in w.locals ==>
              id in names.importer && names.importer[id] != pid
  {
    hide Run;
    OldPage(w, names, pid);
    forall id | id in Run(w, names).locals && id !in w.locals
      ensures id in names.importer && names.importer[id] != pid
    {
      CardOrigin(w, names, id);
    }
  }

  // ---- Runs in sequence --------------------------------------------------------------------------------

  // What an interrupted run leaves after the pages with the LocalIDs in `done`.
  ghost function Interrupted(w: World, names: Names, done: set<string>): World {
    World(LocalsUpTo(w, names, done), PagesUpTo(w, names, done, {}), w.stored)
  }

  // No page handled was a refused one.
  ghost predicate Spares(w: World, done: set<string>) {
    forall pid :: pid in w.pages && Refused(w, pid) ==> LidOf(w.pages[pid]) !in done
  }

  // The LocalID of every page of a partly or wholly reconciled database.
  lemma PageIdentity(w: World, names: Names, done: set<string>, made: set<string>, pid: string)
    requires Valid(w) && Unused(w, names) && pid in PagesUpTo(w, names, done, made)
    ensures var lid := LidOf(PagesUpTo(w, names, done, made)[pid]);
            if pid in w.pages then lid == LidOf(w.pages[pid]) || lid == names.card[pid]
            else pid in names.creator && lid == names.creator[pid] && Creates(w, lid) && names.page[lid] == pid
  {
    hide PageAfter, LidOf, Created, Decide;
    if pid in w.pages {
      LidAfter(w, names, pid);
    } else {
      CreatedFrame(names.creator[pid], w.locals[names.creator[pid]]);
    }
  }

  lemma UpToDistinct(w: World, names: Names, done: set<string>, made: set<string>, a: string, b: string)
    requires Valid(w) && Unused(w, names) && a in PagesUpTo(w, names, done, made) &&
             b in PagesUpTo(w, names, done, made)
    requires LidOf(PagesUpTo(w, names, done, made)[a]) == LidOf(PagesUpTo(w, names, done, made)[b]) != ""
    ensures a == b
  {
    hide PagesUpTo, LidOf;
    PageIdentity(w, names, done, made, a);
    PageIdentity(w, names, done, made, b);
    if a in w.pages && LidOf(w.pages[a]) != "" { assert PairsWith(w, a, LidOf(w.pages[a])); }
    if b in w.pages && LidOf(w.pages[b]) != "" { assert PairsWith(w, b, LidOf(w.pages[b])); }
  }

  lemma UpToCards(w: World, names: Names, done: set<string>, id: string)
    requires Valid(w) && Unused(w, names) && Spares(w, done) && id in LocalsUpTo(w, names, done)
    ensures GoodId(id) && LocalsUpTo(w, names, done)[id].fields.priority in PRIORITIES
  {
    hide Decide, LidOf, View, GoodId;
    if id in w.locals {
      if Pulls(w, done, id) { assert !Refused(w, PageOf(w, id)); }
    } else {
      assert !Refused(w, names.importer[id]);
    }
  }

  lemma UpToValid(w: World, names: Names, done: set<string>, made: set<string>, stored: map<string, string>)
    requires Valid(w) && Unused(w, names) && Spares(w, done)
    ensures Valid(World(LocalsUpTo(w, names, done), PagesUpTo(w, names, done, made), stored))
  {
    hide LocalsUpTo, PagesUpTo, LidOf, Unused, Spares, GoodId;
    var w' := World(LocalsUpTo(w, names, done), PagesUpTo(w, names, done, made), stored);
    forall a, b, id | PairsWith(w', a, id) && PairsWith(w', b, id) ensures a == b {
      UpToDistinct(w, names, done, made, a, b);
    }
    forall id | id in w'.locals ensures GoodId(id) && w'.locals[id].fields.priority in PRIORITIES {
      UpToCards(w, names, done, id);
    }
  }

  /** A completed run leaves a board to which all of these results apply again. */
  lemma RunKeepsValid(w: World, names: Names)
    requires Valid(w) && Unused(w, names) && !Blocked(w)
    ensures Valid(Run(w, names))
  {
    UpToValid(w, names, Lids(w), w.locals.Keys, StoredAfter(w));
  }

  /** A refused page stays refused: after an interrupted run, whatever it handled
      first, the board is valid and the same pages are refused again. Until
      someone edits the page the sync never completes. */
  lemma BlockedStaysBlocked(w: World, names: Names, done: set<string>)
    requires Valid(w) && Unused(w, names) && Spares(w, done)
    ensures Valid(Interrupted(w, names, done))
    ensures forall pid :: pid in w.pages && Refused(w, pid) ==>
              pid in Interrupted(w, names, done).pages && Refused(Interrupted(w, names, done), pid)
    ensures Blocked(w) ==> Blocked(Interrupted(w, names, done))
  {
    UpToValid(w, names, done, {}, w.stored);
    hide Interrupted, Refused, Valid, Unused;
    forall pid | pid in w.pages && Refused(w, pid)
      ensures pid in Interrupted(w, names, done).pages && Refused(Interrupted(w, names, done), pid)
    {
      RefusedStays(w, names, done, pid);
    }
  }

  lemma RefusedStays(w: World, names: Names, done: set<string>, pid: string)
    requires Unused(w, names) && pid in w.pages && Refused(w, pid) && LidOf(w.pages[pid]) !in done
    ensures pid in Interrupted(w, names, done).pages && Refused(Interrupted(w, names, done), pid)
  {
    hide View, Sig, LidOf, LocalsUpTo, PagesUpTo, Updatable, Creatable;
    StillAsListed(w, names, done, pid);
    if LidOf(w.pages[pid]) !in w.locals {
      UnpairedStaysUnpaired(w, names, done, pid);
    }
  }

  lemma UnpairedStaysUnpaired(w: World, names: Names, done: set<string>, pid: string)
    requires Unused(w, names) && pid in w.pages && LidOf(w.pages[pid]) != "" && LidOf(w.pages[pid]) !in w.locals
    ensures LidOf(w.pages[pid]) !in LocalsUpTo(w, names, done)
  {
    hide View, Decide, LidOf;
    assert PairsWith(w, pid, LidOf(w.pages[pid]));
  }

  /** What a run leaves to do: no page to push, archive or import and no page to
      create, at most pages to pull. */
  lemma OnlyPullsRemain(w: World, names: Names, pid: string)
    requires Valid(w) && Unused(w, names) && pid in Run(w, names).pages
    ensures Decide(Run(w, names), pid) in {Ignore, Agree, Pull}
  {
    hide Run, Sig, View, Written, PageAfter, LidOf, HasPage, OnInsert, OnUpdate, Strip;
    var w' := Run(w, names);
    if pid in w.pages {
      OldPage(w, names, pid);
      PageAfterFrame(w, names, pid);
      LidAfter(w, names, pid);
      var a := Decide(w, pid);
      if a == Import {
        NewCard(w, names, pid);
        StoredMeaning(w, names, names.card[pid]);
      } else if a == Agree || a == Pull || a == Push {
        PairedCard(w, names, pid);
        StoredMeaning(w, names, LidOf(w.pages[pid]));
      }
    } else {
      PageOrigin(w, names, pid);
      var id := names.creator[pid];
      NewPage(w, names, id);
      CreatedFrame(id, w.locals[id]);
      OldCard(w, names, id);
      StoredMeaning(w, names, id);
    }
  }

  // ---- Titles over the limit ---------------------------------------------------------------------------

  // The title the page will show is taken over as it is, by this run or the next.
  predicate TitleFits(w: World, pid: string)
    requires pid in w.pages
  {
    var lid, title := LidOf(w.pages[pid]), View(w.pages[pid]).title;
    match Decide(w, pid)
    case Pull => Fits(w.locals[lid].fields.title, title)
    case Import => |title| <= TITLE_LIMIT
    case Push => TitleReturns(w.locals[lid].fields.title)
    case _ => true
  }

  // A local title that comes back from Notion shortened fits the card table then.
  predicate TitleReturns(title: string) {
    Fits(title, Strip(Cut(title)))
  }

  ghost predicate TitlesFit(w: World) {
    && (forall pid :: pid in w.pages ==> TitleFits(w, pid))
    && (forall id :: Creates(w, id) ==> TitleReturns(w.locals[id].fields.title))
  }

  // A page whose title this run pulls and the card table cuts.
  predicate Overlong(w: World, pid: string)
    requires pid in w.pages
  {
    Decide(w, pid) == Pull && !TitleFits(w, pid)
  }

  // A run changes the content neither of a page it pulled nor of one it imported.
  lemma PulledNext(w: World, names: Names, pid: string)
    requires Valid(w) && Unused(w, names) && pid in w.pages && (Decide(w, pid) == Pull || Decide(w, pid) == Import)
    ensures pid in Run(w, names).pages && View(Run(w, names).pages[pid]) == View(w.pages[pid])
    ensures Decide(Run(w, names), pid) == if TakenVerbatim(w, pid) then Agree else Pull
  {
    hide Run, Sig, View, Written, PageAfter, LidOf, HasPage, OnInsert, OnUpdate, Strip, Fits;
    OldPage(w, names, pid);
    PageAfterFrame(w, names, pid);
    LidAfter(w, names, pid);
    if Decide(w, pid) == Import {
      NewCard(w, names, pid);
      StoredMeaning(w, names, names.card[pid]);
      InsertShows(View(w.pages[pid]));
    } else {
      var lid := LidOf(w.pages[pid]);
      PairedCard(w, names, pid);
      StoredMeaning(w, names, lid);
      CutShows(w.locals[lid].fields, View(w.pages[pid]));
      PullDiffers(w, pid);
    }
  }

  /** A title the card table cuts is never settled: the page keeps it, and the run
      after a completed one pulls it again, to be cut again. */
  lemma OverlongStays(w: World, names: Names, pid: string)
    requires Valid(w) && Unused(w, names) && pid in w.pages && Overlong(w, pid)
    ensures pid in Run(w, names).pages && Overlong(Run(w, names), pid)
    ensures View(Run(w, names).pages[pid]) == View(w.pages[pid])
  {
    hide Run, Sig, View, LidOf, PageAfter, HasPage, Decide;
    PulledNext(w, names, pid);
    PairedCardAfterPull(w, names, pid);
  }

  lemma PairedCardAfterPull(w: World, names: Names, pid: string)
    requires Valid(w) && Unused(w, names) && pid in w.pages && Decide(w, pid) == Pull
    ensures pid in Run(w, names).pages && LidOf(Run(w, names).pages[pid]) == LidOf(w.pages[pid])
    ensures LidOf(w.pages[pid]) in w.locals && LidOf(w.pages[pid]) in Run(w, names).locals
    ensures Run(w, names).locals[LidOf(w.pages[pid])].fields ==
              OnUpdate(w.locals[LidOf(w.pages[pid])].fields, View(w.pages[pid]))
  {
    hide Run, Sig, View, PageAfter, LidOf, HasPage, OnUpdate;
    OldPage(w, names, pid);
    PageAfterFrame(w, names, pid);
    LidAfter(w, names, pid);
    PairedCard(w, names, pid);
  }

  // A pushed title that comes back altered is a different one.
  lemma PushedTitle(p: Page, id: string, card: Card)
    requires card.fields.priority != ""
    ensures View(Pushed(p, id, card)).title == Strip(Cut(card.fields.title))
    ensures Sig(View(Pushed(p, id, card))) == Sig(card.fields) ==> Strip(Cut(card.fields.title)) == card.fields.title
  {
    var f, g := card.fields, View(Pushed(p, id, card));
    if Sig(g) == Sig(f) {
      assert |Sig(f)| == |f.title| + |f.priority| + |f.assignee| + |f.description| + 3;
      assert |Sig(g)| == |g.title| + |g.priority| + |g.assignee| + |g.description| + 3;
      assert |g.title| == |f.title|;
      StripWhole(f.title);
    }
  }

  lemma StripWhole(s: string)
    requires |Strip(s)| == |s|
    ensures Strip(s) == s
  {
  }

  lemma TitleNext(w: World, names: Names, pid: string)
    requires Valid(w) && Unused(w, names) && pid in w.pages
    ensures pid in Run(w, names).pages && (TitleFits(Run(w, names), pid) <==> TitleFits(w, pid))
  {
    hide Run, Sig, View, Written, LidOf, PageAfter, HasPage, Decide, TitleFits;
    match Decide(w, pid) {
      case Pull => PulledTitleNext(w, names, pid);
      case Import => ImportedTitleNext(w, names, pid);
      case Push => PushedTitleNext(w, names, pid);
      case _ => UnchangedTitleNext(w, names, pid);
    }
  }

  lemma PulledTitleNext(w: World, names: Names, pid: string)
    requires Valid(w) && Unused(w, names) && pid in w.pages && Decide(w, pid) == Pull
    ensures pid in Run(w, names).pages && (TitleFits(Run(w, names), pid) <==> TitleFits(w, pid))
  {
    hide Run, Sig, View, LidOf, PageAfter, HasPage, Decide, Valid, Unused;
    PulledNext(w, names, pid);
    PairedCardAfterPull(w, names, pid);
  }

  lemma ImportedTitleNext(w: World, names: Names, pid: string)
    requires Valid(w) && Unused(w, names) && pid in w.pages && Decide(w, pid) == Import
    ensures pid in Run(w, names).pages && (TitleFits(Run(w, names), pid) <==> TitleFits(w, pid))
  {
    hide Run, Sig, View, LidOf, PageAfter, HasPage, Decide, Valid;
    PulledNext(w, names, pid);
    OldPage(w, names, pid);
    LidAfter(w, names, pid);
    NewCard(w, names, pid);
  }

  lemma PushedTitleNext(w: World, names: Names, pid: string)
    requires Valid(w) && Unused(w, names) && pid in w.pages && Decide(w, pid) == Push
    ensures pid in Run(w, names).pages && (TitleFits(Run(w, names), pid) <==> TitleFits(w, pid))
  {
    hide Run, Sig, View, Pushed, LidOf, PageAfter, HasPage, Strip, Cut;
    var lid := LidOf(w.pages[pid]);
    UnfaithfulPushIsPulledBack(w, names, pid);
    OldPage(w, names, pid);
    PageAfterFrame(w, names, pid);
    LidAfter(w, names, pid);
    PairedCard(w, names, pid);
    PushedTitle(w.pages[pid], lid, w.locals[lid]);
  }

  lemma UnchangedTitleNext(w: World, names: Names, pid: string)
    requires Valid(w) && Unused(w, names) && pid in w.pages && Decide(w, pid) in {Ignore, Agree, Archive}
    ensures pid in Run(w, names).pages && (TitleFits(Run(w, names), pid) <==> TitleFits(w, pid))
  {
    hide Run, Sig, View, LidOf, Decide, Valid, Unused;
    OldPageQuiet(w, names, pid);
  }

  lemma CreatedTitleNext(w: World, names: Names, id: string)
    requires Valid(w) && Unused(w, names) && Creates(w, id)
    ensures names.page[id] in Run(w, names).pages
    ensures TitleFits(Run(w, names), names.page[id]) <==> TitleReturns(w.locals[id].fields.title)
  {
    hide Run, Sig, View, PageAfter, HasPage, Strip, Cut, Written;
    NewPage(w, names, id);
    CreatedFrame(id, w.locals[id]);
    OldCard(w, names, id);
    StoredMeaning(w, names, id);
    CreatedTitle(id, w.locals[id]);
  }

  lemma CreatedTitle(id: string, card: Card)
    requires card.fields.priority != ""
    ensures View(Created(id, card)).title == Strip(Cut(card.fields.title))
    ensures Sig(View(Created(id, card))) == Sig(card.fields) ==> Strip(Cut(card.fields.title)) == card.fields.title
  {
    hide Sig, Strip, Cut;
    var blank := Page(id, Fields("", "", "", ""), "", false);
    PushedTitle(blank, id, card);
    assert View(Created(id, card)) == View(Pushed(blank, id, card));
  }

  // Whether every title settles is decided by the board itself: no run changes it.
  lemma TitlesFitIsKept(w: World, names: Names)
    requires Valid(w) && Unused(w, names)
    ensures TitlesFit(Run(w, names)) <==> TitlesFit(w)
  {
    hide Run, TitleFits, TitleReturns, HasPage, LidOf, Valid;
    var w' := Run(w, names);
    forall pid | pid in w.pages ensures pid in w'.pages && (TitleFits(w', pid) <==> TitleFits(w, pid)) {
      TitleNext(w, names, pid);
    }
    forall id | Creates(w, id)
      ensures names.page[id] in w'.pages
      ensures TitleFits(w', names.page[id]) <==> TitleReturns(w.locals[id].fields.title)
    {
      CreatedTitleNext(w, names, id);
    }
    forall pid | pid in w'.pages && pid !in w.pages
      ensures pid in names.creator && Creates(w, names.creator[pid]) && names.page[names.creator[pid]] == pid
    {
      PageOrigin(w, names, pid);
    }
    forall id | id in w'.locals ensures !Creates(w', id) { EveryCardHasPage(w, names, id); }
  }

  // After a run nothing but such a title can keep the board from settling.
  lemma SettlesAfterRun(w: World, names: Names)
    requires Valid(w) && Unused(w, names)
    ensures Settles(Run(w, names)) <==> TitlesFit(Run(w, names))
  {
    hide Run, Decide, Valid, Unused, HasPage, Pushed, View, Created, Sig, LidOf, Fits;
    var w' := Run(w, names);
    forall pid | pid in w'.pages ensures Decide(w', pid) in {Ignore, Agree, Pull} {
      OnlyPullsRemain(w, names, pid);
    }
    forall id | id in w'.locals ensures HasPage(w', id) {
      EveryCardHasPage(w, names, id);
    }
  }

  /** What remains after two completed runs, exactly: whatever was cut, padded or
      defaulted, the third writes nothing if and only if every title the first was
      about to take over, or to send in a form that comes back shortened, fits the
      card table. */
  lemma ThirdRunIsQuiet(w: World, first: Names, second: Names)
    requires Valid(w) && Unused(w, first) && !Blocked(w)
    requires Unused(Run(w, first), second) && !Blocked(Run(w, first))
    ensures Quiet(Run(Run(w, first), second)) <==> TitlesFit(w)
  {
    hide Run, Quiet, Valid, Unused, Blocked, Settles, TitlesFit;
    RunKeepsValid(w, first);
    SettlesAfterRun(w, first);
    TitlesFitIsKept(w, first);
    RunIsQuietIff(Run(w, first), second);
  }

  /** A quiet board stays as it is in every later run. */
  lemma QuietStays(w: World, names: Names)
    requires Valid(w) && Unused(w, names) && Quiet(w)
    ensures !Blocked(w) && Quiet(Run(w, names))
    ensures Run(w, names).locals == w.locals && Run(w, names).pages == w.pages
  {
    hide Run, Quiet, Valid, Unused, Blocked, Settles, PageQuiet, Pulls, Decide, Creates, HasPage;
    QuietSettles(w);
    RunIsQuietIff(w, names);
    var w' := Run(w, names);
    forall pid | pid in w.pages ensures pid in w'.pages && w'.pages[pid] == w.pages[pid] {
      QuietPageStays(w, names, pid);
    }
    forall pid | pid in w'.pages ensures pid in w.pages {
      if pid !in w.pages { PageOrigin(w, names, pid); QuietCreatesNone(w, names.creator[pid]); }
    }
    forall id | id in w.locals ensures id in w'.locals && w'.locals[id] == w.locals[id] {
      QuietCardStays(w, names, id);
    }
    forall id | id in w'.locals ensures id in w.locals {
      if id !in w.locals { CardOrigin(w, names, id); QuietImportsNone(w, names.importer[id]); }
    }
  }

  lemma QuietPageStays(w: World, names: Names, pid: string)
    requires Unused(w, names) && Quiet(w) && pid in w.pages
    ensures pid in Run(w, names).pages && Run(w, names).pages[pid] == w.pages[pid]
  {
    hide Run, Sig, View, LidOf;
    OldPage(w, names, pid);
  }

  lemma QuietCardStays(w: World, names: Names, id: string)
    requires Unused(w, names) && Quiet(w) && id in w.locals
    ensures id in Run(w, names).locals && Run(w, names).locals[id] == w.locals[id]
  {
    hide Run, Decide, LidOf;
    OldCard(w, names, id);
    if HasPage(w, id) { assert PageQuiet(w, PageOf(w, id)); }
  }

  lemma QuietCreatesNone(w: World, id: string)
    requires Quiet(w)
    ensures !Creates(w, id)
  {
  }

  lemma QuietImportsNone(w: World, pid: string)
    requires Quiet(w) && pid in w.pages
    ensures Decide(w, pid) != Import
  {
    hide Decide;
    assert PageQuiet(w, pid);
  }

  lemma QuietSettles(w: World)
    requires Quiet(w)
    ensures Settles(w) && !Blocked(w)
  {
    hide Sig, View, LidOf;
  }

  ghost function RunMany(w: World, runs: seq<Names>): World {
    if runs == [] then w else Run(RunMany(w, runs[..|runs| - 1]), runs[|runs| - 1])
  }

  // Every run of the sequence completes, with unused names for what it creates.
  ghost predicate AllComplete(w: World, runs: seq<Names>) {
    forall n: nat :: n < |runs| ==> Unused(RunMany(w, runs[..n]), runs[n]) && !Blocked(RunMany(w, runs[..n]))
  }

  /** Over every sequence of completed runs the board stays valid and a page
      without LocalID is never touched; and from the third run on either nothing is
      ever written or every run writes, as the titles of the first board say. */
  lemma {:induction false} RunsInSequence(w: World, runs: seq<Names>)
    requires Valid(w) && AllComplete(w, runs)
    ensures Valid(RunMany(w, runs))
    ensures forall pid :: pid in w.pages && LidOf(w.pages[pid]) == "" ==>
              pid in RunMany(w, runs).pages && RunMany(w, runs).pages[pid] == w.pages[pid]
    ensures TitlesFit(RunMany(w, runs)) <==> TitlesFit(w)
    ensures |runs| >= 1 ==> (Settles(RunMany(w, runs)) <==> TitlesFit(w))
    ensures |runs| >= 2 ==> (Quiet(RunMany(w, runs)) <==> TitlesFit(w))
  {
    hide Run, Valid, Unused, Blocked, Quiet, LidOf, Settles, TitlesFit;
    if runs != [] {
      var n := |runs| - 1;
      var prefix := runs[..n];
      CompletePrefix(w, runs);
      RunsInSequence(w, prefix);
      var mid := RunMany(w, prefix);
      RunKeepsValid(mid, runs[n]);
      forall pid | pid in mid.pages && LidOf(mid.pages[pid]) == "" ensures
        pid in Run(mid, runs[n]).pages && Run(mid, runs[n]).pages[pid] == mid.pages[pid]
      {
        PageWithoutLocalIdIsIgnored(mid, runs[n], pid);
      }
      TitlesFitIsKept(mid, runs[n]);
      SettlesAfterRun(mid, runs[n]);
      RunIsQuietIff(mid, runs[n]);
    }
  }

  lemma CompletePrefix(w: World, runs: seq<Names>)
    requires AllComplete(w, runs) && runs != []
    ensures var n := |runs| - 1;
            && AllComplete(w, runs[..n]) && Unused(RunMany(w, runs[..n]), runs[n]) && !Blocked(RunMany(w, runs[..n]))
  {
    hide RunMany, Unused, Blocked;
    var n := |runs| - 1;
    var prefix := runs[..n];
    assert forall m: nat :: m < n ==> prefix[..m] == runs[..m] && prefix[m] == runs[m];
  }

  /** The other side of that choice: a page whose title the card table cuts keeps
      its content over every sequence of completed runs and is pulled once more by
      each, so no further run is quiet. */
  lemma {:induction false} OverlongIsPulledForever(w: World, runs: seq<Names>, pid: string)
    requires Valid(w) && AllComplete(w, runs) && pid in w.pages && Overlong(w, pid)
    ensures pid in RunMany(w, runs).pages && View(RunMany(w, runs).pages[pid]) == View(w.pages[pid])
    ensures Overlong(RunMany(w, runs), pid) && Decide(RunMany(w, runs), pid) == Pull
    ensures !Quiet(RunMany(w, runs))
  {
    hide Run, Valid, Unused, Blocked, LidOf, View, TitleFits, Decide;
    if runs != [] {
      var n := |runs| - 1;
      CompletePrefix(w, runs);
      OverlongIsPulledForever(w, runs[..n], pid);
      RunsInSequence(w, runs[..n]);
      OverlongStays(RunMany(w, runs[..n]), runs[n], pid);
    }
    assert !PageQuiet(RunMany(w, runs), pid);
  }

  // ---- Failing boards ----------------------------------------------------------------------------------

  /** An import the store had to give a priority is refused as an update by the
      next run: the page still has none. */
  lemma DefaultedImportBlocks(w: World, names: Names, pid: string)
    requires Valid(w) && Unused(w, names) && pid in w.pages && Decide(w, pid) == Import &&
             View(w.pages[pid]).priority == ""
    ensures pid in Run(w, names).pages && Refused(Run(w, names), pid)
  {
    hide Run, Sig, View, Written, PageAfter, LidOf, HasPage, OnInsert, OnUpdate, Strip;
    OldPage(w, names, pid);
    PageAfterFrame(w, names, pid);
    LidAfter(w, names, pid);
    NewCard(w, names, pid);
    StoredMeaning(w, names, names.card[pid]);
    InsertShows(View(w.pages[pid]));
  }

  const PLAIN := Fields("a", "normal", "", "")

  // One live page under LocalID "c", with the names a run may need.
  function OnePage(locals: map<string, Card>, f: Fields, stored: map<string, string>): World {
    World(locals, map["p" := Page("c", f, "ready", false)], stored)
  }

  const ONE_NAMES := Names(map["p" := "n"], map["n" := "p"], map["c" := "q"], map["q" := "c"])

  lemma OnePageIsValid(locals: map<string, Card>, f: Fields, stored: map<string, string>)
    requires locals.Keys <= {"c"} && stored.Keys <= {"c"}
    requires "c" in locals ==> locals["c"].fields.priority in PRIORITIES
    ensures var w := OnePage(locals, f, stored);
            Valid(w) && Unused(w, ONE_NAMES) && PairsWith(w, "p", "c") && PageOf(w, "c") == "p"
  {
    var w := OnePage(locals, f, stored);
    StripFixed("c");
    assert PairsWith(w, "p", "c");
    forall pid, id | PairsWith(w, pid, id) ensures pid == "p" && id == "c" {
    }
  }

  // A page the board does not know, without a priority.
  const UNRANKED := OnePage(map[], PLAIN.(priority := ""), map[])

  lemma UnrankedIsImported()
    ensures Valid(UNRANKED) && Unused(UNRANKED, ONE_NAMES)
    ensures Decide(UNRANKED, "p") == Import && View(UNRANKED.pages["p"]) == PLAIN.(priority := "")
  {
    OnePageIsValid(map[], PLAIN.(priority := ""), map[]);
    StripFixed("a");
    StripFixed("");
    StripFixed("c");
    hide Sig, HasPage, Valid, Unused;
  }

  /** Some run completes and leaves a board on which no run completes: it
      imported a page without a priority. */
  lemma SomeImportBlocks()
    ensures Valid(UNRANKED) && Unused(UNRANKED, ONE_NAMES) && !Blocked(UNRANKED) && Blocked(Run(UNRANKED, ONE_NAMES))
  {
    UnrankedIsImported();
    hide Run, HasPage, Valid, Unused, View, Decide;
    assert UNRANKED.pages.Keys == {"p"};
    DefaultedImportBlocks(UNRANKED, ONE_NAMES, "p");
  }

  // A card last agreed on with content `agreed`.
  function Paired(local: Fields, remote: Fields, agreed: Fields): World {
    OnePage(map["c" := Card(local, "ready")], remote, map["c" := Sig(agreed)])
  }

  lemma PairedDecision(local: Fields, remote: Fields, agreed: Fields)
    requires local.priority in PRIORITIES && Clean(remote)
    requires Sig(local) == Sig(remote) <==> local == remote
    ensures var w := Paired(local, remote, agreed);
            && Valid(w) && Unused(w, ONE_NAMES) && View(w.pages["p"]) == remote
            && Decide(w, "p") == if local == remote then Agree else if Sig(agreed) == Sig(local) then Pull
                                 else if Sig(agreed) == Sig(remote) then Push else Pull
  {
    OnePageIsValid(map["c" := Card(local, "ready")], remote, map["c" := Sig(agreed)]);
    hide Sig;
    StripFixed(remote.title);
    StripFixed(remote.assignee);
    StripFixed(remote.description);
  }

  /** Any local edit after a pull is overwritten by the next run, whether or not
      the pull brought the pair together. */
  lemma EditAfterPullIsLost(w: World, names: Names, pid: string, edited: Fields)
    requires Valid(w) && Unused(w, names) && !Blocked(w) && pid in w.pages && Decide(w, pid) == Pull
    requires Sig(edited) != Sig(View(w.pages[pid]))
    ensures var id, w' := LidOf(w.pages[pid]), Run(w, names);
            && id in w'.locals && w'.locals[id].fields == OnUpdate(w.locals[id].fields, View(w.pages[pid]))
            && HasPage(w', id) && PageOf(w', id) == pid
            && Decide(w'.(locals := w'.locals[id := w'.locals[id].(fields := edited)]), pid) == Pull
  {
    hide Sig, Run, View, LidOf, PageAfter, Blocked, HasPage, OnUpdate;
    var id, w' := LidOf(w.pages[pid]), Run(w, names);
    PageAfterFrame(w, names, pid);
    OldPage(w, names, pid);
    LidAfter(w, names, pid);
    PairedCard(w, names, pid);
    RunKeepsValid(w, names);
    PageOfUnique(w', pid);
    StoredMeaning(w, names, id);
    PullDiffers(w, pid);
  }

  lemma PullDiffers(w: World, pid: string)
    requires pid in w.pages && Decide(w, pid) == Pull
    ensures LidOf(w.pages[pid]) in w.locals
    ensures Sig(View(w.pages[pid])) != Sig(w.locals[LidOf(w.pages[pid])].fields)
  {
    hide Sig, View, LidOf;
  }

  /** A Notion edit is pulled; the local edit that follows is then overwritten by
      the next run, although Notion has not changed again. */
  lemma SomeEditIsLost()
    ensures var w, edited := Paired(PLAIN, PLAIN.(title := "b"), PLAIN), PLAIN.(title := "z");
            var w' := Run(w, ONE_NAMES);
            && Valid(w) && Unused(w, ONE_NAMES) && !Blocked(w) && "c" in w'.locals && HasPage(w', "c")
            && w'.locals["c"].fields == PLAIN.(title := "b")
            && PageOf(w', "c") in w'.pages
            && Decide(w'.(locals := w'.locals["c" := w'.locals["c"].(fields := edited)]), PageOf(w', "c")) == Pull
  {
    var remote, edited := PLAIN.(title := "b"), PLAIN.(title := "z");
    var w := Paired(PLAIN, remote, PLAIN);
    SigInjective(PLAIN, remote);
    SigInjective(remote, edited);
    PairedDecision(PLAIN, remote, PLAIN);
    StripFixed("c");
    hide Sig, Run, Decide, View, Strip, HasPage, Unused, Valid;
    EditAfterPullIsLost(w, ONE_NAMES, "p", edited);
  }

  // One character over the limit.
  const LONG_TITLE: string := seq(TITLE_LIMIT + 1, _ => 'a')

  // The board of a card whose title was edited in Notion, before and between runs.
  ghost predicate Stuck(w: World) {
    && Valid(w) && w.pages.Keys == {"p"} && w.locals.Keys == {"c"} && w.stored.Keys == {"c"}
    && LidOf(w.pages["p"]) == "c" && Overlong(w, "p") && Updatable(View(w.pages["p"]))
  }

  lemma StuckUnused(w: World)
    requires Stuck(w)
    ensures Unused(w, ONE_NAMES)
  {
    hide Overlong, View, Updatable, Strip;
    StripFixed("n");
    assert LidOf(w.pages["p"]) != "n";
    assert !HasPage(w, "n");
  }

  lemma StuckStays(w: World)
    requires Stuck(w)
    ensures Unused(w, ONE_NAMES) && !Blocked(w) && Stuck(Run(w, ONE_NAMES))
  {
    hide Run, Valid, Unused, View, Updatable, LidOf, TitleFits, Decide, HasPage;
    var w' := Run(w, ONE_NAMES);
    StuckUnused(w);
    assert !Blocked(w);
    RunKeepsValid(w, ONE_NAMES);
    OverlongStays(w, ONE_NAMES, "p");
    PairedCardAfterPull(w, ONE_NAMES, "p");
    StuckKeys(w);
  }

  lemma StuckKeys(w: World)
    requires Stuck(w) && Unused(w, ONE_NAMES)
    ensures var w' := Run(w, ONE_NAMES); w'.pages.Keys == {"p"} && w'.locals.Keys == {"c"} && w'.stored.Keys == {"c"}
  {
    hide Run, View, Updatable, LidOf, TitleFits, Decide;
    var w' := Run(w, ONE_NAMES);
    assert PairsWith(w, "p", "c");
    OldPage(w, ONE_NAMES, "p");
    OldCard(w, ONE_NAMES, "c");
    forall pid | pid in w'.pages ensures pid == "p" {
      if pid !in w.pages { PageOrigin(w, ONE_NAMES, pid); }
    }
    forall id | id in w'.locals ensures id == "c" {
      if id !in w.locals { CardOrigin(w, ONE_NAMES, id); }
    }
    StuckStored(w);
  }

  lemma StuckStored(w: World)
    requires Stuck(w)
    ensures Run(w, ONE_NAMES).stored.Keys == {"c"}
  {
    hide LocalsUpTo, PagesUpTo, View, Updatable, LidOf, TitleFits, Decide, Valid;
    assert Run(w, ONE_NAMES).stored == StoredAfter(w);
    forall id | HasPage(w, id) ensures id == "c" {
    }
  }

  lemma {:induction false} StuckForever(w: World, n: nat)
    requires Stuck(w)
    ensures AllComplete(w, seq(n, _ => ONE_NAMES)) && Stuck(RunMany(w, seq(n, _ => ONE_NAMES)))
  {
    hide Run, Stuck, Blocked, Unused;
    if n > 0 {
      StuckForever(w, n - 1);
      var runs, fewer := seq(n, _ => ONE_NAMES), seq(n - 1, _ => ONE_NAMES);
      assert runs[..n - 1] == fewer;
      forall m: nat | m < n ensures Unused(RunMany(w, runs[..m]), runs[m]) && !Blocked(RunMany(w, runs[..m])) {
        if m < n - 1 {
          assert runs[..m] == fewer[..m];
        } else {
          StuckStays(RunMany(w, fewer));
        }
      }
      StuckStays(RunMany(w, fewer));
    }
  }

  const EDITED := Paired(PLAIN, PLAIN.(title := LONG_TITLE), PLAIN)

  lemma EditedIsStuck()
    ensures Stuck(EDITED) && WritesReadBack(EDITED)
  {
    hide Strip, HasPage, Unused, Valid, WritesReadBack;
    var remote := PLAIN.(title := LONG_TITLE);
    SigInjective(PLAIN, remote);
    PairedDecision(PLAIN, remote, PLAIN);
    StripFixed("c");
    assert WritesReadBack(EDITED) by { EditedWritesNothing(); }
  }

  lemma EditedWritesNothing()
    requires "p" in EDITED.pages && LidOf(EDITED.pages["p"]) == "c" && Decide(EDITED, "p") == Pull
    ensures WritesReadBack(EDITED)
  {
    hide Strip, Sig, View, Decide, LidOf;
    assert EDITED.pages.Keys == {"p"} && EDITED.locals.Keys == {"c"};
    assert PairsWith(EDITED, "p", "c");
  }

  /** The mildest case: a title edited in Notion to one character more than the
      limit. Nothing is refused and nothing is sent, yet every run pulls the page
      again, however many have completed. */
  lemma SomeTitleIsPulledForever(n: nat)
    ensures Valid(EDITED) && WritesReadBack(EDITED) && AllComplete(EDITED, seq(n, _ => ONE_NAMES))
    ensures var w := RunMany(EDITED, seq(n, _ => ONE_NAMES));
            "p" in w.pages && Updatable(View(w.pages["p"])) && Decide(w, "p") == Pull && !Quiet(w)
  {
    hide Valid, AllComplete, View, Updatable, Decide, LidOf, WritesReadBack, TitleFits, Sig;
    EditedIsStuck();
    StuckForever(EDITED, n);
    assert !PageQuiet(RunMany(EDITED, seq(n, _ => ONE_NAMES)), "p");
  }

  /** A local title with a trailing blank is pushed, comes back without it, and is
      overwritten by the next run. */
  lemma SomePushIsPulledBack()
    ensures var w := Paired(PLAIN.(title := "b "), PLAIN, PLAIN);
            && Valid(w) && Unused(w, ONE_NAMES) && !Blocked(w) && Decide(w, "p") == Push
            && "p" in Run(w, ONE_NAMES).pages && Decide(Run(w, ONE_NAMES), "p") == Pull
  {
    var local := PLAIN.(title := "b ");
    var w := Paired(local, PLAIN, PLAIN);
    SigInjective(local, PLAIN);
    PairedDecision(local, PLAIN, PLAIN);
    assert !Trimmed("b ");
    PushReadsBack(w.pages["p"], "c", w.locals["c"]);
    StripFixed("c");
    UnfaithfulPushIsPulledBack(w, ONE_NAMES, "p");
  }

  // ---- The program ------------------------------------------------------------------------------------

  // What one page does to the board.
  function BoardAfter(w: World, names: Names, pid: string, locals: map<string, Card>): map<string, Card>
    requires pid in w.pages && pid in names.card
  {
    var p := w.pages[pid];
    var lid := LidOf(p);
    match Decide(w, pid)
    case Pull => locals[lid := PulledCard(w.locals[lid], p)]
    case Import => locals[names.card[pid] := Card(OnInsert(View(p)), "ready")]
    case _ => locals
  }

  lemma PullsStep(w: World, done: set<string>, pid: string, id: string)
    requires Valid(w) && pid in w.pages && LidOf(w.pages[pid]) != "" && LidOf(w.pages[pid]) !in done
    ensures Pulls(w, done + {LidOf(w.pages[pid])}, id) <==>
              Pulls(w, done, id) || (id == LidOf(w.pages[pid]) && Decide(w, pid) == Pull)
    ensures id == LidOf(w.pages[pid]) ==> HasPage(w, id) && PageOf(w, id) == pid
  {
    hide Decide, LidOf;
    PageOfUnique(w, pid);
  }

  lemma ImportsStep(w: World, names: Names, done: set<string>, pid: string, id: string)
    requires Valid(w) && Unused(w, names) && pid in w.pages && LidOf(w.pages[pid]) != "" && LidOf(w.pages[pid]) !in done
    ensures Imports(w, names, done + {LidOf(w.pages[pid])}, id) <==>
              Imports(w, names, done, id) || (Decide(w, pid) == Import && id == names.card[pid])
  {
    hide Decide, LidOf;
    if Imports(w, names, done + {LidOf(w.pages[pid])}, id) && !Imports(w, names, done, id) {
      assert PairsWith(w, pid, LidOf(w.pages[pid]));
      assert PairsWith(w, names.importer[id], LidOf(w.pages[pid]));
    }
  }

  lemma PullIsPaired(w: World, pid: string)
    requires pid in w.pages
    ensures Decide(w, pid) == Pull ==> LidOf(w.pages[pid]) in w.locals
  {
    hide Sig, View, LidOf;
  }

  lemma ImportIsUnpaired(w: World, pid: string)
    requires pid in w.pages
    ensures Decide(w, pid) == Import ==> LidOf(w.pages[pid]) !in w.locals
  {
    hide Sig, View, LidOf;
  }

  // One card, before and after one more page.
  lemma CardStep(w: World, names: Names, done: set<string>, pid: string, id: string)
    requires Valid(w) && Unused(w, names) && pid in w.pages && LidOf(w.pages[pid]) != "" && LidOf(w.pages[pid]) !in done
    ensures var before, after := LocalsUpTo(w, names, done), LocalsUpTo(w, names, done + {LidOf(w.pages[pid])});
            && (id in after <==> id in BoardAfter(w, names, pid, before))
            && (id in after ==> after[id] == BoardAfter(w, names, pid, before)[id])
  {
    hide View, LidOf, Sig, Pulls, Imports, HasPage, PairsWith, OnInsert, PulledCard, Decide;
    PullsStep(w, done, pid, id);
    ImportsStep(w, names, done, pid, id);
    PullIsPaired(w, pid);
    ImportIsUnpaired(w, pid);
  }

  lemma LocalsStep(w: World, names: Names, done: set<string>, pid: string)
    requires Valid(w) && Unused(w, names) && pid in w.pages && LidOf(w.pages[pid]) != "" && LidOf(w.pages[pid]) !in done
    ensures LocalsUpTo(w, names, done + {LidOf(w.pages[pid])}) == BoardAfter(w, names, pid, LocalsUpTo(w, names, done))
  {
    hide LocalsUpTo, BoardAfter, LidOf;
    var before, after := LocalsUpTo(w, names, done), LocalsUpTo(w, names, done + {LidOf(w.pages[pid])});
    var board := BoardAfter(w, names, pid, before);
    forall id ensures (id in after <==> id in board) && (id in after ==> after[id] == board[id]) {
      CardStep(w, names, done, pid, id);
    }
  }

  lemma PagesStep(w: World, names: Names, done: set<string>, pid: string)
    requires Valid(w) && Unused(w, names) && pid in w.pages && LidOf(w.pages[pid]) != "" && LidOf(w.pages[pid]) !in done
    ensures PagesUpTo(w, names, done + {LidOf(w.pages[pid])}, {}) ==
              PagesUpTo(w, names, done, {})[pid := PageAfter(w, names, pid)]
  {
    hide PageAfter, LidOf, Created;
    PageOfUnique(w, pid);
    forall other | other in w.pages && LidOf(w.pages[other]) == LidOf(w.pages[pid]) ensures other == pid {
      PageOfUnique(w, other);
    }
  }

  lemma MadeStep(w: World, names: Names, done: set<string>, made: set<string>, id: string)
    requires Unused(w, names) && id in w.locals && id !in made
    ensures PagesUpTo(w, names, done, made + {id}) ==
              if HasPage(w, id) then PagesUpTo(w, names, done, made)
              else PagesUpTo(w, names, done, made)[names.page[id] := Created(id, w.locals[id])]
  {
    hide PageAfter, LidOf, Created, HasPage;
    var before, after := PagesUpTo(w, names, done, made), PagesUpTo(w, names, done, made + {id});
    forall pid ensures Makes(w, names, made + {id}, pid) <==>
                         Makes(w, names, made, pid) || (!HasPage(w, id) && pid == names.page[id]) {
    }
  }

  // Pages without a LocalID take no part.
  lemma OnlyLocalIdsCount(w: World, names: Names, byLid: map<string, string>, made: set<string>)
    requires Valid(w) && Unused(w, names) && Indexes(w, byLid)
    ensures LocalsUpTo(w, names, byLid.Keys) == LocalsUpTo(w, names, Lids(w))
    ensures PagesUpTo(w, names, byLid.Keys, made) == PagesUpTo(w, names, Lids(w), made)
  {
    PagesCount(w, names, byLid, made);
    LocalsCount(w, names, byLid);
  }

  lemma PagesCount(w: World, names: Names, byLid: map<string, string>, made: set<string>)
    requires Valid(w) && Unused(w, names) && Indexes(w, byLid)
    ensures PagesUpTo(w, names, byLid.Keys, made) == PagesUpTo(w, names, Lids(w), made)
  {
    hide View, Created, PageAfter, Decide, Indexes, HasPage, Makes, LidOf, Lids;
    forall pid | pid in w.pages
      ensures LidOf(w.pages[pid]) in Lids(w)
      ensures LidOf(w.pages[pid]) in byLid || PageAfter(w, names, pid) == w.pages[pid]
    {
      PageCounts(w, names, byLid, pid);
    }
  }

  lemma LocalsCount(w: World, names: Names, byLid: map<string, string>)
    requires Valid(w) && Unused(w, names) && Indexes(w, byLid)
    ensures LocalsUpTo(w, names, byLid.Keys) == LocalsUpTo(w, names, Lids(w))
  {
    hide View, Pulls, Imports, Indexes, HasPage, LidOf, Lids, Unused;
    forall id
      ensures Pulls(w, byLid.Keys, id) <==> Pulls(w, Lids(w), id)
      ensures Imports(w, names, byLid.Keys, id) <==> Imports(w, names, Lids(w), id)
    {
      CardCounts(w, names, byLid, id);
    }
    assert LocalsUpTo(w, names, byLid.Keys).Keys == LocalsUpTo(w, names, Lids(w)).Keys;
  }

  lemma PageCounts(w: World, names: Names, byLid: map<string, string>, pid: string)
    requires Valid(w) && Unused(w, names) && Indexes(w, byLid) && pid in w.pages
    ensures LidOf(w.pages[pid]) in Lids(w)
    ensures LidOf(w.pages[pid]) in byLid || (Decide(w, pid) == Ignore && PageAfter(w, names, pid) == w.pages[pid])
  {
    hide View, Sig, Strip;
    if LidOf(w.pages[pid]) != "" {
      PageOfUnique(w, pid);
    }
  }

  lemma CardCounts(w: World, names: Names, byLid: map<string, string>, id: string)
    requires Valid(w) && Unused(w, names) && Indexes(w, byLid)
    ensures Pulls(w, byLid.Keys, id) <==> Pulls(w, Lids(w), id)
    ensures Imports(w, names, byLid.Keys, id) <==> Imports(w, names, Lids(w), id)
  {
    hide View, Sig, Decide, LidOf;
    forall pid | pid in w.pages { PageCounts(w, names, byLid, pid); }
    if HasPage(w, id) {
      assert LidOf(w.pages[PageOf(w, id)]) in Lids(w);
    }
  }

  lemma NothingYet(w: World, names: Names)
    requires Unused(w, names)
    ensures LocalsUpTo(w, names, {}) == w.locals && PagesUpTo(w, names, {}, {}) == w.pages
  {
    NoCardsYet(w, names);
    NoPagesYet(w, names);
  }

  lemma NoCardsYet(w: World, names: Names)
    ensures LocalsUpTo(w, names, {}) == w.locals
  {
    hide View, HasPage, LidOf, Decide;
  }

  lemma NoPagesYet(w: World, names: Names)
    requires Unused(w, names)
    ensures PagesUpTo(w, names, {}, {}) == w.pages
  {
    hide PageAfter, Created, HasPage, LidOf;
  }

  // Handling other pages leaves this page and its card as listed.
  lemma StillAsListed(w: World, names: Names, done: set<string>, pid: string)
    requires Unused(w, names) && pid in w.pages && LidOf(w.pages[pid]) !in done
    ensures pid in PagesUpTo(w, names, done, {}) && PagesUpTo(w, names, done, {})[pid] == w.pages[pid]
    ensures var lid := LidOf(w.pages[pid]);
            lid in w.locals ==> lid in LocalsUpTo(w, names, done) && LocalsUpTo(w, names, done)[lid] == w.locals[lid]
  {
    hide View, PageAfter, Created, HasPage, LidOf, Decide;
  }

  // The pages by the LocalID they carry.
  ghost predicate Indexes(w: World, byLid: map<string, string>) {
    && (forall id :: id in byLid <==> HasPage(w, id))
    && (forall id :: id in byLid ==> PairsWith(w, byLid[id], id) && byLid[id] == PageOf(w, id))
  }

  ghost predicate QuietPages(w: World, byLid: map<string, string>, ids: set<string>) {
    forall id :: id in ids ==> id in byLid && byLid[id] in w.pages && PageQuiet(w, byLid[id])
  }

  predicate Keeps(a: Act) { a != Ignore && a != Archive }

  // The signatures the first loop leaves behind for the LocalIDs in `done`.
  ghost predicate Remembers(w: World, byLid: map<string, string>, done: set<string>, m: map<string, string>) {
    && (forall id :: id in m ==> id in done)
    && (forall id :: id in done ==> id in byLid && byLid[id] in w.pages && (id in m <==> Keeps(Decide(w, byLid[id]))))
    && (forall id :: id in m && Decide(w, byLid[id]) == Import ==> m[id] == Sig(View(w.pages[byLid[id]])))
  }

  function CardSigs(w: World, ids: set<string>): map<string, string> {
    map id | id in ids && id in w.locals :: Sig(w.locals[id].fields)
  }

  lemma Indexed(w: World, byLid: map<string, string>, id: string)
    requires Indexes(w, byLid) && id in byLid
    ensures byLid[id] in w.pages && id != "" && LidOf(w.pages[byLid[id]]) == id
  {
  }

  lemma QuietPagesStep(w: World, byLid: map<string, string>, ids: set<string>, id: string)
    requires id in byLid && byLid[id] in w.pages
    ensures QuietPages(w, byLid, ids + {id}) <==> QuietPages(w, byLid, ids) && PageQuiet(w, byLid[id])
  {
    hide PageQuiet;
  }

  lemma NothingRemembered(w: World, byLid: map<string, string>)
    ensures Remembers(w, byLid, {}, map[]) && QuietPages(w, byLid, {})
  {
  }

  lemma RemembersStep(w: World, byLid: map<string, string>, done: set<string>, m: map<string, string>, id: string,
                      sig: Option<string>)
    requires Remembers(w, byLid, done, m) && id !in done && id in byLid && byLid[id] in w.pages
    requires sig.Some? <==> Keeps(Decide(w, byLid[id]))
    requires Decide(w, byLid[id]) == Import ==> sig == Some(Sig(View(w.pages[byLid[id]])))
    ensures Remembers(w, byLid, done + {id}, if sig.Some? then m[id := sig.value] else m)
  {
    hide View, Sig, Decide;
  }

  lemma ListedCard(w: World, names: Names, byLid: map<string, string>, id: string)
    requires Unused(w, names) && Indexes(w, byLid) && id in w.locals
    ensures id in names.page && (id in byLid <==> HasPage(w, id))
  {
  }

  lemma AddedSig(w: World, remembered: map<string, string>, made: set<string>, id: string)
    requires id in w.locals
    ensures (remembered + CardSigs(w, made))[id := Sig(w.locals[id].fields)] == remembered + CardSigs(w, made + {id})
  {
    CardSigsStep(w, made, id);
  }

  lemma NoCardSigs(w: World, remembered: map<string, string>)
    ensures remembered + CardSigs(w, {}) == remembered
  {
  }

  lemma CardSigsStep(w: World, ids: set<string>, id: string)
    requires id in w.locals
    ensures CardSigs(w, ids + {id}) == CardSigs(w, ids)[id := Sig(w.locals[id].fields)]
  {
    hide Sig;
  }

  lemma RememberedIs(w: World, byLid: map<string, string>, m: map<string, string>)
    requires Indexes(w, byLid) && Remembers(w, byLid, byLid.Keys, m)
    ensures m + CardSigs(w, w.locals.Keys) == StoredAfter(w)
  {
    hide View, Sig, LidOf;
    forall id | HasPage(w, id) ensures id in Lids(w) {
      assert LidOf(w.pages[PageOf(w, id)]) == id;
    }
  }

  lemma QuietIs(w: World, byLid: map<string, string>)
    requires Valid(w) && Indexes(w, byLid)
    ensures Quiet(w) <==> QuietPages(w, byLid, byLid.Keys) && w.locals.Keys <= byLid.Keys
  {
    hide View, Sig, LidOf;
    forall pid | pid in w.pages
      ensures Decide(w, pid) == Ignore || (LidOf(w.pages[pid]) in byLid && byLid[LidOf(w.pages[pid])] == pid)
    {
      if LidOf(w.pages[pid]) != "" {
        PageOfUnique(w, pid);
      }
    }
  }

  // The pages with these LocalIDs were not refused.
  ghost predicate Accepted(w: World, byLid: map<string, string>, ids: set<string>) {
    forall id :: id in ids ==> id in byLid && byLid[id] in w.pages && !Refused(w, byLid[id])
  }

  // The LocalIDs among `ids` whose page is live.
  ghost predicate Seen(w: World, byLid: map<string, string>, ids: set<string>, seen: set<string>) {
    forall id :: id in seen <==> id in ids && id in byLid && byLid[id] in w.pages && !w.pages[byLid[id]].archived
  }

  lemma NothingAccepted(w: World, byLid: map<string, string>)
    ensures Accepted(w, byLid, {}) && Seen(w, byLid, {}, {})
  {
  }

  lemma AcceptedStep(w: World, byLid: map<string, string>, ids: set<string>, id: string, seen: set<string>)
    requires Accepted(w, byLid, ids) && Seen(w, byLid, ids, seen) && id in byLid && byLid[id] in w.pages
    ensures !Refused(w, byLid[id]) ==> Accepted(w, byLid, ids + {id})
    ensures Seen(w, byLid, ids + {id}, if w.pages[byLid[id]].archived then seen else seen + {id})
  {
    hide Refused;
  }

  lemma BlockedIs(w: World, byLid: map<string, string>, done: set<string>)
    requires Valid(w) && Indexes(w, byLid) && Accepted(w, byLid, done)
    ensures Blocked(w) <==> exists id :: id in byLid && byLid[id] in w.pages && Refused(w, byLid[id])
    ensures done == byLid.Keys ==> !Blocked(w)
    ensures Spares(w, done)
  {
    hide View, Sig, LidOf, Updatable, Creatable;
    forall pid | pid in w.pages && Refused(w, pid)
      ensures LidOf(w.pages[pid]) in byLid && byLid[LidOf(w.pages[pid])] == pid
    {
      PageOfUnique(w, pid);
    }
  }

  class Sync {
    var locals: map<string, Card>
    var pages: map<string, Page>
    var stored: map<string, string>
    var writes: nat

    constructor (w: World)
      ensures Snapshot() == w && writes == 0
    {
      locals, pages, stored, writes := w.locals, w.pages, w.stored, 0;
    }

    function Snapshot(): World
      reads this
    {
      World(locals, pages, stored)
    }

    method PagesByLocalId() returns (byLid: map<string, string>)
      requires Valid(Snapshot())
      ensures Indexes(Snapshot(), byLid)
    {
      byLid := map[];
      var todo := pages.Keys;
      while todo != {}
        invariant todo <= pages.Keys
        invariant forall id :: id in byLid ==> PairsWith(Snapshot(), byLid[id], id)
        invariant forall pid :: pid in pages && pid !in todo && LidOf(pages[pid]) != "" ==> LidOf(pages[pid]) in byLid
        decreases |todo|
      {
        var pid :| pid in todo;
        var lid := LidOf(pages[pid]);
        if lid != "" {
          byLid := byLid[lid := pid];
        }
        todo := todo - {pid};
      }
    }

    // The dashboard's answer to a content update: refused for a null title or
    // priority; a new title over the limit is cut.
    method LocalUpdate(id: string, f: Fields) returns (ok: bool)
      requires id in locals
      modifies this`locals, this`writes
      ensures ok == Updatable(f)
      ensures locals ==
                if ok then old(locals)[id := old(locals)[id].(fields := OnUpdate(old(locals)[id].fields, f))]
                else old(locals)
      ensures writes == if ok then old(writes) + 1 else old(writes)
    {
      ok := Updatable(f);
      if ok {
        var was := locals[id].fields.title;
        locals := locals[id := locals[id].(fields := f)];
        if f.title != was && |f.title| > TITLE_LIMIT {
          locals := locals[id := locals[id].(fields := f.(title := Shortened(f.title)))];
        }
        writes := writes + 1;
      }
    }

    // The dashboard's answer to a new card: a missing priority becomes the default,
    // a title over the limit is cut.
    method LocalCreate(cid: string, f: Fields) returns (ok: bool)
      modifies this`locals, this`writes
      ensures ok == Creatable(f)
      ensures locals == if ok then old(locals)[cid := Card(OnInsert(f), "ready")] else old(locals)
      ensures writes == if ok then old(writes) + 1 else old(writes)
    {
      ok := Creatable(f);
      if ok {
        locals := locals[cid := Card(Defaulted(f), "ready")];
        if |f.title| > TITLE_LIMIT {
          locals := locals[cid := locals[cid].(fields := locals[cid].fields.(title := Shortened(f.title)))];
        }
        writes := writes + 1;
      }
    }

    // One page of the first loop: `before` is what the run listed at its start.
    // Not completed when the local store refuses the page; otherwise returns the
    // signature to remember, if any.
    method ReconcilePage(before: World, names: Names, pid: string) returns (completed: bool, remembered: Option<string>)
      requires pid in before.pages && pid in names.card && LidOf(before.pages[pid]) != ""
      requires pid in pages && pages[pid] == before.pages[pid]
      requires LidOf(before.pages[pid]) in before.locals ==>
                 LidOf(before.pages[pid]) in locals &&
                 locals[LidOf(before.pages[pid])] == before.locals[LidOf(before.pages[pid])]
      modifies this`locals, this`pages, this`writes
      ensures completed <==> !Refused(before, pid)
      ensures !completed ==> pages == old(pages) && locals == old(locals) && writes == old(writes)
      ensures completed ==> pages == old(pages)[pid := PageAfter(before, names, pid)]
      ensures completed ==> locals == BoardAfter(before, names, pid, old(locals))
      ensures completed ==> writes >= old(writes) && (writes == old(writes) <==> PageQuiet(before, pid))
      ensures completed ==> (remembered.Some? <==> Keeps(Decide(before, pid)))
      ensures completed && Decide(before, pid) == Import ==> remembered == Some(Sig(View(before.pages[pid])))
    {
      hide Strip, Sig, View, Written, LidOf, Cut, Updatable, Creatable, OnInsert, OnUpdate;
      var page := before.pages[pid];
      var lid := LidOf(page);
      completed := true;
      if page.archived {
        return true, None;
      }
      var sig := Sig(View(page));
      remembered := Some(sig);
      if lid in before.locals {
        var card := before.locals[lid];
        var localSig := Sig(card.fields);
        var prev := if lid in before.stored then Some(before.stored[lid]) else None;
        if localSig != sig && prev == Some(localSig) {
          completed := LocalUpdate(lid, View(page));
        } else if localSig != sig && prev == Some(sig) {
          pages := pages[pid := Pushed(pages[pid], lid, card)];
          writes := writes + 1;
          remembered := Some(localSig);
        } else if localSig != sig {
          completed := LocalUpdate(lid, View(page));
        }
        if !completed {
          return;
        }
        if card.state in WORKFLOW_STATES && page.status != card.state {
          pages := pages[pid := pages[pid].(status := card.state)];
          writes := writes + 1;
        }
      } else if lid in before.stored {
        pages := pages[pid := pages[pid].(archived := true)];
        writes := writes + 1;
        remembered := None;
      } else {
        var cid := names.card[pid];
        completed := LocalCreate(cid, View(page));
        if !completed {
          return;
        }
        pages := pages[pid := pages[pid].(localId := cid)];
        pages := pages[pid := pages[pid].(status := "ready")];
        writes := writes + 2;
      }
    }

    // The body of the first loop. `done` are the LocalIDs handled so far.
    method HandlePage(before: World, names: Names, byLid: map<string, string>, ghost done: set<string>, lid: string,
                      remembered: map<string, string>)
      returns (completed: bool, newStored: map<string, string>)
      requires Valid(before) && Unused(before, names) && Indexes(before, byLid) && lid in byLid && lid !in done
      requires locals == LocalsUpTo(before, names, done) && pages == PagesUpTo(before, names, done, {})
      requires Remembers(before, byLid, done, remembered)
      modifies this`locals, this`pages, this`writes
      ensures byLid[lid] in before.pages && (completed <==> !Refused(before, byLid[lid]))
      ensures !completed ==> pages == old(pages) && locals == old(locals)
      ensures completed ==> locals == LocalsUpTo(before, names, done + {lid})
      ensures completed ==> pages == PagesUpTo(before, names, done + {lid}, {})
      ensures completed ==> Remembers(before, byLid, done + {lid}, newStored)
      ensures writes >= old(writes)
      ensures completed ==>
                (QuietPages(before, byLid, done + {lid}) <==> QuietPages(before, byLid, done) && writes == old(writes))
    {
      hide LocalsUpTo, PagesUpTo, PageAfter, Decide, View, Sig, LidOf, BoardAfter, PageQuiet, HasPage, Remembers,
        QuietPages, Indexes, Keeps, PairsWith, Refused;
      var pid := byLid[lid];
      Indexed(before, byLid, lid);
      StillAsListed(before, names, done, pid);
      LocalsStep(before, names, done, pid);
      PagesStep(before, names, done, pid);
      QuietPagesStep(before, byLid, done, lid);
      var sig;
      completed, sig := ReconcilePage(before, names, pid);
      newStored := remembered;
      if completed {
        RemembersStep(before, byLid, done, remembered, lid, sig);
        newStored := if sig.Some? then remembered[lid := sig.value] else remembered;
      }
    }

    // First loop: Notion to local, until a page is refused. Returns the
    // signatures to remember and the LocalIDs of the live pages.
    method FromNotion(before: World, names: Names, byLid: map<string, string>)
      returns (completed: bool, newStored: map<string, string>, seen: set<string>, ghost done: set<string>)
      requires Snapshot() == before && Valid(before) && Unused(before, names) && Indexes(before, byLid)
      modifies this`locals, this`pages, this`writes
      ensures done <= byLid.Keys && Accepted(before, byLid, done)
      ensures locals == LocalsUpTo(before, names, done) && pages == PagesUpTo(before, names, done, {})
      ensures completed ==> done == byLid.Keys
      ensures !completed ==> exists id :: id in byLid && byLid[id] in before.pages && Refused(before, byLid[id])
      ensures writes >= old(writes)
      ensures completed ==> (writes == old(writes) <==> QuietPages(before, byLid, byLid.Keys))
      ensures completed ==> Remembers(before, byLid, byLid.Keys, newStored)
      ensures completed ==> Seen(before, byLid, byLid.Keys, seen)
    {
      hide LocalsUpTo, PagesUpTo, Remembers, QuietPages, Indexes, Valid, Unused, LidOf, Refused, Seen, Accepted,
        HasPage, PairsWith, Strip;
      NothingAccepted(before, byLid);
      newStored, seen := map[], {};
      var todo := byLid.Keys;
      NothingYet(before, names);
      NothingRemembered(before, byLid);
      done := {};
      completed := true;
      while todo != {}
        invariant completed && todo !! done && todo + done == byLid.Keys && Accepted(before, byLid, done)
        invariant locals == LocalsUpTo(before, names, done) && pages == PagesUpTo(before, names, done, {})
        invariant writes >= old(writes) && (writes == old(writes) <==> QuietPages(before, byLid, done))
        invariant Remembers(before, byLid, done, newStored)
        invariant Seen(before, byLid, done, seen)
        decreases |todo|
      {
        var lid :| lid in todo;
        Indexed(before, byLid, lid);
        AcceptedStep(before, byLid, done, lid, seen);
        completed, newStored := HandlePage(before, names, byLid, done, lid, newStored);
        if !completed {
          return;
        }
        if !before.pages[byLid[lid]].archived {
          seen := seen + {lid};
        }
        todo, done := todo - {lid}, done + {lid};
      }
      assert done == byLid.Keys;
    }

    // One card of the second loop.
    method CreateIfUnpaired(before: World, names: Names, byLid: map<string, string>, cid: string)
      requires cid in before.locals && cid in names.page
      modifies this`pages, this`writes
      ensures pages == if cid in byLid then old(pages)
              else old(pages)[names.page[cid] := Created(cid, before.locals[cid])]
      ensures writes >= old(writes) && (writes == old(writes) <==> cid in byLid)
    {
      if cid !in byLid {
        pages := pages[names.page[cid] := Created(cid, before.locals[cid])];
        writes := writes + 2;
      }
    }

    // Second loop: local to Notion.
    method ToNotion(before: World, names: Names, byLid: map<string, string>, remembered: map<string, string>)
      returns (newStored: map<string, string>)
      requires Unused(before, names) && Indexes(before, byLid) && pages == PagesUpTo(before, names, byLid.Keys, {})
      modifies this`pages, this`writes
      ensures pages == PagesUpTo(before, names, byLid.Keys, before.locals.Keys)
      ensures writes >= old(writes) && (writes == old(writes) <==> before.locals.Keys <= byLid.Keys)
      ensures newStored == remembered + CardSigs(before, before.locals.Keys)
    {
      hide PagesUpTo, Sig, HasPage, Created, CardSigs, Unused, Indexes;
      newStored := remembered;
      var todo := before.locals.Keys;
      ghost var made := {};
      NoCardSigs(before, remembered);
      while todo != {}
        invariant todo !! made && todo + made == before.locals.Keys
        invariant pages == PagesUpTo(before, names, byLid.Keys, made)
        invariant writes >= old(writes) && (writes == old(writes) <==> made <= byLid.Keys)
        invariant newStored == remembered + CardSigs(before, made)
        decreases |todo|
      {
        var cid :| cid in todo;
        MadeStep(before, names, byLid.Keys, made, cid);
        AddedSig(before, remembered, made, cid);
        ListedCard(before, names, byLid, cid);
        newStored := newStored[cid := Sig(before.locals[cid].fields)];
        CreateIfUnpaired(before, names, byLid, cid);
        todo, made := todo - {cid}, made + {cid};
      }
      assert made == before.locals.Keys;
    }

    // Third loop: the cards remembered but gone. Nothing is left for it to do.
    method ArchiveRemoved(before: World, byLid: map<string, string>, seen: set<string>, remembered: map<string, string>)
      returns (newStored: map<string, string>)
      requires Valid(before) && Indexes(before, byLid) && remembered == StoredAfter(before)
      requires Seen(before, byLid, byLid.Keys, seen)
      ensures newStored == remembered
    {
      hide HasPage, LidOf, StoredAfter;
      newStored := remembered;
      var todo := before.stored.Keys;
      while todo != {}
        invariant todo <= before.stored.Keys && newStored == remembered
        decreases |todo|
      {
        var lid :| lid in todo;
        if lid !in seen && lid !in before.locals {
          ArchiveLoopIsDead(before, lid);
          // The program would archive the card's page here if it were live.
          if lid in byLid && !before.pages[byLid[lid]].archived {
            assert false;
          }
          newStored := newStored - {lid};
        }
        todo := todo - {lid};
      }
    }

    // The whole run, from listing both stores to saving the new state. A refused
    // page ends it: the pages handled before, in whatever order, stay handled, and
    // the saved state stays as it was.
    method RunSync(names: Names) returns (completed: bool, ghost done: set<string>)
      requires Valid(Snapshot()) && Unused(Snapshot(), names)
      modifies this
      ensures completed <==> !Blocked(old(Snapshot()))
      ensures completed ==> Snapshot() == Run(old(Snapshot()), names)
      ensures completed ==> writes >= old(writes) && (writes == old(writes) <==> Quiet(old(Snapshot())))
      ensures !completed ==> Spares(old(Snapshot()), done) && Snapshot() == Interrupted(old(Snapshot()), names, done)
    {
      hide LocalsUpTo, PagesUpTo, StoredAfter, CardSigs, Indexes, Remembers, QuietPages, Quiet, Valid, Unused, HasPage,
        Lids, Blocked, Spares, Refused, Accepted, Seen;
      var before := Snapshot();
      var byLid := PagesByLocalId();
      var newStored, seen;
      completed, newStored, seen, done := FromNotion(before, names, byLid);
      BlockedIs(before, byLid, done);
      if !completed {
        return;
      }
      RememberedIs(before, byLid, newStored);
      QuietIs(before, byLid);
      newStored := ToNotion(before, names, byLid, newStored);
      OnlyLocalIdsCount(before, names, byLid, before.locals.Keys);
      stored := ArchiveRemoved(before, byLid, seen, newStored);
    }
  }
}
