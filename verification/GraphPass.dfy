/**
 The scoring pass over the graph (runservice.py:988-1121): pages of work behind a keyset cursor,
 one transaction per operation, and a cancel that may stop it between any two. Other
 connections commit in between as they like: they open and consume invalidations, and change
 what is dirty and what the corpus holds.

 Mode, reports and events are whatever the operations make of them.
 */
module GraphPass {
  import opened GraphPages
  import opened Wrappers
  import RunEvents

  /** What the mode a pass opened with selects (graph.py:408-416). */
  datatype Mode = Incremental | Full

  datatype Totals = Totals(
    selected: int, scored: int, reused: int, recurrent: int, superseded: int, blocked: int, skipped: int)
  {
    function Plus(o: Totals): Totals {
      Totals(selected + o.selected, scored + o.scored, reused + o.reused, recurrent + o.recurrent,
             superseded + o.superseded, blocked + o.blocked, skipped + o.skipped)
    }
  }

  const ZERO := Totals(0, 0, 0, 0, 0, 0, 0)

  datatype Op =
    | OpenPass | BridgeLegacyUrls | ResolvePass
    | ScorePage(page: seq<PostingId>)
    | ClosePass(totals: Totals, selected: seq<PostingId>)

  /** A committed operation and its report. */
  datatype Done = Done(op: Op, report: Totals)

  datatype Stop = StageCancelled | OpFailed

  // ------------------------------------------------------------------ the database

  function PostingsOf(table: seq<PostingId>, rows: set<int>): set<PostingId> {
    set k | k in rows && 0 <= k < |table| :: table[k]
  }

  /**
   What a pass reads and writes: what is dirty for its run, which postings have content, and
   score_invalidations: row k is about posting `table[k]`, and some rows are consumed.
   */
  datatype Database = Database(
    mode: Mode, dirty: set<PostingId>, corpus: set<PostingId>, table: seq<PostingId>, consumed: set<int>)
  {
    function Open(): set<int> {
      set k | 0 <= k < |table| && k !in consumed
    }

    /** The work list of the mode the pass was opened with. */
    function Work(): set<PostingId> {
      if mode.Full? then corpus else dirty + PostingsOf(table, Open())
    }

    /** The open rows a closing pass consumes: all of them, or those of the postings it lists. */
    function Consumes(selected: set<PostingId>): set<int> {
      set k | k in Open() && (mode.Full? || table[k] in selected)
    }

    /** The open rows of a page's postings: scoring the page is what they asked for. */
    function Answers(page: seq<PostingId>): set<int> {
      set k | k in Open() && table[k] in page
    }

    ghost predicate Within(universe: set<PostingId>) {
      dirty <= universe && corpus <= universe && forall p :: p in table ==> p in universe
    }

    /** Rows are never deleted, and stay consumed. */
    ghost predicate Before(later: Database) {
      table <= later.table && consumed <= later.consumed
    }

    ghost function Here(done: Option<Done>): Moment {
      Moment(done, Work(), Open(), |table|)
    }
  }

  /**
   What an operation writes and reports. Matching opens invalidations, scoring a page touches
   none of the work lists, and only the close consumes.
   */
  ghost predicate Applied(op: Op, before: Database, after: Database, report: Totals) {
    && after.dirty == before.dirty && after.corpus == before.corpus
    && (after.mode == before.mode || op.OpenPass?)
    && before.table <= after.table
    && (after.table == before.table || op.BridgeLegacyUrls? || op.ResolvePass?)
    && (if op.ClosePass? then after.consumed == before.consumed + before.Consumes(Ids(op.selected))
        else after.consumed == before.consumed)
    && (if op.ScorePage? then report.selected == |op.page| else report == ZERO)
  }

  /** The database right after a commit, of this pass (`done`) or of another connection. */
  datatype Moment = Moment(done: Option<Done>, work: set<PostingId>, open: set<int>, rows: nat)

  /** What was work at every one of these moments. */
  ghost function Always(js: seq<Moment>): set<PostingId>
    requires js != []
  {
    if |js| == 1 then js[0].work else Always(js[..|js| - 1]) * js[|js| - 1].work
  }

  /** What was work at some of them. */
  ghost function Ever(js: seq<Moment>): set<PostingId> {
    if js == [] then {} else Ever(js[..|js| - 1]) + js[|js| - 1].work
  }

  lemma {:induction false} AlwaysAndEver(js: seq<Moment>, x: PostingId)
    requires js != []
    ensures x in Always(js) <==> forall i :: 0 <= i < |js| ==> x in js[i].work
    ensures x in Ever(js) <==> exists i :: 0 <= i < |js| && x in js[i].work
  {
    var init, last := js[..|js| - 1], js[|js| - 1];
    assert forall i :: 0 <= i < |init| ==> init[i] == js[i];
    if |js| == 1 {
      assert init == [] && Ever(init) == {};
    } else {
      AlwaysAndEver(init, x);
    }
  }

  /** Nothing moved: no one else changed the work or the invalidations. */
  ghost predicate Quiet(js: seq<Moment>) {
    forall i :: 0 <= i < |js| ==>
      js[i].work == js[0].work && js[i].open == js[0].open && js[i].rows == js[0].rows
  }

  lemma {:induction false} QuietWork(js: seq<Moment>)
    requires js != [] && Quiet(js)
    ensures Always(js) == js[0].work && Ever(js) == js[0].work
  {
    forall x ensures x in Always(js) <==> x in js[0].work
             ensures x in Ever(js) <==> x in js[0].work {
      AlwaysAndEver(js, x);
    }
  }

  // --------------------------------------------------------------------- the pages

  datatype Page = Page(ids: seq<PostingId>, report: Totals)

  function Concat(pages: seq<Page>): seq<PostingId> {
    if pages == [] then [] else Concat(pages[..|pages| - 1]) + pages[|pages| - 1].ids
  }

  function SumOf(pages: seq<Page>): Totals {
    if pages == [] then ZERO else SumOf(pages[..|pages| - 1]).Plus(pages[|pages| - 1].report)
  }

  datatype Column = Selected | Scored | Reused | Recurrent | Superseded | Blocked | Skipped

  function Entry(t: Totals, column: Column): int {
    match column
    case Selected => t.selected
    case Scored => t.scored
    case Reused => t.reused
    case Recurrent => t.recurrent
    case Superseded => t.superseded
    case Blocked => t.blocked
    case Skipped => t.skipped
  }

  function Added(pages: seq<Page>, column: Column): int {
    if pages == [] then 0 else Added(pages[..|pages| - 1], column) + Entry(pages[|pages| - 1].report, column)
  }

  /** The totals of a pass are the sums of its pages' reports, column by column. */
  lemma {:induction false} TotalsAddUp(pages: seq<Page>, column: Column)
    ensures Entry(SumOf(pages), column) == Added(pages, column)
  {
    if pages != [] {
      TotalsAddUp(pages[..|pages| - 1], column);
    }
  }

  function PageOps(pages: seq<Page>): seq<Done> {
    if pages == [] then []
    else
      var last := pages[|pages| - 1];
      PageOps(pages[..|pages| - 1]) + [Done(ScorePage(last.ids), last.report)]
  }

  /** `dict.fromkeys`: each id once, where it first came. */
  function Once(ids: seq<PostingId>): seq<PostingId> {
    if ids == [] then []
    else
      var before, last := Once(ids[..|ids| - 1]), ids[|ids| - 1];
      if last in before then before else before + [last]
  }

  /** The close lists each scored posting once: the pages repeat none. */
  lemma {:induction false} OnceOfAscending(ids: seq<PostingId>)
    requires Ascending(ids)
    ensures Once(ids) == ids
  {
    if ids != [] {
      OnceOfAscending(ids[..|ids| - 1]);
    }
  }

  /** A full pass works on the corpus, an incremental one on what is dirty or invalidated. */
  lemma WorkInWords(db: Database, x: PostingId)
    ensures x in db.Work() <==>
            if db.mode == Full then x in db.corpus
            else x in db.dirty || exists k :: 0 <= k < |db.table| && k !in db.consumed && db.table[k] == x
  {
    if k :| 0 <= k < |db.table| && k !in db.consumed && db.table[k] == x {
      assert k in db.Open();
    }
  }

  /** Every page was within the limit, and its report counts it. */
  ghost predicate Sized(pages: seq<Page>, limit: nat) {
    forall i :: 0 <= i < |pages| ==> 0 < |pages[i].ids| <= limit && pages[i].report.selected == |pages[i].ids|
  }

  lemma {:induction false} SelectedAddsUp(pages: seq<Page>, limit: nat)
    requires Sized(pages, limit)
    ensures SumOf(pages).selected == |Concat(pages)|
  {
    if pages != [] {
      SelectedAddsUp(pages[..|pages| - 1], limit);
    }
  }

  /** `pages` went up to the cursor, in order, past nothing that was work all along. */
  ghost predicate Covered(
    pages: seq<Page>, always: set<PostingId>, ever: set<PostingId>, cursor: Option<PostingId>, limit: nat)
  {
    && Ascending(Concat(pages)) && Ids(Concat(pages)) <= ever
    && always - Ids(Concat(pages)) <= Beyond(always, cursor)
    && Sized(pages, limit)
    && (Concat(pages) == [] <==> cursor.None?)
    && (cursor.Some? ==> Concat(pages)[|Concat(pages)| - 1] == cursor.value)
  }

  lemma CoveredLater(
    pages: seq<Page>, always: set<PostingId>, ever: set<PostingId>, always': set<PostingId>, ever': set<PostingId>,
    cursor: Option<PostingId>, limit: nat)
    requires Covered(pages, always, ever, cursor, limit) && always' <= always && ever <= ever'
    ensures Covered(pages, always', ever', cursor, limit)
  {
    forall x | x in always' - Ids(Concat(pages)) ensures x in Beyond(always', cursor) {
      assert x in Beyond(always, cursor);
    }
  }

  lemma AscendingJoin(a: seq<PostingId>, b: seq<PostingId>)
    requires Ascending(a) && Ascending(b)
    requires a != [] ==> forall p :: p in b ==> a[|a| - 1] < p
    ensures Ascending(a + b)
  {
    var all := a + b;
    forall i, j | 0 <= i < j < |all| ensures all[i] < all[j] {
      if i < |a| <= j {
        assert all[j] in b && a[i] <= a[|a| - 1];
      }
    }
  }

  lemma PageLeavesWhatIsBeyond(
    done: set<PostingId>, always: set<PostingId>, work: set<PostingId>, cursor: Option<PostingId>, limit: nat,
    page: seq<PostingId>)
    requires always - done <= Beyond(always, cursor) && always <= work
    requires IsFirst(page, Beyond(work, cursor), limit) && page != []
    ensures always - (done + Ids(page)) <= Beyond(always, Some(page[|page| - 1]))
  {
    var last := page[|page| - 1];
    forall x | x in always - (done + Ids(page)) ensures x in Beyond(always, Some(last)) {
      assert x in Beyond(always, cursor);
      assert x in Beyond(work, cursor) && x !in page && last in page;
    }
  }

  /** One more page keeps the work covered without gaps. */
  lemma PageCovered(
    pages: seq<Page>, always: set<PostingId>, ever: set<PostingId>, work: set<PostingId>,
    cursor: Option<PostingId>, limit: nat, page: Page)
    requires Covered(pages, always, ever, cursor, limit) && always <= work <= ever
    requires IsFirst(page.ids, Beyond(work, cursor), limit) && page.ids != []
    requires page.report.selected == |page.ids|
    ensures Covered(pages + [page], always, ever, Some(page.ids[|page.ids| - 1]), limit)
  {
    hide IsFirst, Beyond, Ascending;
    NextPage(pages, page);
    var done := Concat(pages);
    IsOfTheWork(page.ids, work, cursor, limit);
    JoinedIds(done, page.ids);
    AscendingJoin(done, page.ids);
    PageLeavesWhatIsBeyond(Ids(done), always, work, cursor, limit, page.ids);
  }

  lemma IsOfTheWork(page: seq<PostingId>, work: set<PostingId>, cursor: Option<PostingId>, limit: nat)
    requires IsFirst(page, Beyond(work, cursor), limit)
    ensures Ascending(page) && |page| <= limit && Ids(page) <= work
    ensures cursor.Some? ==> forall p :: p in page ==> cursor.value < p
  {
    assert forall p :: p in page ==> p in Beyond(work, cursor);
  }

  lemma JoinedIds(a: seq<PostingId>, b: seq<PostingId>)
    ensures Ids(a + b) == Ids(a) + Ids(b)
  {
  }

  lemma NothingLeft(
    pages: seq<Page>, always: set<PostingId>, ever: set<PostingId>, work: set<PostingId>,
    cursor: Option<PostingId>, limit: nat, page: seq<PostingId>)
    requires Covered(pages, always, ever, cursor, limit) && always <= work
    requires page == [] && IsFirst(page, Beyond(work, cursor), limit) && limit > 0
    ensures always <= Ids(Concat(pages))
  {
    forall x | x in always ensures x in Ids(Concat(pages)) {
      assert x in Beyond(work, cursor) ==> x in page;
      assert x in always - Ids(Concat(pages)) ==> x in Beyond(always, cursor);
    }
  }

  lemma NextPage(pages: seq<Page>, page: Page)
    ensures PageOps(pages + [page]) == PageOps(pages) + [Done(ScorePage(page.ids), page.report)]
    ensures SumOf(pages + [page]) == SumOf(pages).Plus(page.report)
    ensures Concat(pages + [page]) == Concat(pages) + page.ids
  {
    assert (pages + [page])[..|pages|] == pages;
  }

  // ------------------------------------------------------------------ invalidations

  /**
   What a pass did about invalidations: the rows it scored a posting for after they were opened,
   the rows it consumed, and how many rows there were when a posting's page was committed.
   */
  datatype Account = Account(answered: set<int>, taken: set<int>, marks: map<PostingId, int>) {
    ghost function After(op: Op, db: Database): Account {
      match op
      case ScorePage(page) =>
        Account(answered + db.Answers(page), taken, marks + map p | p in page :: |db.table|)
      case ClosePass(_, selected) =>
        Account(answered, taken + db.Consumes(Ids(selected)), marks)
      case _ => this
    }
  }

  const NOTHING_DONE := Account({}, {}, map[])

  /**
   An open row is answered exactly when its posting's page was committed after the row was
   opened. No mark is before `rows`.
   */
  ghost predicate Answering(db: Database, account: Account, rows: nat) {
    && account.taken == {}
    && (forall k :: k in db.Open() ==>
          (k in account.answered <==> db.table[k] in account.marks && k < account.marks[db.table[k]]))
    && (forall k :: k in account.answered ==> 0 <= k < |db.table|)
    && (forall p :: p in account.marks ==> rows <= account.marks[p] <= |db.table|)
  }

  lemma AnsweringLater(db: Database, later: Database, account: Account, rows: nat)
    requires Answering(db, account, rows) && db.Before(later)
    ensures Answering(later, account, rows)
  {
    forall k | k in later.Open()
      ensures k in account.answered <==> later.table[k] in account.marks && k < account.marks[later.table[k]]
    {
      if k < |db.table| {
        assert k !in db.consumed && k in db.Open() && later.table[k] == db.table[k];
      } else {
        assert k !in account.answered;
        var p := later.table[k];
        assert p in account.marks ==> rows <= account.marks[p] <= |db.table|;
      }
    }
  }

  lemma AnsweringNone(db: Database, rows: nat)
    ensures Answering(db, NOTHING_DONE, rows)
  {
  }

  lemma AnsweringPage(db: Database, account: Account, rows: nat, page: seq<PostingId>)
    requires Answering(db, account, rows) && rows <= |db.table|
    ensures Answering(db, account.After(ScorePage(page), db), rows)
    ensures account.After(ScorePage(page), db).marks.Keys == account.marks.Keys + Ids(page)
  {
  }

  lemma LaterMoments(js: seq<Moment>, js': seq<Moment>)
    requires js != [] && js <= js'
    ensures Always(js') <= Always(js) && Ever(js) <= Ever(js')
  {
    forall x ensures x in Always(js') ==> x in Always(js)
             ensures x in Ever(js) ==> x in Ever(js') {
      AlwaysAndEver(js, x);
      AlwaysAndEver(js', x);
    }
  }

  lemma LastIsBetween(js: seq<Moment>)
    requires js != []
    ensures Always(js) <= js[|js| - 1].work <= Ever(js)
  {
  }

  lemma Meanwhile(
    pages: seq<Page>, js: seq<Moment>, js': seq<Moment>, start: nat, cursor: Option<PostingId>, limit: nat)
    requires start < |js| && js <= js'
    requires Covered(pages, Always(js[start..]), Ever(js[start..]), cursor, limit)
    ensures Covered(pages, Always(js'[start..]), Ever(js'[start..]), cursor, limit)
  {
    hide *;
    assert js[start..] <= js'[start..];
    LaterMoments(js[start..], js'[start..]);
    CoveredLater(pages, Always(js[start..]), Ever(js[start..]), Always(js'[start..]), Ever(js'[start..]),
                 cursor, limit);
  }

  lemma CoveredMeans(
    pages: seq<Page>, always: set<PostingId>, ever: set<PostingId>, cursor: Option<PostingId>, limit: nat)
    requires Covered(pages, always, ever, cursor, limit)
    ensures Sized(pages, limit) && Ascending(Concat(pages)) && Ids(Concat(pages)) <= ever
  {
  }

  lemma NoPages(limit: nat, always: set<PostingId>, ever: set<PostingId>)
    ensures Concat([]) == [] && PageOps([]) == [] && SumOf([]) == ZERO && Ids([]) == {}
    ensures Sized([], limit) && Ascending([]) && Covered([], always, ever, None, limit)
  {
  }

  lemma WorkWithin(db: Database, universe: set<PostingId>)
    requires db.Within(universe)
    ensures db.Work() <= universe
  {
    forall x | x in PostingsOf(db.table, db.Open()) ensures x in universe {
      assert x in db.table;
    }
  }

  /** The cursor moves through the postings there are. */
  lemma WithinUniverse(
    page: seq<PostingId>, work: set<PostingId>, universe: set<PostingId>, cursor: Option<PostingId>, limit: nat)
    requires IsFirst(page, Beyond(work, cursor), limit) && page != [] && work <= universe
    ensures Beyond(universe, Some(page[|page| - 1])) < Beyond(universe, cursor)
  {
    var last := page[|page| - 1];
    assert last in page && last in Beyond(work, cursor);
    assert last in Beyond(universe, cursor) && last !in Beyond(universe, Some(last));
  }

  /** The open rows a quiet pass consumes although it scored nothing for them. */
  function Lost(mode: Mode, table: seq<PostingId>, open: set<int>, work: set<PostingId>): set<int> {
    set k | k in open && 0 <= k < |table| && mode.Full? && table[k] !in work
  }

  /**
   The account of a pass that closed, over the moments from matching to the close. All that
   stayed work was scored, and nothing that never was. A consumed row was answered exactly when
   its posting was scored after it was opened; if nothing moved, that leaves out `Lost`.
   */
  ghost predicate Closes(db: Database, account: Account, js: seq<Moment>) {
    && js != []
    && Always(js) <= account.marks.Keys <= Ever(js)
    && (forall p :: p in account.marks ==> js[0].rows <= account.marks[p])
    && (forall k :: k in account.taken <==>
          k in js[|js| - 1].open && 0 <= k < |db.table| && (db.mode.Full? || db.table[k] in account.marks))
    && (forall k :: k in account.taken ==>
          (k in account.answered <==> db.table[k] in account.marks && k < account.marks[db.table[k]]))
    && (Quiet(js) ==>
          && account.marks.Keys == js[0].work
          && account.taken - account.answered == Lost(db.mode, db.table, js[0].open, js[0].work))
  }

  lemma CloseCounts(db: Database, later: Database, account: Account, selected: seq<PostingId>, js: seq<Moment>)
    requires js != [] && Always(js) <= account.marks.Keys <= Ever(js)
    requires js[|js| - 1].open == db.Open() && js[|js| - 1].rows == |db.table|
    requires Answering(db, account, js[0].rows) && Ids(selected) == account.marks.Keys
    requires later.table == db.table && later.mode == db.mode
    ensures Closes(later, account.After(ClosePass(ZERO, selected), db), js)
  {
    if Quiet(js) {
      QuietWork(js);
    }
  }

  /**
   A pass no one interfered with answers all it consumes exactly when it was incremental or
   every posting with an open invalidation was work already.
   */
  lemma NothingLostIff(db: Database, account: Account, js: seq<Moment>)
    requires Closes(db, account, js) && Quiet(js)
    ensures account.taken <= account.answered
       <==> db.mode.Incremental? || PostingsOf(db.table, js[0].open) <= js[0].work
  {
    var open, work := js[0].open, js[0].work;
    var lost := Lost(db.mode, db.table, open, work);
    if account.taken <= account.answered && db.mode.Full? {
      forall x | x in PostingsOf(db.table, open) ensures x in work {
        var k :| k in open && 0 <= k < |db.table| && db.table[k] == x;
        assert x !in work ==> k in lost;
        assert k in lost ==> k in account.taken - account.answered;
      }
    }
    if db.mode.Incremental? || PostingsOf(db.table, open) <= work {
      forall k | k in account.taken ensures k in account.answered {
        assert db.table[k] in PostingsOf(db.table, open);
        assert k !in lost;
      }
    }
  }

  /**
   Posting 2 survived a merge and has no content of its own. Every full pass over the corpus {1}
   that closes undisturbed consumes its invalidation without having scored it; for an
   incremental pass it is work.
   */
  lemma SurvivorLost(db: Database, account: Account, js: seq<Moment>)
    requires db.table == [2] && db.mode.Full?
    requires js != [] && Quiet(js) && js[0] == Database(Full, {}, {1}, [2], {}).Here(js[0].done)
    requires Closes(db, account, js)
    ensures 0 in account.taken && 0 !in account.answered && 2 !in account.marks
    ensures 2 in Database(Incremental, {}, {1}, [2], {}).Work()
  {
    assert 0 in js[|js| - 1].open;
    assert 2 !in js[0].work && 0 in Lost(Full, [2], js[0].open, js[0].work);
    var incremental := Database(Incremental, {}, {1}, [2], {});
    assert 0 in incremental.Open() && incremental.table[0] == 2;
  }

  /**
   Posting 1 was scored, and another pass invalidates it before the close: whatever the mode,
   the new row is consumed without an answer.
   */
  lemma LateRowLost(mode: Mode, scored: Database, late: Database, account: Account)
    requires scored == Database(mode, {1}, {1}, [], {}) && late == scored.(table := [1])
    requires account == Account({}, {0}, map[1 := 0])
    ensures Closes(late, account, [scored.Here(None), late.Here(None)]) && !(account.taken <= account.answered)
  {
    var js := [scored.Here(None), late.Here(None)];
    assert js[..1] == [js[0]];
    assert scored.Work() == {1} == late.Work();
    assert 0 in late.Open() && 0 in account.taken;
  }

  lemma WholeOpening()
    ensures |OPENING| == 3 && OPENING[..3] == OPENING
  {
  }

  class Pass {
    const log: RunEvents.Connection
    /** Every posting there will be, so that a pass comes to an end. */
    const universe: set<PostingId>

    var db: Database
    var committed: seq<Done>
    var rung: nat

    ghost var asked: bool  // a cancel was seen
    ghost var account: Account
    ghost var journal: seq<Moment>

    constructor (log: RunEvents.Connection, universe: set<PostingId>, db: Database)
      requires RunEvents.Numbered(log.rows) && db.Within(universe)
      ensures this.log == log && this.universe == universe && this.db == db && Valid()
      ensures committed == [] && account == NOTHING_DONE && journal == [] && !asked
    {
      this.log, this.universe, this.db := log, universe, db;
      committed, rung, asked, account, journal := [], 0, false, NOTHING_DONE, [];
    }

    ghost predicate Valid()
      reads this, log
    {
      RunEvents.Numbered(log.rows) && db.Within(universe)
    }

    /** What other connections commit between two steps of the pass. */
    method Others()
      requires Valid()
      modifies `db, `journal, log
      ensures Valid() && old(db).Before(db) && db.mode == old(db.mode) && old(log.rows) <= log.rows
      ensures journal == old(journal) + [db.Here(None)]
    {
      var dirty: set<PostingId>, corpus: set<PostingId> := *, *;
      var added: seq<PostingId>, closed: set<int> := *, *;
      if dirty <= universe && corpus <= universe && forall p :: p in added ==> p in universe {
        db := Database(db.mode, dirty, corpus, db.table + added, db.consumed + closed);
      }
      var events: seq<RunEvents.Event> := *;
      RunEvents.AppendedIsNumbered(log.rows, events);
      var ok := log.CommitEvents(events);
      journal := journal + [db.Here(None)];
    }

    /** `select_work`: one list in full mode, two merged ones in incremental mode. */
    method SelectWork(limit: nat, cursor: Option<PostingId>) returns (page: seq<PostingId>)
      ensures IsFirst(page, Beyond(db.Work(), cursor), limit)
    {
      if db.mode.Full? {
        page := FirstOf(Beyond(db.corpus, cursor), limit);
        return;
      }
      var invalid := PostingsOf(db.table, db.Open());
      var d := FirstOf(Beyond(db.dirty, cursor), limit);
      var i := FirstOf(Beyond(invalid, cursor), limit);
      page := FirstOf(Ids(d) + Ids(i), limit);
      CutBeforeMerging(d, Beyond(db.dirty, cursor), i, Beyond(invalid, cursor), page, limit);
      assert Beyond(db.dirty, cursor) + Beyond(invalid, cursor) == Beyond(db.dirty + invalid, cursor);
    }

    /** `apply`: it may raise, whatever it has written by then. */
    method Apply(op: Op) returns (result: Option<Totals>)
      requires Valid()
      modifies `db
      ensures Valid()
      ensures result.Some? ==> Applied(op, old(db), db, result.value)
    {
      var raises: bool, totals: Totals := *, ZERO;
      match op {
        case OpenPass =>
          var mode: Mode := *;
          db := db.(mode := mode);
        case BridgeLegacyUrls | ResolvePass =>
          var found: seq<PostingId> := *;
          if forall p :: p in found ==> p in universe {
            db := db.(table := db.table + found);
          }
        case ScorePage(page) =>
          totals := *;
          totals := totals.(selected := |page|);
        case ClosePass(_, selected) =>
          db := db.(consumed := db.consumed + db.Consumes(Ids(selected)));
      }
      result := if raises then None else Some(totals);
    }

    /**
     `_commit_op`: the operation and its events in one transaction, and the bell after it. If
     anything raises on the way, the database is as it was.
     */
    method CommitOp(op: Op) returns (done: Option<Done>, ghost events: seq<RunEvents.Event>)
      requires Valid()
      modifies this, log
      ensures Valid()
      ensures done.None? ==>
                && db == old(db) && log.rows == old(log.rows) && rung == old(rung)
                && committed == old(committed) && account == old(account) && journal == old(journal)
      ensures asked == old(asked)
      ensures done.Some? ==>
                && done.value.op == op && Applied(op, old(db), db, done.value.report)
                && log.rows == RunEvents.Appended(old(log.rows), events)
                && rung == old(rung) + (if events == [] then 0 else 1)
                && committed == old(committed) + [done.value]
                && account == old(account).After(op, old(db)) && journal == old(journal) + [db.Here(done)]
    {
      hide Applied, RunEvents.Numbered, RunEvents.Appended;
      done, events := None, [];
      var saved := db;
      var result := Apply(op);
      if result.Some? {
        var published: seq<RunEvents.Event> := *;
        var ok := log.CommitEvents(published);
        if ok {
          events, done := published, Some(Done(op, result.value));
          committed, rung := committed + [done.value], rung + if published == [] then 0 else 1;
          account, journal := account.After(op, saved), journal + [db.Here(done)];
          return;
        }
      }
      db := saved;
    }

    method Cancelled() returns (stop: Option<Stop>)
      modifies this`asked
      ensures asked == (old(asked) || stop.Some?) && stop in {None, Some(StageCancelled)}
    {
      var flag: bool := *;
      asked := asked || flag;
      stop := if flag then Some(StageCancelled) else None;
    }

    /** Other connections, and then one operation; one that raised stops the pass. */
    method Next(op: Op) returns (stop: Option<Stop>, done: Done, ghost before: Database)
      requires Valid()
      modifies this, log
      ensures Valid() && old(db).Before(before) && old(db.mode) == before.mode && asked == old(asked)
      ensures stop.Some? ==>
                && stop == Some(OpFailed) && db == before && committed == old(committed) && account == old(account)
                && journal == old(journal) + [before.Here(None)]
      ensures stop.None? ==>
                && done.op == op && Applied(op, before, db, done.report)
                && committed == old(committed) + [done] && account == old(account).After(op, before)
                && journal == old(journal) + [before.Here(None), db.Here(Some(done))]
    {
      Others();
      before := db;
      var result, _ := CommitOp(op);
      match result
      case None => stop, done := Some(OpFailed), Done(op, ZERO);
      case Some(d) => stop, done := None, d;
    }

    method OpenAndResolve() returns (stop: Option<Stop>, ghost n: nat)
      requires Valid()
      modifies this, log
      ensures Valid() && old(journal) <= journal
      ensures n <= 3 && committed == old(committed) + OPENING[..n] && account == old(account)
      ensures asked == (old(asked) || stop == Some(StageCancelled))
      ensures stop.None? ==>
                && n == 3 && |journal| > |old(journal)|
                && journal[|journal| - 1] == db.Here(Some(Done(ResolvePass, ZERO)))
    {
      n := 0;
      assert committed + OPENING[..0] == committed;
      var done;
      ghost var before;
      stop, done, before := Next(OpenPass);
      if stop.Some? { return; }
      n := 1;
      stop := Cancelled();
      if stop.Some? { return; }
      stop, done, before := Next(BridgeLegacyUrls);
      if stop.Some? { return; }
      n := 2;
      stop := Cancelled();
      if stop.Some? { return; }
      stop, done, before := Next(ResolvePass);
      if stop.Some? { return; }
      n := 3;
    }

    /**
     The page loop. Whatever was work at every moment since it began went through exactly one
     page, in order, and nothing was on a page that never was work.
     */
    method ScorePages(limit: nat)
      returns (stop: Option<Stop>, ghost pages: seq<Page>, totals: Totals, touched: seq<PostingId>)
      requires Valid() && limit > 0 && account == NOTHING_DONE
      requires journal != [] && journal[|journal| - 1].work == db.Work()
      modifies this, log
      ensures Valid() && old(journal) <= journal && |old(db.table)| <= |db.table|
      ensures asked == (old(asked) || stop == Some(StageCancelled))
      ensures committed == old(committed) + PageOps(pages)
      ensures totals == SumOf(pages) && touched == Concat(pages)
      ensures Sized(pages, limit) && Ascending(touched)
      ensures Ids(touched) <= Ever(journal[|old(journal)| - 1..])
      ensures stop.None? ==> Always(journal[|old(journal)| - 1..]) <= Ids(touched)
      ensures Answering(db, account, |old(db.table)|) && account.marks.Keys == Ids(touched)
    {
      hide IsFirst, Covered, Answering, Always, Ever, PageOps, SumOf, Concat, RunEvents.Numbered;
      pages, totals, touched := [], ZERO, [];
      var cursor: Option<PostingId> := None;
      ghost var start, rows := |journal| - 1, |db.table|;
      NoPages(limit, Always(journal[start..]), Ever(journal[start..]));
      AnsweringNone(db, rows);
      while true
        invariant Valid() && old(journal) <= journal && rows <= |db.table| && asked == old(asked)
        invariant journal[|journal| - 1].work == db.Work()
        invariant Covered(pages, Always(journal[start..]), Ever(journal[start..]), cursor, limit)
        invariant Answering(db, account, rows) && account.marks.Keys == Ids(touched)
        invariant committed == old(committed) + PageOps(pages)
        invariant totals == SumOf(pages) && touched == Concat(pages)
        decreases Beyond(universe, cursor)
      {
        CoveredMeans(pages, Always(journal[start..]), Ever(journal[start..]), cursor, limit);
        stop := Cancelled();
        if stop.Some? { return; }
        ghost var js, db0 := journal, db;
        Others();
        Meanwhile(pages, js, journal, start, cursor, limit);
        AnsweringLater(db0, db, account, rows);
        LastIsBetween(journal[start..]);
        var page := SelectWork(limit, cursor);
        if page == [] {
          NothingLeft(pages, Always(journal[start..]), Ever(journal[start..]), db.Work(), cursor, limit, page);
          CoveredMeans(pages, Always(journal[start..]), Ever(journal[start..]), cursor, limit);
          return;
        }
        WorkWithin(db, universe);
        WithinUniverse(page, db.Work(), universe, cursor, limit);
        js, db0 := journal, db;
        ghost var account0 := account;
        var done;
        ghost var before;
        stop, done, before := Next(ScorePage(page));
        AnsweringLater(db0, before, account0, rows);
        if stop.Some? {
          Meanwhile(pages, js, journal, start, cursor, limit);
          CoveredMeans(pages, Always(journal[start..]), Ever(journal[start..]), cursor, limit);
          return;
        }
        var next := Page(page, done.report);
        PageCovered(pages, Always(js[start..]), Ever(js[start..]), db0.Work(), cursor, limit, next);
        Meanwhile(pages + [next], js, journal, start, Some(page[|page| - 1]), limit);
        AnsweringPage(before, account0, rows, page);
        NextPage(pages, next);
        JoinedIds(touched, page);
        pages, cursor := pages + [next], Some(page[|page| - 1]);
        totals := totals.Plus(done.report);
        touched := touched + page;
      }
    }

    method Close(totals: Totals, touched: seq<PostingId>, ghost since: nat) returns (stop: Option<Stop>)
      requires Valid() && since < |journal| && Ascending(touched)
      requires Always(journal[since..]) <= Ids(touched) <= Ever(journal[since..])
      requires Answering(db, account, journal[since].rows) && account.marks.Keys == Ids(touched)
      modifies this, log
      ensures Valid() && old(journal) <= journal && account.marks == old(account.marks)
      ensures asked == old(asked) && stop in {None, Some(OpFailed)}
      ensures stop.Some? ==> committed == old(committed) && account == old(account)
      ensures stop.None? ==>
                && committed == old(committed) + [Done(ClosePass(totals, touched), ZERO)]
                && |journal| == |old(journal)| + 2 && Closes(db, account, journal[since..|journal| - 1])
    {
      hide Always, Ever, Closes, Answering, Ascending, Once, RunEvents.Numbered, RunEvents.Appended;
      ghost var js, db0, account0 := journal, db, account;
      OnceOfAscending(touched);
      var done;
      ghost var before;
      stop, done, before := Next(ClosePass(totals, Once(touched)));
      if stop.None? {
        var moments := journal[since..|journal| - 1];
        assert moments == js[since..] + [before.Here(None)];
        LaterMoments(js[since..], moments);
        AnsweringLater(db0, before, account0, js[since].rows);
        CloseCounts(before, db, account0, touched, moments);
      }
    }

    /**
     `_graph_pass`. A pass that stops committed a beginning of its operations and consumed
     nothing. One that returns closed with the sums of its page reports, listing each posting it
     scored once, and its account of the invalidations is `Closes`.
     */
    method Run(limit: nat)
      returns (stop: Option<Stop>, ghost n: nat, ghost pages: seq<Page>, ghost since: nat)
      requires Valid() && limit > 0 && account == NOTHING_DONE && !asked
      modifies this, log
      ensures stop == Some(StageCancelled) <==> asked
      ensures Valid() && old(journal) <= journal && n <= 3 && (n < 3 ==> pages == [])
      ensures Sized(pages, limit) && Ascending(Concat(pages)) && account.marks.Keys == Ids(Concat(pages))
      ensures stop.Some? ==> committed == old(committed) + OPENING[..n] + PageOps(pages) && account.taken == {}
      ensures stop.None? ==>
                && n == 3
                && committed == old(committed) + OPENING + PageOps(pages)
                                + [Done(ClosePass(SumOf(pages), Concat(pages)), ZERO)]
                && SumOf(pages).selected == |Concat(pages)|
                && |old(journal)| <= since && since + 2 <= |journal|
                && journal[since].done == Some(Done(ResolvePass, ZERO))
                && Closes(db, account, journal[since..|journal| - 1])
    {
      hide Always, Ever, PageOps, SumOf, Concat, Closes, Ascending, Sized, Once;
      hide RunEvents.Numbered, RunEvents.Appended;
      pages, since := [], 0;
      NoPages(limit, {}, {});
      stop, n := OpenAndResolve();
      WholeOpening();
      if stop.Some? {
        assert committed == committed + [];
        return;
      }
      since := |journal| - 1;
      var totals, touched;
      stop, pages, totals, touched := ScorePages(limit);
      if stop.Some? {
        return;
      }
      stop := Cancelled();
      if stop.Some? {
        return;
      }
      SelectedAddsUp(pages, limit);
      stop := Close(totals, touched, since);
    }
  }

  const OPENING: seq<Done> := [Done(OpenPass, ZERO), Done(BridgeLegacyUrls, ZERO), Done(ResolvePass, ZERO)]
}
