/**
 User-owned job state and its event log (routers/state.py, events.py, ingest.py), as values:
 what an edit and an ingest do to the jobs, the state rows and the log, and what every
 sequence of them keeps. `UserDatabase` runs the same steps on tables.
 */
module UserState {
  import opened Wrappers

  type SeenKey = int
  type Url = int

  datatype Field =
    | Status | Notes | FollowUpDate | AppliedDate | Starred | Hidden | Contact
    | SnoozedUntil | AppliedVia
  datatype Value = Null | Text(text: string) | Int(n: int)

  predicate IsFlag(f: Field) {
    f == Starred || f == Hidden
  }

  /** `_norm`: absent and empty are the same, flags collapse to "0" and "1". */
  function Norm(f: Field, v: Value): Option<string> {
    match v
    case Null => None
    case Int(n) => Some(if n == 1 then "1" else "0")
    case Text(s) =>
      if IsFlag(f) then Some(if s == "1" then "1" else "0")
      else if s == "" then None
      else Some(s)
  }

  /** The column defaults of `job_state`. */
  function Default(f: Field): Value {
    match f
    case Status => Text("New")
    case Notes => Text("")
    case Contact => Text("")
    case Starred => Int(0)
    case Hidden => Int(0)
    case _ => Null
  }

  datatype Job = Job(seenKey: SeenKey, present: bool)
  /** A column missing from `columns` holds its default. */
  datatype Row = Row(url: Option<Url>, columns: map<Field, Value>) {
    function Column(f: Field): Value {
      if f in columns then columns[f] else Default(f)
    }
  }
  datatype Logged = Tracked(field: Field) | PassReason
  datatype Event = Event(key: SeenKey, what: Logged, before: Option<string>, after: Option<string>, source: string)
  datatype Db = Db(jobs: map<Url, Job>, state: map<SeenKey, Row>, log: seq<Event>)

  type Changes = seq<(Field, Value)>

  predicate Mentions(changes: Changes, f: Field) {
    exists i :: 0 <= i < |changes| && changes[i].0 == f
  }

  predicate OncePerField(changes: Changes) {
    forall i, j :: 0 <= i < j < |changes| ==> changes[i].0 != changes[j].0
  }

  /** The value given for `f`, or `other`. */
  function Given(changes: Changes, f: Field, other: Value): Value {
    if changes == [] then other
    else if changes[|changes| - 1].0 == f then changes[|changes| - 1].1
    else Given(changes[..|changes| - 1], f, other)
  }

  /** `1 if v else 0` for the flag columns. */
  function Coerced(change: (Field, Value)): (Field, Value) {
    if !IsFlag(change.0) then change
    else
      var truthy := match change.1
        case Null => false
        case Text(s) => s != ""
        case Int(n) => n != 0;
      (change.0, Int(if truthy then 1 else 0))
  }

  function CoercedAll(changes: Changes): Changes {
    if changes == [] then []
    else CoercedAll(changes[..|changes| - 1]) + [Coerced(changes[|changes| - 1])]
  }

  // ------------------------------------------------------------------ one edit

  predicate AutoApplied(changes: Changes) {
    Given(changes, Status, Null) == Text("Applied") && !Mentions(changes, AppliedDate)
  }

  function Written(columns: map<Field, Value>, changes: Changes): map<Field, Value> {
    if changes == [] then columns
    else
      var (f, v) := changes[|changes| - 1];
      Written(columns, changes[..|changes| - 1])[f := v]
  }

  /** The row after the upsert; COALESCE keeps any stored date, the empty text included. */
  function Upserted(prior: Option<Row>, url: Url, changes: Changes, today: string): Row {
    var row := prior.GetOr(Row(None, map[]));
    var columns := Written(row.columns, changes);
    Row(
      Some(url),
      if !AutoApplied(changes) then columns
      else columns[AppliedDate :=
        if row.Column(AppliedDate) == Null then Text(today) else row.Column(AppliedDate)])
  }

  /** The date the event diff believes in: `prior or today`. */
  function BelievedDate(prior: Option<Row>, today: string): Value {
    if prior.None? || prior.value.Column(AppliedDate) in {Null, Text("")} then Text(today)
    else prior.value.Column(AppliedDate)
  }

  function NewValues(prior: Option<Row>, changes: Changes, today: string): Changes {
    if AutoApplied(changes) then changes + [(AppliedDate, BelievedDate(prior, today))] else changes
  }

  function OldNorm(prior: Option<Row>, f: Field): Option<string> {
    if prior.Some? then Norm(f, prior.value.Column(f)) else None
  }

  /** `record_field_events`: one event per field whose normalized value differs. */
  function FieldEvents(key: SeenKey, prior: Option<Row>, values: Changes, source: string): seq<Event> {
    if values == [] then []
    else
      var (f, v) := values[|values| - 1];
      FieldEvents(key, prior, values[..|values| - 1], source)
      + if OldNorm(prior, f) == Norm(f, v) then []
        else [Event(key, Tracked(f), OldNorm(prior, f), Norm(f, v), source)]
  }

  function RowAt(db: Db, key: SeenKey): Option<Row> {
    if key in db.state then Some(db.state[key]) else None
  }

  function ReasonEvents(key: SeenKey, reason: Option<string>, source: string): seq<Event> {
    if reason.Some? then [Event(key, PassReason, None, reason, source)] else []
  }

  /** `_apply_state` on the role `key`, through the address `url`. */
  function Applied(
    db: Db, key: SeenKey, url: Url, changes: Changes, source: string,
    reason: Option<string>, today: string): Db
  {
    var prior := RowAt(db, key);
    db.(state := db.state[key := Upserted(prior, url, changes, today)],
        log := db.log + FieldEvents(key, prior, NewValues(prior, changes, today), source)
               + ReasonEvents(key, reason, source))
  }

  /** The roles an address may resolve to: the jobs cache wins, else a row's own address. */
  ghost predicate Resolves(db: Db, url: Url, key: SeenKey) {
    if url in db.jobs then key == db.jobs[url].seenKey
    else key in db.state && db.state[key].url == Some(url)
  }

  // -------------------------------------------------------------- log and columns

  /** The last logged value of a role's field, None when there was no event. */
  function Latest(log: seq<Event>, key: SeenKey, f: Field): Option<Option<string>> {
    if log == [] then None
    else
      var e := log[|log| - 1];
      if e.key == key && e.what == Tracked(f) then Some(e.after)
      else Latest(log[..|log| - 1], key, f)
  }

  function Replayed(log: seq<Event>, key: SeenKey, f: Field): Option<string> {
    Latest(log, key, f).GetOr(Norm(f, Default(f)))
  }

  /** The log of a role tells its row: each field's last event is the column as it stands. */
  ghost predicate LogTellsRow(log: seq<Event>, key: SeenKey, row: Row) {
    forall f :: Replayed(log, key, f) == Norm(f, row.Column(f))
  }

  ghost predicate LogTells(db: Db) {
    && (forall key :: key in db.state ==> LogTellsRow(db.log, key, db.state[key]))
    && (forall key, f :: key !in db.state ==> Latest(db.log, key, f).None?)
  }

  lemma {:induction false} LatestOfMore(log: seq<Event>, more: seq<Event>, key: SeenKey, f: Field)
    ensures Latest(log + more, key, f)
         == if Latest(more, key, f).Some? then Latest(more, key, f) else Latest(log, key, f)
    decreases |more|
  {
    if more == [] {
      assert log + more == log;
    } else {
      assert (log + more)[..|log + more| - 1] == log + more[..|more| - 1];
      LatestOfMore(log, more[..|more| - 1], key, f);
    }
  }

  /** The events of one edit: at most one per field, and only where the field changed. */
  lemma {:induction false} LatestOfEdit(
    key: SeenKey, prior: Option<Row>, values: Changes, source: string, k: SeenKey, f: Field)
    requires OncePerField(values)
    ensures Latest(FieldEvents(key, prior, values, source), k, f)
         == if k == key && Mentions(values, f) && OldNorm(prior, f) != Norm(f, Given(values, f, Null))
            then Some(Norm(f, Given(values, f, Null))) else None
  {
    if values != [] {
      var init, last := values[..|values| - 1], values[|values| - 1];
      MentionedOnce(values);
      LatestOfEdit(key, prior, init, source, k, f);
      assert values == init + [last];
      MentionsOneMore(init, last, f);
      hide Mentions;
      hide OncePerField;
      hide Norm;
      hide OldNorm;
      var events := FieldEvents(key, prior, init, source);
      var e := Event(key, Tracked(last.0), OldNorm(prior, last.0), Norm(last.0, last.1), source);
      if OldNorm(prior, last.0) == Norm(last.0, last.1) {
        assert events + [] == events;
      } else {
        LatestOfMore(events, [e], k, f);
        LatestOfOne(e, k, f);
      }
    }
  }

  lemma LatestOfOne(e: Event, key: SeenKey, f: Field)
    ensures Latest([e], key, f) == if e.key == key && e.what == Tracked(f) then Some(e.after) else None
  {
    assert [e][..0] == [];
  }

  lemma MentionedOnce(changes: Changes)
    requires changes != [] && OncePerField(changes)
    ensures OncePerField(changes[..|changes| - 1])
    ensures !Mentions(changes[..|changes| - 1], changes[|changes| - 1].0)
  {
  }

  lemma MentionsOneMore(init: Changes, last: (Field, Value), f: Field)
    ensures Mentions(init + [last], f) <==> Mentions(init, f) || last.0 == f
  {
    if last.0 == f {
      assert (init + [last])[|init|].0 == f;
    }
    if Mentions(init, f) {
      var i :| 0 <= i < |init| && init[i].0 == f;
      assert (init + [last])[i].0 == f;
    }
  }

  lemma {:induction false} WrittenColumn(columns: map<Field, Value>, changes: Changes, f: Field)
    ensures f in Written(columns, changes) <==> f in columns || Mentions(changes, f)
    ensures Mentions(changes, f) ==> Written(columns, changes)[f] == Given(changes, f, Null)
    ensures !Mentions(changes, f) && f in columns ==> Written(columns, changes)[f] == columns[f]
  {
    if changes != [] {
      var init, last := changes[..|changes| - 1], changes[|changes| - 1];
      WrittenColumn(columns, init, f);
      MentionsOneMore(init, last, f);
      assert changes == init + [last];
    }
  }

  /** The stored date is the empty text, and the edit marks the role as applied. */
  predicate BlankDateMarkedApplied(prior: Option<Row>, changes: Changes) {
    AutoApplied(changes) && prior.Some? && prior.value.Column(AppliedDate) == Text("")
  }

  /** Patches never write a missing status; a coerced flag is never missing either. */
  predicate Storable(changes: Changes) {
    && OncePerField(changes)
    && forall i :: 0 <= i < |changes| ==>
         var (f, v) := changes[i];
         if f == Status then v.Text? && v.text != ""
         else if IsFlag(f) then v.Int?
         else !v.Int?
  }

  lemma {:induction false} StorableGiven(changes: Changes, f: Field)
    requires Storable(changes) && Mentions(changes, f) && (f == Status || IsFlag(f))
    ensures Norm(f, Given(changes, f, Null)).Some?
  {
    var init, last := changes[..|changes| - 1], changes[|changes| - 1];
    assert changes == init + [last];
    MentionsOneMore(init, last, f);
    if last.0 != f {
      assert forall i :: 0 <= i < |init| ==> init[i] == changes[i];
      StorableGiven(init, f);
    }
  }

  /** What the upsert stores, field by field, against what the diff logs. */
  lemma EditTellsField(
    log: seq<Event>, key: SeenKey, prior: Option<Row>, url: Url, changes: Changes, source: string,
    today: string, f: Field)
    requires Storable(changes) && today != ""
    requires if prior.Some? then LogTellsRow(log, key, prior.value) else Latest(log, key, f).None?
    ensures var events := FieldEvents(key, prior, NewValues(prior, changes, today), source);
            var told := Replayed(log + events, key, f);
            var stored := Norm(f, Upserted(prior, url, changes, today).Column(f));
            told == stored <==> !(f == AppliedDate && BlankDateMarkedApplied(prior, changes))
  {
    var values := NewValues(prior, changes, today);
    var events := FieldEvents(key, prior, values, source);
    if AutoApplied(changes) {
      MentionsOneMore(changes, (AppliedDate, BelievedDate(prior, today)), f);
      assert values[..|changes|] == changes;
    }
    LatestOfEdit(key, prior, values, source, key, f);
    LatestOfMore(log, events, key, f);
    var base := if prior.Some? then prior.value.Column(f) else Default(f);
    WrittenColumn(prior.GetOr(Row(None, map[])).columns, changes, f);
    if Mentions(changes, f) && (f == Status || IsFlag(f)) {
      StorableGiven(changes, f);
    }
    assert prior.Some? ==> Replayed(log, key, f) == Norm(f, base);
  }

  lemma {:induction false} LatestElsewhere(
    key: SeenKey, prior: Option<Row>, values: Changes, source: string, k: SeenKey, f: Field)
    requires k != key
    ensures Latest(FieldEvents(key, prior, values, source), k, f).None?
  {
    if values != [] {
      var init, last := values[..|values| - 1], values[|values| - 1];
      LatestElsewhere(key, prior, init, source, k, f);
      var e := Event(key, Tracked(last.0), OldNorm(prior, last.0), Norm(last.0, last.1), source);
      LatestOfMore(FieldEvents(key, prior, init, source), [e], k, f);
      LatestOfOne(e, k, f);
      assert FieldEvents(key, prior, init, source) + [] == FieldEvents(key, prior, init, source);
    }
  }

  lemma ReasonTellsNothing(log: seq<Event>, key: SeenKey, reason: Option<string>, source: string, k: SeenKey, f: Field)
    ensures Latest(log + ReasonEvents(key, reason, source), k, f) == Latest(log, k, f)
  {
    LatestOfMore(log, ReasonEvents(key, reason, source), k, f);
    if reason.Some? {
      LatestOfOne(Event(key, PassReason, None, reason, source), k, f);
    }
  }

  /**
   An edit leaves every log telling its row, with one exception, decided before the edit: the
   stored date is the empty text and the edit marks the role as applied without a date. Then
   the diff logs today's date and the upsert keeps the empty text.
   */
  lemma EditKeepsLog(
    db: Db, key: SeenKey, url: Url, changes: Changes, source: string, reason: Option<string>, today: string)
    requires LogTells(db) && Storable(changes) && today != ""
    ensures LogTells(Applied(db, key, url, changes, source, reason, today))
       <==> !BlankDateMarkedApplied(RowAt(db, key), changes)
  {
    var prior := RowAt(db, key);
    var after := Applied(db, key, url, changes, source, reason, today);
    var events := FieldEvents(key, prior, NewValues(prior, changes, today), source);
    assert after.log == (db.log + events) + ReasonEvents(key, reason, source);
    forall k, f
      ensures k != key ==> Latest(after.log, k, f) == Latest(db.log, k, f)
      ensures Latest(after.log, k, f) == Latest(db.log + events, k, f)
    {
      ReasonTellsNothing(db.log + events, key, reason, source, k, f);
      if k != key {
        LatestElsewhere(key, prior, NewValues(prior, changes, today), source, k, f);
        LatestOfMore(db.log, events, k, f);
      }
    }
    forall f ensures Replayed(after.log, key, f) == Norm(f, after.state[key].Column(f))
        <==> !(f == AppliedDate && BlankDateMarkedApplied(prior, changes))
    {
      EditTellsField(db.log, key, prior, url, changes, source, today, f);
    }
    OthersTold(db, after, key);
    TellsByField(after, key, BlankDateMarkedApplied(prior, changes));
  }

  lemma OthersTold(db: Db, after: Db, key: SeenKey)
    requires LogTells(db) && key in after.state && after.state.Keys == db.state.Keys + {key}
    requires forall k :: k in db.state && k != key ==> after.state[k] == db.state[k]
    requires forall k, f :: k != key ==> Latest(after.log, k, f) == Latest(db.log, k, f)
    ensures LogTells(after) <==> LogTellsRow(after.log, key, after.state[key])
  {
    forall k | k in after.state && k != key ensures LogTellsRow(after.log, k, after.state[k]) {
      assert k in db.state;
      assert forall f :: Replayed(after.log, k, f) == Replayed(db.log, k, f);
    }
  }

  lemma TellsByField(after: Db, key: SeenKey, blank: bool)
    requires key in after.state
    requires forall f :: Replayed(after.log, key, f) == Norm(f, after.state[key].Column(f))
               <==> !(f == AppliedDate && blank)
    ensures LogTellsRow(after.log, key, after.state[key]) <==> !blank
  {
    if LogTellsRow(after.log, key, after.state[key]) {
      assert Replayed(after.log, key, AppliedDate) == Norm(AppliedDate, after.state[key].Column(AppliedDate));
    }
  }

  /** The exception is real: such an edit logs a date that the row does not hold. */
  lemma BlankDateLosesTheReplay(key: SeenKey, url: Url, today: string)
    requires today != ""
    ensures var db := Db(map[], map[key := Row(Some(url), map[AppliedDate := Text("")])], []);
            && LogTells(db)
            && !LogTells(Applied(db, key, url, [(Status, Text("Applied"))], "quick:applied", None, today))
  {
    var db := Db(map[], map[key := Row(Some(url), map[AppliedDate := Text("")])], []);
    var changes := [(Status, Text("Applied"))];
    assert Storable(changes);
    assert AutoApplied(changes);
    assert LogTells(db);
    EditKeepsLog(db, key, url, changes, "quick:applied", None, today);
  }

  /** No event at all is logged exactly when every value given is the one already stored. */
  lemma {:induction false} NoEventsIffUnchanged(key: SeenKey, prior: Option<Row>, values: Changes, source: string)
    ensures FieldEvents(key, prior, values, source) == [] <==>
            forall i :: 0 <= i < |values| ==> Norm(values[i].0, values[i].1) == OldNorm(prior, values[i].0)
  {
    if values != [] {
      var n := |values| - 1;
      NoEventsIffUnchanged(key, prior, values[..n], source);
      assert forall i :: 0 <= i < n ==> values[..n][i] == values[i];
    }
  }

  lemma {:induction false} GivenAt(changes: Changes, i: nat)
    requires OncePerField(changes) && i < |changes|
    ensures Given(changes, changes[i].0, Null) == changes[i].1
  {
    var n := |changes| - 1;
    if i < n {
      MentionedOnce(changes);
      assert changes[i].0 != changes[n].0;
      GivenAt(changes[..n], i);
    }
  }

  /** A write that leaves every column as it was adds no tracked-field event. */
  lemma UnchangedRowLogsNothing(
    key: SeenKey, row: Row, url: Url, changes: Changes, source: string, today: string)
    requires OncePerField(changes) && !BlankDateMarkedApplied(Some(row), changes)
    requires var after := Upserted(Some(row), url, changes, today);
             forall f :: Norm(f, after.Column(f)) == Norm(f, row.Column(f))
    ensures FieldEvents(key, Some(row), NewValues(Some(row), changes, today), source) == []
  {
    var after := Upserted(Some(row), url, changes, today);
    var values := NewValues(Some(row), changes, today);
    forall i | 0 <= i < |values|
      ensures Norm(values[i].0, values[i].1) == OldNorm(Some(row), values[i].0)
    {
      var f := values[i].0;
      if i < |changes| {
        assert values[i] == changes[i];
        assert Mentions(changes, f);
        GivenAt(changes, i);
        WrittenColumn(row.columns, changes, f);
        assert after.Column(f) == values[i].1;
      } else {
        assert after.Column(AppliedDate) == values[i].1;
      }
    }
    NoEventsIffUnchanged(key, Some(row), values, source);
  }

  // -------------------------------------------------------------------- ingest

  datatype CsvRow = CsvRow(url: Url, key: SeenKey)
  datatype Pick = Pick(url: Url, notes: string)

  function AllAbsent(jobs: map<Url, Job>): map<Url, Job> {
    map u | u in jobs :: jobs[u].(present := false)
  }

  /** The present run's rows, upserted in order; a later row takes an url over. */
  function Present(jobs: map<Url, Job>, rows: seq<CsvRow>): map<Url, Job> {
    if rows == [] then jobs
    else
      var last := rows[|rows| - 1];
      Present(jobs, rows[..|rows| - 1])[last.url := Job(last.key, true)]
  }

  function UrlsOf(jobs: map<Url, Job>, key: SeenKey): set<Url> {
    set u | u in jobs && jobs[u].present && jobs[u].seenKey == key
  }

  lemma HasLeast(s: set<int>)
    requires s != {}
    ensures exists x: int :: x in s && forall y :: y in s ==> x <= y
    decreases |s|
  {
    var x: int := SomeMember(s);
    var rest := s - {x};
    if rest == {} {
      assert s == {x};
    } else {
      HasLeast(rest);
      var z: int :| z in rest && forall y :: y in rest ==> z <= y;
      var least := if x <= z then x else z;
      forall y | y in s ensures least <= y {
        if y != x {
          assert y in rest;
        }
      }
      assert least in s;
    }
  }

  ghost function Least(s: set<int>): (x: int)
    requires s != {}
    ensures x in s && forall y :: y in s ==> x <= y
  {
    HasLeast(s);
    var x :| x in s && forall y :: y in s ==> x <= y;
    x
  }

  /** Steps 7a and 7b: a present role's row takes its job's url; a dormant row lets a recycled one go. */
  ghost function Readdressed(key: SeenKey, row: Row, jobs: map<Url, Job>): Row {
    if UrlsOf(jobs, key) != {} then row.(url := Some(Least(UrlsOf(jobs, key))))
    else if row.url.Some? && row.url.value in jobs && jobs[row.url.value].present then row.(url := None)
    else row
  }

  ghost function Refreshed(state: map<SeenKey, Row>, jobs: map<Url, Job>): map<SeenKey, Row> {
    map key | key in state :: Readdressed(key, state[key], jobs)
  }

  const INTERESTED := Text("Interested")

  function SeedChanges(notes: string): Changes {
    [(Status, INTERESTED), (Notes, Text(notes)), (Starred, Int(1))]
  }

  /** Step 8: a pick seeds a row for a present job whose role has none yet. */
  function Seeded(db: Db, present: set<Url>, picks: seq<Pick>): Db {
    if picks == [] then db
    else
      var before := Seeded(db, present, picks[..|picks| - 1]);
      var pick := picks[|picks| - 1];
      if pick.url !in present || pick.url !in before.jobs || before.jobs[pick.url].seenKey in before.state then before
      else
        var key := before.jobs[pick.url].seenKey;
        before.(
          state := before.state[key := Row(Some(pick.url), Written(map[], SeedChanges(pick.notes)))],
          log := before.log + FieldEvents(key, None, SeedChanges(pick.notes), "ingest:picks"))
  }

  ghost function Ingested(db: Db, rows: seq<CsvRow>, picks: seq<Pick>): Db {
    var jobs := Present(AllAbsent(db.jobs), rows);
    Seeded(Db(jobs, Refreshed(db.state, jobs), db.log), set r | r in rows :: r.url, picks)
  }

  // ----------------------------------------------------------------- ownership

  /** A present job's url belongs to its own role's row, if to any. */
  ghost predicate Owned(db: Db) {
    forall key, u :: key in db.state && u in db.jobs && db.state[key].url == Some(u) && db.jobs[u].present ==>
      db.jobs[u].seenKey == key
  }

  /** Every edit through an address that resolves keeps ownership. */
  lemma EditKeepsOwned(
    db: Db, key: SeenKey, url: Url, changes: Changes, source: string, reason: Option<string>, today: string)
    requires Owned(db) && Resolves(db, url, key)
    ensures Owned(Applied(db, key, url, changes, source, reason, today))
  {
  }

  lemma RefreshOwns(state: map<SeenKey, Row>, jobs: map<Url, Job>, log: seq<Event>)
    ensures Owned(Db(jobs, Refreshed(state, jobs), log))
  {
    forall key, u | key in state && u in jobs && Readdressed(key, state[key], jobs).url == Some(u) && jobs[u].present
      ensures jobs[u].seenKey == key
    {
      if UrlsOf(jobs, key) != {} {
        assert u in UrlsOf(jobs, key);
      }
    }
  }

  lemma {:induction false} SeedKeepsOwned(db: Db, present: set<Url>, picks: seq<Pick>)
    requires Owned(db)
    ensures Owned(Seeded(db, present, picks)) && Seeded(db, present, picks).jobs == db.jobs
  {
    if picks != [] {
      SeedKeepsOwned(db, present, picks[..|picks| - 1]);
    }
  }

  /** An ingest establishes ownership whatever the tables held before. */
  lemma IngestOwns(db: Db, rows: seq<CsvRow>, picks: seq<Pick>)
    ensures Owned(Ingested(db, rows, picks))
  {
    var jobs := Present(AllAbsent(db.jobs), rows);
    RefreshOwns(db.state, jobs, db.log);
    SeedKeepsOwned(Db(jobs, Refreshed(db.state, jobs), db.log), set r | r in rows :: r.url, picks);
  }

  /** An ingest never touches a column of a row that exists: no status, note or date is lost. */
  lemma {:induction false} SeedKeepsColumns(db: Db, present: set<Url>, picks: seq<Pick>)
    ensures forall key :: key in db.state ==>
              key in Seeded(db, present, picks).state && Seeded(db, present, picks).state[key] == db.state[key]
  {
    if picks != [] {
      SeedKeepsColumns(db, present, picks[..|picks| - 1]);
    }
  }

  lemma IngestKeepsColumns(db: Db, rows: seq<CsvRow>, picks: seq<Pick>)
    ensures forall key :: key in db.state ==>
              key in Ingested(db, rows, picks).state
              && Ingested(db, rows, picks).state[key].columns == db.state[key].columns
  {
    var jobs := Present(AllAbsent(db.jobs), rows);
    SeedKeepsColumns(Db(jobs, Refreshed(db.state, jobs), db.log), set r | r in rows :: r.url, picks);
  }

  lemma {:induction false} SeedKeepsLog(db: Db, present: set<Url>, picks: seq<Pick>)
    requires LogTells(db)
    ensures LogTells(Seeded(db, present, picks))
  {
    if picks != [] {
      SeedKeepsLog(db, present, picks[..|picks| - 1]);
      var before, pick := Seeded(db, present, picks[..|picks| - 1]), picks[|picks| - 1];
      if pick.url in present && pick.url in before.jobs && before.jobs[pick.url].seenKey !in before.state {
        SeedIsAnEdit(before, before.jobs[pick.url].seenKey, pick);
      }
    }
  }

  /** Seeding a role is an edit of a role without a row. */
  lemma SeedIsAnEdit(db: Db, key: SeenKey, pick: Pick)
    requires LogTells(db) && key !in db.state
    ensures LogTells(db.(
      state := db.state[key := Row(Some(pick.url), Written(map[], SeedChanges(pick.notes)))],
      log := db.log + FieldEvents(key, None, SeedChanges(pick.notes), "ingest:picks")))
  {
    var changes := SeedChanges(pick.notes);
    assert Storable(changes);
    SeedIsNotApplied(pick.notes);
    EditKeepsLog(db, key, pick.url, changes, "ingest:picks", None, "today");
    var events := FieldEvents(key, None, changes, "ingest:picks");
    assert db.log + events + [] == db.log + events;
  }

  lemma SeedIsNotApplied(notes: string)
    ensures !AutoApplied(SeedChanges(notes))
  {
    GivenAt(SeedChanges(notes), 0);
  }

  lemma IngestKeepsLog(db: Db, rows: seq<CsvRow>, picks: seq<Pick>)
    requires LogTells(db)
    ensures LogTells(Ingested(db, rows, picks))
  {
    var jobs := Present(AllAbsent(db.jobs), rows);
    var refreshed := Db(jobs, Refreshed(db.state, jobs), db.log);
    forall key | key in refreshed.state ensures LogTellsRow(db.log, key, refreshed.state[key]) {
      assert LogTellsRow(db.log, key, db.state[key]);
      assert forall f :: refreshed.state[key].Column(f) == db.state[key].Column(f);
    }
    SeedKeepsLog(refreshed, set r | r in rows :: r.url, picks);
  }

  // ---------------------------------------------------------------- histories

  datatype Operation =
    | Edit(key: SeenKey, url: Url, changes: Changes, source: string, reason: Option<string>, today: string)
    | Ingest(rows: seq<CsvRow>, picks: seq<Pick>)

  /** The edits the routes let through, none of which stores an empty applied date. */
  ghost predicate Allowed(db: Db, op: Operation) {
    op.Edit? ==>
      && Resolves(db, op.url, op.key)
      && Storable(op.changes)
      && op.today != ""
      && Given(op.changes, AppliedDate, Null) != Text("")
  }

  ghost function After(db: Db, op: Operation): Db {
    match op
    case Edit(key, url, changes, source, reason, today) => Applied(db, key, url, changes, source, reason, today)
    case Ingest(rows, picks) => Ingested(db, rows, picks)
  }

  /** The database after a history, None if some edit was not allowed where it came. */
  ghost function History(ops: seq<Operation>): Option<Db> {
    if ops == [] then Some(Db(map[], map[], []))
    else
      var before := History(ops[..|ops| - 1]);
      if before.None? || !Allowed(before.value, ops[|ops| - 1]) then None
      else Some(After(before.value, ops[|ops| - 1]))
  }

  ghost predicate NoBlankDates(db: Db) {
    forall key :: key in db.state ==> db.state[key].Column(AppliedDate) != Text("")
  }

  lemma EditKeepsDates(
    db: Db, key: SeenKey, url: Url, changes: Changes, source: string, reason: Option<string>, today: string)
    requires NoBlankDates(db) && Given(changes, AppliedDate, Null) != Text("") && today != ""
    ensures NoBlankDates(Applied(db, key, url, changes, source, reason, today))
  {
    WrittenColumn(RowAt(db, key).GetOr(Row(None, map[])).columns, changes, AppliedDate);
  }

  lemma {:induction false} SeedKeepsDates(db: Db, present: set<Url>, picks: seq<Pick>)
    requires NoBlankDates(db)
    ensures NoBlankDates(Seeded(db, present, picks))
  {
    if picks != [] {
      SeedKeepsDates(db, present, picks[..|picks| - 1]);
      var changes := SeedChanges(picks[|picks| - 1].notes);
      WrittenColumn(map[], changes, AppliedDate);
      assert !Mentions(changes, AppliedDate);
    }
  }

  lemma IngestKeepsDates(db: Db, rows: seq<CsvRow>, picks: seq<Pick>)
    requires NoBlankDates(db)
    ensures NoBlankDates(Ingested(db, rows, picks))
  {
    var jobs := Present(AllAbsent(db.jobs), rows);
    SeedKeepsDates(Db(jobs, Refreshed(db.state, jobs), db.log), set r | r in rows :: r.url, picks);
  }

  /** Every history of edits and ingests: the log replays to the rows, and urls stay owned. */
  lemma {:induction false} EveryHistory(ops: seq<Operation>)
    requires History(ops).Some?
    ensures LogTells(History(ops).value) && Owned(History(ops).value) && NoBlankDates(History(ops).value)
  {
    if ops != [] {
      EveryHistory(ops[..|ops| - 1]);
      var db, op := History(ops[..|ops| - 1]).value, ops[|ops| - 1];
      hide LogTells;
      hide Owned;
      match op
      case Edit(key, url, changes, source, reason, today) =>
        EditKeepsLog(db, key, url, changes, source, reason, today);
        EditKeepsOwned(db, key, url, changes, source, reason, today);
        EditKeepsDates(db, key, url, changes, source, reason, today);
      case Ingest(rows, picks) =>
        IngestKeepsLog(db, rows, picks);
        IngestOwns(db, rows, picks);
        IngestKeepsDates(db, rows, picks);
    }
  }
}
