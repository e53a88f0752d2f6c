/**
 What edits, quick actions and an ingest leave in the columns, the addresses and the log, told
 column by column from the bodies, picks and rows they are given.
 */
module UserColumns {
  import opened Wrappers
  import opened UserState
  import opened UserDatabase

  // ----------------------------------------------------------------- one edit

  /** The column of a role; a role without a row has the values a new row starts with. */
  function ColumnAt(db: Db, key: SeenKey, f: Field): Value {
    if key in db.state then db.state[key].Column(f) else Row(None, map[]).Column(f)
  }

  ghost predicate Names(body: Changes, f: Field) {
    exists i :: 0 <= i < |body| && body[i].0 == f
  }

  ghost predicate Asks(body: Changes, f: Field, v: Value) {
    exists i :: 0 <= i < |body| && body[i] == (f, v)
  }

  /** A flag is stored as 1, or as 0 for anything empty; every other value as it is given. */
  ghost predicate StoredAs(given: Value, f: Field, column: Value) {
    if f in {Starred, Hidden} then column == Int(if given in {Null, Text(""), Int(0)} then 0 else 1)
    else column == given
  }

  /** The columns of a role after an edit, from the columns before and the body. */
  ghost predicate ColumnsEdited(before: Db, after: Db, key: SeenKey, body: Changes, today: string) {
    && (forall i :: 0 <= i < |body| ==> StoredAs(body[i].1, body[i].0, ColumnAt(after, key, body[i].0)))
    && forall f :: !Names(body, f) ==>
         ColumnAt(after, key, f)
         == if f == AppliedDate && Asks(body, Status, Text("Applied")) && ColumnAt(before, key, f) == Null
            then Text(today) else ColumnAt(before, key, f)
  }

  /** Nothing but the role's own row changes, and that row takes the address of the edit. */
  ghost predicate OnlyTheRole(before: Db, after: Db, key: SeenKey, url: Url) {
    && after.jobs == before.jobs && after.state.Keys == before.state.Keys + {key}
    && after.state[key].url == Some(url)
    && forall k :: k in before.state && k != key ==> after.state[k] == before.state[k]
  }

  lemma NewRowColumns(f: Field)
    ensures Row(None, map[]).Column(f)
         == if f == Status then Text("New")
            else if f in {Notes, Contact} then Text("")
            else if f in {Starred, Hidden} then Int(0)
            else Null
  {
  }

  lemma CoercedAsks(body: Changes, f: Field)
    requires PatchBody(body)
    ensures OncePerField(CoercedAll(body))
    ensures Mentions(CoercedAll(body), f) <==> Names(body, f)
    ensures forall i :: 0 <= i < |body| && body[i].0 == f ==> Given(CoercedAll(body), f, Null) == Coerced(body[i]).1
  {
    CoercedAt(body);
    var all := CoercedAll(body);
    if Names(body, f) {
      var i :| 0 <= i < |body| && body[i].0 == f;
      assert all[i].0 == f;
    }
    if Mentions(all, f) {
      var i :| 0 <= i < |all| && all[i].0 == f;
      assert body[i].0 == f;
    }
    forall i | 0 <= i < |body| && body[i].0 == f ensures Given(all, f, Null) == Coerced(body[i]).1 {
      GivenAt(all, i);
    }
  }

  lemma {:induction false} NotGiven(changes: Changes, f: Field)
    requires !Mentions(changes, f)
    ensures Given(changes, f, Null) == Null
  {
    if changes != [] {
      var init, last := changes[..|changes| - 1], changes[|changes| - 1];
      assert changes == init + [last];
      MentionsOneMore(init, last, f);
      NotGiven(init, f);
    }
  }

  /** The date is filled in by itself exactly when the body says Applied and names no date. */
  lemma FilledIff(body: Changes)
    requires PatchBody(body)
    ensures AutoApplied(CoercedAll(body)) <==> Asks(body, Status, Text("Applied")) && !Names(body, AppliedDate)
  {
    CoercedAsks(body, Status);
    CoercedAsks(body, AppliedDate);
    if Names(body, Status) {
      var i :| 0 <= i < |body| && body[i].0 == Status;
      assert Given(CoercedAll(body), Status, Null) == body[i].1;
      assert body[i] == (Status, body[i].1);
    } else {
      NotGiven(CoercedAll(body), Status);
    }
  }

  lemma UpsertedColumn(prior: Option<Row>, url: Url, body: Changes, today: string, f: Field)
    requires PatchBody(body)
    ensures var row := Upserted(prior, url, CoercedAll(body), today);
            var before := prior.GetOr(Row(None, map[])).Column(f);
            && (forall i :: 0 <= i < |body| && body[i].0 == f ==> row.Column(f) == Coerced(body[i]).1)
            && (!Names(body, f) ==>
                  row.Column(f) == if f == AppliedDate && Asks(body, Status, Text("Applied")) && before == Null
                                   then Text(today) else before)
  {
    FilledIff(body);
    CoercedAsks(body, f);
    WrittenColumn(prior.GetOr(Row(None, map[])).columns, CoercedAll(body), f);
  }

  /** An edit, column by column. */
  lemma EditInColumns(
    db: Db, key: SeenKey, url: Url, body: Changes, source: string, reason: Option<string>, today: string)
    requires PatchBody(body)
    ensures var after := UserState.Applied(db, key, url, CoercedAll(body), source, reason, today);
            OnlyTheRole(db, after, key, url) && ColumnsEdited(db, after, key, body, today)
  {
    var after := UserState.Applied(db, key, url, CoercedAll(body), source, reason, today);
    forall f
      ensures forall i :: 0 <= i < |body| && body[i].0 == f ==> ColumnAt(after, key, f) == Coerced(body[i]).1
      ensures !Names(body, f) ==>
                ColumnAt(after, key, f)
                == if f == AppliedDate && Asks(body, Status, Text("Applied")) && ColumnAt(db, key, f) == Null
                   then Text(today) else ColumnAt(db, key, f)
    {
      UpsertedColumn(RowAt(db, key), url, body, today, f);
    }
    forall i | 0 <= i < |body| ensures StoredAs(body[i].1, body[i].0, ColumnAt(after, key, body[i].0)) {
      assert ColumnAt(after, key, body[i].0) == Coerced(body[i]).1;
    }
  }

  // ------------------------------------------------------------ the edit's events

  /** How the log writes a value: nothing for an absent or empty one, and flags as 0 or 1. */
  lemma WrittenInTheLog(f: Field, v: Value)
    ensures f in {Starred, Hidden} ==>
              Norm(f, v) == if v == Null then None else Some(if v in {Int(1), Text("1")} then "1" else "0")
    ensures f !in {Starred, Hidden} && !v.Int? ==>
              Norm(f, v) == if v in {Null, Text("")} then None else Some(v.text)
  {
  }

  /** What the log held of a column before: nothing for a role without a row. */
  function LoggedBefore(db: Db, key: SeenKey, f: Field): Option<string> {
    if key in db.state then Norm(f, db.state[key].Column(f)) else None
  }

  /** The body marks the role as applied and names no date. */
  ghost predicate FillsDate(body: Changes) {
    Asks(body, Status, Text("Applied")) && !Names(body, AppliedDate)
  }

  /** A filled-in date is logged as the stored one, or as today's when there was none to log. */
  ghost function LoggedAfter(db: Db, after: Db, key: SeenKey, body: Changes, f: Field, today: string): Option<string> {
    if f == AppliedDate && FillsDate(body) && LoggedBefore(db, key, f).None? then Norm(f, Text(today))
    else Norm(f, ColumnAt(after, key, f))
  }

  /** The columns an edit writes, in the order of its body. */
  ghost function WrittenFields(body: Changes): seq<Field> {
    FieldsOf(body) + if FillsDate(body) then [AppliedDate] else []
  }

  function FieldsOf(values: Changes): (fields: seq<Field>)
    ensures |fields| == |values| && forall i :: 0 <= i < |values| ==> fields[i] == values[i].0
  {
    seq(|values|, i requires 0 <= i < |values| => values[i].0)
  }

  ghost predicate Follows(fields: seq<Field>, e: Event, later: Event) {
    exists a, b :: 0 <= a < b < |fields| && e.what == Tracked(fields[a]) && later.what == Tracked(fields[b])
  }

  ghost predicate InOrder(fields: seq<Field>, events: seq<Event>) {
    forall j, k :: 0 <= j < k < |events| ==> Follows(fields, events[j], events[k])
  }

  /**
   The events of an edit: one for each column it writes whose logged value changes, in the order
   of the body, and after them the reason, if there is one.
   */
  ghost predicate EventsTell(
    db: Db, after: Db, key: SeenKey, body: Changes, source: string, reason: Option<string>, today: string)
  {
    var n := |after.log| - if reason.Some? then 1 else 0;
    && |db.log| <= n && after.log[..|db.log|] == db.log
    && (reason.Some? ==> after.log[n] == Event(key, PassReason, None, reason, source))
    && var events := after.log[|db.log|..n];
    && (forall f :: f in WrittenFields(body) ==>
          var e := ChangeOf(db, after, key, body, f, source, today);
          e.before != e.after ==> e in events)
    && (forall e :: e in events ==>
          && e.what.Tracked? && e.what.field in WrittenFields(body) && e.before != e.after
          && e == ChangeOf(db, after, key, body, e.what.field, source, today))
    && InOrder(WrittenFields(body), events)
  }

  ghost function ChangeOf(
    db: Db, after: Db, key: SeenKey, body: Changes, f: Field, source: string, today: string): Event
  {
    Event(key, Tracked(f), LoggedBefore(db, key, f), LoggedAfter(db, after, key, body, f, today), source)
  }

  function EventOf(key: SeenKey, prior: Option<Row>, change: (Field, Value), source: string): Event {
    Event(key, Tracked(change.0), OldNorm(prior, change.0), Norm(change.0, change.1), source)
  }

  predicate Changing(prior: Option<Row>, change: (Field, Value)) {
    OldNorm(prior, change.0) != Norm(change.0, change.1)
  }

  lemma {:induction false} EventsAreChanges(key: SeenKey, prior: Option<Row>, values: Changes, source: string)
    ensures forall e :: e in FieldEvents(key, prior, values, source) <==>
              exists c :: c in values && Changing(prior, c) && e == EventOf(key, prior, c, source)
  {
    if values != [] {
      var init, last := values[..|values| - 1], values[|values| - 1];
      EventsAreChanges(key, prior, init, source);
      assert values == init + [last];
      hide OldNorm, Norm;
      forall e
        ensures e in FieldEvents(key, prior, values, source) <==>
                  e in FieldEvents(key, prior, init, source)
                  || (Changing(prior, last) && e == EventOf(key, prior, last, source))
      {
      }
    }
  }

  lemma {:induction false} EventsInOrder(key: SeenKey, prior: Option<Row>, values: Changes, source: string)
    ensures InOrder(FieldsOf(values), FieldEvents(key, prior, values, source))
  {
    if values != [] {
      var n := |values| - 1;
      var init, last := values[..n], values[n];
      EventsInOrder(key, prior, init, source);
      EventsAreChanges(key, prior, init, source);
      var before := FieldEvents(key, prior, init, source);
      assert FieldsOf(values) == FieldsOf(init) + [last.0];
      forall j | 0 <= j < |before| ensures exists a :: 0 <= a < n && before[j].what == Tracked(FieldsOf(init)[a]) {
        assert before[j] in before;
        var c :| c in init && before[j] == EventOf(key, prior, c, source);
        var a :| 0 <= a < n && init[a] == c;
        assert FieldsOf(init)[a] == c.0;
      }
      OneMoreInOrder(FieldsOf(init), before, last.0, EventOf(key, prior, last, source));
    }
  }

  lemma OneMoreInOrder(fields: seq<Field>, events: seq<Event>, f: Field, e: Event)
    requires InOrder(fields, events) && e.what == Tracked(f)
    requires forall j :: 0 <= j < |events| ==> exists a :: 0 <= a < |fields| && events[j].what == Tracked(fields[a])
    ensures InOrder(fields + [f], events) && InOrder(fields + [f], events + [e]) && events + [] == events
  {
    hide Follows;
    forall j, k | 0 <= j < k < |events| ensures Follows(fields + [f], events[j], events[k]) {
      FollowsInMore(fields, f, events[j], events[k]);
    }
    forall j | 0 <= j < |events| ensures Follows(fields + [f], events[j], e) {
      var a :| 0 <= a < |fields| && events[j].what == Tracked(fields[a]);
      assert (fields + [f])[a] == fields[a] && (fields + [f])[|fields|] == f;
      FollowsAt(fields + [f], a, |fields|, events[j], e);
    }
  }

  lemma FollowsAt(fields: seq<Field>, a: nat, b: nat, e: Event, later: Event)
    requires a < b < |fields| && e.what == Tracked(fields[a]) && later.what == Tracked(fields[b])
    ensures Follows(fields, e, later)
  {
  }

  lemma FollowsInMore(fields: seq<Field>, f: Field, e: Event, later: Event)
    requires Follows(fields, e, later)
    ensures Follows(fields + [f], e, later)
  {
    var a, b :| 0 <= a < b < |fields| && e.what == Tracked(fields[a]) && later.what == Tracked(fields[b]);
    assert (fields + [f])[a] == fields[a] && (fields + [f])[b] == fields[b];
  }

  /** What the diff compares is what stood in the log and what the edit leaves there. */
  lemma DiffedValue(db: Db, key: SeenKey, url: Url, body: Changes, source: string, reason: Option<string>,
                    today: string, c: (Field, Value))
    requires PatchBody(body) && c in NewValues(RowAt(db, key), CoercedAll(body), today)
    ensures var after := UserState.Applied(db, key, url, CoercedAll(body), source, reason, today);
            EventOf(key, RowAt(db, key), c, source) == ChangeOf(db, after, key, body, c.0, source, today)
  {
    var after := UserState.Applied(db, key, url, CoercedAll(body), source, reason, today);
    var row := Upserted(RowAt(db, key), url, CoercedAll(body), today);
    assert after.state[key] == row;
    hide UserState.Applied, Upserted, CoercedAll;
    FilledIff(body);
    CoercedAt(body);
    UpsertedColumn(RowAt(db, key), url, body, today, c.0);
    hide PatchBody, AutoApplied, Mentions, Asks;
    if c in CoercedAll(body) {
      var i :| 0 <= i < |body| && CoercedAll(body)[i] == c;
      assert c == Coerced(body[i]) && body[i].0 == c.0;
      assert Names(body, c.0);
    } else {
      assert c == (AppliedDate, BelievedDate(RowAt(db, key), today));
    }
  }

  lemma WrittenAreDiffed(db: Db, key: SeenKey, body: Changes, today: string)
    requires PatchBody(body)
    ensures FieldsOf(NewValues(RowAt(db, key), CoercedAll(body), today)) == WrittenFields(body)
  {
    FilledIff(body);
    CoercedAt(body);
  }

  /** An edit, event by event. */
  lemma EditInEvents(
    db: Db, key: SeenKey, url: Url, body: Changes, source: string, reason: Option<string>, today: string)
    requires PatchBody(body)
    ensures var after := UserState.Applied(db, key, url, CoercedAll(body), source, reason, today);
            EventsTell(db, after, key, body, source, reason, today)
  {
    var values := NewValues(RowAt(db, key), CoercedAll(body), today);
    var after := UserState.Applied(db, key, url, CoercedAll(body), source, reason, today);
    var events := FieldEvents(key, RowAt(db, key), values, source);
    assert after.log == db.log + events + ReasonEvents(key, reason, source);
    var n := |after.log| - if reason.Some? then 1 else 0;
    assert after.log[..|db.log|] == db.log && after.log[|db.log|..n] == events;
    WrittenAreDiffed(db, key, body, today);
    EventsInOrder(key, RowAt(db, key), values, source);
    DiffedEvents(db, key, url, body, source, reason, today);
  }

  lemma DiffedEvents(
    db: Db, key: SeenKey, url: Url, body: Changes, source: string, reason: Option<string>, today: string)
    requires PatchBody(body)
    ensures var after := UserState.Applied(db, key, url, CoercedAll(body), source, reason, today);
            var values := NewValues(RowAt(db, key), CoercedAll(body), today);
            var events := FieldEvents(key, RowAt(db, key), values, source);
            && (forall f :: f in FieldsOf(values) ==>
                  var e := ChangeOf(db, after, key, body, f, source, today);
                  e.before != e.after ==> e in events)
            && (forall e :: e in events ==>
                  && e.what.Tracked? && e.what.field in FieldsOf(values) && e.before != e.after
                  && e == ChangeOf(db, after, key, body, e.what.field, source, today))
  {
    hide *;
    var prior := RowAt(db, key);
    var after := UserState.Applied(db, key, url, CoercedAll(body), source, reason, today);
    var values := NewValues(prior, CoercedAll(body), today);
    var events := FieldEvents(key, prior, values, source);
    EventsAreChanges(key, prior, values, source);
    forall f | f in FieldsOf(values)
      ensures var e := ChangeOf(db, after, key, body, f, source, today); e.before != e.after ==> e in events
    {
      var i :| 0 <= i < |values| && FieldsOf(values)[i] == f;
      DiffedValue(db, key, url, body, source, reason, today, values[i]);
      ChangingEvent(key, prior, values[i], source);
    }
    forall e | e in events
      ensures e.what.Tracked? && e.what.field in FieldsOf(values) && e.before != e.after
      ensures e == ChangeOf(db, after, key, body, e.what.field, source, today)
    {
      var c :| c in values && Changing(prior, c) && e == EventOf(key, prior, c, source);
      var i :| 0 <= i < |values| && values[i] == c;
      assert FieldsOf(values)[i] == c.0;
      DiffedValue(db, key, url, body, source, reason, today, c);
      ChangingEvent(key, prior, c, source);
    }
  }

  lemma ChangingEvent(key: SeenKey, prior: Option<Row>, c: (Field, Value), source: string)
    ensures var e := EventOf(key, prior, c, source);
            e.what == Tracked(c.0) && (Changing(prior, c) <==> e.before != e.after)
  {
  }

  // -------------------------------------------------------------- quick actions

  /** The one column `f` set to `v`, the others as they were. */
  ghost predicate OnlyColumn(db: Db, after: Db, key: SeenKey, f: Field, v: Value) {
    && ColumnAt(after, key, f) == v
    && forall g :: g != f ==> ColumnAt(after, key, g) == ColumnAt(db, key, g)
  }

  /** The log after a change of one column, which has its event only if the log would differ. */
  ghost predicate LoggedIfNew(db: Db, after: Db, key: SeenKey, f: Field, text: string, source: string) {
    after.log == db.log
                 + if LoggedBefore(db, key, f) == Some(text) then []
                   else [Event(key, Tracked(f), LoggedBefore(db, key, f), Some(text), source)]
  }

  /** What each quick action leaves in the role's columns. */
  ghost predicate QuickLeaves(db: Db, after: Db, key: SeenKey, action: QuickAction, today: string) {
    match action
    case Applied(via) =>
      && ColumnAt(after, key, Status) == Text("Applied")
      && ColumnAt(after, key, AppliedVia) == (if via == "" then ColumnAt(db, key, AppliedVia) else Text(via))
      && ColumnAt(after, key, AppliedDate)
         == (if ColumnAt(db, key, AppliedDate) == Null then Text(today) else ColumnAt(db, key, AppliedDate))
      && forall f :: f !in {Status, AppliedVia, AppliedDate} ==> ColumnAt(after, key, f) == ColumnAt(db, key, f)
    case Snooze(until) => OnlyColumn(db, after, key, SnoozedUntil, Text(until))
    case Pass(_) => OnlyColumn(db, after, key, Status, Text("Passed"))
    case Star => OnlyColumn(db, after, key, Starred, Int(1))
    case Unstar => OnlyColumn(db, after, key, Starred, Int(0))
    case Other => false
  }

  function NameOf(action: QuickAction): string {
    match action
    case Applied(_) => "applied"
    case Snooze(_) => "snooze"
    case Pass(_) => "pass"
    case Star => "star"
    case Unstar => "unstar"
    case Other => ""
  }

  /** What the flag actions log, and the reason that passing logs. */
  ghost predicate QuickLogs(db: Db, after: Db, key: SeenKey, action: QuickAction) {
    && |db.log| <= |after.log|
    && (action.Star? ==> LoggedIfNew(db, after, key, Starred, "1", "quick:star"))
    && (action.Unstar? ==> LoggedIfNew(db, after, key, Starred, "0", "quick:unstar"))
    && (action.Pass? && action.reason != "" ==>
          |after.log| > 0
          && after.log[|after.log| - 1] == Event(key, PassReason, None, Some(action.reason), "quick:pass"))
    && (forall e :: e in after.log[|db.log|..] ==>
          && e.key == key && e.source == "quick:" + NameOf(action)
          && (e.what == PassReason ==> action.Pass? && action.reason != ""))
  }

  lemma QuickColumnsLeft(db: Db, after: Db, key: SeenKey, action: QuickAction, today: string)
    requires !action.Other? && ColumnsEdited(db, after, key, QuickChanges(action), today)
    ensures QuickLeaves(db, after, key, action, today)
  {
    QuickBody(action);
    var body := QuickChanges(action);
    assert forall i :: 0 <= i < |body| ==> StoredAs(body[i].1, body[i].0, ColumnAt(after, key, body[i].0));
    hide ColumnAt, Names, Asks;
    assert StoredAs(body[0].1, body[0].0, ColumnAt(after, key, body[0].0));
    assert |body| > 1 ==> StoredAs(body[1].1, body[1].0, ColumnAt(after, key, body[1].0));
  }

  lemma QuickEventsLeft(db: Db, after: Db, key: SeenKey, action: QuickAction, today: string)
    requires !action.Other?
    requires ColumnsEdited(db, after, key, QuickChanges(action), today)
    requires EventsTell(db, after, key, QuickChanges(action), QuickSource(action), QuickReason(action), today)
    ensures QuickLogs(db, after, key, action)
  {
    EventsFrom(db, after, key, QuickChanges(action), QuickSource(action), QuickReason(action), today);
    assert QuickSource(action) == "quick:" + NameOf(action);
    hide EventsTell, ColumnsEdited, LoggedIfNew;
    if action.Star? || action.Unstar? {
      FlagEventsLeft(db, after, key, action, today);
    }
  }

  lemma EventsFrom(
    db: Db, after: Db, key: SeenKey, body: Changes, source: string, reason: Option<string>, today: string)
    requires EventsTell(db, after, key, body, source, reason, today)
    ensures |db.log| <= |after.log|
    ensures forall e :: e in after.log[|db.log|..] ==>
              e.key == key && e.source == source && (e.what == PassReason ==> reason.Some?)
    ensures reason.Some? ==>
              |after.log| > 0 && after.log[|after.log| - 1] == Event(key, PassReason, None, reason, source)
  {
    hide InOrder, LoggedBefore, LoggedAfter, WrittenFields;
    var n := |after.log| - if reason.Some? then 1 else 0;
    assert after.log[|db.log|..] == after.log[|db.log|..n] + after.log[n..];
  }

  lemma FlagEventsLeft(db: Db, after: Db, key: SeenKey, action: QuickAction, today: string)
    requires action.Star? || action.Unstar?
    requires ColumnsEdited(db, after, key, QuickChanges(action), today)
    requires EventsTell(db, after, key, QuickChanges(action), QuickSource(action), None, today)
    ensures LoggedIfNew(db, after, key, Starred, if action.Star? then "1" else "0", QuickSource(action))
  {
    QuickBody(action);
    var body, source := QuickChanges(action), QuickSource(action);
    var events := after.log[|db.log|..|after.log|];
    assert after.log == db.log + events;
    QuickColumnsLeft(db, after, key, action, today);
    assert WrittenFields(body) == [Starred] by {
      assert FieldsOf(body) == [Starred];
    }
    OneEvent(Starred, events);
    FlagLogged(db, after, key, body, source, today, events);
  }

  lemma FlagLogged(
    db: Db, after: Db, key: SeenKey, body: Changes, source: string, today: string, events: seq<Event>)
    requires WrittenFields(body) == [Starred] && ColumnAt(after, key, Starred) in {Int(0), Int(1)}
    requires after.log == db.log + events && |events| <= 1
    requires var e := ChangeOf(db, after, key, body, Starred, source, today); e.before != e.after ==> e in events
    requires forall e :: e in events ==>
               && e.what.Tracked? && e.what.field in WrittenFields(body) && e.before != e.after
               && e == ChangeOf(db, after, key, body, e.what.field, source, today)
    ensures LoggedIfNew(db, after, key, Starred, if ColumnAt(after, key, Starred) == Int(1) then "1" else "0", source)
  {
    hide ColumnAt, LoggedBefore, FillsDate, WrittenFields;
    if events == [] {
      assert db.log + events == db.log;
    } else {
      assert events[0] in events && events == [events[0]];
    }
  }

  lemma OneEvent(f: Field, events: seq<Event>)
    requires InOrder([f], events)
    ensures |events| <= 1
  {
    hide Follows;
    if |events| > 1 {
      NoFollower(f, events[0], events[1]);
    }
  }

  lemma NoFollower(f: Field, e: Event, later: Event)
    ensures !Follows([f], e, later)
  {
  }

  /** What the body of an action asks for. */
  lemma QuickBody(action: QuickAction)
    requires !action.Other?
    ensures var body := QuickChanges(action);
            && (forall f :: Names(body, f) <==>
                  match action
                  case Applied(via) => f == Status || (f == AppliedVia && via != "")
                  case Snooze(_) => f == SnoozedUntil
                  case Pass(_) => f == Status
                  case _ => f == Starred)
            && (Asks(body, Status, Text("Applied")) <==> action.Applied?)
  {
    var body := QuickChanges(action);
    assert forall f :: Names(body, f) ==> f == body[0].0 || (|body| > 1 && f == body[1].0);
    assert Names(body, body[0].0) && (|body| > 1 ==> Names(body, body[1].0));
    if action.Pass? {
      assert "Passed" != "Applied" by {
        assert "Passed"[0] == 'P';
      }
    }
    assert action.Applied? ==> body[0] == (Status, Text("Applied"));
  }

  /** The role an action leaves behind, for every action there is. */
  lemma QuickInColumns(db: Db, key: SeenKey, url: Url, action: QuickAction, today: string)
    requires !action.Other?
    ensures var after := UserState.Applied(db, key, url, CoercedAll(QuickChanges(action)),
                                           QuickSource(action), QuickReason(action), today);
            && OnlyTheRole(db, after, key, url) && QuickLeaves(db, after, key, action, today)
            && QuickLogs(db, after, key, action)
  {
    var body, source, reason := QuickChanges(action), QuickSource(action), QuickReason(action);
    var after := UserState.Applied(db, key, url, CoercedAll(body), source, reason, today);
    QuickIsPatch(action);
    EditInColumns(db, key, url, body, source, reason, today);
    EditInEvents(db, key, url, body, source, reason, today);
    hide CoercedAll, UserState.Applied;
    QuickBody(action);
    QuickColumnsLeft(db, after, key, action, today);
    QuickEventsLeft(db, after, key, action, today);
  }
}
