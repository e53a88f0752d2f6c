/**
 What an ingest leaves behind, told from the run's rows and the picks: which jobs are present,
 which address each role shows, and which roles a pick has seeded.
 */
module IngestOutcome {
  import opened Wrappers
  import opened UserState

  // --------------------------------------------------------------------- jobs

  ghost predicate InRun(rows: seq<CsvRow>, u: Url) {
    exists i :: 0 <= i < |rows| && rows[i].url == u
  }

  ghost predicate LastRow(rows: seq<CsvRow>, i: int) {
    0 <= i < |rows| && forall j :: i < j < |rows| ==> rows[j].url != rows[i].url
  }

  /** The run's urls are present, each with the role of its last row; all others are absent. */
  ghost predicate JobsTold(before: map<Url, Job>, rows: seq<CsvRow>, after: map<Url, Job>) {
    && (forall u :: u in after <==> u in before || InRun(rows, u))
    && (forall i :: LastRow(rows, i) ==> rows[i].url in after && after[rows[i].url] == Job(rows[i].key, true))
    && (forall u :: u in before && !InRun(rows, u) ==> u in after && after[u] == Job(before[u].seenKey, false))
  }

  lemma {:induction false} RunsJobs(jobs: map<Url, Job>, rows: seq<CsvRow>)
    ensures JobsTold(jobs, rows, Present(AllAbsent(jobs), rows))
  {
    if rows != [] {
      var init, last := rows[..|rows| - 1], rows[|rows| - 1];
      RunsJobs(jobs, init);
      assert rows == init + [last];
      OneMoreRow(jobs, init, last, Present(AllAbsent(jobs), init));
    }
  }

  lemma OneMoreRow(jobs: map<Url, Job>, init: seq<CsvRow>, last: CsvRow, sofar: map<Url, Job>)
    requires JobsTold(jobs, init, sofar)
    ensures JobsTold(jobs, init + [last], sofar[last.url := Job(last.key, true)])
  {
    var rows, after := init + [last], sofar[last.url := Job(last.key, true)];
    assert rows[|init|] == last;
    forall u ensures InRun(rows, u) <==> InRun(init, u) || u == last.url {
      if InRun(init, u) {
        var i :| 0 <= i < |init| && init[i].url == u;
        assert rows[i].url == u;
      }
    }
    hide InRun;
    forall i | LastRow(rows, i) && i < |init|
      ensures LastRow(init, i) && rows[i] == init[i] && rows[i].url != last.url
    {
      assert rows[|init|].url != rows[i].url;
      assert forall j :: i < j < |init| ==> rows[j] == init[j];
    }
    hide LastRow;
    assert forall i :: LastRow(rows, i) ==> i <= |init| by {
      OnlyRows(rows);
    }
  }

  lemma OnlyRows(rows: seq<CsvRow>)
    ensures forall i :: LastRow(rows, i) ==> 0 <= i < |rows|
  {
  }

  // ---------------------------------------------------------------- addresses

  ghost predicate Shows(jobs: map<Url, Job>, key: SeenKey, u: Url) {
    u in jobs && jobs[u].present && jobs[u].seenKey == key
  }

  /** A row keeps its columns; its address is the least present one of its role, or not another's. */
  ghost predicate RowTold(key: SeenKey, before: Row, jobs: map<Url, Job>, after: Row) {
    && after.columns == before.columns
    && if exists u :: Shows(jobs, key, u) then
         after.url.Some? && Shows(jobs, key, after.url.value)
         && forall u :: Shows(jobs, key, u) ==> after.url.value <= u
       else
         after.url == if before.url.Some? && before.url.value in jobs && jobs[before.url.value].present
                      then None else before.url
  }

  lemma RowRefreshed(key: SeenKey, row: Row, jobs: map<Url, Job>)
    ensures RowTold(key, row, jobs, Readdressed(key, row, jobs))
  {
    assert forall u :: Shows(jobs, key, u) <==> u in UrlsOf(jobs, key);
    if UrlsOf(jobs, key) != {} {
      var u := Least(UrlsOf(jobs, key));
      assert Shows(jobs, key, u);
    }
  }

  // -------------------------------------------------------------------- seeds

  /** The i-th pick is of a present job of the role. */
  ghost predicate PickOf(jobs: map<Url, Job>, present: set<Url>, picks: seq<Pick>, key: SeenKey, i: int) {
    && 0 <= i < |picks| && picks[i].url in present && picks[i].url in jobs
    && jobs[picks[i].url].seenKey == key
  }

  ghost predicate Picked(jobs: map<Url, Job>, present: set<Url>, picks: seq<Pick>, key: SeenKey) {
    exists i :: PickOf(jobs, present, picks, key, i)
  }

  ghost predicate FirstPick(jobs: map<Url, Job>, present: set<Url>, picks: seq<Pick>, key: SeenKey, i: int) {
    PickOf(jobs, present, picks, key, i) && forall j :: 0 <= j < i ==> !PickOf(jobs, present, picks, key, j)
  }

  /** The events of one role, in the order of the log. */
  function About(log: seq<Event>, key: SeenKey): seq<Event> {
    if log == [] then []
    else
      About(log[..|log| - 1], key) + if log[|log| - 1].key == key then [log[|log| - 1]] else []
  }

  /** A seeded row: interested, starred, with the pick's notes, and everything else as in a new row. */
  ghost predicate SeededAs(row: Row, pick: Pick) {
    && row.url == Some(pick.url)
    && row.Column(Status) == Text("Interested")
    && row.Column(Notes) == Text(pick.notes)
    && row.Column(Starred) == Int(1)
    && forall f :: f !in {Status, Notes, Starred} ==> row.Column(f) == Row(None, map[]).Column(f)
  }

  /** The events of a seeded row; empty notes are no change. */
  function SeedEvents(key: SeenKey, notes: string): seq<Event> {
    [Event(key, Tracked(Status), None, Some("Interested"), "ingest:picks")]
    + (if notes == "" then [] else [Event(key, Tracked(Notes), None, Some(notes), "ingest:picks")])
    + [Event(key, Tracked(Starred), None, Some("1"), "ingest:picks")]
  }

  ghost predicate SeedsTold(db: Db, present: set<Url>, picks: seq<Pick>, after: Db) {
    && after.jobs == db.jobs
    && (forall key :: key in after.state <==> key in db.state || Picked(db.jobs, present, picks, key))
    && (forall key :: key in db.state ==> key in after.state && after.state[key] == db.state[key])
    && (forall key, i :: key !in db.state && FirstPick(db.jobs, present, picks, key, i) ==>
          && key in after.state && SeededAs(after.state[key], picks[i])
          && About(after.log, key) == About(db.log, key) + SeedEvents(key, picks[i].notes))
    && (forall key :: key in db.state || !Picked(db.jobs, present, picks, key) ==>
          About(after.log, key) == About(db.log, key))
    && |db.log| <= |after.log| && after.log[..|db.log|] == db.log
  }

  lemma {:induction false} AboutMore(log: seq<Event>, more: seq<Event>, key: SeenKey)
    ensures About(log + more, key) == About(log, key) + About(more, key)
  {
    if more == [] {
      assert log + more == log;
      assert About(log, key) + [] == About(log, key);
    } else {
      assert (log + more)[..|log + more| - 1] == log + more[..|more| - 1];
      AboutMore(log, more[..|more| - 1], key);
    }
  }

  /** The fields of a seed, and what the log says of them. */
  lemma SeedLog(key: SeenKey, notes: string)
    ensures FieldEvents(key, None, SeedChanges(notes), "ingest:picks") == SeedEvents(key, notes)
  {
    var changes := SeedChanges(notes);
    var status, note := (Status, INTERESTED), (Notes, Text(notes));
    assert changes[..2] == [status, note] && [status, note][..1] == [status] && [status][..0] == [];
    var source := "ingest:picks";
    assert FieldEvents(key, None, [], source) == [];
    assert FieldEvents(key, None, [status], source) == [Event(key, Tracked(Status), None, Some("Interested"), source)];
    assert FieldEvents(key, None, [status, note], source)
        == [Event(key, Tracked(Status), None, Some("Interested"), source)]
           + if notes == "" then [] else [Event(key, Tracked(Notes), None, Some(notes), source)];
  }

  lemma {:induction false} AboutAll(log: seq<Event>, key: SeenKey, other: SeenKey)
    requires forall e :: e in log ==> e.key == key
    ensures About(log, key) == log && (other != key ==> About(log, other) == [])
  {
    if log != [] {
      AboutAll(log[..|log| - 1], key, other);
      assert log == log[..|log| - 1] + [log[|log| - 1]];
    }
  }

  lemma SeedRow(pick: Pick)
    ensures SeededAs(Row(Some(pick.url), Written(map[], SeedChanges(pick.notes))), pick)
  {
    var changes := SeedChanges(pick.notes);
    assert changes[..2][..1][..0] == [] && changes[..2][..1] == changes[..1] && changes[..2][1] == changes[1];
    assert Written(map[], changes[..1][..0]) == map[];
    assert Written(map[], changes[..1]) == map[Status := INTERESTED];
    assert Written(map[], changes[..2]) == map[Status := INTERESTED, Notes := Text(pick.notes)];
  }

  ghost predicate LastPickOf(jobs: map<Url, Job>, present: set<Url>, pick: Pick, key: SeenKey) {
    pick.url in present && pick.url in jobs && jobs[pick.url].seenKey == key
  }

  lemma PickedMore(jobs: map<Url, Job>, present: set<Url>, init: seq<Pick>, last: Pick, key: SeenKey)
    ensures Picked(jobs, present, init + [last], key)
       <==> Picked(jobs, present, init, key) || LastPickOf(jobs, present, last, key)
    ensures forall i :: FirstPick(jobs, present, init + [last], key, i) ==>
              if 0 <= i < |init| then FirstPick(jobs, present, init, key, i) && (init + [last])[i] == init[i]
              else
                && i == |init| && (init + [last])[i] == last
                && LastPickOf(jobs, present, last, key) && !Picked(jobs, present, init, key)
  {
    var picks := init + [last];
    forall i: int
      ensures 0 <= i < |init| ==> (PickOf(jobs, present, picks, key, i) <==> PickOf(jobs, present, init, key, i))
    {
    }
    assert LastPickOf(jobs, present, last, key) ==> PickOf(jobs, present, picks, key, |init|);
    if Picked(jobs, present, init, key) {
      var i :| PickOf(jobs, present, init, key, i);
      assert PickOf(jobs, present, picks, key, i);
    }
  }

  /** One pick more, for the table it is read against. */
  lemma OneMorePick(db: Db, present: set<Url>, init: seq<Pick>, last: Pick, sofar: Db, after: Db)
    requires SeedsTold(db, present, init, sofar)
    requires if last.url in present && last.url in db.jobs && db.jobs[last.url].seenKey !in sofar.state then
               var key := db.jobs[last.url].seenKey;
               && after.jobs == sofar.jobs
               && SeededAs(Row(Some(last.url), Written(map[], SeedChanges(last.notes))), last)
               && after.state == sofar.state[key := Row(Some(last.url), Written(map[], SeedChanges(last.notes)))]
               && after.log == sofar.log + SeedEvents(key, last.notes)
             else after == sofar
    ensures SeedsTold(db, present, init + [last], after)
  {
    hide SeededAs, Picked, FirstPick, PickOf, SeedEvents, About;
    forall key ensures
      && (Picked(db.jobs, present, init + [last], key)
          <==> Picked(db.jobs, present, init, key) || LastPickOf(db.jobs, present, last, key))
      && forall i :: FirstPick(db.jobs, present, init + [last], key, i) ==>
           if 0 <= i < |init| then FirstPick(db.jobs, present, init, key, i) && (init + [last])[i] == init[i]
           else
             && i == |init| && (init + [last])[i] == last
             && LastPickOf(db.jobs, present, last, key) && !Picked(db.jobs, present, init, key)
    {
      PickedMore(db.jobs, present, init, last, key);
    }
    forall key, i | FirstPick(db.jobs, present, init, key, i) ensures Picked(db.jobs, present, init, key) {
      FirstIsPick(db.jobs, present, init, key, i);
    }
    forall key, i | FirstPick(db.jobs, present, init + [last], key, i) ensures 0 <= i < |init + [last]| {
      FirstIsPick(db.jobs, present, init + [last], key, i);
    }
    if after != sofar {
      var k := db.jobs[last.url].seenKey;
      forall key ensures About(after.log, key)
           == if key == k then About(sofar.log, key) + SeedEvents(k, last.notes) else About(sofar.log, key)
      {
        SeedsAbout(sofar.log, k, last.notes, key);
      }
      assert after.log[..|db.log|] == sofar.log[..|db.log|];
    }
  }

  lemma FirstIsPick(jobs: map<Url, Job>, present: set<Url>, picks: seq<Pick>, key: SeenKey, i: int)
    requires FirstPick(jobs, present, picks, key, i)
    ensures Picked(jobs, present, picks, key) && 0 <= i < |picks|
  {
  }

  lemma SeedsAbout(log: seq<Event>, k: SeenKey, notes: string, key: SeenKey)
    ensures About(log + SeedEvents(k, notes), key)
         == if key == k then About(log, key) + SeedEvents(k, notes) else About(log, key)
  {
    assert forall e :: e in SeedEvents(k, notes) ==> e.key == k;
    hide SeedEvents, About;
    AboutMore(log, SeedEvents(k, notes), key);
    AboutAll(SeedEvents(k, notes), k, key);
    assert About(log, key) + [] == About(log, key);
  }

  lemma {:induction false} SeedsOf(db: Db, present: set<Url>, picks: seq<Pick>)
    ensures SeedsTold(db, present, picks, Seeded(db, present, picks))
  {
    if picks == [] {
      assert forall key, i :: !PickOf(db.jobs, present, picks, key, i);
    } else {
      var init, last := picks[..|picks| - 1], picks[|picks| - 1];
      var sofar := Seeded(db, present, init);
      SeedsOf(db, present, init);
      assert picks == init + [last];
      SeedRow(last);
      hide Written, SeedChanges, SeededAs;
      if last.url in present && last.url in db.jobs {
        SeedLog(db.jobs[last.url].seenKey, last.notes);
      }
      OneMorePick(db, present, init, last, sofar, Seeded(db, present, picks));
    }
  }

  // ------------------------------------------------------------------- ingest

  /** The whole of an ingest: jobs, addresses, seeds and log. */
  lemma IngestInWords(db: Db, rows: seq<CsvRow>, picks: seq<Pick>)
    ensures var after := Ingested(db, rows, picks);
            var run := set r | r in rows :: r.url;
            && JobsTold(db.jobs, rows, after.jobs)
            && (forall key :: key in db.state ==>
                  key in after.state && RowTold(key, db.state[key], after.jobs, after.state[key]))
            && SeedsTold(Db(after.jobs, map key | key in db.state :: after.state[key], db.log), run, picks, after)
  {
    var jobs := Present(AllAbsent(db.jobs), rows);
    var refreshed := Db(jobs, Refreshed(db.state, jobs), db.log);
    RunsJobs(db.jobs, rows);
    SeedsOf(refreshed, set r | r in rows :: r.url, picks);
    hide JobsTold, RowTold, Seeded;
    forall key | key in db.state ensures RowTold(key, db.state[key], jobs, refreshed.state[key]) {
      RowRefreshed(key, db.state[key], jobs);
    }
    assert refreshed.state == map key | key in db.state :: Ingested(db, rows, picks).state[key];
  }
}
