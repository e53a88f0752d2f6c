/**
 The state routes and the ingest as they run on tables. Each method is tied to the step of
 `UserState` that it performs; a method that reports an error has changed nothing.
 */
module UserDatabase {
  import opened Wrappers
  import opened UserState

  const STATUSES: seq<string> :=
    ["New", "Interested", "Applied", "Phone screen", "Interview", "Offer", "Rejected", "Passed"]

  datatype RouteError = UnknownJob | InvalidStatus | UnknownAction

  datatype QuickAction = Applied(via: string) | Snooze(until: string) | Pass(reason: string) | Star | Unstar | Other

  /** What a patch body may hold: texts or null, booleans for the flags. */
  predicate PatchBody(changes: Changes) {
    && OncePerField(changes)
    && forall i :: 0 <= i < |changes| ==> (changes[i].1.Int? ==> IsFlag(changes[i].0))
  }

  class Database {
    var jobs: map<Url, Job>
    var state: map<SeenKey, Row>
    var log: seq<Event>

    ghost function View(): Db
      reads this
    {
      Db(jobs, state, log)
    }

    constructor ()
      ensures View() == Db(map[], map[], [])
    {
      jobs, state, log := map[], map[], [];
    }

    /** `_known`. */
    predicate Known(url: Url)
      reads this
    {
      url in jobs || exists key :: key in state && state[key].url == Some(url)
    }

    method ResolveSeenKey(url: Url) returns (key: SeenKey)
      requires Known(url)
      ensures Resolves(View(), url, key)
    {
      if url in jobs {
        return jobs[url].seenKey;
      }
      key :| key in state && state[key].url == Some(url);
    }

    method RecordFieldEvents(key: SeenKey, prior: Option<Row>, values: Changes, source: string)
      returns (written: nat)
      modifies this`log
      ensures log == old(log) + FieldEvents(key, prior, values, source)
      ensures written == |FieldEvents(key, prior, values, source)|
    {
      written := 0;
      for n := 0 to |values|
        invariant log == old(log) + FieldEvents(key, prior, values[..n], source)
        invariant written == |FieldEvents(key, prior, values[..n], source)|
      {
        assert values[..n + 1][..n] == values[..n];
        var (field, value) := values[n];
        var before, after := OldNorm(prior, field), Norm(field, value);
        if before == after {
          continue;
        }
        log := log + [Event(key, Tracked(field), before, after, source)];
        written := written + 1;
      }
      assert values[..|values|] == values;
    }

    method ApplyState(url: Url, given: Changes, source: string, reason: Option<string>, today: string)
      returns (key: SeenKey)
      requires Known(url)
      modifies this
      ensures Resolves(old(View()), url, key)
      ensures View() == UserState.Applied(old(View()), key, url, CoercedAll(given), source, reason, today)
    {
      var changes := CoercedAll(given);
      key := ResolveSeenKey(url);
      var prior := RowAt(Db(jobs, state, log), key);
      state := state[key := Upserted(prior, url, changes, today)];
      var written := RecordFieldEvents(key, prior, NewValues(prior, changes, today), source);
      if reason.Some? {
        log := log + [Event(key, PassReason, None, reason, source)];
      }
    }

    method PatchState(url: Url, body: Changes, today: string) returns (r: Result<SeenKey, RouteError>)
      requires PatchBody(body)
      modifies this
      ensures r.Err? ==> View() == old(View())
      ensures r == Err(UnknownJob) <==> !old(Known(url))
      ensures r == Err(InvalidStatus) <==>
                old(Known(url)) && Mentions(body, Status) && !ValidStatus(Given(body, Status, Null))
      ensures r.Ok? ==>
                && Resolves(old(View()), url, r.value)
                && Storable(CoercedAll(body))
                && View() == UserState.Applied(old(View()), r.value, url, CoercedAll(body), "patch", None, today)
    {
      if !Known(url) {
        return Err(UnknownJob);
      }
      if Mentions(body, Status) && !ValidStatus(Given(body, Status, Null)) {
        return Err(InvalidStatus);
      }
      CoercedStorable(body);
      var key := ApplyState(url, body, "patch", None, today);
      return Ok(key);
    }

    method Quick(url: Url, action: QuickAction, today: string) returns (r: Result<SeenKey, RouteError>)
      modifies this
      ensures r.Err? ==> View() == old(View())
      ensures r == Err(UnknownJob) <==> !old(Known(url))
      ensures r == Err(UnknownAction) <==> old(Known(url)) && action.Other?
      ensures r.Ok? ==>
                && Resolves(old(View()), url, r.value)
                && Storable(CoercedAll(QuickChanges(action)))
                && View() == UserState.Applied(old(View()), r.value, url, CoercedAll(QuickChanges(action)),
                                               QuickSource(action), QuickReason(action), today)
    {
      if !Known(url) {
        return Err(UnknownJob);
      }
      if action.Other? {
        return Err(UnknownAction);
      }
      QuickIsPatch(action);
      CoercedStorable(QuickChanges(action));
      var key := ApplyState(url, QuickChanges(action), QuickSource(action), QuickReason(action), today);
      return Ok(key);
    }

    // ------------------------------------------------------------------ ingest

    /** Step 4: every job absent, then the present run's rows. */
    method LoadRun(rows: seq<CsvRow>) returns (present: set<Url>)
      modifies this`jobs
      ensures jobs == Present(AllAbsent(old(jobs)), rows)
      ensures present == set r | r in rows :: r.url
    {
      jobs := AllAbsent(jobs);
      present := {};
      for n := 0 to |rows|
        invariant jobs == Present(AllAbsent(old(jobs)), rows[..n])
        invariant present == set r | r in rows[..n] :: r.url
      {
        assert rows[..n + 1][..n] == rows[..n];
        assert rows[..n + 1] == rows[..n] + [rows[n]];
        present := present + {rows[n].url};
        jobs := jobs[rows[n].url := Job(rows[n].key, true)];
      }
      assert rows[..|rows|] == rows;
    }

    /** Steps 7a and 7b, row by row. */
    method RefreshUrls()
      modifies this`state
      ensures state == Refreshed(old(state), jobs)
    {
      var todo := state.Keys;
      while todo != {}
        invariant todo <= state.Keys == old(state).Keys
        invariant forall key :: key in old(state) ==>
          state[key] == if key in todo then old(state)[key] else Readdressed(key, old(state)[key], jobs)
        decreases todo
      {
        ghost var some: SeenKey := SomeMember(todo);
        assert some in todo;
        var key: SeenKey :| key in todo;
        var urls := UrlsOf(jobs, key);
        var row := state[key];
        if urls != {} {
          ghost var least: Url := Least(urls);
          assert least in urls && forall u :: u in urls ==> least <= u;
          var first: Url :| first in urls && forall u :: u in urls ==> first <= u;
          state := state[key := row.(url := Some(first))];
        } else if row.url.Some? && row.url.value in jobs && jobs[row.url.value].present {
          state := state[key := row.(url := None)];
        }
        todo := todo - {key};
      }
    }

    /** Step 8. */
    method SeedPicks(present: set<Url>, picks: seq<Pick>)
      modifies this`state, this`log
      ensures View() == Seeded(old(View()), present, picks)
    {
      var haveState := state.Keys;
      for n := 0 to |picks|
        invariant View() == Seeded(old(View()), present, picks[..n])
        invariant haveState == state.Keys
      {
        assert picks[..n + 1][..n] == picks[..n];
        var url := picks[n].url;
        if url !in present || url !in jobs || jobs[url].seenKey in haveState {
          continue;
        }
        var key := jobs[url].seenKey;
        var changes := SeedChanges(picks[n].notes);
        state := state[key := Row(Some(url), Written(map[], changes))];
        var written := RecordFieldEvents(key, None, changes, "ingest:picks");
        haveState := haveState + {key};
      }
      assert picks[..|picks|] == picks;
    }

    method IngestRun(rows: seq<CsvRow>, picks: seq<Pick>)
      modifies this
      ensures View() == Ingested(old(View()), rows, picks)
    {
      var present := LoadRun(rows);
      RefreshUrls();
      SeedPicks(present, picks);
    }
  }

  predicate ValidStatus(v: Value) {
    v.Text? && v.text in STATUSES
  }

  function QuickChanges(action: QuickAction): Changes {
    match action
    case Applied(via) =>
      if via != "" then [(Status, Text("Applied")), (AppliedVia, Text(via))] else [(Status, Text("Applied"))]
    case Snooze(until) => [(SnoozedUntil, Text(until))]
    case Pass(_) => [(Status, Text("Passed"))]
    case Star => [(Starred, Int(1))]
    case Unstar => [(Starred, Int(0))]
    case Other => []
  }

  function QuickReason(action: QuickAction): Option<string> {
    if action.Pass? && action.reason != "" then Some(action.reason) else None
  }

  function QuickSource(action: QuickAction): string {
    match action
    case Applied(_) => "quick:applied"
    case Snooze(_) => "quick:snooze"
    case Pass(_) => "quick:pass"
    case Star => "quick:star"
    case Unstar => "quick:unstar"
    case Other => ""
  }

  lemma QuickIsPatch(action: QuickAction)
    ensures PatchBody(QuickChanges(action))
    ensures Mentions(QuickChanges(action), Status) ==> ValidStatus(Given(QuickChanges(action), Status, Null))
  {
    var changes := QuickChanges(action);
    if action.Applied? || action.Pass? {
      assert STATUSES[2] == "Applied" && STATUSES[7] == "Passed";
      GivenAt(changes, 0);
    }
  }

  lemma {:induction false} CoercedAt(changes: Changes)
    ensures |CoercedAll(changes)| == |changes|
    ensures forall i :: 0 <= i < |changes| ==> CoercedAll(changes)[i] == Coerced(changes[i])
  {
    if changes != [] {
      CoercedAt(changes[..|changes| - 1]);
    }
  }

  /** What the routes let through is what the log invariant asks of an edit. */
  lemma CoercedStorable(changes: Changes)
    requires PatchBody(changes)
    requires Mentions(changes, Status) ==> ValidStatus(Given(changes, Status, Null))
    ensures Storable(CoercedAll(changes))
  {
    CoercedAt(changes);
    var c := CoercedAll(changes);
    forall i | 0 <= i < |c| && c[i].0 == Status ensures c[i].1.Text? && c[i].1.text != "" {
      assert changes[i].0 == Status;
      GivenAt(changes, i);
      assert "" !in STATUSES;
    }
  }
}
