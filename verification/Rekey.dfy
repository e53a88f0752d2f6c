/**
 Migration 3 (migrations.py): `job_state` is re-keyed from url to role. Each role keeps its
 best row and the rest are archived; no row is lost, and no role ends up displaying the
 address of another role's present job.
 */
module Rekey {
  import opened Wrappers
  import opened Ordering
  import opened UserState

  /** An address as stored: none, an orphan-parking surrogate, or a real url; `rank` orders them. */
  datatype StoredUrl = NoUrl | Surrogate(rank: int) | Address(url: Url)

  /** `statusIndex` is the status's index in STATUSES, -1 when it is not one; `rid` is the rowid. */
  datatype OldRow = OldRow(
    rid: int, key: SeenKey, url: StoredUrl, statusIndex: int, updatedAt: int, columns: map<Field, Value>)

  function UrlKey(url: StoredUrl): Key {
    match url
    case NoUrl => [0]
    case Surrogate(n) => [1, n]
    case Address(u) => [1, u]
  }

  function Rank(r: OldRow): Key {
    [r.statusIndex, r.updatedAt] + UrlKey(r.url)
  }

  ghost predicate DistinctRids(rows: seq<OldRow>) {
    forall i, j :: 0 <= i < j < |rows| ==> rows[i].rid != rows[j].rid
  }

  function KeysOf(rows: seq<OldRow>): set<SeenKey> {
    set r | r in rows :: r.key
  }

  /** The rows of one role, in table order. */
  function GroupOf(rows: seq<OldRow>, key: SeenKey): seq<OldRow> {
    if rows == [] then []
    else
      var last := rows[|rows| - 1];
      GroupOf(rows[..|rows| - 1], key) + if last.key == key then [last] else []
  }

  /** `max` keeps the first of equals. */
  function Best(group: seq<OldRow>): OldRow
    requires group != []
  {
    var last := group[|group| - 1];
    if |group| == 1 then last
    else
      var best := Best(group[..|group| - 1]);
      if Less(Rank(best), Rank(last)) then last else best
  }

  lemma {:induction false} GroupMembers(rows: seq<OldRow>, key: SeenKey)
    ensures forall r :: r in GroupOf(rows, key) <==> r in rows && r.key == key
    ensures GroupOf(rows, key) != [] <==> key in KeysOf(rows)
  {
    if rows != [] {
      var init, last := rows[..|rows| - 1], rows[|rows| - 1];
      GroupMembers(init, key);
      assert rows == init + [last];
      assert KeysOf(rows) == KeysOf(init) + {last.key};
    }
  }

  /** The winner is a row of its role that no other row of the role beats. */
  lemma {:induction false} BestIsBest(group: seq<OldRow>)
    requires group != []
    ensures Best(group) in group
    ensures forall r :: r in group ==> !Less(Rank(Best(group)), Rank(r))
  {
    hide Rank, Less;
    var init, last := group[..|group| - 1], group[|group| - 1];
    assert group == init + [last];
    if |group| == 1 {
      NotLessSelf(Rank(last));
      assert group == [last];
    } else {
      BestIsBest(init);
      BestOf(group);
      hide *;
      forall r | r in group ensures !Less(Rank(Best(group)), Rank(r)) {
        NotBeatenByMore(Rank(Best(init)), Rank(last), Rank(r));
      }
    }
  }

  lemma BestOf(group: seq<OldRow>)
    requires |group| > 1
    ensures var best, last := Best(group[..|group| - 1]), group[|group| - 1];
            Best(group) == if Less(Rank(best), Rank(last)) then last else best
  {
    hide Rank, Less;
  }

  lemma NotBeatenByMore(best: Key, last: Key, r: Key)
    requires !Less(best, r) || r == last
    ensures !Less(if Less(best, last) then last else best, r)
  {
    NotLessSelf(last);
    if Less(best, last) && Less(last, r) {
      LessTransitive(best, last, r);
    }
  }

  lemma {:induction false} NotLessSelf(a: Key)
    ensures !Less(a, a)
  {
    if a != [] {
      NotLessSelf(a[1..]);
    }
  }

  function Winner(rows: seq<OldRow>, key: SeenKey): OldRow
    requires key in KeysOf(rows)
  {
    GroupMembers(rows, key);
    Best(GroupOf(rows, key))
  }

  lemma WinnerIsRow(rows: seq<OldRow>, key: SeenKey)
    requires key in KeysOf(rows)
    ensures Winner(rows, key) in rows && Winner(rows, key).key == key
    ensures forall r :: r in rows && r.key == key ==> !Less(Rank(Winner(rows, key)), Rank(r))
  {
    GroupMembers(rows, key);
    BestIsBest(GroupOf(rows, key));
  }

  /** How the addresses sort: none before any, and two of them by their texts. */
  predicate UrlBefore(a: StoredUrl, b: StoredUrl) {
    match (a, b)
    case (NoUrl, _) => !b.NoUrl?
    case (_, NoUrl) => false
    case (Surrogate(m), Surrogate(n)) => m < n
    case (Surrogate(m), Address(v)) => m < v
    case (Address(u), Surrogate(n)) => u < n
    case (Address(u), Address(v)) => u < v
  }

  /** `r` has the more advanced status, or as advanced a one and the later update, or then the greater address. */
  predicate Beats(r: OldRow, other: OldRow) {
    || r.statusIndex > other.statusIndex
    || (r.statusIndex == other.statusIndex && r.updatedAt > other.updatedAt)
    || (r.statusIndex == other.statusIndex && r.updatedAt == other.updatedAt && UrlBefore(other.url, r.url))
  }

  lemma LessIsBeaten(r: OldRow, other: OldRow)
    ensures Less(Rank(r), Rank(other)) <==> Beats(other, r)
  {
    var a, b := Rank(r), Rank(other);
    assert Less(a, b) <==> a[0] < b[0] || (a[0] == b[0] && Less(a[1..], b[1..]));
    assert Less(a[1..], b[1..]) <==> a[1] < b[1] || (a[1] == b[1] && Less(a[2..], b[2..])) by {
      assert a[1..][1..] == a[2..] && b[1..][1..] == b[2..];
    }
    assert a[2..] == UrlKey(r.url) && b[2..] == UrlKey(other.url);
    UrlsSort(r.url, other.url);
  }

  lemma UrlsSort(a: StoredUrl, b: StoredUrl)
    ensures Less(UrlKey(a), UrlKey(b)) <==> UrlBefore(a, b)
  {
    match a
    case NoUrl =>
    case Surrogate(m) => PairsSort(m, if b.Surrogate? then b.rank else if b.Address? then b.url else 0);
    case Address(u) => PairsSort(u, if b.Surrogate? then b.rank else if b.Address? then b.url else 0);
    assert Less([0], [0]) <==> Less([0][1..], [0][1..]);
  }

  lemma PairsSort(m: int, n: int)
    ensures Less([1, m], [1, n]) <==> m < n
  {
    assert [1, m][1..] == [m] && [1, n][1..] == [n] && [m][1..] == [] && [n][1..] == [];
    assert Less([m], [n]) <==> m < n;
  }

  /** The i-th row is the role's, beaten by none of it, and beats every row of it in front. */
  ghost predicate Leads(rows: seq<OldRow>, key: SeenKey, i: int) {
    && 0 <= i < |rows| && rows[i].key == key
    && (forall r :: r in rows && r.key == key ==> !Beats(r, rows[i]))
    && (forall j :: 0 <= j < i && rows[j].key == key ==> Beats(rows[i], rows[j]))
  }

  /** In the rows' own columns, the winner is the first of the most advanced, latest and greatest. */
  lemma {:induction false} WinnerLeads(rows: seq<OldRow>, key: SeenKey)
    requires key in KeysOf(rows)
    ensures exists i :: 0 <= i < |rows| && Leads(rows, key, i) && Winner(rows, key) == rows[i]
  {
    var init, last := rows[..|rows| - 1], rows[|rows| - 1];
    hide *;
    assert rows == init + [last];
    WinnerOneMore(init, last, key);
    if key in KeysOf(init) {
      WinnerLeads(init, key);
      var i :| 0 <= i < |init| && Leads(init, key, i) && Winner(init, key) == init[i];
      LeadsOn(init, last, key, i);
    } else {
      FirstLeads(init, last, key);
    }
  }

  lemma FirstLeads(init: seq<OldRow>, last: OldRow, key: SeenKey)
    requires key !in KeysOf(init) && key in KeysOf(init + [last])
    ensures Leads(init + [last], key, |init|)
  {
    var rows := init + [last];
    assert forall r :: r in rows ==> r in init || r == last;
    assert forall j :: 0 <= j < |init| ==> init[j].key in KeysOf(init);
  }

  lemma LeadsOn(init: seq<OldRow>, last: OldRow, key: SeenKey, i: int)
    requires Leads(init, key, i)
    ensures if key == last.key && Less(Rank(init[i]), Rank(last)) then Leads(init + [last], key, |init|)
            else Leads(init + [last], key, i)
  {
    LessIsBeaten(init[i], last);
    hide Less, Rank, Beats;
    var rows := init + [last];
    assert forall r :: r in rows ==> r in init || r == last;
    forall r | r in init && r.key == key && Beats(last, init[i]) ensures Beats(last, r) && !Beats(r, last) {
      BeatsOn(last, init[i], r);
    }
    NotBeatsSelf(last);
    assert forall j :: 0 <= j < |init| ==> rows[j] == init[j] && init[j] in init;
  }

  lemma NotBeatsSelf(r: OldRow)
    ensures !Beats(r, r)
  {
  }

  /** What beats a row beats all that row is not beaten by. */
  lemma BeatsOn(a: OldRow, b: OldRow, c: OldRow)
    requires Beats(a, b) && !Beats(c, b)
    ensures Beats(a, c) && !Beats(c, a)
  {
  }

  // --------------------------------------------------------------- no row is lost

  ghost function Losers(rows: seq<OldRow>): set<int> {
    set r | r in rows && r.rid != Winner(rows, r.key).rid :: r.rid
  }

  lemma WinnerOneMore(init: seq<OldRow>, last: OldRow, key: SeenKey)
    requires key in KeysOf(init + [last])
    ensures Winner(init + [last], key)
         == if key != last.key then Winner(init, key)
            else if key !in KeysOf(init) then last
            else if Less(Rank(Winner(init, key)), Rank(last)) then last else Winner(init, key)
    ensures KeysOf(init + [last]) == KeysOf(init) + {last.key}
  {
    assert (init + [last])[..|init|] == init;
    GroupMembers(init, key);
    GroupMembers(init + [last], key);
    var group := GroupOf(init, key);
    assert key == last.key ==> (group + [last])[..|group|] == group;
    assert group + [] == group;
    assert KeysOf(init + [last]) == KeysOf(init) + {last.key};
  }

  /** One winner per role, and everything else archived, is the whole table. */
  lemma {:induction false} LosersCounted(rows: seq<OldRow>)
    requires DistinctRids(rows)
    ensures |Losers(rows)| + |KeysOf(rows)| == |rows|
  {
    if rows != [] {
      var init, last := rows[..|rows| - 1], rows[|rows| - 1];
      assert rows == init + [last];
      LosersCounted(init);
      LosersOneMore(init, last);
    }
  }

  lemma LastKey(init: seq<OldRow>, last: OldRow)
    ensures last.key in KeysOf(init + [last])
  {
    assert last in init + [last];
  }

  lemma LosersOneMore(init: seq<OldRow>, last: OldRow)
    requires DistinctRids(init + [last])
    ensures KeysOf(init + [last]) == KeysOf(init) + {last.key}
    ensures |Losers(init + [last])| + |KeysOf(init + [last])| == |Losers(init)| + |KeysOf(init)| + 1
  {
    hide *;
    LastKey(init, last);
    WinnerOneMore(init, last, last.key);
    if last.key !in KeysOf(init) {
      FreshKeyLosers(init, last);
    } else {
      var w := Winner(init, last.key);
      var out := if Less(Rank(w), Rank(last)) then w.rid else last.rid;
      ContestedLosers(init, last, out);
      LoserIsNoWinner(init, last, w);
      assert KeysOf(init) + {last.key} == KeysOf(init);
    }
  }

  lemma SameRidSameRow(rows: seq<OldRow>, x: OldRow, y: OldRow)
    requires DistinctRids(rows) && x in rows && y in rows && x.rid == y.rid
    ensures x == y
  {
    var i :| 0 <= i < |rows| && rows[i] == x;
    var j :| 0 <= j < |rows| && rows[j] == y;
  }

  lemma LoserIsNoWinner(init: seq<OldRow>, last: OldRow, w: OldRow)
    requires DistinctRids(init + [last]) && last.key in KeysOf(init) && w == Winner(init, last.key)
    ensures w.rid !in Losers(init) && last.rid !in Losers(init)
  {
    WinnerIsRow(init, last.key);
    var rows := init + [last];
    forall r | r in init && r.rid != Winner(init, r.key).rid ensures r.rid != w.rid && r.rid != last.rid {
      assert r in rows && w in rows && last in rows;
      if r.rid == w.rid {
        SameRidSameRow(rows, r, w);
      }
      RidsApart(init, last, r);
    }
  }

  lemma RidsApart(init: seq<OldRow>, last: OldRow, r: OldRow)
    requires DistinctRids(init + [last]) && r in init
    ensures r.rid != last.rid
  {
    var i :| 0 <= i < |init| && init[i] == r;
    assert (init + [last])[i].rid != (init + [last])[|init|].rid;
  }

  lemma FreshKeyLosers(init: seq<OldRow>, last: OldRow)
    requires last.key !in KeysOf(init)
    ensures Losers(init + [last]) == Losers(init)
  {
    var rows := init + [last];
    WinnerOneMore(init, last, last.key);
    forall r | r in init ensures r.key in KeysOf(init) && Winner(rows, r.key) == Winner(init, r.key) {
      assert r.key in KeysOf(init);
      WinnerOneMore(init, last, r.key);
    }
  }

  lemma ContestedLosers(init: seq<OldRow>, last: OldRow, out: int)
    requires DistinctRids(init + [last]) && last.key in KeysOf(init)
    requires out == if Less(Rank(Winner(init, last.key)), Rank(last)) then Winner(init, last.key).rid else last.rid
    ensures Losers(init + [last]) == Losers(init) + {out}
  {
    var rows, w := init + [last], Winner(init, last.key);
    WinnerIsRow(init, last.key);
    WinnerOneMore(init, last, last.key);
    RidsApart(init, last, w);
    forall r | r in init
      ensures r.key in KeysOf(init)
      ensures r.rid in Losers(rows) <==> r.rid in Losers(init) || r.rid == out
      ensures r.rid != last.rid
    {
      assert r.key in KeysOf(init);
      WinnerOneMore(init, last, r.key);
      RidsApart(init, last, r);
      LoserRid(rows, r);
      LoserRidBefore(init, last, r);
      if r.rid == w.rid {
        assert w in rows && r in rows;
        SameRidSameRow(rows, r, w);
      }
    }
    LoserRid(rows, last);
    assert last in rows;
    forall x ensures x in Losers(rows) <==> x in Losers(init) + {out} {
      if x in Losers(rows) {
        var r :| r in rows && r.rid == x;
        assert r in init || r == last;
      }
      if x in Losers(init) {
        var r :| r in init && r.rid == x;
      }
    }
  }

  lemma LoserRid(rows: seq<OldRow>, r: OldRow)
    requires DistinctRids(rows) && r in rows
    ensures r.key in KeysOf(rows)
    ensures r.rid in Losers(rows) <==> r.rid != Winner(rows, r.key).rid
  {
    if r.rid in Losers(rows) {
      var x :| x in rows && x.rid != Winner(rows, x.key).rid && x.rid == r.rid;
      SameRidSameRow(rows, x, r);
    }
  }

  lemma LoserRidBefore(init: seq<OldRow>, last: OldRow, r: OldRow)
    requires DistinctRids(init + [last]) && r in init
    ensures r.key in KeysOf(init)
    ensures r.rid in Losers(init) <==> r.rid != Winner(init, r.key).rid
  {
    assert forall i :: 0 <= i < |init| ==> (init + [last])[i] == init[i];
    LoserRid(init, r);
  }

  // ------------------------------------------------------------- the migration

  /** `_winner_display_url`; a role with several present jobs may take any of their urls. */
  ghost predicate Displays(jobs: map<Url, Job>, key: SeenKey, stored: StoredUrl, shown: Option<Url>) {
    if UrlsOf(jobs, key) != {} then shown.Some? && shown.value in UrlsOf(jobs, key)
    else if stored.Address? && stored.url in jobs && jobs[stored.url].present then shown == None
    else shown == if stored.Address? then Some(stored.url) else None
  }

  method DisplayUrl(jobs: map<Url, Job>, key: SeenKey, stored: StoredUrl) returns (shown: Option<Url>)
    ensures Displays(jobs, key, stored, shown)
  {
    var urls := UrlsOf(jobs, key);
    if urls != {} {
      ghost var some: Url := SomeMember(urls);
      assert some in urls;
      var u: Url :| u in urls;
      return Some(u);
    }
    if stored.Surrogate? {
      return None;
    }
    if stored.Address? && stored.url in jobs && jobs[stored.url].present {
      return None;
    }
    return if stored.Address? then Some(stored.url) else None;
  }

  method CollisionWinner(group: seq<OldRow>) returns (best: OldRow)
    requires group != []
    ensures best == Best(group)
  {
    best := group[0];
    for n := 1 to |group|
      invariant best == Best(group[..n])
    {
      assert group[..n + 1][..n] == group[..n];
      if Less(Rank(best), Rank(group[n])) {
        best := group[n];
      }
    }
    assert group[..|group|] == group;
  }

  lemma NoKeys(rows: seq<OldRow>)
    requires rows == []
    ensures KeysOf(rows) == {}
  {
  }

  lemma GroupGrows(init: seq<OldRow>, r: OldRow, key: SeenKey)
    ensures KeysOf(init + [r]) == KeysOf(init) + {r.key}
    ensures GroupOf(init + [r], key) == GroupOf(init, key) + if r.key == key then [r] else []
    ensures key !in KeysOf(init) ==> GroupOf(init, key) == []
  {
    assert (init + [r])[..|init|] == init;
    GroupMembers(init, key);
  }

  method Groups(rows: seq<OldRow>) returns (groups: map<SeenKey, seq<OldRow>>)
    ensures groups.Keys == KeysOf(rows)
    ensures forall key :: key in groups ==> groups[key] == GroupOf(rows, key)
  {
    groups := map[];
    hide GroupOf, KeysOf;
    assert KeysOf(rows[..0]) == {} by {
      NoKeys(rows[..0]);
    }
    for n := 0 to |rows|
      invariant groups.Keys == KeysOf(rows[..n])
      invariant forall key :: key in groups ==> groups[key] == GroupOf(rows[..n], key)
    {
      var r := rows[n];
      assert rows[..n + 1] == rows[..n] + [r];
      forall key: SeenKey
        ensures KeysOf(rows[..n + 1]) == KeysOf(rows[..n]) + {r.key}
        ensures GroupOf(rows[..n + 1], key) == GroupOf(rows[..n], key) + if r.key == key then [r] else []
        ensures key !in KeysOf(rows[..n]) ==> GroupOf(rows[..n], key) == []
      {
        GroupGrows(rows[..n], r, key);
      }
      assert forall key :: key in groups ==> groups[key] + [] == groups[key];
      groups := groups[r.key := (if r.key in groups then groups[r.key] else []) + [r]];
    }
    assert rows[..|rows|] == rows;
  }

  /** What has been re-keyed once the roles in `done` are through. */
  ghost predicate Rekeyed(
    rows: seq<OldRow>, jobs: map<Url, Job>, done: set<SeenKey>,
    state: map<SeenKey, Row>, archive: seq<OldRow>)
    requires done <= KeysOf(rows)
  {
    && state.Keys == done
    && (forall key :: key in done ==>
          && state[key].columns == Winner(rows, key).columns
          && Displays(jobs, key, Winner(rows, key).url, state[key].url))
    && DistinctRids(archive)
    && (forall r :: r in archive ==> r in rows && r.key in done)
    && (forall r :: r in rows && r.key in done ==> (r in archive <==> r.rid != Winner(rows, r.key).rid))
  }

  /** The losers of one role, in table order. */
  method ArchiveLosers(group: seq<OldRow>, winner: OldRow, archive: seq<OldRow>) returns (more: seq<OldRow>)
    requires DistinctRids(archive) && DistinctRids(group)
    requires forall r, g :: r in archive && g in group ==> r.rid != g.rid
    ensures DistinctRids(more)
    ensures forall r :: r in more <==> r in archive || (r in group && r.rid != winner.rid)
  {
    more := archive;
    for n := 0 to |group|
      invariant DistinctRids(more)
      invariant forall r :: r in more <==> r in archive || (r in group[..n] && r.rid != winner.rid)
    {
      var r := group[n];
      assert group[..n + 1] == group[..n] + [r];
      forall i | 0 <= i < |more| ensures more[i].rid != r.rid {
        assert more[i] in more;
        if more[i] !in archive {
          var k :| 0 <= k < n && group[k] == more[i];
        } else {
          assert r in group;
        }
      }
      if r.rid != winner.rid {
        more := more + [r];
      }
    }
    assert group[..|group|] == group;
  }

  lemma {:induction false} GroupDistinct(rows: seq<OldRow>, key: SeenKey)
    requires DistinctRids(rows)
    ensures DistinctRids(GroupOf(rows, key))
  {
    if rows != [] {
      var init, last := rows[..|rows| - 1], rows[|rows| - 1];
      GroupDistinct(init, key);
      GroupMembers(init, key);
      var group := GroupOf(init, key);
      assert rows == init + [last];
      forall i | 0 <= i < |group| ensures group[i].rid != last.rid {
        assert group[i] in group;
        RidsApart(init, last, group[i]);
      }
    }
  }

  /**
   `_migration_3_rekey_job_state`: every role keeps its best row, every other row is archived
   once, the "rows dropped" error cannot fire, and present jobs' urls are owned by their roles.
   */
  method Migrate(rows: seq<OldRow>, jobs: map<Url, Job>)
    returns (state: map<SeenKey, Row>, archive: seq<OldRow>)
    requires DistinctRids(rows)
    ensures Rekeyed(rows, jobs, KeysOf(rows), state, archive)
    ensures forall key :: key in state ==>
              exists i :: 0 <= i < |rows| && Leads(rows, key, i) && state[key].columns == rows[i].columns
    ensures |state| + |archive| == |rows|
    ensures forall log :: Owned(Db(jobs, state, log))
  {
    NothingRekeyed(rows, jobs);
    var groups := Groups(rows);
    state, archive := map[], [];
    hide *;
    var todo := groups.Keys;
    assert KeysOf(rows) - todo == {};
    while todo != {}
      invariant todo <= KeysOf(rows) == groups.Keys
      invariant Rekeyed(rows, jobs, KeysOf(rows) - todo, state, archive)
      decreases todo
    {
      ghost var some: SeenKey := SomeMember(todo);
      assert some in todo;
      var key: SeenKey :| key in todo;
      GroupMembers(rows, key);
      GroupDistinct(rows, key);
      WinnerUnfolds(rows, key);
      ArchiveKnown(rows, jobs, KeysOf(rows) - todo, state, archive);
      var winner := CollisionWinner(groups[key]);
      var shown := DisplayUrl(jobs, key, winner.url);
      RidsElsewhere(rows, archive, key, KeysOf(rows) - todo);
      var more := ArchiveLosers(groups[key], winner, archive);
      RoleDone(rows, jobs, KeysOf(rows) - todo, state, archive, key, Row(shown, winner.columns), more);
      state := state[key := Row(shown, winner.columns)];
      archive := more;
      assert KeysOf(rows) - (todo - {key}) == (KeysOf(rows) - todo) + {key};
      todo := todo - {key};
    }
    assert KeysOf(rows) - todo == KeysOf(rows);
    AllAccounted(rows, jobs, state, archive);
    LeadersLive(rows, jobs, state, archive);
    if |state| + |archive| != |rows| {
      assert false;  // "job_state re-key dropped rows": no table gets here
    }
  }

  lemma LeadersLive(rows: seq<OldRow>, jobs: map<Url, Job>, state: map<SeenKey, Row>, archive: seq<OldRow>)
    requires Rekeyed(rows, jobs, KeysOf(rows), state, archive)
    ensures forall key :: key in state ==>
              exists i :: 0 <= i < |rows| && Leads(rows, key, i) && state[key].columns == rows[i].columns
  {
    hide Leads, KeysOf, Winner;
    forall key | key in state
      ensures exists i :: 0 <= i < |rows| && Leads(rows, key, i) && state[key].columns == rows[i].columns
    {
      WinnerLeads(rows, key);
    }
  }

  lemma NothingRekeyed(rows: seq<OldRow>, jobs: map<Url, Job>)
    ensures Rekeyed(rows, jobs, {}, map[], [])
  {
  }

  lemma WinnerUnfolds(rows: seq<OldRow>, key: SeenKey)
    requires key in KeysOf(rows)
    ensures GroupOf(rows, key) != [] && Winner(rows, key) == Best(GroupOf(rows, key))
  {
    GroupMembers(rows, key);
  }

  lemma ArchiveKnown(
    rows: seq<OldRow>, jobs: map<Url, Job>, done: set<SeenKey>, state: map<SeenKey, Row>, archive: seq<OldRow>)
    requires done <= KeysOf(rows) && Rekeyed(rows, jobs, done, state, archive)
    ensures DistinctRids(archive) && forall r :: r in archive ==> r in rows && r.key in done
  {
  }

  lemma RidsElsewhere(rows: seq<OldRow>, archive: seq<OldRow>, key: SeenKey, done: set<SeenKey>)
    requires DistinctRids(rows) && key !in done
    requires forall r :: r in archive ==> r in rows && r.key in done
    ensures forall r, g :: r in archive && g in GroupOf(rows, key) ==> r.rid != g.rid
  {
    GroupMembers(rows, key);
    forall r, g | r in archive && g in GroupOf(rows, key) ensures r.rid != g.rid {
      if r.rid == g.rid {
        SameRidSameRow(rows, r, g);
      }
    }
  }

  lemma RoleDone(
    rows: seq<OldRow>, jobs: map<Url, Job>, done: set<SeenKey>, state: map<SeenKey, Row>,
    archive: seq<OldRow>, key: SeenKey, row: Row, more: seq<OldRow>)
    requires done <= KeysOf(rows) && key in KeysOf(rows) && key !in done
    requires Rekeyed(rows, jobs, done, state, archive)
    requires row.columns == Winner(rows, key).columns && Displays(jobs, key, Winner(rows, key).url, row.url)
    requires DistinctRids(more)
    requires forall r :: r in more <==>
               r in archive || (r in GroupOf(rows, key) && r.rid != Winner(rows, key).rid)
    ensures Rekeyed(rows, jobs, done + {key}, state[key := row], more)
  {
    GroupMembers(rows, key);
    hide Winner;
    hide Displays;
  }

  lemma AllAccounted(rows: seq<OldRow>, jobs: map<Url, Job>, state: map<SeenKey, Row>, archive: seq<OldRow>)
    requires DistinctRids(rows) && Rekeyed(rows, jobs, KeysOf(rows), state, archive)
    ensures |state| + |archive| == |rows|
    ensures forall log :: Owned(Db(jobs, state, log))
  {
    LosersCounted(rows);
    RidsCounted(archive);
    forall x ensures x in Rids(archive) <==> x in Losers(rows) {
      if x in Rids(archive) {
        var r :| r in archive && r.rid == x;
        LoserRid(rows, r);
      }
      if x in Losers(rows) {
        var r :| r in rows && r.rid == x && r.rid != Winner(rows, r.key).rid;
        assert r.key in KeysOf(rows);
      }
    }
    assert Rids(archive) == Losers(rows);
    assert |state.Keys| == |KeysOf(rows)|;
  }

  ghost function Rids(rows: seq<OldRow>): set<int> {
    set r | r in rows :: r.rid
  }

  lemma {:induction false} RidsCounted(rows: seq<OldRow>)
    requires DistinctRids(rows)
    ensures |Rids(rows)| == |rows|
  {
    if rows != [] {
      var init, last := rows[..|rows| - 1], rows[|rows| - 1];
      assert rows == init + [last];
      RidsCounted(init);
      forall r | r in init ensures r.rid != last.rid {
        RidsApart(init, last, r);
      }
      assert Rids(rows) == Rids(init) + {last.rid};
    }
  }
}
