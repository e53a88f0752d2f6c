/**
 Migration 11's url aliases (migrations.py:1311-1373): every lineage of a url owns the url
 for one half-open window of time. Windows are inserted with INSERT OR IGNORE against the
 primary key and the unique index on active aliases (migrations.py:154-169).

 Urls, seen keys, posting ids and instants are integers; text compares as its rank. Alias
 ids are derived from url and seen key, without collisions.
 */
module AliasWindows {
  import opened Wrappers
  import opened Ordering

  datatype Lineage = Lineage(url: int, seenKey: int, posting: int, first: int, last: int)

  datatype Id = Id(url: int, seenKey: int)
  datatype Alias = Alias(posting: int, url: int, validFrom: int, validTo: Option<int>)
  type Table = map<Id, Alias>

  function IdOf(l: Lineage): Id {
    Id(l.url, l.seenKey)
  }

  /** An alias row is stored under its own url. */
  ghost predicate Keyed(t: Table) {
    forall id :: id in t ==> t[id].url == id.url
  }

  predicate Covers(a: Alias, at: int) {
    a.validFrom <= at && (a.validTo.None? || at < a.validTo.value)
  }

  predicate ActiveFor(t: Table, url: int) {
    exists id :: id in t && t[id].url == url && t[id].validTo.None?
  }

  // ------------------------------------------------------------------ one url

  function SortKey(l: Lineage): Key {
    [l.first, l.last, l.seenKey, l.posting]
  }

  /** The lineages of one url, in the order of their windows. */
  ghost predicate OneUrl(es: seq<Lineage>, url: int) {
    && es != []
    && (forall i :: 0 <= i < |es| ==> es[i].url == url)
    && (forall i, j :: 0 <= i < j < |es| ==> es[i].seenKey != es[j].seenKey)
  }

  function Window(es: seq<Lineage>, i: nat): Alias
    requires i < |es|
  {
    Alias(es[i].posting, es[i].url, es[i].first, if i + 1 < |es| then Some(es[i + 1].first) else None)
  }

  ghost predicate InOrder(es: seq<Lineage>) {
    forall i, j :: 0 <= i < j < |es| ==> es[i].first <= es[j].first
  }

  lemma SortedIsInOrder(es: seq<Lineage>)
    requires Ordered(es, SortKey)
    ensures InOrder(es)
  {
    forall i, j | 0 <= i < j < |es| ensures es[i].first <= es[j].first {
      assert !Less(SortKey(es[j]), SortKey(es[i]));
    }
  }

  /** From the earliest sighting on, every instant lies in exactly one window; before it, in none. */
  lemma {:induction false} WindowsTile(es: seq<Lineage>, at: int)
    requires es != [] && InOrder(es)
    ensures at < es[0].first ==> forall i :: 0 <= i < |es| ==> !Covers(Window(es, i), at)
    ensures at >= es[0].first ==>
              exists i :: && 0 <= i < |es| && Covers(Window(es, i), at)
                          && forall j :: 0 <= j < |es| && Covers(Window(es, j), at) ==> j == i
  {
    if at >= es[0].first {
      var i := Owner(es, at, |es|);
      assert Covers(Window(es, i), at);
      forall j | 0 <= j < |es| && j != i ensures !Covers(Window(es, j), at) {
        if j < i {
          assert es[j + 1].first <= es[i].first;
        }
      }
    }
  }

  /** The last of the first `n` lineages that had started by then. */
  ghost function Owner(es: seq<Lineage>, at: int, n: nat): (i: nat)
    requires 0 < n <= |es| && es[0].first <= at && InOrder(es)
    ensures i < n && es[i].first <= at && forall j :: i < j < n ==> es[j].first > at
  {
    if es[n - 1].first <= at then n - 1 else Owner(es, at, n - 1)
  }

  /** INSERT OR IGNORE: a taken id or a second active alias of the url leaves the table alone. */
  function InsertOrIgnore(t: Table, id: Id, a: Alias): Table {
    if id in t || (a.validTo.None? && ActiveFor(t, a.url)) then t else t[id := a]
  }

  function Placed(t: Table, es: seq<Lineage>, n: nat): Table
    requires n <= |es|
  {
    if n == 0 then t else InsertOrIgnore(Placed(t, es, n - 1), IdOf(es[n - 1]), Window(es, n - 1))
  }

  /**
   `p` is `t` with the first `n` windows: one is ignored exactly when its id is taken, or it
   is the open one and the url already has an open one.
   */
  ghost predicate PlacedFrom(p: Table, t: Table, es: seq<Lineage>, url: int, n: nat)
    requires n <= |es|
  {
    && Keyed(p)
    && (forall id :: id in t ==> id in p && p[id] == t[id])
    && (forall id :: id in p ==> id in t || exists i :: 0 <= i < n && id == IdOf(es[i]))
    && (forall i :: 0 <= i < n ==> PlacedOne(p, t, es, url, i))
  }

  ghost predicate PlacedOne(p: Table, t: Table, es: seq<Lineage>, url: int, i: nat)
    requires i < |es|
  {
    var id := IdOf(es[i]);
    id !in t ==>
      if i == |es| - 1 && ActiveFor(t, url) then id !in p else id in p && p[id] == Window(es, i)
  }

  lemma {:induction false} PlacedWindows(t: Table, es: seq<Lineage>, url: int, n: nat)
    requires Keyed(t) && OneUrl(es, url) && n <= |es|
    ensures PlacedFrom(Placed(t, es, n), t, es, url, n)
  {
    if n > 0 {
      PlacedWindows(t, es, url, n - 1);
      hide Placed;
      PlacedNext(Placed(t, es, n - 1), t, es, url, n);
    }
  }

  lemma PlacedNext(before: Table, t: Table, es: seq<Lineage>, url: int, n: nat)
    requires Keyed(t) && OneUrl(es, url) && 0 < n <= |es|
    requires PlacedFrom(before, t, es, url, n - 1)
    ensures PlacedFrom(InsertOrIgnore(before, IdOf(es[n - 1]), Window(es, n - 1)), t, es, url, n)
  {
    var id, w := IdOf(es[n - 1]), Window(es, n - 1);
    var p := InsertOrIgnore(before, id, w);
    NewId(es, url, n);
    assert id in before <==> id in t;
    if n == |es| {
      OpenIsFree(t, before, es, url);
    }
    hide ActiveFor;
    assert PlacedOne(p, t, es, url, n - 1);
    forall i | 0 <= i < n - 1 ensures PlacedOne(p, t, es, url, i) {
      assert PlacedOne(before, t, es, url, i) && IdOf(es[i]) != id;
    }
  }

  lemma NewId(es: seq<Lineage>, url: int, n: nat)
    requires OneUrl(es, url) && 0 < n <= |es|
    ensures forall i :: 0 <= i < n - 1 ==> IdOf(es[i]) != IdOf(es[n - 1])
  {
  }

  /** Up to the last lineage all windows are closed, so the url is as active as it was. */
  lemma OpenIsFree(t: Table, before: Table, es: seq<Lineage>, url: int)
    requires Keyed(t) && OneUrl(es, url) && PlacedFrom(before, t, es, url, |es| - 1)
    ensures ActiveFor(before, url) <==> ActiveFor(t, url)
  {
    if ActiveFor(t, url) {
      var id :| id in t && t[id].url == url && t[id].validTo.None?;
      assert id in before && before[id] == t[id];
    }
    if ActiveFor(before, url) {
      var id :| id in before && before[id].url == url && before[id].validTo.None?;
      if id !in t {
        var i :| 0 <= i < |es| - 1 && id == IdOf(es[i]);
        assert PlacedOne(before, t, es, url, i);
      }
    }
  }

  // ------------------------------------------------------------------ all urls

  function Group(ls: seq<Lineage>, url: int): seq<Lineage> {
    if ls == [] then []
    else Group(ls[..|ls| - 1], url) + (if ls[|ls| - 1].url == url then [ls[|ls| - 1]] else [])
  }

  function Timeline(ls: seq<Lineage>, url: int): seq<Lineage> {
    SortBy(Group(ls, url), SortKey)
  }

  /** The table after the urls in `urls`, one after the other. */
  function Backfilled(t: Table, ls: seq<Lineage>, urls: seq<int>): Table {
    if urls == [] then t
    else
      var es := Timeline(ls, urls[|urls| - 1]);
      Placed(Backfilled(t, ls, urls[..|urls| - 1]), es, |es|)
  }

  /** The lineages come out of a dictionary keyed by url and seen key. */
  ghost predicate DistinctLineages(ls: seq<Lineage>) {
    forall i, j :: 0 <= i < j < |ls| ==> IdOf(ls[i]) != IdOf(ls[j])
  }

  lemma {:induction false} GroupMembers(ls: seq<Lineage>, url: int)
    ensures forall l :: l in Group(ls, url) <==> l in ls && l.url == url
  {
    if ls != [] {
      GroupMembers(ls[..|ls| - 1], url);
      assert ls == ls[..|ls| - 1] + [ls[|ls| - 1]];
    }
  }

  function SeenKeyOf(l: Lineage): int {
    l.seenKey
  }

  lemma {:induction false} GroupDistinct(ls: seq<Lineage>, url: int)
    requires DistinctLineages(ls)
    ensures Distinct(Group(ls, url), SeenKeyOf)
  {
    if ls != [] {
      var init, last := ls[..|ls| - 1], ls[|ls| - 1];
      GroupDistinct(init, url);
      GroupMembers(init, url);
      if last.url == url {
        var g := Group(init, url);
        forall i | 0 <= i < |g| ensures g[i].seenKey != last.seenKey {
          assert g[i] in init;
          var k :| 0 <= k < |init| && init[k] == g[i];
          assert IdOf(ls[k]) != IdOf(last);
        }
      }
    }
  }

  ghost predicate Sighted(ls: seq<Lineage>, url: int) {
    exists l :: l in ls && l.url == url
  }

  lemma TimelineOfUrl(ls: seq<Lineage>, url: int)
    requires DistinctLineages(ls) && Sighted(ls, url)
    ensures OneUrl(Timeline(ls, url), url) && InOrder(Timeline(ls, url))
    ensures forall l :: l in Timeline(ls, url) <==> l in ls && l.url == url
  {
    var es := Timeline(ls, url);
    GroupMembers(ls, url);
    GroupDistinct(ls, url);
    SortByDistinct(Group(ls, url), SortKey, SeenKeyOf);
    SortByKeeps(Group(ls, url), SortKey);
    SortedIsInOrder(es);
    forall i | 0 <= i < |es| ensures es[i].url == url {
      assert es[i] in es;
    }
    var l :| l in ls && l.url == url;
    assert l in es;
    forall i, j | 0 <= i < j < |es| ensures es[i].seenKey != es[j].seenKey {
      assert SeenKeyOf(es[i]) != SeenKeyOf(es[j]);
    }
  }

  /** The windows do not depend on the order in which the lineages were read. */
  lemma TimelineIgnoresOrder(a: seq<Lineage>, b: seq<Lineage>, url: int)
    requires multiset(a) == multiset(b) && DistinctLineages(a)
    ensures Timeline(a, url) == Timeline(b, url)
  {
    GroupMultiset(a, url);
    GroupMultiset(b, url);
    assert multiset(Group(a, url)) == multiset(Group(b, url)) by {
      forall l ensures multiset(Group(a, url))[l] == multiset(Group(b, url))[l] {
        assert multiset(a)[l] == multiset(b)[l];
      }
    }
    SortByPermutation(Group(a, url), Group(b, url), SortKey);
  }

  lemma {:induction false} GroupMultiset(ls: seq<Lineage>, url: int)
    ensures forall l :: multiset(Group(ls, url))[l] == if l.url == url then multiset(ls)[l] else 0
  {
    if ls != [] {
      GroupMultiset(ls[..|ls| - 1], url);
      assert ls == ls[..|ls| - 1] + [ls[|ls| - 1]];
    }
  }

  /** `t` knows nothing of `url` yet. */
  ghost predicate Unknown(t: Table, url: int) {
    forall id :: id in t ==> id.url != url
  }

  /** `t` holds the windows of the timeline `es`, and no other alias of its url. */
  ghost predicate Installed(t: Table, es: seq<Lineage>, url: int) {
    && (forall i :: 0 <= i < |es| ==> IdOf(es[i]) in t && t[IdOf(es[i])] == Window(es, i))
    && (forall id :: id in t && id.url == url ==> exists i :: 0 <= i < |es| && id == IdOf(es[i]))
  }

  /** On a table without earlier aliases of these urls, every window of every url goes in. */
  lemma {:induction false} EveryWindowInserted(t: Table, ls: seq<Lineage>, urls: seq<int>)
    requires Keyed(t) && DistinctLineages(ls)
    requires forall i, j :: 0 <= i < j < |urls| ==> urls[i] != urls[j]
    requires forall u :: u in urls ==> Unknown(t, u) && Sighted(ls, u)
    ensures Keyed(Backfilled(t, ls, urls))
    ensures forall u :: u in urls ==> Installed(Backfilled(t, ls, urls), Timeline(ls, u), u)
    ensures forall u :: u !in urls && Unknown(t, u) ==> Unknown(Backfilled(t, ls, urls), u)
  {
    if urls != [] {
      var init, last := urls[..|urls| - 1], urls[|urls| - 1];
      assert forall u :: u in init ==> u in urls;
      assert forall u :: u in urls <==> u in init || u == last;
      assert last !in init;
      EveryWindowInserted(t, ls, init);
      var before, es := Backfilled(t, ls, init), Timeline(ls, last);
      assert Backfilled(t, ls, urls) == Placed(before, es, |es|);
      hide *;
      TimelineOfUrl(ls, last);
      InstallsOne(before, es, last);
      forall u | u in init ensures Installed(Backfilled(t, ls, urls), Timeline(ls, u), u) {
        TimelineOfUrl(ls, u);
        StaysInstalled(before, Timeline(ls, u), u, es, last);
      }
    }
  }

  lemma InstallsOne(t: Table, es: seq<Lineage>, url: int)
    requires Keyed(t) && OneUrl(es, url) && Unknown(t, url)
    ensures var p := Placed(t, es, |es|);
            && Keyed(p) && Installed(p, es, url)
            && forall u :: u != url && Unknown(t, u) ==> Unknown(p, u)
  {
    PlacedWindows(t, es, url, |es|);
    assert !ActiveFor(t, url);
    var p := Placed(t, es, |es|);
    hide Placed;
    forall i | 0 <= i < |es| ensures IdOf(es[i]) in p && p[IdOf(es[i])] == Window(es, i) {
      assert PlacedOne(p, t, es, url, i);
      assert IdOf(es[i]) !in t;
    }
  }

  lemma StaysInstalled(t: Table, es: seq<Lineage>, u: int, others: seq<Lineage>, url: int)
    requires Keyed(t) && OneUrl(others, url) && OneUrl(es, u) && u != url && Installed(t, es, u)
    ensures Installed(Placed(t, others, |others|), es, u)
  {
    PlacedWindows(t, others, url, |others|);
    hide Placed;
  }

  lemma {:induction false} PlacedAgain(t: Table, es: seq<Lineage>, n: nat)
    requires n <= |es| && forall i :: 0 <= i < |es| ==> IdOf(es[i]) in t
    ensures Placed(t, es, n) == t
  {
    if n > 0 {
      PlacedAgain(t, es, n - 1);
    }
  }

  lemma {:induction false} BackfilledAgain(t: Table, ls: seq<Lineage>, urls: seq<int>)
    requires forall u, i :: u in urls && 0 <= i < |Timeline(ls, u)| ==> IdOf(Timeline(ls, u)[i]) in t
    ensures Backfilled(t, ls, urls) == t
  {
    if urls != [] {
      assert forall u :: u in urls[..|urls| - 1] ==> u in urls;
      BackfilledAgain(t, ls, urls[..|urls| - 1]);
      var u := urls[|urls| - 1];
      assert u in urls;
      PlacedAgain(t, Timeline(ls, u), |Timeline(ls, u)|);
    }
  }

  /** Running the backfill a second time changes nothing. */
  lemma BackfillIsIdempotent(t: Table, ls: seq<Lineage>, urls: seq<int>)
    requires Keyed(t) && DistinctLineages(ls)
    requires forall i, j :: 0 <= i < j < |urls| ==> urls[i] != urls[j]
    requires forall u :: u in urls ==> Unknown(t, u) && Sighted(ls, u)
    ensures Backfilled(Backfilled(t, ls, urls), ls, urls) == Backfilled(t, ls, urls)
  {
    EveryWindowInserted(t, ls, urls);
    var after := Backfilled(t, ls, urls);
    forall u, i | u in urls && 0 <= i < |Timeline(ls, u)| ensures IdOf(Timeline(ls, u)[i]) in after {
      assert Installed(after, Timeline(ls, u), u);
    }
    BackfilledAgain(after, ls, urls);
  }

  /** The aliases of a url are its windows, and the windows its aliases. */
  lemma AliasIsWindow(t: Table, es: seq<Lineage>, url: int, id: Id) returns (i: nat)
    requires Keyed(t) && Installed(t, es, url) && id in t && t[id].url == url
    ensures i < |es| && id == IdOf(es[i]) && t[id] == Window(es, i)
  {
    assert id.url == url;
    i :| 0 <= i < |es| && id == IdOf(es[i]);
  }

  /** An instant is covered by some alias of the url exactly from its earliest sighting on. */
  lemma OwnerOnTimeline(t: Table, es: seq<Lineage>, url: int, at: int)
    requires Keyed(t) && OneUrl(es, url) && InOrder(es) && Installed(t, es, url)
    ensures es[0].first <= at <==> exists id :: Owns(t, id, url, at)
  {
    WindowsTile(es, at);
    if es[0].first <= at {
      var i :| 0 <= i < |es| && Covers(Window(es, i), at);
      var id := IdOf(es[i]);
      assert Owns(t, id, url, at);
    }
    if id :| Owns(t, id, url, at) {
      var i := AliasIsWindow(t, es, url, id);
    }
  }

  /** No two aliases of the url cover the same instant. */
  lemma NoOverlap(t: Table, es: seq<Lineage>, url: int, at: int, a: Id, b: Id)
    requires Keyed(t) && OneUrl(es, url) && InOrder(es) && Installed(t, es, url)
    requires Owns(t, a, url, at) && Owns(t, b, url, at)
    ensures a == b
  {
    WindowsTile(es, at);
    var i := AliasIsWindow(t, es, url, a);
    var j := AliasIsWindow(t, es, url, b);
    assert Covers(Window(es, i), at) && Covers(Window(es, j), at);
  }

  /** The open alias is the last window, and the only open one. */
  lemma OpenIsLast(t: Table, es: seq<Lineage>, url: int, id: Id)
    requires Keyed(t) && OneUrl(es, url) && InOrder(es) && Installed(t, es, url)
    ensures id in t && t[id].url == url && t[id].validTo.None? <==> id == IdOf(es[|es| - 1])
  {
    assert IdOf(es[|es| - 1]) in t;
    if id in t && t[id].url == url {
      var i := AliasIsWindow(t, es, url, id);
    }
  }

  /** At `at`, the url belongs to alias `id`. */
  ghost predicate Owns(t: Table, id: Id, url: int, at: int) {
    id in t && t[id].url == url && Covers(t[id], at)
  }

  /** The url had been seen by then. */
  ghost predicate SeenBy(ls: seq<Lineage>, url: int, at: int) {
    exists l :: l in ls && l.url == url && l.first <= at
  }

  lemma SeenByFirst(ls: seq<Lineage>, url: int, at: int)
    requires DistinctLineages(ls) && Sighted(ls, url)
    ensures Timeline(ls, url) != [] && (SeenBy(ls, url, at) <==> Timeline(ls, url)[0].first <= at)
  {
    TimelineOfUrl(ls, url);
    var es := Timeline(ls, url);
    hide Timeline;
    if SeenBy(ls, url, at) {
      var l :| l in ls && l.url == url && l.first <= at;
      assert l in es;
      var k :| 0 <= k < |es| && es[k] == l;
    }
    assert es[0] in es;
  }

  /**
   What the migration leaves behind, for every url it has seen and every instant: an alias
   covers the instant exactly when the url had been seen by then, no two do, and one alias
   is open, the one of the lineage that was first seen last.
   */
  lemma EveryUrlOwnedOnce(t: Table, ls: seq<Lineage>, urls: seq<int>, url: int, at: int, a: Id, b: Id)
    requires Keyed(t) && DistinctLineages(ls)
    requires forall i, j :: 0 <= i < j < |urls| ==> urls[i] != urls[j]
    requires forall u :: u in urls ==> Unknown(t, u) && Sighted(ls, u)
    requires url in urls
    ensures var after := Backfilled(t, ls, urls);
            && (SeenBy(ls, url, at) <==> exists id :: Owns(after, id, url, at))
            && (Owns(after, a, url, at) && Owns(after, b, url, at) ==> a == b)
            && (a in after && after[a].url == url && after[a].validTo.None?
                <==> |Timeline(ls, url)| > 0 && a == IdOf(Timeline(ls, url)[|Timeline(ls, url)| - 1]))
  {
    var after, es := Backfilled(t, ls, urls), Timeline(ls, url);
    EveryWindowInserted(t, ls, urls);
    TimelineOfUrl(ls, url);
    SeenByFirst(ls, url, at);
    OwnerOnTimeline(after, es, url, at);
    OpenIsLast(after, es, url, a);
    OpenIsLast(after, es, url, b);
    hide Timeline, Backfilled, Installed, Covers;
    if Owns(after, a, url, at) && Owns(after, b, url, at) {
      NoOverlap(after, es, url, at, a, b);
    }
  }

  // ----------------------------------------------- who shares the last sighting

  /** The postings of the lineages last seen at `at`. */
  function SeenLastAt(es: seq<Lineage>, at: int): seq<int> {
    if es == [] then []
    else SeenLastAt(es[..|es| - 1], at) + (if es[|es| - 1].last == at then [es[|es| - 1].posting] else [])
  }

  function LatestStarter(es: seq<Lineage>): int
    requires es != []
  {
    es[|es| - 1].last
  }

  /** What is put on record: those tied with the lineage of the open window, if there are any. */
  function Archived(es: seq<Lineage>): seq<int>
    requires es != []
  {
    var tied := SeenLastAt(es, LatestStarter(es));
    if |tied| > 1 then tied else []
  }

  function LastSighting(es: seq<Lineage>): int
    requires es != []
    ensures forall i :: 0 <= i < |es| ==> es[i].last <= LastSighting(es)
    ensures exists i :: 0 <= i < |es| && es[i].last == LastSighting(es)
  {
    if |es| == 1 then es[0].last
    else
      var before := LastSighting(es[..|es| - 1]);
      assert forall i :: 0 <= i < |es| - 1 ==> es[i] == es[..|es| - 1][i];
      if es[|es| - 1].last >= before then es[|es| - 1].last else before
  }

  /** What the archive entry is named after: those sharing the url's latest observation. */
  function SharingLatest(es: seq<Lineage>): seq<int>
    requires es != []
  {
    var tied := SeenLastAt(es, LastSighting(es));
    if |tied| > 1 then tied else []
  }

  lemma {:induction false} SeenLastMembers(es: seq<Lineage>, at: int)
    ensures forall p :: p in SeenLastAt(es, at) <==> exists i :: 0 <= i < |es| && es[i].last == at && es[i].posting == p
  {
    if es != [] {
      SeenLastMembers(es[..|es| - 1], at);
      assert forall i :: 0 <= i < |es| - 1 ==> es[i] == es[..|es| - 1][i];
      forall p
        ensures p in SeenLastAt(es, at) <==> exists i :: 0 <= i < |es| && es[i].last == at && es[i].posting == p
      {
        if i :| 0 <= i < |es| && es[i].last == at && es[i].posting == p {
          if i < |es| - 1 {
            assert es[..|es| - 1][i].posting == p;
          }
        }
      }
    }
  }

  /**
   The archived tie is the one it claims to be exactly when the lineage that started last is
   also among those seen last, or when neither sighting is shared.
   */
  lemma ArchivedTieIsTheLatest(es: seq<Lineage>)
    requires es != [] && forall i, j :: 0 <= i < j < |es| ==> es[i].posting != es[j].posting
    ensures Archived(es) == SharingLatest(es)
            <==> (LatestStarter(es) == LastSighting(es)
                  || (|SeenLastAt(es, LatestStarter(es))| == 1 && |SeenLastAt(es, LastSighting(es))| == 1))
  {
    var a, b := SeenLastAt(es, LatestStarter(es)), SeenLastAt(es, LastSighting(es));
    SeenLastMembers(es, LatestStarter(es));
    SeenLastMembers(es, LastSighting(es));
    assert es[|es| - 1].posting in a;
    var i :| 0 <= i < |es| && es[i].last == LastSighting(es);
    assert es[i].posting in b;
    if LatestStarter(es) != LastSighting(es) {
      assert a[0] in a && b[0] in b;
      assert a[0] != b[0];
    }
  }

  /** Two lineages last seen on day 9 go unrecorded when a third one started later and ended on day 7. */
  lemma SharedLatestMissed()
    ensures var es := [Lineage(1, 1, 1, 1, 9), Lineage(1, 2, 2, 2, 9), Lineage(1, 3, 3, 5, 7)];
            && Ordered(es, SortKey) && OneUrl(es, 1)
            && SharingLatest(es) == [1, 2] && Archived(es) == []
  {
    var es := [Lineage(1, 1, 1, 1, 9), Lineage(1, 2, 2, 2, 9), Lineage(1, 3, 3, 5, 7)];
    assert es[..2] == [es[0], es[1]] && es[..2][..1] == [es[0]] && es[..2][..1][..0] == [];
    assert SeenLastAt(es[..2][..1], 9) == [1] && SeenLastAt(es[..2][..1], 7) == [];
    assert SeenLastAt(es[..2], 9) == [1, 2] && SeenLastAt(es[..2], 7) == [];
  }
}
