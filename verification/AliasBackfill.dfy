/**
 The loops of migration 11's alias step (migrations.py:1344-1373): group the lineages by
 url, sort each group, record ties, and insert one window per lineage.
 */
module AliasBackfill {
  import opened Wrappers
  import opened Ordering
  import opened AliasWindows

  /** An archive row is identified by what it says: the url and the shared observation. */
  datatype Tie = Tie(url: int, at: int)
  type Archive = map<Tie, seq<int>>

  /** The urls in the order their first lineage comes. */
  function UrlsOf(ls: seq<Lineage>): seq<int> {
    if ls == [] then []
    else
      var before := UrlsOf(ls[..|ls| - 1]);
      if ls[|ls| - 1].url in before then before else before + [ls[|ls| - 1].url]
  }

  lemma {:induction false} UrlsAreTheSighted(ls: seq<Lineage>)
    ensures forall u :: u in UrlsOf(ls) <==> Sighted(ls, u)
    ensures forall i, j :: 0 <= i < j < |UrlsOf(ls)| ==> UrlsOf(ls)[i] != UrlsOf(ls)[j]
  {
    if ls != [] {
      var init, last := ls[..|ls| - 1], ls[|ls| - 1];
      UrlsAreTheSighted(init);
      assert ls == init + [last];
      forall u ensures Sighted(ls, u) <==> Sighted(init, u) || u == last.url {
        if Sighted(init, u) {
          var l :| l in init && l.url == u;
          assert l in ls;
        }
        if u == last.url {
          assert last in ls;
        }
      }
    }
  }

  /** The archive after the urls in `urls`, each adding its tie unless it is there already. */
  function Recorded(a: Archive, ls: seq<Lineage>, urls: seq<int>): Archive {
    if urls == [] then a
    else WithTie(Recorded(a, ls, urls[..|urls| - 1]), urls[|urls| - 1], Timeline(ls, urls[|urls| - 1]))
  }

  function WithTie(a: Archive, url: int, es: seq<Lineage>): Archive {
    if es == [] || Archived(es) == [] || Tie(url, LatestStarter(es)) in a then a
    else a[Tie(url, LatestStarter(es)) := Archived(es)]
  }

  class Connection {
    var aliases: Table
    var archive: Archive

    constructor (aliases: Table, archive: Archive)
      ensures this.aliases == aliases && this.archive == archive
    {
      this.aliases, this.archive := aliases, archive;
    }

    method InsertAlias(id: Id, a: Alias)
      modifies this`aliases
      ensures aliases == InsertOrIgnore(old(aliases), id, a)
    {
      if id in aliases {
        return;
      }
      if a.validTo.None?
         && exists other | other in aliases :: aliases[other].url == a.url && aliases[other].validTo.None? {
        return;
      }
      aliases := aliases[id := a];
    }

    method RecordTie(url: int, es: seq<Lineage>)
      requires es != []
      modifies this`archive
      ensures archive == WithTie(old(archive), url, es)
    {
      var latestAt := es[|es| - 1].last;
      var tied := [];
      for i := 0 to |es|
        invariant tied == SeenLastAt(es[..i], latestAt)
      {
        assert es[..i + 1][..i] == es[..i];
        if es[i].last == latestAt {
          tied := tied + [es[i].posting];
        }
      }
      assert es[..|es|] == es;
      if |tied| > 1 && Tie(url, latestAt) !in archive {
        archive := archive[Tie(url, latestAt) := tied];
      }
    }

    method PlaceWindows(es: seq<Lineage>)
      modifies this`aliases
      ensures aliases == Placed(old(aliases), es, |es|)
    {
      for i := 0 to |es|
        invariant aliases == Placed(old(aliases), es, i)
      {
        var validTo := if i + 1 < |es| then Some(es[i + 1].first) else None;
        InsertAlias(IdOf(es[i]), Alias(es[i].posting, es[i].url, es[i].first, validTo));
      }
    }

    method GroupByUrl(ls: seq<Lineage>) returns (urls: seq<int>, byUrl: map<int, seq<Lineage>>)
      ensures urls == UrlsOf(ls)
      ensures byUrl.Keys == set u | u in urls
      ensures forall u :: u in urls ==> byUrl[u] == Group(ls, u)
    {
      urls, byUrl := [], map[];
      for n := 0 to |ls|
        invariant urls == UrlsOf(ls[..n])
        invariant byUrl.Keys == set u | u in urls
        invariant forall u :: u in urls ==> byUrl[u] == Group(ls[..n], u)
        invariant forall u :: u !in urls ==> Group(ls[..n], u) == []
      {
        var l := ls[n];
        assert ls[..n + 1][..n] == ls[..n];
        if l.url !in byUrl {
          urls := urls + [l.url];
          byUrl := byUrl[l.url := []];
        }
        byUrl := byUrl[l.url := byUrl[l.url] + [l]];
      }
      assert ls[..|ls|] == ls;
    }

    /** The whole step. On a database without legacy url aliases it leaves every url owned. */
    method Backfill(ls: seq<Lineage>)
      requires Keyed(aliases) && DistinctLineages(ls)
      modifies this
      ensures aliases == Backfilled(old(aliases), ls, UrlsOf(ls))
      ensures archive == Recorded(old(archive), ls, UrlsOf(ls))
      ensures (forall u :: Sighted(ls, u) ==> Unknown(old(aliases), u)) ==>
                forall u :: Sighted(ls, u) ==> Installed(aliases, Timeline(ls, u), u)
    {
      UrlsAreTheSighted(ls);
      var urls, byUrl := GroupByUrl(ls);
      for n := 0 to |urls|
        invariant aliases == Backfilled(old(aliases), ls, urls[..n])
        invariant archive == Recorded(old(archive), ls, urls[..n])
      {
        assert urls[..n + 1][..n] == urls[..n] && urls[n] in urls;
        var es := SortBy(byUrl[urls[n]], SortKey);
        TimelineOfUrl(ls, urls[n]);
        RecordTie(urls[n], es);
        PlaceWindows(es);
      }
      assert urls[..|urls|] == urls;
      if forall u :: Sighted(ls, u) ==> Unknown(old(aliases), u) {
        EveryWindowInserted(old(aliases), ls, urls);
      }
    }
  }
}
