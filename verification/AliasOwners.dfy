/**
 Who owns a url, told from the lineages (migrations.py:1311-1373): at any instant the one that
 started last by then, and for good the one that started last of all; and which tie is put on
 record.
 */
module AliasOwners {
  import opened Wrappers
  import opened Ordering
  import opened AliasWindows
  import opened AliasBackfill

  /** `a` is placed before `b`: by the first sighting, then the last, the seen key and the posting. */
  predicate PlacedBefore(a: Lineage, b: Lineage) {
    || a.first < b.first
    || (a.first == b.first && a.last < b.last)
    || (a.first == b.first && a.last == b.last && a.seenKey < b.seenKey)
    || (a.first == b.first && a.last == b.last && a.seenKey == b.seenKey && a.posting < b.posting)
  }

  lemma KeyMeans(a: Lineage, b: Lineage)
    ensures Less(SortKey(a), SortKey(b)) <==> PlacedBefore(a, b)
  {
    var x, y := SortKey(a), SortKey(b);
    LessFrom(x, y);
    LessFrom(x[1..], y[1..]);
    LessFrom(x[2..], y[2..]);
    LessFrom(x[3..], y[3..]);
    assert x[1..][1..] == x[2..] && y[1..][1..] == y[2..];
    assert x[2..][1..] == x[3..] && y[2..][1..] == y[3..];
    assert x[3..][1..] == [] && y[3..][1..] == [];
  }

  lemma LessFrom(x: Key, y: Key)
    requires x != [] && y != []
    ensures Less(x, y) <==> x[0] < y[0] || (x[0] == y[0] && Less(x[1..], y[1..]))
  {
  }

  /** The timeline of a url holds its lineages, each placed before the next. */
  lemma TimelineInFields(ls: seq<Lineage>, url: int)
    requires DistinctLineages(ls) && Sighted(ls, url)
    ensures var es := Timeline(ls, url);
            && es != [] && (forall l :: l in es <==> l in ls && l.url == url)
            && forall i, j :: 0 <= i < j < |es| ==> PlacedBefore(es[i], es[j])
  {
    TimelineOfUrl(ls, url);
    SortByKeeps(Group(ls, url), SortKey);
    var es := Timeline(ls, url);
    hide Timeline, SortBy, Group;
    forall i, j | 0 <= i < j < |es| ensures PlacedBefore(es[i], es[j]) {
      assert !Less(SortKey(es[j]), SortKey(es[i])) && es[i].seenKey != es[j].seenKey;
      KeyMeans(es[j], es[i]);
    }
  }

  /** Of the url's lineages that had started by `at`, `l` is placed last. */
  ghost predicate LatestBy(ls: seq<Lineage>, url: int, at: int, l: Lineage) {
    && l in ls && l.url == url && l.first <= at
    && forall other :: other in ls && other.url == url && other.first <= at ==> other == l || PlacedBefore(other, l)
  }

  ghost predicate LatestOfAll(ls: seq<Lineage>, url: int, l: Lineage) {
    && l in ls && l.url == url
    && forall other :: other in ls && other.url == url ==> other == l || PlacedBefore(other, l)
  }

  /** An alias that stands for the lineage. */
  ghost predicate AliasOf(t: Table, l: Lineage) {
    && Id(l.url, l.seenKey) in t
    && t[Id(l.url, l.seenKey)].posting == l.posting && t[Id(l.url, l.seenKey)].url == l.url
    && t[Id(l.url, l.seenKey)].validFrom == l.first
  }

  lemma OwnerIsLatest(t: Table, ls: seq<Lineage>, url: int, at: int, l: Lineage)
    requires Keyed(t) && DistinctLineages(ls) && Sighted(ls, url) && Installed(t, Timeline(ls, url), url)
    requires LatestBy(ls, url, at, l)
    ensures AliasOf(t, l) && Owns(t, IdOf(l), url, at)
  {
    var es := Timeline(ls, url);
    TimelineInFields(ls, url);
    hide Timeline;
    var i :| 0 <= i < |es| && es[i] == l;
    assert t[IdOf(es[i])] == Window(es, i);
    if i + 1 < |es| {
      assert PlacedBefore(es[i], es[i + 1]);
      assert es[i + 1] in es && !PlacedBefore(es[i + 1], l);
    }
  }

  lemma OpenIsLatest(t: Table, ls: seq<Lineage>, url: int, l: Lineage)
    requires Keyed(t) && DistinctLineages(ls) && Sighted(ls, url) && Installed(t, Timeline(ls, url), url)
    requires LatestOfAll(ls, url, l)
    ensures AliasOf(t, l) && t[IdOf(l)].validTo.None?
  {
    var es := Timeline(ls, url);
    TimelineInFields(ls, url);
    hide Timeline;
    LatestEnds(es, l);
    assert t[IdOf(l)] == Window(es, |es| - 1);
  }

  lemma NotBoth(a: Lineage, b: Lineage)
    ensures !PlacedBefore(a, a) && !(PlacedBefore(a, b) && PlacedBefore(b, a))
  {
  }

  lemma LatestEnds(es: seq<Lineage>, l: Lineage)
    requires forall i, j :: 0 <= i < j < |es| ==> PlacedBefore(es[i], es[j])
    requires l in es && forall other :: other in es ==> other == l || PlacedBefore(other, l)
    ensures es != [] && es[|es| - 1] == l
  {
    hide PlacedBefore;
    assert es[|es| - 1] in es;
    NotBoth(l, es[|es| - 1]);
  }

  /**
   After the backfill of urls without aliases: at any instant a url belongs to the posting of the
   lineage that is placed last of those started by then, and its open alias is that of the one
   placed last of all.
   */
  lemma OwnersInFields(t: Table, ls: seq<Lineage>, urls: seq<int>, url: int)
    requires Keyed(t) && DistinctLineages(ls) && url in urls
    requires forall i, j :: 0 <= i < j < |urls| ==> urls[i] != urls[j]
    requires forall u :: u in urls ==> Unknown(t, u) && Sighted(ls, u)
    ensures var after := Backfilled(t, ls, urls);
            && (forall at, l :: LatestBy(ls, url, at, l) ==> AliasOf(after, l) && Owns(after, IdOf(l), url, at))
            && (forall l :: LatestOfAll(ls, url, l) ==> AliasOf(after, l) && after[IdOf(l)].validTo.None?)
  {
    var after := Backfilled(t, ls, urls);
    EveryWindowInserted(t, ls, urls);
    hide *;
    forall at, l | LatestBy(ls, url, at, l) ensures AliasOf(after, l) && Owns(after, IdOf(l), url, at) {
      OwnerIsLatest(after, ls, url, at, l);
    }
    forall l | LatestOfAll(ls, url, l) ensures AliasOf(after, l) && IdOf(l) in after && after[IdOf(l)].validTo.None? {
      OpenIsLatest(after, ls, url, l);
      IsThere(after, l);
    }
  }

  lemma IsThere(t: Table, l: Lineage)
    requires AliasOf(t, l)
    ensures IdOf(l) in t
  {
  }

  /** There is always one placed last of those that have started. */
  lemma SomeLatest(ls: seq<Lineage>, url: int, at: int) returns (l: Lineage)
    requires DistinctLineages(ls) && SeenBy(ls, url, at)
    ensures LatestBy(ls, url, at, l)
  {
    TimelineInFields(ls, url);
    TimelineOfUrl(ls, url);
    SeenByFirst(ls, url, at);
    var es := Timeline(ls, url);
    hide Timeline, DistinctLineages, PlacedBefore, SeenBy, Sighted;
    var i := Owner(es, at, |es|);
    l := es[i];
    forall other | other in ls && other.url == url && other.first <= at ensures other == l || PlacedBefore(other, l) {
      var j :| 0 <= j < |es| && es[j] == other;
    }
  }

  /**
   The tie of a url on record: the postings last seen when the lineage placed last was last seen,
   if there are two of them or more and that tie is not there yet; nothing else changes.
   */
  lemma TieOnRecord(a: Archive, url: int, es: seq<Lineage>)
    requires es != []
    ensures var at := es[|es| - 1].last;
            var after := WithTie(a, url, es);
            if Tie(url, at) in a || |SeenLastAt(es, at)| < 2 then after == a
            else
              && after.Keys == a.Keys + {Tie(url, at)} && (forall t :: t in a ==> after[t] == a[t])
              && |after[Tie(url, at)]| >= 2
              && forall p :: p in after[Tie(url, at)] <==>
                   exists i :: 0 <= i < |es| && es[i].last == at && es[i].posting == p
  {
    SeenLastMembers(es, es[|es| - 1].last);
  }
}
