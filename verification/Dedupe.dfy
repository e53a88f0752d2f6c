/**
 The merging dedupe of the scraper (scraper.py:547-573). A row is a dictionary; the three
 parts of its identity key come from normalizations of single fields, which are parameters.
 The `_alts` list is kept sorted and without repeats, so it is a set here.
 */
module Dedupe {
  import opened Wrappers

  datatype Value = Null | Text(text: string) | Flag(on: bool) | Number(n: int)
  type Fields = map<string, Value>

  /** `others` are the fields `dedupe` never reads by name: salary, posted, remote, ... */
  datatype Row = Row(
    company: Value, title: Value, location: Value, url: string, source: string,
    others: Fields, alts: Option<set<string>>, alsoSeenOn: Option<string>)
  {
    function Alts(): set<string> {
      alts.GetOr({})
    }
    predicate Has(field: string) {
      field in others && NonEmpty(others[field])
    }
    /** Every url this row stands for. */
    function Urls(): set<string> {
      {url} + Alts()
    }
  }

  predicate NonEmpty(v: Value) {
    v != Null && v != Text("")
  }

  // ---------------------------------------------------------------- the pieces

  datatype Norms = Norms(company: Value -> string, title: Value -> string, city: Value -> string)
  datatype Key = Key(company: string, title: string, city: string)

  function KeyOf(r: Row, n: Norms): Key {
    Key(n.company(r.company), n.title(r.title), n.city(r.location))
  }

  function UpTo(s: string, stop: char): string {
    if s == "" || s[0] == stop then "" else [s[0]] + UpTo(s[1..], stop)
  }

  const DIRECT: set<string> := {
    "greenhouse", "lever", "ashby", "workday", "microsoft", "amazon", "smartrecruiters", "workable", "recruitee" }

  function SrcPrio(source: string): nat {
    if UpTo(UpTo(source, '-'), ':') in DIRECT then 0 else 9
  }

  function Over(lo: Value, hi: Value): Value {
    if NonEmpty(hi) then hi else lo
  }

  function OverText(lo: string, hi: string): string {
    if hi != "" then hi else lo
  }

  /** The fields of `lo`, overridden by those `hi` has something in. */
  function Overlaid(lo: Row, hi: Row): Row {
    Row(Over(lo.company, hi.company), Over(lo.title, hi.title), Over(lo.location, hi.location),
        OverText(lo.url, hi.url), OverText(lo.source, hi.source),
        lo.others + (map f | f in hi.others && NonEmpty(hi.others[f]) :: hi.others[f]), None, None)
  }

  /** The one of two sources that the merged row does not carry. */
  function OtherSource(a: string, r: string, kept: string): string {
    if a != kept then a else if r != kept then r else ""
  }

  function Merge(a: Row, r: Row): Row {
    var merged := if SrcPrio(r.source) < SrcPrio(a.source) then Overlaid(a, r) else Overlaid(r, a);
    merged.(alts := Some(a.Alts() + {a.url, r.url} - {merged.url}),
            alsoSeenOn := Some(OtherSource(a.source, r.source, merged.source)))
  }

  function Started(r: Row): Row {
    r.(alts := Some(r.Alts()))
  }

  // ------------------------------------------------------------ what is wanted

  /** The keys of the rows in the order they first appear. */
  function FirstKeys(rows: seq<Row>, n: Norms): seq<Key> {
    if rows == [] then []
    else
      var before, k := FirstKeys(rows[..|rows| - 1], n), KeyOf(rows[|rows| - 1], n);
      if k in before then before else before + [k]
  }

  function Group(rows: seq<Row>, k: Key, n: Norms): seq<Row> {
    if rows == [] then []
    else
      var last := rows[|rows| - 1];
      Group(rows[..|rows| - 1], k, n) + (if KeyOf(last, n) == k then [last] else [])
  }

  function Merged(group: seq<Row>): Row
    requires group != []
  {
    if |group| == 1 then Started(group[0]) else Merge(Merged(group[..|group| - 1]), group[|group| - 1])
  }

  /** One row for every key: the rows with that key merged in order. */
  ghost predicate IsDeduped(out: seq<Row>, rows: seq<Row>, n: Norms) {
    var keys := FirstKeys(rows, n);
    && |out| == |keys|
    && forall i :: 0 <= i < |keys| ==> Group(rows, keys[i], n) != [] && out[i] == Merged(Group(rows, keys[i], n))
  }

  /** One more row for its group. */
  lemma NextRow(rows: seq<Row>, i: nat, n: Norms)
    requires i < |rows|
    ensures FirstKeys(rows[..i + 1], n)
            == var before, k := FirstKeys(rows[..i], n), KeyOf(rows[i], n); if k in before then before else before + [k]
    ensures forall k :: Group(rows[..i + 1], k, n)
                        == Group(rows[..i], k, n) + (if k == KeyOf(rows[i], n) then [rows[i]] else [])
  {
    assert rows[..i + 1][..i] == rows[..i];
  }

  lemma NextMerge(g: seq<Row>, r: Row)
    ensures Merged(g + [r]) == if g == [] then Started(r) else Merge(Merged(g), r)
  {
    assert (g + [r])[..|g|] == g;
    hide Merge;
  }

  /** `order` and `best` are what the first rows come to. */
  ghost predicate Progress(order: seq<Key>, best: map<Key, Row>, rows: seq<Row>, n: Norms) {
    && order == FirstKeys(rows, n)
    && (forall k :: k in best <==> k in order)
    && (forall k :: Held(best, rows, k, n))
  }

  ghost predicate Held(best: map<Key, Row>, rows: seq<Row>, k: Key, n: Norms) {
    var g := Group(rows, k, n);
    if k in best then g != [] && best[k] == Merged(g) else g == []
  }

  lemma ProgressMade(order: seq<Key>, best: map<Key, Row>, rows: seq<Row>, i: nat, n: Norms)
    requires i < |rows| && Progress(order, best, rows[..i], n)
    ensures var k := KeyOf(rows[i], n);
            if k in best then Progress(order, best[k := Merge(best[k], rows[i])], rows[..i + 1], n)
            else Progress(order + [k], best[k := Started(rows[i])], rows[..i + 1], n)
  {
    NextRow(rows, i, n);
    hide FirstKeys, Group, Merged, Merge, KeyOf;
    var k := KeyOf(rows[i], n);
    var after := best[k := if k in best then Merge(best[k], rows[i]) else Started(rows[i])];
    var next := rows[..i + 1];
    forall k' ensures Held(after, next, k', n) {
      assert Held(best, rows[..i], k', n);
      var g := Group(rows[..i], k', n);
      if k' == k {
        NextMerge(g, rows[i]);
      } else {
        assert g + [] == g;
      }
    }
  }

  lemma ProgressStart(n: Norms)
    ensures Progress([], map[], [], n)
  {
    forall k ensures Held(map[], [], k, n) {
    }
  }

  lemma ProgressDone(order: seq<Key>, best: map<Key, Row>, rows: seq<Row>, out: seq<Row>, n: Norms)
    requires Progress(order, best, rows, n) && |out| == |order|
    requires forall i :: 0 <= i < |order| ==> order[i] in best && out[i] == best[order[i]]
    ensures IsDeduped(out, rows, n)
  {
    hide FirstKeys, Group, Merged;
    forall i | 0 <= i < |order|
      ensures Group(rows, order[i], n) != [] && out[i] == Merged(Group(rows, order[i], n))
    {
      assert Held(best, rows, order[i], n);
    }
  }

  method Dedupe(rows: seq<Row>, n: Norms) returns (out: seq<Row>)
    ensures IsDeduped(out, rows, n)
  {
    hide *;
    var order: seq<Key> := [];
    var best: map<Key, Row> := map[];
    ProgressStart(n);
    assert rows[..0] == [];
    for i := 0 to |rows|
      invariant Progress(order, best, rows[..i], n)
    {
      var r := rows[i];
      var k := KeyOf(r, n);
      ProgressMade(order, best, rows, i, n);
      if k !in best {
        order := order + [k];
        best := best[k := Started(r)];
      } else {
        best := best[k := Merge(best[k], r)];
      }
    }
    assert rows[..|rows|] == rows;
    AllKept(order, best, rows, n);
    out := [];
    for i := 0 to |order|
      invariant |out| == i
      invariant forall j :: 0 <= j < i ==> out[j] == best[order[j]]
    {
      out := out + [best[order[i]]];
    }
    ProgressDone(order, best, rows, out, n);
  }

  lemma AllKept(order: seq<Key>, best: map<Key, Row>, rows: seq<Row>, n: Norms)
    requires Progress(order, best, rows, n)
    ensures forall i :: 0 <= i < |order| ==> order[i] in best
  {
  }

  // ----------------------------------------------------------------- the groups

  lemma {:induction false} GroupMembers(rows: seq<Row>, k: Key, n: Norms)
    ensures forall r :: r in Group(rows, k, n) <==> r in rows && KeyOf(r, n) == k
  {
    if rows != [] {
      GroupMembers(rows[..|rows| - 1], k, n);
      assert rows == rows[..|rows| - 1] + [rows[|rows| - 1]];
    }
  }

  lemma {:induction false} KeysOnce(rows: seq<Row>, n: Norms)
    ensures forall i, j :: 0 <= i < j < |FirstKeys(rows, n)| ==> FirstKeys(rows, n)[i] != FirstKeys(rows, n)[j]
    ensures forall k :: k in FirstKeys(rows, n) <==> exists r :: r in rows && KeyOf(r, n) == k
  {
    if rows != [] {
      var init, last := rows[..|rows| - 1], rows[|rows| - 1];
      KeysOnce(init, n);
      assert rows == init + [last];
      assert last in rows;
    }
  }

  lemma MergeKeepsKey(a: Row, r: Row, n: Norms)
    requires KeyOf(a, n) == KeyOf(r, n)
    ensures KeyOf(Merge(a, r), n) == KeyOf(a, n)
  {
    hide SrcPrio;
    var m := Merge(a, r);
    assert m.company in {a.company, r.company} && m.title in {a.title, r.title};
    assert m.location in {a.location, r.location};
  }

  lemma {:induction false} MergedKeepsKey(group: seq<Row>, k: Key, n: Norms)
    requires group != [] && forall r :: r in group ==> KeyOf(r, n) == k
    ensures KeyOf(Merged(group), n) == k && Merged(group).alts.Some?
  {
    if |group| > 1 {
      MergedKeepsKey(group[..|group| - 1], k, n);
      MergeKeepsKey(Merged(group[..|group| - 1]), group[|group| - 1], n);
    } else {
      assert group[0] in group;
    }
  }

  /** One row per identity key, in the order the keys first came. */
  lemma OneRowPerKey(out: seq<Row>, rows: seq<Row>, n: Norms)
    requires IsDeduped(out, rows, n)
    ensures forall i :: 0 <= i < |out| ==> KeyOf(out[i], n) == FirstKeys(rows, n)[i] && out[i].alts.Some?
    ensures forall i, j :: 0 <= i < j < |out| ==> KeyOf(out[i], n) != KeyOf(out[j], n)
    ensures forall r :: r in rows ==> exists i :: 0 <= i < |out| && KeyOf(out[i], n) == KeyOf(r, n)
  {
    KeysOnce(rows, n);
    var keys := FirstKeys(rows, n);
    forall i | 0 <= i < |out| ensures KeyOf(out[i], n) == keys[i] && out[i].alts.Some? {
      GroupMembers(rows, keys[i], n);
      MergedKeepsKey(Group(rows, keys[i], n), keys[i], n);
    }
    forall r | r in rows ensures exists i :: 0 <= i < |out| && KeyOf(out[i], n) == KeyOf(r, n) {
      assert KeyOf(r, n) in keys;
      var i :| 0 <= i < |keys| && keys[i] == KeyOf(r, n);
      assert KeyOf(out[i], n) == KeyOf(r, n);
    }
  }

  // ------------------------------------------------------------------- the urls

  lemma MergeUrls(a: Row, r: Row)
    ensures Merge(a, r).Urls() == a.Urls() + {r.url}
    ensures Merge(a, r).url !in Merge(a, r).Alts()
  {
    hide SrcPrio;
    assert Merge(a, r).url in {a.url, r.url};
  }

  function UrlsIn(group: seq<Row>): set<string> {
    set r | r in group :: r.url
  }

  /**
   The url of a merged row and its alternatives are exactly the urls merged into it, with the
   alternatives its first row came with; those of a later row are not looked at.
   */
  lemma {:induction false} MergedUrls(group: seq<Row>)
    requires group != []
    ensures Merged(group).Urls() == UrlsIn(group) + group[0].Alts()
    ensures |group| > 1 ==> Merged(group).url !in Merged(group).Alts()
  {
    if |group| > 1 {
      var init, last := group[..|group| - 1], group[|group| - 1];
      MergedUrls(init);
      MergeUrls(Merged(init), last);
      assert group == init + [last];
      assert UrlsIn(group) == UrlsIn(init) + {last.url};
    } else {
      assert group == [group[0]];
    }
  }

  /** So nothing is lost exactly when every alternative a later row came with is one of those. */
  lemma NoUrlLost(group: seq<Row>)
    requires group != []
    ensures Merged(group).Urls() == UrlsIn(group) + (set r, u | r in group && u in r.Alts() :: u)
            <==> forall r :: r in group ==> r.Alts() <= UrlsIn(group) + group[0].Alts()
  {
    MergedUrls(group);
    var alts := set r, u | r in group && u in r.Alts() :: u;
    assert group[0] in group && forall u :: u in group[0].Alts() ==> u in alts;
    assert forall r, u :: r in group && u in r.Alts() ==> u in alts;
  }

  // ----------------------------------------------------- which record is preferred

  lemma {:induction false} MergedHasBestSource(group: seq<Row>)
    requires group != []
    ensures exists r :: r in group && r.source == Merged(group).source
    ensures forall r :: r in group ==> SrcPrio(Merged(group).source) <= SrcPrio(r.source)
  {
    if |group| > 1 {
      var init, last := group[..|group| - 1], group[|group| - 1];
      MergedHasBestSource(init);
      assert group == init + [last];
      PreferredSource(Merged(init), last);
      var r0 :| r0 in init && r0.source == Merged(init).source;
      assert r0 in group && last in group;
    } else {
      assert group[0] in group;
    }
  }

  lemma PreferredSource(a: Row, r: Row)
    ensures Merge(a, r).source in {a.source, r.source}
    ensures SrcPrio(Merge(a, r).source) <= SrcPrio(a.source)
    ensures SrcPrio(Merge(a, r).source) <= SrcPrio(r.source)
  {
    assert SrcPrio("") == 9;
    assert SrcPrio(a.source) <= 9 && SrcPrio(r.source) <= 9;
  }

  /** No field is lost in merging: it has something in it if any of the rows had, and what one of them had. */
  lemma {:induction false} MergedFields(group: seq<Row>, field: string)
    requires group != []
    ensures Merged(group).Has(field) <==> exists r :: r in group && r.Has(field)
    ensures Merged(group).Has(field) ==>
              exists r :: r in group && r.Has(field) && r.others[field] == Merged(group).others[field]
  {
    if |group| > 1 {
      var init, last := group[..|group| - 1], group[|group| - 1];
      MergedFields(init, field);
      assert group == init + [last];
      assert last in group && forall r :: r in init ==> r in group;
      MergeField(Merged(init), last, field);
    } else {
      assert group[0] in group;
    }
  }

  lemma MergeField(a: Row, r: Row, field: string)
    ensures Merge(a, r).Has(field) <==> a.Has(field) || r.Has(field)
    ensures Merge(a, r).Has(field) ==>
              || (a.Has(field) && Merge(a, r).others[field] == a.others[field])
              || (r.Has(field) && Merge(a, r).others[field] == r.others[field])
  {
    hide SrcPrio;
  }

  // ----------------------------------------------------------------- idempotence

  lemma {:induction false} DistinctKeysStay(rows: seq<Row>, n: Norms)
    requires forall i, j :: 0 <= i < j < |rows| ==> KeyOf(rows[i], n) != KeyOf(rows[j], n)
    ensures |FirstKeys(rows, n)| == |rows|
    ensures forall i :: 0 <= i < |rows| ==> FirstKeys(rows, n)[i] == KeyOf(rows[i], n)
  {
    if rows != [] {
      var init := rows[..|rows| - 1];
      DistinctKeysStay(init, n);
    }
  }

  lemma {:induction false} GroupOfOne(rows: seq<Row>, i: nat, n: Norms)
    requires i < |rows| && forall a, b :: 0 <= a < b < |rows| ==> KeyOf(rows[a], n) != KeyOf(rows[b], n)
    ensures Group(rows, KeyOf(rows[i], n), n) == [rows[i]]
  {
    var init, last := rows[..|rows| - 1], rows[|rows| - 1];
    if i < |rows| - 1 {
      GroupOfOne(init, i, n);
      assert init[i] == rows[i];
    } else {
      NoGroup(init, KeyOf(last, n), n);
    }
  }

  lemma {:induction false} NoGroup(rows: seq<Row>, k: Key, n: Norms)
    requires forall i :: 0 <= i < |rows| ==> KeyOf(rows[i], n) != k
    ensures Group(rows, k, n) == []
  {
    if rows != [] {
      NoGroup(rows[..|rows| - 1], k, n);
    }
  }

  /** Deduping what was deduped gives it back unchanged. */
  lemma DedupeIsIdempotent(once: seq<Row>, twice: seq<Row>, rows: seq<Row>, n: Norms)
    requires IsDeduped(once, rows, n) && IsDeduped(twice, once, n)
    ensures twice == once
  {
    OneRowPerKey(once, rows, n);
    DistinctKeysStay(once, n);
    forall i | 0 <= i < |once| ensures twice[i] == once[i] {
      GroupOfOne(once, i, n);
    }
  }
}
