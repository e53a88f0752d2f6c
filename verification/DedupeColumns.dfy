/**
 Where each column of a merged row comes from (scraper.py:430-441, 547-573): of the rows merged
 into it, the first one is in charge until the first direct one comes; what those in charge have
 counts before what the others have.
 */
module DedupeColumns {
  import opened Wrappers
  import opened Dedupe

  // ------------------------------------------------------------------- the sources

  const BOARDS: set<string> := {
    "greenhouse", "lever", "ashby", "workday", "microsoft", "amazon", "smartrecruiters", "workable", "recruitee" }

  /** A source is direct if it names one of the boards, alone or in front of a '-' or a ':'. */
  ghost predicate Direct(source: string) {
    exists n :: NamesBoard(source, n)
  }

  predicate NamesBoard(source: string, n: nat) {
    && n <= |source| && source[..n] in BOARDS && '-' !in source[..n] && ':' !in source[..n]
    && (n == |source| || source[n] == '-' || source[n] == ':')
  }

  /** What `UpTo` cuts off begins with the first of the stops. */
  lemma {:induction false} CutAt(s: string, stop: char)
    ensures var n := |UpTo(s, stop)|;
            n <= |s| && s[..n] == UpTo(s, stop) && stop !in s[..n] && (n == |s| || s[n] == stop)
  {
    if s != "" && s[0] != stop {
      CutAt(s[1..], stop);
      var n := |UpTo(s, stop)|;
      assert s[..n] == [s[0]] + s[1..][..n - 1];
    }
  }

  lemma DirectOrNot(source: string)
    ensures SrcPrio(source) in {0, 9} && (SrcPrio(source) == 0 <==> Direct(source))
  {
    var a, b := UpTo(source, '-'), UpTo(UpTo(source, '-'), ':');
    CutAt(source, '-');
    CutAt(a, ':');
    assert source[..|b|] == b && '-' !in b by {
      assert source[..|a|][..|b|] == source[..|b|];
    }
    if b in DIRECT {
      assert NamesBoard(source, |b|);
    }
    if n: nat :| NamesBoard(source, n) {
      OneCut(source, n, |b|);
    }
  }

  /** The end of the name is the first stop, so there is only one. */
  lemma OneCut(s: string, m: nat, n: nat)
    requires m <= |s| && '-' !in s[..m] && ':' !in s[..m] && (m == |s| || s[m] == '-' || s[m] == ':')
    requires n <= |s| && '-' !in s[..n] && ':' !in s[..n] && (n == |s| || s[n] == '-' || s[n] == ':')
    ensures m == n
  {
  }

  // ------------------------------------------------------------------- the columns

  datatype Column = Company | Title | Location | Url | Source | Other(name: string)

  /** What a row has in a column, nothing if it is missing. */
  function Cell(r: Row, c: Column): Value {
    match c
    case Company => r.company
    case Title => r.title
    case Location => r.location
    case Url => Text(r.url)
    case Source => Text(r.source)
    case Other(name) => if name in r.others then r.others[name] else Null
  }

  predicate Holds(r: Row, c: Column) {
    NonEmpty(Cell(r, c))
  }

  /** The first row is in charge, and so is the first direct one. */
  ghost predicate InCharge(group: seq<Row>, i: int) {
    && 0 <= i < |group|
    && (i == 0 || (Direct(group[i].source) && forall j :: 0 <= j < i ==> !Direct(group[j].source)))
  }

  /**
   The i-th row supplies the column: the last one in charge that has it, or the first one that
   has it if none in charge does.
   */
  ghost predicate Supplies(group: seq<Row>, c: Column, i: int) {
    && 0 <= i < |group| && Holds(group[i], c)
    && if InCharge(group, i) then forall j :: i < j && InCharge(group, j) ==> !Holds(group[j], c)
       else
         && (forall j :: InCharge(group, j) ==> !Holds(group[j], c))
         && forall j :: 0 <= j < i ==> !Holds(group[j], c)
  }

  lemma MergedCell(a: Row, r: Row, c: Column)
    ensures var (lo, hi) := if SrcPrio(r.source) < SrcPrio(a.source) then (a, r) else (r, a);
            && (Holds(Merge(a, r), c) <==> Holds(lo, c) || Holds(hi, c))
            && (Holds(Merge(a, r), c) ==> Cell(Merge(a, r), c) == if Holds(hi, c) then Cell(hi, c) else Cell(lo, c))
  {
    hide SrcPrio;
  }

  /** The merged row is as direct as the most direct row merged into it. */
  lemma {:induction false} MergedDirect(group: seq<Row>)
    requires group != []
    ensures SrcPrio(Merged(group).source) == 0 <==> exists r :: r in group && Direct(r.source)
  {
    MergedHasBestSource(group);
    forall r | r in group ensures SrcPrio(r.source) == 0 <==> Direct(r.source) {
      DirectOrNot(r.source);
    }
    hide Merged, SrcPrio, Direct;
  }

  lemma SoleSupplier(group: seq<Row>, c: Column)
    requires |group| == 1
    ensures Merged(group) == Started(group[0])
    ensures Holds(Merged(group), c) <==> Holds(group[0], c)
    ensures Holds(group[0], c) ==> Supplies(group, c, 0) && Cell(Merged(group), c) == Cell(group[0], c)
  {
  }

  lemma ChargeInMore(init: seq<Row>, last: Row)
    requires init != []
    ensures forall i :: InCharge(init + [last], i) <==>
              if i < |init| then InCharge(init, i)
              else i == |init| && Direct(last.source) && forall r :: r in init ==> !Direct(r.source)
  {
    var group := init + [last];
    hide Direct;
    assert forall i :: 0 <= i < |init| ==> group[i] == init[i] && init[i] in init;
  }

  ghost predicate TakesOver(init: seq<Row>, last: Row) {
    Direct(last.source) && forall r :: r in init ==> !Direct(r.source)
  }

  lemma NextSupplies(init: seq<Row>, last: Row, c: Column)
    requires init != [] && Holds(last, c) && (TakesOver(init, last) || forall r :: r in init ==> !Holds(r, c))
    ensures Supplies(init + [last], c, |init|)
  {
    ChargeInMore(init, last);
    hide Direct, Holds, InCharge;
    var group := init + [last];
    assert forall j :: 0 <= j < |init| ==> group[j] == init[j] && init[j] in init;
  }

  lemma StillSupplies(init: seq<Row>, last: Row, c: Column, i: int)
    requires Supplies(init, c, i) && !(Holds(last, c) && TakesOver(init, last))
    ensures Supplies(init + [last], c, i)
  {
    ChargeInMore(init, last);
    hide Direct, Holds, InCharge;
    var group := init + [last];
    assert forall j :: 0 <= j < |init| ==> group[j] == init[j];
  }

  lemma LastMerge(init: seq<Row>, last: Row, c: Column)
    requires init != []
    ensures var m, before := Merged(init + [last]), Merged(init);
            && (Holds(m, c) <==> Holds(before, c) || Holds(last, c))
            && (Holds(m, c) ==>
                  Cell(m, c) == if Holds(last, c) && (TakesOver(init, last) || !Holds(before, c)) then Cell(last, c)
                                else Cell(before, c))
  {
    NextMerge(init, last);
    MergedCell(Merged(init), last, c);
    MergedDirect(init);
    DirectOrNot(last.source);
    DirectOrNot(Merged(init).source);
    hide Merged, Merge, Direct, Holds, Cell;
    assert TakesOver(init, last) <==> SrcPrio(last.source) < SrcPrio(Merged(init).source);
  }

  /**
   Every column of a merged row: it has something in it exactly when some merged row had, and then
   what the supplying row had.
   */
  lemma {:induction false} ColumnFrom(group: seq<Row>, c: Column) returns (i: int)
    requires group != []
    ensures i == -1 <==> forall r :: r in group ==> !Holds(r, c)
    ensures Holds(Merged(group), c) <==> i != -1
    ensures i != -1 ==> Supplies(group, c, i) && Cell(Merged(group), c) == Cell(group[i], c)
  {
    if |group| == 1 {
      SoleSupplier(group, c);
      assert forall r :: r in group ==> r == group[0];
      i := if Holds(group[0], c) then 0 else -1;
    } else {
      var init, last := group[..|group| - 1], group[|group| - 1];
      i := ColumnFrom(init, c);
      assert group == init + [last];
      hide *;
      LastMerge(init, last, c);
      assert last in group && forall r :: r in group ==> r in init || r == last;
      assert forall r :: r in init ==> r in group;
      if Holds(last, c) && (TakesOver(init, last) || i == -1) {
        NextSupplies(init, last, c);
        i := |init|;
      } else if i != -1 {
        StillSupplies(init, last, c, i);
        assert group[i] == init[i];
      }
    }
  }

  /** A merge names the source that the merged row does not carry, if there is one. */
  lemma AlsoSeenOn(a: Row, r: Row)
    ensures var m := Merge(a, r);
            && m.alsoSeenOn.Some?
            && {a.source, r.source} <= {m.source, m.alsoSeenOn.value}
            && (m.alsoSeenOn.value == "" || m.alsoSeenOn.value in {a.source, r.source} - {m.source})
  {
    hide SrcPrio;
  }

  /** Rows are merged when company, title and city agree once they are normalized. */
  lemma SameIdentity(a: Row, b: Row, n: Norms)
    ensures KeyOf(a, n) == KeyOf(b, n) <==>
              && n.company(a.company) == n.company(b.company)
              && n.title(a.title) == n.title(b.title)
              && n.city(a.location) == n.city(b.location)
  {
  }
}
