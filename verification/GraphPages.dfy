/**
 The pages of work a scoring pass asks for (graph.py:405-431): the smallest ids beyond a keyset
 cursor, of one list or of two lists merged.
 */
module GraphPages {
  import opened Wrappers

  type PostingId = int

  ghost predicate Ascending(page: seq<PostingId>) {
    forall i, j :: 0 <= i < j < |page| ==> page[i] < page[j]
  }

  function Ids(page: seq<PostingId>): set<PostingId> {
    set p | p in page
  }

  /** `page` is the `limit` smallest of `work`, or all of it, in order. */
  ghost predicate IsFirst(page: seq<PostingId>, work: set<PostingId>, limit: nat) {
    && Ascending(page) && |page| <= limit
    && (forall p :: p in page ==> p in work)
    && (|page| < limit ==> forall x :: x in work ==> x in page)
    && (forall x, p :: x in work && x !in page && p in page ==> p < x)
  }

  /** What lies beyond the cursor. */
  function Beyond(work: set<PostingId>, cursor: Option<PostingId>): set<PostingId> {
    set x | x in work && (cursor.None? || x > cursor.value)
  }

  lemma {:induction false} AscendingCount(page: seq<PostingId>)
    requires Ascending(page)
    ensures |Ids(page)| == |page|
  {
    if page != [] {
      var init, last := page[..|page| - 1], page[|page| - 1];
      AscendingCount(init);
      assert page == init + [last];
      assert Ids(page) == Ids(init) + {last};
      assert last !in Ids(init);
    }
  }

  /** ORDER BY posting_id LIMIT ? */
  method FirstOf(work: set<PostingId>, limit: nat) returns (page: seq<PostingId>)
    ensures IsFirst(page, work, limit)
  {
    page := [];
    var rest := work;
    while |page| < limit && rest != {}
      invariant Ascending(page) && |page| <= limit
      invariant forall x :: x in work <==> x in rest || x in page
      invariant forall x, p :: x in rest && p in page ==> p < x
      decreases limit - |page|
    {
      var least := Least(rest);
      forall i | 0 <= i < |page| ensures page[i] < least {
        assert page[i] in page;
      }
      page := page + [least];
      rest := rest - {least};
    }
  }

  method Least(s: set<PostingId>) returns (least: PostingId)
    requires s != {}
    ensures least in s && forall x :: x in s ==> least <= x
  {
    ghost var some: PostingId := SomeMember(s);
    assert some in s;
    least :| least in s;
    var rest := s - {least};
    while rest != {}
      invariant rest <= s && least in s && forall x :: x in s ==> least <= x || x in rest
      decreases rest
    {
      ghost var other: PostingId := SomeMember(rest);
      assert other in rest;
      var x: PostingId :| x in rest;
      if x < least {
        least := x;
      }
      rest := rest - {x};
    }
  }

  /**
   Cutting each of two lists to the limit, and then their union, gives the page that the
   union of the whole lists has.
   */
  lemma CutBeforeMerging(
    d: seq<PostingId>, dirty: set<PostingId>, i: seq<PostingId>, invalid: set<PostingId>,
    page: seq<PostingId>, limit: nat)
    requires IsFirst(d, dirty, limit) && IsFirst(i, invalid, limit)
    requires IsFirst(page, Ids(d) + Ids(i), limit)
    ensures IsFirst(page, dirty + invalid, limit)
  {
    forall x, p | x in dirty + invalid && x !in page && p in page ensures p < x {
      if x in dirty && x !in d {
        LeftOut(d, dirty, Ids(i), page, limit, x, p);
      } else if x in invalid && x !in i {
        assert Ids(d) + Ids(i) == Ids(i) + Ids(d);
        LeftOut(i, invalid, Ids(d), page, limit, x, p);
      } else {
        assert x in Ids(d) + Ids(i);
      }
    }
    if |page| < limit {
      AscendingCount(d);
      AscendingCount(i);
      AscendingCount(page);
      NoMoreThan(Ids(d), Ids(page));
      NoMoreThan(Ids(i), Ids(page));
    }
  }

  lemma NoMoreThan(a: set<PostingId>, b: set<PostingId>)
    requires a <= b
    ensures |a| <= |b|
  {
    assert b == a + (b - a);
  }

  /** An id that its own list already left out comes after everything on the page. */
  lemma LeftOut(
    d: seq<PostingId>, dirty: set<PostingId>, others: set<PostingId>, page: seq<PostingId>,
    limit: nat, x: PostingId, p: PostingId)
    requires IsFirst(d, dirty, limit) && IsFirst(page, Ids(d) + others, limit)
    requires x in dirty && x !in d && p in page
    ensures p < x
  {
    if p !in d {
      if forall y :: y in d ==> y in page {
        AscendingCount(d);
        AscendingCount(page);
        NoMoreThan(Ids(d) + {p}, Ids(page));
      } else {
        var y :| y in d && y !in page;
        assert y in Ids(d) + others;
      }
    }
  }
}
