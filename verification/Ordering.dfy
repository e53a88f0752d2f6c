/**
 Python's `sorted(items, key=...)`: a stable sort under lexicographic keys. Keys are tuples
 of integers; a string in a key is its rank in code-point order.
 */
module Ordering {

  type Key = seq<int>

  predicate Less(a: Key, b: Key) {
    if a == [] then b != []
    else if b == [] then false
    else a[0] < b[0] || (a[0] == b[0] && Less(a[1..], b[1..]))
  }

  lemma {:induction false} LessTransitive(a: Key, b: Key, c: Key)
    requires Less(a, b) && Less(b, c)
    ensures Less(a, c)
  {
    if a != [] && a[0] == b[0] == c[0] {
      LessTransitive(a[1..], b[1..], c[1..]);
    }
  }

  lemma {:induction false} LessAsymmetric(a: Key, b: Key)
    requires Less(a, b)
    ensures !Less(b, a)
  {
    if a != [] && a[0] == b[0] {
      LessAsymmetric(a[1..], b[1..]);
    }
  }

  /** Any two different keys are ordered one way or the other. */
  lemma {:induction false} LessTotal(a: Key, b: Key)
    ensures a == b || Less(a, b) || Less(b, a)
  {
    if a != [] && b != [] && a[0] == b[0] {
      LessTotal(a[1..], b[1..]);
      assert a == [a[0]] + a[1..];
      assert b == [b[0]] + b[1..];
    }
  }

  /** `x` goes behind everything whose key is not greater, which keeps equal keys in order. */
  function Insert<T>(x: T, s: seq<T>, key: T -> Key): seq<T> {
    if s == [] then [x]
    else if Less(key(x), key(s[0])) then [x] + s
    else [s[0]] + Insert(x, s[1..], key)
  }

  function SortBy<T>(s: seq<T>, key: T -> Key): seq<T> {
    if s == [] then [] else Insert(s[|s| - 1], SortBy(s[..|s| - 1], key), key)
  }

  ghost predicate Ordered<T>(s: seq<T>, key: T -> Key) {
    forall i, j :: 0 <= i < j < |s| ==> !Less(key(s[j]), key(s[i]))
  }


  lemma {:induction false} InsertKeeps<T>(x: T, s: seq<T>, key: T -> Key)
    requires Ordered(s, key)
    ensures multiset(Insert(x, s, key)) == multiset(s) + multiset{x}
    ensures Ordered(Insert(x, s, key), key)
  {
    if s != [] {
      assert s == [s[0]] + s[1..];
      if Less(key(x), key(s[0])) {
        LessAsymmetric(key(x), key(s[0]));
        forall j | 0 <= j < |s| ensures !Less(key(s[j]), key(x)) {
          if j > 0 && Less(key(s[j]), key(x)) {
            LessTransitive(key(s[j]), key(x), key(s[0]));
          }
        }
      } else {
        InsertKeeps(x, s[1..], key);
        var t := Insert(x, s[1..], key);
        forall j | 0 <= j < |t| ensures !Less(key(t[j]), key(s[0])) {
          assert t[j] in multiset(t);
          if t[j] != x {
            assert t[j] in s[1..];
          }
        }
      }
    }
  }

  lemma {:induction false} SortByKeeps<T>(s: seq<T>, key: T -> Key)
    ensures multiset(SortBy(s, key)) == multiset(s)
    ensures Ordered(SortBy(s, key), key)
    ensures |SortBy(s, key)| == |s|
  {
    if s != [] {
      var init := s[..|s| - 1];
      assert s == init + [s[|s| - 1]];
      SortByKeeps(init, key);
      InsertKeeps(s[|s| - 1], SortBy(init, key), key);
    }
    assert |multiset(SortBy(s, key))| == |multiset(s)|;
  }

  /** With distinct keys there is only one sorted arrangement. */
  lemma {:induction false} OrderedUnique<T(!new)>(a: seq<T>, b: seq<T>, key: T -> Key)
    requires multiset(a) == multiset(b) && Ordered(a, key) && Ordered(b, key)
    requires forall x, y :: x in a && y in a && key(x) == key(y) ==> x == y
    ensures a == b
  {
    assert |a| == |multiset(a)| == |multiset(b)| == |b|;
    if a != [] {
      HeadsAgree(a, b, key);
      assert a == [a[0]] + a[1..] && b == [b[0]] + b[1..];
      assert multiset(a) == multiset{a[0]} + multiset(a[1..]);
      assert multiset(b) == multiset{b[0]} + multiset(b[1..]);
      assert multiset(a[1..]) == multiset(a) - multiset{a[0]};
      assert multiset(b[1..]) == multiset(b) - multiset{b[0]};
      TailOrdered(a, key);
      TailOrdered(b, key);
      hide Ordered;
      OrderedUnique(a[1..], b[1..], key);
    }
  }

  lemma TailOrdered<T>(a: seq<T>, key: T -> Key)
    requires a != [] && Ordered(a, key)
    ensures Ordered(a[1..], key)
  {
  }

  lemma HeadsAgree<T(!new)>(a: seq<T>, b: seq<T>, key: T -> Key)
    requires a != [] && b != []
    requires multiset(a) == multiset(b) && Ordered(a, key) && Ordered(b, key)
    requires forall x, y :: x in a && y in a && key(x) == key(y) ==> x == y
    ensures a[0] == b[0]
  {
    assert a[0] in multiset(b) && b[0] in multiset(a);
    var i :| 0 <= i < |a| && a[i] == b[0];
    var j :| 0 <= j < |b| && b[j] == a[0];
    LessTotal(key(a[0]), key(b[0]));
  }

  /** Sorting forgets the order the items came in. */
  lemma SortByPermutation<T(!new)>(s: seq<T>, t: seq<T>, key: T -> Key)
    requires multiset(s) == multiset(t)
    requires forall x, y :: x in s && y in s && key(x) == key(y) ==> x == y
    ensures SortBy(s, key) == SortBy(t, key)
  {
    SortByKeeps(s, key);
    SortByKeeps(t, key);
    forall x | x in SortBy(s, key) ensures x in s {
      assert x in multiset(SortBy(s, key));
    }
    OrderedUnique(SortBy(s, key), SortBy(t, key), key);
  }

  // ------------------------------------------------------- distinct identities

  ghost predicate Distinct<T>(s: seq<T>, id: T -> int) {
    forall i, j :: 0 <= i < j < |s| ==> id(s[i]) != id(s[j])
  }

  lemma {:induction false} InsertMembers<T(!new)>(x: T, s: seq<T>, key: T -> Key)
    ensures forall y :: y in Insert(x, s, key) <==> y == x || y in s
  {
    if s != [] && !Less(key(x), key(s[0])) {
      InsertMembers(x, s[1..], key);
      assert s == [s[0]] + s[1..];
    }
  }

  lemma {:induction false} InsertDistinct<T(!new)>(x: T, s: seq<T>, key: T -> Key, id: T -> int)
    requires Distinct(s, id) && forall y :: y in s ==> id(y) != id(x)
    ensures Distinct(Insert(x, s, key), id)
  {
    if s != [] && !Less(key(x), key(s[0])) {
      InsertDistinct(x, s[1..], key, id);
      InsertMembers(x, s[1..], key);
      var t := Insert(x, s[1..], key);
      forall j | 0 <= j < |t| ensures id(t[j]) != id(s[0]) {
        assert t[j] in t;
        if t[j] != x {
          assert t[j] in s[1..];
          var k :| 0 <= k < |s[1..]| && s[1..][k] == t[j];
          assert s[k + 1] == t[j];
        }
      }
    }
  }

  lemma {:induction false} SortByDistinct<T(!new)>(s: seq<T>, key: T -> Key, id: T -> int)
    requires Distinct(s, id)
    ensures Distinct(SortBy(s, key), id)
    ensures forall y :: y in SortBy(s, key) <==> y in s
  {
    if s != [] {
      var init, last := s[..|s| - 1], s[|s| - 1];
      SortByDistinct(init, key, id);
      forall y | y in SortBy(init, key) ensures id(y) != id(last) {
        assert y in init;
        var k :| 0 <= k < |init| && init[k] == y;
        assert s[k] == y;
      }
      InsertDistinct(last, SortBy(init, key), key, id);
      InsertMembers(last, SortBy(init, key), key);
      assert s == init + [last];
    }
  }

  lemma {:induction false} SortByMembers<T(!new)>(s: seq<T>, key: T -> Key)
    ensures forall y :: y in SortBy(s, key) <==> y in s
    ensures |SortBy(s, key)| == |s|
  {
    SortByKeeps(s, key);
    forall y ensures y in SortBy(s, key) <==> y in s {
      assert y in SortBy(s, key) <==> y in multiset(SortBy(s, key));
    }
  }

  ghost function IdsOf<T>(s: seq<T>, id: T -> int): set<int> {
    set i | 0 <= i < |s| :: id(s[i])
  }

  /** Items have distinct ids exactly when there are as many ids as items. */
  lemma {:induction false} DistinctIsIdCount<T>(s: seq<T>, id: T -> int)
    ensures |IdsOf(s, id)| <= |s|
    ensures Distinct(s, id) <==> |IdsOf(s, id)| == |s|
  {
    if s != [] {
      var init, last := s[..|s| - 1], s[|s| - 1];
      DistinctIsIdCount(init, id);
      OneMoreId(s, id);
      hide Distinct, IdsOf;
    }
  }

  lemma OneMoreId<T>(s: seq<T>, id: T -> int)
    requires s != []
    ensures var init, last := s[..|s| - 1], s[|s| - 1];
            && IdsOf(s, id) == IdsOf(init, id) + {id(last)}
            && (Distinct(s, id) <==> Distinct(init, id) && id(last) !in IdsOf(init, id))
  {
    var init := s[..|s| - 1];
    assert forall i :: 0 <= i < |init| ==> init[i] == s[i];
    assert id(s[|s| - 1]) in IdsOf(s, id);
  }

  /** Rearranging the items does not change whether their ids are distinct. */
  lemma DistinctPermutation<T(!new)>(a: seq<T>, b: seq<T>, id: T -> int)
    requires multiset(a) == multiset(b)
    ensures Distinct(a, id) <==> Distinct(b, id)
  {
    SameIds(a, b, id);
    SameIds(b, a, id);
    assert IdsOf(a, id) == IdsOf(b, id);
    assert |a| == |multiset(a)| == |multiset(b)| == |b|;
    DistinctIsIdCount(a, id);
    DistinctIsIdCount(b, id);
  }

  lemma SameIds<T(!new)>(a: seq<T>, b: seq<T>, id: T -> int)
    requires multiset(a) == multiset(b)
    ensures IdsOf(a, id) <= IdsOf(b, id)
  {
    forall x | x in IdsOf(a, id) ensures x in IdsOf(b, id) {
      var i :| 0 <= i < |a| && id(a[i]) == x;
      assert a[i] in multiset(b);
      var j :| 0 <= j < |b| && b[j] == a[i];
    }
  }
}
