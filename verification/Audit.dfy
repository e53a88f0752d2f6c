/**
 Conservation in the audit (audit.py:103-117, 368-387): every legacy row that has no posting
 must be in the archive, each archive row answering for one of them at most.
 */
module Audit {
  import opened Wrappers

  /** A locator with the hash of the archived content. */
  datatype ArchiveId = ArchiveId(locator: int, hash: int)
  datatype ArchiveRow = ArchiveRow(artifact: int, id: ArchiveId)

  type Available = map<ArchiveId, nat>

  function Count(available: Available, k: ArchiveId): nat {
    if k in available then available[k] else 0
  }

  /** The counter as the multiset it counts. */
  ghost function Held(available: Available): multiset<ArchiveId> {
    if available == map[] then multiset{}
    else
      var k :| k in available;
      Held(available - {k})[k := available[k]]
  }

  lemma {:induction false} HeldCounts(available: Available, k: ArchiveId)
    ensures Held(available)[k] == Count(available, k)
  {
    if available != map[] {
      var x :| x in available && Held(available) == Held(available - {x})[x := available[x]];
      HeldCounts(available - {x}, k);
    }
  }

  /** The archive ids filed under one artifact. */
  function FiledUnder(rows: seq<ArchiveRow>, artifact: int): seq<ArchiveId> {
    if rows == [] then []
    else
      var last := rows[|rows| - 1];
      FiledUnder(rows[..|rows| - 1], artifact) + (if last.artifact == artifact then [last.id] else [])
  }

  lemma HeldUpdate(available: Available, k: ArchiveId, n: nat)
    ensures Held(available[k := n]) == Held(available)[k := n]
  {
    hide Held;
    var before, after := Held(available), Held(available[k := n]);
    forall x ensures after[x] == before[k := n][x] {
      HeldCounts(available, x);
      HeldCounts(available[k := n], x);
    }
  }

  lemma HeldMore(available: Available, k: ArchiveId)
    ensures Held(available[k := Count(available, k) + 1]) == Held(available) + multiset{k}
  {
    HeldUpdate(available, k, Count(available, k) + 1);
    HeldCounts(available, k);
  }

  lemma HeldLess(available: Available, k: ArchiveId)
    requires Count(available, k) > 0
    ensures Held(available[k := Count(available, k) - 1]) == Held(available) - multiset{k}
  {
    HeldUpdate(available, k, Count(available, k) - 1);
    HeldCounts(available, k);
  }

  lemma HeldNothing()
    ensures Held(map[]) == multiset{}
  {
  }

  /** The counter of artifact `a` is right for the rows. */
  ghost predicate Indexed(index: map<int, Available>, rows: seq<ArchiveRow>, a: int) {
    if a in index then Held(index[a]) == multiset(FiledUnder(rows, a)) else FiledUnder(rows, a) == []
  }

  lemma NextIndexed(index: map<int, Available>, rows: seq<ArchiveRow>, i: nat, counter: Available, a: int)
    requires i < |rows| && Indexed(index, rows[..i], a)
    requires counter == if rows[i].artifact in index then index[rows[i].artifact] else map[]
    ensures Indexed(index[rows[i].artifact := counter[rows[i].id := Count(counter, rows[i].id) + 1]], rows[..i + 1], a)
  {
    assert rows[..i + 1][..i] == rows[..i];
    var before := FiledUnder(rows[..i], a);
    if a == rows[i].artifact {
      HeldNothing();
      hide Held;
      HeldMore(counter, rows[i].id);
      assert FiledUnder(rows[..i + 1], a) == before + [rows[i].id];
      assert multiset(before + [rows[i].id]) == multiset(before) + multiset{rows[i].id};
    } else {
      assert before + [] == before;
      hide Held;
    }
  }

  /** `_archive_index`: how often each id was archived, artifact by artifact. */
  method ArchiveIndex(rows: seq<ArchiveRow>) returns (index: map<int, Available>)
    ensures forall a :: Indexed(index, rows, a)
  {
    hide *;
    index := map[];
    StartIndexed(rows[..0]);
    for i := 0 to |rows|
      invariant forall a :: Indexed(index, rows[..i], a)
    {
      var row := rows[i];
      var counter: Available := if row.artifact in index then index[row.artifact] else map[];
      ghost var next := rows[..i + 1];
      ghost var before := index;
      index := index[row.artifact := counter[row.id := Count(counter, row.id) + 1]];
      forall a ensures Indexed(index, next, a) {
        NextIndexed(before, rows, i, counter, a);
      }
    }
    assert rows[..|rows|] == rows;
  }

  lemma StartIndexed(rows: seq<ArchiveRow>)
    requires rows == []
    ensures forall a :: Indexed(map[], rows, a)
  {
  }

  lemma TakeOne(seen: multiset<ArchiveId>, held: multiset<ArchiveId>, k: ArchiveId)
    ensures held - seen - multiset{k} == held - (seen + multiset{k})
    ensures (held - seen)[k] > 0 ==> (seen + multiset{k}) * held == seen * held + multiset{k}
    ensures (held - seen)[k] == 0 ==> (seen + multiset{k}) * held == seen * held
    ensures (held - seen)[k] == 0 ==> held - (seen + multiset{k}) == held - seen
  {
  }

  /** One more key: it takes what is left of its kind, if anything is. */
  lemma NextKey(keys: seq<ArchiveId>, i: nat, held: multiset<ArchiveId>, left: multiset<ArchiveId>)
    requires i < |keys| && left == held - multiset(keys[..i])
    ensures var taken, more := multiset(keys[..i]) * held, multiset(keys[..i + 1]) * held;
            if left[keys[i]] > 0 then
              |more| == |taken| + 1 && left - multiset{keys[i]} == held - multiset(keys[..i + 1])
            else
              |more| == |taken| && left == held - multiset(keys[..i + 1])
  {
    var seen, k := multiset(keys[..i]), keys[i];
    assert keys[..i + 1] == keys[..i] + [k];
    assert multiset(keys[..i + 1]) == seen + multiset{k};
    TakeOne(seen, held, k);
  }

  lemma NoKeys(keys: seq<ArchiveId>, held: multiset<ArchiveId>)
    requires keys == []
    ensures held - multiset(keys) == held && |multiset(keys) * held| == 0
  {
  }

  /** `_count_accounted`: how many of the keys find an archive row of their own. */
  method CountAccounted(keys: seq<ArchiveId>, available: Available) returns (accounted: nat)
    ensures accounted == |multiset(keys) * Held(available)|
  {
    hide *;
    var remaining: Available := available;
    accounted := 0;
    ghost var held := Held(available);
    NoKeys(keys[..0], held);
    for i := 0 to |keys|
      invariant Held(remaining) == held - multiset(keys[..i])
      invariant accounted == |multiset(keys[..i]) * held|
    {
      var k := keys[i];
      NextKey(keys, i, held, Held(remaining));
      HeldCounts(remaining, k);
      if Count(remaining, k) > 0 {
        HeldLess(remaining, k);
        remaining := remaining[k := Count(remaining, k) - 1];
        accounted := accounted + 1;
      }
    }
    assert keys[..|keys|] == keys;
  }

  /** Every key is accounted for exactly when the archive holds it as often as it is asked for. */
  lemma AllAccountedIff(keys: seq<ArchiveId>, held: multiset<ArchiveId>)
    ensures |multiset(keys) * held| <= |keys|
    ensures |multiset(keys) * held| == |keys| <==> multiset(keys) <= held
  {
    var wanted := multiset(keys);
    assert wanted == wanted * held + (wanted - held);
    assert |wanted| == |wanted * held| + |wanted - held|;
    if wanted <= held {
      assert wanted - held == multiset{};
    } else {
      var k :| wanted[k] > held[k];
      assert k in wanted - held;
    }
  }

  // ------------------------------------------------------------- conservation

  datatype LegacyRow = LegacyRow(posting: Option<int>, seenKey: int, id: ArchiveId)

  datatype Report = Report(
    rowCount: nat, mapped: nat, unmapped: nat, archived: nat, invalid: nat, unexplained: int)

  function UnmappedIds(rows: seq<LegacyRow>): seq<ArchiveId> {
    if rows == [] then []
    else
      var last := rows[|rows| - 1];
      UnmappedIds(rows[..|rows| - 1]) + (if last.posting.None? then [last.id] else [])
  }

  /** A mapped row is valid when its seen key has that one posting. */
  predicate Misdirected(row: LegacyRow, owners: map<int, set<int>>) {
    row.posting.Some? && (if row.seenKey in owners then owners[row.seenKey] else {}) != {row.posting.value}
  }

  function CountMisdirected(rows: seq<LegacyRow>, owners: map<int, set<int>>): nat {
    if rows == [] then 0
    else CountMisdirected(rows[..|rows| - 1], owners) + (if Misdirected(rows[|rows| - 1], owners) then 1 else 0)
  }

  /** A mapped row is misdirected unless its key has one posting and that is the row's. */
  lemma MisdirectedIff(row: LegacyRow, owners: map<int, set<int>>)
    ensures Misdirected(row, owners) <==>
              && row.posting.Some?
              && !(&& row.seenKey in owners && row.posting.value in owners[row.seenKey]
                   && forall p :: p in owners[row.seenKey] ==> p == row.posting.value)
  {
    if row.posting.Some? && row.seenKey in owners && row.posting.value in owners[row.seenKey]
       && forall p :: p in owners[row.seenKey] ==> p == row.posting.value {
      assert owners[row.seenKey] == {row.posting.value};
    }
  }

  /** The rows without a posting that are to be found under this id. */
  ghost function Wanting(rows: seq<LegacyRow>, id: ArchiveId): set<int> {
    set i: int | 0 <= i < |rows| && rows[i].posting.None? && rows[i].id == id
  }

  /** An id is looked for once for every row that has no posting. */
  lemma {:induction false} EachUnmappedOnce(rows: seq<LegacyRow>, id: ArchiveId)
    ensures multiset(UnmappedIds(rows))[id] == |Wanting(rows, id)|
  {
    if rows == [] {
      assert Wanting(rows, id) == {};
    } else {
      var n := |rows| - 1;
      EachUnmappedOnce(rows[..n], id);
      WantingMore(rows, id);
      hide Wanting;
      assert multiset(UnmappedIds(rows[..n]) + [rows[n].id])[id]
          == multiset(UnmappedIds(rows[..n]))[id] + if rows[n].id == id then 1 else 0;
      assert UnmappedIds(rows[..n]) + [] == UnmappedIds(rows[..n]);
    }
  }

  lemma WantingMore(rows: seq<LegacyRow>, id: ArchiveId)
    requires rows != []
    ensures var n := |rows| - 1;
            |Wanting(rows, id)|
            == |Wanting(rows[..n], id)| + if rows[n].posting.None? && rows[n].id == id then 1 else 0
  {
    var n := |rows| - 1;
    var init, more := Wanting(rows[..n], id), if rows[n].posting.None? && rows[n].id == id then {n} else {};
    forall i: int ensures i in Wanting(rows, id) <==> i in init || i in more {
      assert 0 <= i < n ==> rows[..n][i] == rows[i];
    }
    assert init !! more;
    hide Wanting;
    assert Wanting(rows, id) == init + more;
  }

  lemma {:induction false} NoneMisdirected(rows: seq<LegacyRow>, owners: map<int, set<int>>)
    ensures CountMisdirected(rows, owners) == 0 <==> forall r :: r in rows ==> !Misdirected(r, owners)
    ensures |UnmappedIds(rows)| <= |rows|
  {
    if rows != [] {
      var init := rows[..|rows| - 1];
      NoneMisdirected(init, owners);
      assert rows == init + [rows[|rows| - 1]];
    }
  }

  /** Nothing is left unexplained exactly when every row is mapped rightly or archived. */
  ghost predicate Conserved(rows: seq<LegacyRow>, owners: map<int, set<int>>, held: multiset<ArchiveId>) {
    && multiset(UnmappedIds(rows)) <= held
    && forall r :: r in rows ==> !Misdirected(r, owners)
  }

  method StateEventConservation(rows: seq<LegacyRow>, owners: map<int, set<int>>, available: Available)
    returns (r: Report)
    ensures r.rowCount == |rows| && r.mapped + r.unmapped == r.rowCount
    ensures r.unmapped == |UnmappedIds(rows)| && r.archived == |multiset(UnmappedIds(rows)) * Held(available)|
    ensures r.invalid == CountMisdirected(rows, owners)
    ensures r.unexplained >= 0
    ensures r.unexplained == 0 <==> Conserved(rows, owners, Held(available))
  {
    var unmapped: seq<ArchiveId> := [];
    var invalid: nat := 0;
    for i := 0 to |rows|
      invariant unmapped == UnmappedIds(rows[..i]) && invalid == CountMisdirected(rows[..i], owners)
    {
      assert rows[..i + 1][..i] == rows[..i];
      if rows[i].posting.None? {
        unmapped := unmapped + [rows[i].id];
      }
      if Misdirected(rows[i], owners) {
        invalid := invalid + 1;
      }
    }
    assert rows[..|rows|] == rows;
    var archived := CountAccounted(unmapped, available);
    NoneMisdirected(rows, owners);
    AllAccountedIff(unmapped, Held(available));
    r := Report(|rows|, |rows| - |unmapped|, |unmapped|, archived, invalid, |unmapped| - archived + invalid);
  }
}
