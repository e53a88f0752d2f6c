/**
 The migration runner (migrations.py): pending migrations run one per transaction, each
 recorded in the same transaction as its changes; any of them may fail, or the process may
 stop in it, and a later call carries on.

 A migration is a partial function on the data (its own exceptions are where it is undefined);
 `valid` is the database check made before every commit. Transactions are atomic.
 */
module MigrationRunner {
  import opened Wrappers

  datatype Migration<!T> = Migration(version: nat, name: string, run: T -> Option<T>)
  datatype Database<T> = Database(data: T, recorded: set<nat>)

  type Names = seq<(nat, string)>

  ghost predicate DistinctVersions<T(!new)>(ms: seq<Migration<T>>) {
    forall i, j :: 0 <= i < j < |ms| ==> ms[i].version != ms[j].version
  }

  /** The migrations not recorded yet, in order. */
  function Pending<T(!new)>(ms: seq<Migration<T>>, recorded: set<nat>): (p: seq<Migration<T>>)
    ensures forall i :: 0 <= i < |p| ==> p[i].version !in recorded
  {
    if ms == [] then []
    else (if ms[0].version in recorded then [] else [ms[0]]) + Pending(ms[1..], recorded)
  }

  function VersionsOf<T(!new)>(ms: seq<Migration<T>>): set<nat> {
    set i | 0 <= i < |ms| :: ms[i].version
  }

  function NamesOf<T(!new)>(ms: seq<Migration<T>>): (names: Names)
    ensures |names| == |ms|
    ensures forall i :: 0 <= i < |ms| ==> names[i] == (ms[i].version, ms[i].name)
  {
    if ms == [] then []
    else NamesOf(ms[..|ms| - 1]) + [(ms[|ms| - 1].version, ms[|ms| - 1].name)]
  }

  /** One migration and the check that follows it. */
  function Applied<T(!new)>(m: Migration<T>, valid: T -> bool, data: T): Option<T> {
    var after := m.run(data);
    if after.Some? && valid(after.value) then after else None
  }

  /** The data after all of `ms` in order, None if one of them fails on its own. */
  function Folded<T(!new)>(ms: seq<Migration<T>>, valid: T -> bool, data: T): Option<T> {
    if ms == [] then Some(data)
    else
      var before := Folded(ms[..|ms| - 1], valid, data);
      if before.None? then None else Applied(ms[|ms| - 1], valid, before.value)
  }

  /** `db` after its first `k` pending migrations, and exactly those, have been applied and recorded. */
  ghost predicate Advanced<T(!new)>(
    ms: seq<Migration<T>>, valid: T -> bool, db: Database<T>, after: Database<T>, k: nat)
  {
    var pending := Pending(ms, db.recorded);
    && k <= |pending|
    && Folded(pending[..k], valid, db.data) == Some(after.data)
    && after.recorded == db.recorded + VersionsOf(pending[..k])
  }

  /** Whatever has been recorded, the data has passed the check that follows every migration. */
  lemma AdvancedIsValid<T(!new)>(
    ms: seq<Migration<T>>, valid: T -> bool, db: Database<T>, after: Database<T>, k: nat)
    requires Advanced(ms, valid, db, after, k)
    ensures if k == 0 then after == db else valid(after.data)
  {
    var pending := Pending(ms, db.recorded);
    if k == 0 {
      assert pending[..0] == [] && VersionsOf<T>([]) == {};
    }
  }

  // -------------------------------------------------------------------- pending

  lemma {:induction false} PendingMembers<T(!new)>(ms: seq<Migration<T>>, recorded: set<nat>)
    ensures forall v :: v in VersionsOf(Pending(ms, recorded)) <==> v in VersionsOf(ms) && v !in recorded
  {
    if ms != [] {
      PendingMembers(ms[1..], recorded);
      var head := if ms[0].version in recorded then [] else [ms[0]];
      VersionsOfSum(head, Pending(ms[1..], recorded));
      VersionsOfSum([ms[0]], ms[1..]);
      assert [ms[0]] + ms[1..] == ms;
    }
  }

  lemma VersionsOfSum<T(!new)>(a: seq<Migration<T>>, b: seq<Migration<T>>)
    ensures VersionsOf(a + b) == VersionsOf(a) + VersionsOf(b)
  {
    forall v | v in VersionsOf(b) ensures v in VersionsOf(a + b) {
      var i :| 0 <= i < |b| && b[i].version == v;
      assert (a + b)[|a| + i].version == v;
    }
    forall v | v in VersionsOf(a) ensures v in VersionsOf(a + b) {
      var i :| 0 <= i < |a| && a[i].version == v;
      assert (a + b)[i].version == v;
    }
  }

  /** Recording one's way through the pending migrations leaves the rest pending, in order. */
  lemma {:induction false} PendingAfter<T(!new)>(ms: seq<Migration<T>>, recorded: set<nat>, k: nat)
    requires DistinctVersions(ms) && k <= |Pending(ms, recorded)|
    ensures Pending(ms, recorded + VersionsOf(Pending(ms, recorded)[..k])) == Pending(ms, recorded)[k..]
    decreases |ms|
  {
    if k == 0 {
      NothingYet(Pending(ms, recorded)[..0]);
      assert recorded + {} == recorded;
    } else if ms[0].version in recorded {
      PendingAfter(ms[1..], recorded, k);
      PendingSkips(ms, recorded);
      PendingSkips(ms, recorded + VersionsOf(Pending(ms[1..], recorded)[..k]));
    } else {
      PendingAfter(ms[1..], recorded, k - 1);
      PendingAfterFirst(ms, recorded, k);
    }
  }

  lemma NothingYet<T(!new)>(ms: seq<Migration<T>>)
    requires ms == []
    ensures VersionsOf(ms) == {} && NamesOf(ms) == []
  {
  }

  lemma PendingSkips<T(!new)>(ms: seq<Migration<T>>, recorded: set<nat>)
    requires ms != []
    ensures Pending(ms, recorded)
            == (if ms[0].version in recorded then [] else [ms[0]]) + Pending(ms[1..], recorded)
    ensures ms[0].version in recorded ==> Pending(ms, recorded) == Pending(ms[1..], recorded)
  {
    assert [] + Pending(ms[1..], recorded) == Pending(ms[1..], recorded);
  }

  lemma PendingAfterFirst<T(!new)>(ms: seq<Migration<T>>, recorded: set<nat>, k: nat)
    requires DistinctVersions(ms) && ms != [] && ms[0].version !in recorded
    requires 0 < k <= |Pending(ms, recorded)|
    requires k - 1 <= |Pending(ms[1..], recorded)|
    requires Pending(ms[1..], recorded + VersionsOf(Pending(ms[1..], recorded)[..k - 1]))
             == Pending(ms[1..], recorded)[k - 1..]
    ensures Pending(ms, recorded + VersionsOf(Pending(ms, recorded)[..k])) == Pending(ms, recorded)[k..]
  {
    hide Pending, VersionsOf;
    PendingSkips(ms, recorded);
    var rest := Pending(ms[1..], recorded);
    var taken := Pending(ms, recorded)[..k];
    assert taken == [ms[0]] + rest[..k - 1];
    VersionsOfSum([ms[0]], rest[..k - 1]);
    OneVersion(ms[0]);
    HeadVersionElsewhere(ms, recorded + VersionsOf(rest[..k - 1]));
    assert recorded + VersionsOf(taken) == (recorded + VersionsOf(rest[..k - 1])) + {ms[0].version};
    assert Pending(ms, recorded)[k..] == rest[k - 1..];
  }

  lemma OneVersion<T(!new)>(m: Migration<T>)
    ensures VersionsOf([m]) == {m.version}
  {
    assert [m][0] == m;
  }

  /** The head's version does not occur in the tail, so recording it changes nothing there. */
  lemma HeadVersionElsewhere<T(!new)>(ms: seq<Migration<T>>, recorded: set<nat>)
    requires DistinctVersions(ms) && ms != []
    ensures Pending(ms[1..], recorded + {ms[0].version}) == Pending(ms[1..], recorded)
    ensures Pending(ms, recorded + {ms[0].version}) == Pending(ms[1..], recorded)
  {
    forall i | 0 <= i < |ms[1..]| ensures ms[1..][i].version != ms[0].version {
      assert ms[i + 1].version != ms[0].version;
    }
    OtherVersion(ms[1..], recorded, ms[0].version);
    assert [] + Pending(ms[1..], recorded) == Pending(ms[1..], recorded);
  }

  lemma {:induction false} OtherVersion<T(!new)>(ms: seq<Migration<T>>, recorded: set<nat>, v: nat)
    requires forall i :: 0 <= i < |ms| ==> ms[i].version != v
    ensures Pending(ms, recorded + {v}) == Pending(ms, recorded)
  {
    if ms != [] {
      OtherVersion(ms[1..], recorded, v);
    }
  }

  lemma {:induction false} FoldedSum<T(!new)>(a: seq<Migration<T>>, b: seq<Migration<T>>, valid: T -> bool, data: T)
    requires Folded(a, valid, data).Some?
    ensures Folded(a + b, valid, data) == Folded(b, valid, Folded(a, valid, data).value)
    decreases |b|
  {
    if b == [] {
      assert a + b == a;
    } else {
      assert (a + b)[..|a + b| - 1] == a + b[..|b| - 1];
      FoldedSum(a, b[..|b| - 1], valid, data);
    }
  }

  /** If all of a list can be folded, so can each of its beginnings. */
  lemma {:induction false} FoldedPrefix<T(!new)>(ms: seq<Migration<T>>, valid: T -> bool, data: T, k: nat)
    requires k <= |ms| && Folded(ms, valid, data).Some?
    ensures Folded(ms[..k], valid, data).Some?
    decreases |ms|
  {
    if k < |ms| {
      FoldedPrefix(ms[..|ms| - 1], valid, data, k);
      assert ms[..|ms| - 1][..k] == ms[..k];
    } else {
      assert ms[..k] == ms;
    }
  }

  /** Two attempts, one after the other, are an attempt that got as far as both together. */
  lemma AttemptsAdd<T(!new)>(
    ms: seq<Migration<T>>, valid: T -> bool,
    db: Database<T>, mid: Database<T>, after: Database<T>, j: nat, k: nat)
    requires DistinctVersions(ms)
    requires Advanced(ms, valid, db, mid, j) && Advanced(ms, valid, mid, after, k)
    ensures Advanced(ms, valid, db, after, j + k)
    ensures Pending(ms, mid.recorded) == Pending(ms, db.recorded)[j..]
  {
    var pending := Pending(ms, db.recorded);
    PendingAfter(ms, db.recorded, j);
    assert pending[..j + k] == pending[..j] + pending[j..][..k];
    FoldedSum(pending[..j], pending[j..][..k], valid, db.data);
    VersionsOfSum(pending[..j], pending[j..][..k]);
  }

  /**
   However an upgrade is cut up by failures, once it succeeds the database is the one that a
   single uninterrupted run gives: every pending transform applied once, in order.
   */
  lemma UpgradesConverge<T(!new)>(
    ms: seq<Migration<T>>, valid: T -> bool,
    db: Database<T>, one: Database<T>, other: Database<T>, j: nat, k: nat)
    requires Advanced(ms, valid, db, one, j) && Advanced(ms, valid, db, other, k)
    requires j == |Pending(ms, db.recorded)| && k == |Pending(ms, db.recorded)|
    ensures one == other
    ensures Folded(Pending(ms, db.recorded), valid, db.data) == Some(one.data)
    ensures VersionsOf(ms) <= one.recorded
  {
    var pending := Pending(ms, db.recorded);
    assert pending[..j] == pending;
    PendingMembers(ms, db.recorded);
  }

  // -------------------------------------------------------------- the connection

  datatype Failure = ActiveTransaction | BackupFailed | MigrationFailed(version: nat) | Interrupted | Invalid

  class Connection<T(!new)> {
    var data: T
    var recorded: set<nat>
    var saved: Option<Database<T>>

    ghost function View(): Database<T>
      reads this
    {
      Database(data, recorded)
    }

    predicate InTransaction()
      reads this
    {
      saved.Some?
    }

    constructor (data: T, recorded: set<nat>)
      ensures View() == Database(data, recorded) && !InTransaction()
    {
      this.data, this.recorded, this.saved := data, recorded, None;
    }

    method Begin()
      requires !InTransaction()
      modifies this`saved
      ensures saved == Some(View())
    {
      saved := Some(Database(data, recorded));
    }

    method Rollback()
      requires InTransaction()
      modifies this
      ensures View() == old(saved.value) && !InTransaction()
    {
      data, recorded := saved.value.data, saved.value.recorded;
      saved := None;
    }

    method Commit()
      requires InTransaction()
      modifies this`saved
      ensures !InTransaction()
    {
      saved := None;
    }

    /** One pending migration in its own transaction: all of it, with its record, or nothing. */
    method RunOne(m: Migration<T>, valid: T -> bool) returns (failure: Option<Failure>)
      requires !InTransaction()
      modifies this
      ensures !InTransaction()
      ensures failure.Some? ==> View() == old(View())
      ensures failure.None? ==>
                Applied(m, valid, old(data)) == Some(data) && recorded == old(recorded) + {m.version}
      ensures failure.Some? ==> failure.value !in {ActiveTransaction, BackupFailed}
      ensures failure.Some? && failure.value != Interrupted ==> Applied(m, valid, old(data)).None?
    {
      Begin();
      var stopped: bool := *;
      if stopped {
        Rollback();
        return Some(Interrupted);
      }
      var after := m.run(data);
      if after.None? {
        Rollback();
        return Some(MigrationFailed(m.version));
      }
      data := after.value;
      recorded := recorded + {m.version};
      if !valid(data) {
        Rollback();
        return Some(Invalid);
      }
      stopped := *;
      if stopped {
        Rollback();
        return Some(Interrupted);
      }
      Commit();
      return None;
    }

    /**
     `run_migrations` on an existing database. Whatever happens, the data is the fold of
     exactly the versions recorded on top of what was there; it returns normally only when
     nothing is left pending.
     */
    method RunMigrations(ms: seq<Migration<T>>, valid: T -> bool)
      returns (r: Result<Names, Failure>, ghost k: nat)
      requires DistinctVersions(ms)
      modifies this
      ensures old(InTransaction()) ==> r == Err(ActiveTransaction)
      ensures InTransaction() == old(InTransaction())
      ensures Advanced(ms, valid, old(View()), View(), k)
      ensures r.Ok? ==> k == |Pending(ms, old(recorded))| && r.value == NamesOf(Pending(ms, old(recorded)))
      ensures r == Err(ActiveTransaction) || r == Err(BackupFailed) ==> k == 0
      ensures r.Err? && r.error !in {ActiveTransaction, BackupFailed, Interrupted} ==>
                Folded(Pending(ms, old(recorded)), valid, old(data)).None?
    {
      hide Advanced, Folded, Pending, VersionsOf, Applied, NamesOf;
      k := 0;
      StartHere(ms, valid, View());
      if InTransaction() {
        return Err(ActiveTransaction), 0;
      }
      var pending := Pending(ms, recorded);
      if pending != [] {
        var backedUp: bool := *;
        if !backedUp {
          return Err(BackupFailed), 0;
        }
      }
      var done: Names := [];
      for n := 0 to |pending|
        invariant !InTransaction()
        invariant done == NamesOf(pending[..n])
        invariant Advanced(ms, valid, old(View()), View(), n)
      {
        ghost var before := View();
        var failure := RunOne(pending[n], valid);
        OneFurther(ms, valid, old(View()), before, n);
        if failure.Some? {
          k := n;
          return Err(failure.value), n;
        }
        done := done + [(pending[n].version, pending[n].name)];
      }
      AllDone(ms, valid, old(View()), View());
      return Ok(done), |pending|;
    }

    /** `_dry_run_pending`: the same on a private copy; the connection itself is untouched. */
    method DryRun(ms: seq<Migration<T>>, valid: T -> bool) returns (r: Result<Names, Failure>)
      requires DistinctVersions(ms)
      ensures r.Ok? ==>
                && r.value == NamesOf(Pending(ms, recorded))
                && Folded(Pending(ms, recorded), valid, data).Some?
                && valid(Folded(Pending(ms, recorded), valid, data).value)
      ensures Folded(Pending(ms, recorded), valid, data).None? ==> r.Err?
      ensures InTransaction() ==> r == Err(ActiveTransaction)
    {
      if InTransaction() {
        return Err(ActiveTransaction);
      }
      hide Advanced, Folded, Pending, VersionsOf, Applied, NamesOf;
      var copy := new Connection<T>(data, recorded);
      var pending := Pending(ms, recorded);
      StartHere(ms, valid, View());
      for n := 0 to |pending|
        invariant fresh(copy) && !copy.InTransaction()
        invariant Advanced(ms, valid, View(), copy.View(), n)
      {
        ghost var before := copy.View();
        var failure := copy.RunOne(pending[n], valid);
        OneFurther(ms, valid, View(), before, n);
        if failure.Some? {
          return Err(failure.value);
        }
      }
      AllDone(ms, valid, View(), copy.View());
      if !valid(copy.data) {
        return Err(Invalid);
      }
      return Ok(NamesOf(pending));
    }

    /** A fresh database is already at the latest schema: every version is stamped, nothing runs. */
    method StampFresh(ms: seq<Migration<T>>, valid: T -> bool) returns (r: Result<Names, Failure>)
      requires !InTransaction()
      modifies this
      ensures !InTransaction() && data == old(data)
      ensures r.Err? ==> recorded == old(recorded)
      ensures r.Ok? ==>
                && recorded == old(recorded) + VersionsOf(ms)
                && r.value == NamesOf(Pending(ms, old(recorded)))
    {
      hide Pending, VersionsOf, NamesOf;
      Begin();
      var pending := Pending(ms, recorded);
      NothingYet(pending[..0]);
      var stamped: Names := [];
      for n := 0 to |pending|
        invariant saved == Some(old(View())) && data == old(data)
        invariant stamped == NamesOf(pending[..n])
        invariant recorded == old(recorded) + VersionsOf(pending[..n])
      {
        OneMore(pending, n);
        recorded := recorded + {pending[n].version};
        stamped := stamped + [(pending[n].version, pending[n].name)];
      }
      assert pending[..|pending|] == pending;
      PendingMembers(ms, old(recorded));
      assert VersionsOf(pending) + old(recorded) == VersionsOf(ms) + old(recorded);
      if !valid(data) {
        Rollback();
        return Err(Invalid);
      }
      Commit();
      return Ok(stamped);
    }

    /** Call after call, each failing wherever it does: still the fold of what is recorded. */
    method RunRepeatedly(ms: seq<Migration<T>>, valid: T -> bool, calls: nat) returns (ok: bool, ghost k: nat)
      requires DistinctVersions(ms) && !InTransaction()
      modifies this
      ensures Advanced(ms, valid, old(View()), View(), k)
      ensures ok ==> k == |Pending(ms, old(recorded))|
    {
      hide Advanced, Folded, Pending, VersionsOf, NamesOf;
      ok, k := false, 0;
      StartHere(ms, valid, View());
      for i := 0 to calls
        invariant !InTransaction()
        invariant Advanced(ms, valid, old(View()), View(), k)
        invariant ok ==> k == |Pending(ms, old(recorded))|
      {
        ghost var before := View();
        var r, more := RunMigrations(ms, valid);
        AttemptsAdd(ms, valid, old(View()), before, View(), k, more);
        k := k + more;
        ok := r.Ok?;
      }
    }
  }

  lemma StartHere<T(!new)>(ms: seq<Migration<T>>, valid: T -> bool, db: Database<T>)
    ensures Advanced(ms, valid, db, db, 0)
  {
    assert Pending(ms, db.recorded)[..0] == [];
    assert VersionsOf<T>([]) == {};
    assert db.recorded + {} == db.recorded;
  }

  /** Having advanced over everything pending is having folded all of it. */
  lemma AllDone<T(!new)>(ms: seq<Migration<T>>, valid: T -> bool, db: Database<T>, at: Database<T>)
    requires Advanced(ms, valid, db, at, |Pending(ms, db.recorded)|)
    ensures var pending := Pending(ms, db.recorded);
            && Folded(pending, valid, db.data) == Some(at.data)
            && NamesOf(pending[..|pending|]) == NamesOf(pending)
  {
    var pending := Pending(ms, db.recorded);
    assert pending[..|pending|] == pending;
  }

  /** One more migration off a list. */
  lemma OneMore<T(!new)>(ms: seq<Migration<T>>, n: nat)
    requires n < |ms|
    ensures ms[..n + 1][..n] == ms[..n]
    ensures VersionsOf(ms[..n + 1]) == VersionsOf(ms[..n]) + {ms[n].version}
    ensures NamesOf(ms[..n + 1]) == NamesOf(ms[..n]) + [(ms[n].version, ms[n].name)]
  {
    assert ms[..n + 1][..n] == ms[..n];
    assert ms[..n + 1] == ms[..n] + [ms[n]];
    VersionsOfSum(ms[..n], [ms[n]]);
    OneVersion(ms[n]);
    hide VersionsOf;
  }

  lemma OneMoreFolded<T(!new)>(ms: seq<Migration<T>>, valid: T -> bool, data: T, n: nat)
    requires n < |ms| && Folded(ms[..n], valid, data).Some?
    ensures Folded(ms[..n + 1], valid, data) == Applied(ms[n], valid, Folded(ms[..n], valid, data).value)
  {
    assert ms[..n + 1][..n] == ms[..n];
  }

  /** What a successful or failed run of the next pending migration means for the whole. */
  lemma OneFurther<T(!new)>(ms: seq<Migration<T>>, valid: T -> bool, db: Database<T>, at: Database<T>, n: nat)
    requires Advanced(ms, valid, db, at, n) && n < |Pending(ms, db.recorded)|
    ensures var pending := Pending(ms, db.recorded);
            var step := Applied(pending[n], valid, at.data);
            && NamesOf(pending[..n + 1]) == NamesOf(pending[..n]) + [(pending[n].version, pending[n].name)]
            && (step.Some? ==>
                  Advanced(ms, valid, db, Database(step.value, at.recorded + {pending[n].version}), n + 1))
            && (step.None? ==> Folded(pending, valid, db.data).None?)
  {
    hide Pending, VersionsOf, NamesOf, Folded, Applied;
    var pending := Pending(ms, db.recorded);
    OneMore(pending, n);
    OneMoreFolded(pending, valid, db.data, n);
    if Folded(pending, valid, db.data).Some? {
      FoldedPrefix(pending, valid, db.data, n + 1);
    }
  }
}
