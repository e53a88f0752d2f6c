/**
 The importer as it runs: a connection whose tables change row by row inside one
 transaction. Every method is tied to the step functions of `ArtifactImport`, where the
 properties of whole runs are proved.
 */
module LegacyImporter {
  import opened Wrappers
  import opened Redirects
  import opened ArtifactImport

  datatype EvidenceOutcome = Inserted | AlreadyThere | Conflict

  class Connection {
    var redirects: RedirectMap
    var evidence: map<Payload, PostingId>
    var archive: map<ArchiveKey, Reason>
    var firstSeen: map<PostingId, Stored>
    var ledger: map<(Kind, int), Ledger>
    var inTransaction: bool
    const identity: Identity
    const schemaCurrent: bool

    constructor (tables: Store, identity: Identity, schemaCurrent: bool)
      ensures View() == tables && this.identity == identity
      ensures this.schemaCurrent == schemaCurrent && !inTransaction
    {
      redirects, evidence, archive := tables.redirects, tables.evidence, tables.archive;
      firstSeen, ledger := tables.firstSeen, tables.ledger;
      inTransaction := false;
      this.identity := identity;
      this.schemaCurrent := schemaCurrent;
    }

    function View(): Store
      reads this
    {
      Store(redirects, evidence, archive, firstSeen, ledger)
    }

    /** INSERT OR IGNORE: a row already filed under the same key stays as it is. */
    method Archive(k: ArchiveKey, why: Reason)
      modifies this`archive
      ensures View() == Filed(old(View()), k, why)
    {
      if k !in archive {
        archive := archive[k := why];
      }
    }

    method InsertEvidence(payload: Payload, owner: PostingId) returns (outcome: EvidenceOutcome)
      modifies this`evidence
      ensures outcome.Inserted? <==> payload !in old(evidence)
      ensures outcome.Conflict? <==> payload in old(evidence) && old(evidence)[payload] != owner
      ensures evidence ==
              if outcome.Conflict? then old(evidence) else old(evidence)[payload := owner]
    {
      if payload in evidence {
        return if evidence[payload] == owner then AlreadyThere else Conflict;
      }
      evidence := evidence[payload := owner];
      return Inserted;
    }

    /** `_lineage_candidates`: the seeds' sinks, or nothing once one runs into a cycle. */
    method LineageCandidates(url: int, key: int) returns (resolved: set<PostingId>)
      ensures resolved == LineageTargets(redirects, LineageSeeds(identity, url, key))
    {
      var seeds := LineageSeeds(identity, url, key);
      var rest := seeds;
      resolved := {};
      while rest != {}
        invariant rest <= seeds
        invariant forall c :: c in seeds - rest ==> SinkOf(redirects, c).Some?
        invariant resolved == set c | c in seeds - rest && SinkOf(redirects, c).Some? :: SinkOf(redirects, c).value
        decreases rest
      {
        ghost var some: PostingId := SomeMember(rest);
        assert some in rest;
        var candidate: PostingId :| candidate in rest;
        var target, cycle := RedirectTarget(redirects, candidate);
        if cycle || target.None? {
          NoSinkIffMeetsCycle(redirects, candidate);
          return {};
        }
        resolved := resolved + {target.value};
        assert seeds - (rest - {candidate}) == (seeds - rest) + {candidate};
        rest := rest - {candidate};
      }
      assert seeds - rest == seeds;
    }

    /** None when binding a url raises; the transaction is rolled back then. */
    method ImportResolution(k: ArchiveKey, f: Fields) returns (bucket: Option<Bucket>)
      modifies this`redirects, this`evidence, this`archive
      ensures bucket.None? <==> ResolutionRaises(f)
      ensures bucket.Some? ==> (View(), bucket.value) == ResolutionStep(identity, old(View()), k, f)
    {
      if !f.agg.Usable? || !f.canonical.Usable? {
        Archive(k, MalformedResolution);
        return Some(Malformed);
      }
      if !f.agg.bindable || !f.canonical.bindable {
        return None;
      }
      var aggs := AliasCandidates(identity, f.agg.id);
      var canonicals := AliasCandidates(identity, f.canonical.id);
      if |aggs| != 1 || |canonicals| != 1 {
        Archive(k, ResolutionNotUnique);
        return Some(Archived);
      }
      assert aggs == {Only(aggs)} && canonicals == {Only(canonicals)};
      var agg: PostingId :| agg in aggs;
      var canonical: PostingId :| canonical in canonicals;
      var pair := ImportPair(k, f, agg, canonical);
      return Some(pair);
    }

    method ImportPair(k: ArchiveKey, f: Fields, agg: PostingId, canonical: PostingId)
      returns (bucket: Bucket)
      requires f.agg.Usable? && f.canonical.Usable?
      modifies this`redirects, this`evidence, this`archive
      ensures (View(), bucket) == ResolutionPairStep(old(View()), k, f, agg, canonical)
    {
      var aggTarget, aggCycle := RedirectTarget(redirects, agg);
      var canonicalTarget, canonicalCycle := RedirectTarget(redirects, canonical);
      NoSinkIffMeetsCycle(redirects, agg);
      NoSinkIffMeetsCycle(redirects, canonical);
      hide SinkOf;
      if aggCycle || canonicalCycle || aggTarget.None? || canonicalTarget.None? {
        Archive(k, ExistingCycle);
        return Archived;
      }
      var sink := canonicalTarget.value;
      if sink == agg && agg != canonical {
        Archive(k, WouldCreateCycle);
        return Archived;
      }
      if agg != sink && agg in redirects && aggTarget != canonicalTarget {
        Archive(k, RedirectConflict);
        return Archived;
      }
      var payload := ResolutionPayload(k.artifact, f.agg.id, f.canonical.id, f.rest);
      var outcome := InsertEvidence(payload, sink);
      if outcome.Conflict? {
        Archive(k, ResolutionEvidenceConflict);
        return Archived;
      }
      var redirectInserted := false;
      if agg != sink && agg !in redirects {
        redirects := redirects[agg := sink];
        redirectInserted := true;
      }
      return if outcome.Inserted? || redirectInserted then Mapped else Duplicate;
    }

    /** None when an instant is out of range; the transaction is rolled back then. */
    method ImportSeen(k: ArchiveKey, f: Fields) returns (bucket: Option<Bucket>)
      requires Valid(identity, View())
      modifies this`firstSeen, this`evidence, this`archive
      ensures bucket.None? <==> SeenRaises(identity, old(View()), k.artifact, f)
      ensures bucket.Some? ==> (View(), bucket.value) == SeenStep(identity, old(View()), k, f)
    {
      if !f.key.Usable? || !f.url.Usable? || f.firstSeen.NotADate? {
        Archive(k, MalformedSeen);
        return Some(Malformed);
      }
      var candidates := LineageCandidates(f.url.id, f.key.id);
      if |candidates| != 1 {
        Archive(k, SeenNotUnique);
        return Some(Archived);
      }
      TargetsArePostings(identity, View(), f.url.id, f.key.id);
      hide LineageTargets;
      hide Valid;
      assert candidates == {Only(candidates)};
      var posting: PostingId :| posting in candidates;
      bucket := ImportSighting(k, f, posting);
    }

    method ImportSighting(k: ArchiveKey, f: Fields, posting: PostingId) returns (bucket: Option<Bucket>)
      requires f.key.Usable? && f.url.Usable? && !f.firstSeen.NotADate? && posting in firstSeen
      modifies this`firstSeen, this`evidence, this`archive
      ensures var payload := SeenPayload(k.artifact, f.key.id, f.firstSeen, f.url.id);
              bucket.None? <==>
                && !f.firstSeen.Absent?
                && (payload in old(evidence) ==> old(evidence)[payload] == posting)
                && (f.firstSeen.OutOfRange? || old(firstSeen)[posting].BeyondUtc?)
      ensures bucket.Some? ==> (View(), bucket.value) == SeenOwnerStep(old(View()), k, f, posting)
    {
      var payload := SeenPayload(k.artifact, f.key.id, f.firstSeen, f.url.id);
      var outcome := InsertEvidence(payload, posting);
      if outcome.Conflict? {
        Archive(k, SeenEvidenceConflict);
        return Some(Archived);
      }
      if !f.firstSeen.Absent? {
        var current := firstSeen[posting];
        if f.firstSeen.OutOfRange? || current.BeyondUtc? {
          return None;
        }
        if current.Unreadable? || f.firstSeen.instant < current.instant {
          firstSeen := firstSeen[posting := At(f.firstSeen.instant)];
        }
      }
      assert firstSeen == old(firstSeen)[posting := Earlier(old(firstSeen)[posting], f.firstSeen)];
      return Some(if outcome.Inserted? then Mapped else Duplicate);
    }

    method ImportLine(kind: Kind, artifact: int, number: nat, line: Line) returns (bucket: Option<Bucket>)
      requires Valid(identity, View()) && !line.Blank?
      modifies this`redirects, this`evidence, this`archive, this`firstSeen
      ensures bucket.None? <==> LineRaises(identity, old(View()), kind, artifact, line)
      ensures bucket.Some? ==> (View(), bucket.value) == LineStep(identity, old(View()), kind, artifact, number, line)
    {
      hide ResolutionStep, SeenStep, SeenRaises, ResolutionRaises;
      var k := ArchiveKey(kind, artifact, number, line.raw);
      match line {
        case Unparsable(_) =>
          return None;
        case NotJson(_) =>
          Archive(k, MalformedJson);
          return Some(Malformed);
        case NotAnObject(_) =>
          Archive(k, JsonNotObject);
          return Some(Malformed);
        case Record(_, f) =>
          if kind == Resolutions {
            bucket := ImportResolution(k, f);
          } else {
            bucket := ImportSeen(k, f);
          }
      }
    }

    /** None when a line raised. */
    method ImportLines(kind: Kind, file: Content) returns (counts: Option<Counts>)
      requires Valid(identity, View())
      modifies this`redirects, this`evidence, this`archive, this`firstSeen
      ensures counts.Some? ==> Valid(identity, View())
      ensures LinesStep(identity, old(View()), kind, file.artifact, file.lines, |file.lines|)
              == if counts.Some? then Some((View(), counts.value)) else None
    {
      hide LineStep, LineRaises;
      hide Valid;
      var tally := NONE_YET;
      for n := 0 to |file.lines|
        invariant Valid(identity, View())
        invariant LinesStep(identity, old(View()), kind, file.artifact, file.lines, n) == Some((View(), tally))
      {
        if !file.lines[n].Blank? {
          ghost var before := View();
          var bucket := ImportLine(kind, file.artifact, n + 1, file.lines[n]);
          if bucket.None? {
            OnceRaised(identity, old(View()), kind, file.artifact, file.lines, n + 1, |file.lines|);
            return None;
          }
          LineOutcome(identity, before, kind, file.artifact, n + 1, file.lines[n]);
          tally := Tally(tally, bucket.value);
        }
      }
      return Some(tally);
    }

    /** One artifact inside the transaction: open its ledger row, read its lines, close the row. */
    method ImportFile(kind: Kind, file: Content) returns (r: Result<Summary, ImportError>)
      requires Valid(identity, View())
      modifies this`redirects, this`evidence, this`archive, this`firstSeen, this`ledger
      ensures r.Ok? ==> Valid(identity, View())
      ensures FileStep(identity, old(View()), kind, Some(file)) ==
              if r.Ok? then Ok((View(), [r.value])) else Err(r.error)
    {
      var key := (kind, file.artifact);
      if key in ledger && ledger[key].Succeeded? {
        return Ok(Summary(kind, file.artifact, ledger[key].counts));
      }
      if key in ledger {
        return Err(LedgerKeyTaken);
      }
      ledger := ledger[key := Running];
      ghost var started := View();
      var read := ImportLines(kind, file);
      if read.None? {
        return Err(LineRaised);
      }
      RunCounts(identity, started, kind, file.artifact, file.lines, |file.lines|);
      hide LinesStep;
      hide Valid;
      var counts := read.value;
      if counts.processed != counts.mapped + counts.duplicate + counts.malformed + counts.archived {
        assert false;  // the accounting mismatch error: no run gets here
      }
      ledger := ledger[key := Succeeded(counts)];
      return Ok(Summary(kind, file.artifact, counts));
    }

    /**
     `import_legacy_artifacts`: refused with a transaction open or on an older schema;
     otherwise all of the import happens, or none of it.
     */
    method ImportArtifacts(resolutions: Option<Content>, seen: Option<Content>)
      returns (r: Result<seq<Summary>, ImportError>)
      requires Valid(identity, View())
      modifies this
      ensures old(inTransaction) ==> r == Err(ActiveTransaction)
      ensures !old(inTransaction) && !schemaCurrent ==> r == Err(SchemaTooOld)
      ensures !old(inTransaction) && schemaCurrent ==>
                ImportStep(identity, old(View()), resolutions, seen) ==
                if r.Ok? then Ok((View(), r.value)) else Err(r.error)
      ensures r.Err? ==> View() == old(View())
      ensures inTransaction == old(inTransaction)
    {
      if inTransaction {
        return Err(ActiveTransaction);
      }
      if !schemaCurrent {
        return Err(SchemaTooOld);
      }
      hide FileStep;
      hide Valid;
      var saved := View();
      inTransaction := true;
      var summaries: seq<Summary> := [];
      NoFile(identity, View(), Resolutions);
      if resolutions.Some? {
        var one := ImportFile(Resolutions, resolutions.value);
        if one.Err? {
          Rollback(saved);
          return Err(one.error);
        }
        summaries := summaries + [one.value];
        assert summaries == [one.value];
      }
      ghost var firstOut := summaries;
      ghost var secondOut := [];
      ghost var between := View();
      assert FileStep(identity, saved, Resolutions, resolutions) == Ok((between, firstOut));
      NoFile(identity, View(), Seen);
      if seen.Some? {
        var one := ImportFile(Seen, seen.value);
        if one.Err? {
          Rollback(saved);
          return Err(one.error);
        }
        summaries := summaries + [one.value];
        secondOut := [one.value];
      }
      inTransaction := false;
      assert FileStep(identity, between, Seen, seen) == Ok((View(), secondOut));
      assert summaries == firstOut + secondOut;
      return Ok(summaries);
    }

    method Rollback(saved: Store)
      modifies this
      ensures View() == saved && !inTransaction
    {
      redirects, evidence, archive := saved.redirects, saved.evidence, saved.archive;
      firstSeen, ledger := saved.firstSeen, saved.ledger;
      inTransaction := false;
    }
  }

  lemma NoFile(ids: Identity, s: Store, kind: Kind)
    requires Valid(ids, s)
    ensures FileStep(ids, s, kind, None) == Ok((s, []))
  {
  }

  /** A line that raised is not read past. */
  lemma {:induction false} OnceRaised(
    ids: Identity, s: Store, kind: Kind, artifact: int, lines: seq<Line>, n: nat, m: nat)
    requires Valid(ids, s) && n <= m <= |lines| && LinesStep(ids, s, kind, artifact, lines, n).None?
    ensures LinesStep(ids, s, kind, artifact, lines, m).None?
    decreases m
  {
    if n < m {
      OnceRaised(ids, s, kind, artifact, lines, n, m - 1);
    }
  }
}
