/**
 What becomes of one line of a legacy artifact (legacy_import.py:66-295), told from the aliases,
 the redirect chains and the evidence there were before it: which bucket it is counted under,
 under which reason it is archived, and what it changes.
 */
module LineBuckets {
  import opened Wrappers
  import opened Redirects
  import opened ArtifactImport

  // ------------------------------------------------------------------- what is known

  /** An open legacy alias names posting `p` by this url. */
  ghost predicate Names(ids: Identity, url: int, p: PostingId) {
    exists a :: a in ids.aliases && a.open && a.posting == p && (a.value == url || a.url == Some(url))
  }

  ghost predicate NamesOnly(ids: Identity, url: int, p: PostingId) {
    forall q :: Names(ids, url, q) <==> q == p
  }

  ghost predicate MeetsCycle(g: RedirectMap, x: PostingId) {
    exists y :: Reaches(g, x, y) && OnCycle(g, y)
  }

  lemma CandidatesNamed(ids: Identity, url: int)
    ensures forall p :: p in AliasCandidates(ids, url) <==> Names(ids, url, p)
  {
  }

  lemma OneCandidate(ids: Identity, url: int)
    ensures |AliasCandidates(ids, url)| == 1 <==> exists p :: NamesOnly(ids, url, p)
    ensures forall p :: NamesOnly(ids, url, p) ==> AliasCandidates(ids, url) == {p}
  {
    CandidatesNamed(ids, url);
    var c := AliasCandidates(ids, url);
    hide AliasCandidates, Names;
    if |c| == 1 {
      assert NamesOnly(ids, url, Only(c));
    }
    forall p | NamesOnly(ids, url, p) ensures c == {p} {
      forall q ensures q in c <==> q in {p} {
        assert q in c <==> Names(ids, url, q);
      }
    }
  }

  lemma CycleOrSink(g: RedirectMap, x: PostingId)
    ensures MeetsCycle(g, x) <==> SinkOf(g, x).None?
    ensures forall t :: IsSink(g, x, t) <==> SinkOf(g, x) == Some(t)
  {
    NoSinkIffMeetsCycle(g, x);
    forall t | IsSink(g, x, t) ensures SinkOf(g, x) == Some(t) {
      SinkUnique(g, x, t, SinkOf(g, x).value);
    }
  }

  /** `line` went to the archive under `why`, or had been filed there, and changed nothing else. */
  ghost predicate FiledUnder(s: Store, after: Store, k: ArchiveKey, why: Reason) {
    && after.(archive := s.archive) == s
    && after.archive == if k in s.archive then s.archive else s.archive[k := why]
  }

  // ------------------------------------------------------------------ a resolution line

  /** Why the pair of postings (a, c), whose second chain ends at `sink`, cannot be united. */
  ghost function Refusal(s: Store, a: PostingId, c: PostingId, sink: PostingId, payload: Payload): Option<Reason> {
    if sink == a && a != c then Some(WouldCreateCycle)
    else if a in s.redirects && !IsSink(s.redirects, a, sink) then Some(RedirectConflict)
    else if payload in s.evidence && s.evidence[payload] != sink then Some(ResolutionEvidenceConflict)
    else None
  }

  /** A pair that can be united gets its evidence, and the redirect it does not have yet. */
  ghost predicate United(s: Store, after: Store, a: PostingId, sink: PostingId, payload: Payload) {
    && after.evidence == s.evidence[payload := sink]
    && after.redirects == (if a != sink && a !in s.redirects then s.redirects[a := sink] else s.redirects)
    && after.archive == s.archive && after.firstSeen == s.firstSeen && after.ledger == s.ledger
  }

  /**
   Archived for the reason there is, if there is one. Otherwise mapped exactly when the evidence
   or the redirect is new, a duplicate when both were there.
   */
  ghost predicate PairOutcome(
    s: Store, after: Store, bucket: Bucket, k: ArchiveKey, a: PostingId, c: PostingId, sink: PostingId,
    payload: Payload)
  {
    match Refusal(s, a, c, sink, payload)
    case Some(why) => bucket == Archived && FiledUnder(s, after, k, why)
    case None =>
      && United(s, after, a, sink, payload)
      && bucket == (if payload in s.evidence && (a == sink || a in s.redirects) then Duplicate else Mapped)
  }

  ghost predicate PairBuckets(
    s: Store, after: Store, bucket: Bucket, k: ArchiveKey, f: Fields, a: PostingId, c: PostingId)
    requires f.agg.Usable? && f.canonical.Usable?
  {
    var payload := ResolutionPayload(k.artifact, f.agg.id, f.canonical.id, f.rest);
    && (MeetsCycle(s.redirects, a) || MeetsCycle(s.redirects, c) ==>
          bucket == Archived && FiledUnder(s, after, k, ExistingCycle))
    && (forall sink :: !MeetsCycle(s.redirects, a) && IsSink(s.redirects, c, sink) ==>
          PairOutcome(s, after, bucket, k, a, c, sink, payload))
  }

  lemma PairBucket(s: Store, k: ArchiveKey, f: Fields, a: PostingId, c: PostingId)
    requires f.agg.Usable? && f.canonical.Usable?
    ensures PairBuckets(s, ResolutionPairStep(s, k, f, a, c).0, ResolutionPairStep(s, k, f, a, c).1, k, f, a, c)
  {
    CycleOrSink(s.redirects, a);
    CycleOrSink(s.redirects, c);
    hide IsSink, MeetsCycle, SinkOf, PairOutcome, FiledUnder, ResolutionPairStep;
    if SinkOf(s.redirects, a).None? || SinkOf(s.redirects, c).None? {
      CyclePair(s, k, f, a, c);
    }
    forall sink | !MeetsCycle(s.redirects, a) && IsSink(s.redirects, c, sink)
      ensures var (after, bucket) := ResolutionPairStep(s, k, f, a, c);
              var payload := ResolutionPayload(k.artifact, f.agg.id, f.canonical.id, f.rest);
              PairOutcome(s, after, bucket, k, a, c, sink, payload)
    {
      UnitedPair(s, k, f, a, c, sink);
    }
  }

  lemma CyclePair(s: Store, k: ArchiveKey, f: Fields, a: PostingId, c: PostingId)
    requires f.agg.Usable? && f.canonical.Usable?
    requires SinkOf(s.redirects, a).None? || SinkOf(s.redirects, c).None?
    ensures ResolutionPairStep(s, k, f, a, c).1 == Archived
    ensures FiledUnder(s, ResolutionPairStep(s, k, f, a, c).0, k, ExistingCycle)
  {
    hide SinkOf;
  }

  lemma UnitedPair(s: Store, k: ArchiveKey, f: Fields, a: PostingId, c: PostingId, sink: PostingId)
    requires f.agg.Usable? && f.canonical.Usable?
    requires SinkOf(s.redirects, a).Some? && SinkOf(s.redirects, c) == Some(sink)
    ensures var (after, bucket) := ResolutionPairStep(s, k, f, a, c);
            var payload := ResolutionPayload(k.artifact, f.agg.id, f.canonical.id, f.rest);
            PairOutcome(s, after, bucket, k, a, c, sink, payload)
  {
    NoRedirectAtSink(s.redirects, c, sink);
    CycleOrSink(s.redirects, a);
    hide IsSink, MeetsCycle, SinkOf;
  }

  lemma NoRedirectAtSink(g: RedirectMap, x: PostingId, sink: PostingId)
    requires IsSink(g, x, sink)
    ensures sink !in g
  {
  }

  /** A resolution line, whatever the tables: its bucket and what it changes. */
  lemma ResolutionBucket(ids: Identity, s: Store, artifact: int, n: nat, line: Line)
    requires Valid(ids, s) && line.Record? && !LineRaises(ids, s, Resolutions, artifact, line)
    ensures var f := line.fields;
            var (after, bucket) := LineStep(ids, s, Resolutions, artifact, n, line);
            var k := ArchiveKey(Resolutions, artifact, n, line.raw);
            && (f.agg.Unusable? || f.canonical.Unusable? ==>
                  bucket == Malformed && FiledUnder(s, after, k, MalformedResolution))
            && (f.agg.Usable? && f.canonical.Usable? ==>
                  && ((forall a :: !NamesOnly(ids, f.agg.id, a)) || (forall c :: !NamesOnly(ids, f.canonical.id, c)) ==>
                        bucket == Archived && FiledUnder(s, after, k, ResolutionNotUnique))
                  && (forall a, c :: NamesOnly(ids, f.agg.id, a) && NamesOnly(ids, f.canonical.id, c) ==>
                        PairBuckets(s, after, bucket, k, f, a, c)))
  {
    var f := line.fields;
    if f.agg.Usable? && f.canonical.Usable? {
      OneCandidate(ids, f.agg.id);
      OneCandidate(ids, f.canonical.id);
      var k := ArchiveKey(Resolutions, artifact, n, line.raw);
      hide Valid, AliasCandidates, NamesOnly, ResolutionPairStep, PairBuckets;
      forall a, c | NamesOnly(ids, f.agg.id, a) && NamesOnly(ids, f.canonical.id, c)
        ensures var (after, bucket) := LineStep(ids, s, Resolutions, artifact, n, line);
                PairBuckets(s, after, bucket, k, f, a, c)
      {
        PairBucket(s, k, f, a, c);
      }
    }
  }

  // ------------------------------------------------------------------ a sighting line

  /** The exact lineage of url and key if it has postings, otherwise what the key alone is known for. */
  ghost predicate Seed(ids: Identity, url: int, key: int, p: PostingId) {
    if exists q :: ExactSeed(ids, url, key, q) then ExactSeed(ids, url, key, p)
    else key in ids.lineageByKey && p in ids.lineageByKey[key]
  }

  predicate ExactSeed(ids: Identity, url: int, key: int, p: PostingId) {
    (url, key) in ids.exactLineage && p in ids.exactLineage[(url, key)]
  }

  /** All chains from the seeds end at `t`. */
  ghost predicate LeadTo(ids: Identity, g: RedirectMap, url: int, key: int, t: PostingId) {
    (exists p :: Seed(ids, url, key, p)) && forall p :: Seed(ids, url, key, p) ==> IsSink(g, p, t)
  }

  lemma SeedsAre(ids: Identity, url: int, key: int)
    ensures forall p :: p in LineageSeeds(ids, url, key) <==> Seed(ids, url, key, p)
  {
    var exact := if (url, key) in ids.exactLineage then ids.exactLineage[(url, key)] else {};
    assert forall p :: p in exact <==> ExactSeed(ids, url, key, p);
    if exact != {} {
      var q: PostingId := SomeMember(exact);
      assert ExactSeed(ids, url, key, q);
    }
  }

  lemma OneTarget(ids: Identity, g: RedirectMap, url: int, key: int)
    ensures var targets := LineageTargets(g, LineageSeeds(ids, url, key));
            && (|targets| == 1 <==> exists t :: LeadTo(ids, g, url, key, t))
            && (forall t :: LeadTo(ids, g, url, key, t) ==> targets == {t})
  {
    SeedsAre(ids, url, key);
    var seeds := LineageSeeds(ids, url, key);
    var targets := LineageTargets(g, seeds);
    forall p ensures forall t :: IsSink(g, p, t) <==> SinkOf(g, p) == Some(t) {
      CycleOrSink(g, p);
    }
    hide LineageSeeds, Seed, IsSink, SinkOf;
    forall t | LeadTo(ids, g, url, key, t) ensures targets == {t} {
      assert forall p :: p in seeds ==> SinkOf(g, p) == Some(t);
    }
    if |targets| == 1 {
      var t := Only(targets);
      assert t in targets;
      assert forall p :: p in seeds ==> SinkOf(g, p).Some? && SinkOf(g, p).value in targets;
      assert LeadTo(ids, g, url, key, t);
    }
  }

  predicate OlderNews(stored: Stored, instant: int) {
    stored.Unreadable? || (stored.At? && stored.instant > instant)
  }

  /** A sighting that is kept: its evidence, and the instant of its posting when that is older news. */
  ghost predicate Sighted(s: Store, after: Store, t: PostingId, payload: Payload, firstSeen: FirstSeen) {
    && after.evidence == s.evidence[payload := t]
    && after.redirects == s.redirects && after.archive == s.archive && after.ledger == s.ledger
    && t in s.firstSeen
    && (if firstSeen.Dated? && OlderNews(s.firstSeen[t], firstSeen.instant)
        then after.firstSeen == s.firstSeen[t := At(firstSeen.instant)] else after.firstSeen == s.firstSeen)
  }

  /** A sighting line, whatever the tables: its bucket and what it changes. */
  lemma SightingBucket(ids: Identity, s: Store, artifact: int, n: nat, line: Line)
    requires Valid(ids, s) && line.Record? && !LineRaises(ids, s, Seen, artifact, line)
    ensures var f := line.fields;
            var (after, bucket) := LineStep(ids, s, Seen, artifact, n, line);
            var k := ArchiveKey(Seen, artifact, n, line.raw);
            && (f.key.Unusable? || f.url.Unusable? || f.firstSeen.NotADate? ==>
                  bucket == Malformed && FiledUnder(s, after, k, MalformedSeen))
            && (f.key.Usable? && f.url.Usable? && !f.firstSeen.NotADate? ==>
                  && ((forall t :: !LeadTo(ids, s.redirects, f.url.id, f.key.id, t)) ==>
                        bucket == Archived && FiledUnder(s, after, k, SeenNotUnique))
                  && (forall t :: LeadTo(ids, s.redirects, f.url.id, f.key.id, t) ==>
                        SightingOutcome(s, after, bucket, k, f, t)))
  {
    var f := line.fields;
    if f.key.Usable? && f.url.Usable? && !f.firstSeen.NotADate? {
      OneTarget(ids, s.redirects, f.url.id, f.key.id);
      TargetsArePostings(ids, s, f.url.id, f.key.id);
      var k := ArchiveKey(Seen, artifact, n, line.raw);
      hide Valid, LineageTargets, LineageSeeds, LeadTo, LineRaises, SeenOwnerStep, SightingOutcome;
      forall t | LeadTo(ids, s.redirects, f.url.id, f.key.id, t)
        ensures var (after, bucket) := LineStep(ids, s, Seen, artifact, n, line);
                SightingOutcome(s, after, bucket, k, f, t)
      {
        var targets := LineageTargets(s.redirects, LineageSeeds(ids, f.url.id, f.key.id));
        assert t in targets && Only(targets) in targets;
        OwnerBucket(s, k, f, t);
      }
    }
  }

  lemma OwnerBucket(s: Store, k: ArchiveKey, f: Fields, t: PostingId)
    requires f.key.Usable? && f.url.Usable? && t in s.firstSeen
    ensures SightingOutcome(s, SeenOwnerStep(s, k, f, t).0, SeenOwnerStep(s, k, f, t).1, k, f, t)
  {
    assert s.firstSeen[t := s.firstSeen[t]] == s.firstSeen;
  }

  ghost predicate SightingOutcome(
    s: Store, after: Store, bucket: Bucket, k: ArchiveKey, f: Fields, t: PostingId)
    requires f.key.Usable? && f.url.Usable?
  {
    var payload := SeenPayload(k.artifact, f.key.id, f.firstSeen, f.url.id);
    if payload in s.evidence && s.evidence[payload] != t then
      bucket == Archived && FiledUnder(s, after, k, SeenEvidenceConflict)
    else
      && Sighted(s, after, t, payload, f.firstSeen)
      && bucket == if payload in s.evidence then Duplicate else Mapped
  }

  // ------------------------------------------------------------- lines of either kind

  /** A line that is no JSON object is malformed, under the reason of its kind. */
  lemma NoObjectBucket(ids: Identity, s: Store, kind: Kind, artifact: int, n: nat, line: Line)
    requires Valid(ids, s) && (line.NotJson? || line.NotAnObject?)
    ensures !LineRaises(ids, s, kind, artifact, line)
    ensures var (after, bucket) := LineStep(ids, s, kind, artifact, n, line);
            && bucket == Malformed
            && FiledUnder(s, after, ArchiveKey(kind, artifact, n, line.raw),
                          if line.NotJson? then MalformedJson else JsonNotObject)
  {
  }

  /**
   A record raises exactly when both its urls are wanted and one cannot be bound, or when a date
   is wanted of its one posting that it, or the date it would be compared with, cannot give.
   */
  lemma RecordRaisesIff(ids: Identity, s: Store, kind: Kind, artifact: int, line: Line)
    requires line.Record?
    ensures var f := line.fields;
            LineRaises(ids, s, kind, artifact, line) <==>
            if kind == Resolutions then
              f.agg.Usable? && f.canonical.Usable? && (!f.agg.bindable || !f.canonical.bindable)
            else
              && f.key.Usable? && f.url.Usable? && !f.firstSeen.Absent? && !f.firstSeen.NotADate?
              && exists t :: LeadTo(ids, s.redirects, f.url.id, f.key.id, t) && DateFails(s, artifact, f, t)
  {
    var f := line.fields;
    if kind == Seen && f.key.Usable? && f.url.Usable? {
      OneTarget(ids, s.redirects, f.url.id, f.key.id);
      hide LineageTargets, LineageSeeds, LeadTo;
      var targets := LineageTargets(s.redirects, LineageSeeds(ids, f.url.id, f.key.id));
      forall t | LeadTo(ids, s.redirects, f.url.id, f.key.id, t) ensures t == Only(targets) {
        assert Only(targets) in targets;
      }
    }
  }

  ghost predicate DateFails(s: Store, artifact: int, f: Fields, t: PostingId)
    requires f.key.Usable? && f.url.Usable?
  {
    var payload := SeenPayload(artifact, f.key.id, f.firstSeen, f.url.id);
    && (payload in s.evidence ==> s.evidence[payload] == t)
    && (f.firstSeen.OutOfRange? || (t in s.firstSeen && s.firstSeen[t].BeyondUtc?))
  }

  // ----------------------------------------------------------------------- the counts

  /** The buckets of the first `n` lines, blank ones left out. */
  ghost function Buckets(ids: Identity, s: Store, kind: Kind, artifact: int, lines: seq<Line>, n: nat): seq<Bucket>
    requires Valid(ids, s) && n <= |lines| && LinesStep(ids, s, kind, artifact, lines, n).Some?
  {
    if n == 0 then []
    else if lines[n - 1].Blank? then Buckets(ids, s, kind, artifact, lines, n - 1)
    else
      var before := LinesStep(ids, s, kind, artifact, lines, n - 1).value.0;
      Buckets(ids, s, kind, artifact, lines, n - 1) + [LineStep(ids, before, kind, artifact, n, lines[n - 1]).1]
  }

  /** Each count of a file is the number of its lines in that bucket. */
  lemma {:induction false} CountsAreBuckets(
    ids: Identity, s: Store, kind: Kind, artifact: int, lines: seq<Line>, n: nat)
    requires Valid(ids, s) && n <= |lines| && LinesStep(ids, s, kind, artifact, lines, n).Some?
    ensures Counted(LinesStep(ids, s, kind, artifact, lines, n).value.1, Buckets(ids, s, kind, artifact, lines, n))
    decreases n
  {
    hide LineStep, LineRaises, Valid, Counted, Tally;
    if n == 0 {
      NothingCounted();
    } else {
      CountsAreBuckets(ids, s, kind, artifact, lines, n - 1);
      if !lines[n - 1].Blank? {
        var (before, counts) := LinesStep(ids, s, kind, artifact, lines, n - 1).value;
        CountedOneMore(counts, Buckets(ids, s, kind, artifact, lines, n - 1),
                       LineStep(ids, before, kind, artifact, n, lines[n - 1]).1);
      }
    }
  }

  predicate Counted(counts: Counts, buckets: seq<Bucket>) {
    && counts.mapped == multiset(buckets)[Mapped]
    && counts.duplicate == multiset(buckets)[Duplicate]
    && counts.malformed == multiset(buckets)[Malformed]
    && counts.archived == multiset(buckets)[Archived]
    && counts.processed == |buckets|
  }

  lemma NothingCounted()
    ensures Counted(NONE_YET, [])
  {
  }

  lemma CountedOneMore(counts: Counts, buckets: seq<Bucket>, bucket: Bucket)
    requires Counted(counts, buckets)
    ensures Counted(Tally(counts, bucket), buckets + [bucket])
  {
  }
}
