/**
 The legacy artifact importer (legacy_import.py): every line of `resolutions.jsonl` and
 `seen.jsonl` is mapped, recognised as a duplicate, malformed or archived, inside one
 transaction, unless reading it raises, which ends the import. Resolution lines also add
 redirects.

 Hashes and UUIDs are injective, so a row's key is the data that is hashed into it.
 */
module ArtifactImport {
  import opened Wrappers
  import opened Redirects

  datatype Kind = Resolutions | Seen
  datatype Bucket = Mapped | Duplicate | Malformed | Archived

  /** A JSON value where non-blank text is wanted; text with a lone surrogate cannot be bound to SQL. */
  datatype Text = Usable(id: int, bindable: bool) | Unusable {
    function GetOrElse(default: int): int {
      if Usable? then id else default
    }
  }
  /**
   A `first_seen` value: absent, present but no ISO date, a date text and its instant, or a date
   text whose instant in UTC is before year 1 or after year 9999.
   */
  datatype FirstSeen = Absent | NotADate | Dated(text: int, instant: int) | OutOfRange(text: int)

  /** The stored `first_seen_at` of a posting, as `_parsed_instant` takes it. */
  datatype Stored = Unreadable | At(instant: int) | BeyondUtc

  datatype Fields = Fields(
    agg: Text, canonical: Text, rest: int,
    key: Text, url: Text, firstSeen: FirstSeen)
  datatype Line =
    | Blank
    // parsing raises something else than the two errors that are caught
    | Unparsable(raw: int)
    | NotJson(raw: int)
    | NotAnObject(raw: int)
    | Record(raw: int, fields: Fields)

  datatype Payload =
    | ResolutionPayload(artifact: int, agg: int, canonical: int, rest: int)
    | SeenPayload(artifact: int, key: int, firstSeen: FirstSeen, url: int)
  datatype Reason =
    | MalformedJson | JsonNotObject | MalformedResolution | ResolutionNotUnique
    | ExistingCycle | WouldCreateCycle | RedirectConflict | ResolutionEvidenceConflict
    | MalformedSeen | SeenNotUnique | SeenEvidenceConflict
  datatype ArchiveKey = ArchiveKey(kind: Kind, artifact: int, line: nat, raw: int)

  datatype Counts = Counts(
    processed: nat, mapped: nat, duplicate: nat, malformed: nat, archived: nat)
  datatype Ledger = Running | Succeeded(counts: Counts)

  /** The tables the importer writes. */
  datatype Store = Store(
    redirects: RedirectMap,
    evidence: map<Payload, PostingId>,
    archive: map<ArchiveKey, Reason>,
    firstSeen: map<PostingId, Stored>,
    ledger: map<(Kind, int), Ledger>)

  /** The identity tables the importer only reads. */
  datatype AliasRow = AliasRow(posting: PostingId, value: int, url: Option<int>, open: bool)
  datatype Identity = Identity(
    aliases: set<AliasRow>,
    exactLineage: map<(int, int), set<PostingId>>,
    lineageByKey: map<int, set<PostingId>>)

  // ------------------------------------------------------------- candidates

  function AliasCandidates(ids: Identity, url: int): set<PostingId> {
    set a | a in ids.aliases && a.open && (a.value == url || a.url == Some(url)) :: a.posting
  }

  function LineageSeeds(ids: Identity, url: int, key: int): set<PostingId> {
    var exact := if (url, key) in ids.exactLineage then ids.exactLineage[(url, key)] else {};
    if exact != {} then exact
    else if key in ids.lineageByKey then ids.lineageByKey[key]
    else {}
  }

  /** The sinks of the seeds; nothing at all once a seed runs into a redirect cycle. */
  ghost function LineageTargets(g: RedirectMap, seeds: set<PostingId>): set<PostingId> {
    if exists c :: c in seeds && SinkOf(g, c).None? then {}
    else set c | c in seeds && SinkOf(g, c).Some? :: SinkOf(g, c).value
  }

  ghost function Only<T>(s: set<T>): (x: T)
    requires |s| == 1
    ensures s == {x}
  {
    var x :| x in s;
    assert |s - {x}| == 0;
    assert s - {x} == {};
    x
  }

  /** Foreign keys: every posting id the importer may write names a posting. */
  ghost predicate Valid(ids: Identity, s: Store) {
    && s.redirects.Values <= s.firstSeen.Keys
    && (forall a :: a in ids.aliases ==> a.posting in s.firstSeen)
    && (forall u, k, p :: p in LineageSeeds(ids, u, k) ==> p in s.firstSeen)
  }

  // ------------------------------------------------------------ specification

  function Filed(s: Store, k: ArchiveKey, why: Reason): Store {
    if k in s.archive then s else s.(archive := s.archive[k := why])
  }

  ghost function ResolutionStep(ids: Identity, s: Store, k: ArchiveKey, f: Fields): (Store, Bucket)
  {
    if !f.agg.Usable? || !f.canonical.Usable? then (Filed(s, k, MalformedResolution), Malformed)
    else
      var aggs := AliasCandidates(ids, f.agg.id);
      var canonicals := AliasCandidates(ids, f.canonical.id);
      if |aggs| != 1 || |canonicals| != 1 then (Filed(s, k, ResolutionNotUnique), Archived)
      else ResolutionPairStep(s, k, f, Only(aggs), Only(canonicals))
  }

  ghost function ResolutionPairStep(
    s: Store, k: ArchiveKey, f: Fields, agg: PostingId, canonical: PostingId): (Store, Bucket)
    requires f.agg.Usable? && f.canonical.Usable?
  {
    var aggTarget := SinkOf(s.redirects, agg);
    var canonicalTarget := SinkOf(s.redirects, canonical);
    if aggTarget.None? || canonicalTarget.None? then (Filed(s, k, ExistingCycle), Archived)
    else
      var sink := canonicalTarget.value;
      if sink == agg && agg != canonical then (Filed(s, k, WouldCreateCycle), Archived)
      else if agg != sink && agg in s.redirects && aggTarget != canonicalTarget then
        (Filed(s, k, RedirectConflict), Archived)
      else
        var payload := ResolutionPayload(k.artifact, f.agg.id, f.canonical.id, f.rest);
        if payload in s.evidence && s.evidence[payload] != sink then
          (Filed(s, k, ResolutionEvidenceConflict), Archived)
        else
          var link := agg != sink && agg !in s.redirects;
          var known := payload in s.evidence;
          (s.(evidence := s.evidence[payload := sink],
              redirects := if link then s.redirects[agg := sink] else s.redirects),
           if !known || link then Mapped else Duplicate)
  }

  ghost function SeenStep(ids: Identity, s: Store, k: ArchiveKey, f: Fields): (Store, Bucket)
    requires Valid(ids, s)
  {
    if !f.key.Usable? || !f.url.Usable? || f.firstSeen.NotADate? then
      (Filed(s, k, MalformedSeen), Malformed)
    else
      var targets := LineageTargets(s.redirects, LineageSeeds(ids, f.url.id, f.key.id));
      if |targets| != 1 then (Filed(s, k, SeenNotUnique), Archived)
      else
        TargetsArePostings(ids, s, f.url.id, f.key.id);
        assert Only(targets) in targets;
        SeenOwnerStep(s, k, f, Only(targets))
  }

  function SeenOwnerStep(s: Store, k: ArchiveKey, f: Fields, posting: PostingId): (Store, Bucket)
    requires f.key.Usable? && f.url.Usable? && posting in s.firstSeen
  {
    var payload := SeenPayload(k.artifact, f.key.id, f.firstSeen, f.url.id);
    if payload in s.evidence && s.evidence[payload] != posting then
      (Filed(s, k, SeenEvidenceConflict), Archived)
    else
      (s.(evidence := s.evidence[payload := posting],
          firstSeen := s.firstSeen[posting := Earlier(s.firstSeen[posting], f.firstSeen)]),
       if payload !in s.evidence then Mapped else Duplicate)
  }

  /** The stored instant after a sighting: replaced only when unreadable or strictly later. */
  function Earlier(stored: Stored, sighting: FirstSeen): Stored {
    if sighting.Dated? && (stored.Unreadable? || (stored.At? && sighting.instant < stored.instant)) then
      At(sighting.instant)
    else stored
  }

  /**
   Reading a line raises: it cannot be parsed, a url with a lone surrogate is bound to SQL, or
   the instant of a sighting, or the stored one it is compared with, is out of range.
   */
  ghost predicate LineRaises(ids: Identity, s: Store, kind: Kind, artifact: int, line: Line) {
    || line.Unparsable?
    || (line.Record? && kind == Resolutions && ResolutionRaises(line.fields))
    || (line.Record? && kind == Seen && SeenRaises(ids, s, artifact, line.fields))
  }

  predicate ResolutionRaises(f: Fields) {
    f.agg.Usable? && f.canonical.Usable? && !(f.agg.bindable && f.canonical.bindable)
  }

  ghost predicate SeenRaises(ids: Identity, s: Store, artifact: int, f: Fields) {
    && f.key.Usable? && f.url.Usable? && (f.firstSeen.Dated? || f.firstSeen.OutOfRange?)
    && var targets := LineageTargets(s.redirects, LineageSeeds(ids, f.url.id, f.key.id));
       && |targets| == 1
       && var payload := SeenPayload(artifact, f.key.id, f.firstSeen, f.url.id);
          && (payload in s.evidence ==> s.evidence[payload] == Only(targets))
          && (f.firstSeen.OutOfRange?
              || (Only(targets) in s.firstSeen && s.firstSeen[Only(targets)].BeyondUtc?))
  }

  ghost function LineStep(ids: Identity, s: Store, kind: Kind, artifact: int, n: nat, line: Line)
    : (Store, Bucket)
    requires Valid(ids, s) && !line.Blank? && !LineRaises(ids, s, kind, artifact, line)
  {
    var k := ArchiveKey(kind, artifact, n, line.raw);
    if line.NotJson? then (Filed(s, k, MalformedJson), Malformed)
    else if line.NotAnObject? then (Filed(s, k, JsonNotObject), Malformed)
    else if kind == Resolutions then ResolutionStep(ids, s, k, line.fields)
    else SeenStep(ids, s, k, line.fields)
  }

  function Tally(c: Counts, b: Bucket): Counts {
    var c := c.(processed := c.processed + 1);
    match b
    case Mapped => c.(mapped := c.mapped + 1)
    case Duplicate => c.(duplicate := c.duplicate + 1)
    case Malformed => c.(malformed := c.malformed + 1)
    case Archived => c.(archived := c.archived + 1)
  }

  const NONE_YET := Counts(0, 0, 0, 0, 0)

  /** The store and counts after the first `n` lines, None when one raised; line numbers start at 1. */
  ghost function LinesStep(
    ids: Identity, s: Store, kind: Kind, artifact: int, lines: seq<Line>, n: nat)
    : (r: Option<(Store, Counts)>)
    requires Valid(ids, s) && n <= |lines|
    ensures r.Some? ==> Valid(ids, r.value.0)
  {
    if n == 0 then Some((s, NONE_YET))
    else
      var before := LinesStep(ids, s, kind, artifact, lines, n - 1);
      if before.None? || lines[n - 1].Blank? then before
      else if LineRaises(ids, before.value.0, kind, artifact, lines[n - 1]) then None
      else
        LineOutcome(ids, before.value.0, kind, artifact, n, lines[n - 1]);
        var (after, bucket) := LineStep(ids, before.value.0, kind, artifact, n, lines[n - 1]);
        Some((after, Tally(before.value.1, bucket)))
  }

  lemma TargetsArePostings(ids: Identity, s: Store, url: int, key: int)
    requires Valid(ids, s)
    ensures LineageTargets(s.redirects, LineageSeeds(ids, url, key)) <= s.firstSeen.Keys
  {
    forall c | c in LineageSeeds(ids, url, key) && SinkOf(s.redirects, c).Some?
      ensures SinkOf(s.redirects, c).value in s.firstSeen
    {
      SinkIsPosting(s.redirects, s.firstSeen.Keys, c);
    }
  }

  lemma SinkIsPosting(g: RedirectMap, postings: set<PostingId>, x: PostingId)
    requires g.Values <= postings && x in postings && SinkOf(g, x).Some?
    ensures SinkOf(g, x).value in postings
  {
    var n: nat :| Walk(g, x, n) == Some(SinkOf(g, x).value);
    WalkStaysInPostings(g, postings, x, n);
  }

  lemma {:induction false} WalkStaysInPostings(
    g: RedirectMap, postings: set<PostingId>, x: PostingId, n: nat)
    requires g.Values <= postings && x in postings && Walk(g, x, n).Some?
    ensures Walk(g, x, n).value in postings
    decreases n
  {
    if n > 0 {
      assert g[x] in g.Values;
      WalkStaysInPostings(g, postings, g[x], n - 1);
    }
  }

  // ------------------------------------------------------------ one line

  /** What a record says once it is well formed: the evidence row it leaves. */
  function PayloadOf(kind: Kind, artifact: int, f: Fields): Payload {
    if kind == Resolutions then
      ResolutionPayload(artifact, f.agg.GetOrElse(0), f.canonical.GetOrElse(0), f.rest)
    else
      SeenPayload(artifact, f.key.GetOrElse(0), f.firstSeen, f.url.GetOrElse(0))
  }

  /** A new redirect only ever joins two sinks. */
  ghost predicate JoinsSinks(g: RedirectMap, h: RedirectMap, postings: set<PostingId>) {
    h == g || exists a, c :: IsJoin(g, h, a, c) && c in postings
  }

  ghost predicate IsJoin(g: RedirectMap, h: RedirectMap, a: PostingId, c: PostingId) {
    a !in g && c !in g && a != c && h == g[a := c]
  }

  /** The line went to the archive, and changed nothing else. */
  ghost predicate Shelved(s: Store, after: Store, k: ArchiveKey) {
    && after.(archive := s.archive) == s
    && after.archive.Keys == s.archive.Keys + {k}
  }

  /** The line left (or found) its evidence row, and changed no archive row. */
  ghost predicate Evidenced(s: Store, after: Store, payload: Payload) {
    && after.archive == s.archive
    && after.ledger == s.ledger
    && payload in after.evidence
    && after.evidence == s.evidence[payload := after.evidence[payload]]
    && (payload in s.evidence ==> after.evidence == s.evidence)
    && JoinsSinks(s.redirects, after.redirects, s.firstSeen.Keys)
    && after.firstSeen.Keys == s.firstSeen.Keys
  }

  ghost predicate Outcome(
    s: Store, after: Store, bucket: Bucket, k: ArchiveKey, line: Line)
  {
    if bucket in {Malformed, Archived} then Shelved(s, after, k)
    else line.Record? && Evidenced(s, after, PayloadOf(k.kind, k.artifact, line.fields))
  }

  lemma ResolutionOutcome(ids: Identity, s: Store, k: ArchiveKey, line: Line)
    requires Valid(ids, s) && line.Record? && k.kind == Resolutions
    ensures var (after, bucket) := ResolutionStep(ids, s, k, line.fields);
            Outcome(s, after, bucket, k, line)
  {
    var f := line.fields;
    if f.agg.Usable? && f.canonical.Usable? {
      var aggs, canonicals := AliasCandidates(ids, f.agg.id), AliasCandidates(ids, f.canonical.id);
      if |aggs| == 1 && |canonicals| == 1 {
        var agg, canonical := Only(aggs), Only(canonicals);
        assert canonical in canonicals;
        PairOutcome(s, k, line, agg, canonical);
      }
    }
  }

  lemma PairOutcome(s: Store, k: ArchiveKey, line: Line, agg: PostingId, canonical: PostingId)
    requires line.Record? && k.kind == Resolutions && canonical in s.firstSeen
    requires line.fields.agg.Usable? && line.fields.canonical.Usable?
    requires s.redirects.Values <= s.firstSeen.Keys
    ensures var (after, bucket) := ResolutionPairStep(s, k, line.fields, agg, canonical);
            Outcome(s, after, bucket, k, line)
  {
    var (after, bucket) := ResolutionPairStep(s, k, line.fields, agg, canonical);
    if bucket in {Mapped, Duplicate} {
      var sink := SinkOf(s.redirects, canonical).value;
      SinkIsPosting(s.redirects, s.firstSeen.Keys, canonical);
      assert after.redirects != s.redirects ==> IsJoin(s.redirects, after.redirects, agg, sink);
    }
  }

  lemma SeenOutcome(ids: Identity, s: Store, k: ArchiveKey, line: Line)
    requires Valid(ids, s) && line.Record? && k.kind == Seen
    ensures var (after, bucket) := SeenStep(ids, s, k, line.fields);
            Outcome(s, after, bucket, k, line)
  {
    var f := line.fields;
    var targets := LineageTargets(s.redirects, LineageSeeds(ids, f.url.GetOrElse(0), f.key.GetOrElse(0)));
    if f.key.Usable? && f.url.Usable? && !f.firstSeen.NotADate? && |targets| == 1 {
      TargetsArePostings(ids, s, f.url.id, f.key.id);
      assert Only(targets) in targets;
      OwnerOutcome(s, k, line, Only(targets));
    }
  }

  lemma OwnerOutcome(s: Store, k: ArchiveKey, line: Line, posting: PostingId)
    requires line.Record? && k.kind == Seen && posting in s.firstSeen
    requires line.fields.key.Usable? && line.fields.url.Usable?
    ensures var (after, bucket) := SeenOwnerStep(s, k, line.fields, posting);
            Outcome(s, after, bucket, k, line)
  {
    var after := SeenOwnerStep(s, k, line.fields, posting).0;
    assert after.firstSeen.Keys == s.firstSeen.Keys;
  }

  /** A line that does not raise ends in exactly one bucket, and leaves an archive or an evidence row. */
  lemma LineOutcome(ids: Identity, s: Store, kind: Kind, artifact: int, n: nat, line: Line)
    requires Valid(ids, s) && !line.Blank? && !LineRaises(ids, s, kind, artifact, line)
    ensures var (after, bucket) := LineStep(ids, s, kind, artifact, n, line);
            && Outcome(s, after, bucket, ArchiveKey(kind, artifact, n, line.raw), line)
            && Valid(ids, after)
  {
    var k := ArchiveKey(kind, artifact, n, line.raw);
    if line.Record? {
      if kind == Resolutions {
        ResolutionOutcome(ids, s, k, line);
      } else {
        SeenOutcome(ids, s, k, line);
      }
    }
    var (after, bucket) := LineStep(ids, s, kind, artifact, n, line);
    OutcomeKeepsValid(ids, s, after, bucket, k, line);
  }

  lemma OutcomeKeepsValid(
    ids: Identity, s: Store, after: Store, bucket: Bucket, k: ArchiveKey, line: Line)
    requires Valid(ids, s) && Outcome(s, after, bucket, k, line)
    ensures Valid(ids, after)
  {
    if after.redirects != s.redirects {
      var a, c :| IsJoin(s.redirects, after.redirects, a, c) && c in s.firstSeen.Keys;
    }
    assert after.firstSeen.Keys == s.firstSeen.Keys;
  }

  // ------------------------------------------------------------ redirects

  /**
   A resolution line that is mapped or recognised moves exactly the postings that ended at
   the aggregator posting, and leaves both of its postings with the same sink.
   */
  lemma ResolutionUnites(ids: Identity, s: Store, k: ArchiveKey, f: Fields)
    requires ResolutionStep(ids, s, k, f).1 in {Mapped, Duplicate}
    ensures |AliasCandidates(ids, f.agg.id)| == 1 && |AliasCandidates(ids, f.canonical.id)| == 1
    ensures var agg := Only(AliasCandidates(ids, f.agg.id));
            var canonical := Only(AliasCandidates(ids, f.canonical.id));
            var after := ResolutionStep(ids, s, k, f).0;
            && SinkOf(s.redirects, canonical).Some?
            && SinkOf(after.redirects, agg) == SinkOf(s.redirects, canonical)
            && SinkOf(after.redirects, canonical) == SinkOf(s.redirects, canonical)
            && forall x :: SinkOf(after.redirects, x) ==
                 if SinkOf(s.redirects, x) == Some(agg) then SinkOf(s.redirects, canonical)
                 else SinkOf(s.redirects, x)
  {
    var g := s.redirects;
    var agg := Only(AliasCandidates(ids, f.agg.id));
    var canonical := Only(AliasCandidates(ids, f.canonical.id));
    var after := ResolutionStep(ids, s, k, f).0;
    var sink := SinkOf(g, canonical).value;
    forall x ensures SinkOf(after.redirects, x) ==
        if SinkOf(g, x) == Some(agg) then Some(sink) else SinkOf(g, x)
    {
      if after.redirects != g {
        InsertMovesSinks(g, agg, sink, x);
      }
    }
    if agg !in g {
      assert Walk(g, agg, 0) == Some(agg);
      assert IsSink(g, agg, agg);
      SinkUnique(g, agg, agg, SinkOf(g, agg).value);
    }
    if sink == agg {
      assert SinkOf(g, agg) == Some(sink);
    }
  }

  /** Later redirects only carry on from earlier sinks. */
  ghost predicate Forwards(g: RedirectMap, h: RedirectMap) {
    && (forall x :: x in g ==> x in h && h[x] == g[x])
    && Cycles(h) == Cycles(g)
    && (Acyclic(h) <==> Acyclic(g))
    && forall x :: SinkOf(h, x) == Onward(g, h, x)
  }

  /** Where the old sink of `x` leads now. */
  ghost function Onward(g: RedirectMap, h: RedirectMap, x: PostingId): Option<PostingId> {
    if SinkOf(g, x).Some? then SinkOf(h, SinkOf(g, x).value) else None
  }

  lemma SinkOfSink(g: RedirectMap, s: PostingId)
    requires s !in g
    ensures SinkOf(g, s) == Some(s)
  {
    assert Walk(g, s, 0) == Some(s);
    assert IsSink(g, s, s);
    SinkUnique(g, s, s, SinkOf(g, s).value);
  }

  lemma NothingForwards(g: RedirectMap)
    ensures Forwards(g, g)
  {
    forall x ensures SinkOf(g, x) == Onward(g, g, x) {
      if SinkOf(g, x).Some? {
        SinkOfSink(g, SinkOf(g, x).value);
      }
    }
  }

  lemma JoinForwards(g: RedirectMap, h: RedirectMap, a: PostingId, c: PostingId)
    requires IsJoin(g, h, a, c)
    ensures Forwards(g, h)
  {
    InsertKeepsCycles(g, a, c);
    forall x ensures SinkOf(h, x) == Onward(g, h, x) {
      InsertMovesSinks(g, a, c, x);
      if SinkOf(g, x).Some? {
        SinkOfSink(g, SinkOf(g, x).value);
        InsertMovesSinks(g, a, c, SinkOf(g, x).value);
      }
    }
  }

  lemma ForwardsTransitive(g: RedirectMap, h: RedirectMap, k: RedirectMap)
    requires Forwards(g, h) && Forwards(h, k)
    ensures Forwards(g, k)
  {
    forall x ensures SinkOf(k, x) == Onward(g, k, x) {
      assert SinkOf(h, x) == Onward(g, h, x);
      assert SinkOf(k, x) == Onward(h, k, x);
      if SinkOf(g, x).Some? {
        var s := SinkOf(g, x).value;
        assert SinkOf(k, s) == Onward(h, k, s);
      }
    }
  }

  /**
   Whatever lines are imported, in whatever order: no redirect is changed or removed, no cycle
   appears or disappears, and every posting ends where its old sink now leads.
   */
  lemma {:induction false} RunForwards(
    ids: Identity, s: Store, kind: Kind, artifact: int, lines: seq<Line>, n: nat)
    requires Valid(ids, s) && n <= |lines| && LinesStep(ids, s, kind, artifact, lines, n).Some?
    ensures Forwards(s.redirects, LinesStep(ids, s, kind, artifact, lines, n).value.0.redirects)
    decreases n
  {
    hide LineStep;
    if n == 0 {
      NothingForwards(s.redirects);
    } else {
      RunForwards(ids, s, kind, artifact, lines, n - 1);
      if !lines[n - 1].Blank? {
        var before := LinesStep(ids, s, kind, artifact, lines, n - 1).value.0;
        var after := LineStep(ids, before, kind, artifact, n, lines[n - 1]).0;
        LineForwards(ids, before, kind, artifact, n, lines[n - 1]);
        ForwardsTransitive(s.redirects, before.redirects, after.redirects);
      }
    }
  }

  lemma LineForwards(ids: Identity, s: Store, kind: Kind, artifact: int, n: nat, line: Line)
    requires Valid(ids, s) && !line.Blank? && !LineRaises(ids, s, kind, artifact, line)
    ensures Forwards(s.redirects, LineStep(ids, s, kind, artifact, n, line).0.redirects)
  {
    LineOutcome(ids, s, kind, artifact, n, line);
    var h := LineStep(ids, s, kind, artifact, n, line).0.redirects;
    if h == s.redirects {
      NothingForwards(h);
    } else {
      var a, c :| IsJoin(s.redirects, h, a, c);
      JoinForwards(s.redirects, h, a, c);
    }
  }

  // ----------------------------------------------------------- conservation

  /** The importer's own accounting check can never fire, whatever the store holds. */
  lemma {:induction false} RunCounts(
    ids: Identity, s: Store, kind: Kind, artifact: int, lines: seq<Line>, n: nat)
    requires Valid(ids, s) && n <= |lines| && LinesStep(ids, s, kind, artifact, lines, n).Some?
    ensures var (t, c) := LinesStep(ids, s, kind, artifact, lines, n).value;
            && c.processed == NonBlank(lines, n)
            && c.processed == c.mapped + c.duplicate + c.malformed + c.archived
            && t.ledger == s.ledger
    decreases n
  {
    hide LineStep;
    if n > 0 {
      RunCounts(ids, s, kind, artifact, lines, n - 1);
      if !lines[n - 1].Blank? {
        var before := LinesStep(ids, s, kind, artifact, lines, n - 1).value.0;
        LineOutcome(ids, before, kind, artifact, n, lines[n - 1]);
      }
    }
  }

  /** No line of this artifact is in the archive yet. */
  ghost predicate Unarchived(s: Store, kind: Kind, artifact: int, from: nat) {
    forall k :: k in s.archive && k.kind == kind && k.artifact == artifact ==> k.line <= from
  }

  function NonBlank(lines: seq<Line>, n: nat): nat
    requires n <= |lines|
  {
    if n == 0 then 0 else NonBlank(lines, n - 1) + if lines[n - 1].Blank? then 0 else 1
  }

  /**
   The counts add up: every non-blank line is in exactly one bucket, and the archive grew by
   exactly the malformed and archived lines.
   */
  lemma {:induction false} RunAccounts(
    ids: Identity, s: Store, kind: Kind, artifact: int, lines: seq<Line>, n: nat)
    requires Valid(ids, s) && n <= |lines| && Unarchived(s, kind, artifact, 0)
    requires LinesStep(ids, s, kind, artifact, lines, n).Some?
    ensures var (t, c) := LinesStep(ids, s, kind, artifact, lines, n).value;
            && c.processed == NonBlank(lines, n)
            && Accounted(s, t, c)
            && Unarchived(t, kind, artifact, n)
    decreases n
  {
    hide LineStep;
    if n > 0 {
      RunAccounts(ids, s, kind, artifact, lines, n - 1);
      if !lines[n - 1].Blank? {
        var (before, c) := LinesStep(ids, s, kind, artifact, lines, n - 1).value;
        var (after, bucket) := LineStep(ids, before, kind, artifact, n, lines[n - 1]);
        LineOutcome(ids, before, kind, artifact, n, lines[n - 1]);
        OutcomeAccounts(s, before, c, after, bucket, ArchiveKey(kind, artifact, n, lines[n - 1].raw), lines[n - 1]);
      }
    }
  }

  /** Each counted line is in one bucket, and the last two buckets are what the archive gained. */
  ghost predicate Accounted(s: Store, t: Store, c: Counts) {
    && c.processed == c.mapped + c.duplicate + c.malformed + c.archived
    && |t.archive| == |s.archive| + c.malformed + c.archived
    && t.ledger == s.ledger
  }

  lemma OutcomeAccounts(
    first: Store, s: Store, c: Counts, after: Store, bucket: Bucket, k: ArchiveKey, line: Line)
    requires Accounted(first, s, c)
    requires Outcome(s, after, bucket, k, line) && k.line > 0
    requires Unarchived(s, k.kind, k.artifact, k.line - 1)
    ensures Accounted(first, after, Tally(c, bucket))
    ensures Unarchived(after, k.kind, k.artifact, k.line)
  {
    if bucket in {Malformed, Archived} {
      assert forall j :: j in after.archive ==> j in after.archive.Keys;
      assert k !in s.archive.Keys;
      assert |after.archive.Keys| == |s.archive.Keys| + 1;
    }
  }

  /** What is left behind by line `i` (counting from 0) of the artifact. */
  ghost predicate LeavesTrace(t: Store, kind: Kind, artifact: int, lines: seq<Line>, i: nat)
    requires i < |lines|
  {
    var line := lines[i];
    || line.Blank?
    || ArchiveKey(kind, artifact, i + 1, line.raw) in t.archive
    || (line.Record? && PayloadOf(kind, artifact, line.fields) in t.evidence)
  }

  /** Evidence rows are never removed or reassigned; archive rows are never removed. */
  ghost predicate Grows(s: Store, t: Store) {
    && s.archive.Keys <= t.archive.Keys
    && forall p :: p in s.evidence ==> p in t.evidence && t.evidence[p] == s.evidence[p]
  }

  lemma OutcomeLeavesTrace(
    s: Store, after: Store, bucket: Bucket, kind: Kind, artifact: int, lines: seq<Line>, n: nat)
    requires n < |lines| && !lines[n].Blank?
    requires Outcome(s, after, bucket, ArchiveKey(kind, artifact, n + 1, lines[n].raw), lines[n])
    ensures Grows(s, after)
    ensures forall i :: 0 <= i < n && LeavesTrace(s, kind, artifact, lines, i) ==>
              LeavesTrace(after, kind, artifact, lines, i)
    ensures LeavesTrace(after, kind, artifact, lines, n)
  {
    var k := ArchiveKey(kind, artifact, n + 1, lines[n].raw);
    if bucket in {Malformed, Archived} {
      assert k in after.archive.Keys;
    }
  }

  /** Every line read so far left an archive row or its evidence row, and it is still there. */
  lemma {:induction false} RunLeavesTraces(
    ids: Identity, s: Store, kind: Kind, artifact: int, lines: seq<Line>, n: nat)
    requires Valid(ids, s) && n <= |lines| && LinesStep(ids, s, kind, artifact, lines, n).Some?
    ensures Grows(s, LinesStep(ids, s, kind, artifact, lines, n).value.0)
    ensures forall i :: 0 <= i < n ==>
      LeavesTrace(LinesStep(ids, s, kind, artifact, lines, n).value.0, kind, artifact, lines, i)
    decreases n
  {
    hide LineStep;
    if n > 0 {
      RunLeavesTraces(ids, s, kind, artifact, lines, n - 1);
      if !lines[n - 1].Blank? {
        var before := LinesStep(ids, s, kind, artifact, lines, n - 1).value.0;
        var (after, bucket) := LineStep(ids, before, kind, artifact, n, lines[n - 1]);
        LineOutcome(ids, before, kind, artifact, n, lines[n - 1]);
        OutcomeLeavesTrace(before, after, bucket, kind, artifact, lines, n - 1);
      }
    }
  }

  // --------------------------------------------------------- first sightings

  /** A posting's first sighting never moves later and never becomes unreadable. */
  ghost predicate NeverLater(s: Store, t: Store) {
    && t.firstSeen.Keys == s.firstSeen.Keys
    && forall p :: p in s.firstSeen && !s.firstSeen[p].Unreadable? ==>
         if s.firstSeen[p].BeyondUtc? then t.firstSeen[p] == s.firstSeen[p]
         else t.firstSeen[p].At? && t.firstSeen[p].instant <= s.firstSeen[p].instant
  }

  lemma {:induction false} RunNeverLater(
    ids: Identity, s: Store, kind: Kind, artifact: int, lines: seq<Line>, n: nat)
    requires Valid(ids, s) && n <= |lines| && LinesStep(ids, s, kind, artifact, lines, n).Some?
    ensures NeverLater(s, LinesStep(ids, s, kind, artifact, lines, n).value.0)
    decreases n
  {
    hide LineStep;
    if n > 0 {
      RunNeverLater(ids, s, kind, artifact, lines, n - 1);
      if !lines[n - 1].Blank? {
        var before := LinesStep(ids, s, kind, artifact, lines, n - 1).value.0;
        LineOutcome(ids, before, kind, artifact, n, lines[n - 1]);
        LineNeverLater(ids, before, kind, artifact, n, lines[n - 1]);
      }
    }
  }

  lemma LineNeverLater(ids: Identity, s: Store, kind: Kind, artifact: int, n: nat, line: Line)
    requires Valid(ids, s) && !line.Blank? && !LineRaises(ids, s, kind, artifact, line)
    ensures NeverLater(s, LineStep(ids, s, kind, artifact, n, line).0)
  {
    LineOutcome(ids, s, kind, artifact, n, line);
  }

  // ------------------------------------------------------------ whole import

  datatype Content = Content(artifact: int, lines: seq<Line>)
  datatype Summary = Summary(kind: Kind, artifact: int, counts: Counts)
  datatype ImportError = ActiveTransaction | SchemaTooOld | LedgerKeyTaken | LineRaised

  /** One artifact file; a succeeded ledger row for the same content answers for it. */
  ghost function FileStep(ids: Identity, s: Store, kind: Kind, file: Option<Content>)
    : (r: Result<(Store, seq<Summary>), ImportError>)
    requires Valid(ids, s)
    ensures r.Ok? ==> Valid(ids, r.value.0)
  {
    if file.None? then Ok((s, []))
    else
      var key := (kind, file.value.artifact);
      if key in s.ledger && s.ledger[key].Succeeded? then
        Ok((s, [Summary(kind, file.value.artifact, s.ledger[key].counts)]))
      else if key in s.ledger then Err(LedgerKeyTaken)
      else
        var started := s.(ledger := s.ledger[key := Running]);
        var read := LinesStep(ids, started, kind, file.value.artifact, file.value.lines, |file.value.lines|);
        if read.None? then Err(LineRaised)
        else
          var (t, counts) := read.value;
          Ok((t.(ledger := t.ledger[key := Succeeded(counts)]),
              [Summary(kind, file.value.artifact, counts)]))
  }

  /** The whole import: resolutions first, then seen records; nothing is kept on an error. */
  ghost function ImportStep(
    ids: Identity, s: Store, resolutions: Option<Content>, seen: Option<Content>)
    : (r: Result<(Store, seq<Summary>), ImportError>)
    requires Valid(ids, s)
    ensures r.Ok? ==> Valid(ids, r.value.0)
  {
    var first := FileStep(ids, s, Resolutions, resolutions);
    if first.Err? then first
    else
      var second := FileStep(ids, first.value.0, Seen, seen);
      if second.Err? then second
      else Ok((second.value.0, first.value.1 + second.value.1))
  }

  /** Between imports: only finished ledger rows, and each archived line belongs to one. */
  ghost predicate Settled(s: Store) {
    && (forall key :: key in s.ledger ==> s.ledger[key].Succeeded?)
    && (forall k :: k in s.archive ==> (k.kind, k.artifact) in s.ledger)
  }

  /** What a finished file is known to have done. */
  ghost predicate FileDone(s: Store, t: Store, kind: Kind, file: Option<Content>, out: seq<Summary>) {
    && Settled(t)
    && NeverLater(s, t)
    && Grows(s, t)
    && Forwards(s.redirects, t.redirects)
    && (file.None? ==> t == s && out == [])
    && (file.Some? ==>
          var key := (kind, file.value.artifact);
          && key in t.ledger && t.ledger[key].Succeeded?
          && out == [Summary(kind, file.value.artifact, t.ledger[key].counts)]
          && t.ledger == s.ledger[key := t.ledger[key]]
          && (key in s.ledger ==> t == s))
  }

  /** The file is not in the ledger yet, and one of its lines raises in the store it starts from. */
  ghost predicate FileRaises(ids: Identity, s: Store, kind: Kind, file: Option<Content>) {
    && file.Some?
    && (kind, file.value.artifact) !in s.ledger
    && exists i :: 0 <= i < |file.value.lines| && LineRaises(ids, s, kind, file.value.artifact, file.value.lines[i])
  }

  /** A file imports exactly when it does not raise; nothing else stops it. */
  lemma FileImports(ids: Identity, s: Store, kind: Kind, file: Option<Content>)
    requires Valid(ids, s) && Settled(s)
    ensures var r := FileStep(ids, s, kind, file);
            && (r.Ok? <==> !FileRaises(ids, s, kind, file))
            && (r.Err? ==> r.error == LineRaised)
            && (r.Ok? ==> FileDone(s, r.value.0, kind, file, r.value.1))
  {
    hide LinesStep, Forwards, NeverLater, Grows, LineRaises;
    if file.None? || (kind, file.value.artifact) in s.ledger {
      NothingForwards(s.redirects);
      NothingChanges(s);
    } else {
      FileRaisesIff(ids, s, kind, file.value);
      if FileStep(ids, s, kind, file).Ok? {
        FreshFile(ids, s, kind, file.value);
        FreshFileGrows(ids, s, kind, file.value);
      }
    }
  }

  lemma FileRaisesIff(ids: Identity, s: Store, kind: Kind, file: Content)
    requires Valid(ids, s) && (kind, file.artifact) !in s.ledger
    ensures FileStep(ids, s, kind, Some(file)).Ok? <==> !FileRaises(ids, s, kind, Some(file))
    ensures FileStep(ids, s, kind, Some(file)).Err? ==> FileStep(ids, s, kind, Some(file)).error == LineRaised
  {
    var started := s.(ledger := s.ledger[(kind, file.artifact) := Running]);
    LinesRaiseIff(ids, started, kind, file.artifact, file.lines, |file.lines|);
    hide LinesStep;
    forall line
      ensures LineRaises(ids, started, kind, file.artifact, line) <==> LineRaises(ids, s, kind, file.artifact, line)
    {
    }
  }

  // ------------------------------------------------------------- lines that raise

  /** Importing another line of the same file does not change whether a line raises. */
  lemma RaisingStays(
    ids: Identity, s: Store, kind: Kind, artifact: int, n: nat, line: Line, other: Line)
    requires Valid(ids, s) && !line.Blank? && !LineRaises(ids, s, kind, artifact, line)
    ensures LineRaises(ids, LineStep(ids, s, kind, artifact, n, line).0, kind, artifact, other)
            <==> LineRaises(ids, s, kind, artifact, other)
  {
    var after := LineStep(ids, s, kind, artifact, n, line).0;
    if kind == Seen && other.Record? {
      var k := ArchiveKey(kind, artifact, n, line.raw);
      if line.Record? {
        SeenRaisingStays(ids, s, k, line.fields, other.fields);
      } else {
        assert after.(archive := s.archive) == s;
      }
    }
  }

  lemma SeenRaisingStays(ids: Identity, s: Store, k: ArchiveKey, f: Fields, g: Fields)
    requires Valid(ids, s) && !SeenRaises(ids, s, k.artifact, f)
    ensures SeenRaises(ids, SeenStep(ids, s, k, f).0, k.artifact, g) <==> SeenRaises(ids, s, k.artifact, g)
  {
    var after := SeenStep(ids, s, k, f).0;
    SeenChanges(ids, s, k, f);
    hide LineageTargets, LineageSeeds, Valid;
  }

  /** A seen line leaves the redirects alone, and adds at most its own evidence. */
  lemma SeenChanges(ids: Identity, s: Store, k: ArchiveKey, f: Fields)
    requires Valid(ids, s) && !SeenRaises(ids, s, k.artifact, f)
    ensures var after := SeenStep(ids, s, k, f).0;
            && after.redirects == s.redirects
            && after.firstSeen.Keys == s.firstSeen.Keys
            && (forall p :: p in s.firstSeen ==> (after.firstSeen[p].BeyondUtc? <==> s.firstSeen[p].BeyondUtc?))
            && (after.evidence == s.evidence
                || (&& f.key.Usable? && f.url.Usable?
                    && var targets := LineageTargets(s.redirects, LineageSeeds(ids, f.url.id, f.key.id));
                       && |targets| == 1
                       && var payload := SeenPayload(k.artifact, f.key.id, f.firstSeen, f.url.id);
                          && payload !in s.evidence
                          && after.evidence == s.evidence[payload := Only(targets)]))
  {
    if f.key.Usable? && f.url.Usable? && !f.firstSeen.NotADate? {
      TargetsArePostings(ids, s, f.url.id, f.key.id);
      var targets := LineageTargets(s.redirects, LineageSeeds(ids, f.url.id, f.key.id));
      hide LineageSeeds, LineageTargets, Valid;
      if |targets| == 1 {
        assert Only(targets) in targets;
        OwnerChanges(s, k, f, Only(targets));
      }
    }
  }

  lemma OwnerChanges(s: Store, k: ArchiveKey, f: Fields, posting: PostingId)
    requires f.key.Usable? && f.url.Usable? && posting in s.firstSeen
    ensures var after := SeenOwnerStep(s, k, f, posting).0;
            var payload := SeenPayload(k.artifact, f.key.id, f.firstSeen, f.url.id);
            && after.redirects == s.redirects
            && after.firstSeen.Keys == s.firstSeen.Keys
            && (forall p :: p in s.firstSeen ==> (after.firstSeen[p].BeyondUtc? <==> s.firstSeen[p].BeyondUtc?))
            && (after.evidence == s.evidence
                || (payload !in s.evidence && after.evidence == s.evidence[payload := posting]))
  {
  }

  /** So the lines of a file can be judged in the store it starts from. */
  lemma {:induction false} LinesRaiseIff(
    ids: Identity, s: Store, kind: Kind, artifact: int, lines: seq<Line>, n: nat)
    requires Valid(ids, s) && n <= |lines|
    ensures LinesStep(ids, s, kind, artifact, lines, n).None?
            <==> exists i :: 0 <= i < n && LineRaises(ids, s, kind, artifact, lines[i])
    ensures LinesStep(ids, s, kind, artifact, lines, n).Some? ==>
              var after := LinesStep(ids, s, kind, artifact, lines, n).value.0;
              forall other ::
                LineRaises(ids, after, kind, artifact, other) <==> LineRaises(ids, s, kind, artifact, other)
    decreases n
  {
    hide LineStep, Valid;
    if n > 0 {
      LinesRaiseIff(ids, s, kind, artifact, lines, n - 1);
      var before := LinesStep(ids, s, kind, artifact, lines, n - 1);
      if before.Some? {
        var line := lines[n - 1];
        assert line.Blank? ==> !LineRaises(ids, s, kind, artifact, line);
        hide LineRaises;
        if !line.Blank? && !LineRaises(ids, before.value.0, kind, artifact, line) {
          forall other
            ensures LineRaises(ids, LineStep(ids, before.value.0, kind, artifact, n, line).0, kind, artifact, other)
                    <==> LineRaises(ids, before.value.0, kind, artifact, other)
          {
            RaisingStays(ids, before.value.0, kind, artifact, n, line, other);
          }
        }
      }
    }
  }

  lemma NothingChanges(s: Store)
    ensures NeverLater(s, s) && Grows(s, s)
  {
  }

  lemma FreshFileGrows(ids: Identity, s: Store, kind: Kind, file: Content)
    requires Valid(ids, s) && (kind, file.artifact) !in s.ledger && FileStep(ids, s, kind, Some(file)).Ok?
    ensures var t := FileStep(ids, s, kind, Some(file)).value.0;
            NeverLater(s, t) && Grows(s, t) && Forwards(s.redirects, t.redirects)
  {
    hide LinesStep;
    var started := s.(ledger := s.ledger[(kind, file.artifact) := Running]);
    RunForwards(ids, started, kind, file.artifact, file.lines, |file.lines|);
    RunNeverLater(ids, started, kind, file.artifact, file.lines, |file.lines|);
    RunLeavesTraces(ids, started, kind, file.artifact, file.lines, |file.lines|);
  }

  /** A file not seen before: its counts account for its lines and for the archive's growth. */
  lemma FreshFile(ids: Identity, s: Store, kind: Kind, file: Content)
    requires Valid(ids, s) && Settled(s) && (kind, file.artifact) !in s.ledger
    requires FileStep(ids, s, kind, Some(file)).Ok?
    ensures var r := FileStep(ids, s, kind, Some(file));
            && r.Ok? && Settled(r.value.0) && |r.value.1| == 1
            && var c := r.value.1[0].counts;
               && c.processed == NonBlank(file.lines, |file.lines|)
               && c.processed == c.mapped + c.duplicate + c.malformed + c.archived
               && |r.value.0.archive| == |s.archive| + c.malformed + c.archived
               && r.value.0.ledger == s.ledger[(kind, file.artifact) := Succeeded(c)]
  {
    hide LinesStep, NonBlank;
    var key := (kind, file.artifact);
    var started := s.(ledger := s.ledger[key := Running]);
    RunAccounts(ids, started, kind, file.artifact, file.lines, |file.lines|);
    RunArchivesOnlyItself(ids, started, kind, file.artifact, file.lines, |file.lines|);
    var (t, c) := LinesStep(ids, started, kind, file.artifact, file.lines, |file.lines|).value;
    assert t.ledger[key := Succeeded(c)] == s.ledger[key := Succeeded(c)];
    assert FileStep(ids, s, kind, Some(file)).value.0.archive == t.archive;
  }

  lemma OutcomeArchivesItself(s: Store, after: Store, bucket: Bucket, k: ArchiveKey, line: Line)
    requires Outcome(s, after, bucket, k, line)
    ensures forall j :: j in after.archive ==> j in s.archive || j == k
  {
    assert forall j :: j in after.archive ==> j in after.archive.Keys;
  }

  lemma {:induction false} RunArchivesOnlyItself(
    ids: Identity, s: Store, kind: Kind, artifact: int, lines: seq<Line>, n: nat)
    requires Valid(ids, s) && n <= |lines| && LinesStep(ids, s, kind, artifact, lines, n).Some?
    ensures forall k :: k in LinesStep(ids, s, kind, artifact, lines, n).value.0.archive ==>
              k in s.archive || (k.kind == kind && k.artifact == artifact)
    decreases n
  {
    hide LineStep;
    if n > 0 {
      RunArchivesOnlyItself(ids, s, kind, artifact, lines, n - 1);
      if !lines[n - 1].Blank? {
        var before := LinesStep(ids, s, kind, artifact, lines, n - 1).value.0;
        var (after, bucket) := LineStep(ids, before, kind, artifact, n, lines[n - 1]);
        LineOutcome(ids, before, kind, artifact, n, lines[n - 1]);
        OutcomeArchivesItself(before, after, bucket, ArchiveKey(kind, artifact, n, lines[n - 1].raw), lines[n - 1]);
      }
    }
  }

  /** The store the second file is read in. */
  ghost function BetweenFiles(ids: Identity, s: Store, resolutions: Option<Content>): Store
    requires Valid(ids, s)
  {
    var first := FileStep(ids, s, Resolutions, resolutions);
    if first.Ok? then first.value.0 else s
  }

  /**
   From any settled store an import succeeds exactly when no file that is not in the ledger yet
   holds a line that raises, the second file judged in the store the first one leaves. Then
   it leaves a settled store, and importing the same files again changes nothing and reports
   the same.
   */
  lemma ImportSucceedsAndRepeats(
    ids: Identity, s: Store, resolutions: Option<Content>, seen: Option<Content>)
    requires Valid(ids, s) && Settled(s)
    ensures var r := ImportStep(ids, s, resolutions, seen);
            && (r.Ok? <==>
                  && !FileRaises(ids, s, Resolutions, resolutions)
                  && !FileRaises(ids, BetweenFiles(ids, s, resolutions), Seen, seen))
            && (r.Err? ==> r.error == LineRaised)
            && (r.Ok? ==>
                  && Settled(r.value.0)
                  && Forwards(s.redirects, r.value.0.redirects)
                  && NeverLater(s, r.value.0)
                  && ImportStep(ids, r.value.0, resolutions, seen) == r)
  {
    FileImports(ids, s, Resolutions, resolutions);
    hide FileStep, FileRaises;
    if !FileRaises(ids, s, Resolutions, resolutions) {
      var mid := FileStep(ids, s, Resolutions, resolutions).value.0;
      FileImports(ids, mid, Seen, seen);
      if !FileRaises(ids, mid, Seen, seen) {
        var end := FileStep(ids, mid, Seen, seen).value.0;
        ForwardsTransitive(s.redirects, mid.redirects, end.redirects);
        InTheLedger(ids, end, Resolutions, resolutions);
        InTheLedger(ids, end, Seen, seen);
        FileImports(ids, end, Resolutions, resolutions);
        FileImports(ids, end, Seen, seen);
      }
    }
  }

  /** A file in the ledger is not read again. */
  lemma InTheLedger(ids: Identity, s: Store, kind: Kind, file: Option<Content>)
    ensures file.None? || (kind, file.value.artifact) in s.ledger ==> !FileRaises(ids, s, kind, file)
  {
  }

  /** A line whose date overflows in UTC stops the import once its posting is found. */
  lemma OverflowStopsTheImport()
    ensures var ids := Identity({}, map[(1, 1) := {7}], map[]);
            var s := Store(map[], map[], map[], map[7 := At(0)], map[]);
            var line := Record(0, Fields(Unusable, Unusable, 0, Usable(1, true), Usable(1, true), OutOfRange(2)));
            && Valid(ids, s) && Settled(s)
            && ImportStep(ids, s, None, Some(Content(5, [line]))) == Err(LineRaised)
  {
    var ids := Identity({}, map[(1, 1) := {7}], map[]);
    var s := Store(map[], map[], map[], map[7 := At(0)], map[]);
    var line := Record(0, Fields(Unusable, Unusable, 0, Usable(1, true), Usable(1, true), OutOfRange(2)));
    SinkOfSink(s.redirects, 7);
    assert LineageSeeds(ids, 1, 1) == {7};
    assert LineageTargets(s.redirects, {7}) == {7};
    assert Valid(ids, s) by {
      forall u, k, p | p in LineageSeeds(ids, u, k) ensures p in s.firstSeen {
      }
    }
    assert LineRaises(ids, s, Seen, 5, [line][0]);
    FileImports(ids, s, Seen, Some(Content(5, [line])));
    hide LineRaises, Valid;
    assert FileRaises(ids, s, Seen, Some(Content(5, [line])));
    ImportSucceedsAndRepeats(ids, s, None, Some(Content(5, [line])));
  }
}
