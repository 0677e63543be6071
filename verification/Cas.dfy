/**
 The content-addressed store for large payloads (lib/cas.js), and the registry path that offloads a
 payload into it (lib/schema-registry.js).
 */
module Cas {
  import opened Wrappers
  import opened Events
  import opened Archive
  import Sweep

  datatype File = File(bytes: string, mtime: int)

  /** Every table a reference may sit in. */
  datatype Refs = Refs(
    live: seq<Event>,
    archive: map<nat, Event>,        // events_archive
    letters: map<nat, Event>,        // the event snapshots of dead_letters
    buckets: map<Name, Bucket>)

  datatype Error =
    | PayloadTooLarge                        // WB-008
    | IncompleteBucketSet(bucket: Name)      // WB-010

  datatype GcStats = GcStats(liveShas: nat, considered: nat, deleted: nat, skippedInGrace: nat)

  /** SHA-256 taken as an injective function with nonempty digests. */
  ghost predicate HashOk(hash: string -> string) {
    (forall a, b | hash(a) == hash(b) :: a == b) && forall a :: hash(a) != ""
  }

  function ShaOf(p: Payload): (s: set<string>) {
    if p.CasRef? && p.sha != "" then {p.sha} else {}
  }

  function RowShas(rows: seq<Event>): (s: set<string>) {
    set e, x | e in rows && x in ShaOf(e.payload) :: x
  }

  function ArchiveShas(archive: map<nat, Event>): (s: set<string>) {
    set id, x | id in archive && x in ShaOf(archive[id].payload) :: x
  }

  function LetterShas(letters: map<nat, Event>): (s: set<string>) {
    set d, x | d in letters && x in ShaOf(letters[d].payload) :: x
  }

  function BucketShas(buckets: map<Name, Bucket>, names: set<Name>): (s: set<string>)
    requires names <= buckets.Keys
  {
    set n, e, x | n in names && e in buckets[n].rows && x in ShaOf(e.payload) :: x
  }

  /** Everything referenced by any table or by a bucket that is not acknowledged as missing. */
  function LiveShas(t: Refs, allow: set<Name>): (s: set<string>) {
    RowShas(t.live) + ArchiveShas(t.archive) + LetterShas(t.letters) + BucketShas(t.buckets, t.buckets.Keys - allow)
  }

  /** A row that refers to the digest. */
  predicate Refers(e: Event, sha: string) {
    sha != "" && e.payload == CasRef(sha)
  }

  /** What protects a digest: a row of a live, archive or dead-letter table, or of a bucket that is not acknowledged. */
  lemma LiveShasAre(t: Refs, allow: set<Name>, sha: string)
    ensures sha in LiveShas(t, allow) <==>
            || (exists e | e in t.live :: Refers(e, sha))
            || (exists id | id in t.archive :: Refers(t.archive[id], sha))
            || (exists d | d in t.letters :: Refers(t.letters[d], sha))
            || (exists n | n in t.buckets && n !in allow :: exists e | e in t.buckets[n].rows :: Refers(e, sha))
  {
    forall e: Event ensures sha in ShaOf(e.payload) <==> Refers(e, sha) {}
    RowShasAre(t.live, sha);
    assert sha in BucketShas(t.buckets, t.buckets.Keys - allow) <==>
      exists n | n in t.buckets && n !in allow :: exists e | e in t.buckets[n].rows :: Refers(e, sha);
  }

  lemma RowShasAre(rows: seq<Event>, sha: string)
    ensures sha in RowShas(rows) <==> exists e | e in rows :: Refers(e, sha)
  {
    forall e: Event ensures sha in ShaOf(e.payload) <==> Refers(e, sha) {}
  }

  /** The files a collection removes. */
  predicate Collectable(files: map<string, File>, live: set<string>, now: int, graceMs: int, sha: string)
    requires sha in files
  {
    sha !in live && now - files[sha].mtime >= graceMs
  }

  function Collected(files: map<string, File>, live: set<string>, now: int, graceMs: int): (r: map<string, File>) {
    map sha | sha in files && !Collectable(files, live, now, graceMs, sha) :: files[sha]
  }

  class Cas {
    const hash: string -> string
    var files: map<string, File>

    constructor (h: string -> string)
      ensures hash == h && files == map[]
    {
      hash, files := h, map[];
    }

    /** Store content under its digest; a digest already there is left as it is, `mtime` included. */
    method Put(content: string, maxBytes: nat, now: int) returns (r: Result<string, Error>)
      modifies this
      ensures r == if |content| > maxBytes then Err(PayloadTooLarge) else Ok(hash(content))
      ensures files == if r.Ok? then Stored(old(files), hash(content), content, now) else old(files)
    {
      if |content| > maxBytes {
        return Err(PayloadTooLarge);
      }
      var sha := hash(content);
      if sha in files {
        return Ok(sha);
      }
      files := files[sha := File(content, now)];
      r := Ok(sha);
    }

    method Get(sha: string) returns (r: Option<string>)
      ensures r == if sha in files then Some(files[sha].bytes) else None
    {
      r := if sha in files then Some(files[sha].bytes) else None;
    }

    /** The referenced digests; refuses when a bucket that is not acknowledged cannot be read. */
    method CollectLiveShasOrAbort(t: Refs, allow: set<Name>, unreadable: set<Name>)
      returns (r: Result<set<string>, Error>)
      ensures r.Err? <==> exists n :: n in t.buckets && n !in allow && n in unreadable
      ensures r.Err? ==> r.error.IncompleteBucketSet? && r.error.bucket in t.buckets && r.error.bucket in unreadable
      ensures r.Ok? ==> r.value == LiveShas(t, allow)
    {
      var shas := RowShas(t.live);
      shas := shas + ArchiveShas(t.archive);
      shas := shas + LetterShas(t.letters);
      ghost var tables := shas;
      var names := ListBuckets(t.buckets);
      ghost var seen: set<Name> := {};
      for i := 0 to |names|
        invariant seen == (set j | 0 <= j < i :: names[j]) - allow && seen <= t.buckets.Keys
        invariant forall j | 0 <= j < i :: names[j] in allow || names[j] !in unreadable
        invariant shas == tables + BucketShas(t.buckets, seen)
      {
        if names[i] !in allow {
          if names[i] in unreadable {
            assert names[i] in t.buckets;
            return Err(IncompleteBucketSet(names[i]));
          }
          shas := shas + RowShas(t.buckets[names[i]].rows);
          seen := seen + {names[i]};
        }
      }
      assert seen == t.buckets.Keys - allow;
      r := Ok(shas);
    }

    /** Remove what is unreferenced and past the grace window; on an incomplete bucket set remove nothing. */
    method Gc(t: Refs, allow: set<Name>, unreadable: set<Name>, now: int, graceMs: int, dryRun: bool)
      returns (r: Result<GcStats, Error>)
      modifies this
      ensures r.Err? <==> exists n :: n in t.buckets && n !in allow && n in unreadable
      ensures files == if r.Err? || dryRun then old(files) else Collected(old(files), LiveShas(t, allow), now, graceMs)
      ensures r.Ok? ==> r.value == StatsOf(old(files), LiveShas(t, allow), now, graceMs)
    {
      var live := CollectLiveShasOrAbort(t, allow, unreadable);
      if live.Err? {
        return Err(live.error);
      }
      var stats := RemoveUnreferenced(live.value, now, graceMs, dryRun);
      r := Ok(stats);
    }

    /** Walk the files once. */
    method RemoveUnreferenced(live: set<string>, now: int, graceMs: int, dryRun: bool) returns (stats: GcStats)
      modifies this
      ensures files == if dryRun then old(files) else Collected(old(files), live, now, graceMs)
      ensures stats == StatsOf(old(files), live, now, graceMs)
    {
      ghost var before := files;
      var todo, considered, deleted, skipped := files.Keys, 0, 0, 0;
      while todo != {}
        invariant todo <= before.Keys
        invariant SoFar(before, files, live, now, graceMs, dryRun, before.Keys - todo, considered, deleted, skipped)
        decreases |todo|
      {
        var sha :| sha in todo;
        NextFile(before, files, live, now, graceMs, dryRun, before.Keys - todo, considered, deleted, skipped, sha);
        assert before.Keys - (todo - {sha}) == (before.Keys - todo) + {sha};
        var removed, graced := Consider(sha, live, now, graceMs, dryRun);
        considered := considered + 1;
        deleted := deleted + if removed then 1 else 0;
        skipped := skipped + if graced then 1 else 0;
        todo := todo - {sha};
      }
      assert before.Keys - todo == before.Keys;
      AllLooked(before, files, live, now, graceMs, dryRun, considered, deleted, skipped);
      stats := GcStats(|live|, considered, deleted, skipped);
    }

    /** One file: keep what is referenced or in grace, unlink the rest. */
    method Consider(sha: string, live: set<string>, now: int, graceMs: int, dryRun: bool)
      returns (removed: bool, graced: bool)
      requires sha in files
      modifies this
      ensures removed == Collectable(old(files), live, now, graceMs, sha)
      ensures graced == (sha !in live && now - old(files)[sha].mtime < graceMs)
      ensures files == if removed && !dryRun then old(files) - {sha} else old(files)
    {
      removed, graced := false, false;
      if sha in live {
        return;
      }
      if now - files[sha].mtime < graceMs {
        graced := true;
        return;
      }
      if !dryRun {
        files := files - {sha};
      }
      removed := true;
    }
  }

  /** The files and the counters after the files of `done` have been looked at. */
  ghost predicate SoFar(before: map<string, File>, files: map<string, File>, live: set<string>, now: int, graceMs: int,
                        dryRun: bool, done: set<string>, considered: nat, deleted: nat, skipped: nat)
    requires done <= before.Keys
  {
    && files == (if dryRun then before else CollectedOf(before, live, now, graceMs, done))
    && considered == |done|
    && deleted == |Gone(before, live, now, graceMs, done)|
    && skipped == |InGrace(before, live, now, graceMs, done)|
  }

  lemma AllLooked(before: map<string, File>, files: map<string, File>, live: set<string>, now: int, graceMs: int,
                  dryRun: bool, considered: nat, deleted: nat, skipped: nat)
    requires SoFar(before, files, live, now, graceMs, dryRun, before.Keys, considered, deleted, skipped)
    ensures files == if dryRun then before else Collected(before, live, now, graceMs)
    ensures GcStats(|live|, considered, deleted, skipped) == StatsOf(before, live, now, graceMs)
  {
  }

  lemma NextFile(before: map<string, File>, files: map<string, File>, live: set<string>, now: int, graceMs: int,
                 dryRun: bool, done: set<string>, considered: nat, deleted: nat, skipped: nat, sha: string)
    requires done <= before.Keys && sha in before && sha !in done
    requires SoFar(before, files, live, now, graceMs, dryRun, done, considered, deleted, skipped)
    ensures sha in files && files[sha] == before[sha]
    ensures var removed := Collectable(before, live, now, graceMs, sha);
            var graced := sha !in live && now - before[sha].mtime < graceMs;
            SoFar(before, if removed && !dryRun then files - {sha} else files, live, now, graceMs, dryRun, done + {sha},
                  considered + 1, deleted + (if removed then 1 else 0), skipped + (if graced then 1 else 0))
  {
    OneFileMore(before, live, now, graceMs, done, sha);
    CollectedOneMore(before, live, now, graceMs, done, sha);
  }

  /** What the registry does with a payload over the size cap of its event type. */
  datatype Oversize = Strict | CasAuto | Warn

  /** Every file is stored under the digest of its bytes. */
  ghost predicate Addressed(files: map<string, File>, hash: string -> string) {
    forall sha | sha in files :: hash(files[sha].bytes) == sha
  }

  /** The size policy of `applyOnEmit`: an offloaded payload reads back as it was. */
  method ApplySizePolicy(cas: Cas, text: string, payloadMaxBytes: nat, mode: Oversize, casMaxBytes: nat, now: int)
    returns (r: Result<Payload, Error>)
    requires Addressed(cas.files, cas.hash) && HashOk(cas.hash)
    modifies cas
    ensures Addressed(cas.files, cas.hash)
    ensures |text| <= payloadMaxBytes || mode == Warn ==> r == Ok(Inline(text)) && cas.files == old(cas.files)
    ensures |text| > payloadMaxBytes && mode == Strict ==> r == Err(PayloadTooLarge) && cas.files == old(cas.files)
    ensures |text| > payloadMaxBytes && mode == CasAuto ==>
              if |text| > casMaxBytes then r == Err(PayloadTooLarge) && cas.files == old(cas.files)
              else r.Ok? && r.value.CasRef? && r.value.sha in cas.files && cas.files[r.value.sha].bytes == text
    ensures forall sha | sha in old(cas.files) :: sha in cas.files && cas.files[sha] == old(cas.files)[sha]
  {
    if |text| > payloadMaxBytes {
      match mode
      case Strict => return Err(PayloadTooLarge);
      case CasAuto =>
        var sha := cas.Put(text, casMaxBytes, now);
        if sha.Err? {
          return Err(sha.error);
        }
        return Ok(CasRef(sha.value));
      case Warn =>
    }
    r := Ok(Inline(text));
  }

  function Stored(files: map<string, File>, sha: string, content: string, now: int): (r: map<string, File>) {
    if sha in files then files else files[sha := File(content, now)]
  }

  /** The files after the given ones have been looked at. */
  function CollectedOf(files: map<string, File>, live: set<string>, now: int, graceMs: int, done: set<string>)
    : (r: map<string, File>)
  {
    map sha | sha in files && !(sha in done && Collectable(files, live, now, graceMs, sha)) :: files[sha]
  }

  lemma CollectedOneMore(files: map<string, File>, live: set<string>, now: int, graceMs: int, done: set<string>,
                         sha: string)
    requires sha in files
    ensures CollectedOf(files, live, now, graceMs, done + {sha})
         == if Collectable(files, live, now, graceMs, sha) then CollectedOf(files, live, now, graceMs, done) - {sha}
            else CollectedOf(files, live, now, graceMs, done)
  {
  }

  function Gone(files: map<string, File>, live: set<string>, now: int, graceMs: int, shas: set<string>)
    : (s: set<string>)
    requires shas <= files.Keys
  {
    set sha | sha in shas && Collectable(files, live, now, graceMs, sha)
  }

  function InGrace(files: map<string, File>, live: set<string>, now: int, graceMs: int, shas: set<string>)
    : (s: set<string>)
    requires shas <= files.Keys
  {
    set sha | sha in shas && sha !in live && now - files[sha].mtime < graceMs
  }

  function StatsOf(files: map<string, File>, live: set<string>, now: int, graceMs: int): (g: GcStats) {
    GcStats(|live|, |files|,
            |Gone(files, live, now, graceMs, files.Keys)|, |InGrace(files, live, now, graceMs, files.Keys)|)
  }

  lemma OneFileMore(files: map<string, File>, live: set<string>, now: int, graceMs: int, done: set<string>, sha: string)
    requires done <= files.Keys && sha in files && sha !in done
    ensures |done + {sha}| == |done| + 1
    ensures Gone(files, live, now, graceMs, done + {sha})
         == Gone(files, live, now, graceMs, done) + if Collectable(files, live, now, graceMs, sha) then {sha} else {}
    ensures InGrace(files, live, now, graceMs, done + {sha})
         == InGrace(files, live, now, graceMs, done)
            + if sha !in live && now - files[sha].mtime < graceMs then {sha} else {}
  {
  }

  /** Each file is referenced, in grace, or removed. */
  lemma FilesPartition(files: map<string, File>, live: set<string>, now: int, graceMs: int)
    ensures var g := StatsOf(files, live, now, graceMs);
            && g.considered == |files.Keys * live| + g.skippedInGrace + g.deleted == |files|
            && g.deleted == |files| - |Collected(files, live, now, graceMs)|
            && g.liveShas == |live|
  {
    var used, grace := files.Keys * live, InGrace(files, live, now, graceMs, files.Keys);
    var gone := Gone(files, live, now, graceMs, files.Keys);
    assert files.Keys == used + grace + gone && used !! grace && (used + grace) !! gone;
    var kept := Collected(files, live, now, graceMs);
    assert kept.Keys == used + grace;
    assert |kept| == |kept.Keys| && |files| == |files.Keys|;
  }

  // ---------------------------------------------------------------- a put and a collection

  /** A put protects its bytes from a collection only as far as their file is young, or something refers to them. */
  lemma PutSurvivesExactly(files: map<string, File>, sha: string, content: string, now: int, live: set<string>,
                           later: int, graceMs: int)
    ensures sha in Collected(Stored(files, sha, content, now), live, later, graceMs)
       <==> sha in live || later - (if sha in files then files[sha].mtime else now) < graceMs
  {
  }

  /** Put, collect, read back: the bytes are still there under exactly that condition, and they are the ones put. */
  method PutThenCollect(cas: Cas, content: string, maxBytes: nat, now: int, t: Refs, later: int, graceMs: int)
    returns (r: Option<string>)
    requires |content| <= maxBytes && Addressed(cas.files, cas.hash) && HashOk(cas.hash)
    modifies cas
    ensures var sha := cas.hash(content);
            && (r.Some? <==> sha in LiveShas(t, {})
                             || later - (if sha in old(cas.files) then old(cas.files)[sha].mtime else now) < graceMs)
            && (r.Some? ==> r.value == content)
  {
    ghost var files := cas.files;
    var sha := cas.Put(content, maxBytes, now);
    PutSurvivesExactly(files, sha.value, content, now, LiveShas(t, {}), later, graceMs);
    var _ := cas.Gc(t, {}, {}, later, graceMs, false);
    r := cas.Get(sha.value);
  }

  /** The put of an old, unreferenced file is lost to the next collection. */
  lemma PutAloneIsNotEnough(hash: string -> string, content: string, t: Refs, now: int, graceMs: int)
    requires hash(content) !in LiveShas(t, {}) && graceMs >= 0
    ensures var files := map[hash(content) := File(content, now - graceMs)];
            var put := Stored(files, hash(content), content, now);
            hash(content) in put && hash(content) !in Collected(put, LiveShas(t, {}), now, graceMs)
  {
  }

  // ---------------------------------------------------------------- runs

  /** `emitted` holds every event as it was emitted, and `origin` the bytes it was emitted with. */
  datatype State = State(
    t: Refs,
    files: map<string, File>,
    nextId: nat,
    emitted: set<Event>,
    origin: map<nat, string>)

  datatype Act =
    | EmitInline(e: Event)
    | EmitOffloaded(e: Event, content: string, now: int)      // put, then insert: one step with respect to collection
    | Keep(live: seq<Event>, archived: set<Event>)            // a sweep: rows leave, some into events_archive
    | CopyToBucket(n: Name, rows: seq<Event>)                 // rows a tiered pass has in memory
    | Letter(d: nat, e: Event)                                // an event a subscriber has in memory
    | RemoveLetter(d: nat)                                    // replayed with success, or dropped
    | Collect(unreadable: set<Name>, now: int, graceMs: int)

  /** Some table or bucket holds the row. */
  ghost predicate Held(t: Refs, e: Event) {
    || e in t.live
    || (exists id | id in t.archive :: t.archive[id] == e)
    || exists n | n in t.buckets :: e in t.buckets[n].rows
  }

  ghost predicate Enabled(s: State, a: Act, hash: string -> string) {
    match a
    case EmitInline(e) => e.id == s.nextId && e.payload.Inline?
    case EmitOffloaded(e, content, _) => e.id == s.nextId && e.payload == CasRef(hash(content))
    case Keep(live, archived) =>
      && (forall e | e in live :: e in s.t.live) && (forall e | e in archived :: e in s.t.live)
      && (forall x, y | x in archived && y in archived && x.id == y.id :: x == y)
    case CopyToBucket(n, rows) => forall e | e in rows :: e in s.emitted
    case Letter(d, e) => d !in s.t.letters && e in s.emitted
    case RemoveLetter(d) => d in s.t.letters
    case Collect(_, _, _) => true
  }

  function BucketAt(t: Refs, n: Name): (b: Bucket) {
    if n in t.buckets then t.buckets[n] else NEW_FILE.(schema := Complete)
  }

  /** The rows a copy adds to its bucket. */
  function NewRows(t: Refs, n: Name, rows: seq<Event>): (r: seq<Event>) {
    Where(rows, (e: Event) => e.id !in Ids(BucketAt(t, n).rows))
  }

  ghost function Step(s: State, a: Act, hash: string -> string): (r: State)
    requires Enabled(s, a, hash)
  {
    match a
    case EmitInline(e) =>
      s.(t := s.t.(live := s.t.live + [e]), nextId := s.nextId + 1, emitted := s.emitted + {e})
    case EmitOffloaded(e, content, now) =>
      State(s.t.(live := s.t.live + [e]), Stored(s.files, hash(content), content, now), s.nextId + 1,
            s.emitted + {e}, s.origin[e.id := content])
    case Keep(live, archived) =>
      s.(t := s.t.(live := live, archive := Sweep.InsertOrIgnore(s.t.archive, archived)))
    case CopyToBucket(n, rows) =>
      var b := BucketAt(s.t, n);
      s.(t := s.t.(buckets := s.t.buckets[n := b.(rows := b.rows + NewRows(s.t, n, rows))]))
    case Letter(d, e) => s.(t := s.t.(letters := s.t.letters[d := e]))
    case RemoveLetter(d) => s.(t := s.t.(letters := s.t.letters - {d}))
    case Collect(unreadable, now, graceMs) =>
      if s.t.buckets.Keys !! unreadable then s.(files := Collected(s.files, LiveShas(s.t, {}), now, graceMs)) else s
  }

  /** The collection of a run is the collection of the store. */
  method CollectIsGc(cas: Cas, ghost s: State, t: Refs, unreadable: set<Name>, now: int, graceMs: int)
    requires cas.files == s.files && t == s.t
    modifies cas
    ensures Step(s, Collect(unreadable, now, graceMs), cas.hash) == s.(files := cas.files)
  {
    var r := cas.Gc(t, {}, unreadable, now, graceMs, false);
  }

  /** And the put of a run, before the event that refers to it is inserted, is its put. */
  method PutIsEmit(cas: Cas, ghost s: State, e: Event, content: string, now: int) returns (sha: string)
    requires cas.files == s.files && e.id == s.nextId && e.payload == CasRef(cas.hash(content))
    modifies cas
    ensures e.payload == CasRef(sha) && Step(s, EmitOffloaded(e, content, now), cas.hash).files == cas.files
  {
    var r := cas.Put(content, |content|, now);
    sha := r.value;
  }

  /** A table, a bucket or a dead letter refers to the event. */
  ghost predicate Referenced(t: Refs, e: Event) {
    Held(t, e) || exists d | d in t.letters :: t.letters[d] == e
  }

  /** The bytes of the event are in the store, if that is where they were put. */
  predicate InStore(s: State, e: Event) {
    e.payload.Inline? || e.payload.sha in s.files
  }

  /** Every reference reads back the exact bytes its event was emitted with. */
  ghost predicate AllResolve(s: State) {
    forall e | Referenced(s.t, e) && e.payload.CasRef? ::
      e.payload.sha in s.files && e.id in s.origin && s.files[e.payload.sha].bytes == s.origin[e.id]
  }

  /** Rows written from memory, not from a table, are written while their bytes are in the store. */
  predicate InTime(s: State, a: Act) {
    match a
    case Letter(_, e) => InStore(s, e)
    case CopyToBucket(n, rows) => forall e | e in NewRows(s.t, n, rows) :: InStore(s, e)
    case _ => true
  }

  /** What holds of every run: files are under their digests, and references are digests of what was emitted. */
  ghost predicate Inv(s: State, hash: string -> string) {
    && Addressed(s.files, hash)
    && (forall e | Referenced(s.t, e) :: e in s.emitted)
    && (forall e | e in s.emitted :: e.id < s.nextId && (e.payload.CasRef? ==> IsDigest(s, hash, e)))
    && (forall id | id in s.origin :: id < s.nextId)
  }

  ghost predicate IsDigest(s: State, hash: string -> string, e: Event)
    requires e.payload.CasRef?
  {
    e.id in s.origin && e.payload.sha == hash(s.origin[e.id])
  }

  /** So a reference resolves exactly when its file is there. */
  lemma ResolvesIfStored(s: State, hash: string -> string)
    requires HashOk(hash) && Inv(s, hash)
    ensures AllResolve(s) <==> forall e | Referenced(s.t, e) :: InStore(s, e)
  {
    forall e | Referenced(s.t, e) && e.payload.CasRef? && InStore(s, e)
      ensures e.id in s.origin && s.files[e.payload.sha].bytes == s.origin[e.id]
    {
      assert e in s.emitted && IsDigest(s, hash, e);
    }
  }

  lemma ReferencedIsLive(t: Refs, e: Event)
    requires Referenced(t, e) && e.payload.CasRef? && e.payload.sha != ""
    ensures e.payload.sha in LiveShas(t, {})
  {
    var sha := e.payload.sha;
    assert sha in ShaOf(e.payload);
    if e in t.live {
      assert sha in RowShas(t.live);
    } else if id :| id in t.archive && t.archive[id] == e {
      assert sha in ArchiveShas(t.archive);
    } else if n :| n in t.buckets && e in t.buckets[n].rows {
      assert sha in BucketShas(t.buckets, t.buckets.Keys - {});
    } else {
      var d :| d in t.letters && t.letters[d] == e;
      assert sha in LetterShas(t.letters);
    }
  }

  /** A collection takes no file that something refers to. */
  lemma CollectSpares(s: State, a: Act, hash: string -> string, e: Event)
    requires HashOk(hash) && Inv(s, hash) && a.Collect? && Enabled(s, a, hash) && Referenced(s.t, e) && InStore(s, e)
    ensures InStore(Step(s, a, hash), e)
  {
    if e.payload.CasRef? {
      assert e in s.emitted && IsDigest(s, hash, e);
      ReferencedIsLive(s.t, e);
    }
  }

  /** Which rows are referenced after a step: those referenced before, the one just emitted, and those just written. */
  lemma ReferencedAfter(s: State, a: Act, hash: string -> string, e: Event)
    requires Enabled(s, a, hash) && Referenced(Step(s, a, hash).t, e)
    ensures Referenced(s.t, e) || ((a.EmitInline? || a.EmitOffloaded?) && e == a.e) || Written(s, a, e)
  {
    var r := Step(s, a, hash);
    match a
    case EmitInline(_) =>
    case EmitOffloaded(_, _, _) =>
    case Keep(live, archived) =>
      if id :| id in r.t.archive && r.t.archive[id] == e {
        if id in s.t.archive {
          assert s.t.archive[id] == e;
        } else {
          var x :| x in archived && x.id == id;
          assert r.t.archive[x.id] == x;
        }
      }
    case CopyToBucket(n, rows) =>
      if m :| m in r.t.buckets && e in r.t.buckets[m].rows {
        assert (m in s.t.buckets && e in s.t.buckets[m].rows) || e in NewRows(s.t, n, rows);
      }
    case Letter(d, x) =>
      if k :| k in r.t.letters && r.t.letters[k] == e {
        assert k != d ==> s.t.letters[k] == e;
      }
    case RemoveLetter(d) =>
      if k :| k in r.t.letters && r.t.letters[k] == e { assert s.t.letters[k] == e; }
    case Collect(_, _, _) =>
  }

  /** A row the step writes from memory. */
  predicate Written(s: State, a: Act, e: Event) {
    match a
    case Letter(_, x) => e == x
    case CopyToBucket(n, rows) => e in NewRows(s.t, n, rows)
    case _ => false
  }

  /**
   What is referenced after an emit, a letter or the end of a letter: the emitted row or the letter's event comes
   in addition, and with a letter goes what only it referred to.
   */
  lemma ReferencedExactly(s: State, a: Act, hash: string -> string, e: Event)
    requires Enabled(s, a, hash) && (a.EmitInline? || a.EmitOffloaded? || a.Letter? || a.RemoveLetter?)
    ensures Referenced(Step(s, a, hash).t, e) <==>
            if a.RemoveLetter? then Held(s.t, e) || exists d | d in s.t.letters && d != a.d :: s.t.letters[d] == e
            else Referenced(s.t, e) || e == a.e
  {
    var t := Step(s, a, hash).t;
    if a.Letter? && e == a.e { assert t.letters[a.d] == e; }
    if a.Letter? && exists d | d in s.t.letters :: s.t.letters[d] == e {
      var d :| d in s.t.letters && s.t.letters[d] == e;
      assert t.letters[d] == e;
    }
    if a.RemoveLetter? && exists d | d in s.t.letters && d != a.d :: s.t.letters[d] == e {
      var d :| d in s.t.letters && d != a.d && s.t.letters[d] == e;
      assert t.letters[d] == e;
    }
    assert Held(t, e) <==> Held(s.t, e) || ((a.EmitInline? || a.EmitOffloaded?) && e == a.e);
  }

  lemma WrittenIsReferenced(s: State, a: Act, hash: string -> string, e: Event)
    requires Enabled(s, a, hash) && Written(s, a, e)
    ensures Referenced(Step(s, a, hash).t, e) && e in s.emitted
  {
    var r := Step(s, a, hash);
    match a
    case Letter(d, x) => assert d in r.t.letters && r.t.letters[d] == e;
    case CopyToBucket(n, rows) => assert n in r.t.buckets && e in r.t.buckets[n].rows;
  }

  lemma StepKeeps(s: State, a: Act, hash: string -> string)
    requires HashOk(hash) && Inv(s, hash) && Enabled(s, a, hash)
    ensures Inv(Step(s, a, hash), hash)
  {
    var r := Step(s, a, hash);
    forall e | Referenced(r.t, e) ensures e in r.emitted {
      ReferencedAfter(s, a, hash, e);
      if Written(s, a, e) { WrittenIsReferenced(s, a, hash, e); }
    }
    forall e | e in r.emitted ensures e.id < r.nextId && (e.payload.CasRef? ==> IsDigest(r, hash, e)) {
      if e in s.emitted { assert e.payload.CasRef? ==> IsDigest(s, hash, e); }
    }
  }

  /** A step keeps every reference good exactly when what it writes from memory is in the store. */
  lemma StepKeepsExactly(s: State, a: Act, hash: string -> string)
    requires HashOk(hash) && Inv(s, hash) && AllResolve(s) && Enabled(s, a, hash)
    ensures AllResolve(Step(s, a, hash)) <==> InTime(s, a)
  {
    var r := Step(s, a, hash);
    StepKeeps(s, a, hash);
    ResolvesIfStored(s, hash);
    ResolvesIfStored(r, hash);
    if InTime(s, a) {
      forall e | Referenced(r.t, e) ensures InStore(r, e) { StaysInStore(s, a, hash, e); }
    } else {
      LateIsMissing(s, a, hash);
    }
  }

  lemma StaysInStore(s: State, a: Act, hash: string -> string, e: Event)
    requires HashOk(hash) && Inv(s, hash) && Enabled(s, a, hash) && InTime(s, a)
    requires (forall x | Referenced(s.t, x) :: InStore(s, x)) && Referenced(Step(s, a, hash).t, e)
    ensures InStore(Step(s, a, hash), e)
  {
    ReferencedAfter(s, a, hash, e);
    if a.Collect? { CollectSpares(s, a, hash, e); }
  }

  lemma LateIsMissing(s: State, a: Act, hash: string -> string)
    requires Enabled(s, a, hash) && !InTime(s, a)
    ensures exists e :: Referenced(Step(s, a, hash).t, e) && !InStore(Step(s, a, hash), e)
  {
    var e := if a.Letter? then a.e else LateRow(s, a);
    WrittenIsReferenced(s, a, hash, e);
  }

  ghost function LateRow(s: State, a: Act): (e: Event)
    requires a.CopyToBucket? && !InTime(s, a)
    ensures Written(s, a, e) && !InStore(s, e)
  {
    var e :| e in NewRows(s.t, a.n, a.rows) && !InStore(s, e);
    e
  }

  ghost predicate CanRun(s: State, acts: seq<Act>, hash: string -> string)
    decreases |acts|, 0
  {
    acts == [] ||
    var k := |acts| - 1;
    CanRun(s, acts[..k], hash) && Enabled(After(s, acts[..k], hash), acts[k], hash)
  }

  ghost function After(s: State, acts: seq<Act>, hash: string -> string): (r: State)
    requires CanRun(s, acts, hash)
    decreases |acts|, 1
  {
    if acts == [] then s else Step(After(s, acts[..|acts| - 1], hash), acts[|acts| - 1], hash)
  }

  function Empty(): State {
    State(Refs([], map[], map[], map[]), map[], 1, {}, map[])
  }

  lemma {:induction false} RunKeeps(acts: seq<Act>, hash: string -> string)
    requires HashOk(hash) && CanRun(Empty(), acts, hash)
    ensures Inv(After(Empty(), acts, hash), hash)
    decreases |acts|
  {
    if acts == [] {
      forall e ensures !Referenced(Empty().t, e) {}
    } else {
      RunKeeps(acts[..|acts| - 1], hash);
      StepKeeps(After(Empty(), acts[..|acts| - 1], hash), acts[|acts| - 1], hash);
    }
  }

  /** At every moment of the run, every reference reads back what its event was emitted with. */
  ghost predicate AlwaysResolve(acts: seq<Act>, hash: string -> string)
    requires CanRun(Empty(), acts, hash)
    decreases |acts|
  {
    AllResolve(After(Empty(), acts, hash)) && (acts == [] || AlwaysResolve(acts[..|acts| - 1], hash))
  }

  /** Every dead letter and every copy to a bucket was written while its bytes were in the store. */
  ghost predicate AllInTime(acts: seq<Act>, hash: string -> string)
    requires CanRun(Empty(), acts, hash)
    decreases |acts|
  {
    acts == [] ||
    var k := |acts| - 1;
    AllInTime(acts[..k], hash) && InTime(After(Empty(), acts[..k], hash), acts[k])
  }

  /**
   Over any run of emits, sweeps, moves, dead letters, replays, drops and collections: every reference that
   a table, a bucket or a dead letter holds reads back, at every moment, the exact bytes its event was
   emitted with, if and only if what was written from memory was written in time.
   */
  lemma {:induction false} ReferencesResolve(acts: seq<Act>, hash: string -> string)
    requires HashOk(hash) && CanRun(Empty(), acts, hash)
    ensures AlwaysResolve(acts, hash) <==> AllInTime(acts, hash)
    decreases |acts|
  {
    if acts == [] {
      forall e ensures !Referenced(Empty().t, e) {}
    } else {
      var k := |acts| - 1;
      var before := After(Empty(), acts[..k], hash);
      ReferencesResolve(acts[..k], hash);
      RunKeeps(acts[..k], hash);
      assert AlwaysResolve(acts[..k], hash) ==> AllResolve(before);
      if AllResolve(before) { StepKeepsExactly(before, acts[k], hash); }
    }
  }

  /** What a table or a bucket still holds can be written in time: under 'retain', an owed event inside the cap. */
  lemma HeldIsInTime(s: State, hash: string -> string, e: Event)
    requires HashOk(hash) && Inv(s, hash) && AllResolve(s) && Held(s.t, e)
    ensures InStore(s, e)
  {
    assert Referenced(s.t, e);
  }

  /**
   The run that fails: a subscriber holds the event in memory, the row is swept, the collector takes the
   old file, and the handler throws.
   */
  lemma DanglingLetter(e: Event, content: string, now: int, later: int, graceMs: int, hash: string -> string)
    requires e.id == 1 && e.payload == CasRef(hash(content)) && later - now >= graceMs
    ensures var acts := [EmitOffloaded(e, content, now), Keep([], {}), Collect({}, later, graceMs), Letter(1, e)];
            && CanRun(Empty(), acts, hash)
            && Referenced(After(Empty(), acts, hash).t, e) && !InStore(After(Empty(), acts, hash), e)
  {
    var a, b, c, d := EmitOffloaded(e, content, now), Keep([], {}), Collect({}, later, graceMs), Letter(1, e);
    OneStep(Empty(), [], a, hash);
    assert [] + [a] == [a] && [a] + [b] == [a, b] && [a, b] + [c] == [a, b, c] && [a, b, c] + [d] == [a, b, c, d];
    OneStep(Empty(), [a], b, hash);
    OneStep(Empty(), [a, b], c, hash);
    SweptAndCollected(e, content, now, later, graceMs, hash);
    OneStep(Empty(), [a, b, c], d, hash);
    WrittenIsReferenced(After(Empty(), [a, b, c], hash), d, hash, e);
  }

  lemma SweptAndCollected(e: Event, content: string, now: int, later: int, graceMs: int, hash: string -> string)
    requires e.id == 1 && e.payload == CasRef(hash(content)) && later - now >= graceMs
    ensures var s1 := Step(Empty(), EmitOffloaded(e, content, now), hash);
            var s3 := Step(Step(s1, Keep([], {}), hash), Collect({}, later, graceMs), hash);
            s3.emitted == {e} && s3.t.letters == map[] && !InStore(s3, e)
  {
    var s1 := Step(Empty(), EmitOffloaded(e, content, now), hash);
    var s2 := Step(s1, Keep([], {}), hash);
    assert s2.t.archive == map[] && LiveShas(s2.t, {}) == {};
  }

  lemma OneStep(s: State, acts: seq<Act>, a: Act, hash: string -> string)
    requires CanRun(s, acts, hash) && Enabled(After(s, acts, hash), a, hash)
    ensures CanRun(s, acts + [a], hash) && After(s, acts + [a], hash) == Step(After(s, acts, hash), a, hash)
  {
    assert (acts + [a])[..|acts|] == acts;
  }
}
