/**
 The cross-tier resolver (lib/query.js): a poll that spills from the live table into the warm buckets.
 */
module Query {
  import opened Wrappers
  import opened Events
  import opened Archive
  import opened SweepV2

  /** Equality conditions; an empty string is no condition. */
  datatype Filter = Filter(etype: string, domain: string, subdomain: string)

  datatype Error =
    | InvalidInput                               // WB-001
    | BehindWindow(lastEventId: int, oldest: nat)   // WB-003
    | SpillBucketUnavailable(name: Name)            // WB-013

  /** Bucket files whose `_meta` cannot be read, or that cannot be attached, though their tables are there. */
  datatype Files = Files(badMeta: set<Name>, badAttach: set<Name>)

  /** Attaching the bucket or selecting from its `events` throws. */
  predicate Unavailable(buckets: map<Name, Bucket>, files: Files, n: Name)
    requires n in buckets
  {
    buckets[n].schema.NoTables? || n in files.badAttach
  }

  const ATTACH_CEILING: nat := 123

  predicate Matches(f: Filter, e: Event) {
    && (f.etype != "" ==> e.etype == f.etype)
    && (f.domain != "" ==> e.domain == f.domain)
    && (f.subdomain != "" ==> e.subdomain == f.subdomain)
  }

  function Matching(f: Filter): Event -> bool {
    (e: Event) => Matches(f, e)
  }

  function Wanted(f: Filter, last: int): Event -> bool {
    (e: Event) => e.id > last && Matches(f, e)
  }

  // ---------------------------------------------------------------- sorting and merging

  ghost predicate UniqueIds(rows: set<Event>) {
    forall a, b | a in rows && b in rows && a.id == b.id :: a == b
  }

  ghost function LastOf(rows: set<Event>): (e: Event)
    requires rows != {}
    ensures e in rows && forall x | x in rows :: x.id <= e.id
  {
    var x :| x in rows;
    if rows == {x} then x
    else
      var y := LastOf(rows - {x});
      assert rows == (rows - {x}) + {x};
      if x.id < y.id then y else x
  }

  /** The rows in id order. */
  ghost function Sorted(rows: set<Event>): (r: seq<Event>)
    requires UniqueIds(rows)
    ensures Ascending(r) && forall e :: e in r <==> e in rows
  {
    if rows == {} then []
    else
      var e := LastOf(rows);
      var before := Sorted(rows - {e});
      assert forall x | x in before :: x.id < e.id;
      before + [e]
  }

  /** `map.set(row.event_id, row)` for each row in turn: the last one wins. */
  function PutAll(m: map<nat, Event>, rows: seq<Event>): (r: map<nat, Event>)
    requires forall id | id in m :: m[id].id == id
    ensures forall id | id in r :: r[id].id == id
  {
    if rows == [] then m else PutAll(m, rows[..|rows| - 1])[rows[|rows| - 1].id := rows[|rows| - 1]]
  }

  function Merged(warm: seq<Event>, live: seq<Event>): (r: map<nat, Event>)
    ensures forall id | id in r :: r[id].id == id
  {
    PutAll(PutAll(map[], warm), live)
  }

  ghost function RowsOf(m: map<nat, Event>): (r: set<Event>)
    requires forall id | id in m :: m[id].id == id
    ensures UniqueIds(r)
  {
    set id | id in m :: m[id]
  }

  lemma {:induction false} PutAllIs(m: map<nat, Event>, rows: seq<Event>)
    requires forall id | id in m :: m[id].id == id
    ensures var r := PutAll(m, rows);
            && r.Keys == m.Keys + Ids(rows)
            && (forall id | id in Ids(rows) :: r[id] in rows)
            && (forall id | id in m && id !in Ids(rows) :: r[id] == m[id])
    decreases |rows|
  {
    if rows != [] {
      var k := |rows| - 1;
      PutAllIs(m, rows[..k]);
      assert forall e :: e in rows <==> e in rows[..k] || e == rows[k];
      assert Ids(rows) == Ids(rows[..k]) + {rows[k].id};
    }
  }

  /** No later row of the list has the same id. */
  ghost predicate LastCopy(rows: seq<Event>, i: int) {
    0 <= i < |rows| && forall j | i < j < |rows| :: rows[j].id != rows[i].id
  }

  /** The last row put for an id is the one kept. */
  lemma {:induction false} LastCopyWins(m: map<nat, Event>, rows: seq<Event>, i: nat)
    requires (forall id | id in m :: m[id].id == id) && LastCopy(rows, i)
    ensures rows[i].id in PutAll(m, rows) && PutAll(m, rows)[rows[i].id] == rows[i]
    decreases |rows|
  {
    var k := |rows| - 1;
    if i < k {
      assert LastCopy(rows[..k], i);
      LastCopyWins(m, rows[..k], i);
    }
  }

  lemma MergedPrefersLive(warm: seq<Event>, live: seq<Event>)
    ensures var m := Merged(warm, live);
            && m.Keys == Ids(warm) + Ids(live)
            && (forall id | id in Ids(live) :: m[id] in live)
            && (forall id | id in Ids(warm) - Ids(live) :: m[id] in warm)
  {
    PutAllIs(map[], warm);
    PutAllIs(PutAll(map[], warm), live);
  }

  /** One row per id of either list: a live row where there is one. */
  method DedupePreferLive(warm: seq<Event>, live: seq<Event>) returns (m: map<nat, Event>)
    ensures m.Keys == Ids(warm) + Ids(live)
    ensures forall id | id in Ids(live) :: m[id] in live && m[id].id == id
    ensures forall id | id in Ids(warm) - Ids(live) :: m[id] in warm && m[id].id == id
    ensures m == Merged(warm, live)
  {
    m := map[];
    for i := 0 to |warm|
      invariant m == PutAll(map[], warm[..i])
    {
      assert warm[..i + 1][..i] == warm[..i];
      m := m[warm[i].id := warm[i]];
    }
    assert warm[..|warm|] == warm;
    for i := 0 to |live|
      invariant m == PutAll(PutAll(map[], warm), live[..i])
    {
      assert live[..i + 1][..i] == live[..i];
      m := m[live[i].id := live[i]];
    }
    assert live[..|live|] == live;
    MergedPrefersLive(warm, live);
  }

  /** `rows.sort((a, b) => a.event_id - b.event_id)`. */
  method SortRows(m: map<nat, Event>) returns (rows: seq<Event>)
    requires forall id | id in m :: m[id].id == id
    ensures rows == Sorted(RowsOf(m))
  {
    rows := [];
    var todo := m.Keys;
    while todo != {}
      invariant todo <= m.Keys && Ascending(rows)
      invariant forall e :: e in rows <==> e in RowsOf(m) && e.id !in todo
      invariant forall e, id | e in rows && id in todo :: e.id < id
    {
      var least := Least(todo);
      NextRow(m, todo, rows, least);
      rows, todo := rows + [m[least]], todo - {least};
    }
    SameRows(rows, Sorted(RowsOf(m)));
  }

  lemma NextRow(m: map<nat, Event>, todo: set<nat>, rows: seq<Event>, least: nat)
    requires (forall id | id in m :: m[id].id == id) && todo <= m.Keys && Ascending(rows)
    requires least in todo && forall id | id in todo :: least <= id
    requires forall e :: e in rows <==> e in RowsOf(m) && e.id !in todo
    requires forall e, id | e in rows && id in todo :: e.id < id
    ensures Ascending(rows + [m[least]])
    ensures forall e :: e in rows + [m[least]] <==> e in RowsOf(m) && e.id !in todo - {least}
  {
    assert m[least] in RowsOf(m);
    assert forall i | 0 <= i < |rows| :: rows[i] in rows;
  }

  method Least(ids: set<nat>) returns (least: nat)
    requires ids != {}
    ensures least in ids && forall x | x in ids :: least <= x
  {
    least :| least in ids;
    var todo := ids - {least};
    while todo != {}
      invariant todo <= ids && least in ids
      invariant forall x | x in ids && x !in todo :: least <= x
    {
      var x :| x in todo;
      if x < least {
        least := x;
      }
      todo := todo - {x};
    }
  }

  // ---------------------------------------------------------------- the resolver

  /** One more bucket, with what room is left; a full batch stops the reading. */
  function ReadMore(buckets: map<Name, Bucket>, files: Files, warm: seq<Event>, n: Name, last: int, f: Filter,
                    batch: nat)
    : (r: Result<seq<Event>, Error>)
    requires n in buckets
  {
    if |warm| >= batch then Ok(warm)
    else if Unavailable(buckets, files, n) then Err(SpillBucketUnavailable(n))
    else Ok(warm + Limit(Where(buckets[n].rows, Wanted(f, last)), batch - |warm|))
  }

  /** Rows of the buckets in order. */
  function Collect(buckets: map<Name, Bucket>, files: Files, read: seq<Name>, last: int, f: Filter, batch: nat)
    : (r: Result<seq<Event>, Error>)
    requires forall n | n in read :: n in buckets
    decreases |read|
  {
    if read == [] then Ok([])
    else
      var k := |read| - 1;
      match Collect(buckets, files, read[..k], last, f, batch)
      case Err(e) => Err(e)
      case Ok(warm) => ReadMore(buckets, files, warm, read[k], last, f, batch)
  }

  function GapEnd(live: seq<Event>, f: Filter): (id: int) {
    var m := Where(live, Matching(f));
    if m == [] then MAX_SAFE_INTEGER else m[0].id - 1
  }

  /** The listing of the buckets that meet the gap below the live table. */
  ghost predicate IsCovering(covering: seq<Name>, s: Store, files: Files, last: int, f: Filter) {
    && (forall n :: n in covering <==>
          n in s.buckets
          && (Unreadable(s.buckets, files.badMeta, n) || Covers(s.buckets[n], last, GapEnd(s.live, f))))
    && (forall i, j | 0 <= i < j < |covering| :: Before(covering[i], covering[j]))
  }

  function AtMost(names: seq<Name>, n: nat): (r: seq<Name>)
    ensures r <= names
  {
    if |names| <= n then names else names[..n]
  }

  ghost function Combine(s: Store, warm: seq<Event>, last: int, f: Filter, batch: nat): (rows: seq<Event>) {
    Limit(Sorted(RowsOf(Merged(warm, FilledFrom(s.live, |warm|, last, f, batch)))), batch)
  }

  function FilledFrom(live: seq<Event>, warmCount: nat, last: int, f: Filter, batch: nat): (rows: seq<Event>) {
    if warmCount < batch then Limit(Where(live, Wanted(f, last)), batch) else []
  }

  /** What a poll answers, given the listing of the covering buckets. */
  ghost function Resolved(s: Store, files: Files, last: int, f: Filter, batch: nat, covering: seq<Name>)
    : (r: Result<seq<Event>, Error>)
    requires IsCovering(covering, s, files, last, f)
  {
    var m := Where(s.live, Matching(f));
    if last < 0 then Err(InvalidInput)
    else if m != [] && last >= m[0].id then Ok(Limit(Where(s.live, Wanted(f, last)), batch))
    else if covering == [] && m == [] then Ok([])
    else if covering == [] && last + 1 < m[0].id then Err(BehindWindow(last, m[0].id))
    else
      match Collect(s.buckets, files, AtMost(covering, ATTACH_CEILING), last, f, batch)
      case Err(e) => Err(e)
      case Ok(warm) => Ok(Combine(s, warm, last, f, batch))
  }

  method PollResolve(s: Store, files: Files, lastEventId: int, f: Filter, batchSize: nat)
    returns (r: Result<seq<Event>, Error>)
    ensures exists covering :: IsCovering(covering, s, files, lastEventId, f)
                               && r == Resolved(s, files, lastEventId, f, batchSize, covering)
  {
    var m := Where(s.live, Matching(f));
    var gapEnd := if m == [] then MAX_SAFE_INTEGER else m[0].id - 1;
    var covering := BucketsCoveringRange(s.buckets, files.badMeta, lastEventId, gapEnd);
    assert IsCovering(covering, s, files, lastEventId, f);
    if lastEventId < 0 {
      return Err(InvalidInput);
    }
    if m != [] && lastEventId >= m[0].id {
      return Ok(Limit(Where(s.live, Wanted(f, lastEventId)), batchSize));
    }
    if |covering| == 0 && m == [] {
      return Ok([]);
    }
    if |covering| == 0 && lastEventId + 1 < m[0].id {
      return Err(BehindWindow(lastEventId, m[0].id));
    }
    var warm := ReadBuckets(s.buckets, files, AtMost(covering, ATTACH_CEILING), lastEventId, f, batchSize);
    if warm.Err? {
      return warm;
    }
    var rows := CombineRows(s, warm.value, lastEventId, f, batchSize);
    r := Ok(rows);
  }

  method Cut(sorted: seq<Event>, batch: nat) returns (rows: seq<Event>)
    ensures rows == Limit(sorted, batch)
  {
    rows := sorted;
    if |rows| > batch {
      rows := rows[..batch];
    }
  }

  /** The live rows a spill adds: none when the warm rows fill the batch, else over-fetched for the duplicates. */
  method LiveRows(live: seq<Event>, warmCount: nat, last: int, f: Filter, batch: nat) returns (rows: seq<Event>)
    ensures rows == FilledFrom(live, warmCount, last, f, batch)
  {
    var liveRoom := batch as int - warmCount;
    rows := [];
    if liveRoom > 0 {
      rows := Limit(Where(live, Wanted(f, last)), liveRoom + warmCount);
    }
  }

  /** Add live rows when there is room, drop duplicates, sort, and only then cut. */
  method CombineRows(s: Store, warm: seq<Event>, last: int, f: Filter, batch: nat) returns (rows: seq<Event>)
    ensures rows == Combine(s, warm, last, f, batch)
  {
    var live := LiveRows(s.live, |warm|, last, f, batch);
    var byId := DedupePreferLive(warm, live);
    var sorted := SortRows(byId);
    rows := Cut(sorted, batch);
  }

  /** Attach one bucket, read what room is left from it, and detach. */
  method ReadBucket(buckets: map<Name, Bucket>, files: Files, warm: seq<Event>, n: Name,
                    last: int, f: Filter, batch: nat)
    returns (r: Result<seq<Event>, Error>)
    requires n in buckets && |warm| < batch
    ensures r == ReadMore(buckets, files, warm, n, last, f, batch)
  {
    if Unavailable(buckets, files, n) {
      return Err(SpillBucketUnavailable(n));
    }
    var rows := Limit(Where(buckets[n].rows, Wanted(f, last)), batch - |warm|);
    r := Ok(warm + rows);
  }

  method ReadBuckets(buckets: map<Name, Bucket>, files: Files, read: seq<Name>, last: int, f: Filter, batch: nat)
    returns (r: Result<seq<Event>, Error>)
    requires forall n | n in read :: n in buckets
    ensures r == Collect(buckets, files, read, last, f, batch)
  {
    var warm := [];
    for i := 0 to |read|
      invariant Collect(buckets, files, read[..i], last, f, batch) == Ok(warm)
    {
      CollectNext(buckets, files, read, i, last, f, batch);
      if |warm| >= batch {
        FullStops(buckets, files, read, i, last, f, batch);
        return Ok(warm);
      }
      var more := ReadBucket(buckets, files, warm, read[i], last, f, batch);
      if more.Err? {
        ErrStops(buckets, files, read, i + 1, last, f, batch);
        return more;
      }
      warm := more.value;
    }
    assert read[..|read|] == read;
    r := Ok(warm);
  }

  lemma CollectNext(buckets: map<Name, Bucket>, files: Files, read: seq<Name>, i: nat,
                    last: int, f: Filter, batch: nat)
    requires (forall n | n in read :: n in buckets) && i < |read|
    requires Collect(buckets, files, read[..i], last, f, batch).Ok?
    ensures var warm := Collect(buckets, files, read[..i], last, f, batch).value;
            Collect(buckets, files, read[..i + 1], last, f, batch)
              == ReadMore(buckets, files, warm, read[i], last, f, batch)
  {
    assert read[..i + 1][..i] == read[..i];
  }

  lemma {:induction false} FullStops(buckets: map<Name, Bucket>, files: Files, read: seq<Name>, k: nat,
                                     last: int, f: Filter, batch: nat)
    requires (forall n | n in read :: n in buckets) && k <= |read|
    requires var r := Collect(buckets, files, read[..k], last, f, batch); r.Ok? && |r.value| >= batch
    ensures Collect(buckets, files, read, last, f, batch) == Collect(buckets, files, read[..k], last, f, batch)
    decreases |read| - k
  {
    if k == |read| {
      assert read[..k] == read;
    } else {
      assert read[..k + 1][..k] == read[..k];
      FullStops(buckets, files, read, k + 1, last, f, batch);
    }
  }

  lemma {:induction false} ErrStops(buckets: map<Name, Bucket>, files: Files, read: seq<Name>, k: nat,
                                    last: int, f: Filter, batch: nat)
    requires (forall n | n in read :: n in buckets) && k <= |read|
    requires Collect(buckets, files, read[..k], last, f, batch).Err?
    ensures Collect(buckets, files, read, last, f, batch) == Collect(buckets, files, read[..k], last, f, batch)
    decreases |read| - k
  {
    if k == |read| {
      assert read[..k] == read;
    } else {
      assert read[..k + 1][..k] == read[..k];
      ErrStops(buckets, files, read, k + 1, last, f, batch);
    }
  }
}
