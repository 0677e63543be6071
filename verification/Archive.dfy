/**
 The warm tier (lib/archive.js): monthly bucket files beside the live table.

 A `Store` is a snapshot of both tiers.  A `Commit` is one statement or transaction of the tiered
 sweep that reaches the disk; the process may crash between any two of them.
 */
module Archive {
  import opened Wrappers
  import opened Events

  /** `bus-YYYY-MM[suffix].db`: suffix 0 is the bare name, 1 to 26 are the letters a to z. */
  datatype Name = Name(month: int, suffix: nat)

  /** File-name order: the bare name of a month sorts before its lettered ones. */
  predicate Before(a: Name, b: Name) {
    a.month < b.month || (a.month == b.month && a.suffix < b.suffix)
  }

  /**
   How far `createBucket` got: each table is made by a statement of its own, and a file left without one of
   them is never completed.
   */
  datatype Schema = NoTables | EventsOnly | Complete

  /** One bucket file: its tables, its rows, and what `_meta` records. */
  datatype Bucket = Bucket(schema: Schema, rows: seq<Event>, minId: Option<nat>, maxId: Option<nat>, sealed: bool)

  const NEW_FILE := Bucket(NoTables, [], None, None, false)

  /** What a missing table rules out. */
  predicate BucketOk(b: Bucket) {
    && (b.schema.NoTables? ==> b.rows == [])
    && (!b.schema.Complete? ==> b.minId == None && b.maxId == None && !b.sealed)
  }

  /** Rows may still be added to it, and their range recorded. */
  predicate Open(b: Bucket) {
    b.schema.Complete? && !b.sealed
  }

  datatype Store = Store(live: seq<Event>, buckets: map<Name, Bucket>)

  datatype Commit =
    | Seal(name: Name)
    | CreateFile(name: Name)
    | CreateEvents(name: Name)   // the tables
    | CreateMeta(name: Name)
    | SetMin(name: Name, id: nat)
    | SetMax(name: Name, id: nat)
    | InsertRows(name: Name, rows: seq<Event>)
    | SetRange(name: Name)
    | DeleteLive(ids: set<nat>)
    | Discard(ids: set<nat>)

  // ---------------------------------------------------------------- effects

  /** `INSERT OR IGNORE` of one row into a table kept in id order. */
  function InsertRow(rows: seq<Event>, e: Event): (r: seq<Event>)
    requires Ascending(rows)
    ensures Ascending(r)
    ensures forall x :: x in r <==> x in rows || (x == e && e.id !in Ids(rows))
  {
    if rows == [] then [e]
    else if e.id < rows[0].id then
      assert e.id !in Ids(rows);
      [e] + rows
    else if e.id == rows[0].id then
      assert rows[0] in rows;
      rows
    else
      var tail := InsertRow(rows[1..], e);
      assert forall x :: x in rows <==> x == rows[0] || x in rows[1..];
      assert Ids(rows) == Ids(rows[1..]) + {rows[0].id};
      [rows[0]] + tail
  }

  function InsertAll(rows: seq<Event>, more: seq<Event>): (r: seq<Event>)
    requires Ascending(rows)
    ensures Ascending(r)
    ensures forall x | x in rows :: x in r
    ensures forall x | x in r :: x in rows || x in more
    ensures Ids(r) == Ids(rows) + Ids(more)
    decreases |more|
  {
    if more == [] then rows
    else
      var one := InsertRow(rows, more[0]);
      var r := InsertAll(one, more[1..]);
      assert Ids(one) == Ids(rows) + {more[0].id} by {
        assert more[0].id !in Ids(rows) ==> more[0] in one;
      }
      assert forall x | x in one :: x in r;
      assert Ids(more) == {more[0].id} + Ids(more[1..]) by {
        assert forall x :: x in more <==> x == more[0] || x in more[1..];
      }
      r
  }

  /** The store after a statement; one on a bucket, or a table of it, that does not exist fails and changes nothing. */
  function Apply(s: Store, c: Commit): (r: Store)
    requires StoreOk(s)
  {
    match c
    case CreateFile(n) => if n in s.buckets then s else s.(buckets := s.buckets[n := NEW_FILE])
    case DeleteLive(ids) => s.(live := Where(s.live, (e: Event) => e.id !in ids))
    case Discard(ids) => s.(live := Where(s.live, (e: Event) => e.id !in ids))
    case _ =>
      if c.name !in s.buckets then s
      else s.(buckets := s.buckets[c.name := ApplyToBucket(s.buckets[c.name], c)])
  }

  function ApplyToBucket(b: Bucket, c: Commit): (r: Bucket)
    requires Ascending(b.rows)
    ensures Ascending(r.rows)
  {
    match c
    case CreateEvents(_) => if b.schema.NoTables? then b.(schema := EventsOnly) else b
    case CreateMeta(_) => if b.schema.EventsOnly? then b.(schema := Complete) else b
    case InsertRows(_, rows) => if b.schema.NoTables? then b else b.(rows := InsertAll(b.rows, rows))
    case _ => if b.schema.Complete? then ApplyToMeta(b, c) else b
  }

  function ApplyToMeta(b: Bucket, c: Commit): (r: Bucket)
    ensures r.rows == b.rows && r.schema == b.schema
  {
    match c
    case Seal(_) => b.(sealed := true)
    case SetMin(_, id) => b.(minId := Some(id))
    case SetMax(_, id) => b.(maxId := Some(id))
    case SetRange(_) =>
      if b.rows == [] then b else b.(minId := Some(b.rows[0].id), maxId := Some(b.rows[|b.rows| - 1].id))
    case _ => b
  }

  ghost predicate StoreOk(s: Store) {
    Ascending(s.live) && forall n | n in s.buckets :: Ascending(s.buckets[n].rows) && BucketOk(s.buckets[n])
  }

  lemma ApplyKeepsOk(s: Store, c: Commit)
    requires StoreOk(s)
    ensures StoreOk(Apply(s, c))
  {
  }

  // ---------------------------------------------------------------- what the tiers hold

  /** A row of either tier; an id may have copies in both, and in several buckets. */
  ghost predicate Holds(s: Store, e: Event) {
    e in s.live || exists n | n in s.buckets :: e in s.buckets[n].rows
  }

  /** Some bucket holds a copy of the event. */
  ghost predicate InWarm(s: Store, id: nat) {
    exists n | n in s.buckets :: id in Ids(s.buckets[n].rows)
  }

  /** Either tier holds the event. */
  ghost predicate InView(s: Store, id: nat) {
    id in Ids(s.live) || InWarm(s, id)
  }

  /** Bucket `n` holds the event inside its recorded range. */
  ghost predicate CoveredIn(s: Store, n: Name, id: nat) {
    && n in s.buckets && id in Ids(s.buckets[n].rows)
    && s.buckets[n].minId.Some? && s.buckets[n].minId.value <= id
    && s.buckets[n].maxId.Some? && id <= s.buckets[n].maxId.value
  }

  ghost predicate Covered(s: Store, id: nat) {
    exists n :: CoveredIn(s, n, id)
  }

  /** Whatever left the live tier is in a bucket whose recorded range contains it. */
  ghost predicate WarmCovered(s: Store) {
    forall id | InWarm(s, id) && id !in Ids(s.live) :: Covered(s, id)
  }

  /** Within a month, every bucket but the last is sealed, or was never completed. */
  ghost predicate OnlyLastOpen(s: Store) {
    forall a, b | a in s.buckets && b in s.buckets && a.month == b.month && a.suffix < b.suffix :: !Open(s.buckets[a])
  }

  /** No bucket of its month has a later suffix. */
  ghost predicate IsLast(s: Store, n: Name) {
    forall b | b in s.buckets && b.month == n.month :: b.suffix <= n.suffix
  }

  // ---------------------------------------------------------------- enumeration

  const MAX_SAFE_INTEGER: int := 9007199254740991

  /** The bucket files, in file-name order. */
  ghost predicate Listing(names: seq<Name>, buckets: map<Name, Bucket>) {
    && (forall n :: n in names <==> n in buckets)
    && (forall i, j | 0 <= i < j < |names| :: Before(names[i], names[j]))
  }

  /** The recorded range of a bucket meets `[gapStart, gapEnd]`; an unsealed bucket is taken to reach any id. */
  predicate Covers(b: Bucket, gapStart: int, gapEnd: int) {
    && b.minId.Some? && b.minId.value <= gapEnd
    && (if b.sealed && b.maxId.Some? then b.maxId.value else MAX_SAFE_INTEGER) >= gapStart
  }

  method ListBuckets(buckets: map<Name, Bucket>) returns (names: seq<Name>)
    ensures Listing(names, buckets)
  {
    names := [];
    var todo := buckets.Keys;
    while todo != {}
      invariant todo <= buckets.Keys
      invariant forall n :: n in names <==> n in buckets && n !in todo
      invariant forall i, j | 0 <= i < j < |names| :: Before(names[i], names[j])
      invariant forall i, n | 0 <= i < |names| && n in todo :: Before(names[i], n)
    {
      var least := First(todo);
      names, todo := names + [least], todo - {least};
    }
  }

  /** The first name of a nonempty set in file-name order. */
  method First(names: set<Name>) returns (least: Name)
    requires names != {}
    ensures least in names && forall n | n in names && n != least :: Before(least, n)
  {
    least :| least in names;
    var todo := names - {least};
    while todo != {}
      invariant todo <= names && least in names && least !in todo
      invariant forall n | n in names && n != least && n !in todo :: Before(least, n)
    {
      var n :| n in todo;
      if Before(n, least) {
        least := n;
      }
      todo := todo - {n};
    }
  }

  /** `getBucketMeta` throws: there is no `_meta` table, or the file cannot be read for a reason of its own. */
  predicate Unreadable(buckets: map<Name, Bucket>, badMeta: set<Name>, n: Name)
    requires n in buckets
  {
    !buckets[n].schema.Complete? || n in badMeta
  }

  /**
   The buckets that may hold ids of `[gapStart, gapEnd]`, in file-name order.  A bucket whose meta
   cannot be read is always included.
   */
  method BucketsCoveringRange(buckets: map<Name, Bucket>, badMeta: set<Name>, gapStart: int, gapEnd: int)
    returns (covering: seq<Name>)
    ensures forall n :: n in covering
              <==> n in buckets && (Unreadable(buckets, badMeta, n) || Covers(buckets[n], gapStart, gapEnd))
    ensures forall i, j | 0 <= i < j < |covering| :: Before(covering[i], covering[j])
  {
    covering := [];
    var all := ListBuckets(buckets);
    for i := 0 to |all|
      invariant forall n :: n in covering
                      <==> n in all[..i] && (Unreadable(buckets, badMeta, n) || Covers(buckets[n], gapStart, gapEnd))
      invariant forall j, k | 0 <= j < k < |covering| :: Before(covering[j], covering[k])
    {
      if Unreadable(buckets, badMeta, all[i]) || Covers(buckets[all[i]], gapStart, gapEnd) {
        assert forall n | n in covering :: Before(n, all[i]);
        covering := covering + [all[i]];
      }
    }
    assert all[..|all|] == all;
  }

  /** An event that left the live tier is never missed: some listed bucket holds it. */
  lemma NeededBucketIsListed(s: Store, id: nat, gapStart: int, gapEnd: int)
    requires WarmCovered(s) && InWarm(s, id) && id !in Ids(s.live)
    requires gapStart <= id <= gapEnd && id <= MAX_SAFE_INTEGER
    ensures exists n :: n in s.buckets && id in Ids(s.buckets[n].rows) && Covers(s.buckets[n], gapStart, gapEnd)
  {
    var n :| CoveredIn(s, n, id);
    assert Covers(s.buckets[n], gapStart, gapEnd);
  }
}
