/**
 What a cross-tier poll guarantees (lib/query.js): against the simple view of both tiers merged, sorted
 and cut.
 */
module Resolution {
  import opened Wrappers
  import opened Events
  import opened Archive
  import opened SweepV2
  import opened Query
  import opened Reading

  // ---------------------------------------------------------------- the simple view

  /** Type, domain and subdomain are as asked for; an empty string asks for nothing. */
  predicate Fits(f: Query.Filter, e: Event) {
    && (f.etype == "" || f.etype == e.etype)
    && (f.domain == "" || f.domain == e.domain)
    && (f.subdomain == "" || f.subdomain == e.subdomain)
  }

  /** A row of either tier that the filter selects above the cursor. */
  ghost predicate Due(s: Store, last: int, f: Query.Filter, e: Event) {
    Holds(s, e) && last < e.id && Fits(f, e)
  }

  /** Copies of an event differ at most in the key, which an emit may have released since. */
  ghost predicate Alike(s: Store) {
    forall a, b | Holds(s, a) && Holds(s, b) && a.id == b.id :: Bare(a) == Bare(b)
  }

  /** All tiers merged: every due event once, in id order, as its live row where there is one, else as a warm row. */
  ghost predicate MergedView(s: Store, last: int, f: Query.Filter, view: seq<Event>) {
    && Ascending(view)
    && (forall e | e in view :: Due(s, last, f, e) && (e.id in Ids(s.live) ==> e in s.live))
    && (forall e | Due(s, last, f, e) :: e.id in Ids(view))
  }

  /** The first rows of `all`, up to their keys. */
  ghost predicate FirstOf(rows: seq<Event>, all: seq<Event>) {
    |rows| <= |all| && forall i | 0 <= i < |rows| :: Bare(rows[i]) == Bare(all[i])
  }

  /**
   What holds of the tiers after any run of passes that hold nothing back: ranges cover, and what left live
   lies below what is live.
   */
  ghost predicate Tidy(s: Store) {
    && StoreOk(s) && Alike(s) && WarmCovered(s)
    && (forall id: nat, x: nat | InWarm(s, id) && id !in Ids(s.live) && x in Ids(s.live) :: id < x)
    && (forall id: nat | InView(s, id) :: id <= MAX_SAFE_INTEGER)
  }

  /** Below any row of a bucket, every event is in that bucket or in an earlier one that records it. */
  ghost predicate Closed(s: Store) {
    forall p, x: nat, y: nat | p in s.buckets && x in Ids(s.buckets[p].rows) && InView(s, y) && y < x ::
      y in Ids(s.buckets[p].rows) || RecordedBefore(s, p, y)
  }

  ghost predicate RecordedBefore(s: Store, p: Name, y: nat) {
    exists q :: Before(q, p) && CoveredIn(s, q, y)
  }

  /** Recorded lower bounds follow file-name order. */
  ghost predicate MinsOrdered(s: Store) {
    forall p, q | p in s.buckets && q in s.buckets && Before(q, p)
                  && s.buckets[q].minId.Some? && s.buckets[p].minId.Some? ::
      s.buckets[q].minId.value <= s.buckets[p].minId.value
  }

  /** A bucket holds every id below one of its rows that a later bucket holds. */
  ghost predicate RowsApart(s: Store) {
    forall p, q, x, y | p in s.buckets && q in s.buckets && Before(p, q)
                        && x in Ids(s.buckets[p].rows) && y in Ids(s.buckets[q].rows) && y < x ::
      y in Ids(s.buckets[p].rows)
  }

  /** The order across buckets that runs of passes keep, unfinished bucket files included. */
  ghost predicate InOrder(s: Store) {
    Closed(s) && MinsOrdered(s) && RowsApart(s)
  }

  lemma HeldIsSeen(s: Store, e: Event)
    requires Holds(s, e)
    ensures InView(s, e.id)
  {
    if e !in s.live {
      var n :| n in s.buckets && e in s.buckets[n].rows;
      assert e.id in Ids(s.buckets[n].rows);
    }
  }

  /** A copy in a given bucket, or in the live table, of a due row is due. */
  lemma CopyIsDue(s: Store, last: int, f: Query.Filter, y: Event, rows: seq<Event>) returns (z: Event)
    requires Alike(s) && Due(s, last, f, y) && y.id in Ids(rows)
    requires rows == s.live || exists n | n in s.buckets :: s.buckets[n].rows == rows
    ensures z in rows && z.id == y.id && Due(s, last, f, z)
  {
    z :| z in rows && z.id == y.id;
    assert Holds(s, z);
    assert Bare(z) == Bare(y);
  }

  // ---------------------------------------------------------------- reading buckets

  lemma ListingIsThere(s: Store, files: Files, last: int, f: Query.Filter, covering: seq<Name>)
    requires StoreOk(s) && IsCovering(covering, s, files, last, f)
    ensures AllThere(s.buckets, covering) && NamesOnce(covering)
  {
    forall i, j | 0 <= i < j < |covering| ensures covering[i] != covering[j] {
      assert Before(covering[i], covering[j]);
    }
  }

  /**
   Which buckets are listed: those whose `_meta` cannot be read, and those whose recorded range begins below
   every matching live row and, if they are sealed, does not end below the cursor.
   */
  lemma ListedExactly(s: Store, files: Files, last: int, f: Query.Filter, covering: seq<Name>, n: Name)
    requires StoreOk(s) && IsCovering(covering, s, files, last, f) && n in s.buckets
    requires last <= 9007199254740991 && forall id | InView(s, id) :: id <= 9007199254740991
    ensures var b := s.buckets[n];
            n in covering <==>
            || !b.schema.Complete? || n in files.badMeta
            || (b.minId.Some? && b.minId.value <= 9007199254740991
                && (forall e | e in s.live && Fits(f, e) :: b.minId.value < e.id)
                && (b.sealed && b.maxId.Some? ==> last <= b.maxId.value))
  {
    var m := Where(s.live, Matching(f));
    if m != [] {
      assert m[0] in m;
      FirstIsLeast(m, m[0]);
      forall e | e in s.live && Fits(f, e) ensures m[0].id <= e.id {
        assert e in m;
        FirstIsLeast(m, e);
      }
      assert InView(s, m[0].id);
    }
  }

  /** The buckets a poll attaches: no more than 123 of those listed. */
  function Attached(covering: seq<Name>): (names: seq<Name>) {
    if |covering| <= 123 then covering else covering[..123]
  }

  lemma AttachedAreThere(buckets: map<Name, Bucket>, covering: seq<Name>)
    requires AllThere(buckets, covering)
    ensures AllThere(buckets, Attached(covering)) && |Attached(covering)| <= |covering|
    ensures covering[..|Attached(covering)|] == Attached(covering) && covering[..|covering|] == covering
    ensures AtMost(covering, ATTACH_CEILING) == Attached(covering)
  {
    forall n | n in Attached(covering) ensures n in covering {}
  }

  /** What reading the listed buckets returned, if it did not fail. */
  lemma WarmIs(s: Store, files: Files, names: seq<Name>, last: int, f: Query.Filter, batch: nat)
    requires StoreOk(s) && AllThere(s.buckets, names) && Collect(s.buckets, files, names, last, f, batch).Ok?
    ensures var warm := Collect(s.buckets, files, names, last, f, batch).value;
            && warm == Limit(Listed(s.buckets, names, last, f), batch)
            && (forall x | x in warm :: Due(s, last, f, x))
            && (|warm| < batch ==>
                  forall n, y | n in names && y in s.buckets[n].rows && Wanted(f, last)(y) :: y in warm)
  {
    var all := Listed(s.buckets, names, last, f);
    var warm := Collect(s.buckets, files, names, last, f, batch).value;
    ReadIs(s.buckets, files, names, last, f, batch);
    FetchedRows(s.buckets, names, last, f, batch);
    forall x | x in warm ensures Due(s, last, f, x) {
      var i :| Fetched(s.buckets, names, last, f, batch, i, x);
      assert names[i] in s.buckets;
    }
    forall n, y | |warm| < batch && n in names && y in s.buckets[n].rows && Wanted(f, last)(y) ensures y in warm {
      var i :| 0 <= i < |names| && names[i] == n;
      PlaceIs(s.buckets, names, last, f, i, y);
    }
  }

  // ---------------------------------------------------------------- nothing is missed

  /** An event above the cursor that is not live is in one of the listed buckets. */
  lemma DueIsLiveOrListed(s: Store, files: Files, last: int, f: Query.Filter, covering: seq<Name>, id: nat)
    requires Tidy(s) && IsCovering(covering, s, files, last, f) && InView(s, id) && id > last
    ensures id in Ids(s.live) || exists n | n in covering :: id in Ids(s.buckets[n].rows)
  {
    if id !in Ids(s.live) {
      var m := Where(s.live, Matching(f));
      assert m != [] ==> m[0] in s.live && m[0].id in Ids(s.live);
      var n :| CoveredIn(s, n, id);
      assert Covers(s.buckets[n], last, GapEnd(s.live, f));
      assert n in covering;
    }
  }

  // ---------------------------------------------------------------- what a full batch of warm rows skips

  /**
   Row `x` of the `i`th listed bucket is read before the batch is full.  That bucket is listed only because
   its `_meta` cannot be read; an earlier one, left out since its recorded range begins above the gap, holds
   the due event `y` below `x`, and no listed bucket does.
   */
  ghost predicate Overtakes(s: Store, files: Files, last: int, f: Query.Filter, batch: nat, covering: seq<Name>,
                            i: int, x: Event, q: Name, y: Event)
    requires AllThere(s.buckets, covering)
  {
    && Fetched(s.buckets, covering, last, f, batch, i, x)
    && Unreadable(s.buckets, files.badMeta, covering[i]) && Before(q, covering[i])
    && q in s.buckets && s.buckets[q].minId.Some? && s.buckets[q].minId.value > GapEnd(s.live, f)
    && y in s.buckets[q].rows && Wanted(f, last)(y) && y.id < x.id
    && (forall n | n in covering :: y.id !in Ids(s.buckets[n].rows))
  }

  /** The poll spills, and the matching rows of the attached buckets fill the batch. */
  ghost predicate SpillFills(s: Store, last: int, f: Query.Filter, batch: nat, covering: seq<Name>)
    requires AllThere(s.buckets, covering)
  {
    AttachedAreThere(s.buckets, covering);
    var m := Where(s.live, Matching(f));
    (m == [] || last < m[0].id) && |Listed(s.buckets, Attached(covering), last, f)| >= batch
  }

  /** And so do those of all the listed buckets. */
  lemma FillsListing(s: Store, last: int, f: Query.Filter, batch: nat, covering: seq<Name>)
    requires AllThere(s.buckets, covering) && SpillFills(s, last, f, batch, covering)
    ensures |Listed(s.buckets, covering, last, f)| >= batch
  {
    AttachedAreThere(s.buckets, covering);
    ListedGrows(s.buckets, covering, last, f, |Attached(covering)|, |covering|);
  }

  /** The poll skips events: warm rows above them fill the batch, and the live table is not looked at. */
  ghost predicate Overtaken(s: Store, files: Files, last: int, f: Query.Filter, batch: nat, covering: seq<Name>)
    requires AllThere(s.buckets, covering)
  {
    && SpillFills(s, last, f, batch, covering)
    && exists i, x, q, y :: Overtakes(s, files, last, f, batch, covering, i, x, q, y)
  }

  /** A listed copy of a due event in or before a fetched row's bucket is fetched as well. */
  lemma EarlierIsFetched(s: Store, files: Files, last: int, f: Query.Filter, batch: nat, covering: seq<Name>,
                         i: int, x: Event, k: int, y: Event)
    requires Tidy(s) && AllThere(s.buckets, covering) && Fetched(s.buckets, covering, last, f, batch, i, x)
    requires Due(s, last, f, y) && y.id < x.id && 0 <= k <= i && y.id in Ids(s.buckets[covering[k]].rows)
    ensures y.id in Ids(Limit(Listed(s.buckets, covering, last, f), batch))
  {
    assert covering[k] in covering;
    var z := CopyIsDue(s, last, f, y, s.buckets[covering[k]].rows);
    FetchedBelow(s.buckets, covering, last, f, batch, i, x, k, z);
    FetchedRows(s.buckets, covering, last, f, batch);
  }

  /** A bucket that records a due event and is not listed begins above the gap. */
  lemma UnlistedIsAbove(s: Store, files: Files, last: int, f: Query.Filter, covering: seq<Name>, q: Name, y: nat)
    requires Tidy(s) && IsCovering(covering, s, files, last, f)
    requires CoveredIn(s, q, y) && y > last && q !in covering
    ensures s.buckets[q].minId.value > GapEnd(s.live, f)
  {
    assert InWarm(s, y) && InView(s, y);
  }

  /** A listed bucket after one that begins above the gap is listed only because its `_meta` cannot be read. */
  lemma ListedUnread(s: Store, files: Files, last: int, f: Query.Filter, covering: seq<Name>, p: Name, q: Name)
    requires MinsOrdered(s) && IsCovering(covering, s, files, last, f) && p in covering && Before(q, p)
    requires q in s.buckets && s.buckets[q].minId.Some? && s.buckets[q].minId.value > GapEnd(s.live, f)
    ensures Unreadable(s.buckets, files.badMeta, p)
  {
  }

  /** A due event below a fetched row that was not fetched is overtaken. */
  lemma MissingIsOvertaken(s: Store, files: Files, last: int, f: Query.Filter, batch: nat, covering: seq<Name>,
                           i: int, x: Event, y: Event)
    requires Tidy(s) && InOrder(s) && IsCovering(covering, s, files, last, f) && AllThere(s.buckets, covering)
    requires Fetched(s.buckets, covering, last, f, batch, i, x) && Due(s, last, f, y) && y.id < x.id
    requires y.id !in Ids(Limit(Listed(s.buckets, covering, last, f), batch))
    ensures exists q, z :: Overtakes(s, files, last, f, batch, covering, i, x, q, z)
  {
    var p := covering[i];
    assert p in covering && x.id in Ids(s.buckets[p].rows);
    HeldIsSeen(s, y);
    forall k | 0 <= k < |covering| ensures y.id !in Ids(s.buckets[covering[k]].rows) {
      if y.id in Ids(s.buckets[p].rows) {
        EarlierIsFetched(s, files, last, f, batch, covering, i, x, i, y);
      } else if k < i && y.id in Ids(s.buckets[covering[k]].rows) {
        EarlierIsFetched(s, files, last, f, batch, covering, i, x, k, y);
      } else if k > i {
        assert covering[k] in covering && Before(p, covering[k]);
      }
    }
    var q :| Before(q, p) && CoveredIn(s, q, y.id);
    UnlistedIsAbove(s, files, last, f, covering, q, y.id);
    ListedUnread(s, files, last, f, covering, p, q);
    var z := CopyIsDue(s, last, f, y, s.buckets[q].rows);
    assert Overtakes(s, files, last, f, batch, covering, i, x, q, z);
  }

  // ---------------------------------------------------------------- prefixes

  /** Rows whose ids lie below every id of `all` they leave out carry the first ids of `all`. */
  lemma FirstIds(rows: seq<Event>, all: seq<Event>)
    requires Ascending(rows) && Ascending(all) && Ids(rows) <= Ids(all)
    requires forall x, y | x in rows && y in all && y.id !in Ids(rows) :: x.id < y.id
    ensures |rows| <= |all| && forall i | 0 <= i < |rows| :: rows[i].id == all[i].id
  {
    IdsCount(rows);
    IdsCount(all);
    SubsetSize(Ids(rows), Ids(all));
    for i := 0 to |rows|
      invariant forall k | 0 <= k < i :: rows[k].id == all[k].id
    {
      NextIdAgrees(rows, all, i);
    }
  }

  lemma NextIdAgrees(rows: seq<Event>, all: seq<Event>, i: nat)
    requires Ascending(rows) && Ascending(all) && i < |rows| <= |all| && Ids(rows) <= Ids(all)
    requires forall x, y | x in rows && y in all && y.id !in Ids(rows) :: x.id < y.id
    requires forall k | 0 <= k < i :: rows[k].id == all[k].id
    ensures rows[i].id == all[i].id
  {
    assert rows[i] in rows && all[i] in all;
    NotBefore(rows, all, i);
    if all[i].id in Ids(rows) { NotBefore(all, rows, i); }
  }

  /** What agrees up to `i` does not have its next id earlier. */
  lemma NotBefore(rows: seq<Event>, all: seq<Event>, i: nat)
    requires Ascending(rows) && Ascending(all) && i < |rows| && i < |all| && rows[i].id in Ids(all)
    requires forall k | 0 <= k < i :: rows[k].id == all[k].id
    ensures all[i].id <= rows[i].id
  {
    var j :| 0 <= j < |all| && all[j].id == rows[i].id;
    assert forall k | 0 <= k < i :: all[k].id < rows[i].id;
  }

  /** Rows that lie below everything they leave out are a prefix. */
  lemma PrefixFromOrder(rows: seq<Event>, all: seq<Event>)
    requires Ascending(rows) && Ascending(all) && forall x | x in rows :: x in all
    requires forall x, y | x in rows && y in all && y !in rows :: x.id < y.id
    ensures rows <= all
  {
    FirstIds(rows, all);
    forall i | 0 <= i < |rows| ensures rows[i] == all[i] {
      assert rows[i] in rows && all[i] in all;
      AscendingUniqueIds(all, rows[i], all[i]);
    }
  }

  lemma AtMostBefore(all: seq<Event>, some: seq<Event>, id: nat, i: nat)
    requires Ascending(all) && Ascending(some) && i < |all|
    requires Ids(some) <= Ids(all) && forall x | x in some :: x.id < id
    ensures all[i].id >= id ==> |some| <= i
  {
    if all[i].id >= id {
      IdsCount(some);
      AscendingTail(all, i);
      IdsCount(all[..i]);
      forall x | x in Ids(some) ensures x in Ids(all[..i]) {
        var k :| 0 <= k < |all| && all[k].id == x;
        EarlierRow(all, k, i);
        assert all[..i][k] == all[k];
      }
      SubsetSize(Ids(some), Ids(all[..i]));
    }
  }

  lemma EarlierRow(all: seq<Event>, k: nat, i: nat)
    requires Ascending(all) && k < |all| && i < |all| && all[k].id < all[i].id
    ensures k < i
  {
  }

  // ---------------------------------------------------------------- the result skips nothing

  /** Due rows in order, one per event, below every due event they leave out. */
  ghost predicate Leading(s: Store, last: int, f: Query.Filter, rows: seq<Event>) {
    && Ascending(rows)
    && (forall x | x in rows :: Due(s, last, f, x))
    && (forall x, y | x in rows && Due(s, last, f, y) && y.id !in Ids(rows) :: x.id < y.id)
  }

  /** Leading rows, and a full batch of them unless they are all there is. */
  ghost predicate FirstDue(s: Store, last: int, f: Query.Filter, batch: nat, rows: seq<Event>) {
    && Leading(s, last, f, rows) && |rows| <= batch
    && ((exists y :: Due(s, last, f, y) && y.id !in Ids(rows)) ==> |rows| == batch)
  }

  /** The live copy of every event that has one. */
  ghost predicate LiveWins(s: Store, rows: seq<Event>) {
    forall x | x in rows && x.id in Ids(s.live) :: x in s.live
  }

  lemma LeadingIsFirstOf(s: Store, last: int, f: Query.Filter, rows: seq<Event>, view: seq<Event>)
    requires Alike(s) && Leading(s, last, f, rows) && MergedView(s, last, f, view)
    ensures FirstOf(rows, view)
  {
    FirstIds(rows, view);
    forall i | 0 <= i < |rows| ensures Bare(rows[i]) == Bare(view[i]) {
      assert rows[i] in rows && view[i] in view;
    }
  }

  lemma FirstDueIsFirstOf(s: Store, last: int, f: Query.Filter, batch: nat, rows: seq<Event>, view: seq<Event>)
    requires Alike(s) && FirstDue(s, last, f, batch, rows) && MergedView(s, last, f, view)
    ensures FirstOf(rows, view) && |rows| == |Limit(view, batch)|
  {
    LeadingIsFirstOf(s, last, f, rows, view);
    if |rows| < |view| {
      var y := view[|rows|];
      assert y in view;
      forall i | 0 <= i < |rows| ensures rows[i].id != y.id {
        assert Bare(rows[i]).id == Bare(view[i]).id && view[i].id < y.id;
      }
      assert y.id !in Ids(rows);
    }
  }

  // ---------------------------------------------------------------- a merged view that starts with the result

  ghost function AllDue(s: Store, last: int, f: Query.Filter): (r: set<Event>) {
    (set e | e in s.live && Wanted(f, last)(e))
    + (set n, e | n in s.buckets && e in s.buckets[n].rows && Wanted(f, last)(e) :: e)
  }

  lemma AllDueIs(s: Store, last: int, f: Query.Filter)
    ensures forall e :: e in AllDue(s, last, f) <==> Due(s, last, f, e)
  {
    forall e ensures e in AllDue(s, last, f) <==> Due(s, last, f, e) {
      if Due(s, last, f, e) && e !in s.live {
        var n :| n in s.buckets && e in s.buckets[n].rows;
        assert Wanted(f, last)(e);
      }
    }
  }

  /** One row of an event: the live one where there is one. */
  ghost function RowOf(s: Store, id: nat): (e: Event)
    requires exists x :: Holds(s, x) && x.id == id
    ensures Holds(s, e) && e.id == id && (id in Ids(s.live) ==> e in s.live)
  {
    if id in Ids(s.live) then
      var e :| e in s.live && e.id == id;
      e
    else
      var e :| Holds(s, e) && e.id == id;
      e
  }

  ghost function RowsFor(s: Store, ids: set<nat>): (r: set<Event>)
    requires forall id | id in ids :: exists x :: Holds(s, x) && x.id == id
    ensures UniqueIds(r)
    ensures forall e | e in r :: e.id in ids && Holds(s, e) && (e.id in Ids(s.live) ==> e in s.live)
    ensures forall id | id in ids :: RowOf(s, id) in r && RowOf(s, id).id == id
  {
    set id | id in ids :: RowOf(s, id)
  }

  /** The due events that are not among the rows. */
  ghost function Left(s: Store, last: int, f: Query.Filter, rows: seq<Event>): (ids: set<nat>)
    ensures forall id | id in ids :: exists x :: Holds(s, x) && x.id == id
    ensures forall id :: id in ids <==> id !in Ids(rows) && exists x :: Due(s, last, f, x) && x.id == id
  {
    AllDueIs(s, last, f);
    set e | e in AllDue(s, last, f) && e.id !in Ids(rows) :: e.id
  }

  lemma ViewFrom(s: Store, last: int, f: Query.Filter, batch: nat, rows: seq<Event>)
    requires StoreOk(s) && Alike(s) && FirstDue(s, last, f, batch, rows) && LiveWins(s, rows)
    ensures exists view :: MergedView(s, last, f, view) && rows == Limit(view, batch)
  {
    var left := Left(s, last, f, rows);
    var rest := RestOf(s, left);
    RestIsDue(s, last, f, left, rest);
    LeftIsRest(s, last, f, rows, rest);
    ViewIs(s, last, f, rows, rest);
    RestFollows(s, last, f, batch, rows, rest);
  }

  lemma LeftIsRest(s: Store, last: int, f: Query.Filter, rows: seq<Event>, rest: seq<Event>)
    requires Ids(rest) == Left(s, last, f, rows)
    ensures forall e | Due(s, last, f, e) && e.id !in Ids(rows) :: e.id in Ids(rest)
    ensures forall e | e in rest :: e.id !in Ids(rows)
  {
    assert forall e | e in rest :: e.id in Ids(rest);
  }

  /** One row for each of the ids, in order. */
  ghost function RestOf(s: Store, ids: set<nat>): (rest: seq<Event>)
    requires forall id | id in ids :: exists x :: Holds(s, x) && x.id == id
    ensures Ascending(rest) && Ids(rest) == ids
    ensures forall e | e in rest :: Holds(s, e) && (e.id in Ids(s.live) ==> e in s.live)
  {
    var rest := Sorted(RowsFor(s, ids));
    assert forall id | id in ids :: RowOf(s, id) in rest;
    rest
  }

  lemma RestFollows(s: Store, last: int, f: Query.Filter, batch: nat, rows: seq<Event>, rest: seq<Event>)
    requires FirstDue(s, last, f, batch, rows) && forall e | e in rest :: Due(s, last, f, e) && e.id !in Ids(rows)
    ensures rows == Limit(rows + rest, batch)
  {
    if rest != [] {
      assert rest[0] in rest;
      assert Due(s, last, f, rest[0]) && rest[0].id !in Ids(rows);
    }
    assert (rows + rest)[..|rows|] == rows;
  }

  lemma RestIsDue(s: Store, last: int, f: Query.Filter, left: set<nat>, rest: seq<Event>)
    requires Alike(s) && (forall id | id in left :: exists x :: Due(s, last, f, x) && x.id == id)
    requires forall e | e in rest :: e.id in left && Holds(s, e)
    ensures forall e | e in rest :: Due(s, last, f, e)
  {
    forall e | e in rest ensures Due(s, last, f, e) {
      var x :| Due(s, last, f, x) && x.id == e.id;
      assert Bare(x) == Bare(e);
    }
  }

  lemma ViewIs(s: Store, last: int, f: Query.Filter, rows: seq<Event>, rest: seq<Event>)
    requires Leading(s, last, f, rows) && LiveWins(s, rows) && Ascending(rest)
    requires forall e | e in rest :: Due(s, last, f, e) && e.id !in Ids(rows) && (e.id in Ids(s.live) ==> e in s.live)
    requires forall e | Due(s, last, f, e) && e.id !in Ids(rows) :: e.id in Ids(rest)
    ensures MergedView(s, last, f, rows + rest)
  {
    var view := rows + rest;
    forall i, j | 0 <= i < j < |view| ensures view[i].id < view[j].id {
      if i < |rows| <= j { assert rows[i] in rows && rest[j - |rows|] in rest; }
    }
    assert forall e :: e in view <==> e in rows || e in rest;
    assert Ids(view) == Ids(rows) + Ids(rest);
  }

  // ---------------------------------------------------------------- the ways to answer

  /** A cursor inside the live window: one SELECT answers the whole question. */
  lemma FastPathIsExact(s: Store, last: int, f: Query.Filter, batch: nat)
    requires Tidy(s)
    requires var m := Where(s.live, Matching(f)); m != [] && last >= m[0].id
    ensures var rows := Limit(Where(s.live, Wanted(f, last)), batch);
            FirstDue(s, last, f, batch, rows) && LiveWins(s, rows)
  {
    var m := Where(s.live, Matching(f));
    assert m[0] in m && m[0].id in Ids(s.live);
    forall y | Due(s, last, f, y) ensures y.id in Ids(s.live) { HeldIsSeen(s, y); }
    LiveRowsLead(s, last, f, batch);
  }

  /** When every due event is live. */
  lemma LiveRowsLead(s: Store, last: int, f: Query.Filter, batch: nat)
    requires StoreOk(s) && Alike(s) && forall y | Due(s, last, f, y) :: y.id in Ids(s.live)
    ensures var rows := Limit(Where(s.live, Wanted(f, last)), batch);
            FirstDue(s, last, f, batch, rows) && LiveWins(s, rows)
  {
    LimitedSelection(s.live, Wanted(f, last), batch);
    var rows := Limit(Where(s.live, Wanted(f, last)), batch);
    forall y | Due(s, last, f, y) && y.id !in Ids(rows)
      ensures |rows| == batch && forall x | x in rows :: x.id < y.id
    {
      var z := CopyIsDue(s, last, f, y, s.live);
      assert z !in rows;
    }
  }

  /** The rows a spill sorts: one per event, live where a live one was fetched. */
  ghost predicate Joined(merged: seq<Event>, warm: seq<Event>, live: seq<Event>) {
    && Ascending(merged) && Ids(merged) == Ids(warm) + Ids(live)
    && (forall e | e in merged :: e in warm || e in live)
    && (forall e | e in merged && e.id in Ids(live) :: e in live)
  }

  lemma JoinedRows(warm: seq<Event>, live: seq<Event>)
    ensures Joined(Sorted(RowsOf(Merged(warm, live))), warm, live)
  {
    MergedPrefersLive(warm, live);
    var m := Merged(warm, live);
    forall id | id in m ensures m[id] in RowsOf(m) {}
  }

  lemma CutUnderfilled(s: Store, last: int, f: Query.Filter, batch: nat, warm: seq<Event>, merged: seq<Event>,
                       live: seq<Event>)
    requires StoreOk(s) && Alike(s) && live == Limit(Where(s.live, Wanted(f, last)), batch)
    requires Joined(merged, warm, live)
    requires forall x | x in warm :: Due(s, last, f, x)
    requires forall y | Due(s, last, f, y) && y.id !in Ids(warm) :: y.id in Ids(s.live)
    ensures FirstDue(s, last, f, batch, Limit(merged, batch)) && LiveWins(s, Limit(merged, batch))
  {
    CutLeads(s, last, f, batch, warm, merged, live);
    CutLiveWins(s, last, f, batch, warm, merged, live);
  }

  lemma CutLiveWins(s: Store, last: int, f: Query.Filter, batch: nat, warm: seq<Event>, merged: seq<Event>,
                    live: seq<Event>)
    requires StoreOk(s) && Alike(s) && live == Limit(Where(s.live, Wanted(f, last)), batch)
    requires Joined(merged, warm, live) && (forall x | x in live :: x in s.live)
    requires forall x | x in warm :: Due(s, last, f, x)
    ensures LiveWins(s, Limit(merged, batch))
  {
    var rows := Limit(merged, batch);
    assert forall i | 0 <= i < |rows| :: rows[i] == merged[i] && merged[i] in merged;
    forall x | x in rows && x.id in Ids(s.live) ensures x in s.live {
      if x.id !in Ids(live) { BeyondTheCut(s, last, f, batch, warm, merged, live, x); }
    }
  }

  lemma CutLeads(s: Store, last: int, f: Query.Filter, batch: nat, warm: seq<Event>, merged: seq<Event>,
                 live: seq<Event>)
    requires StoreOk(s) && Alike(s) && live == Limit(Where(s.live, Wanted(f, last)), batch)
    requires Joined(merged, warm, live)
    requires forall x | x in warm :: Due(s, last, f, x)
    requires forall y | Due(s, last, f, y) && y.id !in Ids(warm) :: y.id in Ids(s.live)
    ensures FirstDue(s, last, f, batch, Limit(merged, batch)) && forall x | x in live :: x in s.live
  {
    CutIsDue(s, last, f, batch, warm, merged, live);
    var rows := Limit(merged, batch);
    forall y | Due(s, last, f, y) && y.id !in Ids(rows)
      ensures |rows| == batch && forall x | x in rows :: x.id < y.id
    {
      LeftOutIsAbove(s, last, f, batch, warm, merged, live, y);
    }
  }

  lemma CutIsDue(s: Store, last: int, f: Query.Filter, batch: nat, warm: seq<Event>, merged: seq<Event>,
                 live: seq<Event>)
    requires Ascending(s.live) && live == Limit(Where(s.live, Wanted(f, last)), batch)
    requires Joined(merged, warm, live) && forall x | x in warm :: Due(s, last, f, x)
    ensures forall x | x in live :: x in s.live
    ensures Ascending(Limit(merged, batch)) && |Limit(merged, batch)| <= batch
    ensures forall x | x in Limit(merged, batch) :: Due(s, last, f, x)
  {
    LiveIsDue(s, last, f, batch);
    var rows := Limit(merged, batch);
    assert forall i | 0 <= i < |rows| :: rows[i] == merged[i] && merged[i] in merged;
  }

  lemma LiveIsDue(s: Store, last: int, f: Query.Filter, batch: nat)
    requires Ascending(s.live)
    ensures forall x | x in Limit(Where(s.live, Wanted(f, last)), batch) :: x in s.live && Due(s, last, f, x)
  {
    LimitedSelection(s.live, Wanted(f, last), batch);
  }

  /** A due event that was not fetched from the live table comes after a full batch of rows that were. */
  lemma NotFetched(s: Store, last: int, f: Query.Filter, batch: nat, merged: seq<Event>, live: seq<Event>, y: Event)
    requires StoreOk(s) && Alike(s) && live == Limit(Where(s.live, Wanted(f, last)), batch)
    requires Ascending(merged) && Ids(live) <= Ids(merged)
    requires Due(s, last, f, y) && y.id in Ids(s.live) && y.id !in Ids(live)
    ensures |merged| >= batch && forall i | 0 <= i < |merged| && merged[i].id >= y.id :: batch <= i
  {
    LimitedSelection(s.live, Wanted(f, last), batch);
    var z := CopyIsDue(s, last, f, y, s.live);
    assert z !in live;
    IdsCount(live);
    IdsCount(merged);
    SubsetSize(Ids(live), Ids(merged));
    forall i | 0 <= i < |merged| && merged[i].id >= y.id ensures batch <= i { AtMostBefore(merged, live, y.id, i); }
  }

  lemma LeftOutIsAbove(s: Store, last: int, f: Query.Filter, batch: nat, warm: seq<Event>, merged: seq<Event>,
                       live: seq<Event>, y: Event)
    requires StoreOk(s) && Alike(s) && live == Limit(Where(s.live, Wanted(f, last)), batch)
    requires Joined(merged, warm, live)
    requires Due(s, last, f, y) && (y.id !in Ids(warm) ==> y.id in Ids(s.live)) && y.id !in Ids(Limit(merged, batch))
    ensures |Limit(merged, batch)| == batch && forall x | x in Limit(merged, batch) :: x.id < y.id
  {
    var rows := Limit(merged, batch);
    assert forall i | 0 <= i < |rows| :: rows[i] == merged[i];
    if y.id in Ids(merged) {
      var k :| 0 <= k < |merged| && merged[k].id == y.id;
      forall i | 0 <= i < |rows| ensures rows[i].id != y.id { assert rows[i] in rows; }
    } else {
      NotFetched(s, last, f, batch, merged, live, y);
    }
  }

  /** So a warm copy whose live row was not fetched is cut off. */
  lemma BeyondTheCut(s: Store, last: int, f: Query.Filter, batch: nat, warm: seq<Event>, merged: seq<Event>,
                     live: seq<Event>, x: Event)
    requires StoreOk(s) && Alike(s) && live == Limit(Where(s.live, Wanted(f, last)), batch)
    requires Joined(merged, warm, live) && (forall e | e in warm :: Due(s, last, f, e))
    requires x in merged && x.id in Ids(s.live) && x.id !in Ids(live)
    ensures x !in Limit(merged, batch)
  {
    assert x in warm by { assert x in live ==> x.id in Ids(live); }
    NotFetched(s, last, f, batch, merged, live, x);
    var rows := Limit(merged, batch);
    assert forall i | 0 <= i < |rows| :: rows[i] == merged[i];
  }

  /**
   Every covering bucket was read and the batch has room: the over-fetch makes the answer the first due
   events, each as its live row where it has one, in any bucket order.
   */
  lemma UnderfilledIsExact(s: Store, files: Files, last: int, f: Query.Filter, batch: nat, covering: seq<Name>)
    requires Tidy(s) && batch > 0 && IsCovering(covering, s, files, last, f) && |covering| <= 123
    requires var warm := Collect(s.buckets, files, covering, last, f, batch); warm.Ok? && |warm.value| < batch
    ensures var rows := Combine(s, Collect(s.buckets, files, covering, last, f, batch).value, last, f, batch);
            FirstDue(s, last, f, batch, rows) && LiveWins(s, rows)
  {
    var warm := Collect(s.buckets, files, covering, last, f, batch).value;
    ListingIsThere(s, files, last, f, covering);
    WarmIs(s, files, covering, last, f, batch);
    var live := Limit(Where(s.live, Wanted(f, last)), batch);
    JoinedRows(warm, live);
    forall y | Due(s, last, f, y) ensures y.id in Ids(warm) || y.id in Ids(s.live) {
      ReadOrLive(s, files, last, f, covering, warm, y);
    }
    CutUnderfilled(s, last, f, batch, warm, Sorted(RowsOf(Merged(warm, live))), live);
  }

  lemma ReadOrLive(s: Store, files: Files, last: int, f: Query.Filter, covering: seq<Name>, warm: seq<Event>,
                   y: Event)
    requires Tidy(s) && IsCovering(covering, s, files, last, f) && Due(s, last, f, y)
    requires forall n, x | n in covering && x in s.buckets[n].rows && Wanted(f, last)(x) :: x in warm
    ensures y.id in Ids(warm) || y.id in Ids(s.live)
  {
    HeldIsSeen(s, y);
    DueIsLiveOrListed(s, files, last, f, covering, y.id);
    if y.id !in Ids(s.live) {
      var n :| n in covering && y.id in Ids(s.buckets[n].rows);
      var z := CopyIsDue(s, last, f, y, s.buckets[n].rows);
      assert z in warm;
    }
  }

  /**
   The warm tier filled the batch: what comes back is made of the warm rows, and it skips nothing exactly
   when no row of an unreadable bucket overtakes an event of an unlisted one.
   */
  lemma FilledIsPrefix(s: Store, files: Files, last: int, f: Query.Filter, batch: nat, covering: seq<Name>)
    requires Tidy(s) && InOrder(s) && batch > 0 && IsCovering(covering, s, files, last, f)
    requires AllThere(s.buckets, covering) && SpillFills(s, last, f, batch, covering)
    requires Collect(s.buckets, files, covering, last, f, batch).Ok?
    ensures var warm := Collect(s.buckets, files, covering, last, f, batch).value;
            var rows := Combine(s, warm, last, f, batch);
            && |warm| == batch && rows != [] && |rows| <= batch && Joined(rows, warm, [])
            && (Leading(s, last, f, rows) <==> !Overtaken(s, files, last, f, batch, covering))
  {
    var warm := Collect(s.buckets, files, covering, last, f, batch).value;
    FillsListing(s, last, f, batch, covering);
    WarmIs(s, files, covering, last, f, batch);
    JoinedRows(warm, []);
    WarmAlone(s, warm, last, f, batch);
    LeadsUnlessOvertaken(s, files, last, f, batch, covering, warm, Sorted(RowsOf(Merged(warm, []))));
  }

  lemma LeadsUnlessOvertaken(s: Store, files: Files, last: int, f: Query.Filter, batch: nat, covering: seq<Name>,
                             warm: seq<Event>, merged: seq<Event>)
    requires Tidy(s) && InOrder(s) && IsCovering(covering, s, files, last, f) && AllThere(s.buckets, covering)
    requires warm == Limit(Listed(s.buckets, covering, last, f), batch) && forall x | x in warm :: Due(s, last, f, x)
    requires Joined(merged, warm, [])
    ensures Leading(s, last, f, merged)
       <==> !exists i, x, q, y :: Overtakes(s, files, last, f, batch, covering, i, x, q, y)
  {
    assert Ids(merged) == Ids(warm);
    if i, x, q, y :| Overtakes(s, files, last, f, batch, covering, i, x, q, y) {
      OvertakenIsLeft(s, files, last, f, batch, covering, i, x, q, y);
      assert Due(s, last, f, y) && x.id in Ids(merged);
    } else {
      LeadsIfClear(s, files, last, f, batch, covering, warm, merged);
    }
  }

  lemma LeadsIfClear(s: Store, files: Files, last: int, f: Query.Filter, batch: nat, covering: seq<Name>,
                     warm: seq<Event>, merged: seq<Event>)
    requires Tidy(s) && InOrder(s) && IsCovering(covering, s, files, last, f) && AllThere(s.buckets, covering)
    requires warm == Limit(Listed(s.buckets, covering, last, f), batch) && forall x | x in warm :: Due(s, last, f, x)
    requires Joined(merged, warm, []) && Ids(merged) == Ids(warm)
    requires !exists i, x, q, y :: Overtakes(s, files, last, f, batch, covering, i, x, q, y)
    ensures Leading(s, last, f, merged)
  {
    forall x, y | x in merged && Due(s, last, f, y) && y.id !in Ids(merged) ensures x.id < y.id {
      assert x.id in Ids(merged);
      if y.id < x.id { LowerIsFetched(s, files, last, f, batch, covering, x, y); }
    }
  }

  /** An overtaken event is not among the rows read, though a row above it is. */
  lemma OvertakenIsLeft(s: Store, files: Files, last: int, f: Query.Filter, batch: nat, covering: seq<Name>,
                        i: int, x: Event, q: Name, y: Event)
    requires AllThere(s.buckets, covering) && Overtakes(s, files, last, f, batch, covering, i, x, q, y)
    ensures var warm := Limit(Listed(s.buckets, covering, last, f), batch); x in warm && y.id !in Ids(warm)
  {
    FetchedRows(s.buckets, covering, last, f, batch);
    if z :| z in Limit(Listed(s.buckets, covering, last, f), batch) && z.id == y.id {
      var k :| Fetched(s.buckets, covering, last, f, batch, k, z);
      assert covering[k] in covering;
    }
  }

  lemma LowerIsFetched(s: Store, files: Files, last: int, f: Query.Filter, batch: nat, covering: seq<Name>,
                       x: Event, y: Event)
    requires Tidy(s) && InOrder(s) && IsCovering(covering, s, files, last, f) && AllThere(s.buckets, covering)
    requires x in Limit(Listed(s.buckets, covering, last, f), batch) && Due(s, last, f, y) && y.id < x.id
    requires !exists i, x, q, y :: Overtakes(s, files, last, f, batch, covering, i, x, q, y)
    ensures y.id in Ids(Limit(Listed(s.buckets, covering, last, f), batch))
  {
    FetchedRows(s.buckets, covering, last, f, batch);
    var i :| Fetched(s.buckets, covering, last, f, batch, i, x);
    if y.id !in Ids(Limit(Listed(s.buckets, covering, last, f), batch)) {
      MissingIsOvertaken(s, files, last, f, batch, covering, i, x, y);
    }
  }

  /** A full batch of warm rows is not cut. */
  lemma WarmAlone(s: Store, warm: seq<Event>, last: int, f: Query.Filter, batch: nat)
    requires |warm| == batch > 0
    ensures var merged := Sorted(RowsOf(Merged(warm, [])));
            Combine(s, warm, last, f, batch) == merged && merged != [] && |merged| <= batch
  {
    JoinedRows(warm, []);
    JoinedWarm(Sorted(RowsOf(Merged(warm, []))), warm, batch);
  }

  lemma JoinedWarm(merged: seq<Event>, warm: seq<Event>, batch: nat)
    requires Joined(merged, warm, []) && |warm| == batch > 0
    ensures Limit(merged, batch) == merged && merged != [] && |merged| <= batch
  {
    assert Ids([]) == {} && Ids(merged) == Ids(warm);
    FewDistinct(merged, warm);
    assert warm[0].id in Ids(merged);
  }

  lemma FewDistinct(sorted: seq<Event>, rows: seq<Event>)
    requires Ascending(sorted) && Ids(sorted) == Ids(rows)
    ensures |sorted| <= |rows|
  {
    IdsCount(sorted);
    IdsAtMost(rows);
  }

  lemma {:induction false} IdsAtMost(rows: seq<Event>)
    ensures |Ids(rows)| <= |rows|
    decreases |rows|
  {
    if rows != [] {
      var k := |rows| - 1;
      assert forall e :: e in rows <==> e in rows[..k] || e == rows[k];
      IdsAtMost(rows[..k]);
      assert Ids(rows) == Ids(rows[..k]) + {rows[k].id};
    }
  }

  // ---------------------------------------------------------------- the resolver's contract

  /** With no bucket listed, every due event is live. */
  lemma NoneListed(s: Store, files: Files, last: int, f: Query.Filter, batch: nat, covering: seq<Name>)
    requires Tidy(s) && IsCovering(covering, s, files, last, f) && covering == [] && Where(s.live, Matching(f)) == []
    ensures FirstDue(s, last, f, batch, [])
  {
    forall y | Due(s, last, f, y) ensures y.id in Ids(s.live) {
      HeldIsSeen(s, y);
      DueIsLiveOrListed(s, files, last, f, covering, y.id);
    }
    LiveRowsLead(s, last, f, batch);
    assert forall e | e in Where(s.live, Wanted(f, last)) :: e in Where(s.live, Matching(f));
    assert Where(s.live, Wanted(f, last)) == [];
  }

  /** Unless the warm tier fills the batch, the answer is the first due events, the live row of each that has one. */
  lemma RoomIsExact(s: Store, files: Files, last: int, f: Query.Filter, batch: nat, covering: seq<Name>)
    requires Tidy(s) && batch > 0
    requires IsCovering(covering, s, files, last, f) && |covering| <= 123
    requires Resolved(s, files, last, f, batch, covering).Ok?
    requires !SpillFills(s, last, f, batch, covering)
    ensures var rows := Resolved(s, files, last, f, batch, covering).value;
            FirstDue(s, last, f, batch, rows) && LiveWins(s, rows)
  {
    var m := Where(s.live, Matching(f));
    if m != [] && last >= m[0].id {
      FastPathIsExact(s, last, f, batch);
    } else if covering == [] && m == [] {
      NoneListed(s, files, last, f, batch, covering);
    } else {
      ListingIsThere(s, files, last, f, covering);
      AttachedAreThere(s.buckets, covering);
      WarmIs(s, files, covering, last, f, batch);
      UnderfilledIsExact(s, files, last, f, batch, covering);
    }
  }

  /**
   A poll over both tiers returns due events, and comes back empty only when there are none.  It skips
   nothing exactly when it is not overtaken.
   */
  lemma PollLeads(s: Store, files: Files, last: int, f: Query.Filter, batch: nat, covering: seq<Name>)
    requires Tidy(s) && InOrder(s) && batch > 0
    requires IsCovering(covering, s, files, last, f) && AllThere(s.buckets, covering)
    requires |covering| <= 123 || SpillFills(s, last, f, batch, covering)
    requires Resolved(s, files, last, f, batch, covering).Ok?
    ensures var rows := Resolved(s, files, last, f, batch, covering).value;
            && Ascending(rows) && (forall x | x in rows :: Due(s, last, f, x)) && |rows| <= batch
            && ((exists y :: Due(s, last, f, y)) ==> rows != [])
            && (Leading(s, last, f, rows) <==> !Overtaken(s, files, last, f, batch, covering))
  {
    if SpillFills(s, last, f, batch, covering) {
      SpillIsRead(s, files, last, f, batch, covering);
      FilledIsPrefix(s, files, last, f, batch, covering);
      WarmIs(s, files, covering, last, f, batch);
    } else {
      RoomIsExact(s, files, last, f, batch, covering);
    }
  }

  /** Rows that start the merged view skip nothing. */
  lemma FirstOfLeads(s: Store, last: int, f: Query.Filter, rows: seq<Event>, view: seq<Event>)
    requires Alike(s) && MergedView(s, last, f, view) && Ascending(rows) && forall x | x in rows :: Due(s, last, f, x)
    ensures FirstOf(rows, view) <==> Leading(s, last, f, rows)
  {
    if Leading(s, last, f, rows) { LeadingIsFirstOf(s, last, f, rows, view); }
    if FirstOf(rows, view) {
      forall x, y | x in rows && Due(s, last, f, y) && y.id !in Ids(rows) ensures x.id < y.id {
        var i :| 0 <= i < |rows| && rows[i] == x;
        LeftOutIsLater(rows, view, i, y.id);
      }
    }
  }

  /** What a prefix leaves out of a table comes after it. */
  lemma LeftOutIsLater(rows: seq<Event>, view: seq<Event>, i: nat, id: nat)
    requires FirstOf(rows, view) && Ascending(view) && i < |rows| && id in Ids(view) && id !in Ids(rows)
    ensures rows[i].id < id
  {
    var j :| 0 <= j < |view| && view[j].id == id;
    forall k | 0 <= k < |rows| ensures rows[k].id == view[k].id && view[k].id != id {
      assert Bare(rows[k]).id == Bare(view[k]).id && rows[k] in rows;
    }
  }

  /**
   The resolver's contract: a poll over both tiers returns the first events of the merged view, each as a
   copy that differs at most in a released key, unless rows of an unfinished bucket overtake others; and an
   empty list only when there is nothing to return.
   */
  lemma PollIsGapFree(s: Store, files: Files, last: int, f: Query.Filter, batch: nat, covering: seq<Name>,
                      view: seq<Event>)
    requires Tidy(s) && InOrder(s) && batch > 0
    requires IsCovering(covering, s, files, last, f) && |covering| <= 123
    requires Resolved(s, files, last, f, batch, covering).Ok?
    requires MergedView(s, last, f, view)
    ensures var rows := Resolved(s, files, last, f, batch, covering).value;
            && (FirstOf(rows, view) <==> !Overtaken(s, files, last, f, batch, covering))
            && |rows| <= batch && (view != [] ==> rows != [])
  {
    var rows := Resolved(s, files, last, f, batch, covering).value;
    PollLeads(s, files, last, f, batch, covering);
    FirstOfLeads(s, last, f, rows, view);
    if view != [] { assert view[0] in view; }
  }

  /** Unless the warm tier fills the batch, the answer is the merged view cut to the batch, in any bucket order. */
  lemma PollIsExact(s: Store, files: Files, last: int, f: Query.Filter, batch: nat, covering: seq<Name>)
    requires Tidy(s) && batch > 0
    requires IsCovering(covering, s, files, last, f) && |covering| <= 123
    requires Resolved(s, files, last, f, batch, covering).Ok?
    requires !SpillFills(s, last, f, batch, covering)
    ensures exists view :: MergedView(s, last, f, view)
                           && Resolved(s, files, last, f, batch, covering).value == Limit(view, batch)
  {
    RoomIsExact(s, files, last, f, batch, covering);
    ViewFrom(s, last, f, batch, Resolved(s, files, last, f, batch, covering).value);
  }

  // ---------------------------------------------------------------- more buckets than can be attached

  /** An event that neither the live table nor one of the first 123 listed buckets holds. */
  ghost predicate Unattached(s: Store, covering: seq<Name>, id: nat)
    requires AllThere(s.buckets, covering)
  {
    id !in Ids(s.live) && forall i | 0 <= i < |covering| && i < 123 :: id !in Ids(s.buckets[covering[i]].rows)
  }

  /**
   The poll spills, the first 123 listed buckets leave room in the batch, and a later one holds an event of the
   first `batch` that is nowhere else.
   */
  ghost predicate Unread(s: Store, last: int, f: Query.Filter, batch: nat, covering: seq<Name>, view: seq<Event>)
    requires AllThere(s.buckets, covering)
  {
    AttachedAreThere(s.buckets, covering);
    var m := Where(s.live, Matching(f));
    && (m == [] || last < m[0].id) && |Listed(s.buckets, Attached(covering), last, f)| < batch
    && exists j, k :: UnreadAt(s, batch, covering, view, j, k)
  }

  ghost predicate UnreadAt(s: Store, batch: nat, covering: seq<Name>, view: seq<Event>, j: int, k: int)
    requires AllThere(s.buckets, covering)
  {
    && 123 <= j < |covering| && 0 <= k < |view| && k < batch
    && view[k].id in Ids(s.buckets[covering[j]].rows) && Unattached(s, covering, view[k].id)
  }

  /** An unattached due event is in a listed bucket after the first 123. */
  lemma UnattachedIsLater(s: Store, files: Files, last: int, f: Query.Filter, batch: nat, covering: seq<Name>,
                          view: seq<Event>, k: nat)
    requires Tidy(s) && IsCovering(covering, s, files, last, f) && AllThere(s.buckets, covering)
    requires MergedView(s, last, f, view) && k < |view| && k < batch && Unattached(s, covering, view[k].id)
    ensures exists j :: UnreadAt(s, batch, covering, view, j, k)
  {
    var y := view[k];
    assert y in view;
    HeldIsSeen(s, y);
    DueIsLiveOrListed(s, files, last, f, covering, y.id);
    var n :| n in covering && y.id in Ids(s.buckets[n].rows);
    var j :| 0 <= j < |covering| && covering[j] == n;
    assert UnreadAt(s, batch, covering, view, j, k);
  }

  /** What the first batch of the merged view lies below, when it is all there to be fetched. */
  lemma LeftOutOfView(s: Store, last: int, f: Query.Filter, batch: nat, warm: seq<Event>, merged: seq<Event>,
                      live: seq<Event>, view: seq<Event>, y: Event)
    requires StoreOk(s) && Alike(s) && live == Limit(Where(s.live, Wanted(f, last)), batch) && batch > 0
    requires Joined(merged, warm, live) && MergedView(s, last, f, view)
    requires forall x | x in warm :: Due(s, last, f, x)
    requires forall k | 0 <= k < |view| && k < batch :: view[k].id in Ids(warm) || view[k].id in Ids(s.live)
    requires Due(s, last, f, y) && y.id !in Ids(Limit(merged, batch))
    ensures |Limit(merged, batch)| == batch && forall x | x in Limit(merged, batch) :: x.id < y.id
  {
    var j :| 0 <= j < |view| && view[j].id == y.id;
    forall k | 0 <= k <= j && k < batch && view[k].id !in Ids(Limit(merged, batch))
      ensures |Limit(merged, batch)| == batch && forall x | x in Limit(merged, batch) :: x.id < y.id
    {
      assert view[k] in view;
      FirstLeftOut(s, last, f, batch, warm, merged, live, view, k, j);
    }
    CutIsDue(s, last, f, batch, warm, merged, live);
    CutOrBelow(Limit(merged, batch), view, batch, j);
  }

  lemma FirstLeftOut(s: Store, last: int, f: Query.Filter, batch: nat, warm: seq<Event>, merged: seq<Event>,
                     live: seq<Event>, view: seq<Event>, k: nat, j: nat)
    requires StoreOk(s) && Alike(s) && live == Limit(Where(s.live, Wanted(f, last)), batch)
    requires Joined(merged, warm, live) && Ascending(view) && k <= j < |view| && Due(s, last, f, view[k])
    requires (view[k].id in Ids(warm) || view[k].id in Ids(s.live)) && view[k].id !in Ids(Limit(merged, batch))
    ensures |Limit(merged, batch)| == batch && forall x | x in Limit(merged, batch) :: x.id < view[j].id
  {
    LeftOutIsAbove(s, last, f, batch, warm, merged, live, view[k]);
    assert view[k].id <= view[j].id;
  }

  lemma CutOrBelow(rows: seq<Event>, view: seq<Event>, batch: nat, j: nat)
    requires Ascending(rows) && Ascending(view) && |rows| <= batch && j < |view| && view[j].id !in Ids(rows)
    requires forall k | 0 <= k <= j && k < batch && view[k].id !in Ids(rows) ::
               |rows| == batch && forall x | x in rows :: x.id < view[j].id
    ensures |rows| == batch && forall x | x in rows :: x.id < view[j].id
  {
    if j >= batch && forall k | 0 <= k < batch :: view[k].id in Ids(rows) { BelowTheCut(rows, view, batch, j); }
  }

  /** Rows that are a whole first batch of the view lie below what comes after it. */
  lemma BelowTheCut(rows: seq<Event>, view: seq<Event>, batch: nat, j: nat)
    requires Ascending(rows) && Ascending(view) && |rows| <= batch <= j < |view|
    requires forall k | 0 <= k < batch :: view[k].id in Ids(rows)
    ensures |rows| == batch && forall x | x in rows :: x.id < view[j].id
  {
    AscendingTail(view, batch);
    assert forall k | 0 <= k < batch :: view[..batch][k] == view[k];
    FilledByView(rows, view[..batch]);
    forall x | x in rows ensures x.id < view[j].id {
      assert x.id in Ids(view[..batch]);
      var k :| 0 <= k < batch && view[..batch][k].id == x.id;
    }
  }

  /** No more rows than that, and all those ids: no others. */
  lemma FilledByView(rows: seq<Event>, first: seq<Event>)
    requires Ascending(rows) && Ascending(first) && |rows| <= |first| && Ids(first) <= Ids(rows)
    ensures |rows| == |first| && Ids(rows) == Ids(first)
  {
    IdsCount(rows);
    IdsCount(first);
    SubsetSize(Ids(first), Ids(rows));
    if x :| x in Ids(rows) && x !in Ids(first) { SubsetSize(Ids(first) + {x}, Ids(rows)); }
  }

  /** The answer of a poll whose attached buckets leave room in the batch. */
  lemma CutExactly(s: Store, last: int, f: Query.Filter, batch: nat, warm: seq<Event>, merged: seq<Event>,
                   live: seq<Event>, view: seq<Event>)
    requires StoreOk(s) && Alike(s) && live == Limit(Where(s.live, Wanted(f, last)), batch) && batch > 0
    requires Joined(merged, warm, live) && MergedView(s, last, f, view)
    requires forall x | x in warm :: Due(s, last, f, x)
    ensures LiveWins(s, Limit(merged, batch))
    ensures FirstDue(s, last, f, batch, Limit(merged, batch)) <==>
            forall k | 0 <= k < |view| && k < batch :: view[k].id in Ids(warm) || view[k].id in Ids(s.live)
  {
    var rows := Limit(merged, batch);
    LiveIsDue(s, last, f, batch);
    CutLiveWins(s, last, f, batch, warm, merged, live);
    if FirstDue(s, last, f, batch, rows) {
      FirstDueIsFirstOf(s, last, f, batch, rows, view);
      forall k | 0 <= k < |view| && k < batch ensures view[k].id in Ids(warm) || view[k].id in Ids(s.live) {
        FirstIsFetched(s, warm, merged, live, batch, view, k);
      }
    }
    if forall k | 0 <= k < |view| && k < batch :: view[k].id in Ids(warm) || view[k].id in Ids(s.live) {
      CutIsFirst(s, last, f, batch, warm, merged, live, view);
    }
  }

  lemma CutIsFirst(s: Store, last: int, f: Query.Filter, batch: nat, warm: seq<Event>, merged: seq<Event>,
                   live: seq<Event>, view: seq<Event>)
    requires StoreOk(s) && Alike(s) && live == Limit(Where(s.live, Wanted(f, last)), batch) && batch > 0
    requires Joined(merged, warm, live) && MergedView(s, last, f, view)
    requires forall x | x in warm :: Due(s, last, f, x)
    requires forall k | 0 <= k < |view| && k < batch :: view[k].id in Ids(warm) || view[k].id in Ids(s.live)
    ensures FirstDue(s, last, f, batch, Limit(merged, batch))
  {
    var rows := Limit(merged, batch);
    CutIsDue(s, last, f, batch, warm, merged, live);
    forall y | Due(s, last, f, y) && y.id !in Ids(rows)
      ensures |rows| == batch && forall x | x in rows :: x.id < y.id
    {
      LeftOutOfView(s, last, f, batch, warm, merged, live, view, y);
    }
  }

  lemma FirstIsFetched(s: Store, warm: seq<Event>, merged: seq<Event>, live: seq<Event>, batch: nat,
                       view: seq<Event>, k: nat)
    requires Joined(merged, warm, live) && forall x | x in live :: x in s.live
    requires FirstOf(Limit(merged, batch), view) && |Limit(merged, batch)| == |Limit(view, batch)|
    requires k < |view| && k < batch
    ensures view[k].id in Ids(warm) || view[k].id in Ids(s.live)
  {
    var rows := Limit(merged, batch);
    assert Bare(rows[k]).id == Bare(view[k]).id;
    assert rows[k] == merged[k] && merged[k] in merged;
  }

  /**
   For any number of listed buckets: unless those attached fill the batch, the answer is the first due events
   exactly when no bucket after the 123rd holds one of them that is nowhere else; and live copies win.
   */
  lemma RoomIsRight(s: Store, files: Files, last: int, f: Query.Filter, batch: nat, covering: seq<Name>,
                    view: seq<Event>)
    requires Tidy(s) && batch > 0 && IsCovering(covering, s, files, last, f) && AllThere(s.buckets, covering)
    requires Resolved(s, files, last, f, batch, covering).Ok?
    requires MergedView(s, last, f, view) && !SpillFills(s, last, f, batch, covering)
    ensures var rows := Resolved(s, files, last, f, batch, covering).value;
            && Ascending(rows) && |rows| <= batch && (forall x | x in rows :: Due(s, last, f, x)) && LiveWins(s, rows)
            && (FirstDue(s, last, f, batch, rows) <==> !Unread(s, last, f, batch, covering, view))
  {
    var m := Where(s.live, Matching(f));
    if m != [] && last >= m[0].id {
      FastPathIsExact(s, last, f, batch);
    } else if covering == [] && m == [] {
      NoneListed(s, files, last, f, batch, covering);
    } else {
      SpillIsRight(s, files, last, f, batch, covering, view);
    }
  }

  lemma SpillIsRight(s: Store, files: Files, last: int, f: Query.Filter, batch: nat, covering: seq<Name>,
                     view: seq<Event>)
    requires Tidy(s) && batch > 0 && IsCovering(covering, s, files, last, f) && AllThere(s.buckets, covering)
    requires Resolved(s, files, last, f, batch, covering).Ok?
    requires MergedView(s, last, f, view) && !SpillFills(s, last, f, batch, covering)
    requires var m := Where(s.live, Matching(f)); (m == [] || last < m[0].id) && (covering != [] || m != [])
    ensures var rows := Resolved(s, files, last, f, batch, covering).value;
            && Ascending(rows) && |rows| <= batch && (forall x | x in rows :: Due(s, last, f, x)) && LiveWins(s, rows)
            && (FirstDue(s, last, f, batch, rows) <==> !Unread(s, last, f, batch, covering, view))
  {
    var read := Attached(covering);
    AttachedAreThere(s.buckets, covering);
    WarmIs(s, files, read, last, f, batch);
    var warm := Collect(s.buckets, files, read, last, f, batch).value;
    var live := Limit(Where(s.live, Wanted(f, last)), batch);
    JoinedRows(warm, live);
    CutExactly(s, last, f, batch, warm, Sorted(RowsOf(Merged(warm, live))), live, view);
    CutIsDue(s, last, f, batch, warm, Sorted(RowsOf(Merged(warm, live))), live);
    forall k | 0 <= k < |view| && k < batch
      ensures view[k].id in Ids(warm) || view[k].id in Ids(s.live) <==>
              !exists j :: UnreadAt(s, batch, covering, view, j, k)
    {
      FetchedOrUnread(s, files, last, f, batch, covering, view, warm, k);
    }
  }

  lemma FetchedOrUnread(s: Store, files: Files, last: int, f: Query.Filter, batch: nat, covering: seq<Name>,
                        view: seq<Event>, warm: seq<Event>, k: nat)
    requires Tidy(s) && IsCovering(covering, s, files, last, f) && AllThere(s.buckets, covering)
    requires MergedView(s, last, f, view) && k < |view| && k < batch
    requires AllThere(s.buckets, Attached(covering)) && |warm| < batch
    requires warm == Limit(Listed(s.buckets, Attached(covering), last, f), batch)
    requires forall n, y | n in Attached(covering) && y in s.buckets[n].rows && Wanted(f, last)(y) :: y in warm
    ensures view[k].id in Ids(warm) || view[k].id in Ids(s.live) <==>
            !exists j :: UnreadAt(s, batch, covering, view, j, k)
  {
    var y, read := view[k], Attached(covering);
    assert y in view;
    if y.id in Ids(warm) {
      var x :| x in warm && x.id == y.id;
      FetchedRows(s.buckets, read, last, f, batch);
      var i :| Fetched(s.buckets, read, last, f, batch, i, x);
      assert covering[i] == read[i] && y.id in Ids(s.buckets[covering[i]].rows);
    } else if y.id !in Ids(s.live) {
      forall i | 0 <= i < |covering| && i < 123 ensures y.id !in Ids(s.buckets[covering[i]].rows) {
        assert read[i] in read && read[i] == covering[i];
        if y.id in Ids(s.buckets[read[i]].rows) { var z := CopyIsDue(s, last, f, y, s.buckets[read[i]].rows); }
      }
      UnattachedIsLater(s, files, last, f, batch, covering, view, k);
    }
  }

  /**
   For any number of listed buckets, when no id sits in two of them: a poll returns as many events of the
   merged view as the batch allows exactly when it is not overtaken and leaves none in a bucket after the 123rd.
   */
  lemma PollLeavesOutExactly(s: Store, files: Files, last: int, f: Query.Filter, batch: nat, covering: seq<Name>,
                             view: seq<Event>)
    requires Tidy(s) && InOrder(s) && NoSharedIds(s.buckets) && batch > 0
    requires IsCovering(covering, s, files, last, f) && AllThere(s.buckets, covering)
    requires Resolved(s, files, last, f, batch, covering).Ok?
    requires MergedView(s, last, f, view)
    ensures var rows := Resolved(s, files, last, f, batch, covering).value;
            (FirstOf(rows, view) && |rows| == |Limit(view, batch)|) <==>
            !Overtaken(s, files, last, f, batch, covering) && !Unread(s, last, f, batch, covering, view)
  {
    var rows := Resolved(s, files, last, f, batch, covering).value;
    if SpillFills(s, last, f, batch, covering) {
      FilledIsMerged(s, files, last, f, batch, covering, view);
    } else {
      RoomIsRight(s, files, last, f, batch, covering, view);
      FirstDueExactly(s, last, f, batch, rows, view);
    }
  }

  lemma FilledIsMerged(s: Store, files: Files, last: int, f: Query.Filter, batch: nat, covering: seq<Name>,
                       view: seq<Event>)
    requires Tidy(s) && InOrder(s) && NoSharedIds(s.buckets) && batch > 0 && IsCovering(covering, s, files, last, f)
    requires AllThere(s.buckets, covering) && SpillFills(s, last, f, batch, covering)
    requires Resolved(s, files, last, f, batch, covering).Ok? && MergedView(s, last, f, view)
    ensures var rows := Resolved(s, files, last, f, batch, covering).value;
            (FirstOf(rows, view) && |rows| == |Limit(view, batch)|)
            <==> !Overtaken(s, files, last, f, batch, covering)
  {
    var rows := Resolved(s, files, last, f, batch, covering).value;
    PollLeads(s, files, last, f, batch, covering);
    FirstOfLeads(s, last, f, rows, view);
    FilledIsBatch(s, files, last, f, batch, covering);
  }

  /** Due rows in order are the first due events exactly when they start the merged view and are as many. */
  lemma FirstDueExactly(s: Store, last: int, f: Query.Filter, batch: nat, rows: seq<Event>, view: seq<Event>)
    requires Alike(s) && MergedView(s, last, f, view)
    requires Ascending(rows) && |rows| <= batch && forall x | x in rows :: Due(s, last, f, x)
    ensures FirstDue(s, last, f, batch, rows) <==> FirstOf(rows, view) && |rows| == |Limit(view, batch)|
  {
    if FirstDue(s, last, f, batch, rows) { FirstDueIsFirstOf(s, last, f, batch, rows, view); }
    if FirstOf(rows, view) && |rows| == |Limit(view, batch)| {
      FirstOfLeads(s, last, f, rows, view);
      if |rows| < batch {
        assert |rows| == |view|;
        forall y | Due(s, last, f, y) ensures y.id in Ids(rows) {
          var k :| 0 <= k < |view| && view[k].id == y.id;
          assert Bare(rows[k]).id == Bare(view[k]).id && rows[k] in rows;
        }
      }
    }
  }

  /** Events 1 to 124 in a sealed bucket each, and event 125 live. */
  ghost function ManyBuckets(e: nat -> Event): (s: Store) {
    Store([e(125)],
          map n: Name | n in Range(124) ::
            Bucket(Complete, [e(n.month as nat)], Some(n.month), Some(n.month), true))
  }

  function Range(k: nat): (names: set<Name>)
    ensures forall n :: n in names <==> n.suffix == 0 && 1 <= n.month <= k
  {
    set i: int | 1 <= i <= k :: Name(i, 0)
  }

  function ManyNames(): (names: seq<Name>)
    ensures |names| == 124 && forall i | 0 <= i < 124 :: names[i] == Name(i + 1, 0)
  {
    seq(124, i => Name(i + 1, 0))
  }

  /** A poll from 0 for 200 rows returns event 125 and not event 124, which is in the 124th listed bucket. */
  lemma CeilingSkips(e: nat -> Event, files: Files)
    requires (forall i :: e(i).id == i) && files == Files({}, {})
    ensures var s, f := ManyBuckets(e), Query.Filter("", "", "");
            && Tidy(s) && IsCovering(ManyNames(), s, files, 0, f) && Due(s, 0, f, e(124))
            && Resolved(s, files, 0, f, 200, ManyNames()).Ok?
            && var rows := Resolved(s, files, 0, f, 200, ManyNames()).value;
               125 in Ids(rows) && 124 !in Ids(rows)
  {
    var s, f := ManyBuckets(e), Query.Filter("", "", "");
    ManyAreTidy(e, files);
    ManyAreRead(e, files);
    var warm := Collect(s.buckets, files, Attached(ManyNames()), 0, f, 200).value;
    SpillAnswers(s, files, ManyNames(), f, warm, e(125));
    OneLiveRow(s, warm, e(125));
    HoldsLast(e);
  }

  lemma SpillAnswers(s: Store, files: Files, covering: seq<Name>, f: Query.Filter, warm: seq<Event>, x: Event)
    requires IsCovering(covering, s, files, 0, f) && Where(s.live, Matching(f)) == [x] && x.id > 0 && covering != []
    requires AllThere(s.buckets, covering) && AllThere(s.buckets, Attached(covering))
    requires Collect(s.buckets, files, Attached(covering), 0, f, 200) == Ok(warm)
    ensures Resolved(s, files, 0, f, 200, covering) == Ok(Combine(s, warm, 0, f, 200))
  {
    AttachedAreThere(s.buckets, covering);
  }

  lemma HoldsLast(e: nat -> Event)
    ensures Holds(ManyBuckets(e), e(124))
  {
    assert Name(124, 0) in ManyBuckets(e).buckets && ManyBuckets(e).buckets[Name(124, 0)].rows == [e(124)];
  }

  lemma OneLiveRow(s: Store, warm: seq<Event>, x: Event)
    requires s.live == [x] && x.id == 125 && |warm| <= 123
    ensures Ids(Combine(s, warm, 0, Query.Filter("", "", ""), 200)) == Ids(warm) + {125}
  {
    SameRows(Limit(Where(s.live, Wanted(Query.Filter("", "", ""), 0)), 200), [x]);
    JoinedRows(warm, [x]);
    OneMoreId(Sorted(RowsOf(Merged(warm, [x]))), warm, x);
  }

  lemma OneMoreId(merged: seq<Event>, warm: seq<Event>, x: Event)
    requires Ascending(merged) && Ids(merged) == Ids(warm) + Ids([x])
    ensures Ids(merged) == Ids(warm) + {x.id} && |merged| <= |warm| + 1
  {
    assert x in [x];
    assert Ids([x]) == {x.id};
    IdsAtMost(warm);
    IdsCount(merged);
  }

  lemma ManyAreTidy(e: nat -> Event, files: Files)
    requires (forall i :: e(i).id == i) && files == Files({}, {})
    ensures var s, f := ManyBuckets(e), Query.Filter("", "", "");
            && Tidy(s) && IsCovering(ManyNames(), s, files, 0, f) && GapEnd(s.live, f) == 124
            && Where(s.live, Matching(f)) == [e(125)]
  {
    var s, f := ManyBuckets(e), Query.Filter("", "", "");
    SameRows(Where(s.live, Matching(f)), [e(125)]);
    forall id | InWarm(s, id) ensures Covered(s, id) && 1 <= id <= 124 {
      var n :| n in s.buckets && id in Ids(s.buckets[n].rows);
      assert CoveredIn(s, n, id);
    }
    forall n ensures n in ManyNames() <==> n in s.buckets {
      if n in s.buckets { assert ManyNames()[n.month - 1] == n; }
    }
  }

  lemma ManyAreRead(e: nat -> Event, files: Files)
    requires (forall i :: e(i).id == i) && files == Files({}, {})
    ensures var s, f := ManyBuckets(e), Query.Filter("", "", "");
            var warm := Collect(s.buckets, files, Attached(ManyNames()), 0, f, 200);
            warm.Ok? && |warm.value| <= 123 && 124 !in Ids(warm.value)
  {
    var s, f, names := ManyBuckets(e), Query.Filter("", "", ""), Attached(ManyNames());
    forall n | n in names ensures n in s.buckets && n.month <= 123 && s.buckets[n].rows == [e(n.month as nat)] {}
    ReadFails(s.buckets, files, names, 0, f, 200);
    ReadIs(s.buckets, files, names, 0, f, 200);
    FetchedRows(s.buckets, names, 0, f, 200);
    ListedFew(s.buckets, names, 0, f);
  }

  /** A row each at most. */
  lemma {:induction false} ListedFew(buckets: map<Name, Bucket>, names: seq<Name>, last: int, f: Query.Filter)
    requires AllThere(buckets, names) && forall n | n in names :: |buckets[n].rows| <= 1
    ensures |Listed(buckets, names, last, f)| <= |names|
    decreases |names|
  {
    if names != [] {
      var k := |names| - 1;
      assert names[k] in names;
      ListedFew(buckets, names[..k], last, f);
    }
  }

  // ---------------------------------------------------------------- the size of the answer

  /**
   When no id sits in two buckets, a poll that is not overtaken returns as many events of the merged view as
   the batch allows, each as a copy that differs at most in a released key.
   */
  lemma PollIsMergedView(s: Store, files: Files, last: int, f: Query.Filter, batch: nat, covering: seq<Name>,
                         view: seq<Event>)
    requires Tidy(s) && InOrder(s) && NoSharedIds(s.buckets) && batch > 0
    requires IsCovering(covering, s, files, last, f) && |covering| <= 123
    requires Resolved(s, files, last, f, batch, covering).Ok?
    requires MergedView(s, last, f, view)
    ensures var rows := Resolved(s, files, last, f, batch, covering).value;
            (FirstOf(rows, view) && |rows| == |Limit(view, batch)|)
            <==> !Overtaken(s, files, last, f, batch, covering)
  {
    var rows := Resolved(s, files, last, f, batch, covering).value;
    PollIsGapFree(s, files, last, f, batch, covering, view);
    if SpillFills(s, last, f, batch, covering) {
      FilledIsBatch(s, files, last, f, batch, covering);
    } else {
      RoomIsExact(s, files, last, f, batch, covering);
      FirstDueIsFirstOf(s, last, f, batch, rows, view);
    }
  }

  /** With no id in two buckets, a batch filled from the warm tier is one event for each row read. */
  lemma FilledIsBatch(s: Store, files: Files, last: int, f: Query.Filter, batch: nat, covering: seq<Name>)
    requires Tidy(s) && InOrder(s) && NoSharedIds(s.buckets) && batch > 0 && IsCovering(covering, s, files, last, f)
    requires AllThere(s.buckets, covering) && SpillFills(s, last, f, batch, covering)
    requires Resolved(s, files, last, f, batch, covering).Ok?
    ensures var rows := Resolved(s, files, last, f, batch, covering).value;
            |rows| == batch && Ids(rows) == Ids(Limit(Listed(s.buckets, covering, last, f), batch))
  {
    ListingIsThere(s, files, last, f, covering);
    ListedDistinct(s.buckets, covering, last, f);
    FilledFromDistinct(s, files, last, f, batch, covering);
  }

  lemma FilledFromDistinct(s: Store, files: Files, last: int, f: Query.Filter, batch: nat, covering: seq<Name>)
    requires StoreOk(s) && batch > 0 && IsCovering(covering, s, files, last, f)
    requires AllThere(s.buckets, covering) && SpillFills(s, last, f, batch, covering)
    requires DistinctIds(Listed(s.buckets, covering, last, f))
    requires Resolved(s, files, last, f, batch, covering).Ok?
    ensures var rows := Resolved(s, files, last, f, batch, covering).value;
            |rows| == batch && Ids(rows) == Ids(Limit(Listed(s.buckets, covering, last, f), batch))
  {
    SpillIsRead(s, files, last, f, batch, covering);
    FilledWarm(s, files, last, f, batch, covering);
    DistinctPrefix(Listed(s.buckets, covering, last, f), batch);
    DistinctBatch(s, Limit(Listed(s.buckets, covering, last, f), batch), last, f, batch);
  }

  lemma DistinctPrefix(rows: seq<Event>, n: nat)
    requires DistinctIds(rows)
    ensures DistinctIds(Limit(rows, n))
  {
  }

  lemma FilledWarm(s: Store, files: Files, last: int, f: Query.Filter, batch: nat, covering: seq<Name>)
    requires AllThere(s.buckets, covering) && SpillFills(s, last, f, batch, covering)
    requires Collect(s.buckets, files, covering, last, f, batch).Ok?
    ensures var warm := Collect(s.buckets, files, covering, last, f, batch).value;
            warm == Limit(Listed(s.buckets, covering, last, f), batch) && |warm| == batch
  {
    FillsListing(s, last, f, batch, covering);
    ReadIs(s.buckets, files, covering, last, f, batch);
  }

  lemma DistinctBatch(s: Store, warm: seq<Event>, last: int, f: Query.Filter, batch: nat)
    requires DistinctIds(warm) && |warm| == batch > 0
    ensures var rows := Combine(s, warm, last, f, batch); |rows| == batch && Ids(rows) == Ids(warm)
  {
    JoinedRows(warm, []);
    WarmAlone(s, warm, last, f, batch);
    OneForEach(warm, Combine(s, warm, last, f, batch));
  }

  lemma OneForEach(warm: seq<Event>, rows: seq<Event>)
    requires DistinctIds(warm) && Joined(rows, warm, [])
    ensures |rows| == |warm| && Ids(rows) == Ids(warm)
  {
    DistinctCount(warm);
    IdsCount(rows);
    assert Ids(rows) == Ids(warm) + Ids([]);
  }

  /** A poll that spills and fills its batch answers from what it read. */
  lemma SpillIsRead(s: Store, files: Files, last: int, f: Query.Filter, batch: nat, covering: seq<Name>)
    requires StoreOk(s) && IsCovering(covering, s, files, last, f) && batch > 0
    requires AllThere(s.buckets, covering) && SpillFills(s, last, f, batch, covering)
    requires Resolved(s, files, last, f, batch, covering).Ok?
    ensures Collect(s.buckets, files, covering, last, f, batch).Ok?
    ensures Resolved(s, files, last, f, batch, covering).value
         == Combine(s, Collect(s.buckets, files, covering, last, f, batch).value, last, f, batch)
  {
    var read := Attached(covering);
    AttachedAreThere(s.buckets, covering);
    assert read != [];
    WarmIs(s, files, read, last, f, batch);
    FullStops(s.buckets, files, covering, |read|, last, f, batch);
  }

  // ---------------------------------------------------------------- live copy or warm copy

  /**
   A bucket row whose live copy has since been renamed is among the first `batch` rows of the listed buckets,
   and no later bucket has a copy there.
   */
  ghost predicate StaleFetched(s: Store, last: int, f: Query.Filter, batch: nat, covering: seq<Name>)
    requires AllThere(s.buckets, covering)
  {
    exists i, x :: LastFetched(s.buckets, covering, last, f, batch, i, x) && x.id in Ids(s.live) && x !in s.live
  }

  /** Rows of a full warm batch are the last copies read. */
  lemma LastCopiesReturned(warm: seq<Event>, rows: seq<Event>)
    requires rows == Sorted(RowsOf(Merged(warm, [])))
    ensures forall x :: x in rows <==> IsLastCopy(warm, x)
  {
    var m := PutAll(map[], warm);
    PutAllIs(map[], warm);
    forall i | LastCopy(warm, i) ensures warm[i] in RowsOf(m) { LastCopyWins(map[], warm, i); }
    forall x | x in RowsOf(m) ensures IsLastCopy(warm, x) {
      var i := LastIndex(warm, x.id);
      LastCopyWins(map[], warm, i);
    }
  }

  lemma {:induction false} LastIndex(rows: seq<Event>, id: nat) returns (i: nat)
    requires id in Ids(rows)
    ensures LastCopy(rows, i) && rows[i].id == id
    decreases |rows|
  {
    var k := |rows| - 1;
    if rows[k].id == id {
      i := k;
    } else {
      assert id in Ids(rows[..k]) by {
        var j :| 0 <= j < |rows| && rows[j].id == id;
        assert rows[..k][j] == rows[j];
      }
      i := LastIndex(rows[..k], id);
      assert rows[..k][i] == rows[i];
    }
  }

  /**
   A poll prefers the live copy of every event exactly when the listed rows leave room in the batch, or none
   of those read is a stale copy: a batch filled from the warm tier does not look at the live table.
   */
  lemma LiveCopyWinsExactly(s: Store, files: Files, last: int, f: Query.Filter, batch: nat, covering: seq<Name>)
    requires Tidy(s) && batch > 0
    requires IsCovering(covering, s, files, last, f) && |covering| <= 123
    requires Resolved(s, files, last, f, batch, covering).Ok?
    ensures LiveWins(s, Resolved(s, files, last, f, batch, covering).value)
       <==> !(SpillFills(s, last, f, batch, covering) && StaleFetched(s, last, f, batch, covering))
  {
    if SpillFills(s, last, f, batch, covering) {
      SpillIsRead(s, files, last, f, batch, covering);
      FillsListing(s, last, f, batch, covering);
      var warm := Collect(s.buckets, files, covering, last, f, batch).value;
      WarmIs(s, files, covering, last, f, batch);
      WarmAlone(s, warm, last, f, batch);
      LastCopiesReturned(warm, Resolved(s, files, last, f, batch, covering).value);
      LastCopiesFetched(s.buckets, covering, last, f, batch);
    } else {
      RoomIsExact(s, files, last, f, batch, covering);
    }
  }

  /** One of the first `batch` events of the merged view has a bucket row that differs from its live row. */
  ghost predicate StaleInView(s: Store, batch: nat, view: seq<Event>) {
    exists k, n, x :: 0 <= k < |view| && k < batch && view[k] in s.live
                      && n in s.buckets && x in s.buckets[n].rows && x.id == view[k].id && x != view[k]
  }

  /** The same, seen from the merged view, when no id sits in two buckets and the poll is not overtaken. */
  lemma LiveCopyWinsInView(s: Store, files: Files, last: int, f: Query.Filter, batch: nat, covering: seq<Name>,
                           view: seq<Event>)
    requires Tidy(s) && InOrder(s) && NoSharedIds(s.buckets) && batch > 0
    requires IsCovering(covering, s, files, last, f) && |covering| <= 123
    requires Resolved(s, files, last, f, batch, covering).Ok?
    requires MergedView(s, last, f, view) && !Overtaken(s, files, last, f, batch, covering)
    ensures LiveWins(s, Resolved(s, files, last, f, batch, covering).value)
       <==> !(SpillFills(s, last, f, batch, covering) && StaleInView(s, batch, view))
  {
    LiveCopyWinsExactly(s, files, last, f, batch, covering);
    if SpillFills(s, last, f, batch, covering) {
      PollIsMergedView(s, files, last, f, batch, covering, view);
      FilledIsBatch(s, files, last, f, batch, covering);
      StaleEitherWay(s, last, f, batch, covering, view, Resolved(s, files, last, f, batch, covering).value);
    }
  }

  lemma StaleEitherWay(s: Store, last: int, f: Query.Filter, batch: nat, covering: seq<Name>, view: seq<Event>,
                       rows: seq<Event>)
    requires StoreOk(s) && AllThere(s.buckets, covering) && NoSharedIds(s.buckets) && MergedView(s, last, f, view)
    requires FirstOf(rows, view) && |rows| == batch
    requires Ids(rows) == Ids(Limit(Listed(s.buckets, covering, last, f), batch))
    ensures StaleFetched(s, last, f, batch, covering) <==> StaleInView(s, batch, view)
  {
    if StaleFetched(s, last, f, batch, covering) {
      var i, x :| LastFetched(s.buckets, covering, last, f, batch, i, x) && x.id in Ids(s.live) && x !in s.live;
      FetchedIsSeen(s, last, f, batch, covering, view, rows, i, x);
    }
    if StaleInView(s, batch, view) {
      var k, n, x :| 0 <= k < |view| && k < batch && view[k] in s.live
                     && n in s.buckets && x in s.buckets[n].rows && x.id == view[k].id && x != view[k];
      SeenIsFetched(s, last, f, batch, covering, view, rows, k, n, x);
    }
  }

  lemma FetchedIsSeen(s: Store, last: int, f: Query.Filter, batch: nat, covering: seq<Name>, view: seq<Event>,
                      rows: seq<Event>, i: int, x: Event)
    requires StoreOk(s) && AllThere(s.buckets, covering) && MergedView(s, last, f, view)
    requires FirstOf(rows, view) && |rows| == batch
    requires Ids(rows) == Ids(Limit(Listed(s.buckets, covering, last, f), batch))
    requires Fetched(s.buckets, covering, last, f, batch, i, x) && x.id in Ids(s.live) && x !in s.live
    ensures StaleInView(s, batch, view)
  {
    FetchedRows(s.buckets, covering, last, f, batch);
    assert x.id in Ids(rows) && covering[i] in s.buckets;
    DiffersInView(s, last, f, batch, view, rows, covering[i], x);
  }

  lemma DiffersInView(s: Store, last: int, f: Query.Filter, batch: nat, view: seq<Event>, rows: seq<Event>,
                      n: Name, x: Event)
    requires MergedView(s, last, f, view) && FirstOf(rows, view) && |rows| == batch && x.id in Ids(rows)
    requires n in s.buckets && x in s.buckets[n].rows && x.id in Ids(s.live) && x !in s.live
    ensures StaleInView(s, batch, view)
  {
    var k :| 0 <= k < |rows| && rows[k].id == x.id;
    assert Bare(rows[k]).id == Bare(view[k]).id && view[k] in view;
  }

  lemma SeenIsFetched(s: Store, last: int, f: Query.Filter, batch: nat, covering: seq<Name>, view: seq<Event>,
                      rows: seq<Event>, k: int, n: Name, x: Event)
    requires StoreOk(s) && AllThere(s.buckets, covering) && NoSharedIds(s.buckets)
    requires FirstOf(rows, view) && |rows| == batch
    requires Ids(rows) == Ids(Limit(Listed(s.buckets, covering, last, f), batch))
    requires 0 <= k < |view| && k < batch && view[k] in s.live
    requires n in s.buckets && x in s.buckets[n].rows && x.id == view[k].id && x != view[k]
    ensures StaleFetched(s, last, f, batch, covering)
  {
    assert Bare(rows[k]).id == Bare(view[k]).id && rows[k] in rows;
    assert x.id in Ids(rows);
    OneCopyFetched(s, last, f, batch, covering, n, x);
    AscendingUnlike(s.live, view[k], x);
  }

  lemma AscendingUnlike(rows: seq<Event>, a: Event, b: Event)
    requires Ascending(rows) && a in rows && a.id == b.id && a != b
    ensures b !in rows && b.id in Ids(rows)
  {
    if b in rows { AscendingUniqueIds(rows, a, b); }
  }

  /** The only bucket row of a fetched id is the row fetched. */
  lemma OneCopyFetched(s: Store, last: int, f: Query.Filter, batch: nat, covering: seq<Name>, n: Name, x: Event)
    requires StoreOk(s) && AllThere(s.buckets, covering) && NoSharedIds(s.buckets)
    requires n in s.buckets && x in s.buckets[n].rows
    requires x.id in Ids(Limit(Listed(s.buckets, covering, last, f), batch))
    ensures exists i :: LastFetched(s.buckets, covering, last, f, batch, i, x)
  {
    var p := LastIndex(Limit(Listed(s.buckets, covering, last, f), batch), x.id);
    var i := LastIsFetched(s.buckets, covering, last, f, batch, p);
    assert covering[i] in s.buckets;
    OnlyCopy(s, n, x, covering[i], Limit(Listed(s.buckets, covering, last, f), batch)[p]);
  }

  lemma OnlyCopy(s: Store, n: Name, x: Event, m: Name, z: Event)
    requires StoreOk(s) && NoSharedIds(s.buckets) && n in s.buckets && m in s.buckets
    requires x in s.buckets[n].rows && z in s.buckets[m].rows && x.id == z.id
    ensures x == z
  {
    assert x.id in Ids(s.buckets[n].rows) && z.id in Ids(s.buckets[m].rows);
    if n == m { AscendingUniqueIds(s.buckets[n].rows, x, z); }
  }

  /** One bucket holding two rows, and one live row. */
  function Small(live: Event, n: Name, a: Event, b: Event): (s: Store) {
    Store([live], map[n := Bucket(Complete, [a, b], Some(a.id), Some(b.id), false)])
  }

  lemma SmallIsTidy(live: Event, n: Name, a: Event, b: Event)
    requires a.id == 1 && b.id == 2 && Bare(live) == Bare(b)
    ensures var s := Small(live, n, a, b); Tidy(s) && Closed(s) && MinsOrdered(s)
  {
    var s := Small(live, n, a, b);
    assert Ids([a, b]) == {1, 2} by { assert a in [a, b] && b in [a, b]; }
    assert Ids([live]) == {2} by { assert live in [live]; }
    SmallIsSeen(s, n);
    assert CoveredIn(s, n, 1);
    assert forall e :: Holds(s, e) ==> e == live || e == a || e == b;
  }

  lemma SmallIsSeen(s: Store, n: Name)
    requires s.buckets.Keys == {n} && Ids(s.buckets[n].rows) == {1, 2} && Ids(s.live) == {2}
    ensures forall id: nat :: (InWarm(s, id) <==> id == 1 || id == 2) && (InView(s, id) <==> id == 1 || id == 2)
  {
  }

  /**
   Two events copied to their bucket, the first deleted, the second held and then renamed: a poll for two
   rows returns the second under its old key.
   */
  lemma StaleCopyReturned(a: Event, b: Event, key: string, n: Name, files: Files)
    requires a.id == 1 && b.id == 2 && key != b.key && files == Files({}, {})
    ensures var s, f := Small(b.(key := key), n, a, b), Query.Filter("", "", "");
            && Tidy(s) && Closed(s) && MinsOrdered(s) && IsCovering([n], s, files, 0, f)
            && Resolved(s, files, 0, f, 2, [n]) == Ok([a, b])
            && !LiveWins(s, [a, b])
  {
    var s, f := Small(b.(key := key), n, a, b), Query.Filter("", "", "");
    SmallIsTidy(b.(key := key), n, a, b);
    SameRows(Where(s.live, Matching(f)), s.live);
    assert b.(key := key) in s.live;
    SmallIsCovered(s, n, files);
    TwoRowsCollected(s, n, a, b, files);
    OrderedWarm(s, [a, b], 0, f, 2);
  }

  lemma SmallIsCovered(s: Store, n: Name, files: Files)
    requires s.buckets.Keys == {n} && Covers(s.buckets[n], 0, 1) && files == Files({}, {})
    requires GapEnd(s.live, Query.Filter("", "", "")) == 1
    ensures IsCovering([n], s, files, 0, Query.Filter("", "", ""))
  {
  }

  lemma TwoRowsCollected(s: Store, n: Name, a: Event, b: Event, files: Files)
    requires n in s.buckets && s.buckets[n].rows == [a, b] && !s.buckets[n].schema.NoTables?
    requires a.id == 1 && b.id == 2 && files == Files({}, {})
    ensures Collect(s.buckets, files, [n], 0, Query.Filter("", "", ""), 2) == Ok([a, b])
  {
    assert [n][..0] == [];
    assert Collect(s.buckets, files, [], 0, Query.Filter("", "", ""), 2) == Ok([]);
    TwoRowsWanted(a, b);
  }

  lemma TwoRowsWanted(a: Event, b: Event)
    requires a.id == 1 && b.id == 2
    ensures [] + Limit(Where([a, b], Wanted(Query.Filter("", "", ""), 0)), 2 - 0) == [a, b]
  {
    SameRows(Where([a, b], Wanted(Query.Filter("", "", ""), 0)), [a, b]);
    assert [a, b][..2] == [a, b];
  }

  /** A full batch of warm rows that is in order already comes back as it is. */
  lemma OrderedWarm(s: Store, warm: seq<Event>, last: int, f: Query.Filter, batch: nat)
    requires |warm| == batch > 0 && Ascending(warm)
    ensures Combine(s, warm, last, f, batch) == warm
  {
    WarmAlone(s, warm, last, f, batch);
    JoinedRows(warm, []);
    var merged := Sorted(RowsOf(Merged(warm, [])));
    forall e | e in warm ensures e in merged {
      assert e.id in Ids(merged);
      var x :| x in merged && x.id == e.id;
      AscendingUniqueIds(warm, x, e);
    }
    SameRows(merged, warm);
  }

  // ---------------------------------------------------------------- when a held row stays live below warm ones

  /** A due event that is only in the warm tier, with less than a batch of matching live rows before it. */
  ghost predicate HiddenWarm(s: Store, last: int, f: Query.Filter, batch: nat) {
    exists y :: Due(s, last, f, y) && y.id !in Ids(s.live) && |Where(s.live, Below(f, last, y.id))| < batch
  }

  /**
   Without the order of tiers: a poll whose cursor has reached the oldest matching live row reads the live
   table only.  It skips nothing exactly when no due event is hidden in the warm tier.
   */
  lemma FastPathExact(s: Store, files: Files, last: int, f: Query.Filter, batch: nat, covering: seq<Name>)
    requires StoreOk(s) && Alike(s) && batch > 0 && last >= 0 && IsCovering(covering, s, files, last, f)
    requires var m := Where(s.live, Matching(f)); m != [] && last >= m[0].id
    ensures var r := Resolved(s, files, last, f, batch, covering);
            r.Ok? && (FirstDue(s, last, f, batch, r.value) <==> !HiddenWarm(s, last, f, batch))
  {
    FastAnswers(s, files, last, f, batch, covering);
    if HiddenWarm(s, last, f, batch) {
      HiddenIsSkipped(s, last, f, batch);
    } else {
      ShownUnlessHidden(s, last, f, batch);
    }
  }

  lemma FastAnswers(s: Store, files: Files, last: int, f: Query.Filter, batch: nat, covering: seq<Name>)
    requires last >= 0 && IsCovering(covering, s, files, last, f)
    requires var m := Where(s.live, Matching(f)); m != [] && last >= m[0].id
    ensures Resolved(s, files, last, f, batch, covering) == Ok(Limit(Where(s.live, Wanted(f, last)), batch))
  {
  }

  lemma HiddenIsSkipped(s: Store, last: int, f: Query.Filter, batch: nat)
    requires StoreOk(s) && batch > 0 && HiddenWarm(s, last, f, batch)
    ensures !FirstDue(s, last, f, batch, Limit(Where(s.live, Wanted(f, last)), batch))
  {
    LimitedSelection(s.live, Wanted(f, last), batch);
    var y :| Due(s, last, f, y) && y.id !in Ids(s.live) && |Where(s.live, Below(f, last, y.id))| < batch;
    AboveFullBatch(s.live, last, f, batch, y.id);
    assert y.id !in Ids(Limit(Where(s.live, Wanted(f, last)), batch));
  }

  lemma ShownUnlessHidden(s: Store, last: int, f: Query.Filter, batch: nat)
    requires StoreOk(s) && Alike(s) && batch > 0 && !HiddenWarm(s, last, f, batch)
    ensures FirstDue(s, last, f, batch, Limit(Where(s.live, Wanted(f, last)), batch))
  {
    var rows := Limit(Where(s.live, Wanted(f, last)), batch);
    LimitedSelection(s.live, Wanted(f, last), batch);
    forall y | Due(s, last, f, y) && y.id !in Ids(rows)
      ensures |rows| == batch && forall x | x in rows :: x.id < y.id
    {
      if y.id in Ids(s.live) {
        var z := CopyIsDue(s, last, f, y, s.live);
        assert z !in rows;
      } else {
        AboveFullBatch(s.live, last, f, batch, y.id);
      }
    }
  }

  /** An id that is not live comes after a full batch of matching rows exactly when a batch of them is below it. */
  lemma AboveFullBatch(live: seq<Event>, last: int, f: Query.Filter, batch: nat, id: nat)
    requires Ascending(live) && batch > 0 && id !in Ids(live)
    ensures var rows := Limit(Where(live, Wanted(f, last)), batch);
            (|rows| == batch && forall x | x in rows :: x.id < id) <==> |Where(live, Below(f, last, id))| >= batch
  {
    var all, low := Where(live, Wanted(f, last)), Where(live, Below(f, last, id));
    var rows := Limit(all, batch);
    AscendingTail(all, |rows|);
    IdsCount(rows);
    IdsCount(low);
    if |rows| == batch && forall x | x in rows :: x.id < id {
      forall x | x in rows ensures x in low { assert x in all; }
      SubsetSize(Ids(rows), Ids(low));
    }
    if |low| >= batch {
      IdsCount(all);
      SubsetSize(Ids(low), Ids(all));
      forall i | 0 <= i < |rows| ensures rows[i].id < id {
        assert all[i] in all;
        AtMostBefore(all, low, id, i);
      }
    }
  }

  /** A held row 1 and row 3 live, row 2 in its bucket: a poll from 1 goes straight to row 3. */
  lemma HeldRowHidesWarm(a: Event, b: Event, c: Event, n: Name, files: Files, covering: seq<Name>)
    requires a.id == 1 && b.id == 2 && c.id == 3
    requires var s := Store([a, c], map[n := Bucket(Complete, [b], Some(2), Some(2), true)]);
             IsCovering(covering, s, files, 1, Query.Filter("", "", ""))
    ensures var s, f := Store([a, c], map[n := Bucket(Complete, [b], Some(2), Some(2), true)]),
        Query.Filter("", "", "");
            Due(s, 1, f, b) && Resolved(s, files, 1, f, 100, covering) == Ok([c])
  {
    var s, f := Store([a, c], map[n := Bucket(Complete, [b], Some(2), Some(2), true)]), Query.Filter("", "", "");
    assert b in s.buckets[n].rows;
    SameRows(Where(s.live, Matching(f)), [a, c]);
    SameRows(Where(s.live, Wanted(f, 1)), [c]);
  }

  // ---------------------------------------------------------------- errors

  /** WB-003 names the oldest event still due: moving the cursor just below it skips nothing. */
  lemma BehindWindowSkipsNothing(s: Store, files: Files, last: int, f: Query.Filter, batch: nat, covering: seq<Name>)
    requires Tidy(s) && IsCovering(covering, s, files, last, f)
    requires var r := Resolved(s, files, last, f, batch, covering); r.Err? && r.error.BehindWindow?
    ensures var oldest := Resolved(s, files, last, f, batch, covering).error.oldest;
            && last + 1 < oldest
            && (exists e | e in s.live :: Due(s, last, f, e) && e.id == oldest)
            && (forall e | Due(s, last, f, e) :: e.id in Ids(s.live) && oldest <= e.id)
  {
    var m := Where(s.live, Matching(f));
    UnavailableBucket(s, files, AtMost(covering, ATTACH_CEILING), last, f, batch);
    assert m[0] in m;
    assert Due(s, last, f, m[0]);
    forall e | Due(s, last, f, e) ensures e.id in Ids(s.live) && m[0].id <= e.id {
      HeldIsSeen(s, e);
      DueIsLiveOrListed(s, files, last, f, covering, e.id);
      var z := CopyIsDue(s, last, f, e, s.live);
      var k :| 0 <= k < |m| && m[k] == z;
    }
  }

  /** Reading fails only on a listed bucket that cannot be attached. */
  lemma {:induction false} UnavailableBucket(s: Store, files: Files, read: seq<Name>,
                                             last: int, f: Query.Filter, batch: nat)
    requires forall n | n in read :: n in s.buckets
    ensures var r := Collect(s.buckets, files, read, last, f, batch);
            r.Err? ==> r.error.SpillBucketUnavailable? && r.error.name in read
                       && Unavailable(s.buckets, files, r.error.name)
    decreases |read|
  {
    if read != [] {
      UnavailableBucket(s, files, read[..|read| - 1], last, f, batch);
    }
  }

  /**
   When WB-003 is a false alarm: if no event between the cursor and the first matching live row has been
   deleted, it is raised exactly when no bucket is listed and a live row in between does not match.
   */
  lemma FalseAlarmExactly(s: Store, files: Files, last: int, f: Query.Filter, batch: nat, covering: seq<Name>)
    requires Tidy(s) && last >= 0 && IsCovering(covering, s, files, last, f)
    requires var m := Where(s.live, Matching(f));
             m != [] ==> forall id: nat | last < id < m[0].id :: InView(s, id)
    ensures var m, r := Where(s.live, Matching(f)), Resolved(s, files, last, f, batch, covering);
            r.Err? && r.error.BehindWindow? <==>
            m != [] && covering == [] && exists e | e in s.live :: last < e.id < m[0].id && !Matches(f, e)
  {
    var m := Where(s.live, Matching(f));
    RaisedExactly(s, files, last, f, batch, covering);
    if m != [] && covering == [] && last + 1 < m[0].id {
      DueIsLiveOrListed(s, files, last, f, covering, last + 1);
      var e :| e in s.live && e.id == last + 1;
      FirstMatchIsLowest(s, f, e);
    }
  }

  /** When WB-013 is raised: the poll spills, and a bucket that cannot be read is reached before the batch is full. */
  lemma UnavailableExactly(s: Store, files: Files, last: int, f: Query.Filter, batch: nat, covering: seq<Name>)
    requires StoreOk(s) && last >= 0
    requires IsCovering(covering, s, files, last, f) && AllThere(s.buckets, Attached(covering))
    ensures var m, r := Where(s.live, Matching(f)), Resolved(s, files, last, f, batch, covering);
            r.Err? && r.error.SpillBucketUnavailable? <==>
            (m == [] || last < m[0].id) && Blocked(s.buckets, files, Attached(covering), last, f, batch)
  {
    ListingIsThere(s, files, last, f, covering);
    AttachedAreThere(s.buckets, covering);
    ReadFails(s.buckets, files, Attached(covering), last, f, batch);
    UnavailableBucket(s, files, Attached(covering), last, f, batch);
  }

  /** A negative position is refused, and nothing else is. */
  lemma RefusedExactly(s: Store, files: Files, last: int, f: Query.Filter, batch: nat, covering: seq<Name>)
    requires IsCovering(covering, s, files, last, f)
    ensures Resolved(s, files, last, f, batch, covering) == Err(InvalidInput) <==> last < 0
  {
    UnavailableBucket(s, files, AtMost(covering, ATTACH_CEILING), last, f, batch);
  }

  lemma RaisedExactly(s: Store, files: Files, last: int, f: Query.Filter, batch: nat, covering: seq<Name>)
    requires IsCovering(covering, s, files, last, f) && last >= 0
    ensures var m, r := Where(s.live, Matching(f)), Resolved(s, files, last, f, batch, covering);
            r.Err? && r.error.BehindWindow? <==> m != [] && covering == [] && last + 1 < m[0].id
  {
    UnavailableBucket(s, files, AtMost(covering, ATTACH_CEILING), last, f, batch);
  }

  lemma FirstMatchIsLowest(s: Store, f: Query.Filter, e: Event)
    requires StoreOk(s) && e in s.live
    ensures var m := Where(s.live, Matching(f)); Matches(f, e) ==> m != [] && m[0].id <= e.id
  {
    var m := Where(s.live, Matching(f));
    if Matches(f, e) {
      assert e in m;
      var k :| 0 <= k < |m| && m[k] == e;
    }
  }

  /** Two live events that do not both match: WB-003 although nothing was ever deleted. */
  lemma FilteredPollRaises(a: Event, b: Event, files: Files)
    requires a.id == 1 && b.id == 2 && a.domain == "alpha" && b.domain == "beta"
    ensures var s, f := Store([a, b], map[]), Query.Filter("", "beta", "");
            IsCovering([], s, files, 0, f) && Resolved(s, files, 0, f, 100, []) == Err(BehindWindow(0, 2))
  {
    SameRows(Where([a, b], Matching(Query.Filter("", "beta", ""))), [b]);
  }
}
