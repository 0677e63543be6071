/**
 Which rows a spill reads (lib/query.js): the matching rows of the listed buckets, one bucket after the
 other, until the batch is full.
 */
module Reading {
  import opened Wrappers
  import opened Events
  import opened Archive
  import opened Query

  ghost predicate AllThere(buckets: map<Name, Bucket>, names: seq<Name>) {
    forall n | n in names :: n in buckets && Ascending(buckets[n].rows)
  }

  /** The matching rows of the listed buckets, in the order in which they would be read. */
  ghost function Listed(buckets: map<Name, Bucket>, names: seq<Name>, last: int, f: Query.Filter): (rows: seq<Event>)
    requires AllThere(buckets, names)
    decreases |names|
  {
    if names == [] then []
    else
      var k := |names| - 1;
      Listed(buckets, names[..k], last, f) + Where(buckets[names[k]].rows, Wanted(f, last))
  }

  // ---------------------------------------------------------------- what is read, and when reading fails

  lemma LimitOfSum(a: seq<Event>, b: seq<Event>, n: nat)
    ensures |a| >= n ==> Limit(a + b, n) == Limit(a, n)
    ensures |a| < n ==> Limit(a + b, n) == a + Limit(b, n - |a|)
  {
  }

  /** Reading that succeeds returns the first rows of the listing. */
  lemma {:induction false} ReadIs(buckets: map<Name, Bucket>, files: Files, names: seq<Name>,
                                  last: int, f: Query.Filter, batch: nat)
    requires AllThere(buckets, names)
    ensures var r := Collect(buckets, files, names, last, f, batch);
            r.Ok? ==> r.value == Limit(Listed(buckets, names, last, f), batch)
    decreases |names|
  {
    if names != [] {
      var k := |names| - 1;
      ReadIs(buckets, files, names[..k], last, f, batch);
      LimitOfSum(Listed(buckets, names[..k], last, f), Where(buckets[names[k]].rows, Wanted(f, last)), batch);
    }
  }

  /** A bucket that cannot be read comes before the batch is full. */
  ghost predicate Blocked(buckets: map<Name, Bucket>, files: Files, names: seq<Name>,
                          last: int, f: Query.Filter, batch: nat)
    requires AllThere(buckets, names)
  {
    exists i | 0 <= i < |names| :: BlockedAt(buckets, files, names, last, f, batch, i)
  }

  ghost predicate BlockedAt(buckets: map<Name, Bucket>, files: Files, names: seq<Name>,
                            last: int, f: Query.Filter, batch: nat, i: nat)
    requires AllThere(buckets, names) && i < |names|
  {
    Unavailable(buckets, files, names[i]) && |Listed(buckets, names[..i], last, f)| < batch
  }

  lemma {:induction false} ReadFails(buckets: map<Name, Bucket>, files: Files, names: seq<Name>,
                                     last: int, f: Query.Filter, batch: nat)
    requires AllThere(buckets, names)
    ensures Collect(buckets, files, names, last, f, batch).Err? <==> Blocked(buckets, files, names, last, f, batch)
    decreases |names|
  {
    if names != [] {
      var k := |names| - 1;
      ReadFails(buckets, files, names[..k], last, f, batch);
      ReadIs(buckets, files, names[..k], last, f, batch);
      BlockedOneMore(buckets, files, names, last, f, batch, k);
    }
  }

  lemma BlockedOneMore(buckets: map<Name, Bucket>, files: Files, names: seq<Name>,
                       last: int, f: Query.Filter, batch: nat, k: nat)
    requires AllThere(buckets, names) && k + 1 == |names|
    ensures Blocked(buckets, files, names, last, f, batch)
       <==> Blocked(buckets, files, names[..k], last, f, batch)
            || BlockedAt(buckets, files, names, last, f, batch, k)
  {
    forall i: nat | i < k
      ensures BlockedAt(buckets, files, names, last, f, batch, i)
         <==> BlockedAt(buckets, files, names[..k], last, f, batch, i)
    {
      assert names[..k][..i] == names[..i];
    }
  }

  // ---------------------------------------------------------------- where a row stands in the listing

  function Below(f: Query.Filter, last: int, id: nat): Event -> bool {
    (e: Event) => e.id > last && Matches(f, e) && e.id < id
  }

  /** The rows that would be read before row `x` of bucket `i`. */
  ghost function Place(buckets: map<Name, Bucket>, names: seq<Name>, last: int, f: Query.Filter, i: nat, x: Event)
    : (k: nat)
    requires AllThere(buckets, names) && i < |names|
  {
    |Listed(buckets, names[..i], last, f)| + |Where(buckets[names[i]].rows, Below(f, last, x.id))|
  }

  /** Row `x` of bucket `i` is among the first `batch` rows of the listing. */
  ghost predicate Fetched(buckets: map<Name, Bucket>, names: seq<Name>, last: int, f: Query.Filter, batch: nat,
                          i: int, x: Event)
    requires AllThere(buckets, names)
  {
    && 0 <= i < |names| && x in buckets[names[i]].rows && Wanted(f, last)(x)
    && Place(buckets, names, last, f, i, x) < batch
  }

  /** A row of a table stands behind the selected rows with lower ids. */
  lemma {:induction false} RankIs(rows: seq<Event>, f: Query.Filter, last: int, x: Event)
    requires Ascending(rows) && x in rows && Wanted(f, last)(x)
    ensures var all, k := Where(rows, Wanted(f, last)), |Where(rows, Below(f, last, x.id))|;
            k < |all| && all[k] == x
    decreases |rows|
  {
    Tail(rows);
    if x == rows[0] {
      NoneBelow(rows, f, last, x);
    } else {
      RankIs(rows[1..], f, last, x);
    }
  }

  lemma NoneBelow(rows: seq<Event>, f: Query.Filter, last: int, x: Event)
    requires Ascending(rows) && rows != [] && x == rows[0]
    ensures Where(rows, Below(f, last, x.id)) == []
  {
    var low := Where(rows, Below(f, last, x.id));
    HeadIn(low);
    if low != [] { FirstIsLeast(rows, low[0]); }
  }

  lemma PrefixPlace(buckets: map<Name, Bucket>, names: seq<Name>, last: int, f: Query.Filter, k: nat, i: nat, x: Event)
    requires AllThere(buckets, names) && i < k <= |names|
    ensures Place(buckets, names[..k], last, f, i, x) == Place(buckets, names, last, f, i, x)
  {
    assert names[..k][..i] == names[..i];
  }

  /** A listed row stands at its place. */
  lemma {:induction false} PlaceIs(buckets: map<Name, Bucket>, names: seq<Name>, last: int, f: Query.Filter,
                                   i: nat, x: Event)
    requires AllThere(buckets, names) && i < |names| && x in buckets[names[i]].rows && Wanted(f, last)(x)
    ensures var all, k := Listed(buckets, names, last, f), Place(buckets, names, last, f, i, x);
            k < |all| && all[k] == x
    decreases |names|
  {
    var k := |names| - 1;
    if i == k {
      LastPlaceIs(buckets, names, last, f, x);
    } else {
      PlaceIs(buckets, names[..k], last, f, i, x);
      EarlierPlaceIs(buckets, names, last, f, i, x);
    }
  }

  lemma EarlierPlaceIs(buckets: map<Name, Bucket>, names: seq<Name>, last: int, f: Query.Filter, i: nat, x: Event)
    requires AllThere(buckets, names) && i < |names| - 1
    requires var before := names[..|names| - 1];
             var all, k := Listed(buckets, before, last, f), Place(buckets, before, last, f, i, x);
             k < |all| && all[k] == x
    ensures var all, k := Listed(buckets, names, last, f), Place(buckets, names, last, f, i, x);
            k < |all| && all[k] == x
  {
    var k := |names| - 1;
    PrefixPlace(buckets, names, last, f, k, i, x);
    assert Listed(buckets, names, last, f)
        == Listed(buckets, names[..k], last, f) + Where(buckets[names[k]].rows, Wanted(f, last));
    InFront(Listed(buckets, names[..k], last, f), Where(buckets[names[k]].rows, Wanted(f, last)),
            Place(buckets, names, last, f, i, x), x);
  }

  lemma LastPlaceIs(buckets: map<Name, Bucket>, names: seq<Name>, last: int, f: Query.Filter, x: Event)
    requires AllThere(buckets, names) && names != []
    requires x in buckets[names[|names| - 1]].rows && Wanted(f, last)(x)
    ensures var all, k := Listed(buckets, names, last, f), Place(buckets, names, last, f, |names| - 1, x);
            k < |all| && all[k] == x
  {
    var k := |names| - 1;
    RankIs(buckets[names[k]].rows, f, last, x);
    Behind(Listed(buckets, names[..k], last, f), Where(buckets[names[k]].rows, Wanted(f, last)),
           |Where(buckets[names[k]].rows, Below(f, last, x.id))|, x);
  }

  lemma Behind(a: seq<Event>, b: seq<Event>, j: nat, x: Event)
    requires j < |b| && b[j] == x
    ensures |a| + j < |a + b| && (a + b)[|a| + j] == x
  {
  }

  lemma InFront(a: seq<Event>, b: seq<Event>, j: nat, x: Event)
    requires j < |a| && a[j] == x
    ensures j < |a + b| && (a + b)[j] == x
  {
  }

  /** And every row of the listing has such a place. */
  lemma {:induction false} PlacedAt(buckets: map<Name, Bucket>, names: seq<Name>, last: int, f: Query.Filter, p: nat)
    returns (i: nat)
    requires AllThere(buckets, names) && p < |Listed(buckets, names, last, f)|
    ensures var x := Listed(buckets, names, last, f)[p];
            && i < |names| && x in buckets[names[i]].rows && Wanted(f, last)(x)
            && Place(buckets, names, last, f, i, x) == p
    decreases |names|
  {
    var k := |names| - 1;
    var before, mine := Listed(buckets, names[..k], last, f), Where(buckets[names[k]].rows, Wanted(f, last));
    if p < |before| {
      i := PlacedAt(buckets, names[..k], last, f, p);
      PrefixPlace(buckets, names, last, f, k, i, before[p]);
    } else {
      i := k;
      var x := mine[p - |before|];
      assert x in mine;
      RankIs(buckets[names[k]].rows, f, last, x);
      SameSpot(mine, |Where(buckets[names[k]].rows, Below(f, last, x.id))|, p - |before|);
    }
  }

  lemma SameSpot(rows: seq<Event>, i: nat, j: nat)
    requires Ascending(rows) && i < |rows| && j < |rows| && rows[i] == rows[j]
    ensures i == j
  {
  }

  /** What a successful reading returns: exactly the rows that stand among the first `batch`. */
  lemma FetchedRows(buckets: map<Name, Bucket>, names: seq<Name>, last: int, f: Query.Filter, batch: nat)
    requires AllThere(buckets, names)
    ensures forall x :: x in Limit(Listed(buckets, names, last, f), batch)
                   <==> exists i :: Fetched(buckets, names, last, f, batch, i, x)
  {
    var all := Listed(buckets, names, last, f);
    forall x | x in Limit(all, batch) ensures exists i :: Fetched(buckets, names, last, f, batch, i, x) {
      var p :| 0 <= p < |Limit(all, batch)| && Limit(all, batch)[p] == x;
      var i := PlacedAt(buckets, names, last, f, p);
      assert Fetched(buckets, names, last, f, batch, i, x);
    }
    forall x, i | Fetched(buckets, names, last, f, batch, i, x) ensures x in Limit(all, batch) {
      PlaceIs(buckets, names, last, f, i, x);
      assert Limit(all, batch)[Place(buckets, names, last, f, i, x)] == x;
    }
  }

  lemma {:induction false} ListedGrows(buckets: map<Name, Bucket>, names: seq<Name>, last: int, f: Query.Filter,
                                       j: nat, k: nat)
    requires AllThere(buckets, names) && j <= k <= |names|
    ensures |Listed(buckets, names[..j], last, f)| <= |Listed(buckets, names[..k], last, f)|
    decreases k
  {
    if j < k {
      ListedGrows(buckets, names, last, f, j, k - 1);
      assert names[..k][..k - 1] == names[..k - 1];
    }
  }

  /** Rows of earlier buckets, and lower rows of the same one, are read first. */
  lemma FetchedBelow(buckets: map<Name, Bucket>, names: seq<Name>, last: int, f: Query.Filter, batch: nat,
                     i: int, x: Event, k: int, z: Event)
    requires AllThere(buckets, names) && Fetched(buckets, names, last, f, batch, i, x)
    requires 0 <= k < |names| && z in buckets[names[k]].rows && Wanted(f, last)(z)
    requires k < i || (k == i && z.id <= x.id)
    ensures Fetched(buckets, names, last, f, batch, k, z)
    ensures Place(buckets, names, last, f, k, z) <= Place(buckets, names, last, f, i, x)
  {
    var rows := buckets[names[k]].rows;
    RankIs(rows, f, last, z);
    if k < i {
      assert names[..k + 1][..k] == names[..k];
      ListedGrows(buckets, names, last, f, k + 1, i);
    } else {
      RankIs(rows, f, last, x);
    }
  }

  // ---------------------------------------------------------------- copies

  ghost predicate NamesOnce(names: seq<Name>) {
    forall i, j | 0 <= i < j < |names| :: names[i] != names[j]
  }

  ghost predicate NoSharedIds(buckets: map<Name, Bucket>) {
    forall p, q | p in buckets && q in buckets && p != q :: Ids(buckets[p].rows) !! Ids(buckets[q].rows)
  }

  ghost predicate DistinctIds(rows: seq<Event>) {
    forall i, j | 0 <= i < j < |rows| :: rows[i].id != rows[j].id
  }

  lemma {:induction false} DistinctCount(rows: seq<Event>)
    requires DistinctIds(rows)
    ensures |Ids(rows)| == |rows|
    decreases |rows|
  {
    if rows != [] {
      var k := |rows| - 1;
      DistinctCount(rows[..k]);
      assert forall e :: e in rows <==> e in rows[..k] || e == rows[k];
      assert Ids(rows) == Ids(rows[..k]) + {rows[k].id};
      assert rows[k].id !in Ids(rows[..k]);
    }
  }

  lemma ListedDistinct(buckets: map<Name, Bucket>, names: seq<Name>, last: int, f: Query.Filter)
    requires AllThere(buckets, names) && NamesOnce(names) && NoSharedIds(buckets)
    ensures DistinctIds(Listed(buckets, names, last, f))
  {
    var all := Listed(buckets, names, last, f);
    forall p, q | 0 <= p < q < |all| ensures all[p].id != all[q].id {
      var i := PlacedAt(buckets, names, last, f, p);
      var k := PlacedAt(buckets, names, last, f, q);
      assert i == k ==> all[p].id != all[q].id;
      assert all[p].id in Ids(buckets[names[i]].rows) && all[q].id in Ids(buckets[names[k]].rows);
    }
  }

  /** No later listed bucket has a fetched row of this id. */
  ghost predicate LastFetched(buckets: map<Name, Bucket>, names: seq<Name>, last: int, f: Query.Filter, batch: nat,
                              i: int, x: Event)
    requires AllThere(buckets, names)
  {
    && Fetched(buckets, names, last, f, batch, i, x)
    && forall k, z | Fetched(buckets, names, last, f, batch, k, z) && z.id == x.id :: k <= i
  }

  /** The last copies read are the ones in the last listed bucket that has one among the first `batch` rows. */
  lemma LastCopiesFetched(buckets: map<Name, Bucket>, names: seq<Name>, last: int, f: Query.Filter, batch: nat)
    requires AllThere(buckets, names)
    ensures forall x :: IsLastCopy(Limit(Listed(buckets, names, last, f), batch), x)
                   <==> exists i :: LastFetched(buckets, names, last, f, batch, i, x)
  {
    var warm := Limit(Listed(buckets, names, last, f), batch);
    forall x | IsLastCopy(warm, x) ensures exists i :: LastFetched(buckets, names, last, f, batch, i, x) {
      var p :| LastCopy(warm, p) && warm[p] == x;
      var i := LastIsFetched(buckets, names, last, f, batch, p);
    }
    forall x, i | LastFetched(buckets, names, last, f, batch, i, x) ensures IsLastCopy(warm, x) {
      FetchedIsLast(buckets, names, last, f, batch, i, x);
    }
  }

  ghost predicate IsLastCopy(rows: seq<Event>, x: Event) {
    exists p :: LastCopy(rows, p) && rows[p] == x
  }

  lemma LastIsFetched(buckets: map<Name, Bucket>, names: seq<Name>, last: int, f: Query.Filter, batch: nat, p: nat)
    returns (i: nat)
    requires AllThere(buckets, names) && LastCopy(Limit(Listed(buckets, names, last, f), batch), p)
    ensures LastFetched(buckets, names, last, f, batch, i, Limit(Listed(buckets, names, last, f), batch)[p])
  {
    var all := Listed(buckets, names, last, f);
    var warm := Limit(all, batch);
    var x := warm[p];
    i := PlacedAt(buckets, names, last, f, p);
    forall k, z | Fetched(buckets, names, last, f, batch, k, z) && z.id == x.id ensures k <= i {
      PlaceIs(buckets, names, last, f, k, z);
      var q := Place(buckets, names, last, f, k, z);
      assert warm[q] == z;
      if k > i { FetchedBelow(buckets, names, last, f, batch, k, z, i, x); }
      if k > i && q == p {
        assert z == x;
        PlaceApart(buckets, names, last, f, i, x, k);
      }
    }
  }

  /** The same row in a later bucket stands later. */
  lemma PlaceApart(buckets: map<Name, Bucket>, names: seq<Name>, last: int, f: Query.Filter, i: nat, x: Event, k: nat)
    requires AllThere(buckets, names) && i < k < |names| && x in buckets[names[i]].rows && Wanted(f, last)(x)
    ensures Place(buckets, names, last, f, i, x) < Place(buckets, names, last, f, k, x)
  {
    RankIs(buckets[names[i]].rows, f, last, x);
    assert names[..i + 1][..i] == names[..i];
    ListedGrows(buckets, names, last, f, i + 1, k);
  }

  lemma FetchedIsLast(buckets: map<Name, Bucket>, names: seq<Name>, last: int, f: Query.Filter, batch: nat,
                      i: int, x: Event)
    requires AllThere(buckets, names) && LastFetched(buckets, names, last, f, batch, i, x)
    ensures var warm, p := Limit(Listed(buckets, names, last, f), batch), Place(buckets, names, last, f, i, x);
            LastCopy(warm, p) && warm[p] == x
  {
    var all := Listed(buckets, names, last, f);
    var warm, p := Limit(all, batch), Place(buckets, names, last, f, i, x);
    PlaceIs(buckets, names, last, f, i, x);
    forall q | p < q < |warm| ensures warm[q].id != x.id {
      var k := PlacedAt(buckets, names, last, f, q);
      if warm[q].id == x.id {
        assert Fetched(buckets, names, last, f, batch, k, warm[q]);
        FetchedBelow(buckets, names, last, f, batch, i, x, k, warm[q]);
      }
    }
  }
}
