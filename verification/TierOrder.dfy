/**
 How rows and recorded ranges are ordered across buckets when ids and clock rise together, every event
 lives equally long, and nothing is held, locked or discarded.  Every commit of a pass keeps the order,
 so the resolver's conditions hold at each step, and after a crash at any of them.
 */
module TierOrder {
  import opened Wrappers
  import opened Events
  import opened Archive
  import opened SweepV2
  import opened Resolution
  import opened TierRuns
  import Query

  /** The month in which an id was emitted. */
  type Calendar = nat -> int

  ghost predicate Rising(s: Store, mo: Calendar) {
    forall x, y | InView(s, x) && InView(s, y) && x <= y :: mo(x) <= mo(y)
  }

  /** What is live lies above what is not. */
  ghost predicate LiveOnTop(s: Store) {
    forall x: nat, y: nat | x in Ids(s.live) && InView(s, y) && y !in Ids(s.live) :: y < x
  }

  ghost predicate InMonth(s: Store, mo: Calendar) {
    forall n, id | n in s.buckets && id in Ids(s.buckets[n].rows) :: mo(id) == n.month
  }

  ghost predicate Recorded(s: Store, n: Name) {
    n in s.buckets && s.buckets[n].minId.Some?
  }

  ghost function Min(s: Store, n: Name): (id: nat)
    requires Recorded(s, n)
  {
    s.buckets[n].minId.value
  }

  /** The recorded lower bound is an event of the bucket's month. */
  ghost predicate MinIs(s: Store, n: Name, mo: Calendar)
    requires Recorded(s, n)
  {
    InView(s, Min(s, n)) && mo(Min(s, n)) == n.month
  }

  ghost predicate MinsReal(s: Store, mo: Calendar) {
    forall n | Recorded(s, n) :: MinIs(s, n, mo)
  }

  /** No live event of the month lies below the recorded bound. */
  ghost predicate MinsBelowLive(s: Store, mo: Calendar) {
    forall n, x | Recorded(s, n) && x in Ids(s.live) && mo(x) == n.month :: Min(s, n) <= x
  }

  /** Nor does a row of a later bucket of the month. */
  ghost predicate MinsBelowLater(s: Store) {
    forall q, p, y | Recorded(s, q) && p in s.buckets && q.month == p.month && q.suffix < p.suffix
                     && y in Ids(s.buckets[p].rows) ::
      Min(s, q) <= y
  }

  /** What is live below a row of its month's bucket is in that bucket as well. */
  ghost predicate LiveAbove(s: Store, mo: Calendar) {
    forall p, x, y | p in s.buckets && x in Ids(s.buckets[p].rows) && y in Ids(s.live) && y < x && mo(y) == p.month ::
      y in Ids(s.buckets[p].rows)
  }

  ghost predicate Ordered(s: Store, mo: Calendar) {
    && Rising(s, mo) && LiveOnTop(s) && InMonth(s, mo) && MinsReal(s, mo)
    && MinsBelowLive(s, mo) && MinsBelowLater(s) && LiveAbove(s, mo) && InOrder(s)
  }

  /** What a commit may rely on besides `Pre`. */
  ghost predicate Paged(s: Store, c: Commit, mo: Calendar) {
    match c
    case SetMin(n, id) =>
      && id in Ids(s.live) && mo(id) == n.month
      && (forall x | x in Ids(s.live) && mo(x) == n.month :: id <= x)
    case InsertRows(n, rows) =>
      && (forall x | x in Ids(rows) :: mo(x) == n.month)
      && (forall x, y | x in Ids(rows) && y in Ids(s.live) && y < x ::
            y in Ids(rows) || (mo(y) < n.month && Covered(s, y)))
    case SetRange(n) =>
      && n in s.buckets
      && forall x | x in Ids(s.live) && mo(x) == n.month && s.buckets[n].rows != [] :: s.buckets[n].rows[0].id <= x
    case DeleteLive(ids) =>
      forall x, y | x in Ids(s.live) && y in Ids(s.live) && y < x && x in ids :: y in ids
    case _ => true
  }

  // ---------------------------------------------------------------- commits that record nothing

  /** Same rows, same live table, same recorded lower bounds. */
  ghost predicate SameBounds(s: Store, r: Store) {
    && r.live == s.live
    && (forall n | n in s.buckets ::
          n in r.buckets && r.buckets[n].rows == s.buckets[n].rows && r.buckets[n].minId == s.buckets[n].minId)
    && (forall n | n in r.buckets && n !in s.buckets :: r.buckets[n].rows == [] && r.buckets[n].minId == None)
  }

  lemma ClosedGrows(s: Store, r: Store)
    requires Closed(s) && CoverGrows(s, r) && SameView(s, r)
    requires forall n | n in s.buckets :: n in r.buckets && r.buckets[n].rows == s.buckets[n].rows
    requires forall n | n in r.buckets && n !in s.buckets :: r.buckets[n].rows == []
    ensures Closed(r)
  {
    forall p, x: nat, y: nat | p in r.buckets && x in Ids(r.buckets[p].rows) && InView(r, y) && y < x
      ensures y in Ids(r.buckets[p].rows) || RecordedBefore(r, p, y)
    {
      assert p in s.buckets && InView(s, y);
      if y !in Ids(s.buckets[p].rows) {
        var q :| Before(q, p) && CoveredIn(s, q, y);
        assert CoveredIn(r, q, y);
      }
    }
  }

  lemma SameViewSameTop(s: Store, r: Store, mo: Calendar)
    requires SameView(s, r) && r.live == s.live
    ensures Rising(s, mo) ==> Rising(r, mo)
    ensures LiveOnTop(s) ==> LiveOnTop(r)
  {
    assert forall x :: InView(r, x) ==> InView(s, x);
  }

  lemma MinStaysReal(s: Store, r: Store, n: Name, mo: Calendar)
    requires SameView(s, r) && Recorded(s, n) && MinIs(s, n, mo) && Recorded(r, n) && Min(r, n) == Min(s, n)
    ensures MinIs(r, n, mo)
  {
  }

  lemma BoundsKeepOrder(s: Store, r: Store, mo: Calendar)
    requires Ordered(s, mo) && SameBounds(s, r) && CoverGrows(s, r) && SameView(s, r)
    ensures Ordered(r, mo)
  {
    ClosedGrows(s, r);
    SameViewSameTop(s, r, mo);
    BoundsKeepMins(s, r, mo);
    BoundsKeepRows(s, r, mo);
  }

  lemma BoundsKeepMins(s: Store, r: Store, mo: Calendar)
    requires SameBounds(s, r) && SameView(s, r) && MinsReal(s, mo) && MinsBelowLive(s, mo) && MinsOrdered(s)
    ensures MinsReal(r, mo) && MinsBelowLive(r, mo) && MinsOrdered(r)
  {
    forall n | Recorded(r, n) ensures MinIs(r, n, mo) {
      assert Recorded(s, n);
      MinStaysReal(s, r, n, mo);
    }
    forall n, x | Recorded(r, n) && x in Ids(r.live) && mo(x) == n.month ensures Min(r, n) <= x {
      assert Recorded(s, n);
    }
  }

  lemma BoundsKeepRows(s: Store, r: Store, mo: Calendar)
    requires SameBounds(s, r) && InMonth(s, mo) && MinsBelowLater(s) && LiveAbove(s, mo) && RowsApart(s)
    ensures InMonth(r, mo) && MinsBelowLater(r) && LiveAbove(r, mo) && RowsApart(r)
  {
    SameRowsStay(s, r, mo);
    forall q, p, y | Recorded(r, q) && p in r.buckets && q.month == p.month && q.suffix < p.suffix
                     && y in Ids(r.buckets[p].rows)
      ensures Min(r, q) <= y
    {
      LaterRowStays(s, r, q, p, y);
    }
  }

  /** Same rows in every bucket, and nothing new live. */
  lemma SameRowsStay(s: Store, r: Store, mo: Calendar)
    requires LiveAbove(s, mo) && RowsApart(s) && Ids(r.live) <= Ids(s.live)
    requires forall p | p in r.buckets ::
               Ids(r.buckets[p].rows) == if p in s.buckets then Ids(s.buckets[p].rows) else {}
    ensures LiveAbove(r, mo) && RowsApart(r)
  {
  }

  lemma LaterRowStays(s: Store, r: Store, q: Name, p: Name, y: nat)
    requires MinsBelowLater(s) && Recorded(r, q) && Recorded(s, q) && Min(r, q) == Min(s, q)
    requires p in s.buckets && y in Ids(s.buckets[p].rows) && q.month == p.month && q.suffix < p.suffix
    ensures Min(r, q) <= y
  {
  }

  // ---------------------------------------------------------------- recording a lower bound

  /** `r` is `s` with the lower bound of the last bucket `n` of its month recorded as `id`. */
  ghost predicate BoundSet(s: Store, r: Store, n: Name, id: nat) {
    && r.live == s.live && r.buckets.Keys == s.buckets.Keys && n in s.buckets
    && (forall p | p in s.buckets && p != n :: r.buckets[p] == s.buckets[p])
    && r.buckets[n].rows == s.buckets[n].rows && r.buckets[n].minId == Some(id)
    && (forall p | p in s.buckets && p.month == n.month :: p.suffix <= n.suffix)
  }

  lemma MonthsOrderMins(s: Store, p: Name, q: Name, mo: Calendar)
    requires Rising(s, mo) && Recorded(s, p) && Recorded(s, q) && MinIs(s, p, mo) && MinIs(s, q, mo)
    requires q.month < p.month
    ensures Min(s, q) < Min(s, p)
  {
  }

  lemma BoundKeepsOrder(s: Store, r: Store, n: Name, id: nat, mo: Calendar)
    requires Ordered(s, mo) && BoundSet(s, r, n, id) && CoverGrows(s, r) && SameView(s, r)
    requires InView(s, id) && mo(id) == n.month
    requires forall x | x in Ids(s.live) && mo(x) == n.month :: id <= x
    requires forall q | Recorded(s, q) && q.month == n.month && q.suffix < n.suffix :: Min(s, q) <= id
    ensures Ordered(r, mo)
  {
    ClosedGrows(s, r);
    SameViewSameTop(s, r, mo);
    BoundKeepsMins(s, r, n, id, mo);
    BoundKeepsRows(s, r, n, id, mo);
    BoundKeepsMinsOrdered(s, r, n, id, mo);
  }

  lemma BoundKeepsMins(s: Store, r: Store, n: Name, id: nat, mo: Calendar)
    requires BoundSet(s, r, n, id) && SameView(s, r) && MinsReal(s, mo) && MinsBelowLive(s, mo)
    requires InView(s, id) && mo(id) == n.month
    requires forall x | x in Ids(s.live) && mo(x) == n.month :: id <= x
    ensures MinsReal(r, mo) && MinsBelowLive(r, mo)
  {
    forall p | Recorded(r, p) ensures MinIs(r, p, mo) {
      if p != n {
        assert Recorded(s, p);
        MinStaysReal(s, r, p, mo);
      }
    }
    forall p, x | Recorded(r, p) && x in Ids(r.live) && mo(x) == p.month ensures Min(r, p) <= x {
      if p != n { assert Recorded(s, p); }
    }
  }

  lemma BoundKeepsRows(s: Store, r: Store, n: Name, id: nat, mo: Calendar)
    requires BoundSet(s, r, n, id) && InMonth(s, mo) && MinsBelowLater(s) && LiveAbove(s, mo) && RowsApart(s)
    ensures InMonth(r, mo) && MinsBelowLater(r) && LiveAbove(r, mo) && RowsApart(r)
  {
    SameRowsStay(s, r, mo);
    forall q, p, y | Recorded(r, q) && p in r.buckets && q.month == p.month && q.suffix < p.suffix
                     && y in Ids(r.buckets[p].rows)
      ensures Min(r, q) <= y
    {
      assert q != n;
      LaterRowStays(s, r, q, p, y);
    }
  }

  lemma BoundKeepsMinsOrdered(s: Store, r: Store, n: Name, id: nat, mo: Calendar)
    requires BoundSet(s, r, n, id) && Rising(r, mo) && MinsReal(r, mo) && MinsOrdered(s)
    requires forall q | Recorded(s, q) && q.month == n.month && q.suffix < n.suffix :: Min(s, q) <= id
    ensures MinsOrdered(r)
  {
    forall p, q | p in r.buckets && q in r.buckets && Before(q, p)
                  && r.buckets[q].minId.Some? && r.buckets[p].minId.Some?
      ensures r.buckets[q].minId.value <= r.buckets[p].minId.value
    {
      assert Recorded(r, p) && Recorded(r, q);
      if q.month < p.month {
        MonthsOrderMins(r, p, q, mo);
      } else if p == n {
        assert Recorded(s, q);
      } else {
        assert q != n;
        assert Recorded(s, q) && Recorded(s, p);
      }
    }
  }

  // ---------------------------------------------------------------- inserting rows

  /** `r` is `s` with `rows` put into the last bucket `n` of its month. */
  ghost predicate RowsPut(s: Store, r: Store, n: Name, rows: seq<Event>) {
    && r.live == s.live && r.buckets.Keys == s.buckets.Keys && n in s.buckets
    && (forall p | p in s.buckets && p != n :: r.buckets[p] == s.buckets[p])
    && Ids(r.buckets[n].rows) == Ids(s.buckets[n].rows) + Ids(rows)
    && r.buckets[n].minId == s.buckets[n].minId
    && (forall p | p in s.buckets && p.month == n.month :: p.suffix <= n.suffix)
    && Ids(rows) <= Ids(s.live)
  }

  lemma PutKeepsOrder(s: Store, r: Store, n: Name, rows: seq<Event>, mo: Calendar)
    requires Ordered(s, mo) && WarmCovered(s)
    requires RowsPut(s, r, n, rows) && CoverGrows(s, r) && SameView(s, r)
    requires Paged(s, InsertRows(n, rows), mo)
    ensures Ordered(r, mo)
  {
    SameViewSameTop(s, r, mo);
    PutKeepsMins(s, r, n, rows, mo);
    PutKeepsRows(s, r, n, rows, mo);
    PutKeepsClosed(s, r, n, rows, mo);
    PutKeepsLiveAbove(s, r, n, rows, mo);
    PutKeepsApart(s, r, n, rows, mo);
  }

  lemma PutKeepsLiveAbove(s: Store, r: Store, n: Name, rows: seq<Event>, mo: Calendar)
    requires RowsPut(s, r, n, rows) && LiveAbove(s, mo) && Paged(s, InsertRows(n, rows), mo)
    ensures LiveAbove(r, mo)
  {
  }

  lemma PutKeepsApart(s: Store, r: Store, n: Name, rows: seq<Event>, mo: Calendar)
    requires RowsPut(s, r, n, rows) && LiveAbove(s, mo) && RowsApart(s) && InMonth(s, mo) && Rising(s, mo)
    requires Paged(s, InsertRows(n, rows), mo)
    ensures RowsApart(r)
  {
    forall p, q, x, y | p in r.buckets && q in r.buckets && Before(p, q)
                        && x in Ids(r.buckets[p].rows) && y in Ids(r.buckets[q].rows) && y < x
      ensures y in Ids(r.buckets[p].rows)
    {
      assert InView(s, x) by { assert x !in Ids(s.buckets[p].rows) ==> x in Ids(s.live); }
      assert InView(s, y) by { assert y !in Ids(s.buckets[q].rows) ==> y in Ids(s.live); }
      assert mo(y) <= mo(x);
    }
  }

  lemma PutKeepsMins(s: Store, r: Store, n: Name, rows: seq<Event>, mo: Calendar)
    requires RowsPut(s, r, n, rows) && SameView(s, r) && MinsReal(s, mo) && MinsBelowLive(s, mo) && MinsOrdered(s)
    ensures MinsReal(r, mo) && MinsBelowLive(r, mo) && MinsOrdered(r)
  {
    forall p | Recorded(r, p) ensures MinIs(r, p, mo) {
      assert Recorded(s, p);
      MinStaysReal(s, r, p, mo);
    }
    forall p, x | Recorded(r, p) && x in Ids(r.live) && mo(x) == p.month ensures Min(r, p) <= x {
      assert Recorded(s, p);
    }
  }

  lemma PutKeepsRows(s: Store, r: Store, n: Name, rows: seq<Event>, mo: Calendar)
    requires RowsPut(s, r, n, rows) && InMonth(s, mo) && MinsBelowLive(s, mo) && MinsBelowLater(s)
    requires forall x | x in Ids(rows) :: mo(x) == n.month
    ensures InMonth(r, mo) && MinsBelowLater(r)
  {
    forall q, p, y | Recorded(r, q) && p in r.buckets && q.month == p.month && q.suffix < p.suffix
                     && y in Ids(r.buckets[p].rows)
      ensures Min(r, q) <= y
    {
      if y in Ids(s.buckets[p].rows) {
        LaterRowStays(s, r, q, p, y);
      } else {
        assert Recorded(s, q) && y in Ids(s.live) && mo(y) == q.month;
      }
    }
  }

  lemma PutKeepsClosed(s: Store, r: Store, n: Name, rows: seq<Event>, mo: Calendar)
    requires Closed(s) && Rising(s, mo) && InMonth(s, mo) && WarmCovered(s)
    requires RowsPut(s, r, n, rows) && CoverGrows(s, r) && SameView(s, r)
    requires Paged(s, InsertRows(n, rows), mo)
    ensures Closed(r)
  {
    forall p, x: nat, y: nat | p in r.buckets && x in Ids(r.buckets[p].rows) && InView(r, y) && y < x
      ensures y in Ids(r.buckets[p].rows) || RecordedBefore(r, p, y)
    {
      assert InView(s, y);
      if x in Ids(s.buckets[p].rows) {
        OldRowClosed(s, r, p, x, y);
      } else {
        NewRowClosed(s, r, n, rows, mo, x, y);
      }
    }
  }

  lemma OldRowClosed(s: Store, r: Store, p: Name, x: nat, y: nat)
    requires Closed(s) && CoverGrows(s, r) && p in s.buckets && p in r.buckets
    requires Ids(s.buckets[p].rows) <= Ids(r.buckets[p].rows)
    requires x in Ids(s.buckets[p].rows) && InView(s, y) && y < x
    ensures y in Ids(r.buckets[p].rows) || RecordedBefore(r, p, y)
  {
    if y !in Ids(s.buckets[p].rows) {
      var q :| Before(q, p) && CoveredIn(s, q, y);
      assert CoveredIn(r, q, y);
    }
  }

  lemma NewRowClosed(s: Store, r: Store, n: Name, rows: seq<Event>, mo: Calendar, x: nat, y: nat)
    requires Rising(s, mo) && InMonth(s, mo) && WarmCovered(s)
    requires RowsPut(s, r, n, rows) && CoverGrows(s, r)
    requires Paged(s, InsertRows(n, rows), mo)
    requires x in Ids(rows) && InView(s, y) && y < x
    ensures y in Ids(r.buckets[n].rows) || RecordedBefore(r, n, y)
  {
    assert InView(s, x) && mo(y) <= mo(x);
    if y !in Ids(rows) {
      assert Covered(s, y) by {
        if y !in Ids(s.live) { assert InWarm(s, y); }
      }
      var q :| CoveredIn(s, q, y);
      assert mo(y) == q.month && CoveredIn(r, q, y);
      assert q == n || Before(q, n);
    }
  }

  // ---------------------------------------------------------------- deleting what was moved

  lemma DeleteKeepsOrder(s: Store, ids: set<nat>, mo: Calendar)
    requires Sound(s) && Ordered(s, mo) && Pre(s, DeleteLive(ids)) && Paged(s, DeleteLive(ids), mo)
    ensures Ordered(Apply(s, DeleteLive(ids)), mo)
  {
    var r := Apply(s, DeleteLive(ids));
    DeleteKeeps(s, ids);
    DeletedIds(s.live, ids);
    assert r.live == Where(s.live, (e: Event) => e.id !in ids);
    ClosedGrows(s, r);
    forall n | Recorded(r, n) ensures MinIs(r, n, mo) {
      assert Recorded(s, n);
      MinStaysReal(s, r, n, mo);
    }
    forall n, x | Recorded(r, n) && x in Ids(r.live) && mo(x) == n.month ensures Min(r, n) <= x {
      assert Recorded(s, n);
    }
    DeleteKeepsTop(s, r, ids, mo);
    DeleteKeepsRows(s, r, mo);
  }

  lemma DeleteKeepsTop(s: Store, r: Store, ids: set<nat>, mo: Calendar)
    requires Ids(r.live) == Ids(s.live) - ids && SameView(s, r) && Rising(s, mo) && LiveOnTop(s)
    requires Paged(s, DeleteLive(ids), mo)
    ensures Rising(r, mo) && LiveOnTop(r)
  {
    forall x, y | InView(r, x) && InView(r, y) && x <= y ensures mo(x) <= mo(y) { assert InView(s, x) && InView(s, y); }
    forall x: nat, y: nat | x in Ids(r.live) && InView(r, y) && y !in Ids(r.live) ensures y < x {
      assert InView(s, y);
      if y in Ids(s.live) {
        assert x < y ==> x in ids;
      }
    }
  }

  lemma DeleteKeepsRows(s: Store, r: Store, mo: Calendar)
    requires r.buckets == s.buckets && InMonth(s, mo) && MinsBelowLater(s) && MinsOrdered(s)
    requires LiveAbove(s, mo) && RowsApart(s) && Ids(r.live) <= Ids(s.live)
    ensures InMonth(r, mo) && MinsBelowLater(r) && MinsOrdered(r) && LiveAbove(r, mo) && RowsApart(r)
  {
    SameRowsStay(s, r, mo);
    forall q, p, y | Recorded(r, q) && p in r.buckets && q.month == p.month && q.suffix < p.suffix
                     && y in Ids(r.buckets[p].rows)
      ensures Min(r, q) <= y
    {
      assert Recorded(s, q);
    }
  }

  // ---------------------------------------------------------------- every commit

  lemma MinCommitSetsBound(s: Store, n: Name, id: nat)
    requires StoreOk(s) && Pre(s, SetMin(n, id))
    ensures BoundSet(s, Apply(s, SetMin(n, id)), n, id)
  {
  }

  lemma RangeCommitSetsBound(s: Store, n: Name)
    requires StoreOk(s) && Pre(s, SetRange(n)) && s.buckets[n].rows != []
    ensures BoundSet(s, Apply(s, SetRange(n)), n, s.buckets[n].rows[0].id)
  {
  }

  lemma InsertPutsRows(s: Store, n: Name, rows: seq<Event>)
    requires Sound(s) && Pre(s, InsertRows(n, rows))
    ensures RowsPut(s, Apply(s, InsertRows(n, rows)), n, rows)
  {
    InsertedRows(s, n, rows);
  }

  lemma PlainCommitSameBounds(s: Store, c: Commit)
    requires StoreOk(s) && Pre(s, c)
    requires c.Seal? || c.CreateFile? || c.CreateEvents? || c.CreateMeta? || c.SetMax?
             || (c.SetRange? && s.buckets[c.name].rows == [])
    ensures SameBounds(s, Apply(s, c))
  {
  }

  lemma RangeKeepsOrder(s: Store, n: Name, mo: Calendar)
    requires Sound(s) && Ordered(s, mo) && Pre(s, SetRange(n)) && Paged(s, SetRange(n), mo) && s.buckets[n].rows != []
    requires Kept(s, Apply(s, SetRange(n)))
    ensures Ordered(Apply(s, SetRange(n)), mo)
  {
    var r := Apply(s, SetRange(n));
    RangeCommitSetsBound(s, n);
    FirstIsReal(s, n, mo);
    BoundKeepsOrder(s, r, n, s.buckets[n].rows[0].id, mo);
  }

  lemma FirstIsReal(s: Store, n: Name, mo: Calendar)
    requires InMonth(s, mo) && MinsBelowLater(s) && n in s.buckets && s.buckets[n].rows != []
    ensures var id := s.buckets[n].rows[0].id;
            && InView(s, id) && mo(id) == n.month
            && (forall q | Recorded(s, q) && q.month == n.month && q.suffix < n.suffix :: Min(s, q) <= id)
  {
    assert s.buckets[n].rows[0] in s.buckets[n].rows;
    assert s.buckets[n].rows[0].id in Ids(s.buckets[n].rows);
  }

  lemma SetMinKeepsOrder(s: Store, n: Name, id: nat, mo: Calendar)
    requires Sound(s) && Ordered(s, mo) && Pre(s, SetMin(n, id)) && Paged(s, SetMin(n, id), mo)
    requires Kept(s, Apply(s, SetMin(n, id)))
    ensures Ordered(Apply(s, SetMin(n, id)), mo)
  {
    MinCommitSetsBound(s, n, id);
    LiveMinIsReal(s, n, id, mo);
    BoundKeepsOrder(s, Apply(s, SetMin(n, id)), n, id, mo);
  }

  lemma LiveMinIsReal(s: Store, n: Name, id: nat, mo: Calendar)
    requires MinsBelowLive(s, mo) && Paged(s, SetMin(n, id), mo)
    ensures InView(s, id) && mo(id) == n.month
    ensures forall q | Recorded(s, q) && q.month == n.month && q.suffix < n.suffix :: Min(s, q) <= id
  {
  }

  lemma CommitKeepsOrder(s: Store, c: Commit, mo: Calendar)
    requires Sound(s) && WarmCovered(s) && Ordered(s, mo) && Pre(s, c) && Paged(s, c, mo)
    ensures Ordered(Apply(s, c), mo)
  {
    CommitKeeps(s, c);
    if c.SetMin? {
      SetMinKeepsOrder(s, c.name, c.id, mo);
    } else if c.InsertRows? {
      InsertPutsRows(s, c.name, c.rows);
      PutKeepsOrder(s, Apply(s, c), c.name, c.rows, mo);
    } else if c.DeleteLive? {
      DeleteKeepsOrder(s, c.ids, mo);
    } else if c.SetRange? && s.buckets[c.name].rows != [] {
      RangeKeepsOrder(s, c.name, mo);
    } else {
      PlainCommitSameBounds(s, c);
      BoundsKeepOrder(s, Apply(s, c), mo);
    }
  }
}
