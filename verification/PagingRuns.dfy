/**
 Runs of a consumer that pages with the cross-tier resolver while others emit, release keys and sweep.  Ids
 are contiguous, the clock does not go back, every event lives equally long, nothing is held, locked or
 discarded, and polls are unfiltered.
 */
module PagingRuns {
  import opened Wrappers
  import opened Events
  import opened Archive
  import opened SweepV2
  import opened Reading
  import opened Resolution
  import opened TierOrder
  import opened Paging
  import TierRuns
  import Query
  import Batches

  /** `tier.emitted` holds everything emitted so far, as it was emitted. */
  datatype Pager = Pager(
    tier: TierRuns.Tier,
    cursor: nat,
    delivered: seq<Event>)   // everything the consumer has been handed, in order

  datatype Act =
    | Emit(e: Event)
    | Release(id: nat, key: string)
    | BeginPass(now: int, batch: nat, full: set<Name>)
    | Commit
    | CrashPass
    | Poll(files: Query.Files, batch: nat, covering: seq<Name>)

  /** When each id is emitted, the calendar, and the lifetime every event gets. */
  datatype World = World(clock: nat -> int, month: int -> int, ttl: int)

  /** Neither the clock nor the calendar goes back. */
  ghost predicate WorldOk(w: World) {
    && (forall i, j | i <= j :: w.clock(i) <= w.clock(j))
    && (forall a, b | a <= b :: w.month(a) <= w.month(b))
  }

  function MonthOf(w: World): (mo: Calendar) {
    (id: nat) => w.month(w.clock(id))
  }

  const ALL := Query.Filter("", "", "")

  ghost function PassEnv(w: World, full: set<Name>): Env {
    Env(w.month, full, {})
  }

  ghost predicate Enabled(p: Pager, a: Act, w: World) {
    match a
    case Emit(e) =>
      && e.id == p.tier.nextId && e.id <= MAX_SAFE_INTEGER
      && e.emittedAt == w.clock(e.id) && e.expiresAt == e.emittedAt + w.ttl
    case Release(_, _) => true
    case BeginPass(_, _, _) => p.tier.pending == []
    case Commit => p.tier.pending != []
    case CrashPass => true
    case Poll(files, batch, covering) =>
      && batch > 0 && |covering| <= 123
      && Query.IsCovering(covering, p.tier.s, files, p.cursor, ALL)
  }

  ghost function Answer(p: Pager, a: Act): (r: Result<seq<Event>, Query.Error>)
    requires a.Poll? && Query.IsCovering(a.covering, p.tier.s, a.files, p.cursor, ALL)
  {
    Query.Resolved(p.tier.s, a.files, p.cursor, ALL, a.batch, a.covering)
  }

  /** The expired live rows a pass takes, one batch of them. */
  function Batch(s: Store, now: int, batch: nat): (rows: seq<Event>) {
    Batches.Candidates(s.live, now, {}, batch)
  }

  ghost function Step(p: Pager, a: Act, w: World): (r: Pager)
    requires StoreOk(p.tier.s) && Enabled(p, a, w)
  {
    match a
    case Emit(e) => p.(tier := TierRuns.Step(p.tier, TierRuns.Append(e)))
    case Release(id, key) => p.(tier := TierRuns.Step(p.tier, TierRuns.Release(id, key)))
    case BeginPass(now, batch, full) =>
      p.(tier := p.tier.(pending := Plan(p.tier.s, Batch(p.tier.s, now, batch), PassEnv(w, full), {})))
    case Commit => p.(tier := TierRuns.Step(p.tier, TierRuns.Next))
    case CrashPass => p.(tier := p.tier.(pending := []))
    case Poll(_, _, _) =>
      match Answer(p, a)
      case Ok(rows) => Handed(p, rows)
      case Err(_) => p
  }

  // ---------------------------------------------------------------- invariant

  /** What was emitted: ids from 1, by the clock, with one lifetime; and the tiers hold exactly that. */
  ghost predicate Chronicle(t: TierRuns.Tier, w: World) {
    && 1 <= t.nextId <= MAX_SAFE_INTEGER + 1
    && (forall id: nat :: id in t.emitted <==> 1 <= id < t.nextId)
    && (forall id | id in t.emitted :: OnTime(t.emitted[id], id, w))
    && (forall id :: InView(t.s, id) <==> id in t.emitted)
  }

  ghost predicate OnTime(e: Event, id: nat, w: World) {
    e.id == id && e.emittedAt == w.clock(id) && e.expiresAt == w.clock(id) + w.ttl
  }

  ghost predicate TierInv(t: TierRuns.Tier, w: World) {
    && TierRuns.Inv(t) && Chronicle(t, w)
    && Ordered(t.s, MonthOf(w)) && PagedAll(t.s, t.pending, MonthOf(w))
  }

  /** Row `i` handed over is event `i + 1` as it was emitted, up to a released key. */
  ghost predicate Delivered(rows: seq<Event>, emitted: map<nat, Event>) {
    forall i | 0 <= i < |rows| :: RowIs(rows[i], i + 1, emitted)
  }

  ghost predicate RowIs(row: Event, id: nat, emitted: map<nat, Event>) {
    row.id == id && id in emitted && Bare(row) == Bare(emitted[id])
  }

  ghost predicate Inv(p: Pager, w: World) {
    && TierInv(p.tier, w)
    && p.cursor < p.tier.nextId && HandedOver(p)
  }

  /** No event is handed over twice, or out of order, or as anything but what was emitted. */
  ghost predicate HandedOver(p: Pager) {
    && Ascending(p.delivered)
    && forall x | x in p.delivered :: 1 <= x.id <= p.cursor && TierRuns.IsCopy(x, p.tier.emitted)
  }

  /** Everything emitted up to the cursor has been handed over. */
  ghost predicate NothingSkipped(p: Pager) {
    |p.delivered| == p.cursor && Delivered(p.delivered, p.tier.emitted)
  }

  /** Every row of a tier carries the times of its id. */
  lemma RowOnTime(t: TierRuns.Tier, w: World, e: Event)
    requires TierRuns.AllCopies(t) && Chronicle(t, w) && Holds(t.s, e)
    ensures OnTime(e, e.id, w)
  {
    assert Bare(e) == Bare(t.emitted[e.id]);
    assert Bare(e).emittedAt == e.emittedAt && Bare(t.emitted[e.id]).emittedAt == t.emitted[e.id].emittedAt;
  }

  // ---------------------------------------------------------------- emits and releases

  lemma AppendKeepsOrdered(s: Store, e: Event, mo: Calendar)
    requires Sound(s) && Ordered(s, mo) && forall id: nat | InView(s, id) :: id < e.id && mo(id) <= mo(e.id)
    ensures Ordered(TierRuns.Appended(s, e), mo)
  {
    var r := TierRuns.Appended(s, e);
    TierRuns.AppendedIds(s, e);
    forall id ensures InWarm(r, id) <==> InWarm(s, id) {}
    forall id ensures InView(r, id) <==> InView(s, id) || id == e.id {}
    AppendKeepsMins(s, e, mo);
    AppendKeepsClosed(s, e);
    forall p, q, y | Recorded(r, q) && p in r.buckets && q.month == p.month && q.suffix < p.suffix
                     && y in Ids(r.buckets[p].rows)
      ensures Min(r, q) <= y
    {
      assert Recorded(s, q);
    }
  }

  lemma AppendKeepsMins(s: Store, e: Event, mo: Calendar)
    requires MinsReal(s, mo) && MinsBelowLive(s, mo) && forall id: nat | InView(s, id) :: id < e.id
    ensures MinsReal(TierRuns.Appended(s, e), mo) && MinsBelowLive(TierRuns.Appended(s, e), mo)
  {
    var r := TierRuns.Appended(s, e);
    TierRuns.AppendedIds(s, e);
    forall id ensures InWarm(r, id) <==> InWarm(s, id) {}
    forall n | Recorded(r, n) ensures MinIs(r, n, mo) && Min(r, n) < e.id {
      assert Recorded(s, n);
      assert MinIs(s, n, mo);
    }
    forall n, x | Recorded(r, n) && x in Ids(r.live) && mo(x) == n.month ensures Min(r, n) <= x {
      assert Recorded(s, n);
    }
  }

  lemma AppendKeepsClosed(s: Store, e: Event)
    requires Closed(s) && forall id: nat | InView(s, id) :: id < e.id
    ensures Closed(TierRuns.Appended(s, e))
  {
    var r := TierRuns.Appended(s, e);
    TierRuns.AppendedIds(s, e);
    forall p, x: nat, y: nat | p in r.buckets && x in Ids(r.buckets[p].rows) && InView(r, y) && y < x
      ensures y in Ids(r.buckets[p].rows) || RecordedBefore(r, p, y)
    {
      assert InView(s, x);
      assert InWarm(r, y) ==> InWarm(s, y);
      assert InView(s, y);
      if y !in Ids(r.buckets[p].rows) {
        var q :| Before(q, p) && CoveredIn(s, q, y);
        assert CoveredIn(r, q, y);
      }
    }
  }

  lemma EmitKeepsTier(t: TierRuns.Tier, e: Event, w: World)
    requires WorldOk(w) && TierInv(t, w) && Enabled(Pager(t, 0, []), Emit(e), w)
    ensures TierInv(TierRuns.Step(t, TierRuns.Append(e)), w)
  {
    var r := TierRuns.Step(t, TierRuns.Append(e));
    TierRuns.AppendKeeps(t, e);
    forall id: nat | InView(t.s, id) ensures id < e.id && MonthOf(w)(id) <= MonthOf(w)(e.id) {}
    AppendKeepsOrdered(t.s, e, MonthOf(w));
    AppendKeepsPagedAll(t.s, t.pending, e, MonthOf(w));
    EmitKeepsChronicle(t, e, w);
  }

  lemma EmitKeepsChronicle(t: TierRuns.Tier, e: Event, w: World)
    requires Chronicle(t, w) && StoreOk(t.s) && Enabled(Pager(t, 0, []), Emit(e), w)
    requires forall id :: InView(TierRuns.Appended(t.s, e), id) <==> InView(t.s, id) || id in Ids([e])
    ensures Chronicle(TierRuns.Step(t, TierRuns.Append(e)), w)
  {
    assert Ids([e]) == {e.id} by { assert e in [e]; }
  }

  lemma EmitKeeps(p: Pager, e: Event, w: World)
    requires WorldOk(w) && Inv(p, w) && Enabled(p, Emit(e), w)
    ensures Inv(Step(p, Emit(e), w), w)
  {
    EmitKeepsTier(p.tier, e, w);
  }

  lemma RenameKeepsOrdered(s: Store, id: nat, key: string, mo: Calendar)
    requires Ordered(s, mo)
    ensures Ordered(TierRuns.Renamed(s, id, key), mo)
  {
    var r := TierRuns.Renamed(s, id, key);
    WithKeysIds(s.live, map[id := key]);
    TierRuns.RenameKeepsCover(s, id, key);
    ClosedGrows(s, r);
    forall n | Recorded(r, n) ensures MinIs(r, n, mo) {
      assert Recorded(s, n);
      MinStaysReal(s, r, n, mo);
    }
    forall n, x | Recorded(r, n) && x in Ids(r.live) && mo(x) == n.month ensures Min(r, n) <= x {
      assert Recorded(s, n);
    }
    DeleteKeepsRows(s, r, mo);
  }

  lemma ReleaseKeeps(p: Pager, id: nat, key: string, w: World)
    requires Inv(p, w)
    ensures Inv(Step(p, Release(id, key), w), w)
  {
    TierRuns.ReleaseKeeps(p.tier, id, key);
    TierRuns.RenameKeepsCover(p.tier.s, id, key);
    RenameKeepsOrdered(p.tier.s, id, key, MonthOf(w));
    RenameKeepsPagedAll(p.tier.s, p.tier.pending, id, key, MonthOf(w));
  }

  // ---------------------------------------------------------------- passes

  lemma LiveRises(t: TierRuns.Tier, w: World)
    requires WorldOk(w) && StoreOk(t.s) && TierRuns.AllCopies(t) && Chronicle(t, w)
    ensures forall i, j | 0 <= i <= j < |t.s.live| ::
              t.s.live[i].emittedAt <= t.s.live[j].emittedAt && t.s.live[i].expiresAt <= t.s.live[j].expiresAt
  {
    var live := t.s.live;
    forall i, j | 0 <= i <= j < |live|
      ensures live[i].emittedAt <= live[j].emittedAt && live[i].expiresAt <= live[j].expiresAt
    {
      assert live[i] in live && live[j] in live;
      RowOnTime(t, w, live[i]);
      RowOnTime(t, w, live[j]);
      assert live[i].id <= live[j].id;
    }
  }

  /** When expiry rises with the ids, the expired rows are the lowest ones. */
  lemma ExpiredAreLowest(live: seq<Event>, now: int)
    requires Ascending(live) && forall i, j | 0 <= i <= j < |live| :: live[i].expiresAt <= live[j].expiresAt
    ensures Batches.Eligible(live, now, {}) <= live
  {
    var all := Batches.Eligible(live, now, {});
    forall x, y | x in all && y in live && y !in all ensures x.id < y.id {
      var i :| 0 <= i < |live| && live[i] == x;
      var j :| 0 <= j < |live| && live[j] == y;
      assert j <= i ==> live[j].expiresAt <= live[i].expiresAt;
    }
    PrefixFromOrder(all, live);
  }

  lemma PassTakesLowest(t: TierRuns.Tier, w: World, now: int, batch: nat, full: set<Name>)
    requires WorldOk(w) && StoreOk(t.s) && TierRuns.AllCopies(t) && Chronicle(t, w)
    ensures LowPrefix(t.s, Batch(t.s, now, batch), PassEnv(w, full)) && Dated(t.s, PassEnv(w, full), MonthOf(w))
  {
    LiveRises(t, w);
    Batches.BatchIsOldestEligible(t.s.live, now, {}, batch);
    ExpiredAreLowest(t.s.live, now);
    forall e | e in t.s.live ensures Month(PassEnv(w, full), e) == MonthOf(w)(e.id) { RowOnTime(t, w, e); }
  }

  lemma BeginKeeps(p: Pager, now: int, batch: nat, full: set<Name>, w: World)
    requires WorldOk(w) && Inv(p, w) && Enabled(p, BeginPass(now, batch, full), w)
    ensures Inv(Step(p, BeginPass(now, batch, full), w), w)
  {
    var t, rows, env := p.tier, Batch(p.tier.s, now, batch), PassEnv(w, full);
    PassTakesLowest(t, w, now, batch, full);
    PrefixAscends(t.s, rows, env);
    TierRuns.BeginKeeps(t, rows, env, {});
    PlanPaged(t.s, rows, env, MonthOf(w));
  }

  lemma CommitStepKeeps(p: Pager, w: World)
    requires Inv(p, w) && Enabled(p, Commit, w)
    ensures Inv(Step(p, Commit, w), w)
  {
    TierRuns.NextKeeps(p.tier);
    TierRuns.ReadyTail(p.tier.s, p.tier.pending);
    PagedTail(p.tier.s, p.tier.pending, MonthOf(w));
    CommitKeepsOrder(p.tier.s, p.tier.pending[0], MonthOf(w));
  }

  // ---------------------------------------------------------------- polls

  lemma TierIsTidy(t: TierRuns.Tier, w: World)
    requires TierInv(t, w)
    ensures Tidy(t.s)
  {
    forall id: nat | InView(t.s, id) ensures id <= MAX_SAFE_INTEGER {}
    forall a, b | Holds(t.s, a) && Holds(t.s, b) && a.id == b.id ensures Bare(a) == Bare(b) {
      assert TierRuns.IsCopy(a, t.emitted) && TierRuns.IsCopy(b, t.emitted);
    }
  }

  ghost predicate DueId(s: Store, cursor: nat, id: nat) {
    exists e :: Due(s, cursor, ALL, e) && e.id == id
  }

  /** What is due is what was emitted above the cursor. */
  lemma DueAreEmitted(t: TierRuns.Tier, w: World, cursor: nat)
    requires Chronicle(t, w)
    ensures forall e | Due(t.s, cursor, ALL, e) :: cursor < e.id < t.nextId
    ensures forall id | cursor < id < t.nextId :: DueId(t.s, cursor, id)
  {
    forall e | Due(t.s, cursor, ALL, e) ensures cursor < e.id < t.nextId { HeldIsSeen(t.s, e); }
    forall id | cursor < id < t.nextId ensures DueId(t.s, cursor, id) {
      assert InView(t.s, id);
      SeenIsHeld(t.s, id);
      var e :| Holds(t.s, e) && e.id == id;
      assert Due(t.s, cursor, ALL, e);
    }
  }

  lemma SeenIsHeld(s: Store, id: nat)
    requires InView(s, id)
    ensures exists e :: Holds(s, e) && e.id == id
  {
    if id in Ids(s.live) {
      var e :| e in s.live && e.id == id;
      assert Holds(s, e);
    } else {
      var n :| n in s.buckets && id in Ids(s.buckets[n].rows);
      var e :| e in s.buckets[n].rows && e.id == id;
      assert Holds(s, e);
    }
  }

  /** No alarm when the event right above the cursor is due, if any is. */
  lemma NoAlarm(s: Store, files: Query.Files, cursor: nat, batch: nat, covering: seq<Name>)
    requires Tidy(s) && Query.IsCovering(covering, s, files, cursor, ALL)
    requires (exists e :: Due(s, cursor, ALL, e)) ==> DueId(s, cursor, cursor + 1)
    ensures var r := Query.Resolved(s, files, cursor, ALL, batch, covering); !(r.Err? && r.error.BehindWindow?)
  {
    RaisedExactly(s, files, cursor, ALL, batch, covering);
    var m := Where(s.live, Query.Matching(ALL));
    if m != [] && covering == [] && cursor < m[0].id {
      assert m[0] in m && Due(s, cursor, ALL, m[0]);
      var e :| Due(s, cursor, ALL, e) && e.id == cursor + 1;
      HeldIsSeen(s, e);
      DueIsLiveOrListed(s, files, cursor, ALL, covering, e.id);
      var z := CopyIsDue(s, cursor, ALL, e, s.live);
      FirstMatchIsLowest(s, ALL, z);
    }
  }

  /** A poll never reports that the cursor fell behind; it can only fail on a bucket it cannot attach. */
  lemma NeverBehind(p: Pager, a: Act, w: World)
    requires Inv(p, w) && a.Poll? && Enabled(p, a, w)
    ensures var r := Answer(p, a);
            r.Err? ==> r.error.SpillBucketUnavailable? && r.error.name in p.tier.s.buckets
                       && Query.Unavailable(p.tier.s.buckets, a.files, r.error.name)
  {
    TierIsTidy(p.tier, w);
    DueAreEmitted(p.tier, w, p.cursor);
    NoAlarm(p.tier.s, a.files, p.cursor, a.batch, a.covering);
    UnavailableBucket(p.tier.s, a.files, Query.AtMost(a.covering, Query.ATTACH_CEILING), p.cursor, ALL, a.batch);
  }

  /** Rows that skip nothing between the cursor and the last id carry the next ids. */
  lemma {:induction false} NextIds(rows: seq<Event>, cursor: nat, nextId: nat, i: nat)
    requires Ascending(rows) && i < |rows| && forall x | x in rows :: cursor < x.id < nextId
    requires forall x, id: nat | x in rows && cursor < id < nextId && id !in Ids(rows) :: x.id < id
    ensures rows[i].id == cursor + 1 + i
  {
    if i > 0 { NextIds(rows, cursor, nextId, i - 1); }
    assert rows[i] in rows;
    var id := cursor + 1 + i;
    assert id in Ids(rows);
    var k :| 0 <= k < |rows| && rows[k].id == id;
  }

  lemma LeadingIds(s: Store, rows: seq<Event>, cursor: nat, nextId: nat)
    requires Leading(s, cursor, ALL, rows) && forall e | Due(s, cursor, ALL, e) :: cursor < e.id < nextId
    requires forall id | cursor < id < nextId :: DueId(s, cursor, id)
    ensures forall i | 0 <= i < |rows| :: rows[i].id == cursor + 1 + i < nextId
  {
    forall x, id: nat | x in rows && cursor < id < nextId && id !in Ids(rows) ensures x.id < id {
      assert DueId(s, cursor, id);
      var e :| Due(s, cursor, ALL, e) && e.id == id;
    }
    forall i | 0 <= i < |rows| ensures rows[i].id == cursor + 1 + i < nextId {
      NextIds(rows, cursor, nextId, i);
      assert rows[i] in rows;
    }
  }

  /** Warm rows of an unfinished bucket overtake other events in the answer. */
  ghost predicate PollOvertaken(p: Pager, a: Act)
    requires StoreOk(p.tier.s) && a.Poll? && Query.IsCovering(a.covering, p.tier.s, a.files, p.cursor, ALL)
  {
    Overtaken(p.tier.s, a.files, p.cursor, ALL, a.batch, a.covering)
  }

  /**
   A poll hands over events above the cursor, at least one while there is one; and they are the next ones
   exactly when the poll is not overtaken.
   */
  lemma PollDelivers(p: Pager, a: Act, w: World)
    requires Inv(p, w) && a.Poll? && Enabled(p, a, w) && Answer(p, a).Ok?
    ensures var rows := Answer(p, a).value;
            && |rows| <= a.batch && Fresh(p, rows)
            && (p.cursor + 1 < p.tier.nextId ==> rows != [])
            && (NextRows(p, rows) <==> !PollOvertaken(p, a))
  {
    var rows := Answer(p, a).value;
    TierIsTidy(p.tier, w);
    PollLeads(p.tier.s, a.files, p.cursor, ALL, a.batch, a.covering);
    DueAreEmitted(p.tier, w, p.cursor);
    assert p.cursor + 1 < p.tier.nextId ==> DueId(p.tier.s, p.cursor, p.cursor + 1);
    assert Fresh(p, rows);
    LeadingAreNext(p, rows);
  }

  /** Rows above the cursor, in order, each a copy of what was emitted. */
  ghost predicate Fresh(p: Pager, rows: seq<Event>) {
    && Ascending(rows)
    && forall x | x in rows :: p.cursor < x.id < p.tier.nextId && TierRuns.IsCopy(x, p.tier.emitted)
  }

  /** Fresh rows skip nothing exactly when they carry the next ids. */
  lemma LeadingAreNext(p: Pager, rows: seq<Event>)
    requires Fresh(p, rows) && forall x | x in rows :: Due(p.tier.s, p.cursor, ALL, x)
    requires forall e | Due(p.tier.s, p.cursor, ALL, e) :: p.cursor < e.id < p.tier.nextId
    requires forall id | p.cursor < id < p.tier.nextId :: DueId(p.tier.s, p.cursor, id)
    ensures Leading(p.tier.s, p.cursor, ALL, rows) <==> NextRows(p, rows)
  {
    if Leading(p.tier.s, p.cursor, ALL, rows) {
      LeadingIds(p.tier.s, rows, p.cursor, p.tier.nextId);
      forall i | 0 <= i < |rows| ensures NextRow(p, rows[i], i) { assert rows[i] in rows; }
    }
    if NextRows(p, rows) { NextRowsLead(p, rows); }
  }

  lemma NextRowsLead(p: Pager, rows: seq<Event>)
    requires Fresh(p, rows) && NextRows(p, rows) && forall x | x in rows :: Due(p.tier.s, p.cursor, ALL, x)
    ensures Leading(p.tier.s, p.cursor, ALL, rows)
  {
    forall x, y | x in rows && Due(p.tier.s, p.cursor, ALL, y) && y.id !in Ids(rows) ensures x.id < y.id {
      var i :| 0 <= i < |rows| && rows[i] == x;
      if y.id < x.id {
        assert NextRow(p, rows[i], i);
        NextIdIn(p, rows, y.id);
      }
    }
  }

  /** The next rows hold every id up to the last of them. */
  lemma NextIdIn(p: Pager, rows: seq<Event>, id: nat)
    requires NextRows(p, rows) && p.cursor < id <= p.cursor + |rows|
    ensures id in Ids(rows)
  {
    var k := id - p.cursor - 1;
    assert NextRow(p, rows[k], k) && rows[k] in rows;
  }

  ghost predicate NextRow(p: Pager, row: Event, i: nat) {
    RowIs(row, p.cursor + 1 + i, p.tier.emitted)
  }

  ghost predicate NextRows(p: Pager, rows: seq<Event>) {
    forall i | 0 <= i < |rows| :: NextRow(p, rows[i], i)
  }

  lemma PollKeeps(p: Pager, a: Act, w: World)
    requires Inv(p, w) && a.Poll? && Enabled(p, a, w)
    ensures Inv(Step(p, a, w), w)
    ensures Step(p, a, w).cursor >= p.cursor
    ensures Answer(p, a).Ok? && p.cursor + 1 < p.tier.nextId ==> Step(p, a, w).cursor > p.cursor
    ensures NothingSkipped(Step(p, a, w)) <==>
            NothingSkipped(p) && (Answer(p, a).Ok? ==> !PollOvertaken(p, a))
  {
    if Answer(p, a).Ok? {
      PollDelivers(p, a, w);
      HandOver(p, Answer(p, a).value);
      HandedKeeps(p, Answer(p, a).value, w);
    }
  }

  /** The consumer after it was handed these rows. */
  function Handed(p: Pager, rows: seq<Event>): (r: Pager) {
    p.(delivered := p.delivered + rows, cursor := if rows == [] then p.cursor else rows[|rows| - 1].id)
  }

  lemma HandedKeeps(p: Pager, rows: seq<Event>, w: World)
    requires Inv(p, w) && HandedOver(Handed(p, rows)) && Handed(p, rows).cursor < p.tier.nextId
    ensures Inv(Handed(p, rows), w)
  {
  }

  /** Fresh rows reach at least as far as there are of them, and exactly so when they are the next ones. */
  lemma {:induction false} FreshReach(p: Pager, rows: seq<Event>, i: nat)
    requires Fresh(p, rows) && i < |rows|
    ensures rows[i].id >= p.cursor + 1 + i
    ensures rows[i].id == p.cursor + 1 + i <==> forall k | 0 <= k <= i :: NextRow(p, rows[k], k)
    decreases i
  {
    assert rows[i] in rows;
    if i > 0 { FreshReach(p, rows, i - 1); }
  }

  /** What is handed over stays in order, and is complete exactly when it was and the rows are the next ones. */
  lemma HandOver(p: Pager, rows: seq<Event>)
    requires HandedOver(p) && Fresh(p, rows)
    ensures var r := Handed(p, rows);
            && HandedOver(r) && (rows != [] ==> p.cursor < r.cursor < p.tier.nextId)
            && (NothingSkipped(r) <==> NothingSkipped(p) && NextRows(p, rows))
  {
    if rows == [] {
      assert p.delivered + rows == p.delivered;
    } else {
      var last := |rows| - 1;
      FreshReach(p, rows, last);
      assert rows[last] in rows;
      HandedOverJoined(p, rows);
      FewDelivered(p);
      JoinedComplete(p, rows);
    }
  }

  lemma HandedOverJoined(p: Pager, rows: seq<Event>)
    requires HandedOver(p) && Fresh(p, rows) && rows != []
    ensures HandedOver(p.(delivered := p.delivered + rows, cursor := rows[|rows| - 1].id))
  {
    var all := p.delivered + rows;
    forall i, j | 0 <= i < j < |all| ensures all[i].id < all[j].id {
      assert all[i] in p.delivered || all[i] in rows;
      if i < |p.delivered| <= j { assert all[i] in p.delivered && all[j] in rows; }
    }
    assert rows[|rows| - 1] in rows;
    forall x | x in rows ensures x.id <= rows[|rows| - 1].id {
      var i :| 0 <= i < |rows| && rows[i] == x;
    }
  }

  /** There are at most as many rows handed over as ids up to the cursor. */
  lemma FewDelivered(p: Pager)
    requires HandedOver(p)
    ensures |p.delivered| <= p.cursor
    ensures |p.delivered| == p.cursor ==> NothingSkipped(p)
  {
    var d := p.delivered;
    if d != [] {
      AscendingReach(d, |d| - 1);
      assert d[|d| - 1] in d;
      if |d| == p.cursor {
        forall i | 0 <= i < |d| ensures RowIs(d[i], i + 1, p.tier.emitted) {
          AscendingReach(d, i);
          AscendingGap(d, i, |d| - 1);
          assert d[i] in d;
        }
      }
    }
  }

  lemma {:induction false} AscendingReach(rows: seq<Event>, i: nat)
    requires Ascending(rows) && i < |rows| && forall x | x in rows :: 1 <= x.id
    ensures rows[i].id >= i + 1
    decreases i
  {
    if i == 0 {
      assert rows[0] in rows;
    } else {
      AscendingReach(rows, i - 1);
    }
  }

  lemma {:induction false} AscendingGap(rows: seq<Event>, i: nat, j: nat)
    requires Ascending(rows) && i <= j < |rows|
    ensures rows[j].id >= rows[i].id + (j - i)
    decreases j
  {
    if i < j { AscendingGap(rows, i, j - 1); }
  }

  lemma JoinedComplete(p: Pager, rows: seq<Event>)
    requires HandedOver(p) && Fresh(p, rows) && rows != [] && |p.delivered| <= p.cursor
    requires |p.delivered| == p.cursor ==> NothingSkipped(p)
    requires rows[|rows| - 1].id >= p.cursor + |rows|
    requires rows[|rows| - 1].id == p.cursor + |rows| <==> NextRows(p, rows)
    ensures var r := p.(delivered := p.delivered + rows, cursor := rows[|rows| - 1].id);
            NothingSkipped(r) <==> NothingSkipped(p) && NextRows(p, rows)
  {
    var all := p.delivered + rows;
    if NothingSkipped(p) && NextRows(p, rows) {
      forall i | 0 <= i < |all| ensures RowIs(all[i], i + 1, p.tier.emitted) {
        if i >= p.cursor { assert NextRow(p, rows[i - p.cursor], i - p.cursor); }
      }
    }
  }

  // ---------------------------------------------------------------- runs

  lemma StepKeeps(p: Pager, a: Act, w: World)
    requires WorldOk(w) && Inv(p, w) && Enabled(p, a, w)
    ensures Inv(Step(p, a, w), w)
  {
    match a
    case Emit(e) => EmitKeeps(p, e, w);
    case Release(id, key) => ReleaseKeeps(p, id, key, w);
    case BeginPass(now, batch, full) => BeginKeeps(p, now, batch, full, w);
    case Commit => CommitStepKeeps(p, w);
    case CrashPass =>
    case Poll(_, _, _) => PollKeeps(p, a, w);
  }

  ghost predicate CanRun(p: Pager, acts: seq<Act>, w: World)
    requires WorldOk(w) && Inv(p, w)
    decreases |acts|, 0
  {
    acts == [] ||
    (CanRun(p, acts[..|acts| - 1], w) && Enabled(After(p, acts[..|acts| - 1], w), acts[|acts| - 1], w))
  }

  ghost function After(p: Pager, acts: seq<Act>, w: World): (r: Pager)
    requires WorldOk(w) && Inv(p, w) && CanRun(p, acts, w)
    ensures Inv(r, w)
    decreases |acts|, 1
  {
    if acts == [] then p
    else
      var before := After(p, acts[..|acts| - 1], w);
      StepKeeps(before, acts[|acts| - 1], w);
      Step(before, acts[|acts| - 1], w)
  }

  function Start(): (p: Pager) {
    Pager(TierRuns.Empty(), 0, [])
  }

  lemma StartIsSound(w: World)
    ensures Inv(Start(), w)
  {
    TierRuns.EmptyIsSound();
    forall id ensures !InView(Start().tier.s, id) {}
  }

  /** A run from an empty bus. */
  ghost predicate Run(acts: seq<Act>, w: World) {
    StartIsSound(w);
    WorldOk(w) && CanRun(Start(), acts, w)
  }

  /** Where it leads. */
  ghost function End(acts: seq<Act>, w: World): (p: Pager)
    requires Run(acts, w)
    ensures Inv(p, w)
  {
    StartIsSound(w);
    After(Start(), acts, w)
  }

  /** No answered poll of the run was overtaken. */
  ghost predicate AllClear(p: Pager, acts: seq<Act>, w: World)
    requires WorldOk(w) && Inv(p, w) && CanRun(p, acts, w)
    decreases |acts|
  {
    acts == [] ||
    var k := |acts| - 1;
    var before := After(p, acts[..k], w);
    && AllClear(p, acts[..k], w)
    && (acts[k].Poll? && Answer(before, acts[k]).Ok? ==> !PollOvertaken(before, acts[k]))
  }

  lemma {:induction false} CompleteIfClear(p: Pager, acts: seq<Act>, w: World)
    requires WorldOk(w) && Inv(p, w) && CanRun(p, acts, w)
    ensures NothingSkipped(After(p, acts, w)) <==> NothingSkipped(p) && AllClear(p, acts, w)
    decreases |acts|
  {
    if acts != [] {
      var k := |acts| - 1;
      CompleteIfClear(p, acts[..k], w);
      SkipsOnlyByPoll(After(p, acts[..k], w), acts[k], w);
    }
  }

  /** Only a poll can skip an event, and what was skipped is never handed over later. */
  lemma SkipsOnlyByPoll(p: Pager, a: Act, w: World)
    requires WorldOk(w) && Inv(p, w) && Enabled(p, a, w)
    ensures NothingSkipped(Step(p, a, w)) <==>
            NothingSkipped(p) && (a.Poll? && Answer(p, a).Ok? ==> !PollOvertaken(p, a))
  {
    StepKeeps(p, a, w);
    if a.Poll? {
      PollKeeps(p, a, w);
    } else {
      FewDelivered(p);
      FewDelivered(Step(p, a, w));
    }
  }

  /** No answered poll of a run from an empty bus was overtaken. */
  ghost predicate RunClear(acts: seq<Act>, w: World)
    requires Run(acts, w)
  {
    StartIsSound(w);
    AllClear(Start(), acts, w)
  }

  /**
   In order and at most once: whatever was emitted, renamed and swept, and wherever passes crashed, what the
   consumer has been handed are emitted events up to its cursor, each once, in id order and as it was emitted
   up to a released key.  Exactly once: it is all of them, ids 1, 2, 3 and on, exactly when no poll of the run
   was overtaken by rows of an unfinished bucket.
   */
  lemma ExactlyOnceInOrder(acts: seq<Act>, w: World)
    requires Run(acts, w)
    ensures var p := End(acts, w);
            && Ascending(p.delivered)
            && (forall x | x in p.delivered :: 1 <= x.id <= p.cursor && TierRuns.IsCopy(x, p.tier.emitted))
            && (RunClear(acts, w) <==>
                |p.delivered| == p.cursor
                && forall i | 0 <= i < |p.delivered| :: RowIs(p.delivered[i], i + 1, p.tier.emitted))
  {
    StartIsSound(w);
    CompleteIfClear(Start(), acts, w);
  }

  /**
   The next poll of any run fails only when it spills into a bucket that cannot be read before its batch is
   full, and otherwise hands over at least one event while there is one.
   */
  lemma NextPollAnswers(acts: seq<Act>, w: World, next: Act)
    requires Run(acts, w) && next.Poll? && Enabled(End(acts, w), next, w)
    ensures var p := End(acts, w);
            var live := p.tier.s.live;
            && (Answer(p, next).Err? <==>
                (live == [] || p.cursor < live[0].id)
                && Blocked(p.tier.s.buckets, next.files, next.covering, p.cursor, ALL, next.batch))
            && (Answer(p, next).Ok? && p.cursor + 1 < p.tier.nextId ==> Answer(p, next).value != [])
  {
    var p := End(acts, w);
    NeverBehind(p, next, w);
    EverythingMatches(p.tier.s.live);
    UnavailableExactly(p.tier.s, next.files, p.cursor, ALL, next.batch, next.covering);
    if Answer(p, next).Ok? { PollDelivers(p, next, w); }
  }

  lemma EverythingMatches(live: seq<Event>)
    requires Ascending(live)
    ensures Where(live, Query.Matching(ALL)) == live
  {
    SameRows(Where(live, Query.Matching(ALL)), live);
  }

  /** Polls in the run that were answered. */
  ghost function Answered(p: Pager, acts: seq<Act>, w: World): (n: nat)
    requires WorldOk(w) && Inv(p, w) && CanRun(p, acts, w)
    decreases |acts|
  {
    if acts == [] then 0
    else
      var k := |acts| - 1;
      var before := After(p, acts[..k], w);
      Answered(p, acts[..k], w) + if acts[k].Poll? && Answer(before, acts[k]).Ok? then 1 else 0
  }

  /** Once emitting stops, as many answered polls as events are left hand over everything. */
  lemma {:induction false} PollsCatchUp(p: Pager, acts: seq<Act>, w: World)
    requires WorldOk(w) && Inv(p, w) && CanRun(p, acts, w)
    requires forall a | a in acts :: !a.Emit?
    ensures var r := After(p, acts, w);
            && r.tier.nextId == p.tier.nextId
            && (r.cursor + 1 == p.tier.nextId || r.cursor >= p.cursor + Answered(p, acts, w))
    decreases |acts|
  {
    if acts != [] {
      var k := |acts| - 1;
      PollsCatchUp(p, acts[..k], w);
      var before := After(p, acts[..k], w);
      assert acts[k] in acts;
      OneMoreTurn(before, acts[k], w);
    }
  }

  lemma OneMoreTurn(p: Pager, a: Act, w: World)
    requires WorldOk(w) && Inv(p, w) && Enabled(p, a, w) && !a.Emit?
    ensures var r := Step(p, a, w);
            && r.tier.nextId == p.tier.nextId && p.cursor <= r.cursor < p.tier.nextId
            && (a.Poll? && Answer(p, a).Ok? ==> r.cursor + 1 == p.tier.nextId || r.cursor > p.cursor)
  {
    StepKeeps(p, a, w);
    if a.Poll? { PollKeeps(p, a, w); }
  }
}
