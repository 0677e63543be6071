/**
 What a tiered pass reports (lib/sweep-v2.js) against where the rows ended up.
 */
module TierReports {
  import opened Events
  import opened Wrappers
  import opened Database
  import opened Retention
  import opened Archive
  import opened SweepV2
  import opened Sweep
  import opened Tiers
  import opened TieredCleanup
  import Batches

  /** A finished pass from a sound disk, with anything going on meanwhile. */
  ghost predicate Finished(s: Store, t: Tables, disk: Store, base: seq<Commit>, log: seq<Commit>,
                           now: int, policy: Policy, capMs: int, batch: nat, env: Env, m: Meanwhile, r: Outcome)
  {
    && Sound(s) && t.Valid() && s.live == t.events && After(t, m).Valid()
    && PassDone(s, t, disk, base, log, now, policy, capMs, batch, env, m, r) && r.Done?
  }

  /** The tables when the pass deletes. */
  ghost function Late(s: Store, t: Tables, now: int, policy: Policy, m: Meanwhile): (late: Tables)
    requires StoreOk(s)
  {
    After(t.(events := Dropped(s, t, now, policy).live), m)
  }

  ghost function Moved(s: Store, t: Tables, now: int, policy: Policy, capMs: int, batch: nat, env: Env, m: Meanwhile)
    : (ids: set<nat>)
    requires StoreOk(s)
  {
    MovedIds(StartOf(s, t, now, policy, m), Picked(Dropped(s, t, now, policy), t, now, policy, capMs, batch), env)
  }

  /** A finished pass has deleted the moved rows that are not held, and covered them. */
  lemma FinishedDeletes(s: Store, t: Tables, disk: Store, base: seq<Commit>, log: seq<Commit>,
                        now: int, policy: Policy, capMs: int, batch: nat, env: Env, m: Meanwhile, r: Outcome)
    requires Finished(s, t, disk, base, log, now, policy, capMs, batch, env, m, r)
    ensures var start := StartOf(s, t, now, policy, m);
            var gone := Moved(s, t, now, policy, capMs, batch, env, m)
                        - StillHeld(Late(s, t, now, policy, m), now, policy, capMs);
            && (forall e :: e in disk.live <==> e in start.live && e.id !in gone)
            && Ascending(start.live) && Ascending(disk.live) && gone <= Ids(start.live)
            && (forall id | id in gone :: Covered(disk, id))
            && SameView(start, disk)
    ensures r.eventsMoved == |Moved(s, t, now, policy, capMs, batch, env, m)|
  {
    PassAlwaysFits(s, t, now, policy, capMs, batch, env, m);
    var start, late := StartOf(s, t, now, policy, m), Late(s, t, now, policy, m);
    var rows := Picked(Dropped(s, t, now, policy), t, now, policy, capMs, batch);
    assert start == Store(late.events, Dropped(s, t, now, policy).buckets);
    PassDeletes(start, rows, env, StillHeld(late, now, policy, capMs));
    PlanReady(start, rows, env, StillHeld(late, now, policy, capMs));
    CommitsKeep(start, Plan(start, rows, env, StillHeld(late, now, policy, capMs)));
  }

  // ---------------------------------------------------------------- events_moved

  /**
   `events_moved` counts the rows that were written to buckets.  It is the number of rows that left the
   live table exactly when none of them is held by the time of the delete.
   */
  lemma EventsMovedExact(s: Store, t: Tables, disk: Store, base: seq<Commit>, log: seq<Commit>,
                         now: int, policy: Policy, capMs: int, batch: nat, env: Env, m: Meanwhile, r: Outcome)
    requires Finished(s, t, disk, base, log, now, policy, capMs, batch, env, m, r)
    ensures r.eventsMoved == |StartOf(s, t, now, policy, m).live| - |disk.live|
       <==> Moved(s, t, now, policy, capMs, batch, env, m) !! StillHeld(Late(s, t, now, policy, m), now, policy, capMs)
  {
    FinishedDeletes(s, t, disk, base, log, now, policy, capMs, batch, env, m, r);
    CountGone(StartOf(s, t, now, policy, m).live, disk.live, Moved(s, t, now, policy, capMs, batch, env, m),
              StillHeld(Late(s, t, now, policy, m), now, policy, capMs));
  }

  lemma CountGone(before: seq<Event>, after: seq<Event>, moved: set<nat>, kept: set<nat>)
    requires Ascending(before) && Ascending(after) && moved - kept <= Ids(before)
    requires forall e :: e in after <==> e in before && e.id !in moved - kept
    ensures |moved| == |before| - |after| <==> moved !! kept
  {
    IdsCount(before);
    IdsCount(after);
    var gone := moved - kept;
    assert Ids(after) == Ids(before) - gone;
    SizeOfDifference(Ids(before), gone);
    SizeOfParts(moved, kept);
  }

  lemma SizeOfDifference(all: set<nat>, gone: set<nat>)
    requires gone <= all
    ensures |all - gone| == |all| - |gone|
  {
  }

  lemma SizeOfParts(moved: set<nat>, kept: set<nat>)
    ensures |moved| == |moved - kept| + |moved * kept|
    ensures |moved| == |moved - kept| <==> moved !! kept
  {
    assert moved == (moved - kept) + (moved * kept);
    assert moved !! kept <==> moved * kept == {};
  }

  /** A reader that registers at the start of the log while the row is copied: one moved, none gone. */
  lemma LateReaderIsCounted(e: Event, s: Store, disk: Store, base: seq<Commit>, log: seq<Commit>,
                            now: int, capMs: int, batch: nat, env: Env, r: Outcome)
    requires e.id == 1 && e.expiresAt < now && !OverCap(e, now, capMs) && batch > 0
    requires s.live == [e] && env.locked == {}
    requires var t, reader := Tables([e], map[], map[], map[], map[]), OneReader([e]);
             Finished(s, t, disk, base, log, now, Retain, capMs, batch, env,
                      Meanwhile(map[], [], reader.subscriptions, reader.cursors, map[]), r)
    ensures r.eventsMoved == 1 && e in disk.live
  {
    var t, reader := Tables([e], map[], map[], map[], map[]), OneReader([e]);
    var m := Meanwhile(map[], [], reader.subscriptions, reader.cursors, map[]);
    FinishedDeletes(s, t, disk, base, log, now, Retain, capMs, batch, env, m, r);
    NothingRenamed([e]);
    assert Late(s, t, now, Retain, m) == reader;
    LateReaderHolds(e, now, capMs);
    OneMoved(e, s, now, capMs, batch, env, m);
  }

  /** That pass, on an empty warm tier. */
  method LateReaderRun(e: Event, now: int, capMs: int, batch: nat, monthOf: int -> int)
    returns (r: Outcome, live: seq<Event>)
    requires e.id == 1 && e.expiresAt < now && !OverCap(e, now, capMs) && batch > 0
    ensures r.Done? && r.eventsMoved == 1 && e in live
  {
    var db := new Database();
    db.events := [e];
    var tiers := new Tiers(db);
    var reader := OneReader([e]);
    var m := Meanwhile(map[], [], reader.subscriptions, reader.cursors, map[]);
    var env := Env(monthOf, {}, {});
    ghost var s, t, base := tiers.Disk(), db.Snapshot(), tiers.log;
    NothingRenamed([e]);
    assert After(t, m) == reader;
    r := tiers.RunSweepV2(now, Retain, capMs, batch, env, m);
    PassGetsThrough(s, t, tiers.Disk(), base, tiers.log, now, Retain, capMs, batch, env, m, r);
    LateReaderIsCounted(e, s, tiers.Disk(), base, tiers.log, now, capMs, batch, env, r);
    live := db.events;
  }

  lemma OneMoved(e: Event, s: Store, now: int, capMs: int, batch: nat, env: Env, m: Meanwhile)
    requires e.id == 1 && e.expiresAt < now && batch > 0 && StoreOk(s) && s.live == [e] && env.locked == {}
    ensures Moved(s, Tables([e], map[], map[], map[], map[]), now, Retain, capMs, batch, env, m) == {1}
  {
    NobodyOwes(e, now, capMs, batch);
  }

  lemma LateReaderHolds(e: Event, now: int, capMs: int)
    requires e.id == 1 && e.expiresAt < now && !OverCap(e, now, capMs)
    ensures 1 in HeldIds(OneReader([e]), now, capMs)
  {
    ReaderOwes([e], e, now, capMs);
    assert IsHeld(OneReader([e]), e, now, capMs);
  }

  lemma NobodyOwes(e: Event, now: int, capMs: int, batch: nat)
    requires e.expiresAt < now && batch > 0
    ensures var t := Tables([e], map[], map[], map[], map[]);
            Batch(t, now, Retain, capMs, batch) == [e]
  {
    var t := Tables([e], map[], map[], map[], map[]);
    assert HeldIds(t, now, capMs) == {};
    Batches.BatchIsOldestEligible([e], now, {}, batch);
    SameRows(Batches.Eligible([e], now, {}), [e]);
  }

  // ---------------------------------------------------------------- dispositions

  /** The pairs the report of a pass names. */
  ghost function Reported(s: Store, t: Tables, now: int, policy: Policy, capMs: int, batch: nat, env: Env, m: Meanwhile)
    : (pairs: set<OwedPair>)
    requires StoreOk(s)
  {
    var moved, first := Moved(s, t, now, policy, capMs, batch, env, m), OwedPairs(t, now, capMs);
    var all := first + NewlyCapped(Late(s, t, now, policy, m), first, moved, now, policy, capMs);
    if policy == Policy.Archive then PairsOf(all, moved) else all
  }

  /**
   The disposition a report gives a pair is where its row ended up: a retained row is live, an archived one
   is in a bucket and no longer live, a discarded one is gone.
   */
  lemma TieredDispositionIsTrue(s: Store, t: Tables, disk: Store, base: seq<Commit>, log: seq<Commit>, now: int,
                                policy: Policy, capMs: int, batch: nat, env: Env, m: Meanwhile, r: Outcome, p: OwedPair)
    requires Finished(s, t, disk, base, log, now, policy, capMs, batch, env, m, r)
    requires p in Reported(s, t, now, policy, capMs, batch, env, m)
    ensures Reconciles(r.report, Reported(s, t, now, policy, capMs, batch, env, m),
                       TierFate(policy, Moved(s, t, now, policy, capMs, batch, env, m)), PolicyVerb(policy))
    ensures match TierFate(policy, Moved(s, t, now, policy, capMs, batch, env, m))(p).disposition
            case Retained => p.eventId in Ids(disk.live)
            case Archived => p.eventId !in Ids(disk.live) && Covered(disk, p.eventId)
            case Discarded => p.eventId !in Ids(disk.live) && (InWarm(disk, p.eventId) <==> InWarm(s, p.eventId))
  {
    FinishedDeletes(s, t, disk, base, log, now, policy, capMs, batch, env, m, r);
    match policy
    case Retain => RetainFate(s, t, disk, now, capMs, batch, env, m, p);
    case Archive =>
    case Discard =>
      DroppedIsGone(s, t, now, capMs, m, p);
      assert InView(StartOf(s, t, now, policy, m), p.eventId) <==> InView(disk, p.eventId);
      assert InWarm(StartOf(s, t, now, policy, m), p.eventId) <==> InWarm(s, p.eventId);
  }

  /**
   Which owed pairs the report names: those seen at the first look, and under 'retain' those on moved rows that
   are there at the delete, older than the cap, and were not seen before; under 'archive' only those on moved rows.
   */
  lemma NamedExactly(s: Store, t: Tables, now: int, policy: Policy, capMs: int, batch: nat, env: Env, m: Meanwhile,
                     p: OwedPair)
    requires StoreOk(s)
    ensures var moved := Moved(s, t, now, policy, capMs, batch, env, m);
            var first, late := OwedPairs(t, now, capMs), OwedPairs(Late(s, t, now, policy, m), now, capMs);
            p in Reported(s, t, now, policy, capMs, batch, env, m) <==>
            match policy
            case Retain =>
              p in first || (p in late && p.overCap && p.eventId in moved
                             && forall q | q in first :: q.eventId != p.eventId || q.cursorId != p.cursorId)
            case Archive => p in first && p.eventId in moved
            case Discard => p in first
  {
  }

  /** What 'discard' drops is not among the rows the pass starts with. */
  lemma DroppedIsGone(s: Store, t: Tables, now: int, capMs: int, m: Meanwhile, p: OwedPair)
    requires StoreOk(s) && t.Valid() && s.live == t.events && After(t, m).Valid() && p in OwedPairs(t, now, capMs)
    ensures p.eventId !in Ids(StartOf(s, t, now, Policy.Discard, m).live)
  {
    var d := Dropped(s, t, now, Policy.Discard);
    OwedPairIs(t, now, capMs, p);
    LateIds(d.live, m);
    EmittedAreNew(t, m);
    DroppedIds(s, t, now);
  }

  lemma DroppedIds(s: Store, t: Tables, now: int)
    requires StoreOk(s) && OwedIds(t, now) != {}
    ensures Ids(Dropped(s, t, now, Policy.Discard).live) == Ids(s.live) - OwedIds(t, now)
  {
    DeletedIds(s.live, OwedIds(t, now));
  }

  lemma OwedPairIs(t: Tables, now: int, capMs: int, p: OwedPair)
    requires p in OwedPairs(t, now, capMs)
    ensures p.eventId in OwedIds(t, now) && p.eventId in Ids(t.events)
    ensures exists e | e in t.events :: e.id == p.eventId && p.overCap == OverCap(e, now, capMs)
    ensures !p.overCap ==> p.eventId in HeldIds(t, now, capMs)
  {
    var c, e :| c in t.cursors && e in t.events && e.expiresAt < now && Owes(t, c, e)
                && p == OwedPair(e.id, c, OverCap(e, now, capMs));
    assert IsOwed(t, e);
    assert !p.overCap ==> IsHeld(t, e, now, capMs);
  }

  lemma EmittedAreNew(t: Tables, m: Meanwhile)
    requires After(t, m).Valid()
    ensures Ids(t.events) !! Ids(m.emitted)
  {
    var n, all := |t.events|, WithKeys(t.events, m.keys) + m.emitted;
    forall i, j | 0 <= i < n && 0 <= j < |m.emitted| ensures t.events[i].id != m.emitted[j].id {
      assert all[i].id < all[n + j].id;
    }
  }

  lemma RetainFate(s: Store, t: Tables, disk: Store, now: int, capMs: int, batch: nat, env: Env, m: Meanwhile,
                   p: OwedPair)
    requires StoreOk(s) && t.Valid() && s.live == t.events && After(t, m).Valid()
    requires p in Reported(s, t, now, Retain, capMs, batch, env, m)
    requires var start := StartOf(s, t, now, Retain, m);
             var gone := Moved(s, t, now, Retain, capMs, batch, env, m)
                        - StillHeld(Late(s, t, now, Retain, m), now, Retain, capMs);
             && (forall e :: e in disk.live <==> e in start.live && e.id !in gone)
             && (forall id | id in gone :: Covered(disk, id))
    ensures match TierFate(Retain, Moved(s, t, now, Retain, capMs, batch, env, m))(p).disposition
            case Retained => p.eventId in Ids(disk.live)
            case Archived => p.eventId !in Ids(disk.live) && Covered(disk, p.eventId)
            case Discarded => false
  {
    var moved, start := Moved(s, t, now, Retain, capMs, batch, env, m), StartOf(s, t, now, Retain, m);
    assert Late(s, t, now, Retain, m) == After(t, m) by { assert t.(events := t.events) == t; }
    if p.overCap && p.eventId in moved {
      OverCapIsNotHeld(t, m, now, capMs, p);
    } else {
      OwedPairIs(t, now, capMs, p);
      HeldIsNotMoved(s, t, now, capMs, batch, env, m);
      LateIds(t.events, m);
      var x :| x in start.live && x.id == p.eventId;
      assert x in disk.live;
    }
  }

  /** A row's age does not change, so what is over the cap is not held later. */
  lemma OverCapIsNotHeld(t: Tables, m: Meanwhile, now: int, capMs: int, p: OwedPair)
    requires t.Valid() && After(t, m).Valid() && p.overCap
    requires p in OwedPairs(t, now, capMs) || p in OwedPairs(After(t, m), now, capMs)
    ensures p.eventId !in HeldIds(After(t, m), now, capMs)
  {
    var late := After(t, m);
    OwedRowIsOld(t, m, now, capMs, p);
    var e :| e in late.events && e.id == p.eventId && OverCap(e, now, capMs);
    forall x | x in late.events && x.id == p.eventId ensures x == e { AscendingUniqueIds(late.events, x, e); }
  }

  lemma OwedRowIsOld(t: Tables, m: Meanwhile, now: int, capMs: int, p: OwedPair)
    requires p.overCap && (p in OwedPairs(t, now, capMs) || p in OwedPairs(After(t, m), now, capMs))
    ensures exists e | e in After(t, m).events :: e.id == p.eventId && OverCap(e, now, capMs)
  {
    if p in OwedPairs(t, now, capMs) {
      OwedPairIs(t, now, capMs, p);
      var i :| 0 <= i < |t.events| && t.events[i].id == p.eventId && OverCap(t.events[i], now, capMs);
      var e := After(t, m).events[i];
      assert e.id == p.eventId && e.emittedAt == t.events[i].emittedAt;
    } else {
      OwedPairIs(After(t, m), now, capMs, p);
    }
  }

  /** What was held at the first look is not in the batch. */
  lemma HeldIsNotMoved(s: Store, t: Tables, now: int, capMs: int, batch: nat, env: Env, m: Meanwhile)
    requires StoreOk(s) && t.Valid() && s.live == t.events
    ensures Moved(s, t, now, Retain, capMs, batch, env, m) !! HeldIds(t, now, capMs)
  {
    RowsAscending(t.events, now, HeldIds(t, now, capMs), batch);
  }
}
