/**
 The tiered sweep at work (lib/sweep-v2.js): the live database, the bucket files, and one pass over
 them.  `log` records every commit in order, so the disk after a crash is the starting state with some
 prefix of the log applied.
 */
module Tiers {
  import opened Events
  import opened Wrappers
  import opened Database
  import opened Retention
  import opened Archive
  import opened SweepV2
  import Batches
  import opened Sweep

  class Tiers {
    const db: Database
    var buckets: map<Name, Bucket>
    ghost var log: seq<Commit>

    function Disk(): Store
      reads this, db
    {
      Store(db.events, buckets)
    }

    constructor (database: Database)
      ensures db == database && buckets == map[] && log == []
    {
      db, buckets, log := database, map[], [];
    }

    // -------------------------------------------------------------- single commits

    /** Without a `_meta` table this fails, and the failure is ignored. */
    method SealBucket(n: Name)
      requires StoreOk(Disk())
      modifies this
      ensures Disk() == Apply(old(Disk()), Seal(n)) && log == old(log) + [Seal(n)]
    {
      if n in buckets && buckets[n].schema.Complete? {
        buckets := buckets[n := buckets[n].(sealed := true)];
      }
      log := log + [Seal(n)];
    }

    /** The file, `events`, and `_meta`. */
    method CreateTables(n: Name)
      requires StoreOk(Disk()) && n !in buckets
      modifies this
      ensures StoreOk(Disk()) && Disk() == Made(old(Disk()), n) && log == old(log) + Creation(n)
    {
      buckets := buckets[n := NEW_FILE];
      log := log + [CreateFile(n)];
      buckets := buckets[n := buckets[n].(schema := EventsOnly)];
      log := log + [CreateEvents(n)];
      buckets := buckets[n := buckets[n].(schema := Complete)];
      log := log + [CreateMeta(n)];
    }

    /** The file and its tables, then `min_event_id`, then `max_event_id`. */
    method CreateBucket(n: Name, minId: nat, maxId: nat)
      requires StoreOk(Disk()) && n !in buckets
      modifies this
      ensures StoreOk(Made(old(Disk()), n)) && n in buckets && buckets[n].schema.Complete?
      ensures Disk() == Apply(Apply(Made(old(Disk()), n), SetMin(n, minId)), SetMax(n, maxId))
      ensures log == old(log) + (Creation(n) + [SetMin(n, minId)] + [SetMax(n, maxId)])
    {
      CreateTables(n);
      buckets := buckets[n := buckets[n].(minId := Some(minId))];
      log := log + [SetMin(n, minId)];
      buckets := buckets[n := buckets[n].(maxId := Some(maxId))];
      log := log + [SetMax(n, maxId)];
    }

    /** The rows in one transaction. */
    method InsertTransaction(n: Name, rows: seq<Event>)
      requires StoreOk(Disk()) && n in buckets && !buckets[n].schema.NoTables?
      modifies this
      ensures StoreOk(Disk()) && Disk() == Apply(old(Disk()), InsertRows(n, rows)) && n in buckets
      ensures buckets[n].schema == old(buckets)[n].schema
      ensures log == old(log) + [InsertRows(n, rows)]
    {
      buckets := buckets[n := buckets[n].(rows := InsertAll(buckets[n].rows, rows))];
      log := log + [InsertRows(n, rows)];
    }

    /** `min_event_id` and `max_event_id` from what the bucket holds. */
    method RecordRange(n: Name)
      requires StoreOk(Disk()) && n in buckets && buckets[n].schema.Complete?
      modifies this
      ensures Disk() == Apply(old(Disk()), SetRange(n)) && log == old(log) + [SetRange(n)]
    {
      var all := buckets[n].rows;
      if all != [] {
        buckets := buckets[n := buckets[n].(minId := Some(all[0].id), maxId := Some(all[|all| - 1].id))];
      }
      log := log + [SetRange(n)];
    }

    /** The rows, and then their range; false when the range cannot be recorded. */
    method AddRows(n: Name, rows: seq<Event>) returns (ok: bool)
      requires StoreOk(Disk()) && n in buckets && !buckets[n].schema.NoTables?
      modifies this
      ensures StoreOk(Apply(old(Disk()), InsertRows(n, rows))) && ok == old(buckets)[n].schema.Complete?
      ensures var r := Apply(old(Disk()), InsertRows(n, rows)); Disk() == if ok then Apply(r, SetRange(n)) else r
      ensures log == if ok then old(log) + [InsertRows(n, rows)] + [SetRange(n)] else old(log) + [InsertRows(n, rows)]
    {
      InsertTransaction(n, rows);
      ok := buckets[n].schema.Complete?;
      if ok {
        RecordRange(n);
      }
    }

    /**
     Open the bucket file, creating it when it is not there, and add the rows.  It throws, and returns false,
     on a file that was left without one of its tables.
     */
    method InsertBatchIntoBucket(n: Name, rows: seq<Event>) returns (ok: bool)
      requires StoreOk(Disk()) && rows != []
      modifies this
      ensures ok == Whole(old(Disk()), n)
      ensures Disk() == Grouped(old(Disk()), n, rows)
      ensures log == old(log) + GroupWrites(old(buckets), n, rows)
    {
      ghost var s := Disk();
      if n !in buckets {
        CreateBucket(n, rows[0].id, rows[|rows| - 1].id);
      } else if buckets[n].schema.NoTables? {
        return false;
      }
      assert Disk() == Headed(s, n, rows);
      ok := AddRows(n, rows);
    }

    /**
     Delete rows from the live table: discarded ones, or ones moved to a bucket.  With `retain`, what is
     owed now and inside the cap stays, and the owed pairs seen are returned.
     */
    method DeleteFromLive(ids: set<nat>, retain: bool, now: int, capMs: int, ghost discard: bool)
      returns (seen: seq<OwedPair>)
      requires StoreOk(Disk()) && db.Snapshot().Valid()
      modifies this`log, db`events
      ensures var t := old(db.Snapshot());
              var gone := ids - (if retain then HeldIds(t, now, capMs) else {});
              && Disk() == Apply(old(Disk()), DeleteLive(gone))
              && log == old(log) + [if discard then Commit.Discard(gone) else DeleteLive(gone)]
              && Distinct(seen)
              && SetOf(seen) == if retain then PairsOf(OwedPairs(t, now, capMs), ids) else {}
    {
      seen := [];
      var gone := ids;
      if retain {
        var t := db.Snapshot();
        var owed := CollectOwedExpired(db, now);
        var pairs := OwedPairsWithCap(db, owed, now, capMs);
        seen := Select(pairs, (p: OwedPair) => p.eventId in ids);
        assert forall p :: p in pairs <==> p in SetOf(pairs);
        var owedNow := set p | p in seen && !p.overCap :: p.eventId;
        SeenIsHeld(t, now, capMs, ids, seen, owedNow);
        gone := ids - owedNow;
      }
      ghost var kept := if retain then HeldIds(db.Snapshot(), now, capMs) else {};
      assert gone == ids - kept;
      assert SetOf([]) == {};
      db.events := Where(db.events, (e: Event) => e.id !in gone);
      log := log + [if discard then Commit.Discard(gone) else DeleteLive(gone)];
      SameRows(db.events, Apply(old(Disk()), DeleteLive(ids - kept)).live);
    }

    /** The bucket for a month's rows; None when the suffixes have run out and the pass throws. */
    method ChooseBucketForMonth(m: int, env: Env) returns (r: Option<Name>)
      requires StoreOk(Disk())
      modifies this
      ensures match Choose(old(buckets), m, env)
              case Use(n) => r == Some(n) && Disk() == old(Disk()) && log == old(log)
              case Rotate(l, n) => r == Some(n) && Disk() == Apply(old(Disk()), Seal(l)) && log == old(log) + [Seal(l)]
              case Exhausted(l) => r == None && Disk() == Apply(old(Disk()), Seal(l)) && log == old(log) + [Seal(l)]
    {
      var all := ListBuckets(buckets);
      var latest := None;
      for i := 0 to |all|
        invariant latest.None? ==> forall j | 0 <= j < i :: all[j].month != m
        invariant latest.Some? ==> latest.value in all[..i] && latest.value.month == m
        invariant latest.Some? ==> forall j | 0 <= j < i && all[j].month == m :: all[j].suffix <= latest.value.suffix
      {
        if all[i].month == m {
          latest := Some(all[i]);
        }
      }
      LatestIsChosen(buckets, all, m, latest, env);
      if latest.None? {
        return Some(Name(m, 0));
      }
      var n := latest.value;
      var needNext := buckets[n].sealed || n in env.full;
      if !needNext {
        return Some(n);
      }
      SealBucket(n);
      if n.suffix < LAST_SUFFIX {
        r := Some(Name(m, n.suffix + 1));
      } else {
        r := None;
      }
    }

    /** The disk and the log of a pass that started on disk `s` and has chosen a bucket for each of `months`. */
    ghost predicate Resolved(s: Store, base: seq<Commit>, months: seq<int>, env: Env)
      requires StoreOk(s)
      reads this, db
    {
      var (seals, _) := SealPlan(s, months, env);
      Disk() == ApplyAll(s, seals) && log == base + seals
    }

    /** The choice for the next month. */
    method ResolveMonth(m: int, env: Env, ghost s: Store, ghost base: seq<Commit>, ghost months: seq<int>)
      returns (r: Option<Name>)
      requires StoreOk(s) && m !in months && SealPlan(s, months, env).1 && Resolved(s, base, months, env)
      modifies this
      ensures Resolved(s, base, months + [m], env)
      ensures r.Some? == SealPlan(s, months + [m], env).1
      ensures r.Some? ==> r.value == TargetOf(s, m, env)
    {
      SealsReady(s, months, env);
      ChooseElsewhere(s, Disk(), months, m, env);
      SealPlanOneMore(s, months, m, env);
      ReadyOneMoreOf(s, months, m, env);
      r := ChooseBucketForMonth(m, env);
    }

    /** Split the rows by target bucket, in order of first use. */
    method GroupByTargetBucket(events: seq<Event>, env: Env)
      returns (ok: bool, order: seq<Name>, groups: map<Name, seq<Event>>)
      requires StoreOk(Disk())
      modifies this
      ensures Resolved(old(Disk()), old(log), Months(events, env), env)
      ensures ok == SealPlan(old(Disk()), Months(events, env), env).1
      ensures ok ==> GroupsAre(old(Disk()), events, env, order, groups)
    {
      ghost var s, base := Disk(), log;
      ghost var months: seq<int> := [];
      var cache: map<int, Name> := map[];
      order, groups, ok := [], map[], true;
      for i := 0 to |events|
        invariant months == Months(events[..i], env)
        invariant SealPlan(s, months, env).1 && Resolved(s, base, months, env)
        invariant CacheIs(cache, months, s, env)
        invariant GroupsAre(s, events[..i], env, order, groups)
      {
        var m := Month(env, events[i]);
        MonthsOneMore(events, i, env);
        if m !in cache {
          var choice := ResolveMonth(m, env, s, base, months);
          if choice.None? {
            GroupingStops(s, events, i, env);
            return false, order, groups;
          }
          cache := cache[m := choice.value];
        }
        order, groups := AddToGroup(s, events, i, env, order, groups, cache[m]);
        months := Months(events[..i + 1], env);
      }
      assert events[..|events|] == events;
    }

    // -------------------------------------------------------------- one pass

    /** The disk and the log of a pass that started on disk `s` and has made the commits `cs`. */
    ghost predicate At(s: Store, base: seq<Commit>, cs: seq<Commit>)
      requires StoreOk(s)
      reads this, db
    {
      Disk() == ApplyAll(s, cs) && log == base + cs
    }

    /** Write the `i`th group: the disk and the log go one group further; false when its bucket stops the pass. */
    method WriteGroup(n: Name, rows: seq<Event>, ghost events: seq<Event>, ghost env: Env, ghost i: nat,
                      ghost s: Store, ghost base: seq<Commit>)
      returns (ok: bool)
      requires StoreOk(s) && i < |Months(events, env)| && GroupStep(s, events, env, i)
      requires n == TargetOf(s, Months(events, env)[i], env) && n !in env.locked
      requires rows == OfMonth(events, Months(events, env)[i], env)
      requires At(s, base, WrittenSoFar(s, events, env, i))
      modifies this
      ensures ok == !Stuck(s, Months(events, env)[i], env)
      ensures At(s, base, WrittenSoFar(s, events, env, i + 1))
    {
      ok := InsertBatchIntoBucket(n, rows);
      NextReached(s, events, env, i, base, Disk(), log);
    }

    /** Write every group whose bucket is not locked, until one cannot be written. */
    method WriteGroups(events: seq<Event>, env: Env, order: seq<Name>, groups: map<Name, seq<Event>>,
                       ghost s: Store, ghost base: seq<Commit>)
      returns (ok: bool, moved: set<nat>, touched: seq<Name>, skipped: seq<Name>)
      requires StoreOk(s) && EachStep(s, events, env) && GroupsAre(s, events, env, order, groups)
      requires At(s, base, WrittenSoFar(s, events, env, 0))
      modifies this
      ensures ok == (FirstStuck(s, Months(events, env), env) == |Months(events, env)|)
      ensures At(s, base, WrittenSoFar(s, events, env, |Reached(s, Months(events, env), env)|))
      ensures ok ==> moved == MovedIds(s, events, env) && Split(order, touched, skipped, env.locked)
    {
      ok, moved, touched, skipped := true, {}, [], [];
      for i := 0 to |order|
        invariant ok && At(s, base, WrittenSoFar(s, events, env, i))
        invariant moved == MovedOf(s, events, env, i) && i <= FirstStuck(s, Months(events, env), env)
        invariant Split(order[..i], touched, skipped, env.locked)
      {
        var n := order[i];
        NextGroup(s, events, env, order, groups, i, touched, skipped);
        if n in env.locked {
          skipped := skipped + [n];
        } else {
          ok := WriteGroup(n, groups[n], events, env, i, s, base);
          if !ok {
            return;
          }
          touched := touched + [n];
          moved := moved + Ids(groups[n]);
        }
      }
      AllGroups(s, events, env, order, groups, touched, skipped);
    }

    /** What other processes do to the database between a pass's first look and its delete. */
    method Interleave(m: Meanwhile)
      modifies db`events, db`subscriptions, db`cursors, db`attempts
      ensures db.Snapshot() == After(old(db.Snapshot()), m)
    {
      db.events := WithKeys(db.events, m.keys) + m.emitted;
      db.subscriptions, db.cursors, db.attempts := m.subscriptions, m.cursors, m.attempts;
    }

    /** 'discard' drops the owed expired rows outright. */
    method DropOwed(owed: set<nat>, policy: Policy, now: int, capMs: int)
      requires StoreOk(Disk()) && db.Snapshot().Valid() && owed == OwedIds(db.Snapshot(), now)
      modifies this`log, db`events
      ensures Disk() == Dropped(old(Disk()), old(db.Snapshot()), now, policy)
      ensures log == old(log) + DiscardLog(old(db.Snapshot()), now, policy)
    {
      if policy == Policy.Discard && owed != {} {
        var _ := DeleteFromLive(owed, false, now, capMs, true);
        assert owed - {} == owed;
      }
    }

    /** The rows a pass picks, after the 'discard' policy has dropped what it drops. */
    method PickBatch(pairs: seq<OwedPair>, now: int, policy: Policy, capMs: int, batch: nat)
      returns (rows: seq<Event>)
      requires StoreOk(Disk()) && db.Snapshot().Valid()
      requires SetOf(pairs) == OwedPairs(db.Snapshot(), now, capMs)
      modifies this`log, db`events
      ensures var t := old(db.Snapshot());
              && Disk() == Dropped(old(Disk()), t, now, policy)
              && log == old(log) + DiscardLog(t, now, policy)
              && rows == Picked(Disk(), t, now, policy, capMs, batch)
    {
      ghost var t := db.Snapshot();
      var held: set<nat> := {};
      OwedIdsAre(t, pairs, now, capMs);
      if policy == Retain {
        HeldIdsMean(t, pairs, now, capMs);
        held := set p | p in pairs && !p.overCap :: p.eventId;
      }
      DropOwed(set p | p in pairs :: p.eventId, policy, now, capMs);
      rows := Batches.Candidates(db.events, now, held, batch);
    }

    /** `reportFor`: under 'archive' only the rows this pass moved are named. */
    method ReportFor(pairs: seq<OwedPair>, moved: set<nat>, policy: Policy) returns (report: Report)
      requires Retention.Distinct(pairs)
      ensures Reconciles(report, if policy == Policy.Archive then PairsOf(SetOf(pairs), moved) else SetOf(pairs),
                         TierFate(policy, moved), PolicyVerb(policy))
    {
      var named := pairs;
      if policy == Policy.Archive {
        named := Select(pairs, (p: OwedPair) => p.eventId in moved);
        assert SetOf(named) == PairsOf(SetOf(pairs), moved);
      }
      report := BuildUnackedReport(named, TierFate(policy, moved), PolicyVerb(policy));
    }

    /** Delete the moved rows, and add to the owed pairs the over-cap ones that were not known before. */
    method FinishPass(pairs: seq<OwedPair>, moved: set<nat>, now: int, policy: Policy, capMs: int)
      returns (all: seq<OwedPair>)
      requires StoreOk(Disk()) && db.Snapshot().Valid() && Retention.Distinct(pairs)
      modifies this`log, db`events
      ensures var t := old(db.Snapshot());
              var tail: seq<Commit> := if moved == {} then []
                else [DeleteLive(moved - StillHeld(t, now, policy, capMs))];
              && log == old(log) + tail
              && Disk() == (if moved == {} then old(Disk())
                else Apply(old(Disk()), DeleteLive(moved - StillHeld(t, now, policy, capMs))))
              && Retention.Distinct(all)
              && SetOf(all) == SetOf(pairs) + NewlyCapped(t, SetOf(pairs), moved, now, policy, capMs)
    {
      all := pairs;
      ghost var t := db.Snapshot();
      assert NewlyCapped(t, SetOf(pairs), {}, now, policy, capMs) == {};
      if moved != {} {
        var seen := DeleteFromLive(moved, policy == Retain, now, capMs, false);
        var known := set p | p in pairs :: (p.eventId, p.cursorId);
        var extra := Select(seen, (p: OwedPair) => p.overCap && (p.eventId, p.cursorId) !in known);
        ExtraIsNew(t, pairs, seen, extra, moved, now, policy, capMs);
        all := pairs + extra;
      }
    }

    /** Grouping and writing: the disk and log up to the delete, and what was written where. */
    method GroupAndWrite(rows: seq<Event>, env: Env)
      returns (end: Ending, moved: set<nat>, touched: seq<Name>, skipped: seq<Name>)
      requires StoreOk(Disk()) && (SealPlan(Disk(), Months(rows, env), env).1 ==> EachStep(Disk(), rows, env))
      modifies this
      ensures end == EndOf(old(Disk()), rows, env)
      ensures At(old(Disk()), old(log), BeforeDelete(old(Disk()), rows, env))
      ensures end.Through? ==> moved == MovedIds(old(Disk()), rows, env)
      ensures end.Through? ==> forall n :: n in touched <==> n in Targets(old(Disk()), rows, env) && n !in env.locked
      ensures end.Through? ==> forall n :: n in skipped <==> n in Targets(old(Disk()), rows, env) && n in env.locked
    {
      ghost var start, base := Disk(), log;
      var ok, order, groups := GroupByTargetBucket(rows, env);
      if !ok {
        return OutOfNames, {}, [], [];
      }
      NothingWritten(start, rows, env);
      ok, moved, touched, skipped := WriteGroups(rows, env, order, groups, start, base);
      ReachedIsWritten(start, rows, env);
      if !ok {
        return Stopped, {}, [], [];
      }
      end := Through;
      BucketsNamed(start, rows, env, order, groups, touched, skipped);
    }

    /** Grouping, writing and deleting; `all` gains the over-cap pairs that were not known before. */
    method MoveRows(pairs: seq<OwedPair>, rows: seq<Event>, now: int, policy: Policy, capMs: int, env: Env)
      returns (end: Ending, moved: set<nat>, touched: seq<Name>, skipped: seq<Name>, all: seq<OwedPair>)
      requires StoreOk(Disk()) && db.Snapshot().Valid() && Retention.Distinct(pairs)
      requires SealPlan(Disk(), Months(rows, env), env).1 ==> EachStep(Disk(), rows, env)
      modifies this, db`events
      ensures At(old(Disk()), old(log), Plan(old(Disk()), rows, env, StillHeld(old(db.Snapshot()), now, policy, capMs)))
      ensures end == EndOf(old(Disk()), rows, env)
      ensures end.Through? ==> moved == MovedIds(old(Disk()), rows, env)
      ensures end.Through? ==> forall n :: n in touched <==> n in Targets(old(Disk()), rows, env) && n !in env.locked
      ensures end.Through? ==> forall n :: n in skipped <==> n in Targets(old(Disk()), rows, env) && n in env.locked
      ensures end.Through? ==>
                Retention.Distinct(all)
                && SetOf(all) == SetOf(pairs)
                     + NewlyCapped(old(db.Snapshot()), SetOf(pairs), moved, now, policy, capMs)
    {
      ghost var start, base, late := Disk(), log, db.Snapshot();
      all := pairs;
      end, moved, touched, skipped := GroupAndWrite(rows, env);
      if end.Through? {
        all := FinishPass(pairs, moved, now, policy, capMs);
        PlanReached(start, rows, env, StillHeld(late, now, policy, capMs), base, Disk(), log);
      } else {
        PlanStopped(start, rows, env, StillHeld(late, now, policy, capMs));
      }
    }

    /** From grouping to the report, for the rows a pass has picked. */
    method MoveBatch(pairs: seq<OwedPair>, rows: seq<Event>, now: int, policy: Policy, capMs: int, env: Env)
      returns (r: Outcome)
      requires StoreOk(Disk()) && db.Snapshot().Valid() && Retention.Distinct(pairs)
      requires SealPlan(Disk(), Months(rows, env), env).1 ==> EachStep(Disk(), rows, env)
      modifies this, db`events
      ensures var start, late := old(Disk()), old(db.Snapshot());
              var plan := Plan(start, rows, env, StillHeld(late, now, policy, capMs));
              && Disk() == ApplyAll(start, plan) && log == old(log) + plan
              && Ended(r, EndOf(start, rows, env))
              && (r.Done? ==> Accounts(r, SetOf(pairs), late, start, rows, now, policy, capMs, env))
    {
      ghost var start, late := Disk(), db.Snapshot();
      var end, moved, touched, skipped, all := MoveRows(pairs, rows, now, policy, capMs, env);
      match end {
        case OutOfNames => return NoBucketLeft;
        case Stopped => return BucketUnusable;
        case Through =>
      }
      var report := ReportFor(all, moved, policy);
      r := Done(|moved|, touched, skipped, report);
      Accounted(start, late, rows, SetOf(pairs), SetOf(all), now, policy, capMs, env, r);
    }

    /** The pass itself, given that its plan can be carried out. */
    method RunPass(now: int, policy: Policy, capMs: int, batch: nat, env: Env, m: Meanwhile) returns (r: Outcome)
      requires StoreOk(Disk()) && db.Snapshot().Valid()
      requires PassFits(Disk(), db.Snapshot(), now, policy, capMs, batch, env, m)
      modifies this, db
      ensures PassDone(old(Disk()), old(db.Snapshot()), Disk(), old(log), log, now, policy, capMs, batch, env, m, r)
    {
      var owed := CollectOwedExpired(db, now);
      var pairs := OwedPairsWithCap(db, owed, now, capMs);
      var rows := PickBatch(pairs, now, policy, capMs, batch);
      Interleave(m);
      r := MoveBatch(pairs, rows, now, policy, capMs, env);
    }

    /**
     One pass.  It throws when a month has no bucket name left, or when its bucket was left unfinished.
     Whatever others do to the database meanwhile, the tiers end up as the plan says, and the report of a pass
     that does not throw accounts for every owed pair.
     */
    method RunSweepV2(now: int, policy: Policy, capMs: int, batch: nat, env: Env, m: Meanwhile) returns (r: Outcome)
      requires Sound(Disk()) && db.Snapshot().Valid()
      requires After(db.Snapshot(), m).Valid()
      modifies this, db
      ensures PassDone(old(Disk()), old(db.Snapshot()), Disk(), old(log), log, now, policy, capMs, batch, env, m, r)
    {
      PassAlwaysFits(Disk(), db.Snapshot(), now, policy, capMs, batch, env, m);
      r := RunPass(now, policy, capMs, batch, env, m);
    }
  }

  /** The commits a pass made, the disk they left, and the account it gave. */
  ghost predicate PassDone(s: Store, t: Tables, disk: Store, base: seq<Commit>, log: seq<Commit>,
                           now: int, policy: Policy, capMs: int, batch: nat, env: Env, m: Meanwhile, r: Outcome)
    requires StoreOk(s)
  {
    var d := Dropped(s, t, now, policy);
    var late := After(t.(events := d.live), m);
    var start := Store(late.events, d.buckets);
    var rows := Picked(d, t, now, policy, capMs, batch);
    var plan := Plan(start, rows, env, StillHeld(late, now, policy, capMs));
    && StoreOk(start)
    && log == base + DiscardLog(t, now, policy) + plan
    && disk == ApplyAll(start, plan)
    && Ended(r, EndOf(start, rows, env))
    && (r.Done? ==> Accounts(r, OwedPairs(t, now, capMs), late, start, rows, now, policy, capMs, env))
  }

  /** What others did: keys released, rows emitted, and the registration tables as they now stand. */
  datatype Meanwhile = Meanwhile(
    keys: map<nat, string>,
    emitted: seq<Event>,
    subscriptions: map<string, Subscription>,
    cursors: map<string, Cursor>,
    attempts: map<(string, nat), nat>)

  datatype Outcome =
    | NoBucketLeft
    | BucketUnusable
    | Done(eventsMoved: nat, touched: seq<Name>, skipped: seq<Name>, report: Report)

  /** Where grouping and writing ended: no name left for a bucket, one that cannot be written, or at the end. */
  datatype Ending = OutOfNames | Stopped | Through

  ghost function EndOf(s: Store, rows: seq<Event>, env: Env): (end: Ending) {
    var months := Months(rows, env);
    if !SealPlan(s, months, env).1 then OutOfNames
    else if FirstStuck(s, months, env) < |months| then Stopped
    else Through
  }

  ghost predicate Ended(r: Outcome, end: Ending) {
    && (r.NoBucketLeft? <==> end.OutOfNames?)
    && (r.BucketUnusable? <==> end.Stopped?)
    && (r.Done? <==> end.Through?)
  }

  /** The commits of a pass up to its delete. */
  ghost function BeforeDelete(s: Store, rows: seq<Event>, env: Env): (cs: seq<Commit>) {
    var months := Months(rows, env);
    var (seals, ok) := SealPlan(s, months, env);
    if ok then seals + WritePlan(s, rows, Reached(s, months, env), env) else seals
  }

  function After(t: Tables, m: Meanwhile): (r: Tables) {
    t.(events := WithKeys(t.events, m.keys) + m.emitted,
       subscriptions := m.subscriptions, cursors := m.cursors, attempts := m.attempts)
  }

  ghost function OwedIds(t: Tables, now: int): (ids: set<nat>) {
    set e | e in t.events && e.expiresAt < now && IsOwed(t, e) :: e.id
  }

  /** 'discard' drops the owed expired rows outright. */
  ghost function Dropped(s: Store, t: Tables, now: int, policy: Policy): (r: Store)
    requires StoreOk(s)
    ensures StoreOk(r) && r.buckets == s.buckets
  {
    if policy == Policy.Discard && OwedIds(t, now) != {} then Apply(s, Commit.Discard(OwedIds(t, now))) else s
  }

  ghost function DiscardLog(t: Tables, now: int, policy: Policy): (cs: seq<Commit>) {
    if policy == Policy.Discard && OwedIds(t, now) != {} then [Commit.Discard(OwedIds(t, now))] else []
  }

  /** The owed rows that stay live. */
  ghost function StillHeld(t: Tables, now: int, policy: Policy, capMs: int): (ids: set<nat>) {
    if policy == Retain then HeldIds(t, now, capMs) else {}
  }

  ghost function Picked(d: Store, t: Tables, now: int, policy: Policy, capMs: int, batch: nat): (rows: seq<Event>) {
    Batches.Candidates(d.live, now, StillHeld(t, now, policy, capMs), batch)
  }

  /** The plan can be carried out step by step; `PassAlwaysFits` shows it always can. */
  ghost predicate PassFits(s: Store, t: Tables, now: int, policy: Policy, capMs: int, batch: nat, env: Env,
                           m: Meanwhile)
    requires StoreOk(s)
  {
    var d := Dropped(s, t, now, policy);
    var late := After(t.(events := d.live), m);
    var start := Store(late.events, d.buckets);
    var rows := Picked(d, t, now, policy, capMs, batch);
    && late.Valid() && StoreOk(start)
    && (SealPlan(start, Months(rows, env), env).1 ==> EachStep(start, rows, env))
  }

  function TierFate(policy: Policy, moved: set<nat>): OwedPair -> Fate {
    (p: OwedPair) =>
      if policy == Policy.Discard then Fate(Disposition.Discarded, UnackedPolicy)
      else if policy == Policy.Archive then Fate(Archived, UnackedPolicy)
      else if !p.overCap then Fate(Retained, UnackedPolicy)
      else if p.eventId in moved then Fate(Archived, RetentionCap)
      else Fate(Retained, RetentionCapPending)
  }

  ghost predicate Known(pairs: set<OwedPair>, p: OwedPair) {
    exists q | q in pairs :: q.eventId == p.eventId && q.cursorId == p.cursorId
  }

  /** Over-cap pairs on moved rows that appeared after the first look. */
  ghost function NewlyCapped(t: Tables, pairs: set<OwedPair>, moved: set<nat>, now: int, policy: Policy,
                             capMs: int): (s: set<OwedPair>) {
    if policy == Retain then set p | p in OwedPairs(t, now, capMs) && p.eventId in moved && p.overCap
      && !Known(pairs, p)
    else {}
  }

  ghost function Targets(s: Store, rows: seq<Event>, env: Env): (ns: set<Name>) {
    set e | e in rows :: TargetOf(s, Month(env, e), env)
  }

  lemma BucketsNamed(s: Store, rows: seq<Event>, env: Env, order: seq<Name>, groups: map<Name, seq<Event>>,
                     touched: seq<Name>, skipped: seq<Name>)
    requires GroupsAre(s, rows, env, order, groups) && Split(order, touched, skipped, env.locked)
    ensures forall n :: n in touched <==> n in Targets(s, rows, env) && n !in env.locked
    ensures forall n :: n in skipped <==> n in Targets(s, rows, env) && n in env.locked
  {
    MonthsAre(rows, env);
    var months := Months(rows, env);
    forall n ensures n in order <==> n in Targets(s, rows, env) {
      if n in order {
        var i :| 0 <= i < |order| && order[i] == n;
        assert months[i] in months;
      }
      if n in Targets(s, rows, env) {
        var e :| e in rows && TargetOf(s, Month(env, e), env) == n;
        var i :| 0 <= i < |months| && months[i] == Month(env, e);
        assert order[i] == n;
      }
    }
  }

  lemma Accounted(start: Store, late: Tables, rows: seq<Event>, first: set<OwedPair>, all: set<OwedPair>,
                  now: int, policy: Policy, capMs: int, env: Env, r: Outcome)
    requires r.Done? && r.eventsMoved == |MovedIds(start, rows, env)|
    requires forall n :: n in r.touched <==> n in Targets(start, rows, env) && n !in env.locked
    requires forall n :: n in r.skipped <==> n in Targets(start, rows, env) && n in env.locked
    requires all == first + NewlyCapped(late, first, MovedIds(start, rows, env), now, policy, capMs)
    requires var moved := MovedIds(start, rows, env);
             Reconciles(r.report, if policy == Policy.Archive then PairsOf(all, moved) else all,
                        TierFate(policy, moved), PolicyVerb(policy))
    ensures Accounts(r, first, late, start, rows, now, policy, capMs, env)
  {
  }

  /** What the result says about the pass. */
  ghost predicate Accounts(r: Outcome, first: set<OwedPair>, late: Tables, start: Store, rows: seq<Event>,
                           now: int, policy: Policy, capMs: int, env: Env)
    requires r.Done?
  {
    var moved := MovedIds(start, rows, env);
    var all := first + NewlyCapped(late, first, moved, now, policy, capMs);
    && r.eventsMoved == |moved|
    && (forall n :: n in r.touched <==> n in Targets(start, rows, env) && n !in env.locked)
    && (forall n :: n in r.skipped <==> n in Targets(start, rows, env) && n in env.locked)
    && Reconciles(r.report, if policy == Policy.Archive then PairsOf(all, moved) else all,
                  TierFate(policy, moved), PolicyVerb(policy))
  }

  /** Each bucket of the pass was either written or skipped because it was locked. */
  ghost predicate Split(order: seq<Name>, touched: seq<Name>, skipped: seq<Name>, locked: set<Name>) {
    && (forall n :: n in touched <==> n in order && n !in locked)
    && (forall n :: n in skipped <==> n in order && n in locked)
  }

  /** What the `i`th group of a pass is, and what writing or skipping it adds to the account. */
  lemma NextGroup(s: Store, events: seq<Event>, env: Env, order: seq<Name>, groups: map<Name, seq<Event>>, i: nat,
                  touched: seq<Name>, skipped: seq<Name>)
    requires StoreOk(s) && EachStep(s, events, env) && GroupsAre(s, events, env, order, groups) && i < |order|
    requires Split(order[..i], touched, skipped, env.locked) && i <= FirstStuck(s, Months(events, env), env)
    ensures i < |Months(events, env)| && GroupStep(s, events, env, i)
    ensures var m, n := Months(events, env)[i], order[i];
            && n == TargetOf(s, m, env) && n in groups && groups[n] == OfMonth(events, m, env)
            && (n in env.locked ==>
                  && Split(order[..i + 1], touched, skipped + [n], env.locked) && !Stuck(s, m, env)
                  && MovedOf(s, events, env, i + 1) == MovedOf(s, events, env, i)
                  && WrittenSoFar(s, events, env, i + 1) == WrittenSoFar(s, events, env, i))
            && (n !in env.locked ==>
                  && Split(order[..i + 1], touched + [n], skipped, env.locked)
                  && MovedOf(s, events, env, i + 1) == MovedOf(s, events, env, i) + Ids(groups[n]))
            && (if Stuck(s, m, env) then
                  i == FirstStuck(s, Months(events, env), env) && |Reached(s, Months(events, env), env)| == i + 1
                else i + 1 <= FirstStuck(s, Months(events, env), env))
  {
    SplitOneMore(order, i, touched, skipped, env.locked);
    MovedNext(s, events, env, i);
    ReachedFar(s, Months(events, env), env, i);
    assert GroupStep(s, events, env, i);
  }

  lemma MovedNext(s: Store, events: seq<Event>, env: Env, i: nat)
    requires i < |Months(events, env)|
    ensures var m := Months(events, env)[i];
            MovedOf(s, events, env, i + 1) ==
              MovedOf(s, events, env, i)
              + if TargetOf(s, m, env) in env.locked then {} else Ids(OfMonth(events, m, env))
  {
    MovedOneMore(s, events, env, i);
  }

  lemma AllGroups(s: Store, events: seq<Event>, env: Env, order: seq<Name>, groups: map<Name, seq<Event>>,
                  touched: seq<Name>, skipped: seq<Name>)
    requires GroupsAre(s, events, env, order, groups) && |order| <= FirstStuck(s, Months(events, env), env)
    requires Split(order[..|order|], touched, skipped, env.locked)
    ensures |order| == |Months(events, env)| == FirstStuck(s, Months(events, env), env)
    ensures |Reached(s, Months(events, env), env)| == |order|
    ensures MovedOf(s, events, env, |order|) == MovedIds(s, events, env)
    ensures Split(order, touched, skipped, env.locked)
  {
    assert order[..|order|] == order;
    MovedOfAll(s, events, env);
  }

  lemma SplitOneMore(order: seq<Name>, i: nat, touched: seq<Name>, skipped: seq<Name>, locked: set<Name>)
    requires i < |order| && Split(order[..i], touched, skipped, locked)
    ensures order[i] in locked ==> Split(order[..i + 1], touched, skipped + [order[i]], locked)
    ensures order[i] !in locked ==> Split(order[..i + 1], touched + [order[i]], skipped, locked)
  {
    assert order[..i + 1] == order[..i] + [order[i]];
  }

  /** The commits of a pass up to its first `i` groups. */
  ghost function WrittenSoFar(s: Store, events: seq<Event>, env: Env, i: nat): (cs: seq<Commit>)
    requires i <= |Months(events, env)|
  {
    SealPlan(s, Months(events, env), env).0 + WritePlan(s, events, Months(events, env)[..i], env)
  }

  ghost function MovedOf(s: Store, events: seq<Event>, env: Env, i: nat): (ids: set<nat>)
    requires i <= |Months(events, env)|
  {
    set e | e in events && Month(env, e) in Months(events, env)[..i]
      && TargetOf(s, Month(env, e), env) !in env.locked :: e.id
  }

  /** Writing the `i`th group is the next part of the plan. */
  ghost predicate GroupStep(s: Store, events: seq<Event>, env: Env, i: nat)
    requires StoreOk(s) && i < |Months(events, env)|
  {
    var n, rows := TargetOf(s, Months(events, env)[i], env), OfMonth(events, Months(events, env)[i], env);
    var before, after := WrittenSoFar(s, events, env, i), WrittenSoFar(s, events, env, i + 1);
    var r := ApplyAll(s, before);
    && rows != []
    && if n in env.locked then after == before && !Stuck(s, Months(events, env)[i], env)
       else && after == before + GroupWrites(r.buckets, n, rows) && ApplyAll(s, after) == Grouped(r, n, rows)
            && (Whole(r, n) <==> !Stuck(s, Months(events, env)[i], env))
  }

  /** Writing a group takes the disk and the log one group further in the plan. */
  lemma NextReached(s: Store, events: seq<Event>, env: Env, i: nat, base: seq<Commit>, disk: Store, log: seq<Commit>)
    requires StoreOk(s) && i < |Months(events, env)| && GroupStep(s, events, env, i)
    requires var n, rows := TargetOf(s, Months(events, env)[i], env), OfMonth(events, Months(events, env)[i], env);
             var r := ApplyAll(s, WrittenSoFar(s, events, env, i));
             && n !in env.locked && disk == Grouped(r, n, rows)
             && log == base + WrittenSoFar(s, events, env, i) + GroupWrites(r.buckets, n, rows)
    ensures disk == ApplyAll(s, WrittenSoFar(s, events, env, i + 1))
        && log == base + WrittenSoFar(s, events, env, i + 1)
  {
    var n, rows := TargetOf(s, Months(events, env)[i], env), OfMonth(events, Months(events, env)[i], env);
    var r := ApplyAll(s, WrittenSoFar(s, events, env, i));
    Regroup(base, WrittenSoFar(s, events, env, i), GroupWrites(r.buckets, n, rows));
  }

  ghost predicate EachStep(s: Store, events: seq<Event>, env: Env)
    requires StoreOk(s)
  {
    forall i | 0 <= i < |Reached(s, Months(events, env), env)| :: GroupStep(s, events, env, i)
  }

  lemma EachStepHolds(s: Store, events: seq<Event>, env: Env)
    requires Sound(s) && Ascending(events) && Ids(events) <= Ids(s.live)
    requires SealPlan(s, Months(events, env), env).1
    ensures EachStep(s, events, env)
  {
    var months := Months(events, env);
    MonthsNonempty(events, env);
    MonthsAre(events, env);
    SealsReady(s, months, env);
    SealPlanGetsThrough(s, months, env);
    var seals := SealPlan(s, months, env).0;
    CommitsKeep(s, seals);
    forall i | 0 <= i < |Reached(s, months, env)| ensures GroupStep(s, events, env, i) {
      WritesReady(s, ApplyAll(s, seals), events, months, i, env);
      OneStepHolds(s, ApplyAll(s, seals), events, env, i);
    }
  }

  lemma OneStepHolds(s: Store, s1: Store, events: seq<Event>, env: Env, i: nat)
    requires Sound(s) && Sound(s1) && Ascending(events) && Ids(events) <= Ids(s.live)
    requires i < |Months(events, env)| && AllTargeted(s, events, Months(events, env), env)
    requires SealedFor(s, s1, Months(events, env), env) && s1 == ApplyAll(s, SealPlan(s, Months(events, env), env).0)
    requires WritesAre(s, s1, events, Months(events, env)[..i], env)
    ensures GroupStep(s, events, env, i)
  {
    var months := Months(events, env);
    var m := months[i];
    var n, rows := TargetOf(s, m, env), OfMonth(events, m, env);
    var writes := WritePlan(s, events, months[..i], env);
    var r := ApplyAll(s1, writes);
    CommitsKeep(s1, writes);
    ApplyAllConcat(s, SealPlan(s, months, env).0, writes);
    SealedTargets(s, s1, months, env, m);
    TargetElsewhere(s1, r, m, n, months[..i]);
    TargetMonth(s, m, env);
    assert SameSchema(s, r, n);
    GroupIs(r, n, rows);
    NextWrites(s, events, env, i);
  }

  lemma ReachedFar(s: Store, months: seq<int>, env: Env, i: nat)
    requires i <= FirstStuck(s, months, env) && i < |months|
    ensures i < |Reached(s, months, env)|
    ensures Stuck(s, months[i], env) ==> i == FirstStuck(s, months, env) && |Reached(s, months, env)| == i + 1
    ensures !Stuck(s, months[i], env) ==> i + 1 <= FirstStuck(s, months, env)
  {
  }

  lemma ReachedIsWritten(s: Store, rows: seq<Event>, env: Env)
    requires SealPlan(s, Months(rows, env), env).1
    ensures WrittenSoFar(s, rows, env, |Reached(s, Months(rows, env), env)|) == BeforeDelete(s, rows, env)
  {
    var months := Months(rows, env);
    assert months[..|Reached(s, months, env)|] == Reached(s, months, env);
  }

  /** A pass that does not get through has no delete in its plan. */
  lemma PlanStopped(s: Store, rows: seq<Event>, env: Env, kept: set<nat>)
    requires !EndOf(s, rows, env).Through?
    ensures Plan(s, rows, env, kept) == BeforeDelete(s, rows, env)
  {
    assert BeforeDelete(s, rows, env) + [] == BeforeDelete(s, rows, env);
  }

  /** The plan, group by group. */
  lemma NextWrites(s: Store, events: seq<Event>, env: Env, i: nat)
    requires StoreOk(s) && i < |Months(events, env)|
    ensures var m := Months(events, env)[i];
            var before, cs := WrittenSoFar(s, events, env, i),
              WritesOf(s, TargetOf(s, m, env), OfMonth(events, m, env), env);
            && WrittenSoFar(s, events, env, i + 1) == before + cs
            && ApplyAll(s, before + cs) == ApplyAll(ApplyAll(s, before), cs)
  {
    var months := Months(events, env);
    assert months[..i + 1] == months[..i] + [months[i]];
    WritePlanOneMore(s, events, months[..i], months[i], env);
    var cs := WritesOf(s, TargetOf(s, months[i], env), OfMonth(events, months[i], env), env);
    Regroup(SealPlan(s, months, env).0, WritePlan(s, events, months[..i], env), cs);
    ApplyAllConcat(s, WrittenSoFar(s, events, env, i), cs);
  }

  lemma Regroup(a: seq<Commit>, b: seq<Commit>, c: seq<Commit>)
    ensures a + (b + c) == (a + b) + c
  {
  }

  lemma MovedOneMore(s: Store, events: seq<Event>, env: Env, i: nat)
    requires i < |Months(events, env)|
    ensures var m := Months(events, env)[i];
            MovedOf(s, events, env, i + 1) == MovedOf(s, events, env, i) +
              if TargetOf(s, m, env) in env.locked then {} else set e | e in OfMonth(events, m, env) :: e.id
  {
    var months := Months(events, env);
    assert months[..i + 1] == months[..i] + [months[i]];
  }

  lemma MovedOfAll(s: Store, events: seq<Event>, env: Env)
    ensures MovedOf(s, events, env, |Months(events, env)|) == MovedIds(s, events, env)
  {
    MonthsAre(events, env);
    assert Months(events, env)[..|Months(events, env)|] == Months(events, env);
  }

  /** `groups.get(bucketName).push(ev)`, starting the group when it is new. */
  method AddToGroup(ghost s: Store, events: seq<Event>, i: nat, ghost env: Env,
                    order: seq<Name>, groups: map<Name, seq<Event>>, n: Name)
    returns (order': seq<Name>, groups': map<Name, seq<Event>>)
    requires i < |events| && GroupsAre(s, events[..i], env, order, groups)
    requires n == TargetOf(s, Month(env, events[i]), env)
    ensures GroupsAre(s, events[..i + 1], env, order', groups')
  {
    order', groups' := order, groups;
    if Month(env, events[i]) in Months(events[..i], env) {
      GroupGrows(s, events, i, env, order, groups);
    } else {
      GroupStarts(s, events, i, env, order, groups);
    }
    if n !in groups {
      order', groups' := order + [n], groups[n := []];
    }
    groups' := groups'[n := groups'[n] + [events[i]]];
  }

  ghost predicate CacheIs(cache: map<int, Name>, months: seq<int>, s: Store, env: Env) {
    && (forall m :: m in cache <==> m in months)
    && (forall m | m in cache :: cache[m] == TargetOf(s, m, env))
  }

  /** A month without a bucket left stops the grouping of the whole batch. */
  lemma GroupingStops(s: Store, events: seq<Event>, i: nat, env: Env)
    requires i < |events| && !SealPlan(s, Months(events[..i + 1], env), env).1
    ensures SealPlan(s, Months(events, env), env) == SealPlan(s, Months(events[..i + 1], env), env)
  {
    MonthsPrefix(events, i + 1, env);
    SealPlanStops(s, Months(events[..i + 1], env), Months(events, env), env);
  }

  // ---------------------------------------------------------------- the owed rows

  lemma OwedIdsAre(t: Tables, pairs: seq<OwedPair>, now: int, capMs: int)
    requires SetOf(pairs) == OwedPairs(t, now, capMs)
    ensures (set p | p in pairs :: p.eventId) == OwedIds(t, now)
  {
    var ids := set p | p in pairs :: p.eventId;
    forall id | id in ids ensures id in OwedIds(t, now) {
      var p :| p in pairs && p.eventId == id;
      assert p in SetOf(pairs);
      var c, e :| c in t.cursors && e in t.events && e.expiresAt < now && Owes(t, c, e)
                  && p == OwedPair(e.id, c, OverCap(e, now, capMs));
      assert IsOwed(t, e);
    }
    forall id | id in OwedIds(t, now) ensures id in ids {
      var e :| e in t.events && e.expiresAt < now && IsOwed(t, e) && e.id == id;
      var c :| c in t.cursors && Owes(t, c, e);
      assert OwedPair(e.id, c, OverCap(e, now, capMs)) in SetOf(pairs);
    }
  }

  lemma ExtraIsNew(t: Tables, pairs: seq<OwedPair>, seen: seq<OwedPair>, extra: seq<OwedPair>, moved: set<nat>,
                   now: int, policy: Policy, capMs: int)
    requires Retention.Distinct(pairs) && Retention.Distinct(extra)
    requires SetOf(seen) == if policy == Retain then PairsOf(OwedPairs(t, now, capMs), moved) else {}
    requires forall p :: p in extra
                 <==> p in seen && p.overCap
                      && (p.eventId, p.cursorId) !in (set q | q in pairs :: (q.eventId, q.cursorId))
    ensures Retention.Distinct(pairs + extra)
    ensures SetOf(pairs + extra) == SetOf(pairs) + NewlyCapped(t, SetOf(pairs), moved, now, policy, capMs)
  {
    KnownIs(pairs);
    forall p: OwedPair ensures p in extra <==> p in NewlyCapped(t, SetOf(pairs), moved, now, policy, capMs) {
      assert p in seen <==> p in SetOf(seen);
    }
    forall p | p in extra ensures p !in pairs {
      assert p in pairs ==> (p.eventId, p.cursorId) in (set q | q in pairs :: (q.eventId, q.cursorId));
    }
    ListsApart(pairs, extra);
    assert SetOf(extra) == NewlyCapped(t, SetOf(pairs), moved, now, policy, capMs);
  }

  lemma KnownIs(pairs: seq<OwedPair>)
    ensures var known := set q | q in pairs :: (q.eventId, q.cursorId);
            forall p: OwedPair :: (p.eventId, p.cursorId) in known <==> Known(SetOf(pairs), p)
  {
    var known := set q | q in pairs :: (q.eventId, q.cursorId);
    forall p: OwedPair ensures (p.eventId, p.cursorId) in known <==> Known(SetOf(pairs), p) {
      if Known(SetOf(pairs), p) {
        var q :| q in SetOf(pairs) && q.eventId == p.eventId && q.cursorId == p.cursorId;
        assert (q.eventId, q.cursorId) in known;
      }
    }
  }

  lemma ListsApart(a: seq<OwedPair>, b: seq<OwedPair>)
    requires Retention.Distinct(a) && Retention.Distinct(b) && forall p | p in b :: p !in a
    ensures Retention.Distinct(a + b) && SetOf(a + b) == SetOf(a) + SetOf(b)
  {
    forall i, j | 0 <= i < j < |a + b| ensures (a + b)[i] != (a + b)[j] {
      if i < |a| <= j { assert (a + b)[i] in a && (a + b)[j] in b; }
    }
  }

  ghost function HeldIds(t: Tables, now: int, capMs: int): (ids: set<nat>) {
    set e | e in t.events && IsHeld(t, e, now, capMs) :: e.id
  }

  ghost function PairsOf(pairs: set<OwedPair>, ids: set<nat>): (s: set<OwedPair>) {
    set p | p in pairs && p.eventId in ids
  }

  function Select(pairs: seq<OwedPair>, keep: OwedPair -> bool): (r: seq<OwedPair>)
    ensures forall p :: p in r <==> p in pairs && keep(p)
    ensures Distinct(pairs) ==> Distinct(r)
  {
    if pairs == [] then []
    else
      var rest := Select(pairs[1..], keep);
      assert forall p :: p in pairs <==> p == pairs[0] || p in pairs[1..];
      assert Distinct(pairs) ==> pairs[0] !in pairs[1..] && Distinct(pairs[1..]);
      if keep(pairs[0]) then [pairs[0]] + rest else rest
  }

  lemma SeenIsHeld(t: Tables, now: int, capMs: int, ids: set<nat>, seen: seq<OwedPair>, owedNow: set<nat>)
    requires forall p :: p in seen <==> p in OwedPairs(t, now, capMs) && p.eventId in ids
    requires owedNow == set p | p in seen && !p.overCap :: p.eventId
    ensures ids - owedNow == ids - HeldIds(t, now, capMs)
    ensures SetOf(seen) == PairsOf(OwedPairs(t, now, capMs), ids)
  {
    forall id | id in ids ensures id in owedNow <==> id in HeldIds(t, now, capMs) {
      if id in owedNow {
        var p :| p in seen && !p.overCap && p.eventId == id;
        var c, e :| c in t.cursors && e in t.events && e.expiresAt < now && Owes(t, c, e)
                    && p == OwedPair(e.id, c, OverCap(e, now, capMs));
        assert IsHeld(t, e, now, capMs);
      }
      if id in HeldIds(t, now, capMs) {
        var e :| e in t.events && IsHeld(t, e, now, capMs) && e.id == id;
        var c :| c in t.cursors && Owes(t, c, e);
        assert OwedPair(e.id, c, false) in OwedPairs(t, now, capMs);
        assert OwedPair(e.id, c, false) in seen;
      }
    }
  }

  // ---------------------------------------------------------------- choosing and grouping

  lemma LatestIsChosen(buckets: map<Name, Bucket>, all: seq<Name>, m: int, latest: Option<Name>, env: Env)
    requires Listing(all, buckets)
    requires latest.None? ==> forall j | 0 <= j < |all| :: all[j].month != m
    requires latest.Some? ==> latest.value in all && latest.value.month == m
    requires latest.Some? ==> forall j | 0 <= j < |all| && all[j].month == m :: all[j].suffix <= latest.value.suffix
    ensures latest.None? <==> Suffixes(buckets, m) == {}
    ensures latest.Some? ==> latest.value == Name(m, MaxOf(Suffixes(buckets, m)))
  {
    forall x | x in Suffixes(buckets, m) ensures latest.Some? && x <= latest.value.suffix {
      var n :| n in buckets && n.month == m && n.suffix == x;
      var j :| 0 <= j < |all| && all[j] == n;
    }
    if latest.Some? { assert latest.value.suffix in Suffixes(buckets, m); }
  }

  /** Closing buckets of some months leaves the choice for another month as it was. */
  lemma ChooseElsewhere(s: Store, r: Store, months: seq<int>, m: int, env: Env)
    requires SealedFor(s, r, months, env) && m !in months
    ensures Choose(r.buckets, m, env) == Choose(s.buckets, m, env)
  {
    assert Suffixes(r.buckets, m) == Suffixes(s.buckets, m);
  }

  lemma MonthsOneMore(events: seq<Event>, i: nat, env: Env)
    requires i < |events|
    ensures var ms, m := Months(events[..i], env), Month(env, events[i]);
            Months(events[..i + 1], env) == if m in ms then ms else ms + [m]
  {
    assert events[..i + 1][..i] == events[..i];
  }

  lemma {:induction false} MonthsPrefix(events: seq<Event>, k: nat, env: Env)
    requires k <= |events|
    ensures Months(events[..k], env) <= Months(events, env)
    decreases |events| - k
  {
    if k == |events| {
      assert events[..k] == events;
    } else {
      MonthsOneMore(events, k, env);
      MonthsPrefix(events, k + 1, env);
    }
  }

  lemma SealPlanOneMore(s: Store, months: seq<int>, m: int, env: Env)
    ensures (months + [m])[..|months|] == months
    ensures var (cs, ok) := SealPlan(s, months, env);
            SealPlan(s, months + [m], env) ==
              if !ok then (cs, false)
              else match Choose(s.buckets, m, env)
                   case Use(_) => (cs, true)
                   case Rotate(l, _) => (cs + [Seal(l)], true)
                   case Exhausted(l) => (cs + [Seal(l)], false)
  {
    assert (months + [m])[..|months|] == months;
  }

  lemma ReadyOneMoreOf(s: Store, months: seq<int>, m: int, env: Env)
    requires StoreOk(s)
    ensures var (cs, ok) := SealPlan(s, months, env);
            ok && !Choose(s.buckets, m, env).Use? ==>
              var l := Choose(s.buckets, m, env).latest;
              ApplyAll(s, cs + [Seal(l)]) == Apply(ApplyAll(s, cs), Seal(l))
  {
    SealsReady(s, months, env);
    ChosenExists(s.buckets, m, env);
    var (cs, ok) := SealPlan(s, months, env);
    if ok && !Choose(s.buckets, m, env).Use? {
      ReadyOneMore(s, cs, Seal(Choose(s.buckets, m, env).latest));
    }
  }

  /** Grouping stops at the first month that has no bucket left. */
  lemma {:induction false} SealPlanStops(s: Store, done: seq<int>, months: seq<int>, env: Env)
    requires done <= months && !SealPlan(s, done, env).1
    ensures SealPlan(s, months, env) == SealPlan(s, done, env)
    decreases |months|
  {
    if |done| < |months| {
      SealPlanStops(s, done, months[..|months| - 1], env);
    } else {
      assert done == months;
    }
  }

  /** Every row is in the group of its month's bucket, in id order, and nothing else is. */
  ghost predicate GroupsAre(s: Store, events: seq<Event>, env: Env, order: seq<Name>, groups: map<Name, seq<Event>>) {
    var months := Months(events, env);
    && |order| == |months|
    && (forall i | 0 <= i < |months| :: order[i] == TargetOf(s, months[i], env))
    && (forall n :: n in groups <==> n in order)
    && (forall i | 0 <= i < |months| :: groups[order[i]] == OfMonth(events, months[i], env))
  }

  lemma OfMonthOneMore(events: seq<Event>, i: nat, m: int, env: Env)
    requires i < |events|
    ensures OfMonth(events[..i + 1], m, env)
         == OfMonth(events[..i], m, env) + if Month(env, events[i]) == m then [events[i]] else []
  {
    assert events[..i + 1] == events[..i] + [events[i]];
    Batches.WhereConcat(events[..i], [events[i]], (e: Event) => Month(env, e) == m);
  }

  lemma TargetMonth(s: Store, m: int, env: Env)
    ensures TargetOf(s, m, env).month == m
  {
    ChosenExists(s.buckets, m, env);
  }

  lemma GroupGrows(s: Store, events: seq<Event>, i: nat, env: Env, order: seq<Name>, groups: map<Name, seq<Event>>)
    requires i < |events| && GroupsAre(s, events[..i], env, order, groups)
    requires Month(env, events[i]) in Months(events[..i], env)
    ensures var n := TargetOf(s, Month(env, events[i]), env);
            n in groups && GroupsAre(s, events[..i + 1], env, order, groups[n := groups[n] + [events[i]]])
  {
    var months, m := Months(events[..i], env), Month(env, events[i]);
    MonthsOneMore(events, i, env);
    var k :| 0 <= k < |months| && months[k] == m;
    assert order[k] == TargetOf(s, m, env);
    forall j | 0 <= j < |months|
      ensures groups[order[k] := groups[order[k]] + [events[i]]][order[j]] == OfMonth(events[..i + 1], months[j], env)
    {
      OneGroupGrows(s, events, i, env, groups, months[j]);
    }
    GroupsStillAre(s, events, i, env, order, groups, order[k]);
  }

  lemma GroupsStillAre(s: Store, events: seq<Event>, i: nat, env: Env, order: seq<Name>,
                       groups: map<Name, seq<Event>>, n: Name)
    requires i < |events| && GroupsAre(s, events[..i], env, order, groups) && n in groups
    requires Months(events[..i + 1], env) == Months(events[..i], env)
    requires var months, after := Months(events[..i], env), groups[n := groups[n] + [events[i]]];
             forall j | 0 <= j < |months| :: after[order[j]] == OfMonth(events[..i + 1], months[j], env)
    ensures GroupsAre(s, events[..i + 1], env, order, groups[n := groups[n] + [events[i]]])
  {
  }

  lemma OneGroupGrows(s: Store, events: seq<Event>, i: nat, env: Env, groups: map<Name, seq<Event>>, m: int)
    requires i < |events| && TargetOf(s, m, env) in groups && TargetOf(s, Month(env, events[i]), env) in groups
    requires groups[TargetOf(s, m, env)] == OfMonth(events[..i], m, env)
    ensures var n := TargetOf(s, Month(env, events[i]), env);
            groups[n := groups[n] + [events[i]]][TargetOf(s, m, env)] == OfMonth(events[..i + 1], m, env)
  {
    OfMonthOneMore(events, i, m, env);
    TargetMonth(s, m, env);
    TargetMonth(s, Month(env, events[i]), env);
  }

  lemma GroupStarts(s: Store, events: seq<Event>, i: nat, env: Env, order: seq<Name>, groups: map<Name, seq<Event>>)
    requires i < |events| && GroupsAre(s, events[..i], env, order, groups)
    requires Month(env, events[i]) !in Months(events[..i], env)
    ensures var n := TargetOf(s, Month(env, events[i]), env);
            n !in groups && GroupsAre(s, events[..i + 1], env, order + [n], groups[n := [] + [events[i]]])
  {
    var months, m := Months(events[..i], env), Month(env, events[i]);
    MonthsOneMore(events, i, env);
    var n := TargetOf(s, m, env);
    TargetMonth(s, m, env);
    forall j | 0 <= j < |months|
      ensures order[j] != n && OfMonth(events[..i + 1], months[j], env) == OfMonth(events[..i], months[j], env)
    {
      OtherMonthStays(events, i, months[j], env);
      TargetMonth(s, months[j], env);
    }
    NewMonthStarts(events, i, env);
    assert [] + [events[i]] == [events[i]];
    GroupsWithNew(s, events, i, env, order, groups, n);
  }

  lemma GroupsWithNew(s: Store, events: seq<Event>, i: nat, env: Env, order: seq<Name>,
                      groups: map<Name, seq<Event>>, n: Name)
    requires i < |events| && GroupsAre(s, events[..i], env, order, groups)
    requires n == TargetOf(s, Month(env, events[i]), env)
    requires Months(events[..i + 1], env) == Months(events[..i], env) + [Month(env, events[i])]
    requires var months := Months(events[..i], env);
             forall j | 0 <= j < |months| ::
               order[j] != n && OfMonth(events[..i + 1], months[j], env) == OfMonth(events[..i], months[j], env)
    requires OfMonth(events[..i + 1], Month(env, events[i]), env) == [events[i]]
    ensures n !in groups && GroupsAre(s, events[..i + 1], env, order + [n], groups[n := [events[i]]])
  {
  }

  lemma OtherMonthStays(events: seq<Event>, i: nat, m: int, env: Env)
    requires i < |events| && Month(env, events[i]) != m
    ensures OfMonth(events[..i + 1], m, env) == OfMonth(events[..i], m, env)
  {
    OfMonthOneMore(events, i, m, env);
  }

  lemma NewMonthStarts(events: seq<Event>, i: nat, env: Env)
    requires i < |events| && Month(env, events[i]) !in Months(events[..i], env)
    ensures OfMonth(events[..i + 1], Month(env, events[i]), env) == [events[i]]
  {
    OfMonthOneMore(events, i, Month(env, events[i]), env);
    NoneOfMonth(events[..i], Month(env, events[i]), env);
  }

  lemma NoneOfMonth(events: seq<Event>, m: int, env: Env)
    requires m !in Months(events, env)
    ensures OfMonth(events, m, env) == []
  {
    var rows := OfMonth(events, m, env);
    MonthsAre(events, env);
    assert forall x | x in rows :: Month(env, x) in Months(events, env);
    HeadIn(rows);
  }

  /** The store with the file and the tables of bucket `n`. */
  ghost function Made(s: Store, n: Name): (r: Store)
    requires StoreOk(s)
    ensures StoreOk(r)
  {
    Apply(Apply(Apply(s, CreateFile(n)), CreateEvents(n)), CreateMeta(n))
  }

  /** The store with bucket `n` opened when it was not there. */
  ghost function Headed(s: Store, n: Name, rows: seq<Event>): (r: Store)
    requires StoreOk(s) && rows != []
    ensures StoreOk(r)
  {
    if n in s.buckets then s
    else Apply(Apply(Made(s, n), SetMin(n, rows[0].id)), SetMax(n, rows[|rows| - 1].id))
  }

  /** The store with the rows in their bucket, as far as its tables allow. */
  ghost function Grouped(s: Store, n: Name, rows: seq<Event>): (r: Store)
    requires StoreOk(s) && rows != []
  {
    if n in s.buckets && s.buckets[n].schema.NoTables? then s
    else if n in s.buckets && s.buckets[n].schema.EventsOnly? then Apply(s, InsertRows(n, rows))
    else
      ApplyKeepsOk(Headed(s, n, rows), InsertRows(n, rows));
      Apply(Apply(Headed(s, n, rows), InsertRows(n, rows)), SetRange(n))
  }

  lemma ApplyOneMore(s: Store, cs: seq<Commit>, c: Commit)
    requires StoreOk(s)
    ensures ApplyAll(s, cs + [c]) == Apply(ApplyAll(s, cs), c)
  {
    assert (cs + [c])[..|cs|] == cs;
  }

  lemma GroupIs(s: Store, n: Name, rows: seq<Event>)
    requires StoreOk(s) && rows != []
    ensures ApplyAll(s, GroupWrites(s.buckets, n, rows)) == Grouped(s, n, rows)
  {
    if Whole(s, n) {
      WholeGroupIs(s, n, rows);
    } else if s.buckets[n].schema.EventsOnly? {
      ApplyOneMore(s, [], InsertRows(n, rows));
      assert [] + [InsertRows(n, rows)] == [InsertRows(n, rows)];
    }
  }

  lemma WholeGroupIs(s: Store, n: Name, rows: seq<Event>)
    requires StoreOk(s) && rows != [] && Whole(s, n)
    ensures ApplyAll(s, GroupCommits(n, rows, n !in s.buckets)) == Grouped(s, n, rows)
  {
    var opening := Opening(n, rows, n !in s.buckets);
    OpeningIs(s, n, rows);
    ApplyKeepsOk(Headed(s, n, rows), InsertRows(n, rows));
    ApplyOneMore(s, opening, InsertRows(n, rows));
    ApplyOneMore(s, opening + [InsertRows(n, rows)], SetRange(n));
  }

  lemma OpeningIs(s: Store, n: Name, rows: seq<Event>)
    requires StoreOk(s) && rows != []
    ensures ApplyAll(s, Opening(n, rows, n !in s.buckets)) == Headed(s, n, rows)
  {
    if n !in s.buckets {
      var b, c := SetMin(n, rows[0].id), SetMax(n, rows[|rows| - 1].id);
      CreationIs(s, n);
      ApplyOneMore(s, Creation(n), b);
      ApplyOneMore(s, Creation(n) + [b], c);
    }
  }

  lemma CreationIs(s: Store, n: Name)
    requires StoreOk(s)
    ensures ApplyAll(s, Creation(n)) == Made(s, n)
  {
    var a, b, c := CreateFile(n), CreateEvents(n), CreateMeta(n);
    ApplyOneMore(s, [], a);
    assert [] + [a] == [a];
    ApplyOneMore(s, [a], b);
    ApplyOneMore(s, [a] + [b], c);
  }

  /** The groups and then the delete are the whole plan. */
  lemma PlanReached(s: Store, rows: seq<Event>, env: Env, kept: set<nat>, base: seq<Commit>, disk: Store,
                    log: seq<Commit>)
    requires StoreOk(s) && EndOf(s, rows, env).Through?
    requires var moved, cs := MovedIds(s, rows, env), BeforeDelete(s, rows, env);
             var tail: seq<Commit> := if moved == {} then [] else [DeleteLive(moved - kept)];
             && log == (base + cs) + tail
             && disk == if moved == {} then ApplyAll(s, cs) else Apply(ApplyAll(s, cs), DeleteLive(moved - kept))
    ensures disk == ApplyAll(s, Plan(s, rows, env, kept)) && log == base + Plan(s, rows, env, kept)
  {
    var moved, cs := MovedIds(s, rows, env), BeforeDelete(s, rows, env);
    PlanIs(s, rows, env, kept);
    Regroup(base, cs, if moved == {} then [] else [DeleteLive(moved - kept)]);
  }

  lemma NothingWritten(s: Store, rows: seq<Event>, env: Env)
    requires StoreOk(s)
    ensures WrittenSoFar(s, rows, env, 0) == SealPlan(s, Months(rows, env), env).0
  {
    assert Months(rows, env)[..0] == [];
  }

  /** The plan is its groups followed by the delete. */
  lemma PlanIs(s: Store, rows: seq<Event>, env: Env, kept: set<nat>)
    requires StoreOk(s) && EndOf(s, rows, env).Through?
    ensures var moved, cs := MovedIds(s, rows, env), BeforeDelete(s, rows, env);
            var tail: seq<Commit> := if moved == {} then [] else [DeleteLive(moved - kept)];
            && Plan(s, rows, env, kept) == cs + tail
            && ApplyAll(s, cs + tail) == if moved == {} then ApplyAll(s, cs)
              else Apply(ApplyAll(s, cs), DeleteLive(moved - kept))
  {
    var moved, cs := MovedIds(s, rows, env), BeforeDelete(s, rows, env);
    if moved == {} {
      assert cs + [] == cs;
    } else {
      assert (cs + [DeleteLive(moved - kept)])[..|cs|] == cs;
    }
  }

  // ---------------------------------------------------------------- what a pass guarantees

  lemma LateSound(d: Store, live: seq<Event>)
    requires Sound(d) && Ascending(live)
    ensures Sound(Store(live, d.buckets))
  {
  }

  /** The pass can always be carried out, whatever others emit and whichever keys they release meanwhile. */
  lemma PassAlwaysFits(s: Store, t: Tables, now: int, policy: Policy, capMs: int, batch: nat, env: Env, m: Meanwhile)
    requires Sound(s) && t.Valid() && s.live == t.events
    requires After(t, m).Valid()
    ensures PassFits(s, t, now, policy, capMs, batch, env, m)
    ensures Sound(StartOf(s, t, now, policy, m))
    ensures var rows := Picked(Dropped(s, t, now, policy), t, now, policy, capMs, batch);
            Ascending(rows) && Ids(rows) <= Ids(StartOf(s, t, now, policy, m).live)
  {
    var d := Dropped(s, t, now, policy);
    StartHolds(s, t, now, policy, m);
    RowsAscending(d.live, now, StillHeld(t, now, policy, capMs), batch);
    var start, rows := StartOf(s, t, now, policy, m), Picked(d, t, now, policy, capMs, batch);
    if SealPlan(start, Months(rows, env), env).1 { EachStepHolds(start, rows, env); }
  }

  lemma StartHolds(s: Store, t: Tables, now: int, policy: Policy, m: Meanwhile)
    requires Sound(s) && t.Valid() && s.live == t.events
    requires After(t, m).Valid()
    ensures var d, start := Dropped(s, t, now, policy), StartOf(s, t, now, policy, m);
            && Sound(start) && Ascending(d.live) && Ids(d.live) <= Ids(start.live)
            && Store(After(t.(events := d.live), m).events, d.buckets) == start
            && After(t.(events := d.live), m).Valid()
  {
    var d := Dropped(s, t, now, policy);
    DiscardKeeps(s, OwedIds(t, now));
    WithKeysIds(s.live, m.keys);
    WithKeysIds(d.live, m.keys);
    LateAscending(WithKeys(s.live, m.keys), WithKeys(d.live, m.keys), m.emitted);
    LateSound(d, WithKeys(d.live, m.keys) + m.emitted);
    LateIds(d.live, m);
  }

  lemma LateIds(live: seq<Event>, m: Meanwhile)
    ensures Ids(WithKeys(live, m.keys) + m.emitted) == Ids(live) + Ids(m.emitted)
  {
    WithKeysIds(live, m.keys);
    assert forall e :: e in WithKeys(live, m.keys) + m.emitted <==> e in WithKeys(live, m.keys) || e in m.emitted;
  }

  /** The disk when a pass starts to move rows. */
  ghost function StartOf(s: Store, t: Tables, now: int, policy: Policy, m: Meanwhile): (r: Store)
    requires StoreOk(s)
  {
    Store(WithKeys(Dropped(s, t, now, policy).live, m.keys) + m.emitted, s.buckets)
  }

  lemma LateAscending(live: seq<Event>, rest: seq<Event>, more: seq<Event>)
    requires Ascending(live + more) && Ascending(rest) && Ids(rest) <= Ids(live)
    ensures Ascending(rest + more)
  {
    forall i, j | 0 <= i < j < |rest + more| ensures (rest + more)[i].id < (rest + more)[j].id {
      if i < |rest| <= j {
        assert rest[i].id in Ids(rest);
        var k :| 0 <= k < |live| && live[k].id == rest[i].id;
        assert (live + more)[k].id < (live + more)[|live| + j - |rest|].id;
      } else if i >= |rest| {
        assert (live + more)[|live| + i - |rest|].id < (live + more)[|live| + j - |rest|].id;
      }
    }
  }

  lemma RowsAscending(live: seq<Event>, now: int, held: set<nat>, batch: nat)
    requires Ascending(live)
    ensures var rows := Batches.Candidates(live, now, held, batch);
            && Ascending(rows) && (forall e | e in rows :: e in live && e.expiresAt < now && e.id !in held)
            && Ids(rows) <= Ids(live)
  {
    Batches.BatchIsOldestEligible(live, now, held, batch);
    LimitedSelection(live, Batches.Movable(now, held), batch);
    var rows := Batches.Candidates(live, now, held, batch);
    assert rows == Limit(Where(live, Batches.Movable(now, held)), batch);
    assert forall e | e in rows :: e in live && Batches.Movable(now, held)(e);
  }

  /**
   However registrations, acks, emits and released keys interleave with the pass: under 'retain' it deletes
   no row that is owed and inside the cap when it deletes, and what it does delete is in a bucket.
   */
  lemma RetainPassKeepsOwed(s: Store, t: Tables, now: int, capMs: int, batch: nat, env: Env, m: Meanwhile)
    requires Sound(s) && t.Valid() && s.live == t.events
    requires After(t, m).Valid()
    ensures var start, late := StartOf(s, t, now, Retain, m), After(t, m);
            var rows := Picked(s, t, now, Retain, capMs, batch);
            var after := ApplyAll(start, Plan(start, rows, env, StillHeld(late, now, Retain, capMs)));
            && start.live == late.events
            && (forall e | e in late.events && IsHeld(late, e, now, capMs) :: e in after.live)
            && (forall e | e in late.events && e !in after.live :: Covered(after, e.id))
  {
    PassAlwaysFits(s, t, now, Retain, capMs, batch, env, m);
    var start, late := StartOf(s, t, now, Retain, m), After(t, m);
    PassDeletes(start, Picked(s, t, now, Retain, capMs, batch), env, StillHeld(late, now, Retain, capMs));
  }

  /** A row is held while it is awaited and not older than the cap. */
  lemma HeldByTimestamps(t: Tables, e: Event, now: int, policy: Policy, capMs: int)
    requires t.Valid() && e in t.events
    ensures e.id in StillHeld(t, now, policy, capMs) <==>
            policy == Retain && e.expiresAt < now && Awaited(t, e) && e.emittedAt + capMs >= now
  {
    OwedIsAwaited(t, e);
    IdsDetermineRows(t.events);
    assert e.id in HeldIds(t, now, capMs) <==> IsHeld(t, e, now, capMs);
  }

  /** What a 'retain' pass deletes, by timestamps: the moved rows but the young ones that are awaited by then. */
  lemma RetainPassByTimestamps(s: Store, t: Tables, now: int, capMs: int, batch: nat, env: Env, m: Meanwhile, e: Event)
    requires Sound(s) && t.Valid() && s.live == t.events
    requires After(t, m).Valid() && e in After(t, m).events
    ensures var start, late := StartOf(s, t, now, Retain, m), After(t, m);
            var rows := Picked(s, t, now, Retain, capMs, batch);
            e in ApplyAll(start, Plan(start, rows, env, StillHeld(late, now, Retain, capMs))).live <==>
            || !EndOf(start, rows, env).Through? || e.id !in MovedIds(start, rows, env)
            || (e.expiresAt < now && Awaited(late, e) && e.emittedAt + capMs >= now)
  {
    PassAlwaysFits(s, t, now, Retain, capMs, batch, env, m);
    var start, late := StartOf(s, t, now, Retain, m), After(t, m);
    PassDeletes(start, Picked(s, t, now, Retain, capMs, batch), env, StillHeld(late, now, Retain, capMs));
    HeldByTimestamps(late, e, now, Retain, capMs);
  }

  /** What a pass may take, by timestamps: expired rows, but under 'retain' not the young ones that are awaited. */
  ghost predicate Takeable(t: Tables, e: Event, now: int, policy: Policy, capMs: int)
    requires t.Valid()
  {
    && e in t.events && e.expiresAt < now
    && match policy
       case Retain => !Awaited(t, e) || e.emittedAt + capMs < now
       case Archive => true
       case Discard => !Awaited(t, e)
  }

  /** The batch of a pass: rows it may take, in order, and none left out before a full batch. */
  lemma PickedByTimestamps(s: Store, t: Tables, now: int, policy: Policy, capMs: int, batch: nat)
    requires StoreOk(s) && t.Valid() && s.live == t.events
    ensures var rows := Picked(Dropped(s, t, now, policy), t, now, policy, capMs, batch);
            && Ascending(rows) && |rows| <= batch
            && (forall e | e in rows :: Takeable(t, e, now, policy, capMs))
            && (forall e | Takeable(t, e, now, policy, capMs) && e !in rows ::
                  |rows| == batch && forall x | x in rows :: x.id < e.id)
  {
    var d, held := Dropped(s, t, now, policy), StillHeld(t, now, policy, capMs);
    Batches.BatchIsOldestEligible(d.live, now, held, batch);
    LimitedSelection(d.live, Batches.Movable(now, held), batch);
    forall e ensures e in d.live && Batches.Movable(now, held)(e) <==> Takeable(t, e, now, policy, capMs) {
      TakeableIs(s, t, e, now, policy, capMs);
    }
  }

  lemma TakeableIs(s: Store, t: Tables, e: Event, now: int, policy: Policy, capMs: int)
    requires StoreOk(s) && t.Valid() && s.live == t.events
    ensures e in Dropped(s, t, now, policy).live && Batches.Movable(now, StillHeld(t, now, policy, capMs))(e)
       <==> Takeable(t, e, now, policy, capMs)
  {
    DroppedRows(s, t, e, now, policy);
    if e in t.events {
      HeldByTimestamps(t, e, now, policy, capMs);
    }
  }

  /** 'discard' takes the awaited expired rows out first. */
  lemma DroppedRows(s: Store, t: Tables, e: Event, now: int, policy: Policy)
    requires StoreOk(s) && t.Valid() && s.live == t.events
    ensures e in Dropped(s, t, now, policy).live
       <==> e in t.events && !(policy == Policy.Discard && e.expiresAt < now && Awaited(t, e))
  {
    if e in t.events { OwedIdIs(t, e, now); }
  }

  lemma OwedIdIs(t: Tables, e: Event, now: int)
    requires t.Valid() && e in t.events
    ensures e.id in OwedIds(t, now) <==> e.expiresAt < now && Awaited(t, e)
  {
    OwedIsAwaited(t, e);
    IdsDetermineRows(t.events);
  }

  /**
   A pass that gets through takes from the live table exactly the moved ids that are not kept, one that does
   not takes nothing, and what it takes it has first put in a bucket.
   */
  lemma PassDeletes(s: Store, rows: seq<Event>, env: Env, kept: set<nat>)
    requires Sound(s) && Ascending(rows) && Ids(rows) <= Ids(s.live)
    ensures var after := ApplyAll(s, Plan(s, rows, env, kept));
            var gone := if EndOf(s, rows, env).Through? then MovedIds(s, rows, env) - kept else {};
            && (forall e :: e in after.live <==> e in s.live && e.id !in gone)
            && gone <= Ids(s.live)
            && (forall id | id in gone :: Covered(after, id))
  {
    PlanReady(s, rows, env, kept);
    if EndOf(s, rows, env).Through? {
      MonthsNonempty(rows, env);
      MonthsAre(rows, env);
      SealPlanGetsThrough(s, Months(rows, env), env);
      WholeReady(s, rows, Months(rows, env), env);
      PlanIs(s, rows, env, kept);
      DeletedAreCovered(s, ApplyAll(s, BeforeDelete(s, rows, env)), rows, env, kept);
    }
  }

  lemma DeletedAreCovered(s: Store, r: Store, rows: seq<Event>, env: Env, kept: set<nat>)
    requires StoreOk(s) && StoreOk(r) && r.live == s.live && MonthsCovered(s, r, rows, Months(rows, env), env)
    requires Ids(rows) <= Ids(s.live)
    ensures MovedIds(s, rows, env) - kept <= Ids(s.live)
    ensures forall id | id in MovedIds(s, rows, env) - kept ::
              Covered(r, id) && Covered(Apply(r, DeleteLive(MovedIds(s, rows, env) - kept)), id)
  {
    MovedCovered(s, r, rows, env, kept);
    var gone := MovedIds(s, rows, env) - kept;
    forall id | id in gone ensures id in Ids(s.live) && Covered(r, id) && Covered(Apply(r, DeleteLive(gone)), id) {
      var e :| e in rows && e.id == id;
      assert id in Ids(rows);
      var n :| CoveredIn(r, n, id);
      assert CoveredIn(Apply(r, DeleteLive(gone)), n, id);
    }
  }

  // ---------------------------------------------------------------- when a pass gets through

  /**
   The last bucket of the month, if there is one, can be written or skipped or followed by another: a sealed
   or full one has a suffix left after it, any other one is locked or has both its tables.
   */
  ghost predicate MonthOpen(s: Store, m: int, env: Env) {
    forall n | n in s.buckets && n.month == m && IsLast(s, n) ::
      if s.buckets[n].sealed || n in env.full then n.suffix < 26
      else n in env.locked || s.buckets[n].schema.Complete?
  }

  lemma MonthOpenExactly(s: Store, m: int, env: Env)
    requires StoreOk(s)
    ensures MonthOpen(s, m, env) <==> !Choose(s.buckets, m, env).Exhausted? && !Stuck(s, m, env)
  {
    ChosenExists(s.buckets, m, env);
    var used := Suffixes(s.buckets, m);
    if used == {} {
      forall n | n in s.buckets ensures n.month != m { assert n.month == m ==> n.suffix in used; }
    } else {
      var l := Name(m, MaxOf(used));
      forall n | n in s.buckets && n.month == m ensures n.suffix in used {}
      assert l in s.buckets && IsLast(s, l);
      forall n | n in s.buckets && n.month == m && IsLast(s, n) ensures n == l {}
    }
  }

  /** A pass gets through exactly when the month of each row it picked is open. */
  lemma PassGetsThrough(s: Store, t: Tables, disk: Store, base: seq<Commit>, log: seq<Commit>,
                        now: int, policy: Policy, capMs: int, batch: nat, env: Env, m: Meanwhile, r: Outcome)
    requires StoreOk(s) && PassDone(s, t, disk, base, log, now, policy, capMs, batch, env, m, r)
    ensures r.Done? <==> forall e | e in Picked(Dropped(s, t, now, policy), t, now, policy, capMs, batch) ::
                           MonthOpen(s, Month(env, e), env)
  {
    var start := StartOf(s, t, now, policy, m);
    var rows := Picked(Dropped(s, t, now, policy), t, now, policy, capMs, batch);
    EndsThrough(start, rows, env);
    forall e | e in rows ensures MonthOpen(s, Month(env, e), env) <==> MonthOpen(start, Month(env, e), env) {
      SameMonthOpen(s, start, Month(env, e), env);
    }
  }

  lemma SameMonthOpen(s: Store, r: Store, m: int, env: Env)
    requires r.buckets == s.buckets
    ensures MonthOpen(s, m, env) <==> MonthOpen(r, m, env)
  {
    assert forall n :: IsLast(s, n) <==> IsLast(r, n);
  }

  /** The last bucket of the month must be left, and there is no letter after its own. */
  ghost predicate LettersRunOut(s: Store, m: int, env: Env) {
    exists n | n in s.buckets && n.month == m && IsLast(s, n) ::
      (s.buckets[n].sealed || n in env.full) && n.suffix >= 26
  }

  lemma RunsOutExactly(s: Store, m: int, env: Env)
    requires StoreOk(s)
    ensures LettersRunOut(s, m, env) <==> Choose(s.buckets, m, env).Exhausted?
  {
    ChosenExists(s.buckets, m, env);
    forall n | n in s.buckets && n.month == m && IsLast(s, n)
      ensures Choose(s.buckets, m, env).Exhausted? <==> (s.buckets[n].sealed || n in env.full) && n.suffix >= 26
    {
      ChoiceExactly(s, m, env, n);
    }
  }

  /** A pass throws for want of a bucket name exactly when a month of its rows has run out of letters. */
  lemma NoBucketLeftExactly(s: Store, t: Tables, disk: Store, base: seq<Commit>, log: seq<Commit>,
                            now: int, policy: Policy, capMs: int, batch: nat, env: Env, m: Meanwhile, r: Outcome)
    requires StoreOk(s) && PassDone(s, t, disk, base, log, now, policy, capMs, batch, env, m, r)
    ensures r.NoBucketLeft? <==> exists e | e in Picked(Dropped(s, t, now, policy), t, now, policy, capMs, batch) ::
                                   LettersRunOut(s, Month(env, e), env)
  {
    var start := StartOf(s, t, now, policy, m);
    var rows := Picked(Dropped(s, t, now, policy), t, now, policy, capMs, batch);
    RowsRunOut(start, rows, env);
    forall e | e in rows ensures LettersRunOut(s, Month(env, e), env) <==> LettersRunOut(start, Month(env, e), env) {
      RunsOutExactly(s, Month(env, e), env);
      RunsOutExactly(start, Month(env, e), env);
    }
  }

  lemma RowsRunOut(s: Store, rows: seq<Event>, env: Env)
    requires StoreOk(s)
    ensures !SealPlan(s, Months(rows, env), env).1 <==> exists e | e in rows :: LettersRunOut(s, Month(env, e), env)
  {
    MonthsAre(rows, env);
    SealPlanGetsThrough(s, Months(rows, env), env);
    forall e | e in rows
      ensures LettersRunOut(s, Month(env, e), env) <==> Choose(s.buckets, Month(env, e), env).Exhausted?
    {
      RunsOutExactly(s, Month(env, e), env);
    }
  }

  lemma EndsThrough(s: Store, rows: seq<Event>, env: Env)
    requires StoreOk(s)
    ensures EndOf(s, rows, env).Through? <==> forall e | e in rows :: MonthOpen(s, Month(env, e), env)
  {
    var months := Months(rows, env);
    MonthsAre(rows, env);
    SealPlanGetsThrough(s, months, env);
    forall m ensures MonthOpen(s, m, env) <==> !Choose(s.buckets, m, env).Exhausted? && !Stuck(s, m, env) {
      MonthOpenExactly(s, m, env);
    }
    if EndOf(s, rows, env).Through? {
      forall e | e in rows ensures MonthOpen(s, Month(env, e), env) {
        var i :| 0 <= i < |months| && months[i] == Month(env, e);
        assert !Stuck(s, months[i], env);
      }
    } else {
      var m := if !SealPlan(s, months, env).1 then NoNameLeft(s, months, env) else months[FirstStuck(s, months, env)];
      var e :| e in rows && Month(env, e) == m;
    }
  }

  ghost function NoNameLeft(s: Store, months: seq<int>, env: Env): (m: int)
    requires !SealPlan(s, months, env).1
    ensures m in months && Choose(s.buckets, m, env).Exhausted?
  {
    SealPlanGetsThrough(s, months, env);
    var m :| m in months && Choose(s.buckets, m, env).Exhausted?;
    m
  }
}
