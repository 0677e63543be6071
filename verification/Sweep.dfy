/**
 The in-database sweep (lib/sweep.js) and the dry run that previews it (commands/cmd-cleanup.js).
 */
module Sweep {
  import opened Events
  import opened Database
  import opened Retention

  predicate Expired(e: Event, now: int) {
    e.expiresAt < now
  }

  /** Owed, but older than the retention cap: archived even under 'retain'. */
  predicate Capped(t: Tables, e: Event, now: int, capMs: int) {
    Expired(e, now) && IsOwed(t, e) && OverCap(e, now, capMs)
  }

  /** The rows a sweep takes out of the live table. */
  predicate Removed(t: Tables, e: Event, now: int, policy: Policy, capMs: int) {
    Expired(e, now) && (policy == Retain ==> !IsOwed(t, e) || OverCap(e, now, capMs))
  }

  /** The rows a sweep copies to `events_archive`. */
  predicate Copied(t: Tables, e: Event, now: int, policy: Policy, capMs: int, archiveMode: bool) {
    Expired(e, now) &&
    if IsOwed(t, e) then policy == Archive || (policy == Retain && OverCap(e, now, capMs)) else archiveMode
  }

  /** `INSERT OR IGNORE INTO events_archive`. */
  function InsertOrIgnore(archive: map<nat, Event>, rows: set<Event>): (r: map<nat, Event>)
    requires forall a, b | a in rows && b in rows && a.id == b.id :: a == b
    ensures r.Keys == archive.Keys + (set e | e in rows :: e.id)
    ensures forall id | id in archive :: r[id] == archive[id]
    ensures forall e | e in rows && e.id !in archive :: r[e.id] == e
  {
    archive + (map e | e in rows && e.id !in archive :: e.id := e)
  }

  /** The database after a sweep. */
  function Swept(t: Tables, now: int, policy: Policy, capMs: int, archiveMode: bool): (r: Tables)
    requires t.Valid()
    ensures r.Valid()
  {
    IdsDetermineRows(t.events);
    t.(events := Where(t.events, (e: Event) => !Removed(t, e, now, policy, capMs)),
       archive := InsertOrIgnore(t.archive, set e | e in t.events && Copied(t, e, now, policy, capMs, archiveMode)))
  }

  lemma IdsDetermineRows(rows: seq<Event>)
    requires Ascending(rows)
    ensures forall a, b | a in rows && b in rows && a.id == b.id :: a == b
  {
    forall a, b | a in rows && b in rows && a.id == b.id ensures a == b { AscendingUniqueIds(rows, a, b); }
  }

  function SweepFate(policy: Policy): OwedPair -> Fate {
    (p: OwedPair) => if policy == Retain && p.overCap then Fate(Archived, RetentionCap)
      else Fate(PolicyVerb(policy), UnackedPolicy)
  }

  /** One sweep pass, a single transaction. */
  method RunSweep(db: Database, now: int, policy: Policy, capMs: int, archiveMode: bool)
    returns (deleted: nat, report: Report)
    requires db.Snapshot().Valid()
    modifies db`events, db`archive
    ensures db.Snapshot() == Swept(old(db.Snapshot()), now, policy, capMs, archiveMode)
    ensures deleted == |old(db.events)| - |db.events|
    ensures Reconciles(report, OwedPairs(old(db.Snapshot()), now, capMs), SweepFate(policy), PolicyVerb(policy))
  {
    ghost var t := db.Snapshot();
    var pairs, owedIds, capped := FillTemporaryTables(db, now, policy, capMs);
    var copies := RowsToArchive(db.events, owedIds, capped, now, policy, archiveMode);
    var keep := RowsToKeep(db.events, owedIds, capped, now, policy);
    CopiesMean(t, owedIds, capped, now, policy, capMs, archiveMode, copies);
    KeepMeans(t, owedIds, capped, now, policy, capMs, keep);
    db.archive := InsertOrIgnore(db.archive, copies);
    deleted := |db.events| - |keep|;
    db.events := keep;
    report := BuildUnackedReport(pairs, SweepFate(policy), PolicyVerb(policy));
  }

  /** The owed pairs, and the temporary tables of owed and of capped event ids. */
  method FillTemporaryTables(db: Database, now: int, policy: Policy, capMs: int)
    returns (pairs: seq<OwedPair>, owedIds: set<nat>, capped: set<nat>)
    requires db.Snapshot().Valid()
    ensures Distinct(pairs) && SetOf(pairs) == OwedPairs(db.Snapshot(), now, capMs)
    ensures IdsMean(db.Snapshot(), owedIds, capped, now, policy, capMs)
  {
    ghost var t := db.Snapshot();
    var owed := CollectOwedExpired(db, now);
    pairs := OwedPairsWithCap(db, owed, now, capMs);
    owedIds := set p | p in owed :: p.1;
    OwedIdsMean(t, owed, now);
    capped := {};
    if policy == Retain {
      CappedIdsMean(t, pairs, now, capMs);
      capped := set p | p in pairs && p.overCap :: p.eventId;
    }
  }

  /** The rows of the `INSERT OR IGNORE INTO events_archive` statements. */
  method RowsToArchive(events: seq<Event>, owedIds: set<nat>, capped: set<nat>, now: int, policy: Policy,
                       archiveMode: bool)
    returns (copies: set<Event>)
    ensures copies == set e | e in events && ((archiveMode && e.expiresAt < now && e.id !in owedIds)
                                              || (policy == Archive && e.id in owedIds) || e.id in capped)
  {
    copies := {};
    if archiveMode {
      copies := copies + set e | e in events && e.expiresAt < now && e.id !in owedIds;
    }
    if policy == Archive {
      copies := copies + set e | e in events && e.id in owedIds;
    }
    copies := copies + set e | e in events && e.id in capped;
  }

  predicate Stays(e: Event, owedIds: set<nat>, capped: set<nat>, now: int, policy: Policy) {
    !(e.expiresAt < now && (policy == Retain ==> e.id !in owedIds || e.id in capped))
  }

  /** The rows the `DELETE FROM events` statement leaves. */
  method RowsToKeep(events: seq<Event>, owedIds: set<nat>, capped: set<nat>, now: int, policy: Policy)
    returns (keep: seq<Event>)
    ensures Ascending(events) ==> Ascending(keep)
    ensures forall e :: e in keep <==> e in events && Stays(e, owedIds, capped, now, policy)
    ensures |keep| <= |events|
  {
    if policy == Retain {
      keep := Where(events, (e: Event) => !(e.expiresAt < now && (e.id !in owedIds || e.id in capped)));
    } else {
      keep := Where(events, (e: Event) => !(e.expiresAt < now));
    }
  }

  /** The temporary tables hold the owed ids and the capped ids. */
  ghost predicate IdsMean(t: Tables, owedIds: set<nat>, capped: set<nat>, now: int, policy: Policy, capMs: int) {
    forall e | e in t.events ::
      && (e.id in owedIds <==> e.expiresAt < now && IsOwed(t, e))
      && (e.id in capped <==> policy == Retain && Capped(t, e, now, capMs))
  }

  lemma CopiesMean(t: Tables, owedIds: set<nat>, capped: set<nat>, now: int, policy: Policy, capMs: int,
                   archiveMode: bool, copies: set<Event>)
    requires t.Valid() && IdsMean(t, owedIds, capped, now, policy, capMs)
    requires copies == set e | e in t.events && ((archiveMode && e.expiresAt < now && e.id !in owedIds)
                                                 || (policy == Archive && e.id in owedIds) || e.id in capped)
    ensures copies == set e | e in t.events && Copied(t, e, now, policy, capMs, archiveMode)
    ensures forall a, b | a in copies && b in copies && a.id == b.id :: a == b
  {
    IdsDetermineRows(t.events);
    forall e | e in t.events ensures e in copies <==> Copied(t, e, now, policy, capMs, archiveMode) {}
  }

  lemma KeepMeans(t: Tables, owedIds: set<nat>, capped: set<nat>, now: int, policy: Policy, capMs: int,
                  keep: seq<Event>)
    requires t.Valid() && IdsMean(t, owedIds, capped, now, policy, capMs)
    requires Ascending(keep) && forall e :: e in keep <==> e in t.events && Stays(e, owedIds, capped, now, policy)
    ensures keep == Where(t.events, (e: Event) => !Removed(t, e, now, policy, capMs))
  {
    SameRows(keep, Where(t.events, (e: Event) => !Removed(t, e, now, policy, capMs)));
  }

  lemma OwedIdsMean(t: Tables, owed: set<(string, nat)>, now: int)
    requires t.Valid() && owed == Owed(t, now)
    ensures forall e | e in t.events ::
              e.id in (set p | p in owed :: p.1) <==> e.expiresAt < now && IsOwed(t, e)
  {
    forall e | e in t.events
      ensures e.id in (set p | p in owed :: p.1) <==> e.expiresAt < now && IsOwed(t, e)
    {
      if e.id in (set p | p in owed :: p.1) {
        var p :| p in owed && p.1 == e.id;
        var e' :| e' in t.events && e'.expiresAt < now && Owes(t, p.0, e') && p == (p.0, e'.id);
        AscendingUniqueIds(t.events, e, e');
      }
      if e.expiresAt < now && IsOwed(t, e) {
        var c :| c in t.cursors && Owes(t, c, e);
        assert (c, e.id) in owed;
      }
    }
  }

  lemma CappedIdsMean(t: Tables, pairs: seq<OwedPair>, now: int, capMs: int)
    requires t.Valid() && SetOf(pairs) == OwedPairs(t, now, capMs)
    ensures forall e | e in t.events ::
              e.id in (set p | p in pairs && p.overCap :: p.eventId) <==> Capped(t, e, now, capMs)
  {
    forall e | e in t.events
      ensures e.id in (set p | p in pairs && p.overCap :: p.eventId) <==> Capped(t, e, now, capMs)
    {
      if e.id in (set p | p in pairs && p.overCap :: p.eventId) {
        var p :| p in pairs && p.overCap && p.eventId == e.id;
        assert p in SetOf(pairs);
        var c, e' :| c in t.cursors && e' in t.events && e'.expiresAt < now && Owes(t, c, e')
                     && p == OwedPair(e'.id, c, OverCap(e', now, capMs));
        AscendingUniqueIds(t.events, e, e');
      }
      if Capped(t, e, now, capMs) {
        var c :| c in t.cursors && Owes(t, c, e);
        var p := OwedPair(e.id, c, OverCap(e, now, capMs));
        assert p in SetOf(pairs);
      }
    }
  }

  // ---------------------------------------------------------------- what a sweep guarantees

  /**
   Under 'retain', a sweep takes from an active cursor only rows that expired and are older than the
   cap, and each of those is in `events_archive` afterwards.
   */
  lemma RetainKeepsDeliverable(t: Tables, c: string, now: int, capMs: int, archiveMode: bool)
    requires t.Valid() && t.Active(c)
    ensures var after := Swept(t, now, Retain, capMs, archiveMode);
            && after.Deliverable(c) ==
                 Where(t.Deliverable(c), (e: Event) => !(Expired(e, now) && OverCap(e, now, capMs)))
            && (forall e | e in t.Deliverable(c) && e !in after.Deliverable(c) ::
                  Expired(e, now) && OverCap(e, now, capMs) && e.id in after.archive
                  && (e.id !in t.archive ==> after.archive[e.id] == e))
  {
    var after := Swept(t, now, Retain, capMs, archiveMode);
    forall e | e in t.Deliverable(c) ensures IsOwed(t, e) { assert Owes(t, c, e); }
    SameRows(after.Deliverable(c), Where(t.Deliverable(c), (e: Event) => !(Expired(e, now) && OverCap(e, now, capMs))));
    forall e | e in t.Deliverable(c) && e !in after.Deliverable(c)
      ensures e.id in after.archive && (e.id !in t.archive ==> after.archive[e.id] == e)
    {
      assert Copied(t, e, now, Retain, capMs, archiveMode);
      assert e in set x | x in t.events && Copied(t, x, now, Retain, capMs, archiveMode);
    }
  }

  /**
   No policy but 'discard' loses an owed row: it is still live, or it is in the archive, as this very row
   unless the archive already had one of its id.
   */
  lemma OwedNeverLost(t: Tables, e: Event, now: int, policy: Policy, capMs: int, archiveMode: bool)
    requires t.Valid() && e in t.events && IsOwed(t, e) && policy != Discard
    ensures var after := Swept(t, now, policy, capMs, archiveMode);
            e in after.events
            || (e.id in after.archive && (e.id !in t.archive ==> after.archive[e.id] == e)
                && (e.id in t.archive ==> after.archive[e.id] == t.archive[e.id]))
  {
    if Removed(t, e, now, policy, capMs) {
      assert e in set x | x in t.events && Copied(t, x, now, policy, capMs, archiveMode);
    }
  }

  /**
   Where every row is after a sweep, by the columns of the tables and its own timestamps: it stays live
   unless it expired, or it is awaited under 'retain' and not older than the cap; of what leaves, the archive
   gets the awaited rows unless the policy is 'discard', and the others in archive mode.
   */
  lemma RowsAfterSweep(t: Tables, e: Event, now: int, policy: Policy, capMs: int, archiveMode: bool)
    requires t.Valid() && e in t.events
    ensures var after := Swept(t, now, policy, capMs, archiveMode);
            && (e in after.events <==>
                  e.expiresAt >= now || (policy == Retain && Awaited(t, e) && e.emittedAt + capMs >= now))
            && (e.id !in t.archive ==>
                  (e.id in after.archive <==>
                     e !in after.events && if Awaited(t, e) then policy != Discard else archiveMode))
            && (e.id !in t.archive && e.id in after.archive ==> after.archive[e.id] == e)
            && (e.id in t.archive ==> e.id in after.archive && after.archive[e.id] == t.archive[e.id])
  {
    OwedIsAwaited(t, e);
    CopyEndsUp(t, e, now, policy, capMs, archiveMode);
  }

  lemma CopyEndsUp(t: Tables, e: Event, now: int, policy: Policy, capMs: int, archiveMode: bool)
    requires t.Valid() && e in t.events
    ensures var after := Swept(t, now, policy, capMs, archiveMode);
            && (e in after.events <==> !Removed(t, e, now, policy, capMs))
            && (e.id !in t.archive ==> (e.id in after.archive <==> Copied(t, e, now, policy, capMs, archiveMode)))
            && (e.id !in t.archive && e.id in after.archive ==> after.archive[e.id] == e)
            && (e.id in t.archive ==> e.id in after.archive && after.archive[e.id] == t.archive[e.id])
  {
    if e.id !in t.archive { WhereItEndsUp(t, e, now, policy, capMs, archiveMode); }
    if Copied(t, e, now, policy, capMs, archiveMode) {
      assert e in set x | x in t.events && Copied(t, x, now, policy, capMs, archiveMode);
    }
  }

  /** Under 'retain' an expired row that a cursor owes is kept until it is older than the cap, and then archived. */
  lemma RetainByTimestamps(t: Tables, c: string, e: Event, now: int, capMs: int, archiveMode: bool)
    requires t.Valid() && e in t.events && c in t.cursors && Owes(t, c, e) && e.expiresAt < now
    ensures var after := Swept(t, now, Retain, capMs, archiveMode);
            && (e.emittedAt + capMs >= now ==> e in after.events)
            && (e.emittedAt + capMs < now ==> e !in after.events && e.id in after.archive)
  {
    assert IsOwed(t, e);
    if Copied(t, e, now, Retain, capMs, archiveMode) {
      assert e in set x | x in t.events && Copied(t, x, now, Retain, capMs, archiveMode);
    }
  }

  /** The disposition and the reason the report gives an owed row, by the policy and its timestamps. */
  lemma FateByTimestamps(t: Tables, e: Event, c: string, now: int, policy: Policy, capMs: int)
    requires e in t.events && c in t.cursors && e.expiresAt < now && Owes(t, c, e)
    ensures var aged, p := e.emittedAt + capMs < now, OwedPair(e.id, c, e.emittedAt + capMs < now);
            && p in OwedPairs(t, now, capMs)
            && SweepFate(policy)(p) ==
               match policy
               case Retain => if aged then Fate(Archived, RetentionCap) else Fate(Retained, UnackedPolicy)
               case Archive => Fate(Archived, UnackedPolicy)
               case Discard => Fate(Discarded, UnackedPolicy)
  {
    FlagByTimestamps(t, OwedPair(e.id, c, e.emittedAt + capMs < now), now, capMs);
  }

  /** The disposition the report gives a pair is where its row ended up. */
  lemma DispositionIsTrue(t: Tables, p: OwedPair, now: int, policy: Policy, capMs: int, archiveMode: bool)
    requires t.Valid() && p in OwedPairs(t, now, capMs)
    requires p.eventId !in t.archive
    ensures var after := Swept(t, now, policy, capMs, archiveMode);
            match SweepFate(policy)(p).disposition
            case Retained => p.eventId in Ids(after.events) && p.eventId !in after.archive
            case Archived => p.eventId !in Ids(after.events) && p.eventId in after.archive
            case Discarded => p.eventId !in Ids(after.events) && p.eventId !in after.archive
  {
    var c, e :| c in t.cursors && e in t.events && e.expiresAt < now && Owes(t, c, e)
      && p == OwedPair(e.id, c, OverCap(e, now, capMs));
    assert IsOwed(t, e);
    WhereItEndsUp(t, e, now, policy, capMs, archiveMode);
  }

  /** A row is live afterwards unless it was removed, and archived if it was copied. */
  lemma WhereItEndsUp(t: Tables, e: Event, now: int, policy: Policy, capMs: int, archiveMode: bool)
    requires t.Valid() && e in t.events && e.id !in t.archive
    ensures var after := Swept(t, now, policy, capMs, archiveMode);
            && (e.id in Ids(after.events) <==> !Removed(t, e, now, policy, capMs))
            && (e.id in after.archive <==> Copied(t, e, now, policy, capMs, archiveMode))
  {
    var after := Swept(t, now, policy, capMs, archiveMode);
    var copies := set x | x in t.events && Copied(t, x, now, policy, capMs, archiveMode);
    IdsDetermineRows(t.events);
    assert e in copies <==> Copied(t, e, now, policy, capMs, archiveMode);
    assert e.id in after.archive <==> e in copies;
    assert e.id in Ids(after.events) <==> e in after.events;
  }

  /** The fate of a pair is the fate of its event, so the report's counts partition the owed events. */
  lemma SweepReportPartitions(t: Tables, now: int, policy: Policy, capMs: int, report: Report)
    requires t.Valid()
    requires Reconciles(report, OwedPairs(t, now, capMs), SweepFate(policy), PolicyVerb(policy))
    ensures CountOf(report, Retained) + CountOf(report, Archived) + CountOf(report, Discarded)
         == |IdsIn(OwedPairs(t, now, capMs))|
    ensures Total(report.lines, report.lines.Keys) == |OwedPairs(t, now, capMs)|
  {
    IdsDetermineRows(t.events);
    CountsPartitionEvents(report, OwedPairs(t, now, capMs), SweepFate(policy), PolicyVerb(policy));
    LineCountsSumToPairs(report, OwedPairs(t, now, capMs), SweepFate(policy), PolicyVerb(policy));
  }

  // ---------------------------------------------------------------- the dry run

  /** `cleanup --dry-run` on the in-database tier: the count and the report, with nothing written. */
  method DryRun(db: Database, now: int, policy: Policy, capMs: int) returns (deleted: int, report: Report)
    requires db.Snapshot().Valid()
    ensures deleted == |Where(db.events, (e: Event) => Expired(e, now))|
                     - (if policy == Retain
                        then |set e | e in db.events && IsHeld(db.Snapshot(), e, now, capMs) :: e.id|
                        else 0)
    ensures Reconciles(report, OwedPairs(db.Snapshot(), now, capMs), DryFate(policy), DryVerb(policy))
  {
    var t := db.Snapshot();
    var owed := CollectOwedExpired(db, now);
    var pairs := OwedPairsWithCap(db, owed, now, capMs);
    var held: set<nat> := {};
    if policy == Retain {
      held := set p | p in pairs && !p.overCap :: p.eventId;
      HeldIdsMean(t, pairs, now, capMs);
    }
    var expired := |Where(db.events, (e: Event) => Expired(e, now))|;
    report := BuildUnackedReport(pairs, DryFate(policy), DryVerb(policy));
    deleted := expired - |held|;
  }

  function DryVerb(policy: Policy): Disposition {
    match policy
    case Retain => Retained
    case Archive => Archived
    case Discard => Discarded
  }

  function DryFate(policy: Policy): OwedPair -> Fate {
    (p: OwedPair) => if !(policy == Retain && p.overCap) then Fate(DryVerb(policy), UnackedPolicy)
      else Fate(Archived, RetentionCap)
  }

  lemma HeldIdsMean(t: Tables, pairs: seq<OwedPair>, now: int, capMs: int)
    requires t.Valid() && SetOf(pairs) == OwedPairs(t, now, capMs)
    ensures (set p | p in pairs && !p.overCap :: p.eventId)
        == (set e | e in t.events && IsHeld(t, e, now, capMs) :: e.id)
  {
    var a, b := (set p | p in pairs && !p.overCap :: p.eventId),
      (set e | e in t.events && IsHeld(t, e, now, capMs) :: e.id);
    forall id | id in a ensures id in b {
      var p :| p in pairs && !p.overCap && p.eventId == id;
      assert p in SetOf(pairs);
      var c, e :| c in t.cursors && e in t.events && e.expiresAt < now && Owes(t, c, e)
        && p == OwedPair(e.id, c, OverCap(e, now, capMs));
      assert IsHeld(t, e, now, capMs);
    }
    forall id | id in b ensures id in a {
      var e :| e in t.events && IsHeld(t, e, now, capMs) && e.id == id;
      var c :| c in t.cursors && Owes(t, c, e);
      assert OwedPair(e.id, c, false) in SetOf(pairs);
    }
  }

  /** Previewing and sweeping at the same instant give the same count and the same report. */
  method DryRunPredictsSweep(db: Database, now: int, policy: Policy, capMs: int, archiveMode: bool)
    returns (predicted: int, preview: Report, deleted: nat, report: Report)
    requires db.Snapshot().Valid()
    modifies db`events, db`archive
    ensures predicted == deleted && preview == report
  {
    ghost var t := db.Snapshot();
    predicted, preview := DryRun(db, now, policy, capMs);
    deleted, report := RunSweep(db, now, policy, capMs, archiveMode);
    SameFatesSameReport(preview, report, OwedPairs(t, now, capMs), DryFate(policy), SweepFate(policy),
      PolicyVerb(policy));
    DryCountIsDeleted(t, now, policy, capMs, archiveMode);
  }

  lemma DryCountIsDeleted(t: Tables, now: int, policy: Policy, capMs: int, archiveMode: bool)
    requires t.Valid()
    ensures |Where(t.events, (e: Event) => Expired(e, now))|
            - (if policy == Retain then |set e | e in t.events && IsHeld(t, e, now, capMs) :: e.id| else 0)
         == |t.events| - |Swept(t, now, policy, capMs, archiveMode).events|
  {
    var expired := Where(t.events, (e: Event) => Expired(e, now));
    var after := Swept(t, now, policy, capMs, archiveMode).events;
    var held := if policy == Retain then set e | e in t.events && IsHeld(t, e, now, capMs) :: e.id else {};
    IdsCount(expired);
    IdsCount(after);
    IdsCount(t.events);
    IdsSplit(t, now, policy, capMs, expired, after, held);
    assert |Ids(after) + (Ids(expired) - held)| == |Ids(after)| + |Ids(expired) - held|;
  }

  lemma IdsSplit(t: Tables, now: int, policy: Policy, capMs: int, expired: seq<Event>, after: seq<Event>,
                 held: set<nat>)
    requires t.Valid()
    requires forall e :: e in expired <==> e in t.events && Expired(e, now)
    requires forall e :: e in after <==> e in t.events && !Removed(t, e, now, policy, capMs)
    requires held == if policy == Retain then set e | e in t.events && IsHeld(t, e, now, capMs) :: e.id else {}
    ensures held <= Ids(expired)
    ensures Ids(t.events) == Ids(after) + (Ids(expired) - held)
    ensures Ids(after) !! (Ids(expired) - held)
  {
    IdsDetermineRows(t.events);
    forall e | e in t.events ensures e.id in held <==> policy == Retain && IsHeld(t, e, now, capMs) {}
    forall e | e in t.events
      ensures e.id in Ids(after) <==> !Removed(t, e, now, policy, capMs)
      ensures e.id in Ids(expired) - held <==> Removed(t, e, now, policy, capMs)
    {}
  }
}
