/**
 `cleanup --dry-run` on the tiered sweep (commands/cmd-cleanup.js), and exactly when it predicts the
 pass it previews.
 */
module TieredCleanup {
  import opened Events
  import opened Wrappers
  import opened Database
  import opened Retention
  import opened Archive
  import opened SweepV2
  import opened Sweep
  import opened Tiers
  import Batches

  /** The dry run calls everything archived unless the policy is 'retain'. */
  function DryTierVerb(policy: Policy): Disposition {
    if policy == Retain then Retained else Archived
  }

  function DryTierFate(policy: Policy, moved: set<nat>): OwedPair -> Fate {
    (p: OwedPair) =>
      if !(policy == Retain && p.overCap) then Fate(DryTierVerb(policy), UnackedPolicy)
      else if p.eventId !in moved then Fate(Retained, RetentionCapPending)
      else Fate(Archived, RetentionCap)
  }

  /** The rows a pass would pick from the tables as they are. */
  ghost function Batch(t: Tables, now: int, policy: Policy, capMs: int, batch: nat): (rows: seq<Event>) {
    Batches.Candidates(t.events, now, StillHeld(t, now, policy, capMs), batch)
  }

  /** What the dry run prints. */
  ghost predicate Previewed(t: Tables, now: int, policy: Policy, capMs: int, batch: nat, moved: nat, report: Report) {
    var rows := Batch(t, now, policy, capMs, batch);
    && moved == |rows|
    && Reconciles(report, OwedPairs(t, now, capMs), DryTierFate(policy, Ids(rows)), PolicyVerb(policy))
  }

  method DryRunTiered(db: Database, now: int, policy: Policy, capMs: int, batch: nat)
    returns (eventsMoved: nat, report: Report)
    requires db.Snapshot().Valid()
    ensures Previewed(db.Snapshot(), now, policy, capMs, batch, eventsMoved, report)
  {
    var t := db.Snapshot();
    var owed := CollectOwedExpired(db, now);
    var pairs := OwedPairsWithCap(db, owed, now, capMs);
    var held: set<nat> := {};
    if policy == Retain {
      held := set p | p in pairs && !p.overCap :: p.eventId;
      HeldIdsMean(t, pairs, now, capMs);
    }
    var rows := Batches.Candidates(db.events, now, held, batch);
    RowsAscending(db.events, now, held, batch);
    IdsCount(rows);
    eventsMoved := |Ids(rows)|;
    report := BuildUnackedReport(pairs, DryTierFate(policy, Ids(rows)), PolicyVerb(policy));
  }

  /** Nothing happens meanwhile. */
  function Quiet(t: Tables): (m: Meanwhile) {
    Meanwhile(map[], [], t.subscriptions, t.cursors, t.attempts)
  }

  lemma NothingRenamed(rows: seq<Event>)
    ensures WithKeys(rows, map[]) + [] == rows
  {
  }

  /** What a pass with nothing in between returns. */
  ghost predicate RanQuietly(t: Tables, s: Store, now: int, policy: Policy, capMs: int, batch: nat, env: Env,
                             r: Outcome)
    requires StoreOk(s)
  {
    var d := Dropped(s, t, now, policy);
    var late := After(t.(events := d.live), Quiet(t));
    var rows := Picked(d, t, now, policy, capMs, batch);
    r.Done? && Accounts(r, OwedPairs(t, now, capMs), late, Store(late.events, d.buckets), rows, now, policy, capMs, env)
  }

  /** The tables the preview is right about. */
  ghost predicate Foreseen(t: Tables, now: int, policy: Policy, capMs: int, batch: nat) {
    match policy
    case Retain => true
    case Archive => forall p | p in OwedPairs(t, now, capMs) :: p.eventId in Ids(Batch(t, now, policy, capMs, batch))
    case Discard => OwedPairs(t, now, capMs) == {}
  }

  /**
   A pass run at the same instant, with no bucket locked and nothing in between, does what the dry run
   said exactly when the policy is 'retain', or it is 'archive' and every owed row fits the batch, or it
   is 'discard' and nothing is owed.
   */
  lemma TieredDryRunExact(t: Tables, s: Store, now: int, policy: Policy, capMs: int, batch: nat, env: Env,
                          predicted: nat, preview: Report, r: Outcome)
    requires t.Valid() && StoreOk(s) && s.live == t.events && env.locked == {}
    requires Previewed(t, now, policy, capMs, batch, predicted, preview)
    requires RanQuietly(t, s, now, policy, capMs, batch, env, r)
    ensures predicted == r.eventsMoved && preview == r.report <==> Foreseen(t, now, policy, capMs, batch)
  {
    match policy
    case Retain => RetainPredicted(t, s, now, capMs, batch, env, predicted, preview, r);
    case Archive => ArchivePredicted(t, s, now, capMs, batch, env, predicted, preview, r);
    case Discard => DiscardPredicted(t, s, now, capMs, batch, env, predicted, preview, r);
  }

  /** With nothing in between, the tables at the delete are those of the first look. */
  lemma QuietAccounts(t: Tables, s: Store, now: int, policy: Policy, capMs: int, batch: nat, env: Env, r: Outcome)
    requires StoreOk(s) && RanQuietly(t, s, now, policy, capMs, batch, env, r)
    ensures var d := Dropped(s, t, now, policy);
            Accounts(r, OwedPairs(t, now, capMs), t.(events := d.live), d, Picked(d, t, now, policy, capMs, batch),
                     now, policy, capMs, env)
  {
    var d := Dropped(s, t, now, policy);
    NothingRenamed(d.live);
    assert After(t.(events := d.live), Quiet(t)) == t.(events := d.live);
    assert Store(d.live, d.buckets) == d;
  }

  /** Preview, then sweep at the same instant. */
  method DryRunThenSweep(tiers: Tiers, now: int, policy: Policy, capMs: int, batch: nat, env: Env)
    returns (predicted: nat, preview: Report, r: Outcome)
    requires Sound(tiers.Disk()) && tiers.db.Snapshot().Valid() && env.locked == {}
    modifies tiers, tiers.db
    ensures Previewed(old(tiers.db.Snapshot()), now, policy, capMs, batch, predicted, preview)
    ensures r.Done? ==> RanQuietly(old(tiers.db.Snapshot()), old(tiers.Disk()), now, policy, capMs, batch, env, r)
    ensures r.Done? ==>
              (predicted == r.eventsMoved && preview == r.report
               <==> Foreseen(old(tiers.db.Snapshot()), now, policy, capMs, batch))
    ensures var s, t := old(tiers.Disk()), old(tiers.db.Snapshot());
            r.Done? <==> forall e | e in Picked(Dropped(s, t, now, policy), t, now, policy, capMs, batch) ::
                           MonthOpen(s, Month(env, e), env)
  {
    ghost var t, s := tiers.db.Snapshot(), tiers.Disk();
    predicted, preview := DryRunTiered(tiers.db, now, policy, capMs, batch);
    NothingRenamed(t.events);
    var m := Meanwhile(map[], [], tiers.db.subscriptions, tiers.db.cursors, tiers.db.attempts);
    ghost var base := tiers.log;
    r := tiers.RunSweepV2(now, policy, capMs, batch, env, m);
    PassGetsThrough(s, t, tiers.Disk(), base, tiers.log, now, policy, capMs, batch, env, m, r);
    if r.Done? { TieredDryRunExact(t, s, now, policy, capMs, batch, env, predicted, preview, r); }
  }

  // ---------------------------------------------------------------- where the preview goes wrong

  /** One subscriber that wants everything and has read nothing. */
  function OneReader(events: seq<Event>): (t: Tables) {
    Tables(events, map[], map["s" := Subscription("p", "*", true)], map["c" := Cursor("s", 0, true)], map[])
  }

  lemma ReaderOwes(events: seq<Event>, e: Event, now: int, capMs: int)
    requires e in events && e.id > 0 && e.expiresAt < now
    ensures OwedPair(e.id, "c", OverCap(e, now, capMs)) in OwedPairs(OneReader(events), now, capMs)
  {
    var t := OneReader(events);
    assert Filters.SplitFilter("*") == ("*", None) by { assert Filters.IndexOf("*", '@') == 1; }
    assert Owes(t, "c", e);
  }

  /** Two owed rows and a batch of one: under 'archive' the preview names a row the pass does not move. */
  lemma ArchivePreviewIsWrong(a: Event, b: Event, s: Store, now: int, capMs: int, env: Env,
                              predicted: nat, preview: Report, r: Outcome)
    requires a.id == 1 && b.id == 2 && a.expiresAt < now && b.expiresAt < now
    requires StoreOk(s) && s.live == [a, b] && env.locked == {}
    requires Previewed(OneReader([a, b]), now, Policy.Archive, capMs, 1, predicted, preview)
    requires RanQuietly(OneReader([a, b]), s, now, Policy.Archive, capMs, 1, env, r)
    ensures preview != r.report
  {
    ReaderOwes([a, b], b, now, capMs);
    BatchOfOne(a, b, now, capMs);
    ArchivePredicted(OneReader([a, b]), s, now, capMs, 1, env, predicted, preview, r);
  }

  /** A bus with these events, one subscriber that has read nothing, and an empty warm tier. */
  method OneReaderBus(events: seq<Event>) returns (tiers: Tiers)
    requires OneReader(events).Valid()
    ensures fresh(tiers) && fresh(tiers.db) && tiers.db.Snapshot() == OneReader(events) && tiers.buckets == map[]
  {
    var db := new Database();
    db.events := events;
    db.subscriptions := map["s" := Subscription("p", "*", true)];
    db.cursors := map["c" := Cursor("s", 0, true)];
    tiers := new Tiers(db);
  }

  /** Such a preview and such a pass: both calls made, on an empty warm tier. */
  method ArchivePreviewRun(a: Event, b: Event, now: int, capMs: int, monthOf: int -> int)
    returns (predicted: nat, preview: Report, r: Outcome)
    requires a.id == 1 && b.id == 2 && a.expiresAt < now && b.expiresAt < now
    ensures r.Done? && preview != r.report
  {
    var tiers := OneReaderBus([a, b]);
    var env := Env(monthOf, {}, {});
    ghost var s := tiers.Disk();
    predicted, preview, r := DryRunThenSweep(tiers, now, Policy.Archive, capMs, 1, env);
    ArchivePreviewIsWrong(a, b, s, now, capMs, env, predicted, preview, r);
  }

  lemma BatchOfOne(a: Event, b: Event, now: int, capMs: int)
    requires a.id == 1 && b.id == 2 && a.expiresAt < now && b.expiresAt < now
    ensures Batch(OneReader([a, b]), now, Policy.Archive, capMs, 1) == [a]
  {
    Batches.BatchIsOldestEligible([a, b], now, {}, 1);
    SameRows(Batches.Eligible([a, b], now, {}), [a, b]);
  }

  /** One owed row: under 'discard' the preview says archived, and counts a row that the pass drops instead. */
  lemma DiscardPreviewIsWrong(a: Event, s: Store, now: int, capMs: int, batch: nat, env: Env,
                              predicted: nat, preview: Report, r: Outcome)
    requires a.id == 1 && a.expiresAt < now && batch > 0
    requires StoreOk(s) && s.live == [a] && env.locked == {}
    requires Previewed(OneReader([a]), now, Policy.Discard, capMs, batch, predicted, preview)
    requires RanQuietly(OneReader([a]), s, now, Policy.Discard, capMs, batch, env, r)
    ensures predicted == 1 && r.eventsMoved == 0 && preview != r.report
  {
    ReaderOwes([a], a, now, capMs);
    DiscardPredicted(OneReader([a]), s, now, capMs, batch, env, predicted, preview, r);
    DroppedNotMoved(a, s, now, capMs, batch, env, r);
    OneExpired(a, now, capMs, batch);
  }

  method DiscardPreviewRun(a: Event, now: int, capMs: int, batch: nat, monthOf: int -> int)
    returns (predicted: nat, preview: Report, r: Outcome)
    requires a.id == 1 && a.expiresAt < now && batch > 0
    ensures r.Done? && predicted == 1 && r.eventsMoved == 0 && preview != r.report
  {
    var tiers := OneReaderBus([a]);
    var env := Env(monthOf, {}, {});
    ghost var s := tiers.Disk();
    predicted, preview, r := DryRunThenSweep(tiers, now, Policy.Discard, capMs, batch, env);
    DiscardPreviewIsWrong(a, s, now, capMs, batch, env, predicted, preview, r);
  }

  lemma DroppedNotMoved(a: Event, s: Store, now: int, capMs: int, batch: nat, env: Env, r: Outcome)
    requires a.id == 1 && a.expiresAt < now && StoreOk(s) && s.live == [a]
    requires RanQuietly(OneReader([a]), s, now, Policy.Discard, capMs, batch, env, r)
    ensures r.eventsMoved == 0
  {
    var t := OneReader([a]);
    QuietAccounts(t, s, now, Policy.Discard, capMs, batch, env, r);
    AllDropped(a, s, now);
    NoneMoved(Dropped(s, t, now, Policy.Discard), t, now, capMs, batch, env, r);
  }

  lemma OneExpired(a: Event, now: int, capMs: int, batch: nat)
    requires a.expiresAt < now && batch > 0
    ensures Batch(OneReader([a]), now, Policy.Discard, capMs, batch) == [a]
  {
    Batches.BatchIsOldestEligible([a], now, {}, batch);
    SameRows(Batches.Eligible([a], now, {}), [a]);
  }

  lemma NoneMoved(d: Store, t: Tables, now: int, capMs: int, batch: nat, env: Env, r: Outcome)
    requires d.live == [] && r.Done?
    requires Accounts(r, OwedPairs(t, now, capMs), t.(events := d.live), d,
                      Picked(d, t, now, Policy.Discard, capMs, batch), now, Policy.Discard, capMs, env)
    ensures r.eventsMoved == 0
  {
    var rows := Picked(d, t, now, Policy.Discard, capMs, batch);
    RowsAscending(d.live, now, {}, batch);
    assert MovedIds(d, rows, env) == {};
  }

  lemma AllDropped(a: Event, s: Store, now: int)
    requires a.id == 1 && a.expiresAt < now && StoreOk(s) && s.live == [a]
    ensures Dropped(s, OneReader([a]), now, Policy.Discard).live == []
  {
    ReaderOwes([a], a, now, 0);
    assert OwedIds(OneReader([a]), now) == {1};
    assert Where([a], (e: Event) => e.id !in {1}) == [];
  }

  lemma NothingLocked(s: Store, rows: seq<Event>, env: Env)
    requires env.locked == {} && Ascending(rows)
    ensures MovedIds(s, rows, env) == Ids(rows) && |MovedIds(s, rows, env)| == |rows|
  {
    IdsCount(rows);
  }

  lemma NothingNew(t: Tables, moved: set<nat>, now: int, capMs: int)
    ensures var pairs := OwedPairs(t, now, capMs);
            pairs + NewlyCapped(t, pairs, moved, now, Retain, capMs) == pairs
  {
  }

  lemma RetainPredicted(t: Tables, s: Store, now: int, capMs: int, batch: nat, env: Env,
                        predicted: nat, preview: Report, r: Outcome)
    requires t.Valid() && StoreOk(s) && s.live == t.events && env.locked == {}
    requires Previewed(t, now, Retain, capMs, batch, predicted, preview)
    requires RanQuietly(t, s, now, Retain, capMs, batch, env, r)
    ensures predicted == r.eventsMoved && preview == r.report
  {
    var rows, pairs := Batch(t, now, Retain, capMs, batch), OwedPairs(t, now, capMs);
    QuietAccounts(t, s, now, Retain, capMs, batch, env, r);
    RowsAscending(t.events, now, HeldIds(t, now, capMs), batch);
    NothingLocked(s, rows, env);
    NothingNew(t, Ids(rows), now, capMs);
    SameFatesSameReport(preview, r.report, pairs, DryTierFate(Retain, Ids(rows)), TierFate(Retain, Ids(rows)),
      Retained);
  }

  lemma ArchivePredicted(t: Tables, s: Store, now: int, capMs: int, batch: nat, env: Env,
                         predicted: nat, preview: Report, r: Outcome)
    requires t.Valid() && StoreOk(s) && s.live == t.events && env.locked == {}
    requires Previewed(t, now, Policy.Archive, capMs, batch, predicted, preview)
    requires RanQuietly(t, s, now, Policy.Archive, capMs, batch, env, r)
    ensures predicted == r.eventsMoved
    ensures preview == r.report <==> Foreseen(t, now, Policy.Archive, capMs, batch)
  {
    var rows, pairs := Batch(t, now, Policy.Archive, capMs, batch), OwedPairs(t, now, capMs);
    QuietAccounts(t, s, now, Policy.Archive, capMs, batch, env, r);
    RowsAscending(t.events, now, {}, batch);
    NothingLocked(s, rows, env);
    ArchiveReports(t, s, now, capMs, rows, env, preview, r);
  }

  lemma ArchiveReports(t: Tables, s: Store, now: int, capMs: int, rows: seq<Event>, env: Env, preview: Report,
                       r: Outcome)
    requires r.Done? && MovedIds(s, rows, env) == Ids(rows)
    requires Reconciles(preview, OwedPairs(t, now, capMs), DryTierFate(Policy.Archive, Ids(rows)), Archived)
    requires Accounts(r, OwedPairs(t, now, capMs), t, s, rows, now, Policy.Archive, capMs, env)
    ensures preview == r.report <==> forall p | p in OwedPairs(t, now, capMs) :: p.eventId in Ids(rows)
  {
    var pairs := OwedPairs(t, now, capMs);
    assert pairs + {} == pairs;
    ArchiveReportsAgree(preview, r.report, pairs, Ids(rows));
  }

  /** Under 'archive' the dry run names every owed pair, the pass only those it moved. */
  lemma ArchiveReportsAgree(preview: Report, report: Report, pairs: set<OwedPair>, moved: set<nat>)
    requires Reconciles(preview, pairs, DryTierFate(Policy.Archive, moved), Archived)
    requires Reconciles(report, PairsOf(pairs, moved), TierFate(Policy.Archive, moved), Archived)
    ensures preview == report <==> forall p | p in pairs :: p.eventId in moved
  {
    var f, g := DryTierFate(Policy.Archive, moved), TierFate(Policy.Archive, moved);
    if forall p | p in pairs :: p.eventId in moved {
      assert PairsOf(pairs, moved) == pairs;
      SameFatesSameReport(preview, report, pairs, f, g, Archived);
    } else {
      var p :| p in pairs && p.eventId !in moved;
      LeftOutPairShows(preview, report, pairs, PairsOf(pairs, moved), f, g, Archived, p);
    }
  }

  lemma DiscardPredicted(t: Tables, s: Store, now: int, capMs: int, batch: nat, env: Env,
                         predicted: nat, preview: Report, r: Outcome)
    requires t.Valid() && StoreOk(s) && s.live == t.events && env.locked == {}
    requires Previewed(t, now, Policy.Discard, capMs, batch, predicted, preview)
    requires RanQuietly(t, s, now, Policy.Discard, capMs, batch, env, r)
    ensures predicted == r.eventsMoved && preview == r.report <==> Foreseen(t, now, Policy.Discard, capMs, batch)
    ensures OwedPairs(t, now, capMs) != {} ==> preview != r.report
  {
    var pairs, rows := OwedPairs(t, now, capMs), Batch(t, now, Policy.Discard, capMs, batch);
    QuietAccounts(t, s, now, Policy.Discard, capMs, batch, env, r);
    if pairs == {} {
      NothingOwed(t, now, capMs);
      assert OwedIds(t, now) == {};
      assert Dropped(s, t, now, Policy.Discard) == s;
      RowsAscending(t.events, now, {}, batch);
      NothingLocked(s, rows, env);
    }
    DiscardReports(t, s, now, capMs, rows, env, batch, preview, r);
  }

  /** Under 'discard' the dry run says archived of every owed pair, the pass says discarded. */
  lemma DiscardReports(t: Tables, s: Store, now: int, capMs: int, rows: seq<Event>, env: Env, batch: nat,
                       preview: Report, r: Outcome)
    requires StoreOk(s) && r.Done?
    requires Reconciles(preview, OwedPairs(t, now, capMs), DryTierFate(Policy.Discard, Ids(rows)),
        Disposition.Discarded)
    requires var d := Dropped(s, t, now, Policy.Discard);
             Accounts(r, OwedPairs(t, now, capMs), t.(events := d.live), d,
                      Picked(d, t, now, Policy.Discard, capMs, batch), now, Policy.Discard, capMs, env)
    ensures preview == r.report <==> OwedPairs(t, now, capMs) == {}
  {
    var d, pairs := Dropped(s, t, now, Policy.Discard), OwedPairs(t, now, capMs);
    var moved := MovedIds(d, Picked(d, t, now, Policy.Discard, capMs, batch), env);
    var f, g := DryTierFate(Policy.Discard, Ids(rows)), TierFate(Policy.Discard, moved);
    assert pairs + {} == pairs;
    if pairs == {} {
      SameFatesSameReport(preview, r.report, pairs, f, g, Disposition.Discarded);
    } else {
      var p :| p in pairs;
      var k := LineKey(p.cursorId, Fate(Archived, UnackedPolicy));
      assert p in Group(pairs, f, k);
      assert Group(pairs, g, k) == {};
      DifferentFatesDifferentReports(preview, r.report, pairs, pairs, f, g,
                                     Disposition.Discarded, Disposition.Discarded, k);
    }
  }

  lemma NothingOwed(t: Tables, now: int, capMs: int)
    requires OwedPairs(t, now, capMs) == {}
    ensures forall e | e in t.events && e.expiresAt < now :: !IsOwed(t, e)
  {
    forall e | e in t.events && e.expiresAt < now ensures !IsOwed(t, e) { OwedHasPair(t, e, now, capMs); }
  }

  lemma OwedHasPair(t: Tables, e: Event, now: int, capMs: int)
    requires e in t.events && e.expiresAt < now
    ensures IsOwed(t, e) ==> OwedPairs(t, now, capMs) != {}
  {
    if IsOwed(t, e) {
      var c :| c in t.cursors && Owes(t, c, e);
      assert OwedPair(e.id, c, OverCap(e, now, capMs)) in OwedPairs(t, now, capMs);
    }
  }

  /** A report that leaves a pair out counts one fewer on its line. */
  lemma LeftOutPairShows(a: Report, b: Report, pairs: set<OwedPair>, fewer: set<OwedPair>,
                         f: OwedPair -> Fate, g: OwedPair -> Fate, verb: Disposition, p: OwedPair)
    requires Reconciles(a, pairs, f, verb) && Reconciles(b, fewer, g, verb)
    requires fewer <= pairs && p in pairs && p !in fewer && forall q | q in pairs :: f(q) == g(q)
    ensures a != b
  {
    var k := LineKey(p.cursorId, f(p));
    var mine, theirs := Group(pairs, f, k), Group(fewer, g, k);
    assert p in mine && p !in theirs;
    assert mine == theirs + (mine - theirs) && p in mine - theirs;
    assert LineIs(a.lines[k], mine);
    assert k in b.lines ==> LineIs(b.lines[k], theirs);
  }
}
