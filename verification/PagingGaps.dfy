/**
 The run in which a poll skips an event: a pass crashed between the two tables of a new bucket, and the next
 one put a row into it.
 */
module PagingGaps {
  import opened Wrappers
  import opened Events
  import opened Archive
  import opened SweepV2
  import opened PagingRuns
  import opened Resolution
  import TierRuns
  import Query
  import Batches

  // ---------------------------------------------------------------- running step by step

  lemma RunOneMore(acts: seq<Act>, a: Act, w: World)
    requires Run(acts, w) && Enabled(End(acts, w), a, w)
    ensures Run(acts + [a], w) && End(acts + [a], w) == Step(End(acts, w), a, w)
  {
    StartIsSound(w);
    assert (acts + [a])[..|acts|] == acts;
  }

  /** `p` after the first `k` commits of its pass. */
  ghost function Committed(p: Pager, k: nat): (r: Pager)
    requires StoreOk(p.tier.s) && k <= |p.tier.pending|
  {
    p.(tier := p.tier.(s := ApplyAll(p.tier.s, p.tier.pending[..k]), pending := p.tier.pending[k..]))
  }

  function Commits(k: nat): (acts: seq<Act>) {
    seq(k, _ => Commit)
  }

  lemma {:induction false} RunCommits(acts: seq<Act>, k: nat, w: World)
    requires Run(acts, w) && k <= |End(acts, w).tier.pending|
    ensures Run(acts + Commits(k), w) && End(acts + Commits(k), w) == Committed(End(acts, w), k)
    decreases k
  {
    var p := End(acts, w);
    if k == 0 {
      assert acts + Commits(0) == acts;
      assert p.tier.pending[..0] == [] && p.tier.pending[0..] == p.tier.pending;
    } else {
      RunCommits(acts, k - 1, w);
      assert acts + Commits(k - 1) + [Commit] == acts + Commits(k);
      CommitRuns(acts + Commits(k - 1), p, k, w);
    }
  }

  lemma CommitRuns(acts: seq<Act>, p: Pager, k: nat, w: World)
    requires Run(acts, w) && StoreOk(p.tier.s) && 0 < k <= |p.tier.pending| && End(acts, w) == Committed(p, k - 1)
    ensures Run(acts + [Commit], w) && End(acts + [Commit], w) == Committed(p, k)
  {
    OneCommitMore(p, k);
    RunOneMore(acts, Commit, w);
  }

  lemma OneCommitMore(p: Pager, k: nat)
    requires StoreOk(p.tier.s) && 0 < k <= |p.tier.pending|
    ensures var b := Committed(p, k - 1);
            && b.tier.pending != []
            && b.(tier := TierRuns.Step(b.tier, TierRuns.Next)) == Committed(p, k)
  {
    var cs := p.tier.pending;
    assert cs[..k][..k - 1] == cs[..k - 1] && cs[k - 1..][0] == cs[k - 1] && cs[k - 1..][1..] == cs[k..];
  }

  // ---------------------------------------------------------------- two events of two months

  /** Two expired events of two months. */
  ghost predicate TwoMonths(a: Event, b: Event, now: int, w: World) {
    && WorldOk(w) && OnTime(a, 1, w) && OnTime(b, 2, w) && a.expiresAt < now && b.expiresAt < now
    && w.month(a.emittedAt) < w.month(b.emittedAt)
  }

  /** The first bucket of the month of an event. */
  function BucketOf(e: Event, w: World): (n: Name) {
    Name(w.month(e.emittedAt), 0)
  }

  lemma MonthsAreTwo(a: Event, b: Event, now: int, w: World)
    requires TwoMonths(a, b, now, w)
    ensures var env := PassEnv(w, {});
            && Months([a, b], env) == [Month(env, a), Month(env, b)]
            && OfMonth([a, b], Month(env, a), env) == [a] && OfMonth([a, b], Month(env, b), env) == [b]
  {
    var env := PassEnv(w, {});
    assert [a, b][..1] == [a] && [a][..0] == [];
    assert Months([a], env) == [Month(env, a)];
    SameRows(OfMonth([a, b], Month(env, a), env), [a]);
    SameRows(OfMonth([a, b], Month(env, b), env), [b]);
  }

  /** With no bucket of a month yet, or an unsealed one that is not full, its rows go to the first bucket. */
  lemma FirstBucket(s: Store, m: int, w: World)
    requires forall n | n in s.buckets && n.month == m :: n == Name(m, 0) && !s.buckets[n].sealed
    ensures Choose(s.buckets, m, PassEnv(w, {})) == Use(Name(m, 0))
  {
    var used := Suffixes(s.buckets, m);
    if used != {} {
      var x := MaxOf(used);
      var n :| n in s.buckets && n.month == m && n.suffix == x;
    }
  }

  /** The plan for the two events when each goes to the first bucket of its month. */
  lemma PlanIsTwo(s: Store, a: Event, b: Event, now: int, w: World)
    requires TwoMonths(a, b, now, w)
    requires forall n | n in s.buckets :: n in {BucketOf(a, w), BucketOf(b, w)} && !s.buckets[n].sealed
    requires BucketOf(a, w) in s.buckets ==> s.buckets[BucketOf(a, w)].schema.Complete?
    ensures var na, nb := BucketOf(a, w), BucketOf(b, w);
            var stuck := nb in s.buckets && !s.buckets[nb].schema.Complete?;
            Plan(s, [a, b], PassEnv(w, {}), {})
              == GroupWrites(s.buckets, na, [a]) + GroupWrites(s.buckets, nb, [b])
                 + if stuck then [] else [DeleteLive({1, 2})]
  {
    var env, ma, mb := PassEnv(w, {}), w.month(a.emittedAt), w.month(b.emittedAt);
    MonthsAreTwo(a, b, now, w);
    FirstBucket(s, ma, w);
    FirstBucket(s, mb, w);
    NoSeals(s, ma, mb, env);
    StuckIs(s, ma, mb, env);
    TwoGroups(s, a, b, ma, mb, env);
    assert MovedIds(s, [a, b], env) == {1, 2} by { assert a in [a, b] && b in [a, b]; }
    assert {1, 2} - {} == {1, 2};
    assert [] + WritePlan(s, [a, b], [ma, mb], env) == WritePlan(s, [a, b], [ma, mb], env);
  }

  lemma NoSeals(s: Store, ma: int, mb: int, env: Env)
    requires Choose(s.buckets, ma, env).Use? && Choose(s.buckets, mb, env).Use?
    ensures SealPlan(s, [ma, mb], env) == ([], true)
  {
    assert [ma, mb][..1] == [ma] && [ma][..0] == [];
    assert SealPlan(s, [ma], env) == ([], true);
  }

  lemma StuckIs(s: Store, ma: int, mb: int, env: Env)
    requires !Stuck(s, ma, env)
    ensures FirstStuck(s, [ma, mb], env) == (if Stuck(s, mb, env) then 1 else 2)
    ensures Reached(s, [ma, mb], env) == [ma, mb]
  {
    var months := [ma, mb];
    assert months[..1] == [ma] && [ma][..0] == [] && months[..2] == months;
    assert FirstStuck(s, [ma], env) == 1;
  }

  lemma TwoGroups(s: Store, a: Event, b: Event, ma: int, mb: int, env: Env)
    requires env.locked == {} && OfMonth([a, b], ma, env) == [a] && OfMonth([a, b], mb, env) == [b]
    ensures WritePlan(s, [a, b], [ma, mb], env)
         == GroupWrites(s.buckets, TargetOf(s, ma, env), [a]) + GroupWrites(s.buckets, TargetOf(s, mb, env), [b])
  {
    assert [ma, mb][..1] == [ma] && [ma][..0] == [];
    var first := GroupWrites(s.buckets, TargetOf(s, ma, env), [a]);
    assert WritePlan(s, [a, b], [], env) == [];
    assert [] + first == first;
    assert WritePlan(s, [a, b], [ma], env) == first;
  }

  lemma BatchIsBoth(a: Event, b: Event, s: Store, now: int, w: World)
    requires TwoMonths(a, b, now, w) && s.live == [a, b]
    ensures Batch(s, now, 2) == [a, b]
  {
    Batches.BatchIsOldestEligible([a, b], now, {}, 2);
    SameRows(Batches.Eligible([a, b], now, {}), [a, b]);
  }

  // ---------------------------------------------------------------- the disk at each stage

  function Held(e: Event): (b: Bucket) {
    Bucket(Complete, [e], Some(e.id), Some(e.id), false)
  }

  lemma OneApplied(s: Store, cs: seq<Commit>, c: Commit)
    requires StoreOk(s)
    ensures ApplyAll(s, cs + [c]) == Apply(ApplyAll(s, cs), c)
  {
    assert (cs + [c])[..|cs|] == cs;
  }

  /** Writing one event to a new bucket. */
  lemma NewGroup(s: Store, n: Name, e: Event)
    requires StoreOk(s) && IsNew(s, n)
    ensures |GroupCommits(n, [e], true)| == 7
    ensures ApplyAll(s, GroupCommits(n, [e], true)) == WithBucket(s, n, Held(e))
  {
    var opening := Creation(n) + [SetMin(n, e.id)] + [SetMax(n, e.id)];
    OpenedFor(s, n, e);
    FilledFor(s, n, e);
    OneApplied(s, opening, InsertRows(n, [e]));
    OneApplied(s, opening + [InsertRows(n, [e])], SetRange(n));
  }

  lemma FilledFor(s: Store, n: Name, e: Event)
    requires StoreOk(s)
    ensures var s1, s2 := WithBucket(s, n, Held(e).(rows := [])), WithBucket(s, n, Held(e));
            StoreOk(s1) && StoreOk(s2) && Apply(s1, InsertRows(n, [e])) == s2 && Apply(s2, SetRange(n)) == s2
  {
    InsertedOnce([], e);
  }

  lemma OpenedFor(s: Store, n: Name, e: Event)
    requires StoreOk(s) && IsNew(s, n)
    ensures ApplyAll(s, Creation(n) + [SetMin(n, e.id)] + [SetMax(n, e.id)]) == WithBucket(s, n, Held(e).(rows := []))
  {
    CreationReady(s, n);
    OneApplied(s, Creation(n), SetMin(n, e.id));
    BoundsSet(s, n, e);
    OneApplied(s, Creation(n) + [SetMin(n, e.id)], SetMax(n, e.id));
  }

  lemma BoundsSet(s: Store, n: Name, e: Event)
    requires StoreOk(s)
    ensures var s1 := WithBucket(s, n, NEW_FILE.(schema := Complete));
            && StoreOk(s1) && StoreOk(Apply(s1, SetMin(n, e.id)))
            && Apply(Apply(s1, SetMin(n, e.id)), SetMax(n, e.id)) == WithBucket(s, n, Held(e).(rows := []))
  {
    var s1 := WithBucket(s, n, NEW_FILE.(schema := Complete));
    assert Apply(s1, SetMin(n, e.id)) == WithBucket(s, n, Bucket(Complete, [], Some(e.id), None, false));
  }

  lemma InsertedOnce(rows: seq<Event>, e: Event)
    requires rows == [] || rows == [e]
    ensures InsertAll(rows, [e]) == [e]
  {
    assert [e][1..] == [];
    assert InsertAll(InsertRow(rows, e), []) == InsertRow(rows, e);
  }

  /** The disk a pass leaves that crashes between the two tables of its second bucket. */
  function Crashed(a: Event, b: Event, w: World): (s: Store) {
    Store([a, b], map[BucketOf(a, w) := Held(a), BucketOf(b, w) := NEW_FILE.(schema := EventsOnly)])
  }

  /** And the disk the next pass leaves, which throws once its row is in the unfinished bucket. */
  function Thrown(a: Event, b: Event, w: World): (s: Store) {
    Store([a, b], map[BucketOf(a, w) := Held(a), BucketOf(b, w) := NEW_FILE.(schema := EventsOnly, rows := [b])])
  }

  lemma FirstPass(a: Event, b: Event, now: int, w: World)
    requires TwoMonths(a, b, now, w)
    ensures var s := Store([a, b], map[]);
            var cs := Plan(s, [a, b], PassEnv(w, {}), {});
            |cs| >= 9 && ApplyAll(s, cs[..9]) == Crashed(a, b, w)
  {
    var s, na, nb := Store([a, b], map[]), BucketOf(a, w), BucketOf(b, w);
    PlanIsTwo(s, a, b, now, w);
    NewGroup(s, na, a);
    var first := GroupCommits(na, [a], true);
    var s1 := WithBucket(s, na, Held(a));
    var cs := Plan(s, [a, b], PassEnv(w, {}), {});
    var tail := [CreateFile(nb)] + [CreateEvents(nb)];
    assert cs[..9] == first + tail;
    ThenHalfCreated(s, first, s1, nb);
    assert WithBucket(s1, nb, NEW_FILE.(schema := EventsOnly)) == Crashed(a, b, w);
  }

  lemma ThenHalfCreated(s: Store, first: seq<Commit>, s1: Store, n: Name)
    requires StoreOk(s) && ApplyAll(s, first) == s1 && n !in s1.buckets
    ensures ApplyAll(s, first + ([CreateFile(n)] + [CreateEvents(n)]))
         == WithBucket(s1, n, NEW_FILE.(schema := EventsOnly))
  {
    ApplyAllConcat(s, first, [CreateFile(n)] + [CreateEvents(n)]);
    HalfCreated(s1, n);
  }

  lemma HalfCreated(s: Store, n: Name)
    requires StoreOk(s) && n !in s.buckets
    ensures ApplyAll(s, [CreateFile(n)] + [CreateEvents(n)]) == WithBucket(s, n, NEW_FILE.(schema := EventsOnly))
  {
    assert [] + [CreateFile(n)] == [CreateFile(n)];
    OneApplied(s, [], CreateFile(n));
    OneApplied(s, [CreateFile(n)], CreateEvents(n));
  }

  lemma SecondPass(a: Event, b: Event, now: int, w: World)
    requires TwoMonths(a, b, now, w)
    ensures var s := Crashed(a, b, w);
            && StoreOk(s) && |Plan(s, [a, b], PassEnv(w, {}), {})| == 3
            && ApplyAll(s, Plan(s, [a, b], PassEnv(w, {}), {})) == Thrown(a, b, w)
  {
    var s, na, nb := Crashed(a, b, w), BucketOf(a, w), BucketOf(b, w);
    PlanIsTwo(s, a, b, now, w);
    var x, y, z := InsertRows(na, [a]), SetRange(na), InsertRows(nb, [b]);
    assert Plan(s, [a, b], PassEnv(w, {}), {}) == [x] + [y] + [z];
    assert [] + [x] == [x];
    OneApplied(s, [], x);
    OneApplied(s, [x], y);
    OneApplied(s, [x] + [y], z);
    SecondCommits(a, b, now, w);
  }

  /** The first group is in its bucket already; the second gets its row. */
  lemma SecondCommits(a: Event, b: Event, now: int, w: World)
    requires TwoMonths(a, b, now, w)
    ensures var s := Crashed(a, b, w);
            && Apply(s, InsertRows(BucketOf(a, w), [a])) == s && Apply(s, SetRange(BucketOf(a, w))) == s
            && Apply(s, InsertRows(BucketOf(b, w), [b])) == Thrown(a, b, w)
  {
    InsertedOnce([a], a);
    InsertedOnce([], b);
  }

  // ---------------------------------------------------------------- the run

  /** Two passes: one crashes after nine of its commits, the next throws after three. */
  function TwoPasses(a: Event, b: Event, now: int): (acts: seq<Act>) {
    [Emit(a)] + [Emit(b)] + [BeginPass(now, 2, {})] + Commits(9) + [CrashPass] + [BeginPass(now, 2, {})] + Commits(3)
  }

  function Emitted(a: Event, b: Event, s: Store, pending: seq<Commit>): (p: Pager) {
    Pager(TierRuns.Tier(s, pending, 3, map[1 := a, 2 := b]), 0, [])
  }

  lemma EmitsRun(a: Event, b: Event, now: int, w: World)
    requires TwoMonths(a, b, now, w)
    ensures var acts := [Emit(a)] + [Emit(b)];
            Run(acts, w) && End(acts, w) == Emitted(a, b, Store([a, b], map[]), [])
  {
    StartIsSound(w);
    assert Run([], w) && End([], w) == Start();
    assert [] + [Emit(a)] == [Emit(a)];
    RunOneMore([], Emit(a), w);
    RunOneMore([Emit(a)], Emit(b), w);
    assert [] + [a] == [a] && [a] + [b] == [a, b];
  }

  lemma FirstPassRuns(a: Event, b: Event, now: int, w: World)
    requires TwoMonths(a, b, now, w)
    ensures var acts := [Emit(a)] + [Emit(b)] + [BeginPass(now, 2, {})] + Commits(9) + [CrashPass];
            Run(acts, w) && End(acts, w) == Emitted(a, b, Crashed(a, b, w), [])
  {
    var emits := [Emit(a)] + [Emit(b)];
    EmitsRun(a, b, now, w);
    BatchIsBoth(a, b, Store([a, b], map[]), now, w);
    FirstPass(a, b, now, w);
    RunOneMore(emits, BeginPass(now, 2, {}), w);
    RunCommits(emits + [BeginPass(now, 2, {})], 9, w);
    RunOneMore(emits + [BeginPass(now, 2, {})] + Commits(9), CrashPass, w);
  }

  lemma SecondPassRuns(a: Event, b: Event, now: int, w: World)
    requires TwoMonths(a, b, now, w)
    ensures Run(TwoPasses(a, b, now), w) && End(TwoPasses(a, b, now), w) == Emitted(a, b, Thrown(a, b, w), [])
  {
    var first := [Emit(a)] + [Emit(b)] + [BeginPass(now, 2, {})] + Commits(9) + [CrashPass];
    FirstPassRuns(a, b, now, w);
    BatchIsBoth(a, b, Crashed(a, b, w), now, w);
    SecondPass(a, b, now, w);
    RunOneMore(first, BeginPass(now, 2, {}), w);
    RunCommits(first + [BeginPass(now, 2, {})], 3, w);
    AllCommitted(a, b, Crashed(a, b, w), Plan(Crashed(a, b, w), [a, b], PassEnv(w, {}), {}));
  }

  lemma AllCommitted(a: Event, b: Event, s: Store, cs: seq<Commit>)
    requires StoreOk(s) && |cs| == 3
    ensures Committed(Emitted(a, b, s, cs), 3) == Emitted(a, b, ApplyAll(s, cs), [])
  {
    assert cs[..3] == cs && cs[3..] == [];
  }

  /** Polling for one event from the start. */
  function PollOne(b: Event, w: World): (a: Act) {
    Poll(Query.Files({}, {}), 1, [BucketOf(b, w)])
  }

  lemma UnfinishedIsListed(a: Event, b: Event, now: int, w: World)
    requires TwoMonths(a, b, now, w)
    ensures Query.IsCovering([BucketOf(b, w)], Thrown(a, b, w), Query.Files({}, {}), 0, ALL)
  {
    EverythingMatches([a, b]);
  }

  lemma SecondIsAnswered(a: Event, b: Event, now: int, w: World)
    requires TwoMonths(a, b, now, w)
    ensures Query.IsCovering([BucketOf(b, w)], Thrown(a, b, w), Query.Files({}, {}), 0, ALL)
    ensures Query.Resolved(Thrown(a, b, w), Query.Files({}, {}), 0, ALL, 1, [BucketOf(b, w)]) == Ok([b])
  {
    var s, nb := Thrown(a, b, w), BucketOf(b, w);
    UnfinishedIsListed(a, b, now, w);
    EverythingMatches([a, b]);
    SameRows(Where([b], Query.Wanted(ALL, 0)), [b]);
    assert [nb][..0] == [] && [] + [b] == [b];
    assert Query.Collect(s.buckets, Query.Files({}, {}), [], 0, ALL, 1) == Ok([]);
    assert Query.Collect(s.buckets, Query.Files({}, {}), [nb], 0, ALL, 1) == Ok([b]);
    OrderedWarm(s, [b], 0, ALL, 1);
  }

  /**
   The first event is in its bucket and still live.  The next poll for one event returns the second: its
   unfinished bucket is listed, the first's is not, and the batch is full before the live table is read.
   The cursor has passed the first event, and no later poll returns it.
   */
  lemma EventIsSkipped(a: Event, b: Event, now: int, w: World)
    requires TwoMonths(a, b, now, w)
    ensures var acts := TwoPasses(a, b, now) + [PollOne(b, w)];
            && Run(acts, w) && !RunClear(acts, w)
            && End(acts, w).cursor == 2 && End(acts, w).delivered == [b] && a in End(acts, w).tier.s.live
  {
    SecondPassRuns(a, b, now, w);
    SecondIsAnswered(a, b, now, w);
    SecondIsHanded(a, b, Emitted(a, b, Thrown(a, b, w), []), PollOne(b, w), w);
    RunOneMore(TwoPasses(a, b, now), PollOne(b, w), w);
    ExactlyOnceInOrder(TwoPasses(a, b, now) + [PollOne(b, w)], w);
  }

  lemma SecondIsHanded(a: Event, b: Event, p: Pager, poll: Act, w: World)
    requires p == Emitted(a, b, p.tier.s, []) && StoreOk(p.tier.s) && b.id == 2 && poll.Poll? && Enabled(p, poll, w)
    requires Answer(p, poll) == Ok([b])
    ensures var r := Step(p, poll, w); r.cursor == 2 && r.delivered == [b] && r.tier == p.tier
  {
    assert [] + [b] == [b];
  }
}
