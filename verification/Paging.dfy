/**
 The statements of a tiered pass over the lowest live rows, one at a time: each finds the order of tiers and
 buckets it relies on, whatever is emitted or renamed meanwhile, also when an unfinished bucket stops the pass.
 */
module Paging {
  import opened Wrappers
  import opened Events
  import opened Archive
  import opened SweepV2
  import opened Resolution
  import opened TierOrder
  import TierRuns
  import Query
  import Batches

  // ---------------------------------------------------------------- lists of commits

  /** Every commit of the list finds the order it relies on. */
  ghost predicate PagedAll(s: Store, cs: seq<Commit>, mo: Calendar)
    requires StoreOk(s)
    decreases |cs|
  {
    cs == [] || (PagedAll(s, cs[..|cs| - 1], mo) && Paged(ApplyAll(s, cs[..|cs| - 1]), cs[|cs| - 1], mo))
  }

  lemma {:induction false} PagedConcat(s: Store, a: seq<Commit>, b: seq<Commit>, mo: Calendar)
    requires StoreOk(s) && PagedAll(s, a, mo) && PagedAll(ApplyAll(s, a), b, mo)
    ensures PagedAll(s, a + b, mo)
    decreases |b|
  {
    if b == [] {
      assert a + b == a;
    } else {
      assert (a + b)[..|a + b| - 1] == a + b[..|b| - 1];
      PagedConcat(s, a, b[..|b| - 1], mo);
      ApplyAllConcat(s, a, b[..|b| - 1]);
    }
  }

  lemma PagedOneMore(s: Store, cs: seq<Commit>, c: Commit, mo: Calendar)
    requires StoreOk(s) && PagedAll(s, cs, mo) && Paged(ApplyAll(s, cs), c, mo)
    ensures PagedAll(s, cs + [c], mo)
  {
    assert (cs + [c])[..|cs|] == cs;
  }

  lemma {:induction false} PagedTail(s: Store, cs: seq<Commit>, mo: Calendar)
    requires StoreOk(s) && PagedAll(s, cs, mo) && cs != []
    ensures Paged(s, cs[0], mo) && StoreOk(Apply(s, cs[0])) && PagedAll(Apply(s, cs[0]), cs[1..], mo)
    ensures ApplyAll(Apply(s, cs[0]), cs[1..]) == ApplyAll(s, cs)
    decreases |cs|
  {
    var k := |cs| - 1;
    ApplyKeepsOk(s, cs[0]);
    if k == 0 {
      assert cs[..0] == [];
    } else {
      PagedTail(s, cs[..k], mo);
      assert cs[..k][1..] == cs[1..][..k - 1] && cs[1..][k - 1] == cs[k];
    }
  }

  // ---------------------------------------------------------------- appending and renaming meanwhile

  lemma AppendKeepsPaged(s: Store, c: Commit, e: Event, mo: Calendar)
    requires StoreOk(s) && StoreOk(TierRuns.Appended(s, e)) && Paged(s, c, mo)
    requires forall x | x in Ids(s.live) :: x < e.id
    requires c.SetRange? && c.name in s.buckets && s.buckets[c.name].rows != [] ==> s.buckets[c.name].rows[0].id < e.id
    requires c.InsertRows? ==> Ids(c.rows) <= Ids(s.live)
    requires c.DeleteLive? ==> e.id !in c.ids
    ensures Paged(TierRuns.Appended(s, e), c, mo)
  {
    TierRuns.AppendedIds(s, e);
    if c.InsertRows? { AppendKeepsInsert(s, c.name, c.rows, e, mo); }
  }

  lemma AppendKeepsInsert(s: Store, n: Name, rows: seq<Event>, e: Event, mo: Calendar)
    requires Paged(s, InsertRows(n, rows), mo) && Ids(rows) <= Ids(s.live) && forall x | x in Ids(s.live) :: x < e.id
    ensures Paged(TierRuns.Appended(s, e), InsertRows(n, rows), mo)
  {
    TierRuns.AppendKeepsCover(s, e);
    TierRuns.AppendedIds(s, e);
  }

  lemma {:induction false} AppendKeepsPagedAll(s: Store, cs: seq<Commit>, e: Event, mo: Calendar)
    requires Sound(s) && StoreOk(TierRuns.Appended(s, e)) && Ready(s, cs) && PagedAll(s, cs, mo)
    requires TierRuns.DeletesBelow(cs, e.id) && forall id: nat | InView(s, id) :: id < e.id
    ensures PagedAll(TierRuns.Appended(s, e), cs, mo)
    decreases |cs|
  {
    if cs != [] {
      var k := |cs| - 1;
      AppendKeepsPagedAll(s, cs[..k], e, mo);
      TierRuns.AppendKeepsReady(s, cs[..k], e);
      CommitsKeep(s, cs[..k]);
      AppendKeepsOne(s, ApplyAll(s, cs[..k]), cs[k], e, mo);
    }
  }

  lemma AppendKeepsOne(s: Store, r: Store, c: Commit, e: Event, mo: Calendar)
    requires StoreOk(r) && SameView(s, r) && StoreOk(TierRuns.Appended(r, e)) && Pre(r, c) && Paged(r, c, mo)
    requires (forall id: nat | InView(s, id) :: id < e.id) && (c.DeleteLive? ==> e.id !in c.ids)
    ensures Paged(TierRuns.Appended(r, e), c, mo)
  {
    forall x | x in Ids(r.live) ensures x < e.id { assert InView(r, x); }
    if c.SetRange? && c.name in r.buckets && r.buckets[c.name].rows != [] {
      var first := r.buckets[c.name].rows[0];
      assert first in r.buckets[c.name].rows && first.id in Ids(r.buckets[c.name].rows);
      assert InView(r, first.id);
    }
    AppendKeepsPaged(r, c, e, mo);
  }

  lemma {:induction false} RenameKeepsPagedAll(s: Store, cs: seq<Commit>, id: nat, key: string, mo: Calendar)
    requires StoreOk(s) && StoreOk(TierRuns.Renamed(s, id, key)) && Ready(s, cs) && PagedAll(s, cs, mo)
    ensures PagedAll(TierRuns.Renamed(s, id, key), cs, mo)
    decreases |cs|
  {
    if cs != [] {
      var k := |cs| - 1;
      RenameKeepsPagedAll(s, cs[..k], id, key, mo);
      TierRuns.RenameKeepsReady(s, cs[..k], id, key);
      RenameKeepsPaged(ApplyAll(s, cs[..k]), cs[k], id, key, mo);
    }
  }

  lemma RenameKeepsPaged(s: Store, c: Commit, id: nat, key: string, mo: Calendar)
    requires StoreOk(s) && StoreOk(TierRuns.Renamed(s, id, key)) && Paged(s, c, mo)
    ensures Paged(TierRuns.Renamed(s, id, key), c, mo)
  {
    WithKeysIds(s.live, map[id := key]);
    TierRuns.RenameKeepsCover(s, id, key);
  }

  // ---------------------------------------------------------------- a pass over a prefix of the live table

  /** The calendar of a pass gives every live row the month of its id. */
  ghost predicate Dated(s: Store, env: Env, mo: Calendar) {
    forall e | e in s.live :: Month(env, e) == mo(e.id)
  }

  predicate RecordsNothing(c: Commit) {
    c.Seal? || c.CreateFile? || c.CreateEvents? || c.CreateMeta? || c.SetMax?
  }

  lemma {:induction false} PlainPaged(s: Store, cs: seq<Commit>, mo: Calendar)
    requires StoreOk(s) && forall c | c in cs :: RecordsNothing(c)
    ensures PagedAll(s, cs, mo)
    decreases |cs|
  {
    if cs != [] {
      PlainPaged(s, cs[..|cs| - 1], mo);
      assert RecordsNothing(cs[|cs| - 1]);
    }
  }

  ghost predicate MonthsAscend(events: seq<Event>, env: Env) {
    forall i, j | 0 <= i <= j < |events| :: Month(env, events[i]) <= Month(env, events[j])
  }

  lemma {:induction false} MonthsRise(events: seq<Event>, env: Env)
    requires MonthsAscend(events, env)
    ensures forall i, j | 0 <= i < j < |Months(events, env)| :: Months(events, env)[i] < Months(events, env)[j]
    decreases |events|
  {
    if events != [] {
      var k := |events| - 1;
      MonthsRise(events[..k], env);
      MonthsAre(events[..k], env);
      forall m | m in Months(events[..k], env) ensures m <= Month(env, events[k]) {
        var e :| e in events[..k] && Month(env, e) == m;
        var i :| 0 <= i < k && events[i] == e;
        assert Month(env, events[i]) <= Month(env, events[k]);
      }
      var ms := Months(events[..k], env);
      assert forall i | 0 <= i < |ms| :: ms[i] in ms;
    }
  }

  /** The rows a month contributes are its lowest live ones, and what lies below them is already recorded. */
  ghost predicate Lowest(r: Store, n: Name, rows: seq<Event>, mo: Calendar) {
    && rows != [] && Ascending(rows) && Ids(rows) <= Ids(r.live)
    && (forall x | x in Ids(rows) :: mo(x) == n.month)
    && (forall y | y in Ids(r.live) && mo(y) == n.month :: rows[0].id <= y)
    && (forall x, y | x in Ids(rows) && y in Ids(r.live) && y < x ::
          y in Ids(rows) || (mo(y) < n.month && Covered(r, y)))
  }

  lemma GroupPaged(r: Store, n: Name, rows: seq<Event>, isNew: bool, mo: Calendar)
    requires Sound(r) && Target(r, n.month, n) && isNew == (n !in r.buckets) && Whole(r, n) && Lowest(r, n, rows, mo)
    ensures PagedAll(r, GroupCommits(n, rows, isNew), mo)
  {
    var head := Opening(n, rows, isNew);
    OpeningReady(r, n, rows, isNew);
    CommitsKeep(r, head);
    OpeningPaged(r, n, rows, isNew, mo);
    var r1 := ApplyAll(r, head);
    LowestStays(r, r1, n, rows, mo);
    PagedOneMore(r, head, InsertRows(n, rows), mo);
    ReadyOneMore(r, head, InsertRows(n, rows));
    InsertedRows(r1, n, rows);
    ApplyKeepsOk(r1, InsertRows(n, rows));
    var r2 := Apply(r1, InsertRows(n, rows));
    RangeIsLowest(r2, n, rows, mo);
    PagedOneMore(r, head + [InsertRows(n, rows)], SetRange(n), mo);
  }

  lemma LowestStays(r: Store, r1: Store, n: Name, rows: seq<Event>, mo: Calendar)
    requires Lowest(r, n, rows, mo) && r1.live == r.live && CoverGrows(r, r1)
    ensures Lowest(r1, n, rows, mo) && Paged(r1, InsertRows(n, rows), mo)
  {
    forall y | Covered(r, y) ensures Covered(r1, y) {
      var q :| CoveredIn(r, q, y);
      assert CoveredIn(r1, q, y);
    }
  }

  lemma RangeIsLowest(r: Store, n: Name, rows: seq<Event>, mo: Calendar)
    requires StoreOk(r) && n in r.buckets && rows != [] && Ids(rows) <= Ids(r.buckets[n].rows)
    requires forall y | y in Ids(r.live) && mo(y) == n.month :: rows[0].id <= y
    ensures Paged(r, SetRange(n), mo)
  {
    assert rows[0].id in Ids(rows);
    RangeHolds(r.buckets[n].rows, rows[0].id);
  }

  lemma OpeningPaged(r: Store, n: Name, rows: seq<Event>, isNew: bool, mo: Calendar)
    requires Sound(r) && Target(r, n.month, n) && isNew == (n !in r.buckets) && Lowest(r, n, rows, mo)
    ensures PagedAll(r, Opening(n, rows, isNew), mo)
  {
    if isNew {
      var b, c := SetMin(n, rows[0].id), SetMax(n, rows[|rows| - 1].id);
      PlainPaged(r, Creation(n), mo);
      CreationReady(r, n);
      assert rows[0].id in Ids(rows);
      PagedOneMore(r, Creation(n), b, mo);
      PagedOneMore(r, Creation(n) + [b], c, mo);
    }
  }

  /** The rows are the lowest live ones, and their months rise. */
  ghost predicate LowPrefix(s: Store, events: seq<Event>, env: Env) {
    events <= s.live && MonthsAscend(s.live, env)
  }

  lemma BelowIsInside(s: Store, events: seq<Event>, env: Env, x: Event, y: Event)
    requires StoreOk(s) && LowPrefix(s, events, env) && x in events && y in s.live && y.id < x.id
    ensures y in events && Month(env, y) <= Month(env, x)
  {
    var i :| 0 <= i < |events| && events[i] == x;
    var j :| 0 <= j < |s.live| && s.live[j] == y;
    assert s.live[i] == x;
    assert j < i ==> events[j] == y;
  }

  lemma PrefixAscends(s: Store, events: seq<Event>, env: Env)
    requires StoreOk(s) && LowPrefix(s, events, env)
    ensures Ascending(events) && MonthsAscend(events, env)
    ensures (forall e | e in events :: e in s.live) && Ids(events) <= Ids(s.live)
  {
    AscendingTail(s.live, |events|);
  }

  /** What a month still has live starts with what the pass takes of it. */
  lemma MonthStartsWithin(s: Store, events: seq<Event>, m: int, env: Env, y: Event)
    requires StoreOk(s) && LowPrefix(s, events, env) && OfMonth(events, m, env) != []
    requires y in s.live && Month(env, y) == m
    ensures OfMonth(events, m, env)[0].id <= y.id
  {
    PrefixAscends(s, events, env);
    var rows := OfMonth(events, m, env);
    assert rows[0] in rows;
    if y in events {
      HeadIsLeast(rows, y);
    } else {
      OutsideIsAbove(s, events, env, rows[0], y);
    }
  }

  lemma HeadIsLeast(rows: seq<Event>, y: Event)
    requires Ascending(rows) && y in rows
    ensures rows[0].id <= y.id
  {
    var k :| 0 <= k < |rows| && rows[k] == y;
  }

  lemma OutsideIsAbove(s: Store, events: seq<Event>, env: Env, x: Event, y: Event)
    requires StoreOk(s) && LowPrefix(s, events, env) && x in events && y in s.live && y !in events
    ensures x.id < y.id
  {
    var i :| 0 <= i < |events| && events[i] == x;
    var j :| 0 <= j < |s.live| && s.live[j] == y;
    assert s.live[i] == x;
    assert forall k | 0 <= k < |events| :: s.live[k] == events[k] && events[k] in events;
  }

  lemma GroupIsLowest(s: Store, r: Store, events: seq<Event>, done: seq<int>, m: int, n: Name, env: Env, mo: Calendar)
    requires StoreOk(s) && LowPrefix(s, events, env) && n.month == m && env.locked == {} && Dated(s, env, mo)
    requires r.live == s.live && MonthsCovered(s, r, events, done, env) && OfMonth(events, m, env) != []
    requires forall e | e in events && Month(env, e) < m :: Month(env, e) in done
    ensures Lowest(r, n, OfMonth(events, m, env), mo)
  {
    PrefixAscends(s, events, env);
    var rows := OfMonth(events, m, env);
    forall y | y in Ids(r.live) && mo(y) == n.month ensures rows[0].id <= y {
      var e :| e in s.live && e.id == y;
      MonthStartsWithin(s, events, m, env, e);
    }
    forall x, y | x in Ids(rows) && y in Ids(r.live) && y < x
      ensures y in Ids(rows) || (mo(y) < n.month && Covered(r, y))
    {
      var a :| a in rows && a.id == x;
      var b :| b in s.live && b.id == y;
      BelowIsInside(s, events, env, a, b);
      assert Month(env, b) == mo(b.id);
    }
  }

  lemma RankIsLess(ms: seq<int>, j: nat, i: nat)
    requires (forall a, b | 0 <= a < b < |ms| :: ms[a] < ms[b]) && j < |ms| && i < |ms| && ms[j] < ms[i]
    ensures j < i
  {
  }

  lemma EarlierMonthsDone(events: seq<Event>, i: nat, env: Env)
    requires MonthsAscend(events, env) && i < |Months(events, env)|
    ensures forall e | e in events && Month(env, e) < Months(events, env)[i]
        :: Month(env, e) in Months(events, env)[..i]
  {
    MonthsRise(events, env);
    MonthsAre(events, env);
    var ms := Months(events, env);
    forall e | e in events && Month(env, e) < ms[i] ensures Month(env, e) in ms[..i] {
      var j :| 0 <= j < |ms| && ms[j] == Month(env, e);
      RankIsLess(ms, j, i);
      assert ms[..i][j] == ms[j];
    }
  }

  /** The commits of one group, of an unfinished bucket too. */
  lemma GroupWritesPaged(r: Store, n: Name, rows: seq<Event>, mo: Calendar)
    requires Sound(r) && Target(r, n.month, n) && Lowest(r, n, rows, mo)
    ensures PagedAll(r, GroupWrites(r.buckets, n, rows), mo)
  {
    if Whole(r, n) {
      GroupPaged(r, n, rows, n !in r.buckets, mo);
    } else if r.buckets[n].schema.EventsOnly? {
      LowestStays(r, r, n, rows, mo);
      PagedOneMore(r, [], InsertRows(n, rows), mo);
      assert [] + [InsertRows(n, rows)] == [InsertRows(n, rows)];
    }
  }

  lemma OneGroupPaged(s: Store, s1: Store, events: seq<Event>, i: nat, env: Env, mo: Calendar)
    requires Sound(s) && Sound(s1) && LowPrefix(s, events, env) && env.locked == {} && Dated(s, env, mo)
    requires i < |Months(events, env)| && AllTargeted(s, events, Months(events, env), env)
    requires SealedFor(s, s1, Months(events, env), env)
    requires WritesAre(s, s1, events, Months(events, env)[..i], env)
    ensures var m := Months(events, env)[i];
            PagedAll(ApplyAll(s1, WritePlan(s, events, Months(events, env)[..i], env)),
                     WritesOf(s, TargetOf(s, m, env), OfMonth(events, m, env), env), mo)
  {
    var months := Months(events, env);
    var m := months[i];
    var n := TargetOf(s, m, env);
    var r := ApplyAll(s1, WritePlan(s, events, months[..i], env));
    NextTarget(s, s1, events, i, env);
    PrefixAscends(s, events, env);
    EarlierMonthsDone(events, i, env);
    LowestGroupPaged(s, r, events, months[..i], m, n, env, mo);
  }

  lemma LowestGroupPaged(s: Store, r: Store, events: seq<Event>, done: seq<int>, m: int, n: Name, env: Env,
                         mo: Calendar)
    requires StoreOk(s) && LowPrefix(s, events, env) && n.month == m && env.locked == {} && Dated(s, env, mo)
    requires r.live == s.live && MonthsCovered(s, r, events, done, env) && OfMonth(events, m, env) != []
    requires forall e | e in events && Month(env, e) < m :: Month(env, e) in done
    requires Sound(r) && Target(r, n.month, n) && SameSchema(s, r, n)
    ensures PagedAll(r, WritesOf(s, n, OfMonth(events, m, env), env), mo)
  {
    GroupIsLowest(s, r, events, done, m, n, env, mo);
    GroupWritesPaged(r, n, OfMonth(events, m, env), mo);
  }

  /** Before group `i` is written, its bucket can take it. */
  lemma NextTarget(s: Store, s1: Store, events: seq<Event>, i: nat, env: Env)
    requires Sound(s) && Sound(s1) && i < |Months(events, env)| && AllTargeted(s, events, Months(events, env), env)
    requires SealedFor(s, s1, Months(events, env), env)
    requires WritesAre(s, s1, events, Months(events, env)[..i], env)
    ensures var m := Months(events, env)[i];
            var n := TargetOf(s, m, env);
            var r := ApplyAll(s1, WritePlan(s, events, Months(events, env)[..i], env));
            Sound(r) && n.month == m && Target(r, n.month, n) && SameSchema(s, r, n)
  {
    var months := Months(events, env);
    var n, before := TargetOf(s, months[i], env), WritePlan(s, events, months[..i], env);
    CommitsKeep(s1, before);
    SealedTargets(s, s1, months, env, months[i]);
    assert months[i] !in months[..i];
    TargetElsewhere(s1, ApplyAll(s1, before), months[i], n, months[..i]);
  }

  /** After the groups of `done`, the commits of month `m` find the order they rely on. */
  ghost predicate MonthPaged(s: Store, s1: Store, events: seq<Event>, done: seq<int>, m: int, env: Env, mo: Calendar)
    requires StoreOk(s1)
  {
    PagedAll(ApplyAll(s1, WritePlan(s, events, done, env)),
      WritesOf(s, TargetOf(s, m, env), OfMonth(events, m, env), env), mo)
  }

  ghost predicate EachMonthPaged(s: Store, s1: Store, events: seq<Event>, months: seq<int>, env: Env, mo: Calendar)
    requires StoreOk(s1)
  {
    forall done, m | done + [m] <= months :: MonthPaged(s, s1, events, done, m, env, mo)
  }

  lemma EachGroupPaged(s: Store, s1: Store, events: seq<Event>, env: Env, mo: Calendar)
    requires Sound(s) && Sound(s1) && LowPrefix(s, events, env) && env.locked == {} && Dated(s, env, mo)
    requires AllTargeted(s, events, Months(events, env), env)
    requires SealedFor(s, s1, Months(events, env), env)
    ensures EachMonthPaged(s, s1, events, Reached(s, Months(events, env), env), env, mo)
  {
    PrefixAscends(s, events, env);
    var months := Months(events, env);
    forall done, m | done + [m] <= Reached(s, months, env) ensures MonthPaged(s, s1, events, done, m, env, mo) {
      var i := |done|;
      assert (done + [m])[..i] == done && months[..i] == done && months[i] == m && i <= FirstStuck(s, months, env);
      WritesReady(s, s1, events, months, i, env);
      OneGroupPaged(s, s1, events, i, env, mo);
    }
  }

  lemma PrefixPaged(s: Store, s1: Store, events: seq<Event>, months: seq<int>, env: Env, mo: Calendar)
    requires StoreOk(s1) && months != [] && EachMonthPaged(s, s1, events, months, env, mo)
    ensures EachMonthPaged(s, s1, events, months[..|months| - 1], env, mo)
  {
    var before := months[..|months| - 1];
    forall done, m | done + [m] <= before ensures MonthPaged(s, s1, events, done, m, env, mo) {
      assert done + [m] <= months;
    }
  }

  lemma {:induction false} WritesPaged(s: Store, s1: Store, events: seq<Event>, months: seq<int>, env: Env,
                                       mo: Calendar)
    requires StoreOk(s1) && EachMonthPaged(s, s1, events, months, env, mo)
    ensures PagedAll(s1, WritePlan(s, events, months, env), mo)
    decreases |months|
  {
    if months != [] {
      PrefixPaged(s, s1, events, months, env, mo);
      WritesPaged(s, s1, events, months[..|months| - 1], env, mo);
      LastMonthPaged(s, s1, events, months, env, mo);
    }
  }

  lemma LastMonthPaged(s: Store, s1: Store, events: seq<Event>, months: seq<int>, env: Env, mo: Calendar)
    requires StoreOk(s1) && months != [] && EachMonthPaged(s, s1, events, months, env, mo)
    requires PagedAll(s1, WritePlan(s, events, months[..|months| - 1], env), mo)
    ensures PagedAll(s1, WritePlan(s, events, months, env), mo)
  {
    var done, m := months[..|months| - 1], months[|months| - 1];
    var before, more := WritePlan(s, events, done, env), WritesOf(s, TargetOf(s, m, env), OfMonth(events, m, env), env);
    LastMonth(s, s1, events, months, env, mo);
    PagedConcat(s1, before, more, mo);
  }

  lemma LastMonth(s: Store, s1: Store, events: seq<Event>, months: seq<int>, env: Env, mo: Calendar)
    requires StoreOk(s1) && months != [] && EachMonthPaged(s, s1, events, months, env, mo)
    ensures var done, m := months[..|months| - 1], months[|months| - 1];
            var before, more := WritePlan(s, events, done, env),
              WritesOf(s, TargetOf(s, m, env), OfMonth(events, m, env), env);
            WritePlan(s, events, months, env) == before + more && PagedAll(ApplyAll(s1, before), more, mo)
  {
    var done, m := months[..|months| - 1], months[|months| - 1];
    assert months == done + [m];
    assert MonthPaged(s, s1, events, done, m, env, mo);
  }

  /** Every commit of a pass over the lowest live rows keeps the order. */
  lemma PlanPaged(s: Store, events: seq<Event>, env: Env, mo: Calendar)
    requires Sound(s) && LowPrefix(s, events, env) && env.locked == {} && Dated(s, env, mo)
    ensures PagedAll(s, Plan(s, events, env, {}), mo)
  {
    var months := Months(events, env);
    PrefixAscends(s, events, env);
    MonthsNonempty(events, env);
    MonthsAre(events, env);
    SealsReady(s, months, env);
    SealPlanGetsThrough(s, months, env);
    TierRuns.SealsOnly(s, months, env);
    var (seals, ok) := SealPlan(s, months, env);
    PlainPaged(s, seals, mo);
    if ok {
      WholeReady(s, events, months, env);
      WholePaged(s, events, months, env, mo);
      var cs := seals + WritePlan(s, events, Reached(s, months, env), env);
      DeletePaged(s, ApplyAll(s, cs), events, env, mo);
      TailPaged(s, cs, MovedIds(s, events, env), GetsThrough(s, months, env), mo);
    }
  }

  lemma TailPaged(s: Store, cs: seq<Commit>, moved: set<nat>, through: bool, mo: Calendar)
    requires StoreOk(s) && PagedAll(s, cs, mo) && Paged(ApplyAll(s, cs), DeleteLive(moved - {}), mo)
    ensures PagedAll(s, cs + (if moved == {} || !through then [] else [DeleteLive(moved - {})]), mo)
  {
    if moved == {} || !through {
      assert cs + [] == cs;
    } else {
      PagedOneMore(s, cs, DeleteLive(moved - {}), mo);
    }
  }

  lemma WholePaged(s: Store, events: seq<Event>, months: seq<int>, env: Env, mo: Calendar)
    requires Sound(s) && LowPrefix(s, events, env) && env.locked == {} && Dated(s, env, mo)
    requires months == Months(events, env) && SealPlan(s, months, env).1 && AllTargeted(s, events, months, env)
    requires PagedAll(s, SealPlan(s, months, env).0, mo)
    ensures PagedAll(s, SealPlan(s, months, env).0 + WritePlan(s, events, Reached(s, months, env), env), mo)
  {
    var seals := SealPlan(s, months, env).0;
    SealsReady(s, months, env);
    CommitsKeep(s, seals);
    EachGroupPaged(s, ApplyAll(s, seals), events, env, mo);
    WritesPaged(s, ApplyAll(s, seals), events, Reached(s, months, env), env, mo);
    PagedConcat(s, seals, WritePlan(s, events, Reached(s, months, env), env), mo);
  }

  lemma DeletePaged(s: Store, r: Store, events: seq<Event>, env: Env, mo: Calendar)
    requires StoreOk(s) && LowPrefix(s, events, env) && env.locked == {} && r.live == s.live
    ensures Paged(r, DeleteLive(MovedIds(s, events, env) - {}), mo)
  {
    var ids := MovedIds(s, events, env) - {};
    PrefixAscends(s, events, env);
    forall x, y | x in Ids(r.live) && y in Ids(r.live) && y < x && x in ids ensures y in ids {
      var a :| a in events && a.id == x;
      var b :| b in s.live && b.id == y;
      BelowIsInside(s, events, env, a, b);
    }
  }
}
