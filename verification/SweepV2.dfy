/**
 The tiered sweep (lib/sweep-v2.js), as the list of commits a pass makes, and what every prefix of
 that list keeps.  A crash is a prefix.
 */
module SweepV2 {
  import opened Wrappers
  import opened Events
  import opened Archive

  /** What a pass reads besides the two tiers: the calendar, and the state of the bucket files. */
  datatype Env = Env(monthOf: int -> int, full: set<Name>, locked: set<Name>)

  const LAST_SUFFIX: nat := 26

  // ---------------------------------------------------------------- choosing a bucket

  datatype Choice =
    | Use(name: Name)                 // the first or the latest bucket of the month
    | Rotate(latest: Name, name: Name)   // seal the latest, take the next suffix
    | Exhausted(latest: Name)            // seal the latest, no suffix left: the pass throws

  ghost function Suffixes(buckets: map<Name, Bucket>, m: int): (s: set<nat>) {
    set n | n in buckets && n.month == m :: n.suffix
  }

  ghost function MaxOf(s: set<nat>): (x: nat)
    requires s != {}
    ensures x in s && forall y | y in s :: y <= x
  {
    var x :| x in s;
    if s == {x} then x
    else
      var y := MaxOf(s - {x});
      assert s == (s - {x}) + {x};
      if x < y then y else x
  }

  ghost function Choose(buckets: map<Name, Bucket>, m: int, env: Env): (c: Choice) {
    var used := Suffixes(buckets, m);
    if used == {} then Use(Name(m, 0))
    else
      var latest := Name(m, MaxOf(used));
      if latest in buckets && !buckets[latest].sealed && latest !in env.full then Use(latest)
      else if latest.suffix < LAST_SUFFIX then Rotate(latest, Name(m, latest.suffix + 1))
      else Exhausted(latest)
  }

  // ---------------------------------------------------------------- the commits of a pass

  function Month(env: Env, e: Event): int {
    env.monthOf(e.emittedAt)
  }

  /** The months of the events, each once, in order of first occurrence. */
  function Months(events: seq<Event>, env: Env): (ms: seq<int>) {
    if events == [] then []
    else
      var last := events[|events| - 1];
      var ms := Months(events[..|events| - 1], env);
      if Month(env, last) in ms then ms else ms + [Month(env, last)]
  }

  ghost predicate EachOnce(ms: seq<int>) {
    forall i, j | 0 <= i < j < |ms| :: ms[i] != ms[j]
  }

  lemma {:induction false} MonthsAre(events: seq<Event>, env: Env)
    ensures forall m | m in Months(events, env) :: exists e | e in events :: Month(env, e) == m
    ensures forall e | e in events :: Month(env, e) in Months(events, env)
    ensures EachOnce(Months(events, env))
  {
    if events != [] {
      var k := |events| - 1;
      MonthsAre(events[..k], env);
      assert forall e :: e in events <==> e in events[..k] || e == events[k];
    }
  }

  function OfMonth(events: seq<Event>, m: int, env: Env): (rows: seq<Event>)
    ensures forall e :: e in rows <==> e in events && Month(env, e) == m
    ensures Ascending(events) ==> Ascending(rows)
  {
    Where(events, (e: Event) => Month(env, e) == m)
  }

  /** The seals made while grouping, and whether grouping got through. */
  ghost function SealPlan(s: Store, months: seq<int>, env: Env): (r: (seq<Commit>, bool))
    decreases |months|
  {
    if months == [] then ([], true)
    else
      var (cs, ok) := SealPlan(s, months[..|months| - 1], env);
      if !ok then (cs, false)
      else
        match Choose(s.buckets, months[|months| - 1], env)
        case Use(_) => (cs, true)
        case Rotate(latest, _) => (cs + [Seal(latest)], true)
        case Exhausted(latest) => (cs + [Seal(latest)], false)
  }

  ghost function TargetOf(s: Store, m: int, env: Env): (n: Name) {
    match Choose(s.buckets, m, env)
    case Exhausted(latest) => latest
    case c => c.name
  }

  /** The commits that write one group, none when its bucket is locked. */
  ghost function WritesOf(s: Store, n: Name, rows: seq<Event>, env: Env): (cs: seq<Commit>)
  {
    if n in env.locked || rows == [] then [] else GroupWrites(s.buckets, n, rows)
  }

  /**
   Adding rows to a bucket.  One that `createBucket` left unfinished makes the pass throw: without `events`
   before anything is written, without `_meta` once the rows are in and their range should be recorded.
   */
  ghost function GroupWrites(buckets: map<Name, Bucket>, n: Name, rows: seq<Event>): (cs: seq<Commit>)
    requires rows != []
  {
    if n !in buckets then GroupCommits(n, rows, true)
    else match buckets[n].schema
         case NoTables => []
         case EventsOnly => [InsertRows(n, rows)]
         case Complete => GroupCommits(n, rows, false)
  }

  /** Writing the group of month `m` makes the pass throw. */
  ghost predicate Stuck(s: Store, m: int, env: Env) {
    var n := TargetOf(s, m, env);
    n !in env.locked && n in s.buckets && !s.buckets[n].schema.Complete?
  }

  /** The index of the first month that stops the pass, or how many months there are. */
  ghost function FirstStuck(s: Store, months: seq<int>, env: Env): (k: nat)
    ensures k <= |months|
    ensures forall i | 0 <= i < k :: !Stuck(s, months[i], env)
    ensures k < |months| ==> Stuck(s, months[k], env)
    decreases |months|
  {
    if months == [] then 0
    else
      var last := |months| - 1;
      var k := FirstStuck(s, months[..last], env);
      if k < last || Stuck(s, months[last], env) then k else |months|
  }

  /** The months whose groups the pass gets to write, the one that stops it included. */
  ghost function Reached(s: Store, months: seq<int>, env: Env): (ms: seq<int>)
    ensures ms <= months
  {
    var k := FirstStuck(s, months, env);
    if k < |months| then months[..k + 1] else months
  }

  /** Every month has a bucket, and none stops the pass. */
  ghost predicate GetsThrough(s: Store, months: seq<int>, env: Env) {
    SealPlan(s, months, env).1 && FirstStuck(s, months, env) == |months|
  }

  ghost function WritePlan(s: Store, events: seq<Event>, months: seq<int>, env: Env): (cs: seq<Commit>)
    decreases |months|
  {
    if months == [] then []
    else
      var m := months[|months| - 1];
      WritePlan(s, events, months[..|months| - 1], env) + WritesOf(s, TargetOf(s, m, env), OfMonth(events, m, env), env)
  }

  /** The ids whose group was written. */
  ghost function MovedIds(s: Store, events: seq<Event>, env: Env): (ids: set<nat>) {
    set e | e in events && TargetOf(s, Month(env, e), env) !in env.locked :: e.id
  }

  lemma MonthsNonempty(events: seq<Event>, env: Env)
    ensures forall m | m in Months(events, env) :: OfMonth(events, m, env) != []
  {
    MonthsAre(events, env);
    forall m | m in Months(events, env) ensures OfMonth(events, m, env) != [] {
      var e :| e in events && Month(env, e) == m;
      assert e in OfMonth(events, m, env);
    }
  }

  /** All the commits of a pass that moves `events`; rows in `kept` are owed at delete time. */
  ghost function Plan(s: Store, events: seq<Event>, env: Env, kept: set<nat>): (cs: seq<Commit>) {
    var months := Months(events, env);
    var (seals, ok) := SealPlan(s, months, env);
    if !ok then seals
    else
      var moved := MovedIds(s, events, env);
      seals + WritePlan(s, events, Reached(s, months, env), env)
      + (if moved == {} || !GetsThrough(s, months, env) then [] else [DeleteLive(moved - kept)])
  }

  // ---------------------------------------------------------------- running commits

  ghost function ApplyAll(s: Store, cs: seq<Commit>): (r: Store)
    requires StoreOk(s)
    ensures StoreOk(r)
    decreases |cs|
  {
    if cs == [] then s
    else
      var before := ApplyAll(s, cs[..|cs| - 1]);
      ApplyKeepsOk(before, cs[|cs| - 1]);
      Apply(before, cs[|cs| - 1])
  }

  lemma {:induction false} ApplyAllConcat(s: Store, a: seq<Commit>, b: seq<Commit>)
    requires StoreOk(s)
    ensures ApplyAll(s, a + b) == ApplyAll(ApplyAll(s, a), b)
    decreases |b|
  {
    if b == [] {
      assert a + b == a;
    } else {
      assert (a + b)[..|a + b| - 1] == a + b[..|b| - 1];
      ApplyAllConcat(s, a, b[..|b| - 1]);
    }
  }

  /** What each commit of a pass that discards nothing may rely on when it is made. */
  ghost predicate Pre(s: Store, c: Commit) {
    match c
    case Seal(n) => n in s.buckets
    case CreateFile(n) => IsNew(s, n)
    case DeleteLive(ids) => forall id | id in ids && id in Ids(s.live) :: Covered(s, id)
    case Discard(_) => false
    case _ => c.name in s.buckets && IsLast(s, c.name) && Takes(s.buckets[c.name], s.live, c)
  }

  /** What a statement on the last bucket of its month finds in it. */
  ghost predicate Takes(b: Bucket, live: seq<Event>, c: Commit) {
    match c
    case CreateEvents(_) => b.schema.NoTables?
    case CreateMeta(_) => b == NEW_FILE.(schema := EventsOnly)
    case SetMin(_, _) => b.rows == [] && Open(b)
    case SetMax(_, _) => b.rows == [] && Open(b)
    case InsertRows(_, rows) => !b.schema.NoTables? && !b.sealed && rows != [] && Ids(rows) <= Ids(live)
    case SetRange(_) => Open(b)
    case _ => true
  }

  /** The next bucket of its month: the others come before it and take no more rows. */
  ghost predicate IsNew(s: Store, n: Name) {
    n !in s.buckets && forall b | b in s.buckets && b.month == n.month :: b.suffix < n.suffix && !Open(s.buckets[b])
  }

  /** Every commit of the list finds what it relies on. */
  ghost predicate Ready(s: Store, cs: seq<Commit>)
    requires StoreOk(s)
    decreases |cs|
  {
    cs == [] || (Ready(s, cs[..|cs| - 1]) && Pre(ApplyAll(s, cs[..|cs| - 1]), cs[|cs| - 1]))
  }

  lemma ReadyOneMore(s: Store, cs: seq<Commit>, c: Commit)
    requires StoreOk(s) && Ready(s, cs) && Pre(ApplyAll(s, cs), c)
    ensures Ready(s, cs + [c]) && ApplyAll(s, cs + [c]) == Apply(ApplyAll(s, cs), c)
  {
    assert (cs + [c])[..|cs|] == cs;
  }

  lemma {:induction false} ReadyConcat(s: Store, a: seq<Commit>, b: seq<Commit>)
    requires StoreOk(s) && Ready(s, a) && Ready(ApplyAll(s, a), b)
    ensures Ready(s, a + b)
    decreases |b|
  {
    if b == [] {
      assert a + b == a;
    } else {
      var before, c := b[..|b| - 1], b[|b| - 1];
      assert b == before + [c];
      ReadyConcat(s, a, before);
      ReadyGrown(s, a, before, c);
    }
  }

  lemma ReadyGrown(s: Store, a: seq<Commit>, before: seq<Commit>, c: Commit)
    requires StoreOk(s) && Ready(s, a + before) && Ready(ApplyAll(s, a), before + [c])
    ensures Ready(s, a + (before + [c]))
  {
    ReadyLast(ApplyAll(s, a), before, c);
    ApplyAllConcat(s, a, before);
    ReadyOneMore(s, a + before, c);
    assert a + (before + [c]) == (a + before) + [c];
  }

  lemma ReadyLast(s: Store, before: seq<Commit>, c: Commit)
    requires StoreOk(s) && Ready(s, before + [c])
    ensures Ready(s, before) && Pre(ApplyAll(s, before), c)
  {
    assert (before + [c])[..|before|] == before;
  }

  lemma {:induction false} ReadyPrefix(s: Store, cs: seq<Commit>, k: nat)
    requires StoreOk(s) && Ready(s, cs) && k <= |cs|
    ensures Ready(s, cs[..k])
    decreases |cs|
  {
    if k < |cs| {
      assert cs[..|cs| - 1][..k] == cs[..k];
      ReadyPrefix(s, cs[..|cs| - 1], k);
    } else {
      assert cs[..k] == cs;
    }
  }

  // ---------------------------------------------------------------- what every commit keeps

  ghost predicate Sound(s: Store) {
    StoreOk(s) && OnlyLastOpen(s)
  }

  ghost predicate SealedFixed(s: Store, s': Store) {
    forall n | n in s.buckets && s.buckets[n].sealed :: n in s'.buckets && s'.buckets[n] == s.buckets[n]
  }

  /** A recorded range only grows over the rows it holds. */
  ghost predicate CoverGrows(s: Store, s': Store) {
    forall n, id | CoveredIn(s, n, id) :: CoveredIn(s', n, id)
  }

  ghost predicate SameView(s: Store, s': Store) {
    forall id :: InView(s', id) <==> InView(s, id)
  }

  /** What a run of commits keeps, wherever it is cut. */
  ghost predicate Kept(s: Store, s': Store) {
    && Sound(s') && SameView(s, s') && SealedFixed(s, s') && CoverGrows(s, s')
    && (WarmCovered(s) ==> WarmCovered(s'))
  }

  lemma InsertedRows(s: Store, n: Name, rows: seq<Event>)
    requires StoreOk(s) && Pre(s, InsertRows(n, rows))
    ensures var s' := Apply(s, InsertRows(n, rows));
            && Ids(s'.buckets[n].rows) == Ids(s.buckets[n].rows) + Ids(rows)
            && SameView(s, s')
            && (forall id :: InWarm(s', id) <==> InWarm(s, id) || id in Ids(rows))
  {
    var s' := Apply(s, InsertRows(n, rows));
    assert s'.buckets[n].rows == InsertAll(s.buckets[n].rows, rows);
    forall id ensures InWarm(s', id) <==> InWarm(s, id) || id in Ids(rows) {
      if InWarm(s', id) {
        var b :| b in s'.buckets && id in Ids(s'.buckets[b].rows);
        assert b in s.buckets;
      }
      if InWarm(s, id) {
        var b :| b in s.buckets && id in Ids(s.buckets[b].rows);
        assert b in s'.buckets && id in Ids(s'.buckets[b].rows);
      }
    }
    assert forall id :: InView(s', id) <==> InView(s, id);
  }

  lemma InsertKeeps(s: Store, n: Name, rows: seq<Event>)
    requires Sound(s) && Pre(s, InsertRows(n, rows))
    ensures Kept(s, Apply(s, InsertRows(n, rows)))
  {
    var s' := Apply(s, InsertRows(n, rows));
    InsertedRows(s, n, rows);
    assert CoverGrows(s, s');
    if WarmCovered(s) {
      forall id | InWarm(s', id) && id !in Ids(s'.live) ensures Covered(s', id) {
        assert InWarm(s, id);
        var m :| CoveredIn(s, m, id);
        assert CoveredIn(s', m, id);
      }
    }
  }

  /** Same rows in every bucket. */
  lemma SameRowsSameWarm(s: Store, s': Store)
    requires forall n | n in s.buckets :: n in s'.buckets && s'.buckets[n].rows == s.buckets[n].rows
    requires forall n | n in s'.buckets && n !in s.buckets :: s'.buckets[n].rows == []
    ensures forall id :: InWarm(s', id) <==> InWarm(s, id)
  {
    forall id ensures InWarm(s', id) <==> InWarm(s, id) {
      if InWarm(s', id) {
        var b :| b in s'.buckets && id in Ids(s'.buckets[b].rows);
        assert b in s.buckets && id in Ids(s.buckets[b].rows);
      }
      if InWarm(s, id) {
        var b :| b in s.buckets && id in Ids(s.buckets[b].rows);
        assert b in s'.buckets && id in Ids(s'.buckets[b].rows);
      }
    }
  }

  predicate OnMeta(c: Commit) {
    c.Seal? || c.CreateFile? || c.CreateEvents? || c.CreateMeta? || c.SetMin? || c.SetMax? || c.SetRange?
  }

  lemma BucketCommitKeeps(s: Store, c: Commit)
    requires Sound(s) && Pre(s, c) && OnMeta(c)
    ensures Kept(s, Apply(s, c))
  {
    var s' := Apply(s, c);
    BucketCommitShape(s, c);
    SameRowsSameWarm(s, s');
    BucketCommitCovers(s, c);
    CoveredByGrowth(s, s');
  }

  lemma BucketCommitShape(s: Store, c: Commit)
    requires Sound(s) && Pre(s, c) && OnMeta(c)
    ensures var s' := Apply(s, c);
            && s'.live == s.live
            && (forall n | n in s.buckets :: n in s'.buckets && s'.buckets[n].rows == s.buckets[n].rows)
            && (forall n | n in s'.buckets && n !in s.buckets :: s'.buckets[n].rows == [])
            && SealedFixed(s, s') && OnlyLastOpen(s')
  {
    var s' := Apply(s, c);
    var n := c.name;
    assert forall x | x in s.buckets && x != n :: x in s'.buckets && s'.buckets[x] == s.buckets[x];
    forall a, b | a in s'.buckets && b in s'.buckets && a.month == b.month && a.suffix < b.suffix
      ensures !Open(s'.buckets[a])
    {
      if a != n && b != n { assert !Open(s.buckets[a]); }
    }
  }

  lemma BucketCommitCovers(s: Store, c: Commit)
    requires Sound(s) && Pre(s, c) && OnMeta(c)
    ensures CoverGrows(s, Apply(s, c))
  {
    forall n, id | CoveredIn(s, n, id) ensures CoveredIn(Apply(s, c), n, id) { OneCoverGrows(s, c, n, id); }
  }

  lemma OneCoverGrows(s: Store, c: Commit, n: Name, id: nat)
    requires StoreOk(s) && Pre(s, c) && OnMeta(c) && CoveredIn(s, n, id)
    ensures CoveredIn(Apply(s, c), n, id)
  {
    if n == c.name {
      if c.SetRange? { RangeHolds(s.buckets[n].rows, id); }
    } else {
      assert n in Apply(s, c).buckets && Apply(s, c).buckets[n] == s.buckets[n];
    }
  }

  lemma RangeHolds(rows: seq<Event>, id: nat)
    requires Ascending(rows) && id in Ids(rows)
    ensures rows[0].id <= id <= rows[|rows| - 1].id
  {
    var i :| 0 <= i < |rows| && rows[i].id == id;
  }

  lemma CoveredByGrowth(s: Store, s': Store)
    requires CoverGrows(s, s') && s'.live == s.live && forall id :: InWarm(s', id) <==> InWarm(s, id)
    ensures WarmCovered(s) ==> WarmCovered(s')
    ensures SameView(s, s')
  {
    if WarmCovered(s) {
      forall id | InWarm(s', id) && id !in Ids(s'.live) ensures Covered(s', id) {
        var n :| CoveredIn(s, n, id);
        assert CoveredIn(s', n, id);
      }
    }
    assert forall id :: InView(s', id) <==> InView(s, id);
  }

  lemma DeleteKeeps(s: Store, ids: set<nat>)
    requires Sound(s) && Pre(s, DeleteLive(ids))
    ensures Kept(s, Apply(s, DeleteLive(ids)))
  {
    var s' := Apply(s, DeleteLive(ids));
    DeletedIds(s.live, ids);
    assert s'.live == Where(s.live, (e: Event) => e.id !in ids);
    forall id ensures InWarm(s', id) <==> InWarm(s, id) {}
    forall n, id ensures CoveredIn(s', n, id) <==> CoveredIn(s, n, id) {}
    forall id ensures InView(s', id) <==> InView(s, id) {
      if id in Ids(s.live) && id in ids {
        var n :| CoveredIn(s, n, id);
        assert InWarm(s, id);
      }
    }
    forall id | WarmCovered(s) && InWarm(s', id) && id !in Ids(s'.live) ensures Covered(s', id) {
      var n :| CoveredIn(s, n, id);
      assert CoveredIn(s', n, id);
    }
  }

  lemma DeletedIds(rows: seq<Event>, ids: set<nat>)
    ensures Ids(Where(rows, (e: Event) => e.id !in ids)) == Ids(rows) - ids
  {
  }

  /** Every commit keeps the view of both tiers and the recorded ranges, and writes no sealed bucket. */
  lemma CommitKeeps(s: Store, c: Commit)
    requires Sound(s) && Pre(s, c)
    ensures Kept(s, Apply(s, c))
  {
    match c
    case InsertRows(n, rows) => InsertKeeps(s, n, rows);
    case DeleteLive(ids) => DeleteKeeps(s, ids);
    case _ => BucketCommitKeeps(s, c);
  }

  lemma KeptTransitive(a: Store, b: Store, c: Store)
    requires Kept(a, b) && Kept(b, c)
    ensures Kept(a, c)
  {
    forall n, id | CoveredIn(a, n, id) ensures CoveredIn(c, n, id) { assert CoveredIn(b, n, id); }
    forall id ensures InView(c, id) <==> InView(a, id) { assert InView(b, id) <==> InView(a, id); }
  }

  lemma {:induction false} CommitsKeep(s: Store, cs: seq<Commit>)
    requires Sound(s) && Ready(s, cs)
    ensures Kept(s, ApplyAll(s, cs))
    decreases |cs|
  {
    if cs != [] {
      var n := |cs| - 1;
      CommitsKeep(s, cs[..n]);
      CommitKeeps(ApplyAll(s, cs[..n]), cs[n]);
      KeptTransitive(s, ApplyAll(s, cs[..n]), ApplyAll(s, cs));
    }
  }

  // ---------------------------------------------------------------- a pass is ready

  /** The bucket was closed while choosing a target for one of the months. */
  ghost predicate ClosedFor(s: Store, b: Name, months: seq<int>, env: Env) {
    b.month in months && !Choose(s.buckets, b.month, env).Use? && Choose(s.buckets, b.month, env).latest == b
  }

  /** `r` is `s` with the buckets closed for these months sealed. */
  ghost predicate SealedFor(s: Store, r: Store, months: seq<int>, env: Env) {
    && r.live == s.live && r.buckets.Keys == s.buckets.Keys
    && forall b | b in s.buckets ::
         r.buckets[b] == if ClosedFor(s, b, months, env) then Sealed(s.buckets[b]) else s.buckets[b]
  }

  /** Sealing fails, and is ignored, when there is no `_meta`. */
  function Sealed(b: Bucket): (r: Bucket)
    ensures !Open(r) && r.rows == b.rows && r.schema == b.schema
  {
    if b.schema.Complete? then b.(sealed := true) else b
  }

  lemma ChosenExists(buckets: map<Name, Bucket>, m: int, env: Env)
    ensures match Choose(buckets, m, env)
            case Use(n) => n.month == m && (n in buckets ==> !buckets[n].sealed)
                           && (n in buckets ==> forall b | b in buckets && b.month == m :: b.suffix <= n.suffix)
                           && (n !in buckets ==> forall b | b in buckets :: b.month != m)
            case Rotate(l, n) => l in buckets && l.month == m && n == Name(m, l.suffix + 1)
                                 && forall b | b in buckets && b.month == m :: b.suffix <= l.suffix
            case Exhausted(l) => l in buckets && l.month == m && l.suffix >= LAST_SUFFIX
                                 && forall b | b in buckets && b.month == m :: b.suffix <= l.suffix
  {
    var used := Suffixes(buckets, m);
    forall b | b in buckets && b.month == m ensures b.suffix in used {}
    if used != {} {
      var x := MaxOf(used);
      var b :| b in buckets && b.month == m && b.suffix == x;
      assert b == Name(m, x);
    }
  }

  lemma SealOneMore(s: Store, r: Store, months: seq<int>, m: int, env: Env)
    requires StoreOk(s) && StoreOk(r) && SealedFor(s, r, months, env) && !Choose(s.buckets, m, env).Exhausted?
    ensures Choose(s.buckets, m, env).Use? ==> SealedFor(s, r, months + [m], env)
    ensures Choose(s.buckets, m, env).Rotate? ==>
              SealedFor(s, Apply(r, Seal(Choose(s.buckets, m, env).latest)), months + [m], env)
  {
    ChosenExists(s.buckets, m, env);
    forall b ensures ClosedFor(s, b, months + [m], env)
                <==> ClosedFor(s, b, months, env) || ClosedFor(s, b, [m], env) {}
  }

  lemma {:induction false} SealsReady(s: Store, months: seq<int>, env: Env)
    requires StoreOk(s)
    ensures var (cs, ok) := SealPlan(s, months, env);
            Ready(s, cs) && ApplyAll(s, cs).buckets.Keys == s.buckets.Keys && ApplyAll(s, cs).live == s.live
            && (ok ==> SealedFor(s, ApplyAll(s, cs), months, env))
    decreases |months|
  {
    if months != [] {
      var k := |months| - 1;
      SealsReady(s, months[..k], env);
      ChosenExists(s.buckets, months[k], env);
      var (cs, ok) := SealPlan(s, months[..k], env);
      assert months == months[..k] + [months[k]];
      var choice := Choose(s.buckets, months[k], env);
      if ok {
        if !choice.Use? { ReadyOneMore(s, cs, Seal(choice.latest)); }
        if !choice.Exhausted? { SealOneMore(s, ApplyAll(s, cs), months[..k], months[k], env); }
      }
    }
  }

  /** A bucket that can take the month's next rows. */
  ghost predicate Target(s: Store, m: int, n: Name) {
    && n.month == m
    && if n in s.buckets then !s.buckets[n].sealed && IsLast(s, n) else IsNew(s, n)
  }

  lemma SealedTargets(s: Store, r: Store, months: seq<int>, env: Env, m: int)
    requires Sound(s) && SealedFor(s, r, months, env) && m in months && !Choose(s.buckets, m, env).Exhausted?
    ensures Target(r, m, TargetOf(s, m, env))
  {
    ChosenExists(s.buckets, m, env);
    var n := TargetOf(s, m, env);
    match Choose(s.buckets, m, env)
    case Use(_) =>
    case Rotate(l, _) =>
      assert ClosedFor(s, l, months, env);
      forall b | b in r.buckets && b.month == m ensures b.suffix < n.suffix && !Open(r.buckets[b]) {
        if b != l { assert b.suffix != l.suffix; }
      }
  }

  /** The commits that open a bucket for its first rows. */
  ghost function Opening(n: Name, rows: seq<Event>, isNew: bool): (cs: seq<Commit>)
    requires rows != []
  {
    if isNew then Creation(n) + [SetMin(n, rows[0].id)] + [SetMax(n, rows[|rows| - 1].id)] else []
  }

  /** `new Database(filepath)` and the statements of `db.exec`, each committed on its own. */
  ghost function Creation(n: Name): (cs: seq<Commit>) {
    [CreateFile(n)] + [CreateEvents(n)] + [CreateMeta(n)]
  }

  ghost function GroupCommits(n: Name, rows: seq<Event>, isNew: bool): (cs: seq<Commit>)
    requires rows != []
  {
    Opening(n, rows, isNew) + [InsertRows(n, rows)] + [SetRange(n)]
  }

  ghost predicate Written(s: Store, r: Store, n: Name, rows: seq<Event>) {
    && r.live == s.live
    && (forall b | b != n :: b in r.buckets <==> b in s.buckets)
    && (forall b | b in s.buckets && b != n :: r.buckets[b] == s.buckets[b])
    && (forall id | id in Ids(rows) :: CoveredIn(r, n, id))
  }

  /** The bucket, if it is there, has both its tables. */
  ghost predicate Whole(s: Store, n: Name) {
    n in s.buckets ==> s.buckets[n].schema.Complete?
  }

  /** `createBucket` got as far with the bucket in both. */
  ghost predicate SameSchema(s: Store, r: Store, n: Name) {
    (n in r.buckets <==> n in s.buckets) && (n in s.buckets ==> r.buckets[n].schema == s.buckets[n].schema)
  }

  /** The statements that write one group, in order, by how far the bucket file has got. */
  lemma GroupStatements(buckets: map<Name, Bucket>, n: Name, rows: seq<Event>)
    requires rows != []
    ensures GroupWrites(buckets, n, rows) ==
            if n !in buckets then
              [CreateFile(n), CreateEvents(n), CreateMeta(n), SetMin(n, rows[0].id), SetMax(n, rows[|rows| - 1].id),
               InsertRows(n, rows), SetRange(n)]
            else match buckets[n].schema
                 case NoTables => []
                 case EventsOnly => [InsertRows(n, rows)]
                 case Complete => [InsertRows(n, rows), SetRange(n)]
  {
  }

  /**
   Which bucket a month's rows go to: the bare name when the month has none; its last bucket while that is
   neither sealed nor full; else the next letter, up to the 26th, after sealing it.
   */
  lemma ChoiceExactly(s: Store, m: int, env: Env, l: Name)
    requires l.month == m && (l in s.buckets ==> IsLast(s, l))
    ensures (forall n | n in s.buckets :: n.month != m) ==> Choose(s.buckets, m, env) == Use(Name(m, 0))
    ensures l in s.buckets ==>
              Choose(s.buckets, m, env) ==
                if !s.buckets[l].sealed && l !in env.full then Use(l)
                else if l.suffix < 26 then Rotate(l, Name(m, l.suffix + 1))
                else Exhausted(l)
  {
    if l in s.buckets {
      assert l.suffix in Suffixes(s.buckets, m);
      assert Name(m, MaxOf(Suffixes(s.buckets, m))) in s.buckets;
    }
  }

  /** What writing one group needs, and what it leaves. */
  lemma GroupReady(s: Store, n: Name, rows: seq<Event>, isNew: bool)
    requires Sound(s) && Target(s, n.month, n) && isNew == (n !in s.buckets) && Whole(s, n)
    requires rows != [] && Ids(rows) <= Ids(s.live)
    ensures var cs := GroupCommits(n, rows, isNew);
            Ready(s, cs) && Written(s, ApplyAll(s, cs), n, rows)
  {
    var head := Opening(n, rows, isNew);
    OpeningReady(s, n, rows, isNew);
    CommitsKeep(s, head);
    var s1 := ApplyAll(s, head);
    ReadyOneMore(s, head, InsertRows(n, rows));
    InsertedRows(s1, n, rows);
    InsertKeeps(s1, n, rows);
    var s2 := Apply(s1, InsertRows(n, rows));
    ReadyOneMore(s, head + [InsertRows(n, rows)], SetRange(n));
    RangeCovers(s2, n, rows);
    RowsWritten(s, s1, n, rows);
  }

  lemma RowsWritten(s: Store, s1: Store, n: Name, rows: seq<Event>)
    requires Opened(s, s1, n) && StoreOk(s1)
    ensures var r := Apply(Apply(s1, InsertRows(n, rows)), SetRange(n));
            && r.live == s.live
            && (forall b | b != n :: b in r.buckets <==> b in s.buckets)
            && (forall b | b in s.buckets && b != n :: r.buckets[b] == s.buckets[b])
  {
  }

  /** `r` is `s` with bucket `n` there to be written. */
  ghost predicate Opened(s: Store, r: Store, n: Name) {
    && r.live == s.live && n in r.buckets && Open(r.buckets[n]) && IsLast(r, n)
    && (forall b | b != n :: b in r.buckets <==> b in s.buckets)
    && (forall b | b in s.buckets && b != n :: r.buckets[b] == s.buckets[b])
  }

  lemma OpeningReady(s: Store, n: Name, rows: seq<Event>, isNew: bool)
    requires Sound(s) && Target(s, n.month, n) && isNew == (n !in s.buckets) && Whole(s, n) && rows != []
    ensures Ready(s, Opening(n, rows, isNew)) && Opened(s, ApplyAll(s, Opening(n, rows, isNew)), n)
  {
    if isNew {
      CreationReady(s, n);
      var b, c := SetMin(n, rows[0].id), SetMax(n, rows[|rows| - 1].id);
      BoundsReady(s, n, b.id, c.id);
      ReadyOneMore(s, Creation(n), b);
      ReadyOneMore(s, Creation(n) + [b], c);
    }
  }

  /** The bounds `createBucket` was given, on a bucket it has just made. */
  lemma BoundsReady(s: Store, n: Name, min: nat, max: nat)
    requires StoreOk(s) && IsNew(s, n)
    ensures var s1 := WithBucket(s, n, NEW_FILE.(schema := Complete));
            && StoreOk(s1) && Pre(s1, SetMin(n, min))
            && StoreOk(Apply(s1, SetMin(n, min))) && Pre(Apply(s1, SetMin(n, min)), SetMax(n, max))
            && Opened(s, Apply(Apply(s1, SetMin(n, min)), SetMax(n, max)), n)
  {
    var s1 := WithBucket(s, n, NEW_FILE.(schema := Complete));
    assert Apply(s1, SetMin(n, min)) == WithBucket(s, n, Bucket(Complete, [], Some(min), None, false));
    assert Apply(Apply(s1, SetMin(n, min)), SetMax(n, max))
        == WithBucket(s, n, Bucket(Complete, [], Some(min), Some(max), false));
  }

  function WithBucket(s: Store, n: Name, b: Bucket): (r: Store) {
    s.(buckets := s.buckets[n := b])
  }

  /** The three statements that make a bucket, each on what the one before left. */
  lemma CreationReady(s: Store, n: Name)
    requires StoreOk(s) && IsNew(s, n)
    ensures Ready(s, Creation(n)) && ApplyAll(s, Creation(n)) == WithBucket(s, n, NEW_FILE.(schema := Complete))
  {
    var a, b, c := CreateFile(n), CreateEvents(n), CreateMeta(n);
    assert [] + [a] == [a];
    ReadyOneMore(s, [], a);
    assert Apply(s, a) == WithBucket(s, n, NEW_FILE);
    ReadyOneMore(s, [a], b);
    assert Apply(Apply(s, a), b) == WithBucket(s, n, NEW_FILE.(schema := EventsOnly));
    ReadyOneMore(s, [a] + [b], c);
  }

  /** What a pass writes before an unfinished bucket stops it. */
  lemma StuckReady(s: Store, n: Name, rows: seq<Event>)
    requires Sound(s) && Target(s, n.month, n) && n in s.buckets && !Whole(s, n)
    requires rows != [] && Ids(rows) <= Ids(s.live)
    ensures Ready(s, GroupWrites(s.buckets, n, rows)) && ApplyAll(s, GroupWrites(s.buckets, n, rows)).live == s.live
  {
    if s.buckets[n].schema.EventsOnly? {
      assert [] + [InsertRows(n, rows)] == [InsertRows(n, rows)];
      ReadyOneMore(s, [], InsertRows(n, rows));
    }
  }

  lemma RangeCovers(s: Store, n: Name, rows: seq<Event>)
    requires StoreOk(s) && n in s.buckets && s.buckets[n].schema.Complete?
    requires rows != [] && Ids(rows) <= Ids(s.buckets[n].rows)
    ensures forall id | id in Ids(rows) :: CoveredIn(Apply(s, SetRange(n)), n, id)
  {
    assert rows[0].id in Ids(rows);
    forall id | id in Ids(rows) ensures CoveredIn(Apply(s, SetRange(n)), n, id) {
      RangeHolds(s.buckets[n].rows, id);
    }
  }

  /** Buckets of other months are as they were. */
  ghost predicate OnlyMonths(s: Store, r: Store, months: seq<int>) {
    forall b: Name | b.month !in months ::
      (b in r.buckets <==> b in s.buckets) && (b in s.buckets ==> r.buckets[b] == s.buckets[b])
  }

  /** The rows of these months whose bucket is not locked are in a bucket and in its recorded range. */
  ghost predicate MonthsCovered(s: Store, r: Store, events: seq<Event>, months: seq<int>, env: Env) {
    forall e | e in events && Month(env, e) in months && TargetOf(s, Month(env, e), env) !in env.locked ::
      Covered(r, e.id)
  }

  lemma {:induction false} SealPlanGetsThrough(s: Store, months: seq<int>, env: Env)
    ensures SealPlan(s, months, env).1 <==> forall m | m in months :: !Choose(s.buckets, m, env).Exhausted?
    decreases |months|
  {
    if months != [] {
      var k := |months| - 1;
      SealPlanGetsThrough(s, months[..k], env);
      assert months == months[..k] + [months[k]];
    }
  }

  lemma TargetElsewhere(s: Store, r: Store, m: int, n: Name, done: seq<int>)
    requires Target(s, m, n) && OnlyMonths(s, r, done) && m !in done
    ensures Target(r, m, n) && (n in r.buckets <==> n in s.buckets) && (n in s.buckets ==> r.buckets[n] == s.buckets[n])
  {
  }

  lemma GroupCovers(s: Store, r: Store, r': Store, events: seq<Event>, done: seq<int>, m: int, env: Env)
    requires MonthsCovered(s, r, events, done, env) && CoverGrows(r, r')
    requires TargetOf(s, m, env) !in env.locked ==> forall e | e in events && Month(env, e) == m :: Covered(r', e.id)
    ensures MonthsCovered(s, r', events, done + [m], env)
  {
    forall e | e in events && Month(env, e) in done + [m] && TargetOf(s, Month(env, e), env) !in env.locked
      ensures Covered(r', e.id)
    {
      if Month(env, e) in done {
        var n :| CoveredIn(r, n, e.id);
        assert CoveredIn(r', n, e.id);
      }
    }
  }

  ghost predicate MonthsWritten(s: Store, s1: Store, r: Store, events: seq<Event>, done: seq<int>, env: Env) {
    r.live == s.live && OnlyMonths(s1, r, done) && MonthsCovered(s, r, events, done, env)
  }

  ghost predicate AllTargeted(s: Store, events: seq<Event>, months: seq<int>, env: Env) {
    EachOnce(months) && forall m | m in months :: OfMonth(events, m, env) != [] && !Choose(s.buckets, m, env).Exhausted?
  }

  lemma WritePlanOneMore(s: Store, events: seq<Event>, done: seq<int>, m: int, env: Env)
    ensures WritePlan(s, events, done + [m], env)
         == WritePlan(s, events, done, env) + WritesOf(s, TargetOf(s, m, env), OfMonth(events, m, env), env)
  {
    assert (done + [m])[..|done|] == done;
  }

  ghost predicate WritesAre(s: Store, s1: Store, events: seq<Event>, done: seq<int>, env: Env)
    requires StoreOk(s1)
  {
    var cs := WritePlan(s, events, done, env);
    Ready(s1, cs) && MonthsWritten(s, s1, ApplyAll(s1, cs), events, done, env)
  }

  lemma WritesOneMore(s: Store, s1: Store, events: seq<Event>, all: seq<int>, done: seq<int>, m: int, env: Env)
    requires Sound(s) && Sound(s1) && SealedFor(s, s1, all, env)
    requires Ascending(events) && Ids(events) <= Ids(s.live)
    requires OfMonth(events, m, env) != []
    requires m in all && m !in done && !Choose(s.buckets, m, env).Exhausted? && !Stuck(s, m, env)
    requires WritesAre(s, s1, events, done, env)
    ensures WritesAre(s, s1, events, done + [m], env)
  {
    var before, more := WritePlan(s, events, done, env), WritesOf(s, TargetOf(s, m, env), OfMonth(events, m, env), env);
    CommitsKeep(s1, before);
    WriteOneMonth(s, s1, ApplyAll(s1, before), events, all, done, m, env);
    WritePlanOneMore(s, events, done, m, env);
    ReadyConcat(s1, before, more);
    ApplyAllConcat(s1, before, more);
  }

  lemma {:induction false} WritesReady(s: Store, s1: Store, events: seq<Event>, all: seq<int>, k: nat, env: Env)
    requires Sound(s) && Sound(s1) && SealedFor(s, s1, all, env) && AllTargeted(s, events, all, env)
    requires Ascending(events) && Ids(events) <= Ids(s.live) && k <= FirstStuck(s, all, env)
    ensures WritesAre(s, s1, events, all[..k], env)
  {
    if k > 0 {
      WritesReady(s, s1, events, all, k - 1, env);
      assert all[..k] == all[..k - 1] + [all[k - 1]];
      WritesOneMore(s, s1, events, all, all[..k - 1], all[k - 1], env);
    }
  }

  lemma WriteOneMonth(s: Store, s1: Store, r: Store, events: seq<Event>, all: seq<int>, done: seq<int>, m: int,
                      env: Env)
    requires Sound(s) && Sound(r) && SealedFor(s, s1, all, env)
    requires m in all && m !in done && OfMonth(events, m, env) != [] && !Choose(s.buckets, m, env).Exhausted?
    requires !Stuck(s, m, env)
    requires Ascending(events) && Ids(events) <= Ids(s.live)
    requires MonthsWritten(s, s1, r, events, done, env)
    ensures var cs := WritesOf(s, TargetOf(s, m, env), OfMonth(events, m, env), env);
            Ready(r, cs) && MonthsWritten(s, s1, ApplyAll(r, cs), events, done + [m], env)
  {
    var n, rows := TargetOf(s, m, env), OfMonth(events, m, env);
    SealedTargets(s, s1, all, env, m);
    TargetElsewhere(s1, r, m, n, done);
    var cs := WritesOf(s, n, rows, env);
    var r' := ApplyAll(r, cs);
    if n in env.locked {
      GroupCovers(s, r, r, events, done, m, env);
    } else {
      GroupReady(r, n, rows, n !in s.buckets);
      CommitsKeep(r, cs);
      WrittenAreCovered(r, r', n, events, m, env);
      GroupCovers(s, r, r', events, done, m, env);
    }
  }

  lemma WrittenAreCovered(r: Store, r': Store, n: Name, events: seq<Event>, m: int, env: Env)
    requires Written(r, r', n, OfMonth(events, m, env))
    ensures forall e | e in events && Month(env, e) == m :: Covered(r', e.id)
  {
    forall e | e in events && Month(env, e) == m ensures Covered(r', e.id) {
      assert e in OfMonth(events, m, env);
      assert CoveredIn(r', n, e.id);
    }
  }

  /** The last month a pass gets to may stop it; what was written until then stays. */
  lemma ReachedReady(s: Store, s1: Store, events: seq<Event>, all: seq<int>, env: Env)
    requires Sound(s) && Sound(s1) && SealedFor(s, s1, all, env) && AllTargeted(s, events, all, env)
    requires Ascending(events) && Ids(events) <= Ids(s.live)
    ensures var cs := WritePlan(s, events, Reached(s, all, env), env);
            && Ready(s1, cs) && ApplyAll(s1, cs).live == s.live
            && (FirstStuck(s, all, env) == |all| ==> MonthsCovered(s, ApplyAll(s1, cs), events, all, env))
  {
    var k := FirstStuck(s, all, env);
    WritesReady(s, s1, events, all, k, env);
    ReachedIs(s, all, env);
    if k < |all| { StuckLast(s, s1, events, all, all[..k], all[k], env); }
  }

  lemma ReachedIs(s: Store, months: seq<int>, env: Env)
    ensures var k := FirstStuck(s, months, env);
            && (k == |months| ==> Reached(s, months, env) == months && months[..k] == months)
            && (k < |months| ==> Reached(s, months, env) == months[..k] + [months[k]])
            && (k < |months| && EachOnce(months) ==> months[k] !in months[..k])
  {
  }

  lemma StuckLast(s: Store, s1: Store, events: seq<Event>, all: seq<int>, done: seq<int>, m: int, env: Env)
    requires Sound(s) && Sound(s1) && SealedFor(s, s1, all, env) && WritesAre(s, s1, events, done, env)
    requires m in all && m !in done && OfMonth(events, m, env) != [] && !Choose(s.buckets, m, env).Exhausted?
    requires Stuck(s, m, env) && Ids(events) <= Ids(s.live)
    ensures var cs := WritePlan(s, events, done + [m], env);
            Ready(s1, cs) && ApplyAll(s1, cs).live == s.live
  {
    var before, more := WritePlan(s, events, done, env), WritesOf(s, TargetOf(s, m, env), OfMonth(events, m, env), env);
    WritePlanOneMore(s, events, done, m, env);
    CommitsKeep(s1, before);
    StuckMonth(s, s1, ApplyAll(s1, before), events, all, done, m, env);
    ReadyConcat(s1, before, more);
    ApplyAllConcat(s1, before, more);
  }

  lemma StuckMonth(s: Store, s1: Store, r: Store, events: seq<Event>, all: seq<int>, done: seq<int>, m: int, env: Env)
    requires Sound(s) && Sound(r) && SealedFor(s, s1, all, env) && MonthsWritten(s, s1, r, events, done, env)
    requires m in all && m !in done && OfMonth(events, m, env) != [] && !Choose(s.buckets, m, env).Exhausted?
    requires Stuck(s, m, env) && Ids(events) <= Ids(s.live)
    ensures var cs := WritesOf(s, TargetOf(s, m, env), OfMonth(events, m, env), env);
            && cs == GroupWrites(r.buckets, TargetOf(s, m, env), OfMonth(events, m, env))
            && Ready(r, cs) && ApplyAll(r, cs).live == r.live
  {
    var n, rows := TargetOf(s, m, env), OfMonth(events, m, env);
    SealedTargets(s, s1, all, env, m);
    TargetElsewhere(s1, r, m, n, done);
    StuckReady(r, n, rows);
  }

  /** Every commit of a pass finds what it relies on. */
  lemma PlanReady(s: Store, events: seq<Event>, env: Env, kept: set<nat>)
    requires Sound(s) && Ascending(events) && Ids(events) <= Ids(s.live)
    ensures Ready(s, Plan(s, events, env, kept))
    ensures var gone := if GetsThrough(s, Months(events, env), env) then MovedIds(s, events, env) - kept else {};
            ApplyAll(s, Plan(s, events, env, kept)).live == Where(s.live, (e: Event) => e.id !in gone)
  {
    MonthsNonempty(events, env);
    MonthsAre(events, env);
    var months := Months(events, env);
    SealsReady(s, months, env);
    SealPlanGetsThrough(s, months, env);
    var gone := if GetsThrough(s, months, env) then MovedIds(s, events, env) - kept else {};
    if SealPlan(s, months, env).1 {
      WholeReady(s, events, months, env);
      LastCommit(s, events, env, kept);
    }
    if gone == {} { SameRows(s.live, Where(s.live, (e: Event) => e.id !in gone)); }
  }

  /** The delete, when the pass gets that far. */
  lemma LastCommit(s: Store, events: seq<Event>, env: Env, kept: set<nat>)
    requires StoreOk(s) && SealPlan(s, Months(events, env), env).1
    requires var months := Months(events, env);
             var cs := SealPlan(s, months, env).0 + WritePlan(s, events, Reached(s, months, env), env);
             && Ready(s, cs) && ApplyAll(s, cs).live == s.live
             && (FirstStuck(s, months, env) == |months| ==> MonthsCovered(s, ApplyAll(s, cs), events, months, env))
    ensures Ready(s, Plan(s, events, env, kept))
    ensures var gone := if GetsThrough(s, Months(events, env), env) then MovedIds(s, events, env) - kept else {};
            ApplyAll(s, Plan(s, events, env, kept)).live
              == if gone == {} then s.live else Where(s.live, (e: Event) => e.id !in gone)
  {
    var months, moved := Months(events, env), MovedIds(s, events, env);
    var cs := SealPlan(s, months, env).0 + WritePlan(s, events, Reached(s, months, env), env);
    if moved != {} && GetsThrough(s, months, env) {
      MovedCovered(s, ApplyAll(s, cs), events, env, kept);
      ReadyOneMore(s, cs, DeleteLive(moved - kept));
      if moved - kept == {} { SameRows(s.live, Where(s.live, (e: Event) => e.id !in moved - kept)); }
    } else {
      assert cs + [] == cs;
    }
  }

  /** The seals and the writes of a pass that finds a bucket name for every month. */
  lemma WholeReady(s: Store, events: seq<Event>, months: seq<int>, env: Env)
    requires Sound(s) && Ascending(events) && Ids(events) <= Ids(s.live)
    requires SealPlan(s, months, env).1 && AllTargeted(s, events, months, env)
    ensures var cs := SealPlan(s, months, env).0 + WritePlan(s, events, Reached(s, months, env), env);
            && Ready(s, cs) && ApplyAll(s, cs).live == s.live
            && (FirstStuck(s, months, env) == |months| ==> MonthsCovered(s, ApplyAll(s, cs), events, months, env))
  {
    var seals, writes := SealPlan(s, months, env).0, WritePlan(s, events, Reached(s, months, env), env);
    SealsReady(s, months, env);
    var s1 := ApplyAll(s, seals);
    CommitsKeep(s, seals);
    ReachedReady(s, s1, events, months, env);
    ReadyConcat(s, seals, writes);
    ApplyAllConcat(s, seals, writes);
  }

  lemma MovedCovered(s: Store, r: Store, events: seq<Event>, env: Env, kept: set<nat>)
    requires StoreOk(s) && r.live == s.live && MonthsCovered(s, r, events, Months(events, env), env)
    ensures Pre(r, DeleteLive(MovedIds(s, events, env) - kept))
  {
    MonthsAre(events, env);
    forall id | id in MovedIds(s, events, env) - kept && id in Ids(r.live) ensures Covered(r, id) {
      var x :| x in events && TargetOf(s, Month(env, x), env) !in env.locked && x.id == id;
      assert Covered(r, x.id);
    }
  }

  /**
   Crash safety: a pass cut after any number of its commits has changed nothing of what the two tiers
   hold together, has written no sealed bucket, leaves only the last bucket of a month open, and every
   row it took from the live table lies in a bucket within its recorded range.
   */
  lemma CrashSafe(s: Store, events: seq<Event>, env: Env, kept: set<nat>, cut: nat)
    requires Sound(s) && Ascending(events) && Ids(events) <= Ids(s.live)
    requires cut <= |Plan(s, events, env, kept)|
    ensures Kept(s, ApplyAll(s, Plan(s, events, env, kept)[..cut]))
  {
    PlanReady(s, events, env, kept);
    ReadyPrefix(s, Plan(s, events, env, kept), cut);
    CommitsKeep(s, Plan(s, events, env, kept)[..cut]);
  }

  // ---------------------------------------------------------------- the 'discard' policy

  lemma DiscardKeeps(s: Store, ids: set<nat>)
    requires Sound(s)
    ensures var r := Apply(s, Discard(ids));
            && Sound(r) && SealedFixed(s, r) && CoverGrows(s, r)
            && (forall id :: InView(r, id) <==> InView(s, id) && !(id in ids && !InWarm(s, id)))
  {
    var r := Apply(s, Discard(ids));
    DeletedIds(s.live, ids);
    forall id ensures InWarm(r, id) <==> InWarm(s, id) {}
    forall id ensures InView(r, id) <==> InView(s, id) && !(id in ids && !InWarm(s, id)) {}
  }

  /** Under 'discard' a cut pass has lost exactly the discarded events that had no warm copy. */
  lemma CrashSafeDiscard(s: Store, ids: set<nat>, events: seq<Event>, env: Env, cut: nat)
    requires Sound(s) && Ascending(events) && Ids(events) <= Ids(s.live) - ids
    requires cut <= |Plan(Apply(s, Discard(ids)), events, env, {})|
    ensures var d := Apply(s, Discard(ids));
            var r := ApplyAll(d, Plan(d, events, env, {})[..cut]);
            && Sound(r) && SealedFixed(s, r) && CoverGrows(s, r)
            && (forall id :: InView(r, id) <==> InView(s, id) && !(id in ids && !InWarm(s, id)))
  {
    var d := Apply(s, Discard(ids));
    DiscardKeeps(s, ids);
    DeletedIds(s.live, ids);
    CrashSafe(d, events, env, {}, cut);
    var r := ApplyAll(d, Plan(d, events, env, {})[..cut]);
    forall n, id | CoveredIn(s, n, id) ensures CoveredIn(r, n, id) { assert CoveredIn(d, n, id); }
  }
}
