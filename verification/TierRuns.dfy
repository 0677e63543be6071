/**
 Runs of the two tiers: emits, released keys, and tiered passes that are committed one step at a time and
 may crash between any two steps.
 */
module TierRuns {
  import opened Events
  import opened Wrappers
  import opened Archive
  import opened SweepV2
  import Batches

  /**
   The two tiers, the commits the current pass has still to make, the next event id, and every event as it
   was emitted.
   */
  datatype Tier = Tier(s: Store, pending: seq<Commit>, nextId: nat, emitted: map<nat, Event>)

  datatype Act =
    | Append(e: Event)
    | Release(id: nat, key: string)   // a reused key: its holder is renamed, where it is still live
    | Begin(events: seq<Event>, env: Env, kept: set<nat>)   // a pass picks its rows
    | Next                                                  // it makes its next commit
    | Crash

  ghost predicate Enabled(t: Tier, a: Act) {
    match a
    case Append(e) => e.id == t.nextId
    case Release(_, _) => true
    case Begin(events, _, _) => t.pending == [] && Ascending(events) && forall e | e in events :: e in t.s.live
    case Next => t.pending != []
    case Crash => true
  }

  ghost function Step(t: Tier, a: Act): (r: Tier)
    requires StoreOk(t.s) && Enabled(t, a)
  {
    match a
    case Append(e) => t.(s := Appended(t.s, e), nextId := t.nextId + 1, emitted := t.emitted[e.id := e])
    case Release(id, key) => t.(s := Renamed(t.s, id, key))
    case Begin(events, env, kept) => t.(pending := Plan(t.s, events, env, kept))
    case Next => t.(s := Apply(t.s, t.pending[0]), pending := t.pending[1..])
    case Crash => t.(pending := [])
  }

  function Appended(s: Store, e: Event): (r: Store) {
    s.(live := s.live + [e])
  }

  function Renamed(s: Store, id: nat, key: string): (r: Store) {
    s.(live := WithKey(s.live, id, key))
  }

  ghost predicate Inv(t: Tier) {
    && Sound(t.s) && WarmCovered(t.s) && Ready(t.s, t.pending)
    && (forall id: nat | InView(t.s, id) :: id < t.nextId)
    && DeletesBelow(t.pending, t.nextId)
    && AllCopies(t)
  }

  /** A pass never deletes an id that was not there when it began. */
  ghost predicate DeletesBelow(cs: seq<Commit>, n: nat) {
    forall c, id | c in cs && c.DeleteLive? && id in c.ids :: id < n
  }

  /** The row is an event as it was emitted, up to its key. */
  ghost predicate IsCopy(e: Event, emitted: map<nat, Event>) {
    e.id in emitted && Bare(e) == Bare(emitted[e.id])
  }

  ghost predicate Copies(s: Store, emitted: map<nat, Event>) {
    forall e | Holds(s, e) :: IsCopy(e, emitted)
  }

  ghost predicate CopiesTo(cs: seq<Commit>, emitted: map<nat, Event>) {
    forall c, e | c in cs && c.InsertRows? && e in c.rows :: IsCopy(e, emitted)
  }

  /** Every row of a tier or of a pass under way is a copy of what was emitted. */
  ghost predicate AllCopies(t: Tier) {
    && Copies(t.s, t.emitted) && CopiesTo(t.pending, t.emitted)
    && (forall id | id in t.emitted :: id < t.nextId)
  }

  // ---------------------------------------------------------------- appending and renaming meanwhile

  lemma AppendKeepsCover(s: Store, e: Event)
    ensures forall id :: Covered(Appended(s, e), id) <==> Covered(s, id)
  {
    forall n, id ensures CoveredIn(Appended(s, e), n, id) <==> CoveredIn(s, n, id) {}
    forall id ensures Covered(Appended(s, e), id) <==> Covered(s, id) {
      if Covered(s, id) {
        var n :| CoveredIn(s, n, id);
        assert CoveredIn(Appended(s, e), n, id);
      }
    }
  }

  lemma AppendedIds(s: Store, e: Event)
    ensures Ids(Appended(s, e).live) == Ids(s.live) + {e.id}
  {
    assert forall x :: x in s.live + [e] <==> x in s.live || x == e;
  }

  lemma AppendCommutes(s: Store, c: Commit, e: Event)
    requires StoreOk(s) && StoreOk(Appended(s, e)) && Pre(s, c)
    requires c.DeleteLive? ==> e.id !in c.ids
    ensures Pre(Appended(s, e), c) && Apply(Appended(s, e), c) == Appended(Apply(s, c), e)
  {
    AppendedIds(s, e);
    if c.DeleteLive? { AppendDeletes(s, c.ids, e); }
  }

  lemma AppendDeletes(s: Store, ids: set<nat>, e: Event)
    requires StoreOk(s) && StoreOk(Appended(s, e)) && Pre(s, DeleteLive(ids)) && e.id !in ids
    ensures Pre(Appended(s, e), DeleteLive(ids))
    ensures Apply(Appended(s, e), DeleteLive(ids)) == Appended(Apply(s, DeleteLive(ids)), e)
  {
    AppendKeepsCover(s, e);
    AppendedIds(s, e);
    WhereAppended(s.live, ids, e);
  }

  lemma WhereAppended(rows: seq<Event>, ids: set<nat>, e: Event)
    requires e.id !in ids
    ensures Where(rows + [e], (x: Event) => x.id !in ids) == Where(rows, (x: Event) => x.id !in ids) + [e]
  {
    Batches.WhereConcat(rows, [e], (x: Event) => x.id !in ids);
  }

  lemma {:induction false} AppendKeepsReady(s: Store, cs: seq<Commit>, e: Event)
    requires StoreOk(s) && StoreOk(Appended(s, e)) && Ready(s, cs) && DeletesBelow(cs, e.id)
    ensures Ready(Appended(s, e), cs) && ApplyAll(Appended(s, e), cs) == Appended(ApplyAll(s, cs), e)
    decreases |cs|
  {
    if cs != [] {
      var k := |cs| - 1;
      AppendKeepsReady(s, cs[..k], e);
      AppendCommutes(ApplyAll(s, cs[..k]), cs[k], e);
    }
  }

  /** Renaming changes no id, and so nothing a commit relies on. */
  lemma RenameKeepsCover(s: Store, id: nat, key: string)
    ensures forall n, x :: CoveredIn(Renamed(s, id, key), n, x) <==> CoveredIn(s, n, x)
    ensures forall x :: Covered(Renamed(s, id, key), x) <==> Covered(s, x)
    ensures forall x :: InWarm(Renamed(s, id, key), x) <==> InWarm(s, x)
    ensures SameView(s, Renamed(s, id, key))
  {
    var r := Renamed(s, id, key);
    WithKeysIds(s.live, map[id := key]);
    forall n, x ensures CoveredIn(r, n, x) <==> CoveredIn(s, n, x) {}
    forall x ensures Covered(r, x) <==> Covered(s, x) {
      if Covered(s, x) {
        var n :| CoveredIn(s, n, x);
        assert CoveredIn(r, n, x);
      }
    }
    forall x ensures InWarm(r, x) <==> InWarm(s, x) {}
    forall x ensures InView(r, x) <==> InView(s, x) {}
  }

  lemma WithKeyCons(e: Event, rest: seq<Event>, id: nat, key: string)
    ensures WithKey([e] + rest, id, key) == WithKey([e], id, key) + WithKey(rest, id, key)
  {
  }

  lemma {:induction false} RenameDeletes(rows: seq<Event>, ids: set<nat>, id: nat, key: string)
    ensures Where(WithKey(rows, id, key), (e: Event) => e.id !in ids)
         == WithKey(Where(rows, (e: Event) => e.id !in ids), id, key)
    decreases |rows|
  {
    if rows != [] {
      var renamed := WithKey(rows, id, key);
      assert renamed[1..] == WithKey(rows[1..], id, key);
      RenameDeletes(rows[1..], ids, id, key);
      WithKeyCons(rows[0], Where(rows[1..], (e: Event) => e.id !in ids), id, key);
      assert WithKey([rows[0]], id, key) == [renamed[0]];
    }
  }

  lemma RenameCommutes(s: Store, c: Commit, id: nat, key: string)
    requires StoreOk(s) && StoreOk(Renamed(s, id, key)) && Pre(s, c)
    ensures Pre(Renamed(s, id, key), c) && Apply(Renamed(s, id, key), c) == Renamed(Apply(s, c), id, key)
  {
    WithKeysIds(s.live, map[id := key]);
    RenameKeepsCover(s, id, key);
    if c.DeleteLive? { RenameDeletes(s.live, c.ids, id, key); }
  }

  lemma {:induction false} RenameKeepsReady(s: Store, cs: seq<Commit>, id: nat, key: string)
    requires StoreOk(s) && StoreOk(Renamed(s, id, key)) && Ready(s, cs)
    ensures Ready(Renamed(s, id, key), cs)
    ensures ApplyAll(Renamed(s, id, key), cs) == Renamed(ApplyAll(s, cs), id, key)
    decreases |cs|
  {
    if cs != [] {
      var k := |cs| - 1;
      RenameKeepsReady(s, cs[..k], id, key);
      RenameCommutes(ApplyAll(s, cs[..k]), cs[k], id, key);
    }
  }

  lemma {:induction false} ReadyTail(s: Store, cs: seq<Commit>)
    requires StoreOk(s) && Ready(s, cs) && cs != []
    ensures Pre(s, cs[0]) && StoreOk(Apply(s, cs[0])) && Ready(Apply(s, cs[0]), cs[1..])
    ensures ApplyAll(Apply(s, cs[0]), cs[1..]) == ApplyAll(s, cs)
    decreases |cs|
  {
    var k := |cs| - 1;
    ApplyKeepsOk(s, cs[0]);
    if k == 0 {
      assert cs[..0] == [];
    } else {
      ReadyTail(s, cs[..k]);
      assert cs[..k][1..] == cs[1..][..k - 1] && cs[1..][k - 1] == cs[k];
    }
  }

  // ---------------------------------------------------------------- what every run keeps

  /** What one step, and so a run of them, may change: what the tiers hold grows by what was appended. */
  ghost predicate Grown(a: Tier, b: Tier, more: seq<Event>) {
    && SealedFixed(a.s, b.s) && CoverGrows(a.s, b.s)
    && (forall id :: InView(b.s, id) <==> InView(a.s, id) || id in Ids(more))
    && (forall id | id in a.emitted :: id in b.emitted && b.emitted[id] == a.emitted[id])
    && (forall e | e in more :: e.id in b.emitted && b.emitted[e.id] == e)
  }

  function AppendedBy(acts: seq<Act>): (es: seq<Event>) {
    if acts == [] then []
    else AppendedBy(acts[..|acts| - 1]) + AppendedIn(acts[|acts| - 1])
  }

  function AppendedIn(a: Act): (es: seq<Event>) {
    if a.Append? then [a.e] else []
  }

  lemma AppendKeepsStore(s: Store, e: Event)
    requires Sound(s) && WarmCovered(s) && forall id: nat | InView(s, id) :: id < e.id
    ensures var r := Appended(s, e);
            && Sound(r) && WarmCovered(r) && SealedFixed(s, r) && CoverGrows(s, r)
            && (forall id :: InView(r, id) <==> InView(s, id) || id == e.id)
  {
    var r := Appended(s, e);
    AppendedIds(s, e);
    AppendKeepsCover(s, e);
    forall id ensures InWarm(r, id) <==> InWarm(s, id) {}
    forall id ensures InView(r, id) <==> InView(s, id) || id == e.id {}
    forall x | x in s.live ensures x.id < e.id { assert InView(s, x.id); }
  }

  lemma AppendKeepsCopies(t: Tier, e: Event)
    requires StoreOk(t.s) && AllCopies(t) && e.id == t.nextId
    ensures AllCopies(Step(t, Append(e)))
  {
    var r := Step(t, Append(e));
    forall x | Holds(r.s, x) ensures IsCopy(x, r.emitted) {
      if x != e { assert Holds(t.s, x); }
    }
    forall c, x | c in r.pending && c.InsertRows? && x in c.rows ensures IsCopy(x, r.emitted) {
      assert IsCopy(x, t.emitted);
    }
  }

  lemma AppendKeeps(t: Tier, e: Event)
    requires Inv(t) && Enabled(t, Append(e))
    ensures Inv(Step(t, Append(e))) && Grown(t, Step(t, Append(e)), [e])
  {
    AppendKeepsStore(t.s, e);
    AppendKeepsReady(t.s, t.pending, e);
    AppendKeepsCopies(t, e);
  }

  lemma ReleaseKeepsCopies(t: Tier, id: nat, key: string)
    requires StoreOk(t.s) && AllCopies(t)
    ensures AllCopies(Step(t, Release(id, key)))
  {
    var r := Step(t, Release(id, key));
    forall x | Holds(r.s, x) ensures IsCopy(x, r.emitted) {
      if x in r.s.live {
        var i :| 0 <= i < |r.s.live| && r.s.live[i] == x;
        assert t.s.live[i] in t.s.live;
        assert Holds(t.s, t.s.live[i]) && Bare(x) == Bare(t.s.live[i]);
      } else {
        assert Holds(t.s, x);
      }
    }
  }

  lemma ReleaseKeeps(t: Tier, id: nat, key: string)
    requires Inv(t)
    ensures Inv(Step(t, Release(id, key))) && Grown(t, Step(t, Release(id, key)), [])
  {
    WithKeysIds(t.s.live, map[id := key]);
    RenameKeepsCover(t.s, id, key);
    RenameKeepsReady(t.s, t.pending, id, key);
    ReleaseKeepsCopies(t, id, key);
  }

  lemma NextKeepsCopies(t: Tier)
    requires StoreOk(t.s) && AllCopies(t) && t.pending != []
    ensures AllCopies(Step(t, Next))
  {
    var r, c := Step(t, Next), t.pending[0];
    forall e | Holds(r.s, e) ensures IsCopy(e, r.emitted) { AppliedRow(t.s, c, e); }
    forall x, e | x in r.pending && x.InsertRows? && e in x.rows ensures IsCopy(e, r.emitted) {
      assert x in t.pending;
    }
  }

  /** A row after a commit was there before, or is one the commit inserts. */
  lemma AppliedRow(s: Store, c: Commit, e: Event)
    requires StoreOk(s) && Holds(Apply(s, c), e)
    ensures Holds(s, e) || (c.InsertRows? && e in c.rows)
  {
    var r := Apply(s, c);
    if e !in r.live {
      var n :| n in r.buckets && e in r.buckets[n].rows;
      assert !(c.InsertRows? && e in c.rows) ==> n in s.buckets && e in s.buckets[n].rows;
    }
  }

  lemma NextKeeps(t: Tier)
    requires Inv(t) && Enabled(t, Next)
    ensures Inv(Step(t, Next)) && Grown(t, Step(t, Next), [])
  {
    ReadyTail(t.s, t.pending);
    CommitKeeps(t.s, t.pending[0]);
    NextKeepsCopies(t);
    var r := Step(t, Next);
    forall id: nat | InView(r.s, id) ensures id < r.nextId { assert InView(t.s, id); }
    forall c, id | c in r.pending && c.DeleteLive? && id in c.ids ensures id < r.nextId { assert c in t.pending; }
  }

  lemma BeginKeeps(t: Tier, events: seq<Event>, env: Env, kept: set<nat>)
    requires Inv(t) && Enabled(t, Begin(events, env, kept))
    ensures Inv(Step(t, Begin(events, env, kept))) && Grown(t, Step(t, Begin(events, env, kept)), [])
  {
    PlanReady(t.s, events, env, kept);
    forall c | c in Plan(t.s, events, env, kept)
      ensures c.DeleteLive? ==> forall id | id in c.ids :: id < t.nextId
      ensures c.InsertRows? ==> forall e | e in c.rows :: IsCopy(e, t.emitted)
    {
      PlanUsesEvents(t.s, events, env, kept, c);
      forall e | e in events ensures e.id < t.nextId && IsCopy(e, t.emitted) {
        assert InView(t.s, e.id) && Holds(t.s, e);
      }
    }
  }

  lemma {:induction false} SealsOnly(s: Store, months: seq<int>, env: Env)
    ensures forall c | c in SealPlan(s, months, env).0 :: c.Seal?
    decreases |months|
  {
    if months != [] { SealsOnly(s, months[..|months| - 1], env); }
  }

  lemma {:induction false} WritesOnly(s: Store, events: seq<Event>, months: seq<int>, env: Env)
    ensures forall c | c in WritePlan(s, events, months, env) :: !c.DeleteLive? && !c.Discard? && !c.Seal?
    ensures forall c, e | c in WritePlan(s, events, months, env) && c.InsertRows? && e in c.rows :: e in events
    ensures forall c | c in WritePlan(s, events, months, env) :: CreatesNew(s, c)
    decreases |months|
  {
    if months != [] {
      var m := months[|months| - 1];
      WritesOnly(s, events, months[..|months| - 1], env);
      GroupOnly(s, TargetOf(s, m, env), OfMonth(events, m, env), env);
    }
  }

  lemma GroupOnly(s: Store, n: Name, rows: seq<Event>, env: Env)
    ensures forall c | c in WritesOf(s, n, rows, env) :: !c.DeleteLive? && !c.Discard? && !c.Seal?
    ensures forall c | c in WritesOf(s, n, rows, env) && c.InsertRows? :: c.rows == rows
    ensures forall c | c in WritesOf(s, n, rows, env) :: CreatesNew(s, c)
  {
  }

  /** Tables are made only in a file that was not there. */
  ghost predicate CreatesNew(s: Store, c: Commit) {
    c.CreateEvents? || c.CreateMeta? ==> c.name !in s.buckets
  }

  /** The one delete of a pass takes ids of its own rows, and not those it must keep; it inserts only its own rows. */
  lemma PlanUsesEvents(s: Store, events: seq<Event>, env: Env, kept: set<nat>, c: Commit)
    requires c in Plan(s, events, env, kept)
    ensures c.DeleteLive? ==> c.ids <= Ids(events) && c.ids !! kept
    ensures c.InsertRows? ==> forall e | e in c.rows :: e in events
  {
    SealsOnly(s, Months(events, env), env);
    WritesOnly(s, events, Reached(s, Months(events, env), env), env);
  }

  /** No pass finishes a bucket that it found unfinished, wherever the pass is cut. */
  lemma {:induction false} UnfinishedStays(s: Store, rows: seq<Event>, env: Env, kept: set<nat>, cut: nat, n: Name)
    requires StoreOk(s) && n in s.buckets && cut <= |Plan(s, rows, env, kept)|
    ensures var r := ApplyAll(s, Plan(s, rows, env, kept)[..cut]);
            n in r.buckets && r.buckets[n].schema == s.buckets[n].schema
    decreases cut
  {
    var plan := Plan(s, rows, env, kept);
    if cut > 0 {
      UnfinishedStays(s, rows, env, kept, cut - 1, n);
      assert plan[..cut][..cut - 1] == plan[..cut - 1];
      CreatesOnlyNew(s, rows, env, kept, plan[cut - 1]);
      SchemaStays(ApplyAll(s, plan[..cut - 1]), plan[cut - 1], n);
    }
  }

  lemma SchemaStays(s: Store, c: Commit, n: Name)
    requires StoreOk(s) && n in s.buckets && (c.CreateEvents? || c.CreateMeta? ==> c.name != n)
    ensures n in Apply(s, c).buckets && Apply(s, c).buckets[n].schema == s.buckets[n].schema
  {
  }

  lemma CreatesOnlyNew(s: Store, rows: seq<Event>, env: Env, kept: set<nat>, c: Commit)
    requires c in Plan(s, rows, env, kept)
    ensures CreatesNew(s, c)
  {
    SealsOnly(s, Months(rows, env), env);
    WritesOnly(s, rows, Reached(s, Months(rows, env), env), env);
  }

  lemma StepKeeps(t: Tier, a: Act)
    requires Inv(t) && Enabled(t, a)
    ensures Inv(Step(t, a)) && Grown(t, Step(t, a), AppendedIn(a))
  {
    match a
    case Append(e) => AppendKeeps(t, e);
    case Release(id, key) => ReleaseKeeps(t, id, key);
    case Begin(events, env, kept) => BeginKeeps(t, events, env, kept);
    case Next => NextKeeps(t);
    case Crash =>
  }

  ghost predicate CanRun(t: Tier, acts: seq<Act>)
    requires Inv(t)
    decreases |acts|, 0
  {
    acts == [] ||
    (CanRun(t, acts[..|acts| - 1]) && Enabled(After(t, acts[..|acts| - 1]), acts[|acts| - 1]))
  }

  ghost function After(t: Tier, acts: seq<Act>): (r: Tier)
    requires Inv(t) && CanRun(t, acts)
    ensures Inv(r)
    decreases |acts|, 1
  {
    if acts == [] then t
    else
      var before := After(t, acts[..|acts| - 1]);
      StepKeeps(before, acts[|acts| - 1]);
      Step(before, acts[|acts| - 1])
  }

  /**
   Every run, from any state it may have reached: the tiers together hold the events they held before and
   those emitted since, and every copy of one is the row as it was emitted, up to a released key; sealed
   buckets are not written again; only the last bucket of a month is open; and every event that left the
   live table lies in a bucket within its recorded range.
   */
  lemma {:induction false} RunKeeps(t: Tier, acts: seq<Act>)
    requires Inv(t) && CanRun(t, acts)
    ensures var r := After(t, acts);
            && Sound(r.s) && WarmCovered(r.s) && Grown(t, r, AppendedBy(acts))
            && (forall e | Holds(r.s, e) :: IsCopy(e, r.emitted))
    decreases |acts|
  {
    if acts != [] {
      var k := |acts| - 1;
      RunKeeps(t, acts[..k]);
      var b := After(t, acts[..k]);
      StepKeeps(b, acts[k]);
      GrownTransitive(t, b, After(t, acts), AppendedBy(acts[..k]), AppendedIn(acts[k]));
    }
  }

  lemma GrownTransitive(a: Tier, b: Tier, c: Tier, first: seq<Event>, second: seq<Event>)
    requires Grown(a, b, first) && Grown(b, c, second)
    ensures Grown(a, c, first + second)
  {
    forall n, id | CoveredIn(a.s, n, id) ensures CoveredIn(c.s, n, id) { assert CoveredIn(b.s, n, id); }
    assert Ids(first + second) == Ids(first) + Ids(second) by {
      assert forall e :: e in first + second <==> e in first || e in second;
    }
    forall id ensures InView(c.s, id) <==> InView(a.s, id) || id in Ids(first + second) {
      assert InView(b.s, id) <==> InView(a.s, id) || id in Ids(first);
    }
  }

  function Empty(): Tier {
    Tier(Store([], map[]), [], 1, map[])
  }

  /** From an empty bus: the enumeration of buckets never misses an event that left the live table. */
  lemma EnumerationIsComplete(acts: seq<Act>, e: Event, gapStart: int, gapEnd: int)
    requires Inv(Empty()) && CanRun(Empty(), acts)
    requires e in AppendedBy(acts) && e.id !in Ids(After(Empty(), acts).s.live)
    requires gapStart <= e.id <= gapEnd && e.id <= MAX_SAFE_INTEGER
    ensures var s := After(Empty(), acts).s;
            exists n, x | n in s.buckets && x in s.buckets[n].rows ::
              Covers(s.buckets[n], gapStart, gapEnd) && Bare(x) == Bare(e)
  {
    RunKeeps(Empty(), acts);
    var r := After(Empty(), acts);
    assert InView(r.s, e.id);
    NeededBucketIsListed(r.s, e.id, gapStart, gapEnd);
    var n :| n in r.s.buckets && e.id in Ids(r.s.buckets[n].rows) && Covers(r.s.buckets[n], gapStart, gapEnd);
    var x :| x in r.s.buckets[n].rows && x.id == e.id;
    assert Holds(r.s, x);
  }

  lemma EmptyIsSound()
    ensures Inv(Empty())
  {
    forall id ensures !InView(Empty().s, id) {}
  }
}
