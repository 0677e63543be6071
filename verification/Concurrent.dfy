/**
 Several tiered passes at once, in any number of processes (lib/sweep-v2.js): what every interleaving of their
 statements keeps, and two interleavings that show what is not kept.
 */
module Concurrent {
  import opened Wrappers
  import opened Events
  import opened Archive
  import opened SweepV2
  import opened TierRuns
  import opened PagingGaps
  import Query

  /** The rows a pass picked, and the ids it has put into a bucket so far. */
  datatype Pass = Pass(rows: seq<Event>, put: set<nat>)

  datatype Bus = Bus(s: Store, passes: map<nat, Pass>)

  /** One statement of a pass at a time, on whatever the others have left. */
  datatype Turn =
    | Emit(e: Event)
    | Rename(id: nat, key: string)
    | Pick(p: nat, rows: seq<Event>)
    | Do(p: nat, c: Commit)
    | End(p: nat)

  /**
   A pass inserts only rows it picked, anywhere, and deletes only ids it has put into a bucket; which buckets
   it creates, bounds and seals, and when, is left open.
   */
  ghost predicate Allowed(b: Bus, t: Turn) {
    match t
    case Emit(e) => forall id: nat | InView(b.s, id) :: id < e.id
    case Rename(_, _) => true
    case Pick(p, rows) => p !in b.passes && forall e | e in rows :: e in b.s.live
    case Do(p, c) => p in b.passes && MayDo(b.passes[p], c)
    case End(p) => true
  }

  ghost predicate MayDo(p: Pass, c: Commit) {
    match c
    case InsertRows(_, rows) => forall e | e in rows :: e in p.rows
    case DeleteLive(ids) => ids <= p.put
    case Discard(_) => false
    case _ => true
  }

  ghost function Took(b: Bus, t: Turn): (r: Bus)
    requires StoreOk(b.s) && Allowed(b, t)
  {
    match t
    case Emit(e) => b.(s := Appended(b.s, e))
    case Rename(id, key) => b.(s := Renamed(b.s, id, key))
    case Pick(p, rows) => b.(passes := b.passes[p := Pass(rows, {})])
    case Do(p, c) => Bus(Apply(b.s, c), b.passes[p := b.passes[p].(put := b.passes[p].put + PutBy(b.s, c))])
    case End(p) => b.(passes := b.passes - {p})
  }

  /** The ids a statement puts into a bucket; inserting fails where there is no `events` table. */
  ghost function PutBy(s: Store, c: Commit): (ids: set<nat>) {
    if c.InsertRows? && c.name in s.buckets && !s.buckets[c.name].schema.NoTables? then Ids(c.rows) else {}
  }

  /** What a pass put into a bucket is in one, and what it picked is in some tier. */
  ghost predicate PassOk(s: Store, p: Pass) {
    (forall id | id in p.put :: InWarm(s, id)) && (forall e | e in p.rows :: InView(s, e.id))
  }

  ghost predicate BusOk(b: Bus) {
    StoreOk(b.s) && forall p | p in b.passes :: PassOk(b.s, b.passes[p])
  }

  /** No statement takes a row out of a bucket. */
  ghost predicate WarmGrows(s: Store, r: Store) {
    forall id | InWarm(s, id) :: InWarm(r, id)
  }

  lemma CommitGrowsWarm(s: Store, c: Commit)
    requires StoreOk(s)
    ensures WarmGrows(s, Apply(s, c))
    ensures forall id | id in PutBy(s, c) :: InWarm(Apply(s, c), id)
    ensures forall id | InWarm(Apply(s, c), id) :: InWarm(s, id) || (c.InsertRows? && id in Ids(c.rows))
  {
    var r := Apply(s, c);
    forall id | InWarm(s, id) ensures InWarm(r, id) {
      var n :| n in s.buckets && id in Ids(s.buckets[n].rows);
      assert n in r.buckets && id in Ids(r.buckets[n].rows);
    }
    forall id | id in PutBy(s, c) ensures InWarm(r, id) { assert id in Ids(r.buckets[c.name].rows); }
    forall id | InWarm(r, id) ensures InWarm(s, id) || (c.InsertRows? && id in Ids(c.rows)) {
      var n :| n in r.buckets && id in Ids(r.buckets[n].rows);
      if n in s.buckets { RowsAfter(s.buckets[n], c, id); }
    }
  }

  lemma RowsAfter(b: Bucket, c: Commit, id: nat)
    requires Ascending(b.rows) && id in Ids(ApplyToBucket(b, c).rows)
    ensures id in Ids(b.rows) || (c.InsertRows? && id in Ids(c.rows))
  {
  }

  /** A statement of a pass changes no event that is in view. */
  lemma CommitKeepsIds(s: Store, p: Pass, c: Commit)
    requires StoreOk(s) && PassOk(s, p) && MayDo(p, c)
    ensures SameView(s, Apply(s, c)) && WarmGrows(s, Apply(s, c))
  {
    var r := Apply(s, c);
    CommitGrowsWarm(s, c);
    if c.DeleteLive? { DeletedIds(s.live, c.ids); }
    forall id ensures InView(r, id) <==> InView(s, id) {
      if c.InsertRows? && id in Ids(c.rows) {
        var e :| e in c.rows && e.id == id;
        assert e in p.rows;
      }
    }
  }

  lemma PassesStayOk(b: Bus, r: Store)
    requires BusOk(b) && WarmGrows(b.s, r) && forall id | InView(b.s, id) :: InView(r, id)
    ensures forall p | p in b.passes :: PassOk(r, b.passes[p])
  {
  }

  function EmittedIn(t: Turn): (ids: set<nat>) {
    if t.Emit? then {t.e.id} else {}
  }

  lemma TurnKeepsIds(b: Bus, t: Turn)
    requires BusOk(b) && Allowed(b, t)
    ensures BusOk(Took(b, t))
    ensures forall id :: InView(Took(b, t).s, id) <==> InView(b.s, id) || id in EmittedIn(t)
  {
    match t
    case Emit(e) => EmitKeepsIds(b, e);
    case Rename(id, key) =>
      WithKeysIds(b.s.live, map[id := key]);
      RenameKeepsCover(b.s, id, key);
      PassesStayOk(b, Took(b, t).s);
    case Do(p, c) =>
      CommitKeepsIds(b.s, b.passes[p], c);
      CommitGrowsWarm(b.s, c);
      ApplyKeepsOk(b.s, c);
      PassesStayOk(b, Apply(b.s, c));
    case Pick(p, rows) =>
      forall e | e in rows ensures InView(b.s, e.id) {}
    case End(p) =>
  }

  lemma EmitKeepsIds(b: Bus, e: Event)
    requires BusOk(b) && Allowed(b, Emit(e))
    ensures BusOk(Took(b, Emit(e)))
    ensures forall id :: InView(Appended(b.s, e), id) <==> InView(b.s, id) || id == e.id
  {
    var r := Appended(b.s, e);
    AppendedIds(b.s, e);
    forall x | x in b.s.live ensures x.id < e.id { assert InView(b.s, x.id); }
    forall id ensures InWarm(r, id) <==> InWarm(b.s, id) {}
    forall id ensures InView(r, id) <==> InView(b.s, id) || id == e.id {}
    PassesStayOk(b, r);
  }

  ghost predicate CanTurn(b: Bus, ts: seq<Turn>)
    requires BusOk(b)
    decreases |ts|, 0
  {
    ts == [] || (CanTurn(b, ts[..|ts| - 1]) && Allowed(AfterTurns(b, ts[..|ts| - 1]), ts[|ts| - 1]))
  }

  ghost function AfterTurns(b: Bus, ts: seq<Turn>): (r: Bus)
    requires BusOk(b) && CanTurn(b, ts)
    ensures BusOk(r)
    decreases |ts|, 1
  {
    if ts == [] then b
    else
      var before := AfterTurns(b, ts[..|ts| - 1]);
      TurnKeepsIds(before, ts[|ts| - 1]);
      Took(before, ts[|ts| - 1])
  }

  function EmittedBy(ts: seq<Turn>): (ids: set<nat>) {
    if ts == [] then {} else EmittedBy(ts[..|ts| - 1]) + EmittedIn(ts[|ts| - 1])
  }

  /**
   However the statements of any number of passes interleave with each other, with emits and with released
   keys, and whichever passes crash: the two tiers together hold the events they held and those emitted since.
   */
  lemma {:induction false} NoEventIsLost(b: Bus, ts: seq<Turn>)
    requires BusOk(b) && CanTurn(b, ts)
    ensures forall id :: InView(AfterTurns(b, ts).s, id) <==> InView(b.s, id) || id in EmittedBy(ts)
    decreases |ts|
  {
    if ts != [] {
      var k := |ts| - 1;
      NoEventIsLost(b, ts[..k]);
      TurnKeepsIds(AfterTurns(b, ts[..k]), ts[k]);
    }
  }

  // ---------------------------------------------------------------- what is not kept

  /** A pass over one event whose month has no bucket, or one that is not sealed. */
  lemma PlanOfOne(s: Store, e: Event, n: Name, env: Env)
    requires n == Name(Month(env, e), 0) && env.locked == {}
    requires forall b | b in s.buckets :: b == n && !s.buckets[b].sealed && s.buckets[b].schema.Complete?
    ensures n in s.buckets && n in env.full ==>
              Plan(s, [e], env, {}) != [] && Plan(s, [e], env, {})[0] == Seal(n)
    ensures !(n in s.buckets && n in env.full) ==>
              Plan(s, [e], env, {}) == GroupWrites(s.buckets, n, [e]) + [DeleteLive({e.id})]
  {
    OneMonth(e, env);
    ChooseOne(s, n, env);
    if n in s.buckets && n in env.full {
      assert [n.month][..0] == [];
      assert SealPlan(s, [n.month], env).0 == [] + [Seal(n)];
    } else {
      OneGroup(s, e, n, env);
    }
  }

  lemma OneMonth(e: Event, env: Env)
    ensures Months([e], env) == [Month(env, e)] && OfMonth([e], Month(env, e), env) == [e]
  {
    assert [e][..0] == [];
    SameRows(OfMonth([e], Month(env, e), env), [e]);
  }

  lemma OneGroup(s: Store, e: Event, n: Name, env: Env)
    requires n.month == Month(env, e) && env.locked == {} && Choose(s.buckets, n.month, env) == Use(n)
    requires n in s.buckets ==> s.buckets[n].schema.Complete?
    ensures Plan(s, [e], env, {}) == GroupWrites(s.buckets, n, [e]) + [DeleteLive({e.id})]
  {
    OneMonth(e, env);
    OneWritten(s, e, n, env);
    assert MovedIds(s, [e], env) == {e.id} by { assert e in [e]; }
    assert {e.id} - {} == {e.id};
    var writes := GroupWrites(s.buckets, n, [e]);
    assert [] + writes == writes;
  }

  lemma OneWritten(s: Store, e: Event, n: Name, env: Env)
    requires n.month == Month(env, e) && env.locked == {} && Choose(s.buckets, n.month, env) == Use(n)
    requires n in s.buckets ==> s.buckets[n].schema.Complete?
    requires OfMonth([e], n.month, env) == [e]
    ensures SealPlan(s, [n.month], env) == ([], true) && GetsThrough(s, [n.month], env)
    ensures Reached(s, [n.month], env) == [n.month]
    ensures WritePlan(s, [e], [n.month], env) == GroupWrites(s.buckets, n, [e])
  {
    assert [n.month][..0] == [];
    assert WritePlan(s, [e], [], env) == [];
    assert [] + GroupWrites(s.buckets, n, [e]) == GroupWrites(s.buckets, n, [e]);
  }

  lemma ChooseOne(s: Store, n: Name, env: Env)
    requires n.suffix == 0 && forall b | b in s.buckets :: b == n && !s.buckets[b].sealed
    ensures Choose(s.buckets, n.month, env)
         == if n in s.buckets && n in env.full then Rotate(n, Name(n.month, 1)) else Use(n)
  {
    var used := Suffixes(s.buckets, n.month);
    if n in s.buckets {
      assert n.suffix in used;
      forall x | x in used ensures x == 0 {}
    } else {
      assert used == {};
    }
  }

  /**
   Two passes choose for the same month.  The first takes the open bucket; the second finds it full meanwhile
   and seals it; then the first inserts its row: a sealed bucket has changed.
   */
  lemma SealedIsWritten(e: Event, n: Name, monthOf: int -> int)
    requires n == Name(monthOf(e.emittedAt), 0)
    ensures var s := Store([e], map[n := Bucket(Complete, [], None, None, false)]);
            var first, second := Plan(s, [e], Env(monthOf, {}, {}), {}), Plan(s, [e], Env(monthOf, {n}, {}), {});
            && first != [] && second != [] && StoreOk(s) && StoreOk(Apply(s, second[0]))
            && var sealed := Apply(s, second[0]);
               n in sealed.buckets && sealed.buckets[n].sealed && !SealedFixed(sealed, Apply(sealed, first[0]))
  {
    var s := Store([e], map[n := Bucket(Complete, [], None, None, false)]);
    PlanOfOne(s, e, n, Env(monthOf, {}, {}));
    PlanOfOne(s, e, n, Env(monthOf, {n}, {}));
    var first := Plan(s, [e], Env(monthOf, {}, {}), {});
    assert first[0] == InsertRows(n, [e]);
    var sealed := Apply(s, Seal(n));
    assert e.id in Ids(Apply(sealed, InsertRows(n, [e])).buckets[n].rows) by { assert e in [e]; }
  }

  /** The bucket of the first event, with the lower bound of the second. */
  function Rebounded(a: Event, b: Event, n: Name): (s: Store) {
    Store([b], map[n := Bucket(Complete, [a], Some(b.id), Some(a.id), false)])
  }

  /**
   Two passes find no bucket of the month.  The first creates it, puts its event there and deletes it from the
   live table; then the second gets to `createBucket`, whose tables are there by now, and records its own lower
   bound.  Should it crash there, the first event is in a bucket that no poll lists.
   */
  lemma LateBoundUncovers(a: Event, b: Event, n: Name, monthOf: int -> int, files: Query.Files)
    requires a.id == 1 && b.id == 2 && files == Query.Files({}, {})
    requires n == Name(monthOf(a.emittedAt), 0) == Name(monthOf(b.emittedAt), 0)
    ensures var s, env, all := Store([a, b], map[]), Env(monthOf, {}, {}), Query.Filter("", "", "");
            var first, second := Plan(s, [a], env, {}), Plan(s, [b], env, {});
            && |second| >= 4 && ApplyAll(ApplyAll(s, first), second[..4]) == Rebounded(a, b, n)
            && InWarm(Rebounded(a, b, n), 1) && !WarmCovered(Rebounded(a, b, n))
            && Query.IsCovering([], Rebounded(a, b, n), files, 0, all)
            && Query.Resolved(Rebounded(a, b, n), files, 0, all, 100, []) == Err(Query.BehindWindow(0, 2))
  {
    var s, env := Store([a, b], map[]), Env(monthOf, {}, {});
    PlanOfOne(s, a, n, env);
    PlanOfOne(s, b, n, env);
    FirstMoves(s, a, b, n);
    SecondBounds(a, b, n);
    SecondStarts(b, n);
    FirstIsLost(a, b, n);
    LostIsNotListed(a, b, n, files);
  }

  lemma SecondStarts(b: Event, n: Name)
    requires b.id == 2
    ensures var cs := GroupCommits(n, [b], true) + [DeleteLive({2})];
            |cs| >= 4 && cs[..4] == Creation(n) + [SetMin(n, 2)]
  {
  }

  lemma LostIsNotListed(a: Event, b: Event, n: Name, files: Query.Files)
    requires a.id == 1 && b.id == 2 && files == Query.Files({}, {})
    ensures var s, all := Rebounded(a, b, n), Query.Filter("", "", "");
            && Query.IsCovering([], s, files, 0, all)
            && Query.Resolved(s, files, 0, all, 100, []) == Err(Query.BehindWindow(0, 2))
  {
    SameRows(Where([b], Query.Matching(Query.Filter("", "", ""))), [b]);
  }

  lemma FirstMoves(s: Store, a: Event, b: Event, n: Name)
    requires s == Store([a, b], map[]) && a.id == 1 && b.id == 2
    ensures ApplyAll(s, GroupCommits(n, [a], true) + [DeleteLive({1})]) == Store([b], map[n := Held(a)])
  {
    NewGroup(s, n, a);
    OneApplied(s, GroupCommits(n, [a], true), DeleteLive({1}));
    FirstDeleted(a, b, n);
    assert WithBucket(s, n, Held(a)) == Store([a, b], map[n := Held(a)]);
  }

  lemma FirstDeleted(a: Event, b: Event, n: Name)
    requires a.id == 1 && b.id == 2
    ensures StoreOk(Store([a, b], map[n := Held(a)]))
    ensures Apply(Store([a, b], map[n := Held(a)]), DeleteLive({1})) == Store([b], map[n := Held(a)])
  {
    SameRows(Apply(Store([a, b], map[n := Held(a)]), DeleteLive({1})).live, [b]);
  }

  lemma SecondBounds(a: Event, b: Event, n: Name)
    requires a.id == 1 && b.id == 2
    ensures var s := Store([b], map[n := Held(a)]);
            StoreOk(s) && ApplyAll(s, Creation(n) + [SetMin(n, 2)]) == Rebounded(a, b, n)
  {
    var s := Store([b], map[n := Held(a)]);
    AlreadyThere(s, n);
    OneApplied(s, Creation(n), SetMin(n, 2));
  }

  /** Creating what is there changes nothing. */
  lemma AlreadyThere(s: Store, n: Name)
    requires StoreOk(s) && n in s.buckets && s.buckets[n].schema.Complete?
    ensures ApplyAll(s, Creation(n)) == s
  {
    var a, b, c := CreateFile(n), CreateEvents(n), CreateMeta(n);
    assert Apply(s, a) == s && Apply(s, b) == s && Apply(s, c) == s;
    assert [] + [a] == [a];
    OneApplied(s, [], a);
    OneApplied(s, [a], b);
    OneApplied(s, [a] + [b], c);
  }

  lemma FirstIsLost(a: Event, b: Event, n: Name)
    requires a.id == 1 && b.id == 2
    ensures var s := Rebounded(a, b, n); InWarm(s, 1) && !WarmCovered(s)
  {
    var s := Rebounded(a, b, n);
    assert a in s.buckets[n].rows && 1 in Ids(s.buckets[n].rows);
    assert forall x :: !CoveredIn(s, x, 1);
    assert 1 !in Ids(s.live);
  }
}
