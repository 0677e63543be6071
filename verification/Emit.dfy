/**
 Emitting (lib/emit.js): the insert, the duplicate check, and the release of a key whose dedup window
 has passed.  Rows are renamed and swept underneath, yet every key behaves like an entry of a simple map
 from keys to window ends.
 */
module Emit {
  import opened Events
  import opened Database

  datatype Draft = Draft(etype: string, domain: string, subdomain: string, payload: Payload, key: string)

  datatype Outcome =
    | Accepted(id: nat)
    | Duplicate(original: nat)   // WB-002

  function RowFor(d: Draft, id: nat, now: int, ttl: int, dedup: int): (e: Event) {
    Event(id, d.etype, d.domain, d.subdomain, d.payload, d.key, now, now + ttl, now + dedup)
  }

  function Digits(n: nat): (s: string) {
    if n < 10 then ["0123456789"[n]] else Digits(n / 10) + ["0123456789"[n % 10]]
  }

  /** What an expired holder's key is renamed to. */
  function ReleasedKey(key: string, id: nat, suffix: string): (k: string) {
    key + "#dedup-expired:" + Digits(id) + ":" + suffix
  }

  /** An example of the name: event 17, released with random part "ab". */
  lemma ReleasedKeyOf17()
    ensures ReleasedKey("k", 17, "ab") == "k#dedup-expired:17:ab"
  {
    assert Digits(1) == "1" && Digits(17) == Digits(1) + "7";
  }

  /** The UNIQUE index on idempotency_key. */
  ghost predicate KeysUnique(rows: seq<Event>) {
    forall i, j | 0 <= i < j < |rows| :: rows[i].key != rows[j].key
  }

  ghost predicate HasKey(rows: seq<Event>, key: string) {
    exists i | 0 <= i < |rows| :: rows[i].key == key
  }

  ghost predicate IsHolder(rows: seq<Event>, key: string, e: Event) {
    e in rows && e.key == key
  }

  /** The table after an emit, and its outcome. */
  ghost predicate Emits(rows: seq<Event>, nextId: nat, d: Draft, now: int, ttl: int, dedup: int, suffix: string,
                        rows': seq<Event>, r: Outcome)
  {
    var row := RowFor(d, nextId, now, ttl, dedup);
    if !HasKey(rows, d.key) then
      rows' == rows + [row] && r == Accepted(nextId)
    else
      exists h | IsHolder(rows, d.key, h) ::
        if h.dedupExpiresAt >= now || HasKey(rows, ReleasedKey(d.key, h.id, suffix)) then
          rows' == rows && r == Duplicate(h.id)
        else
          rows' == WithKey(rows, h.id, ReleasedKey(d.key, h.id, suffix)) + [row] && r == Accepted(nextId)
  }

  class Emitter {
    const db: Database
    var nextId: nat   // AUTOINCREMENT: never reused

    constructor (database: Database)
      ensures db == database && nextId == 1
    {
      db, nextId := database, 1;
    }

    /** Position of the row holding a key, or -1. */
    method Lookup(key: string) returns (i: int)
      ensures i == -1 <==> !HasKey(db.events, key)
      ensures i != -1 ==> 0 <= i < |db.events| && db.events[i].key == key
    {
      i := 0;
      while i < |db.events|
        invariant 0 <= i <= |db.events|
        invariant forall j | 0 <= j < i :: db.events[j].key != key
      {
        if db.events[i].key == key {
          return;
        }
        i := i + 1;
      }
      i := -1;
    }

    /** Insert; on a reused key, release it when its window has passed and insert again, in one transaction. */
    method EmitEvent(d: Draft, now: int, ttl: int, dedup: int, suffix: string) returns (r: Outcome)
      requires KeysUnique(db.events) && Ascending(db.events) && forall e | e in db.events :: e.id < nextId
      modifies this, db`events
      ensures Emits(old(db.events), old(nextId), d, now, ttl, dedup, suffix, db.events, r)
      ensures nextId == old(nextId) + if r.Accepted? then 1 else 0
      ensures r.Accepted? ==>
                && |db.events| == |old(db.events)| + 1
                && db.events[|old(db.events)|] == Event(old(nextId), d.etype, d.domain, d.subdomain, d.payload, d.key,
                                                        now, now + ttl, now + dedup)
                && forall i | 0 <= i < |old(db.events)| ::
                     || db.events[i] == old(db.events)[i]
                     || (old(db.events)[i].key == d.key && Bare(db.events[i]) == Bare(old(db.events)[i]))
      ensures r.Duplicate? ==>
                db.events == old(db.events) && exists e | e in old(db.events) :: e.key == d.key && r.original == e.id
    {
      var row := RowFor(d, nextId, now, ttl, dedup);
      var i := Lookup(d.key);
      if i == -1 {
        db.events := db.events + [row];
      } else {
        var holder := db.events[i];
        assert IsHolder(db.events, d.key, holder);
        if holder.dedupExpiresAt >= now {
          return Duplicate(holder.id);
        }
        var released := ReleasedKey(d.key, holder.id, suffix);
        var taken := Lookup(released);
        if taken != -1 {
          return Duplicate(holder.id);
        }
        db.events := WithKey(db.events, holder.id, released) + [row];
      }
      r := Accepted(nextId);
      nextId := nextId + 1;
    }
  }

  // ---------------------------------------------------------------- runs of emits and sweeps

  /** `accepted` holds the key and window end of every accepted emit; `released` every key given up by a release. */
  datatype Log = Log(rows: seq<Event>, nextId: nat, clock: int, accepted: set<(string, int)>, released: set<string>)

  datatype Act =
    | EmitAt(d: Draft, now: int, ttl: int, dedup: int, suffix: string, rows: seq<Event>, outcome: Outcome)
    | SweepAt(now: int, gone: set<nat>)

  ghost predicate Used(l: Log, key: string) {
    key in l.released || exists end :: (key, end) in l.accepted
  }

  /** The clock does not go back, sweeps take expired rows only, and released names are new. */
  ghost predicate Enabled(l: Log, a: Act) {
    match a
    case EmitAt(d, now, ttl, dedup, suffix, rows, outcome) =>
      && l.clock <= now && d.key !in l.released
      && (forall id :: !Used(l, ReleasedKey(d.key, id, suffix)) && ReleasedKey(d.key, id, suffix) != d.key)
      && Emits(l.rows, l.nextId, d, now, ttl, dedup, suffix, rows, outcome)
    case SweepAt(now, gone) => l.clock <= now && forall e | e in l.rows && e.id in gone :: e.expiresAt < now
  }

  ghost function Step(l: Log, a: Act): (r: Log)
    requires Enabled(l, a)
  {
    match a
    case EmitAt(d, now, ttl, dedup, suffix, rows, outcome) =>
      if outcome.Duplicate? then l.(clock := now)
      else
        Log(rows, l.nextId + 1, now, l.accepted + {(d.key, now + dedup)},
            l.released + set e | e in rows && !HasKey(l.rows, e.key) && e.key != d.key :: e.key)
    case SweepAt(now, gone) => l.(rows := Where(l.rows, (e: Event) => e.id !in gone), clock := now)
  }

  /** Every live key stands for its latest accepted emit, and every other accepted window has passed. */
  ghost predicate Inv(l: Log) {
    && Ascending(l.rows) && KeysUnique(l.rows) && (forall e | e in l.rows :: e.id < l.nextId)
    && (forall e | e in l.rows :: e.key in l.released || (e.key, e.dedupExpiresAt) in l.accepted)
    && (forall e | e in l.rows :: e.dedupExpiresAt <= e.expiresAt || e.dedupExpiresAt < l.clock)
    && (forall p | p in l.accepted ::
          p.1 < l.clock || exists e | e in l.rows :: e.key == p.0 && e.dedupExpiresAt == p.1)
    && (forall p | p in l.accepted :: p.0 !in l.released)
  }

  /** The window of every earlier accepted emit of the key has passed. */
  ghost predicate Free(l: Log, key: string, now: int) {
    forall p | p in l.accepted && p.0 == key :: p.1 < now
  }

  lemma UniqueHolder(rows: seq<Event>, key: string, a: Event, b: Event)
    requires KeysUnique(rows) && IsHolder(rows, key, a) && IsHolder(rows, key, b)
    ensures a == b
  {
    var i :| 0 <= i < |rows| && rows[i] == a;
    var j :| 0 <= j < |rows| && rows[j] == b;
  }

  /** An emit is accepted exactly when the window of every earlier accepted emit of its key has passed. */
  lemma AcceptedExactlyWhenFree(l: Log, a: Act)
    requires Inv(l) && a.EmitAt? && Enabled(l, a)
    ensures a.outcome.Accepted? <==> Free(l, a.d.key, a.now)
  {
    if HasKey(l.rows, a.d.key) {
      var h :| IsHolder(l.rows, a.d.key, h)
        && if h.dedupExpiresAt >= a.now || HasKey(l.rows, ReleasedKey(a.d.key, h.id, a.suffix)) then
             a.outcome == Duplicate(h.id)
           else a.outcome == Accepted(l.nextId);
      NameIsNew(l, a, h);
      forall p | p in l.accepted && p.0 == a.d.key ensures p.1 < a.now || p.1 == h.dedupExpiresAt {
        if p.1 >= l.clock {
          var e :| e in l.rows && e.key == p.0 && e.dedupExpiresAt == p.1;
          UniqueHolder(l.rows, a.d.key, e, h);
        }
      }
      assert (a.d.key, h.dedupExpiresAt) in l.accepted;
    } else {
      forall p | p in l.accepted && p.0 == a.d.key ensures p.1 < a.now { NoHolderNoWindow(l, p); }
    }
  }

  lemma NameIsNew(l: Log, a: Act, h: Event)
    requires Inv(l) && a.EmitAt? && Enabled(l, a) && h in l.rows
    ensures !HasKey(l.rows, ReleasedKey(a.d.key, h.id, a.suffix))
  {
    forall i | 0 <= i < |l.rows| ensures l.rows[i].key != ReleasedKey(a.d.key, h.id, a.suffix) {
      assert l.rows[i] in l.rows;
      assert Used(l, l.rows[i].key);
    }
  }

  lemma NoHolderNoWindow(l: Log, p: (string, int))
    requires Inv(l) && p in l.accepted && !HasKey(l.rows, p.0)
    ensures p.1 < l.clock
  {
    forall e | e in l.rows ensures e.key != p.0 {
      var i :| 0 <= i < |l.rows| && l.rows[i] == e;
    }
  }

  // ---------------------------------------------------------------- every step keeps the invariant

  /** The event lives at least as long as its window stays open. */
  predicate Covers(ttl: int, dedup: int) {
    ttl >= dedup || dedup < 0
  }

  lemma SweepKeeps(l: Log, now: int, gone: set<nat>)
    requires Inv(l) && Enabled(l, SweepAt(now, gone))
    ensures Inv(Step(l, SweepAt(now, gone)))
  {
    var r := Step(l, SweepAt(now, gone));
    WhereKeysUnique(l.rows, (e: Event) => e.id !in gone);
    forall p | p in r.accepted
      ensures p.1 < r.clock || exists e | e in r.rows :: e.key == p.0 && e.dedupExpiresAt == p.1
    {
      if p.1 >= now {
        var e :| e in l.rows && e.key == p.0 && e.dedupExpiresAt == p.1;
        assert e in r.rows;
      }
    }
  }

  lemma WhereKeysUnique(rows: seq<Event>, p: Event -> bool)
    requires KeysUnique(rows) && Ascending(rows)
    ensures KeysUnique(Where(rows, p))
  {
    var r := Where(rows, p);
    forall i, j | 0 <= i < j < |r| ensures r[i].key != r[j].key {
      assert r[i].id < r[j].id;
      assert r[i] in rows && r[j] in rows;
      KeyDeterminesRow(rows, r[i], r[j]);
    }
  }

  lemma KeyDeterminesRow(rows: seq<Event>, a: Event, b: Event)
    requires KeysUnique(rows) && a in rows && b in rows
    ensures a.key == b.key ==> a == b
  {
    var i :| 0 <= i < |rows| && rows[i] == a;
    var j :| 0 <= j < |rows| && rows[j] == b;
  }

  /** A fresh key: a row is appended. */
  lemma AppendKeeps(l: Log, a: Act)
    requires Inv(l) && a.EmitAt? && Enabled(l, a) && Covers(a.ttl, a.dedup) && !HasKey(l.rows, a.d.key)
    ensures Inv(Step(l, a))
  {
    var row := RowFor(a.d, l.nextId, a.now, a.ttl, a.dedup);
    assert forall e | e in l.rows :: HasKey(l.rows, e.key);
    assert Step(l, a).released == l.released;
    AppendLeaves(l, Step(l, a), row);
  }

  lemma AppendLeaves(l: Log, r: Log, row: Event)
    requires Inv(l) && l.clock <= r.clock && r.rows == l.rows + [row] && !HasKey(l.rows, row.key)
    requires row.id == l.nextId && r.nextId == l.nextId + 1 && row.key !in l.released
    requires row.dedupExpiresAt <= row.expiresAt || row.dedupExpiresAt < r.clock
    requires r.accepted == l.accepted + {(row.key, row.dedupExpiresAt)} && r.released == l.released
    ensures Inv(r)
  {
    forall p | p in r.accepted
      ensures p.1 < r.clock || exists e | e in r.rows :: e.key == p.0 && e.dedupExpiresAt == p.1
    {
      if p == (row.key, row.dedupExpiresAt) {
        assert row in r.rows;
      } else if p.1 >= r.clock {
        var e :| e in l.rows && e.key == p.0 && e.dedupExpiresAt == p.1;
        assert e in r.rows;
      }
    }
  }

  /** The table after a release and the insert that follows it. */
  lemma ReleasedTable(rows: seq<Event>, h: Event, name: string, row: Event, nextId: nat)
    requires Ascending(rows) && KeysUnique(rows) && h in rows && !HasKey(rows, name) && name != h.key
    requires row.key == h.key && row.id == nextId && forall e | e in rows :: e.id < nextId
    ensures var after := WithKey(rows, h.id, name) + [row];
            && Ascending(after) && KeysUnique(after)
            && (forall e :: e in after <==> e == row || e == h.(key := name) || (e in rows && e != h))
  {
    var w := WithKey(rows, h.id, name);
    var k :| 0 <= k < |rows| && rows[k] == h;
    forall i | 0 <= i < |rows| && i != k ensures w[i] == rows[i] && rows[i].key != h.key && rows[i].key != name {
      assert rows[i].id != h.id && rows[i].key != rows[k].key;
    }
    RenamedRows(rows, h, name, k, w);
    var after := w + [row];
    assert forall e :: e in after <==> e in w || e == row;
  }

  lemma RenamedRows(rows: seq<Event>, h: Event, name: string, k: nat, w: seq<Event>)
    requires k < |rows| == |w| && rows[k] == h && w[k] == h.(key := name)
    requires forall i | 0 <= i < |rows| && i != k :: w[i] == rows[i] && rows[i].key != h.key && rows[i].key != name
    ensures forall e :: e in w <==> e == h.(key := name) || (e in rows && e != h)
  {
    forall e | e in rows && e != h ensures e in w {
      var i :| 0 <= i < |rows| && rows[i] == e;
      assert w[i] == e;
    }
    forall e | e in w && e != h.(key := name) ensures e in rows && e != h {
      var i :| 0 <= i < |rows| && w[i] == e;
      assert i != k && rows[i] == e;
    }
  }

  lemma NamesGivenUp(rows: seq<Event>, h: Event, name: string, row: Event, after: seq<Event>)
    requires h in rows && row.key == h.key && !HasKey(rows, name) && name != h.key
    requires forall e :: e in after <==> e == row || e == h.(key := name) || (e in rows && e != h)
    ensures (set e | e in after && !HasKey(rows, e.key) && e.key != row.key :: e.key) == {name}
  {
    forall e | e in rows ensures HasKey(rows, e.key) { var i :| 0 <= i < |rows| && rows[i] == e; }
    assert h.(key := name) in after;
  }

  lemma ReleaseKeeps(l: Log, a: Act, h: Event)
    requires Inv(l) && a.EmitAt? && Enabled(l, a) && Covers(a.ttl, a.dedup)
    requires IsHolder(l.rows, a.d.key, h) && h.dedupExpiresAt < a.now
    requires a.outcome.Accepted?
    requires a.rows == WithKey(l.rows, h.id, ReleasedKey(a.d.key, h.id, a.suffix))
                         + [RowFor(a.d, l.nextId, a.now, a.ttl, a.dedup)]
    ensures Inv(Step(l, a))
  {
    var name, row := ReleasedKey(a.d.key, h.id, a.suffix), RowFor(a.d, l.nextId, a.now, a.ttl, a.dedup);
    var r := Step(l, a);
    NameIsNew(l, a, h);
    ReleasedTable(l.rows, h, name, row, l.nextId);
    NamesGivenUp(l.rows, h, name, row, a.rows);
    ReleaseStep(l, a, name);
    ReleaseLeaves(l, r, h, name, row);
  }

  lemma ReleaseStep(l: Log, a: Act, name: string)
    requires a.EmitAt? && Enabled(l, a) && a.outcome.Accepted?
    requires (set e | e in a.rows && !HasKey(l.rows, e.key) && e.key != a.d.key :: e.key) == {name}
    ensures Step(l, a)
         == Log(a.rows, l.nextId + 1, a.now, l.accepted + {(a.d.key, a.now + a.dedup)}, l.released + {name})
  {
  }

  lemma ReleaseLeaves(l: Log, r: Log, h: Event, name: string, row: Event)
    requires Inv(l) && h in l.rows && h.dedupExpiresAt < r.clock && l.clock <= r.clock
    requires Ascending(r.rows) && KeysUnique(r.rows)
    requires forall e :: e in r.rows <==> e == row || e == h.(key := name) || (e in l.rows && e != h)
    requires row.id == l.nextId && r.nextId == l.nextId + 1
    requires row.dedupExpiresAt <= row.expiresAt || row.dedupExpiresAt < r.clock
    requires r.accepted == l.accepted + {(row.key, row.dedupExpiresAt)} && r.released == l.released + {name}
    requires !Used(l, name) && name != row.key && row.key !in l.released
    ensures Inv(r)
  {
    WindowsStand(l, r, h, name, row);
    KeysStand(l, r, h, name, row);
  }

  /** Every window still open has its row. */
  lemma WindowsStand(l: Log, r: Log, h: Event, name: string, row: Event)
    requires Inv(l) && h in l.rows && h.dedupExpiresAt < r.clock && l.clock <= r.clock
    requires forall e :: e in r.rows <==> e == row || e == h.(key := name) || (e in l.rows && e != h)
    requires r.accepted == l.accepted + {(row.key, row.dedupExpiresAt)}
    ensures forall p | p in r.accepted ::
              p.1 < r.clock || exists e | e in r.rows :: e.key == p.0 && e.dedupExpiresAt == p.1
  {
    forall p | p in r.accepted
      ensures p.1 < r.clock || exists e | e in r.rows :: e.key == p.0 && e.dedupExpiresAt == p.1
    {
      if p == (row.key, row.dedupExpiresAt) {
        assert row in r.rows;
      } else if p.1 >= r.clock {
        var e :| e in l.rows && e.key == p.0 && e.dedupExpiresAt == p.1;
        assert e in r.rows;
      }
    }
  }

  /** Every row holds an accepted key or a released one, never both. */
  lemma KeysStand(l: Log, r: Log, h: Event, name: string, row: Event)
    requires Inv(l) && !Used(l, name) && name != row.key && row.key !in l.released
    requires forall e :: e in r.rows <==> e == row || e == h.(key := name) || (e in l.rows && e != h)
    requires r.accepted == l.accepted + {(row.key, row.dedupExpiresAt)} && r.released == l.released + {name}
    ensures forall e | e in r.rows :: e.key in r.released || (e.key, e.dedupExpiresAt) in r.accepted
    ensures forall p | p in r.accepted :: p.0 !in r.released
  {
    forall p | p in l.accepted ensures p.0 != name { assert p == (p.0, p.1); }
  }

  lemma EmitKeeps(l: Log, a: Act)
    requires Inv(l) && a.EmitAt? && Enabled(l, a) && Covers(a.ttl, a.dedup)
    ensures Inv(Step(l, a))
  {
    if !HasKey(l.rows, a.d.key) {
      AppendKeeps(l, a);
    } else if a.outcome.Accepted? {
      var h :| IsHolder(l.rows, a.d.key, h) && h.dedupExpiresAt < a.now
        && a.rows == WithKey(l.rows, h.id, ReleasedKey(a.d.key, h.id, a.suffix))
                       + [RowFor(a.d, l.nextId, a.now, a.ttl, a.dedup)];
      ReleaseKeeps(l, a, h);
    }
  }

  ghost predicate CanRun(l: Log, acts: seq<Act>)
    decreases |acts|, 0
  {
    acts == [] || (CanRun(l, acts[..|acts| - 1]) && Enabled(After(l, acts[..|acts| - 1]), acts[|acts| - 1]))
  }

  ghost function After(l: Log, acts: seq<Act>): (r: Log)
    requires CanRun(l, acts)
    decreases |acts|, 1
  {
    if acts == [] then l else Step(After(l, acts[..|acts| - 1]), acts[|acts| - 1])
  }

  function Empty(): Log {
    Log([], 1, 0, {}, {})
  }

  /** Every emit of a run was accepted exactly when the map from keys to window ends says so. */
  ghost predicate Faithful(acts: seq<Act>)
    requires CanRun(Empty(), acts)
    decreases |acts|
  {
    acts == [] ||
    (Faithful(acts[..|acts| - 1])
     && (acts[|acts| - 1].EmitAt? ==>
           var a := acts[|acts| - 1];
           a.outcome.Accepted? <==> Free(After(Empty(), acts[..|acts| - 1]), a.d.key, a.now)))
  }

  lemma {:induction false} CoveredRunIsFaithful(acts: seq<Act>)
    requires CanRun(Empty(), acts) && forall a | a in acts && a.EmitAt? :: Covers(a.ttl, a.dedup)
    ensures Inv(After(Empty(), acts)) && Faithful(acts)
    decreases |acts|
  {
    if acts != [] {
      var k := |acts| - 1;
      CoveredRunIsFaithful(acts[..k]);
      var l := After(Empty(), acts[..k]);
      assert acts[k] in acts;
      if acts[k].EmitAt? {
        AcceptedExactlyWhenFree(l, acts[k]);
        EmitKeeps(l, acts[k]);
      } else {
        SweepKeeps(l, acts[k].now, acts[k].gone);
      }
    }
  }

  ghost predicate AllUse(acts: seq<Act>, ttl: int, dedup: int) {
    forall a | a in acts && a.EmitAt? :: a.ttl == ttl && a.dedup == dedup
  }

  // ---------------------------------------------------------------- when events live shorter than their window

  /** Emit, sweep the expired row, emit the same key again while its window is open. */
  ghost function ShortLife(d: Draft, ttl: int, dedup: int): (acts: seq<Act>) {
    var t := if ttl < 0 then 0 else ttl + 1;
    [EmitAt(d, 0, ttl, dedup, "x", [RowFor(d, 1, 0, ttl, dedup)], Accepted(1)),
     SweepAt(t, {1}),
     EmitAt(d, t, ttl, dedup, "x", [RowFor(d, 2, t, ttl, dedup)], Accepted(2))]
  }

  lemma LongerName(key: string, id: nat, suffix: string)
    ensures ReleasedKey(key, id, suffix) != key
  {
    assert |ReleasedKey(key, id, suffix)| > |key|;
  }

  lemma ShortLifeIsNotFaithful(d: Draft, ttl: int, dedup: int)
    requires !Covers(ttl, dedup)
    ensures CanRun(Empty(), ShortLife(d, ttl, dedup)) && AllUse(ShortLife(d, ttl, dedup), ttl, dedup)
    ensures !Faithful(ShortLife(d, ttl, dedup))
  {
    var acts := ShortLife(d, ttl, dedup);
    var t := acts[1].now;
    var first := RowFor(d, 1, 0, ttl, dedup);
    var l1, l2 := Log([first], 2, 0, {(d.key, dedup)}, {}), Log([], 2, t, {(d.key, dedup)}, {});
    FirstEmit(d, ttl, dedup, acts[0], l1);
    forall id: nat ensures ReleasedKey(d.key, id, "x") != d.key { LongerName(d.key, id, "x"); }
    assert forall e | e in [first] :: e == first;
    assert Where([first], (e: Event) => e.id !in {1}) == [];
    assert Enabled(l1, acts[1]) && Step(l1, acts[1]) == l2;
    assert !HasKey(l2.rows, d.key) && [] + acts[2].rows == acts[2].rows;
    assert Enabled(l2, acts[2]);
    OneStep(Empty(), [], acts[0]);
    OneStep(Empty(), [acts[0]], acts[1]);
    OneStep(Empty(), [acts[0], acts[1]], acts[2]);
    assert [] + [acts[0]] == [acts[0]] && [acts[0]] + [acts[1]] == [acts[0], acts[1]];
    assert [acts[0], acts[1]] + [acts[2]] == acts && acts[..|acts| - 1] == [acts[0], acts[1]];
    assert (d.key, dedup) in l2.accepted && !(dedup < t);
    assert !Free(l2, d.key, t);
  }

  lemma OneStep(l: Log, acts: seq<Act>, a: Act)
    requires CanRun(l, acts) && Enabled(After(l, acts), a)
    ensures CanRun(l, acts + [a]) && After(l, acts + [a]) == Step(After(l, acts), a)
  {
    assert (acts + [a])[..|acts|] == acts;
  }

  lemma FirstEmit(d: Draft, ttl: int, dedup: int, a: Act, l: Log)
    requires a == EmitAt(d, 0, ttl, dedup, "x", [RowFor(d, 1, 0, ttl, dedup)], Accepted(1))
    requires l == Log([RowFor(d, 1, 0, ttl, dedup)], 2, 0, {(d.key, dedup)}, {})
    ensures Enabled(Empty(), a) && Step(Empty(), a) == l
  {
    forall id: nat ensures ReleasedKey(d.key, id, "x") != d.key { LongerName(d.key, id, "x"); }
    assert !HasKey([], d.key) && [] + a.rows == a.rows;
    var after := set e | e in a.rows && !HasKey([], e.key) && e.key != d.key :: e.key;
    assert forall e | e in a.rows :: e.key == d.key;
    assert after == {};
    assert {} + {(d.key, 0 + dedup)} == {(d.key, dedup)};
  }

  /** Emits and sweeps refine the map for every run exactly when events live at least as long as their window. */
  lemma DedupExact(ttl: int, dedup: int)
    ensures (forall acts | CanRun(Empty(), acts) && AllUse(acts, ttl, dedup) :: Faithful(acts)) <==> Covers(ttl, dedup)
  {
    if Covers(ttl, dedup) {
      forall acts | CanRun(Empty(), acts) && AllUse(acts, ttl, dedup) ensures Faithful(acts) {
        CoveredRunIsFaithful(acts);
      }
    } else {
      ShortLifeIsNotFaithful(Draft("wicked.a", "b", "", Inline(""), "k"), ttl, dedup);
    }
  }
}
