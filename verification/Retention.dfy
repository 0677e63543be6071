/**
 What expired events active consumers still owe, and the reconciliation report (lib/retention.js).
 */
module Retention {
  import opened Events
  import opened Database
  import opened Filters

  datatype Policy = Retain | Archive | Discard

  /** One consumer owing one expired event; `overCap` when the event is older than the retention cap. */
  datatype OwedPair = OwedPair(eventId: nat, cursorId: string, overCap: bool)

  // ---------------------------------------------------------------- who owes what

  /** The cursor has not acknowledged past `e`, or a retry of `e` is pending for it. */
  predicate Owes(t: Tables, c: string, e: Event) {
    || (t.Active(c) && e.id > t.cursors[c].last && t.Wants(c, e))
    || (c in t.cursors && t.cursors[c].active && (c, e.id) in t.attempts)
  }

  predicate OverCap(e: Event, now: int, capMs: int) {
    e.emittedAt < now - capMs
  }

  ghost function Owed(t: Tables, now: int): (s: set<(string, nat)>) {
    set c, e | c in t.cursors && e in t.events && e.expiresAt < now && Owes(t, c, e) :: (c, e.id)
  }

  ghost function OwedPairs(t: Tables, now: int, capMs: int): (s: set<OwedPair>) {
    set c, e | c in t.cursors && e in t.events && e.expiresAt < now && Owes(t, c, e) ::
      OwedPair(e.id, c, OverCap(e, now, capMs))
  }

  /** Some active consumer owes `e`. */
  predicate IsOwed(t: Tables, e: Event) {
    exists c | c in t.cursors :: Owes(t, c, e)
  }

  /** Owed and inside the cap: the rows the 'retain' policy keeps live. */
  predicate IsHeld(t: Tables, e: Event, now: int, capMs: int) {
    e.expiresAt < now && IsOwed(t, e) && !OverCap(e, now, capMs)
  }

  /**
   The same in the columns of the tables: some active cursor has a retry of `e` pending, or its subscription
   is active, its position is below `e`, and its filter selects `e`.
   */
  ghost predicate Awaited(t: Tables, e: Event)
    requires t.Valid()
  {
    exists c | c in t.cursors && t.cursors[c].active ::
      var sub := t.subscriptions[t.cursors[c].subscription];
      (c, e.id) in t.attempts || (sub.active && t.cursors[c].last < e.id && Selects(sub.filter, e.etype, e.domain))
  }

  lemma OwedIsAwaited(t: Tables, e: Event)
    requires t.Valid()
    ensures IsOwed(t, e) <==> Awaited(t, e)
  {
    if IsOwed(t, e) {
      var c :| c in t.cursors && Owes(t, c, e);
      assert t.cursors[c].active;
    }
    if Awaited(t, e) {
      var c :| c in t.cursors && t.cursors[c].active
        && ((c, e.id) in t.attempts
            || (t.subscriptions[t.cursors[c].subscription].active && t.cursors[c].last < e.id
                && Selects(t.subscriptions[t.cursors[c].subscription].filter, e.etype, e.domain)));
      assert Owes(t, c, e);
    }
  }

  /** The flag of an owed pair compares two timestamps. */
  lemma FlagByTimestamps(t: Tables, p: OwedPair, now: int, capMs: int)
    ensures p in OwedPairs(t, now, capMs) <==>
            exists e :: e in t.events && p.cursorId in t.cursors && e.expiresAt < now && Owes(t, p.cursorId, e)
                        && p == OwedPair(e.id, p.cursorId, e.emittedAt + capMs < now)
  {
    if p in OwedPairs(t, now, capMs) {
      var c, e :| c in t.cursors && e in t.events && e.expiresAt < now && Owes(t, c, e)
        && p == OwedPair(e.id, c, OverCap(e, now, capMs));
      assert p == OwedPair(e.id, p.cursorId, e.emittedAt + capMs < now);
    }
    forall e | e in t.events && p.cursorId in t.cursors && e.expiresAt < now && Owes(t, p.cursorId, e)
               && p == OwedPair(e.id, p.cursorId, e.emittedAt + capMs < now)
      ensures p in OwedPairs(t, now, capMs)
    {
      assert p == OwedPair(e.id, p.cursorId, OverCap(e, now, capMs));
    }
  }

  /** Fill the temporary table of owed (cursor, event) pairs, cursor by cursor, then the pending retries. */
  method CollectOwedExpired(db: Database, now: int) returns (owed: set<(string, nat)>)
    requires db.Snapshot().Valid()
    ensures owed == Owed(db.Snapshot(), now)
  {
    var t := db.Snapshot();
    owed := {};
    var todo := set c | c in t.cursors && t.Active(c);
    ghost var active := todo;
    while todo != {}
      invariant todo <= active
      invariant owed == set c, e | c in active - todo && e in t.events && e.expiresAt < now
                                    && e.id > t.cursors[c].last && t.Wants(c, e) :: (c, e.id)
    {
      var c :| c in todo;
      var rows := set e | e in t.events && e.expiresAt < now && e.id > t.cursors[c].last && t.Wants(c, e) :: (c, e.id);
      owed := owed + rows;
      todo := todo - {c};
    }
    var retries := set p, e | p in t.attempts && e in t.events && e.id == p.1
                              && e.expiresAt < now && p.0 in t.cursors && t.cursors[p.0].active :: p;
    OwedInTwoParts(t, now, owed, retries);
    owed := owed + retries;
  }

  lemma OwedInTwoParts(t: Tables, now: int, unacked: set<(string, nat)>, retries: set<(string, nat)>)
    requires t.Valid()
    requires unacked == set c, e | c in t.cursors && t.Active(c) && e in t.events && e.expiresAt < now
                                   && e.id > t.cursors[c].last && t.Wants(c, e) :: (c, e.id)
    requires retries == set p, e | p in t.attempts && e in t.events && e.id == p.1
                                   && e.expiresAt < now && p.0 in t.cursors && t.cursors[p.0].active :: p
    ensures unacked + retries == Owed(t, now)
  {
    forall p | p in retries ensures p in Owed(t, now) {
      var e :| e in t.events && e.id == p.1 && e.expiresAt < now;
      assert Owes(t, p.0, e) && p == (p.0, e.id);
    }
    forall p | p in Owed(t, now) ensures p in unacked + retries {
      var e :| e in t.events && e.expiresAt < now && Owes(t, p.0, e) && p == (p.0, e.id);
    }
  }

  /** Flag each owed pair by the age of its event (`owedPairsWithCap`). */
  method OwedPairsWithCap(db: Database, owed: set<(string, nat)>, now: int, capMs: int) returns (pairs: seq<OwedPair>)
    requires db.Snapshot().Valid() && owed == Owed(db.Snapshot(), now)
    ensures Distinct(pairs) && SetOf(pairs) == OwedPairs(db.Snapshot(), now, capMs)
  {
    var t := db.Snapshot();
    var rows := set p, e | p in owed && e in t.events && e.id == p.1 :: OwedPair(e.id, p.0, OverCap(e, now, capMs));
    FlaggedRowsAreOwed(t, owed, rows, now, capMs);
    pairs := Listed(rows);
  }

  /** The rows of a result set, one after the other. */
  method Listed(rows: set<OwedPair>) returns (pairs: seq<OwedPair>)
    ensures Distinct(pairs) && SetOf(pairs) == rows
  {
    pairs := [];
    var todo := rows;
    while todo != {}
      invariant Distinct(pairs) && SetOf(pairs) == rows - todo && todo <= rows
    {
      var p :| p in todo;
      assert p !in SetOf(pairs);
      assert SetOf(pairs + [p]) == SetOf(pairs) + {p};
      pairs, todo := pairs + [p], todo - {p};
    }
  }

  lemma FlaggedRowsAreOwed(t: Tables, owed: set<(string, nat)>, rows: set<OwedPair>, now: int, capMs: int)
    requires t.Valid() && owed == Owed(t, now)
    requires rows == set p, e | p in owed && e in t.events && e.id == p.1 :: OwedPair(e.id, p.0, OverCap(e, now, capMs))
    ensures rows == OwedPairs(t, now, capMs)
  {
    forall x | x in rows ensures x in OwedPairs(t, now, capMs) {
      var p, e :| p in owed && e in t.events && e.id == p.1 && x == OwedPair(e.id, p.0, OverCap(e, now, capMs));
      var e' :| e' in t.events && e'.expiresAt < now && Owes(t, p.0, e') && p == (p.0, e'.id);
      AscendingUniqueIds(t.events, e, e');
    }
    forall x | x in OwedPairs(t, now, capMs) ensures x in rows {
      var c, e :| c in t.cursors && e in t.events && e.expiresAt < now && Owes(t, c, e)
                  && x == OwedPair(e.id, c, OverCap(e, now, capMs));
      assert (c, e.id) in owed;
      var p := (c, e.id);
      assert p in owed && e.id == p.1;
    }
  }

  ghost function SetOf(pairs: seq<OwedPair>): (s: set<OwedPair>) {
    set p | p in pairs
  }

  ghost predicate Distinct(pairs: seq<OwedPair>) {
    forall i, j | 0 <= i < j < |pairs| :: pairs[i] != pairs[j]
  }

  // ---------------------------------------------------------------- the reconciliation report

  datatype Disposition = Retained | Archived | Discarded
  datatype Reason = UnackedPolicy | RetentionCap | RetentionCapPending
  datatype Fate = Fate(disposition: Disposition, reason: Reason)

  datatype LineKey = LineKey(cursorId: string, fate: Fate)
  datatype Line = Line(count: nat, oldest: nat, newest: nat)
  datatype Report = Report(counts: map<Disposition, nat>, lines: map<LineKey, Line>)

  function PolicyVerb(policy: Policy): Disposition {
    match policy
    case Retain => Retained
    case Archive => Archived
    case Discard => Discarded
  }

  /** The pairs a report line speaks about. */
  ghost function Group(pairs: set<OwedPair>, fate: OwedPair -> Fate, k: LineKey): (g: set<OwedPair>)
    ensures g <= pairs
  {
    set p | p in pairs && LineKey(p.cursorId, fate(p)) == k
  }

  ghost function EventsWith(pairs: set<OwedPair>, fate: OwedPair -> Fate, d: Disposition): (ids: set<nat>) {
    set p | p in pairs && fate(p).disposition == d :: p.eventId
  }

  /** What a report on `pairs` must say. */
  ghost predicate Reconciles(r: Report, pairs: set<OwedPair>, fate: OwedPair -> Fate, verb: Disposition) {
    && (forall d :: d in r.counts <==> d == verb || EventsWith(pairs, fate, d) != {})
    && (forall d | d in r.counts :: r.counts[d] == |EventsWith(pairs, fate, d)|)
    && (forall k :: k in r.lines <==> Group(pairs, fate, k) != {})
    && (forall k | k in r.lines :: LineIs(r.lines[k], Group(pairs, fate, k)))
  }

  ghost function IdsIn(g: set<OwedPair>): (ids: set<nat>) {
    set p | p in g :: p.eventId
  }

  /** The line counts the group, and its bounds are the least and the greatest event id in it. */
  ghost predicate LineIs(l: Line, g: set<OwedPair>) {
    && l.count == |g|
    && l.oldest in IdsIn(g) && l.newest in IdsIn(g)
    && (forall id | id in IdsIn(g) :: l.oldest <= id <= l.newest)
  }

  /** The contents of a report are determined: two reports on the same pairs are equal. */
  lemma ReconcilesUniquely(a: Report, b: Report, pairs: set<OwedPair>, fate: OwedPair -> Fate, verb: Disposition)
    requires Reconciles(a, pairs, fate, verb) && Reconciles(b, pairs, fate, verb)
    ensures a == b
  {
    assert a.counts == b.counts;
    forall k | k in a.lines ensures a.lines[k] == b.lines[k] {
      var g := Group(pairs, fate, k);
      assert LineIs(a.lines[k], g) && LineIs(b.lines[k], g);
    }
    assert a.lines == b.lines;
  }

  /** Every owed pair is on a line between its bounds, the bounds are of pairs on it, and its disposition is counted. */
  lemma LinesSpanPairs(r: Report, pairs: set<OwedPair>, fate: OwedPair -> Fate, verb: Disposition, p: OwedPair)
    requires Reconciles(r, pairs, fate, verb) && p in pairs
    ensures var k := LineKey(p.cursorId, fate(p));
            && k in r.lines && r.lines[k].oldest <= p.eventId <= r.lines[k].newest
            && (exists q | q in pairs :: LineKey(q.cursorId, fate(q)) == k && q.eventId == r.lines[k].oldest)
            && (exists q | q in pairs :: LineKey(q.cursorId, fate(q)) == k && q.eventId == r.lines[k].newest)
            && fate(p).disposition in r.counts && r.counts[fate(p).disposition] > 0
  {
    var k := LineKey(p.cursorId, fate(p));
    assert p in Group(pairs, fate, k) && p.eventId in IdsIn(Group(pairs, fate, k));
    assert p.eventId in EventsWith(pairs, fate, fate(p).disposition);
  }

  function Extend(line: Line, id: nat): Line {
    Line(line.count + 1, if id < line.oldest then id else line.oldest, if id > line.newest then id else line.newest)
  }

  function LineFor(lines: map<LineKey, Line>, key: LineKey, id: nat): Line {
    if key in lines then lines[key] else Line(0, id, id)
  }

  method BuildUnackedReport(pairs: seq<OwedPair>, fateOf: OwedPair -> Fate, verb: Disposition) returns (report: Report)
    requires Distinct(pairs)
    ensures Reconciles(report, SetOf(pairs), fateOf, verb)
  {
    var counts: map<Disposition, set<nat>> := map[verb := {}];
    var lines: map<LineKey, Line> := map[];
    ghost var seen: set<OwedPair> := {};
    for i := 0 to |pairs|
      invariant seen == SetOf(pairs[..i])
      invariant CountsAre(counts, seen, fateOf, verb)
      invariant LinesAre(lines, seen, fateOf)
    {
      var p := pairs[i];
      SeenOneMore(pairs, i);
      CountOneMore(counts, seen, p, fateOf, verb);
      LineOneMore(lines, seen, p, fateOf);
      var fate := fateOf(p);
      counts := counts[fate.disposition := (if fate.disposition in counts then counts[fate.disposition] else {})
        + {p.eventId}];
      var key := LineKey(p.cursorId, fate);
      lines := lines[key := Extend(LineFor(lines, key, p.eventId), p.eventId)];
      seen := seen + {p};
    }
    assert pairs[..|pairs|] == pairs;
    report := Report(map d | d in counts :: |counts[d]|, lines);
  }

  lemma SeenOneMore(pairs: seq<OwedPair>, i: nat)
    requires Distinct(pairs) && i < |pairs|
    ensures pairs[i] !in SetOf(pairs[..i]) && SetOf(pairs[..i + 1]) == SetOf(pairs[..i]) + {pairs[i]}
  {
    assert pairs[..i + 1] == pairs[..i] + [pairs[i]];
  }

  ghost predicate CountsAre(counts: map<Disposition, set<nat>>, pairs: set<OwedPair>, fate: OwedPair -> Fate,
                            verb: Disposition) {
    && (forall d :: d in counts <==> d == verb || EventsWith(pairs, fate, d) != {})
    && (forall d | d in counts :: counts[d] == EventsWith(pairs, fate, d))
  }

  ghost predicate LinesAre(lines: map<LineKey, Line>, pairs: set<OwedPair>, fate: OwedPair -> Fate) {
    && (forall k :: k in lines <==> Group(pairs, fate, k) != {})
    && (forall k | k in lines :: LineIs(lines[k], Group(pairs, fate, k)))
  }

  lemma CountOneMore(counts: map<Disposition, set<nat>>, seen: set<OwedPair>, p: OwedPair, fate: OwedPair -> Fate,
                     verb: Disposition)
    requires CountsAre(counts, seen, fate, verb)
    ensures var d := fate(p).disposition;
            CountsAre(counts[d := (if d in counts then counts[d] else {}) + {p.eventId}], seen + {p}, fate, verb)
  {
    var d := fate(p).disposition;
    forall x ensures EventsWith(seen + {p}, fate, x) ==
                     EventsWith(seen, fate, x) + if x == d then {p.eventId} else {} {}
  }

  lemma LineGrows(was: Line, g: set<OwedPair>, p: OwedPair)
    requires p !in g
    requires if g == {} then was == Line(0, p.eventId, p.eventId) else LineIs(was, g)
    ensures LineIs(Extend(was, p.eventId), g + {p})
  {
    assert IdsIn(g + {p}) == IdsIn(g) + {p.eventId};
  }

  lemma LineOneMore(lines: map<LineKey, Line>, seen: set<OwedPair>, p: OwedPair, fate: OwedPair -> Fate)
    requires LinesAre(lines, seen, fate) && p !in seen
    ensures var key := LineKey(p.cursorId, fate(p));
            LinesAre(lines[key := Extend(LineFor(lines, key, p.eventId), p.eventId)], seen + {p}, fate)
  {
    var key := LineKey(p.cursorId, fate(p));
    var line := Extend(LineFor(lines, key, p.eventId), p.eventId);
    var after := lines[key := line];
    GroupOneMore(seen, p, fate, key);
    LineGrows(LineFor(lines, key, p.eventId), Group(seen, fate, key), p);
    forall k
      ensures k in after <==> Group(seen + {p}, fate, k) != {}
      ensures k in after ==> LineIs(after[k], Group(seen + {p}, fate, k))
    {
      GroupOneMore(seen, p, fate, k);
    }
  }

  lemma GroupOneMore(seen: set<OwedPair>, p: OwedPair, fate: OwedPair -> Fate, k: LineKey)
    ensures Group(seen + {p}, fate, k) ==
            if k == LineKey(p.cursorId, fate(p)) then Group(seen, fate, k) + {p} else Group(seen, fate, k)
  {
  }

  // ---------------------------------------------------------------- reconciliation

  ghost function Total(lines: map<LineKey, Line>, keys: set<LineKey>): (n: nat)
    requires keys <= lines.Keys
  {
    if keys == {} then 0
    else
      var k := Pick(keys);
      lines[k].count + Total(lines, keys - {k})
  }

  ghost function Pick(keys: set<LineKey>): (k: LineKey)
    requires keys != {}
    ensures k in keys
  {
    var k :| k in keys;
    k
  }

  /** Every owed pair is counted on exactly one line. */
  lemma LineCountsSumToPairs(r: Report, pairs: set<OwedPair>, fate: OwedPair -> Fate, verb: Disposition)
    requires Reconciles(r, pairs, fate, verb)
    ensures Total(r.lines, r.lines.Keys) == |pairs|
  {
    forall p | p in pairs ensures LineKey(p.cursorId, fate(p)) in r.lines {
      assert p in Group(pairs, fate, LineKey(p.cursorId, fate(p)));
    }
    TotalOf(r, pairs, fate, verb, r.lines.Keys);
    assert pairs == OnLines(pairs, fate, r.lines.Keys);
  }

  ghost function OnLines(pairs: set<OwedPair>, fate: OwedPair -> Fate, keys: set<LineKey>): (s: set<OwedPair>) {
    set p | p in pairs && LineKey(p.cursorId, fate(p)) in keys
  }

  lemma {:induction false} TotalOf(r: Report, pairs: set<OwedPair>, fate: OwedPair -> Fate, verb: Disposition,
                                   keys: set<LineKey>)
    requires Reconciles(r, pairs, fate, verb) && keys <= r.lines.Keys
    ensures Total(r.lines, keys) == |OnLines(pairs, fate, keys)|
  {
    if keys == {} {
      assert OnLines(pairs, fate, keys) == {};
    } else {
      var k := Pick(keys);
      TotalOf(r, pairs, fate, verb, keys - {k});
      SplitLine(pairs, fate, keys, k);
      assert LineIs(r.lines[k], Group(pairs, fate, k));
    }
  }

  lemma SplitLine(pairs: set<OwedPair>, fate: OwedPair -> Fate, keys: set<LineKey>, k: LineKey)
    requires k in keys
    ensures |OnLines(pairs, fate, keys)| == |Group(pairs, fate, k)| + |OnLines(pairs, fate, keys - {k})|
  {
    var g, others := Group(pairs, fate, k), OnLines(pairs, fate, keys - {k});
    assert OnLines(pairs, fate, keys) == g + others && g !! others;
  }

  function CountOf(r: Report, d: Disposition): (n: nat) {
    if d in r.counts then r.counts[d] else 0
  }

  /** When the fate of a pair is the fate of its event, the disposition counts partition the owed events. */
  lemma CountsPartitionEvents(r: Report, pairs: set<OwedPair>, fate: OwedPair -> Fate, verb: Disposition)
    requires Reconciles(r, pairs, fate, verb)
    requires forall p, q | p in pairs && q in pairs && p.eventId == q.eventId
        :: fate(p).disposition == fate(q).disposition
    ensures CountOf(r, Retained) + CountOf(r, Archived) + CountOf(r, Discarded) == |IdsIn(pairs)|
  {
    var a, b, c := EventsWith(pairs, fate, Retained), EventsWith(pairs, fate, Archived),
      EventsWith(pairs, fate, Discarded);
    assert CountOf(r, Retained) == |a| && CountOf(r, Archived) == |b| && CountOf(r, Discarded) == |c|;
    forall id | id in IdsIn(pairs) ensures id in a + b + c {
      var p :| p in pairs && p.eventId == id;
      match fate(p).disposition
      case Retained => assert id in a;
      case Archived => assert id in b;
      case Discarded => assert id in c;
    }
    assert IdsIn(pairs) == a + b + c;
    assert a !! b && (a + b) !! c;
  }

  /** Reports that give every pair the same fate are the same report. */
  lemma SameFatesSameReport(a: Report, b: Report, pairs: set<OwedPair>, f: OwedPair -> Fate, g: OwedPair -> Fate,
                            verb: Disposition)
    requires Reconciles(a, pairs, f, verb) && Reconciles(b, pairs, g, verb)
    requires forall p | p in pairs :: f(p) == g(p)
    ensures a == b
  {
    forall k ensures Group(pairs, f, k) == Group(pairs, g, k) {}
    forall d ensures EventsWith(pairs, f, d) == EventsWith(pairs, g, d) {}
    assert Reconciles(b, pairs, f, verb);
    ReconcilesUniquely(a, b, pairs, f, verb);
  }

  /** Reports that give some pair a different fate are different reports. */
  lemma DifferentFatesDifferentReports(a: Report, b: Report, ps: set<OwedPair>, qs: set<OwedPair>,
                                       f: OwedPair -> Fate, g: OwedPair -> Fate, v: Disposition, w: Disposition,
                                       k: LineKey)
    requires Reconciles(a, ps, f, v) && Reconciles(b, qs, g, w)
    requires (Group(ps, f, k) == {}) != (Group(qs, g, k) == {})
    ensures a != b
  {
    assert (k in a.lines) != (k in b.lines);
  }
}
