/**
 Rows of the event log and the tables made of them.

 A table of events is a sequence of rows in primary-key order, which is how SQLite keeps it and how
 every `SELECT ... ORDER BY event_id` returns it.
 */
module Events {

  datatype Payload = Inline(text: string) | CasRef(sha: string)

  datatype Event = Event(
    id: nat,
    etype: string,
    domain: string,
    subdomain: string,
    payload: Payload,
    key: string,
    emittedAt: int,
    expiresAt: int,
    dedupExpiresAt: int)

  /** Primary-key order: ids strictly increase, so no id occurs twice. */
  ghost predicate Ascending(rows: seq<Event>) {
    forall i, j | 0 <= i < j < |rows| :: rows[i].id < rows[j].id
  }

  function Ids(rows: seq<Event>): (s: set<nat>) {
    set e | e in rows :: e.id
  }

  /** The event without its idempotency key, the one column that is ever rewritten. */
  function Bare(e: Event): (r: Event) {
    e.(key := "")
  }

  /** The rows with the keys of some ids rewritten. */
  function WithKeys(rows: seq<Event>, keys: map<nat, string>): (r: seq<Event>)
    ensures |r| == |rows|
    ensures forall i | 0 <= i < |rows| ::
              r[i] == if rows[i].id in keys then rows[i].(key := keys[rows[i].id]) else rows[i]
  {
    seq(|rows|, i requires 0 <= i < |rows| =>
      if rows[i].id in keys then rows[i].(key := keys[rows[i].id]) else rows[i])
  }

  /** `UPDATE ... SET idempotency_key = key WHERE event_id = id`. */
  function WithKey(rows: seq<Event>, id: nat, key: string): (r: seq<Event>)
    ensures |r| == |rows|
    ensures forall i | 0 <= i < |rows| :: r[i] == if rows[i].id == id then rows[i].(key := key) else rows[i]
  {
    WithKeys(rows, map[id := key])
  }

  /** Rewriting keys changes no id and no order. */
  lemma WithKeysIds(rows: seq<Event>, keys: map<nat, string>)
    ensures Ids(WithKeys(rows, keys)) == Ids(rows)
    ensures Ascending(rows) ==> Ascending(WithKeys(rows, keys))
  {
    var r := WithKeys(rows, keys);
    forall x ensures x in Ids(r) <==> x in Ids(rows) {
      if x in Ids(r) {
        var i :| 0 <= i < |r| && r[i].id == x;
        assert rows[i] in rows;
      }
      if x in Ids(rows) {
        var i :| 0 <= i < |rows| && rows[i].id == x;
        assert r[i] in r;
      }
    }
  }

  /** The rows after the first. */
  lemma Tail(rows: seq<Event>)
    requires rows != []
    ensures forall e :: e in rows <==> e == rows[0] || e in rows[1..]
    ensures Ascending(rows) ==> Ascending(rows[1..]) && forall e | e in rows[1..] :: rows[0].id < e.id
  {
    assert rows == [rows[0]] + rows[1..];
  }

  lemma AscendingCons(e: Event, rest: seq<Event>)
    ensures Ascending(rest) && (forall x | x in rest :: e.id < x.id) ==> Ascending([e] + rest)
  {
  }

  /** `SELECT * FROM rows WHERE p ORDER BY event_id`. */
  function Where(rows: seq<Event>, p: Event -> bool): (r: seq<Event>)
    ensures forall e :: e in r <==> e in rows && p(e)
    ensures Ascending(rows) ==> Ascending(r)
    ensures |r| <= |rows|
  {
    if rows == [] then []
    else
      var rest := Where(rows[1..], p);
      Tail(rows);
      AscendingCons(rows[0], rest);
      if p(rows[0]) then [rows[0]] + rest else rest
  }

  /** `LIMIT n`: SQLite treats a negative limit as none. */
  function Limit(rows: seq<Event>, n: int): (r: seq<Event>)
    ensures r <= rows
    ensures n >= 0 ==> |r| <= n
    ensures |r| < |rows| ==> |r| == n
  {
    if 0 <= n <= |rows| then rows[..n] else rows
  }

  lemma AscendingTail(rows: seq<Event>, i: nat)
    requires Ascending(rows) && i <= |rows|
    ensures Ascending(rows[i..]) && Ascending(rows[..i])
  {
  }

  lemma AscendingUniqueIds(rows: seq<Event>, a: Event, b: Event)
    requires Ascending(rows) && a in rows && b in rows && a.id == b.id
    ensures a == b
  {
    var i :| 0 <= i < |rows| && rows[i] == a;
    var j :| 0 <= j < |rows| && rows[j] == b;
  }

  /** A table is determined by the rows it holds. */
  lemma {:induction false} SameRows(a: seq<Event>, b: seq<Event>)
    requires Ascending(a) && Ascending(b)
    requires forall e :: e in a <==> e in b
    ensures a == b
  {
    HeadIn(b);
    if a == [] {
    } else {
      assert a[0] in b && b[0] in a;
      FirstIsLeast(a, b[0]);
      FirstIsLeast(b, a[0]);
      AscendingUniqueIds(b, a[0], b[0]);
      Tail(a);
      Tail(b);
      SameRows(a[1..], b[1..]);
      assert a == [a[0]] + a[1..] && b == [b[0]] + b[1..];
    }
  }

  lemma HeadIn(rows: seq<Event>)
    ensures rows == [] || rows[0] in rows
  {
  }

  lemma FirstIsLeast(rows: seq<Event>, e: Event)
    requires Ascending(rows) && e in rows
    ensures rows[0].id <= e.id
  {
    var i :| 0 <= i < |rows| && rows[i] == e;
  }

  /** Each row of a table contributes its own id. */
  lemma {:induction false} IdsCount(rows: seq<Event>)
    requires Ascending(rows)
    ensures |Ids(rows)| == |rows|
  {
    if rows == [] {
    } else {
      var n := |rows| - 1;
      AscendingTail(rows, n);
      IdsCount(rows[..n]);
      assert rows == rows[..n] + [rows[n]];
      assert Ids(rows) == Ids(rows[..n]) + {rows[n].id};
      assert rows[n].id !in Ids(rows[..n]);
    }
  }

  /** What a limited, ordered selection leaves out comes after everything it returns. */
  lemma LimitedSelection(rows: seq<Event>, p: Event -> bool, n: int)
    requires Ascending(rows)
    ensures var r := Limit(Where(rows, p), n);
            && Ascending(r)
            && (forall e | e in r :: e in rows && p(e))
            && (forall e | e in rows && p(e) && e !in r :: |r| == n && forall x | x in r :: x.id < e.id)
  {
    var all := Where(rows, p);
    var r := Limit(all, n);
    assert forall i | 0 <= i < |r| :: r[i] == all[i];
    forall e | e in all && e !in r
      ensures |r| == n && forall x | x in r :: x.id < e.id
    {
      var j :| 0 <= j < |all| && all[j] == e;
      forall x | x in r ensures x.id < e.id {
        var i :| 0 <= i < |r| && r[i] == x;
        assert all[i].id < all[j].id;
      }
    }
  }

  lemma SubsetSize(a: set<nat>, b: set<nat>)
    requires a <= b
    ensures |a| <= |b|
  {
    assert b == a + (b - a);
  }
}
