/**
 How a tiered pass picks its rows (lib/sweep-v2.js): one batch of expired rows, oldest first, without
 the held ones.
 */
module Batches {
  import opened Events

  function ExpiredAt(now: int): Event -> bool {
    (e: Event) => e.expiresAt < now
  }

  function Unheld(held: set<nat>): Event -> bool {
    (e: Event) => e.id !in held
  }

  function Movable(now: int, held: set<nat>): Event -> bool {
    (e: Event) => e.expiresAt < now && e.id !in held
  }

  function Staying(now: int, held: set<nat>): Event -> bool {
    (e: Event) => !(e.expiresAt < now && e.id !in held)
  }

  /** `WHERE expires_at < now ORDER BY event_id LIMIT batch + |held|`, then drop the held rows and cut. */
  function Candidates(live: seq<Event>, now: int, held: set<nat>, batch: nat): (rows: seq<Event>) {
    Limit(Where(Limit(Where(live, ExpiredAt(now)), batch + |held|), Unheld(held)), batch)
  }

  /** The rows a pass may move: expired and not held. */
  function Eligible(live: seq<Event>, now: int, held: set<nat>): (rows: seq<Event>) {
    Where(live, Movable(now, held))
  }

  lemma {:induction false} WhereConcat(a: seq<Event>, b: seq<Event>, p: Event -> bool)
    ensures Where(a + b, p) == Where(a, p) + Where(b, p)
  {
    if a == [] {
      assert a + b == b;
    } else {
      assert (a + b)[1..] == a[1..] + b;
      WhereConcat(a[1..], b, p);
    }
  }

  lemma {:induction false} WhereTwice(rows: seq<Event>, p: Event -> bool, q: Event -> bool, both: Event -> bool)
    requires forall e :: both(e) <==> p(e) && q(e)
    ensures Where(Where(rows, p), q) == Where(rows, both)
  {
    if rows != [] {
      WhereTwice(rows[1..], p, q, both);
      if p(rows[0]) {
        assert Where(rows, p)[1..] == Where(rows[1..], p);
      }
    }
  }

  lemma {:induction false} WhereSplits(rows: seq<Event>, p: Event -> bool, q: Event -> bool)
    requires forall e :: q(e) <==> !p(e)
    ensures |Where(rows, p)| + |Where(rows, q)| == |rows|
  {
    if rows != [] { WhereSplits(rows[1..], p, q); }
  }

  /** At most |held| rows of a table are held, so widening the fetch by |held| leaves a full batch. */
  lemma HeldAreFew(rows: seq<Event>, held: set<nat>)
    requires Ascending(rows)
    ensures |Where(rows, Unheld(held))| >= |rows| - |held|
  {
    var dropped := Where(rows, (e: Event) => e.id in held);
    WhereSplits(rows, Unheld(held), (e: Event) => e.id in held);
    IdsCount(dropped);
    SubsetSize(Ids(dropped), held);
  }

  /** A pass picks exactly the first `batch` rows, by id, that are expired and not held. */
  lemma BatchIsOldestEligible(live: seq<Event>, now: int, held: set<nat>, batch: nat)
    requires Ascending(live)
    ensures Candidates(live, now, held, batch) == Limit(Eligible(live, now, held), batch)
  {
    var expired, k := Where(live, ExpiredAt(now)), batch + |held|;
    WhereTwice(live, ExpiredAt(now), Unheld(held), Movable(now, held));
    if k >= |expired| {
      assert Limit(expired, k) == expired;
    } else {
      assert Limit(expired, k) == expired[..k] && expired == expired[..k] + expired[k..];
      WhereConcat(expired[..k], expired[k..], Unheld(held));
      AscendingTail(expired, k);
      HeldAreFew(expired[..k], held);
      LimitOfMore(Where(expired[..k], Unheld(held)), Where(expired[k..], Unheld(held)), batch);
    }
  }

  lemma LimitOfMore(a: seq<Event>, b: seq<Event>, n: nat)
    requires n <= |a|
    ensures Limit(a + b, n) == Limit(a, n)
  {
  }

  /** The live table after a pass that got all its rows out. */
  function Passed(live: seq<Event>, now: int, held: set<nat>, batch: nat): (r: seq<Event>) {
    var gone := Ids(Candidates(live, now, held, batch));
    Where(live, Unheld(gone))
  }

  function Passes(live: seq<Event>, now: int, held: set<nat>, batch: nat, k: nat): (r: seq<Event>)
    decreases k
  {
    if k == 0 then live else Passed(Passes(live, now, held, batch, k - 1), now, held, batch)
  }

  lemma OnePassTakesABatch(live: seq<Event>, now: int, held: set<nat>, batch: nat)
    requires Ascending(live)
    ensures Ascending(Passed(live, now, held, batch))
    ensures var all := Eligible(live, now, held);
            Eligible(Passed(live, now, held, batch), now, held) == After(all, batch)
    ensures Where(Passed(live, now, held, batch), Staying(now, held))
         == Where(live, Staying(now, held))
  {
    BatchIsOldestEligible(live, now, held, batch);
    var all := Eligible(live, now, held);
    var picked := Candidates(live, now, held, batch);
    var rest := After(all, batch);
    var after := Passed(live, now, held, batch);
    if batch <= |all| { AscendingTail(all, batch); }
    assert all == picked + rest;
    forall e | e in live ensures e in after <==> e !in picked {
      if e.id in Ids(picked) {
        var x :| x in picked && x.id == e.id;
        AscendingUniqueIds(live, x, e);
      }
    }
    SplitApart(picked, rest);
    forall e ensures e in Eligible(after, now, held) <==> e in rest {
      assert e in all <==> e in picked || e in rest;
    }
    SameRows(Eligible(after, now, held), rest);
    SameRows(Where(after, Staying(now, held)), Where(live, Staying(now, held)));
  }

  lemma SplitApart(a: seq<Event>, b: seq<Event>)
    requires Ascending(a + b)
    ensures forall e | e in a :: e !in b
  {
    forall i, j | 0 <= i < |a| && 0 <= j < |b| ensures a[i] != b[j] {
      assert (a + b)[i].id < (a + b)[|a| + j].id;
    }
  }

  /** All but the first `n` rows. */
  function After(rows: seq<Event>, n: nat): (r: seq<Event>) {
    if n <= |rows| then rows[n..] else []
  }

  lemma AfterAfter(rows: seq<Event>, m: nat, n: nat)
    ensures After(After(rows, m), n) == After(rows, m + n)
  {
  }

  function Product(k: nat, batch: nat): (n: nat) {
    if k == 0 then 0 else Product(k - 1, batch) + batch
  }

  lemma {:induction false} ProductIs(k: nat, batch: nat)
    ensures Product(k, batch) == k * batch
  {
    if k > 0 {
      ProductIs(k - 1, batch);
      assert k * batch == (k - 1) * batch + batch;
    }
  }

  /** `r` is `live` without its `n` oldest eligible rows. */
  ghost predicate Left(live: seq<Event>, r: seq<Event>, now: int, held: set<nat>, n: nat) {
    && Ascending(r)
    && Eligible(r, now, held) == After(Eligible(live, now, held), n)
    && Where(r, Staying(now, held)) == Where(live, Staying(now, held))
  }

  lemma LeftNothing(live: seq<Event>, now: int, held: set<nat>)
    requires Ascending(live)
    ensures Left(live, live, now, held, 0)
  {
  }

  lemma LeftOneMore(live: seq<Event>, r: seq<Event>, r': seq<Event>, now: int, held: set<nat>, n: nat, batch: nat)
    requires Left(live, r, now, held, n) && r' == Passed(r, now, held, batch)
    ensures Left(live, r', now, held, n + batch)
  {
    OnePassTakesABatch(r, now, held, batch);
    AfterAfter(Eligible(live, now, held), n, batch);
  }

  lemma PassesUnfold(live: seq<Event>, now: int, held: set<nat>, batch: nat, k: nat)
    ensures Passes(live, now, held, batch, 0) == live && Product(0, batch) == 0
    ensures k > 0
        ==> Passes(live, now, held, batch, k) == Passed(Passes(live, now, held, batch, k - 1), now, held, batch)
    ensures k > 0 ==> Product(k, batch) == Product(k - 1, batch) + batch
  {
  }

  ghost predicate LeftAfter(live: seq<Event>, now: int, held: set<nat>, batch: nat, k: nat) {
    Left(live, Passes(live, now, held, batch, k), now, held, Product(k, batch))
  }

  lemma OnePassMore(live: seq<Event>, now: int, held: set<nat>, batch: nat, k: nat)
    requires LeftAfter(live, now, held, batch, k)
    ensures LeftAfter(live, now, held, batch, k + 1)
  {
    var r := Passes(live, now, held, batch, k);
    PassesUnfold(live, now, held, batch, k + 1);
    LeftOneMore(live, r, Passed(r, now, held, batch), now, held, Product(k, batch), batch);
  }

  lemma PassesLeave(live: seq<Event>, now: int, held: set<nat>, batch: nat, k: nat)
    requires Ascending(live)
    ensures LeftAfter(live, now, held, batch, k)
  {
    LeftNothing(live, now, held);
    PassesUnfold(live, now, held, batch, 0);
    for i := 0 to k
      invariant LeftAfter(live, now, held, batch, i)
    {
      OnePassMore(live, now, held, batch, i);
    }
  }

  /**
   With the held rows fixed and nothing in the way, `k` passes move the oldest `k * batch` eligible
   rows and nothing else; ceil(n / batch) passes are needed, and enough, to move all n of them.
   */
  lemma PassesMoveOldestFirst(live: seq<Event>, now: int, held: set<nat>, batch: nat, k: nat)
    requires Ascending(live)
    ensures Left(live, Passes(live, now, held, batch, k), now, held, k * batch)
    ensures batch > 0 ==>
      (Eligible(Passes(live, now, held, batch, k), now, held) == []
       <==> k >= Ceiling(|Eligible(live, now, held)|, batch))
  {
    PassesLeave(live, now, held, batch, k);
    ProductIs(k, batch);
    if batch > 0 { CeilingDivision(|Eligible(live, now, held)|, batch, k); }
  }

  function Ceiling(n: nat, d: nat): (q: nat)
    requires d > 0
  {
    (n + d - 1) / d
  }

  lemma CeilingDivision(n: nat, batch: nat, k: nat)
    requires batch > 0
    ensures Product(k, batch) >= n <==> k >= Ceiling(n, batch)
  {
    var q := Ceiling(n, batch);
    ProductIs(q, batch);
    assert q * batch <= n + batch - 1 < q * batch + batch;
    if k >= q {
      ProductGrows(q, k, batch);
    } else {
      ProductGrows(k + 1, q, batch);
    }
  }

  lemma {:induction false} ProductGrows(j: nat, k: nat, batch: nat)
    requires j <= k
    ensures Product(j, batch) <= Product(k, batch)
  {
    if j < k { ProductGrows(j, k - 1, batch); }
  }
}
