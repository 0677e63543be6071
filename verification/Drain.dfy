/**
 `subscribe --drain` (commands/cmd-subscribe.js): page through the backlog with an in-memory floor and
 stop when it is empty.
 */
module Drain {
  import opened Wrappers
  import opened Events
  import opened Database

  predicate Stale(t: Tables, c: string)
    requires c in t.cursors
  {
    t.events != [] && t.cursors[c].last < t.events[0].id - 1
  }

  function LastId(rows: seq<Event>, floor: int): (id: int) {
    if rows == [] then floor else rows[|rows| - 1].id
  }

  lemma InTail(all: seq<Event>, n: nat, e: Event)
    requires Ascending(all) && n <= |all| && e in all
    ensures e in all[n..] <==> n == 0 || e.id > all[n - 1].id
  {
    var i :| 0 <= i < |all| && all[i] == e;
    if i >= n {
      assert all[n..][i - n] == e;
    } else {
      forall k | n <= k < |all| ensures all[k] != e { assert all[i].id < all[k].id; }
    }
  }

  lemma LastIdIs(all: seq<Event>, n: nat, floor: int)
    requires n <= |all| && forall e | e in all :: e.id > floor
    ensures var next := LastId(all[..n], floor);
            next >= floor && (n == 0 ==> next == floor) && (n > 0 ==> next == all[n - 1].id)
  {
    if n > 0 { assert all[n - 1] in all; }
  }

  /** Reading on from the last row of a page leaves exactly the rest. */
  lemma NextPage(t: Tables, c: string, floor: int, n: nat)
    requires t.Valid() && c in t.cursors && n <= |t.Above(c, floor)|
    ensures t.Above(c, LastId(t.Above(c, floor)[..n], floor)) == t.Above(c, floor)[n..]
  {
    var all := t.Above(c, floor);
    var next := LastId(all[..n], floor);
    LastIdIs(all, n, floor);
    AscendingTail(all, n);
    forall e ensures e in t.Above(c, next) <==> e in all[n..] { RowInNextPage(t, c, floor, n, next, e); }
    SameRows(t.Above(c, next), all[n..]);
  }

  lemma RowInNextPage(t: Tables, c: string, floor: int, n: nat, next: int, e: Event)
    requires t.Valid() && c in t.cursors && n <= |t.Above(c, floor)| && next >= floor
    requires (n == 0 ==> next == floor) && (n > 0 ==> next == t.Above(c, floor)[n - 1].id)
    ensures e in t.Above(c, next) <==> e in t.Above(c, floor)[n..]
  {
    var all := t.Above(c, floor);
    assert e in t.Above(c, next) <==> e in all && e.id > next;
    if e in all { InTail(all, n, e); }
    assert e in all[n..] ==> e in all;
  }

  /** Rows do not depend on where the cursor stands. */
  lemma CursorIndependent(t: Tables, t': Tables, c: string, floor: int)
    requires t.Valid() && t'.Valid() && c in t.cursors && c in t'.cursors
    requires t'.events == t.events && t'.subscriptions == t.subscriptions
        && t'.cursors[c].subscription == t.cursors[c].subscription
    ensures t'.Above(c, floor) == t.Above(c, floor)
  {
    SameRows(t'.Above(c, floor), t.Above(c, floor));
  }

  /** Hand over one page, acknowledging each event as it goes. */
  method DeliverPage(db: Database, c: string, page: seq<Event>, start: int, noAck: bool) returns (floor: int)
    requires db.Snapshot().Valid() && c in db.cursors && db.cursors[c].active
    modifies db`cursors
    ensures floor == LastId(page, start)
    ensures db.Snapshot() == if noAck || page == [] then old(db.Snapshot()) else old(db.Snapshot()).MoveCursor(c, floor)
  {
    floor := start;
    for i := 0 to |page|
      invariant floor == LastId(page[..i], start)
      invariant db.Snapshot() == if noAck || i == 0 then old(db.Snapshot()) else old(db.Snapshot()).MoveCursor(c, floor)
    {
      floor := page[i].id;
      if !noAck {
        var r := db.Ack(c, page[i].id);
        MoveTwice(old(db.Snapshot()), c, LastId(page[..i], start), floor);
      }
    }
    assert page[..|page|] == page;
  }

  lemma MoveTwice(t: Tables, c: string, first: int, second: int)
    requires c in t.cursors
    ensures t.MoveCursor(c, first).MoveCursor(c, second) == t.MoveCursor(c, second)
  {
    assert t.MoveCursor(c, first).MoveCursor(c, second).cursors == t.MoveCursor(c, second).cursors;
  }

  /** Move the cursor just below the oldest survivor. */
  method RecoverFromStale(db: Database, c: string, oldest: nat) returns (r: Result<int, Error>)
    requires c in db.cursors && db.cursors[c].active
    modifies db`cursors
    ensures r == if oldest == 0 then Err(InvalidInput) else Ok(oldest - 1)
    ensures db.Snapshot() == if r.Ok? then old(db.Snapshot()).MoveCursor(c, oldest - 1) else old(db.Snapshot())
  {
    r := db.ReanchorCursor(c, oldest - 1);
  }

  /** Every live row lies more than one above the cursor. */
  ghost predicate Behind(t: Tables, c: string)
    requires c in t.cursors
  {
    t.events != [] && forall e | e in t.events :: t.cursors[c].last + 1 < e.id
  }

  /**
   On a quiescent log a drain ends.  It fails on a cursor that is not active, on one behind the window when it
   is not to recover, and when the oldest row has id 0; then nothing happens.  Otherwise it has handed over
   the live rows above the cursor that the filter selects, ascending and each once, for any batch size,
   acknowledging or not; the result is the last row handed over, or where the cursor stands.  With
   acknowledgements the cursor ends there; without, it moves only from behind the window, to just below the
   oldest row.
   */
  method RunDrain(db: Database, c: string, batchSize: int, noAck: bool, recover: bool)
    returns (out: seq<Event>, r: Result<int, Error>)
    requires db.Snapshot().Valid()
    modifies db`cursors
    ensures var t := old(db.Snapshot());
            if c !in t.cursors || !t.cursors[c].active then r == Err(CursorNotFound)
            else if Behind(t, c) && !recover then r == Err(BehindWindow(t.cursors[c].last, t.events[0].id))
            else if Behind(t, c) && t.events[0].id == 0 then r == Err(InvalidInput)
            else r.Ok?
    ensures r.Err? ==> out == [] && db.Snapshot() == old(db.Snapshot())
    ensures r.Ok? ==> Drained(old(db.Snapshot()), db.Snapshot(), c, noAck, out, r.value)
  {
    ghost var t := db.Snapshot();
    out := [];
    var floor := if c in db.cursors then db.cursors[c].last else 0;
    var poll := db.Snapshot().Poll(c, batchSize, Some(floor));
    if c in db.cursors { BehindIs(t, c); }
    if poll.Ok? {
      out, floor := DrainPages(db, c, batchSize, noAck, floor);
      DrainedFrom(t, db.Snapshot(), c, floor, noAck, out);
      r := Ok(floor);
    } else if poll.error.BehindWindow? && recover {
      out, r := RecoverAndDrain(db, c, batchSize, noAck, poll.error.oldest);
      if r.Ok? { DrainedFrom(t, db.Snapshot(), c, r.value, noAck, out); }
    } else {
      r := Err(poll.error);
    }
  }

  /**
   The rows handed over are the live ones above the cursor that its filter selects, and the cursor is on the
   last of them, or where it started: at its old position, or just below the oldest row.
   */
  ghost predicate Drained(t: Tables, now: Tables, c: string, noAck: bool, out: seq<Event>, position: int)
    requires t.Valid() && c in t.cursors
  {
    var start := if Behind(t, c) then t.events[0].id - 1 else t.cursors[c].last;
    && Ascending(out)
    && (forall e :: e in out <==> e in t.events && t.cursors[c].last < e.id && t.Wants(c, e))
    && out == t.Deliverable(c)
    && position == (if out == [] then start else out[|out| - 1].id)
    && now == t.(cursors := t.cursors[c := t.cursors[c].(last := if noAck then start else position)])
  }

  lemma DrainedFrom(t: Tables, now: Tables, c: string, position: int, noAck: bool, out: seq<Event>)
    requires t.Valid() && c in t.cursors
    requires var start := if Stale(t, c) then t.events[0].id - 1 else t.cursors[c].last;
             && out == t.Above(c, start) && position == LastId(out, start)
             && now == if Stale(t, c) then t.MoveCursor(c, if noAck then start else position)
                       else if noAck || out == [] then t else t.MoveCursor(c, position)
    ensures Drained(t, now, c, noAck, out, position)
  {
    BehindIs(t, c);
    if Stale(t, c) { StaleLosesNothing(t, c); }
    assert t.cursors[c := t.cursors[c]] == t.cursors;
  }

  lemma BehindIs(t: Tables, c: string)
    requires t.Valid() && c in t.cursors
    ensures Behind(t, c) <==> Stale(t, c)
  {
    if t.events != [] { FirstIsLowest(t.events); }
  }

  /** From just below the oldest row on, a cursor behind the window has the same rows to receive. */
  lemma StaleLosesNothing(t: Tables, c: string)
    requires t.Valid() && c in t.cursors && Stale(t, c)
    ensures t.Above(c, t.events[0].id - 1) == t.Deliverable(c)
  {
    FirstIsLowest(t.events);
    SameRows(t.Above(c, t.events[0].id - 1), t.Deliverable(c));
  }

  /** A cursor behind the window: re-anchor it, then drain from the new floor. */
  method RecoverAndDrain(db: Database, c: string, batchSize: int, noAck: bool, oldest: nat)
    returns (out: seq<Event>, r: Result<int, Error>)
    requires db.Snapshot().Valid() && c in db.cursors && db.cursors[c].active && Stale(db.Snapshot(), c)
    requires oldest == db.events[0].id
    modifies db`cursors
    ensures var t := old(db.Snapshot());
            if oldest == 0 then out == [] && r == Err(InvalidInput) && db.Snapshot() == t
            else
              && out == t.Above(c, oldest - 1)
              && r == Ok(LastId(out, oldest - 1))
              && db.Snapshot() == t.MoveCursor(c, if noAck then oldest - 1 else r.value)
  {
    ghost var t := db.Snapshot();
    out := [];
    r := RecoverFromStale(db, c, oldest);
    if r.Err? {
      return;
    }
    var floor;
    out, floor := DrainMoved(db, c, batchSize, noAck, r.value, t);
    r := Ok(floor);
  }

  /** The cursor has just been moved to `start`. */
  method DrainMoved(db: Database, c: string, batchSize: int, noAck: bool, start: int, ghost t: Tables)
    returns (out: seq<Event>, floor: int)
    requires t.Valid() && c in t.cursors && t.cursors[c].active && Stale(t, c) && start == t.events[0].id - 1
    requires db.Snapshot() == t.MoveCursor(c, start)
    modifies db`cursors
    ensures out == t.Above(c, start) && floor == LastId(out, start)
    ensures db.Snapshot() == t.MoveCursor(c, if noAck then start else floor)
  {
    RecoveredIsNotStale(t, c);
    CursorIndependent(t, db.Snapshot(), c, start);
    out, floor := DrainPages(db, c, batchSize, noAck, start);
    MovedAgain(t, db.Snapshot(), c, start, floor, noAck, out);
  }

  lemma MovedAgain(t: Tables, now: Tables, c: string, first: int, second: int, noAck: bool, out: seq<Event>)
    requires c in t.cursors && second == LastId(out, first)
    requires var moved := t.MoveCursor(c, first);
             now == if noAck || out == [] then moved else moved.MoveCursor(c, second)
    ensures now == t.MoveCursor(c, if noAck then first else second)
  {
    MoveTwice(t, c, first, second);
  }

  lemma RecoveredIsNotStale(t: Tables, c: string)
    requires t.Valid() && c in t.cursors && Stale(t, c)
    ensures !Stale(t.MoveCursor(c, t.events[0].id - 1), c)
  {
  }

  /** The loop proper, from a cursor inside the window. */
  method DrainPages(db: Database, c: string, batchSize: int, noAck: bool, start: int)
    returns (out: seq<Event>, floor: int)
    requires db.Snapshot().Valid() && c in db.cursors && db.cursors[c].active && !Stale(db.Snapshot(), c)
    requires start >= db.cursors[c].last
    modifies db`cursors
    ensures out == old(db.Snapshot()).Above(c, start) && floor == LastId(out, start)
    ensures db.Snapshot() == if noAck || out == [] then old(db.Snapshot()) else old(db.Snapshot()).MoveCursor(c, floor)
  {
    ghost var t := db.Snapshot();
    floor, out := start, [];
    while true
      invariant Reached(t, db.Snapshot(), c, start, out, floor, noAck)
      decreases |t.Above(c, start)| - |out|
    {
      PollGivesRest(t, db.Snapshot(), c, start, out, floor, noAck, batchSize);
      var poll := db.Snapshot().Poll(c, batchSize, Some(floor));
      var page := poll.value;
      if page == [] {
        break;
      }
      PageReached(t, db.Snapshot(), c, start, out, floor, noAck, page);
      floor := DeliverPage(db, c, page, floor, noAck);
      out := out + page;
    }
  }

  /** After handing over `out`: where the floor and the cursor stand, and what is left. */
  ghost predicate Reached(t: Tables, now: Tables, c: string, start: int, out: seq<Event>, floor: int, noAck: bool) {
    && t.Valid() && c in t.cursors && t.cursors[c].active && !Stale(t, c) && start >= t.cursors[c].last
    && out <= t.Above(c, start) && floor == LastId(out, start)
    && t.Above(c, floor) == t.Above(c, start)[|out|..]
    && now == if noAck || out == [] then t else t.MoveCursor(c, floor)
  }

  lemma PollGivesRest(t: Tables, now: Tables, c: string, start: int, out: seq<Event>, floor: int, noAck: bool,
                      batchSize: int)
    requires Reached(t, now, c, start, out, floor, noAck)
    ensures now.Valid() && c in now.cursors && now.cursors[c].active && now.Poll(c, batchSize, Some(floor)).Ok?
    ensures var page := now.Poll(c, batchSize, Some(floor)).value;
            page <= t.Above(c, floor) && (page == [] ==> out == t.Above(c, start))
  {
    StillInWindow(t, now, c, start, out, floor);
    CursorIndependent(t, now, c, floor);
    RestIsEmpty(t.Above(c, start), out);
  }

  lemma RestIsEmpty(all: seq<Event>, out: seq<Event>)
    requires out <= all
    ensures all[|out|..] == [] <==> out == all
  {
  }

  lemma PageReached(t: Tables, now: Tables, c: string, start: int, out: seq<Event>, floor: int, noAck: bool,
                    page: seq<Event>)
    requires Reached(t, now, c, start, out, floor, noAck) && page <= t.Above(c, floor) && page != []
    ensures var next := LastId(page, floor);
            Reached(t, if noAck then now else now.MoveCursor(c, next), c, start, out + page, next, noAck)
  {
    RowsReached(t, c, start, out, floor, page);
    MoveTwice(t, c, floor, LastId(page, floor));
  }

  lemma RowsReached(t: Tables, c: string, start: int, out: seq<Event>, floor: int, page: seq<Event>)
    requires t.Valid() && c in t.cursors && out <= t.Above(c, start) && page != []
    requires t.Above(c, floor) == t.Above(c, start)[|out|..] && page <= t.Above(c, floor)
    ensures out + page <= t.Above(c, start) && LastId(out + page, start) == LastId(page, floor)
    ensures t.Above(c, LastId(page, floor)) == t.Above(c, start)[|out + page|..]
  {
    NextPage(t, c, floor, |page|);
    PrefixOf(t.Above(c, floor), page);
    JoinPage(t.Above(c, start), out, page, start, floor);
  }

  lemma PrefixOf(rest: seq<Event>, page: seq<Event>)
    requires page <= rest
    ensures rest[..|page|] == page
  {
  }

  lemma JoinPage(all: seq<Event>, out: seq<Event>, page: seq<Event>, start: int, floor: int)
    requires out <= all && page <= all[|out|..] && page != []
    ensures out + page <= all && all[|out + page|..] == all[|out|..][|page|..]
    ensures LastId(out + page, start) == LastId(page, floor)
  {
    assert all == out + all[|out|..];
  }

  lemma StillInWindow(t: Tables, now: Tables, c: string, start: int, out: seq<Event>, floor: int)
    requires t.Valid() && c in t.cursors && t.cursors[c].active && !Stale(t, c) && start >= t.cursors[c].last
    requires floor == LastId(out, start) && out <= t.Above(c, start)
    requires now == t || now == t.MoveCursor(c, floor)
    ensures now.Valid() && c in now.cursors && now.cursors[c].active && !Stale(now, c)
  {
    assert out != [] ==> out[|out| - 1] in t.Above(c, start) && out[|out| - 1] in t.events;
  }
}
