/**
 One subscriber loop on its own (lib/subscribe.js): the retry loop, the replay drain and the tick.  What
 interleaving and crashes do to these statements is the subject of module Delivery.
 */
module Subscriber {
  import opened Wrappers
  import opened Events
  import opened Database
  import Delivery

  /**
   What the world does at the nth handler call: the call throws, `stop()` arrives during it, or in the
   backoff after it.
   */
  datatype Handler = Handler(throws: nat -> bool, stopDuring: nat -> bool, stopInBackoff: nat -> bool)

  /** How `processEvent` settled an event: the attempts recorded when it began, and the calls it made. */
  datatype Settled =
    | Handled(first: nat, calls: nat)
    | DeadLettered(first: nat, calls: nat, attempts: nat)

  /** One handler call or one statement of the loop, in the order they were made. */
  datatype Did =
    | Called(e: Event, threw: bool)
    | Recorded(e: Event, attempts: nat)   // the attempt row
    | Lettered(e: Event, attempts: nat)   // the dead letter
    | Cleared(e: Event)                   // the attempt row again
    | Acked(e: Event)
    | Removed(letter: nat)                // after a replay that succeeded
    | Declined(letter: nat)               // the replay request, after one that failed

  function EventsOf(done: seq<(Event, Settled)>): (es: seq<Event>)
    ensures |es| == |done| && forall i | 0 <= i < |done| :: es[i] == done[i].0
  {
    seq(|done|, i requires 0 <= i < |done| => done[i].0)
  }

  /** The database once `e` is settled: no attempt row, and the cursor on it. */
  function AfterEvent(t: Tables, c: string, e: Event): (r: Tables)
    requires c in t.cursors
  {
    t.(attempts := t.attempts - {(c, e.id)}).MoveCursor(c, e.id)
  }

  /** The `n` calls from number `k` on threw. */
  ghost predicate AllThrew(h: Handler, k: nat, n: nat) {
    n == 0 || (h.throws(k + n - 1) && AllThrew(h, k, n - 1))
  }

  /** The calls that settled an event, from number `k` on: all threw, but for the last of a handled one. */
  ghost predicate Went(h: Handler, k: nat, r: Settled) {
    match r
    case Handled(_, calls) => calls > 0 && AllThrew(h, k, calls - 1) && !h.throws(k + calls - 1)
    case DeadLettered(_, calls, _) => AllThrew(h, k, calls)
  }

  /** The calls that settled a page, from number `k` on. */
  ghost predicate AllWent(h: Handler, k: nat, done: seq<(Event, Settled)>) {
    done == []
    || (AllWent(h, k, done[..|done| - 1]) && Went(h, k + CallsOf(done[..|done| - 1]), done[|done| - 1].1))
  }

  lemma OneMoreWent(h: Handler, k: nat, done: seq<(Event, Settled)>, e: Event, r: Settled)
    requires AllWent(h, k, done) && Went(h, k + CallsOf(done), r)
    ensures AllWent(h, k, done + [(e, r)])
  {
    assert (done + [(e, r)])[..|done|] == done;
  }

  /** The `n` calls from number `k` on succeeded. */
  ghost predicate AllWorked(h: Handler, k: nat, n: nat) {
    n == 0 || (!h.throws(k + n - 1) && AllWorked(h, k, n - 1))
  }

  /** From number `k` on, `n` replays succeeded, and the one after them threw if any failed. */
  ghost predicate AllReplayed(h: Handler, k: nat, n: nat, failed: bool) {
    AllWorked(h, k, n) && (failed ==> h.throws(k + n))
  }

  lemma OneMoreReplayed(h: Handler, k: nat, n: nat)
    requires AllReplayed(h, k, n, false)
    ensures AllReplayed(h, k, if h.throws(k + n) then n else n + 1, h.throws(k + n))
  {
  }

  function RetryRecorded(t: Tables, c: string, e: Event, attempts: nat): (r: Tables) {
    t.(attempts := t.attempts[(c, e.id) := attempts])
  }

  /** How one try went. */
  datatype Outcome = Worked | GaveUp | Again

  /** What a loop on cursor `c` has to do with, and what it did so far. */
  datatype Progress = Progress(t: Tables, letters: map<nat, Delivery.DeadLetter>, nextLetter: nat, trace: seq<Did>)

  /** The cursor is registered, and letter numbers are not reused. */
  ghost predicate Sane(p: Progress, c: string) {
    && p.t.Valid() && c in p.t.cursors && p.t.cursors[c].active
    && forall d | d in p.letters :: d < p.nextLetter
  }

  class Subscriber {
    const db: Database
    const cursor: string
    const maxRetries: nat
    const handler: Handler
    var stopping: bool
    var loopActive: bool
    var deadLetters: map<nat, Delivery.DeadLetter>
    var nextLetter: nat
    var calls: nat            // handler calls so far
    ghost var trace: seq<Did>   // everything the loop did so far

    constructor (database: Database, c: string, retries: nat, h: Handler)
      ensures db == database && cursor == c && maxRetries == retries && handler == h
      ensures !stopping && !loopActive && deadLetters == map[] && nextLetter == 1 && calls == 0 && trace == []
    {
      db, cursor, maxRetries, handler := database, c, retries, h;
      stopping, loopActive, deadLetters, nextLetter, calls, trace := false, false, map[], 1, 0, [];
    }

    ghost predicate Registered()
      reads this, db
    {
      Sane(Here(), cursor)
    }

    /** The tables, the dead letters and the trace as they are now. */
    ghost function Here(): Progress
      reads this, db
    {
      Progress(db.Snapshot(), deadLetters, nextLetter, trace)
    }

    /** Attempts recorded for an event by an earlier run of the loop. */
    function Attempts(e: Event): (n: nat)
      reads this, db
    {
      if (cursor, e.id) in db.attempts then db.attempts[(cursor, e.id)] else 0
    }

    method CallHandler(e: Event) returns (threw: bool)
      modifies this`calls, this`stopping, this`trace
      ensures calls == old(calls) + 1 && threw == handler.throws(old(calls))
      ensures trace == old(trace) + [Called(e, threw)]
      ensures stopping == (old(stopping) || handler.stopDuring(old(calls)))
    {
      threw := handler.throws(calls);
      stopping := stopping || handler.stopDuring(calls);
      trace := trace + [Called(e, threw)];
      calls := calls + 1;
    }

    /** False when `stop()` cut the backoff short. */
    method Sleep() returns (completed: bool)
      requires calls > 0
      modifies this`stopping
      ensures completed == !handler.stopInBackoff(calls - 1)
      ensures stopping == (old(stopping) || !completed)
    {
      completed := !handler.stopInBackoff(calls - 1);
      stopping := stopping || !completed;
    }

    method UpsertDeliveryAttempt(e: Event, attempts: nat)
      modifies db`attempts, this`trace
      ensures db.attempts == old(db.attempts)[(cursor, e.id) := attempts]
      ensures trace == old(trace) + [Recorded(e, attempts)]
    {
      db.attempts := db.attempts[(cursor, e.id) := attempts];
      trace := trace + [Recorded(e, attempts)];
    }

    /** Delete the attempt row, then move the cursor. */
    method ClearAndAck(e: Event)
      requires cursor in db.cursors && db.cursors[cursor].active
      modifies db`attempts, db`cursors, this`trace
      ensures db.Snapshot() == AfterEvent(old(db.Snapshot()), cursor, e)
      ensures trace == old(trace) + [Cleared(e), Acked(e)]
    {
      db.attempts := db.attempts - {(cursor, e.id)};
      ghost var before := trace;
      trace := trace + [Cleared(e)];
      var _ := db.Ack(cursor, e.id);
      trace := trace + [Acked(e)];
      assert trace == before + [Cleared(e), Acked(e)];
    }

    method InsertDeadLetter(e: Event, attempts: nat)
      modifies this`deadLetters, this`nextLetter, this`trace
      ensures deadLetters == old(deadLetters)[old(nextLetter) := Delivery.DeadLetter(cursor, e, attempts, false)]
      ensures nextLetter == old(nextLetter) + 1
      ensures trace == old(trace) + [Lettered(e, attempts)]
    {
      deadLetters := deadLetters[nextLetter := Delivery.DeadLetter(cursor, e, attempts, false)];
      nextLetter := nextLetter + 1;
      trace := trace + [Lettered(e, attempts)];
    }

    /** Insert the dead letter, delete the attempt row, move the cursor, in that order. */
    method MoveToDeadLetter(e: Event, attempts: nat)
      requires Registered()
      modifies this`deadLetters, this`nextLetter, this`trace, db`attempts, db`cursors
      ensures Registered() && Here() == Buried(old(Here()), cursor, e, attempts)
    {
      BuriedSane(Here(), cursor, e, attempts);
      Regroup(trace, [Lettered(e, attempts)], [Cleared(e), Acked(e)]);
      InsertDeadLetter(e, attempts);
      ClearAndAck(e);
    }

    /**
     Settle one event.  It is handled by the last of its calls, or it becomes exactly one dead letter after
     every call has thrown and the retries are spent or the loop is stopping; either way its attempt row is
     gone and the cursor stands on it.  `Settling` says which calls and statements that took, in order.
     */
    method ProcessEvent(e: Event) returns (r: Settled)
      requires Registered()
      modifies this`calls, this`stopping, this`deadLetters, this`nextLetter, this`trace, db`attempts, db`cursors
      ensures Registered()
      ensures Here() == AfterSettling(old(Here()), cursor, e, r, maxRetries)
      ensures r.first == old(Attempts(e)) && calls == old(calls) + r.calls
      ensures r.calls <= if r.first <= maxRetries then maxRetries + 1 - r.first else 1
      ensures Went(handler, old(calls), r)
      ensures r.DeadLettered? ==> r.attempts == r.first + r.calls > 0 && (r.attempts > maxRetries || stopping)
      ensures old(stopping) ==> stopping
    {
      var first := Attempts(e);
      r := RetryLoop(e, first, Here(), calls, stopping);
    }

    /** After `n` calls for the event, all of which threw. */
    ghost predicate Trying(start: Progress, made: nat, e: Event, first: nat, n: nat)
      reads this, db
    {
      && Registered() && Here() == AfterFailures(start, cursor, e, first, n)
      && calls == made + n && AllThrew(handler, made, n) && (n > 0 ==> first + n <= maxRetries)
    }

    /** The event is settled. */
    ghost predicate Over(start: Progress, made: nat, e: Event, first: nat, r: Settled)
      reads this, db
    {
      && Registered() && cursor in start.t.cursors && Here() == AfterSettling(start, cursor, e, r, maxRetries)
      && r.first == first && calls == made + r.calls && Went(handler, made, r)
      && r.calls <= (if first <= maxRetries then maxRetries + 1 - first else 1)
      && (r.DeadLettered? ==> r.attempts == first + r.calls > 0 && (r.attempts > maxRetries || stopping))
    }

    /** Try until it works, or there is no try left, or the loop is stopping. */
    method RetryLoop(e: Event, first: nat, ghost start: Progress, ghost made: nat, ghost stopped: bool)
      returns (r: Settled)
      requires Registered() && Here() == start && calls == made && stopping == stopped
      modifies this`calls, this`stopping, this`deadLetters, this`nextLetter, this`trace, db`attempts, db`cursors
      ensures Over(start, made, e, first, r) && (stopped ==> stopping)
    {
      var n := 0;
      Regroup(trace, [], []);
      assert Trying(start, made, e, first, 0);
      while true
        invariant Trying(start, made, e, first, n)
        invariant stopped ==> stopping
        decreases maxRetries - (first + n)
      {
        if stopping && first + n > 0 {
          GiveUp(start, made, e, first, n);
          return DeadLettered(first, n, first + n);
        }
        var outcome := TryHandler(start, made, e, first, n);
        n := n + 1;
        if outcome == Worked {
          return Handled(first, n);
        }
        if outcome == GaveUp {
          return DeadLettered(first, n, first + n);
        }
      }
    }

    /** `stop()` came in the middle of the retries. */
    method GiveUp(ghost start: Progress, ghost made: nat, e: Event, first: nat, n: nat)
      requires Trying(start, made, e, first, n) && stopping && first + n > 0
      modifies this`deadLetters, this`nextLetter, this`trace, db`attempts, db`cursors
      ensures Over(start, made, e, first, DeadLettered(first, n, first + n))
    {
      ghost var before := Here();
      MoveToDeadLetter(e, first + n);
      BuriedAfterFailures(start, before, Here(), cursor, e, first, n, maxRetries);
    }

    /** The `try` block and its `catch`. */
    method TryHandler(ghost start: Progress, ghost made: nat, e: Event, first: nat, n: nat) returns (outcome: Outcome)
      requires Trying(start, made, e, first, n)
      modifies this`calls, this`stopping, this`deadLetters, this`nextLetter, this`trace, db`attempts, db`cursors
      ensures old(stopping) ==> stopping
      ensures match outcome
              case Worked => Over(start, made, e, first, Handled(first, n + 1))
              case GaveUp => Over(start, made, e, first, DeadLettered(first, n + 1, first + n + 1))
              case Again => Trying(start, made, e, first, n + 1)
    {
      ghost var before := Here();
      outcome := OneMoreTry(e, first + n);
      TriedAfterFailures(start, before, Here(), cursor, e, first, n, outcome, maxRetries);
    }

    method OneMoreTry(e: Event, attempts: nat) returns (outcome: Outcome)
      requires Registered()
      modifies this`calls, this`stopping, this`deadLetters, this`nextLetter, this`trace, db`attempts, db`cursors
      ensures Registered() && calls == old(calls) + 1 && (old(stopping) ==> stopping)
      ensures Here() == Tried(old(Here()), cursor, e, attempts, outcome, maxRetries)
      ensures outcome == GaveUp ==> attempts + 1 > maxRetries || stopping
      ensures outcome == Again ==> attempts + 1 <= maxRetries
      ensures outcome != Worked <==> handler.throws(old(calls))
    {
      ghost var start := trace;
      Regroup(start, [Called(e, false)], [Cleared(e), Acked(e)]);
      Regroup(start, [Called(e, true)], LastWords(e, attempts + 1, maxRetries));
      Regroup(start, [Called(e, true)], [Recorded(e, attempts + 1)]);
      var threw := CallHandler(e);
      if !threw {
        ClearAndAck(e);
        return Worked;
      }
      var dead := AfterFailure(e, attempts + 1);
      outcome := if dead then GaveUp else Again;
    }

    /** The catch block: out of retries, or record the attempt and back off, which `stop()` may cut short. */
    method AfterFailure(e: Event, attempts: nat) returns (dead: bool)
      requires Registered() && calls > 0
      modifies this`stopping, this`deadLetters, this`nextLetter, this`trace, db`attempts, db`cursors
      ensures Registered() && (old(stopping) ==> stopping)
      ensures dead ==>
                && (attempts > maxRetries || stopping)
                && Here() == Buried(old(Here()), cursor, e, attempts)
                               .(trace := old(trace) + LastWords(e, attempts, maxRetries))
      ensures !dead ==>
                && attempts <= maxRetries
                && Here() == old(Here()).(t := RetryRecorded(old(db.Snapshot()), cursor, e, attempts),
                                          trace := old(trace) + [Recorded(e, attempts)])
    {
      ForgetsAttempt(db.Snapshot(), cursor, e, attempts);
      Regroup(trace, [Recorded(e, attempts)], Burial(e, attempts));
      if attempts > maxRetries {
        MoveToDeadLetter(e, attempts);
        return true;
      }
      UpsertDeliveryAttempt(e, attempts);
      var completed := Sleep();
      if !completed {
        MoveToDeadLetter(e, attempts);
      }
      dead := !completed;
    }

    /** The requested letter with the lowest number, if any. */
    method NextReplay() returns (d: nat, found: bool)
      ensures found <==> exists x :: Wanted(deadLetters, cursor, x)
      ensures found ==> Wanted(deadLetters, cursor, d) && forall x | Wanted(deadLetters, cursor, x) :: d <= x
      ensures found ==> d in deadLetters && deadLetters[d].cursor == cursor && deadLetters[d].replayRequested
      ensures forall x | x in deadLetters && deadLetters[x].cursor == cursor && deadLetters[x].replayRequested ::
                found && d <= x
    {
      d, found := 0, false;
      var todo := deadLetters.Keys;
      while todo != {}
        invariant todo <= deadLetters.Keys
        invariant found ==> Wanted(deadLetters, cursor, d) && d !in todo
        invariant forall x | Wanted(deadLetters, cursor, x) && x !in todo :: found && d <= x
        decreases |todo|
      {
        var x :| x in todo;
        if Wanted(deadLetters, cursor, x) && (!found || x < d) {
          d, found := x, true;
        }
        todo := todo - {x};
      }
      assert forall x | x in deadLetters && deadLetters[x].cursor == cursor && deadLetters[x].replayRequested ::
          Wanted(deadLetters, cursor, x);
    }

    /** One replay: a single call.  Success removes the letter, failure clears its request and counts the attempt. */
    method Replay(d: nat) returns (threw: bool)
      requires d in deadLetters
      modifies this`calls, this`stopping, this`deadLetters, this`trace
      ensures calls == old(calls) + 1 && (old(stopping) ==> stopping)
      ensures threw <==> handler.throws(old(calls))
      ensures trace == old(trace) + OneReplay(old(deadLetters), d, threw)
      ensures deadLetters == if threw then old(deadLetters)[d := AfterFailedReplay(old(deadLetters)[d])]
                             else old(deadLetters) - {d}
    {
      threw := CallHandler(deadLetters[d].event);
      ghost var did := if threw then Declined(d) else Removed(d);
      trace := trace + [did];
      if threw {
        var l := deadLetters[d];
        deadLetters := deadLetters[d := Delivery.DeadLetter(l.cursor, l.event, l.attempts + 1, false)];
      } else {
        deadLetters := deadLetters - {d};
      }
    }

    /**
     Replay requested letters in number order, one call each: success removes the letter, the first failure
     clears its request, counts the attempt and ends the drain.  No other letter changes.  `removed` lists
     the letters that are gone, and the trace holds exactly their calls, and the failed one's last.
     */
    method DrainReplays() returns (failed: Option<nat>, ghost removed: seq<nat>)
      modifies this`calls, this`stopping, this`deadLetters, this`trace
      ensures Replayed(old(Here()), old(calls), removed, failed)
      ensures failed.None? ==> stopping || forall d :: !Wanted(deadLetters, cursor, d)
      ensures old(stopping) ==> stopping && removed == [] && failed == None
    {
      ghost var start, made := Here(), calls;
      failed, removed := None, [];
      Regroup(trace, [], []);
      while !stopping
        invariant Replaying(start, made, removed) && failed == None
        invariant old(stopping) ==> stopping && removed == []
        decreases |deadLetters|
      {
        var d, found := NextReplay();
        if !found {
          break;
        }
        var threw := ReplayOne(start, made, removed, d);
        if threw {
          return Some(d), removed;
        }
        removed := removed + [d];
      }
      DrainEnds(start.letters, deadLetters, cursor, removed);
      Regroup(start.trace, Replays(start.letters, removed), []);
    }

    /** The letters of `removed` were replayed since `start`, when `made` calls had been made. */
    ghost predicate Replaying(start: Progress, made: nat, removed: seq<nat>)
      reads this
    {
      && calls == made + |removed| && AllReplayed(handler, made, |removed|, false)
      && Taken(start.letters, deadLetters, cursor, removed)
      && trace == start.trace + Replays(start.letters, removed)
    }

    /** And then the drain ended, if the last replay failed with that letter. */
    ghost predicate Replayed(start: Progress, made: nat, removed: seq<nat>, failed: Option<nat>)
      reads this
    {
      && calls == made + |removed| + (if failed.Some? then 1 else 0)
      && AllReplayed(handler, made, |removed|, failed.Some?)
      && AllWanted(start.letters, cursor, removed, failed)
      && deadLetters == AfterDrain(start.letters, removed, failed)
      && trace == start.trace + Drained(start.letters, removed, failed)
    }

    /** The next replay of a drain. */
    method ReplayOne(ghost start: Progress, ghost made: nat, ghost removed: seq<nat>, d: nat) returns (threw: bool)
      requires Replaying(start, made, removed)
      requires Wanted(deadLetters, cursor, d) && forall x | Wanted(deadLetters, cursor, x) :: d <= x
      modifies this`calls, this`stopping, this`deadLetters, this`trace
      ensures old(stopping) ==> stopping
      ensures threw ==> Replayed(start, made, removed, Some(d))
      ensures !threw ==> Replaying(start, made, removed + [d]) && |deadLetters| < old(|deadLetters|)
    {
      OneMoreReplayed(handler, made, |removed|);
      ghost var before := Here();
      threw := Replay(d);
      if threw {
        ReplayFails(start, before, cursor, removed, d);
      } else {
        ReplayWorks(start, before, cursor, removed, d);
      }
    }

    /** An operator asks for a replay; the loop's next turn drains it. */
    method ReplayDeadLetter(d: nat) returns (r: Result<(), Error>)
      modifies this`deadLetters
      ensures r == if d in old(deadLetters) then Ok(()) else Err(CursorNotFound)
      ensures deadLetters == if r.Ok? then old(deadLetters)[d := old(deadLetters)[d].(replayRequested := true)]
                             else old(deadLetters)
    {
      if d !in deadLetters {
        return Err(CursorNotFound);
      }
      deadLetters := deadLetters[d := deadLetters[d].(replayRequested := true)];
      r := Ok(());
    }

    method DropDeadLetter(d: nat) returns (r: Result<(), Error>)
      modifies this`deadLetters
      ensures r == if d in old(deadLetters) then Ok(()) else Err(CursorNotFound)
      ensures deadLetters == old(deadLetters) - {d}
    {
      if d !in deadLetters {
        assert deadLetters - {d} == deadLetters;
        return Err(CursorNotFound);
      }
      deadLetters := deadLetters - {d};
      r := Ok(());
    }

    /** Settle the events of one page in order, until `stop()`. */
    method ProcessPage(page: seq<Event>) returns (done: seq<(Event, Settled)>)
      requires Registered()
      modifies this`calls, this`stopping, this`deadLetters, this`nextLetter, this`trace, db`attempts, db`cursors
      ensures Registered()
      ensures EventsOf(done) <= page && (!stopping ==> EventsOf(done) == page)
      ensures db.Snapshot() == AfterAll(old(db.Snapshot()), cursor, EventsOf(done))
      ensures trace == old(trace) + SettlingAll(done, maxRetries) && calls == old(calls) + CallsOf(done)
      ensures AllWent(handler, old(calls), done)
      ensures forall d | d in old(deadLetters) :: d in deadLetters && deadLetters[d] == old(deadLetters)[d]
      ensures LettersFor(deadLetters, old(nextLetter), cursor, done)
    {
      done := [];
      ghost var start, made := Here(), calls;
      Regroup(trace, [], []);
      assert EventsOf(done) == [] && page[..0] == [];
      for i := 0 to |page|
        invariant Paged(start, made, done) && EventsOf(done) == page[..i]
      {
        if stopping {
          break;
        }
        var r := ProcessOne(start, made, done, page[i]);
        OneMoreDone(done, page, i, r);
        done := done + [(page[i], r)];
      }
      assert page[..|page|] == page;
    }

    /** The events of `done` were settled since `start`, when `made` calls had been made. */
    ghost predicate Paged(start: Progress, made: nat, done: seq<(Event, Settled)>)
      reads this, db
    {
      && Registered() && start.nextLetter <= nextLetter && cursor in start.t.cursors
      && db.Snapshot() == AfterAll(start.t, cursor, EventsOf(done))
      && trace == start.trace + SettlingAll(done, maxRetries)
      && calls == made + CallsOf(done) && AllWent(handler, made, done)
      && LettersGrow(start.letters, deadLetters, start.nextLetter, cursor, done)
    }

    /** The next event of a page. */
    method ProcessOne(ghost start: Progress, ghost made: nat, ghost done: seq<(Event, Settled)>, e: Event)
      returns (r: Settled)
      requires Paged(start, made, done)
      modifies this`calls, this`stopping, this`deadLetters, this`nextLetter, this`trace, db`attempts, db`cursors
      ensures Paged(start, made, done + [(e, r)]) && (old(stopping) ==> stopping)
    {
      ghost var before := Here();
      r := ProcessEvent(e);
      OneMoreSettled(start.letters, before.letters, deadLetters, start.nextLetter, before.nextLetter, cursor,
                     done, e, r);
      OneMoreWent(handler, made, done, e, r);
      SettlingOneMore(done, e, r, maxRetries);
      Regroup(start.trace, SettlingAll(done, maxRetries), Settling(e, r, maxRetries));
      EventsOneMore(done, e, r);
      assert (EventsOf(done) + [e])[..|done|] == EventsOf(done);
    }

    /** A poll, and the events of the page; a cursor behind the window is moved just below the oldest survivor. */
    method PollOnce(batchSize: int) returns (done: seq<(Event, Settled)>)
      requires Registered()
      modifies this`calls, this`stopping, this`deadLetters, this`nextLetter, this`trace, db`attempts, db`cursors
      ensures Registered()
      ensures trace == old(trace) + SettlingAll(done, maxRetries) && calls == old(calls) + CallsOf(done)
      ensures AllWent(handler, old(calls), done)
      ensures TurnDone(old(db.Snapshot()), db.Snapshot(), cursor, batchSize, done)
      ensures !stopping ==> TurnComplete(old(db.Snapshot()), db.Snapshot(), cursor, batchSize, done)
    {
      done := [];
      Regroup(trace, [], []);
      assert EventsOf(done) == [];
      var poll := db.Snapshot().Poll(cursor, batchSize, None);
      if poll.Ok? {
        done := ProcessPage(poll.value);
      } else if poll.error.BehindWindow? {
        var _ := db.ReanchorCursor(cursor, poll.error.oldest - 1);
      }
    }

    /** One turn of the loop: replays, then a poll and the events of its page. */
    method Tick(batchSize: int)
      returns (done: seq<(Event, Settled)>, ghost failed: Option<nat>, ghost removed: seq<nat>)
      requires Registered()
      modifies this, db`attempts, db`cursors
      ensures Registered() && loopActive == old(loopActive)
      ensures TurnTraced(handler, cursor, maxRetries, old(deadLetters), old(trace), old(calls), trace, calls,
                         removed, failed, done)
      ensures old(stopping) || old(loopActive) ==>
                done == [] && removed == [] && failed == None && db.Snapshot() == old(db.Snapshot())
      ensures TurnDone(old(db.Snapshot()), db.Snapshot(), cursor, batchSize, done)
      ensures !stopping && !old(loopActive) ==>
                TurnComplete(old(db.Snapshot()), db.Snapshot(), cursor, batchSize, done)
    {
      done, failed, removed := [], None, [];
      ghost var start, made := Here(), calls;
      NothingDone(handler, start, made, cursor, batchSize, maxRetries);
      if stopping || loopActive {
        return;
      }
      loopActive := true;
      failed, removed := DrainReplays();
      ghost var drained, replayed := trace, calls;
      Regroup(drained, [], []);
      if !stopping {
        done := PollOnce(batchSize);
      }
      TurnIsTraced(handler, cursor, maxRetries, start, made, drained, replayed, trace, calls, removed, failed, done);
      loopActive := false;
    }
  }

  /** What a turn that polled tables `t` may have left: a prefix of the page settled, or the cursor re-anchored. */
  ghost predicate TurnDone(t: Tables, t': Tables, c: string, batchSize: int, done: seq<(Event, Settled)>)
    requires t.Valid() && c in t.cursors
  {
    match t.Poll(c, batchSize, None)
    case Ok(page) => EventsOf(done) <= page && t' == AfterAll(t, c, EventsOf(done))
    case Err(e) => done == [] && (t' == t || (e.BehindWindow? && e.oldest > 0 && t' == t.MoveCursor(c, e.oldest - 1)))
  }

  /** And when `stop()` has not come in between. */
  ghost predicate TurnComplete(t: Tables, t': Tables, c: string, batchSize: int, done: seq<(Event, Settled)>)
    requires t.Valid() && c in t.cursors
  {
    match t.Poll(c, batchSize, None)
    case Ok(page) => EventsOf(done) == page
    case Err(e) => e.BehindWindow? && e.oldest > 0 ==> t' == t.MoveCursor(c, e.oldest - 1)
  }

  /**
   The calls and statements of a turn, from call number `made` on: the replays, one call each, then the
   events of the page, and the handler answered each call as the trace has it.
   */
  ghost predicate TurnTraced(h: Handler, c: string, maxRetries: nat, letters: map<nat, Delivery.DeadLetter>,
                             start: seq<Did>, made: nat, trace: seq<Did>, calls: nat,
                             removed: seq<nat>, failed: Option<nat>, done: seq<(Event, Settled)>)
  {
    var replays := |removed| + if failed.Some? then 1 else 0;
    && AllWanted(letters, c, removed, failed)
    && trace == start + (Drained(letters, removed, failed) + SettlingAll(done, maxRetries))
    && calls == made + replays + CallsOf(done)
    && AllReplayed(h, made, |removed|, failed.Some?) && AllWent(h, made + replays, done)
  }

  lemma TurnIsTraced(h: Handler, c: string, maxRetries: nat, start: Progress, made: nat, drained: seq<Did>,
                     replayed: nat, trace: seq<Did>, calls: nat, removed: seq<nat>, failed: Option<nat>,
                     done: seq<(Event, Settled)>)
    requires AllWanted(start.letters, c, removed, failed) && AllReplayed(h, made, |removed|, failed.Some?)
    requires drained == start.trace + Drained(start.letters, removed, failed)
    requires replayed == made + |removed| + if failed.Some? then 1 else 0
    requires trace == drained + SettlingAll(done, maxRetries)
    requires calls == replayed + CallsOf(done) && AllWent(h, replayed, done)
    ensures TurnTraced(h, c, maxRetries, start.letters, start.trace, made, trace, calls, removed, failed, done)
  {
    Regroup(start.trace, Drained(start.letters, removed, failed), SettlingAll(done, maxRetries));
  }

  lemma NothingDone(h: Handler, p: Progress, made: nat, c: string, batchSize: int, maxRetries: nat)
    requires p.t.Valid() && c in p.t.cursors
    ensures TurnTraced(h, c, maxRetries, p.letters, p.trace, made, p.trace, made, [], None, [])
    ensures TurnDone(p.t, p.t, c, batchSize, [])
  {
    assert EventsOf([]) == [];
  }

  // ---------------------------------------------------------------- what the trace says

  /** The handler calls of a trace, in order. */
  ghost function CallsIn(trace: seq<Did>): (calls: seq<(Event, bool)>)
    decreases |trace|
  {
    if trace == [] then []
    else
      var last := trace[|trace| - 1];
      CallsIn(trace[..|trace| - 1]) + if last.Called? then [(last.e, last.threw)] else []
  }

  lemma {:induction false} CallsConcat(a: seq<Did>, b: seq<Did>)
    ensures CallsIn(a + b) == CallsIn(a) + CallsIn(b)
    decreases |b|
  {
    if b == [] {
      assert a + b == a;
    } else {
      assert (a + b)[..|a + b| - 1] == a + b[..|b| - 1];
      CallsConcat(a, b[..|b| - 1]);
    }
  }

  /** Calls that threw and were recorded. */
  ghost function Failures(e: Event, first: nat, n: nat): (s: seq<Did>) {
    if n == 0 then [] else Failures(e, first, n - 1) + [Called(e, true)] + [Recorded(e, first + n)]
  }

  /** A dead letter is written before the attempt row goes, and that before the cursor moves. */
  ghost function Burial(e: Event, attempts: nat): (s: seq<Did>) {
    [Lettered(e, attempts)] + [Cleared(e), Acked(e)]
  }

  /** The end of an event whose last call threw: the attempt is recorded only while retries are left. */
  ghost function LastWords(e: Event, attempts: nat, maxRetries: nat): (s: seq<Did>) {
    if attempts > maxRetries then Burial(e, attempts) else [Recorded(e, attempts)] + Burial(e, attempts)
  }

  /** The calls and statements that settle one event. */
  ghost function Settling(e: Event, r: Settled, maxRetries: nat): (s: seq<Did>) {
    match r
    case Handled(first, calls) =>
      Failures(e, first, if calls > 0 then calls - 1 else 0) + [Called(e, false)] + [Cleared(e), Acked(e)]
    case DeadLettered(first, calls, attempts) =>
      if calls > 0 && attempts > maxRetries then Failures(e, first, calls - 1) + [Called(e, true)] + Burial(e, attempts)
      else Failures(e, first, calls) + Burial(e, attempts)
  }

  /** The handler calls it took. */
  function CallsOf(done: seq<(Event, Settled)>): (n: nat) {
    if done == [] then 0 else CallsOf(done[..|done| - 1]) + done[|done| - 1].1.calls
  }

  ghost function SettlingAll(done: seq<(Event, Settled)>, maxRetries: nat): (s: seq<Did>) {
    if done == [] then []
    else SettlingAll(done[..|done| - 1], maxRetries) + Settling(done[|done| - 1].0, done[|done| - 1].1, maxRetries)
  }

  /** The calls and statements of one try. */
  ghost function OneTry(e: Event, attempts: nat, outcome: Outcome, maxRetries: nat): (s: seq<Did>) {
    match outcome
    case Worked => [Called(e, false)] + [Cleared(e), Acked(e)]
    case GaveUp => [Called(e, true)] + LastWords(e, attempts + 1, maxRetries)
    case Again => [Called(e, true)] + [Recorded(e, attempts + 1)]
  }

  // ---------------------------------------------------------------- one event, in values

  ghost function Buried(p: Progress, c: string, e: Event, attempts: nat): (r: Progress)
    requires c in p.t.cursors
  {
    Progress(AfterEvent(p.t, c, e), p.letters[p.nextLetter := Delivery.DeadLetter(c, e, attempts, false)],
             p.nextLetter + 1, p.trace + Burial(e, attempts))
  }

  lemma BuriedSane(p: Progress, c: string, e: Event, attempts: nat)
    requires Sane(p, c)
    ensures Sane(Buried(p, c, e, attempts), c)
  {
  }

  /** After one more try. */
  ghost function Tried(p: Progress, c: string, e: Event, attempts: nat, outcome: Outcome, maxRetries: nat)
    : (r: Progress)
    requires c in p.t.cursors
  {
    var trace := p.trace + OneTry(e, attempts, outcome, maxRetries);
    match outcome
    case Worked => p.(t := AfterEvent(p.t, c, e), trace := trace)
    case GaveUp => Buried(p, c, e, attempts + 1).(trace := trace)
    case Again => p.(t := RetryRecorded(p.t, c, e, attempts + 1), trace := trace)
  }

  ghost function AfterFailures(p: Progress, c: string, e: Event, first: nat, n: nat): (r: Progress) {
    p.(t := if n == 0 then p.t else RetryRecorded(p.t, c, e, first + n), trace := p.trace + Failures(e, first, n))
  }

  /** Once an event is settled: no attempt row, the cursor on it, its letter if it is dead, and the calls made. */
  ghost function AfterSettling(p: Progress, c: string, e: Event, r: Settled, maxRetries: nat): (q: Progress)
    requires c in p.t.cursors
  {
    Progress(AfterEvent(p.t, c, e),
             if r.Handled? then p.letters else p.letters[p.nextLetter := LetterOf(c, e, r)],
             p.nextLetter + if r.Handled? then 0 else 1,
             p.trace + Settling(e, r, maxRetries))
  }

  lemma TriedAfterFailures(p: Progress, q: Progress, r: Progress, c: string, e: Event, first: nat, n: nat,
                           outcome: Outcome, maxRetries: nat)
    requires c in p.t.cursors && q == AfterFailures(p, c, e, first, n)
    requires r == Tried(q, c, e, first + n, outcome, maxRetries)
    ensures r == match outcome
                 case Worked => AfterSettling(p, c, e, Handled(first, n + 1), maxRetries)
                 case GaveUp => AfterSettling(p, c, e, DeadLettered(first, n + 1, first + n + 1), maxRetries)
                 case Again => AfterFailures(p, c, e, first, n + 1)
  {
    ForgetsAttempt(p.t, c, e, first + n);
    SettledTrace(p.trace, e, first, n, outcome, maxRetries);
  }

  lemma BuriedAfterFailures(p: Progress, q: Progress, r: Progress, c: string, e: Event, first: nat, n: nat,
                            maxRetries: nat)
    requires c in p.t.cursors && (n == 0 || first + n <= maxRetries) && q == AfterFailures(p, c, e, first, n)
    requires r == Buried(q, c, e, first + n)
    ensures r == AfterSettling(p, c, e, DeadLettered(first, n, first + n), maxRetries)
  {
    ForgetsAttempt(p.t, c, e, first + n);
    Regroup(p.trace, Failures(e, first, n), Burial(e, first + n));
  }

  /** How a trace with `n` failures goes on with one more try. */
  lemma SettledTrace(start: seq<Did>, e: Event, first: nat, n: nat, outcome: Outcome, maxRetries: nat)
    ensures start + Failures(e, first, n) + OneTry(e, first + n, outcome, maxRetries)
         == start + match outcome
                    case Worked => Settling(e, Handled(first, n + 1), maxRetries)
                    case GaveUp => Settling(e, DeadLettered(first, n + 1, first + n + 1), maxRetries)
                    case Again => Failures(e, first, n + 1)
  {
    var failures, a := Failures(e, first, n), first + n + 1;
    Regroup(start, failures, OneTry(e, first + n, outcome, maxRetries));
    match outcome
    case Worked => Regroup(failures, [Called(e, false)], [Cleared(e), Acked(e)]);
    case GaveUp =>
      Regroup(failures, [Called(e, true)], LastWords(e, a, maxRetries));
      Regroup(failures + [Called(e, true)], [Recorded(e, a)], Burial(e, a));
    case Again => Regroup(failures, [Called(e, true)], [Recorded(e, a)]);
  }

  lemma SettlingOneMore(done: seq<(Event, Settled)>, e: Event, r: Settled, maxRetries: nat)
    ensures SettlingAll(done + [(e, r)], maxRetries) == SettlingAll(done, maxRetries) + Settling(e, r, maxRetries)
    ensures CallsOf(done + [(e, r)]) == CallsOf(done) + r.calls
  {
    assert (done + [(e, r)])[..|done|] == done;
  }

  /** A replay of letter `d` was asked for, and it is cursor `c`'s. */
  predicate Wanted(letters: map<nat, Delivery.DeadLetter>, c: string, d: nat) {
    d in letters && letters[d].cursor == c && letters[d].replayRequested
  }

  /** `after` is `before` without the removed letters: the first ones that were asked for, in order. */
  ghost predicate Taken(before: map<nat, Delivery.DeadLetter>, after: map<nat, Delivery.DeadLetter>, c: string,
                        removed: seq<nat>)
  {
    && (forall i, j | 0 <= i < j < |removed| :: removed[i] < removed[j])
    && (forall d :: d in removed <==> d in before && d !in after)
    && (forall d | d in after :: d in before && after[d] == before[d])
    && (forall d | d in removed :: Wanted(before, c, d))
    && (forall d, x: nat | d in removed && Wanted(after, c, x) :: d < x)
  }

  lemma OneMoreTaken(before: map<nat, Delivery.DeadLetter>, after: map<nat, Delivery.DeadLetter>, c: string,
                     removed: seq<nat>, d: nat)
    requires Taken(before, after, c, removed) && Wanted(after, c, d) && forall x | Wanted(after, c, x) :: d <= x
    ensures Taken(before, after - {d}, c, removed + [d]) && |after - {d}| < |after|
    ensures forall x: nat | x < d && Wanted(before, c, x) :: x in removed
  {
    assert (after - {d}).Keys == after.Keys - {d};
    forall i, j | 0 <= i < j < |removed + [d]| ensures (removed + [d])[i] < (removed + [d])[j] {
      assert removed[i] in removed;
    }
    forall x: nat | x < d && Wanted(before, c, x) ensures x in removed {
      assert x in after ==> Wanted(after, c, x);
    }
  }

  /** The letters of a drain: asked for, in order, and none passed over before the last of them. */
  ghost predicate AllWanted(letters: map<nat, Delivery.DeadLetter>, c: string, removed: seq<nat>, failed: Option<nat>) {
    && (forall d | d in removed :: Wanted(letters, c, d))
    && (forall i, j | 0 <= i < j < |removed| :: removed[i] < removed[j])
    && (forall d, x: nat | d in removed && Wanted(letters, c, x) && x < d :: x in removed)
    && (failed.Some? ==>
          && Wanted(letters, c, failed.value)
          && forall x: nat | Wanted(letters, c, x) :: x < failed.value <==> x in removed)
  }

  /** The letters a drain leaves. */
  ghost function AfterDrain(letters: map<nat, Delivery.DeadLetter>, removed: seq<nat>, failed: Option<nat>)
    : (r: map<nat, Delivery.DeadLetter>)
  {
    map d | d in letters && d !in removed :: if failed == Some(d) then AfterFailedReplay(letters[d]) else letters[d]
  }

  lemma DrainFails(before: map<nat, Delivery.DeadLetter>, after: map<nat, Delivery.DeadLetter>, c: string,
                   removed: seq<nat>, d: nat)
    requires Taken(before, after, c, removed) && Wanted(after, c, d) && forall x | Wanted(after, c, x) :: d <= x
    ensures AllWanted(before, c, removed, Some(d))
    ensures after[d := AfterFailedReplay(after[d])] == AfterDrain(before, removed, Some(d))
  {
    OneMoreTaken(before, after, c, removed, d);
  }

  lemma ReplayFails(start: Progress, now: Progress, c: string, removed: seq<nat>, d: nat)
    requires Taken(start.letters, now.letters, c, removed) && Wanted(now.letters, c, d)
    requires forall x | Wanted(now.letters, c, x) :: d <= x
    requires now.trace == start.trace + Replays(start.letters, removed)
    ensures AllWanted(start.letters, c, removed, Some(d))
    ensures now.letters[d := AfterFailedReplay(now.letters[d])] == AfterDrain(start.letters, removed, Some(d))
    ensures now.trace + OneReplay(now.letters, d, true) == start.trace + Drained(start.letters, removed, Some(d))
  {
    DrainFails(start.letters, now.letters, c, removed, d);
    Regroup(start.trace, Replays(start.letters, removed), OneReplay(start.letters, d, true));
  }

  lemma ReplayWorks(start: Progress, now: Progress, c: string, removed: seq<nat>, d: nat)
    requires Taken(start.letters, now.letters, c, removed) && Wanted(now.letters, c, d)
    requires forall x | Wanted(now.letters, c, x) :: d <= x
    requires now.trace == start.trace + Replays(start.letters, removed)
    ensures Taken(start.letters, now.letters - {d}, c, removed + [d]) && |now.letters - {d}| < |now.letters|
    ensures now.trace + OneReplay(now.letters, d, false) == start.trace + Replays(start.letters, removed + [d])
  {
    OneMoreTaken(start.letters, now.letters, c, removed, d);
    ReplaysOneMore(start.letters, removed, d);
    Regroup(start.trace, Replays(start.letters, removed), OneReplay(start.letters, d, false));
  }

  lemma DrainEnds(before: map<nat, Delivery.DeadLetter>, after: map<nat, Delivery.DeadLetter>, c: string,
                  removed: seq<nat>)
    requires Taken(before, after, c, removed)
    ensures AllWanted(before, c, removed, None) && after == AfterDrain(before, removed, None)
  {
    forall d, x: nat | d in removed && Wanted(before, c, x) && x < d ensures x in removed {
      assert x in after ==> Wanted(after, c, x);
    }
  }

  function AfterFailedReplay(l: Delivery.DeadLetter): (r: Delivery.DeadLetter) {
    l.(replayRequested := false, attempts := l.attempts + 1)
  }

  ghost function OneReplay(letters: map<nat, Delivery.DeadLetter>, d: nat, threw: bool): (s: seq<Did>)
    requires d in letters
  {
    [Called(letters[d].event, threw)] + [if threw then Declined(d) else Removed(d)]
  }

  /** One successful call for each letter, in order. */
  ghost function Replays(letters: map<nat, Delivery.DeadLetter>, removed: seq<nat>): (s: seq<Did>)
    requires forall d | d in removed :: d in letters
  {
    if removed == [] then []
    else Replays(letters, removed[..|removed| - 1]) + OneReplay(letters, removed[|removed| - 1], false)
  }

  /** The calls and statements of a drain: the replays that succeeded, then the one that failed. */
  ghost function Drained(letters: map<nat, Delivery.DeadLetter>, removed: seq<nat>, failed: Option<nat>): (s: seq<Did>)
    requires (forall d | d in removed :: d in letters) && (failed.Some? ==> failed.value in letters)
  {
    Replays(letters, removed) + if failed.Some? then OneReplay(letters, failed.value, true) else []
  }

  lemma ReplaysOneMore(letters: map<nat, Delivery.DeadLetter>, removed: seq<nat>, d: nat)
    requires (forall x | x in removed :: x in letters) && d in letters
    ensures forall x | x in removed + [d] :: x in letters
    ensures Replays(letters, removed + [d]) == Replays(letters, removed) + OneReplay(letters, d, false)
  {
    assert (removed + [d])[..|removed|] == removed;
  }

  lemma Regroup(a: seq<Did>, b: seq<Did>, c: seq<Did>)
    ensures (a + b) + c == a + (b + c) && a + [] == a && b + [] == b
  {
  }

  /** The calls that succeeded. */
  ghost function Successes(calls: seq<(Event, bool)>): (es: seq<Event>) {
    if calls == [] then []
    else
      var last := calls[|calls| - 1];
      Successes(calls[..|calls| - 1]) + if last.1 then [] else [last.0]
  }

  /** The events handled. */
  ghost function HandledIn(done: seq<(Event, Settled)>): (es: seq<Event>) {
    if done == [] then []
    else
      var last := done[|done| - 1];
      HandledIn(done[..|done| - 1]) + if last.1.Handled? then [last.0] else []
  }

  lemma {:induction false} SuccessesConcat(a: seq<(Event, bool)>, b: seq<(Event, bool)>)
    ensures Successes(a + b) == Successes(a) + Successes(b)
    decreases |b|
  {
    if b == [] {
      assert a + b == a;
    } else {
      assert (a + b)[..|a + b| - 1] == a + b[..|b| - 1];
      SuccessesConcat(a, b[..|b| - 1]);
    }
  }

  lemma OneCall(e: Event, threw: bool)
    ensures CallsIn([Called(e, threw)]) == [(e, threw)]
    ensures Successes([(e, threw)]) == if threw then [] else [e]
  {
  }

  lemma TwoStatements(a: Did, b: Did)
    requires !a.Called? && !b.Called?
    ensures CallsIn([a, b]) == []
  {
    assert [a, b][..1] == [a] && [a][..0] == [];
    assert CallsIn([a]) == [];
  }

  lemma OneFailureMore(e: Event, first: nat, n: nat)
    requires n > 0
    ensures CallsIn(Failures(e, first, n)) == CallsIn(Failures(e, first, n - 1)) + [(e, true)]
  {
    var before, call, row := Failures(e, first, n - 1), Called(e, true), Recorded(e, first + n);
    CallsConcat(before, [call]);
    CallsConcat(before + [call], [row]);
    OneCall(e, true);
    NoCall(row);
  }

  lemma NoCall(d: Did)
    requires !d.Called?
    ensures CallsIn([d]) == []
  {
  }

  lemma {:induction false} FailuresFail(e: Event, first: nat, n: nat)
    ensures |CallsIn(Failures(e, first, n))| == n && Successes(CallsIn(Failures(e, first, n))) == []
    decreases n
  {
    if n > 0 {
      FailuresFail(e, first, n - 1);
      OneFailureMore(e, first, n);
      SuccessesConcat(CallsIn(Failures(e, first, n - 1)), [(e, true)]);
      OneCall(e, true);
    }
  }

  /** Settling an event takes the calls it says; one of them succeeds if it was handled, none if not. */
  lemma SettlingCalls(e: Event, r: Settled, maxRetries: nat)
    requires r.Handled? ==> r.calls > 0
    ensures var calls := CallsIn(Settling(e, r, maxRetries));
            |calls| == r.calls && Successes(calls) == if r.Handled? then [e] else []
  {
    match r
    case Handled(first, calls) =>
      TwoStatements(Cleared(e), Acked(e));
      CalledThen(e, first, calls - 1, false, [Cleared(e), Acked(e)]);
    case DeadLettered(first, calls, attempts) =>
      BurialCalls(e, attempts);
      if calls > 0 && attempts > maxRetries {
        CalledThen(e, first, calls - 1, true, Burial(e, attempts));
      } else {
        FailuresThen(e, first, calls, Burial(e, attempts));
      }
  }

  lemma FailuresThen(e: Event, first: nat, n: nat, rest: seq<Did>)
    requires CallsIn(rest) == []
    ensures var calls := CallsIn(Failures(e, first, n) + rest); |calls| == n && Successes(calls) == []
  {
    FailuresFail(e, first, n);
    CallsConcat(Failures(e, first, n), rest);
    assert CallsIn(Failures(e, first, n)) + [] == CallsIn(Failures(e, first, n));
  }

  lemma BurialCalls(e: Event, attempts: nat)
    ensures CallsIn(Burial(e, attempts)) == []
  {
    CallsConcat([Lettered(e, attempts)], [Cleared(e), Acked(e)]);
    TwoStatements(Cleared(e), Acked(e));
    assert CallsIn([Lettered(e, attempts)]) == [];
  }

  lemma CalledThen(e: Event, first: nat, n: nat, threw: bool, rest: seq<Did>)
    requires CallsIn(rest) == []
    ensures var calls := CallsIn(Failures(e, first, n) + [Called(e, threw)] + rest);
            |calls| == n + 1 && Successes(calls) == if threw then [] else [e]
  {
    var before := Failures(e, first, n);
    FailuresFail(e, first, n);
    CallsConcat(before, [Called(e, threw)]);
    CallsConcat(before + [Called(e, threw)], rest);
    OneCall(e, threw);
    SuccessesConcat(CallsIn(before), [(e, threw)]);
    assert CallsIn(before) + [(e, threw)] + [] == CallsIn(before) + [(e, threw)];
  }

  /** The successful calls of a page are, in order, exactly one for each event that was handled. */
  lemma {:induction false} HandledWereCalled(h: Handler, first: nat, done: seq<(Event, Settled)>, maxRetries: nat)
    requires AllWent(h, first, done)
    ensures Successes(CallsIn(SettlingAll(done, maxRetries))) == HandledIn(done)
    ensures |CallsIn(SettlingAll(done, maxRetries))| == CallsOf(done)
    decreases |done|
  {
    if done != [] {
      var k := |done| - 1;
      HandledWereCalled(h, first, done[..k], maxRetries);
      var before, last := SettlingAll(done[..k], maxRetries), Settling(done[k].0, done[k].1, maxRetries);
      SettlingCalls(done[k].0, done[k].1, maxRetries);
      CallsConcat(before, last);
      SuccessesConcat(CallsIn(before), CallsIn(last));
    }
  }

  /** Every event settled as dead has its letter, numbered `first` or later. */
  ghost predicate LettersFor(letters: map<nat, Delivery.DeadLetter>, first: nat, c: string,
                             done: seq<(Event, Settled)>)
  {
    forall i | 0 <= i < |done| && done[i].1.DeadLettered? ::
      exists d | d in letters :: d >= first && letters[d] == LetterOf(c, done[i].0, done[i].1)
  }

  function LetterOf(c: string, e: Event, r: Settled): (l: Delivery.DeadLetter)
    requires r.DeadLettered?
  {
    Delivery.DeadLetter(c, e, r.attempts, false)
  }

  /** No letter of `before` is touched, and every dead event has its own. */
  ghost predicate LettersGrow(before: map<nat, Delivery.DeadLetter>, after: map<nat, Delivery.DeadLetter>, first: nat,
                              c: string, done: seq<(Event, Settled)>)
  {
    && (forall d | d in before :: d in after && after[d] == before[d])
    && LettersFor(after, first, c, done)
  }

  lemma OneMoreSettled(letters: map<nat, Delivery.DeadLetter>, before: map<nat, Delivery.DeadLetter>,
                       after: map<nat, Delivery.DeadLetter>, first: nat, next: nat, c: string,
                       done: seq<(Event, Settled)>, e: Event, r: Settled)
    requires LettersGrow(letters, before, first, c, done) && first <= next && forall d | d in before :: d < next
    requires after == if r.Handled? then before else before[next := LetterOf(c, e, r)]
    ensures LettersGrow(letters, after, first, c, done + [(e, r)])
  {
    var all := done + [(e, r)];
    forall i | 0 <= i < |all| && all[i].1.DeadLettered?
      ensures exists d | d in after :: d >= first && after[d] == LetterOf(c, all[i].0, all[i].1)
    {
      if i < |done| {
        var d :| d in before && d >= first && before[d] == LetterOf(c, done[i].0, done[i].1);
        assert d in after && after[d] == before[d];
      } else {
        assert next in after;
      }
    }
  }

  lemma EventsOneMore(done: seq<(Event, Settled)>, e: Event, r: Settled)
    ensures EventsOf(done + [(e, r)]) == EventsOf(done) + [e]
  {
  }

  lemma OneMoreDone(done: seq<(Event, Settled)>, page: seq<Event>, i: nat, r: Settled)
    requires i < |page| && |done| == i && EventsOf(done) == page[..i]
    ensures EventsOf(done + [(page[i], r)]) == page[..i + 1]
  {
    EventsOneMore(done, page[i], r);
  }

  /** The database after the given events were settled in turn. */
  function AfterAll(t: Tables, c: string, es: seq<Event>): (r: Tables)
    requires c in t.cursors
    ensures c in r.cursors
  {
    if es == [] then t else AfterEvent(AfterAll(t, c, es[..|es| - 1]), c, es[|es| - 1])
  }

  /** Settling events touches nothing but the cursor and their attempt rows. */
  lemma {:induction false} AfterAllIs(t: Tables, c: string, es: seq<Event>)
    requires c in t.cursors
    ensures var r := AfterAll(t, c, es);
            && r.events == t.events && r.subscriptions == t.subscriptions && r.archive == t.archive
            && r.cursors == t.cursors[c := t.cursors[c].(last := if es == [] then t.cursors[c].last
                                                                 else es[|es| - 1].id)]
            && r.attempts == t.attempts - KeysOf(c, es)
    decreases |es|
  {
    if es == [] {
      assert KeysOf(c, es) == {} && t.attempts - {} == t.attempts;
      assert t.cursors[c := t.cursors[c].(last := t.cursors[c].last)] == t.cursors;
    } else {
      var k := |es| - 1;
      AfterAllIs(t, c, es[..k]);
      OneKeyMore(c, es);
      RemoveTwice(t.attempts, KeysOf(c, es[..k]), (c, es[k].id));
    }
  }

  function KeysOf(c: string, es: seq<Event>): (ks: set<(string, nat)>) {
    set e | e in es :: (c, e.id)
  }

  lemma OneKeyMore(c: string, es: seq<Event>)
    requires es != []
    ensures KeysOf(c, es) == KeysOf(c, es[..|es| - 1]) + {(c, es[|es| - 1].id)}
  {
    assert forall e :: e in es <==> e in es[..|es| - 1] || e == es[|es| - 1];
  }

  lemma RemoveTwice<K, V>(m: map<K, V>, ks: set<K>, k: K)
    ensures (m - ks) - {k} == m - (ks + {k})
  {
  }

  /** A turn moves the cursor past no event it did not settle. */
  lemma TurnSkipsNothing(t: Tables, c: string, batchSize: int, es: seq<Event>)
    requires t.Valid() && t.Poll(c, batchSize, None).Ok? && es <= t.Poll(c, batchSize, None).value && es != []
    ensures c in t.cursors && t.cursors[c].subscription in t.subscriptions
    ensures forall e | e in t.Deliverable(c) && e.id <= AfterAll(t, c, es).cursors[c].last :: e in es
  {
    PollSkipsNothing(t, c, batchSize, None);
    AfterAllIs(t, c, es);
    var page := t.Poll(c, batchSize, None).value;
    forall e | e in t.Deliverable(c) && e.id <= es[|es| - 1].id ensures e in es {
      assert es[|es| - 1] in page;
      assert e in page;
      var i :| 0 <= i < |page| && page[i] == e;
      assert page[|es| - 1] == es[|es| - 1];
      assert i <= |es| - 1;
      assert es[i] == e;
    }
  }

  lemma ForgetsAttempt(t: Tables, c: string, e: Event, n: nat)
    requires c in t.cursors
    ensures AfterEvent(RetryRecorded(t, c, e, n), c, e) == AfterEvent(t, c, e)
    ensures RetryRecorded(RetryRecorded(t, c, e, n), c, e, n + 1) == RetryRecorded(t, c, e, n + 1)
  {
    assert t.attempts[(c, e.id) := n] - {(c, e.id)} == t.attempts - {(c, e.id)};
  }
}
