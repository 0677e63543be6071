/**
 What the history of a run stands for (lib/subscribe.js, lib/poll.js, lib/dlq.js): which actions earn an event
 its mark, in which order a worker takes its statements, and how it leaves an event.
 */
module Turns {
  import opened Events
  import opened Filters
  import opened Wrappers
  import opened Database
  import opened Retention
  import opened Sweep
  import opened Delivery
  import Retry

  // ---------------------------------------------------------------- runs, from their end

  /** One action more at the end. */
  lemma {:induction false} RunSnoc(s: State, run: seq<Action>, a: Action, m: nat)
    requires CanRun(s, run + [a], m)
    ensures CanRun(s, run, m) && After(s, run, m).t.Valid() && Enabled(After(s, run, m), a, m)
    ensures After(s, run + [a], m) == Step(After(s, run, m), a, m)
    decreases |run|
  {
    if run == [] {
      assert run + [a] == [a] && [a][1..] == [];
    } else {
      assert (run + [a])[0] == run[0] && (run + [a])[1..] == run[1..] + [a];
      RunSnoc(Step(s, run[0], m), run[1..], a, m);
    }
  }

  lemma RunLast(s: State, run: seq<Action>, m: nat)
    requires CanRun(s, run, m) && run != []
    ensures var before, a := run[..|run| - 1], run[|run| - 1];
            && CanRun(s, before, m) && After(s, before, m).t.Valid() && Enabled(After(s, before, m), a, m)
            && After(s, run, m) == Step(After(s, before, m), a, m)
  {
    assert run == run[..|run| - 1] + [run[|run| - 1]];
    RunSnoc(s, run[..|run| - 1], run[|run| - 1], m);
  }

  lemma {:induction false} RunPrefix(s: State, run: seq<Action>, k: nat, m: nat)
    requires CanRun(s, run, m) && k <= |run|
    ensures CanRun(s, run[..k], m)
    decreases |run|
  {
    if k < |run| {
      RunLast(s, run, m);
      RunPrefix(s, run[..|run| - 1], k, m);
      assert run[..|run| - 1][..k] == run[..k];
    } else {
      assert run[..k] == run;
    }
  }

  /** The state after the first `i` actions. */
  ghost function At(run: seq<Action>, i: nat, m: nat): (s: State)
    requires CanRun(Initial(), run, m) && i <= |run|
  {
    RunPrefix(Initial(), run, i, m);
    After(Initial(), run[..i], m)
  }

  lemma AtNext(run: seq<Action>, i: nat, m: nat)
    requires CanRun(Initial(), run, m) && i < |run|
    ensures CanRun(Initial(), run[..i], m) && After(Initial(), run[..i], m) == At(run, i, m)
    ensures At(run, i, m).t.Valid() && Enabled(At(run, i, m), run[i], m)
    ensures At(run, i + 1, m) == Step(At(run, i, m), run[i], m)
  {
    RunPrefix(Initial(), run, i + 1, m);
    RunLast(Initial(), run[..i + 1], m);
    assert run[..i + 1][..i] == run[..i] && run[..i + 1][i] == run[i];
  }

  lemma AtEnds(run: seq<Action>, m: nat)
    requires CanRun(Initial(), run, m)
    ensures At(run, 0, m) == Initial() && At(run, |run|, m) == After(Initial(), run, m)
  {
    assert run[..0] == [] && run[..|run|] == run;
  }

  // ---------------------------------------------------------------- marks and what earns them

  datatype Mark =
    | Owed(c: string, e: Event)
    | Handled(c: string, e: Event)
    | DeadLettered(c: string, e: Event)
    | Replayed(c: string, e: Event)
    | Dropped(c: string, e: Event)
    | Capped(e: Event)

  predicate Marked(h: History, k: Mark) {
    match k
    case Owed(c, e) => (c, e) in h.owed
    case Handled(c, e) => (c, e) in h.handled
    case DeadLettered(c, e) => (c, e) in h.deadLettered
    case Replayed(c, e) => (c, e) in h.replayed
    case Dropped(c, e) => (c, e) in h.dropped
    case Capped(e) => e in h.capped
  }

  /** Worker `w` is on cursor `c` and its current event is `e`. */
  predicate OnEvent(s: State, w: nat, c: string, e: Event) {
    WorkingAt(s, w) && s.workers[w].cursor == c && Current(s, w) == e
  }

  /** The letter is about `e` and belongs to `c`. */
  predicate LetterFor(s: State, d: nat, c: string, e: Event) {
    d in s.deadLetters && s.deadLetters[d].cursor == c && s.deadLetters[d].event == e
  }

  /** The subscription of an active cursor is active and its filter selects `e`. */
  predicate Subscribed(t: Tables, c: string, e: Event)
    requires t.Valid()
  {
    && c in t.cursors && t.cursors[c].active
    && var sub := t.subscriptions[t.cursors[c].subscription]; sub.active && Selects(sub.filter, e.etype, e.domain)
  }

  /** Taking action `a` in state `s` gives the mark. */
  ghost predicate Earns(s: State, a: Action, k: Mark)
    requires s.t.Valid()
  {
    match k
    case Owed(c, e) =>
      || (a == Emit(e) && Subscribed(s.t, c, e))
      || (a.CreateCursor? && a.c == c && a.subscription in s.t.subscriptions && e in s.t.events && e.id > a.start
          && Selects(s.t.subscriptions[a.subscription].filter, e.etype, e.domain))
    case Handled(c, e) => a.HandlerReturns? && OnEvent(s, a.w, c, e)
    case DeadLettered(c, e) => a.InsertDeadLetter? && OnEvent(s, a.w, c, e)
    case Replayed(c, e) =>
      a.EndReplay? && a.ok && a.w in s.workers && s.workers[a.w].pc.Replaying?
      && LetterFor(s, s.workers[a.w].pc.letter, c, e)
    case Dropped(c, e) => a.DropLetter? && LetterFor(s, a.letter, c, e)
    case Capped(e) => e in s.t.events && Awaited(s.t, e) && AgedOut(s, a, e)
  }

  /** A sweep or a tiered delete takes the row although it is awaited: it expired and is older than the cap. */
  predicate AgedOut(s: State, a: Action, e: Event) {
    match a
    case SweepLive(now, capMs, _) => e.expiresAt < now && e.emittedAt + capMs < now
    case DeleteMoved(p, capMs) =>
      && p in s.passes && e in s.passes[p].rows
      && e.expiresAt < s.passes[p].now && e.emittedAt + capMs < s.passes[p].now
    case _ => false
  }

  // What a step leaves alone.

  /** Only these actions touch these parts of the history. */
  ghost predicate Moves(h: History, h': History, a: Action) {
    && (h'.owed == h.owed || a.Emit? || a.CreateCursor?)
    && (h'.handled == h.handled || a.HandlerReturns?)
    && (h'.deadLettered == h.deadLettered || a.InsertDeadLetter?)
    && (h'.replayed == h.replayed || a.EndReplay?)
    && (h'.dropped == h.dropped || a.DropLetter?)
    && (h'.capped == h.capped || a.SweepLive? || a.DeleteMoved?)
    && (h'.calls == h.calls || a.CallHandler?)
    && (h'.letters == h.letters || a.InsertDeadLetter?)
    && ((h'.crashes == h.crashes && h'.resets == h.resets) || a.Crash?)
  }

  lemma HistoryMoves(s: State, a: Action, m: nat)
    requires s.t.Valid() && Enabled(s, a, m)
    ensures Moves(s.h, Step(s, a, m).h, a)
  {
    if a.Emit? || a.CreateCursor? || a.SweepLive? || a.DeleteMoved? || a.DropLetter? {
      OthersMoveHistory(s, a, m);
    } else if Retry.ActorOf(a).None? {
      OthersLeaveHistory(s, a, m);
    } else if Calling(a) {
      CallingMovesHistory(s, a, m);
    } else if Settling(a) {
      SettlingMovesHistory(s, a, m);
    } else if Polls(a) {
      PollingMovesHistory(s, a, m);
    } else {
      RestMovesHistory(s, a, m);
    }
  }

  predicate Calling(a: Action) {
    a.BeginEvent? || a.CallHandler? || a.HandlerReturns? || a.HandlerThrows? || a.WakeUp?
  }

  predicate Settling(a: Action) {
    a.RecordAttempt? || a.InsertDeadLetter? || a.ClearAttempt? || a.AckEvent? || a.StatementThrows?
  }

  predicate Polls(a: Action) {
    a.ReadCursor? || a.CheckWindow? || a.SelectRows? || a.Reanchor? || a.EndBatch?
  }

  predicate Rests(a: Action) {
    a.Stop? || a.Crash? || a.BeginReplay? || a.EndReplay?
  }

  lemma OthersMoveHistory(s: State, a: Action, m: nat)
    requires s.t.Valid() && Enabled(s, a, m)
    requires a.Emit? || a.CreateCursor? || a.SweepLive? || a.DeleteMoved? || a.DropLetter?
    ensures Moves(s.h, Step(s, a, m).h, a)
  {
  }

  lemma OthersLeaveHistory(s: State, a: Action, m: nat)
    requires s.t.Valid() && Enabled(s, a, m) && Retry.ActorOf(a).None?
    requires !a.Emit? && !a.CreateCursor? && !a.SweepLive? && !a.DeleteMoved? && !a.DropLetter?
    ensures Step(s, a, m).h == s.h
  {
  }

  lemma CallingMovesHistory(s: State, a: Action, m: nat)
    requires s.t.Valid() && Enabled(s, a, m) && Calling(a)
    ensures Moves(s.h, Step(s, a, m).h, a)
  {
  }

  lemma SettlingMovesHistory(s: State, a: Action, m: nat)
    requires s.t.Valid() && Enabled(s, a, m) && Settling(a)
    ensures Moves(s.h, Step(s, a, m).h, a)
  {
    if a.AckEvent? || a.StatementThrows? { AckMovesHistory(s, a, m); }
  }

  lemma AckMovesHistory(s: State, a: Action, m: nat)
    requires s.t.Valid() && Enabled(s, a, m) && (a.AckEvent? || a.StatementThrows?)
    ensures Step(s, a, m).h == s.h
  {
  }

  lemma PollingMovesHistory(s: State, a: Action, m: nat)
    requires s.t.Valid() && Enabled(s, a, m) && Polls(a)
    ensures Step(s, a, m).h == s.h
  {
  }

  lemma RestMovesHistory(s: State, a: Action, m: nat)
    requires s.t.Valid() && Enabled(s, a, m) && Rests(a)
    ensures Moves(s.h, Step(s, a, m).h, a)
  {
  }

  lemma StepMarks(s: State, a: Action, m: nat, k: Mark)
    requires s.t.Valid() && Enabled(s, a, m)
    ensures Marked(Step(s, a, m).h, k) <==> Marked(s.h, k) || Earns(s, a, k)
  {
    match k
    case Owed(c, e) => StepOwes(s, a, m, c, e);
    case Handled(c, e) => StepHandles(s, a, m, c, e);
    case DeadLettered(c, e) => StepBuries(s, a, m, c, e);
    case Replayed(c, e) => StepReplays(s, a, m, c, e);
    case Dropped(c, e) => StepDrops(s, a, m, c, e);
    case Capped(e) => StepCaps(s, a, m, e);
  }

  lemma StepOwes(s: State, a: Action, m: nat, c: string, e: Event)
    requires s.t.Valid() && Enabled(s, a, m)
    ensures (c, e) in Step(s, a, m).h.owed <==> (c, e) in s.h.owed || Earns(s, a, Owed(c, e))
  {
    if !a.Emit? && !a.CreateCursor? { NothingOwed(s, a, m); }
  }

  lemma NothingOwed(s: State, a: Action, m: nat)
    requires s.t.Valid() && Enabled(s, a, m) && !a.Emit? && !a.CreateCursor?
    ensures Step(s, a, m).h.owed == s.h.owed
  {
    HistoryMoves(s, a, m);
  }

  lemma StepHandles(s: State, a: Action, m: nat, c: string, e: Event)
    requires s.t.Valid() && Enabled(s, a, m)
    ensures (c, e) in Step(s, a, m).h.handled <==> (c, e) in s.h.handled || Earns(s, a, Handled(c, e))
  {
    if !a.HandlerReturns? { NothingHandled(s, a, m); }
  }

  lemma NothingHandled(s: State, a: Action, m: nat)
    requires s.t.Valid() && Enabled(s, a, m) && !a.HandlerReturns?
    ensures Step(s, a, m).h.handled == s.h.handled
  {
    HistoryMoves(s, a, m);
  }

  lemma StepBuries(s: State, a: Action, m: nat, c: string, e: Event)
    requires s.t.Valid() && Enabled(s, a, m)
    ensures (c, e) in Step(s, a, m).h.deadLettered <==> (c, e) in s.h.deadLettered || Earns(s, a, DeadLettered(c, e))
  {
    if !a.InsertDeadLetter? { NothingBuried(s, a, m); }
  }

  lemma NothingBuried(s: State, a: Action, m: nat)
    requires s.t.Valid() && Enabled(s, a, m) && !a.InsertDeadLetter?
    ensures Step(s, a, m).h.deadLettered == s.h.deadLettered
  {
    HistoryMoves(s, a, m);
  }

  lemma StepReplays(s: State, a: Action, m: nat, c: string, e: Event)
    requires s.t.Valid() && Enabled(s, a, m)
    ensures (c, e) in Step(s, a, m).h.replayed <==> (c, e) in s.h.replayed || Earns(s, a, Replayed(c, e))
  {
    if !a.EndReplay? { NothingReplayed(s, a, m); }
  }

  lemma NothingReplayed(s: State, a: Action, m: nat)
    requires s.t.Valid() && Enabled(s, a, m) && !a.EndReplay?
    ensures Step(s, a, m).h.replayed == s.h.replayed
  {
    HistoryMoves(s, a, m);
  }

  lemma StepDrops(s: State, a: Action, m: nat, c: string, e: Event)
    requires s.t.Valid() && Enabled(s, a, m)
    ensures (c, e) in Step(s, a, m).h.dropped <==> (c, e) in s.h.dropped || Earns(s, a, Dropped(c, e))
  {
    if !a.DropLetter? { NothingDropped(s, a, m); }
  }

  lemma NothingDropped(s: State, a: Action, m: nat)
    requires s.t.Valid() && Enabled(s, a, m) && !a.DropLetter?
    ensures Step(s, a, m).h.dropped == s.h.dropped
  {
    HistoryMoves(s, a, m);
  }

  lemma StepCaps(s: State, a: Action, m: nat, e: Event)
    requires s.t.Valid() && Enabled(s, a, m)
    ensures e in Step(s, a, m).h.capped <==> e in s.h.capped || Earns(s, a, Capped(e))
  {
    if a.SweepLive? {
      SweepHistory(s, a, m);
      SweepCaps(s, a, e, Step(s, a, m).h.capped);
    } else if a.DeleteMoved? {
      DeleteHistory(s, a, m);
      DeleteCaps(s, a, e, Step(s, a, m).h.capped);
    } else {
      NothingCapped(s, a, m);
    }
  }

  lemma SweepCaps(s: State, a: Action, e: Event, capped: set<Event>)
    requires s.t.Valid() && a.SweepLive? && capped == s.h.capped + CappedRows(s.t, a.now, a.capMs)
    ensures e in capped <==> e in s.h.capped || Earns(s, a, Capped(e))
  {
    CapsMean(s.t, a.now, a.capMs, e);
  }

  lemma SweepHistory(s: State, a: Action, m: nat)
    requires s.t.Valid() && Enabled(s, a, m) && a.SweepLive?
    ensures Step(s, a, m).h.capped == s.h.capped + CappedRows(s.t, a.now, a.capMs)
  {
  }

  ghost function CappedRows(t: Tables, now: int, capMs: int): (rows: set<Event>) {
    set e | e in t.events && Sweep.Capped(t, e, now, capMs)
  }

  lemma CapsMean(t: Tables, now: int, capMs: int, e: Event)
    requires t.Valid()
    ensures e in CappedRows(t, now, capMs) <==>
            e in t.events && Awaited(t, e) && e.expiresAt < now && e.emittedAt + capMs < now
  {
    OwedIsAwaited(t, e);
  }

  lemma DeleteCaps(s: State, a: Action, e: Event, capped: set<Event>)
    requires s.t.Valid() && a.DeleteMoved? && a.p in s.passes
    requires capped == s.h.capped + CappedRows(s.t, s.passes[a.p].now, a.capMs) * s.passes[a.p].rows
    ensures e in capped <==> e in s.h.capped || Earns(s, a, Capped(e))
  {
    var pass := s.passes[a.p];
    CapsMean(s.t, pass.now, a.capMs, e);
    var aged := e.expiresAt < pass.now && e.emittedAt + a.capMs < pass.now;
    assert AgedOut(s, a, e) <==> e in pass.rows && aged;
  }

  lemma DeleteHistory(s: State, a: Action, m: nat)
    requires s.t.Valid() && Enabled(s, a, m) && a.DeleteMoved?
    ensures Step(s, a, m).h.capped == s.h.capped + CappedRows(s.t, s.passes[a.p].now, a.capMs) * s.passes[a.p].rows
  {
  }

  lemma NothingCapped(s: State, a: Action, m: nat)
    requires s.t.Valid() && Enabled(s, a, m) && !a.SweepLive? && !a.DeleteMoved?
    ensures Step(s, a, m).h.capped == s.h.capped
  {
    HistoryMoves(s, a, m);
  }

  /** The `i`th action of the run earned the mark. */
  ghost predicate EarnedAt(run: seq<Action>, m: nat, k: Mark, i: int)
    requires CanRun(Initial(), run, m)
  {
    0 <= i < |run| && At(run, i, m).t.Valid() && Earns(At(run, i, m), run[i], k)
  }

  lemma SameEarlier(run: seq<Action>, before: seq<Action>, m: nat, k: Mark, i: nat)
    requires CanRun(Initial(), run, m) && CanRun(Initial(), before, m) && before <= run && i < |before|
    ensures EarnedAt(before, m, k, i) <==> EarnedAt(run, m, k, i)
  {
    assert before[..i] == run[..i];
  }

  lemma LastEarns(run: seq<Action>, m: nat, k: Mark)
    requires CanRun(Initial(), run, m) && run != []
    ensures var before := run[..|run| - 1];
            && CanRun(Initial(), before, m) && After(Initial(), before, m).t.Valid()
            && (EarnedAt(run, m, k, |before|) <==> Earns(After(Initial(), before, m), run[|before|], k))
  {
    RunLast(Initial(), run, m);
  }

  lemma MarkStays(s: State, a: Action, m: nat, k: Mark)
    requires s.t.Valid() && Enabled(s, a, m) && Marked(s.h, k)
    ensures Marked(Step(s, a, m).h, k)
  {
    StepMarks(s, a, m, k);
  }

  lemma MarkGiven(s: State, a: Action, m: nat, k: Mark)
    requires s.t.Valid() && Enabled(s, a, m) && Earns(s, a, k)
    ensures Marked(Step(s, a, m).h, k)
  {
    StepMarks(s, a, m, k);
  }

  /** The last action of a run takes no mark away, and gives the one it earns. */
  lemma LastMarks(run: seq<Action>, m: nat, k: Mark)
    requires CanRun(Initial(), run, m) && run != []
    ensures CanRun(Initial(), run[..|run| - 1], m)
    ensures Marked(After(Initial(), run[..|run| - 1], m).h, k) ==> Marked(After(Initial(), run, m).h, k)
  {
    RunLast(Initial(), run, m);
    var before := After(Initial(), run[..|run| - 1], m);
    if Marked(before.h, k) { MarkStays(before, run[|run| - 1], m, k); }
  }

  lemma LastGives(run: seq<Action>, m: nat, k: Mark)
    requires CanRun(Initial(), run, m) && run != [] && EarnedAt(run, m, k, |run| - 1)
    ensures Marked(After(Initial(), run, m).h, k)
  {
    RunLast(Initial(), run, m);
    LastEarns(run, m, k);
    MarkGiven(After(Initial(), run[..|run| - 1], m), run[|run| - 1], m, k);
  }

  lemma {:induction false} EarnedIsMarked(run: seq<Action>, m: nat, k: Mark, i: nat)
    requires CanRun(Initial(), run, m) && i < |run| && EarnedAt(run, m, k, i)
    ensures Marked(After(Initial(), run, m).h, k)
    decreases |run|
  {
    var n := |run| - 1;
    if i < n {
      LastMarks(run, m, k);
      SameEarlier(run, run[..n], m, k, i);
      EarnedIsMarked(run[..n], m, k, i);
    } else {
      LastGives(run, m, k);
    }
  }

  lemma LastEarned(run: seq<Action>, m: nat, k: Mark)
    requires CanRun(Initial(), run, m) && run != [] && Marked(After(Initial(), run, m).h, k)
    ensures CanRun(Initial(), run[..|run| - 1], m)
    ensures Marked(After(Initial(), run[..|run| - 1], m).h, k) || EarnedAt(run, m, k, |run| - 1)
  {
    RunLast(Initial(), run, m);
    StepMarks(After(Initial(), run[..|run| - 1], m), run[|run| - 1], m, k);
    LastEarns(run, m, k);
  }

  lemma {:induction false} MarkedIsEarned(run: seq<Action>, m: nat, k: Mark) returns (i: nat)
    requires CanRun(Initial(), run, m) && Marked(After(Initial(), run, m).h, k)
    ensures EarnedAt(run, m, k, i)
    decreases |run|
  {
    LastEarned(run, m, k);
    i := |run| - 1;
    if !EarnedAt(run, m, k, i) {
      i := MarkedIsEarned(run[..|run| - 1], m, k);
      SameEarlier(run, run[..|run| - 1], m, k, i);
    }
  }

  /** Over every run, an event has a mark exactly when some action of the run earned it. */
  lemma MarksAreEarned(run: seq<Action>, m: nat, k: Mark)
    requires CanRun(Initial(), run, m)
    ensures Marked(After(Initial(), run, m).h, k) <==> exists i :: EarnedAt(run, m, k, i)
  {
    if Marked(After(Initial(), run, m).h, k) { var i := MarkedIsEarned(run, m, k); }
    forall i | EarnedAt(run, m, k, i) ensures Marked(After(Initial(), run, m).h, k) { EarnedIsMarked(run, m, k, i); }
  }

  /** An event counts as handled exactly when a handler call for it has returned. */
  lemma HandledExactly(run: seq<Action>, m: nat, c: string, e: Event)
    requires CanRun(Initial(), run, m)
    ensures (c, e) in After(Initial(), run, m).h.handled <==>
            exists i, w :: 0 <= i < |run| && run[i] == HandlerReturns(w) && OnEvent(At(run, i, m), w, c, e)
  {
    MarksAreEarned(run, m, Handled(c, e));
    if i :| EarnedAt(run, m, Handled(c, e), i) {
      assert run[i] == HandlerReturns(run[i].w) && OnEvent(At(run, i, m), run[i].w, c, e);
    }
    forall i, w | 0 <= i < |run| && run[i] == HandlerReturns(w) && OnEvent(At(run, i, m), w, c, e)
      ensures EarnedAt(run, m, Handled(c, e), i)
    {
      AtNext(run, i, m);
    }
  }

  // ---------------------------------------------------------------- how a worker leaves an event

  /** In the catch block, backing off, or trying again. */
  predicate Retrying(s: State, w: nat, c: string, e: Event) {
    OnEvent(s, w, c, e)
    && var stage := s.workers[w].pc.stage; stage.Failed? || stage.Sleeping? || stage.Ready? || stage.Running?
  }

  lemma ThrowRetries(s: State, m: nat, w: nat, c: string, e: Event)
    requires s.t.Valid() && Enabled(s, HandlerThrows(w), m) && OnEvent(s, w, c, e)
    ensures Retrying(Step(s, HandlerThrows(w), m), w, c, e)
  {
  }

  lemma StillRetrying(s: State, a: Action, m: nat, w: nat, c: string, e: Event)
    requires s.t.Valid() && Enabled(s, a, m) && Retrying(s, w, c, e)
    requires a != HandlerReturns(w) && a != InsertDeadLetter(w) && a != Crash(w)
    ensures Retrying(Step(s, a, m), w, c, e)
  {
    if Retry.ActorOf(a) != Some(w) || a.Stop? { OthersLeaveWorker(s, a, m, w); }
  }

  /** Actions of others, and `stop()`, leave a worker where it is. */
  lemma OthersLeaveWorker(s: State, a: Action, m: nat, w: nat)
    requires s.t.Valid() && Enabled(s, a, m) && (Retry.ActorOf(a) != Some(w) || a.Stop?)
    ensures Retry.PcOf(Step(s, a, m), w) == Retry.PcOf(s, w)
    ensures w in s.workers ==> w in Step(s, a, m).workers && Step(s, a, m).workers[w].cursor == s.workers[w].cursor
    ensures w in s.workers && a != Stop(w) ==> Step(s, a, m).workers[w] == s.workers[w]
  {
    if Retry.ActorOf(a).None? && !a.StartWorker? {
      NobodyMoves(s, a, m);
    } else if !a.StartWorker? {
      OneMoves(s, a, m);
    }
  }

  lemma NobodyMoves(s: State, a: Action, m: nat)
    requires s.t.Valid() && Enabled(s, a, m) && Retry.ActorOf(a).None? && !a.StartWorker?
    ensures Step(s, a, m).workers == s.workers
  {
  }

  /** The worker that moves stays on its cursor; `stop()` and a crash say whether it is to stop. */
  ghost predicate MovesOne(s: State, s': State, a: Action, v: nat) {
    && v in s.workers && v in s'.workers && s'.workers == s.workers[v := s'.workers[v]]
    && s'.workers[v].cursor == s.workers[v].cursor
    && s'.workers[v].stopping == (a.Stop? || (!a.Crash? && s.workers[v].stopping))
    && (a.Stop? ==> s'.workers[v].pc == s.workers[v].pc)
  }

  lemma OneMoves(s: State, a: Action, m: nat)
    requires s.t.Valid() && Enabled(s, a, m) && Retry.ActorOf(a).Some?
    ensures MovesOne(s, Step(s, a, m), a, Retry.ActorOf(a).value)
  {
    if Calling(a) {
      OneCalls(s, a, m);
    } else if Settling(a) {
      OneSettles(s, a, m);
    } else if Polls(a) {
      OnePolls(s, a, m);
    } else {
      OneRests(s, a, m);
    }
  }

  lemma OneCalls(s: State, a: Action, m: nat)
    requires s.t.Valid() && Enabled(s, a, m) && Calling(a)
    ensures MovesOne(s, Step(s, a, m), a, Retry.ActorOf(a).value)
  {
  }

  lemma OneSettles(s: State, a: Action, m: nat)
    requires s.t.Valid() && Enabled(s, a, m) && Settling(a)
    ensures MovesOne(s, Step(s, a, m), a, Retry.ActorOf(a).value)
  {
  }

  lemma OnePolls(s: State, a: Action, m: nat)
    requires s.t.Valid() && Enabled(s, a, m) && Polls(a)
    ensures MovesOne(s, Step(s, a, m), a, Retry.ActorOf(a).value)
  {
    assert s.workers == s.workers[a.w := s.workers[a.w]];
  }

  lemma OneRests(s: State, a: Action, m: nat)
    requires s.t.Valid() && Enabled(s, a, m) && Rests(a)
    ensures MovesOne(s, Step(s, a, m), a, Retry.ActorOf(a).value)
  {
  }

  /** A worker on `e` gets past it by the call that returns, by a dead letter, or by crashing. */
  ghost predicate Released(run: seq<Action>, m: nat, w: nat, c: string, e: Event, k: int)
    requires CanRun(Initial(), run, m)
  {
    && 0 <= k < |run| && OnEvent(At(run, k, m), w, c, e)
    && (run[k] == HandlerReturns(w) || run[k] == InsertDeadLetter(w) || run[k] == Crash(w))
  }

  /**
   Over every run, a worker whose handler threw on an event goes on trying it until a later call for it
   returns, until it has become a dead letter, or until the worker crashes.
   */
  lemma {:induction false} ThrownIsPursued(run: seq<Action>, m: nat, i: nat, w: nat, c: string, e: Event)
    requires CanRun(Initial(), run, m) && i < |run|
    requires run[i] == HandlerThrows(w) && OnEvent(At(run, i, m), w, c, e)
    ensures Retrying(After(Initial(), run, m), w, c, e) || exists k :: i < k && Released(run, m, w, c, e, k)
    decreases |run|
  {
    var n := |run| - 1;
    RunLast(Initial(), run, m);
    if i == n {
      ThrowRetries(After(Initial(), run[..n], m), m, w, c, e);
    } else {
      assert run[..n][..i] == run[..i];
      ThrownIsPursued(run[..n], m, i, w, c, e);
      PursuedOneMore(run, m, i, w, c, e);
    }
  }

  lemma PursuedOneMore(run: seq<Action>, m: nat, i: nat, w: nat, c: string, e: Event)
    requires CanRun(Initial(), run, m) && i < |run| - 1 && CanRun(Initial(), run[..|run| - 1], m)
    requires var before := run[..|run| - 1];
             || Retrying(After(Initial(), before, m), w, c, e)
             || exists k :: i < k && Released(before, m, w, c, e, k)
    ensures Retrying(After(Initial(), run, m), w, c, e) || exists k :: i < k && Released(run, m, w, c, e, k)
  {
    var n := |run| - 1;
    var before := run[..n];
    RunLast(Initial(), run, m);
    if k :| i < k && Released(before, m, w, c, e, k) {
      assert before[..k] == run[..k];
      assert Released(run, m, w, c, e, k);
    } else if run[n] == HandlerReturns(w) || run[n] == InsertDeadLetter(w) || run[n] == Crash(w) {
      assert Released(run, m, w, c, e, n);
    } else {
      StillRetrying(After(Initial(), before, m), run[n], m, w, c, e);
    }
  }

  /** What worker `w` is about to clear or acknowledge was handled, or is a dead letter. */
  predicate EarnedStage(s: State, w: nat) {
    WorkingAt(s, w) ==>
      var stage, k := s.workers[w].pc.stage, (s.workers[w].cursor, Current(s, w));
      stage.Clearing? || stage.Acking? ==> if stage.dead then k in s.h.deadLettered else k in s.h.handled
  }

  lemma HistoryGrows(s: State, a: Action, m: nat)
    requires s.t.Valid() && Enabled(s, a, m)
    ensures s.h.handled <= Step(s, a, m).h.handled && s.h.deadLettered <= Step(s, a, m).h.deadLettered
  {
    if !a.HandlerReturns? { NothingHandled(s, a, m); }
    if !a.InsertDeadLetter? { NothingBuried(s, a, m); }
  }

  lemma StageStaysEarned(s: State, a: Action, m: nat, w: nat)
    requires s.t.Valid() && Enabled(s, a, m) && EarnedStage(s, w)
    ensures EarnedStage(Step(s, a, m), w)
  {
    HistoryGrows(s, a, m);
    if Retry.ActorOf(a) != Some(w) || a.Stop? { OthersLeaveWorker(s, a, m, w); } else { OwnStageEarned(s, a, m, w); }
  }

  lemma OwnStageEarned(s: State, a: Action, m: nat, w: nat)
    requires s.t.Valid() && Enabled(s, a, m) && EarnedStage(s, w) && Retry.ActorOf(a) == Some(w) && !a.Stop?
    requires s.h.handled <= Step(s, a, m).h.handled && s.h.deadLettered <= Step(s, a, m).h.deadLettered
    ensures EarnedStage(Step(s, a, m), w)
  {
  }

  lemma {:induction false} StagesAreEarned(run: seq<Action>, m: nat, w: nat)
    requires CanRun(Initial(), run, m)
    ensures EarnedStage(After(Initial(), run, m), w)
    decreases |run|
  {
    if run != [] {
      RunLast(Initial(), run, m);
      StagesAreEarned(run[..|run| - 1], m, w);
      StageStaysEarned(After(Initial(), run[..|run| - 1], m), run[|run| - 1], m, w);
    }
  }

  /**
   Over every run, an event is acknowledged only after a handler call for it returned or it became a dead
   letter; the acknowledgement puts an active cursor on the event, and leaves a deregistered one alone.
   */
  lemma AckMeansDone(run: seq<Action>, m: nat, i: nat, w: nat)
    requires CanRun(Initial(), run, m) && i < |run| && run[i] == AckEvent(w)
    ensures WorkingAt(At(run, i, m), w)
    ensures var s := At(run, i, m);
            exists k, v :: 0 <= k < i && OnEvent(At(run, k, m), v, s.workers[w].cursor, Current(s, w))
                           && (run[k] == HandlerReturns(v) || run[k] == InsertDeadLetter(v))
    ensures var s, s' := At(run, i, m), At(run, i + 1, m);
            var c := s.workers[w].cursor;
            s'.t.cursors == if c in s.t.cursors && s.t.cursors[c].active
                            then s.t.cursors[c := s.t.cursors[c].(last := Current(s, w).id)] else s.t.cursors
  {
    AtNext(run, i, m);
    AckPosition(At(run, i, m), m, w);
    AckEarned(run, m, i, w);
  }

  lemma AckEarned(run: seq<Action>, m: nat, i: nat, w: nat)
    requires CanRun(Initial(), run, m) && i < |run| && run[i] == AckEvent(w) && WorkingAt(At(run, i, m), w)
    ensures var s := At(run, i, m);
            exists k, v :: 0 <= k < i && OnEvent(At(run, k, m), v, s.workers[w].cursor, Current(s, w))
                           && (run[k] == HandlerReturns(v) || run[k] == InsertDeadLetter(v))
  {
    AtNext(run, i, m);
    var s, before := At(run, i, m), run[..i];
    StagesAreEarned(before, m, w);
    var c, e := s.workers[w].cursor, Current(s, w);
    var j := DoneBefore(before, m, c, e);
    assert before[..j] == run[..j];
    assert OnEvent(At(run, j, m), run[j].w, c, e);
  }

  /** Where a handled or dead-lettered event became so. */
  lemma DoneBefore(run: seq<Action>, m: nat, c: string, e: Event) returns (j: nat)
    requires CanRun(Initial(), run, m)
    requires var h := After(Initial(), run, m).h; (c, e) in h.handled || (c, e) in h.deadLettered
    ensures j < |run| && (run[j].HandlerReturns? || run[j].InsertDeadLetter?) && OnEvent(At(run, j, m), run[j].w, c, e)
  {
    var k := if (c, e) in After(Initial(), run, m).h.handled then Handled(c, e) else Mark.DeadLettered(c, e);
    j := MarkedIsEarned(run, m, k);
  }

  lemma AckPosition(s: State, m: nat, w: nat)
    requires s.t.Valid() && Enabled(s, AckEvent(w), m)
    ensures var c, s' := s.workers[w].cursor, Step(s, AckEvent(w), m);
            s'.t.cursors == if c in s.t.cursors && s.t.cursors[c].active
                            then s.t.cursors[c := s.t.cursors[c].(last := Current(s, w).id)] else s.t.cursors
  {
  }

  /**
   A statement that throws after the handler returned counts as one more failed attempt at the same event; so does
   the acknowledgement of a deregistered cursor, but after a dead letter it ends the turn.
   */
  lemma FailureCounts(s: State, a: Action, m: nat, w: nat, c: string, e: Event)
    requires s.t.Valid() && Enabled(s, a, m) && OnEvent(s, w, c, e)
    requires a == StatementThrows(w) || a == HandlerThrows(w)
             || (a == AckEvent(w) && !(c in s.t.cursors && s.t.cursors[c].active))
    ensures var s' := Step(s, a, m);
            && s'.t == s.t && w in s'.workers
            && if a == AckEvent(w) && s.workers[w].pc.stage.dead then s'.workers[w].pc == Idle
               else Retrying(s', w, c, e) && s'.workers[w].pc.attempts == s.workers[w].pc.attempts + 1
  {
  }

  // ---------------------------------------------------------------- the order of a worker's statements

  /** What worker `w` did last, leaving `stop()` aside. */
  function LastOwn(run: seq<Action>, w: nat): (a: Option<Action>)
    decreases |run|
  {
    if run == [] then None
    else
      var last := run[|run| - 1];
      if Retry.ActorOf(last) == Some(w) && !last.Stop? then Some(last) else LastOwn(run[..|run| - 1], w)
  }

  /** The worker is between two turns. */
  predicate Resting(last: Option<Action>) {
    last.None? || last.value.Crash? || last.value.EndReplay? || last.value.ReadCursor? || last.value.Reanchor?
    || last.value.EndBatch? || last.value.AckEvent?
  }

  /** The order of the program: which statements of a worker may come before `a`. */
  predicate Follows(last: Option<Action>, a: Action) {
    match a
    case Crash(_) => true
    case Stop(_) => true
    case ReadCursor(_) => Resting(last)
    case BeginReplay(_, _) => Resting(last)
    case EndReplay(_, _) => last.Some? && last.value.BeginReplay?
    case CheckWindow(_) => last.Some? && last.value.ReadCursor?
    case SelectRows(_, _) => last.Some? && last.value.CheckWindow?
    case Reanchor(_) => last.Some? && last.value.CheckWindow?
    case BeginEvent(_) => last.Some? && (last.value.SelectRows? || last.value.AckEvent?)
    case EndBatch(_) => last.Some? && (last.value.SelectRows? || last.value.AckEvent?)
    case CallHandler(_) => last.Some? && (last.value.BeginEvent? || last.value.WakeUp?)
    case HandlerReturns(_) => last.Some? && last.value.CallHandler?
    case HandlerThrows(_) => last.Some? && last.value.CallHandler?
    case RecordAttempt(_) => last.Some? && Threw(last.value)
    case WakeUp(_) => last.Some? && last.value.RecordAttempt?
    case InsertDeadLetter(_) =>
      last.Some? && (Threw(last.value) || last.value.RecordAttempt? || last.value.BeginEvent? || last.value.WakeUp?)
    case ClearAttempt(_) => last.Some? && (last.value.HandlerReturns? || last.value.InsertDeadLetter?)
    case AckEvent(_) => last.Some? && last.value.ClearAttempt?
    case StatementThrows(_) => last.Some? && (last.value.HandlerReturns? || last.value.ClearAttempt?)
    case _ => true
  }

  /** The handler, or a statement after it, or the acknowledgement of a deregistered cursor. */
  predicate Threw(a: Action) {
    a.HandlerThrows? || a.StatementThrows? || a.AckEvent?
  }

  /** Where a worker can be after its last action. */
  predicate PcFits(last: Option<Action>, pc: Pc) {
    match pc
    case Idle => Resting(last)
    case Replaying(_) => last.Some? && last.value.BeginReplay?
    case Polling(_, checked) => last.Some? && if checked then last.value.CheckWindow? else last.value.ReadCursor?
    case Reanchoring(_) => last.Some? && last.value.CheckWindow?
    case Working(_, _, _, _, stage) => last.Some? && StageFits(last.value, stage)
  }

  predicate StageFits(last: Action, stage: Stage) {
    match stage
    case Next => last.SelectRows? || last.AckEvent?
    case Ready => last.BeginEvent? || last.WakeUp?
    case Running => last.CallHandler?
    case Failed => Threw(last)
    case Sleeping => last.RecordAttempt?
    case Clearing(dead) => if dead then last.InsertDeadLetter? else last.HandlerReturns?
    case Acking(_) => last.ClearAttempt?
  }

  lemma OwnStepFits(s: State, a: Action, m: nat, w: nat, last: Option<Action>)
    requires s.t.Valid() && Enabled(s, a, m) && Retry.ActorOf(a) == Some(w) && !a.Stop?
    requires PcFits(last, Retry.PcOf(s, w))
    ensures Follows(last, a) && PcFits(Some(a), Retry.PcOf(Step(s, a, m), w))
  {
    if Calling(a) { CallingFits(s, a, m, w, last); }
    if Settling(a) { SettlingFits(s, a, m, w, last); }
  }

  lemma CallingFits(s: State, a: Action, m: nat, w: nat, last: Option<Action>)
    requires s.t.Valid() && Enabled(s, a, m) && Retry.ActorOf(a) == Some(w) && Calling(a)
    requires PcFits(last, Retry.PcOf(s, w))
    ensures Follows(last, a) && PcFits(Some(a), Retry.PcOf(Step(s, a, m), w))
  {
  }

  lemma SettlingFits(s: State, a: Action, m: nat, w: nat, last: Option<Action>)
    requires s.t.Valid() && Enabled(s, a, m) && Retry.ActorOf(a) == Some(w) && Settling(a)
    requires PcFits(last, Retry.PcOf(s, w))
    ensures Follows(last, a) && PcFits(Some(a), Retry.PcOf(Step(s, a, m), w))
  {
  }

  lemma {:induction false} PlaceFits(run: seq<Action>, m: nat, w: nat)
    requires CanRun(Initial(), run, m)
    ensures PcFits(LastOwn(run, w), Retry.PcOf(After(Initial(), run, m), w))
    decreases |run|
  {
    if run != [] {
      var before, a := run[..|run| - 1], run[|run| - 1];
      RunLast(Initial(), run, m);
      PlaceFits(before, m, w);
      if Retry.ActorOf(a) == Some(w) && !a.Stop? {
        OwnStepFits(After(Initial(), before, m), a, m, w, LastOwn(before, w));
      } else {
        OthersLeaveWorker(After(Initial(), before, m), a, m, w);
      }
    }
  }

  /** Over every run, each worker takes its statements in the order of the program. */
  lemma InProgramOrder(run: seq<Action>, m: nat, i: nat, w: nat)
    requires CanRun(Initial(), run, m) && i < |run| && Retry.ActorOf(run[i]) == Some(w)
    ensures Follows(LastOwn(run[..i], w), run[i])
  {
    if !run[i].Stop? {
      AtNext(run, i, m);
      PlaceFits(run[..i], m, w);
      OwnStepFits(At(run, i, m), run[i], m, w, LastOwn(run[..i], w));
    }
  }

  // ---------------------------------------------------------------- counting

  /** Handler calls of the run for an event of a cursor. */
  ghost function CallsIn(run: seq<Action>, m: nat, c: string, id: nat): (n: nat)
    requires CanRun(Initial(), run, m)
    decreases |run|
  {
    if run == [] then 0
    else
      RunLast(Initial(), run, m);
      var before, a := run[..|run| - 1], run[|run| - 1];
      CallsIn(before, m, c, id) + if a.CallHandler? && OnId(After(Initial(), before, m), a.w, c, id) then 1 else 0
  }

  /** Dead letters the run inserted for an event of a cursor. */
  ghost function LettersIn(run: seq<Action>, m: nat, c: string, id: nat): (n: nat)
    requires CanRun(Initial(), run, m)
    decreases |run|
  {
    if run == [] then 0
    else
      RunLast(Initial(), run, m);
      var before, a := run[..|run| - 1], run[|run| - 1];
      LettersIn(before, m, c, id)
      + if a.InsertDeadLetter? && OnId(After(Initial(), before, m), a.w, c, id) then 1 else 0
  }

  predicate OnId(s: State, w: nat, c: string, id: nat) {
    WorkingAt(s, w) && s.workers[w].cursor == c && Current(s, w).id == id
  }

  lemma StepCounts(s: State, a: Action, m: nat, w: nat, c: string, id: nat)
    requires s.t.Valid() && Enabled(s, a, m)
    ensures var s' := Step(s, a, m);
            && Retry.Calls(s', c, id) == Retry.Calls(s, c, id)
                 + (if a.CallHandler? && OnId(s, a.w, c, id) then 1 else 0)
            && Retry.Letters(s', c, id) == Retry.Letters(s, c, id)
                 + (if a.InsertDeadLetter? && OnId(s, a.w, c, id) then 1 else 0)
            && Retry.AllCrashes(s', w) == Retry.AllCrashes(s, w) + (if a == Crash(w) then 1 else 0)
  {
    if !a.CallHandler? && !a.InsertDeadLetter? && !a.Crash? { NothingCounted(s, a, m); }
  }

  lemma NothingCounted(s: State, a: Action, m: nat)
    requires s.t.Valid() && Enabled(s, a, m) && !a.CallHandler? && !a.InsertDeadLetter? && !a.Crash?
    ensures var h, h' := s.h, Step(s, a, m).h;
            h'.calls == h.calls && h'.letters == h.letters && h'.crashes == h.crashes && h'.resets == h.resets
  {
    NoneCalled(s, a, m);
    NoneCrashed(s, a, m);
  }

  lemma NoneCalled(s: State, a: Action, m: nat)
    requires s.t.Valid() && Enabled(s, a, m) && !a.CallHandler? && !a.InsertDeadLetter?
    ensures Step(s, a, m).h.calls == s.h.calls && Step(s, a, m).h.letters == s.h.letters
  {
    HistoryMoves(s, a, m);
  }

  lemma NoneCrashed(s: State, a: Action, m: nat)
    requires s.t.Valid() && Enabled(s, a, m) && !a.Crash?
    ensures Step(s, a, m).h.crashes == s.h.crashes && Step(s, a, m).h.resets == s.h.resets
  {
    HistoryMoves(s, a, m);
  }

  lemma {:induction false} CrashesSnoc(before: seq<Action>, a: Action, w: nat)
    ensures Retry.Crashes(before + [a], w) == Retry.Crashes(before, w) + if a == Crash(w) then 1 else 0
    decreases |before|
  {
    if before == [] {
      assert before + [a] == [a] && [a][1..] == [];
    } else {
      assert (before + [a])[1..] == before[1..] + [a];
      CrashesSnoc(before[1..], a, w);
    }
  }

  /** The counters of a run are what they are called: its handler calls, its dead letters and its crashes. */
  lemma {:induction false} CountersAreTrue(run: seq<Action>, m: nat, w: nat, c: string, id: nat)
    requires CanRun(Initial(), run, m)
    ensures var s := After(Initial(), run, m);
            && Retry.Calls(s, c, id) == CallsIn(run, m, c, id)
            && Retry.Letters(s, c, id) == LettersIn(run, m, c, id)
            && Retry.AllCrashes(s, w) == Retry.Crashes(run, w)
    decreases |run|
  {
    if run != [] {
      var before, a := run[..|run| - 1], run[|run| - 1];
      RunLast(Initial(), run, m);
      CountersAreTrue(before, m, w, c, id);
      StepCounts(After(Initial(), before, m), a, m, w, c, id);
      CrashesSnoc(before, a, w);
      assert run == before + [a];
    }
  }

  /** The worker's last statement on the attempt row of its event deleted it. */
  predicate RowDeleted(run: seq<Action>, w: nat)
    decreases |run|
  {
    run != []
    && var a := run[|run| - 1];
       if a == ClearAttempt(w) then true
       else if a == BeginEvent(w) || a == RecordAttempt(w) || (a.SelectRows? && a.w == w) then false
       else RowDeleted(run[..|run| - 1], w)
  }

  /** Crashes of the run that hit a worker after it had deleted the attempt row of the event it was on. */
  ghost function ResetsIn(run: seq<Action>, m: nat, w: nat): (n: nat)
    requires CanRun(Initial(), run, m)
    decreases |run|
  {
    if run == [] then 0
    else
      RunLast(Initial(), run, m);
      var before, a := run[..|run| - 1], run[|run| - 1];
      ResetsIn(before, m, w)
      + if a == Crash(w) && Retry.PcOf(After(Initial(), before, m), w).Working? && RowDeleted(before, w) then 1 else 0
  }

  lemma RowStep(s: State, a: Action, m: nat, w: nat, deleted: bool)
    requires s.t.Valid() && Enabled(s, a, m)
    requires Retry.PcOf(s, w).Working? ==> Retry.PcOf(s, w).cleared == deleted
    ensures var pc := Retry.PcOf(Step(s, a, m), w);
            pc.Working? ==>
              pc.cleared ==
                if a == ClearAttempt(w) then true
                else if a == BeginEvent(w) || a == RecordAttempt(w) || (a.SelectRows? && a.w == w) then false
                else deleted
  {
    if Retry.ActorOf(a) != Some(w) || a.Stop? { OthersLeaveWorker(s, a, m, w); }
  }

  lemma StepResets(s: State, a: Action, m: nat, w: nat)
    requires s.t.Valid() && Enabled(s, a, m)
    ensures Count(Step(s, a, m).h.resets, w) == Count(s.h.resets, w)
              + if a == Crash(w) && Retry.PcOf(s, w).Working? && Retry.PcOf(s, w).cleared then 1 else 0
  {
    if !a.Crash? { NoneCrashed(s, a, m); }
  }

  /** The two kinds of crash that the retry bound tells apart. */
  lemma {:induction false} ResetsAreTrue(run: seq<Action>, m: nat, w: nat)
    requires CanRun(Initial(), run, m)
    ensures var s := After(Initial(), run, m);
            && Count(s.h.resets, w) == ResetsIn(run, m, w)
            && (Retry.PcOf(s, w).Working? ==> Retry.PcOf(s, w).cleared == RowDeleted(run, w))
    decreases |run|
  {
    if run != [] {
      var before, a := run[..|run| - 1], run[|run| - 1];
      RunLast(Initial(), run, m);
      ResetsAreTrue(before, m, w);
      RowStep(After(Initial(), before, m), a, m, w, RowDeleted(before, w));
      StepResets(After(Initial(), before, m), a, m, w);
    }
  }

  // ---------------------------------------------------------------- the budget is used up

  /** Nobody is stopping, and every letter came of more than `m` attempts. */
  ghost predicate Spent(s: State, m: nat) {
    && (forall w | w in s.workers :: !s.workers[w].stopping)
    && (forall d | d in s.deadLetters :: s.deadLetters[d].attempts > m)
  }

  lemma StepSpends(s: State, a: Action, m: nat)
    requires s.t.Valid() && Enabled(s, a, m) && Spent(s, m) && !a.Stop?
    ensures Spent(Step(s, a, m), m)
  {
    NobodyStops(s, a, m);
    if !a.InsertDeadLetter? && !a.EndReplay? && !a.RequestReplay? && !a.DropLetter? { NothingLettered(s, a, m); }
  }

  lemma NobodyStops(s: State, a: Action, m: nat)
    requires s.t.Valid() && Enabled(s, a, m) && !a.Stop? && forall w | w in s.workers :: !s.workers[w].stopping
    ensures forall w | w in Step(s, a, m).workers :: !Step(s, a, m).workers[w].stopping
  {
    if Retry.ActorOf(a).Some? {
      OneMoves(s, a, m);
    } else if !a.StartWorker? {
      NobodyMoves(s, a, m);
    }
  }

  lemma NothingLettered(s: State, a: Action, m: nat)
    requires s.t.Valid() && Enabled(s, a, m)
    requires !a.InsertDeadLetter? && !a.EndReplay? && !a.RequestReplay? && !a.DropLetter?
    ensures Step(s, a, m).deadLetters == s.deadLetters
  {
    if Retry.ActorOf(a).None? {
      if !a.StartWorker? { Retry.EnvironmentLeavesLetters(s, a, m); }
    } else if !a.BeginReplay? && !a.Crash? {
      Retry.WorkerLeavesLetters(s, a, m, Retry.ActorOf(a).value);
    }
  }

  /** As long as no worker is told to stop, an event becomes a dead letter only after more than `m` attempts. */
  lemma {:induction false} LettersAreSpent(run: seq<Action>, m: nat, d: nat)
    requires CanRun(Initial(), run, m) && (forall a | a in run :: !a.Stop?)
    ensures Spent(After(Initial(), run, m), m)
    ensures d in After(Initial(), run, m).deadLetters ==> After(Initial(), run, m).deadLetters[d].attempts > m
    decreases |run|
  {
    if run != [] {
      RunLast(Initial(), run, m);
      LettersAreSpent(run[..|run| - 1], m, d);
      StepSpends(After(Initial(), run[..|run| - 1], m), run[|run| - 1], m);
    }
  }

  /** A worker is never stuck: unless it rests and is to stop, it has a statement to take. */
  lemma WorkerCanMove(s: State, m: nat, w: nat)
    requires Inv(s) && w in s.workers && !(s.workers[w].pc.Idle? && s.workers[w].stopping)
    ensures exists a :: Retry.ActorOf(a) == Some(w) && !a.Crash? && !a.Stop? && Enabled(s, a, m)
  {
    var k := s.workers[w];
    var a := NextAction(k, w, m);
    if k.pc.Working? { ProcessingGoesOn(s, m, w); }
    assert Retry.ActorOf(a) == Some(w) && Enabled(s, a, m);
  }

  lemma ProcessingGoesOn(s: State, m: nat, w: nat)
    requires s.t.Valid() && w in s.workers && s.workers[w].pc.Working?
    requires var pc := s.workers[w].pc; pc.i <= |pc.batch| && (pc.i == |pc.batch| ==> pc.stage.Next?)
    ensures var a := NextAction(s.workers[w], w, m);
            Retry.ActorOf(a) == Some(w) && !a.Crash? && !a.Stop? && Enabled(s, a, m)
  {
  }

  function NextAction(k: Worker, w: nat, m: nat): (a: Action) {
    match k.pc
    case Idle => ReadCursor(w)
    case Replaying(_) => EndReplay(w, true)
    case Polling(_, checked) => if checked then SelectRows(w, 0) else CheckWindow(w)
    case Reanchoring(_) => Reanchor(w)
    case Working(batch, i, attempts, _, stage) =>
      match stage
      case Next => if k.stopping || i >= |batch| then EndBatch(w) else BeginEvent(w)
      case Ready => if k.stopping && attempts > 0 then InsertDeadLetter(w) else CallHandler(w)
      case Running => HandlerReturns(w)
      case Failed => if attempts > m then InsertDeadLetter(w) else RecordAttempt(w)
      case Sleeping => if k.stopping then InsertDeadLetter(w) else WakeUp(w)
      case Clearing(_) => ClearAttempt(w)
      case Acking(_) => AckEvent(w)
  }

  /** A poll, an event, a replay, or a retry after a backoff. */
  predicate Begins(a: Action) {
    a.ReadCursor? || a.BeginEvent? || a.BeginReplay? || a.WakeUp?
  }

  lemma {:induction false} StopHolds(run: seq<Action>, m: nat, i: nat, w: nat)
    requires CanRun(Initial(), run, m) && i < |run| && run[i] == Stop(w)
    requires forall k | i < k < |run| :: run[k] != Crash(w)
    ensures IsStopped(After(Initial(), run, m), w)
    decreases |run|
  {
    var n := |run| - 1;
    LastKeepsStopped(run, m, w);
    if i < n {
      RunPrefix(Initial(), run, n, m);
      StopHolds(run[..n], m, i, w);
    }
  }

  ghost predicate IsStopped(s: State, w: nat) {
    w in s.workers && s.workers[w].stopping
  }

  lemma LastKeepsStopped(run: seq<Action>, m: nat, w: nat)
    requires CanRun(Initial(), run, m) && run != [] && run[|run| - 1] != Crash(w)
    ensures CanRun(Initial(), run[..|run| - 1], m)
    ensures IsStopped(After(Initial(), run[..|run| - 1], m), w) || run[|run| - 1] == Stop(w)
        ==> IsStopped(After(Initial(), run, m), w)
  {
    RunLast(Initial(), run, m);
    var before := After(Initial(), run[..|run| - 1], m);
    if IsStopped(before, w) { StaysStopped(before, run[|run| - 1], m, w); }
  }

  /** After `stop()` and until a crash, a worker begins nothing new. */
  lemma StopIsObeyed(run: seq<Action>, m: nat, i: nat, k: nat, w: nat)
    requires CanRun(Initial(), run, m) && i < k < |run| && run[i] == Stop(w)
    requires forall j | i < j <= k :: run[j] != Crash(w)
    ensures Begins(run[k]) ==> Retry.ActorOf(run[k]) != Some(w)
  {
    AtNext(run, k, m);
    StopHolds(run[..k], m, i, w);
    StaysStopped(At(run, k, m), run[k], m, w);
  }

  lemma StaysStopped(s: State, a: Action, m: nat, w: nat)
    requires s.t.Valid() && Enabled(s, a, m) && w in s.workers && s.workers[w].stopping && a != Crash(w)
    ensures w in Step(s, a, m).workers && Step(s, a, m).workers[w].stopping
    ensures Begins(a) ==> Retry.ActorOf(a) != Some(w)
  {
    if Retry.ActorOf(a) == Some(w) { OneMoves(s, a, m); } else { OthersLeaveWorker(s, a, m, w); }
  }

  // ---------------------------------------------------------------- letters, cursors and registrations

  /**
   What becomes of a dead letter: a replay that succeeds and a drop remove it, a request marks it, a replay that
   fails clears the mark and counts one attempt more, and nothing else touches it.
   */
  lemma LetterFate(s: State, a: Action, m: nat, d: nat)
    requires Inv(s) && Enabled(s, a, m) && d in s.deadLetters
    ensures var l, s' := s.deadLetters[d], Step(s, a, m);
            var replayed := a.EndReplay? && s.workers[a.w].pc == Replaying(d);
            && (d in s'.deadLetters <==> !(replayed && a.ok) && a != DropLetter(d))
            && (d in s'.deadLetters ==>
                  s'.deadLetters[d] ==
                    if a == RequestReplay(d) then DeadLetter(l.cursor, l.event, l.attempts, true)
                    else if replayed then DeadLetter(l.cursor, l.event, l.attempts + 1, false)
                    else l)
  {
    if a.InsertDeadLetter? {
      LetterKept(s, a, m, d);
    } else if !a.EndReplay? && !a.RequestReplay? && !a.DropLetter? {
      NothingLettered(s, a, m);
    }
  }

  lemma LetterKept(s: State, a: Action, m: nat, d: nat)
    requires Inv(s) && Enabled(s, a, m) && d in s.deadLetters && a.InsertDeadLetter?
    ensures d in Step(s, a, m).deadLetters && Step(s, a, m).deadLetters[d] == s.deadLetters[d]
  {
  }

  /** A loop moves its own cursor only, while it is active: to the event acknowledged, or to the re-anchoring floor. */
  lemma LoopMovesCursor(s: State, a: Action, m: nat, w: nat)
    requires s.t.Valid() && Enabled(s, a, m) && Retry.ActorOf(a) == Some(w)
    ensures var s', c := Step(s, a, m), s.workers[w].cursor;
            s'.t.cursors ==
              if !(c in s.t.cursors && s.t.cursors[c].active) then s.t.cursors
              else if a.AckEvent? then s.t.cursors[c := s.t.cursors[c].(last := Current(s, w).id)]
              else if a.Reanchor? && s.workers[w].pc.floor >= 0 then
                s.t.cursors[c := s.t.cursors[c].(last := s.workers[w].pc.floor)]
              else s.t.cursors
  {
    if a.AckEvent? { AckPosition(s, m, w); }
  }

  /** The two statements of `register` leave the tables that the registration of module Database leaves. */
  lemma RegistrationIsARun(s: State, m: nat, sub: string, plugin: string, filter: string, c: string,
                           init: Option<CursorInit>)
    requires Inv(s) && s.nextId > 0 && sub !in s.t.subscriptions && c !in s.t.cursors
    ensures var run := [Register(sub, plugin, filter), CreateCursor(c, sub, StartPosition(s.t.events, init))];
            && CanRun(s, run, m)
            && After(s, run, m).t == Registered(s.t, sub, plugin, filter, Some(c), init)
            && After(s, run, m).t.Active(c)
  {
    var a, b := Register(sub, plugin, filter), CreateCursor(c, sub, StartPosition(s.t.events, init));
    if s.t.events != [] { assert s.t.events[|s.t.events| - 1] in s.t.events; }
    StepKeeps(s, a, m);
    TwoActions(s, a, b, m);
  }

  /** Ending subscriptions in a run ends exactly the cursors on them. */
  lemma EndedIsInactive(s: State, m: nat, subs: set<string>, c: string)
    requires s.t.Valid()
    ensures var s' := Step(s, DeregisterSubscriptions(subs), m);
            s'.t.Valid() && (s'.t.Active(c) <==> s.t.Active(c) && s.t.cursors[c].subscription !in subs)
  {
  }

  lemma TwoActions(s: State, a: Action, b: Action, m: nat)
    requires s.t.Valid() && Enabled(s, a, m) && Step(s, a, m).t.Valid() && Enabled(Step(s, a, m), b, m)
    ensures CanRun(s, [a, b], m) && After(s, [a, b], m) == Step(Step(s, a, m), b, m)
  {
    OneAction(Step(s, a, m), b, m);
    assert [a, b][0] == a && [a, b][1..] == [b];
  }

  lemma OneAction(s: State, a: Action, m: nat)
    requires s.t.Valid() && Enabled(s, a, m)
    ensures CanRun(s, [a], m) && After(s, [a], m) == Step(s, a, m)
  {
    assert [a][0] == a && [a][1..] == [];
    assert CanRun(Step(s, a, m), [a][1..], m);
  }

  /**
   The three commits of a tiered pass over rows that expired by `now`: all of them are in the warm tier, and those
   that are live leave the live table, but for the ones awaited and not older than the cap.
   */
  lemma PassIsARun(s: State, m: nat, p: nat, now: int, rows: set<Event>, capMs: int, e: Event)
    requires s.t.Valid() && p !in s.passes && e in s.t.events
    requires forall x | x in rows :: x in s.t.events && x.expiresAt < now
    ensures var run := [PickBatch(p, now, rows), CopyToWarm(p), DeleteMoved(p, capMs)];
            && CanRun(s, run, m)
            && After(s, run, m).warm == s.warm + rows
            && (e in After(s, run, m).t.events <==>
                  e !in rows || (Awaited(s.t, e) && e.emittedAt + capMs >= now))
  {
    var a, b, c := PickBatch(p, now, rows), CopyToWarm(p), DeleteMoved(p, capMs);
    var s1 := Step(s, a, m);
    var s2 := Step(s1, b, m);
    assert [a, b, c][0] == a && [a, b, c][1..] == [b, c];
    TwoActions(s1, b, c, m);
    DeletedByTimestamps(s2, c, m, e);
  }
}
