/**
 The retry budget across restarts (lib/subscribe.js): with one worker on a cursor and a fixed
 `maxRetries`, how often the handler can be called for an event, and how many dead letters it can
 leave, however often the worker crashes.
 */
module Retry {
  import opened Events
  import opened Wrappers
  import opened Database
  import opened Delivery

  /** `w` is the only worker that may be on cursor `c`. */
  ghost predicate Sole(s: State, w: nat, c: string) {
    && (w in s.workers ==> s.workers[w].cursor == c)
    && (forall v | v in s.workers && v != w :: s.workers[v].cursor != c)
  }

  predicate StartsOther(a: Action, w: nat, c: string) {
    a.StartWorker? && (a.w == w) != (a.c == c)
  }

  function Calls(s: State, c: string, id: nat): (n: nat) { Count(s.h.calls, (c, id)) }
  function Letters(s: State, c: string, id: nat): (n: nat) { Count(s.h.letters, (c, id)) }
  function Attempts(s: State, c: string, id: nat): (n: nat) { Count(s.t.attempts, (c, id)) }

  /** `r` full budgets of `m + 1` calls. */
  function Budgets(m: nat, r: nat): (n: nat) {
    if r == 0 then 0 else m + 1 + Budgets(m, r - 1)
  }

  lemma {:induction false} BudgetsIsProduct(m: nat, r: nat)
    ensures Budgets(m, r) == (m + 1) * r
  {
    if r > 0 {
      BudgetsIsProduct(m, r - 1);
      assert (m + 1) * r == (m + 1) * (r - 1) + (m + 1);
    }
  }

  /** What past crashes may have cost: a full budget for each reset, one call for each other crash. */
  function Spent(s: State, w: nat, m: nat): (n: nat) {
    Budgets(m, Count(s.h.resets, w)) + Count(s.h.crashes, w)
  }

  function AllCrashes(s: State, w: nat): (n: nat) {
    Count(s.h.resets, w) + Count(s.h.crashes, w)
  }

  /** The bound that always holds. */
  predicate Loose(s: State, w: nat, c: string, m: nat, id: nat) {
    Calls(s, c, id) <= m + 1 + Spent(s, w, m) && Letters(s, c, id) <= 1 + AllCrashes(s, w)
  }

  /**
   The bound of an event that is not being processed: every call so far is in the attempt row or was lost in
   a crash.
   */
  predicate Tight(s: State, w: nat, c: string, m: nat, id: nat) {
    Calls(s, c, id) <= Attempts(s, c, id) + Spent(s, w, m) && Letters(s, c, id) <= AllCrashes(s, w)
  }

  function Position(s: State, c: string): int {
    if c in s.t.cursors then s.t.cursors[c].last else -1
  }

  /** The bound of the event being processed, stage by stage. */
  predicate StageOk(s: State, w: nat, c: string, m: nat, id: nat, attempts: nat, cleared: bool, stage: Stage) {
    var spent := Calls(s, c, id) - Spent(s, w, m);
    && (stage.Ready? || stage.Running? || stage.Sleeping? ==>
          !cleared && attempts == Attempts(s, c, id) && Letters(s, c, id) <= AllCrashes(s, w))
    && (cleared ==> Attempts(s, c, id) == 0 && spent <= m + 1)
    && (stage.Ready? || stage.Sleeping? ==> spent <= attempts)
    && (stage.Running? ==> spent <= attempts + 1)
    && (stage.Failed? ==> attempts <= m + 1 && spent <= attempts && Letters(s, c, id) <= AllCrashes(s, w)
                          && (!cleared ==> attempts == Attempts(s, c, id) + 1))
    && (stage.Clearing? || stage.Acking? ==> Letters(s, c, id) <= (if stage.dead then 1 else 0) + AllCrashes(s, w))
    && (stage.Clearing? && !cleared ==> spent <= Attempts(s, c, id) + 1)
    && (stage.Clearing? && !stage.dead ==> !cleared && attempts == Attempts(s, c, id))
    && (stage.Acking? ==> cleared)
    && (stage.Acking? && !stage.dead ==> attempts <= m && spent <= attempts + 1)
  }

  ghost predicate PcOk(s: State, w: nat, c: string, m: nat, pc: Pc) {
    match pc
    case Polling(last, _) => last >= Position(s, c) && forall id: nat | id > Position(s, c) :: Tight(s, w, c, m, id)
    case Reanchoring(floor) => floor >= Position(s, c) && forall id: nat | id > Position(s, c) :: Tight(s, w, c, m, id)
    case Working(batch, i, attempts, cleared, stage) =>
      && i <= |batch| && Ascending(batch) && (i == |batch| ==> stage.Next?)
      && (forall j | i <= j < |batch| :: batch[j].id > Position(s, c))
      && (stage.Next? ==> forall id: nat | id > Position(s, c) :: Tight(s, w, c, m, id))
      && (!stage.Next? ==> StageOk(s, w, c, m, batch[i].id, attempts, cleared, stage)
                           && forall id: nat | id > Position(s, c) && id != batch[i].id :: Tight(s, w, c, m, id))
    case _ =>
      || (c in s.t.cursors && !s.t.cursors[c].active)
      || forall id: nat | id > Position(s, c) :: Tight(s, w, c, m, id)
  }

  function PcOf(s: State, w: nat): Pc {
    if w in s.workers then s.workers[w].pc else Idle
  }

  ghost predicate RInv(s: State, w: nat, c: string, m: nat) {
    && Sole(s, w, c)
    && (w in s.workers ==> c in s.t.cursors)
    && (forall id: nat :: Attempts(s, c, id) <= m && Loose(s, w, c, m, id))
    && PcOk(s, w, c, m, PcOf(s, w))
  }

  ghost predicate SameCounters(s: State, s': State, w: nat, c: string) {
    && Count(s'.h.crashes, w) == Count(s.h.crashes, w) && Count(s'.h.resets, w) == Count(s.h.resets, w)
    && (forall id: nat :: Attempts(s', c, id) == Attempts(s, c, id))
    && (forall id: nat :: Calls(s', c, id) == Calls(s, c, id))
    && (forall id: nat :: Letters(s', c, id) == Letters(s, c, id))
  }

  /** Steps that touch neither the worker nor its counters; the cursor may be created or deregistered. */
  lemma OtherStepKeeps(s: State, s': State, w: nat, c: string, m: nat)
    requires s.t.Valid() && RInv(s, w, c, m) && Sole(s', w, c)
    requires PcOf(s', w) == PcOf(s, w) && (w in s'.workers ==> c in s'.t.cursors)
    requires SameCounters(s, s', w, c)
    requires c in s.t.cursors ==> c in s'.t.cursors && s'.t.cursors[c].last == s.t.cursors[c].last
                                  && (!s.t.cursors[c].active ==> !s'.t.cursors[c].active)
    requires c !in s.t.cursors && c in s'.t.cursors ==> s'.t.cursors[c].last >= 0
    ensures RInv(s', w, c, m)
  {
    SameCounts(s, s', w, c, m);
  }

  lemma SameCounts(s: State, s': State, w: nat, c: string, m: nat)
    requires SameCounters(s, s', w, c)
    ensures forall id: nat :: Tight(s', w, c, m, id) == Tight(s, w, c, m, id)
    ensures forall id: nat :: Loose(s', w, c, m, id) == Loose(s, w, c, m, id)
  {
    assert Spent(s', w, m) == Spent(s, w, m);
  }

  /** A step of the worker that touches no counter of any other event. */
  lemma EventStepKeeps(s: State, s': State, w: nat, c: string, m: nat)
    requires s.t.Valid() && RInv(s, w, c, m) && WorkingAt(s, w) && WorkingAt(s', w)
    requires s'.workers == s.workers[w := s'.workers[w]] && s'.workers[w].cursor == c
    requires s'.t.cursors == s.t.cursors && s'.h.crashes == s.h.crashes && s'.h.resets == s.h.resets
    requires var e, pc, pc' := Current(s, w).id, s.workers[w].pc, s'.workers[w].pc;
             && pc'.batch == pc.batch && pc'.i == pc.i && !pc'.stage.Next?
             && StageOk(s', w, c, m, e, pc'.attempts, pc'.cleared, pc'.stage)
             && Attempts(s', c, e) <= m && Loose(s', w, c, m, e)
             && forall id: nat | id != e ::
                  && Calls(s', c, id) == Calls(s, c, id) && Letters(s', c, id) == Letters(s, c, id)
                  && Attempts(s', c, id) == Attempts(s, c, id)
    ensures RInv(s', w, c, m)
  {
    var e := Current(s, w).id;
    forall id: nat | id != e
      ensures Tight(s', w, c, m, id) == Tight(s, w, c, m, id) && Loose(s', w, c, m, id) == Loose(s, w, c, m, id)
    {
    }
  }

  lemma BeginKeeps(s: State, w: nat, c: string, m: nat)
    requires s.t.Valid() && RInv(s, w, c, m) && Enabled(s, BeginEvent(w), m)
    ensures RInv(Began(s, w), w, c, m)
  {
    var e := Current(s, w).id;
    assert Tight(s, w, c, m, e) && Attempts(s, c, e) <= m && Loose(s, w, c, m, e);
    EventStepKeeps(s, Began(s, w), w, c, m);
  }

  lemma CallKeeps(s: State, w: nat, c: string, m: nat)
    requires s.t.Valid() && RInv(s, w, c, m) && Enabled(s, CallHandler(w), m)
    ensures RInv(Called(s, w), w, c, m)
  {
    var e, pc := Current(s, w).id, s.workers[w].pc;
    assert StageOk(s, w, c, m, e, pc.attempts, pc.cleared, pc.stage);
    assert Attempts(s, c, e) <= m && Loose(s, w, c, m, e);
    EventStepKeeps(s, Called(s, w), w, c, m);
  }

  lemma OutcomeKeeps(s: State, a: Action, w: nat, c: string, m: nat)
    requires s.t.Valid() && RInv(s, w, c, m) && w in s.workers && Enabled(s, a, m)
    requires a == HandlerReturns(w) || a == HandlerThrows(w) || a == WakeUp(w)
    ensures RInv(Step(s, a, m), w, c, m)
  {
    var e, pc := Current(s, w).id, s.workers[w].pc;
    assert StageOk(s, w, c, m, e, pc.attempts, pc.cleared, pc.stage);
    assert Attempts(s, c, e) <= m && Loose(s, w, c, m, e);
    EventStepKeeps(s, Step(s, a, m), w, c, m);
  }

  lemma RecordKeeps(s: State, w: nat, c: string, m: nat)
    requires s.t.Valid() && RInv(s, w, c, m) && Enabled(s, RecordAttempt(w), m)
    ensures RInv(Recorded(s, w), w, c, m)
  {
    var e, pc := Current(s, w).id, s.workers[w].pc;
    assert StageOk(s, w, c, m, e, pc.attempts, pc.cleared, pc.stage);
    assert Attempts(s, c, e) <= m && Loose(s, w, c, m, e);
    EventStepKeeps(s, Recorded(s, w), w, c, m);
  }

  lemma LetterKeeps(s: State, w: nat, c: string, m: nat)
    requires s.t.Valid() && RInv(s, w, c, m) && Enabled(s, InsertDeadLetter(w), m)
    ensures RInv(Lettered(s, w), w, c, m)
  {
    var e, pc := Current(s, w).id, s.workers[w].pc;
    assert StageOk(s, w, c, m, e, pc.attempts, pc.cleared, pc.stage);
    assert Attempts(s, c, e) <= m && Loose(s, w, c, m, e);
    EventStepKeeps(s, Lettered(s, w), w, c, m);
  }

  lemma ClearKeeps(s: State, w: nat, c: string, m: nat)
    requires s.t.Valid() && RInv(s, w, c, m) && Enabled(s, ClearAttempt(w), m)
    ensures RInv(Cleared(s, w), w, c, m)
  {
    var e, pc := Current(s, w).id, s.workers[w].pc;
    assert StageOk(s, w, c, m, e, pc.attempts, pc.cleared, pc.stage);
    assert Attempts(s, c, e) <= m && Loose(s, w, c, m, e);
    EventStepKeeps(s, Cleared(s, w), w, c, m);
  }

  lemma ThrowKeeps(s: State, w: nat, c: string, m: nat)
    requires s.t.Valid() && RInv(s, w, c, m) && Enabled(s, StatementThrows(w), m)
    ensures RInv(Throw(s, w), w, c, m)
  {
    var e, pc := Current(s, w).id, s.workers[w].pc;
    assert StageOk(s, w, c, m, e, pc.attempts, pc.cleared, pc.stage);
    assert Attempts(s, c, e) <= m && Loose(s, w, c, m, e);
    EventStepKeeps(s, Throw(s, w), w, c, m);
  }

  lemma RowStepKeeps(s: State, a: Action, w: nat, c: string, m: nat)
    requires s.t.Valid() && RInv(s, w, c, m) && w in s.workers && Enabled(s, a, m)
    requires a == RecordAttempt(w) || a == InsertDeadLetter(w) || a == ClearAttempt(w) || a == StatementThrows(w)
    ensures RInv(Step(s, a, m), w, c, m)
  {
    match a
    case RecordAttempt(_) => RecordKeeps(s, w, c, m);
    case InsertDeadLetter(_) => LetterKeeps(s, w, c, m);
    case ClearAttempt(_) => ClearKeeps(s, w, c, m);
    case StatementThrows(_) => ThrowKeeps(s, w, c, m);
  }

  lemma CrashKeeps(s: State, w: nat, c: string, m: nat)
    requires s.t.Valid() && RInv(s, w, c, m) && w in s.workers
    ensures RInv(Crashed(s, w), w, c, m)
  {
    var s' := Crashed(s, w);
    assert Spent(s', w, m) >= Spent(s, w, m) + 1 && AllCrashes(s', w) == AllCrashes(s, w) + 1;
    forall id: nat
      ensures Attempts(s', c, id) == Attempts(s, c, id) && Loose(s', w, c, m, id)
      ensures Tight(s, w, c, m, id) ==> Tight(s', w, c, m, id)
    {
      assert Loose(s, w, c, m, id);
    }
    var pc := s.workers[w].pc;
    if pc.Working? && !pc.stage.Next? {
      var e := pc.batch[pc.i].id;
      assert StageOk(s, w, c, m, e, pc.attempts, pc.cleared, pc.stage);
      assert Tight(s', w, c, m, e);
    }
  }

  lemma AckKeepsBudget(s: State, w: nat, c: string, m: nat)
    requires s.t.Valid() && RInv(s, w, c, m) && Enabled(s, AckEvent(w), m)
    ensures RInv(Acked(s, w), w, c, m)
  {
    var s' := Acked(s, w);
    var pc := s.workers[w].pc;
    var e := pc.batch[pc.i].id;
    assert StageOk(s, w, c, m, e, pc.attempts, pc.cleared, pc.stage);
    if s.t.cursors[c].active {
      AckAdvances(s, w, c, m);
    } else if pc.stage.dead {
      SameCounts(s, s', w, c, m);
    } else {
      assert Attempts(s, c, e) <= m && Loose(s, w, c, m, e);
      EventStepKeeps(s, s', w, c, m);
    }
  }

  lemma AckAdvances(s: State, w: nat, c: string, m: nat)
    requires s.t.Valid() && RInv(s, w, c, m) && Enabled(s, AckEvent(w), m) && s.t.cursors[c].active
    ensures RInv(Acked(s, w), w, c, m)
  {
    var s' := Acked(s, w);
    var pc := s.workers[w].pc;
    var e := pc.batch[pc.i].id;
    SameCounts(s, s', w, c, m);
    assert Position(s', c) == e;
    assert forall j | pc.i + 1 <= j < |pc.batch| :: pc.batch[pc.i].id < pc.batch[j].id;
    forall id: nat | id > e ensures Tight(s', w, c, m, id) {
      assert Tight(s, w, c, m, id);
    }
  }

  /** The statements of a poll only move the worker: to a position, a floor or a batch not below the cursor. */
  ghost predicate PollShape(s: State, s': State, w: nat, c: string) {
    || s' == s
    || (w in s.workers && w in s'.workers && s' == SetPc(s, w, s'.workers[w].pc) && c in s.t.cursors
        && match s'.workers[w].pc
           case Working(rows, i, a, cleared, stage) =>
             && i == a == 0 && !cleared && stage.Next? && Ascending(rows)
             && forall j | 0 <= j < |rows| :: rows[j].id > Position(s, c)
           case Reanchoring(floor) => floor >= Position(s, c)
           case Polling(last, _) => last >= Position(s, c)
           case _ => false)
  }

  lemma SelectedShape(s: State, w: nat, n: int)
    requires s.t.Valid() && w in s.workers && s.workers[w].pc.Polling? && s.workers[w].cursor in s.t.cursors
    requires s.workers[w].pc.last >= Position(s, s.workers[w].cursor)
    ensures PollShape(s, RowsSelected(s, w, n), w, s.workers[w].cursor)
  {
    var c, last := s.workers[w].cursor, s.workers[w].pc.last;
    LimitedSelection(s.t.events, (e: Event) => e.id > last && s.t.Wants(c, e), if n == 0 then 100 else n);
    var rows := RowsSelected(s, w, n).workers[w].pc.batch;
    assert forall j | 0 <= j < |rows| :: rows[j] in rows;
  }

  lemma PollKeepsBudget(s: State, a: Action, w: nat, c: string, m: nat)
    requires s.t.Valid() && RInv(s, w, c, m) && Enabled(s, a, m) && w in s.workers && ActorOf(a) == Some(w)
    requires a.ReadCursor? || a.CheckWindow? || a.SelectRows?
    ensures RInv(Step(s, a, m), w, c, m)
  {
    var s' := Step(s, a, m);
    if a.SelectRows? { SelectedShape(s, w, a.batchSize); }
    assert PollShape(s, s', w, c);
    if s' != s { BatchKeepsBudget(s, s'.workers[w].pc, w, c, m); }
  }

  lemma BatchKeepsBudget(s: State, pc: Pc, w: nat, c: string, m: nat)
    requires RInv(s, w, c, m) && w in s.workers && PollShape(s, SetPc(s, w, pc), w, c) && SetPc(s, w, pc) != s
    requires s.workers[w].pc.Polling? || (s.workers[w].pc.Idle? && s.t.cursors[c].active)
    ensures RInv(SetPc(s, w, pc), w, c, m)
  {
    SameCounts(s, SetPc(s, w, pc), w, c, m);
  }

  /** The steps of the worker itself. */
  lemma OwnStepKeeps(s: State, a: Action, w: nat, c: string, m: nat)
    requires s.t.Valid() && RInv(s, w, c, m) && Enabled(s, a, m) && w in s.workers && ActorOf(a) == Some(w)
    ensures RInv(Step(s, a, m), w, c, m)
  {
    if a.BeginEvent? || a.CallHandler? || a.HandlerReturns? || a.HandlerThrows? || a.WakeUp? {
      HandlerStepKeeps(s, a, w, c, m);
    } else if a.RecordAttempt? || a.InsertDeadLetter? || a.ClearAttempt? || a.StatementThrows? {
      RowStepKeeps(s, a, w, c, m);
    } else if a.ReadCursor? || a.CheckWindow? || a.SelectRows? {
      PollKeepsBudget(s, a, w, c, m);
    } else if a.Crash? || a.AckEvent? {
      CursorStepKeepsBudget(s, a, w, c, m);
    } else {
      PlainStepKeeps(s, a, w, c, m);
    }
  }

  lemma HandlerStepKeeps(s: State, a: Action, w: nat, c: string, m: nat)
    requires s.t.Valid() && RInv(s, w, c, m) && Enabled(s, a, m) && w in s.workers && ActorOf(a) == Some(w)
    requires a.BeginEvent? || a.CallHandler? || a.HandlerReturns? || a.HandlerThrows? || a.WakeUp?
    ensures RInv(Step(s, a, m), w, c, m)
  {
    if a.BeginEvent? {
      BeginKeeps(s, w, c, m);
    } else if a.CallHandler? {
      CallKeeps(s, w, c, m);
    } else {
      OutcomeKeeps(s, a, w, c, m);
    }
  }

  lemma CursorStepKeepsBudget(s: State, a: Action, w: nat, c: string, m: nat)
    requires s.t.Valid() && RInv(s, w, c, m) && Enabled(s, a, m) && w in s.workers && ActorOf(a) == Some(w)
    requires a.Crash? || a.AckEvent?
    ensures RInv(Step(s, a, m), w, c, m)
  {
    match a
    case Crash(_) => CrashKeeps(s, w, c, m);
    case AckEvent(_) => AckKeepsBudget(s, w, c, m);
  }

  lemma PlainStepKeeps(s: State, a: Action, w: nat, c: string, m: nat)
    requires s.t.Valid() && RInv(s, w, c, m) && Enabled(s, a, m) && w in s.workers && ActorOf(a) == Some(w)
    requires a.Stop? || a.BeginReplay? || a.EndReplay? || a.Reanchor? || a.EndBatch?
    ensures RInv(Step(s, a, m), w, c, m)
  {
    match a
    case Reanchor(_) => ReanchorKeepsBudget(s, w, c, m);
    case Stop(_) => StopKeepsBudget(s, w, c, m);
    case BeginReplay(_, d) => RestKeepsBudget(s, w, c, m, Replaying(d));
    case EndReplay(_, ok) => ReplayKeepsBudget(s, w, c, m, ok);
    case EndBatch(_) => RestKeepsBudget(s, w, c, m, Idle);
  }

  lemma StopKeepsBudget(s: State, w: nat, c: string, m: nat)
    requires s.t.Valid() && RInv(s, w, c, m) && w in s.workers
    ensures RInv(s.(workers := s.workers[w := s.workers[w].(stopping := true)]), w, c, m)
  {
    SameCounts(s, s.(workers := s.workers[w := s.workers[w].(stopping := true)]), w, c, m);
  }

  lemma RestKeepsBudget(s: State, w: nat, c: string, m: nat, pc: Pc)
    requires s.t.Valid() && RInv(s, w, c, m) && w in s.workers && (pc.Idle? || pc.Replaying?)
    requires s.workers[w].pc.Idle? || (s.workers[w].pc.Working? && s.workers[w].pc.stage.Next?)
    ensures RInv(SetPc(s, w, pc), w, c, m)
  {
    SameCounts(s, SetPc(s, w, pc), w, c, m);
  }

  lemma ReplayKeepsBudget(s: State, w: nat, c: string, m: nat, ok: bool)
    requires s.t.Valid() && RInv(s, w, c, m) && w in s.workers && s.workers[w].pc.Replaying?
    ensures RInv(ReplayEnded(s, w, ok), w, c, m)
  {
    SameCounts(s, ReplayEnded(s, w, ok), w, c, m);
  }

  lemma ReanchorKeepsBudget(s: State, w: nat, c: string, m: nat)
    requires s.t.Valid() && RInv(s, w, c, m) && Enabled(s, Reanchor(w), m)
    ensures RInv(Reanchored(s, w), w, c, m)
  {
    SameCounts(s, Reanchored(s, w), w, c, m);
  }

  /** The worker an action belongs to. */
  function ActorOf(a: Action): Option<nat> {
    match a
    case Stop(w) => Some(w)
    case Crash(w) => Some(w)
    case BeginReplay(w, _) => Some(w)
    case EndReplay(w, _) => Some(w)
    case ReadCursor(w) => Some(w)
    case CheckWindow(w) => Some(w)
    case SelectRows(w, _) => Some(w)
    case Reanchor(w) => Some(w)
    case BeginEvent(w) => Some(w)
    case EndBatch(w) => Some(w)
    case CallHandler(w) => Some(w)
    case HandlerReturns(w) => Some(w)
    case HandlerThrows(w) => Some(w)
    case RecordAttempt(w) => Some(w)
    case WakeUp(w) => Some(w)
    case InsertDeadLetter(w) => Some(w)
    case ClearAttempt(w) => Some(w)
    case AckEvent(w) => Some(w)
    case StatementThrows(w) => Some(w)
    case _ => None
  }

  /** Nothing that concerns worker `w` and cursor `c` changes. */
  ghost predicate Frame(s: State, s': State, w: nat, c: string) {
    && s'.workers.Keys == s.workers.Keys
    && (forall x | x in s.workers :: s'.workers[x].cursor == s.workers[x].cursor)
    && PcOf(s', w) == PcOf(s, w) && SameCounters(s, s', w, c)
    && (c in s'.t.cursors <==> c in s.t.cursors) && (c in s.t.cursors ==> s'.t.cursors[c] == s.t.cursors[c])
  }

  /** Steps of other workers: they are on other cursors. */
  lemma OthersKeep(s: State, a: Action, w: nat, c: string, m: nat)
    requires s.t.Valid() && RInv(s, w, c, m) && Enabled(s, a, m)
    requires ActorOf(a).Some? && ActorOf(a) != Some(w)
    ensures RInv(Step(s, a, m), w, c, m)
  {
    var v := ActorOf(a).value;
    assert v in s.workers && s.workers[v].cursor != c;
    OtherWorkersFrame(s, a, m, v, w, c);
    OtherStepKeeps(s, Step(s, a, m), w, c, m);
  }

  lemma OtherWorkersFrame(s: State, a: Action, m: nat, v: nat, w: nat, c: string)
    requires s.t.Valid() && Enabled(s, a, m) && ActorOf(a) == Some(v) && v in s.workers
    requires v != w && s.workers[v].cursor != c
    ensures Frame(s, Step(s, a, m), w, c)
  {
    if a.BeginEvent? || a.HandlerReturns? || a.HandlerThrows? || a.WakeUp? || a.StatementThrows? {
      HandlerStepsFrame(s, a, m, v, w, c);
    } else if a.CallHandler? || a.RecordAttempt? {
      CallStepsFrame(s, a, m, v, w, c);
    } else if a.InsertDeadLetter? || a.ClearAttempt? {
      LetterStepsFrame(s, a, m, v, w, c);
    } else if a.ReadCursor? || a.CheckWindow? || a.SelectRows? || a.Reanchor? || a.AckEvent? {
      CursorStepsFrame(s, a, m, v, w, c);
    } else {
      IdleStepsFrame(s, a, m, v, w, c);
    }
  }

  lemma HandlerStepsFrame(s: State, a: Action, m: nat, v: nat, w: nat, c: string)
    requires s.t.Valid() && Enabled(s, a, m) && ActorOf(a) == Some(v) && v in s.workers
    requires v != w && s.workers[v].cursor != c
    requires a.BeginEvent? || a.HandlerReturns? || a.HandlerThrows? || a.WakeUp? || a.StatementThrows?
    ensures Frame(s, Step(s, a, m), w, c)
  {
    if a.HandlerThrows? || a.StatementThrows? { ThrowFrame(s, v, w, c); }
  }

  lemma ThrowFrame(s: State, v: nat, w: nat, c: string)
    requires v in s.workers && s.workers[v].pc.Working? && v != w && s.workers[v].cursor != c
    ensures Frame(s, Throw(s, v), w, c)
  {
  }

  lemma CallStepsFrame(s: State, a: Action, m: nat, v: nat, w: nat, c: string)
    requires s.t.Valid() && Enabled(s, a, m) && ActorOf(a) == Some(v) && v in s.workers
    requires v != w && s.workers[v].cursor != c
    requires a.CallHandler? || a.RecordAttempt?
    ensures Frame(s, Step(s, a, m), w, c)
  {
  }

  lemma LetterStepsFrame(s: State, a: Action, m: nat, v: nat, w: nat, c: string)
    requires s.t.Valid() && Enabled(s, a, m) && ActorOf(a) == Some(v) && v in s.workers
    requires v != w && s.workers[v].cursor != c
    requires a.InsertDeadLetter? || a.ClearAttempt?
    ensures Frame(s, Step(s, a, m), w, c)
  {
  }

  lemma CursorStepsFrame(s: State, a: Action, m: nat, v: nat, w: nat, c: string)
    requires s.t.Valid() && Enabled(s, a, m) && ActorOf(a) == Some(v) && v in s.workers
    requires v != w && s.workers[v].cursor != c
    requires a.ReadCursor? || a.CheckWindow? || a.SelectRows? || a.Reanchor? || a.AckEvent?
    ensures Frame(s, Step(s, a, m), w, c)
  {
    if a.AckEvent? {
      AckFrame(s, v, w, c);
    } else if a.Reanchor? {
      ReanchorFrame(s, v, w, c);
    } else {
      PollFrame(s, a, m, v, w, c);
    }
  }

  lemma ReanchorFrame(s: State, v: nat, w: nat, c: string)
    requires v in s.workers && s.workers[v].pc.Reanchoring? && v != w && s.workers[v].cursor != c
    ensures Frame(s, Reanchored(s, v), w, c)
  {
  }

  lemma AckFrame(s: State, v: nat, w: nat, c: string)
    requires WorkingAt(s, v) && s.workers[v].pc.stage.Acking? && v != w && s.workers[v].cursor != c
    ensures Frame(s, Acked(s, v), w, c)
  {
  }

  lemma PollFrame(s: State, a: Action, m: nat, v: nat, w: nat, c: string)
    requires s.t.Valid() && Enabled(s, a, m) && ActorOf(a) == Some(v) && v in s.workers && v != w
    requires a.ReadCursor? || a.CheckWindow? || a.SelectRows?
    ensures Frame(s, Step(s, a, m), w, c)
  {
  }

  lemma IdleStepsFrame(s: State, a: Action, m: nat, v: nat, w: nat, c: string)
    requires s.t.Valid() && Enabled(s, a, m) && ActorOf(a) == Some(v) && v in s.workers
    requires v != w && s.workers[v].cursor != c
    requires a.Crash? || a.Stop? || a.BeginReplay? || a.EndReplay? || a.EndBatch?
    ensures Frame(s, Step(s, a, m), w, c)
  {
  }

  lemma EnvironmentKeeps(s: State, a: Action, w: nat, c: string, m: nat)
    requires s.t.Valid() && RInv(s, w, c, m) && Enabled(s, a, m)
    requires ActorOf(a).None? && !StartsOther(a, w, c)
    ensures RInv(Step(s, a, m), w, c, m)
  {
    if a.Register? || a.CreateCursor? || a.DeregisterSubscriptions? || a.StartWorker? {
      RegistrationKeepsBudget(s, a, w, c, m);
    } else {
      TablesKeepBudget(s, a, w, c, m);
    }
  }

  lemma RegistrationKeepsBudget(s: State, a: Action, w: nat, c: string, m: nat)
    requires s.t.Valid() && RInv(s, w, c, m) && Enabled(s, a, m) && !StartsOther(a, w, c)
    requires a.Register? || a.CreateCursor? || a.DeregisterSubscriptions? || a.StartWorker?
    ensures RInv(Step(s, a, m), w, c, m)
  {
    OtherStepKeeps(s, Step(s, a, m), w, c, m);
  }

  lemma TablesKeepBudget(s: State, a: Action, w: nat, c: string, m: nat)
    requires s.t.Valid() && RInv(s, w, c, m) && Enabled(s, a, m) && ActorOf(a).None?
    requires !a.Register? && !a.CreateCursor? && !a.DeregisterSubscriptions? && !a.StartWorker?
    ensures RInv(Step(s, a, m), w, c, m)
  {
    OtherStepKeeps(s, Step(s, a, m), w, c, m);
  }

  lemma StepKeepsBudget(s: State, a: Action, w: nat, c: string, m: nat)
    requires s.t.Valid() && RInv(s, w, c, m) && Enabled(s, a, m) && !StartsOther(a, w, c)
    ensures RInv(Step(s, a, m), w, c, m)
  {
    if ActorOf(a).None? {
      EnvironmentKeeps(s, a, w, c, m);
    } else if ActorOf(a) == Some(w) {
      OwnStepKeeps(s, a, w, c, m);
    } else {
      OthersKeep(s, a, w, c, m);
    }
  }

  lemma {:induction false} RunKeepsBudget(s: State, run: seq<Action>, w: nat, c: string, m: nat)
    requires Inv(s) && RInv(s, w, c, m) && CanRun(s, run, m)
    requires forall a | a in run :: !StartsOther(a, w, c)
    ensures RInv(After(s, run, m), w, c, m)
    decreases |run|
  {
    if run != [] {
      assert run[0] in run;
      StepKeeps(s, run[0], m);
      StepKeepsBudget(s, run[0], w, c, m);
      RunKeepsBudget(Step(s, run[0], m), run[1..], w, c, m);
    }
  }

  /**
   The retry budget over every run in which `w` is the only worker ever started on cursor `c`:
   an event costs at most one budget of `m + 1` handler calls, one more call for each crash, and one
   more budget for each crash after the attempt row was deleted and before the acknowledgement.
   It leaves at most one dead letter, and one more for each crash.
   */
  lemma RetryBound(run: seq<Action>, w: nat, c: string, m: nat, id: nat)
    requires CanRun(Initial(), run, m)
    requires forall a | a in run :: !StartsOther(a, w, c)
    ensures var s := After(Initial(), run, m);
            var crashes, resets := Count(s.h.crashes, w), Count(s.h.resets, w);
            && Calls(s, c, id) <= (m + 1) * (1 + resets) + crashes
            && Letters(s, c, id) <= 1 + crashes + resets
  {
    InitialBudget(w, c, m);
    RunKeepsBudget(Initial(), run, w, c, m);
    LooseMeans(After(Initial(), run, m), w, c, m, id);
  }

  lemma InitialBudget(w: nat, c: string, m: nat)
    ensures Inv(Initial()) && RInv(Initial(), w, c, m)
  {
  }

  lemma LooseMeans(s: State, w: nat, c: string, m: nat, id: nat)
    requires RInv(s, w, c, m)
    ensures Calls(s, c, id) <= (m + 1) * (1 + Count(s.h.resets, w)) + Count(s.h.crashes, w)
    ensures Letters(s, c, id) <= 1 + Count(s.h.crashes, w) + Count(s.h.resets, w)
  {
    var r := Count(s.h.resets, w);
    assert Loose(s, w, c, m, id);
    BudgetsIsProduct(m, r);
    assert (m + 1) * (1 + r) == (m + 1) + (m + 1) * r;
  }

  // ---------------------------------------------------------------- replays

  function BegunReplays(run: seq<Action>, w: nat, d: nat): (n: nat) {
    if run == [] then 0 else (if run[0] == BeginReplay(w, d) then 1 else 0) + BegunReplays(run[1..], w, d)
  }

  function Requests(run: seq<Action>, d: nat): (n: nat) {
    if run == [] then 0 else (if run[0] == RequestReplay(d) then 1 else 0) + Requests(run[1..], d)
  }

  function Crashes(run: seq<Action>, w: nat): (n: nat) {
    if run == [] then 0 else (if run[0] == Crash(w) then 1 else 0) + Crashes(run[1..], w)
  }

  /** One when the letter waits for a replay that worker `w` has not begun. */
  function Waiting(s: State, w: nat, d: nat): (n: nat) {
    if d in s.deadLetters && s.deadLetters[d].replayRequested && !(w in s.workers && s.workers[w].pc == Replaying(d))
    then 1 else 0
  }

  /** Beginning a replay uses up what waits; only a request, or a crash in the middle of one, makes it wait again. */
  lemma WaitingFalls(s: State, a: Action, m: nat, w: nat, d: nat)
    requires s.t.Valid() && Enabled(s, a, m)
    ensures (if a == BeginReplay(w, d) then 1 else 0) + Waiting(Step(s, a, m), w, d)
         <= Waiting(s, w, d) + (if a == RequestReplay(d) then 1 else 0) + (if a == Crash(w) then 1 else 0)
  {
    if a.RequestReplay? || a.DropLetter? || a.InsertDeadLetter? {
      LetterStepWaits(s, a, m, w, d);
    } else if a.BeginReplay? || a.EndReplay? || a.Crash? || a.StartWorker? {
      ReplayStepWaits(s, a, m, w, d);
    } else if ActorOf(a).None? {
      EnvironmentLeavesLetters(s, a, m);
    } else {
      WorkerLeavesLetters(s, a, m, ActorOf(a).value);
    }
  }

  lemma LetterStepWaits(s: State, a: Action, m: nat, w: nat, d: nat)
    requires s.t.Valid() && Enabled(s, a, m) && (a.RequestReplay? || a.DropLetter? || a.InsertDeadLetter?)
    ensures Waiting(Step(s, a, m), w, d) <= Waiting(s, w, d) + if a == RequestReplay(d) then 1 else 0
  {
  }

  lemma ReplayStepWaits(s: State, a: Action, m: nat, w: nat, d: nat)
    requires s.t.Valid() && Enabled(s, a, m) && (a.BeginReplay? || a.EndReplay? || a.Crash? || a.StartWorker?)
    ensures (if a == BeginReplay(w, d) then 1 else 0) + Waiting(Step(s, a, m), w, d)
         <= Waiting(s, w, d) + if a == Crash(w) then 1 else 0
  {
  }

  lemma EnvironmentLeavesLetters(s: State, a: Action, m: nat)
    requires s.t.Valid() && Enabled(s, a, m) && ActorOf(a).None?
    requires !a.RequestReplay? && !a.DropLetter? && !a.StartWorker?
    ensures Step(s, a, m).deadLetters == s.deadLetters && Step(s, a, m).workers == s.workers
  {
  }

  /** Other statements of a worker touch no letter, and its own place only. */
  lemma WorkerLeavesLetters(s: State, a: Action, m: nat, v: nat)
    requires s.t.Valid() && Enabled(s, a, m) && ActorOf(a) == Some(v)
    requires !a.InsertDeadLetter? && !a.BeginReplay? && !a.EndReplay? && !a.Crash?
    ensures var s' := Step(s, a, m);
            && s'.deadLetters == s.deadLetters
            && (forall u | u in s.workers :: u in s'.workers)
            && (forall u | u in s'.workers && u != v :: u in s.workers && s'.workers[u] == s.workers[u])
            && (v in s'.workers && s'.workers[v].pc.Replaying? ==>
                  v in s.workers && s'.workers[v].pc == s.workers[v].pc)
            && (v in s.workers && s.workers[v].pc.Replaying? ==> s'.workers[v].pc == s.workers[v].pc)
  {
  }

  lemma {:induction false} ReplaysWithin(s: State, run: seq<Action>, m: nat, w: nat, d: nat)
    requires Inv(s) && CanRun(s, run, m)
    ensures BegunReplays(run, w, d) <= Waiting(s, w, d) + Requests(run, d) + Crashes(run, w)
    decreases |run|
  {
    if run != [] {
      StepKeeps(s, run[0], m);
      WaitingFalls(s, run[0], m, w, d);
      ReplaysWithin(Step(s, run[0], m), run[1..], m, w, d);
    }
  }

  /**
   Over every run, a worker replays a letter, at one handler call each time, at most once for each request
   and once more for each of its crashes, however many other workers share its cursor.
   */
  lemma ReplayBound(run: seq<Action>, m: nat, w: nat, d: nat)
    requires CanRun(Initial(), run, m)
    ensures BegunReplays(run, w, d) <= Requests(run, d) + Crashes(run, w)
  {
    InitialBudget(w, "", m);
    ReplaysWithin(Initial(), run, m, w, d);
  }
}
