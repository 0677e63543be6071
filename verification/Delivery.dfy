/**
 The delivery protocol (lib/subscribe.js with lib/poll.js, lib/register.js, lib/dlq.js and both sweeps).

 Emitters, registrations, sweeps and any number of subscriber loops interleave; a loop may crash
 between any two statements.  Each action below is one SQL statement, one transaction, or one call
 of a handler.  `Enabled` says when the program can take it and `Step` what it does.
 */
module Delivery {
  import opened Events
  import opened Filters
  import opened Wrappers
  import opened Database
  import opened Retention
  import opened Sweep

  // ---------------------------------------------------------------- state

  datatype DeadLetter = DeadLetter(cursor: string, event: Event, attempts: nat, replayRequested: bool)

  /** Where `processEvent` stands with the current event. */
  datatype Stage =
    | Next                      // before reading the attempt count
    | Ready                     // at the head of the retry loop
    | Running                   // inside the handler
    | Failed                    // in the catch block, attempts already incremented
    | Sleeping                  // attempt recorded, backing off
    | Clearing(dead: bool)      // about to delete the attempt row
    | Acking(dead: bool)        // about to move the cursor

  datatype Pc =
    | Idle
    | Replaying(letter: nat)
    | Polling(last: int, checked: bool)   // the cursor position was read, and the window was checked against it
    | Reanchoring(floor: int)
    | Working(batch: seq<Event>, i: nat, attempts: nat, cleared: bool, stage: Stage)

  datatype Worker = Worker(cursor: string, stopping: bool, pc: Pc)

  /** A tiered pass: the rows it picked, expired at `now`, and whether the warm copy is committed. */
  datatype Pass = Pass(now: int, rows: set<Event>, copied: bool)

  /** What happened so far: the obligations, and how each was met. */
  datatype History = History(
    owed: set<(string, Event)>,
    handled: set<(string, Event)>,
    deadLettered: set<(string, Event)>,
    replayed: set<(string, Event)>,      // dead-lettered, and handled in a replay since
    dropped: set<(string, Event)>,       // dead-lettered, and dropped by an operator
    capped: set<Event>,
    calls: map<(string, nat), nat>,      // handler calls, by cursor and event id
    letters: map<(string, nat), nat>,    // dead letters inserted, by cursor and event id
    crashes: map<nat, nat>,              // crashes of a worker while the attempt row was in place
    resets: map<nat, nat>)               // crashes of a worker after it had deleted the attempt row

  datatype State = State(
    t: Tables,
    nextId: nat,
    warm: set<Event>,
    deadLetters: map<nat, DeadLetter>,
    nextLetter: nat,
    workers: map<nat, Worker>,
    passes: map<nat, Pass>,
    h: History)

  function Initial(): (s: State) {
    State(Tables([], map[], map[], map[], map[]), 1, {}, map[], 1, map[], map[],
          History({}, {}, {}, {}, {}, {}, map[], map[], map[], map[]))
  }

  // ---------------------------------------------------------------- actions

  datatype Action =
    | Emit(e: Event)
    | Register(subscription: string, plugin: string, filter: string)
    | CreateCursor(c: string, subscription: string, start: nat)
    | DeregisterSubscriptions(subs: set<string>)
    | SweepLive(now: int, capMs: int, archiveMode: bool)
    | PickBatch(p: nat, now: int, rows: set<Event>)
    | CopyToWarm(p: nat)
    | DeleteMoved(p: nat, capMs: int)
    | AbandonPass(p: nat)
    | RequestReplay(letter: nat)
    | DropLetter(letter: nat)
    | StartWorker(w: nat, c: string)
    | Stop(w: nat)
    | Crash(w: nat)
    | BeginReplay(w: nat, letter: nat)
    | EndReplay(w: nat, ok: bool)
    | ReadCursor(w: nat)
    | CheckWindow(w: nat)
    | SelectRows(w: nat, batchSize: int)
    | Reanchor(w: nat)
    | BeginEvent(w: nat)
    | EndBatch(w: nat)
    | CallHandler(w: nat)
    | HandlerReturns(w: nat)
    | HandlerThrows(w: nat)
    | RecordAttempt(w: nat)
    | WakeUp(w: nat)
    | InsertDeadLetter(w: nat)
    | ClearAttempt(w: nat)
    | AckEvent(w: nat)
    | StatementThrows(w: nat)

  function Count<K>(m: map<K, nat>, k: K): (n: nat) {
    if k in m then m[k] else 0
  }

  predicate WorkingAt(s: State, w: nat) {
    w in s.workers && s.workers[w].pc.Working? && s.workers[w].pc.i < |s.workers[w].pc.batch|
  }

  function Current(s: State, w: nat): Event
    requires WorkingAt(s, w)
  {
    s.workers[w].pc.batch[s.workers[w].pc.i]
  }

  ghost predicate RequestedFor(s: State, d: nat, c: string) {
    d in s.deadLetters && s.deadLetters[d].cursor == c && s.deadLetters[d].replayRequested
  }

  ghost predicate Enabled(s: State, a: Action, maxRetries: nat)
    requires s.t.Valid()
  {
    match a
    case Emit(e) => e.id == s.nextId
    case Register(sub, _, _) => sub !in s.t.subscriptions
    case CreateCursor(c, sub, start) => c !in s.t.cursors && sub in s.t.subscriptions && start < s.nextId
    case DeregisterSubscriptions(_) => true
    case SweepLive(_, _, _) => true
    case PickBatch(p, now, rows) => p !in s.passes && forall e | e in rows :: e in s.t.events && Expired(e, now)
    case CopyToWarm(p) => p in s.passes && !s.passes[p].copied
    case DeleteMoved(p, _) => p in s.passes && s.passes[p].copied
    case AbandonPass(p) => p in s.passes
    case RequestReplay(d) => d in s.deadLetters
    case DropLetter(d) => d in s.deadLetters
    case StartWorker(w, c) => w !in s.workers && s.t.Active(c)
    case Stop(w) => w in s.workers
    case Crash(w) => w in s.workers
    case BeginReplay(w, d) =>
      && w in s.workers && s.workers[w].pc.Idle? && !s.workers[w].stopping
      && RequestedFor(s, d, s.workers[w].cursor)
      && forall d' | RequestedFor(s, d', s.workers[w].cursor) :: d <= d'
    case EndReplay(w, _) => w in s.workers && s.workers[w].pc.Replaying?
    case ReadCursor(w) => w in s.workers && s.workers[w].pc.Idle? && !s.workers[w].stopping
    case CheckWindow(w) => w in s.workers && s.workers[w].pc.Polling? && !s.workers[w].pc.checked
    case SelectRows(w, _) =>
      && w in s.workers && s.workers[w].pc.Polling? && s.workers[w].pc.checked
      && s.workers[w].cursor in s.t.cursors
    case Reanchor(w) => w in s.workers && s.workers[w].pc.Reanchoring?
    case BeginEvent(w) => WorkingAt(s, w) && s.workers[w].pc.stage.Next? && !s.workers[w].stopping
    case EndBatch(w) =>
      && w in s.workers && s.workers[w].pc.Working? && s.workers[w].pc.stage.Next?
      && (s.workers[w].stopping || s.workers[w].pc.i >= |s.workers[w].pc.batch|)
    case CallHandler(w) =>
      && WorkingAt(s, w) && s.workers[w].pc.stage.Ready?
      && !(s.workers[w].stopping && s.workers[w].pc.attempts > 0)
    case HandlerReturns(w) => WorkingAt(s, w) && s.workers[w].pc.stage.Running?
    case HandlerThrows(w) => WorkingAt(s, w) && s.workers[w].pc.stage.Running?
    case RecordAttempt(w) => WorkingAt(s, w) && s.workers[w].pc.stage.Failed? && s.workers[w].pc.attempts <= maxRetries
    case WakeUp(w) => WorkingAt(s, w) && s.workers[w].pc.stage.Sleeping? && !s.workers[w].stopping
    case InsertDeadLetter(w) =>
      && WorkingAt(s, w)
      && (match s.workers[w].pc.stage
          case Failed => s.workers[w].pc.attempts > maxRetries
          case Sleeping => s.workers[w].stopping
          case Ready => s.workers[w].stopping && s.workers[w].pc.attempts > 0
          case _ => false)
    case ClearAttempt(w) => WorkingAt(s, w) && s.workers[w].pc.stage.Clearing?
    case AckEvent(w) => WorkingAt(s, w) && s.workers[w].pc.stage.Acking?
    case StatementThrows(w) =>
      WorkingAt(s, w) && (s.workers[w].pc.stage == Clearing(false) || s.workers[w].pc.stage == Acking(false))
  }

  function SetPc(s: State, w: nat, pc: Pc): State
    requires w in s.workers
  {
    s.(workers := s.workers[w := s.workers[w].(pc := pc)])
  }

  function SetStage(s: State, w: nat, stage: Stage): State
    requires w in s.workers && s.workers[w].pc.Working?
  {
    SetPc(s, w, s.workers[w].pc.(stage := stage))
  }

  /** The catch block after a statement or the handler threw. */
  function Throw(s: State, w: nat): State
    requires w in s.workers && s.workers[w].pc.Working?
  {
    SetPc(s, w, s.workers[w].pc.(stage := Failed, attempts := s.workers[w].pc.attempts + 1))
  }

  // What each statement does.

  function Emitted(s: State, e: Event): State
    requires s.t.Valid()
  {
    s.(t := s.t.(events := s.t.events + [e]), nextId := s.nextId + 1,
       h := s.h.(owed := s.h.owed + set c | c in s.t.cursors && s.t.Active(c) && s.t.Wants(c, e) :: (c, e)))
  }

  function CursorCreated(s: State, c: string, sub: string, start: nat): State
    requires s.t.Valid() && sub in s.t.subscriptions
  {
    var t := s.t.(cursors := s.t.cursors[c := Cursor(sub, start, true)]);
    s.(t := t, h := s.h.(owed := s.h.owed + set e | e in t.events && e.id > start && t.Wants(c, e) :: (c, e)))
  }

  function LiveSwept(s: State, now: int, capMs: int, archiveMode: bool): State
    requires s.t.Valid()
  {
    s.(t := Swept(s.t, now, Retain, capMs, archiveMode),
       h := s.h.(capped := s.h.capped + set e | e in s.t.events && Capped(s.t, e, now, capMs)))
  }

  /** The delete transaction of a tiered pass: rows owed now and inside the cap stay. */
  function MovedDeleted(s: State, p: nat, capMs: int): State
    requires p in s.passes
  {
    var pass := s.passes[p];
    s.(t := s.t.(events := Where(s.t.events, (e: Event) => !(e in pass.rows && !IsHeld(s.t, e, pass.now, capMs)))),
       passes := s.passes - {p},
       h := s.h.(capped := s.h.capped + set e | e in s.t.events && e in pass.rows && Capped(s.t, e, pass.now, capMs)))
  }

  /** The first statement of `poll`; WB-006 ends the turn. */
  function CursorRead(s: State, w: nat): State
    requires w in s.workers
  {
    var c := s.workers[w].cursor;
    if c in s.t.cursors && s.t.cursors[c].active then SetPc(s, w, Polling(s.t.cursors[c].last, false)) else s
  }

  /** The second: WB-003 when the oldest row lies more than one above the position read. */
  function WindowChecked(s: State, w: nat): State
    requires w in s.workers && s.workers[w].pc.Polling?
  {
    var last := s.workers[w].pc.last;
    if s.t.events != [] && last < s.t.events[0].id - 1 then SetPc(s, w, Reanchoring(s.t.events[0].id - 1))
    else SetPc(s, w, Polling(last, true))
  }

  /** And the batch above it; the filter read in between never changes. */
  function RowsSelected(s: State, w: nat, n: int): State
    requires s.t.Valid() && w in s.workers && s.workers[w].pc.Polling? && s.workers[w].cursor in s.t.cursors
  {
    var rows := Limit(s.t.Above(s.workers[w].cursor, s.workers[w].pc.last), if n == 0 then 100 else n);
    SetPc(s, w, Working(rows, 0, 0, false, Next))
  }

  function Reanchored(s: State, w: nat): State
    requires w in s.workers && s.workers[w].pc.Reanchoring?
  {
    var c := s.workers[w].cursor;
    var moved := if s.workers[w].pc.floor >= 0 && c in s.t.cursors && s.t.cursors[c].active
                 then s.t.MoveCursor(c, s.workers[w].pc.floor) else s.t;
    SetPc(s, w, Idle).(t := moved)
  }

  function Began(s: State, w: nat): State
    requires WorkingAt(s, w)
  {
    SetPc(s, w, s.workers[w].pc.(stage := Ready, cleared := false,
                                 attempts := Count(s.t.attempts, (s.workers[w].cursor, Current(s, w).id))))
  }

  function Called(s: State, w: nat): State
    requires WorkingAt(s, w)
  {
    var k := (s.workers[w].cursor, Current(s, w).id);
    SetStage(s, w, Running).(h := s.h.(calls := s.h.calls[k := Count(s.h.calls, k) + 1]))
  }

  function Returned(s: State, w: nat): State
    requires WorkingAt(s, w)
  {
    SetStage(s, w, Clearing(false)).(h := s.h.(handled := s.h.handled + {(s.workers[w].cursor, Current(s, w))}))
  }

  function Recorded(s: State, w: nat): State
    requires WorkingAt(s, w)
  {
    SetPc(s, w, s.workers[w].pc.(stage := Sleeping, cleared := false))
      .(t := s.t.(attempts := s.t.attempts[(s.workers[w].cursor, Current(s, w).id) := s.workers[w].pc.attempts]))
  }

  function Lettered(s: State, w: nat): State
    requires WorkingAt(s, w)
  {
    var k := (s.workers[w].cursor, Current(s, w));
    SetStage(s, w, Clearing(true))
      .(deadLetters := s.deadLetters[s.nextLetter := DeadLetter(k.0, k.1, s.workers[w].pc.attempts, false)],
        nextLetter := s.nextLetter + 1,
        h := s.h.(deadLettered := s.h.deadLettered + {k},
                  letters := s.h.letters[(k.0, k.1.id) := Count(s.h.letters, (k.0, k.1.id)) + 1]))
  }

  function Cleared(s: State, w: nat): State
    requires WorkingAt(s, w) && s.workers[w].pc.stage.Clearing?
  {
    SetPc(s, w, s.workers[w].pc.(stage := Acking(s.workers[w].pc.stage.dead), cleared := true))
      .(t := s.t.(attempts := s.t.attempts - {(s.workers[w].cursor, Current(s, w).id)}))
  }

  /** Acknowledging a deregistered cursor throws: inside the `try` it counts as a failed attempt. */
  function Acked(s: State, w: nat): State
    requires WorkingAt(s, w) && s.workers[w].pc.stage.Acking?
  {
    var c, pc := s.workers[w].cursor, s.workers[w].pc;
    if c in s.t.cursors && s.t.cursors[c].active then
      SetPc(s, w, pc.(stage := Next, i := pc.i + 1)).(t := s.t.MoveCursor(c, Current(s, w).id))
    else if pc.stage.dead then SetPc(s, w, Idle)
    else Throw(s, w)
  }

  function Crashed(s: State, w: nat): State
    requires w in s.workers
  {
    var lost := s.workers[w].pc.Working? && s.workers[w].pc.cleared;
    s.(workers := s.workers[w := Worker(s.workers[w].cursor, false, Idle)],
       h := if lost then s.h.(resets := s.h.resets[w := Count(s.h.resets, w) + 1])
            else s.h.(crashes := s.h.crashes[w := Count(s.h.crashes, w) + 1]))
  }

  /** What a letter is about. */
  function Subject(l: DeadLetter): (k: (string, Event)) {
    (l.cursor, l.event)
  }

  /** A replay is a single attempt: success deletes the letter, failure clears the request. */
  function ReplayEnded(s: State, w: nat, ok: bool): State
    requires w in s.workers && s.workers[w].pc.Replaying?
  {
    var d, r := s.workers[w].pc.letter, SetPc(s, w, Idle);
    if d !in s.deadLetters then r
    else if ok then
      r.(deadLetters := s.deadLetters - {d}, h := s.h.(replayed := s.h.replayed + {Subject(s.deadLetters[d])}))
    else
      var l := s.deadLetters[d];
      r.(deadLetters := s.deadLetters[d := l.(replayRequested := false, attempts := l.attempts + 1)])
  }

  function LetterDropped(s: State, d: nat): State
    requires d in s.deadLetters
  {
    s.(deadLetters := s.deadLetters - {d}, h := s.h.(dropped := s.h.dropped + {Subject(s.deadLetters[d])}))
  }

  ghost function Step(s: State, a: Action, maxRetries: nat): (s': State)
    requires s.t.Valid() && Enabled(s, a, maxRetries)
  {
    match a
    case Emit(e) => Emitted(s, e)
    case Register(sub, plugin, filter) =>
      s.(t := s.t.(subscriptions := s.t.subscriptions[sub := Subscription(plugin, filter, true)]))
    case CreateCursor(c, sub, start) => CursorCreated(s, c, sub, start)
    case DeregisterSubscriptions(subs) => s.(t := Deregistered(s.t, subs))
    case SweepLive(now, capMs, archiveMode) => LiveSwept(s, now, capMs, archiveMode)
    case PickBatch(p, now, rows) => s.(passes := s.passes[p := Pass(now, rows, false)])
    case CopyToWarm(p) =>
      s.(warm := s.warm + s.passes[p].rows, passes := s.passes[p := s.passes[p].(copied := true)])
    case DeleteMoved(p, capMs) => MovedDeleted(s, p, capMs)
    case AbandonPass(p) => s.(passes := s.passes - {p})
    case RequestReplay(d) => s.(deadLetters := s.deadLetters[d := s.deadLetters[d].(replayRequested := true)])
    case DropLetter(d) => LetterDropped(s, d)
    case StartWorker(w, c) => s.(workers := s.workers[w := Worker(c, false, Idle)])
    case Stop(w) => s.(workers := s.workers[w := s.workers[w].(stopping := true)])
    case Crash(w) => Crashed(s, w)
    case BeginReplay(w, d) => SetPc(s, w, Replaying(d))
    case EndReplay(w, ok) => ReplayEnded(s, w, ok)
    case ReadCursor(w) => CursorRead(s, w)
    case CheckWindow(w) => WindowChecked(s, w)
    case SelectRows(w, n) => RowsSelected(s, w, n)
    case Reanchor(w) => Reanchored(s, w)
    case BeginEvent(w) => Began(s, w)
    case EndBatch(w) => SetPc(s, w, Idle)
    case CallHandler(w) => Called(s, w)
    case HandlerReturns(w) => Returned(s, w)
    case HandlerThrows(w) => Throw(s, w)
    case RecordAttempt(w) => Recorded(s, w)
    case WakeUp(w) => SetStage(s, w, Ready)
    case InsertDeadLetter(w) => Lettered(s, w)
    case ClearAttempt(w) => Cleared(s, w)
    case AckEvent(w) => Acked(s, w)
    case StatementThrows(w) => Throw(s, w)
  }

  // ---------------------------------------------------------------- runs

  ghost predicate CanRun(s: State, run: seq<Action>, maxRetries: nat)
    decreases |run|
  {
    run == [] ||
    (s.t.Valid() && Enabled(s, run[0], maxRetries) && CanRun(Step(s, run[0], maxRetries), run[1..], maxRetries))
  }

  ghost function After(s: State, run: seq<Action>, maxRetries: nat): (s': State)
    requires CanRun(s, run, maxRetries)
    decreases |run|
  {
    if run == [] then s else After(Step(s, run[0], maxRetries), run[1..], maxRetries)
  }

  // ---------------------------------------------------------------- at-least-once

  /** The obligation was met: handled, dead-lettered, or archived by the retention cap. */
  ghost predicate Settled(s: State, c: string, e: Event) {
    (c, e) in s.h.handled || (c, e) in s.h.deadLettered || e in s.h.capped
  }

  /** Still to be delivered. */
  ghost predicate Pending(s: State, c: string, e: Event) {
    (c, e) in s.h.owed && s.t.Active(c) && !Settled(s, c, e)
  }

  /**
   Every event an active cursor's filter selects, live above its start position at registration or
   emitted later, is settled, or is live above the cursor.  What the cap took is in an archive.  What was
   dead-lettered is in `dead_letters`, unless it has been replayed or dropped since.
   */
  ghost predicate NothingLost(s: State) {
    && (forall c, e | Pending(s, c, e) :: e in s.t.events && e.id > s.t.cursors[c].last)
    && (forall e | e in s.h.capped :: (e.id in s.t.archive && s.t.archive[e.id] == e) || e in s.warm)
    && AllLettered(s.deadLetters, s.h.deadLettered, s.h.replayed, s.h.dropped)
  }

  /** Every dead-lettered pair has its letter, unless that was replayed or dropped. */
  ghost predicate AllLettered(letters: map<nat, DeadLetter>, dead: set<(string, Event)>,
                              replayed: set<(string, Event)>, dropped: set<(string, Event)>) {
    forall k | k in dead :: HasLetter(letters, k) || k in replayed || k in dropped
  }

  ghost predicate HasLetter(letters: map<nat, DeadLetter>, k: (string, Event)) {
    exists d | d in letters :: Subject(letters[d]) == k
  }

  /** Letter numbers are never reused, and letters, replays and drops all come from dead-lettering. */
  ghost predicate LettersOk(letters: map<nat, DeadLetter>, next: nat, dead: set<(string, Event)>,
                            replayed: set<(string, Event)>, dropped: set<(string, Event)>) {
    && (forall d | d in letters :: d < next && Subject(letters[d]) in dead)
    && replayed <= dead && dropped <= dead
  }

  ghost predicate Letters(s: State) {
    && AllLettered(s.deadLetters, s.h.deadLettered, s.h.replayed, s.h.dropped)
    && LettersOk(s.deadLetters, s.nextLetter, s.h.deadLettered, s.h.replayed, s.h.dropped)
  }

  /** The part of the invariant about one worker: no pending event has been stepped over. */
  ghost predicate WorkerOk(s: State, k: Worker) {
    match k.pc
    case Idle => true
    case Replaying(_) => true
    case Polling(last, _) => last < s.nextId && forall e | Pending(s, k.cursor, e) :: e.id > last
    case Reanchoring(floor) => floor < s.nextId && forall e | Pending(s, k.cursor, e) :: e.id > floor
    case Working(batch, i, _, _, stage) =>
      && i <= |batch| && Ascending(batch)
      && (i == |batch| ==> stage.Next?)
      && (forall e | e in batch :: e.id < s.nextId)
      && (stage.Clearing? || stage.Acking? ==> Settled(s, k.cursor, batch[i]))
      && (forall e | Pending(s, k.cursor, e) :: e in batch[i..] || forall x | x in batch :: x.id < e.id)
  }

  ghost predicate PassOk(s: State, p: Pass) {
    && (forall e | e in p.rows :: Expired(e, p.now))
    && (p.copied ==> p.rows <= s.warm)
  }

  ghost predicate TablesOk(s: State) {
    && s.t.Valid()
    && (forall e | e in s.t.events :: e.id < s.nextId && e.id !in s.t.archive)
    && (forall id | id in s.t.archive :: id < s.nextId)
    && (forall c | c in s.t.cursors :: s.t.cursors[c].last < s.nextId)
    && (forall o | o in s.h.owed :: o.1.id < s.nextId && o.0 in s.t.cursors && s.t.Wants(o.0, o.1))
    && NothingLost(s) && Letters(s)
  }

  ghost predicate Inv(s: State) {
    && TablesOk(s)
    && (forall w | w in s.workers :: s.workers[w].cursor in s.t.cursors && WorkerOk(s, s.workers[w]))
    && (forall p | p in s.passes :: PassOk(s, s.passes[p]))
  }

  /** What a step may do to the obligations of cursor `c`: settle some, and add some for newer events. */
  ghost predicate Forward(s: State, s': State, c: string) {
    && s.nextId <= s'.nextId
    && (forall e | Settled(s, c, e) :: Settled(s', c, e))
    && (forall e | Pending(s', c, e) :: Pending(s, c, e) || s.nextId <= e.id)
  }

  /** A worker that does not move stays sound. */
  lemma WorkerKeeps(s: State, s': State, k: Worker)
    requires WorkerOk(s, k) && Forward(s, s', k.cursor)
    ensures WorkerOk(s', k)
  {
    match k.pc
    case Idle =>
    case Replaying(_) =>
    case Polling(_, _) =>
    case Reanchoring(floor) =>
    case Working(batch, i, _, _, stage) =>
      forall e | Pending(s', k.cursor, e)
        ensures e in batch[i..] || forall x | x in batch :: x.id < e.id
      {
      }
  }

  lemma AllWorkersKeep(s: State, s': State)
    requires Inv(s) && s'.workers == s.workers
    requires forall c | c in s.t.cursors :: Forward(s, s', c)
    ensures forall w | w in s'.workers :: WorkerOk(s', s'.workers[w])
  {
    forall w | w in s'.workers ensures WorkerOk(s', s'.workers[w]) { WorkerKeeps(s, s', s.workers[w]); }
  }

  lemma EmitKeeps(s: State, e: Event)
    requires Inv(s) && e.id == s.nextId
    ensures Inv(Emitted(s, e))
  {
    var s' := Emitted(s, e);
    forall c | c in s.t.cursors ensures Forward(s, s', c) {}
    AllWorkersKeep(s, s');
  }

  lemma CreateCursorKeeps(s: State, c: string, sub: string, start: nat)
    requires Inv(s) && c !in s.t.cursors && sub in s.t.subscriptions && start < s.nextId
    ensures Inv(CursorCreated(s, c, sub, start))
  {
    var s' := CursorCreated(s, c, sub, start);
    CreateCursorKeepsTables(s, c, sub, start);
    forall x | x in s.t.cursors ensures Forward(s, s', x) {}
    AllWorkersKeep(s, s');
  }

  lemma CreateCursorKeepsTables(s: State, c: string, sub: string, start: nat)
    requires Inv(s) && c !in s.t.cursors && sub in s.t.subscriptions && start < s.nextId
    ensures TablesOk(CursorCreated(s, c, sub, start))
  {
    NewObligations(s, c, sub, start);
    NewCursorLosesNothing(s, c, sub, start);
  }

  lemma NewObligations(s: State, c: string, sub: string, start: nat)
    requires TablesOk(s) && c !in s.t.cursors && sub in s.t.subscriptions && start < s.nextId
    ensures var s' := CursorCreated(s, c, sub, start);
            forall o | o in s'.h.owed :: o.1.id < s'.nextId && o.0 in s'.t.cursors && s'.t.Wants(o.0, o.1)
  {
    var s' := CursorCreated(s, c, sub, start);
    forall o | o in s'.h.owed ensures o.1.id < s'.nextId && o.0 in s'.t.cursors && s'.t.Wants(o.0, o.1) {
      if o in s.h.owed { assert o.0 in s.t.cursors && s.t.Wants(o.0, o.1); }
    }
  }

  lemma NewCursorLosesNothing(s: State, c: string, sub: string, start: nat)
    requires TablesOk(s) && c !in s.t.cursors && sub in s.t.subscriptions && start < s.nextId
    ensures NothingLost(CursorCreated(s, c, sub, start))
  {
    var s' := CursorCreated(s, c, sub, start);
    forall x, e | Pending(s', x, e) ensures e in s'.t.events && e.id > s'.t.cursors[x].last {
      if (x, e) in s.h.owed { assert Pending(s, x, e); }
    }
  }

  lemma RegistrationKeeps(s: State, a: Action, m: nat)
    requires Inv(s) && Enabled(s, a, m) && (a.Register? || a.DeregisterSubscriptions?)
    ensures Inv(Step(s, a, m))
  {
    match a
    case Register(sub, plugin, filter) => RegisterKeeps(s, sub, plugin, filter);
    case DeregisterSubscriptions(subs) => DeregisterKeeps(s, subs);
  }

  lemma RegisterKeeps(s: State, sub: string, plugin: string, filter: string)
    requires Inv(s) && sub !in s.t.subscriptions
    ensures Inv(s.(t := s.t.(subscriptions := s.t.subscriptions[sub := Subscription(plugin, filter, true)])))
  {
    var s' := s.(t := s.t.(subscriptions := s.t.subscriptions[sub := Subscription(plugin, filter, true)]));
    forall x | x in s.t.cursors ensures Forward(s, s', x) {}
    AllWorkersKeep(s, s');
  }

  lemma DeregisterKeeps(s: State, subs: set<string>)
    requires Inv(s)
    ensures Inv(s.(t := Deregistered(s.t, subs)))
  {
    var s' := s.(t := Deregistered(s.t, subs));
    forall x | x in s.t.cursors ensures Forward(s, s', x) {}
    AllWorkersKeep(s, s');
  }

  /** What an active cursor has pending is owed, so a 'retain' delete spares it unless the cap applies. */
  lemma PendingIsOwed(s: State, c: string, e: Event)
    requires Inv(s) && Pending(s, c, e)
    ensures e in s.t.events && e.id > s.t.cursors[c].last && Owes(s.t, c, e) && IsOwed(s.t, e)
  {
  }

  lemma SweepKeeps(s: State, now: int, capMs: int, archiveMode: bool)
    requires Inv(s)
    ensures Inv(LiveSwept(s, now, capMs, archiveMode))
  {
    var s' := LiveSwept(s, now, capMs, archiveMode);
    forall x | x in s.t.cursors ensures Forward(s, s', x) {}
    AllWorkersKeep(s, s');
    SweepKeepsTables(s, now, capMs, archiveMode);
  }

  lemma SweepKeepsTables(s: State, now: int, capMs: int, archiveMode: bool)
    requires Inv(s)
    ensures TablesOk(LiveSwept(s, now, capMs, archiveMode))
  {
    var s' := LiveSwept(s, now, capMs, archiveMode);
    forall c, e | Pending(s', c, e) ensures e in s'.t.events && e.id > s'.t.cursors[c].last {
      assert Pending(s, c, e);
      PendingIsOwed(s, c, e);
    }
    SweepKeepsArchive(s, now, capMs, archiveMode);
  }

  /** Copied rows leave the live table, and capped rows are among them. */
  lemma SweepKeepsArchive(s: State, now: int, capMs: int, archiveMode: bool)
    requires Inv(s)
    ensures var s' := LiveSwept(s, now, capMs, archiveMode);
            && (forall e | e in s'.h.capped :: (e.id in s'.t.archive && s'.t.archive[e.id] == e) || e in s'.warm)
            && (forall e | e in s'.t.events :: e.id < s'.nextId && e.id !in s'.t.archive)
            && (forall id | id in s'.t.archive :: id < s'.nextId)
  {
    var s' := LiveSwept(s, now, capMs, archiveMode);
    SweptRows(s.t, now, capMs, archiveMode);
  }

  lemma SweptRows(t: Tables, now: int, capMs: int, archiveMode: bool)
    requires t.Valid() && forall e | e in t.events :: e.id !in t.archive
    ensures var t' := Swept(t, now, Retain, capMs, archiveMode);
            && (forall e | e in t'.events :: e in t.events && e.id !in t'.archive)
            && (forall id | id in t.archive :: id in t'.archive && t'.archive[id] == t.archive[id])
            && (forall id | id in t'.archive :: id in t.archive || exists e | e in t.events :: e.id == id)
            && (forall e | e in t.events && Capped(t, e, now, capMs) :: e.id in t'.archive && t'.archive[e.id] == e)
  {
    var copies := set e | e in t.events && Copied(t, e, now, Retain, capMs, archiveMode);
    IdsDetermineRows(t.events);
    var t' := Swept(t, now, Retain, capMs, archiveMode);
    assert t'.archive == InsertOrIgnore(t.archive, copies);
    assert forall e | e in t'.events :: e !in copies;
    assert forall e | e in t.events && Capped(t, e, now, capMs) :: e in copies;
  }

  /**
   What the two deletes take, by timestamps: an expired row that is still awaited is taken, and counted as
   capped, only when it is older than the cap.
   */
  lemma DeletedByTimestamps(s: State, a: Action, m: nat, e: Event)
    requires s.t.Valid() && Enabled(s, a, m) && e in s.t.events
    ensures var s' := Step(s, a, m);
            && (a.SweepLive? ==>
                  && (e in s'.t.events <==>
                        e.expiresAt >= a.now || (Awaited(s.t, e) && e.emittedAt + a.capMs >= a.now))
                  && (e in s'.h.capped <==>
                        || e in s.h.capped
                        || (e.expiresAt < a.now && Awaited(s.t, e) && e.emittedAt + a.capMs < a.now)))
            && (a.DeleteMoved? ==>
                  var pass := s.passes[a.p];
                  && (e in s'.t.events <==>
                        || e !in pass.rows
                        || (e.expiresAt < pass.now && Awaited(s.t, e) && e.emittedAt + a.capMs >= pass.now))
                  && (e in s'.h.capped <==>
                        || e in s.h.capped
                        || (e in pass.rows && e.expiresAt < pass.now && Awaited(s.t, e)
                            && e.emittedAt + a.capMs < pass.now)))
  {
    OwedIsAwaited(s.t, e);
  }

  lemma DeleteMovedKeeps(s: State, p: nat, capMs: int)
    requires Inv(s) && p in s.passes && s.passes[p].copied
    ensures Inv(MovedDeleted(s, p, capMs))
  {
    var s' := MovedDeleted(s, p, capMs);
    forall c, e | Pending(s', c, e) ensures e in s'.t.events && e.id > s'.t.cursors[c].last {
      assert Pending(s, c, e);
      PendingIsOwed(s, c, e);
    }
    forall x | x in s.t.cursors ensures Forward(s, s', x) {}
    AllWorkersKeep(s, s');
  }

  lemma PassKeeps(s: State, a: Action, m: nat)
    requires Inv(s) && Enabled(s, a, m)
    requires a.PickBatch? || a.CopyToWarm? || a.AbandonPass?
    ensures Inv(Step(s, a, m))
  {
    var s' := Step(s, a, m);
    forall x | x in s.t.cursors ensures Forward(s, s', x) {}
    AllWorkersKeep(s, s');
  }

  // What happens to letters.

  lemma LetterAdded(letters: map<nat, DeadLetter>, next: nat, dead: set<(string, Event)>,
                    replayed: set<(string, Event)>, dropped: set<(string, Event)>, l: DeadLetter)
    requires AllLettered(letters, dead, replayed, dropped) && LettersOk(letters, next, dead, replayed, dropped)
    ensures AllLettered(letters[next := l], dead + {Subject(l)}, replayed, dropped)
    ensures LettersOk(letters[next := l], next + 1, dead + {Subject(l)}, replayed, dropped)
  {
    var after := letters[next := l];
    forall k | k in dead + {Subject(l)} ensures HasLetter(after, k) || k in replayed || k in dropped {
      if k == Subject(l) {
        assert next in after;
      } else if HasLetter(letters, k) {
        var d :| d in letters && Subject(letters[d]) == k;
        assert d in after && after[d] == letters[d];
      }
    }
  }

  /** A letter that goes leaves its mark. */
  lemma LetterTaken(letters: map<nat, DeadLetter>, next: nat, dead: set<(string, Event)>,
                    replayed: set<(string, Event)>, dropped: set<(string, Event)>, d: nat)
    requires AllLettered(letters, dead, replayed, dropped) && LettersOk(letters, next, dead, replayed, dropped)
    requires d in letters
    ensures AllLettered(letters - {d}, dead, replayed + {Subject(letters[d])}, dropped)
    ensures AllLettered(letters - {d}, dead, replayed, dropped + {Subject(letters[d])})
    ensures LettersOk(letters - {d}, next, dead, replayed + {Subject(letters[d])}, dropped)
    ensures LettersOk(letters - {d}, next, dead, replayed, dropped + {Subject(letters[d])})
  {
    forall k | k in dead && HasLetter(letters, k) && k != Subject(letters[d]) ensures HasLetter(letters - {d}, k) {
      var x :| x in letters && Subject(letters[x]) == k;
      assert x in letters - {d};
    }
  }

  lemma LetterEdited(letters: map<nat, DeadLetter>, next: nat, dead: set<(string, Event)>,
                     replayed: set<(string, Event)>, dropped: set<(string, Event)>, d: nat, l: DeadLetter)
    requires AllLettered(letters, dead, replayed, dropped) && LettersOk(letters, next, dead, replayed, dropped)
    requires d in letters && Subject(l) == Subject(letters[d])
    ensures AllLettered(letters[d := l], dead, replayed, dropped)
    ensures LettersOk(letters[d := l], next, dead, replayed, dropped)
  {
    var after := letters[d := l];
    forall k | k in dead && HasLetter(letters, k) ensures HasLetter(after, k) {
      var x :| x in letters && Subject(letters[x]) == k;
      assert x in after && Subject(after[x]) == k;
    }
  }

  lemma OperatorKeeps(s: State, a: Action, m: nat)
    requires Inv(s) && Enabled(s, a, m) && (a.RequestReplay? || a.DropLetter?)
    ensures Inv(Step(s, a, m))
  {
    var s', d := Step(s, a, m), a.letter;
    if a.DropLetter? {
      LetterTaken(s.deadLetters, s.nextLetter, s.h.deadLettered, s.h.replayed, s.h.dropped, d);
    } else {
      LetterEdited(s.deadLetters, s.nextLetter, s.h.deadLettered, s.h.replayed, s.h.dropped, d, s'.deadLetters[d]);
    }
    forall x | x in s.t.cursors ensures Forward(s, s', x) {}
    AllWorkersKeep(s, s');
  }

  lemma ReplayKeeps(s: State, w: nat, ok: bool)
    requires Inv(s) && w in s.workers && s.workers[w].pc.Replaying?
    ensures Letters(ReplayEnded(s, w, ok))
  {
    var s', d := ReplayEnded(s, w, ok), s.workers[w].pc.letter;
    if d in s.deadLetters {
      if ok {
        LetterTaken(s.deadLetters, s.nextLetter, s.h.deadLettered, s.h.replayed, s.h.dropped, d);
      } else {
        LetterEdited(s.deadLetters, s.nextLetter, s.h.deadLettered, s.h.replayed, s.h.dropped, d, s'.deadLetters[d]);
      }
    }
  }

  /** One worker moves; the tables stay sound and no obligation is taken back. */
  lemma OneWorkerMoves(s: State, s': State, w: nat, k: Worker)
    requires Inv(s) && TablesOk(s') && s'.workers == s.workers[w := k]
    requires k.cursor in s'.t.cursors && WorkerOk(s', k)
    requires s'.t.cursors.Keys == s.t.cursors.Keys && s'.passes == s.passes && s'.warm == s.warm
    requires forall x | x in s.t.cursors :: Forward(s, s', x)
    ensures Inv(s')
  {
    forall v | v in s'.workers ensures s'.workers[v].cursor in s'.t.cursors && WorkerOk(s', s'.workers[v]) {
      if v != w { WorkerKeeps(s, s', s.workers[v]); }
    }
  }

  /** A step that changes neither the tables (attempts aside) nor the settled obligations. */
  lemma QuietMove(s: State, s': State, w: nat, k: Worker)
    requires Inv(s) && s'.workers == s.workers[w := k] && k.cursor in s.t.cursors
    requires s'.t == s.t.(attempts := s'.t.attempts) && s'.nextId == s.nextId
    requires s'.passes == s.passes && s'.warm == s.warm && Letters(s')
    requires s'.h.owed == s.h.owed && s'.h.capped == s.h.capped
    requires s.h.handled <= s'.h.handled && s.h.deadLettered <= s'.h.deadLettered
    requires WorkerOk(s', k)
    ensures Inv(s')
  {
    forall x | x in s.t.cursors ensures Forward(s, s', x) {}
    assert NothingLost(s') by {
      forall c, e | Pending(s', c, e) ensures e in s'.t.events && e.id > s'.t.cursors[c].last {
        assert Pending(s, c, e);
      }
    }
    OneWorkerMoves(s, s', w, k);
  }

  lemma IdleStepsKeep(s: State, a: Action, m: nat)
    requires Inv(s) && Enabled(s, a, m) && (a.StartWorker? || a.Crash? || a.EndBatch?)
    ensures Inv(Step(s, a, m))
  {
    var s' := Step(s, a, m);
    QuietMove(s, s', a.w, s'.workers[a.w]);
  }

  lemma ReplayStepsKeep(s: State, a: Action, m: nat)
    requires Inv(s) && Enabled(s, a, m) && (a.BeginReplay? || a.EndReplay?)
    ensures Inv(Step(s, a, m))
  {
    var s' := Step(s, a, m);
    if a.EndReplay? { ReplayKeeps(s, a.w, a.ok); }
    QuietMove(s, s', a.w, s'.workers[a.w]);
  }

  /** What is pending lies above the position read. */
  lemma ReadKeeps(s: State, w: nat)
    requires Inv(s) && w in s.workers
    ensures Inv(CursorRead(s, w))
  {
    var s', c := CursorRead(s, w), s.workers[w].cursor;
    if s' != s {
      forall e | Pending(s', c, e) ensures e.id > s.t.cursors[c].last { assert Pending(s, c, e); }
      QuietMove(s, s', w, s'.workers[w]);
    }
  }

  /** And so it stays; if there are rows, it lies above the one just below the window too. */
  lemma WindowKeeps(s: State, w: nat)
    requires Inv(s) && w in s.workers && s.workers[w].pc.Polling?
    ensures Inv(WindowChecked(s, w))
  {
    var s', c := WindowChecked(s, w), s.workers[w].cursor;
    assert WorkerOk(s, s.workers[w]);
    forall e | Pending(s', c, e)
      ensures e.id > s.workers[w].pc.last && (s.t.events != [] ==> e.id > s.t.events[0].id - 1)
    {
      assert Pending(s, c, e);
    }
    QuietMove(s, s', w, s'.workers[w]);
  }

  /** However old the position is by now: what is pending is in the batch, or newer than all of it. */
  lemma SelectKeeps(s: State, w: nat, n: int)
    requires Inv(s) && w in s.workers && s.workers[w].pc.Polling?
    ensures Inv(RowsSelected(s, w, n))
  {
    var s', c, last := RowsSelected(s, w, n), s.workers[w].cursor, s.workers[w].pc.last;
    var rows := s'.workers[w].pc.batch;
    LimitedSelection(s.t.events, (e: Event) => e.id > last && s.t.Wants(c, e), if n == 0 then 100 else n);
    assert rows[0..] == rows;
    assert WorkerOk(s, s.workers[w]);
    forall e | Pending(s', c, e) ensures e in rows[0..] || forall x | x in rows :: x.id < e.id {
      assert Pending(s, c, e);
      PendingIsOwed(s, c, e);
    }
    QuietMove(s, s', w, s'.workers[w]);
  }

  /** With nothing in between, the three statements are one `poll`. */
  lemma StatementsArePoll(s: State, w: nat, n: int)
    requires s.t.Valid() && w in s.workers && s.workers[w].cursor in s.t.cursors
    ensures var c, read := s.workers[w].cursor, CursorRead(s, w);
            match s.t.Poll(c, n, None)
            case Err(CursorNotFound) => read == s
            case Err(BehindWindow(_, oldest)) =>
              read.workers[w].pc.Polling? && WindowChecked(read, w).workers[w].pc == Reanchoring(oldest - 1)
            case Err(_) => false
            case Ok(rows) =>
              && read.workers[w].pc.Polling? && WindowChecked(read, w).workers[w].pc.Polling?
              && RowsSelected(WindowChecked(read, w), w, n).workers[w].pc == Working(rows, 0, 0, false, Next)
  {
  }

  lemma ReanchorKeeps(s: State, w: nat)
    requires Inv(s) && w in s.workers && s.workers[w].pc.Reanchoring?
    ensures Inv(Reanchored(s, w))
  {
    var k := s.workers[w];
    if k.pc.floor >= 0 && s.t.cursors[k.cursor].active {
      assert WorkerOk(s, k);
      CursorMoves(s, w, k.pc.floor, k.(pc := Idle));
    } else {
      QuietMove(s, Reanchored(s, w), w, k.(pc := Idle));
    }
  }

  /** The steps of `processEvent` that leave the cursor alone. */
  lemma ProcessStepKeeps(s: State, s': State, w: nat, k: Worker)
    requires Inv(s) && WorkingAt(s, w) && s'.workers == s.workers[w := k]
    requires k.cursor == s.workers[w].cursor && k.pc.Working?
    requires k.pc.batch == s.workers[w].pc.batch && k.pc.i == s.workers[w].pc.i
    requires s'.t == s.t.(attempts := s'.t.attempts) && s'.nextId == s.nextId
    requires s'.passes == s.passes && s'.warm == s.warm && Letters(s')
    requires s'.h.owed == s.h.owed && s'.h.capped == s.h.capped
    requires s.h.handled <= s'.h.handled && s.h.deadLettered <= s'.h.deadLettered
    requires k.pc.stage.Clearing? || k.pc.stage.Acking? ==> Settled(s', k.cursor, Current(s, w))
    ensures Inv(s')
  {
    var c, batch, i := k.cursor, k.pc.batch, k.pc.i;
    assert WorkerOk(s, s.workers[w]);
    forall e | Pending(s', c, e) ensures e in batch[i..] || forall x | x in batch :: x.id < e.id {
      assert Pending(s, c, e);
    }
    QuietMove(s, s', w, k);
  }

  lemma AckKeeps(s: State, w: nat)
    requires Inv(s) && WorkingAt(s, w) && s.workers[w].pc.stage.Acking?
    ensures Inv(Acked(s, w))
  {
    var s' := Acked(s, w);
    var k := s.workers[w];
    if k.cursor in s.t.cursors && s.t.cursors[k.cursor].active {
      AckMovesCursor(s, w);
    } else if k.pc.stage.dead {
      QuietMove(s, s', w, s'.workers[w]);
    } else {
      ProcessStepKeeps(s, s', w, s'.workers[w]);
    }
  }

  lemma AckMovesCursor(s: State, w: nat)
    requires Inv(s) && WorkingAt(s, w) && s.workers[w].pc.stage.Acking?
    requires var c := s.workers[w].cursor; c in s.t.cursors && s.t.cursors[c].active
    ensures Inv(Acked(s, w))
  {
    var k := s.workers[w];
    AckedWorkerOk(s, w);
    CursorMoves(s, w, Current(s, w).id, k.(pc := k.pc.(stage := Next, i := k.pc.i + 1)));
  }

  lemma AckedWorkerOk(s: State, w: nat)
    requires Inv(s) && WorkingAt(s, w) && s.workers[w].pc.stage.Acking?
    ensures var k := s.workers[w];
            && Current(s, w).id < s.nextId
            && (forall y | Pending(s, k.cursor, y) :: y.id > Current(s, w).id)
            && WorkerOk(s, k.(pc := k.pc.(stage := Next, i := k.pc.i + 1)))
  {
    var k := s.workers[w];
    var e := Current(s, w);
    assert WorkerOk(s, k) && e in k.pc.batch;
    forall y | Pending(s, k.cursor, y) ensures y.id > e.id && Ahead(k.pc.batch, k.pc.i + 1, y) {
      StillAhead(s, w, y);
    }
  }

  /** Moving a cursor below everything it has pending is sound. */
  lemma CursorMoves(s: State, w: nat, position: int, k: Worker)
    requires Inv(s) && w in s.workers && k.cursor == s.workers[w].cursor && k.cursor in s.t.cursors
    requires position < s.nextId && forall y | Pending(s, k.cursor, y) :: y.id > position
    requires WorkerOk(s, k)
    ensures Inv(s.(t := s.t.MoveCursor(k.cursor, position), workers := s.workers[w := k]))
  {
    var s' := s.(t := s.t.MoveCursor(k.cursor, position), workers := s.workers[w := k]);
    SameObligations(s, s', k.cursor, position);
    WorkerKeeps(s, s', k);
    OneWorkerMoves(s, s', w, k);
  }

  lemma SameObligations(s: State, s': State, c: string, position: int)
    requires Inv(s) && c in s.t.cursors && s'.t == s.t.MoveCursor(c, position) && s'.nextId == s.nextId
    requires s'.h == s.h && s'.warm == s.warm && s'.deadLetters == s.deadLetters && s'.nextLetter == s.nextLetter
    requires position < s.nextId && forall y | Pending(s, c, y) :: y.id > position
    ensures TablesOk(s') && forall x :: Forward(s, s', x)
  {
    forall x ensures s'.t.Active(x) == s.t.Active(x) {}
    forall x, y ensures Pending(s', x, y) == Pending(s, x, y) && Settled(s', x, y) == Settled(s, x, y) {}
    forall o | o in s'.h.owed ensures s'.t.Wants(o.0, o.1) { assert s'.t.FilterOf(o.0) == s.t.FilterOf(o.0); }
  }

  /** `y` is among the rows from position `i` on, or newer than the whole batch. */
  ghost predicate Ahead(batch: seq<Event>, i: nat, y: Event)
    requires i <= |batch|
  {
    y in batch[i..] || forall x | x in batch :: x.id < y.id
  }

  lemma StillAhead(s: State, w: nat, y: Event)
    requires Inv(s) && WorkingAt(s, w) && s.workers[w].pc.stage.Acking?
    requires Pending(s, s.workers[w].cursor, y)
    ensures y.id > Current(s, w).id && Ahead(s.workers[w].pc.batch, s.workers[w].pc.i + 1, y)
  {
    var k := s.workers[w];
    var batch, i := k.pc.batch, k.pc.i;
    assert WorkerOk(s, k);
    assert y != batch[i];
    if y in batch[i..] {
      var j :| i <= j < |batch| && batch[j] == y;
      assert batch[i + 1..][j - i - 1] == y;
      assert batch[i].id < batch[j].id;
    } else {
      assert batch[i] in batch;
    }
  }

  lemma WorkerStepKeeps(s: State, a: Action, m: nat)
    requires Inv(s) && Enabled(s, a, m)
    requires a.BeginEvent? || a.CallHandler? || a.HandlerReturns? || a.HandlerThrows? || a.RecordAttempt?
             || a.WakeUp? || a.InsertDeadLetter? || a.ClearAttempt? || a.StatementThrows?
    ensures Inv(Step(s, a, m))
  {
    if a.InsertDeadLetter? {
      LetterKeeps(s, a.w);
    } else if a.ClearAttempt? || a.RecordAttempt? {
      RowStepKeeps(s, a, m);
    } else if a.BeginEvent? || a.CallHandler? || a.WakeUp? {
      BeforeCallKeeps(s, a, m);
    } else {
      AfterCallKeeps(s, a, m);
    }
  }

  lemma BeforeCallKeeps(s: State, a: Action, m: nat)
    requires Inv(s) && Enabled(s, a, m) && (a.BeginEvent? || a.CallHandler? || a.WakeUp?)
    ensures Inv(Step(s, a, m))
  {
    var s' := Step(s, a, m);
    ProcessStepKeeps(s, s', a.w, s'.workers[a.w]);
  }

  lemma AfterCallKeeps(s: State, a: Action, m: nat)
    requires Inv(s) && Enabled(s, a, m) && (a.HandlerReturns? || a.HandlerThrows? || a.StatementThrows?)
    ensures Inv(Step(s, a, m))
  {
    var s' := Step(s, a, m);
    assert WorkerOk(s, s.workers[a.w]);
    ProcessStepKeeps(s, s', a.w, s'.workers[a.w]);
  }

  lemma RowStepKeeps(s: State, a: Action, m: nat)
    requires Inv(s) && Enabled(s, a, m) && (a.ClearAttempt? || a.RecordAttempt?)
    ensures Inv(Step(s, a, m))
  {
    var s' := Step(s, a, m);
    assert WorkerOk(s, s.workers[a.w]);
    ProcessStepKeeps(s, s', a.w, s'.workers[a.w]);
  }

  lemma LetterKeeps(s: State, w: nat)
    requires Inv(s) && WorkingAt(s, w)
    ensures Inv(Lettered(s, w))
  {
    var s' := Lettered(s, w);
    var l := s'.deadLetters[s.nextLetter];
    LetterAdded(s.deadLetters, s.nextLetter, s.h.deadLettered, s.h.replayed, s.h.dropped, l);
    ProcessStepKeeps(s, s', w, s'.workers[w]);
  }

  lemma StepKeeps(s: State, a: Action, m: nat)
    requires Inv(s) && Enabled(s, a, m)
    ensures Inv(Step(s, a, m))
  {
    if a.Emit? || a.CreateCursor? || a.SweepLive? || a.DeleteMoved? {
      TableStepKeeps(s, a, m);
    } else if a.Register? || a.DeregisterSubscriptions? {
      RegistrationKeeps(s, a, m);
    } else if a.PickBatch? || a.CopyToWarm? || a.AbandonPass? {
      PassKeeps(s, a, m);
    } else if a.RequestReplay? || a.DropLetter? {
      OperatorKeeps(s, a, m);
    } else if a.ReadCursor? || a.CheckWindow? || a.SelectRows? {
      PollStepKeeps(s, a, m);
    } else if a.Reanchor? || a.AckEvent? || a.Stop? {
      CursorStepKeeps(s, a, m);
    } else if a.StartWorker? || a.Crash? || a.EndBatch? {
      IdleStepsKeep(s, a, m);
    } else if a.BeginReplay? || a.EndReplay? {
      ReplayStepsKeep(s, a, m);
    } else {
      WorkerStepKeeps(s, a, m);
    }
  }

  lemma TableStepKeeps(s: State, a: Action, m: nat)
    requires Inv(s) && Enabled(s, a, m)
    requires a.Emit? || a.CreateCursor? || a.SweepLive? || a.DeleteMoved?
    ensures Inv(Step(s, a, m))
  {
    match a
    case Emit(e) => EmitKeeps(s, e);
    case CreateCursor(c, sub, start) => CreateCursorKeeps(s, c, sub, start);
    case SweepLive(now, capMs, archiveMode) => SweepKeeps(s, now, capMs, archiveMode);
    case DeleteMoved(p, capMs) => DeleteMovedKeeps(s, p, capMs);
  }

  lemma PollStepKeeps(s: State, a: Action, m: nat)
    requires Inv(s) && Enabled(s, a, m) && (a.ReadCursor? || a.CheckWindow? || a.SelectRows?)
    ensures Inv(Step(s, a, m))
  {
    match a
    case ReadCursor(w) => ReadKeeps(s, w);
    case CheckWindow(w) => WindowKeeps(s, w);
    case SelectRows(w, n) => SelectKeeps(s, w, n);
  }

  lemma CursorStepKeeps(s: State, a: Action, m: nat)
    requires Inv(s) && Enabled(s, a, m)
    requires a.Reanchor? || a.AckEvent? || a.Stop?
    ensures Inv(Step(s, a, m))
  {
    match a
    case Reanchor(w) => ReanchorKeeps(s, w);
    case AckEvent(w) => AckKeeps(s, w);
    case Stop(w) => StopKeeps(s, w);
  }

  lemma StopKeeps(s: State, w: nat)
    requires Inv(s) && w in s.workers
    ensures Inv(s.(workers := s.workers[w := s.workers[w].(stopping := true)]))
  {
    var s' := s.(workers := s.workers[w := s.workers[w].(stopping := true)]);
    var c := s.workers[w].cursor;
    assert Forward(s, s', c);
    WorkerKeeps(s, s', s.workers[w]);
    QuietMove(s, s', w, s'.workers[w]);
  }

  lemma {:induction false} RunKeeps(s: State, run: seq<Action>, m: nat)
    requires Inv(s) && CanRun(s, run, m)
    ensures Inv(After(s, run, m))
    decreases |run|
  {
    if run != [] {
      StepKeeps(s, run[0], m);
      RunKeeps(Step(s, run[0], m), run[1..], m);
    }
  }

  /** At-least-once over every run: no obligation of an active cursor is ever lost. */
  lemma AtLeastOnce(run: seq<Action>, m: nat)
    requires CanRun(Initial(), run, m)
    ensures NothingLost(After(Initial(), run, m))
  {
    RunKeeps(Initial(), run, m);
  }

  /** An active cursor with nothing deliverable left has had every obligation met. */
  lemma CaughtUpMeansSettled(run: seq<Action>, m: nat, c: string)
    requires CanRun(Initial(), run, m)
    requires var s := After(Initial(), run, m);
             s.t.Active(c) && s.t.Valid() && s.t.Deliverable(c) == []
    ensures var s := After(Initial(), run, m);
            forall e | (c, e) in s.h.owed :: Settled(s, c, e)
  {
    RunKeeps(Initial(), run, m);
    PendingIsDeliverable(After(Initial(), run, m), c);
  }

  lemma PendingIsDeliverable(s: State, c: string)
    requires s.t.Valid() && NothingLost(s) && s.t.Active(c)
    requires forall o | o in s.h.owed :: o.0 in s.t.cursors && s.t.Wants(o.0, o.1)
    ensures forall e | Pending(s, c, e) :: e in s.t.Deliverable(c)
  {
    forall e | Pending(s, c, e) ensures e in s.t.Deliverable(c) { assert (c, e) in s.h.owed; }
  }
}
