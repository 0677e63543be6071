/**
 The retry loop of module Subscriber as a run of the protocol of module Delivery (lib/subscribe.js): however
 the loop settles an event, some sequence of the protocol's actions has the same effect on the tables and the
 dead letters.
 */
module LoopRun {
  import opened Events
  import opened Wrappers
  import opened Database
  import Delivery
  import Retry
  import Subscriber

  /** How the handler calls of a run went: true for one that threw. */
  function Outcomes(run: seq<Delivery.Action>): (threw: seq<bool>) {
    if run == [] then [] else OutcomeOf(run[0]) + Outcomes(run[1..])
  }

  function OutcomeOf(a: Delivery.Action): (threw: seq<bool>) {
    if a.HandlerThrows? then [true] else if a.HandlerReturns? then [false] else []
  }

  lemma {:induction false} OutcomesConcat(a: seq<Delivery.Action>, b: seq<Delivery.Action>)
    ensures Outcomes(a + b) == Outcomes(a) + Outcomes(b)
    decreases |a|
  {
    if a == [] {
      assert a + b == b;
    } else {
      assert (a + b)[1..] == a[1..] + b;
      OutcomesConcat(a[1..], b);
    }
  }

  /** `n` calls that threw. */
  function Throws(n: nat): (threw: seq<bool>) {
    if n == 0 then [] else [true] + Throws(n - 1)
  }

  lemma {:induction false} ThrowsOneMore(n: nat)
    ensures Throws(n) + [true] == Throws(n + 1)
    decreases n
  {
    if n > 0 {
      ThrowsOneMore(n - 1);
      assert Throws(n) + [true] == [true] + (Throws(n - 1) + [true]);
    }
  }

  /** The outcomes of the calls that settled an event: all threw, but for the last of a handled one. */
  function Answers(r: Subscriber.Settled): (threw: seq<bool>)
    requires r.Handled? ==> r.calls > 0
  {
    if r.Handled? then Throws(r.calls - 1) + [false] else Throws(r.calls)
  }

  /** Worker `w` takes every action of the run. */
  ghost predicate By(run: seq<Delivery.Action>, w: nat) {
    forall a | a in run :: Retry.ActorOf(a) == Some(w)
  }

  /** The last call used up the retries. */
  predicate Exhausted(r: Subscriber.Settled, m: nat) {
    r.DeadLettered? && r.calls > 0 && r.attempts > m
  }

  /** The calls that failed and were followed by a backoff. */
  function Backoffs(r: Subscriber.Settled, m: nat): (n: nat)
    requires r.Handled? ==> r.calls > 0
  {
    if r.Handled? || Exhausted(r, m) then r.calls - 1 else r.calls
  }

  /** What `ProcessEvent` promises of how it settled an event that began with `first` recorded attempts. */
  predicate Possible(r: Subscriber.Settled, first: nat, m: nat) {
    && r.first == first && r.calls <= (if first <= m then m + 1 - first else 1)
    && (r.Handled? ==> r.calls > 0)
    && (r.DeadLettered? ==> r.attempts == first + r.calls && r.attempts > 0)
  }

  // ---------------------------------------------------------------- runs, joined

  lemma {:induction false} RunConcat(s: Delivery.State, a: seq<Delivery.Action>, b: seq<Delivery.Action>, m: nat)
    requires Delivery.CanRun(s, a, m) && Delivery.CanRun(Delivery.After(s, a, m), b, m)
    ensures Delivery.CanRun(s, a + b, m)
    ensures Delivery.After(s, a + b, m) == Delivery.After(Delivery.After(s, a, m), b, m)
    decreases |a|
  {
    if a == [] {
      assert a + b == b;
    } else {
      assert (a + b)[0] == a[0] && (a + b)[1..] == a[1..] + b;
      RunConcat(Delivery.Step(s, a[0], m), a[1..], b, m);
    }
  }

  lemma OneStep(s: Delivery.State, a: Delivery.Action, m: nat)
    requires s.t.Valid() && Delivery.Enabled(s, a, m)
    ensures Delivery.CanRun(s, [a], m) && Delivery.After(s, [a], m) == Delivery.Step(s, a, m)
    ensures Outcomes([a]) == OutcomeOf(a)
  {
    assert [a][1..] == [];
  }

  // ---------------------------------------------------------------- where the worker stands

  /** Worker `w` is on event `e` of cursor `c`, with these attempts made. */
  ghost predicate Stands(s: Delivery.State, w: nat, c: string, e: Event, attempts: nat, stage: Delivery.Stage) {
    && s.t.Valid() && Delivery.WorkingAt(s, w) && s.workers[w].cursor == c && Delivery.Current(s, w) == e
    && s.workers[w].pc.attempts == attempts && s.workers[w].pc.stage == stage
    && c in s.t.cursors && s.t.cursors[c].active
  }

  /** The worker keeps its place in the batch and goes on; the letters are as they were. */
  ghost predicate Goes(s: Delivery.State, s': Delivery.State, w: nat) {
    && w in s.workers && w in s'.workers && s.workers[w].pc.Working? && s'.workers[w].pc.Working?
    && s'.workers[w].pc.i == s.workers[w].pc.i && s'.workers[w].pc.batch == s.workers[w].pc.batch
    && s'.workers[w].stopping == s.workers[w].stopping
    && s'.deadLetters == s.deadLetters && s'.nextLetter == s.nextLetter
  }

  lemma BeginStep(s: Delivery.State, w: nat, c: string, e: Event, k: nat, m: nat)
    requires Stands(s, w, c, e, k, Delivery.Next) && !s.workers[w].stopping
    ensures Delivery.Enabled(s, Delivery.BeginEvent(w), m)
    ensures var s' := Delivery.Step(s, Delivery.BeginEvent(w), m);
            && Stands(s', w, c, e, Delivery.Count(s.t.attempts, (c, e.id)), Delivery.Ready)
            && Goes(s, s', w) && s'.t == s.t
  {
  }

  lemma CallStep(s: Delivery.State, w: nat, c: string, e: Event, k: nat, m: nat)
    requires Stands(s, w, c, e, k, Delivery.Ready) && !s.workers[w].stopping
    ensures Delivery.Enabled(s, Delivery.CallHandler(w), m)
    ensures var s' := Delivery.Step(s, Delivery.CallHandler(w), m);
            Stands(s', w, c, e, k, Delivery.Running) && Goes(s, s', w) && s'.t == s.t
  {
  }

  lemma ThrowStep(s: Delivery.State, w: nat, c: string, e: Event, k: nat, m: nat)
    requires Stands(s, w, c, e, k, Delivery.Running)
    ensures Delivery.Enabled(s, Delivery.HandlerThrows(w), m)
    ensures var s' := Delivery.Step(s, Delivery.HandlerThrows(w), m);
            Stands(s', w, c, e, k + 1, Delivery.Failed) && Goes(s, s', w) && s'.t == s.t
  {
  }

  lemma ReturnStep(s: Delivery.State, w: nat, c: string, e: Event, k: nat, m: nat)
    requires Stands(s, w, c, e, k, Delivery.Running)
    ensures Delivery.Enabled(s, Delivery.HandlerReturns(w), m)
    ensures var s' := Delivery.Step(s, Delivery.HandlerReturns(w), m);
            Stands(s', w, c, e, k, Delivery.Clearing(false)) && Goes(s, s', w) && s'.t == s.t
  {
  }

  lemma RecordStep(s: Delivery.State, w: nat, c: string, e: Event, k: nat, m: nat)
    requires Stands(s, w, c, e, k, Delivery.Failed) && k <= m
    ensures Delivery.Enabled(s, Delivery.RecordAttempt(w), m)
    ensures var s' := Delivery.Step(s, Delivery.RecordAttempt(w), m);
            Stands(s', w, c, e, k, Delivery.Sleeping) && Goes(s, s', w)
            && s'.t == s.t.(attempts := s.t.attempts[(c, e.id) := k])
  {
  }

  lemma WakeStep(s: Delivery.State, w: nat, c: string, e: Event, k: nat, m: nat)
    requires Stands(s, w, c, e, k, Delivery.Sleeping) && !s.workers[w].stopping
    ensures Delivery.Enabled(s, Delivery.WakeUp(w), m)
    ensures var s' := Delivery.Step(s, Delivery.WakeUp(w), m);
            Stands(s', w, c, e, k, Delivery.Ready) && Goes(s, s', w) && s'.t == s.t
  {
  }

  lemma StopStep(s: Delivery.State, w: nat, c: string, e: Event, k: nat, m: nat)
    requires Stands(s, w, c, e, k, Delivery.Ready)
    ensures Delivery.Enabled(s, Delivery.Stop(w), m)
    ensures var s' := Delivery.Step(s, Delivery.Stop(w), m);
            && Stands(s', w, c, e, k, Delivery.Ready) && s'.workers[w].stopping && s'.t == s.t
            && s'.deadLetters == s.deadLetters && s'.nextLetter == s.nextLetter
            && s'.workers[w].pc.i == s.workers[w].pc.i && s'.workers[w].pc.batch == s.workers[w].pc.batch
  {
  }

  /** The letter, from the catch block or from a loop told to stop. */
  lemma LetterStep(s: Delivery.State, w: nat, c: string, e: Event, k: nat, m: nat)
    requires || (Stands(s, w, c, e, k, Delivery.Failed) && k > m)
             || (Stands(s, w, c, e, k, Delivery.Ready) && s.workers[w].stopping && k > 0)
    ensures Delivery.Enabled(s, Delivery.InsertDeadLetter(w), m)
    ensures var s' := Delivery.Step(s, Delivery.InsertDeadLetter(w), m);
            && Stands(s', w, c, e, k, Delivery.Clearing(true)) && s'.t == s.t
            && s'.workers[w].pc.i == s.workers[w].pc.i && s'.workers[w].pc.batch == s.workers[w].pc.batch
            && s'.deadLetters == s.deadLetters[s.nextLetter := Delivery.DeadLetter(c, e, k, false)]
            && s'.nextLetter == s.nextLetter + 1
  {
  }

  // ---------------------------------------------------------------- tries

  /** Some actions of worker `w`, from `s` to `s'`, with these outcomes of the handler calls among them. */
  ghost predicate Leads(s: Delivery.State, run: seq<Delivery.Action>, s': Delivery.State, w: nat, threw: seq<bool>,
                        m: nat) {
    && Delivery.CanRun(s, run, m) && s' == Delivery.After(s, run, m)
    && By(run, w) && Outcomes(run) == threw
  }

  lemma LeadsOn(s: Delivery.State, a: seq<Delivery.Action>, s1: Delivery.State, x: seq<bool>,
                b: seq<Delivery.Action>, s2: Delivery.State, y: seq<bool>, w: nat, m: nat)
    returns (run: seq<Delivery.Action>)
    requires Leads(s, a, s1, w, x, m) && Leads(s1, b, s2, w, y, m)
    ensures Leads(s, run, s2, w, x + y, m)
  {
    run := a + b;
    RunConcat(s, a, b, m);
    OutcomesConcat(a, b);
  }

  /** One action. */
  lemma LeadsOne(s: Delivery.State, a: Delivery.Action, w: nat, m: nat) returns (run: seq<Delivery.Action>)
    requires s.t.Valid() && Delivery.Enabled(s, a, m) && Retry.ActorOf(a) == Some(w)
    ensures Leads(s, run, Delivery.Step(s, a, m), w, OutcomeOf(a), m)
  {
    OneStep(s, a, m);
    run := [a];
  }

  lemma LeadsTwo(s: Delivery.State, a: Delivery.Action, b: Delivery.Action, w: nat, m: nat)
    returns (run: seq<Delivery.Action>, s': Delivery.State)
    requires s.t.Valid() && Delivery.Enabled(s, a, m) && Retry.ActorOf(a) == Retry.ActorOf(b) == Some(w)
    requires var s1 := Delivery.Step(s, a, m); s1.t.Valid() && Delivery.Enabled(s1, b, m)
    ensures s' == Delivery.Step(Delivery.Step(s, a, m), b, m)
    ensures Leads(s, run, s', w, OutcomeOf(a) + OutcomeOf(b), m)
  {
    var s1 := Delivery.Step(s, a, m);
    s' := Delivery.Step(s1, b, m);
    var first := LeadsOne(s, a, w, m);
    var second := LeadsOne(s1, b, w, m);
    run := LeadsOn(s, first, s1, OutcomeOf(a), second, s', OutcomeOf(b), w, m);
  }

  /** The attempt row goes, and the cursor is on the event. */
  lemma FinishSteps(s: Delivery.State, w: nat, c: string, e: Event, k: nat, m: nat, dead: bool)
    returns (run: seq<Delivery.Action>, s': Delivery.State)
    requires Stands(s, w, c, e, k, Delivery.Clearing(dead))
    ensures Leads(s, run, s', w, [], m) && Advanced(s, s', w)
    ensures s'.t == Subscriber.AfterEvent(s.t, c, e)
    ensures s'.deadLetters == s.deadLetters && s'.nextLetter == s.nextLetter
  {
    run, s' := LeadsTwo(s, Delivery.ClearAttempt(w), Delivery.AckEvent(w), w, m);
  }

  /** A call that throws. */
  lemma FailedCall(s: Delivery.State, w: nat, c: string, e: Event, k: nat, m: nat)
    returns (run: seq<Delivery.Action>, s': Delivery.State)
    requires Stands(s, w, c, e, k, Delivery.Ready) && !s.workers[w].stopping
    ensures Leads(s, run, s', w, [true], m)
    ensures Stands(s', w, c, e, k + 1, Delivery.Failed) && Goes(s, s', w) && s'.t == s.t
  {
    CallStep(s, w, c, e, k, m);
    ThrowStep(Delivery.Step(s, Delivery.CallHandler(w), m), w, c, e, k, m);
    run, s' := LeadsTwo(s, Delivery.CallHandler(w), Delivery.HandlerThrows(w), w, m);
  }

  /** The attempt is recorded, and after the backoff the loop is where it was. */
  lemma BackedOff(s: Delivery.State, w: nat, c: string, e: Event, k: nat, m: nat)
    returns (run: seq<Delivery.Action>, s': Delivery.State)
    requires Stands(s, w, c, e, k, Delivery.Failed) && !s.workers[w].stopping && k <= m
    ensures Leads(s, run, s', w, [], m)
    ensures Stands(s', w, c, e, k, Delivery.Ready) && Goes(s, s', w)
    ensures s'.t == s.t.(attempts := s.t.attempts[(c, e.id) := k])
  {
    RecordStep(s, w, c, e, k, m);
    WakeStep(Delivery.Step(s, Delivery.RecordAttempt(w), m), w, c, e, k, m);
    run, s' := LeadsTwo(s, Delivery.RecordAttempt(w), Delivery.WakeUp(w), w, m);
  }

  lemma OneRetry(s: Delivery.State, w: nat, c: string, e: Event, k: nat, m: nat)
    returns (run: seq<Delivery.Action>, s': Delivery.State)
    requires Stands(s, w, c, e, k, Delivery.Ready) && !s.workers[w].stopping && k < m
    ensures Leads(s, run, s', w, [true], m) && Failed(s, s', w, c, e, k, 1)
  {
    var call, s1 := FailedCall(s, w, c, e, k, m);
    var rest;
    rest, s' := BackedOff(s1, w, c, e, k + 1, m);
    run := LeadsOn(s, call, s1, [true], rest, s', [], w, m);
  }

  /** After `n` failed tries: only the attempt row is new. */
  ghost predicate Failed(s: Delivery.State, s': Delivery.State, w: nat, c: string, e: Event, k: nat, n: nat) {
    && Stands(s', w, c, e, k + n, Delivery.Ready) && Goes(s, s', w)
    && s'.t == if n == 0 then s.t else s.t.(attempts := s.t.attempts[(c, e.id) := k + n])
  }

  lemma {:induction false} RetriesRun(s: Delivery.State, w: nat, c: string, e: Event, k: nat, n: nat, m: nat)
    returns (run: seq<Delivery.Action>, s': Delivery.State)
    requires Stands(s, w, c, e, k, Delivery.Ready) && !s.workers[w].stopping && (n == 0 || k + n <= m)
    ensures Leads(s, run, s', w, Throws(n), m) && Failed(s, s', w, c, e, k, n)
    decreases n
  {
    if n == 0 {
      run, s' := [], s;
    } else {
      var one, s1 := OneRetry(s, w, c, e, k, m);
      var rest;
      rest, s' := RetriesRun(s1, w, c, e, k + 1, n - 1, m);
      run := RetriesMore(s, one, s1, rest, s', w, c, e, k, n, m);
    }
  }

  lemma RetriesMore(s: Delivery.State, one: seq<Delivery.Action>, s1: Delivery.State, rest: seq<Delivery.Action>,
                    s': Delivery.State, w: nat, c: string, e: Event, k: nat, n: nat, m: nat)
    returns (run: seq<Delivery.Action>)
    requires n > 0 && Leads(s, one, s1, w, [true], m) && Failed(s, s1, w, c, e, k, 1)
    requires Leads(s1, rest, s', w, Throws(n - 1), m) && Failed(s1, s', w, c, e, k + 1, n - 1)
    ensures Leads(s, run, s', w, Throws(n), m) && Failed(s, s', w, c, e, k, n)
  {
    run := LeadsOn(s, one, s1, [true], rest, s', Throws(n - 1), w, m);
    FailedMore(s, s1, s', w, c, e, k, n);
  }

  lemma FailedMore(s: Delivery.State, s1: Delivery.State, s': Delivery.State, w: nat, c: string, e: Event,
                   k: nat, n: nat)
    requires n > 0 && Failed(s, s1, w, c, e, k, 1) && Failed(s1, s', w, c, e, k + 1, n - 1)
    ensures Failed(s, s', w, c, e, k, n)
  {
  }

  /** The last try leaves the worker about to clear the attempt row, with the letter written if there is one. */
  ghost predicate Tried(s: Delivery.State, s': Delivery.State, w: nat, c: string, e: Event, r: Subscriber.Settled) {
    && Delivery.WorkingAt(s', w) && Stands(s', w, c, e, s'.workers[w].pc.attempts, Delivery.Clearing(r.DeadLettered?))
    && w in s.workers && s.workers[w].pc.Working? && s'.t == s.t
    && s'.workers[w].pc.i == s.workers[w].pc.i && s'.workers[w].pc.batch == s.workers[w].pc.batch
    && LettersAfter(s, s', c, e, r)
  }

  ghost predicate LettersAfter(s: Delivery.State, s': Delivery.State, c: string, e: Event, r: Subscriber.Settled) {
    && s'.deadLetters == (if r.Handled? then s.deadLetters
                          else s.deadLetters[s.nextLetter := Delivery.DeadLetter(c, e, r.attempts, false)])
    && s'.nextLetter == s.nextLetter + if r.Handled? then 0 else 1
  }

  /** The outcomes of the last try, if there is a call in it. */
  function LastAnswer(r: Subscriber.Settled, m: nat): (threw: seq<bool>) {
    if r.Handled? then [false] else if Exhausted(r, m) then [true] else []
  }

  /** It works, or no retry is left, or `stop()` has come. */
  lemma LastTryRuns(s: Delivery.State, w: nat, c: string, e: Event, k: nat, r: Subscriber.Settled, m: nat)
    returns (run: seq<Delivery.Action>, s': Delivery.State)
    requires Stands(s, w, c, e, k, Delivery.Ready) && !s.workers[w].stopping
    requires r.DeadLettered? ==> r.attempts > 0 && r.attempts == if Exhausted(r, m) then k + 1 else k
    ensures Leads(s, run, s', w, LastAnswer(r, m), m) && Tried(s, s', w, c, e, r)
  {
    if r.Handled? {
      run, s' := WorkedRuns(s, w, c, e, k, r, m);
    } else if Exhausted(r, m) {
      run, s' := ExhaustedRuns(s, w, c, e, k, r, m);
    } else {
      run, s' := StoppedRuns(s, w, c, e, k, r, m);
    }
  }

  lemma WorkedRuns(s: Delivery.State, w: nat, c: string, e: Event, k: nat, r: Subscriber.Settled, m: nat)
    returns (run: seq<Delivery.Action>, s': Delivery.State)
    requires Stands(s, w, c, e, k, Delivery.Ready) && !s.workers[w].stopping && r.Handled?
    ensures Leads(s, run, s', w, [false], m) && Tried(s, s', w, c, e, r)
  {
    CallStep(s, w, c, e, k, m);
    ReturnStep(Delivery.Step(s, Delivery.CallHandler(w), m), w, c, e, k, m);
    run, s' := LeadsTwo(s, Delivery.CallHandler(w), Delivery.HandlerReturns(w), w, m);
  }

  lemma ExhaustedRuns(s: Delivery.State, w: nat, c: string, e: Event, k: nat, r: Subscriber.Settled, m: nat)
    returns (run: seq<Delivery.Action>, s': Delivery.State)
    requires Stands(s, w, c, e, k, Delivery.Ready) && !s.workers[w].stopping
    requires Exhausted(r, m) && r.attempts == k + 1
    ensures Leads(s, run, s', w, [true], m) && Tried(s, s', w, c, e, r)
  {
    var call, s1 := FailedCall(s, w, c, e, k, m);
    var letter;
    letter, s' := LetterRuns(s1, w, c, e, k + 1, r, m);
    TriedLater(s, s1, s', w, c, e, r);
    run := LeadsOn(s, call, s1, [true], letter, s', [], w, m);
  }

  lemma TriedLater(s: Delivery.State, s1: Delivery.State, s': Delivery.State, w: nat, c: string, e: Event,
                   r: Subscriber.Settled)
    requires Goes(s, s1, w) && s1.t == s.t && Tried(s1, s', w, c, e, r)
    ensures Tried(s, s', w, c, e, r)
  {
  }

  lemma LetterRuns(s: Delivery.State, w: nat, c: string, e: Event, k: nat, r: Subscriber.Settled, m: nat)
    returns (run: seq<Delivery.Action>, s': Delivery.State)
    requires Stands(s, w, c, e, k, Delivery.Failed) && k > m && r.DeadLettered? && r.attempts == k
    ensures Leads(s, run, s', w, [], m) && Tried(s, s', w, c, e, r)
  {
    LetterStep(s, w, c, e, k, m);
    run := LeadsOne(s, Delivery.InsertDeadLetter(w), w, m);
    s' := Delivery.Step(s, Delivery.InsertDeadLetter(w), m);
  }

  lemma StoppedRuns(s: Delivery.State, w: nat, c: string, e: Event, k: nat, r: Subscriber.Settled, m: nat)
    returns (run: seq<Delivery.Action>, s': Delivery.State)
    requires Stands(s, w, c, e, k, Delivery.Ready) && !s.workers[w].stopping
    requires r.DeadLettered? && r.attempts == k > 0
    ensures Leads(s, run, s', w, [], m) && Tried(s, s', w, c, e, r)
  {
    StopStep(s, w, c, e, k, m);
    LetterStep(Delivery.Step(s, Delivery.Stop(w), m), w, c, e, k, m);
    run, s' := LeadsTwo(s, Delivery.Stop(w), Delivery.InsertDeadLetter(w), w, m);
  }

  // ---------------------------------------------------------------- the whole event

  /** The tables, the letters and the next letter number. */
  predicate Agrees(s: Delivery.State, p: Subscriber.Progress) {
    s.t == p.t && s.deadLetters == p.letters && s.nextLetter == p.nextLetter
  }

  /** The worker is about to look at the event after. */
  predicate Advanced(s: Delivery.State, s': Delivery.State, w: nat) {
    && w in s.workers && s.workers[w].pc.Working? && w in s'.workers && s'.workers[w].pc.Working?
    && s'.workers[w].pc.stage.Next? && s'.workers[w].pc.i == s.workers[w].pc.i + 1
    && s'.workers[w].pc.batch == s.workers[w].pc.batch
  }

  /** The last try, the delete of the attempt row, and the acknowledgement. */
  lemma EndRuns(s: Delivery.State, w: nat, c: string, e: Event, k: nat, r: Subscriber.Settled, m: nat)
    returns (run: seq<Delivery.Action>, s': Delivery.State)
    requires Stands(s, w, c, e, k, Delivery.Ready) && !s.workers[w].stopping
    requires r.DeadLettered? ==> r.attempts > 0 && r.attempts == if Exhausted(r, m) then k + 1 else k
    ensures Leads(s, run, s', w, LastAnswer(r, m), m)
    ensures s'.t == Subscriber.AfterEvent(s.t, c, e) && LettersAfter(s, s', c, e, r) && Advanced(s, s', w)
  {
    var last, s1 := LastTryRuns(s, w, c, e, k, r, m);
    var done;
    done, s' := FinishSteps(s1, w, c, e, s1.workers[w].pc.attempts, m, r.DeadLettered?);
    run := LeadsOn(s, last, s1, LastAnswer(r, m), done, s', [], w, m);
  }

  lemma AnswersAre(r: Subscriber.Settled, m: nat)
    requires r.Handled? ==> r.calls > 0
    ensures Throws(Backoffs(r, m)) + LastAnswer(r, m) == Answers(r)
  {
    if Exhausted(r, m) { ThrowsOneMore(r.calls - 1); }
  }

  /** The worker is about to try for the first time. */
  lemma TriesRun(s: Delivery.State, w: nat, c: string, e: Event, first: nat, r: Subscriber.Settled, m: nat,
                 p: Subscriber.Progress)
    returns (run: seq<Delivery.Action>, s': Delivery.State)
    requires Stands(s, w, c, e, first, Delivery.Ready) && !s.workers[w].stopping
    requires Agrees(s, p) && Possible(r, first, m)
    ensures Leads(s, run, s', w, Answers(r), m)
    ensures Agrees(s', Subscriber.AfterSettling(p, c, e, r, m)) && Advanced(s, s', w)
  {
    assert c in p.t.cursors;
    var n := Backoffs(r, m);
    var a, s1 := RetriesRun(s, w, c, e, first, n, m);
    var b;
    b, s' := EndRuns(s1, w, c, e, first + n, r, m);
    run := LeadsOn(s, a, s1, Throws(n), b, s', LastAnswer(r, m), w, m);
    TriesEffect(s, s1, s', w, c, e, first, n, r, m, p);
    AnswersAre(r, m);
  }

  lemma TriesEffect(s: Delivery.State, s1: Delivery.State, s': Delivery.State, w: nat, c: string, e: Event, first: nat,
                    n: nat, r: Subscriber.Settled, m: nat, p: Subscriber.Progress)
    requires Agrees(s, p) && c in p.t.cursors && Failed(s, s1, w, c, e, first, n)
    requires s'.t == Subscriber.AfterEvent(s1.t, c, e) && LettersAfter(s1, s', c, e, r) && Advanced(s1, s', w)
    ensures Agrees(s', Subscriber.AfterSettling(p, c, e, r, m)) && Advanced(s, s', w)
  {
    RowForgotten(p, s1.t, c, e, first + n, r, m, s');
  }

  /**
   However the loop settles an event, worker `w` of the protocol has a run of its own actions with the same
   outcomes of the handler calls, in order, which ends with the same tables and dead letters and with the worker at
   the next event.
   */
  lemma SettlingIsARun(s: Delivery.State, w: nat, c: string, e: Event, k: nat, r: Subscriber.Settled, m: nat,
                       p: Subscriber.Progress)
    returns (run: seq<Delivery.Action>, s': Delivery.State)
    requires Stands(s, w, c, e, k, Delivery.Next) && !s.workers[w].stopping
    requires Agrees(s, p) && Possible(r, Delivery.Count(s.t.attempts, (c, e.id)), m)
    ensures Leads(s, run, s', w, Answers(r), m)
    ensures Agrees(s', Subscriber.AfterSettling(p, c, e, r, m)) && Advanced(s, s', w)
  {
    var first := Delivery.Count(s.t.attempts, (c, e.id));
    BeginStep(s, w, c, e, k, m);
    var begin := LeadsOne(s, Delivery.BeginEvent(w), w, m);
    var s1 := Delivery.Step(s, Delivery.BeginEvent(w), m);
    var tries;
    tries, s' := TriesRun(s1, w, c, e, first, r, m, p);
    run := LeadsOn(s, begin, s1, [], tries, s', Answers(r), w, m);
  }

  lemma RowForgotten(p: Subscriber.Progress, t: Tables, c: string, e: Event, attempts: nat, r: Subscriber.Settled,
                     m: nat, s': Delivery.State)
    requires c in p.t.cursors && (t == p.t || t == p.t.(attempts := p.t.attempts[(c, e.id) := attempts]))
    requires s'.t == Subscriber.AfterEvent(t, c, e)
    requires s'.deadLetters == (if r.Handled? then p.letters
                                else p.letters[p.nextLetter := Delivery.DeadLetter(c, e, r.attempts, false)])
    requires s'.nextLetter == p.nextLetter + if r.Handled? then 0 else 1
    ensures Agrees(s', Subscriber.AfterSettling(p, c, e, r, m))
  {
    assert p.t.attempts[(c, e.id) := attempts] - {(c, e.id)} == p.t.attempts - {(c, e.id)};
  }

  /** Worker `w` is about to begin event `e` of the active cursor `c`. */
  ghost predicate About(s: Delivery.State, w: nat, c: string, e: Event) {
    && Delivery.WorkingAt(s, w) && !s.workers[w].stopping
    && Stands(s, w, c, e, s.workers[w].pc.attempts, Delivery.Next)
  }

  /**
   `ProcessEvent` and the run it stands for: the call made, with the protocol in the same state before and after,
   and the handler's answers the same.
   */
  method ProcessEventIsARun(sub: Subscriber.Subscriber, e: Event, ghost s: Delivery.State, ghost w: nat)
    returns (r: Subscriber.Settled, ghost run: seq<Delivery.Action>, ghost s': Delivery.State, ghost threw: seq<bool>)
    requires sub.Registered() && Agrees(s, sub.Here()) && About(s, w, sub.cursor, e)
    modifies sub`calls, sub`stopping, sub`deadLetters, sub`nextLetter, sub`trace, sub.db`attempts, sub.db`cursors
    ensures |threw| == r.calls && forall i | 0 <= i < r.calls :: threw[i] == sub.handler.throws(old(sub.calls) + i)
    ensures Leads(s, run, s', w, threw, sub.maxRetries)
    ensures sub.Registered() && Agrees(s', sub.Here()) && Advanced(s, s', w)
  {
    ghost var before, made := sub.Here(), sub.calls;
    r := sub.ProcessEvent(e);
    run, s', threw := SettledSo(s, w, sub.cursor, e, r, sub.maxRetries, before, sub.Here(), sub.handler, made);
  }

  lemma SettledSo(s: Delivery.State, w: nat, c: string, e: Event, r: Subscriber.Settled, m: nat,
                  before: Subscriber.Progress, after: Subscriber.Progress, h: Subscriber.Handler, made: nat)
    returns (run: seq<Delivery.Action>, s': Delivery.State, threw: seq<bool>)
    requires About(s, w, c, e) && Agrees(s, before)
    requires Possible(r, Delivery.Count(s.t.attempts, (c, e.id)), m) && Subscriber.Went(h, made, r)
    requires c in before.t.cursors && after == Subscriber.AfterSettling(before, c, e, r, m)
    ensures |threw| == r.calls && forall i | 0 <= i < r.calls :: threw[i] == h.throws(made + i)
    ensures Leads(s, run, s', w, threw, m) && Agrees(s', after) && Advanced(s, s', w)
  {
    run, s' := SettlingIsARun(s, w, c, e, s.workers[w].pc.attempts, r, m, before);
    threw := Answers(r);
    AnsweredSo(h, made, r);
  }

  /** Those are the outcomes the handler gave. */
  lemma AnsweredSo(h: Subscriber.Handler, made: nat, r: Subscriber.Settled)
    requires Subscriber.Went(h, made, r)
    ensures |Answers(r)| == r.calls && forall i | 0 <= i < r.calls :: h.throws(made + i) == Answers(r)[i]
  {
    match r
    case Handled(_, calls) => ThrewSo(h, made, calls - 1);
    case DeadLettered(_, calls, _) => ThrewSo(h, made, calls);
  }

  lemma {:induction false} ThrewSo(h: Subscriber.Handler, made: nat, n: nat)
    requires Subscriber.AllThrew(h, made, n)
    ensures |Throws(n)| == n && forall i | 0 <= i < n :: Throws(n)[i] && h.throws(made + i)
    decreases n
  {
    if n > 0 {
      ThrewSo(h, made, n - 1);
      ThrowsOneMore(n - 1);
      forall i | 0 <= i < n ensures Throws(n)[i] && h.throws(made + i) {
        assert Throws(n)[i] == (Throws(n - 1) + [true])[i];
        if i < n - 1 { assert Throws(n - 1)[i] && h.throws(made + i); }
      }
    }
  }
}
